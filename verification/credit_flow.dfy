/** Manual link credit: the worker that grants credit, consumes under it and periodically drains,
    against a peer that may do anything a link peer can do between two of the worker's calls. The
    peer's side follows section 2.6.7 of OASIS AMQP 1.0 Part 2: a delivery takes one unit of
    credit, and a drain ends with no credit left. What the peer did wrong is counted on its side
    only, by `Link`; the worker is then held to those counts. */
module CreditFlow {
  import opened Basics

  datatype DrainResult = Completed | LinkLost | Interrupted | Expired

  /** The worker's context: cancelled at any moment, for good. */
  class Context {
    var cancelled: bool

    constructor ()
      ensures !cancelled
    {
      cancelled := false;
    }

    method Err() returns (ended: bool)
      modifies this
      ensures ended == cancelled && (old(cancelled) ==> cancelled)
    {
      if * {
        cancelled := true;
      }
      return cancelled;
    }
  }

  /** A receiver link as the worker sees it, with its peer. */
  class Link {
    var credit: nat      // credit the peer holds
    var prefetch: nat    // delivered, not yet taken by the worker
    var rogue: nat       // messages the peer will push without holding credit; 0 if it conforms
    const mayHang: bool  // the peer may leave a drain unanswered
    var broken: bool     // the link is gone: accepts fail from now on

    ghost var issued: nat
    ghost var delivered: nat
    ghost var consumed: nat
    ghost var pushed: nat    // deliveries made without credit
    ghost var returned: nat  // credit given back by drains

    ghost var drained: bool  // a drain has completed and no credit was granted since
    ghost var quiet: bool    // and since then the cache was found empty
    ghost var dry: nat       // looks that found nothing while credit was granted
    ghost var windows: nat   // waits made on a quiet link
    ghost var hangs: nat     // drains left unanswered
    ghost var over: nat      // deliveries made on a quiet link
    ghost var found: nat     // those of them taken and settled while it was still quiet
    ghost var missed: nat    // those not settled, or still cached when the quiet ended

    ghost predicate Valid()
      reads this
    {
      && delivered + credit + returned == issued + pushed && delivered == consumed + prefetch
      && (drained ==> credit == 0) && (quiet ==> drained)
      && over == found + missed + (if quiet then prefetch else 0)
      && over <= pushed
    }

    constructor (rogue: nat, mayHang: bool)
      ensures Valid() && credit == prefetch == issued == delivered == consumed == pushed == returned == 0
      ensures this.rogue == rogue && this.mayHang == mayHang && !broken && !drained
      ensures dry == windows == hangs == over == found == missed == 0
    {
      credit, prefetch, broken := 0, 0, false;
      this.rogue, this.mayHang := rogue, mayHang;
      issued, delivered, consumed, pushed, returned := 0, 0, 0, 0, 0;
      drained, quiet, dry, windows, hangs, over, found, missed := false, false, 0, 0, 0, 0, 0, 0;
    }

    /** The peer's turn: any number of deliveries under its credit, and any number without. */
    method PeerActs()
      requires Valid()
      modifies this`credit, this`prefetch, this`rogue, this`delivered, this`pushed, this`over
      ensures Valid() && credit <= old(credit) && rogue <= old(rogue)
      ensures pushed + rogue == old(pushed + rogue)
      ensures delivered - old(delivered) == old(credit) - credit + (old(rogue) - rogue)
      ensures over - old(over) == if quiet then pushed - old(pushed) else 0
    {
      var k :| 0 <= k <= credit;
      credit, prefetch, delivered := credit - k, prefetch + k, delivered + k;
      var e :| 0 <= e <= rogue;
      rogue, prefetch, delivered, pushed := rogue - e, prefetch + e, delivered + e, pushed + e;
      if quiet {
        over := over + e;
      }
    }

    /** The quiet is over: what is still cached from it will never be told apart. */
    ghost method EndQuiet()
      requires Valid()
      modifies this`drained, this`quiet, this`missed
      ensures Valid() && !drained && !quiet
      ensures missed == old(missed) + (if old(quiet) then prefetch else 0)
    {
      if quiet {
        missed := missed + prefetch;
      }
      drained, quiet := false, false;
    }

    method Issue(n: nat) returns (ok: bool)
      requires Valid()
      modifies this`credit, this`prefetch, this`rogue, this`delivered, this`pushed, this`over,
               this`issued, this`drained, this`quiet, this`missed
      ensures Valid() && ok == !broken && (ok ==> !drained)
      ensures issued == old(issued) + (if ok then n else 0)
      ensures 0 <= over - old(over) <= pushed - old(pushed)
      ensures rogue <= old(rogue) && pushed + rogue == old(pushed + rogue)
    {
      PeerActs();
      ok := !broken;
      if ok {
        EndQuiet();
        credit, issued := credit + n, issued + n;
      }
    }

    /** Is there a message to take? */
    method Look() returns (some: bool)
      requires Valid()
      modifies this`credit, this`prefetch, this`rogue, this`delivered, this`pushed, this`over, this`quiet, this`dry
      ensures Valid() && credit <= old(credit) && rogue <= old(rogue)
      ensures pushed + rogue == old(pushed + rogue)
      ensures delivered - old(delivered) == old(credit) - credit + (old(rogue) - rogue)
      ensures 0 <= over - old(over) <= pushed - old(pushed)
      ensures some <==> prefetch > 0
      ensures quiet <==> old(quiet) || (drained && !some)
      ensures dry == old(dry) + (if !some && !drained then 1 else 0)
    {
      PeerActs();
      some := prefetch > 0;
      dry := dry + (if !some && !drained then 1 else 0);
      quiet := quiet || (drained && !some);
    }

    /** Takes one message and settles it, which fails once the link is gone or the run cancelled. */
    method TakeAndAccept(ctx: Context) returns (ok: bool)
      requires Valid() && prefetch > 0
      modifies ctx, this`prefetch, this`consumed, this`broken, this`found, this`missed
      ensures Valid() && prefetch == old(prefetch) - 1 && consumed == old(consumed) + 1
      ensures (old(broken) ==> broken) && (old(ctx.cancelled) ==> ctx.cancelled)
      ensures (ok ==> !broken) && (!ok ==> broken || ctx.cancelled)
      ensures found == old(found) + (if quiet && ok then 1 else 0)
      ensures missed == old(missed) + (if quiet && !ok then 1 else 0)
    {
      prefetch, consumed := prefetch - 1, consumed + 1;
      if * {
        broken := true;
      }
      var ended := ctx.Err();
      ok :| (ok ==> !broken) && (!ok ==> broken || ended);
      if quiet {
        if ok { found := found + 1; } else { missed := missed + 1; }
      }
    }

    /** Asks for the remaining credit back. */
    method Drain(ctx: Context) returns (result: DrainResult)
      requires Valid()
      modifies this, ctx
      ensures Valid() && rogue <= old(rogue) && pushed + rogue == old(pushed + rogue)
      ensures issued == old(issued) && consumed == old(consumed) && found == old(found) && windows == old(windows)
      ensures dry == old(dry)
      ensures (old(broken) ==> broken) && (old(ctx.cancelled) ==> ctx.cancelled)
      ensures over == old(over) && missed == old(missed) + (if old(quiet) then old(prefetch) else 0)
      ensures !quiet && drained == result.Completed?
      ensures hangs == old(hangs) + (if result.Expired? then 1 else 0)
      ensures result.Expired? ==> mayHang
      ensures result.LinkLost? ==> broken
      ensures result.Interrupted? ==> ctx.cancelled
    {
      EndQuiet();
      PeerActs();
      result :| result.Expired? ==> mayHang;
      match result {
        case Completed => GiveBack();
        case LinkLost => broken := true;
        case Interrupted => ctx.cancelled := true;
        case Expired => hangs := hangs + 1;
      }
    }

    method GiveBack()
      requires Valid() && !quiet
      modifies this`returned, this`credit, this`drained
      ensures Valid() && drained && credit == 0
    {
      returned, credit, drained := returned + credit, 0, true;
    }

    /** Time passes on the link; false when the wait was cancelled. */
    method Wait(ctx: Context) returns (slept: bool)
      requires Valid()
      modifies ctx, this`credit, this`prefetch, this`rogue, this`delivered, this`pushed, this`over, this`windows
      ensures Valid() && rogue <= old(rogue) && pushed + rogue == old(pushed + rogue)
      ensures old(ctx.cancelled) ==> ctx.cancelled
      ensures 0 <= over - old(over) <= pushed - old(pushed)
      ensures (old(ctx.cancelled) ==> !slept) && (!slept ==> ctx.cancelled)
      ensures windows == old(windows) + (if slept && quiet then 1 else 0)
    {
      var before := ctx.cancelled;
      PeerActs();
      var ended := ctx.Err();
      slept :| (before ==> !slept) && (!slept ==> ended);
      if slept && quiet {
        windows := windows + 1;
      }
    }
  }

  class Worker {
    const creditBatch: nat
    var fidelityFailures: nat

    constructor (credit: int)
      ensures fidelityFailures == 0 && 1 <= creditBatch <= 1024
      ensures creditBatch == if 1 <= credit <= 1024 then credit else if credit > 1024 then 1024 else 50
    {
      var batch := 50;
      if credit > 0 { batch := credit; }
      if batch > 1024 { batch := 1024; }
      creditBatch, fidelityFailures := batch, 0;
    }

    /** Takes messages until the cache is empty, and counts those settled. */
    method DrainPrefetch(link: Link, ctx: Context) returns (n: nat)
      requires link.Valid()
      modifies ctx, link`credit, link`prefetch, link`rogue, link`delivered, link`pushed, link`over, link`quiet,
               link`consumed, link`broken, link`found, link`missed, link`dry
      ensures link.drained ==> link.dry == old(link.dry)
      ensures link.Valid() && link.rogue <= old(link.rogue) && link.pushed + link.rogue == old(link.pushed + link.rogue)
      ensures (old(link.broken) ==> link.broken && n == 0) && (old(ctx.cancelled) ==> ctx.cancelled)
      ensures old(link.quiet) ==> link.quiet && n == link.found - old(link.found)
      ensures !old(link.quiet) ==> link.found == old(link.found) && link.missed == old(link.missed)
      ensures n <= link.consumed - old(link.consumed) && link.missed >= old(link.missed)
      ensures 0 <= link.over - old(link.over) <= link.pushed - old(link.pushed)
      ensures !link.broken && !ctx.cancelled ==>
                && link.prefetch == 0 && (link.drained ==> link.quiet) && link.missed == old(link.missed)
                && n == old(link.prefetch) + (link.delivered - old(link.delivered))
    {
      n := 0;
      while true
        invariant link.Valid() && link.rogue <= old(link.rogue)
        invariant link.pushed + link.rogue == old(link.pushed + link.rogue)
        invariant (old(link.broken) ==> link.broken && n == 0) && (old(ctx.cancelled) ==> ctx.cancelled)
        invariant link.quiet == old(link.quiet) && n == link.consumed - old(link.consumed)
        invariant link.found == old(link.found) + (if link.quiet then n else 0)
        invariant link.missed == old(link.missed) && link.dry == old(link.dry)
        invariant 0 <= link.over - old(link.over) <= link.pushed - old(link.pushed)
        decreases link.prefetch + link.credit + link.rogue
      {
        var some := link.Look();
        if !some { return; }
        var ok := link.TakeAndAccept(ctx);
        if !ok { return; }
        n := n + 1;
      }
    }

    /** The gate against the peer's own account: it moved by the over-deliveries found and by the
        unanswered drains, where only a drain cut by cancellation may go unrecorded. */
    twostate predicate Gated(link: Link, ctx: Context)
      reads this, link, ctx
    {
      && link.Valid()
      && (old(link.broken) ==> link.broken) && (old(ctx.cancelled) ==> ctx.cancelled)
      && link.rogue <= old(link.rogue) && link.pushed + link.rogue == old(link.pushed + link.rogue)
      && link.hangs >= old(link.hangs) && (!link.mayHang ==> link.hangs == old(link.hangs))
      && 0 <= link.found - old(link.found) <= link.over - old(link.over) <= link.pushed - old(link.pushed)
      && 0 <= fidelityFailures - old(fidelityFailures) <= link.found - old(link.found) + (link.hangs - old(link.hangs))
      && (!ctx.cancelled ==>
            fidelityFailures - old(fidelityFailures) == link.found - old(link.found) + (link.hangs - old(link.hangs)))
    }

    /** The second half of a pass: absorb what the drain let through, wait, look again. */
    method ConfirmQuiet(link: Link, ctx: Context) returns (ok: bool)
      requires link.Valid() && link.drained && !link.quiet
      modifies this, ctx, link`credit, link`prefetch, link`rogue, link`delivered, link`pushed, link`over,
               link`quiet, link`consumed, link`broken, link`found, link`missed, link`windows, link`dry
      ensures Gated(link, ctx) && link.dry == old(link.dry) && link.consumed >= old(link.consumed)
      ensures fidelityFailures - old(fidelityFailures) == link.found - old(link.found)
      ensures !ok ==> ctx.cancelled
      ensures ok && !link.broken && !ctx.cancelled ==>
                && link.quiet && link.prefetch == 0 && link.windows == old(link.windows) + 1
                && link.found - old(link.found) == link.over - old(link.over)
    {
      var absorbed := DrainPrefetch(link, ctx);
      var slept := link.Wait(ctx);
      if !slept { return false; }
      var over := DrainPrefetch(link, ctx);
      if over > 0 {
        fidelityFailures := fidelityFailures + over;
      }
      return true;
    }

    /** One drain, no-over-delivery and resume pass. */
    method DrainAndVerify(link: Link, ctx: Context) returns (ok: bool)
      requires link.Valid()
      modifies this, link, ctx
      ensures Gated(link, ctx)
      ensures link.issued == old(link.issued) && link.dry == old(link.dry) && link.consumed >= old(link.consumed)
      ensures ok ==> link.hangs == old(link.hangs) && link.credit == 0
      ensures !ok ==> link.broken || ctx.cancelled || link.hangs == old(link.hangs) + 1
      ensures link.hangs > old(link.hangs) && !ctx.cancelled ==> fidelityFailures == old(fidelityFailures) + 1
      ensures ok && !link.broken && !ctx.cancelled ==>
                && link.quiet && link.prefetch == 0 && link.windows == old(link.windows) + 1
                && fidelityFailures - old(fidelityFailures) == link.over - old(link.over)
    {
      var result := link.Drain(ctx);
      if !result.Completed? {
        var ended := ctx.Err();
        if ended || result.LinkLost? { return false; }
        fidelityFailures := fidelityFailures + 1;
        return false;
      }
      ok := ConfirmQuiet(link, ctx);
    }

    /** Receive under credit: takes and settles one message if there is one. */
    method TakeOne(link: Link, ctx: Context) returns (some: bool, accepted: bool)
      requires link.Valid() && !link.drained
      modifies ctx, link`credit, link`prefetch, link`rogue, link`delivered, link`pushed, link`over, link`quiet,
               link`consumed, link`broken, link`found, link`missed, link`dry
      ensures link.Valid() && link.found == old(link.found)
      ensures (old(link.broken) ==> link.broken) && (old(ctx.cancelled) ==> ctx.cancelled)
      ensures link.rogue <= old(link.rogue) && link.pushed + link.rogue == old(link.pushed + link.rogue)
      ensures 0 <= link.over - old(link.over) <= link.pushed - old(link.pushed)
      ensures !some ==> link.prefetch == 0 && link.dry == old(link.dry) + 1 && link.consumed == old(link.consumed)
      ensures some ==> link.dry == old(link.dry) && link.consumed == old(link.consumed) + 1
      ensures some && !accepted ==> link.broken || ctx.cancelled
    {
      some := link.Look();
      accepted := false;
      if some {
        accepted := link.TakeAndAccept(ctx);
      }
    }

    /** Takes and settles messages until the batch is used up or the queue is empty. */
    method ConsumeGranted(link: Link, ctx: Context) returns (ok: bool)
      requires link.Valid() && !link.drained
      modifies ctx, link`credit, link`prefetch, link`rogue, link`delivered, link`pushed, link`over, link`quiet,
               link`consumed, link`broken, link`found, link`missed, link`dry
      ensures link.Valid() && link.found == old(link.found)
      ensures (old(link.broken) ==> link.broken) && (old(ctx.cancelled) ==> ctx.cancelled)
      ensures link.rogue <= old(link.rogue) && link.pushed + link.rogue == old(link.pushed + link.rogue)
      ensures 0 <= link.over - old(link.over) <= link.pushed - old(link.pushed)
      ensures !ok ==> link.broken || ctx.cancelled
      ensures ok ==> link.consumed == old(link.consumed) + creditBatch || link.prefetch == 0
      ensures old(link.consumed) <= link.consumed <= old(link.consumed) + creditBatch
      ensures ok ==> link.dry == old(link.dry) + (if link.consumed == old(link.consumed) + creditBatch then 0 else 1)
    {
      var received := 0;
      while received < creditBatch
        invariant link.Valid() && link.found == old(link.found)
        invariant (old(link.broken) ==> link.broken) && (old(ctx.cancelled) ==> ctx.cancelled)
        invariant link.rogue <= old(link.rogue) && link.pushed + link.rogue == old(link.pushed + link.rogue)
        invariant 0 <= link.over - old(link.over) <= link.pushed - old(link.pushed)
        invariant link.dry == old(link.dry) && !link.drained
        invariant received <= creditBatch && link.consumed == old(link.consumed) + received
      {
        var ended := ctx.Err();
        if ended { return false; }
        var some, accepted := TakeOne(link, ctx);
        if !some { break; }
        if !accepted { return false; }
        received := received + 1;
      }
      return true;
    }

    /** One batch: grant, then consume under the grant. */
    method ConsumeBatch(link: Link, ctx: Context) returns (ok: bool)
      requires link.Valid()
      modifies link, ctx
      ensures Gated(link, ctx) && link.found == old(link.found) && link.hangs == old(link.hangs)
      ensures link.windows == old(link.windows) && (!ok ==> link.broken || ctx.cancelled)
      ensures ok ==> link.issued == old(link.issued) + creditBatch
      ensures ok ==> link.consumed == old(link.consumed) + creditBatch || link.prefetch == 0
      ensures old(link.consumed) <= link.consumed <= old(link.consumed) + creditBatch
      ensures ok ==> link.dry == old(link.dry) + (if link.consumed == old(link.consumed) + creditBatch then 0 else 1)
    {
      ok := link.Issue(creditBatch);
      if !ok { return; }
      ok := ConsumeGranted(link, ctx);
    }

    /** One round: a batch, and a drain pass when one is due. */
    method Round(link: Link, ctx: Context, due: bool) returns (ok: bool)
      requires link.Valid()
      modifies this, link, ctx
      ensures Gated(link, ctx)
      ensures !ok ==> link.broken || ctx.cancelled || link.hangs > old(link.hangs)
      ensures ok && !link.broken && !ctx.cancelled ==> link.windows == old(link.windows) + (if due then 1 else 0)
      ensures ok ==> link.issued == old(link.issued) + creditBatch
      ensures ok ==> || (link.dry == old(link.dry) && link.consumed >= old(link.consumed) + creditBatch)
                     || (link.dry == old(link.dry) + 1 && link.consumed >= old(link.consumed))
    {
      ok := ConsumeBatch(link, ctx);
      if ok && due {
        ok := DrainAndVerify(link, ctx);
      }
    }

    /** Any number of rounds, some of them with a drain pass due, cancelled anywhere. On a link that
        stays up every round grants a batch, and uses it up or finds nothing more. Against a peer
        that never delivers without credit and answers every drain, no failure is ever recorded and
        no more is consumed than granted. */
    method CreditCycle(link: Link, ctx: Context, due: seq<bool>)
      requires link.Valid()
      modifies this, link, ctx
      ensures Gated(link, ctx)
      ensures !link.broken && !ctx.cancelled && link.hangs == old(link.hangs) ==>
                && link.windows == old(link.windows) + Passes(due)
                && Progress(|due|, creditBatch, link.issued - old(link.issued), link.dry - old(link.dry),
                            link.consumed - old(link.consumed))
      ensures old(link.rogue) == 0 && !link.mayHang ==> fidelityFailures == old(fidelityFailures)
      ensures old(link.rogue + link.pushed) == 0 ==> link.consumed <= link.delivered <= link.issued
    {
      hide Progress, Passes;
      NoRounds(creditBatch);
      for round := 0 to |due|
        invariant Gated(link, ctx)
        invariant !link.broken && !ctx.cancelled && link.hangs == old(link.hangs) ==>
                    && link.windows == old(link.windows) + Passes(due[..round])
                    && Progress(round, creditBatch, link.issued - old(link.issued), link.dry - old(link.dry),
                                link.consumed - old(link.consumed))
      {
        PassesNext(due, round);
        ghost var issued, dry := link.issued - old(link.issued), link.dry - old(link.dry);
        ghost var consumed := link.consumed - old(link.consumed);
        var ended := ctx.Err();
        if ended { return; }
        var ok := Round(link, ctx, due[round]);
        if !ok { return; }
        ProgressNext(round, creditBatch, issued, dry, consumed, link.dry - old(link.dry),
                     link.consumed - old(link.consumed));
      }
      assert due[..|due|] == due;
    }
  }

  /** Every round granted a batch, and all but the dry ones used theirs up. */
  ghost predicate Progress(rounds: nat, batch: nat, issued: int, dry: int, consumed: int) {
    issued == rounds * batch && 0 <= dry <= rounds && consumed >= (rounds - dry) * batch
  }

  lemma NoRounds(batch: nat)
    ensures Progress(0, batch, 0, 0, 0) && Passes([]) == 0
  {
  }

  lemma ProgressNext(rounds: nat, batch: nat, issued: int, dry: int, consumed: int, dryNow: int, consumedNow: int)
    requires || (dryNow == dry && consumedNow >= consumed + batch)
             || (dryNow == dry + 1 && consumedNow >= consumed)
    ensures Progress(rounds, batch, issued, dry, consumed) ==>
              Progress(rounds + 1, batch, issued + batch, dryNow, consumedNow)
  {
    assert (rounds + 1) * batch == rounds * batch + batch;
    assert (rounds + 1 - dry) * batch == (rounds - dry) * batch + batch;
  }

  lemma PassesNext(due: seq<bool>, n: nat)
    requires n < |due|
    ensures Passes(due[..n + 1]) == Passes(due[..n]) + (if due[n] then 1 else 0)
  {
    assert Init(due[..n + 1]) == due[..n];
  }

  /** How many drain passes a schedule asks for. */
  function Passes(due: seq<bool>): nat {
    if due == [] then 0 else Passes(Init(due)) + (if Last(due) then 1 else 0)
  }
}
