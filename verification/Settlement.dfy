/**
 * When does a payment's record settle? The pending record is written after the channel manager
 * accepts the payment, so an outcome event may be handled before there is anything to update.
 */
module Settlement {
  import opened Wrappers
  import opened Bytes
  import opened Records
  import opened PaymentEvents
  import opened Lifecycle

  /** The step hands the event handler an outcome event for `id`. */
  predicate DeliversFor(step: Step, id: PaymentId) {
    step.Deliver? && Target(step.event) == Some(id)
  }

  /** The outcome events for `id` delivered by `steps`, in order. */
  function OutcomesIn(steps: seq<Step>, id: PaymentId): seq<Event> {
    if steps == [] then []
    else
      var init, last := OutcomesIn(steps[..|steps| - 1], id), steps[|steps| - 1];
      if DeliversFor(last, id) then init + [last.event] else init
  }

  /** No API call writes a record of `id`. */
  ghost predicate NoWrites(steps: seq<Step>, id: PaymentId) {
    forall i :: 0 <= i < |steps| ==> !WritesFor(steps[i], id)
  }

  predicate HoldsFor(s: Sys, id: PaymentId) {
    s.handler.Holding? && s.handler.record.paymentId == id
  }

  /**
   * The record of `id` is not lost in this step: it is written when it is due, the process does not
   * end while the event handler holds it, and an outcome event for it does not stop the handler.
   */
  ghost predicate SmoothStep(s: Sys, step: Step, id: PaymentId) {
    && (WritesFor(step, id) ==> step.diskOk)
    && (HoldsFor(s, id) ==> !step.Restart? && (step.StoreRecord? ==> step.storeOk))
    && (DeliversFor(step, id) ==> !Panics(s.payments, step.event, s.verbose))
  }

  ghost predicate SmoothAt(s: Sys, steps: seq<Step>, id: PaymentId, i: nat)
    requires Run(s, steps).Some? && i < |steps|
  {
    SmoothStep(StateAt(s, steps, i), steps[i], id)
  }

  /** Crashes and disk failures that lose nothing of `id` may happen. */
  ghost predicate Smooth(s: Sys, steps: seq<Step>, id: PaymentId)
    requires Run(s, steps).Some?
  {
    forall i :: 0 <= i < |steps| ==> SmoothAt(s, steps, id, i)
  }

  lemma SmoothPrefix(s: Sys, steps: seq<Step>, id: PaymentId, n: nat)
    requires Run(s, steps).Some? && Smooth(s, steps, id) && n <= |steps|
    ensures Run(s, steps[..n]).Some? && Smooth(s, steps[..n], id)
  {
    RunPrefixes(s, steps, n);
    forall i | 0 <= i < n ensures SmoothAt(s, steps[..n], id, i) {
      assert steps[..n][..i] == steps[..i];
      assert SmoothAt(s, steps, id, i);
    }
  }

  lemma SmoothSuffix(s: Sys, steps: seq<Step>, id: PaymentId, n: nat)
    requires Run(s, steps).Some? && Smooth(s, steps, id) && n <= |steps|
    ensures Run(StateAt(s, steps, n), steps[n..]) == Run(s, steps)
    ensures Smooth(StateAt(s, steps, n), steps[n..], id)
  {
    StateSuffix(s, steps, n, 0);
    forall i | 0 <= i < |steps| - n ensures SmoothAt(StateAt(s, steps, n), steps[n..], id, i) {
      StateSuffix(s, steps, n, i);
      assert SmoothAt(s, steps, id, n + i);
    }
  }

  lemma SmoothSnoc(s: Sys, steps: seq<Step>, t: Sys, step: Step, u: Sys, id: PaymentId)
    returns (more: seq<Step>)
    requires Run(s, steps) == Some(t) && Take(t, step) == Some(u)
    requires Smooth(s, steps, id) && SmoothStep(t, step, id)
    ensures more == steps + [step] && Run(s, more) == Some(u) && Smooth(s, more, id)
  {
    more := steps + [step];
    assert more[..|steps|] == steps;
    forall i | 0 <= i < |more| ensures SmoothAt(s, more, id, i) {
      if i < |steps| {
        assert more[..i] == steps[..i];
        assert SmoothAt(s, steps, id, i);
      }
    }
  }

  /** The record of `id` as it will be once the event handler has put down what it holds. */
  function Current(s: Sys, id: PaymentId): Option<Payment> {
    if HoldsFor(s, id) then Some(s.handler.record)
    else if id in s.payments then Some(s.payments[id])
    else None
  }

  // ----- One step -----

  /** A step that neither writes nor delivers for `id` leaves its record as it is going to be. */
  lemma OtherStep(s: Sys, step: Step, id: PaymentId)
    requires Inv(s) && Take(s, step).Some? && SmoothStep(s, step, id)
    requires !WritesFor(step, id) && !DeliversFor(step, id)
    ensures Current(Take(s, step).value, id) == Current(s, id)
  {
    if step.Deliver? {
      OtherDelivery(s, step.event, id);
    }
  }

  lemma OtherDelivery(s: Sys, e: Event, id: PaymentId)
    requires Inv(s) && s.handler.Idle? && Target(e) != Some(id)
    ensures Current(Take(s, Deliver(e)).value, id) == Current(s, id)
  {
    var f := Fetch(s.payments, e, s.verbose);
    if f.Change? {
      assert f.record.paymentId == Target(e).value;
    }
  }

  /** A delivery for `id` settles its record, if there is one. */
  lemma OwnDelivery(s: Sys, e: Event, id: PaymentId)
    requires Inv(s) && s.handler.Idle? && Target(e) == Some(id)
    requires !Panics(s.payments, e, s.verbose)
    ensures var t := Take(s, Deliver(e)).value;
            Current(t, id) == match Current(s, id)
                              case None => None
                              case Some(p) => Some(Outcome(p, [e]))
  {
    if id in s.payments {
      OutcomeOfOne(s.payments[id], e);
    }
  }

  lemma OutcomeOfOne(p: Payment, e: Event)
    requires Target(e) == Some(p.paymentId)
    ensures Outcome(p, [e])
            == if e.PaymentSent?
               then p.(status := Succeeded, paymentPreimage := Some(e.preimage), feePaidMsat := e.feePaidMsat)
               else p.(status := Failed)
  {
    var log := [e];
    assert log[..|log| - 1] == [];
    assert LastReceipt([], p.paymentId, Receipt(p.paymentPreimage, p.feePaidMsat))
        == Receipt(p.paymentPreimage, p.feePaidMsat);
  }

  lemma OutcomeSnoc(p: Payment, log: seq<Event>, e: Event)
    requires Target(e) == Some(p.paymentId)
    ensures Outcome(p, log + [e]) == Outcome(Outcome(p, log), [e])
  {
    LastAppend(log, [e], p.paymentId, p.status, Receipt(p.paymentPreimage, p.feePaidMsat));
  }

  // ----- Whole runs -----

  /**
   * A stretch of a run with no API write for `id`: the record ends up at the outcome of exactly
   * the events for `id` delivered in it, read and written back in separate steps though they are;
   * without a record to start from there is none at the end.
   */
  lemma {:induction false} QuietStretch(s: Sys, steps: seq<Step>, id: PaymentId)
    requires Inv(s) && Run(s, steps).Some? && Smooth(s, steps, id)
    requires NoWrites(steps, id)
    requires Current(s, id).Some? ==> Current(s, id).value.paymentId == id
    ensures Current(Run(s, steps).value, id)
            == match Current(s, id)
               case None => None
               case Some(p) => Some(Outcome(p, OutcomesIn(steps, id)))
  {
    if steps != [] {
      var init, last := steps[..|steps| - 1], steps[|steps| - 1];
      SmoothPrefix(s, steps, id, |steps| - 1);
      QuietStretch(s, init, id);
      RunKeepsInv(s, init);
      var t := Run(s, init).value;
      assert t == StateAt(s, steps, |steps| - 1);
      assert SmoothAt(s, steps, id, |steps| - 1) && !WritesFor(last, id);
      if DeliversFor(last, id) {
        OwnDelivery(t, last.event, id);
        if Current(s, id).Some? {
          OutcomeSnoc(Current(s, id).value, OutcomesIn(init, id), last.event);
        }
      } else {
        OtherStep(t, last, id);
      }
    }
  }

  lemma {:induction false} OutcomesAreOwn(steps: seq<Step>, id: PaymentId)
    ensures forall e :: e in OutcomesIn(steps, id) ==> Target(e) == Some(id)
  {
    if steps != [] {
      OutcomesAreOwn(steps[..|steps| - 1], id);
    }
  }

  /**
   * A lost update is healed by replay: from any state, whatever a crash or a failed write lost
   * before, a smooth stretch that delivers outcomes for a stored id again settles it as the last
   * of them says.
   */
  lemma ReplaySettles(s: Sys, steps: seq<Step>, id: PaymentId)
    requires Inv(s) && Run(s, steps).Some? && Smooth(s, steps, id)
    requires NoWrites(steps, id)
    requires Current(s, id).Some? && Current(s, id).value.paymentId == id
    requires OutcomesIn(steps, id) != []
    ensures Current(Run(s, steps).value, id).Some?
    ensures var log := OutcomesIn(steps, id);
            Current(Run(s, steps).value, id).value.status
            == if log[|log| - 1].PaymentSent? then Succeeded else Failed
  {
    QuietStretch(s, steps, id);
    OutcomesAreOwn(steps, id);
    var log := OutcomesIn(steps, id);
    assert log[|log| - 1] in log;
  }

  /** A run in which one API call writes the record of `id` at step `w`, and nothing else does. */
  ghost predicate OneWrite(s: Sys, steps: seq<Step>, id: PaymentId, w: nat, p: Payment) {
    && Inv(s) && Run(s, steps).Some? && Smooth(s, steps, id)
    && Current(s, id) == None
    && w < |steps| && steps[w] == WriteRecord(p, true)
    && p.paymentId == id && p.direction == Outbound
    && forall i :: 0 <= i < |steps| && i != w ==> !WritesFor(steps[i], id)
  }

  /** The write itself: before it there is no record, after it there is `p`. */
  lemma WriteLands(s: Sys, steps: seq<Step>, id: PaymentId, w: nat, p: Payment)
    requires OneWrite(s, steps, id, w, p)
    ensures Inv(StateAt(s, steps, w + 1)) && Fresh(p)
    ensures Current(StateAt(s, steps, w + 1), id) == Some(p)
  {
    SmoothPrefix(s, steps, id, w);
    QuietStretch(s, steps[..w], id);
    InvAt(s, steps, w);
    InvAt(s, steps, w + 1);
    StateNext(s, steps, w);
  }

  /**
   * Interleaved handling settles like atomic handling: whatever else runs, the record ends at the
   * outcome of exactly those events for its id that are delivered after it was written.
   */
  lemma SettlesByLaterEvents(s: Sys, steps: seq<Step>, id: PaymentId, w: nat, p: Payment)
    requires OneWrite(s, steps, id, w, p)
    ensures Current(Run(s, steps).value, id) == Some(Outcome(p, OutcomesIn(steps[w + 1..], id)))
    ensures Fresh(p)
  {
    WriteLands(s, steps, id, w, p);
    AfterWriteQuiet(s, steps, id, w, p);
    QuietStretch(StateAt(s, steps, w + 1), steps[w + 1..], id);
  }

  /** The rest of the run continues from the write and writes nothing more for the id. */
  lemma AfterWriteQuiet(s: Sys, steps: seq<Step>, id: PaymentId, w: nat, p: Payment)
    requires OneWrite(s, steps, id, w, p)
    ensures Run(StateAt(s, steps, w + 1), steps[w + 1..]) == Run(s, steps)
    ensures Smooth(StateAt(s, steps, w + 1), steps[w + 1..], id) && NoWrites(steps[w + 1..], id)
  {
    SmoothSuffix(s, steps, id, w + 1);
    var tail := steps[w + 1..];
    forall i | 0 <= i < |tail| ensures !WritesFor(tail[i], id) {
      assert tail[i] == steps[w + 1 + i];
    }
  }

  lemma {:induction false} NoOutcomes(steps: seq<Step>, id: PaymentId)
    requires forall i :: 0 <= i < |steps| ==> !DeliversFor(steps[i], id)
    ensures OutcomesIn(steps, id) == []
  {
    if steps != [] {
      NoOutcomes(steps[..|steps| - 1], id);
    }
  }

  lemma {:induction false} OneOutcome(steps: seq<Step>, id: PaymentId, g: nat)
    requires g < |steps| && DeliversFor(steps[g], id)
    requires forall i :: 0 <= i < |steps| && i != g ==> !DeliversFor(steps[i], id)
    ensures OutcomesIn(steps, id) == [steps[g].event]
  {
    var init := steps[..|steps| - 1];
    if g == |init| {
      NoOutcomes(init, id);
    } else {
      OneOutcome(init, id, g);
    }
  }

  /** The one outcome of a run, if it comes after step `w`. */
  lemma OutcomeAfter(steps: seq<Step>, id: PaymentId, w: nat, g: nat)
    requires w < |steps| && g < |steps| && w != g && DeliversFor(steps[g], id)
    requires forall i :: 0 <= i < |steps| && i != g ==> !DeliversFor(steps[i], id)
    ensures OutcomesIn(steps[w + 1..], id) == if w < g then [steps[g].event] else []
  {
    var tail := steps[w + 1..];
    assert forall i :: 0 <= i < |tail| ==> tail[i] == steps[w + 1 + i];
    if w < g {
      assert tail[g - w - 1] == steps[g];
      OneOutcome(tail, id, g - w - 1);
    } else {
      NoOutcomes(tail, id);
    }
  }

  /**
   * One accepted pay call, one outcome event: once the event handler has put its copy down, the
   * record is settled if and only if the pending record was written before the event was handed
   * over. Settled, it carries the event's outcome; otherwise it stays pending for good.
   */
  lemma SettledIffWrittenFirst(s: Sys, steps: seq<Step>, id: PaymentId, w: nat, p: Payment,
                               g: nat, e: Event)
    requires OneWrite(s, steps, id, w, p)
    requires g < |steps| && steps[g] == Deliver(e) && Target(e) == Some(id)
    requires forall i :: 0 <= i < |steps| && i != g ==> !DeliversFor(steps[i], id)
    requires !HoldsFor(Run(s, steps).value, id)
    ensures id in Run(s, steps).value.payments
    ensures var r := Run(s, steps).value.payments[id];
            && (r.status != Pending <==> w < g)
            && r == if w < g then Outcome(p, [e]) else p
  {
    SettlesByLaterEvents(s, steps, id, w, p);
    OutcomeAfter(steps, id, w, g);
    OutcomeOfOne(p, e);
  }

  // ----- Writes that land between the handler's read and its write -----

  /** While the handler holds a copy, only API writes change the stored record. */
  lemma {:induction false} StoredWhileHolding(s: Sys, steps: seq<Step>, id: PaymentId)
    requires Inv(s) && s.handler.Holding? && id in s.payments && Run(s, steps).Some?
    requires forall i :: 0 <= i < |steps| ==> !steps[i].StoreRecord? && !steps[i].Restart?
    ensures Run(s, steps).value.handler == s.handler
    ensures id in Run(s, steps).value.payments
    ensures Some(Run(s, steps).value.payments[id]) == LastWritten(steps, id, Some(s.payments[id]))
  {
    if steps != [] {
      var init, last := steps[..|steps| - 1], steps[|steps| - 1];
      StoredWhileHolding(s, init, id);
      HoldingStep(Run(s, init).value, last, id);
    }
  }

  lemma HoldingStep(t: Sys, step: Step, id: PaymentId)
    requires t.handler.Holding? && id in t.payments && Take(t, step).Some?
    requires !step.StoreRecord? && !step.Restart?
    ensures var u := Take(t, step).value;
            && u.handler == t.handler && id in u.payments
            && u.payments[id] == if WritesFor(step, id) && step.diskOk then step.record else t.payments[id]
  {
  }

  /** Direction and amount, which an outcome event has no business changing. */
  function Terms(p: Payment): (PaymentId, Bytes32, PaymentDirection, Option<U64>) {
    (p.paymentId, p.paymentHash, p.direction, p.amountMsat)
  }

  lemma FetchKeepsTerms(m: Payments, e: Event, verbose: bool)
    requires FiledById(m) && Fetch(m, e, verbose).Change?
    ensures Target(e).Some? && Target(e).value in m
    ensures Terms(Fetch(m, e, verbose).record) == Terms(m[Target(e).value])
  {
  }

  /** Of two records under one id, hashes being ids, the terms differ in direction or amount only. */
  lemma TermsSame(p: Payment, q: Payment)
    requires RecordOk(p) && RecordOk(q) && p.paymentId == q.paymentId
    ensures Terms(p) == Terms(q) <==> p.direction == q.direction && p.amountMsat == q.amountMsat
  {
  }

  lemma HeldIsWritten(t: Sys)
    requires t.handler.Holding?
    ensures var r := t.handler.record;
            Take(t, StoreRecord(true)) == Some(t.(handler := Idle, payments := t.payments[r.paymentId := r]))
  {
  }

  /**
   * The event handler's write keeps the stored id, hash, direction and amount if and only if the last
   * API write to land since its read, if any, had the direction and amount that were read.
   */
  lemma StoreKeepsTermsExactly(s: Sys, e: Event, between: seq<Step>)
    requires Inv(s) && s.handler.Idle? && Fetch(s.payments, e, s.verbose).Change?
    requires var held := Take(s, Deliver(e)).value; Run(held, between).Some?
    requires forall i :: 0 <= i < |between| ==> !between[i].StoreRecord? && !between[i].Restart?
    ensures var id, t := Target(e).value, Run(Take(s, Deliver(e)).value, between).value;
            && id in s.payments && id in t.payments && Take(t, StoreRecord(true)).Some?
            && var r := Take(t, StoreRecord(true)).value.payments;
               && id in r
               && (Terms(r[id]) == Terms(t.payments[id])
                   <==> var last := LastWritten(between, id, Some(s.payments[id])).value;
                        last.direction == s.payments[id].direction
                        && last.amountMsat == s.payments[id].amountMsat)
  {
    FetchKeepsTerms(s.payments, e, s.verbose);
    var id, held := Target(e).value, Take(s, Deliver(e)).value;
    TakeKeepsInv(s, Deliver(e));
    StoredWhileHolding(held, between, id);
    RunKeepsInv(held, between);
    var t := Run(held, between).value;
    HeldIsWritten(t);
    TermsSame(t.handler.record, t.payments[id]);
  }

  // ----- Runs that show each of these happening -----

  lemma Extend(s: Sys, steps: seq<Step>, t: Sys, step: Step, u: Sys) returns (more: seq<Step>)
    requires Run(s, steps) == Some(t) && Take(t, step) == Some(u)
    ensures more == steps + [step] && Run(s, more) == Some(u)
  {
    more := steps + [step];
    assert more[..|more| - 1] == steps;
  }

  lemma Overwrite(id: PaymentId, p: Payment, q: Payment)
    ensures map[][id := p] == map[id := p]
    ensures map[id := p][id := q] == map[id := q]
  {
  }

  /**
   * An outcome can be missed: any event for the payment, handled after the channel manager has
   * accepted it and before the pending record is written, leaves it pending.
   */
  lemma OutcomeCanBeMissed(hash: Bytes32, a: U64, e: Event, verbose: bool)
    returns (s: Sys, steps: seq<Step>)
    requires Target(e) == Some(hash)
    ensures s == EmptySys(verbose) && |steps| == 3 && steps[1] == Deliver(e)
    ensures OneWrite(s, steps, hash, 2, OutboundRecord(hash, a))
    ensures Run(s, steps) == Some(s.(payments := map[hash := OutboundRecord(hash, a)]))
  {
    s := EmptySys(verbose);
    var p := OutboundRecord(hash, a);
    var s1, s2 := s.(waiting := multiset{p}), s.(payments := map[hash := p]);
    MissedSteps(hash, a, e, verbose);
    steps := [];
    steps := SmoothSnoc(s, steps, s, PayCall(hash, Some(a), None, true), s1, hash);
    steps := SmoothSnoc(s, steps, s1, Deliver(e), s1, hash);
    steps := SmoothSnoc(s, steps, s1, WriteRecord(p, true), s2, hash);
  }

  lemma MissedSteps(hash: Bytes32, a: U64, e: Event, verbose: bool)
    requires Target(e) == Some(hash)
    ensures var s, p := EmptySys(verbose), OutboundRecord(hash, a);
            var s1, call, write := s.(waiting := multiset{p}), PayCall(hash, Some(a), None, true), WriteRecord(p, true);
            && Take(s, call) == Some(s1) && Take(s1, Deliver(e)) == Some(s1)
            && Take(s1, write) == Some(s.(payments := map[hash := p]))
            && SmoothStep(s, call, hash) && SmoothStep(s1, Deliver(e), hash) && SmoothStep(s1, write, hash)
  {
    OneWaiting(OutboundRecord(hash, a));
    Overwrite(hash, OutboundRecord(hash, a), OutboundRecord(hash, a));
  }

  /** The common start: a pay call accepted and its record written. */
  lemma Paid(hash: Bytes32, a: U64, verbose: bool) returns (steps: seq<Step>, t: Sys)
    ensures t == EmptySys(verbose).(payments := map[hash := OutboundRecord(hash, a)])
    ensures Run(EmptySys(verbose), steps) == Some(t)
  {
    var s, p := EmptySys(verbose), OutboundRecord(hash, a);
    OneWaiting(p);
    Overwrite(hash, p, p);
    t := s.(payments := map[hash := p]);
    steps := [];
    steps := Extend(s, steps, s, PayCall(hash, None, Some(a), true), s.(waiting := multiset{p}));
    steps := Extend(s, steps, s.(waiting := multiset{p}), WriteRecord(p, true), t);
  }

  /** While info messages are off, a `PaymentSent` without a fee settles a payment without one. */
  lemma FeeCanBeMissing(hash: Bytes32, a: U64, preimage: Bytes32) returns (s: Sys, steps: seq<Step>)
    ensures s == EmptySys(false)
    ensures Run(s, steps)
            == Some(s.(payments := map[hash := OutboundRecord(hash, a).(status := Succeeded,
                                                                        paymentPreimage := Some(preimage))]))
  {
    s := EmptySys(false);
    var paid;
    steps, paid := Paid(hash, a, false);
    var p := OutboundRecord(hash, a);
    var f := p.(status := Succeeded, paymentPreimage := Some(preimage));
    Overwrite(hash, p, f);
    steps := Extend(s, steps, paid, Deliver(PaymentSent(Some(hash), preimage, hash, None)),
                    paid.(handler := Holding(f)));
    steps := Extend(s, steps, paid.(handler := Holding(f)), StoreRecord(true), s.(payments := map[hash := f]));
  }

  /**
   * The handler's write can undo an API write: a failed payment of an open-amount invoice is
   * retried with another amount while its failure is being handled, and the retry's record is
   * replaced by the old one.
   */
  lemma RetryCanBeLost(hash: Bytes32, a: U64, b: U64, verbose: bool) returns (s: Sys, steps: seq<Step>)
    requires a != b
    ensures s == EmptySys(verbose) && Run(s, steps).Some?
    ensures WriteRecord(OutboundRecord(hash, b), true) in steps
    ensures Run(s, steps).value.payments == map[hash := OutboundRecord(hash, a).(status := Failed)]
  {
    s := EmptySys(verbose);
    var paid;
    steps, paid := Paid(hash, a, verbose);
    var p, q := OutboundRecord(hash, a), OutboundRecord(hash, b);
    var f := p.(status := Failed);
    var s3 := paid.(handler := Holding(f));
    var s4 := s3.(waiting := multiset{q});
    var s5 := s3.(payments := map[hash := q]);
    OneWaiting(q);
    Overwrite(hash, p, q);
    Overwrite(hash, q, f);
    steps := Extend(s, steps, paid, Deliver(PaymentFailed(hash, Some(hash), Some(0))), s3);
    steps := Extend(s, steps, s3, PayCall(hash, None, Some(b), true), s4);
    steps := Extend(s, steps, s4, WriteRecord(q, true), s5);
    steps := Extend(s, steps, s5, StoreRecord(true), s.(payments := map[hash := f]));
  }

  /**
   * The handler's unwrap of the amount is not safe in every run: should the channel manager accept
   * a payment of the node's own open-amount invoice, handling its outcome before the pay record is
   * written stops the event handler, if info messages are on.
   */
  lemma OwnInvoiceCanStopHandler(hash: Bytes32, a: U64, preimage: Bytes32, fee: U64)
    returns (s: Sys, steps: seq<Step>)
    ensures s == EmptySys(true) && Run(s, steps).Some?
    ensures Run(s, steps).value.handler == Stopped
  {
    s := EmptySys(true);
    var p, q := InboundRecord(hash, None), OutboundRecord(hash, a);
    var s1, s2 := s.(waiting := multiset{p}), s.(payments := map[hash := p]);
    var s3 := s2.(waiting := multiset{q});
    OneWaiting(p);
    OneWaiting(q);
    Overwrite(hash, p, q);
    steps := [];
    steps := Extend(s, steps, s, InvoiceCall(hash, None), s1);
    steps := Extend(s, steps, s1, WriteRecord(p, true), s2);
    steps := Extend(s, steps, s2, PayCall(hash, None, Some(a), true), s3);
    steps := Extend(s, steps, s3, Deliver(PaymentSent(Some(hash), preimage, hash, Some(fee))),
                    s3.(handler := Stopped));
  }
}
