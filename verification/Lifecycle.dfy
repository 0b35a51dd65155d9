/**
 * The payment lifecycle as an interleaved system. API calls ask the channel manager first and
 * write their record afterwards; the event handler reads a record, changes its copy and writes it
 * back. Each lock hold of the store is one step, so these halves interleave freely.
 */
module Lifecycle {
  import opened Wrappers
  import opened Bytes
  import opened Records
  import opened PaymentEvents

  // ----- The records API calls write -----

  /** The amount to pay: the invoice's own, else the caller's. */
  function AmountToPay(invoiceAmount: Option<U64>, amountMsat: Option<U64>): Option<U64> {
    if invoiceAmount.Some? then invoiceAmount else amountMsat
  }

  function OutboundRecord(hash: Bytes32, amount: U64): Payment {
    Payment(hash, hash, None, Outbound, Some(amount), None, Pending)
  }

  function InboundRecord(hash: Bytes32, amountMsat: Option<U64>): Payment {
    Payment(hash, hash, None, Inbound, amountMsat, None, Pending)
  }

  // ----- States and steps -----

  /** The event handler between two lock holds. */
  datatype Handler = Idle | Holding(record: Payment) | Stopped

  /**
   * The stored payments, the records of API calls that the channel manager has accepted and that
   * are still to be written, the event handler, and whether the process logs info messages.
   */
  datatype Sys = Sys(payments: Payments, waiting: multiset<Payment>, handler: Handler, verbose: bool)

  /** A node just started on an empty store. */
  function EmptySys(verbose: bool): Sys {
    Sys(map[], multiset{}, Idle, verbose)
  }

  datatype Step =
    | PayCall(payHash: Bytes32, invoiceAmount: Option<U64>, amountMsat: Option<U64>, accepted: bool)
    | InvoiceCall(invoiceHash: Bytes32, inboundMsat: Option<U64>)
    | WriteRecord(record: Payment, diskOk: bool)
    | Deliver(event: Event)
    | StoreRecord(storeOk: bool)
    | Restart(infoOn: bool)

  /** The state after a step, if the step can be taken. */
  function Take(s: Sys, step: Step): Option<Sys> {
    match step
    case PayCall(hash, invoiceAmount, amountMsat, accepted) =>
      var amount := AmountToPay(invoiceAmount, amountMsat);
      if amount.None? || !accepted then Some(s)
      else Some(s.(waiting := s.waiting + multiset{OutboundRecord(hash, amount.value)}))
    case InvoiceCall(hash, amountMsat) =>
      Some(s.(waiting := s.waiting + multiset{InboundRecord(hash, amountMsat)}))
    case WriteRecord(p, diskOk) =>
      if p !in s.waiting then None
      else Some(s.(waiting := s.waiting - multiset{p},
                   payments := if diskOk then Write(s.payments, p) else s.payments))
    case Deliver(e) =>
      if !s.handler.Idle? then None
      else
        (match Fetch(s.payments, e, s.verbose)
         case Nothing => Some(s)
         case Panic => Some(s.(handler := Stopped))
         case Change(p) => Some(s.(handler := Holding(p))))
    case StoreRecord(storeOk) =>
      if !s.handler.Holding? then None
      else Some(s.(handler := Idle,
                   payments := if storeOk then Write(s.payments, s.handler.record) else s.payments))
    case Restart(infoOn) => Some(Sys(s.payments, multiset{}, Idle, infoOn))
  }

  function Run(s: Sys, steps: seq<Step>): Option<Sys> {
    if steps == [] then Some(s)
    else
      match Run(s, steps[..|steps| - 1])
      case None => None
      case Some(t) => Take(t, steps[|steps| - 1])
  }

  lemma {:induction false} RunAppend(s: Sys, a: seq<Step>, b: seq<Step>)
    ensures Run(s, a + b) == match Run(s, a) case None => None case Some(t) => Run(t, b)
  {
    if b == [] {
      assert a + b == a;
    } else {
      assert (a + b)[..|a + b| - 1] == a + b[..|b| - 1];
      RunAppend(s, a, b[..|b| - 1]);
    }
  }

  lemma RunPrefixes(s: Sys, steps: seq<Step>, i: nat)
    requires Run(s, steps).Some? && i <= |steps|
    ensures Run(s, steps[..i]).Some?
  {
    assert steps == steps[..i] + steps[i..];
    RunAppend(s, steps[..i], steps[i..]);
  }

  /** The state of a run before step `i`. */
  function StateAt(s: Sys, steps: seq<Step>, i: nat): Sys
    requires Run(s, steps).Some? && i <= |steps|
  {
    RunPrefixes(s, steps, i);
    Run(s, steps[..i]).value
  }

  lemma StateNext(s: Sys, steps: seq<Step>, i: nat)
    requires Run(s, steps).Some? && i < |steps|
    ensures Take(StateAt(s, steps, i), steps[i]) == Some(StateAt(s, steps, i + 1))
  {
    RunPrefixes(s, steps, i + 1);
    var more := steps[..i + 1];
    assert more[..|more| - 1] == steps[..i] && more[|more| - 1] == steps[i];
  }

  lemma StateSuffix(s: Sys, steps: seq<Step>, n: nat, i: nat)
    requires Run(s, steps).Some? && n + i <= |steps|
    ensures Run(StateAt(s, steps, n), steps[n..]) == Run(s, steps)
    ensures StateAt(StateAt(s, steps, n), steps[n..], i) == StateAt(s, steps, n + i)
  {
    assert steps == steps[..n] + steps[n..];
    RunAppend(s, steps[..n], steps[n..]);
    assert steps[..n + i] == steps[..n] + steps[n..][..i];
    RunAppend(s, steps[..n], steps[n..][..i]);
  }

  lemma StateEnds(s: Sys, steps: seq<Step>)
    requires Run(s, steps).Some?
    ensures StateAt(s, steps, 0) == s && StateAt(s, steps, |steps|) == Run(s, steps).value
  {
    assert steps[..|steps|] == steps && steps[..0] == [];
  }

  lemma OneWaiting(p: Payment)
    ensures multiset{} + multiset{p} == multiset{p}
    ensures multiset{p} - multiset{p} == multiset{}
  {
  }

  // ----- The invariant of every run -----

  ghost predicate RecordOk(p: Payment) {
    && p.paymentHash == p.paymentId
    && (p.status == Succeeded ==> p.paymentPreimage.Some?)
    && (p.direction == Outbound ==> p.amountMsat.Some?)
  }

  /** A record an API call is about to write. */
  ghost predicate Fresh(p: Payment) {
    RecordOk(p) && p.status == Pending && p.paymentPreimage == None && p.feePaidMsat == None
  }

  ghost predicate RecordsOk(m: Payments) {
    FiledById(m) && forall id :: id in m ==> RecordOk(m[id])
  }

  ghost predicate AllFresh(waiting: multiset<Payment>) {
    forall p :: p in waiting ==> Fresh(p)
  }

  ghost predicate Inv(s: Sys) {
    && RecordsOk(s.payments)
    && AllFresh(s.waiting)
    && (s.handler.Holding? ==> RecordOk(s.handler.record) && s.handler.record.paymentId in s.payments)
  }

  lemma WriteKeepsOk(m: Payments, p: Payment)
    requires RecordsOk(m) && RecordOk(p)
    ensures RecordsOk(Write(m, p)) && m.Keys <= Write(m, p).Keys
  {
  }

  lemma FetchKeepsOk(m: Payments, e: Event, verbose: bool)
    requires RecordsOk(m) && Fetch(m, e, verbose).Change?
    ensures RecordOk(Fetch(m, e, verbose).record) && Fetch(m, e, verbose).record.paymentId in m
  {
  }

  lemma WaitingKeepsFresh(waiting: multiset<Payment>, p: Payment)
    requires AllFresh(waiting)
    ensures Fresh(p) ==> AllFresh(waiting + multiset{p})
    ensures AllFresh(waiting - multiset{p})
  {
  }

  lemma DeliverKeepsInv(s: Sys, e: Event)
    requires Inv(s) && s.handler.Idle?
    ensures Inv(Take(s, Deliver(e)).value)
    ensures Take(s, Deliver(e)).value.payments == s.payments
  {
    if Fetch(s.payments, e, s.verbose).Change? {
      FetchKeepsOk(s.payments, e, s.verbose);
    }
  }

  lemma WriteKeepsInv(s: Sys, p: Payment, diskOk: bool)
    requires Inv(s) && p in s.waiting
    ensures Inv(Take(s, WriteRecord(p, diskOk)).value)
    ensures s.payments.Keys <= Take(s, WriteRecord(p, diskOk)).value.payments.Keys
  {
    WaitingKeepsFresh(s.waiting, p);
    WriteKeepsOk(s.payments, p);
  }

  lemma AcceptKeepsInv(s: Sys, p: Payment)
    requires Inv(s) && Fresh(p)
    ensures Inv(s.(waiting := s.waiting + multiset{p}))
  {
    WaitingKeepsFresh(s.waiting, p);
  }

  lemma CallKeepsInv(s: Sys, step: Step)
    requires Inv(s) && (step.PayCall? || step.InvoiceCall?)
    ensures Take(s, step).Some? && Inv(Take(s, step).value)
    ensures Take(s, step).value.payments == s.payments
  {
    if step.InvoiceCall? {
      AcceptKeepsInv(s, InboundRecord(step.invoiceHash, step.inboundMsat));
    } else {
      var amount := AmountToPay(step.invoiceAmount, step.amountMsat);
      if amount.Some? {
        AcceptKeepsInv(s, OutboundRecord(step.payHash, amount.value));
      }
    }
  }

  lemma StoreKeepsInv(s: Sys, storeOk: bool)
    requires Inv(s) && s.handler.Holding?
    ensures Inv(Take(s, StoreRecord(storeOk)).value)
    ensures s.payments.Keys <= Take(s, StoreRecord(storeOk)).value.payments.Keys
  {
    WriteKeepsOk(s.payments, s.handler.record);
  }

  lemma TakeKeepsInv(s: Sys, step: Step)
    requires Inv(s) && Take(s, step).Some?
    ensures Inv(Take(s, step).value)
    ensures s.payments.Keys <= Take(s, step).value.payments.Keys
  {
    match step
    case PayCall(_, _, _, _) => CallKeepsInv(s, step);
    case InvoiceCall(_, _) => CallKeepsInv(s, step);
    case WriteRecord(p, diskOk) => WriteKeepsInv(s, p, diskOk);
    case Deliver(e) => DeliverKeepsInv(s, e);
    case StoreRecord(storeOk) => StoreKeepsInv(s, storeOk);
    case Restart(_) =>
  }

  /**
   * Every reachable state, under every interleaving, replay, disk failure and restart: each record
   * is filed under its own id, its hash is its id, a succeeded one carries its preimage, an
   * outbound one an amount; no record ever disappears.
   */
  lemma {:induction false} RunKeepsInv(s: Sys, steps: seq<Step>)
    requires Inv(s) && Run(s, steps).Some?
    ensures Inv(Run(s, steps).value)
    ensures s.payments.Keys <= Run(s, steps).value.payments.Keys
  {
    if steps != [] {
      RunKeepsInv(s, steps[..|steps| - 1]);
      TakeKeepsInv(Run(s, steps[..|steps| - 1]).value, steps[|steps| - 1]);
    }
  }

  lemma InvAt(s: Sys, steps: seq<Step>, i: nat)
    requires Inv(s) && Run(s, steps).Some? && i <= |steps|
    ensures Inv(StateAt(s, steps, i))
  {
    RunPrefixes(s, steps, i);
    RunKeepsInv(s, steps[..i]);
  }

  // ----- Every record written was asked for -----

  /** The call asks for `p`: an accepted payment with a known amount, or an invoice. */
  ghost predicate Asks(step: Step, p: Payment) {
    match step
    case PayCall(hash, invoiceAmount, amountMsat, accepted) =>
      && accepted && (invoiceAmount.Some? || amountMsat.Some?)
      && p == Payment(hash, hash, None, Outbound,
                      if invoiceAmount.Some? then invoiceAmount else amountMsat, None, Pending)
    case InvoiceCall(hash, amountMsat) =>
      p == Payment(hash, hash, None, Inbound, amountMsat, None, Pending)
    case _ => false
  }

  /** How often `p` was asked for since the process was started, beside `was` times before the run. */
  ghost function Asked(steps: seq<Step>, p: Payment, was: nat): nat {
    if steps == [] then was
    else
      var init, last := steps[..|steps| - 1], steps[|steps| - 1];
      if last.Restart? then 0 else Asked(init, p, was) + if Asks(last, p) then 1 else 0
  }

  /** How often an API call came to write `p` since the process was started. */
  ghost function Answered(steps: seq<Step>, p: Payment): nat {
    if steps == [] then 0
    else
      var init, last := steps[..|steps| - 1], steps[|steps| - 1];
      if last.Restart? then 0
      else Answered(init, p) + if last.WriteRecord? && last.record == p then 1 else 0
  }

  lemma TakeWaiting(s: Sys, step: Step, p: Payment)
    requires Take(s, step).Some? && !step.Restart?
    ensures Take(s, step).value.waiting[p] + (if step.WriteRecord? && step.record == p then 1 else 0)
            == s.waiting[p] + if Asks(step, p) then 1 else 0
  {
  }

  /** Calls are answered once each: what is still to be written is what was asked for and not written. */
  lemma {:induction false} WaitingExact(s: Sys, steps: seq<Step>, p: Payment)
    requires Run(s, steps).Some?
    ensures Run(s, steps).value.waiting[p] + Answered(steps, p) == Asked(steps, p, s.waiting[p])
  {
    if steps != [] {
      var init, last := steps[..|steps| - 1], steps[|steps| - 1];
      WaitingExact(s, init, p);
      if !last.Restart? {
        TakeWaiting(Run(s, init).value, last, p);
      }
    }
  }

  lemma {:induction false} AskedBy(steps: seq<Step>, p: Payment) returns (j: nat)
    requires Asked(steps, p, 0) > 0
    ensures j < |steps| && Asks(steps[j], p)
    ensures forall k :: j < k < |steps| ==> !steps[k].Restart?
  {
    var init, last := steps[..|steps| - 1], steps[|steps| - 1];
    if Asks(last, p) {
      j := |init|;
    } else {
      j := AskedBy(init, p);
      assert forall k :: j < k < |init| ==> steps[k] == init[k];
    }
  }

  /**
   * Each record an API call writes was asked for, with its id, amount and direction, by an accepted
   * payment or an invoice before it in the same process, and is written once for each time it was.
   */
  lemma RecordsWereAskedFor(s: Sys, steps: seq<Step>, i: nat, p: Payment, diskOk: bool) returns (j: nat)
    requires s.waiting == multiset{} && Run(s, steps).Some?
    requires i < |steps| && steps[i] == WriteRecord(p, diskOk)
    ensures j < i && Asks(steps[j], p)
    ensures forall k :: j < k < i ==> !steps[k].Restart?
    ensures Answered(steps[..i], p) < Asked(steps[..i], p, 0)
  {
    StateNext(s, steps, i);
    RunPrefixes(s, steps, i);
    WaitingExact(s, steps[..i], p);
    j := AskedBy(steps[..i], p);
    assert forall k :: 0 <= k < i ==> steps[..i][k] == steps[k];
  }

  // ----- The fee of a succeeded payment -----

  ghost predicate FeeKnown(p: Payment) {
    p.status == Succeeded ==> p.feePaidMsat.Some?
  }

  ghost predicate FeesKnown(s: Sys) {
    && (forall id :: id in s.payments ==> FeeKnown(s.payments[id]))
    && (s.handler.Holding? ==> FeeKnown(s.handler.record))
  }

  /** A `PaymentSent` without a fee is handed over for a stored payment while info messages are off. */
  predicate MissesFee(s: Sys, step: Step) {
    && step.Deliver? && step.event.PaymentSent? && step.event.feePaidMsat.None?
    && !s.verbose
    && step.event.sentId.Some? && step.event.sentId.value in s.payments
  }

  lemma OtherStepKeepsFees(s: Sys, step: Step)
    requires Inv(s) && FeesKnown(s) && Take(s, step).Some? && !step.Deliver?
    ensures FeesKnown(Take(s, step).value)
  {
    if step.WriteRecord? {
      assert Fresh(step.record);
    }
  }

  lemma TakeKeepsFeesExactly(s: Sys, step: Step)
    requires Inv(s) && FeesKnown(s) && Take(s, step).Some?
    ensures FeesKnown(Take(s, step).value) <==> !MissesFee(s, step)
  {
    if step.Deliver? {
      assert Take(s, step).value.payments == s.payments;
    } else {
      OtherStepKeepsFees(s, step);
    }
  }

  ghost predicate FeesKnownUpTo(s: Sys, steps: seq<Step>, n: nat)
    requires Run(s, steps).Some? && n <= |steps|
  {
    forall i :: 0 <= i <= n ==> FeesKnown(StateAt(s, steps, i))
  }

  ghost predicate NoFeeMissedUpTo(s: Sys, steps: seq<Step>, n: nat)
    requires Run(s, steps).Some? && n <= |steps|
  {
    forall i :: 0 <= i < n ==> !MissesFee(StateAt(s, steps, i), steps[i])
  }

  lemma {:induction false} FeesUpTo(s: Sys, steps: seq<Step>, n: nat)
    requires Inv(s) && FeesKnown(s) && Run(s, steps).Some? && n <= |steps|
    ensures FeesKnownUpTo(s, steps, n) <==> NoFeeMissedUpTo(s, steps, n)
  {
    StateEnds(s, steps);
    if n > 0 {
      FeesUpTo(s, steps, n - 1);
      if FeesKnownUpTo(s, steps, n - 1) {
        InvAt(s, steps, n - 1);
        StateNext(s, steps, n - 1);
        TakeKeepsFeesExactly(StateAt(s, steps, n - 1), steps[n - 1]);
      }
    }
  }

  /**
   * Throughout a run every succeeded payment carries its fee if and only if no `PaymentSent` without
   * one is handed over for a stored payment while info messages are off. While they are on such an
   * event stops the handler; without a record it stores nothing.
   */
  lemma RunKeepsFees(s: Sys, steps: seq<Step>)
    requires Inv(s) && FeesKnown(s) && Run(s, steps).Some?
    ensures (forall i :: 0 <= i <= |steps| ==> FeesKnown(StateAt(s, steps, i)))
            <==> (forall i :: 0 <= i < |steps| ==> !MissesFee(StateAt(s, steps, i), steps[i]))
    ensures (forall i :: 0 <= i < |steps| ==> !MissesFee(StateAt(s, steps, i), steps[i]))
            ==> FeesKnown(Run(s, steps).value)
  {
    FeesUpTo(s, steps, |steps|);
    StateEnds(s, steps);
    assert FeesKnownUpTo(s, steps, |steps|)
      <==> forall i :: 0 <= i <= |steps| ==> FeesKnown(StateAt(s, steps, i));
  }

  // ----- Direction separation and the handler's unwraps -----

  /** The event carries every field that handling it unwraps if its record is found. */
  predicate Complete(e: Event, verbose: bool) {
    match e
    case PaymentSent(id, _, _, fee) => id.Some? && (verbose ==> fee.Some?)
    case PaymentFailed(_, hash, reason) => verbose && hash.Some? ==> reason.Some?
    case PaymentClaimed(_, _) => true
    case PaymentPathSuccessful(hash) => verbose ==> hash.Some?
  }

  /** `id` has had an outbound record written at the start or by one of `steps`. */
  ghost predicate PayRecordWritten(s: Sys, steps: seq<Step>, id: PaymentId) {
    || (id in s.payments && s.payments[id].direction == Outbound)
    || exists p :: WriteRecord(p, true) in steps && p.paymentId == id && p.direction == Outbound
  }

  /** Step `i` respects the ids in use: `invoices` are those of this node's own invoices. */
  ghost predicate StepProper(s: Sys, steps: seq<Step>, invoices: set<PaymentId>, i: nat)
    requires i < |steps|
  {
    match steps[i]
    case PayCall(hash, _, _, _) => hash !in invoices
    case InvoiceCall(hash, _) => hash in invoices
    case Deliver(e) => Target(e).Some? ==> PayRecordWritten(s, steps[..i], Target(e).value)
    case _ => true
  }

  /**
   * Outcomes come after the pay record of their id is written, and an invoice's hash is never also
   * the id of a payment this node makes.
   */
  ghost predicate Proper(s: Sys, steps: seq<Step>, invoices: set<PaymentId>) {
    forall i :: 0 <= i < |steps| ==> StepProper(s, steps, invoices, i)
  }

  /** Directions follow `invoices`, and the event handler holds no invoice's record. */
  ghost predicate Separated(s: Sys, invoices: set<PaymentId>) {
    && AllPlaced(s.payments, invoices)
    && WaitingPlaced(s.waiting, invoices)
    && (s.handler.Holding? ==> HeldPlaced(s.handler.record, invoices))
  }

  ghost predicate WaitingPlaced(waiting: multiset<Payment>, invoices: set<PaymentId>) {
    forall p :: p in waiting ==> PlacedRight(p, invoices)
  }

  ghost predicate HeldPlaced(p: Payment, invoices: set<PaymentId>) {
    p.paymentId !in invoices && PlacedRight(p, invoices)
  }

  ghost predicate AllPlaced(m: Payments, invoices: set<PaymentId>) {
    forall id :: id in m ==> PlacedRight(m[id], invoices)
  }

  ghost predicate PlacedRight(p: Payment, invoices: set<PaymentId>) {
    && (p.direction == Inbound <==> p.paymentId in invoices)
    && (p.direction == Inbound ==> Fresh(p))
  }

  /** What handling `e` does in a proper run: the record is read, and only a missing field stops. */
  ghost predicate ReadsOutbound(s: Sys, e: Event)
    requires s.handler.Idle?
  {
    var t := Take(s, Deliver(e)).value;
    && (t.handler.Stopped? <==> !Complete(e, s.verbose))
    && (Target(e).Some? ==>
          && Target(e).value in s.payments
          && s.payments[Target(e).value].direction == Outbound
          && s.payments[Target(e).value].amountMsat.Some?
          && (t.handler.Holding? <==> Complete(e, s.verbose)))
  }

  lemma DeliverReadsOutbound(s: Sys, invoices: set<PaymentId>, e: Event)
    requires Inv(s) && Separated(s, invoices) && s.handler.Idle?
    requires Target(e).Some? ==> Target(e).value in s.payments && Target(e).value !in invoices
    ensures ReadsOutbound(s, e)
    ensures Separated(Take(s, Deliver(e)).value, invoices)
  {
  }

  lemma WaitKeepsPlaced(waiting: multiset<Payment>, p: Payment, invoices: set<PaymentId>)
    requires WaitingPlaced(waiting, invoices)
    ensures PlacedRight(p, invoices) ==> WaitingPlaced(waiting + multiset{p}, invoices)
    ensures WaitingPlaced(waiting - multiset{p}, invoices)
  {
  }

  lemma WriteKeepsPlaced(m: Payments, p: Payment, invoices: set<PaymentId>)
    requires AllPlaced(m, invoices) && PlacedRight(p, invoices)
    ensures AllPlaced(Write(m, p), invoices)
  {
  }

  lemma CallKeepsSeparated(s: Sys, invoices: set<PaymentId>, step: Step)
    requires Separated(s, invoices) && (step.PayCall? || step.InvoiceCall?)
    requires step.PayCall? ==> step.payHash !in invoices
    requires step.InvoiceCall? ==> step.invoiceHash in invoices
    ensures Separated(Take(s, step).value, invoices)
  {
    if step.InvoiceCall? {
      WaitKeepsPlaced(s.waiting, InboundRecord(step.invoiceHash, step.inboundMsat), invoices);
    } else {
      var amount := AmountToPay(step.invoiceAmount, step.amountMsat);
      if amount.Some? {
        WaitKeepsPlaced(s.waiting, OutboundRecord(step.payHash, amount.value), invoices);
      }
    }
  }

  lemma TakeKeepsSeparated(s: Sys, invoices: set<PaymentId>, step: Step)
    requires Inv(s) && Separated(s, invoices) && Take(s, step).Some? && !step.Deliver?
    requires step.PayCall? ==> step.payHash !in invoices
    requires step.InvoiceCall? ==> step.invoiceHash in invoices
    ensures Separated(Take(s, step).value, invoices)
  {
    if step.PayCall? || step.InvoiceCall? {
      CallKeepsSeparated(s, invoices, step);
    } else if step.WriteRecord? {
      WaitKeepsPlaced(s.waiting, step.record, invoices);
      WriteKeepsPlaced(s.payments, step.record, invoices);
    } else if step.StoreRecord? {
      WriteKeepsPlaced(s.payments, s.handler.record, invoices);
    }
  }

  lemma ProperPrefix(s: Sys, steps: seq<Step>, invoices: set<PaymentId>, n: nat)
    requires Proper(s, steps, invoices) && n <= |steps|
    ensures Proper(s, steps[..n], invoices)
  {
    forall i | 0 <= i < n ensures StepProper(s, steps[..n], invoices, i) {
      assert StepProper(s, steps, invoices, i);
      assert steps[..n][..i] == steps[..i];
    }
  }

  /** Every pay record written so far is stored, under an id that is no invoice's. */
  ghost predicate WrittenStored(s: Sys, steps: seq<Step>, t: Sys, invoices: set<PaymentId>) {
    forall id :: PayRecordWritten(s, steps, id) ==> id in t.payments && id !in invoices
  }

  lemma WrittenAtStart(s: Sys, invoices: set<PaymentId>)
    requires Separated(s, invoices) && FiledById(s.payments)
    ensures WrittenStored(s, [], s, invoices)
  {
    assert forall id :: PayRecordWritten(s, [], id) ==> PlacedRight(s.payments[id], invoices);
  }

  lemma WrittenStep(s: Sys, init: seq<Step>, last: Step, t: Sys, invoices: set<PaymentId>)
    requires Inv(t) && Separated(t, invoices) && WrittenStored(s, init, t, invoices)
    requires Take(t, last).Some?
    ensures WrittenStored(s, init + [last], Take(t, last).value, invoices)
  {
    TakeKeepsInv(t, last);
    forall id | PayRecordWritten(s, init + [last], id)
      ensures id in Take(t, last).value.payments && id !in invoices
    {
      if !PayRecordWritten(s, init, id) {
        var p :| WriteRecord(p, true) in init + [last] && p.paymentId == id && p.direction == Outbound;
        assert last == WriteRecord(p, true);
        assert PlacedRight(p, invoices);
      }
    }
  }

  lemma DeliverProper(s: Sys, init: seq<Step>, t: Sys, e: Event, invoices: set<PaymentId>)
    requires Inv(t) && Separated(t, invoices) && WrittenStored(s, init, t, invoices)
    requires Target(e).Some? ==> PayRecordWritten(s, init, Target(e).value)
    requires t.handler.Idle?
    ensures Separated(Take(t, Deliver(e)).value, invoices)
    ensures ReadsOutbound(t, e)
  {
    DeliverReadsOutbound(t, invoices, e);
  }

  /** What a proper run asks of its last step, in terms of the steps before it. */
  ghost predicate LastProper(s: Sys, init: seq<Step>, last: Step, invoices: set<PaymentId>) {
    StepProper(s, init + [last], invoices, |init|)
  }

  lemma ProperLast(s: Sys, steps: seq<Step>, invoices: set<PaymentId>)
    requires Proper(s, steps, invoices) && steps != []
    ensures var init, last := steps[..|steps| - 1], steps[|steps| - 1];
            && steps == init + [last]
            && Proper(s, init, invoices) && LastProper(s, init, last, invoices)
  {
    assert steps == steps[..|steps| - 1] + [steps[|steps| - 1]];
    ProperPrefix(s, steps, invoices, |steps| - 1);
    assert StepProper(s, steps, invoices, |steps| - 1);
  }

  lemma ProperStep(s: Sys, init: seq<Step>, t: Sys, last: Step, invoices: set<PaymentId>)
    requires Inv(t) && Separated(t, invoices) && WrittenStored(s, init, t, invoices)
    requires Take(t, last).Some? && LastProper(s, init, last, invoices)
    ensures Separated(Take(t, last).value, invoices)
  {
    assert (init + [last])[..|init|] == init;
    if last.Deliver? {
      DeliverProper(s, init, t, last.event, invoices);
    } else {
      TakeKeepsSeparated(t, invoices, last);
    }
  }

  /**
   * In every proper run, whatever fields its events lack, directions follow `invoices`, inbound
   * records stay pending without preimage or fee, and every pay record written is stored.
   */
  lemma {:induction false} ProperRunsSafe(s: Sys, steps: seq<Step>, invoices: set<PaymentId>)
    requires Inv(s) && Separated(s, invoices) && Run(s, steps).Some? && Proper(s, steps, invoices)
    ensures Separated(Run(s, steps).value, invoices)
    ensures WrittenStored(s, steps, Run(s, steps).value, invoices)
  {
    if steps == [] {
      WrittenAtStart(s, invoices);
    } else {
      var init, last := steps[..|steps| - 1], steps[|steps| - 1];
      ProperLast(s, steps, invoices);
      ProperRunsSafe(s, init, invoices);
      RunKeepsInv(s, init);
      var t := Run(s, init).value;
      ProperStep(s, init, t, last, invoices);
      WrittenStep(s, init, last, t, invoices);
    }
  }

  // ----- Invoices keep their records -----

  /** The step writes a record under `id`. */
  predicate WritesFor(step: Step, id: PaymentId) {
    step.WriteRecord? && step.record.paymentId == id
  }

  function StoredAt(m: Payments, id: PaymentId): Option<Payment> {
    if id in m then Some(m[id]) else None
  }

  /** The last record an API call among `steps` wrote under `id`, or `was`. */
  function LastWritten(steps: seq<Step>, id: PaymentId, was: Option<Payment>): (last: Option<Payment>)
    ensures was.Some? ==> last.Some?
  {
    if steps == [] then was
    else
      var last := steps[|steps| - 1];
      if WritesFor(last, id) && last.diskOk then Some(last.record)
      else LastWritten(steps[..|steps| - 1], id, was)
  }

  /** In every proper run an invoice's record is, field for field, what its API call last wrote. */
  lemma {:induction false} InvoicesUntouched(s: Sys, steps: seq<Step>, invoices: set<PaymentId>, id: PaymentId)
    requires Inv(s) && Separated(s, invoices) && Run(s, steps).Some? && Proper(s, steps, invoices)
    requires id in invoices
    ensures StoredAt(Run(s, steps).value.payments, id) == LastWritten(steps, id, StoredAt(s.payments, id))
  {
    if steps != [] {
      var init := steps[..|steps| - 1];
      ProperPrefix(s, steps, invoices, |init|);
      InvoicesUntouched(s, init, invoices, id);
      ProperRunsSafe(s, init, invoices);
      OnlyOwnWrites(Run(s, init).value, steps[|init|], invoices, id);
    }
  }

  lemma OnlyOwnWrites(t: Sys, step: Step, invoices: set<PaymentId>, id: PaymentId)
    requires Separated(t, invoices) && Take(t, step).Some? && id in invoices
    ensures StoredAt(Take(t, step).value.payments, id)
            == if WritesFor(step, id) && step.diskOk then Some(step.record) else StoredAt(t.payments, id)
  {
  }

  // ----- When the handler stops -----

  /**
   * In every proper run each outcome event finds a record, and it is outbound with an amount: the
   * amount never stops the handler, and the event is never dropped.
   */
  lemma OutcomesFindTheirRecord(s: Sys, steps: seq<Step>, invoices: set<PaymentId>, i: nat, e: Event)
    requires Inv(s) && Separated(s, invoices) && Run(s, steps).Some? && Proper(s, steps, invoices)
    requires i < |steps| && steps[i] == Deliver(e)
    ensures var t, u := StateAt(s, steps, i), StateAt(s, steps, i + 1);
            && (u.handler.Stopped? <==> !Complete(e, t.verbose))
            && (Target(e).Some? ==>
                  var m, id := t.payments, Target(e).value;
                  && id in m && m[id].direction == Outbound && m[id].amountMsat.Some?
                  && (u.handler.Holding? <==> Complete(e, t.verbose)))
  {
    var before := steps[..i];
    StateNext(s, steps, i);
    RunPrefixes(s, steps, i);
    ProperPrefix(s, steps, invoices, i);
    ProperRunsSafe(s, before, invoices);
    RunKeepsInv(s, before);
    assert StepProper(s, steps, invoices, i);
    DeliverProper(s, before, Run(s, before).value, e, invoices);
  }

  lemma OnlyDeliveryStops(t: Sys, step: Step)
    requires Take(t, step).Some? && Take(t, step).value.handler.Stopped?
    ensures t.handler.Stopped? || step.Deliver?
  {
  }

  /** Each event delivered by step `i` carries what its handling unwraps at that moment. */
  ghost predicate CompleteAt(s: Sys, steps: seq<Step>, i: nat)
    requires Run(s, steps).Some? && i < |steps|
  {
    steps[i].Deliver? ==> Complete(steps[i].event, StateAt(s, steps, i).verbose)
  }

  lemma {:induction false} CompleteRunsOn(s: Sys, steps: seq<Step>, invoices: set<PaymentId>, n: nat)
    requires Inv(s) && Separated(s, invoices) && Run(s, steps).Some? && Proper(s, steps, invoices)
    requires !s.handler.Stopped? && n <= |steps|
    requires forall i :: 0 <= i < n ==> CompleteAt(s, steps, i)
    ensures !StateAt(s, steps, n).handler.Stopped?
  {
    StateEnds(s, steps);
    if n > 0 {
      CompleteRunsOn(s, steps, invoices, n - 1);
      StateNext(s, steps, n - 1);
      assert CompleteAt(s, steps, n - 1);
      if steps[n - 1].Deliver? {
        OutcomesFindTheirRecord(s, steps, invoices, n - 1, steps[n - 1].event);
      } else if StateAt(s, steps, n).handler.Stopped? {
        OnlyDeliveryStops(StateAt(s, steps, n - 1), steps[n - 1]);
      }
    }
  }

  /**
   * When the handler stops in a proper run: it keeps running throughout if and only if every event
   * delivered has its id and, while info messages are on, the fields that are logged.
   */
  lemma ProperRunStopsExactly(s: Sys, steps: seq<Step>, invoices: set<PaymentId>)
    requires Inv(s) && Separated(s, invoices) && Run(s, steps).Some? && Proper(s, steps, invoices)
    requires !s.handler.Stopped?
    ensures (forall i :: 0 <= i <= |steps| ==> !StateAt(s, steps, i).handler.Stopped?)
            <==> (forall i :: 0 <= i < |steps| ==> CompleteAt(s, steps, i))
  {
    if forall i :: 0 <= i < |steps| ==> CompleteAt(s, steps, i) {
      forall i | 0 <= i <= |steps| ensures !StateAt(s, steps, i).handler.Stopped? {
        CompleteRunsOn(s, steps, invoices, i);
      }
    } else {
      var i :| 0 <= i < |steps| && !CompleteAt(s, steps, i);
      OutcomesFindTheirRecord(s, steps, invoices, i, steps[i].event);
      assert StateAt(s, steps, i + 1).handler.Stopped?;
    }
  }

  predicate AmountlessInvoice(p: Payment) {
    p.direction == Inbound && p.amountMsat.None?
  }

  /**
   * When a payment event stops the handler, in any run at all: on a missing id, or, while info
   * messages are on, on a missing field of the event, or on an own invoice without amount.
   */
  lemma StopsExactly(s: Sys, steps: seq<Step>, e: Event)
    requires Inv(s) && Run(s, steps).Some? && Run(s, steps).value.handler.Idle?
    ensures var t := Run(s, steps).value;
            Take(t, Deliver(e)).Some?
            && (Take(t, Deliver(e)).value.handler.Stopped?
                <==> match e
                     case PaymentSent(id, _, _, fee) =>
                       || id.None?
                       || (t.verbose && id.value in t.payments
                           && (fee.None? || AmountlessInvoice(t.payments[id.value])))
                     case PaymentFailed(id, hash, reason) =>
                       t.verbose && hash.Some? && id in t.payments && reason.None?
                     case PaymentClaimed(_, _) => false
                     case PaymentPathSuccessful(hash) => t.verbose && hash.None?)
  {
    RunKeepsInv(s, steps);
  }

  /** Once stopped, the handler stays stopped until the process is started again. */
  lemma {:induction false} StoppedStays(s: Sys, steps: seq<Step>)
    requires s.handler.Stopped? && Run(s, steps).Some?
    requires forall i :: 0 <= i < |steps| ==> !steps[i].Restart?
    ensures Run(s, steps).value.handler.Stopped?
  {
    if steps != [] {
      StoppedStays(s, steps[..|steps| - 1]);
    }
  }
}
