/**
 * What the event handler does to stored payments: handling one event, handling a log of them, and
 * what a replayed or reordered log amounts to.
 */
module PaymentEvents {
  import opened Wrappers
  import opened Bytes
  import opened Records

  datatype Event =
    | PaymentSent(sentId: Option<PaymentId>, preimage: Bytes32, hash: Bytes32, feePaidMsat: Option<U64>)
    | PaymentFailed(failedId: PaymentId, failedHash: Option<Bytes32>, reason: Option<nat>)
    | PaymentClaimed(claimedHash: Bytes32, claimedMsat: U64)
    | PaymentPathSuccessful(pathHash: Option<Bytes32>)

  type Payments = map<PaymentId, Payment>

  /** The id whose record an event is about, if it is about one. */
  function Target(e: Event): Option<PaymentId> {
    match e
    case PaymentSent(id, _, _, _) => id
    case PaymentFailed(id, hash, _) => if hash.Some? then Some(id) else None
    case _ => None
  }

  /** The outcome of the handler's read: nothing to write, a changed record, or an unwrap of None. */
  datatype Fetched = Nothing | Change(record: Payment) | Panic

  /**
   * Reads the record of the event's id and changes the copy. All unwraps but that of the id are
   * arguments of log messages, which are evaluated only while info messages are on: `verbose`.
   */
  function Fetch(m: Payments, e: Event, verbose: bool): Fetched {
    match e
    case PaymentSent(id, preimage, _, fee) =>
      if id.None? then Panic
      else if id.value !in m then Nothing
      else if verbose && (m[id.value].amountMsat.None? || fee.None?) then Panic
      else Change(m[id.value].(status := Succeeded, paymentPreimage := Some(preimage),
                               feePaidMsat := fee))
    case PaymentFailed(id, hash, reason) =>
      if hash.None? || id !in m then Nothing
      else if verbose && reason.None? then Panic
      else Change(m[id].(status := Failed))
    case PaymentClaimed(_, _) => Nothing
    case PaymentPathSuccessful(hash) => if verbose && hash.None? then Panic else Nothing
  }

  function Write(m: Payments, p: Payment): Payments {
    m[p.paymentId := p]
  }

  /** The event handler: running, or stopped by a panic. */
  datatype HandlerState = Alive(payments: Payments) | Dead(payments: Payments)

  /** Handling one event from read to write, with nothing in between. */
  function Handle(t: HandlerState, e: Event, verbose: bool): HandlerState {
    match t
    case Dead(_) => t
    case Alive(m) =>
      match Fetch(m, e, verbose)
      case Nothing => t
      case Panic => Dead(m)
      case Change(p) => Alive(Write(m, p))
  }

  /**
   * The effect of each event written out. Every failure with a hash settles its payment, whatever
   * the reason; every `PaymentSent` with an id does, whatever the fee, unless it stops the handler.
   */
  lemma EventEffects(m: Payments, e: Event, verbose: bool)
    requires FiledById(m)
    ensures Handle(Alive(m), e, verbose)
            == match e
               case PaymentSent(None, _, _, _) => Dead(m)
               case PaymentSent(Some(id), preimage, _, fee) =>
                 if id !in m then Alive(m)
                 else if verbose && (m[id].amountMsat.None? || fee.None?) then Dead(m)
                 else Alive(m[id := m[id].(status := Succeeded, paymentPreimage := Some(preimage),
                                           feePaidMsat := fee)])
               case PaymentFailed(_, None, _) => Alive(m)
               case PaymentFailed(id, Some(_), reason) =>
                 if id !in m then Alive(m)
                 else if verbose && reason.None? then Dead(m)
                 else Alive(m[id := m[id].(status := Failed)])
               case PaymentClaimed(_, _) => Alive(m)
               case PaymentPathSuccessful(hash) => if verbose && hash.None? then Dead(m) else Alive(m)
    ensures Target(e) == match e
                         case PaymentSent(id, _, _, _) => id
                         case PaymentFailed(id, Some(_), _) => Some(id)
                         case _ => None
  {
  }

  function HandleAll(t: HandlerState, log: seq<Event>, verbose: bool): HandlerState {
    if log == [] then t
    else Handle(HandleAll(t, log[..|log| - 1], verbose), log[|log| - 1], verbose)
  }

  // ----- A log in closed form -----

  /** The status the last outcome for `id` gives, or `was` if there is none. */
  function LastStatus(log: seq<Event>, id: PaymentId, was: PaymentStatus): PaymentStatus {
    if log == [] then was
    else
      var e := log[|log| - 1];
      if Target(e) != Some(id) then LastStatus(log[..|log| - 1], id, was)
      else if e.PaymentSent? then Succeeded else Failed
  }

  datatype Receipt = Receipt(preimage: Option<Bytes32>, feePaidMsat: Option<U64>)

  /** The preimage and fee of the last `PaymentSent` for `id`, or `was` if there is none. */
  function LastReceipt(log: seq<Event>, id: PaymentId, was: Receipt): Receipt {
    if log == [] then was
    else
      var e := log[|log| - 1];
      if e.PaymentSent? && e.sentId == Some(id) then Receipt(Some(e.preimage), e.feePaidMsat)
      else LastReceipt(log[..|log| - 1], id, was)
  }

  /** `p` after a log: status, preimage and fee decided by the last events for it, the rest kept. */
  function Outcome(p: Payment, log: seq<Event>): Payment {
    var receipt := LastReceipt(log, p.paymentId, Receipt(p.paymentPreimage, p.feePaidMsat));
    p.(status := LastStatus(log, p.paymentId, p.status),
       paymentPreimage := receipt.preimage, feePaidMsat := receipt.feePaidMsat)
  }

  /** The events that would stop the handler, decided by ids and amounts alone. */
  predicate Panics(m: Payments, e: Event, verbose: bool) {
    match e
    case PaymentSent(id, _, _, fee) =>
      id.None? || (verbose && id.value in m && (m[id.value].amountMsat.None? || fee.None?))
    case PaymentFailed(id, hash, reason) => verbose && hash.Some? && id in m && reason.None?
    case PaymentClaimed(_, _) => false
    case PaymentPathSuccessful(hash) => verbose && hash.None?
  }

  ghost predicate Calm(m: Payments, log: seq<Event>, verbose: bool) {
    forall e :: e in log ==> !Panics(m, e, verbose)
  }

  /** `n` is `m` after `log`: the same ids, each record at its outcome. */
  ghost predicate After(n: Payments, m: Payments, log: seq<Event>) {
    && n.Keys == m.Keys
    && forall id :: id in m ==> n[id] == Outcome(m[id], log)
  }

  lemma OneMore(n: Payments, m: Payments, log: seq<Event>, e: Event, verbose: bool)
    requires FiledById(m) && After(n, m, log) && !Panics(n, e, verbose)
    ensures Handle(Alive(n), e, verbose).Alive? && After(Handle(Alive(n), e, verbose).payments, m, log + [e])
  {
    var all := log + [e];
    assert all[..|all| - 1] == log;
    forall id | id in m ensures Handle(Alive(n), e, verbose).payments[id] == Outcome(m[id], all) {
      assert n[id] == Outcome(m[id], log);
    }
  }

  /**
   * Any log on any store. The handler survives exactly when no event panics on the initial store; then
   * no record appears or vanishes, and each record's status is that of its last outcome, its
   * preimage and fee those of its last `PaymentSent`, everything else as it was.
   */
  lemma {:induction false} LogClosedForm(m: Payments, log: seq<Event>, verbose: bool)
    requires FiledById(m)
    ensures HandleAll(Alive(m), log, verbose).Alive? <==> Calm(m, log, verbose)
    ensures Calm(m, log, verbose) ==> After(HandleAll(Alive(m), log, verbose).payments, m, log)
  {
    if log != [] {
      var init, e := log[..|log| - 1], log[|log| - 1];
      assert log == init + [e];
      LogClosedForm(m, init, verbose);
      if Calm(m, init, verbose) {
        var n := HandleAll(Alive(m), init, verbose).payments;
        PanicsSame(n, m, init, e, verbose);
        if !Panics(m, e, verbose) {
          OneMore(n, m, init, e, verbose);
        }
      }
    }
  }

  lemma PanicsSame(n: Payments, m: Payments, log: seq<Event>, e: Event, verbose: bool)
    requires After(n, m, log)
    ensures Panics(n, e, verbose) <==> Panics(m, e, verbose)
  {
  }

  lemma {:induction false} HandleAppend(t: HandlerState, a: seq<Event>, b: seq<Event>, verbose: bool)
    ensures HandleAll(t, a + b, verbose) == HandleAll(HandleAll(t, a, verbose), b, verbose)
  {
    if b == [] {
      assert a + b == a;
    } else {
      var init := b[..|b| - 1];
      assert (a + b)[..|a + b| - 1] == a + init;
      HandleAppend(t, a, init, verbose);
    }
  }

  lemma {:induction false} LastAppend(a: seq<Event>, b: seq<Event>, id: PaymentId,
                                      was: PaymentStatus, receipt: Receipt)
    ensures LastStatus(a + b, id, was) == LastStatus(b, id, LastStatus(a, id, was))
    ensures LastReceipt(a + b, id, receipt) == LastReceipt(b, id, LastReceipt(a, id, receipt))
  {
    if b == [] {
      assert a + b == a;
    } else {
      assert (a + b)[..|a + b| - 1] == a + b[..|b| - 1];
      LastAppend(a, b[..|b| - 1], id, was, receipt);
    }
  }

  /** A log handled twice decides as it did the first time. */
  lemma {:induction false} LastIdempotent(log: seq<Event>, id: PaymentId,
                                          was: PaymentStatus, receipt: Receipt)
    ensures LastStatus(log, id, LastStatus(log, id, was)) == LastStatus(log, id, was)
    ensures LastReceipt(log, id, LastReceipt(log, id, receipt)) == LastReceipt(log, id, receipt)
  {
    if log != [] {
      LastIndependent(log, id, LastStatus(log, id, was), was, LastReceipt(log, id, receipt), receipt);
    }
  }

  /** Starting values matter only to a log that says nothing about the id. */
  lemma {:induction false} LastIndependent(log: seq<Event>, id: PaymentId, s: PaymentStatus,
                                           t: PaymentStatus, r: Receipt, q: Receipt)
    ensures LastStatus(log, id, s) == LastStatus(log, id, t)
            || (LastStatus(log, id, s) == s && LastStatus(log, id, t) == t)
    ensures LastReceipt(log, id, r) == LastReceipt(log, id, q)
            || (LastReceipt(log, id, r) == r && LastReceipt(log, id, q) == q)
  {
    if log != [] {
      LastIndependent(log[..|log| - 1], id, s, t, r, q);
    }
  }

  /** Handling a log and then any tail of it again changes nothing. */
  lemma OutcomeOfReplay(p: Payment, log: seq<Event>, k: nat)
    requires k <= |log|
    ensures Outcome(p, log + log[k..]) == Outcome(p, log)
  {
    var a, b, id := log[..k], log[k..], p.paymentId;
    var was, receipt := p.status, Receipt(p.paymentPreimage, p.feePaidMsat);
    assert log == a + b;
    LastAppend(a, b, id, was, receipt);
    LastAppend(log, b, id, was, receipt);
    LastIdempotent(b, id, LastStatus(a, id, was), LastReceipt(a, id, receipt));
  }

  /**
   * Replay: after any log, delivering any tail of it again leaves the handler as it was, whether it
   * is still running or has stopped. `again` is the level at which the tail is handled: turning
   * info messages on for it must not make a missing field matter that did not matter before.
   */
  lemma ReplayIdempotent(m: Payments, log: seq<Event>, k: nat, verbose: bool, again: bool)
    requires FiledById(m) && k <= |log|
    requires verbose || !again || Calm(m, log, again)
    ensures HandleAll(HandleAll(Alive(m), log, verbose), log[k..], again)
            == HandleAll(Alive(m), log, verbose)
  {
    var replay := log[k..];
    LogClosedForm(m, log, verbose);
    if Calm(m, log, verbose) {
      LevelIrrelevant(m, log, verbose, again);
      HandleAppend(Alive(m), log, replay, again);
      assert Calm(m, log + replay, again);
      forall id | id in m ensures Outcome(m[id], log + replay) == Outcome(m[id], log) {
        OutcomeOfReplay(m[id], log, k);
      }
      AfterUnique(m, log + replay, log, again);
    } else {
      DeadStays(HandleAll(Alive(m), log, verbose), replay, again);
    }
  }

  /** The log level decides only whether the handler survives, not what it stores. */
  lemma LevelIrrelevant(m: Payments, log: seq<Event>, verbose: bool, again: bool)
    requires FiledById(m) && Calm(m, log, verbose)
    requires verbose || !again || Calm(m, log, again)
    ensures Calm(m, log, again) && HandleAll(Alive(m), log, again) == HandleAll(Alive(m), log, verbose)
  {
    LogClosedForm(m, log, verbose);
    LogClosedForm(m, log, again);
    assert HandleAll(Alive(m), log, again).payments == HandleAll(Alive(m), log, verbose).payments;
  }

  lemma {:induction false} DeadStays(t: HandlerState, log: seq<Event>, verbose: bool)
    requires t.Dead?
    ensures HandleAll(t, log, verbose) == t
  {
    if log != [] {
      DeadStays(t, log[..|log| - 1], verbose);
    }
  }

  lemma AfterUnique(m: Payments, a: seq<Event>, b: seq<Event>, verbose: bool)
    requires FiledById(m) && Calm(m, a, verbose) && Calm(m, b, verbose)
    requires forall id :: id in m ==> Outcome(m[id], a) == Outcome(m[id], b)
    ensures HandleAll(Alive(m), a, verbose) == HandleAll(Alive(m), b, verbose)
  {
    LogClosedForm(m, a, verbose);
    LogClosedForm(m, b, verbose);
    assert HandleAll(Alive(m), a, verbose).payments == HandleAll(Alive(m), b, verbose).payments;
  }

  // ----- One id at a time -----

  /** The events of a log that are about `id`. */
  function EventsFor(log: seq<Event>, id: PaymentId): seq<Event> {
    if log == [] then []
    else
      var init := EventsFor(log[..|log| - 1], id);
      if Target(log[|log| - 1]) == Some(id) then init + [log[|log| - 1]] else init
  }

  lemma {:induction false} LastOfProjection(log: seq<Event>, id: PaymentId,
                                            was: PaymentStatus, receipt: Receipt)
    ensures LastStatus(EventsFor(log, id), id, was) == LastStatus(log, id, was)
    ensures LastReceipt(EventsFor(log, id), id, receipt) == LastReceipt(log, id, receipt)
    ensures forall e :: e in EventsFor(log, id) ==> e in log
  {
    if log != [] {
      var init := EventsFor(log[..|log| - 1], id);
      LastOfProjection(log[..|log| - 1], id, was, receipt);
      if Target(log[|log| - 1]) == Some(id) {
        assert (init + [log[|log| - 1]])[..|init|] == init;
      }
    }
  }

  /** After any log the record of an id is what the id's own events make of it. */
  lemma Projection(m: Payments, log: seq<Event>, id: PaymentId, verbose: bool)
    requires FiledById(m) && HandleAll(Alive(m), log, verbose).Alive?
    ensures var full, own := HandleAll(Alive(m), log, verbose), HandleAll(Alive(m), EventsFor(log, id), verbose);
            && own.Alive? && full.payments.Keys == m.Keys == own.payments.Keys
            && (id in m ==> full.payments[id] == own.payments[id])
  {
    LogClosedForm(m, log, verbose);
    if id in m {
      LastOfProjection(log, id, m[id].status, Receipt(m[id].paymentPreimage, m[id].feePaidMsat));
    } else {
      LastOfProjection(log, id, Pending, Receipt(None, None));
    }
    LogClosedForm(m, EventsFor(log, id), verbose);
  }

  /**
   * Two logs that agree on the order of each id's own events leave the same store, however the
   * events of different ids are interleaved.
   */
  lemma InterleavingIrrelevant(m: Payments, a: seq<Event>, b: seq<Event>, verbose: bool)
    requires FiledById(m)
    requires forall id :: id in m ==> EventsFor(a, id) == EventsFor(b, id)
    requires HandleAll(Alive(m), a, verbose).Alive? && HandleAll(Alive(m), b, verbose).Alive?
    ensures HandleAll(Alive(m), a, verbose) == HandleAll(Alive(m), b, verbose)
  {
    LogClosedForm(m, a, verbose);
    LogClosedForm(m, b, verbose);
    forall id | id in m ensures Outcome(m[id], a) == Outcome(m[id], b) {
      LastOfProjection(a, id, m[id].status, Receipt(m[id].paymentPreimage, m[id].feePaidMsat));
      LastOfProjection(b, id, m[id].status, Receipt(m[id].paymentPreimage, m[id].feePaidMsat));
    }
    AfterUnique(m, a, b, verbose);
  }
}
