/**
 * The lifecycle as seen on disk: every run of it is a sequence of writes of payment files, and a
 * listing beside it misses nothing.
 */
module DurableLifecycle {
  import opened Wrappers
  import opened Records
  import opened KeyedFiles
  import opened NodeFiles
  import opened Lifecycle
  import opened Listing
  import opened NodeListing
  import Settlement
  import PaymentEvents

  lemma {:induction false} ActSnoc(c: Contents, ops: seq<Op>, op: Op)
    ensures ActAll(c, ops + [op]) == Act(ActAll(c, ops), op)
    decreases |ops|
  {
    if ops == [] {
      assert [op][1..] == [];
      assert ActAll(c, [op]) == ActAll(Act(c, op), []);
      assert ops + [op] == [op];
    } else {
      assert (ops + [op])[0] == ops[0] && (ops + [op])[1..] == ops[1..] + [op];
      ActSnoc(Act(c, ops[0]), ops[1..], op);
    }
  }

  /** The file written by a step taken in state `s`, if it writes one. */
  function WriteOf(s: Sys, step: Step): Option<Op> {
    match step
    case WriteRecord(p, true) => Some(PutPayment(p))
    case StoreRecord(true) => if s.handler.Holding? then Some(PutPayment(s.handler.record)) else None
    case _ => None
  }

  lemma StepOnDisk(c: Contents, s: Sys, step: Step)
    requires c.payments == s.payments && Take(s, step).Some?
    ensures c.(payments := Take(s, step).value.payments)
            == match WriteOf(s, step) case None => c case Some(op) => Act(c, op)
  {
  }

  /**
   * Whatever a run does, the files left behind are those of its records, untouched peers beside
   * them, and they are reached by writing payment files only.
   */
  lemma {:induction false} RunOnDisk(c: Contents, s: Sys, steps: seq<Step>) returns (ops: seq<Op>)
    requires Keyed(c) && c.payments == s.payments && Run(s, steps).Some?
    ensures forall op :: op in ops ==> op.PutPayment?
    ensures ActAll(c, ops) == c.(payments := Run(s, steps).value.payments)
    ensures ApplyAll(FilesOf(c), ops) == FilesOf(c.(payments := Run(s, steps).value.payments))
  {
    if steps == [] {
      ops := [];
    } else {
      var init, last := steps[..|steps| - 1], steps[|steps| - 1];
      ops := RunOnDisk(c, s, init);
      var t := Run(s, init).value;
      StepOnDisk(ActAll(c, ops), t, last);
      match WriteOf(t, last) {
        case None =>
        case Some(op) =>
          ActSnoc(c, ops, op);
          ops := ops + [op];
      }
    }
    RunRefines(c, ops);
  }

  /**
   * Settlement as a caller of `get_payment` sees it afterwards: the file of the payment reads back
   * settled if and only if the pending record was written before the outcome was handed over.
   */
  lemma SettlementReadsBack(c: Contents, s: Sys, steps: seq<Step>, id: PaymentId, w: nat,
                            p: Payment, g: nat, e: PaymentEvents.Event)
    requires Keyed(c) && c.payments == s.payments
    requires Settlement.OneWrite(s, steps, id, w, p)
    requires g < |steps| && steps[g] == Deliver(e) && PaymentEvents.Target(e) == Some(id)
    requires forall i :: 0 <= i < |steps| && i != g ==> !Settlement.DeliversFor(steps[i], id)
    requires !Settlement.HoldsFor(Run(s, steps).value, id)
    ensures var files := FilesOf(c.(payments := Run(s, steps).value.payments));
            LookupPayment(files, id) == Ok(if w < g then PaymentEvents.Outcome(p, [e]) else p)
    ensures PaymentEvents.Outcome(p, [e]).status == if e.PaymentSent? then Succeeded else Failed
    ensures p.status == Pending
  {
    Settlement.OutcomeOfOne(p, e);
    Settlement.SettlesByLaterEvents(s, steps, id, w, p);
    Settlement.SettledIffWrittenFirst(s, steps, id, w, p, g, e);
    LookupRefines(c.(payments := Run(s, steps).value.payments), id);
  }

  /**
   * A restart at the end of any run: the next process starts with what the files hold, nothing
   * waiting to be written and an idle event handler.
   */
  lemma RestartFromDisk(c: Contents, s: Sys, steps: seq<Step>, verbose: bool)
    requires Keyed(c) && c.payments == s.payments && Run(s, steps).Some?
    ensures var m := Run(s, steps).value.payments;
            && Run(s, steps + [Restart(verbose)]) == Some(Sys(m, multiset{}, Handler.Idle, verbose))
            && forall id :: LookupPayment(FilesOf(c.(payments := m)), id)
                            == if id in m then Ok(m[id]) else Err(NotFound)
  {
    var more, m := steps + [Restart(verbose)], Run(s, steps).value.payments;
    assert more[..|steps|] == steps;
    forall id ensures LookupPayment(FilesOf(c.(payments := m)), id)
                      == if id in m then Ok(m[id]) else Err(NotFound) {
      LookupRefines(c.(payments := m), id);
    }
  }

  // ----- A listing beside a lifecycle run -----

  /** A step of the lifecycle and what it does to the files. */
  ghost predicate LifeStep(s: ListingState, t: ListingState, l: Sys, m: Sys) {
    exists step :: Take(l, step) == Some(m) && t == s.(files := AfterWrite(s.files, WriteOf(l, step)))
  }

  function AfterWrite(files: Files, write: Option<Op>): Files {
    match write
    case None => files
    case Some(op) => Apply(files, op)
  }

  /** Some peer is saved or removed. */
  ghost predicate PeerStep(s: ListingState, t: ListingState) {
    exists op :: !IsPaymentOp(op) && t == s.(files := Apply(s.files, op))
  }

  /** Step `i` is one of the lifecycle, of the peers, or of a listing of payments. */
  ghost predicate JointStep(tr: seq<ListingState>, life: seq<Sys>, i: nat)
    requires i + 1 < |tr| == |life|
  {
    || LifeStep(tr[i], tr[i + 1], life[i], life[i + 1])
    || (life[i + 1] == life[i] && (PeerStep(tr[i], tr[i + 1]) || ListStep(tr[i], tr[i + 1])))
  }

  ghost predicate ListStep(s: ListingState, t: ListingState) {
    TakeNames(PAYMENTS, s, t) || ReadOne(PAYMENTS, s, t)
  }

  ghost predicate JointSteps(tr: seq<ListingState>, life: seq<Sys>) {
    |tr| == |life| && forall i :: 0 <= i < |tr| - 1 ==> JointStep(tr, life, i)
  }

  /** The files are those of the lifecycle's payments and some peers. */
  ghost predicate Tracks(c: Contents, s: ListingState, l: Sys) {
    Keyed(c) && c.payments == l.payments && s.files == FilesOf(c) && Inv(l)
  }

  lemma LifeStepTracks(c: Contents, s: ListingState, t: ListingState, l: Sys, m: Sys) returns (d: Contents)
    requires Tracks(c, s, l) && LifeStep(s, t, l, m)
    ensures Tracks(d, t, m) && l.payments.Keys <= m.payments.Keys
  {
    var step :| Take(l, step) == Some(m) && t == s.(files := AfterWrite(s.files, WriteOf(l, step)));
    TakeKeepsInv(l, step);
    StepOnDisk(c, l, step);
    match WriteOf(l, step) {
      case None => d := c;
      case Some(op) =>
        ApplyRefines(c, op);
        d := Act(c, op);
    }
  }

  lemma PeerStepTracks(c: Contents, s: ListingState, t: ListingState, l: Sys) returns (d: Contents)
    requires Tracks(c, s, l) && PeerStep(s, t)
    ensures Tracks(d, t, l)
  {
    var op :| !IsPaymentOp(op) && t == s.(files := Apply(s.files, op));
    ApplyRefines(c, op);
    d := Act(c, op);
  }

  lemma StepKinds(tr: seq<ListingState>, life: seq<Sys>, i: nat)
    requires JointSteps(tr, life) && i + 1 < |tr|
    ensures LifeStep(tr[i], tr[i + 1], life[i], life[i + 1])
            || (life[i + 1] == life[i] && (PeerStep(tr[i], tr[i + 1]) || tr[i + 1].files == tr[i].files))
    ensures Moves(PAYMENTS, tr, i)
  {
    assert JointStep(tr, life, i);
  }

  lemma {:induction false} RunTracks(c: Contents, tr: seq<ListingState>, life: seq<Sys>, i: nat)
    returns (d: Contents)
    requires JointSteps(tr, life) && i < |tr| && Tracks(c, tr[0], life[0])
    ensures Tracks(d, tr[i], life[i])
    ensures i > 0 ==> life[i - 1].payments.Keys <= life[i].payments.Keys
  {
    if i == 0 {
      d := c;
    } else {
      d := RunTracks(c, tr, life, i - 1);
      StepKinds(tr, life, i - 1);
      if LifeStep(tr[i - 1], tr[i], life[i - 1], life[i]) {
        d := LifeStepTracks(d, tr[i - 1], tr[i], life[i - 1], life[i]);
      } else if PeerStep(tr[i - 1], tr[i]) {
        d := PeerStepTracks(d, tr[i - 1], tr[i], life[i]);
      }
    }
  }

  lemma {:induction false} IdsKept(c: Contents, tr: seq<ListingState>, life: seq<Sys>, b: nat, j: nat)
    requires JointSteps(tr, life) && b <= j < |tr| && Tracks(c, tr[0], life[0])
    ensures life[b].payments.Keys <= life[j].payments.Keys
  {
    if b < j {
      IdsKept(c, tr, life, b, j - 1);
      var d := RunTracks(c, tr, life, j);
    }
  }

  /** A listing of payments that starts at state `b` and ends with the run. */
  ghost predicate JointCall(c: Contents, tr: seq<ListingState>, life: seq<Sys>, b: nat) {
    && JointSteps(tr, life) && b + 1 < |tr| && Tracks(c, tr[0], life[0])
    && tr[b].lister == Lister.Idle && tr[b + 1].lister.Walking?
    && tr[|tr| - 1].lister.Walking? && tr[|tr| - 1].lister.todo == []
  }

  lemma JointCallIsCall(c: Contents, tr: seq<ListingState>, life: seq<Sys>, b: nat)
    requires JointCall(c, tr, life, b)
    ensures IsCall(PAYMENTS, tr, b)
  {
    forall i | 0 <= i < |tr| - 1 ensures Moves(PAYMENTS, tr, i) {
      StepKinds(tr, life, i);
    }
  }

  lemma GettableIsStored(c: Contents, tr: seq<ListingState>, life: seq<Sys>, b: nat, p: Payment)
    requires JointSteps(tr, life) && b < |tr| && Tracks(c, tr[0], life[0]) && Gettable(tr, b, p)
    ensures StoredSince(life, b, p)
  {
    var j :| b <= j < |tr| && LookupPayment(tr[j].files, p.paymentId) == Ok(p);
    var d := RunTracks(c, tr, life, j);
    LookupRefines(d, p.paymentId);
    assert StoredAt(life[j].payments, p.paymentId) == Some(p);
  }

  lemma IdStays(c: Contents, tr: seq<ListingState>, life: seq<Sys>, b: nat, id: PaymentId)
    requires JointSteps(tr, life) && b < |tr| && Tracks(c, tr[0], life[0])
    requires id in life[b].payments
    ensures PresentThroughout(tr, b, PaymentFile(id))
  {
    forall j | b <= j < |tr| ensures PaymentFile(id) in tr[j].files {
      IdsKept(c, tr, life, b, j);
      var d := RunTracks(c, tr, life, j);
      PaymentFileAt(d, id);
    }
  }

  /** At some state from `b` on, `p` was the record stored under its id. */
  ghost predicate StoredSince(life: seq<Sys>, b: nat, p: Payment) {
    exists j :: b <= j < |life| && StoredAt(life[j].payments, p.paymentId) == Some(p)
  }

  /**
   * `list_payments` beside any API calls, event handling, restarts and changes of peers: it never
   * fails, returns no id twice and only records that were stored during the call, and misses no
   * payment whose record was written before the call began.
   */
  lemma ListsEveryPayment(c: Contents, tr: seq<ListingState>, life: seq<Sys>, b: nat)
    requires JointCall(c, tr, life, b)
    ensures var r := Collect(PaymentKind(), false, tr[|tr| - 1].lister.seen);
            && r.Ok?
            && (forall i, j :: 0 <= i < j < |r.value| ==> r.value[i].paymentId != r.value[j].paymentId)
            && (forall p :: p in r.value ==> StoredSince(life, b, p))
            && (forall id :: id in life[b].payments ==> Includes(r.value, id))
  {
    var kind := PaymentKind();
    var r := Collect(kind, false, tr[|tr| - 1].lister.seen);
    forall i | 0 <= i < |tr| ensures Sound(kind, tr[i].files) {
      var d := RunTracks(c, tr, life, i);
      PaymentsSound(d);
    }
    JointCallIsCall(c, tr, life, b);
    PaymentKindLawful();
    ListingUnderInterference(kind, tr, b);
    GoodIsGoodPayments(tr, b, r.value);
    forall p | p in r.value ensures StoredSince(life, b, p) {
      GettableIsStored(c, tr, life, b, p);
    }
    forall id | id in life[b].payments ensures Includes(r.value, id) {
      IdStays(c, tr, life, b, id);
    }
  }
}
