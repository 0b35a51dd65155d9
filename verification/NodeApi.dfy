/** The API calls and the event handler over the durable store, each run with nothing beside it. */
module NodeApi {
  import opened Wrappers
  import opened Bytes
  import opened Records
  import opened NodeFiles
  import opened NodeStores
  import opened PaymentEvents
  import opened Lifecycle

  datatype ApiError = AmountNotSpecified | Refused | NotStored(cause: IoError)

  /** Taken in a node that is doing nothing else, `steps` turn the stored payments `m` into `n`. */
  ghost predicate RunsAlone(m: Payments, steps: seq<Step>, n: Payments) {
    forall verbose :: Run(Sys(m, multiset{}, Idle, verbose), steps) == Some(Sys(n, multiset{}, Idle, verbose))
  }

  /** A call that is answered with the record `p` to write, and writes it. */
  lemma CallRunsAlone(m: Payments, call: Step, p: Payment)
    requires call.PayCall? || call.InvoiceCall?
    requires forall verbose :: Take(Sys(m, multiset{}, Idle, verbose), call)
                               == Some(Sys(m, multiset{} + multiset{p}, Idle, verbose))
    ensures RunsAlone(m, [call, WriteRecord(p, true)], Write(m, p))
  {
    OneWaiting(p);
    forall verbose
      ensures Run(Sys(m, multiset{}, Idle, verbose), [call, WriteRecord(p, true)])
              == Some(Sys(Write(m, p), multiset{}, Idle, verbose))
    {
      TwoSteps(Sys(m, multiset{}, Idle, verbose), call, WriteRecord(p, true));
    }
  }

  lemma TwoSteps(s: Sys, a: Step, b: Step)
    ensures Run(s, [a, b]) == match Take(s, a) case None => None case Some(t) => Take(t, b)
  {
    assert [a, b][..1] == [a] && [a][..0] == [];
    assert Run(s, [a]) == Take(s, a);
  }

  class Node {
    const store: NodeStore

    constructor (store: NodeStore)
      ensures this.store == store
    {
      this.store := store;
    }

    /**
     * Pays an invoice: the channel manager is asked first and the pending record is written only
     * once it has accepted. A record that cannot be written makes the call fail all the same.
     */
    method PayBolt11Invoice(hash: Bytes32, invoiceAmount: Option<U64>, amountMsat: Option<U64>,
                            accepted: bool, diskOk: bool)
      returns (r: Result<PaymentId, ApiError>)
      requires store.Valid()
      modifies store
      ensures store.Valid() && store.contents.peers == old(store.contents).peers
      ensures r == if AmountToPay(invoiceAmount, amountMsat).None? then Err(AmountNotSpecified)
                   else if !accepted then Err(Refused)
                   else if !diskOk then Err(NotStored(WriteFailed))
                   else Ok(hash)
      ensures r == Err(AmountNotSpecified) <==> invoiceAmount.None? && amountMsat.None?
      ensures r.Err? ==> store.contents == old(store.contents)
      ensures r.Ok? ==>
                store.contents.payments
                == old(store.contents).payments[hash :=
                     Payment(hash, hash, None, Outbound,
                             if invoiceAmount.Some? then invoiceAmount else amountMsat, None, Pending)]
      ensures r.Ok? ==>
                var amount := AmountToPay(invoiceAmount, amountMsat).value;
                var steps := [PayCall(hash, invoiceAmount, amountMsat, true),
                              WriteRecord(OutboundRecord(hash, amount), true)];
                RunsAlone(old(store.contents).payments, steps, store.contents.payments)
    {
      var amount := AmountToPay(invoiceAmount, amountMsat);
      if amount.None? {
        return Err(AmountNotSpecified);
      }
      if !accepted {
        return Err(Refused);
      }
      var payment := Payment(hash, hash, None, Outbound, Some(amount.value), None, Pending);
      CallRunsAlone(store.contents.payments, PayCall(hash, invoiceAmount, amountMsat, true), payment);
      var written := store.AddPayment(payment, diskOk);
      match written
      case Err(e) => r := Err(NotStored(e));
      case Ok(_) => r := Ok(hash);
    }

    /** Creates an invoice and its inbound record; `created` is the channel manager's answer. */
    method CreateBolt11Invoice(amountMsat: Option<U64>, created: Option<Bytes32>, diskOk: bool)
      returns (r: Result<Bytes32, ApiError>)
      requires store.Valid()
      modifies store
      ensures store.Valid() && store.contents.peers == old(store.contents).peers
      ensures r == if created.None? then Err(Refused)
                   else if !diskOk then Err(NotStored(WriteFailed))
                   else Ok(created.value)
      ensures r.Err? ==> store.contents == old(store.contents)
      ensures r.Ok? ==>
                store.contents.payments
                == old(store.contents).payments[r.value :=
                     Payment(r.value, r.value, None, Inbound, amountMsat, None, Pending)]
      ensures r.Ok? ==>
                var steps := [InvoiceCall(r.value, amountMsat),
                              WriteRecord(InboundRecord(r.value, amountMsat), true)];
                RunsAlone(old(store.contents).payments, steps, store.contents.payments)
    {
      if created.None? {
        return Err(Refused);
      }
      var hash := created.value;
      var payment := Payment(hash, hash, None, Inbound, amountMsat, None, Pending);
      CallRunsAlone(store.contents.payments, InvoiceCall(hash, amountMsat), payment);
      var written := store.AddPayment(payment, diskOk);
      match written
      case Err(e) => r := Err(NotStored(e));
      case Ok(_) => r := Ok(hash);
    }

    method GetPayment(id: PaymentId) returns (p: Option<Payment>)
      requires store.Valid()
      ensures p == if id in store.contents.payments then Some(store.contents.payments[id]) else None
    {
      var r := store.GetPayment(id);
      match r
      case Err(_) => p := None;
      case Ok(payment) => p := Some(payment);
    }
  }

  class LdkEventHandler {
    const store: NodeStore
    /** Whether the process logs info messages. */
    const verbose: bool

    constructor (store: NodeStore, verbose: bool)
      ensures this.store == store && this.verbose == verbose
    {
      this.store := store;
      this.verbose := verbose;
    }

    /** The `PaymentSent` arm; `panicked` if an absent field had to be unwrapped. */
    method OnPaymentSent(e: Event, diskOk: bool) returns (panicked: bool)
      requires store.Valid() && e.PaymentSent?
      modifies store
      ensures store.Valid() && store.contents.peers == old(store.contents).peers
      ensures Handled(old(store.contents).payments, e, verbose, diskOk, panicked, store.contents.payments)
    {
      if e.sentId.None? {
        return true;
      }
      var found := store.GetPayment(e.sentId.value);
      if found.Ok? {
        var payment := found.value;
        if verbose && (payment.amountMsat.None? || e.feePaidMsat.None?) {
          return true;
        }
        payment := payment.(status := Succeeded);
        payment := payment.(paymentPreimage := Some(e.preimage));
        payment := payment.(feePaidMsat := e.feePaidMsat);
        var _ := store.UpdatePayment(payment, diskOk);
      }
      panicked := false;
    }

    /** The `PaymentFailed` arm. */
    method OnPaymentFailed(e: Event, diskOk: bool) returns (panicked: bool)
      requires store.Valid() && e.PaymentFailed?
      modifies store
      ensures store.Valid() && store.contents.peers == old(store.contents).peers
      ensures Handled(old(store.contents).payments, e, verbose, diskOk, panicked, store.contents.payments)
    {
      if e.failedHash.Some? {
        var found := store.GetPayment(e.failedId);
        if found.Ok? {
          if verbose && e.reason.None? {
            return true;
          }
          var _ := store.UpdatePayment(found.value.(status := Failed), diskOk);
        }
      }
      panicked := false;
    }

    /** Handles one event: with a working disk this is the step `Handle` of the event log. */
    method HandleEvent(e: Event, diskOk: bool) returns (panicked: bool)
      requires store.Valid()
      modifies store
      ensures store.Valid() && store.contents.peers == old(store.contents).peers
      ensures Handled(old(store.contents).payments, e, verbose, diskOk, panicked, store.contents.payments)
    {
      match e
      case PaymentSent(_, _, _, _) => panicked := OnPaymentSent(e, diskOk);
      case PaymentFailed(_, _, _) => panicked := OnPaymentFailed(e, diskOk);
      case PaymentClaimed(_, _) => panicked := false;
      case PaymentPathSuccessful(hash) => panicked := verbose && hash.None?;
    }
  }

  /** `after` is what handling `e` leaves of `before`; a failed write leaves it alone. */
  ghost predicate Handled(before: Payments, e: Event, verbose: bool, diskOk: bool, panicked: bool,
                          after: Payments)
  {
    && panicked == Panics(before, e, verbose)
    && (if diskOk then Handle(Alive(before), e, verbose) == (if panicked then Dead(after) else Alive(after))
        else after == before)
  }

  /**
   * Handling one event with nothing beside it is its read and its write in the interleaved system.
   * Afterwards the handler is idle again, whether or not the write succeeded, unless it has stopped.
   */
  lemma HandlingIsTwoSteps(s: Sys, e: Event, diskOk: bool, panicked: bool, after: Payments)
    requires Inv(s) && s.handler.Idle? && Handled(s.payments, e, s.verbose, diskOk, panicked, after)
    ensures Take(s, Deliver(e)).Some?
    ensures var t := Take(s, Deliver(e)).value;
            if panicked then t == s.(handler := Stopped) && after == s.payments
            else if t.handler.Holding? then Take(t, StoreRecord(diskOk)) == Some(s.(payments := after))
            else t == s && after == s.payments
  {
  }
}
