/** Listing payments by status: one filter over a listing. */
module StatusLists {
  import opened Records
  import opened Listing

  function OfStatus(ps: seq<Payment>, status: PaymentStatus): seq<Payment> {
    if ps == [] then []
    else if ps[0].status == status then [ps[0]] + OfStatus(ps[1..], status)
    else OfStatus(ps[1..], status)
  }

  /** `out` is `ps` at the ascending positions `pos`, which are exactly those with the status. */
  ghost predicate Selects(ps: seq<Payment>, status: PaymentStatus, pos: seq<nat>, out: seq<Payment>) {
    && |pos| == |out|
    && (forall i, j :: 0 <= i < j < |pos| ==> pos[i] < pos[j])
    && (forall i :: 0 <= i < |pos| ==> Copied(ps, pos, out, i))
    && (forall k :: 0 <= k < |ps| && ps[k].status == status ==> k in pos)
    && (forall p :: p in out ==> p.status == status)
  }

  ghost predicate Copied(ps: seq<Payment>, pos: seq<nat>, out: seq<Payment>, i: nat)
    requires i < |pos| == |out|
  {
    pos[i] < |ps| && out[i] == ps[pos[i]]
  }

  function Shift(pos: seq<nat>): (up: seq<nat>)
    ensures |up| == |pos| && forall i :: 0 <= i < |pos| ==> up[i] == pos[i] + 1
  {
    seq(|pos|, i requires 0 <= i < |pos| => pos[i] + 1)
  }

  lemma ShiftIn(pos: seq<nat>, k: nat)
    requires k in pos
    ensures k + 1 in Shift(pos)
  {
    var i :| 0 <= i < |pos| && pos[i] == k;
    assert Shift(pos)[i] == k + 1;
  }

  lemma SelectsSkip(p: Payment, ps: seq<Payment>, status: PaymentStatus, pos: seq<nat>, out: seq<Payment>)
    requires Selects(ps, status, pos, out) && p.status != status
    ensures Selects([p] + ps, status, Shift(pos), out)
  {
    forall i | 0 <= i < |pos| ensures Copied([p] + ps, Shift(pos), out, i) {
      assert Copied(ps, pos, out, i);
    }
    forall k | 0 <= k < |ps| + 1 && ([p] + ps)[k].status == status ensures k in Shift(pos) {
      ShiftIn(pos, k - 1);
    }
  }

  lemma SelectsTake(p: Payment, ps: seq<Payment>, status: PaymentStatus, pos: seq<nat>, out: seq<Payment>)
    requires Selects(ps, status, pos, out) && p.status == status
    ensures Selects([p] + ps, status, [0] + Shift(pos), [p] + out)
  {
    var all := [0] + Shift(pos);
    forall i | 0 <= i < |all| ensures Copied([p] + ps, all, [p] + out, i) {
      assert i > 0 ==> Copied(ps, pos, out, i - 1);
    }
    assert all[0] == 0;
    forall k | 0 < k < |ps| + 1 && ([p] + ps)[k].status == status ensures k in all {
      ShiftIn(pos, k - 1);
    }
  }

  /** The filtered list keeps the order of the listing and leaves nothing out. */
  lemma {:induction false} OfStatusKeepsOrder(ps: seq<Payment>, status: PaymentStatus)
    returns (pos: seq<nat>)
    ensures Selects(ps, status, pos, OfStatus(ps, status))
  {
    if ps == [] {
      return [];
    }
    var tail := OfStatusKeepsOrder(ps[1..], status);
    assert ps == [ps[0]] + ps[1..];
    if ps[0].status == status {
      SelectsTake(ps[0], ps[1..], status, tail, OfStatus(ps[1..], status));
      pos := [0] + Shift(tail);
    } else {
      SelectsSkip(ps[0], ps[1..], status, tail, OfStatus(ps[1..], status));
      pos := Shift(tail);
    }
  }

  /** The entries with the given status. */
  function WithStatus(m: map<PaymentId, Payment>, status: PaymentStatus): map<PaymentId, Payment> {
    map id | id in m && m[id].status == status :: m[id]
  }

  /** Filtering any listing of a store lists the entries with the status. */
  lemma OfStatusLists(all: seq<Payment>, m: map<PaymentId, Payment>, status: PaymentStatus)
    requires ListsAll(all, m, PaymentIdOf)
    ensures ListsAll(OfStatus(all, status), WithStatus(m, status), PaymentIdOf)
  {
    var out := OfStatus(all, status);
    var pos := OfStatusKeepsOrder(all, status);
    forall i, j | 0 <= i < j < |out| ensures PaymentIdOf(out[i]) != PaymentIdOf(out[j]) {
      assert pos[i] < pos[j] && Copied(all, pos, out, i) && Copied(all, pos, out, j);
    }
    forall p | p in out ensures p in all && p.status == status {
      var i :| 0 <= i < |out| && out[i] == p;
      assert Copied(all, pos, out, i);
    }
    forall id | id in WithStatus(m, status) ensures m[id] in out {
      var k :| 0 <= k < |all| && all[k] == m[id];
      var i :| 0 <= i < |pos| && pos[i] == k;
      assert Copied(all, pos, out, i);
    }
  }

  /** Two listings of one store differ at most in order: each entry counts once. */
  lemma ListedOnce(vs: seq<Payment>, m: map<PaymentId, Payment>, p: Payment)
    requires ListsAll(vs, m, PaymentIdOf)
    ensures multiset(vs)[p] == if p.paymentId in m && m[p.paymentId] == p then 1 else 0
  {
    CountDistinct(vs, p);
  }

  lemma {:induction false} CountDistinct(vs: seq<Payment>, p: Payment)
    requires forall i, j :: 0 <= i < j < |vs| ==> PaymentIdOf(vs[i]) != PaymentIdOf(vs[j])
    ensures multiset(vs)[p] == if p in vs then 1 else 0
  {
    if vs != [] {
      CountDistinct(vs[1..], p);
      assert vs == [vs[0]] + vs[1..];
    }
  }

  /**
   * Three calls for the three statuses, each making its own listing in its own order: together they
   * return what one listing of the store returns, each payment in exactly one of them.
   */
  lemma StatusListsPartition(m: map<PaymentId, Payment>, pending: seq<Payment>,
                             succeeded: seq<Payment>, failed: seq<Payment>, all: seq<Payment>)
    requires ListsAll(pending, WithStatus(m, Pending), PaymentIdOf)
    requires ListsAll(succeeded, WithStatus(m, Succeeded), PaymentIdOf)
    requires ListsAll(failed, WithStatus(m, Failed), PaymentIdOf)
    requires ListsAll(all, m, PaymentIdOf)
    ensures multiset(pending) + multiset(succeeded) + multiset(failed) == multiset(all)
    ensures multiset(pending) !! multiset(succeeded) !! multiset(failed)
  {
    forall p
      ensures (multiset(pending) + multiset(succeeded) + multiset(failed))[p] == multiset(all)[p]
      ensures multiset(pending)[p] + multiset(succeeded)[p] + multiset(failed)[p] <= 1
    {
      ListedOnce(pending, WithStatus(m, Pending), p);
      ListedOnce(succeeded, WithStatus(m, Succeeded), p);
      ListedOnce(failed, WithStatus(m, Failed), p);
      ListedOnce(all, m, p);
    }
  }
}
