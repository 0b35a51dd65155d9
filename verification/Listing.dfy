/**
 * Listing records while other operations run. A listing takes the lock once for the names and then
 * once per name; between two lock holds any operation may change the files. The theory is written
 * for any kind of record whose decoder undoes its encoder; payments and peers are its two uses.
 */
module Listing {
  import opened Wrappers
  import opened Bytes
  import opened KeyedFiles
  import opened NodeFiles

  /** How one kind of record is filed. */
  datatype Kind<!K, !V> = Kind(space: Space, text: K -> string, idOf: V -> K,
                               enc: V -> seq<Byte>, dec: seq<Byte> -> Option<V>)

  ghost predicate Lawful<K(!new), V(!new)>(kind: Kind<K, V>) {
    && (forall v :: kind.dec(kind.enc(v)) == Some(v))
    && (forall a, b :: kind.text(a) == kind.text(b) ==> a == b)
  }

  /** `bytes` is record `v`, and `name` spells its id. */
  ghost predicate Filed<K(!new), V(!new)>(kind: Kind<K, V>, name: string, bytes: seq<Byte>, v: V) {
    bytes == kind.enc(v) && name == kind.text(kind.idOf(v))
  }

  /** Every file of the space is some record under its own id. */
  ghost predicate Sound<K(!new), V(!new)>(kind: Kind<K, V>, files: Files) {
    forall name :: kind.space.File(name) in files ==>
      exists v :: Filed(kind, name, files[kind.space.File(name)], v)
  }

  /** What `get` finds for `id`. */
  function Lookup<K, V>(kind: Kind<K, V>, files: Files, id: K): Result<V, IoError> {
    var k := kind.space.File(kind.text(id));
    if k !in files then Err(NotFound)
    else
      match kind.dec(files[k])
      case None => Err(InvalidData)
      case Some(v) => Ok(v)
  }

  // ----- The listing loop -----

  /** One read made by a listing: the name and the bytes found, if any. */
  datatype Observation = Observation(name: string, data: Option<seq<Byte>>)

  /**
   * What the loop makes of its reads. Undecodable bytes abort it; a name whose file is gone aborts
   * it when `strict` (peers) and is skipped otherwise (payments).
   */
  function Collect<K, V>(kind: Kind<K, V>, strict: bool, obs: seq<Observation>): Result<seq<V>, IoError> {
    if obs == [] then Ok([])
    else
      match obs[0].data
      case None => if strict then Err(NotFound) else Collect(kind, strict, obs[1..])
      case Some(bytes) =>
        match kind.dec(bytes)
        case None => Err(InvalidData)
        case Some(v) => Prepend(v, Collect(kind, strict, obs[1..]))
  }

  function Prepend<V>(v: V, r: Result<seq<V>, IoError>): Result<seq<V>, IoError> {
    match r
    case Err(e) => Err(e)
    case Ok(vs) => Ok([v] + vs)
  }

  /** The read ends the loop. */
  predicate Damaged<K, V>(kind: Kind<K, V>, strict: bool, o: Observation) {
    match o.data
    case None => strict
    case Some(bytes) => kind.dec(bytes).None?
  }

  ghost predicate DecodedFrom<K, V>(kind: Kind<K, V>, obs: seq<Observation>, v: V) {
    exists k :: 0 <= k < |obs| && obs[k].data.Some? && kind.dec(obs[k].data.value) == Some(v)
  }

  /**
   * The loop on any reads, of damaged files too: it fails exactly if some read is damaged, with the
   * error of the first such read, and otherwise returns just what the other reads decode to.
   */
  lemma {:induction false} CollectExact<K, V(!new)>(kind: Kind<K, V>, strict: bool, obs: seq<Observation>)
    returns (k: nat)
    ensures k <= |obs| && forall j :: 0 <= j < k ==> !Damaged(kind, strict, obs[j])
    ensures k == |obs| <==> Collect(kind, strict, obs).Ok?
    ensures k < |obs| ==>
              && Damaged(kind, strict, obs[k])
              && Collect(kind, strict, obs) == Err(if obs[k].data.None? then NotFound else InvalidData)
    ensures k == |obs| ==> forall v :: v in Collect(kind, strict, obs).value <==> DecodedFrom(kind, obs, v)
  {
    if obs == [] || Damaged(kind, strict, obs[0]) {
      k := 0;
    } else {
      k := CollectExact(kind, strict, obs[1..]);
      k := k + 1;
      assert forall j :: 0 < j < |obs| ==> obs[1..][j - 1] == obs[j];
      if k == |obs| {
        DecodedCons(kind, strict, obs);
      }
    }
  }

  lemma DecodedCons<K, V(!new)>(kind: Kind<K, V>, strict: bool, obs: seq<Observation>)
    requires obs != [] && !Damaged(kind, strict, obs[0]) && Collect(kind, strict, obs[1..]).Ok?
    requires forall v :: v in Collect(kind, strict, obs[1..]).value <==> DecodedFrom(kind, obs[1..], v)
    ensures Collect(kind, strict, obs).Ok?
    ensures forall v :: v in Collect(kind, strict, obs).value <==> DecodedFrom(kind, obs, v)
  {
    var tail := obs[1..];
    forall v ensures DecodedFrom(kind, obs, v)
                     <==> (obs[0].data.Some? && kind.dec(obs[0].data.value) == Some(v)) || DecodedFrom(kind, tail, v) {
      if DecodedFrom(kind, tail, v) {
        var j :| 0 <= j < |tail| && tail[j].data.Some? && kind.dec(tail[j].data.value) == Some(v);
        assert obs[j + 1] == tail[j];
      }
      if DecodedFrom(kind, obs, v) {
        var j :| 0 <= j < |obs| && obs[j].data.Some? && kind.dec(obs[j].data.value) == Some(v);
        assert j > 0 ==> tail[j - 1] == obs[j];
      }
    }
  }

  /** `vs` holds each entry of `m` once. */
  ghost predicate ListsAll<K(!new), V(!new)>(vs: seq<V>, m: map<K, V>, idOf: V -> K) {
    && (forall i, j :: 0 <= i < j < |vs| ==> idOf(vs[i]) != idOf(vs[j]))
    && (forall v :: v in vs ==> idOf(v) in m && m[idOf(v)] == v)
    && (forall k :: k in m ==> m[k] in vs && idOf(m[k]) == k)
  }

  // ----- The interleaved system -----

  datatype Lister = Idle | Walking(todo: seq<string>, seen: seq<Observation>)

  datatype ListingState = ListingState(files: Files, lister: Lister)

  /** `names` is the key-value store's answer to a list request: each file of the space once. */
  ghost predicate Enumerates(names: seq<string>, files: Files, space: Space) {
    && (forall i, j :: 0 <= i < j < |names| ==> names[i] != names[j])
    && (forall name :: name in names <==> space.File(name) in files)
  }

  /** Any change of the files by anyone else, in one lock hold. */
  ghost predicate Elsewhere(s: ListingState, t: ListingState) {
    t.lister == s.lister
  }

  /** The listing's first lock hold. */
  ghost predicate TakeNames(space: Space, s: ListingState, t: ListingState) {
    && s.lister.Idle? && t.lister.Walking? && t.files == s.files
    && Enumerates(t.lister.todo, s.files, space) && t.lister.seen == []
  }

  /** One of its later lock holds. */
  ghost predicate ReadOne(space: Space, s: ListingState, t: ListingState) {
    && s.lister.Walking? && s.lister.todo != []
    && var name := s.lister.todo[0];
       t == ListingState(s.files, Walking(s.lister.todo[1..],
                                 s.lister.seen + [Observation(name, Stored(s.files, space, name))]))
  }

  ghost predicate Next(space: Space, s: ListingState, t: ListingState) {
    Elsewhere(s, t) || TakeNames(space, s, t) || ReadOne(space, s, t)
  }

  ghost predicate Moves(space: Space, tr: seq<ListingState>, i: nat)
    requires i + 1 < |tr|
  {
    Next(space, tr[i], tr[i + 1])
  }

  /** A call that starts at state `b` and has made its last read in the final state. */
  ghost predicate IsCall(space: Space, tr: seq<ListingState>, b: nat) {
    && (forall i :: 0 <= i < |tr| - 1 ==> Moves(space, tr, i))
    && b + 1 < |tr| && tr[b].lister.Idle? && tr[b + 1].lister.Walking?
    && tr[|tr| - 1].lister.Walking? && tr[|tr| - 1].lister.todo == []
  }

  /** `o` is what the file `o.name` held at some state of the call up to `i`. */
  ghost predicate Genuine(space: Space, tr: seq<ListingState>, b: nat, i: nat, o: Observation)
    requires b <= i < |tr|
  {
    exists j :: b <= j <= i && o.data == Stored(tr[j].files, space, o.name)
  }

  /** The walk so far: the names read are a prefix of those taken, each read genuine. */
  ghost predicate WalkInv(space: Space, tr: seq<ListingState>, b: nat, i: nat)
    requires b < i < |tr| && tr[b + 1].lister.Walking?
  {
    && tr[i].lister.Walking?
    && var names, seen := tr[b + 1].lister.todo, tr[i].lister.seen;
       && |seen| <= |names| && tr[i].lister.todo == names[|seen|..]
       && forall k :: 0 <= k < |seen| ==>
            seen[k].name == names[k] && Genuine(space, tr, b, i, seen[k])
  }

  lemma WalkStep(space: Space, tr: seq<ListingState>, b: nat, i: nat)
    requires b < i && i + 1 < |tr| && tr[b + 1].lister.Walking?
    requires WalkInv(space, tr, b, i) && Next(space, tr[i], tr[i + 1])
    ensures WalkInv(space, tr, b, i + 1)
  {
    var names, seen, seen' := tr[b + 1].lister.todo, tr[i].lister.seen, tr[i + 1].lister.seen;
    forall k | 0 <= k < |seen'|
      ensures seen'[k].name == names[k] && Genuine(space, tr, b, i + 1, seen'[k])
    {
      if k < |seen| {
        var j :| b <= j <= i && seen[k].data == Stored(tr[j].files, space, seen[k].name);
        assert seen'[k] == seen[k];
      } else {
        assert seen'[k].data == Stored(tr[i].files, space, seen'[k].name);
      }
    }
  }

  lemma {:induction false} WalkKeeps(space: Space, tr: seq<ListingState>, b: nat, i: nat)
    requires IsCall(space, tr, b) && b < i < |tr|
    ensures WalkInv(space, tr, b, i)
  {
    if i == b + 1 {
      WalkStart(space, tr, b);
    } else {
      WalkKeeps(space, tr, b, i - 1);
      assert Moves(space, tr, i - 1);
      WalkStep(space, tr, b, i - 1);
    }
  }

  lemma WalkStart(space: Space, tr: seq<ListingState>, b: nat)
    requires IsCall(space, tr, b)
    ensures TakeNames(space, tr[b], tr[b + 1])
    ensures WalkInv(space, tr, b, b + 1)
  {
    assert Moves(space, tr, b);
  }

  /** Every read of the call found a record under its own id, or nothing. */
  ghost predicate Faithful<K(!new), V(!new)>(kind: Kind<K, V>, o: Observation) {
    o.data.Some? ==> exists v :: Filed(kind, o.name, o.data.value, v)
  }

  ghost predicate AllFaithful<K(!new), V(!new)>(kind: Kind<K, V>, obs: seq<Observation>) {
    && (forall k :: 0 <= k < |obs| ==> Faithful(kind, obs[k]))
    && (forall i, j :: 0 <= i < j < |obs| ==> obs[i].name != obs[j].name)
  }

  /** Every completed call: which names it read, and that each read was genuine. */
  lemma CallReads<K(!new), V(!new)>(kind: Kind<K, V>, tr: seq<ListingState>, b: nat)
    requires IsCall(kind.space, tr, b)
    requires forall i :: 0 <= i < |tr| ==> Sound(kind, tr[i].files)
    ensures var e, names, seen := |tr| - 1, tr[b + 1].lister.todo, tr[|tr| - 1].lister.seen;
            && Enumerates(names, tr[b].files, kind.space)
            && |seen| == |names| && AllFaithful(kind, seen)
            && (forall k :: 0 <= k < |seen| ==>
                  seen[k].name == names[k] && Genuine(kind.space, tr, b, e, seen[k]))
  {
    WalkStart(kind.space, tr, b);
    WalkKeeps(kind.space, tr, b, |tr| - 1);
    var seen := tr[|tr| - 1].lister.seen;
    forall k | 0 <= k < |seen| ensures Faithful(kind, seen[k]) {
      assert Genuine(kind.space, tr, b, |tr| - 1, seen[k]);
      var j :| b <= j <= |tr| - 1 && seen[k].data == Stored(tr[j].files, kind.space, seen[k].name);
      assert Sound(kind, tr[j].files);
    }
  }

  /** If the listing reads a file in state `i`, the file is there. */
  ghost predicate ReadPresent(space: Space, tr: seq<ListingState>, i: nat)
    requires i + 1 < |tr|
  {
    ReadOne(space, tr[i], tr[i + 1]) ==> space.File(tr[i].lister.todo[0]) in tr[i].files
  }

  /** Every file the call reads, up to state `n`, is there when it is read. */
  ghost predicate PresentWhenRead(space: Space, tr: seq<ListingState>, b: nat, n: nat)
    requires n < |tr|
  {
    forall i :: b < i < n ==> ReadPresent(space, tr, i)
  }

  ghost predicate AllThere(obs: seq<Observation>) {
    forall k :: 0 <= k < |obs| ==> obs[k].data.Some?
  }

  lemma {:induction false} PresentIsThere(space: Space, tr: seq<ListingState>, b: nat, n: nat)
    requires IsCall(space, tr, b) && b < n < |tr|
    ensures tr[n].lister.Walking?
    ensures PresentWhenRead(space, tr, b, n) <==> AllThere(tr[n].lister.seen)
  {
    if n == b + 1 {
      WalkStart(space, tr, b);
    } else {
      PresentIsThere(space, tr, b, n - 1);
      assert Moves(space, tr, n - 1);
      ReadFinds(space, tr, b, n - 1);
    }
  }

  lemma ReadFinds(space: Space, tr: seq<ListingState>, b: nat, n: nat)
    requires b < n && n + 1 < |tr| && Next(space, tr[n], tr[n + 1]) && tr[n].lister.Walking?
    requires PresentWhenRead(space, tr, b, n) <==> AllThere(tr[n].lister.seen)
    ensures tr[n + 1].lister.Walking?
    ensures PresentWhenRead(space, tr, b, n + 1) <==> AllThere(tr[n + 1].lister.seen)
  {
    if ReadOne(space, tr[n], tr[n + 1]) {
      var name := tr[n].lister.todo[0];
      SnocThere(tr[n].lister.seen, Observation(name, Stored(tr[n].files, space, name)));
    }
    assert PresentWhenRead(space, tr, b, n + 1)
      <==> PresentWhenRead(space, tr, b, n) && ReadPresent(space, tr, n);
  }

  lemma SnocThere(obs: seq<Observation>, o: Observation)
    ensures AllThere(obs + [o]) <==> AllThere(obs) && o.data.Some?
  {
    var all := obs + [o];
    assert all[|obs|] == o;
    assert forall k :: 0 <= k < |obs| ==> all[k] == obs[k];
  }

  // ----- What a lenient listing returns -----

  ghost predicate Found<K(!new), V(!new)>(kind: Kind<K, V>, o: Observation, v: V) {
    o.data.Some? && Filed(kind, o.name, o.data.value, v)
  }

  ghost predicate FoundIn<K(!new), V(!new)>(kind: Kind<K, V>, obs: seq<Observation>, v: V) {
    exists k :: 0 <= k < |obs| && Found(kind, obs[k], v)
  }

  /** `vs` holds exactly the records that were found, no id twice. */
  ghost predicate Harvest<K(!new), V(!new)>(kind: Kind<K, V>, vs: seq<V>, obs: seq<Observation>) {
    && (forall i, j :: 0 <= i < j < |vs| ==> kind.idOf(vs[i]) != kind.idOf(vs[j]))
    && (forall i :: 0 <= i < |vs| ==> FoundIn(kind, obs, vs[i]))
    && (forall v :: FoundIn(kind, obs, v) ==> v in vs)
  }

  lemma FoundCons<K(!new), V(!new)>(kind: Kind<K, V>, obs: seq<Observation>, v: V)
    requires obs != []
    ensures FoundIn(kind, obs, v) <==> Found(kind, obs[0], v) || FoundIn(kind, obs[1..], v)
  {
    if FoundIn(kind, obs[1..], v) {
      var k :| 0 <= k < |obs[1..]| && Found(kind, obs[1..][k], v);
      assert Found(kind, obs[k + 1], v);
    }
    if FoundIn(kind, obs, v) && !Found(kind, obs[0], v) {
      var k :| 0 <= k < |obs| && Found(kind, obs[k], v);
      assert obs[1..][k - 1] == obs[k];
    }
  }

  lemma FoundUnique<K(!new), V(!new)>(kind: Kind<K, V>, o: Observation, v: V, w: V)
    requires Lawful(kind) && Found(kind, o, v) && Found(kind, o, w)
    ensures v == w
  {
    assert kind.dec(kind.enc(v)) == Some(v) && kind.dec(kind.enc(w)) == Some(w);
  }

  /** Records found under other names have other ids. */
  lemma TailIdsDiffer<K(!new), V(!new)>(kind: Kind<K, V>, obs: seq<Observation>, v: V, w: V)
    requires AllFaithful(kind, obs) && obs != []
    requires Found(kind, obs[0], v) && FoundIn(kind, obs[1..], w)
    ensures kind.idOf(v) != kind.idOf(w)
  {
    var k :| 0 <= k < |obs[1..]| && Found(kind, obs[1..][k], w);
    assert obs[k + 1].name != obs[0].name;
  }

  lemma TailFaithful<K(!new), V(!new)>(kind: Kind<K, V>, obs: seq<Observation>)
    requires AllFaithful(kind, obs) && obs != []
    ensures AllFaithful(kind, obs[1..])
  {
    forall k | 0 <= k < |obs| - 1 ensures Faithful(kind, obs[1..][k]) {
      assert obs[1..][k] == obs[k + 1];
    }
  }

  lemma HarvestCons<K(!new), V(!new)>(kind: Kind<K, V>, obs: seq<Observation>, v: V, vs: seq<V>)
    requires Lawful(kind) && AllFaithful(kind, obs) && obs != []
    requires Found(kind, obs[0], v) && Harvest(kind, vs, obs[1..])
    ensures Harvest(kind, [v] + vs, obs)
  {
    var all := [v] + vs;
    forall i | 0 <= i < |all| ensures FoundIn(kind, obs, all[i]) {
      FoundCons(kind, obs, all[i]);
      assert i > 0 ==> all[i] == vs[i - 1];
    }
    forall i, j | 0 <= i < j < |all| ensures kind.idOf(all[i]) != kind.idOf(all[j]) {
      assert all[j] == vs[j - 1] && FoundIn(kind, obs[1..], vs[j - 1]);
      if i == 0 {
        TailIdsDiffer(kind, obs, v, all[j]);
      } else {
        assert all[i] == vs[i - 1];
      }
    }
    forall w | FoundIn(kind, obs, w) ensures w in all {
      FoundCons(kind, obs, w);
      if Found(kind, obs[0], w) {
        FoundUnique(kind, obs[0], v, w);
        assert all[0] == w;
      } else {
        assert w in vs;
      }
    }
  }

  lemma HarvestSkip<K(!new), V(!new)>(kind: Kind<K, V>, obs: seq<Observation>, vs: seq<V>)
    requires obs != [] && obs[0].data.None? && Harvest(kind, vs, obs[1..])
    ensures Harvest(kind, vs, obs)
  {
    forall v ensures FoundIn(kind, obs, v) <==> FoundIn(kind, obs[1..], v) {
      FoundCons(kind, obs, v);
    }
  }

  /** A lenient listing succeeds and returns what it found, whatever went missing. */
  lemma {:induction false} CollectHarvest<K(!new), V(!new)>(kind: Kind<K, V>, obs: seq<Observation>)
    requires Lawful(kind) && AllFaithful(kind, obs)
    ensures Collect(kind, false, obs).Ok?
    ensures Harvest(kind, Collect(kind, false, obs).value, obs)
  {
    if obs != [] {
      TailFaithful(kind, obs);
      CollectHarvest(kind, obs[1..]);
      var vs := Collect(kind, false, obs[1..]).value;
      assert Faithful(kind, obs[0]);
      if obs[0].data.Some? {
        var v :| Filed(kind, obs[0].name, obs[0].data.value, v);
        HarvestCons(kind, obs, v, vs);
      } else {
        HarvestSkip(kind, obs, vs);
      }
    }
  }

  /**
   * A strict listing fails exactly when some file was gone at its read; otherwise it returns what
   * the lenient one does, one record per name.
   */
  lemma {:induction false} CollectStrict<K(!new), V(!new)>(kind: Kind<K, V>, obs: seq<Observation>)
    requires Lawful(kind) && AllFaithful(kind, obs)
    ensures Collect(kind, true, obs)
            == if AllThere(obs) then Collect(kind, false, obs) else Err(NotFound)
    ensures Collect(kind, true, obs).Ok? ==> |Collect(kind, true, obs).value| == |obs|
  {
    if obs != [] {
      TailFaithful(kind, obs);
      CollectStrict(kind, obs[1..]);
      CollectHarvest(kind, obs);
      assert Faithful(kind, obs[0]);
      assert forall k :: 0 <= k < |obs| - 1 ==> obs[1..][k] == obs[k + 1];
      assert AllThere(obs) <==> obs[0].data.Some? && AllThere(obs[1..]);
    }
  }

  // ----- The interleaving theorem -----

  ghost predicate PresentThroughout(tr: seq<ListingState>, b: nat, k: FileKey) {
    forall j :: b <= j < |tr| ==> k in tr[j].files
  }

  /** The id's record was `v` at some moment of the call. */
  ghost predicate StoredDuring<K(!new), V(!new)>(kind: Kind<K, V>, tr: seq<ListingState>, b: nat, v: V) {
    exists j :: b <= j < |tr| && Lookup(kind, tr[j].files, kind.idOf(v)) == Ok(v)
  }

  /** What a lenient listing promises its caller. */
  ghost predicate GoodListing<K(!new), V(!new)>(kind: Kind<K, V>, tr: seq<ListingState>, b: nat, vs: seq<V>) {
    && (forall i, j :: 0 <= i < j < |vs| ==> kind.idOf(vs[i]) != kind.idOf(vs[j]))
    && (forall v :: v in vs ==> StoredDuring(kind, tr, b, v))
    && (forall id :: PresentThroughout(tr, b, kind.space.File(kind.text(id)))
          ==> exists v :: v in vs && kind.idOf(v) == id)
  }

  lemma FoundIsStored<K(!new), V(!new)>(kind: Kind<K, V>, tr: seq<ListingState>, b: nat, o: Observation, v: V)
    requires Lawful(kind) && b < |tr|
    requires Genuine(kind.space, tr, b, |tr| - 1, o) && Found(kind, o, v)
    ensures StoredDuring(kind, tr, b, v)
  {
    var j :| b <= j <= |tr| - 1 && o.data == Stored(tr[j].files, kind.space, o.name);
    assert kind.dec(kind.enc(v)) == Some(v);
    assert Lookup(kind, tr[j].files, kind.idOf(v)) == Ok(v);
  }

  lemma PresentIsFound<K(!new), V(!new)>(
      kind: Kind<K, V>, tr: seq<ListingState>, b: nat, names: seq<string>, seen: seq<Observation>, id: K)
    returns (v: V)
    requires Lawful(kind) && b < |tr|
    requires PresentThroughout(tr, b, kind.space.File(kind.text(id)))
    requires Enumerates(names, tr[b].files, kind.space) && |seen| == |names|
    requires AllFaithful(kind, seen)
    requires forall k :: 0 <= k < |seen| ==>
               seen[k].name == names[k] && Genuine(kind.space, tr, b, |tr| - 1, seen[k])
    ensures FoundIn(kind, seen, v) && kind.idOf(v) == id
  {
    assert kind.space.File(kind.text(id)) in tr[b].files;
    assert kind.text(id) in names;
    var k :| 0 <= k < |names| && names[k] == kind.text(id);
    assert Genuine(kind.space, tr, b, |tr| - 1, seen[k]) && Faithful(kind, seen[k]);
    var j :| b <= j <= |tr| - 1 && seen[k].data == Stored(tr[j].files, kind.space, seen[k].name);
    assert seen[k].data.Some?;
    v :| Filed(kind, seen[k].name, seen[k].data.value, v);
    assert Found(kind, seen[k], v);
  }

  lemma ListingUnderInterference<K(!new), V(!new)>(kind: Kind<K, V>, tr: seq<ListingState>, b: nat)
    requires Lawful(kind) && IsCall(kind.space, tr, b)
    requires forall i :: 0 <= i < |tr| ==> Sound(kind, tr[i].files)
    ensures var r := Collect(kind, false, tr[|tr| - 1].lister.seen);
            r.Ok? && GoodListing(kind, tr, b, r.value)
  {
    CallReads(kind, tr, b);
    var names, seen := tr[b + 1].lister.todo, tr[|tr| - 1].lister.seen;
    CollectHarvest(kind, seen);
    var vs := Collect(kind, false, seen).value;
    forall v | v in vs ensures StoredDuring(kind, tr, b, v) {
      var i :| 0 <= i < |vs| && vs[i] == v;
      var k :| 0 <= k < |seen| && Found(kind, seen[k], v);
      FoundIsStored(kind, tr, b, seen[k], v);
    }
    forall id | PresentThroughout(tr, b, kind.space.File(kind.text(id)))
      ensures exists v :: v in vs && kind.idOf(v) == id
    {
      var v := PresentIsFound(kind, tr, b, names, seen, id);
      assert v in vs;
    }
  }

  /**
   * A strict listing succeeds exactly when each file it reads is there when it is read, and then
   * promises what a lenient one does and one record per name.
   */
  lemma StrictUnderInterference<K(!new), V(!new)>(kind: Kind<K, V>, tr: seq<ListingState>, b: nat)
    requires Lawful(kind) && IsCall(kind.space, tr, b)
    requires forall i :: 0 <= i < |tr| ==> Sound(kind, tr[i].files)
    ensures var r := Collect(kind, true, tr[|tr| - 1].lister.seen);
            && (r.Ok? <==> PresentWhenRead(kind.space, tr, b, |tr| - 1))
            && (r.Err? ==> r.error == NotFound)
            && (r.Ok? ==> |r.value| == |tr[b + 1].lister.todo| && GoodListing(kind, tr, b, r.value))
  {
    CallReads(kind, tr, b);
    PresentIsThere(kind.space, tr, b, |tr| - 1);
    CollectStrict(kind, tr[|tr| - 1].lister.seen);
    ListingUnderInterference(kind, tr, b);
  }

  /** Files that are there throughout are there when they are read. */
  lemma PresentThroughoutRead<K(!new), V(!new)>(kind: Kind<K, V>, tr: seq<ListingState>, b: nat)
    requires IsCall(kind.space, tr, b)
    requires forall i :: 0 <= i < |tr| ==> Sound(kind, tr[i].files)
    requires forall name :: kind.space.File(name) in tr[b].files ==>
               PresentThroughout(tr, b, kind.space.File(name))
    ensures PresentWhenRead(kind.space, tr, b, |tr| - 1)
  {
    var names, seen := tr[b + 1].lister.todo, tr[|tr| - 1].lister.seen;
    CallReads(kind, tr, b);
    PresentIsThere(kind.space, tr, b, |tr| - 1);
    forall k | 0 <= k < |seen| ensures seen[k].data.Some? {
      assert names[k] in names;
      assert Genuine(kind.space, tr, b, |tr| - 1, seen[k]);
      var j :| b <= j <= |tr| - 1 && seen[k].data == Stored(tr[j].files, kind.space, seen[k].name);
      assert PresentThroughout(tr, b, kind.space.File(names[k]));
    }
  }
}
