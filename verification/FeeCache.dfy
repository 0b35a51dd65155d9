/** The fee-rate cache: always full, floored, and updated target by target. */
module FeeCache {
  import opened Wrappers

  const U32_MAX: int := 0xFFFF_FFFF

  type U32 = n: int | 0 <= n <= 0xFFFF_FFFF

  datatype ConfirmationTarget =
    | MaximumFeeEstimate
    | UrgentOnChainSweep
    | MinAllowedAnchorChannelRemoteFee
    | MinAllowedNonAnchorChannelRemoteFee
    | AnchorChannelFee
    | NonAnchorChannelFee
    | ChannelCloseMinimum
    | OutputSpendingFee

  const CONF_TARGETS: seq<ConfirmationTarget> := [
    MaximumFeeEstimate, UrgentOnChainSweep, MinAllowedAnchorChannelRemoteFee,
    MinAllowedNonAnchorChannelRemoteFee, AnchorChannelFee, NonAnchorChannelFee,
    ChannelCloseMinimum, OutputSpendingFee]

  type Cache = map<ConfirmationTarget, U32>

  function FallbackFee(target: ConfirmationTarget): U32 {
    match target
    case MaximumFeeEstimate => 10000
    case UrgentOnChainSweep => 5000
    case OutputSpendingFee => 4000
    case MinAllowedAnchorChannelRemoteFee => 253
    case MinAllowedNonAnchorChannelRemoteFee => 1000
    case AnchorChannelFee => 253
    case NonAnchorChannelFee => 3000
    case ChannelCloseMinimum => 1000
  }

  function Max(a: int, b: int): int {
    if a < b then b else a
  }

  function Min(a: int, b: int): int {
    if a < b then a else b
  }

  /** The node's rate in sat per 1000 weight, from sat per 1000 vbytes: a saturating cast, then the floor. */
  function FetchedRate(satPerKvb: nat): U32 {
    Max(Min(satPerKvb / 4, U32_MAX), 253)
  }

  /** The rate stored for a target: the maximum estimate gets a margin, added without wrapping. */
  function CachedRate(target: ConfirmationTarget, rate: U32): U32 {
    if target == MaximumFeeEstimate then Min(rate + 2500, U32_MAX) else rate
  }

  /**
   * What `rate` is to `satPerKvb`: a quarter of it rounded down, at least 253, the maximum estimate
   * 2500 more, and in any case no more than a u32 holds.
   */
  ghost predicate RightRate(target: ConfirmationTarget, satPerKvb: nat, rate: int) {
    var margin := if target == MaximumFeeEstimate then 2500 else 0;
    if satPerKvb < 4 * 253 then rate == 253 + margin
    else if satPerKvb < 4 * (U32_MAX - margin + 1) then
      4 * (rate - margin) <= satPerKvb < 4 * (rate - margin) + 4
    else rate == U32_MAX
  }

  lemma CachedRateRight(target: ConfirmationTarget, satPerKvb: nat)
    ensures RightRate(target, satPerKvb, CachedRate(target, FetchedRate(satPerKvb)))
  {
  }

  /** One target's turn in a round: the node's answer, or `None` if the fetch failed. */
  datatype Fetch = Fetch(target: ConfirmationTarget, answer: Option<nat>)

  function Update(cache: Cache, fetch: Fetch): Cache {
    match fetch.answer
    case None => cache
    case Some(satPerKvb) => cache[fetch.target := CachedRate(fetch.target, FetchedRate(satPerKvb))]
  }

  function UpdateAll(cache: Cache, fetches: seq<Fetch>): Cache {
    if fetches == [] then cache
    else Update(UpdateAll(cache, fetches[..|fetches| - 1]), fetches[|fetches| - 1])
  }

  /** The last answer the node gave for `target`, if any. */
  function LastAnswer(fetches: seq<Fetch>, target: ConfirmationTarget): Option<nat> {
    if fetches == [] then None
    else
      var last := fetches[|fetches| - 1];
      if last.target == target && last.answer.Some? then last.answer
      else LastAnswer(fetches[..|fetches| - 1], target)
  }

  ghost predicate Initial(cache: Cache) {
    forall target :: target in cache && cache[target] == FallbackFee(target)
  }

  /**
   * At every moment of any number of rounds, whichever fetches failed: every target is present and
   * has the rate of its last answer, or its fallback if there was none.
   */
  lemma {:induction false} CacheExact(cache: Cache, fetches: seq<Fetch>, target: ConfirmationTarget)
    requires Initial(cache)
    ensures target in UpdateAll(cache, fetches)
    ensures UpdateAll(cache, fetches)[target]
            == match LastAnswer(fetches, target)
               case None => FallbackFee(target)
               case Some(satPerKvb) => CachedRate(target, FetchedRate(satPerKvb))
    ensures LastAnswer(fetches, target).Some? ==>
              RightRate(target, LastAnswer(fetches, target).value, UpdateAll(cache, fetches)[target])
  {
    if LastAnswer(fetches, target).Some? {
      CachedRateRight(target, LastAnswer(fetches, target).value);
    }
    if fetches != [] {
      CacheExact(cache, fetches[..|fetches| - 1], target);
    }
  }

  /** The numeric floors hold at every such moment, and the largest rate never wraps. */
  lemma {:induction false} CacheFloors(cache: Cache, fetches: seq<Fetch>, target: ConfirmationTarget)
    requires Initial(cache)
    ensures target in UpdateAll(cache, fetches)
    ensures var rate := UpdateAll(cache, fetches)[target];
            253 <= rate <= U32_MAX && (target == MaximumFeeEstimate ==> 2753 <= rate)
  {
    CacheExact(cache, fetches, target);
  }

  /** The turns of one round, in the order of the targets. */
  function Round(answers: seq<Option<nat>>): (fetches: seq<Fetch>)
    requires |answers| == |CONF_TARGETS|
    ensures |fetches| == |answers|
  {
    seq(|answers|, i requires 0 <= i < |answers| => Fetch(CONF_TARGETS[i], answers[i]))
  }

  class BitcoindRpcClient {
    var feeCache: Cache
    ghost var log: seq<Fetch>
    ghost var start: Cache

    ghost predicate Valid()
      reads this
    {
      Initial(start) && feeCache == UpdateAll(start, log)
    }

    constructor ()
      ensures Valid() && log == []
    {
      var cache: Cache := map[];
      for i := 0 to |CONF_TARGETS|
        invariant forall t :: t in cache <==> t in CONF_TARGETS[..i]
        invariant forall t :: t in cache ==> cache[t] == FallbackFee(t)
      {
        cache := cache[CONF_TARGETS[i] := FallbackFee(CONF_TARGETS[i])];
      }
      AllTargets();
      feeCache := cache;
      start := cache;
      log := [];
    }

    /** One target's turn: a failed fetch is logged and leaves the cache alone. */
    method UpdateTarget(target: ConfirmationTarget, answer: Option<nat>)
      requires Valid()
      modifies this
      ensures Valid() && log == old(log) + [Fetch(target, answer)]
    {
      ghost var more := log + [Fetch(target, answer)];
      UpdateSnoc(start, log, Fetch(target, answer));
      if answer.Some? {
        var rate := FetchedRate(answer.value);
        if target == MaximumFeeEstimate {
          rate := if rate + 2500 > U32_MAX then U32_MAX else rate + 2500;
        }
        feeCache := feeCache[target := rate];
      }
      log := more;
    }

    /** One round: fetch each target in turn, storing each answer as it comes. */
    method UpdateFeeEstimates(answers: seq<Option<nat>>)
      requires Valid() && |answers| == |CONF_TARGETS|
      modifies this
      ensures Valid() && log == old(log) + Round(answers)
    {
      ghost var turns := Round(answers);
      for i := 0 to |CONF_TARGETS|
        invariant Valid() && log == old(log) + turns[..i]
      {
        UpdateTarget(CONF_TARGETS[i], answers[i]);
        OneMoreTurn(old(log), turns, i);
      }
      assert turns[..|turns|] == turns;
    }

    /** The lookup never misses. */
    method GetEstSatPer1000Weight(target: ConfirmationTarget) returns (rate: U32)
      requires Valid()
      ensures rate >= 253 && (target == MaximumFeeEstimate ==> rate >= 2753)
      ensures rate == match LastAnswer(log, target)
                      case None => FallbackFee(target)
                      case Some(satPerKvb) => CachedRate(target, FetchedRate(satPerKvb))
      ensures match LastAnswer(log, target)
              case Some(satPerKvb) => RightRate(target, satPerKvb, rate)
              case None =>
                match target
                case MaximumFeeEstimate => rate == 10000
                case UrgentOnChainSweep => rate == 5000
                case OutputSpendingFee => rate == 4000
                case NonAnchorChannelFee => rate == 3000
                case MinAllowedNonAnchorChannelRemoteFee => rate == 1000
                case ChannelCloseMinimum => rate == 1000
                case MinAllowedAnchorChannelRemoteFee => rate == 253
                case AnchorChannelFee => rate == 253
    {
      CacheExact(start, log, target);
      CacheFloors(start, log, target);
      rate := feeCache[target];
    }
  }

  lemma UpdateSnoc(cache: Cache, fetches: seq<Fetch>, fetch: Fetch)
    ensures UpdateAll(cache, fetches + [fetch]) == Update(UpdateAll(cache, fetches), fetch)
  {
    var more := fetches + [fetch];
    assert more[..|more| - 1] == fetches;
  }

  lemma OneMoreTurn(log: seq<Fetch>, turns: seq<Fetch>, i: nat)
    requires i < |turns|
    ensures log + turns[..i + 1] == log + turns[..i] + [turns[i]]
  {
  }

  lemma AllTargets()
    ensures forall target :: target in CONF_TARGETS[..|CONF_TARGETS|]
  {
    forall target: ConfirmationTarget ensures target in CONF_TARGETS[..|CONF_TARGETS|] {
      match target
      case MaximumFeeEstimate => assert CONF_TARGETS[0] == target;
      case UrgentOnChainSweep => assert CONF_TARGETS[1] == target;
      case MinAllowedAnchorChannelRemoteFee => assert CONF_TARGETS[2] == target;
      case MinAllowedNonAnchorChannelRemoteFee => assert CONF_TARGETS[3] == target;
      case AnchorChannelFee => assert CONF_TARGETS[4] == target;
      case NonAnchorChannelFee => assert CONF_TARGETS[5] == target;
      case ChannelCloseMinimum => assert CONF_TARGETS[6] == target;
      case OutputSpendingFee => assert CONF_TARGETS[7] == target;
    }
  }
}
