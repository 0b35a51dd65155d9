/** The lightning part of the balance: outbound capacities rounded down to sats and added as u64. */
module Balances {
  import opened Wrappers
  import opened Bytes

  /** The exact total of the channels' outbound capacities, in msat. */
  function TotalMsat(capacities: seq<U64>): nat {
    if capacities == [] then 0
    else TotalMsat(capacities[..|capacities| - 1]) + capacities[|capacities| - 1]
  }

  /** The u64 sum of the rounded capacities; `None` once it passes the largest u64. */
  function LightningSats(capacities: seq<U64>): Option<U64> {
    if capacities == [] then Some(0)
    else
      match LightningSats(capacities[..|capacities| - 1])
      case None => None
      case Some(sum) =>
        var sats := capacities[|capacities| - 1] / 1000;
        if sum + sats > U64_MAX then None else Some(sum + sats)
  }

  /** What rounding drops, in msat. */
  function Remainders(capacities: seq<U64>): (r: nat)
    ensures r <= 999 * |capacities|
  {
    if capacities == [] then 0
    else Remainders(capacities[..|capacities| - 1]) + capacities[|capacities| - 1] % 1000
  }

  /** The sum exists exactly if it fits, and with the remainders it is the exact total. */
  lemma {:induction false} SumExact(capacities: seq<U64>)
    ensures LightningSats(capacities).Some? <==> TotalMsat(capacities) - Remainders(capacities) <= 1000 * U64_MAX
    ensures LightningSats(capacities).Some? ==>
              1000 * LightningSats(capacities).value + Remainders(capacities) == TotalMsat(capacities)
  {
    if capacities != [] {
      SumExact(capacities[..|capacities| - 1]);
    }
  }

  /** Rounding loses less than one sat a channel. */
  lemma RoundingLoss(capacities: seq<U64>)
    requires LightningSats(capacities).Some?
    ensures var s := LightningSats(capacities).value;
            && 1000 * s <= TotalMsat(capacities) <= 1000 * s + 999 * |capacities|
  {
    SumExact(capacities);
  }

  /** The largest u64 in msat, rounded down to sats. */
  const MAX_SATS: nat := 18446744073709551

  lemma {:induction false} FewChannelsFit(capacities: seq<U64>)
    requires |capacities| <= 1000
    ensures LightningSats(capacities).Some?
    ensures LightningSats(capacities).value <= MAX_SATS * |capacities|
  {
    if capacities != [] {
      FewChannelsFit(capacities[..|capacities| - 1]);
    }
  }

  function FullChannels(n: nat): (capacities: seq<U64>)
    ensures |capacities| == n
  {
    seq(n, _ => 0xFFFF_FFFF_FFFF_FFFF)
  }

  lemma OneMoreFull(n: nat)
    requires n > 0
    ensures LightningSats(FullChannels(n))
            == match LightningSats(FullChannels(n - 1))
               case None => None
               case Some(sum) => if sum + MAX_SATS > U64_MAX then None else Some(sum + MAX_SATS)
  {
    assert FullChannels(n)[..n - 1] == FullChannels(n - 1);
  }

  lemma {:induction false} FullChannelsSum(n: nat)
    ensures LightningSats(FullChannels(n))
            == if n <= 1000 then Some(MAX_SATS * n) else None
  {
    if n > 0 {
      OneMoreFull(n);
      FullChannelsSum(n - 1);
    }
  }

  /** The sum is safe whatever the capacities exactly up to a thousand channels. */
  lemma SumFitsIff(n: nat)
    ensures (forall capacities: seq<U64> :: |capacities| == n ==> LightningSats(capacities).Some?)
            <==> n <= 1000
  {
    forall capacities: seq<U64> | |capacities| == n && n <= 1000
      ensures LightningSats(capacities).Some?
    {
      FewChannelsFit(capacities);
    }
    FullChannelsSum(n);
    assert |FullChannels(n)| == n;
  }
}
