/** Sharing out each block's farming yield among pools by locked value (x/farm/abci.go). */
module FarmYield {
  import opened FixedPoint
  import Sums

  /** One pool's part, truncated twice on the way. */
  function Share(precision: int, value: int, yielded: int, total: int): int
    requires precision > 0 && total > 0
  {
    QuoTruncate(precision, MulTruncate(precision, value, yielded), total)
  }

  /** A share never exceeds the exact proportion, and falls short of it by less than
      `precision / total + 1` units (both sides multiplied by `total`). */
  lemma ShareBounds(precision: int, value: int, yielded: int, total: int)
    requires precision > 0 && total > 0 && value >= 0 && yielded >= 0
    ensures var s := Share(precision, value, yielded, total);
            && 0 <= s
            && s * total <= value * yielded
            && value * yielded < s * total + precision + total
  {
    var n := value * yielded;
    MulLe(0, value, yielded);
    var m := n / precision;
    DivBounds(n, precision);
    QuoTruncateIsFloor(precision, m, total);
    MulLe(0, m, precision);
    DivBounds(m * precision, total);
  }

  function TotalValue(values: seq<int>): int {
    if values == [] then 0 else values[0] + TotalValue(values[1..])
  }

  lemma {:induction false} TotalSnoc(values: seq<int>, v: int)
    ensures TotalValue(values + [v]) == TotalValue(values) + v
    decreases |values|
  {
    if values == [] {
      assert values + [v] == [v] && [v][1..] == [];
    } else {
      assert (values + [v])[1..] == values[1..] + [v];
      TotalSnoc(values[1..], v);
    }
  }

  lemma {:induction false} TotalOfPart(values: seq<int>, k: nat)
    requires k <= |values| && forall i | 0 <= i < |values| :: values[i] > 0
    ensures 0 <= TotalValue(values[..k]) <= TotalValue(values)
    ensures k < |values| ==> TotalValue(values[..k]) < TotalValue(values)
    decreases |values| - k
  {
    TotalNonNegative(values[..k]);
    if k == |values| {
      assert values[..k] == values;
    } else {
      assert values[..k + 1] == values[..k] + [values[k]];
      TotalSnoc(values[..k], values[k]);
      TotalOfPart(values, k + 1);
    }
  }

  lemma {:induction false} TotalNonNegative(values: seq<int>)
    requires forall i | 0 <= i < |values| :: values[i] > 0
    ensures TotalValue(values) >= 0
    decreases |values|
  {
    if values != [] { TotalNonNegative(values[1..]); }
  }

  /** What is left after the first `k` pools took their shares. */
  function Left(precision: int, values: seq<int>, yielded: int, k: nat): int
    requires precision > 0 && TotalValue(values) > 0 && k <= |values|
  {
    if k == 0 then yielded
    else Left(precision, values, yielded, k - 1) - Share(precision, values[k - 1], yielded, TotalValue(values))
  }

  /** The shares handed out so far never exceed the yield: each is at most proportional. */
  lemma {:induction false} LeftBound(precision: int, values: seq<int>, yielded: int, k: nat)
    requires precision > 0 && yielded >= 0 && k <= |values|
    requires forall i | 0 <= i < |values| :: values[i] > 0
    requires TotalValue(values) > 0
    ensures 0 <= Left(precision, values, yielded, k) <= yielded
    ensures (yielded - Left(precision, values, yielded, k)) * TotalValue(values) <= TotalValue(values[..k]) * yielded
  {
    var total := TotalValue(values);
    if k > 0 {
      LeftBound(precision, values, yielded, k - 1);
      var s := Share(precision, values[k - 1], yielded, total);
      ShareBounds(precision, values[k - 1], yielded, total);
      assert values[..k] == values[..k - 1] + [values[k - 1]];
      TotalSnoc(values[..k - 1], values[k - 1]);
      TotalOfPart(values, k);
      LeftStep(yielded - Left(precision, values, yielded, k - 1), s, total, TotalValue(values[..k - 1]), values[k - 1], yielded);
    }
  }

  lemma LeftStep(before: int, s: int, total: int, part: int, v: int, yielded: int)
    requires total > 0 && yielded >= 0
    requires before * total <= part * yielded && s * total <= v * yielded && part + v <= total
    ensures (before + s) * total <= (part + v) * yielded
    ensures before + s <= yielded
  {
    assert (before + s) * total == before * total + s * total;
    assert (part + v) * yielded == part * yielded + v * yielded;
    MulLe(part + v, total, yielded);
    CancelLe(before + s, yielded, total);
  }

  /** What pool `i` gets: its share, or for the last pool whatever is left. */
  function Allotted(precision: int, values: seq<int>, yielded: int, i: nat): int
    requires precision > 0 && TotalValue(values) > 0 && i < |values|
  {
    if i == |values| - 1 then Left(precision, values, yielded, i)
    else Share(precision, values[i], yielded, TotalValue(values))
  }

  function AllottedUpTo(precision: int, values: seq<int>, yielded: int, k: nat): int
    requires precision > 0 && TotalValue(values) > 0 && k <= |values|
  {
    if k == 0 then 0 else AllottedUpTo(precision, values, yielded, k - 1) + Allotted(precision, values, yielded, k - 1)
  }

  lemma {:induction false} AllottedAndLeft(precision: int, values: seq<int>, yielded: int, k: nat)
    requires precision > 0 && TotalValue(values) > 0 && k < |values|
    ensures AllottedUpTo(precision, values, yielded, k) + Left(precision, values, yielded, k) == yielded
  {
    if k > 0 { AllottedAndLeft(precision, values, yielded, k - 1); }
  }

  /** For any pools of positive value: every part is non-negative, together they are exactly the
      yield, and every pool but the last is short of its exact part by less than
      `precision / total + 1` units. */
  lemma YieldIsSharedOut(precision: int, values: seq<int>, yielded: int)
    requires precision > 0 && yielded >= 0 && values != []
    requires forall i | 0 <= i < |values| :: values[i] > 0
    ensures TotalValue(values) > 0
    ensures AllottedUpTo(precision, values, yielded, |values|) == yielded
    ensures forall i | 0 <= i < |values| :: Allotted(precision, values, yielded, i) >= 0
    ensures forall i | 0 <= i < |values| - 1 ::
      var a := Allotted(precision, values, yielded, i);
      a * TotalValue(values) <= values[i] * yielded < a * TotalValue(values) + precision + TotalValue(values)
  {
    TotalOfPart(values, 0);
    AllottedAndLeft(precision, values, yielded, |values| - 1);
    forall i | 0 <= i < |values|
      ensures Allotted(precision, values, yielded, i) >= 0
      ensures i < |values| - 1 ==>
        var a := Allotted(precision, values, yielded, i);
        a * TotalValue(values) <= values[i] * yielded < a * TotalValue(values) + precision + TotalValue(values)
    {
      LeftBound(precision, values, yielded, i);
      ShareBounds(precision, values[i], yielded, TotalValue(values));
    }
  }

  // ---------------------------------------------------------------- the block's work

  predicate Distinct(names: seq<string>) {
    forall i, j | 0 <= i < j < |names| :: names[i] != names[j]
  }

  /** The amount a store has under a name, nothing if the name is not there. */
  function Earned(store: map<string, int>, name: string): int {
    if name in store then store[name] else 0
  }

  function ValuesOf(worth: map<string, int>, names: seq<string>): seq<int> {
    seq(|names|, i requires 0 <= i < |names| => Earned(worth, names[i]))
  }

  /** The pools that have something of value locked, in their order. */
  function Valued(names: seq<string>, worth: map<string, int>): (r: seq<string>)
    ensures forall i | 0 <= i < |r| :: r[i] in names && Earned(worth, r[i]) > 0
  {
    if names == [] then []
    else (if Earned(worth, names[0]) > 0 then [names[0]] else []) + Valued(names[1..], worth)
  }

  lemma {:induction false} ValuedSnoc(names: seq<string>, worth: map<string, int>, name: string)
    ensures Valued(names + [name], worth) == Valued(names, worth) + (if Earned(worth, name) > 0 then [name] else [])
    decreases |names|
  {
    if names == [] {
      assert names + [name] == [name] && [name][1..] == [];
    } else {
      assert (names + [name])[1..] == names[1..] + [name];
      ValuedSnoc(names[1..], worth, name);
    }
  }

  /** Exactly the valued pools, each once. */
  lemma {:induction false} ValuedIsExact(names: seq<string>, worth: map<string, int>)
    ensures forall name | name in names && Earned(worth, name) > 0 :: name in Valued(names, worth)
    ensures Distinct(names) ==> Distinct(Valued(names, worth))
    decreases |names|
  {
    if names != [] {
      ValuedIsExact(names[1..], worth);
      if Distinct(names) {
        assert names[0] !in names[1..];
      }
    }
  }

  lemma WorthSnoc(worth: map<string, int>, names: seq<string>, name: string)
    ensures TotalValue(ValuesOf(worth, names + [name])) == TotalValue(ValuesOf(worth, names)) + Earned(worth, name)
  {
    assert ValuesOf(worth, names + [name]) == ValuesOf(worth, names) + [Earned(worth, name)];
    TotalSnoc(ValuesOf(worth, names), Earned(worth, name));
  }

  function SumTo(parts: seq<int>, k: nat): int
    requires k <= |parts|
  {
    if k == 0 then 0 else SumTo(parts, k - 1) + parts[k - 1]
  }

  /** The parts of all pools, in their order. */
  function Parts(precision: int, values: seq<int>, yielded: int): seq<int>
    requires precision > 0 && TotalValue(values) > 0
  {
    seq(|values|, i requires 0 <= i < |values| => Allotted(precision, values, yielded, i))
  }

  lemma {:induction false} SumOfParts(precision: int, values: seq<int>, yielded: int, k: nat)
    requires precision > 0 && TotalValue(values) > 0 && k <= |values|
    ensures SumTo(Parts(precision, values, yielded), k) == AllottedUpTo(precision, values, yielded, k)
  {
    if k > 0 { SumOfParts(precision, values, yielded, k - 1); }
  }

  /** An account that grew by `amount`. */
  predicate Gained(before: map<string, int>, after: map<string, int>, name: string, amount: int) {
    Earned(after, name) == Earned(before, name) + amount
  }

  /** The first `i` pools have got their parts, and nobody else anything. */
  ghost predicate Paid(before: map<string, int>, after: map<string, int>, pools: seq<string>, parts: seq<int>, i: nat)
    requires |pools| == |parts|
  {
    && (forall k | 0 <= k < |pools| :: Gained(before, after, pools[k], if k < i then parts[k] else 0))
    && (forall name | name !in pools :: Gained(before, after, name, 0))
  }

  lemma PaidStep(before: map<string, int>, mid: map<string, int>, after: map<string, int>, pools: seq<string>, parts: seq<int>, i: nat)
    requires |pools| == |parts| && i < |pools| && Distinct(pools)
    requires Paid(before, mid, pools, parts, i)
    requires Gained(mid, after, pools[i], parts[i]) && forall name | name != pools[i] :: Gained(mid, after, name, 0)
    ensures Paid(before, after, pools, parts, i + 1)
  {
    forall k | 0 <= k < |pools|
      ensures Gained(before, after, pools[k], if k < i + 1 then parts[k] else 0)
    {
      assert Gained(before, mid, pools[k], if k < i then parts[k] else 0);
      if k != i { assert Gained(mid, after, pools[k], 0); }
    }
    forall name | name !in pools
      ensures Gained(before, after, name, 0)
    {
      assert Gained(before, mid, name, 0) && Gained(mid, after, name, 0);
    }
  }

  /** The amount one turn of the loop allots, from what is left. */
  method Allot(precision: int, ghost values: seq<int>, value: int, total: int, yielded: int, remaining: int, i: nat, n: nat) returns (amount: int)
    requires precision > 0 && i < n == |values| && value == values[i] && total == TotalValue(values) && total > 0
    requires remaining == Left(precision, values, yielded, i)
    ensures amount == Allotted(precision, values, yielded, i)
    ensures i + 1 < n ==> remaining - amount == Left(precision, values, yielded, i + 1)
    ensures i + 1 == n ==> remaining == amount
  {
    if i == n - 1 {
      amount := remaining;
    } else {
      amount := QuoTruncate(precision, MulTruncate(precision, value, yielded), total);
    }
  }

  /** What the allocation loop needs of the pools it is given; no value means no pools. */
  lemma ReadyToShare(names: seq<string>, worth: map<string, int>, lockedValue: map<string, int>)
    requires Distinct(names)
    requires var pools := Valued(names, worth);
             forall i | 0 <= i < |pools| :: pools[i] in lockedValue && lockedValue[pools[i]] == Earned(worth, pools[i])
    ensures var pools := Valued(names, worth);
            && Distinct(pools) && ValuesOf(lockedValue, pools) == ValuesOf(worth, pools)
            && (forall i | 0 <= i < |pools| :: lockedValue[pools[i]] > 0)
            && (pools == [] <==> TotalValue(ValuesOf(worth, pools)) <= 0)
  {
    var pools := Valued(names, worth);
    ValuedIsExact(names, worth);
    assert ValuesOf(lockedValue, pools) == ValuesOf(worth, pools);
    if pools != [] { TotalOfPart(ValuesOf(worth, pools), 0); }
  }

  class Keeper {
    var yieldPools: seq<string>        // pools that yield the native token
    var worth: map<string, int>        // value of what each pool has locked
    var rewards: map<string, int>      // current rewards of each pool
    var accumulated: map<string, int>  // all rewards a pool ever got
    var minting: int                   // balance of the account new native tokens are minted to
    var farming: int                   // balance of the account rewards are paid from

    ghost predicate Valid()
      reads this
    {
      Distinct(yieldPools) && forall i | 0 <= i < |yieldPools| :: yieldPools[i] in worth
    }

    /** `calculateAllocateInfo`: the pools with something of value locked, in store order. */
    method CalculateAllocateInfo() returns (values: map<string, int>, pools: seq<string>, total: int)
      requires Valid()
      ensures pools == Valued(yieldPools, worth)
      ensures forall i | 0 <= i < |pools| :: pools[i] in values && values[pools[i]] == Earned(worth, pools[i])
      ensures total == TotalValue(ValuesOf(worth, pools))
    {
      values, pools, total := map[], [], 0;
      assert ValuesOf(worth, []) == [];
      for i := 0 to |yieldPools|
        invariant pools == Valued(yieldPools[..i], worth)
        invariant forall k | 0 <= k < |pools| :: pools[k] in values && values[pools[k]] == Earned(worth, pools[k])
        invariant total == TotalValue(ValuesOf(worth, pools))
      {
        var name := yieldPools[i];
        assert yieldPools[..i + 1] == yieldPools[..i] + [name];
        ValuedSnoc(yieldPools[..i], worth, name);
        var value := worth[name];
        if value > 0 {
          WorthSnoc(worth, pools, name);
          pools := pools + [name];
          values := values[name := value];
          total := total + value;
        }
      }
      assert yieldPools[..|yieldPools|] == yieldPools;
    }

    method Reward(pool: string, amount: int)
      modifies `rewards, `accumulated
      ensures Sums.Sum(rewards) == Sums.Sum(old(rewards)) + amount
      ensures Sums.Sum(accumulated) == Sums.Sum(old(accumulated)) + amount
      ensures Gained(old(rewards), rewards, pool, amount) && forall name | name != pool :: Gained(old(rewards), rewards, name, 0)
      ensures Gained(old(accumulated), accumulated, pool, amount) && forall name | name != pool :: Gained(old(accumulated), accumulated, name, 0)
    {
      Sums.SumUpdated(rewards, pool, Earned(rewards, pool) + amount);
      rewards := rewards[pool := Earned(rewards, pool) + amount];
      Sums.SumUpdated(accumulated, pool, Earned(accumulated, pool) + amount);
      accumulated := accumulated[pool := Earned(accumulated, pool) + amount];
    }

    /** The allocation loop: what is left over in the end is nothing. */
    method ShareOut(precision: int, pools: seq<string>, lockedValue: map<string, int>, total: int, yielded: int) returns (remaining: int)
      requires precision > 0 && yielded >= 0 && pools != [] && Distinct(pools)
      requires forall i | 0 <= i < |pools| :: pools[i] in lockedValue && lockedValue[pools[i]] > 0
      requires total == TotalValue(ValuesOf(lockedValue, pools))
      modifies `rewards, `accumulated
      ensures remaining == 0 && total > 0
      ensures Sums.Sum(rewards) == Sums.Sum(old(rewards)) + yielded
      ensures Sums.Sum(accumulated) == Sums.Sum(old(accumulated)) + yielded
      ensures var parts := Parts(precision, ValuesOf(lockedValue, pools), yielded);
              Paid(old(rewards), rewards, pools, parts, |pools|) && Paid(old(accumulated), accumulated, pools, parts, |pools|)
    {
      ghost var values := ValuesOf(lockedValue, pools);
      YieldIsSharedOut(precision, values, yielded);
      ghost var parts := Parts(precision, values, yielded);
      SumOfParts(precision, values, yielded, |values|);
      remaining := yielded;
      for i := 0 to |pools|
        invariant i < |pools| ==> remaining == Left(precision, values, yielded, i)
        invariant remaining == yielded - SumTo(parts, i)
        invariant Sums.Sum(rewards) == Sums.Sum(old(rewards)) + yielded - remaining
        invariant Sums.Sum(accumulated) == Sums.Sum(old(accumulated)) + yielded - remaining
        invariant Paid(old(rewards), rewards, pools, parts, i) && Paid(old(accumulated), accumulated, pools, parts, i)
      {
        var amount := Allot(precision, values, lockedValue[pools[i]], total, yielded, remaining, i, |pools|);
        remaining := remaining - amount;
        ghost var r, a := rewards, accumulated;
        Reward(pools[i], amount);
        PaidStep(old(rewards), r, rewards, pools, parts, i);
        PaidStep(old(accumulated), a, accumulated, pools, parts, i);
      }
    }

    /** `BeginBlocker`. With something to share out and pools to share it among, the whole balance of
        the minting account moves to the farming account, the pools' rewards grow by exactly as much,
        and each pool gets what `Allotted` says; the panic on a leftover is out of reach. */
    method BeginBlocker(precision: int, yieldNativeToken: bool) returns (shared: bool)
      requires Valid() && precision > 0
      modifies `rewards, `accumulated, `minting, `farming
      ensures !shared ==> rewards == old(rewards) && accumulated == old(accumulated) && farming == old(farming)
      ensures !shared ==> minting == if old(minting) > 0 && !yieldNativeToken then 0 else old(minting)
      ensures shared <==> old(minting) > 0 && yieldNativeToken && Valued(yieldPools, worth) != []
      ensures shared ==> minting == 0 && farming == old(farming) + old(minting)
      ensures shared ==> Sums.Sum(rewards) == Sums.Sum(old(rewards)) + old(minting)
      ensures shared ==> Sums.Sum(accumulated) == Sums.Sum(old(accumulated)) + old(minting)
      ensures shared ==>
        var pools := Valued(yieldPools, worth);
        var values := ValuesOf(worth, pools);
        && TotalValue(values) > 0
        && Paid(old(rewards), rewards, pools, Parts(precision, values, old(minting)), |pools|)
        && Paid(old(accumulated), accumulated, pools, Parts(precision, values, old(minting)), |pools|)
    {
      var yielded := minting;
      if yielded <= 0 {
        return false;
      }
      if !yieldNativeToken {
        minting := 0;
        return false;
      }
      var lockedValue, pools, total := CalculateAllocateInfo();
      ReadyToShare(yieldPools, worth, lockedValue);
      if total <= 0 {
        return false;
      }
      var remaining := ShareOut(precision, pools, lockedValue, total, yielded);
      assert remaining == 0;   // otherwise the original panics here
      minting, farming := 0, farming + yielded;
      return true;
    }
  }
}
