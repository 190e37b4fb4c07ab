/** Token names, their order, and the names of pairs and pool tokens built from them
    (x/ammswap/types/swap.go). */
module SwapNames {

  /** Go's `<` on strings. */
  predicate Less(a: string, b: string)
    decreases |a|
  {
    if b == "" then false
    else if a == "" then true
    else if a[0] != b[0] then a[0] < b[0]
    else Less(a[1..], b[1..])
  }

  /** Two names are equal or ordered one way, never both. */
  lemma {:induction false} LessIsTotal(a: string, b: string)
    ensures !(Less(a, b) && Less(b, a))
    ensures a == b <==> !Less(a, b) && !Less(b, a)
    decreases |a|
  {
    if a != "" && b != "" && a[0] == b[0] {
      LessIsTotal(a[1..], b[1..]);
      assert a == [a[0]] + a[1..] && b == [b[0]] + b[1..];
    }
  }

  /** What is not before `b`, which is not before `a`, is not before `a` either. */
  lemma {:induction false} LessTransitive(a: string, b: string, c: string)
    requires !Less(b, a) && !Less(c, b)
    ensures !Less(c, a)
    decreases |a|
  {
    if a != "" && b != "" && c != "" && a[0] == b[0] && b[0] == c[0] {
      LessTransitive(a[1..], b[1..], c[1..]);
    }
  }

  const POOL_TOKEN_PREFIX := "ammswap_"

  /** Names a pool may trade: none that the pool tokens use for themselves, and no separator. */
  predicate ValidSwapName(name: string) {
    name != "" && '_' !in name && !("ammswap" <= name)
  }

  function BaseName(a: string, b: string): string {
    if Less(a, b) then a else b
  }

  function QuoteName(a: string, b: string): string {
    if Less(a, b) then b else a
  }

  function PairName(a: string, b: string): string {
    BaseName(a, b) + "_" + QuoteName(a, b)
  }

  function PoolTokenName(pairName: string): string {
    POOL_TOKEN_PREFIX + pairName
  }

  lemma PairNameSymmetric(a: string, b: string)
    ensures BaseName(a, b) == BaseName(b, a) && QuoteName(a, b) == QuoteName(b, a)
    ensures PairName(a, b) == PairName(b, a)
  {
    LessIsTotal(a, b);
  }

  /** The separator marks where the first name ends, so the two names can be read back. */
  lemma SeparatorSplits(a: string, b: string, c: string, d: string)
    requires '_' !in a && '_' !in c
    requires a + "_" + b == c + "_" + d
    ensures a == c && b == d
  {
    var s, t := a + "_" + b, c + "_" + d;
    assert s[|a|] == '_' && t[|c|] == '_';
    assert forall i | 0 <= i < |a| :: s[i] == a[i] && a[i] in a;
    assert forall i | 0 <= i < |c| :: t[i] == c[i] && c[i] in c;
    assert |a| == |c|;
    assert s[..|a|] == a && t[..|c|] == c;
    assert s[|a| + 1..] == b && t[|c| + 1..] == d;
  }

  /** Distinct pairs of tradable names get distinct pair names, whichever way round each is written. */
  lemma PairNameInjective(a: string, b: string, c: string, d: string)
    requires ValidSwapName(a) && ValidSwapName(b) && ValidSwapName(c) && ValidSwapName(d)
    ensures PairName(a, b) == PairName(c, d) <==> (a == c && b == d) || (a == d && b == c)
  {
    if PairName(a, b) == PairName(c, d) {
      SeparatorSplits(BaseName(a, b), QuoteName(a, b), BaseName(c, d), QuoteName(c, d));
    }
    PairNameSymmetric(a, b);
  }

  lemma PoolTokenNameInjective(m: string, n: string)
    requires PoolTokenName(m) == PoolTokenName(n)
    ensures m == n
  {
    assert PoolTokenName(m)[|POOL_TOKEN_PREFIX|..] == m;
    assert PoolTokenName(n)[|POOL_TOKEN_PREFIX|..] == n;
  }

  /** A pool token is never itself tradable in a pool. */
  lemma PoolTokenNotTradable(pairName: string)
    ensures !ValidSwapName(PoolTokenName(pairName))
  {
    assert PoolTokenName(pairName)[7] == '_';
  }
}
