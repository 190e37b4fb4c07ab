/** What holds in every state the swap module can reach, and the handler failures it rules out. */
module SwapSafety {
  import opened Options
  import opened Liquidity
  import opened SwapNames
  import opened Swap
  import Sums

  // ---------------------------------------------------------------- the invariant

  /** A pair is stored under the name of its two coins and owns the pool token of that name. */
  predicate WellNamed(name: string, pair: Pair) {
    && ValidBaseAndQuote(pair.base.denom, pair.quote.denom)
    && name == PairName(pair.base.denom, pair.quote.denom)
    && pair.poolToken == PoolTokenName(name)
  }

  /** Both reserves and the supply of shares vanish together. */
  predicate AllOrNothing(pair: Pair, supply: nat) {
    || (pair.base.amount == 0 && pair.quote.amount == 0 && supply == 0)
    || (pair.base.amount > 0 && pair.quote.amount > 0 && supply > 0)
  }

  predicate GoodPair(st: State, name: string)
    requires name in st.pairs
  {
    var pair := st.pairs[name];
    && WellNamed(name, pair)
    && pair.poolToken in st.tokens
    && AllOrNothing(pair, SupplyOf(st.supply, pair.poolToken))
  }

  ghost predicate NoStrayShares(st: State) {
    forall name: string {:trigger PoolTokenName(name)} :: name !in st.pairs ==> SupplyOf(st.supply, PoolTokenName(name)) == 0
  }

  function PooledIn(pair: Pair, denom: string): nat {
    (if pair.base.denom == denom then pair.base.amount else 0)
    + (if pair.quote.denom == denom then pair.quote.amount else 0)
  }

  function PooledBy(pairs: map<string, Pair>, denom: string): map<string, int> {
    map name | name in pairs :: PooledIn(pairs[name], denom)
  }

  /** What all pairs together claim to hold of a coin. */
  ghost function Pooled(pairs: map<string, Pair>, denom: string): int {
    Sums.Sum(PooledBy(pairs, denom))
  }

  function HoldingsOf(l: Ledger, denom: string): map<(Account, string), int> {
    map key | key in l && key.1 == denom :: l[key]
  }

  /** What all accounts together hold of a coin. */
  ghost function Holdings(l: Ledger, denom: string): int {
    Sums.Sum(HoldingsOf(l, denom))
  }

  ghost predicate Solvent(pairs: map<string, Pair>, ledger: Ledger) {
    forall denom: string {:trigger Pooled(pairs, denom)} :: Pooled(pairs, denom) <= Held(ledger, SWAP_ACCOUNT, denom)
  }

  ghost predicate Inv(st: State) {
    && (forall name {:trigger GoodPair(st, name)} | name in st.pairs :: GoodPair(st, name))
    && NoStrayShares(st)
    && Solvent(st.pairs, st.ledger)
  }

  /** The failures no message can meet in a reachable state. */
  predicate Impossible(e: Error) {
    e.PoolTokenMissing? || e.InvalidPair? || e.ZeroSupply? || e.PoolFunds? || e.CoinPanic?
  }

  // ---------------------------------------------------------------- bookkeeping lemmas

  lemma PooledUpdated(pairs: map<string, Pair>, name: string, pair: Pair, denom: string)
    ensures Pooled(pairs[name := pair], denom)
         == Pooled(pairs, denom) + PooledIn(pair, denom) - (if name in pairs then PooledIn(pairs[name], denom) else 0)
  {
    assert PooledBy(pairs[name := pair], denom) == PooledBy(pairs, denom)[name := PooledIn(pair, denom)];
    Sums.SumUpdated(PooledBy(pairs, denom), name, PooledIn(pair, denom));
  }

  /** One pair's reserve is covered on its own. */
  lemma PairCovered(pairs: map<string, Pair>, ledger: Ledger, name: string, denom: string)
    requires Solvent(pairs, ledger) && name in pairs
    ensures PooledIn(pairs[name], denom) <= Held(ledger, SWAP_ACCOUNT, denom)
  {
    Sums.EntryAtMostSum(PooledBy(pairs, denom), name);
    assert Pooled(pairs, denom) <= Held(ledger, SWAP_ACCOUNT, denom);
  }

  /** Writing one pair back keeps the module solvent when its claim on no coin grows by more than the
      module account's holding does. */
  lemma SolventAfterWrite(pairs: map<string, Pair>, ledger: Ledger, name: string, pair: Pair, ledger': Ledger)
    requires Solvent(pairs, ledger)
    requires forall denom: string ::
      PooledIn(pair, denom) - (if name in pairs then PooledIn(pairs[name], denom) else 0)
        <= Held(ledger', SWAP_ACCOUNT, denom) - Held(ledger, SWAP_ACCOUNT, denom)
    ensures Solvent(pairs[name := pair], ledger')
  {
    forall denom: string
      ensures Pooled(pairs[name := pair], denom) <= Held(ledger', SWAP_ACCOUNT, denom)
    {
      PooledUpdated(pairs, name, pair, denom);
    }
  }

  /** Coins paid in to the module account by somebody else all arrive; of coins paid out, at most
      that much leaves. */
  lemma PayMoves(l: Ledger, payer: Account, payee: Account, c: Coin)
    requires Pay(l, payer, payee, c).Some?
    ensures var l' := Pay(l, payer, payee, c).value;
            forall denom: string ::
              && (payer != SWAP_ACCOUNT && payee == SWAP_ACCOUNT ==>
                    Held(l', SWAP_ACCOUNT, denom) == Held(l, SWAP_ACCOUNT, denom) + (if denom == c.denom then c.amount else 0))
              && Held(l', SWAP_ACCOUNT, denom) >= Held(l, SWAP_ACCOUNT, denom) - (if denom == c.denom then c.amount else 0)
              && (payer != SWAP_ACCOUNT ==> Held(l', SWAP_ACCOUNT, denom) >= Held(l, SWAP_ACCOUNT, denom))
  {
  }

  /** The two coins of a pair, sorted as the handlers sort them, move as two single payments. */
  lemma PayBothMoves(l: Ledger, payer: Account, payee: Account, base: Coin, quote: Coin, coins: seq<Coin>, denom: string)
    requires Less(base.denom, quote.denom) && (coins == CoinSort([base, quote]) || coins == CoinSort([quote, base]))
    requires PayAll(l, payer, payee, coins).Some?
    ensures Held(PayAll(l, payer, payee, coins).value, SWAP_ACCOUNT, denom)
         == Held(l, SWAP_ACCOUNT, denom) + Gain(payer, payee, base, denom) + Gain(payer, payee, quote, denom)
  {
    SortedTwo(base, quote);
    PayTwoUnfolds(l, payer, payee, coins);
    if base.amount > 0 {
      PayGains(l, payer, payee, base, denom);
      if quote.amount > 0 {
        PayGains(Pay(l, payer, payee, base).value, payer, payee, quote, denom);
      }
    } else if quote.amount > 0 {
      PayGains(l, payer, payee, quote, denom);
    }
  }

  /** What the module account gains of `denom` when `c` is paid; less than nothing when it pays. */
  function Gain(payer: Account, payee: Account, c: Coin, denom: string): int {
    if denom != c.denom then 0
    else (if payee == SWAP_ACCOUNT then c.amount else 0) - (if payer == SWAP_ACCOUNT then c.amount else 0)
  }

  lemma PayGains(l: Ledger, payer: Account, payee: Account, c: Coin, denom: string)
    requires Pay(l, payer, payee, c).Some?
    ensures Held(Pay(l, payer, payee, c).value, SWAP_ACCOUNT, denom) == Held(l, SWAP_ACCOUNT, denom) + Gain(payer, payee, c, denom)
  {
  }

  /** Whichever way round the handlers list them, the base coin comes first. */
  lemma SortedTwo(base: Coin, quote: Coin)
    requires Less(base.denom, quote.denom)
    ensures CoinSort([base, quote]) == CoinSort([quote, base])
         == (if base.amount == 0 then [] else [base]) + (if quote.amount == 0 then [] else [quote])
  {
    LessIsTotal(base.denom, quote.denom);
    assert [base, quote][1..] == [quote] && [quote, base][1..] == [base];
    assert [base][1..] == [] && [quote][1..] == [];
    assert CoinSort([quote]) == if quote.amount == 0 then [] else [quote];
    assert CoinSort([base]) == if base.amount == 0 then [] else [base];
    assert InsertCoin(quote, [base]) == [base] + InsertCoin(quote, []);
  }

  /** Unfolds a payment of at most two coins. */
  lemma PayTwoUnfolds(l: Ledger, payer: Account, payee: Account, coins: seq<Coin>)
    requires |coins| <= 2
    ensures |coins| == 0 ==> PayAll(l, payer, payee, coins) == Some(l)
    ensures |coins| == 1 ==> PayAll(l, payer, payee, coins) == Pay(l, payer, payee, coins[0])
    ensures |coins| == 2 ==>
      PayAll(l, payer, payee, coins) ==
        match Pay(l, payer, payee, coins[0])
        case None => None
        case Some(l1) => Pay(l1, payer, payee, coins[1])
    decreases |coins|
  {
    if |coins| == 1 {
      match Pay(l, payer, payee, coins[0])
      case None =>
      case Some(l1) => assert coins[1..] == [];
    } else if |coins| == 2 {
      match Pay(l, payer, payee, coins[0])
      case None =>
      case Some(l1) =>
        assert coins[1..] == [coins[1]];
        PayTwoUnfolds(l1, payer, payee, coins[1..]);
    }
  }

  /** Rewriting one pair and the supply of its own pool token disturbs no other pair. */
  lemma PairRewritten(st: State, name: string, pair: Pair, supply: nat, ledger: Ledger)
    requires Inv(st) && name in st.pairs
    requires WellNamed(name, pair) && AllOrNothing(pair, supply)
    ensures var st' := State(st.pairs[name := pair], st.tokens, st.supply[pair.poolToken := supply], ledger);
            && (forall n | n in st'.pairs :: GoodPair(st', n))
            && NoStrayShares(st')
  {
    var st' := State(st.pairs[name := pair], st.tokens, st.supply[pair.poolToken := supply], ledger);
    assert GoodPair(st, name);
    forall n: string | n != name
      ensures SupplyOf(st'.supply, PoolTokenName(n)) == SupplyOf(st.supply, PoolTokenName(n))
    {
      if PoolTokenName(n) == PoolTokenName(name) {
        PoolTokenNameInjective(n, name);
      }
    }
    forall n | n in st'.pairs
      ensures GoodPair(st', n)
    {
      if n != name {
        assert GoodPair(st, n);
        assert st'.pairs[n] == st.pairs[n];
      }
    }
  }

  /** The module account gained at least what the pair now claims more, of every coin. */
  ghost predicate Covers(before: Pair, after: Pair, l: Ledger, l': Ledger) {
    forall denom: string ::
      PooledIn(after, denom) - PooledIn(before, denom) <= Held(l', SWAP_ACCOUNT, denom) - Held(l, SWAP_ACCOUNT, denom)
  }

  lemma RewriteSafe(st: State, name: string, pair: Pair, supply: nat, ledger: Ledger)
    requires Inv(st) && name in st.pairs
    requires WellNamed(name, pair) && AllOrNothing(pair, supply)
    requires Covers(st.pairs[name], pair, st.ledger, ledger)
    ensures Inv(State(st.pairs[name := pair], st.tokens, st.supply[pair.poolToken := supply], ledger))
  {
    PairRewritten(st, name, pair, supply, ledger);
    SolventAfterWrite(st.pairs, st.ledger, name, pair, ledger);
  }

  lemma DepositCovers(l: Ledger, sender: Account, pair: Pair, baseIn: Coin, quoteIn: Coin, paid: Ledger, l': Ledger)
    requires sender != SWAP_ACCOUNT
    requires pair.base.denom == baseIn.denom && pair.quote.denom == quoteIn.denom && Less(baseIn.denom, quoteIn.denom)
    requires PayAll(l, sender, SWAP_ACCOUNT, CoinSort([quoteIn, baseIn])) == Some(paid)
    requires forall denom: string :: Held(l', SWAP_ACCOUNT, denom) >= Held(paid, SWAP_ACCOUNT, denom)
    ensures Covers(pair, Pair(Coin(quoteIn.denom, pair.quote.amount + quoteIn.amount),
                              Coin(baseIn.denom, pair.base.amount + baseIn.amount), pair.poolToken), l, l')
  {
    var after := Pair(Coin(quoteIn.denom, pair.quote.amount + quoteIn.amount),
                      Coin(baseIn.denom, pair.base.amount + baseIn.amount), pair.poolToken);
    forall denom: string
      ensures PooledIn(after, denom) - PooledIn(pair, denom) <= Held(l', SWAP_ACCOUNT, denom) - Held(l, SWAP_ACCOUNT, denom)
    {
      PayBothMoves(l, sender, SWAP_ACCOUNT, baseIn, quoteIn, CoinSort([quoteIn, baseIn]), denom);
    }
  }

  lemma PayoutCovers(l: Ledger, payee: Account, pair: Pair, baseOut: Coin, quoteOut: Coin, paid: Ledger, l': Ledger)
    requires pair.base.denom == baseOut.denom && pair.quote.denom == quoteOut.denom && Less(baseOut.denom, quoteOut.denom)
    requires baseOut.amount <= pair.base.amount && quoteOut.amount <= pair.quote.amount
    requires PayAll(l, SWAP_ACCOUNT, payee, CoinSort([baseOut, quoteOut])) == Some(paid)
    requires forall denom: string :: Held(l', SWAP_ACCOUNT, denom) == Held(paid, SWAP_ACCOUNT, denom)
    ensures Covers(pair, Pair(Coin(quoteOut.denom, pair.quote.amount - quoteOut.amount),
                              Coin(baseOut.denom, pair.base.amount - baseOut.amount), pair.poolToken), l, l')
  {
    var after := Pair(Coin(quoteOut.denom, pair.quote.amount - quoteOut.amount),
                      Coin(baseOut.denom, pair.base.amount - baseOut.amount), pair.poolToken);
    forall denom: string
      ensures PooledIn(after, denom) - PooledIn(pair, denom) <= Held(l', SWAP_ACCOUNT, denom) - Held(l, SWAP_ACCOUNT, denom)
    {
      PayBothMoves(l, SWAP_ACCOUNT, payee, baseOut, quoteOut, CoinSort([baseOut, quoteOut]), denom);
    }
  }

  /** The pair a valid message names by its base and quote coin holds exactly these two coins. */
  lemma NamedPair(st: State, base: string, quote: string)
    requires Inv(st) && ValidBaseAndQuote(base, quote) && PairName(base, quote) in st.pairs
    ensures var pair := st.pairs[PairName(base, quote)];
            GoodPair(st, PairName(base, quote)) && pair.base.denom == base && pair.quote.denom == quote
  {
    var pair := st.pairs[PairName(base, quote)];
    assert GoodPair(st, PairName(base, quote));
    LessIsTotal(base, quote);
    LessIsTotal(pair.base.denom, pair.quote.denom);
    PairNameInjective(base, quote, pair.base.denom, pair.quote.denom);
  }

  // ---------------------------------------------------------------- create

  lemma CreateSafe(st: State, msg: Msg)
    requires Inv(st) && msg.CreateExchange? && ValidMsg(msg)
    ensures Create(st, msg).Done? ==> Inv(Create(st, msg).state)
    ensures Create(st, msg).Failed? ==> !Impossible(Create(st, msg).error)
  {
    if Create(st, msg).Done? {
      var st' := Create(st, msg).state;
      var name := PairName(msg.token0, msg.token1);
      var pair := st'.pairs[name];
      LessIsTotal(msg.token0, msg.token1);
      assert WellNamed(name, pair);
      forall n | n in st'.pairs
        ensures GoodPair(st', n)
      {
        if n != name { assert GoodPair(st, n); }
      }
      forall denom: string
        ensures PooledIn(pair, denom) == 0
      {
      }
      SolventAfterWrite(st.pairs, st.ledger, name, pair, st.ledger);
    }
  }

  // ---------------------------------------------------------------- add

  lemma TermsKeepPositive(precision: int, pair: Pair, supply: nat, maxBase: nat, quoteIn: nat)
    requires precision > 0 && maxBase > 0 && quoteIn > 0 && AllOrNothing(pair, supply)
    ensures var t := DepositTerms(precision, pair, supply, maxBase, quoteIn);
            && (t.Accepted? ==> t.base > 0 && t.liquidity > 0)
            && (t.Refused? ==> t.error == ZeroLiquidity)
  {
  }

  lemma MintKeepsHeld(st: State, shares: Coin, user: Account)
    ensures MintToUser(st, shares, user).Done?
    ensures var st' := MintToUser(st, shares, user).state;
            && st'.pairs == st.pairs && st'.tokens == st.tokens
            && st'.supply == st.supply[shares.denom := SupplyOf(st.supply, shares.denom) + shares.amount]
            && Held(st'.ledger, user, shares.denom) == Held(st.ledger, user, shares.denom) + shares.amount
            && forall denom: string | user != SWAP_ACCOUNT :: Held(st'.ledger, SWAP_ACCOUNT, denom) == Held(st.ledger, SWAP_ACCOUNT, denom)
  {
  }

  lemma AddSafe(env: Env, st: State, msg: Msg)
    requires Inv(st) && ValidEnv(env) && msg.AddLiquidity? && ValidMsg(msg) && msg.sender != SWAP_ACCOUNT
    ensures Add(env, st, msg).Done? ==> Inv(Add(env, st, msg).state)
    ensures Add(env, st, msg).Failed? ==> !Impossible(Add(env, st, msg).error)
  {
    var name := PairName(msg.maxBase.denom, msg.quoteIn.denom);
    if msg.deadline >= env.blockTime && name in st.pairs {
      NamedPair(st, msg.maxBase.denom, msg.quoteIn.denom);
      var pair := st.pairs[name];
      var supply := SupplyOf(st.supply, pair.poolToken);
      TermsKeepPositive(env.precision, pair, supply, msg.maxBase.amount, msg.quoteIn.amount);
      var terms := DepositTerms(env.precision, pair, supply, msg.maxBase.amount, msg.quoteIn.amount);
      if terms.Accepted? {
        var baseIn := Coin(msg.maxBase.denom, terms.base);
        var coins := CoinSort([msg.quoteIn, baseIn]);
        var paid := PayAll(st.ledger, msg.sender, SWAP_ACCOUNT, coins);
        if paid.Some? {
          AcceptedAddSafe(st, name, baseIn, msg.quoteIn, terms.liquidity, paid.value, msg.sender);
        }
      }
    }
  }

  lemma AcceptedAddSafe(st: State, name: string, baseIn: Coin, quoteIn: Coin, liquidity: nat, paid: Ledger, sender: Account)
    requires Inv(st) && name in st.pairs && sender != SWAP_ACCOUNT
    requires st.pairs[name].base.denom == baseIn.denom && st.pairs[name].quote.denom == quoteIn.denom
    requires baseIn.amount > 0 && quoteIn.amount > 0 && liquidity > 0
    requires PayAll(st.ledger, sender, SWAP_ACCOUNT, CoinSort([quoteIn, baseIn])) == Some(paid)
    ensures var pair := st.pairs[name];
            var regrouped := Regrouped(pair, AddCoin(pair.quote, quoteIn), AddCoin(pair.base, baseIn));
            && regrouped.Some?
            && var o := MintToUser(st.(pairs := st.pairs[name := regrouped.value], ledger := paid), Coin(pair.poolToken, liquidity), sender);
               o.Done? && Inv(o.state)
  {
    assert GoodPair(st, name);
    var pair := st.pairs[name];
    var pair' := Regrouped(pair, AddCoin(pair.quote, quoteIn), AddCoin(pair.base, baseIn)).value;
    var mid := st.(pairs := st.pairs[name := pair'], ledger := paid);
    MintKeepsHeld(mid, Coin(pair.poolToken, liquidity), sender);
    var st' := MintToUser(mid, Coin(pair.poolToken, liquidity), sender).state;
    var supply := SupplyOf(st.supply, pair.poolToken) + liquidity;
    assert st'.pairs == st.pairs[name := pair'] && st'.tokens == st.tokens;
    assert st'.supply == st.supply[pair'.poolToken := supply];
    DepositCovers(st.ledger, sender, pair, baseIn, quoteIn, paid, st'.ledger);
    RewriteSafe(st, name, pair', supply, st'.ledger);
  }

  // ---------------------------------------------------------------- remove

  /** Burning part of the supply leaves something on both sides, burning all of it leaves nothing. */
  lemma RedemptionBounds(precision: int, pair: Pair, liquidity: nat, supply: nat)
    requires precision > 0 && 0 < liquidity <= supply && AllOrNothing(pair, supply)
    ensures var r := RedemptionOf(precision, pair, liquidity, supply);
            && r.base <= pair.base.amount && r.quote <= pair.quote.amount
            && (r.base == pair.base.amount <==> liquidity == supply)
            && (r.quote == pair.quote.amount <==> liquidity == supply)
  {
    RedeemBound(precision, pair.base.amount, liquidity, supply);
    RedeemBound(precision, pair.quote.amount, liquidity, supply);
  }

  /** The module account can pay both coins of a pair up to what the pair holds. */
  lemma PoolCanPay(st: State, name: string, baseOut: Coin, quoteOut: Coin, payee: Account)
    requires Inv(st) && name in st.pairs
    requires st.pairs[name].base.denom == baseOut.denom && st.pairs[name].quote.denom == quoteOut.denom
    requires baseOut.amount <= st.pairs[name].base.amount && quoteOut.amount <= st.pairs[name].quote.amount
    ensures PayAll(st.ledger, SWAP_ACCOUNT, payee, CoinSort([baseOut, quoteOut])).Some?
  {
    assert GoodPair(st, name);
    LessIsTotal(baseOut.denom, quoteOut.denom);
    PairCovered(st.pairs, st.ledger, name, baseOut.denom);
    PairCovered(st.pairs, st.ledger, name, quoteOut.denom);
    SortedTwo(baseOut, quoteOut);
    PayTwoUnfolds(st.ledger, SWAP_ACCOUNT, payee, CoinSort([baseOut, quoteOut]));
  }

  lemma BurnKeepsHeld(st: State, shares: Coin, user: Account)
    requires user != SWAP_ACCOUNT && shares.amount <= SupplyOf(st.supply, shares.denom)
    ensures var o := BurnFromUser(st, shares, user);
            && (o.Failed? ==> o.error == UserFunds)
            && (o.Done? ==>
                  && o.state.pairs == st.pairs && o.state.tokens == st.tokens
                  && o.state.supply == st.supply[shares.denom := SupplyOf(st.supply, shares.denom) - shares.amount]
                  && forall denom: string :: Held(o.state.ledger, SWAP_ACCOUNT, denom) == Held(st.ledger, SWAP_ACCOUNT, denom))
  {
  }

  lemma RemoveSafe(env: Env, st: State, msg: Msg)
    requires Inv(st) && ValidEnv(env) && msg.RemoveLiquidity? && ValidMsg(msg) && msg.sender != SWAP_ACCOUNT
    ensures Remove(env, st, msg).Done? ==> Inv(Remove(env, st, msg).state)
    ensures Remove(env, st, msg).Failed? ==> !Impossible(Remove(env, st, msg).error)
  {
    var name := PairName(msg.minBase.denom, msg.minQuote.denom);
    if msg.deadline >= env.blockTime && name in st.pairs {
      NamedPair(st, msg.minBase.denom, msg.minQuote.denom);
      var pair := st.pairs[name];
      var supply := SupplyOf(st.supply, pair.poolToken);
      if supply >= msg.liquidity {
        var r := RedemptionOf(env.precision, pair, msg.liquidity, supply);
        RedemptionBounds(env.precision, pair, msg.liquidity, supply);
        RedeemedSafe(st, name, Coin(pair.base.denom, r.base), Coin(pair.quote.denom, r.quote), msg.liquidity, msg.sender);
      }
    }
  }

  lemma RedeemedSafe(st: State, name: string, baseOut: Coin, quoteOut: Coin, liquidity: nat, sender: Account)
    requires Inv(st) && name in st.pairs && sender != SWAP_ACCOUNT
    requires st.pairs[name].base.denom == baseOut.denom && st.pairs[name].quote.denom == quoteOut.denom
    requires baseOut.amount <= st.pairs[name].base.amount && quoteOut.amount <= st.pairs[name].quote.amount
    requires 0 < liquidity <= SupplyOf(st.supply, st.pairs[name].poolToken)
    requires baseOut.amount == st.pairs[name].base.amount <==> liquidity == SupplyOf(st.supply, st.pairs[name].poolToken)
    requires quoteOut.amount == st.pairs[name].quote.amount <==> liquidity == SupplyOf(st.supply, st.pairs[name].poolToken)
    ensures var pair := st.pairs[name];
            var paid := PayAll(st.ledger, SWAP_ACCOUNT, sender, CoinSort([baseOut, quoteOut]));
            var regrouped := Regrouped(pair, SubCoin(pair.quote, quoteOut), SubCoin(pair.base, baseOut));
            && paid.Some? && regrouped.Some?
            && var o := BurnFromUser(st.(pairs := st.pairs[name := regrouped.value], ledger := paid.value), Coin(pair.poolToken, liquidity), sender);
               && (o.Failed? ==> o.error == UserFunds)
               && (o.Done? ==> Inv(o.state))
  {
    assert GoodPair(st, name);
    var pair := st.pairs[name];
    PoolCanPay(st, name, baseOut, quoteOut, sender);
    var paid := PayAll(st.ledger, SWAP_ACCOUNT, sender, CoinSort([baseOut, quoteOut])).value;
    var pair' := Regrouped(pair, SubCoin(pair.quote, quoteOut), SubCoin(pair.base, baseOut)).value;
    var mid := st.(pairs := st.pairs[name := pair'], ledger := paid);
    var o := BurnFromUser(mid, Coin(pair.poolToken, liquidity), sender);
    BurnKeepsHeld(mid, Coin(pair.poolToken, liquidity), sender);
    if o.Done? {
      var st' := o.state;
      var supply := SupplyOf(st.supply, pair.poolToken) - liquidity;
      assert st'.pairs == st.pairs[name := pair'] && st'.tokens == st.tokens;
      assert st'.supply == st.supply[pair'.poolToken := supply];
      PayoutCovers(st.ledger, sender, pair, baseOut, quoteOut, paid, st'.ledger);
      RewriteSafe(st, name, pair', supply, st'.ledger);
    }
  }

  // ---------------------------------------------------------------- swaps

  /** One leg of a swap, priced on the pair as stored, is safe and never lacks pool funds, whoever
      receives the proceeds. */
  lemma ExchangeSafe(env: Env, st: State, msg: Msg)
    requires Inv(st) && ValidEnv(env) && msg.TokenToToken? && msg.sold.amount > 0 && msg.sender != SWAP_ACCOUNT
    requires ValidBaseAndQuote(BaseName(msg.sold.denom, msg.minBought.denom), QuoteName(msg.sold.denom, msg.minBought.denom))
    requires PairName(msg.minBought.denom, msg.sold.denom) in st.pairs
    requires !Empty(st.pairs[PairName(msg.minBought.denom, msg.sold.denom)])
    ensures var pair := st.pairs[PairName(msg.minBought.denom, msg.sold.denom)];
            var o := Exchange(st, pair, TokenToBuy(env, pair, msg.sold, msg.minBought.denom), msg);
            && (o.Failed? ==> o.error == UserFunds)
            && (o.Done? ==> Inv(o.state))
  {
    var sold, buy := msg.sold, msg.minBought.denom;
    var name := PairName(buy, sold.denom);
    PairNameSymmetric(buy, sold.denom);
    LessIsTotal(buy, sold.denom);
    NamedPair(st, BaseName(sold.denom, buy), QuoteName(sold.denom, buy));
    var pair := st.pairs[name];
    var bought := TokenToBuy(env, pair, sold, buy);
    var collected := Pay(st.ledger, msg.sender, SWAP_ACCOUNT, sold);
    if collected.Some? {
      PayMoves(st.ledger, msg.sender, SWAP_ACCOUNT, sold);
      PairCovered(st.pairs, st.ledger, name, buy);
      var paid := Pay(collected.value, SWAP_ACCOUNT, msg.recipient, bought);
      assert Held(collected.value, SWAP_ACCOUNT, buy) >= Held(st.ledger, SWAP_ACCOUNT, buy);
      PayMoves(collected.value, SWAP_ACCOUNT, msg.recipient, bought);
      var o := Exchange(st, pair, bought, msg);
      var pair' := o.state.pairs[name];
      PairRewritten(st, name, pair', SupplyOf(st.supply, pair.poolToken), o.state.ledger);
      SolventAfterWrite(st.pairs, st.ledger, name, pair', o.state.ledger);
      SupplyRewrittenAsIs(st.(pairs := o.state.pairs, ledger := o.state.ledger), pair'.poolToken);
    }
  }

  /** Writing the supply of a token back unchanged changes no supply. */
  lemma SupplyRewrittenAsIs(st: State, denom: string)
    requires var st' := st.(supply := st.supply[denom := SupplyOf(st.supply, denom)]);
             (forall n | n in st'.pairs :: GoodPair(st', n)) && NoStrayShares(st')
    ensures (forall n | n in st.pairs :: GoodPair(st, n)) && NoStrayShares(st)
  {
    var st' := st.(supply := st.supply[denom := SupplyOf(st.supply, denom)]);
    assert forall d: string :: SupplyOf(st'.supply, d) == SupplyOf(st.supply, d);
    forall n | n in st.pairs
      ensures GoodPair(st, n)
    {
      assert GoodPair(st', n);
    }
  }

  lemma DirectSafe(env: Env, st: State, msg: Msg)
    requires Inv(st) && ValidEnv(env) && msg.TokenToToken? && ValidMsg(msg) && msg.sender != SWAP_ACCOUNT
    ensures SwapDirect(env, st, msg).Done? ==> Inv(SwapDirect(env, st, msg).state)
    ensures SwapDirect(env, st, msg).Failed? ==> !Impossible(SwapDirect(env, st, msg).error)
  {
    var name := PairName(msg.minBought.denom, msg.sold.denom);
    if name in st.pairs && !Empty(st.pairs[name]) {
      ExchangeSafe(env, st, msg);
    }
  }

  /** Two different tradable names are ordered one way. */
  lemma OrderedNames(a: string, b: string)
    requires ValidSwapName(a) && ValidSwapName(b) && a != b
    ensures ValidBaseAndQuote(BaseName(a, b), QuoteName(a, b))
  {
    LessIsTotal(a, b);
  }

  /** No pair trades a coin against itself. */
  lemma StoredPairIsOfTwo(st: State, a: string, b: string)
    requires Inv(st) && ValidSwapName(a) && ValidSwapName(b) && PairName(a, b) in st.pairs
    ensures a != b
  {
    var pair := st.pairs[PairName(a, b)];
    assert GoodPair(st, PairName(a, b));
    LessIsTotal(pair.base.denom, pair.quote.denom);
    PairNameInjective(a, b, pair.base.denom, pair.quote.denom);
  }

  /** The two legs of a routed swap are themselves swaps on two different pairs. */
  lemma LegsAreSwaps(env: Env, st: State, msg: Msg)
    requires Inv(st) && ValidEnv(env) && msg.TokenToToken? && ValidMsg(msg)
    requires PairName(msg.sold.denom, env.native) in st.pairs && PairName(msg.minBought.denom, env.native) in st.pairs
    ensures msg.sold.denom != env.native && msg.minBought.denom != env.native && msg.sold.denom != msg.minBought.denom
    ensures PairName(env.native, msg.sold.denom) == PairName(msg.sold.denom, env.native)
    ensures PairName(env.native, msg.sold.denom) != PairName(msg.minBought.denom, env.native)
    ensures ValidBaseAndQuote(BaseName(msg.sold.denom, env.native), QuoteName(msg.sold.denom, env.native))
    ensures ValidBaseAndQuote(BaseName(env.native, msg.minBought.denom), QuoteName(env.native, msg.minBought.denom))
  {
    LessIsTotal(msg.sold.denom, msg.minBought.denom);
    StoredPairIsOfTwo(st, msg.sold.denom, env.native);
    StoredPairIsOfTwo(st, msg.minBought.denom, env.native);
    PairNameSymmetric(env.native, msg.sold.denom);
    PairNameInjective(env.native, msg.sold.denom, msg.minBought.denom, env.native);
    OrderedNames(msg.sold.denom, env.native);
    OrderedNames(env.native, msg.minBought.denom);
  }

  /** Exchange writes one pair and moves coins; nothing else. */
  lemma ExchangeFrame(st: State, pair: Pair, bought: Coin, msg: Msg)
    requires msg.TokenToToken? && Exchange(st, pair, bought, msg).Done?
    ensures var st' := Exchange(st, pair, bought, msg).state;
            var name := PairName(msg.minBought.denom, msg.sold.denom);
            && st'.pairs.Keys == st.pairs.Keys + {name}
            && (forall n | n in st.pairs && n != name :: st'.pairs[n] == st.pairs[n])
            && st'.supply == st.supply && st'.tokens == st.tokens
  {
  }

  lemma BothLegsSafe(env: Env, st: State, msg: Msg)
    requires Inv(st) && ValidEnv(env) && msg.TokenToToken? && ValidMsg(msg) && msg.sender != SWAP_ACCOUNT
    requires PairName(msg.sold.denom, env.native) in st.pairs && PairName(msg.minBought.denom, env.native) in st.pairs
    requires !Empty(st.pairs[PairName(msg.sold.denom, env.native)]) && !Empty(st.pairs[PairName(msg.minBought.denom, env.native)])
    requires TokenToBuy(env, st.pairs[PairName(msg.sold.denom, env.native)], msg.sold, env.native).amount > 0
    ensures var nativeBought := TokenToBuy(env, st.pairs[PairName(msg.sold.denom, env.native)], msg.sold, env.native);
            var bought := TokenToBuy(env, st.pairs[PairName(msg.minBought.denom, env.native)], nativeBought, msg.minBought.denom);
            var o := BothLegs(env, st, msg, nativeBought, bought);
            && (o.Failed? ==> o.error == UserFunds)
            && (o.Done? ==> Inv(o.state))
  {
    var name1 := PairName(msg.sold.denom, env.native);
    LegsAreSwaps(env, st, msg);
    var leg1 := msg.(minBought := Coin(env.native, 0));
    ExchangeSafe(env, st, leg1);
    var nativeBought := TokenToBuy(env, st.pairs[name1], msg.sold, env.native);
    var o1 := Exchange(st, st.pairs[name1], nativeBought, leg1);
    if o1.Done? {
      ExchangeFrame(st, st.pairs[name1], nativeBought, leg1);
      ExchangeSafe(env, o1.state, msg.(sold := nativeBought));
    }
  }

  lemma RoutedSafe(env: Env, st: State, msg: Msg)
    requires Inv(st) && ValidEnv(env) && msg.TokenToToken? && ValidMsg(msg) && msg.sender != SWAP_ACCOUNT
    ensures SwapRouted(env, st, msg).Done? ==> Inv(SwapRouted(env, st, msg).state)
    ensures SwapRouted(env, st, msg).Failed? ==> !Impossible(SwapRouted(env, st, msg).error)
  {
    var name1, name2 := PairName(msg.sold.denom, env.native), PairName(msg.minBought.denom, env.native);
    if name1 in st.pairs && name2 in st.pairs && !Empty(st.pairs[name1]) && !Empty(st.pairs[name2]) {
      if TokenToBuy(env, st.pairs[name1], msg.sold, env.native).amount > 0 {
        BothLegsSafe(env, st, msg);
      }
    }
  }

  lemma SwapTokensSafe(env: Env, st: State, msg: Msg)
    requires Inv(st) && ValidEnv(env) && msg.TokenToToken? && ValidMsg(msg) && msg.sender != SWAP_ACCOUNT
    ensures SwapTokens(env, st, msg).Done? ==> Inv(SwapTokens(env, st, msg).state)
    ensures SwapTokens(env, st, msg).Failed? ==> !Impossible(SwapTokens(env, st, msg).error)
  {
    DirectSafe(env, st, msg);
    RoutedSafe(env, st, msg);
  }

  // ---------------------------------------------------------------- every reachable state

  /** Every handler keeps the invariant and none ever lacks pool funds, meets a half-empty pair or a
      pair without shares, or mixes coins. */
  lemma HandleSafe(env: Env, st: State, msg: Msg)
    requires Inv(st) && ValidEnv(env) && ValidMsg(msg) && msg.sender != SWAP_ACCOUNT
    ensures Inv(Deliver(env, st, msg))
    ensures Handle(env, st, msg).Failed? ==> !Impossible(Handle(env, st, msg).error)
  {
    match msg
    case CreateExchange(_, _, _) => CreateSafe(st, msg);
    case AddLiquidity(_, _, _, _, _) => AddSafe(env, st, msg);
    case RemoveLiquidity(_, _, _, _, _) => RemoveSafe(env, st, msg);
    case TokenToToken(_, _, _, _, _) => SwapTokensSafe(env, st, msg);
  }

  /** Anything the rest of the chain may do: issue tokens, move coins between accounts. It cannot
      touch pairs, make or destroy pool shares, delete tokens, or spend from the module account. */
  ghost predicate Outside(st: State, st': State) {
    && st'.pairs == st.pairs
    && st.tokens.Keys <= st'.tokens.Keys
    && (forall name: string :: SupplyOf(st'.supply, PoolTokenName(name)) == SupplyOf(st.supply, PoolTokenName(name)))
    && (forall name: string :: Holdings(st'.ledger, PoolTokenName(name)) == Holdings(st.ledger, PoolTokenName(name)))
    && (forall denom: string :: Held(st'.ledger, SWAP_ACCOUNT, denom) >= Held(st.ledger, SWAP_ACCOUNT, denom))
  }

  /** One step of the chain as the swap module sees it. Module accounts sign no messages. */
  ghost predicate Next(st: State, st': State) {
    || Outside(st, st')
    || (exists env: Env, msg: Msg ::
          ValidEnv(env) && ValidMsg(msg) && msg.sender != SWAP_ACCOUNT && st' == Deliver(env, st, msg))
  }

  /** Before the first exchange is created: no pairs, no shares. */
  ghost predicate Initial(st: State) {
    && st.pairs == map[]
    && (forall name: string :: SupplyOf(st.supply, PoolTokenName(name)) == 0)
    && (forall name: string :: Holdings(st.ledger, PoolTokenName(name)) == 0)
  }

  ghost predicate NextAt(states: seq<State>, i: nat)
    requires i + 1 < |states|
  {
    Next(states[i], states[i + 1])
  }

  ghost predicate Run(states: seq<State>) {
    && states != []
    && Initial(states[0])
    && forall i | 0 <= i < |states| - 1 :: NextAt(states, i)
  }

  lemma NextKeepsInv(st: State, st': State)
    requires Inv(st) && Next(st, st')
    ensures Inv(st')
  {
    if Outside(st, st') {
      forall name | name in st'.pairs
        ensures GoodPair(st', name)
      {
        assert GoodPair(st, name);
      }
    } else {
      var env: Env, msg: Msg :|
        ValidEnv(env) && ValidMsg(msg) && msg.sender != SWAP_ACCOUNT && st' == Deliver(env, st, msg);
      HandleSafe(env, st, msg);
    }
  }

  /** In every reachable state the module account covers all pools in every coin, and reserves and
      shares of every pair vanish only together. */
  lemma {:induction false} ReachableStatesAreSafe(states: seq<State>, i: nat)
    requires Run(states) && i < |states|
    ensures Inv(states[i])
  {
    if i == 0 {
      assert forall denom: string :: PooledBy(states[0].pairs, denom) == map[];
    } else {
      ReachableStatesAreSafe(states, i - 1);
      assert NextAt(states, i - 1);
      NextKeepsInv(states[i - 1], states[i]);
    }
  }

  /** So in no reachable state does any message fail for lack of pool funds or on a broken pair. */
  lemma PayoutsNeverFail(states: seq<State>, i: nat, env: Env, msg: Msg)
    requires Run(states) && i < |states|
    requires ValidEnv(env) && ValidMsg(msg) && msg.sender != SWAP_ACCOUNT
    ensures Handle(env, states[i], msg).Failed? ==> !Impossible(Handle(env, states[i], msg).error)
  {
    ReachableStatesAreSafe(states, i);
    HandleSafe(env, states[i], msg);
  }

  /** So a redemption of the whole supply empties both reserves exactly. */
  lemma LastShareTakesAll(env: Env, st: State, msg: Msg)
    requires Inv(st) && ValidEnv(env) && msg.RemoveLiquidity? && ValidMsg(msg) && msg.sender != SWAP_ACCOUNT
    requires Remove(env, st, msg).Done?
    ensures var name := PairName(msg.minBase.denom, msg.minQuote.denom);
            var after := Remove(env, st, msg).state.pairs[name];
            (msg.liquidity == SupplyOf(st.supply, st.pairs[name].poolToken)) <==> (after.base.amount == 0 && after.quote.amount == 0)
  {
    var name := PairName(msg.minBase.denom, msg.minQuote.denom);
    NamedPair(st, msg.minBase.denom, msg.minQuote.denom);
    var pair := st.pairs[name];
    RedemptionBounds(env.precision, pair, msg.liquidity, SupplyOf(st.supply, pair.poolToken));
  }
}
