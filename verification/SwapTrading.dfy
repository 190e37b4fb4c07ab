/** What trading and joining a pool mean for traders and holders: whole messages, not only formulas. */
module SwapTrading {
  import opened Options
  import opened FixedPoint
  import opened Pricing
  import opened Liquidity
  import opened SwapNames
  import opened Swap
  import opened SwapSafety
  import opened SwapShares
  import opened SwapEffects
  import Sums

  function ReservesOf(pair: Pair): Reserves {
    Reserves(pair.base.amount, pair.quote.amount)
  }

  function SaleOf(env: Env, sold: Coin, buy: string): Sale {
    Sale(!Less(buy, sold.denom), sold.amount, env.feeRate)
  }

  /** One leg of a swap moves its pair exactly along the priced sale, and no other pair; of all accounts it
      takes what is sold from the sender and gives what is bought to the recipient. */
  lemma ExchangeIsSale(env: Env, st: State, msg: Msg)
    requires ValidEnv(env) && msg.TokenToToken?
    requires PairName(msg.minBought.denom, msg.sold.denom) in st.pairs
    requires !Empty(st.pairs[PairName(msg.minBought.denom, msg.sold.denom)])
    ensures var name := PairName(msg.minBought.denom, msg.sold.denom);
            var pair := st.pairs[name];
            var o := Exchange(st, pair, TokenToBuy(env, pair, msg.sold, msg.minBought.denom), msg);
            o.Done? ==>
              && name in o.state.pairs
              && ReservesOf(o.state.pairs[name]) == AfterSale(env.precision, ReservesOf(pair), SaleOf(env, msg.sold, msg.minBought.denom))
              && (forall n | n in st.pairs && n != name :: n in o.state.pairs && o.state.pairs[n] == st.pairs[n])
              && Moves(st.ledger, o.state.ledger, SaleFlows(msg.sender, msg.recipient, msg.sold, TokenToBuy(env, pair, msg.sold, msg.minBought.denom)))
  {
    var pair := st.pairs[PairName(msg.minBought.denom, msg.sold.denom)];
    var bought := TokenToBuy(env, pair, msg.sold, msg.minBought.denom);
    if Exchange(st, pair, bought, msg).Done? { ExchangeMoves(st, pair, bought, msg); }
  }

  ghost predicate ProductsKept(st: State, st': State) {
    forall n | n in st.pairs ::
      && n in st'.pairs
      && st'.pairs[n].base.amount * st'.pairs[n].quote.amount >= st.pairs[n].base.amount * st.pairs[n].quote.amount
  }

  lemma ExchangeKeepsProducts(env: Env, st: State, msg: Msg)
    requires ValidEnv(env) && msg.TokenToToken?
    requires PairName(msg.minBought.denom, msg.sold.denom) in st.pairs
    requires !Empty(st.pairs[PairName(msg.minBought.denom, msg.sold.denom)])
    ensures var pair := st.pairs[PairName(msg.minBought.denom, msg.sold.denom)];
            var o := Exchange(st, pair, TokenToBuy(env, pair, msg.sold, msg.minBought.denom), msg);
            o.Done? ==> ProductsKept(st, o.state)
  {
    var name := PairName(msg.minBought.denom, msg.sold.denom);
    var pair := st.pairs[name];
    var o := Exchange(st, pair, TokenToBuy(env, pair, msg.sold, msg.minBought.denom), msg);
    ExchangeIsSale(env, st, msg);
    if o.Done? {
      var r' := AfterSale(env.precision, ReservesOf(pair), SaleOf(env, msg.sold, msg.minBought.denom));
      assert r'.base * r'.quote >= pair.base.amount * pair.quote.amount;
    }
  }

  lemma DirectKeepsProducts(env: Env, st: State, msg: Msg)
    requires ValidEnv(env) && msg.TokenToToken?
    ensures SwapDirect(env, st, msg).Done? ==> ProductsKept(st, SwapDirect(env, st, msg).state)
  {
    var name := PairName(msg.minBought.denom, msg.sold.denom);
    if name in st.pairs && !Empty(st.pairs[name]) {
      ExchangeKeepsProducts(env, st, msg);
    }
  }

  /** A swap message followed by another sale in the same direction brings, in all, at most what one
      message selling both amounts would have brought. */
  lemma SplitSwapNeverPays(env: Env, st: State, msg: Msg, st1: State, more: nat)
    requires ValidEnv(env) && msg.TokenToToken? && SwapDirect(env, st, msg) == Done(st1)
    ensures var name := PairName(msg.minBought.denom, msg.sold.denom);
            && name in st.pairs && !Empty(st.pairs[name]) && name in st1.pairs && !Empty(st1.pairs[name])
            && var buy := msg.minBought.denom;
               TokenToBuy(env, st.pairs[name], msg.sold, buy).amount
                 + TokenToBuy(env, st1.pairs[name], Coin(msg.sold.denom, more), buy).amount
               <= TokenToBuy(env, st.pairs[name], Coin(msg.sold.denom, msg.sold.amount + more), buy).amount
  {
    var name, buy := PairName(msg.minBought.denom, msg.sold.denom), msg.minBought.denom;
    var pair := st.pairs[name];
    ExchangeIsSale(env, st, msg);
    var r := ReservesOf(pair);
    var input, output := if Less(buy, msg.sold.denom) then r.quote else r.base, if Less(buy, msg.sold.denom) then r.base else r.quote;
    TwoPieces(env.precision, input, output, msg.sold.amount, more, env.feeRate);
  }

  lemma TwoPieces(precision: int, input: int, output: int, x: nat, y: nat, feeRate: int)
    requires ValidFee(precision, feeRate) && input > 0 && output > 0
    ensures var out := GetInputPrice(precision, x, input, output, feeRate);
            out + GetInputPrice(precision, y, input + x, output - out, feeRate)
              <= GetInputPrice(precision, x + y, input, output, feeRate)
  {
    assert [x, y][1..] == [y] && [y][1..] == [];
    SplittingNeverPays(precision, input, output, [x, y], feeRate);
    var out := GetInputPrice(precision, x, input, output, feeRate);
    assert BoughtInPieces(precision, input + x, output - out, [y], feeRate)
        == GetInputPrice(precision, y, input + x, output - out, feeRate) + BoughtInPieces(precision, input + x + y, output - out - GetInputPrice(precision, y, input + x, output - out, feeRate), [], feeRate);
    assert Total([x, y]) == x + Total([y]) && Total([y]) == y + Total([]);
  }

  // ---------------------------------------------------------------- routing

  /** The two direct swaps a routed swap stands for: first into the native token, accepting any
      amount, then on with everything that brought. */
  function FirstLeg(env: Env, msg: Msg): Msg
    requires msg.TokenToToken?
  {
    msg.(minBought := Coin(env.native, 0))
  }

  function SecondLeg(env: Env, st: State, msg: Msg): Msg
    requires ValidEnv(env) && msg.TokenToToken?
    requires PairName(env.native, msg.sold.denom) in st.pairs && !Empty(st.pairs[PairName(env.native, msg.sold.denom)])
  {
    msg.(sold := TokenToBuy(env, st.pairs[PairName(env.native, msg.sold.denom)], msg.sold, env.native))
  }

  function ThenDirect(env: Env, o: Outcome, msg: Msg): Outcome
    requires ValidEnv(env) && msg.TokenToToken?
  {
    match o
    case Failed(e) => Failed(e)
    case Done(st) => SwapDirect(env, st, msg)
  }

  /** After the first leg the trader holds at least what the second leg sells. */
  lemma FirstLegPays(st: State, pair: Pair, bought: Coin, msg: Msg)
    requires msg.TokenToToken? && msg.sender == msg.recipient && msg.sender != SWAP_ACCOUNT
    requires Exchange(st, pair, bought, msg).Done?
    ensures Held(Exchange(st, pair, bought, msg).state.ledger, msg.sender, bought.denom) >= bought.amount
  {
  }

  lemma FirstLegIsDirect(env: Env, st: State, msg: Msg)
    requires Inv(st) && ValidEnv(env) && msg.TokenToToken? && ValidMsg(msg)
    requires PairName(msg.sold.denom, env.native) in st.pairs && PairName(msg.minBought.denom, env.native) in st.pairs
    requires !Empty(st.pairs[PairName(msg.sold.denom, env.native)])
    requires msg.deadline >= env.blockTime && Held(st.ledger, msg.sender, msg.sold.denom) >= msg.sold.amount
    requires TokenToBuy(env, st.pairs[PairName(msg.sold.denom, env.native)], msg.sold, env.native).amount > 0
    ensures var pair := st.pairs[PairName(msg.sold.denom, env.native)];
            SwapDirect(env, st, FirstLeg(env, msg))
              == Exchange(st, pair, TokenToBuy(env, pair, msg.sold, env.native), FirstLeg(env, msg))
  {
    LegsAreSwaps(env, st, msg);
  }

  /** For a trader who keeps the proceeds, routing is exactly two direct swaps, one after the other,
      although both legs are priced from pairs read before either happens: one succeeds if and only
      if the other does, and they end in the same state. */
  lemma RoutingIsTwoSwaps(env: Env, st: State, msg: Msg)
    requires Inv(st) && ValidEnv(env) && msg.TokenToToken? && ValidMsg(msg)
    requires msg.sender == msg.recipient && msg.sender != SWAP_ACCOUNT
    requires PairName(msg.sold.denom, env.native) in st.pairs && !Empty(st.pairs[PairName(msg.sold.denom, env.native)])
    ensures PairName(env.native, msg.sold.denom) == PairName(msg.sold.denom, env.native)
    ensures var routed := SwapRouted(env, st, msg);
            var twice := ThenDirect(env, SwapDirect(env, st, FirstLeg(env, msg)), SecondLeg(env, st, msg));
            && (routed.Done? <==> twice.Done?)
            && (routed.Done? ==> routed == twice)
  {
    PairNameSymmetric(env.native, msg.sold.denom);
    var name1, name2 := PairName(msg.sold.denom, env.native), PairName(msg.minBought.denom, env.native);
    var nativeBought := TokenToBuy(env, st.pairs[name1], msg.sold, env.native);
    var first := SwapDirect(env, st, FirstLeg(env, msg));
    var routed := SwapRouted(env, st, msg);
    if msg.deadline < env.blockTime || Held(st.ledger, msg.sender, msg.sold.denom) < msg.sold.amount || nativeBought.amount == 0 {
      assert routed.Failed? && first.Failed?;
    } else if name2 !in st.pairs {
      assert routed.Failed?;
      if first.Done? {
        ExchangeFrame(st, st.pairs[name1], nativeBought, FirstLeg(env, msg));
        SecondPairStillMissing(env, st, msg, first.state);
      }
    } else {
      FirstLegIsDirect(env, st, msg);
      if first.Done? {
        LegsAreSwaps(env, st, msg);
        ExchangeFrame(st, st.pairs[name1], nativeBought, FirstLeg(env, msg));
        FirstLegPays(st, st.pairs[name1], nativeBought, FirstLeg(env, msg));
        assert first.state.pairs[name2] == st.pairs[name2];
      }
    }
  }

  lemma SecondPairStillMissing(env: Env, st: State, msg: Msg, st1: State)
    requires ValidEnv(env) && msg.TokenToToken?
    requires PairName(msg.minBought.denom, env.native) !in st.pairs
    requires PairName(msg.sold.denom, env.native) in st.pairs
    requires PairName(env.native, msg.sold.denom) == PairName(msg.sold.denom, env.native)
    requires st1.pairs.Keys == st.pairs.Keys + {PairName(env.native, msg.sold.denom)}
    requires !Empty(st.pairs[PairName(msg.sold.denom, env.native)])
    ensures SwapDirect(env, st1, SecondLeg(env, st, msg)).Failed?
  {
  }

  /** Whatever the query answers is what a swap on the same state delivers to its recipient, directly
      or routed; and when a swap succeeds the query does answer. */
  lemma QueryPredictsSwap(env: Env, st: State, msg: Msg)
    requires Inv(st) && ValidEnv(env) && msg.TokenToToken? && ValidMsg(msg)
    requires msg.sender != SWAP_ACCOUNT && msg.recipient != SWAP_ACCOUNT
    requires SwapTokens(env, st, msg).Done?
    ensures var quoted := QueryBuyAmount(env, st, msg.sold, msg.minBought.denom);
            var st' := SwapTokens(env, st, msg).state;
            && quoted.Some?
            && quoted.value > 0 && quoted.value >= msg.minBought.amount
            && Held(st'.ledger, msg.recipient, msg.minBought.denom)
                 == Held(st.ledger, msg.recipient, msg.minBought.denom) + quoted.value
  {
    var sold, buy := msg.sold, msg.minBought.denom;
    LessIsTotal(sold.denom, buy);
    PairNameSymmetric(sold.denom, buy);
    if PairName(buy, sold.denom) in st.pairs {
      var pair := st.pairs[PairName(buy, sold.denom)];
      ExchangeDelivers(st, pair, TokenToBuy(env, pair, sold, buy), msg);
    } else {
      LegsAreSwaps(env, st, msg);
      var pair1, pair2 := st.pairs[PairName(sold.denom, env.native)], st.pairs[PairName(buy, env.native)];
      var nativeBought := TokenToBuy(env, pair1, sold, env.native);
      ExchangeDelivers(st, pair1, nativeBought, FirstLeg(env, msg));
      var st1 := Exchange(st, pair1, nativeBought, FirstLeg(env, msg)).state;
      ExchangeDelivers(st1, pair2, TokenToBuy(env, pair2, nativeBought, buy), msg.(sold := nativeBought));
    }
  }

  /** The recipient receives what was bought; of other coins, only the sold one can change hands. */
  lemma ExchangeDelivers(st: State, pair: Pair, bought: Coin, msg: Msg)
    requires msg.TokenToToken? && Exchange(st, pair, bought, msg).Done?
    requires msg.sold.denom != bought.denom
    requires msg.sender != SWAP_ACCOUNT && msg.recipient != SWAP_ACCOUNT
    ensures var l, l' := st.ledger, Exchange(st, pair, bought, msg).state.ledger;
            && Held(l', msg.recipient, bought.denom) == Held(l, msg.recipient, bought.denom) + bought.amount
            && forall d: string | d != bought.denom && d != msg.sold.denom :: Held(l', msg.recipient, d) == Held(l, msg.recipient, d)
  {
  }

  // ---------------------------------------------------------------- runs of swaps

  lemma RoutedKeepsProducts(env: Env, st: State, msg: Msg)
    requires Inv(st) && ValidEnv(env) && msg.TokenToToken? && ValidMsg(msg)
    ensures SwapRouted(env, st, msg).Done? ==> ProductsKept(st, SwapRouted(env, st, msg).state)
  {
    if SwapRouted(env, st, msg).Done? {
      var name1, name2 := PairName(msg.sold.denom, env.native), PairName(msg.minBought.denom, env.native);
      LegsAreSwaps(env, st, msg);
      var nativeBought := TokenToBuy(env, st.pairs[name1], msg.sold, env.native);
      ExchangeKeepsProducts(env, st, FirstLeg(env, msg));
      ExchangeFrame(st, st.pairs[name1], nativeBought, FirstLeg(env, msg));
      var st1 := Exchange(st, st.pairs[name1], nativeBought, FirstLeg(env, msg)).state;
      assert st1.pairs[name2] == st.pairs[name2];
      ExchangeKeepsProducts(env, st1, msg.(sold := nativeBought));
      ProductsKeptTransitive(st, st1, SwapRouted(env, st, msg).state);
    }
  }

  lemma ProductsKeptTransitive(a: State, b: State, c: State)
    requires ProductsKept(a, b) && ProductsKept(b, c)
    ensures ProductsKept(a, c)
  {
  }

  /** A run of swap messages, successful or not, direct or routed, by anyone, under any fee rates. */
  ghost predicate SwapRun(states: seq<State>) {
    forall i | 0 <= i < |states| - 1 :: SwapStepAt(states, i)
  }

  ghost predicate SwapStepAt(states: seq<State>, i: nat)
    requires i + 1 < |states|
  {
    SwapStep(states[i], states[i + 1])
  }

  ghost predicate SwapStep(st: State, st': State) {
    exists env: Env, msg: Msg ::
      && ValidEnv(env) && ValidMsg(msg) && msg.TokenToToken? && msg.sender != SWAP_ACCOUNT
      && st' == Deliver(env, st, msg)
  }

  lemma SwapStepKeepsProducts(st: State, st': State)
    requires Inv(st) && SwapStep(st, st')
    ensures Inv(st') && ProductsKept(st, st')
  {
    var env: Env, msg: Msg :|
      && ValidEnv(env) && ValidMsg(msg) && msg.TokenToToken? && msg.sender != SWAP_ACCOUNT
      && st' == Deliver(env, st, msg);
    HandleSafe(env, st, msg);
    DirectKeepsProducts(env, st, msg);
    RoutedKeepsProducts(env, st, msg);
  }

  /** Along any run of swaps, of any length, across all pairs, no pair's product ever falls. */
  lemma {:induction false} SwapRunKeepsProducts(states: seq<State>, i: nat, j: nat)
    requires SwapRun(states) && i <= j < |states| && Inv(states[i])
    ensures Inv(states[j]) && ProductsKept(states[i], states[j])
    decreases j - i
  {
    if i < j {
      SwapRunKeepsProducts(states, i, j - 1);
      assert SwapStepAt(states, j - 1);
      SwapStepKeepsProducts(states[j - 1], states[j]);
      ProductsKeptTransitive(states[i], states[j - 1], states[j]);
    }
  }

  // ---------------------------------------------------------------- joining and leaving

  /** Two coins paid together leave the payer and reach the payee in full. */
  lemma PayBothExact(l: Ledger, payer: Account, payee: Account, base: Coin, quote: Coin)
    requires Less(base.denom, quote.denom) && payer != payee
    requires PayAll(l, payer, payee, CoinSort([base, quote])).Some?
    ensures CoinSort([base, quote]) == CoinSort([quote, base])
    ensures var l' := PayAll(l, payer, payee, CoinSort([base, quote])).value;
            && Held(l', payer, base.denom) == Held(l, payer, base.denom) - base.amount
            && Held(l', payer, quote.denom) == Held(l, payer, quote.denom) - quote.amount
            && Held(l', payee, base.denom) == Held(l, payee, base.denom) + base.amount
            && Held(l', payee, quote.denom) == Held(l, payee, quote.denom) + quote.amount
  {
    LessIsTotal(base.denom, quote.denom);
    SortedTwo(base, quote);
    PayTwoUnfolds(l, payer, payee, CoinSort([base, quote]));
  }

  /** What a successful deposit takes from its sender and gives to the pair. */
  lemma AddEffect(env: Env, st: State, msg: Msg)
    requires Inv(st) && ValidEnv(env) && msg.AddLiquidity? && ValidMsg(msg) && msg.sender != SWAP_ACCOUNT
    requires Add(env, st, msg).Done?
    ensures var name := PairName(msg.maxBase.denom, msg.quoteIn.denom);
            var st' := Add(env, st, msg).state;
            && name in st.pairs && name in st'.pairs
            && var pair := st.pairs[name];
               var terms := DepositTerms(env.precision, pair, SupplyOf(st.supply, pair.poolToken), msg.maxBase.amount, msg.quoteIn.amount);
               && terms.Accepted?
               && st'.pairs[name] == Pair(Coin(pair.quote.denom, pair.quote.amount + msg.quoteIn.amount),
                                          Coin(pair.base.denom, pair.base.amount + terms.base), pair.poolToken)
               && SupplyOf(st'.supply, pair.poolToken) == SupplyOf(st.supply, pair.poolToken) + terms.liquidity
               && Held(st'.ledger, msg.sender, msg.maxBase.denom) == Held(st.ledger, msg.sender, msg.maxBase.denom) - terms.base
               && Held(st'.ledger, msg.sender, msg.quoteIn.denom) == Held(st.ledger, msg.sender, msg.quoteIn.denom) - msg.quoteIn.amount
  {
    var name := PairName(msg.maxBase.denom, msg.quoteIn.denom);
    NamedPair(st, msg.maxBase.denom, msg.quoteIn.denom);
    var pair := st.pairs[name];
    var terms := DepositTerms(env.precision, pair, SupplyOf(st.supply, pair.poolToken), msg.maxBase.amount, msg.quoteIn.amount);
    var baseIn := Coin(msg.maxBase.denom, terms.base);
    SortedTwo(baseIn, msg.quoteIn);
    PayBothExact(st.ledger, msg.sender, SWAP_ACCOUNT, baseIn, msg.quoteIn);
    PoolTokenNotTradable(name);
  }

  /** Burning shares takes them from their holder and changes no other holding of the user. */
  lemma BurnEffect(st: State, shares: Coin, user: Account)
    requires user != SWAP_ACCOUNT && BurnFromUser(st, shares, user).Done?
    ensures var st' := BurnFromUser(st, shares, user).state;
            && st'.pairs == st.pairs
            && shares.amount <= SupplyOf(st.supply, shares.denom)
            && SupplyOf(st'.supply, shares.denom) == SupplyOf(st.supply, shares.denom) - shares.amount
            && forall d: string | d != shares.denom :: Held(st'.ledger, user, d) == Held(st.ledger, user, d)
  {
  }

  /** The pair after `r` was paid out of it. */
  function PaidOut(pair: Pair, r: Redemption): Pair
    requires r.base <= pair.base.amount && r.quote <= pair.quote.amount
  {
    Pair(Coin(pair.quote.denom, pair.quote.amount - r.quote), Coin(pair.base.denom, pair.base.amount - r.base), pair.poolToken)
  }

  /** The parts a successful withdrawal is made of. */
  lemma RemoveParts(env: Env, st: State, msg: Msg) returns (r: Redemption, paid: Ledger)
    requires ValidEnv(env) && msg.RemoveLiquidity? && ValidMsg(msg) && Remove(env, st, msg).Done?
    ensures var name := PairName(msg.minBase.denom, msg.minQuote.denom);
            && name in st.pairs
            && var pair := st.pairs[name];
               var supply := SupplyOf(st.supply, pair.poolToken);
               && msg.liquidity <= supply
               && r == RedemptionOf(env.precision, pair, msg.liquidity, supply)
               && r.base <= pair.base.amount && r.quote <= pair.quote.amount
               && PayAll(st.ledger, SWAP_ACCOUNT, msg.sender, CoinSort([Coin(pair.base.denom, r.base), Coin(pair.quote.denom, r.quote)])) == Some(paid)
               && Remove(env, st, msg) == BurnFromUser(st.(pairs := st.pairs[name := PaidOut(pair, r)], ledger := paid),
                                                       Coin(pair.poolToken, msg.liquidity), msg.sender)
  {
    var pair := st.pairs[PairName(msg.minBase.denom, msg.minQuote.denom)];
    r := RedemptionOf(env.precision, pair, msg.liquidity, SupplyOf(st.supply, pair.poolToken));
    paid := PayAll(st.ledger, SWAP_ACCOUNT, msg.sender, CoinSort([Coin(pair.base.denom, r.base), Coin(pair.quote.denom, r.quote)])).value;
  }

  /** What a successful withdrawal takes from the pair and gives to its sender. */
  lemma RemoveEffect(env: Env, st: State, msg: Msg)
    requires Inv(st) && ValidEnv(env) && msg.RemoveLiquidity? && ValidMsg(msg) && msg.sender != SWAP_ACCOUNT
    requires Remove(env, st, msg).Done?
    ensures var name := PairName(msg.minBase.denom, msg.minQuote.denom);
            var st' := Remove(env, st, msg).state;
            && name in st.pairs && name in st'.pairs
            && var pair := st.pairs[name];
               var supply := SupplyOf(st.supply, pair.poolToken);
               && msg.liquidity <= supply
               && var r := RedemptionOf(env.precision, pair, msg.liquidity, supply);
                  && r.base <= pair.base.amount && r.quote <= pair.quote.amount
                  && st'.pairs[name] == PaidOut(pair, r)
                  && SupplyOf(st'.supply, pair.poolToken) == supply - msg.liquidity
                  && Held(st'.ledger, msg.sender, msg.minBase.denom) == Held(st.ledger, msg.sender, msg.minBase.denom) + r.base
                  && Held(st'.ledger, msg.sender, msg.minQuote.denom) == Held(st.ledger, msg.sender, msg.minQuote.denom) + r.quote
  {
    var name := PairName(msg.minBase.denom, msg.minQuote.denom);
    var r, paid := RemoveParts(env, st, msg);
    var pair := st.pairs[name];
    assert pair.base.denom == msg.minBase.denom && pair.quote.denom == msg.minQuote.denom && pair.poolToken == PoolTokenName(name) by {
      NamedPair(st, msg.minBase.denom, msg.minQuote.denom);
    }
    PayBothExact(st.ledger, SWAP_ACCOUNT, msg.sender, Coin(pair.base.denom, r.base), Coin(pair.quote.denom, r.quote));
    PoolTokenNotTradable(name);
    BurnEffect(st.(pairs := st.pairs[name := PaidOut(pair, r)], ledger := paid), Coin(pair.poolToken, msg.liquidity), msg.sender);
  }

  /** The shares a deposit mints are worth no more, at once, than what it brought. */
  lemma MintedRedeemsNoMore(precision: int, pair: Pair, supply: nat, maxBase: nat, quoteIn: nat)
    requires precision > 0 && AllOrNothing(pair, supply) && maxBase > 0 && quoteIn > 0
    requires DepositTerms(precision, pair, supply, maxBase, quoteIn).Accepted?
    ensures var t := DepositTerms(precision, pair, supply, maxBase, quoteIn);
            var joined := Pair(Coin(pair.quote.denom, pair.quote.amount + quoteIn), Coin(pair.base.denom, pair.base.amount + t.base), pair.poolToken);
            && supply + t.liquidity > 0
            && var r := RedemptionOf(precision, joined, t.liquidity, supply + t.liquidity);
               r.base <= t.base && r.quote <= quoteIn
  {
    if supply > 0 {
      AcceptedTerms(precision, pair, supply, maxBase, quoteIn);
      AddThenRemove(precision, quoteIn, pair.base.amount, pair.quote.amount, supply);
    } else {
      var whole := Whole(precision, 1);
      RedeemBound(precision, maxBase, whole, whole);
      RedeemBound(precision, quoteIn, whole, whole);
    }
  }

  lemma AcceptedTerms(precision: int, pair: Pair, supply: nat, maxBase: nat, quoteIn: nat)
    requires precision > 0 && supply > 0 && AllOrNothing(pair, supply)
    ensures var t := DepositTerms(precision, pair, supply, maxBase, quoteIn);
            t.Accepted? ==>
              && t.base == BaseFor(precision, quoteIn, pair.base.amount, pair.quote.amount)
              && t.liquidity == SharesFor(precision, quoteIn, supply, pair.quote.amount)
  {
  }

  /** A deposit followed by a withdrawal of the shares it minted leaves the depositor with no more of
      either coin than before, whether the pool was empty or not. */
  lemma DepositThenWithdraw(env: Env, st: State, add: Msg, st1: State, remove: Msg, st2: State)
    requires Inv(st) && ValidEnv(env)
    requires add.AddLiquidity? && ValidMsg(add) && add.sender != SWAP_ACCOUNT && Add(env, st, add) == Done(st1)
    requires remove.RemoveLiquidity? && ValidMsg(remove) && remove.sender == add.sender
    requires remove.minBase.denom == add.maxBase.denom && remove.minQuote.denom == add.quoteIn.denom
    requires PairName(add.maxBase.denom, add.quoteIn.denom) in st.pairs
    requires var poolToken := st.pairs[PairName(add.maxBase.denom, add.quoteIn.denom)].poolToken;
             remove.liquidity == SupplyOf(st1.supply, poolToken) - SupplyOf(st.supply, poolToken)
    requires Remove(env, st1, remove) == Done(st2)
    ensures Held(st2.ledger, add.sender, add.maxBase.denom) <= Held(st.ledger, add.sender, add.maxBase.denom)
    ensures Held(st2.ledger, add.sender, add.quoteIn.denom) <= Held(st.ledger, add.sender, add.quoteIn.denom)
  {
    var baseIn := MintedWorth(env, st, add, st1);
    assert Inv(st1) by { AddSafe(env, st, add); }
    RemoveEffect(env, st1, remove);
  }

  /** Right after a deposit of `baseIn` and its quote side, the minted shares redeem for no more. */
  lemma MintedWorth(env: Env, st: State, add: Msg, st1: State) returns (baseIn: nat)
    requires Inv(st) && ValidEnv(env)
    requires add.AddLiquidity? && ValidMsg(add) && add.sender != SWAP_ACCOUNT && Add(env, st, add) == Done(st1)
    ensures Held(st1.ledger, add.sender, add.maxBase.denom) == Held(st.ledger, add.sender, add.maxBase.denom) - baseIn
    ensures Held(st1.ledger, add.sender, add.quoteIn.denom) == Held(st.ledger, add.sender, add.quoteIn.denom) - add.quoteIn.amount
    ensures var name := PairName(add.maxBase.denom, add.quoteIn.denom);
            && name in st.pairs && name in st1.pairs && st1.pairs[name].poolToken == st.pairs[name].poolToken
            && var supply, supply1 := SupplyOf(st.supply, st.pairs[name].poolToken), SupplyOf(st1.supply, st.pairs[name].poolToken);
               && supply < supply1
               && var r := RedemptionOf(env.precision, st1.pairs[name], supply1 - supply, supply1);
                  r.base <= baseIn && r.quote <= add.quoteIn.amount
  {
    AddEffect(env, st, add);
    var name := PairName(add.maxBase.denom, add.quoteIn.denom);
    var pair := st.pairs[name];
    var supply := SupplyOf(st.supply, pair.poolToken);
    assert AllOrNothing(pair, supply) by { assert GoodPair(st, name); }
    TermsKeepPositive(env.precision, pair, supply, add.maxBase.amount, add.quoteIn.amount);
    MintedRedeemsNoMore(env.precision, pair, supply, add.maxBase.amount, add.quoteIn.amount);
    baseIn := DepositTerms(env.precision, pair, supply, add.maxBase.amount, add.quoteIn.amount).base;
  }

  /** Value per share, compared across a state change by cross-multiplying: never falls. */
  predicate PerShareKept(reserve: int, supply: int, reserve': int, supply': int) {
    reserve' * supply >= reserve * supply'
  }

  /** The quote coin behind each share of a pair never falls from one state to the other. */
  predicate QuotePerShareKept(st: State, st': State, name: string) {
    && name in st.pairs && name in st'.pairs
    && var token := st.pairs[name].poolToken;
       PerShareKept(st.pairs[name].quote.amount, SupplyOf(st.supply, token), st'.pairs[name].quote.amount, SupplyOf(st'.supply, token))
  }

  predicate BasePerShareKept(st: State, st': State, name: string) {
    && name in st.pairs && name in st'.pairs
    && var token := st.pairs[name].poolToken;
       PerShareKept(st.pairs[name].base.amount, SupplyOf(st.supply, token), st'.pairs[name].base.amount, SupplyOf(st'.supply, token))
  }

  /** The base coin behind all earlier shares together falls by less than one unit. */
  predicate BaseShareLossBelowOne(st: State, st': State, name: string) {
    && name in st.pairs && name in st'.pairs
    && var token := st.pairs[name].poolToken;
       var supply, supply' := SupplyOf(st.supply, token), SupplyOf(st'.supply, token);
       supply > 0 ==> st'.pairs[name].base.amount * supply > (st.pairs[name].base.amount - 1) * supply'
  }

  /** A deposit keeps the quote value of every share, and costs all earlier shares together less than
      one unit of base. */
  lemma AddKeepsShares(env: Env, st: State, msg: Msg)
    requires Inv(st) && ValidEnv(env) && msg.AddLiquidity? && ValidMsg(msg) && msg.sender != SWAP_ACCOUNT
    requires Add(env, st, msg).Done?
    ensures QuotePerShareKept(st, Add(env, st, msg).state, PairName(msg.maxBase.denom, msg.quoteIn.denom))
    ensures BaseShareLossBelowOne(st, Add(env, st, msg).state, PairName(msg.maxBase.denom, msg.quoteIn.denom))
  {
    AddEffect(env, st, msg);
    var name := PairName(msg.maxBase.denom, msg.quoteIn.denom);
    assert GoodPair(st, name);
    var pair := st.pairs[name];
    var supply := SupplyOf(st.supply, pair.poolToken);
    if supply > 0 {
      AddDilution(env.precision, msg.quoteIn.amount, pair.base.amount, pair.quote.amount, supply);
    }
  }

  /** Exactly when a deposit keeps the base value of every share as well, said of the pool and the
      quote coin brought: the pool was empty, or the two roundings meet `BaseKept`. */
  lemma AddKeepsBaseShareExactly(env: Env, st: State, msg: Msg)
    requires Inv(st) && ValidEnv(env) && msg.AddLiquidity? && ValidMsg(msg) && msg.sender != SWAP_ACCOUNT
    requires Add(env, st, msg).Done?
    ensures var name := PairName(msg.maxBase.denom, msg.quoteIn.denom);
            && name in st.pairs
            && var pair := st.pairs[name];
               var supply := SupplyOf(st.supply, pair.poolToken);
               BasePerShareKept(st, Add(env, st, msg).state, name) <==>
                 supply == 0 || (pair.quote.amount > 0 && BaseKept(msg.quoteIn.amount, pair.base.amount, pair.quote.amount, supply))
  {
    AddEffect(env, st, msg);
    var name := PairName(msg.maxBase.denom, msg.quoteIn.denom);
    assert GoodPair(st, name);
    var pair := st.pairs[name];
    var supply := SupplyOf(st.supply, pair.poolToken);
    if supply > 0 {
      AddKeepsBaseExactly(env.precision, msg.quoteIn.amount, pair.base.amount, pair.quote.amount, supply);
    }
  }

  /** A withdrawal dilutes neither side for those who stay. */
  lemma RemoveKeepsShares(env: Env, st: State, msg: Msg)
    requires Inv(st) && ValidEnv(env) && msg.RemoveLiquidity? && ValidMsg(msg) && msg.sender != SWAP_ACCOUNT
    requires Remove(env, st, msg).Done?
    ensures QuotePerShareKept(st, Remove(env, st, msg).state, PairName(msg.minBase.denom, msg.minQuote.denom))
    ensures BasePerShareKept(st, Remove(env, st, msg).state, PairName(msg.minBase.denom, msg.minQuote.denom))
  {
    RemoveEffect(env, st, msg);
    var name := PairName(msg.minBase.denom, msg.minQuote.denom);
    assert GoodPair(st, name);
    var pair := st.pairs[name];
    var supply := SupplyOf(st.supply, pair.poolToken);
    RedeemBound(env.precision, pair.base.amount, msg.liquidity, supply);
    RedeemBound(env.precision, pair.quote.amount, msg.liquidity, supply);
  }

  // ---------------------------------------------------------------- a deposit that costs earlier holders

  /** A pool of 15 to 10 with 10 shares, all of them held by "u". */
  function SmallPool(): State {
    var name := PairName("a", "b");
    var shares := PoolTokenName(name);
    State(map[name := Pair(Coin("b", 10), Coin("a", 15), shares)],
          map[shares := PoolShare],
          map[shares := 10],
          map[(SWAP_ACCOUNT, "a") := 15, (SWAP_ACCOUNT, "b") := 10, ("u", "a") := 5, ("u", "b") := 5, ("u", shares) := 10])
  }

  lemma SmallPoolIsGood()
    ensures PairName("a", "b") in SmallPool().pairs && Inv(SmallPool())
  {
    var st := SmallPool();
    var name := PairName("a", "b");
    assert Less("a", "b");
    PoolTokenNotTradable(name);
    assert st.pairs == map[][name := st.pairs[name]];
    forall denom: string
      ensures Pooled(st.pairs, denom) <= Held(st.ledger, SWAP_ACCOUNT, denom)
    {
      PooledUpdated(map[], name, st.pairs[name], denom);
      assert PooledBy(map[], denom) == map[];
    }
    forall n: string | n !in st.pairs
      ensures SupplyOf(st.supply, PoolTokenName(n)) == 0
    {
      if PoolTokenName(n) == PoolTokenName(name) { PoolTokenNameInjective(n, name); }
    }
  }

  lemma SmallPoolIsHeld()
    ensures SharesHeld(SmallPool())
  {
    var st := SmallPool();
    var shares := PoolTokenName(PairName("a", "b"));
    forall name: string
      ensures Gap(st, PoolTokenName(name)) == 0
    {
      PoolTokenNotTradable(name);
      var holdings: map<(Account, string), int> := map[];
      if PoolTokenName(name) == shares {
        Sums.SumUpdated(holdings, ("u", shares), 10);
        assert HoldingsOf(st.ledger, shares) == holdings[("u", shares) := 10];
      } else {
        assert HoldingsOf(st.ledger, PoolTokenName(name)) == holdings;
      }
    }
  }

  function SmallDeposit(env: Env): Msg {
    AddLiquidity(0, Coin("a", 5), Coin("b", 1), env.blockTime, "u")
  }

  lemma SmallDepositGoesThrough(env: Env)
    requires ValidEnv(env)
    ensures ValidMsg(SmallDeposit(env)) && Add(env, SmallPool(), SmallDeposit(env)).Done?
    ensures DepositTerms(env.precision, SmallPool().pairs[PairName("a", "b")], 10, 5, 1) == Accepted(1, 1)
  {
    var st, name := SmallPool(), PairName("a", "b");
    SmallPoolIsGood();
    assert Less("a", "b");
    MulAndQuoIsFloor(env.precision, 1, 15, 10);
    MulAndQuoIsFloor(env.precision, 1, 10, 10);
    SmallPoolPays();
    MintKeepsHeld(st, Coin(PoolTokenName(name), 1), "u");
  }

  /** Joining it with one unit of quote goes through and leaves every earlier share with less base. */
  lemma DepositThatDilutesHolders(env: Env)
    requires ValidEnv(env)
    ensures Inv(SmallPool()) && SharesHeld(SmallPool())
    ensures var msg := SmallDeposit(env);
            && ValidMsg(msg) && Add(env, SmallPool(), msg).Done?
            && !BasePerShareKept(SmallPool(), Add(env, SmallPool(), msg).state, PairName("a", "b"))
  {
    SmallPoolIsGood();
    SmallPoolIsHeld();
    SmallDepositGoesThrough(env);
    AddKeepsBaseShareExactly(env, SmallPool(), SmallDeposit(env));
  }

  lemma SmallPoolPays()
    ensures PayAll(SmallPool().ledger, "u", SWAP_ACCOUNT, CoinSort([Coin("b", 1), Coin("a", 1)])).Some?
  {
    assert Less("a", "b");
    SortedTwo(Coin("a", 1), Coin("b", 1));
    PoolTokenNotTradable(PairName("a", "b"));
    PayTwoUnfolds(SmallPool().ledger, "u", SWAP_ACCOUNT, [Coin("a", 1), Coin("b", 1)]);
  }
}
