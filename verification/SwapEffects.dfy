/** What each swap message does to every account, pair and supply, and when it is refused. All of it is
    said of balances, reserves, supplies and the message alone, not of how a handler computes it. */
module SwapEffects {
  import opened Options
  import opened FixedPoint
  import opened Pricing
  import opened Liquidity
  import opened SwapNames
  import opened Swap
  import opened SwapSafety

  // ---------------------------------------------------------------- who gains and who loses

  /** Coins that change hands; no payer means they are minted, no payee that they are burned. */
  datatype Flow = Flow(payer: Option<Account>, payee: Option<Account>, coin: Coin)

  function NetOf(f: Flow, who: Account, denom: string): int {
    if f.coin.denom != denom then 0
    else (if f.payee == Some(who) then f.coin.amount else 0) - (if f.payer == Some(who) then f.coin.amount else 0)
  }

  /** What an account gains of a coin by all the flows. */
  function Net(flows: seq<Flow>, who: Account, denom: string): int {
    if flows == [] then 0 else NetOf(flows[0], who, denom) + Net(flows[1..], who, denom)
  }

  /** Every holding of every account changes by exactly what the flows say. */
  ghost predicate Moves(l: Ledger, l': Ledger, flows: seq<Flow>) {
    forall who: Account, denom: string :: Held(l', who, denom) == Held(l, who, denom) + Net(flows, who, denom)
  }

  function Transfer(payer: Account, payee: Account, c: Coin): Flow {
    Flow(Some(payer), Some(payee), c)
  }

  lemma NetOne(f: Flow, who: Account, denom: string)
    ensures Net([f], who, denom) == NetOf(f, who, denom)
  {
    assert [f][1..] == [];
  }

  lemma NetTwo(f: Flow, g: Flow, who: Account, denom: string)
    ensures Net([f, g], who, denom) == NetOf(f, who, denom) + NetOf(g, who, denom)
  {
    assert [f, g][1..] == [g];
    NetOne(g, who, denom);
  }

  lemma {:induction false} NetConcat(f: seq<Flow>, g: seq<Flow>, who: Account, denom: string)
    ensures Net(f + g, who, denom) == Net(f, who, denom) + Net(g, who, denom)
    decreases |f|
  {
    if f == [] {
      assert f + g == g;
    } else {
      assert (f + g)[1..] == f[1..] + g;
      NetConcat(f[1..], g, who, denom);
    }
  }

  lemma MovesThen(l: Ledger, l1: Ledger, l2: Ledger, f: seq<Flow>, g: seq<Flow>)
    requires Moves(l, l1, f) && Moves(l1, l2, g)
    ensures Moves(l, l2, f + g)
  {
    forall who: Account, denom: string
      ensures Held(l2, who, denom) == Held(l, who, denom) + Net(f + g, who, denom)
    {
      NetConcat(f, g, who, denom);
      assert Held(l1, who, denom) == Held(l, who, denom) + Net(f, who, denom);
    }
  }

  lemma PaidMoves(l: Ledger, payer: Account, payee: Account, c: Coin)
    requires Pay(l, payer, payee, c).Some?
    ensures Moves(l, Pay(l, payer, payee, c).value, [Transfer(payer, payee, c)])
  {
    forall who: Account, denom: string
      ensures Held(Pay(l, payer, payee, c).value, who, denom) == Held(l, who, denom) + Net([Transfer(payer, payee, c)], who, denom)
    {
      NetOne(Transfer(payer, payee, c), who, denom);
    }
  }

  lemma NothingMoves(l: Ledger, f: Flow)
    requires f.coin.amount == 0
    ensures Moves(l, l, [f])
  {
    forall who: Account, denom: string
      ensures Net([f], who, denom) == 0
    {
      NetOne(f, who, denom);
    }
  }

  /** Two coins paid together, zero coins dropped, whichever way round they are listed. */
  lemma BothMove(l: Ledger, payer: Account, payee: Account, base: Coin, quote: Coin)
    requires Less(base.denom, quote.denom) && PayAll(l, payer, payee, CoinSort([base, quote])).Some?
    ensures CoinSort([base, quote]) == CoinSort([quote, base])
    ensures Moves(l, PayAll(l, payer, payee, CoinSort([base, quote])).value, [Transfer(payer, payee, base), Transfer(payer, payee, quote)])
  {
    SortedTwo(base, quote);
    PayTwoUnfolds(l, payer, payee, CoinSort([base, quote]));
    var l2 := PayAll(l, payer, payee, CoinSort([base, quote])).value;
    var l1 := if base.amount == 0 then l else Pay(l, payer, payee, base).value;
    if base.amount == 0 { NothingMoves(l, Transfer(payer, payee, base)); } else { PaidMoves(l, payer, payee, base); }
    if quote.amount == 0 { NothingMoves(l1, Transfer(payer, payee, quote)); } else { PaidMoves(l1, payer, payee, quote); }
    MovesThen(l, l1, l2, [Transfer(payer, payee, base)], [Transfer(payer, payee, quote)]);
    assert [Transfer(payer, payee, base)] + [Transfer(payer, payee, quote)] == [Transfer(payer, payee, base), Transfer(payer, payee, quote)];
  }

  /** It is refused exactly when one of the two coins is not covered. */
  lemma BothCovered(l: Ledger, payer: Account, payee: Account, base: Coin, quote: Coin)
    requires Less(base.denom, quote.denom)
    ensures PayAll(l, payer, payee, CoinSort([base, quote])).Some? <==>
            base.amount <= Held(l, payer, base.denom) && quote.amount <= Held(l, payer, quote.denom)
  {
    LessIsTotal(base.denom, quote.denom);
    SortedTwo(base, quote);
    PayTwoUnfolds(l, payer, payee, CoinSort([base, quote]));
  }

  // ---------------------------------------------------------------- floors and prices

  /** `q` is `n / d` rounded down. */
  predicate IsFloor(q: int, n: int, d: int) {
    q * d <= n < (q + 1) * d
  }

  /** What is left of an input after the fee, in thousandths, rounded down. */
  function AfterFee(env: Env, input: nat): (w: nat)
    requires ValidEnv(env)
    ensures IsFloor(w, input * ((env.precision - env.feeRate) * 1000), env.precision)
  {
    MulLe(0, input, (env.precision - env.feeRate) * 1000);
    DivBounds(input * ((env.precision - env.feeRate) * 1000), env.precision);
    input * ((env.precision - env.feeRate) * 1000) / env.precision
  }

  /** What a sale brings: the constant product after the fee, rounded down once. */
  function PriceOf(env: Env, input: nat, inReserve: nat, outReserve: nat): (out: nat)
    requires ValidEnv(env) && inReserve > 0
    ensures IsFloor(out, AfterFee(env, input) * outReserve, 1000 * inReserve + AfterFee(env, input))
  {
    var w := AfterFee(env, input);
    MulLe(0, w, outReserve);
    DivBounds(w * outReserve, 1000 * inReserve + w);
    w * outReserve / (1000 * inReserve + w)
  }

  lemma BoughtIsPrice(env: Env, pair: Pair, sold: Coin, buy: string)
    requires ValidEnv(env) && !Empty(pair) && TradesFor(pair, sold.denom, buy)
    ensures PooledIn(pair, sold.denom) > 0 && PooledIn(pair, buy) > 0
    ensures TokenToBuy(env, pair, sold, buy).amount == PriceOf(env, sold.amount, PooledIn(pair, sold.denom), PooledIn(pair, buy))
  {
    InputWithFeeIs(env.precision, sold.amount, env.feeRate);
    PriceIsFloor(env.precision, sold.amount, PooledIn(pair, sold.denom), PooledIn(pair, buy), env.feeRate);
  }

  /** A pair of exactly these two coins, the lesser name being its base. */
  predicate TradesFor(pair: Pair, a: string, b: string) {
    if Less(b, a) then a != b && pair.base.denom == b && pair.quote.denom == a
    else a != b && pair.base.denom == a && pair.quote.denom == b
  }

  lemma NamedTrades(st: State, a: string, b: string)
    requires Inv(st) && ValidSwapName(a) && ValidSwapName(b) && PairName(a, b) in st.pairs
    ensures TradesFor(st.pairs[PairName(a, b)], a, b) && PairName(a, b) == PairName(b, a)
    ensures GoodPair(st, PairName(a, b))
  {
    StoredPairIsOfTwo(st, a, b);
    OrderedNames(a, b);
    LessIsTotal(a, b);
    PairNameSymmetric(a, b);
    NamedPair(st, BaseName(a, b), QuoteName(a, b));
  }

  // ---------------------------------------------------------------- creating a pair

  ghost predicate Created(st: State, st': State, msg: Msg)
    requires msg.CreateExchange?
  {
    var name := PairName(msg.token0, msg.token1);
    && name !in st.pairs && st'.pairs.Keys == st.pairs.Keys + {name}
    && (forall n | n in st.pairs :: st'.pairs[n] == st.pairs[n])
    && TradesFor(st'.pairs[name], msg.token0, msg.token1)
    && (forall denom: string :: PooledIn(st'.pairs[name], denom) == 0)
    && st'.pairs[name].poolToken == PoolTokenName(name)
    && st'.tokens == st.tokens[PoolTokenName(name) := PoolShare]
    && st'.supply == st.supply && st'.ledger == st.ledger
  }

  lemma CreateEffect(st: State, msg: Msg)
    requires msg.CreateExchange? && ValidMsg(msg) && Create(st, msg).Done?
    ensures Created(st, Create(st, msg).state, msg)
  {
    LessIsTotal(msg.token0, msg.token1);
  }

  // ---------------------------------------------------------------- joining a pool

  /** The base coin a deposit must bring: all it offers to an empty pool, else its part, at least one unit. */
  predicate BaseDue(pair: Pair, maxBase: nat, quoteIn: nat, b: int) {
    if pair.quote.amount == 0 then b == maxBase
    else if quoteIn * pair.base.amount < pair.quote.amount then b == 1
    else IsFloor(b, quoteIn * pair.base.amount, pair.quote.amount)
  }

  /** The shares it gets: one whole share of an empty pool, else its part of the supply. */
  predicate SharesDue(env: Env, pair: Pair, supply: nat, quoteIn: nat, l: int) {
    if pair.quote.amount == 0 then l == env.precision
    else IsFloor(l, quoteIn * supply, pair.quote.amount)
  }

  /** Both coins go to the pool, and the shares are made for the sender. */
  function DepositFlows(sender: Account, base: Coin, quote: Coin, shares: Coin): seq<Flow> {
    [Transfer(sender, SWAP_ACCOUNT, base), Transfer(sender, SWAP_ACCOUNT, quote)] + [Flow(None, Some(sender), shares)]
  }

  /** The pair and every holding after a deposit of `b` base for `l` shares. */
  ghost predicate DepositedAs(env: Env, st: State, st': State, msg: Msg, b: nat, l: nat)
    requires msg.AddLiquidity?
  {
    var name := PairName(msg.maxBase.denom, msg.quoteIn.denom);
    && name in st.pairs && st'.pairs.Keys == st.pairs.Keys
    && (forall n | n in st.pairs && n != name :: st'.pairs[n] == st.pairs[n])
    && var pair, pair', shares := st.pairs[name], st'.pairs[name], PoolTokenName(name);
       && BaseDue(pair, msg.maxBase.amount, msg.quoteIn.amount, b) && 0 < b <= msg.maxBase.amount
       && SharesDue(env, pair, SupplyOf(st.supply, shares), msg.quoteIn.amount, l) && 0 < l && msg.minLiquidity <= l
       && pair' == Pair(Coin(msg.quoteIn.denom, pair.quote.amount + msg.quoteIn.amount), Coin(msg.maxBase.denom, pair.base.amount + b), shares)
       && st'.tokens == st.tokens && st'.supply == st.supply[shares := SupplyOf(st.supply, shares) + l]
       && Moves(st.ledger, st'.ledger, DepositFlows(msg.sender, Coin(msg.maxBase.denom, b), msg.quoteIn, Coin(shares, l)))
  }

  ghost predicate Deposited(env: Env, st: State, st': State, msg: Msg)
    requires msg.AddLiquidity?
  {
    exists b: nat, l: nat :: DepositedAs(env, st, st', msg, b, l)
  }

  lemma MintMoves(st: State, shares: Coin, user: Account)
    ensures MintToUser(st, shares, user).Done?
    ensures var st' := MintToUser(st, shares, user).state;
            && st'.pairs == st.pairs && st'.tokens == st.tokens
            && st'.supply == st.supply[shares.denom := SupplyOf(st.supply, shares.denom) + shares.amount]
            && Moves(st.ledger, st'.ledger, [Flow(None, Some(user), shares)])
  {
    forall who: Account, denom: string
      ensures Held(MintToUser(st, shares, user).state.ledger, who, denom) == Held(st.ledger, who, denom) + Net([Flow(None, Some(user), shares)], who, denom)
    {
      NetOne(Flow(None, Some(user), shares), who, denom);
    }
  }

  lemma TermsAreDue(env: Env, pair: Pair, supply: nat, maxBase: nat, quoteIn: nat)
    requires ValidEnv(env) && AllOrNothing(pair, supply) && maxBase > 0 && quoteIn > 0
    ensures var t := DepositTerms(env.precision, pair, supply, maxBase, quoteIn);
            && (t.Refused? ==> t.error == ZeroLiquidity && supply > 0 && quoteIn * supply < pair.quote.amount)
            && (t.Accepted? ==> t.base > 0 && t.liquidity > 0 && BaseDue(pair, maxBase, quoteIn, t.base) && SharesDue(env, pair, supply, quoteIn, t.liquidity))
  {
    if supply > 0 {
      MulAndQuoIsFloor(env.precision, quoteIn, pair.base.amount, pair.quote.amount);
      MulAndQuoIsFloor(env.precision, quoteIn, supply, pair.quote.amount);
      DivBounds(quoteIn * pair.base.amount, pair.quote.amount);
      DivBounds(quoteIn * supply, pair.quote.amount);
      if quoteIn * pair.base.amount < pair.quote.amount {
        FloorAtMost(quoteIn * pair.base.amount, pair.quote.amount, 0);
      } else {
        FloorIsGreatest(quoteIn * pair.base.amount, pair.quote.amount, 1);
      }
    }
  }

  lemma DepositMoves(st: State, mid: State, sender: Account, base: Coin, quote: Coin, shares: Coin)
    requires Less(base.denom, quote.denom) && PayAll(st.ledger, sender, SWAP_ACCOUNT, CoinSort([quote, base])) == Some(mid.ledger)
    ensures MintToUser(mid, shares, sender).Done?
    ensures var st' := MintToUser(mid, shares, sender).state;
            && st'.pairs == mid.pairs && st'.tokens == mid.tokens
            && st'.supply == mid.supply[shares.denom := SupplyOf(mid.supply, shares.denom) + shares.amount]
            && Moves(st.ledger, st'.ledger, DepositFlows(sender, base, quote, shares))
  {
    SortedTwo(base, quote);
    BothMove(st.ledger, sender, SWAP_ACCOUNT, base, quote);
    MintMoves(mid, shares, sender);
    MovesThen(st.ledger, mid.ledger, MintToUser(mid, shares, sender).state.ledger,
              [Transfer(sender, SWAP_ACCOUNT, base), Transfer(sender, SWAP_ACCOUNT, quote)], [Flow(None, Some(sender), shares)]);
  }

  /** The terms of a deposit are those of its pair. */
  ghost predicate OnTerms(env: Env, st: State, msg: Msg, base: nat, liquidity: nat)
    requires msg.AddLiquidity?
  {
    var name := PairName(msg.maxBase.denom, msg.quoteIn.denom);
    && name in st.pairs && base > 0 && liquidity > 0
    && var pair, supply := st.pairs[name], SupplyOf(st.supply, PoolTokenName(name));
       && pair.base.denom == msg.maxBase.denom && pair.quote.denom == msg.quoteIn.denom && pair.poolToken == PoolTokenName(name)
       && BaseDue(pair, msg.maxBase.amount, msg.quoteIn.amount, base) && SharesDue(env, pair, supply, msg.quoteIn.amount, liquidity)
  }

  /** A deposit up to the point where coins move. */
  lemma AddUnfolds(env: Env, st: State, msg: Msg) returns (terms: Deposit)
    requires Inv(st) && ValidEnv(env) && msg.AddLiquidity? && ValidMsg(msg)
    requires env.blockTime <= msg.deadline && PairName(msg.maxBase.denom, msg.quoteIn.denom) in st.pairs
    ensures var name := PairName(msg.maxBase.denom, msg.quoteIn.denom);
            terms.Refused? ==>
              && Add(env, st, msg) == Failed(ZeroLiquidity)
              && msg.quoteIn.amount * SupplyOf(st.supply, PoolTokenName(name)) < st.pairs[name].quote.amount
    ensures terms.Accepted? ==>
              OnTerms(env, st, msg, terms.base, terms.liquidity) && Add(env, st, msg) == AddOnTerms(st, msg, terms.base, terms.liquidity)
  {
    NamedPair(st, msg.maxBase.denom, msg.quoteIn.denom);
    var pair := st.pairs[PairName(msg.maxBase.denom, msg.quoteIn.denom)];
    TermsAreDue(env, pair, SupplyOf(st.supply, pair.poolToken), msg.maxBase.amount, msg.quoteIn.amount);
    terms := DepositTerms(env.precision, pair, SupplyOf(st.supply, pair.poolToken), msg.maxBase.amount, msg.quoteIn.amount);
  }

  /** The rest of the handler, once its terms are known. */
  function AddOnTerms(st: State, msg: Msg, base: nat, liquidity: nat): Outcome
    requires msg.AddLiquidity? && PairName(msg.maxBase.denom, msg.quoteIn.denom) in st.pairs
  {
    var name, baseIn := PairName(msg.maxBase.denom, msg.quoteIn.denom), Coin(msg.maxBase.denom, base);
    var pair := st.pairs[name];
    if base > msg.maxBase.amount then Failed(BaseAboveMax)
    else if liquidity < msg.minLiquidity then Failed(LiquidityBelowMin)
    else
      match PayAll(st.ledger, msg.sender, SWAP_ACCOUNT, CoinSort([msg.quoteIn, baseIn]))
      case None => Failed(UserFunds)
      case Some(paid) =>
        match Regrouped(pair, AddCoin(pair.quote, msg.quoteIn), AddCoin(pair.base, baseIn))
        case None => Failed(CoinPanic)
        case Some(pair') =>
          MintToUser(st.(pairs := st.pairs[name := pair'], ledger := paid), Coin(pair.poolToken, liquidity), msg.sender)
  }

  lemma AddOnTermsEffect(env: Env, st: State, msg: Msg, base: nat, liquidity: nat)
    requires msg.AddLiquidity? && ValidMsg(msg) && OnTerms(env, st, msg, base, liquidity)
    requires AddOnTerms(st, msg, base, liquidity).Done?
    ensures DepositedAs(env, st, AddOnTerms(st, msg, base, liquidity).state, msg, base, liquidity)
  {
    var name, baseIn := PairName(msg.maxBase.denom, msg.quoteIn.denom), Coin(msg.maxBase.denom, base);
    var pair := st.pairs[name];
    var paid := PayAll(st.ledger, msg.sender, SWAP_ACCOUNT, CoinSort([msg.quoteIn, baseIn])).value;
    var pair' := Regrouped(pair, AddCoin(pair.quote, msg.quoteIn), AddCoin(pair.base, baseIn)).value;
    DepositMoves(st, st.(pairs := st.pairs[name := pair'], ledger := paid), msg.sender, baseIn, msg.quoteIn, Coin(pair.poolToken, liquidity));
  }

  lemma AddEffects(env: Env, st: State, msg: Msg)
    requires Inv(st) && ValidEnv(env) && msg.AddLiquidity? && ValidMsg(msg)
    ensures Add(env, st, msg).Done? ==> Deposited(env, st, Add(env, st, msg).state, msg)
  {
    if Add(env, st, msg).Done? {
      var terms := AddUnfolds(env, st, msg);
      AddOnTermsEffect(env, st, msg, terms.base, terms.liquidity);
    }
  }

  // ---------------------------------------------------------------- leaving a pool

  /** The part of a reserve that `shares` of all shares stand for, rounded down. */
  predicate PartOf(r: int, reserve: nat, shares: nat, supply: nat) {
    0 < shares <= supply && 0 <= r <= reserve && IsFloor(r, reserve * shares, supply)
  }

  /** Both coins leave the pool, and the sender's shares vanish. */
  function RedeemFlows(sender: Account, base: Coin, quote: Coin, shares: Coin): seq<Flow> {
    [Transfer(SWAP_ACCOUNT, sender, base), Transfer(SWAP_ACCOUNT, sender, quote)] + [Flow(Some(sender), None, shares)]
  }

  /** The pair and every holding after the shares were redeemed for `b` base and `q` quote. */
  ghost predicate RedeemedAs(st: State, st': State, msg: Msg, b: nat, q: nat)
    requires msg.RemoveLiquidity?
  {
    var name := PairName(msg.minBase.denom, msg.minQuote.denom);
    && name in st.pairs && st'.pairs.Keys == st.pairs.Keys
    && (forall n | n in st.pairs && n != name :: st'.pairs[n] == st.pairs[n])
    && var pair, pair', shares := st.pairs[name], st'.pairs[name], PoolTokenName(name);
       && PartOf(b, pair.base.amount, msg.liquidity, SupplyOf(st.supply, shares)) && msg.minBase.amount <= b
       && PartOf(q, pair.quote.amount, msg.liquidity, SupplyOf(st.supply, shares)) && msg.minQuote.amount <= q
       && pair' == Pair(Coin(msg.minQuote.denom, pair.quote.amount - q), Coin(msg.minBase.denom, pair.base.amount - b), shares)
       && st'.tokens == st.tokens && st'.supply == st.supply[shares := SupplyOf(st.supply, shares) - msg.liquidity]
       && Moves(st.ledger, st'.ledger, RedeemFlows(msg.sender, Coin(msg.minBase.denom, b), Coin(msg.minQuote.denom, q), Coin(shares, msg.liquidity)))
  }

  ghost predicate Redeemed(st: State, st': State, msg: Msg)
    requires msg.RemoveLiquidity?
  {
    exists b: nat, q: nat :: RedeemedAs(st, st', msg, b, q)
  }

  lemma BurnMoves(st: State, shares: Coin, user: Account)
    requires BurnFromUser(st, shares, user).Done?
    ensures var st' := BurnFromUser(st, shares, user).state;
            && st'.pairs == st.pairs && st'.tokens == st.tokens && shares.amount <= SupplyOf(st.supply, shares.denom)
            && st'.supply == st.supply[shares.denom := SupplyOf(st.supply, shares.denom) - shares.amount]
            && Moves(st.ledger, st'.ledger, [Flow(Some(user), None, shares)])
  {
    var st' := BurnFromUser(st, shares, user).state;
    forall who: Account, denom: string
      ensures Held(st'.ledger, who, denom) == Held(st.ledger, who, denom) + Net([Flow(Some(user), None, shares)], who, denom)
    {
      NetOne(Flow(Some(user), None, shares), who, denom);
    }
  }

  /** A redemption is the proportional part of each reserve, rounded down. */
  lemma RedemptionIsPart(env: Env, pair: Pair, liquidity: nat, supply: nat)
    requires ValidEnv(env) && 0 < liquidity <= supply && AllOrNothing(pair, supply)
    ensures var r := RedemptionOf(env.precision, pair, liquidity, supply);
            PartOf(r.base, pair.base.amount, liquidity, supply) && PartOf(r.quote, pair.quote.amount, liquidity, supply)
  {
    MulAndQuoIsFloor(env.precision, pair.base.amount, liquidity, supply);
    MulAndQuoIsFloor(env.precision, pair.quote.amount, liquidity, supply);
    DivBounds(pair.base.amount * liquidity, supply);
    DivBounds(pair.quote.amount * liquidity, supply);
    RedeemBound(env.precision, pair.base.amount, liquidity, supply);
    RedeemBound(env.precision, pair.quote.amount, liquidity, supply);
  }

  lemma RedeemMoves(st: State, mid: State, sender: Account, base: Coin, quote: Coin, shares: Coin)
    requires Less(base.denom, quote.denom) && PayAll(st.ledger, SWAP_ACCOUNT, sender, CoinSort([base, quote])) == Some(mid.ledger)
    requires BurnFromUser(mid, shares, sender).Done?
    ensures var st' := BurnFromUser(mid, shares, sender).state;
            && st'.pairs == mid.pairs && st'.tokens == mid.tokens && shares.amount <= SupplyOf(mid.supply, shares.denom)
            && st'.supply == mid.supply[shares.denom := SupplyOf(mid.supply, shares.denom) - shares.amount]
            && Moves(st.ledger, st'.ledger, RedeemFlows(sender, base, quote, shares))
  {
    BothMove(st.ledger, SWAP_ACCOUNT, sender, base, quote);
    BurnMoves(mid, shares, sender);
    MovesThen(st.ledger, mid.ledger, BurnFromUser(mid, shares, sender).state.ledger,
              [Transfer(SWAP_ACCOUNT, sender, base), Transfer(SWAP_ACCOUNT, sender, quote)], [Flow(Some(sender), None, shares)]);
  }

  lemma RemoveEffects(env: Env, st: State, msg: Msg)
    requires Inv(st) && ValidEnv(env) && msg.RemoveLiquidity? && ValidMsg(msg)
    ensures Remove(env, st, msg).Done? ==> Redeemed(st, Remove(env, st, msg).state, msg)
  {
    if Remove(env, st, msg).Done? {
      var name := PairName(msg.minBase.denom, msg.minQuote.denom);
      NamedPair(st, msg.minBase.denom, msg.minQuote.denom);
      var pair := st.pairs[name];
      var supply := SupplyOf(st.supply, pair.poolToken);
      RedemptionIsPart(env, pair, msg.liquidity, supply);
      var r := RedemptionOf(env.precision, pair, msg.liquidity, supply);
      var baseOut, quoteOut := Coin(pair.base.denom, r.base), Coin(pair.quote.denom, r.quote);
      var paid := PayAll(st.ledger, SWAP_ACCOUNT, msg.sender, CoinSort([baseOut, quoteOut])).value;
      var pair' := Regrouped(pair, SubCoin(pair.quote, quoteOut), SubCoin(pair.base, baseOut)).value;
      RedeemMoves(st, st.(pairs := st.pairs[name := pair'], ledger := paid), msg.sender, baseOut, quoteOut, Coin(pair.poolToken, msg.liquidity));
      assert RedeemedAs(st, Remove(env, st, msg).state, msg, r.base, r.quote);
    }
  }

  // ---------------------------------------------------------------- swapping

  /** A pair after a sale into it that brought `out`, at its price. */
  predicate SoldInto(env: Env, pair: Pair, pair': Pair, sold: Coin, buy: string, out: nat)
    requires ValidEnv(env)
  {
    && TradesFor(pair, sold.denom, buy) && TradesFor(pair', sold.denom, buy) && pair'.poolToken == pair.poolToken
    && PooledIn(pair, sold.denom) > 0 && out == PriceOf(env, sold.amount, PooledIn(pair, sold.denom), PooledIn(pair, buy))
    && PooledIn(pair', sold.denom) == PooledIn(pair, sold.denom) + sold.amount
    && PooledIn(pair', buy) == PooledIn(pair, buy) - out
    && out > 0
  }

  /** What is sold goes to the pool, what is bought comes from it. */
  function SaleFlows(sender: Account, recipient: Account, sold: Coin, bought: Coin): seq<Flow> {
    [Transfer(sender, SWAP_ACCOUNT, sold), Transfer(SWAP_ACCOUNT, recipient, bought)]
  }

  ghost predicate SwappedDirectly(env: Env, st: State, st': State, msg: Msg, out: nat)
    requires ValidEnv(env) && msg.TokenToToken?
  {
    var name, buy := PairName(msg.minBought.denom, msg.sold.denom), msg.minBought.denom;
    && name in st.pairs && st'.pairs.Keys == st.pairs.Keys && st'.tokens == st.tokens && st'.supply == st.supply
    && (forall n | n in st.pairs && n != name :: st'.pairs[n] == st.pairs[n])
    && SoldInto(env, st.pairs[name], st'.pairs[name], msg.sold, buy, out) && msg.minBought.amount <= out
    && Moves(st.ledger, st'.ledger, SaleFlows(msg.sender, msg.recipient, msg.sold, Coin(buy, out)))
  }

  /** Through the native token: the first sale brings `native`, all of which is sold on. */
  ghost predicate SwappedByRoute(env: Env, st: State, st': State, msg: Msg, native: nat, out: nat)
    requires ValidEnv(env) && msg.TokenToToken?
  {
    var name1, name2, buy := PairName(msg.sold.denom, env.native), PairName(msg.minBought.denom, env.native), msg.minBought.denom;
    && PairName(msg.minBought.denom, msg.sold.denom) !in st.pairs
    && name1 in st.pairs && name2 in st.pairs && name1 != name2
    && st'.pairs.Keys == st.pairs.Keys && st'.tokens == st.tokens && st'.supply == st.supply
    && (forall n | n in st.pairs && n != name1 && n != name2 :: st'.pairs[n] == st.pairs[n])
    && SoldInto(env, st.pairs[name1], st'.pairs[name1], msg.sold, env.native, native)
    && SoldInto(env, st.pairs[name2], st'.pairs[name2], Coin(env.native, native), buy, out) && msg.minBought.amount <= out
    && Moves(st.ledger, st'.ledger,
             SaleFlows(msg.sender, msg.recipient, msg.sold, Coin(env.native, native))
             + SaleFlows(msg.sender, msg.recipient, Coin(env.native, native), Coin(buy, out)))
  }

  ghost predicate Swapped(env: Env, st: State, st': State, msg: Msg)
    requires ValidEnv(env) && msg.TokenToToken?
  {
    || (exists out: nat :: SwappedDirectly(env, st, st', msg, out))
    || (exists native: nat, out: nat :: SwappedByRoute(env, st, st', msg, native, out))
  }

  lemma ExchangeMoves(st: State, pair: Pair, bought: Coin, msg: Msg)
    requires msg.TokenToToken? && Exchange(st, pair, bought, msg).Done?
    ensures Moves(st.ledger, Exchange(st, pair, bought, msg).state.ledger, SaleFlows(msg.sender, msg.recipient, msg.sold, bought))
  {
    PaidMoves(st.ledger, msg.sender, SWAP_ACCOUNT, msg.sold);
    var collected := Pay(st.ledger, msg.sender, SWAP_ACCOUNT, msg.sold).value;
    PaidMoves(collected, SWAP_ACCOUNT, msg.recipient, bought);
    var f, g := [Transfer(msg.sender, SWAP_ACCOUNT, msg.sold)], [Transfer(SWAP_ACCOUNT, msg.recipient, bought)];
    MovesThen(st.ledger, collected, Exchange(st, pair, bought, msg).state.ledger, f, g);
    assert f + g == SaleFlows(msg.sender, msg.recipient, msg.sold, bought);
  }

  /** One leg: the pair moves along its price. */
  lemma ExchangeSells(env: Env, st: State, pair: Pair, msg: Msg)
    requires ValidEnv(env) && msg.TokenToToken? && !Empty(pair) && TradesFor(pair, msg.sold.denom, msg.minBought.denom)
    requires TokenToBuy(env, pair, msg.sold, msg.minBought.denom).amount > 0
    requires Exchange(st, pair, TokenToBuy(env, pair, msg.sold, msg.minBought.denom), msg).Done?
    ensures var bought := TokenToBuy(env, pair, msg.sold, msg.minBought.denom);
            var st' := Exchange(st, pair, bought, msg).state;
            var name := PairName(msg.minBought.denom, msg.sold.denom);
            name in st'.pairs && SoldInto(env, pair, st'.pairs[name], msg.sold, msg.minBought.denom, bought.amount)
  {
    BoughtIsPrice(env, pair, msg.sold, msg.minBought.denom);
  }

  lemma DirectEffects(env: Env, st: State, msg: Msg)
    requires Inv(st) && ValidEnv(env) && msg.TokenToToken? && ValidMsg(msg) && SwapDirect(env, st, msg).Done?
    ensures Swapped(env, st, SwapDirect(env, st, msg).state, msg)
  {
    var name, buy := PairName(msg.minBought.denom, msg.sold.denom), msg.minBought.denom;
    LessIsTotal(buy, msg.sold.denom);
    NamedTrades(st, msg.sold.denom, buy);
    var pair := st.pairs[name];
    var bought := TokenToBuy(env, pair, msg.sold, buy);
    ExchangeFrame(st, pair, bought, msg);
    ExchangeMoves(st, pair, bought, msg);
    ExchangeSells(env, st, pair, msg);
    assert SwappedDirectly(env, st, SwapDirect(env, st, msg).state, msg, bought.amount);
  }

  lemma RoutedEffects(env: Env, st: State, msg: Msg)
    requires Inv(st) && ValidEnv(env) && msg.TokenToToken? && ValidMsg(msg) && SwapRouted(env, st, msg).Done?
    requires PairName(msg.minBought.denom, msg.sold.denom) !in st.pairs
    ensures Swapped(env, st, SwapRouted(env, st, msg).state, msg)
  {
    var name1, name2, buy := PairName(msg.sold.denom, env.native), PairName(msg.minBought.denom, env.native), msg.minBought.denom;
    LessIsTotal(buy, msg.sold.denom);
    LegsAreSwaps(env, st, msg);
    NamedTrades(st, msg.sold.denom, env.native);
    NamedTrades(st, buy, env.native);
    var leg1 := msg.(minBought := Coin(env.native, 0));
    var native := TokenToBuy(env, st.pairs[name1], msg.sold, env.native);
    var st1 := Exchange(st, st.pairs[name1], native, leg1).state;
    FlipTrades(st.pairs[name2], buy, env.native);
    RouteLegs(env, st, msg, native, st1);
  }

  lemma FlipTrades(pair: Pair, a: string, b: string)
    requires TradesFor(pair, a, b)
    ensures TradesFor(pair, b, a)
  {
    LessIsTotal(a, b);
  }

  lemma RouteLegs(env: Env, st: State, msg: Msg, native: Coin, st1: State)
    requires ValidEnv(env) && msg.TokenToToken? && SwapRouted(env, st, msg).Done?
    requires PairName(msg.minBought.denom, msg.sold.denom) !in st.pairs
    requires PairName(env.native, msg.sold.denom) == PairName(msg.sold.denom, env.native) != PairName(msg.minBought.denom, env.native)
    requires TradesFor(st.pairs[PairName(msg.sold.denom, env.native)], msg.sold.denom, env.native)
    requires TradesFor(st.pairs[PairName(msg.minBought.denom, env.native)], env.native, msg.minBought.denom)
    requires native == TokenToBuy(env, st.pairs[PairName(msg.sold.denom, env.native)], msg.sold, env.native)
    requires Exchange(st, st.pairs[PairName(msg.sold.denom, env.native)], native, msg.(minBought := Coin(env.native, 0))) == Done(st1)
    ensures Swapped(env, st, SwapRouted(env, st, msg).state, msg)
  {
    var pair1, pair2 := st.pairs[PairName(msg.sold.denom, env.native)], st.pairs[PairName(msg.minBought.denom, env.native)];
    var leg1, leg2 := msg.(minBought := Coin(env.native, 0)), msg.(sold := native);
    var bought := TokenToBuy(env, pair2, native, msg.minBought.denom);
    var st2 := Exchange(st1, pair2, bought, leg2).state;
    ExchangeFrame(st, pair1, native, leg1);
    ExchangeFrame(st1, pair2, bought, leg2);
    ExchangeSells(env, st, pair1, leg1);
    ExchangeSells(env, st1, pair2, leg2);
    ExchangeMoves(st, pair1, native, leg1);
    ExchangeMoves(st1, pair2, bought, leg2);
    MovesThen(st.ledger, st1.ledger, st2.ledger,
              SaleFlows(msg.sender, msg.recipient, msg.sold, native), SaleFlows(msg.sender, msg.recipient, native, bought));
    assert SwappedByRoute(env, st, st2, msg, native.amount, bought.amount);
  }

  lemma SwapTokensEffects(env: Env, st: State, msg: Msg)
    requires Inv(st) && ValidEnv(env) && msg.TokenToToken? && ValidMsg(msg)
    ensures SwapTokens(env, st, msg).Done? ==> Swapped(env, st, SwapTokens(env, st, msg).state, msg)
  {
    if SwapTokens(env, st, msg).Done? {
      if PairName(msg.minBought.denom, msg.sold.denom) in st.pairs {
        DirectEffects(env, st, msg);
      } else {
        RoutedEffects(env, st, msg);
      }
    }
  }
}
