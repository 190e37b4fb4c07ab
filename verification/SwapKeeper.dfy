/** The handlers as code: state is read, coins are moved and the pair is written back one step after
    the other (x/ammswap/handler.go, x/ammswap/keeper/keeper.go). */
module SwapKeeper {
  import opened Options
  import opened SwapNames
  import opened Swap
  import opened SwapSafety
  import opened SwapShares
  import opened SwapTrading
  import opened SwapEffects
  import opened SwapRefusals
  import opened SwapAccounts

  function Positives(coins: seq<Coin>): seq<Coin> {
    if coins == [] then []
    else if coins[0].amount == 0 then Positives(coins[1..])
    else [coins[0]] + Positives(coins[1..])
  }

  lemma {:induction false} PositivesSnoc(coins: seq<Coin>, c: Coin)
    ensures Positives(coins + [c]) == Positives(coins) + (if c.amount == 0 then [] else [c])
    decreases |coins|
  {
    if coins == [] {
      assert coins + [c] == [c] && [c][1..] == [];
    } else {
      assert (coins + [c])[1..] == coins[1..] + [c];
      PositivesSnoc(coins[1..], c);
    }
  }

  lemma {:induction false} SortingPositives(coins: seq<Coin>)
    ensures CoinSort(Positives(coins)) == CoinSort(coins)
    decreases |coins|
  {
    if coins != [] {
      SortingPositives(coins[1..]);
      if coins[0].amount != 0 {
        assert Positives(coins)[1..] == Positives(coins[1..]);
      }
    }
  }

  predicate Ordered(coins: seq<Coin>) {
    forall i, j | 0 <= i < j < |coins| :: !Less(coins[j].denom, coins[i].denom)
  }

  lemma {:induction false} InsertOrders(c: Coin, sorted: seq<Coin>)
    requires Ordered(sorted)
    ensures Ordered(InsertCoin(c, sorted))
    ensures multiset(InsertCoin(c, sorted)) == multiset{c} + multiset(sorted)
    decreases |sorted|
  {
    if sorted == [] {
    } else if Less(c.denom, sorted[0].denom) {
      LessIsTotal(c.denom, sorted[0].denom);
      forall j | 0 <= j < |sorted|
        ensures !Less(sorted[j].denom, c.denom)
      {
        if j > 0 { LessTransitive(c.denom, sorted[0].denom, sorted[j].denom); }
      }
    } else {
      InsertOrders(c, sorted[1..]);
      var rest := InsertCoin(c, sorted[1..]);
      assert sorted == [sorted[0]] + sorted[1..];
      forall j | 0 <= j < |rest|
        ensures !Less(rest[j].denom, sorted[0].denom)
      {
        assert rest[j] in multiset(rest);
        assert rest[j] == c || rest[j] in sorted[1..];
      }
    }
  }

  /** What `coinSort` promises: the coins above zero, each as often as it was given, ordered by name. */
  lemma {:induction false} CoinSortSorts(coins: seq<Coin>)
    ensures Ordered(CoinSort(coins)) && multiset(CoinSort(coins)) == multiset(Positives(coins))
    decreases |coins|
  {
    if coins != [] {
      CoinSortSorts(coins[1..]);
      if coins[0].amount != 0 {
        InsertOrders(coins[0], CoinSort(coins[1..]));
      }
    }
  }

  /** The loop of `coinSort`. */
  method KeepPositives(coins: seq<Coin>) returns (kept: seq<Coin>)
    ensures kept == Positives(coins)
  {
    kept := [];
    for i := 0 to |coins|
      invariant kept == Positives(coins[..i])
    {
      PositivesSnoc(coins[..i], coins[i]);
      assert coins[..i + 1] == coins[..i] + [coins[i]];
      if coins[i].amount > 0 {
        kept := kept + [coins[i]];
      }
    }
    assert coins[..|coins|] == coins;
  }

  /** The library's sort, by insertion. */
  method InsertionSort(coins: seq<Coin>) returns (sorted: seq<Coin>)
    requires forall i | 0 <= i < |coins| :: coins[i].amount > 0
    ensures sorted == CoinSort(coins)
  {
    sorted := [];
    var i := |coins|;
    while i > 0
      invariant 0 <= i <= |coins|
      invariant sorted == CoinSort(coins[i..])
    {
      i := i - 1;
      assert coins[i..][1..] == coins[i + 1..];
      sorted := InsertCoin(coins[i], sorted);
    }
    assert coins[0..] == coins;
  }

  /** `coinSort` keeps the coins worth sending, sorted by name. */
  method SortCoins(coins: seq<Coin>) returns (sorted: seq<Coin>)
    ensures Ordered(sorted) && multiset(sorted) == multiset(Positives(coins))
    ensures sorted == CoinSort(coins)
  {
    var kept := KeepPositives(coins);
    AllPositive(coins);
    sorted := InsertionSort(kept);
    SortingPositives(coins);
    CoinSortSorts(coins);
  }

  lemma {:induction false} AllPositive(coins: seq<Coin>)
    ensures forall i | 0 <= i < |Positives(coins)| :: Positives(coins)[i].amount > 0
    decreases |coins|
  {
    if coins != [] {
      AllPositive(coins[1..]);
    }
  }

  /** What every handler keeps: the pools are covered and named, reserves and shares vanish together,
      and all shares are in somebody's account. */
  ghost predicate Sound(st: State) {
    Inv(st) && SharesHeld(st)
  }

  /** A message any account but the module's own may send. */
  predicate Sendable(msg: Msg) {
    ValidMsg(msg) && msg.sender != SWAP_ACCOUNT
  }

  /** An outcome that keeps the state sound, or fails for a reason its sender can see. */
  ghost predicate Proper(o: Outcome) {
    match o
    case Done(st) => Sound(st)
    case Failed(e) => !Impossible(e)
  }

  lemma HandledProperly(env: Env, st: State, msg: Msg)
    requires Sound(st) && ValidEnv(env) && Sendable(msg)
    ensures Proper(Handle(env, st, msg)) && Sound(Deliver(env, st, msg))
  {
    HandleSafe(env, st, msg);
    DeliverKeepsSharesHeld(env, st, msg);
  }

  lemma CreatedProperly(st: State, msg: Msg)
    requires Sound(st) && msg.CreateExchange? && Sendable(msg)
    ensures Proper(Create(st, msg))
    ensures Create(st, msg).Done? ==> Created(st, Create(st, msg).state, msg)
  {
    CreateSafe(st, msg);
    if Create(st, msg).Done? { CreateEffect(st, msg); }
    if Create(st, msg).Done? {
      forall name: string
        ensures Gap(Create(st, msg).state, PoolTokenName(name)) == 0
      {
        assert Gap(st, PoolTokenName(name)) == 0;
      }
    }
  }

  lemma AddedProperly(env: Env, st: State, msg: Msg)
    requires Sound(st) && ValidEnv(env) && msg.AddLiquidity? && Sendable(msg)
    ensures Proper(Add(env, st, msg))
    ensures Add(env, st, msg).Done? ==>
      var st', name := Add(env, st, msg).state, PairName(msg.maxBase.denom, msg.quoteIn.denom);
      QuotePerShareKept(st, st', name) && BaseShareLossBelowOne(st, st', name)
    ensures Justified(env, st, msg, Add(env, st, msg))
    ensures Add(env, st, msg).Done? ==>
      Deposited(env, st, Add(env, st, msg).state, msg) && DepositorPaid(st, Add(env, st, msg).state, msg) && SurplusKept(st, Add(env, st, msg).state)
  {
    HandledProperly(env, st, msg);
    HandleJustified(env, st, msg);
    if Add(env, st, msg).Done? {
      var st' := Add(env, st, msg).state;
      AddKeepsShares(env, st, msg);
      HandleEffects(env, st, msg);
      DepositorGetsShares(env, st, st', msg);
      EffectKeepsSurplus(env, st, st', msg);
    }
  }

  /** A holder redeeming what they hold is paid unless the message's own limits say otherwise. */
  lemma RemovedProperly(env: Env, st: State, msg: Msg)
    requires Sound(st) && ValidEnv(env) && msg.RemoveLiquidity? && Sendable(msg)
    ensures Proper(Remove(env, st, msg))
    ensures Remove(env, st, msg).Done? ==>
      var st', name := Remove(env, st, msg).state, PairName(msg.minBase.denom, msg.minQuote.denom);
      QuotePerShareKept(st, st', name) && BasePerShareKept(st, st', name)
    ensures msg.liquidity <= SharesOf(st, msg) ==>
      (Remove(env, st, msg).Done? <==> env.blockTime <= msg.deadline && MinimumsMet(st, msg))
    ensures Justified(env, st, msg, Remove(env, st, msg))
    ensures Remove(env, st, msg).Done? ==>
      Redeemed(st, Remove(env, st, msg).state, msg) && HolderPaid(st, Remove(env, st, msg).state, msg) && SurplusKept(st, Remove(env, st, msg).state)
  {
    HandledProperly(env, st, msg);
    HandleJustified(env, st, msg);
    if Remove(env, st, msg).Done? {
      var st' := Remove(env, st, msg).state;
      RemoveKeepsShares(env, st, msg);
      HandleEffects(env, st, msg);
      HolderGetsPart(st, st', msg);
      EffectKeepsSurplus(env, st, st', msg);
    }
    if msg.liquidity <= SharesOf(st, msg) { HolderCanRedeem(env, st, msg); }
  }

  /** The shares the sender of a withdrawal holds. */
  function SharesOf(st: State, msg: Msg): nat
    requires msg.RemoveLiquidity?
  {
    Held(st.ledger, msg.sender, PoolTokenName(PairName(msg.minBase.denom, msg.minQuote.denom)))
  }

  lemma SwappedProperly(env: Env, st: State, msg: Msg)
    requires Sound(st) && ValidEnv(env) && msg.TokenToToken? && Sendable(msg)
    ensures Proper(SwapTokens(env, st, msg))
    ensures SwapTokens(env, st, msg).Done? ==> ProductsKept(st, SwapTokens(env, st, msg).state) && Delivered(env, st, SwapTokens(env, st, msg).state, msg)
    ensures Justified(env, st, msg, SwapTokens(env, st, msg))
    ensures SwapTokens(env, st, msg).Done? ==>
      Swapped(env, st, SwapTokens(env, st, msg).state, msg) && SellerPaid(st, SwapTokens(env, st, msg).state, msg)
  {
    HandledProperly(env, st, msg);
    HandleJustified(env, st, msg);
    if SwapTokens(env, st, msg).Done? {
      HandleEffects(env, st, msg);
      SenderGivesWhatIsSold(env, st, SwapTokens(env, st, msg).state, msg);
      if msg.recipient != SWAP_ACCOUNT { EffectKeepsSurplus(env, st, SwapTokens(env, st, msg).state, msg); }
      DirectKeepsProducts(env, st, msg);
      RoutedKeepsProducts(env, st, msg);
      if msg.recipient != SWAP_ACCOUNT { QueryPredictsSwap(env, st, msg); }
    }
  }

  /** The recipient got what the query promised on the state before, and at least the minimum. */
  predicate Delivered(env: Env, st: State, st': State, msg: Msg)
    requires ValidEnv(env) && msg.TokenToToken?
  {
    msg.recipient != SWAP_ACCOUNT ==>
      var quoted := QueryBuyAmount(env, st, msg.sold, msg.minBought.denom);
      && quoted.Some? && quoted.value >= msg.minBought.amount
      && Held(st'.ledger, msg.recipient, msg.minBought.denom) == Held(st.ledger, msg.recipient, msg.minBought.denom) + quoted.value
  }

  class Keeper {
    var pairs: map<string, Pair>
    var tokens: map<string, TokenKind>
    var supply: map<string, nat>
    var ledger: Ledger

    ghost function View(): State
      reads this
    {
      State(pairs, tokens, supply, ledger)
    }

    ghost predicate Valid()
      reads this
    {
      Sound(View())
    }

    constructor (tokens: map<string, TokenKind>, supply: map<string, nat>, ledger: Ledger)
      requires Initial(State(map[], tokens, supply, ledger))
      ensures View() == State(map[], tokens, supply, ledger) && Valid()
    {
      this.pairs, this.tokens, this.supply, this.ledger := map[], tokens, supply, ledger;
      var st := State(map[], tokens, supply, ledger);
      ReachableStatesAreSafe([st], 0);
      SharesAlwaysHeld([st], 0);
    }

    // -------------------------------------------------------------- coin helpers

    method SendCoins(payer: Account, payee: Account, coins: seq<Coin>) returns (ok: bool)
      modifies `ledger
      ensures ok == PayAll(old(ledger), payer, payee, coins).Some?
      ensures ok ==> ledger == PayAll(old(ledger), payer, payee, coins).value
    {
      ok := true;
      for i := 0 to |coins|
        invariant PayAll(old(ledger), payer, payee, coins) == PayAll(ledger, payer, payee, coins[i..])
        invariant ok
      {
        assert coins[i..][1..] == coins[i + 1..] && coins[i..][0] == coins[i];
        var held := Held(ledger, payer, coins[i].denom);
        if held < coins[i].amount {
          ok := false;
          return;
        }
        ledger := ledger[(payer, coins[i].denom) := held - coins[i].amount];
        ledger := Credit(ledger, payee, coins[i]);
      }
    }

    method MintPoolCoinsToUser(shares: Coin, user: Account) returns (err: Option<Error>)
      modifies `supply, `ledger
      ensures MintToUser(old(View()), shares, user) == if err.None? then Done(View()) else Failed(err.value)
    {
      ledger := Credit(ledger, SWAP_ACCOUNT, shares);
      supply := supply[shares.denom := SupplyOf(supply, shares.denom) + shares.amount];
      var sent := Pay(ledger, SWAP_ACCOUNT, user, shares);
      if sent.None? {
        return Some(PoolFunds);
      }
      ledger := sent.value;
      return None;
    }

    method BurnPoolCoinsFromUser(shares: Coin, user: Account) returns (err: Option<Error>)
      modifies `supply, `ledger
      ensures BurnFromUser(old(View()), shares, user) == if err.None? then Done(View()) else Failed(err.value)
    {
      var collected := Pay(ledger, user, SWAP_ACCOUNT, shares);
      if collected.None? {
        return Some(UserFunds);
      }
      ledger := collected.value;
      var held := Held(ledger, SWAP_ACCOUNT, shares.denom);
      var total := SupplyOf(supply, shares.denom);
      if held < shares.amount || total < shares.amount {
        return Some(PoolFunds);
      }
      ledger := ledger[(SWAP_ACCOUNT, shares.denom) := held - shares.amount];
      supply := supply[shares.denom := total - shares.amount];
      return None;
    }

    // -------------------------------------------------------------- handlers

    method HandleMsgCreateExchange(msg: Msg) returns (err: Option<Error>)
      requires Valid() && msg.CreateExchange? && Sendable(msg)
      modifies this
      ensures err.None? ==> Valid()
      ensures err.Some? ==> !Impossible(err.value) && CreateHindered(old(View()), msg, err.value)
      ensures err.None? ==> forall e: Error :: !CreateHindered(old(View()), msg, e)
      ensures err.None? ==> Created(old(View()), View(), msg)
      ensures Create(old(View()), msg) == if err.None? then Done(View()) else Failed(err.value)
    {
      CreatedProperly(View(), msg);
      if msg.token0 !in tokens || tokens[msg.token0].PoolShare? {
        return Some(TokenMissing);
      }
      if msg.token1 !in tokens || tokens[msg.token1].PoolShare? {
        return Some(TokenMissing);
      }
      var name := PairName(msg.token0, msg.token1);
      if name in pairs {
        return Some(PairExists);
      }
      var poolToken := PoolTokenName(name);
      if poolToken in tokens {
        return Some(PoolTokenExists);
      }
      tokens := tokens[poolToken := PoolShare];
      pairs := pairs[name := Pair(Coin(QuoteName(msg.token0, msg.token1), 0), Coin(BaseName(msg.token0, msg.token1), 0), poolToken)];
      return None;
    }

    method JoinPool(env: Env, msg: Msg) returns (err: Option<Error>)
      requires ValidEnv(env) && msg.AddLiquidity?
      modifies this
      ensures Add(env, old(View()), msg) == if err.None? then Done(View()) else Failed(err.value)
    {
      if msg.deadline < env.blockTime {
        return Some(DeadlinePassed);
      }
      var name := PairName(msg.maxBase.denom, msg.quoteIn.denom);
      if name !in pairs {
        return Some(PairMissing);
      }
      var pair := pairs[name];
      if pair.poolToken !in tokens {
        return Some(PoolTokenMissing);
      }
      var terms := DepositTerms(env.precision, pair, SupplyOf(supply, pair.poolToken), msg.maxBase.amount, msg.quoteIn.amount);
      if terms.Refused? {
        return Some(terms.error);
      }
      if terms.base > msg.maxBase.amount {
        return Some(BaseAboveMax);
      }
      if terms.liquidity < msg.minLiquidity {
        return Some(LiquidityBelowMin);
      }
      var baseIn := Coin(msg.maxBase.denom, terms.base);
      var coins := SortCoins([msg.quoteIn, baseIn]);
      var sent := SendCoins(msg.sender, SWAP_ACCOUNT, coins);
      if !sent {
        return Some(UserFunds);
      }
      var regrouped := Regrouped(pair, AddCoin(pair.quote, msg.quoteIn), AddCoin(pair.base, baseIn));
      if regrouped.None? {
        return Some(CoinPanic);
      }
      pairs := pairs[name := regrouped.value];
      err := MintPoolCoinsToUser(Coin(pair.poolToken, terms.liquidity), msg.sender);
    }

    method HandleMsgAddLiquidity(env: Env, msg: Msg) returns (err: Option<Error>)
      requires Valid() && ValidEnv(env) && msg.AddLiquidity? && Sendable(msg)
      modifies this
      ensures err.None? ==> Valid()
      ensures err.Some? ==> !Impossible(err.value)
      ensures err.None? ==>
        var name := PairName(msg.maxBase.denom, msg.quoteIn.denom);
        QuotePerShareKept(old(View()), View(), name) && BaseShareLossBelowOne(old(View()), View(), name)
      ensures err.None? ==>
        Deposited(env, old(View()), View(), msg) && DepositorPaid(old(View()), View(), msg) && SurplusKept(old(View()), View())
      ensures Justified(env, old(View()), msg, if err.None? then Done(View()) else Failed(err.value))
      ensures Add(env, old(View()), msg) == if err.None? then Done(View()) else Failed(err.value)
    {
      AddedProperly(env, View(), msg);
      err := JoinPool(env, msg);
    }

    method LeavePool(env: Env, msg: Msg) returns (err: Option<Error>)
      requires ValidEnv(env) && msg.RemoveLiquidity? && ValidMsg(msg)
      modifies this
      ensures Remove(env, old(View()), msg) == if err.None? then Done(View()) else Failed(err.value)
    {
      if msg.deadline < env.blockTime {
        return Some(DeadlinePassed);
      }
      var name := PairName(msg.minBase.denom, msg.minQuote.denom);
      if name !in pairs {
        return Some(PairMissing);
      }
      var pair := pairs[name];
      var total := SupplyOf(supply, pair.poolToken);
      if total < msg.liquidity {
        return Some(SupplyBelowLiquidity);
      }
      var redeemed := RedemptionOf(env.precision, pair, msg.liquidity, total);
      var baseOut := Coin(pair.base.denom, redeemed.base);
      var quoteOut := Coin(pair.quote.denom, redeemed.quote);
      if baseOut.denom != msg.minBase.denom || quoteOut.denom != msg.minQuote.denom {
        return Some(CoinPanic);
      }
      if baseOut.amount < msg.minBase.amount {
        return Some(BaseBelowMin);
      }
      if quoteOut.amount < msg.minQuote.amount {
        return Some(QuoteBelowMin);
      }
      var coins := SortCoins([baseOut, quoteOut]);
      var sent := SendCoins(SWAP_ACCOUNT, msg.sender, coins);
      if !sent {
        return Some(PoolFunds);
      }
      var regrouped := Regrouped(pair, SubCoin(pair.quote, quoteOut), SubCoin(pair.base, baseOut));
      if regrouped.None? {
        return Some(CoinPanic);
      }
      pairs := pairs[name := regrouped.value];
      err := BurnPoolCoinsFromUser(Coin(pair.poolToken, msg.liquidity), msg.sender);
    }

    method HandleMsgRemoveLiquidity(env: Env, msg: Msg) returns (err: Option<Error>)
      requires Valid() && ValidEnv(env) && msg.RemoveLiquidity? && Sendable(msg)
      modifies this
      ensures err.None? ==> Valid()
      ensures err.Some? ==> !Impossible(err.value)
      ensures err.None? ==>
        var name := PairName(msg.minBase.denom, msg.minQuote.denom);
        QuotePerShareKept(old(View()), View(), name) && BasePerShareKept(old(View()), View(), name)
      ensures msg.liquidity <= SharesOf(old(View()), msg) ==>
        (err.None? <==> env.blockTime <= msg.deadline && MinimumsMet(old(View()), msg))
      ensures err.None? ==>
        Redeemed(old(View()), View(), msg) && HolderPaid(old(View()), View(), msg) && SurplusKept(old(View()), View())
      ensures Justified(env, old(View()), msg, if err.None? then Done(View()) else Failed(err.value))
      ensures Remove(env, old(View()), msg) == if err.None? then Done(View()) else Failed(err.value)
    {
      RemovedProperly(env, View(), msg);
      err := LeavePool(env, msg);
    }

    /** `swapTokenNativeToken`. */
    method ExchangeCoins(pair: Pair, bought: Coin, msg: Msg) returns (err: Option<Error>)
      requires msg.TokenToToken?
      modifies this
      ensures Exchange(old(View()), pair, bought, msg) == if err.None? then Done(View()) else Failed(err.value)
    {
      var collected := Pay(ledger, msg.sender, SWAP_ACCOUNT, msg.sold);
      if collected.None? {
        return Some(UserFunds);
      }
      ledger := collected.value;
      var paid := Pay(ledger, SWAP_ACCOUNT, msg.recipient, bought);
      if paid.None? {
        return Some(PoolFunds);
      }
      ledger := paid.value;
      var updated := pair;
      if Less(msg.minBought.denom, msg.sold.denom) {
        var quote, base := AddCoin(pair.quote, msg.sold), SubCoin(pair.base, bought);
        if quote.None? || base.None? {
          return Some(CoinPanic);
        }
        updated := updated.(quote := quote.value, base := base.value);
      } else {
        var quote, base := SubCoin(pair.quote, bought), AddCoin(pair.base, msg.sold);
        if quote.None? || base.None? {
          return Some(CoinPanic);
        }
        updated := updated.(quote := quote.value, base := base.value);
      }
      pairs := pairs[PairName(msg.minBought.denom, msg.sold.denom) := updated];
      return None;
    }

    method SwapToken(env: Env, msg: Msg) returns (err: Option<Error>)
      requires ValidEnv(env) && msg.TokenToToken?
      modifies this
      ensures SwapDirect(env, old(View()), msg) == if err.None? then Done(View()) else Failed(err.value)
    {
      if Held(ledger, msg.sender, msg.sold.denom) < msg.sold.amount {
        return Some(UserFunds);
      }
      if msg.deadline < env.blockTime {
        return Some(DeadlinePassed);
      }
      var name := PairName(msg.minBought.denom, msg.sold.denom);
      if name !in pairs {
        return Some(PairMissing);
      }
      var pair := pairs[name];
      if Empty(pair) {
        return Some(ZeroReserve);
      }
      var bought := TokenToBuy(env, pair, msg.sold, msg.minBought.denom);
      if bought.amount == 0 {
        return Some(ZeroBought);
      }
      if bought.amount < msg.minBought.amount {
        return Some(BoughtBelowMin);
      }
      err := ExchangeCoins(pair, bought, msg);
    }

    method SwapTokenByRouter(env: Env, msg: Msg) returns (err: Option<Error>)
      requires ValidEnv(env) && msg.TokenToToken?
      modifies this
      ensures SwapRouted(env, old(View()), msg) == if err.None? then Done(View()) else Failed(err.value)
    {
      if msg.deadline < env.blockTime {
        return Some(DeadlinePassed);
      }
      if Held(ledger, msg.sender, msg.sold.denom) < msg.sold.amount {
        return Some(UserFunds);
      }
      var name1 := PairName(msg.sold.denom, env.native);
      if name1 !in pairs {
        return Some(PairMissing);
      }
      var pair1 := pairs[name1];
      if Empty(pair1) {
        return Some(ZeroReserve);
      }
      var name2 := PairName(msg.minBought.denom, env.native);
      if name2 !in pairs {
        return Some(PairMissing);
      }
      var pair2 := pairs[name2];
      if Empty(pair2) {
        return Some(ZeroReserve);
      }
      var leg1 := msg.(minBought := Coin(env.native, 0));
      var nativeBought := TokenToBuy(env, pair1, leg1.sold, leg1.minBought.denom);
      if nativeBought.amount == 0 {
        return Some(ZeroBought);
      }
      var leg2 := msg.(sold := nativeBought);
      var bought := TokenToBuy(env, pair2, leg2.sold, leg2.minBought.denom);
      if bought.amount == 0 {
        return Some(ZeroBought);
      }
      if bought.amount < msg.minBought.amount {
        return Some(BoughtBelowMin);
      }
      err := ExchangeCoins(pair1, nativeBought, leg1);
      if err.None? {
        err := ExchangeCoins(pair2, bought, leg2);
      }
    }

    method HandleMsgTokenToToken(env: Env, msg: Msg) returns (err: Option<Error>)
      requires Valid() && ValidEnv(env) && msg.TokenToToken? && Sendable(msg)
      modifies this
      ensures err.None? ==> Valid()
      ensures err.Some? ==> !Impossible(err.value)
      ensures err.None? ==> ProductsKept(old(View()), View()) && Delivered(env, old(View()), View(), msg)
      ensures err.None? ==> Swapped(env, old(View()), View(), msg) && SellerPaid(old(View()), View(), msg)
      ensures Justified(env, old(View()), msg, if err.None? then Done(View()) else Failed(err.value))
      ensures SwapTokens(env, old(View()), msg) == if err.None? then Done(View()) else Failed(err.value)
    {
      SwappedProperly(env, View(), msg);
      if PairName(msg.minBought.denom, msg.sold.denom) in pairs {
        err := SwapToken(env, msg);
      } else {
        err := SwapTokenByRouter(env, msg);
      }
    }

    method Dispatch(env: Env, msg: Msg) returns (err: Option<Error>)
      requires Valid() && ValidEnv(env) && Sendable(msg)
      modifies this
      ensures Handle(env, old(View()), msg) == if err.None? then Done(View()) else Failed(err.value)
    {
      match msg {
        case CreateExchange(_, _, _) => err := HandleMsgCreateExchange(msg);
        case AddLiquidity(_, _, _, _, _) => err := HandleMsgAddLiquidity(env, msg);
        case RemoveLiquidity(_, _, _, _, _) => err := HandleMsgRemoveLiquidity(env, msg);
        case TokenToToken(_, _, _, _, _) => err := HandleMsgTokenToToken(env, msg);
      }
    }

    /** One transaction: whatever a failing handler had already changed is undone. */
    method DeliverTx(env: Env, msg: Msg) returns (err: Option<Error>)
      requires Valid() && ValidEnv(env) && Sendable(msg)
      modifies this
      ensures Valid()
      ensures err.Some? ==> View() == old(View()) && !Impossible(err.value)
      ensures forall denom: string :: Gap(View(), denom) == Gap(old(View()), denom)
      ensures err.None? ==> Effect(env, old(View()), View(), msg)
      ensures Justified(env, old(View()), msg, if err.None? then Done(View()) else Failed(err.value))
      ensures View() == Deliver(env, old(View()), msg)
      ensures err.None? <==> Handle(env, old(View()), msg).Done?
      ensures err.Some? ==> Handle(env, old(View()), msg) == Failed(err.value)
    {
      HandledProperly(env, View(), msg);
      HandleJustified(env, View(), msg);
      if Handle(env, View(), msg).Done? { HandleEffects(env, View(), msg); }
      forall denom: string
        ensures Gap(Deliver(env, View(), msg), denom) == Gap(View(), denom)
      {
        DeliverConserves(env, View(), msg, denom);
      }
      var pairs0, tokens0, supply0, ledger0 := pairs, tokens, supply, ledger;
      err := Dispatch(env, msg);
      if err.Some? {
        pairs, tokens, supply, ledger := pairs0, tokens0, supply0, ledger0;
      }
    }
  }
}
