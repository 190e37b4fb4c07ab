/** What the effects of swap messages mean for the accounts: who gains, who pays, and that nothing else
    moves. */
module SwapAccounts {
  import opened Options
  import opened SwapNames
  import opened Swap
  import opened SwapSafety
  import opened SwapEffects

  /** What a message that goes through leaves behind. */
  ghost predicate Effect(env: Env, st: State, st': State, msg: Msg)
    requires ValidEnv(env)
  {
    match msg
    case CreateExchange(_, _, _) => Created(st, st', msg)
    case AddLiquidity(_, _, _, _, _) => Deposited(env, st, st', msg)
    case RemoveLiquidity(_, _, _, _, _) => Redeemed(st, st', msg)
    case TokenToToken(_, _, _, _, _) => Swapped(env, st, st', msg)
  }

  lemma HandleEffects(env: Env, st: State, msg: Msg)
    requires Inv(st) && ValidEnv(env) && ValidMsg(msg) && Handle(env, st, msg).Done?
    ensures Effect(env, st, Handle(env, st, msg).state, msg)
  {
    match msg
    case CreateExchange(_, _, _) => CreateEffect(st, msg);
    case AddLiquidity(_, _, _, _, _) => AddEffects(env, st, msg);
    case RemoveLiquidity(_, _, _, _, _) => RemoveEffects(env, st, msg);
    case TokenToToken(_, _, _, _, _) => SwapTokensEffects(env, st, msg);
  }

  // ---------------------------------------------------------------- what follows for accounts

  /** What the module account holds of a coin beyond what the pairs claim. */
  ghost function Surplus(st: State, denom: string): int {
    Held(st.ledger, SWAP_ACCOUNT, denom) - Pooled(st.pairs, denom)
  }

  /** The module account's holding of every coin changes by exactly the change of all reserves of it. */
  ghost predicate SurplusKept(st: State, st': State) {
    forall denom: string :: Surplus(st', denom) == Surplus(st, denom)
  }

  lemma NetThree(f: Flow, g: Flow, h: Flow, who: Account, denom: string)
    ensures Net([f, g] + [h], who, denom) == NetOf(f, who, denom) + NetOf(g, who, denom) + NetOf(h, who, denom)
  {
    NetConcat([f, g], [h], who, denom);
    NetTwo(f, g, who, denom);
    NetOne(h, who, denom);
  }

  /** One pair was rewritten; the module account moved as it did. */
  lemma OnePairSurplus(st: State, st': State, name: string, denom: string)
    requires name in st'.pairs && st'.pairs == st.pairs[name := st'.pairs[name]]
    requires Held(st'.ledger, SWAP_ACCOUNT, denom) - Held(st.ledger, SWAP_ACCOUNT, denom)
          == PooledIn(st'.pairs[name], denom) - (if name in st.pairs then PooledIn(st.pairs[name], denom) else 0)
    ensures Surplus(st', denom) == Surplus(st, denom)
  {
    PooledUpdated(st.pairs, name, st'.pairs[name], denom);
  }

  lemma DepositSurplus(env: Env, st: State, st': State, msg: Msg, b: nat, l: nat)
    requires Inv(st) && msg.AddLiquidity? && ValidMsg(msg) && msg.sender != SWAP_ACCOUNT && DepositedAs(env, st, st', msg, b, l)
    ensures SurplusKept(st, st')
  {
    var name := PairName(msg.maxBase.denom, msg.quoteIn.denom);
    NamedPair(st, msg.maxBase.denom, msg.quoteIn.denom);
    assert st'.pairs == st.pairs[name := st'.pairs[name]];
    forall denom: string
      ensures Surplus(st', denom) == Surplus(st, denom)
    {
      NetThree(Transfer(msg.sender, SWAP_ACCOUNT, Coin(msg.maxBase.denom, b)), Transfer(msg.sender, SWAP_ACCOUNT, msg.quoteIn),
               Flow(None, Some(msg.sender), Coin(PoolTokenName(name), l)), SWAP_ACCOUNT, denom);
      OnePairSurplus(st, st', name, denom);
    }
  }

  lemma RedeemSurplus(st: State, st': State, msg: Msg, b: nat, q: nat)
    requires Inv(st) && msg.RemoveLiquidity? && ValidMsg(msg) && msg.sender != SWAP_ACCOUNT && RedeemedAs(st, st', msg, b, q)
    ensures SurplusKept(st, st')
  {
    var name := PairName(msg.minBase.denom, msg.minQuote.denom);
    NamedPair(st, msg.minBase.denom, msg.minQuote.denom);
    assert st'.pairs == st.pairs[name := st'.pairs[name]];
    forall denom: string
      ensures Surplus(st', denom) == Surplus(st, denom)
    {
      NetThree(Transfer(SWAP_ACCOUNT, msg.sender, Coin(msg.minBase.denom, b)), Transfer(SWAP_ACCOUNT, msg.sender, Coin(msg.minQuote.denom, q)),
               Flow(Some(msg.sender), None, Coin(PoolTokenName(name), msg.liquidity)), SWAP_ACCOUNT, denom);
      OnePairSurplus(st, st', name, denom);
    }
  }

  /** What a sale into a pair does to what it holds, coin by coin. */
  lemma SoldIntoNets(env: Env, pair: Pair, pair': Pair, sold: Coin, buy: string, out: nat, sender: Account, recipient: Account, denom: string)
    requires ValidEnv(env) && SoldInto(env, pair, pair', sold, buy, out) && sender != SWAP_ACCOUNT && recipient != SWAP_ACCOUNT
    ensures PooledIn(pair', denom) - PooledIn(pair, denom) == Net(SaleFlows(sender, recipient, sold, Coin(buy, out)), SWAP_ACCOUNT, denom)
  {
    NetTwo(Transfer(sender, SWAP_ACCOUNT, sold), Transfer(SWAP_ACCOUNT, recipient, Coin(buy, out)), SWAP_ACCOUNT, denom);
  }

  lemma DirectSurplus(env: Env, st: State, st': State, msg: Msg, out: nat)
    requires ValidEnv(env) && msg.TokenToToken? && SwappedDirectly(env, st, st', msg, out)
    requires msg.sender != SWAP_ACCOUNT && msg.recipient != SWAP_ACCOUNT
    ensures SurplusKept(st, st')
  {
    var name := PairName(msg.minBought.denom, msg.sold.denom);
    assert st'.pairs == st.pairs[name := st'.pairs[name]];
    forall denom: string
      ensures Surplus(st', denom) == Surplus(st, denom)
    {
      SoldIntoNets(env, st.pairs[name], st'.pairs[name], msg.sold, msg.minBought.denom, out, msg.sender, msg.recipient, denom);
      OnePairSurplus(st, st', name, denom);
    }
  }

  lemma RouteSurplus(env: Env, st: State, st': State, msg: Msg, native: nat, out: nat)
    requires ValidEnv(env) && msg.TokenToToken? && SwappedByRoute(env, st, st', msg, native, out)
    requires msg.sender != SWAP_ACCOUNT && msg.recipient != SWAP_ACCOUNT
    ensures SurplusKept(st, st')
  {
    var name1, name2 := PairName(msg.sold.denom, env.native), PairName(msg.minBought.denom, env.native);
    var mid := st.pairs[name1 := st'.pairs[name1]];
    assert st'.pairs == mid[name2 := st'.pairs[name2]];
    var f, g := SaleFlows(msg.sender, msg.recipient, msg.sold, Coin(env.native, native)),
                SaleFlows(msg.sender, msg.recipient, Coin(env.native, native), Coin(msg.minBought.denom, out));
    forall denom: string
      ensures Surplus(st', denom) == Surplus(st, denom)
    {
      NetConcat(f, g, SWAP_ACCOUNT, denom);
      SoldIntoNets(env, st.pairs[name1], st'.pairs[name1], msg.sold, env.native, native, msg.sender, msg.recipient, denom);
      SoldIntoNets(env, st.pairs[name2], st'.pairs[name2], Coin(env.native, native), msg.minBought.denom, out, msg.sender, msg.recipient, denom);
      PooledUpdated(st.pairs, name1, st'.pairs[name1], denom);
      PooledUpdated(mid, name2, st'.pairs[name2], denom);
    }
  }

  lemma CreateSurplus(st: State, st': State, msg: Msg)
    requires msg.CreateExchange? && Created(st, st', msg)
    ensures SurplusKept(st, st')
  {
    var name := PairName(msg.token0, msg.token1);
    assert st'.pairs == st.pairs[name := st'.pairs[name]];
    forall denom: string
      ensures Surplus(st', denom) == Surplus(st, denom)
    {
      OnePairSurplus(st, st', name, denom);
    }
  }

  /** No message, whether deposit, withdrawal, swap or new pair, leaves the module account with more or
      less beyond what the pairs claim, unless it sends the proceeds to that account itself. */
  lemma EffectKeepsSurplus(env: Env, st: State, st': State, msg: Msg)
    requires Inv(st) && ValidEnv(env) && ValidMsg(msg) && msg.sender != SWAP_ACCOUNT && Effect(env, st, st', msg)
    requires msg.TokenToToken? ==> msg.recipient != SWAP_ACCOUNT
    ensures SurplusKept(st, st')
  {
    match msg
    case CreateExchange(_, _, _) => CreateSurplus(st, st', msg);
    case AddLiquidity(_, _, _, _, _) =>
      var b: nat, l: nat :| DepositedAs(env, st, st', msg, b, l);
      DepositSurplus(env, st, st', msg, b, l);
    case RemoveLiquidity(_, _, _, _, _) =>
      var b: nat, q: nat :| RedeemedAs(st, st', msg, b, q);
      RedeemSurplus(st, st', msg, b, q);
    case TokenToToken(_, _, _, _, _) =>
      if out: nat :| SwappedDirectly(env, st, st', msg, out) {
        DirectSurplus(env, st, st', msg, out);
      } else {
        var native: nat, out: nat :| SwappedByRoute(env, st, st', msg, native, out);
        RouteSurplus(env, st, st', msg, native, out);
      }
  }

  /** What one account holds of one coin grew by `change`. */
  predicate Gains(st: State, st': State, who: Account, denom: string, change: int) {
    Held(st'.ledger, who, denom) == Held(st.ledger, who, denom) + change
  }

  /** Nobody but these and the module account gains or loses anything. */
  ghost predicate OthersKeep(st: State, st': State, parties: set<Account>) {
    forall who: Account, denom: string {:trigger Held(st'.ledger, who, denom)} | who !in parties && who != SWAP_ACCOUNT ::
      Held(st'.ledger, who, denom) == Held(st.ledger, who, denom)
  }

  /** A depositor's shares grow by exactly what the supply does; the module account keeps none of them. */
  ghost predicate DepositorPaid(st: State, st': State, msg: Msg)
    requires msg.AddLiquidity?
  {
    var shares := PoolTokenName(PairName(msg.maxBase.denom, msg.quoteIn.denom));
    && Gains(st, st', msg.sender, shares, SupplyOf(st'.supply, shares) - SupplyOf(st.supply, shares))
    && Gains(st, st', SWAP_ACCOUNT, shares, 0)
    && SupplyOf(st.supply, shares) < SupplyOf(st'.supply, shares)
    && Gains(st, st', msg.sender, msg.quoteIn.denom, 0 - msg.quoteIn.amount)
    && OthersKeep(st, st', {msg.sender})
  }

  lemma DepositorGetsShares(env: Env, st: State, st': State, msg: Msg)
    requires Inv(st) && msg.AddLiquidity? && ValidMsg(msg) && msg.sender != SWAP_ACCOUNT && Deposited(env, st, st', msg)
    ensures DepositorPaid(st, st', msg)
  {
    var b: nat, l: nat :| DepositedAs(env, st, st', msg, b, l);
    var name := PairName(msg.maxBase.denom, msg.quoteIn.denom);
    var shares := PoolTokenName(name);
    PoolTokenNotTradable(name);
    LessIsTotal(msg.maxBase.denom, msg.quoteIn.denom);
    var f, g := Transfer(msg.sender, SWAP_ACCOUNT, Coin(msg.maxBase.denom, b)), Transfer(msg.sender, SWAP_ACCOUNT, msg.quoteIn);
    var h := Flow(None, Some(msg.sender), Coin(shares, l));
    NetThree(f, g, h, msg.sender, shares);
    NetThree(f, g, h, SWAP_ACCOUNT, shares);
    NetThree(f, g, h, msg.sender, msg.quoteIn.denom);
    forall who: Account, denom: string | who != msg.sender && who != SWAP_ACCOUNT
      ensures Held(st'.ledger, who, denom) == Held(st.ledger, who, denom)
    {
      NetThree(f, g, h, who, denom);
    }
  }

  /** A withdrawal pays its sender, of each coin, exactly what the reserve falls by: the part of it that
      the shares are of the supply, rounded down. */
  ghost predicate HolderPaid(st: State, st': State, msg: Msg)
    requires msg.RemoveLiquidity?
  {
    var name := PairName(msg.minBase.denom, msg.minQuote.denom);
    && name in st.pairs && name in st'.pairs && OthersKeep(st, st', {msg.sender})
    && var pair, pair', supply := st.pairs[name], st'.pairs[name], SupplyOf(st.supply, PoolTokenName(name));
       && PartOf(pair.base.amount - pair'.base.amount, pair.base.amount, msg.liquidity, supply)
       && PartOf(pair.quote.amount - pair'.quote.amount, pair.quote.amount, msg.liquidity, supply)
       && Gains(st, st', msg.sender, msg.minBase.denom, pair.base.amount - pair'.base.amount)
       && Gains(st, st', msg.sender, msg.minQuote.denom, pair.quote.amount - pair'.quote.amount)
       && Gains(st, st', msg.sender, PoolTokenName(name), 0 - msg.liquidity)
  }

  lemma HolderGetsPart(st: State, st': State, msg: Msg)
    requires Inv(st) && msg.RemoveLiquidity? && ValidMsg(msg) && msg.sender != SWAP_ACCOUNT && Redeemed(st, st', msg)
    ensures HolderPaid(st, st', msg)
  {
    var b: nat, q: nat :| RedeemedAs(st, st', msg, b, q);
    var name := PairName(msg.minBase.denom, msg.minQuote.denom);
    var shares := PoolTokenName(name);
    PoolTokenNotTradable(name);
    LessIsTotal(msg.minBase.denom, msg.minQuote.denom);
    var f, g := Transfer(SWAP_ACCOUNT, msg.sender, Coin(msg.minBase.denom, b)), Transfer(SWAP_ACCOUNT, msg.sender, Coin(msg.minQuote.denom, q));
    var h := Flow(Some(msg.sender), None, Coin(shares, msg.liquidity));
    NetThree(f, g, h, msg.sender, msg.minBase.denom);
    NetThree(f, g, h, msg.sender, msg.minQuote.denom);
    NetThree(f, g, h, msg.sender, shares);
    forall who: Account, denom: string | who != msg.sender && who != SWAP_ACCOUNT
      ensures Held(st'.ledger, who, denom) == Held(st.ledger, who, denom)
    {
      NetThree(f, g, h, who, denom);
    }
  }

  lemma SaleNets(sender: Account, recipient: Account, sold: Coin, bought: Coin, who: Account, denom: string)
    requires sender != SWAP_ACCOUNT && sold.denom != bought.denom
    ensures Net(SaleFlows(sender, recipient, sold, bought), sender, sold.denom) == 0 - sold.amount
    ensures denom != sold.denom && denom != bought.denom ==> Net(SaleFlows(sender, recipient, sold, bought), who, denom) == 0
    ensures who != sender && who != recipient && who != SWAP_ACCOUNT ==> Net(SaleFlows(sender, recipient, sold, bought), who, denom) == 0
    ensures recipient != SWAP_ACCOUNT && recipient != sender ==> Net(SaleFlows(sender, recipient, sold, bought), recipient, bought.denom) == bought.amount
  {
    var f, g := Transfer(sender, SWAP_ACCOUNT, sold), Transfer(SWAP_ACCOUNT, recipient, bought);
    NetTwo(f, g, sender, sold.denom);
    NetTwo(f, g, who, denom);
    NetTwo(f, g, recipient, bought.denom);
  }

  /** A swap takes exactly what is sold from its sender, directly or through the native token, and touches
      nobody but sender, recipient and module account. */
  ghost predicate SellerPaid(st: State, st': State, msg: Msg)
    requires msg.TokenToToken?
  {
    && Gains(st, st', msg.sender, msg.sold.denom, 0 - msg.sold.amount)
    && OthersKeep(st, st', {msg.sender, msg.recipient})
    && (msg.recipient != SWAP_ACCOUNT ==> SurplusKept(st, st'))
  }

  lemma SenderGivesWhatIsSold(env: Env, st: State, st': State, msg: Msg)
    requires Inv(st) && ValidEnv(env) && msg.TokenToToken? && ValidMsg(msg) && msg.sender != SWAP_ACCOUNT && Swapped(env, st, st', msg)
    ensures Gains(st, st', msg.sender, msg.sold.denom, 0 - msg.sold.amount)
    ensures OthersKeep(st, st', {msg.sender, msg.recipient})
  {
    LessIsTotal(msg.sold.denom, msg.minBought.denom);
    if out: nat :| SwappedDirectly(env, st, st', msg, out) {
      SaleNets(msg.sender, msg.recipient, msg.sold, Coin(msg.minBought.denom, out), msg.sender, msg.sold.denom);
      forall who: Account, denom: string | who !in {msg.sender, msg.recipient} && who != SWAP_ACCOUNT
        ensures Held(st'.ledger, who, denom) == Held(st.ledger, who, denom)
      {
        SaleNets(msg.sender, msg.recipient, msg.sold, Coin(msg.minBought.denom, out), who, denom);
      }
    } else {
      var native: nat, out: nat :| SwappedByRoute(env, st, st', msg, native, out);
      RouteTakesWhatIsSold(env, st, st', msg, native, out);
    }
  }

  lemma RouteTakesWhatIsSold(env: Env, st: State, st': State, msg: Msg, native: nat, out: nat)
    requires Inv(st) && ValidEnv(env) && msg.TokenToToken? && ValidMsg(msg) && msg.sender != SWAP_ACCOUNT
    requires SwappedByRoute(env, st, st', msg, native, out)
    ensures Gains(st, st', msg.sender, msg.sold.denom, 0 - msg.sold.amount)
    ensures OthersKeep(st, st', {msg.sender, msg.recipient})
  {
    LegsAreSwaps(env, st, msg);
    var m, bought := Coin(env.native, native), Coin(msg.minBought.denom, out);
    RouteNets(msg.sender, msg.recipient, msg.sold, m, bought, msg.sender, msg.sold.denom);
    forall who: Account, denom: string | who !in {msg.sender, msg.recipient} && who != SWAP_ACCOUNT
      ensures Held(st'.ledger, who, denom) == Held(st.ledger, who, denom)
    {
      RouteNets(msg.sender, msg.recipient, msg.sold, m, bought, who, denom);
    }
  }

  lemma RouteNets(sender: Account, recipient: Account, sold: Coin, native: Coin, bought: Coin, who: Account, denom: string)
    requires sender != SWAP_ACCOUNT && sold.denom != native.denom && native.denom != bought.denom && sold.denom != bought.denom
    ensures var flows := SaleFlows(sender, recipient, sold, native) + SaleFlows(sender, recipient, native, bought);
            && Net(flows, sender, sold.denom) == 0 - sold.amount
            && (who != sender && who != recipient && who != SWAP_ACCOUNT ==> Net(flows, who, denom) == 0)
  {
    var f, g := SaleFlows(sender, recipient, sold, native), SaleFlows(sender, recipient, native, bought);
    NetConcat(f, g, sender, sold.denom);
    NetConcat(f, g, who, denom);
    SaleNets(sender, recipient, sold, native, who, denom);
    SaleNets(sender, recipient, native, bought, who, denom);
    SaleNets(sender, recipient, native, bought, sender, sold.denom);
  }
}
