/** Pool shares are neither lost nor made up: what all accounts hold of them is what was minted, so a
    holder can always redeem what they hold. */
module SwapShares {
  import opened Options
  import opened SwapNames
  import opened Swap
  import opened SwapSafety
  import opened SwapRefusals
  import Sums

  // ---------------------------------------------------------------- payments conserve

  lemma HoldingsSet(l: Ledger, who: Account, d: string, amount: nat, denom: string)
    ensures Holdings(l[(who, d) := amount], denom) == Holdings(l, denom) + (if d == denom then amount - Held(l, who, d) else 0)
  {
    if d == denom {
      assert HoldingsOf(l[(who, d) := amount], denom) == HoldingsOf(l, denom)[(who, d) := amount];
      Sums.SumUpdated(HoldingsOf(l, denom), (who, d), amount);
    } else {
      assert HoldingsOf(l[(who, d) := amount], denom) == HoldingsOf(l, denom);
    }
  }

  lemma CreditAdds(l: Ledger, who: Account, c: Coin, denom: string)
    ensures Holdings(Credit(l, who, c), denom) == Holdings(l, denom) + (if c.denom == denom then c.amount else 0)
  {
    HoldingsSet(l, who, c.denom, Held(l, who, c.denom) + c.amount, denom);
  }

  lemma PayConserves(l: Ledger, payer: Account, payee: Account, c: Coin, denom: string)
    requires Pay(l, payer, payee, c).Some?
    ensures Holdings(Pay(l, payer, payee, c).value, denom) == Holdings(l, denom)
  {
    var held := Held(l, payer, c.denom);
    HoldingsSet(l, payer, c.denom, held - c.amount, denom);
    CreditAdds(l[(payer, c.denom) := held - c.amount], payee, c, denom);
  }

  lemma {:induction false} PayAllConserves(l: Ledger, payer: Account, payee: Account, coins: seq<Coin>, denom: string)
    requires PayAll(l, payer, payee, coins).Some?
    ensures Holdings(PayAll(l, payer, payee, coins).value, denom) == Holdings(l, denom)
    decreases |coins|
  {
    if coins != [] {
      PayConserves(l, payer, payee, coins[0], denom);
      PayAllConserves(Pay(l, payer, payee, coins[0]).value, payer, payee, coins[1..], denom);
    }
  }

  /** How much more of a coin is recorded as minted than is held. */
  ghost function Gap(st: State, denom: string): int {
    SupplyOf(st.supply, denom) - Holdings(st.ledger, denom)
  }

  lemma MintKeepsGap(st: State, shares: Coin, user: Account, denom: string)
    ensures MintToUser(st, shares, user).Done? ==> Gap(MintToUser(st, shares, user).state, denom) == Gap(st, denom)
  {
    var minted := Credit(st.ledger, SWAP_ACCOUNT, shares);
    CreditAdds(st.ledger, SWAP_ACCOUNT, shares, denom);
    if Pay(minted, SWAP_ACCOUNT, user, shares).Some? {
      PayConserves(minted, SWAP_ACCOUNT, user, shares, denom);
    }
  }

  lemma BurnKeepsGap(st: State, shares: Coin, user: Account, denom: string)
    ensures BurnFromUser(st, shares, user).Done? ==> Gap(BurnFromUser(st, shares, user).state, denom) == Gap(st, denom)
  {
    if BurnFromUser(st, shares, user).Done? {
      PayConserves(st.ledger, user, SWAP_ACCOUNT, shares, denom);
      var paid := Pay(st.ledger, user, SWAP_ACCOUNT, shares).value;
      HoldingsSet(paid, SWAP_ACCOUNT, shares.denom, Held(paid, SWAP_ACCOUNT, shares.denom) - shares.amount, denom);
    }
  }

  // ---------------------------------------------------------------- messages conserve

  lemma AddKeepsGap(env: Env, st: State, msg: Msg, denom: string)
    requires ValidEnv(env) && msg.AddLiquidity?
    ensures Add(env, st, msg).Done? ==> Gap(Add(env, st, msg).state, denom) == Gap(st, denom)
  {
    if Add(env, st, msg).Done? {
      var name := PairName(msg.maxBase.denom, msg.quoteIn.denom);
      var pair := st.pairs[name];
      var terms := DepositTerms(env.precision, pair, SupplyOf(st.supply, pair.poolToken), msg.maxBase.amount, msg.quoteIn.amount);
      var baseIn := Coin(msg.maxBase.denom, terms.base);
      var coins := CoinSort([msg.quoteIn, baseIn]);
      PayAllConserves(st.ledger, msg.sender, SWAP_ACCOUNT, coins, denom);
      var paid := PayAll(st.ledger, msg.sender, SWAP_ACCOUNT, coins).value;
      var pair' := Regrouped(pair, AddCoin(pair.quote, msg.quoteIn), AddCoin(pair.base, baseIn)).value;
      MintKeepsGap(st.(pairs := st.pairs[name := pair'], ledger := paid), Coin(pair.poolToken, terms.liquidity), msg.sender, denom);
    }
  }

  lemma RemoveKeepsGap(env: Env, st: State, msg: Msg, denom: string)
    requires ValidEnv(env) && msg.RemoveLiquidity? && msg.liquidity > 0
    ensures Remove(env, st, msg).Done? ==> Gap(Remove(env, st, msg).state, denom) == Gap(st, denom)
  {
    if Remove(env, st, msg).Done? {
      var name := PairName(msg.minBase.denom, msg.minQuote.denom);
      var pair := st.pairs[name];
      var r := RedemptionOf(env.precision, pair, msg.liquidity, SupplyOf(st.supply, pair.poolToken));
      var baseOut, quoteOut := Coin(pair.base.denom, r.base), Coin(pair.quote.denom, r.quote);
      var coins := CoinSort([baseOut, quoteOut]);
      PayAllConserves(st.ledger, SWAP_ACCOUNT, msg.sender, coins, denom);
      var paid := PayAll(st.ledger, SWAP_ACCOUNT, msg.sender, coins).value;
      var pair' := Regrouped(pair, SubCoin(pair.quote, quoteOut), SubCoin(pair.base, baseOut)).value;
      BurnKeepsGap(st.(pairs := st.pairs[name := pair'], ledger := paid), Coin(pair.poolToken, msg.liquidity), msg.sender, denom);
    }
  }

  lemma ExchangeKeepsGap(st: State, pair: Pair, bought: Coin, msg: Msg, denom: string)
    requires msg.TokenToToken?
    ensures Exchange(st, pair, bought, msg).Done? ==> Gap(Exchange(st, pair, bought, msg).state, denom) == Gap(st, denom)
  {
    if Exchange(st, pair, bought, msg).Done? {
      PayConserves(st.ledger, msg.sender, SWAP_ACCOUNT, msg.sold, denom);
      var collected := Pay(st.ledger, msg.sender, SWAP_ACCOUNT, msg.sold).value;
      PayConserves(collected, SWAP_ACCOUNT, msg.recipient, bought, denom);
    }
  }

  lemma LegsKeepGap(env: Env, st: State, msg: Msg, nativeBought: Coin, bought: Coin, denom: string)
    requires msg.TokenToToken?
    requires PairName(msg.sold.denom, env.native) in st.pairs && PairName(msg.minBought.denom, env.native) in st.pairs
    ensures BothLegs(env, st, msg, nativeBought, bought).Done? ==> Gap(BothLegs(env, st, msg, nativeBought, bought).state, denom) == Gap(st, denom)
  {
    var pair1, pair2 := st.pairs[PairName(msg.sold.denom, env.native)], st.pairs[PairName(msg.minBought.denom, env.native)];
    var leg1 := msg.(minBought := Coin(env.native, 0));
    ExchangeKeepsGap(st, pair1, nativeBought, leg1, denom);
    if Exchange(st, pair1, nativeBought, leg1).Done? {
      ExchangeKeepsGap(Exchange(st, pair1, nativeBought, leg1).state, pair2, bought, msg.(sold := nativeBought), denom);
    }
  }

  lemma SwapKeepsGap(env: Env, st: State, msg: Msg, denom: string)
    requires ValidEnv(env) && msg.TokenToToken?
    ensures SwapTokens(env, st, msg).Done? ==> Gap(SwapTokens(env, st, msg).state, denom) == Gap(st, denom)
  {
    if SwapTokens(env, st, msg).Done? {
      var name := PairName(msg.minBought.denom, msg.sold.denom);
      if name in st.pairs {
        ExchangeKeepsGap(st, st.pairs[name], TokenToBuy(env, st.pairs[name], msg.sold, msg.minBought.denom), msg, denom);
      } else {
        var pair1, pair2 := st.pairs[PairName(msg.sold.denom, env.native)], st.pairs[PairName(msg.minBought.denom, env.native)];
        var nativeBought := TokenToBuy(env, pair1, msg.sold, env.native);
        LegsKeepGap(env, st, msg, nativeBought, TokenToBuy(env, pair2, nativeBought, msg.minBought.denom), denom);
      }
    }
  }

  /** No message of the swap module, whether it goes through or not, makes or destroys any coin except
      as the recorded supply says. */
  lemma DeliverConserves(env: Env, st: State, msg: Msg, denom: string)
    requires ValidEnv(env) && ValidMsg(msg)
    ensures Gap(Deliver(env, st, msg), denom) == Gap(st, denom)
  {
    match msg
    case CreateExchange(_, _, _) =>
    case AddLiquidity(_, _, _, _, _) => AddKeepsGap(env, st, msg, denom);
    case RemoveLiquidity(_, _, _, _, _) => RemoveKeepsGap(env, st, msg, denom);
    case TokenToToken(_, _, _, _, _) => SwapKeepsGap(env, st, msg, denom);
  }

  // ---------------------------------------------------------------- shares

  /** The supply of every pool token is what all accounts together hold of it. */
  ghost predicate SharesHeld(st: State) {
    forall name: string {:trigger PoolTokenName(name)} :: Gap(st, PoolTokenName(name)) == 0
  }

  lemma DeliverKeepsSharesHeld(env: Env, st: State, msg: Msg)
    requires ValidEnv(env) && ValidMsg(msg) && SharesHeld(st)
    ensures SharesHeld(Deliver(env, st, msg))
  {
    forall name: string
      ensures Gap(Deliver(env, st, msg), PoolTokenName(name)) == 0
    {
      DeliverConserves(env, st, msg, PoolTokenName(name));
    }
  }

  lemma NextKeepsSharesHeld(st: State, st': State)
    requires SharesHeld(st) && Next(st, st')
    ensures SharesHeld(st')
  {
    if !Outside(st, st') {
      var env: Env, msg: Msg :|
        ValidEnv(env) && ValidMsg(msg) && msg.sender != SWAP_ACCOUNT && st' == Deliver(env, st, msg);
      DeliverKeepsSharesHeld(env, st, msg);
    }
  }

  lemma InitiallyNoShares(st: State)
    requires Initial(st)
    ensures SharesHeld(st)
  {
    forall name: string
      ensures Gap(st, PoolTokenName(name)) == 0
    {
    }
  }

  lemma {:induction false} SharesAlwaysHeld(states: seq<State>, i: nat)
    requires Run(states) && i < |states|
    ensures SharesHeld(states[i])
  {
    if i == 0 {
      InitiallyNoShares(states[0]);
    } else {
      SharesAlwaysHeld(states, i - 1);
      assert NextAt(states, i - 1);
      NextKeepsSharesHeld(states[i - 1], states[i]);
    }
  }

  // ---------------------------------------------------------------- a holder can redeem

  lemma HeldAtMostHoldings(l: Ledger, who: Account, denom: string)
    ensures Held(l, who, denom) <= Holdings(l, denom)
  {
    Sums.EntryAtMostSum(HoldingsOf(l, denom), (who, denom));
  }

  /** The parts of both reserves that the shares stand for reach the minimums of the message. */
  predicate MinimumsMet(st: State, msg: Msg)
    requires msg.RemoveLiquidity?
  {
    var name := PairName(msg.minBase.denom, msg.minQuote.denom);
    var supply := SupplyOf(st.supply, PoolTokenName(name));
    && name in st.pairs
    && msg.minBase.amount * supply <= st.pairs[name].base.amount * msg.liquidity
    && msg.minQuote.amount * supply <= st.pairs[name].quote.amount * msg.liquidity
  }

  lemma RedeemedWithin(env: Env, st: State, msg: Msg)
    requires ValidEnv(env) && msg.RemoveLiquidity? && msg.liquidity > 0 && Justified(env, st, msg, Remove(env, st, msg))
    ensures Remove(env, st, msg).Done? ==> env.blockTime <= msg.deadline && MinimumsMet(st, msg)
  {
    if Remove(env, st, msg).Done? {
      assert !Hindered(env, st, msg, DeadlinePassed) && !Hindered(env, st, msg, PairMissing);
      assert !Hindered(env, st, msg, BaseBelowMin) && !Hindered(env, st, msg, QuoteBelowMin);
    }
  }

  /** A holder who redeems no more shares than they hold is paid, if and only if the deadline has not
      passed and both amounts reach the minimums the message itself sets. */
  lemma HolderCanRedeem(env: Env, st: State, msg: Msg)
    requires Inv(st) && SharesHeld(st)
    requires ValidEnv(env) && msg.RemoveLiquidity? && ValidMsg(msg) && msg.sender != SWAP_ACCOUNT
    requires msg.liquidity <= Held(st.ledger, msg.sender, PoolTokenName(PairName(msg.minBase.denom, msg.minQuote.denom)))
    ensures Remove(env, st, msg).Done? <==> env.blockTime <= msg.deadline && MinimumsMet(st, msg)
    ensures Remove(env, st, msg).Failed? ==> Remove(env, st, msg).error in {DeadlinePassed, BaseBelowMin, QuoteBelowMin}
  {
    var name := PairName(msg.minBase.denom, msg.minQuote.denom);
    HeldAtMostHoldings(st.ledger, msg.sender, PoolTokenName(name));
    assert Gap(st, PoolTokenName(name)) == 0;
    assert name in st.pairs;
    RemoveJustified(env, st, msg);
    RedeemedWithin(env, st, msg);
  }

  /** In every reachable state. */
  lemma HoldersAreNeverLockedOut(states: seq<State>, i: nat, env: Env, msg: Msg)
    requires Run(states) && i < |states|
    requires ValidEnv(env) && msg.RemoveLiquidity? && ValidMsg(msg) && msg.sender != SWAP_ACCOUNT
    requires msg.liquidity <= Held(states[i].ledger, msg.sender, PoolTokenName(PairName(msg.minBase.denom, msg.minQuote.denom)))
    ensures Remove(env, states[i], msg).Failed? ==> Remove(env, states[i], msg).error in {DeadlinePassed, BaseBelowMin, QuoteBelowMin}
    ensures env.blockTime <= msg.deadline && msg.minBase.amount == 0 && msg.minQuote.amount == 0 ==> Remove(env, states[i], msg).Done?
  {
    ReachableStatesAreSafe(states, i);
    SharesAlwaysHeld(states, i);
    HolderCanRedeem(env, states[i], msg);
  }
}
