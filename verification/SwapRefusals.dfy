/** When a swap message is refused: every reason, said of the state and the message, and that a message goes
    through exactly when none of them holds. */
module SwapRefusals {
  import opened Options
  import opened FixedPoint
  import opened SwapNames
  import opened Swap
  import opened SwapSafety
  import opened SwapEffects

  predicate TokenIssued(st: State, denom: string) {
    denom in st.tokens && st.tokens[denom].Issued?
  }

  predicate CreateHindered(st: State, msg: Msg, e: Error)
    requires msg.CreateExchange?
  {
    var name := PairName(msg.token0, msg.token1);
    match e
    case TokenMissing => !TokenIssued(st, msg.token0) || !TokenIssued(st, msg.token1)
    case PairExists => name in st.pairs
    case PoolTokenExists => PoolTokenName(name) in st.tokens
    case _ => false
  }

  /** Reasons to refuse a deposit. `b` base would be due: more than offered when the exact part exceeds it
      by a unit or more; no share, or fewer than asked, when the part of the supply is less. */
  ghost predicate AddHindered(env: Env, st: State, msg: Msg, e: Error)
    requires msg.AddLiquidity?
  {
    var name, q := PairName(msg.maxBase.denom, msg.quoteIn.denom), msg.quoteIn.amount;
    match e
    case DeadlinePassed => msg.deadline < env.blockTime
    case PairMissing => name !in st.pairs
    case _ =>
      name in st.pairs &&
      var pair, supply := st.pairs[name], SupplyOf(st.supply, PoolTokenName(name));
      match e
      case ZeroLiquidity => q * supply < pair.quote.amount
      case BaseAboveMax => pair.quote.amount > 0 && (msg.maxBase.amount + 1) * pair.quote.amount <= q * pair.base.amount
      case LiquidityBelowMin =>
        if pair.quote.amount == 0 then env.precision < msg.minLiquidity else q * supply < msg.minLiquidity * pair.quote.amount
      case UserFunds =>
        || Held(st.ledger, msg.sender, msg.quoteIn.denom) < q
        || exists b: nat :: BaseDue(pair, msg.maxBase.amount, q, b) && Held(st.ledger, msg.sender, msg.maxBase.denom) < b
      case _ => false
  }

  predicate RemoveHindered(env: Env, st: State, msg: Msg, e: Error)
    requires msg.RemoveLiquidity?
  {
    var name := PairName(msg.minBase.denom, msg.minQuote.denom);
    var supply := SupplyOf(st.supply, PoolTokenName(name));
    match e
    case DeadlinePassed => msg.deadline < env.blockTime
    case PairMissing => name !in st.pairs
    case SupplyBelowLiquidity => supply < msg.liquidity
    case BaseBelowMin => name in st.pairs && st.pairs[name].base.amount * msg.liquidity < msg.minBase.amount * supply
    case QuoteBelowMin => name in st.pairs && st.pairs[name].quote.amount * msg.liquidity < msg.minQuote.amount * supply
    case UserFunds => Held(st.ledger, msg.sender, PoolTokenName(name)) < msg.liquidity
    case _ => false
  }

  /** What a sale would bring on the pair of two coins; nothing without one or with an empty one. */
  function Quote(env: Env, st: State, input: nat, sell: string, buy: string): nat
    requires ValidEnv(env)
  {
    var name := PairName(sell, buy);
    if name !in st.pairs || PooledIn(st.pairs[name], sell) == 0 then 0
    else PriceOf(env, input, PooledIn(st.pairs[name], sell), PooledIn(st.pairs[name], buy))
  }

  predicate HasReserves(st: State, a: string, b: string) {
    PairName(a, b) in st.pairs && PooledIn(st.pairs[PairName(a, b)], a) > 0
  }

  predicate DirectHindered(env: Env, st: State, msg: Msg, e: Error)
    requires ValidEnv(env) && msg.TokenToToken?
  {
    var sell, buy := msg.sold.denom, msg.minBought.denom;
    match e
    case UserFunds => Held(st.ledger, msg.sender, sell) < msg.sold.amount
    case DeadlinePassed => msg.deadline < env.blockTime
    case ZeroReserve => !HasReserves(st, sell, buy)
    case ZeroBought => HasReserves(st, sell, buy) && Quote(env, st, msg.sold.amount, sell, buy) == 0
    case BoughtBelowMin => HasReserves(st, sell, buy) && Quote(env, st, msg.sold.amount, sell, buy) < msg.minBought.amount
    case _ => false
  }

  predicate RouteHindered(env: Env, st: State, msg: Msg, e: Error)
    requires ValidEnv(env) && msg.TokenToToken?
  {
    var sell, buy := msg.sold.denom, msg.minBought.denom;
    var ready := HasReserves(st, sell, env.native) && HasReserves(st, env.native, buy);
    var native := Quote(env, st, msg.sold.amount, sell, env.native);
    var out := Quote(env, st, native, env.native, buy);
    match e
    case DeadlinePassed => msg.deadline < env.blockTime
    case PairMissing => PairName(sell, env.native) !in st.pairs || PairName(buy, env.native) !in st.pairs
    case ZeroReserve =>
      || (PairName(sell, env.native) in st.pairs && !HasReserves(st, sell, env.native))
      || (PairName(buy, env.native) in st.pairs && !HasReserves(st, env.native, buy))
    case ZeroBought => ready && (native == 0 || out == 0)
    case BoughtBelowMin => ready && out < msg.minBought.amount
    case UserFunds =>
      || Held(st.ledger, msg.sender, sell) < msg.sold.amount
      || (ready && msg.sender != msg.recipient && Held(st.ledger, msg.sender, env.native) < native)
    case _ => false
  }

  /** A reason to refuse a message, said of the state and the message. */
  ghost predicate Hindered(env: Env, st: State, msg: Msg, e: Error)
    requires ValidEnv(env)
  {
    match msg
    case CreateExchange(_, _, _) => CreateHindered(st, msg, e)
    case AddLiquidity(_, _, _, _, _) => AddHindered(env, st, msg, e)
    case RemoveLiquidity(_, _, _, _, _) => RemoveHindered(env, st, msg, e)
    case TokenToToken(_, _, _, _, _) =>
      if PairName(msg.minBought.denom, msg.sold.denom) in st.pairs then DirectHindered(env, st, msg, e)
      else RouteHindered(env, st, msg, e)
  }

  /** A message that goes through meets no reason to refuse it, and one that fails names a true one. */
  ghost predicate Justified(env: Env, st: State, msg: Msg, o: Outcome)
    requires ValidEnv(env)
  {
    match o
    case Done(_) => forall e: Error :: !Hindered(env, st, msg, e)
    case Failed(e) => Hindered(env, st, msg, e)
  }

  lemma CreateJustified(env: Env, st: State, msg: Msg)
    requires ValidEnv(env) && msg.CreateExchange?
    ensures Justified(env, st, msg, Create(st, msg))
  {
  }

  /** A quotient rounded down, compared with a number. */
  lemma FloorCompares(x: int, n: int, d: int, m: int)
    requires d > 0 && IsFloor(x, n, d)
    ensures x > m <==> (m + 1) * d <= n
    ensures x < m <==> n < m * d
  {
    if x > m { MulLe(m + 1, x, d); } else { MulLe(x + 1, m + 1, d); }
    if x < m { MulLe(x + 1, m, d); } else { MulLe(m, x, d); }
  }

  lemma OneBaseDue(pair: Pair, maxBase: nat, q: nat, b: int, c: int)
    requires BaseDue(pair, maxBase, q, b) && BaseDue(pair, maxBase, q, c)
    ensures b == c
  {
    if pair.quote.amount > 0 && q * pair.base.amount >= pair.quote.amount {
      DivIs(q * pair.base.amount, pair.quote.amount, b);
      DivIs(q * pair.base.amount, pair.quote.amount, c);
    }
  }

  lemma BaseAgainstMax(pair: Pair, maxBase: nat, q: nat, b: int)
    requires maxBase > 0 && BaseDue(pair, maxBase, q, b)
    ensures b > maxBase <==> pair.quote.amount > 0 && (maxBase + 1) * pair.quote.amount <= q * pair.base.amount
  {
    if pair.quote.amount > 0 {
      if q * pair.base.amount < pair.quote.amount {
        MulLe(1, maxBase + 1, pair.quote.amount);
      } else {
        FloorCompares(b, q * pair.base.amount, pair.quote.amount, maxBase);
      }
    }
  }

  lemma SharesAgainst(env: Env, pair: Pair, supply: nat, q: nat, l: int, m: nat)
    requires SharesDue(env, pair, supply, q, l)
    ensures l < m <==> if pair.quote.amount == 0 then env.precision < m else q * supply < m * pair.quote.amount
  {
    if pair.quote.amount > 0 { FloorCompares(l, q * supply, pair.quote.amount, m); }
  }

  /** The reasons, by the terms. */
  lemma ReasonsByTerms(env: Env, st: State, msg: Msg, base: nat, liquidity: nat)
    requires msg.AddLiquidity? && ValidMsg(msg) && OnTerms(env, st, msg, base, liquidity)
    ensures !AddHindered(env, st, msg, ZeroLiquidity) && !AddHindered(env, st, msg, PairMissing)
    ensures AddHindered(env, st, msg, BaseAboveMax) <==> base > msg.maxBase.amount
    ensures AddHindered(env, st, msg, LiquidityBelowMin) <==> liquidity < msg.minLiquidity
    ensures AddHindered(env, st, msg, UserFunds) <==>
            Held(st.ledger, msg.sender, msg.quoteIn.denom) < msg.quoteIn.amount || Held(st.ledger, msg.sender, msg.maxBase.denom) < base
  {
    var name, q := PairName(msg.maxBase.denom, msg.quoteIn.denom), msg.quoteIn.amount;
    var pair, supply := st.pairs[name], SupplyOf(st.supply, PoolTokenName(name));
    BaseAgainstMax(pair, msg.maxBase.amount, q, base);
    SharesAgainst(env, pair, supply, q, liquidity, msg.minLiquidity);
    SharesAgainst(env, pair, supply, q, liquidity, 1);
    forall b: nat | BaseDue(pair, msg.maxBase.amount, q, b)
      ensures b == base
    {
      OneBaseDue(pair, msg.maxBase.amount, q, b, base);
    }
  }

  lemma OutcomeByTerms(st: State, msg: Msg, base: nat, liquidity: nat)
    requires msg.AddLiquidity? && ValidMsg(msg) && PairName(msg.maxBase.denom, msg.quoteIn.denom) in st.pairs
    requires var pair := st.pairs[PairName(msg.maxBase.denom, msg.quoteIn.denom)];
             pair.base.denom == msg.maxBase.denom && pair.quote.denom == msg.quoteIn.denom
    ensures match AddOnTerms(st, msg, base, liquidity)
            case Failed(BaseAboveMax) => base > msg.maxBase.amount
            case Failed(LiquidityBelowMin) => liquidity < msg.minLiquidity
            case Failed(UserFunds) => Held(st.ledger, msg.sender, msg.quoteIn.denom) < msg.quoteIn.amount || Held(st.ledger, msg.sender, msg.maxBase.denom) < base
            case Failed(_) => false
            case Done(_) =>
              && base <= msg.maxBase.amount && msg.minLiquidity <= liquidity
              && msg.quoteIn.amount <= Held(st.ledger, msg.sender, msg.quoteIn.denom) && base <= Held(st.ledger, msg.sender, msg.maxBase.denom)
  {
    var baseIn := Coin(msg.maxBase.denom, base);
    SortedTwo(baseIn, msg.quoteIn);
    BothCovered(st.ledger, msg.sender, SWAP_ACCOUNT, baseIn, msg.quoteIn);
    var pair := st.pairs[PairName(msg.maxBase.denom, msg.quoteIn.denom)];
    if PayAll(st.ledger, msg.sender, SWAP_ACCOUNT, CoinSort([msg.quoteIn, baseIn])).Some? {
      var paid := PayAll(st.ledger, msg.sender, SWAP_ACCOUNT, CoinSort([msg.quoteIn, baseIn])).value;
      var pair' := Regrouped(pair, AddCoin(pair.quote, msg.quoteIn), AddCoin(pair.base, baseIn)).value;
      MintMoves(st.(pairs := st.pairs[PairName(msg.maxBase.denom, msg.quoteIn.denom) := pair'], ledger := paid), Coin(pair.poolToken, liquidity), msg.sender);
    }
  }

  lemma TermsMeetNone(env: Env, st: State, msg: Msg, base: nat, liquidity: nat, e: Error)
    requires msg.AddLiquidity? && ValidMsg(msg) && OnTerms(env, st, msg, base, liquidity) && env.blockTime <= msg.deadline
    requires base <= msg.maxBase.amount && msg.minLiquidity <= liquidity
    requires msg.quoteIn.amount <= Held(st.ledger, msg.sender, msg.quoteIn.denom) && base <= Held(st.ledger, msg.sender, msg.maxBase.denom)
    ensures !AddHindered(env, st, msg, e)
  {
    ReasonsByTerms(env, st, msg, base, liquidity);
  }

  lemma TermsJustified(env: Env, st: State, msg: Msg, base: nat, liquidity: nat)
    requires ValidEnv(env) && msg.AddLiquidity? && ValidMsg(msg) && OnTerms(env, st, msg, base, liquidity) && env.blockTime <= msg.deadline
    ensures Justified(env, st, msg, AddOnTerms(st, msg, base, liquidity))
  {
    OutcomeByTerms(st, msg, base, liquidity);
    match AddOnTerms(st, msg, base, liquidity)
    case Failed(e) => ReasonsByTerms(env, st, msg, base, liquidity);
    case Done(_) =>
      forall e: Error
        ensures !Hindered(env, st, msg, e)
      {
        TermsMeetNone(env, st, msg, base, liquidity, e);
      }
  }

  lemma AddJustified(env: Env, st: State, msg: Msg)
    requires Inv(st) && ValidEnv(env) && msg.AddLiquidity? && ValidMsg(msg)
    ensures Justified(env, st, msg, Add(env, st, msg))
  {
    if env.blockTime <= msg.deadline && PairName(msg.maxBase.denom, msg.quoteIn.denom) in st.pairs {
      var terms := AddUnfolds(env, st, msg);
      if terms.Accepted? { TermsJustified(env, st, msg, terms.base, terms.liquidity); }
    }
  }

  lemma RemoveReasons(env: Env, pair: Pair, liquidity: nat, supply: nat, minBase: nat, minQuote: nat)
    requires ValidEnv(env) && 0 < liquidity <= supply && AllOrNothing(pair, supply)
    ensures var r := RedemptionOf(env.precision, pair, liquidity, supply);
            && (r.base < minBase <==> pair.base.amount * liquidity < minBase * supply)
            && (r.quote < minQuote <==> pair.quote.amount * liquidity < minQuote * supply)
  {
    RedemptionIsPart(env, pair, liquidity, supply);
    var r := RedemptionOf(env.precision, pair, liquidity, supply);
    FloorCompares(r.base, pair.base.amount * liquidity, supply, minBase);
    FloorCompares(r.quote, pair.quote.amount * liquidity, supply, minQuote);
  }

  /** Paying out both coins leaves the sender's shares as they were. */
  lemma SharesUntouched(st: State, name: string, sender: Account, base: Coin, quote: Coin)
    requires ValidBaseAndQuote(base.denom, quote.denom) && sender != SWAP_ACCOUNT
    requires PayAll(st.ledger, SWAP_ACCOUNT, sender, CoinSort([base, quote])).Some?
    ensures Held(PayAll(st.ledger, SWAP_ACCOUNT, sender, CoinSort([base, quote])).value, sender, PoolTokenName(name))
         == Held(st.ledger, sender, PoolTokenName(name))
  {
    BothMove(st.ledger, SWAP_ACCOUNT, sender, base, quote);
    PoolTokenNotTradable(name);
    NetTwo(Transfer(SWAP_ACCOUNT, sender, base), Transfer(SWAP_ACCOUNT, sender, quote), sender, PoolTokenName(name));
  }

  lemma RemoveJustified(env: Env, st: State, msg: Msg)
    requires Inv(st) && ValidEnv(env) && msg.RemoveLiquidity? && ValidMsg(msg) && msg.sender != SWAP_ACCOUNT
    ensures Justified(env, st, msg, Remove(env, st, msg))
  {
    var name := PairName(msg.minBase.denom, msg.minQuote.denom);
    if env.blockTime <= msg.deadline && name in st.pairs {
      NamedPair(st, msg.minBase.denom, msg.minQuote.denom);
      var pair := st.pairs[name];
      var supply := SupplyOf(st.supply, pair.poolToken);
      if msg.liquidity <= supply {
        RemoveReasons(env, pair, msg.liquidity, supply, msg.minBase.amount, msg.minQuote.amount);
        RedemptionBounds(env.precision, pair, msg.liquidity, supply);
        var r := RedemptionOf(env.precision, pair, msg.liquidity, supply);
        var baseOut, quoteOut := Coin(pair.base.denom, r.base), Coin(pair.quote.denom, r.quote);
        RedeemedSafe(st, name, baseOut, quoteOut, msg.liquidity, msg.sender);
        SharesUntouched(st, name, msg.sender, baseOut, quoteOut);
      }
    }
  }

  lemma QuotedIs(env: Env, st: State, sold: Coin, buy: string)
    requires Inv(st) && ValidEnv(env) && ValidSwapName(sold.denom) && ValidSwapName(buy) && PairName(sold.denom, buy) in st.pairs
    ensures HasReserves(st, sold.denom, buy) <==> !Empty(st.pairs[PairName(sold.denom, buy)])
    ensures HasReserves(st, sold.denom, buy) ==>
            TokenToBuy(env, st.pairs[PairName(sold.denom, buy)], sold, buy) == Coin(buy, Quote(env, st, sold.amount, sold.denom, buy))
  {
    NamedTrades(st, sold.denom, buy);
    if !Empty(st.pairs[PairName(sold.denom, buy)]) { BoughtIsPrice(env, st.pairs[PairName(sold.denom, buy)], sold, buy); }
  }

  /** The query answers exactly when the pair of the two coins, or else both pairs with the native token,
      have reserves, and its answer is their price. */
  lemma QueryAnswers(env: Env, st: State, sold: Coin, buy: string)
    requires Inv(st) && ValidEnv(env) && ValidSwapName(sold.denom) && ValidSwapName(buy)
    ensures QueryBuyAmount(env, st, sold, buy) ==
            if PairName(sold.denom, buy) in st.pairs then
              if HasReserves(st, sold.denom, buy) then Some(Quote(env, st, sold.amount, sold.denom, buy)) else None
            else if HasReserves(st, sold.denom, env.native) && HasReserves(st, env.native, buy) then
              Some(Quote(env, st, Quote(env, st, sold.amount, sold.denom, env.native), env.native, buy))
            else None
  {
    PairNameSymmetric(buy, env.native);
    if PairName(sold.denom, buy) in st.pairs { QuotedIs(env, st, sold, buy); }
    if PairName(sold.denom, env.native) in st.pairs { QuotedIs(env, st, sold, env.native); }
    if PairName(buy, env.native) in st.pairs {
      QuotedIs(env, st, Coin(env.native, Quote(env, st, sold.amount, sold.denom, env.native)), buy);
    }
  }

  lemma DirectJustified(env: Env, st: State, msg: Msg)
    requires Inv(st) && ValidEnv(env) && msg.TokenToToken? && ValidMsg(msg) && msg.sender != SWAP_ACCOUNT
    requires PairName(msg.minBought.denom, msg.sold.denom) in st.pairs
    ensures Justified(env, st, msg, SwapDirect(env, st, msg))
  {
    LessIsTotal(msg.minBought.denom, msg.sold.denom);
    PairNameSymmetric(msg.minBought.denom, msg.sold.denom);
    QuotedIs(env, st, msg.sold, msg.minBought.denom);
    if HasReserves(st, msg.sold.denom, msg.minBought.denom) { ExchangeSafe(env, st, msg); }
  }

  /** A leg is refused only when its sender does not hold what is sold. */
  lemma LegFunds(env: Env, st: State, msg: Msg)
    requires Inv(st) && ValidEnv(env) && msg.TokenToToken? && msg.sold.amount > 0 && msg.sender != SWAP_ACCOUNT
    requires ValidBaseAndQuote(BaseName(msg.sold.denom, msg.minBought.denom), QuoteName(msg.sold.denom, msg.minBought.denom))
    requires PairName(msg.minBought.denom, msg.sold.denom) in st.pairs
    requires !Empty(st.pairs[PairName(msg.minBought.denom, msg.sold.denom)])
    ensures var pair := st.pairs[PairName(msg.minBought.denom, msg.sold.denom)];
            var o := Exchange(st, pair, TokenToBuy(env, pair, msg.sold, msg.minBought.denom), msg);
            && (o.Done? <==> msg.sold.amount <= Held(st.ledger, msg.sender, msg.sold.denom))
            && (o.Done? ==> Inv(o.state)) && (o.Failed? ==> o.error == UserFunds)
  {
    ExchangeSafe(env, st, msg);
  }

  /** After the first leg the sender holds as much native coin as before, or that and what it brought. */
  lemma NativeAfterLeg(st: State, pair: Pair, native: Coin, msg: Msg)
    requires msg.TokenToToken? && Exchange(st, pair, native, msg).Done? && msg.sender != SWAP_ACCOUNT && msg.sold.denom != native.denom
    ensures Held(Exchange(st, pair, native, msg).state.ledger, msg.sender, native.denom)
         == Held(st.ledger, msg.sender, native.denom) + (if msg.sender == msg.recipient then native.amount else 0)
  {
    ExchangeMoves(st, pair, native, msg);
    NetTwo(Transfer(msg.sender, SWAP_ACCOUNT, msg.sold), Transfer(SWAP_ACCOUNT, msg.recipient, native), msg.sender, native.denom);
  }

  lemma LegsFunds(env: Env, st: State, msg: Msg, native: Coin, bought: Coin)
    requires Inv(st) && ValidEnv(env) && msg.TokenToToken? && ValidMsg(msg) && msg.sender != SWAP_ACCOUNT
    requires PairName(msg.sold.denom, env.native) in st.pairs && PairName(msg.minBought.denom, env.native) in st.pairs
    requires !Empty(st.pairs[PairName(msg.sold.denom, env.native)]) && !Empty(st.pairs[PairName(msg.minBought.denom, env.native)])
    requires native == TokenToBuy(env, st.pairs[PairName(msg.sold.denom, env.native)], msg.sold, env.native) && native.amount > 0
    requires bought == TokenToBuy(env, st.pairs[PairName(msg.minBought.denom, env.native)], native, msg.minBought.denom)
    ensures var o := BothLegs(env, st, msg, native, bought);
            && (o.Done? <==> && msg.sold.amount <= Held(st.ledger, msg.sender, msg.sold.denom)
                             && (msg.sender == msg.recipient || native.amount <= Held(st.ledger, msg.sender, env.native)))
            && (o.Failed? ==> o.error == UserFunds)
  {
    LegsAreSwaps(env, st, msg);
    var name1 := PairName(msg.sold.denom, env.native);
    var leg1 := msg.(minBought := Coin(env.native, 0));
    LegFunds(env, st, leg1);
    var o1 := Exchange(st, st.pairs[name1], native, leg1);
    if o1.Done? {
      ExchangeFrame(st, st.pairs[name1], native, leg1);
      NativeAfterLeg(st, st.pairs[name1], native, leg1);
      LegFunds(env, o1.state, msg.(sold := native));
    }
  }

  /** What a routed swap comes to once both pairs have reserves. */
  lemma RouteReady(env: Env, st: State, msg: Msg)
    requires Inv(st) && ValidEnv(env) && msg.TokenToToken? && ValidMsg(msg) && msg.sender != SWAP_ACCOUNT
    requires HasReserves(st, msg.sold.denom, env.native) && HasReserves(st, env.native, msg.minBought.denom)
    requires env.blockTime <= msg.deadline && msg.sold.amount <= Held(st.ledger, msg.sender, msg.sold.denom)
    ensures var native := Quote(env, st, msg.sold.amount, msg.sold.denom, env.native);
            var out := Quote(env, st, native, env.native, msg.minBought.denom);
            match SwapRouted(env, st, msg)
            case Failed(ZeroBought) => native == 0 || out == 0
            case Failed(BoughtBelowMin) => out < msg.minBought.amount
            case Failed(UserFunds) => msg.sender != msg.recipient && Held(st.ledger, msg.sender, env.native) < native
            case Failed(_) => false
            case Done(_) =>
              && native > 0 && out > 0 && msg.minBought.amount <= out
              && (msg.sender == msg.recipient || native <= Held(st.ledger, msg.sender, env.native))
  {
    var sell, buy := msg.sold.denom, msg.minBought.denom;
    LessIsTotal(buy, sell);
    PairNameSymmetric(buy, env.native);
    QuotedIs(env, st, msg.sold, env.native);
    QuotedIs(env, st, Coin(env.native, Quote(env, st, msg.sold.amount, sell, env.native)), buy);
    var native := TokenToBuy(env, st.pairs[PairName(sell, env.native)], msg.sold, env.native);
    if native.amount > 0 {
      LegsFunds(env, st, msg, native, TokenToBuy(env, st.pairs[PairName(buy, env.native)], native, buy));
    }
  }

  lemma RouteJustified(env: Env, st: State, msg: Msg)
    requires Inv(st) && ValidEnv(env) && msg.TokenToToken? && ValidMsg(msg) && msg.sender != SWAP_ACCOUNT
    requires PairName(msg.minBought.denom, msg.sold.denom) !in st.pairs
    ensures Justified(env, st, msg, SwapRouted(env, st, msg))
  {
    var sell, buy := msg.sold.denom, msg.minBought.denom;
    LessIsTotal(buy, sell);
    PairNameSymmetric(buy, env.native);
    if PairName(sell, env.native) in st.pairs { QuotedIs(env, st, msg.sold, env.native); }
    if PairName(buy, env.native) in st.pairs { QuotedIs(env, st, Coin(env.native, 0), buy); }
    if HasReserves(st, sell, env.native) && HasReserves(st, env.native, buy) {
      if env.blockTime <= msg.deadline && msg.sold.amount <= Held(st.ledger, msg.sender, sell) { RouteReady(env, st, msg); }
    }
  }

  /** Every message goes through exactly when nothing hinders it, and fails only for a reason that is so. */
  lemma HandleJustified(env: Env, st: State, msg: Msg)
    requires Inv(st) && ValidEnv(env) && ValidMsg(msg) && msg.sender != SWAP_ACCOUNT
    ensures Justified(env, st, msg, Handle(env, st, msg))
  {
    match msg
    case CreateExchange(_, _, _) => CreateJustified(env, st, msg);
    case AddLiquidity(_, _, _, _, _) => AddJustified(env, st, msg);
    case RemoveLiquidity(_, _, _, _, _) => RemoveJustified(env, st, msg);
    case TokenToToken(_, _, _, _, _) =>
      if PairName(msg.minBought.denom, msg.sold.denom) in st.pairs { DirectJustified(env, st, msg); } else { RouteJustified(env, st, msg); }
  }
}
