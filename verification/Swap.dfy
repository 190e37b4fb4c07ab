/** The swap module's state and what each message does to it (x/ammswap). The functions say what a
    handler computes; `SwapKeeper` is the handler code, step by step, proved to compute it. */
module Swap {
  import opened Options
  import opened FixedPoint
  import opened Pricing
  import opened Liquidity
  import opened SwapNames

  type Account = string

  /** The module account that holds every pool's coins. */
  const SWAP_ACCOUNT: Account := "ammswap"

  datatype Coin = Coin(denom: string, amount: nat)

  // ---------------------------------------------------------------- accounts

  type Ledger = map<(Account, string), nat>

  function Held(l: Ledger, who: Account, denom: string): nat {
    if (who, denom) in l then l[(who, denom)] else 0
  }

  function Credit(l: Ledger, who: Account, c: Coin): Ledger {
    l[(who, c.denom) := Held(l, who, c.denom) + c.amount]
  }

  /** The bank refuses a transfer the payer cannot cover. */
  function Pay(l: Ledger, payer: Account, payee: Account, c: Coin): Option<Ledger> {
    var held := Held(l, payer, c.denom);
    if held < c.amount then None else
      Some(Credit(l[(payer, c.denom) := held - c.amount], payee, c))
  }

  function PayAll(l: Ledger, payer: Account, payee: Account, coins: seq<Coin>): Option<Ledger>
    decreases |coins|
  {
    if coins == [] then Some(l) else
      match Pay(l, payer, payee, coins[0])
      case None => None
      case Some(l') => PayAll(l', payer, payee, coins[1..])
  }

  function InsertCoin(c: Coin, sorted: seq<Coin>): seq<Coin> {
    if sorted == [] || Less(c.denom, sorted[0].denom) then [c] + sorted
    else [sorted[0]] + InsertCoin(c, sorted[1..])
  }

  /** `coinSort`: zero coins are dropped, the rest ordered by name. */
  function CoinSort(coins: seq<Coin>): seq<Coin> {
    if coins == [] then []
    else if coins[0].amount == 0 then CoinSort(coins[1..])
    else InsertCoin(coins[0], CoinSort(coins[1..]))
  }

  // ---------------------------------------------------------------- state

  datatype Pair = Pair(quote: Coin, base: Coin, poolToken: string)

  datatype TokenKind = Issued | PoolShare

  datatype State = State(
    pairs: map<string, Pair>,
    tokens: map<string, TokenKind>,
    supply: map<string, nat>,
    ledger: Ledger)

  function SupplyOf(supply: map<string, nat>, denom: string): nat {
    if denom in supply then supply[denom] else 0
  }

  datatype Env = Env(precision: int, feeRate: int, blockTime: int, native: string)

  predicate ValidEnv(env: Env) {
    ValidFee(env.precision, env.feeRate) && ValidSwapName(env.native)
  }

  datatype Msg =
    | CreateExchange(token0: string, token1: string, sender: Account)
    | AddLiquidity(minLiquidity: nat, maxBase: Coin, quoteIn: Coin, deadline: int, sender: Account)
    | RemoveLiquidity(liquidity: nat, minBase: Coin, minQuote: Coin, deadline: int, sender: Account)
    | TokenToToken(sold: Coin, minBought: Coin, deadline: int, recipient: Account, sender: Account)

  /** `ValidateBaseAndQuoteAmount`. */
  predicate ValidBaseAndQuote(base: string, quote: string) {
    Less(base, quote) && ValidSwapName(base) && ValidSwapName(quote)
  }

  /** What `ValidateBasic` demands of each message before a handler sees it. */
  predicate ValidMsg(msg: Msg) {
    match msg
    case CreateExchange(token0, token1, _) =>
      ValidSwapName(token0) && ValidSwapName(token1) && token0 != token1
    case AddLiquidity(_, maxBase, quoteIn, _, _) =>
      maxBase.amount > 0 && quoteIn.amount > 0 && ValidBaseAndQuote(maxBase.denom, quoteIn.denom)
    case RemoveLiquidity(liquidity, minBase, minQuote, _, _) =>
      liquidity > 0 && ValidBaseAndQuote(minBase.denom, minQuote.denom)
    case TokenToToken(sold, minBought, _, _, _) =>
      && sold.amount > 0
      && ValidBaseAndQuote(BaseName(sold.denom, minBought.denom), QuoteName(sold.denom, minBought.denom))
  }

  datatype Error =
    | DeadlinePassed | TokenMissing | PairMissing | PairExists | PoolTokenMissing | PoolTokenExists
    | InvalidPair | ZeroSupply | ZeroLiquidity | BaseAboveMax | LiquidityBelowMin
    | SupplyBelowLiquidity | BaseBelowMin | QuoteBelowMin
    | ZeroReserve | ZeroBought | BoughtBelowMin
    | UserFunds   // an account cannot cover what it must pay
    | PoolFunds   // the module account cannot cover a payout
    | CoinPanic   // coins of two kinds were added, or a pool would go below zero

  datatype Outcome = Done(state: State) | Failed(error: Error)

  function AddCoin(a: Coin, b: Coin): Option<Coin> {
    if a.denom != b.denom then None else Some(Coin(a.denom, a.amount + b.amount))
  }

  function SubCoin(a: Coin, b: Coin): Option<Coin> {
    if a.denom != b.denom || a.amount < b.amount then None else Some(Coin(a.denom, a.amount - b.amount))
  }

  /** The two pools of a pair after `toQuote`/`toBase` went in and `fromQuote`/`fromBase` came out. */
  function Regrouped(pair: Pair, quote: Option<Coin>, base: Option<Coin>): Option<Pair> {
    if quote.None? || base.None? then None else Some(Pair(quote.value, base.value, pair.poolToken))
  }

  // ---------------------------------------------------------------- handlers

  function Create(st: State, msg: Msg): Outcome
    requires msg.CreateExchange?
  {
    var name := PairName(msg.token0, msg.token1);
    var poolToken := PoolTokenName(name);
    if msg.token0 !in st.tokens || st.tokens[msg.token0].PoolShare? then Failed(TokenMissing)
    else if msg.token1 !in st.tokens || st.tokens[msg.token1].PoolShare? then Failed(TokenMissing)
    else if name in st.pairs then Failed(PairExists)
    else if poolToken in st.tokens then Failed(PoolTokenExists)
    else
      var pair := Pair(Coin(QuoteName(msg.token0, msg.token1), 0), Coin(BaseName(msg.token0, msg.token1), 0), poolToken);
      Done(st.(tokens := st.tokens[poolToken := PoolShare], pairs := st.pairs[name := pair]))
  }

  datatype Deposit = Accepted(base: nat, liquidity: nat) | Refused(error: Error)

  /** How much base a deposit takes and how many shares it mints. */
  function DepositTerms(precision: int, pair: Pair, supply: nat, maxBase: nat, quoteIn: nat): Deposit
    requires precision > 0
  {
    if pair.quote.amount == 0 && pair.base.amount == 0 then
      Accepted(maxBase, Whole(precision, 1))
    else if pair.base.amount > 0 && pair.quote.amount > 0 then
      MulAndQuoIsFloor(precision, quoteIn, pair.base.amount, pair.quote.amount);
      MulAndQuoIsFloor(precision, quoteIn, supply, pair.quote.amount);
      FloorIsGreatest(quoteIn * pair.base.amount, pair.quote.amount, 0);
      FloorIsGreatest(quoteIn * supply, pair.quote.amount, 0);
      var base := BaseFor(precision, quoteIn, pair.base.amount, pair.quote.amount);
      if supply == 0 then Refused(ZeroSupply) else
        var liquidity := SharesFor(precision, quoteIn, supply, pair.quote.amount);
        if liquidity == 0 then Refused(ZeroLiquidity) else Accepted(base, liquidity)
    else
      Refused(InvalidPair)
  }

  function Add(env: Env, st: State, msg: Msg): Outcome
    requires ValidEnv(env) && msg.AddLiquidity?
  {
    var name := PairName(msg.maxBase.denom, msg.quoteIn.denom);
    if msg.deadline < env.blockTime then Failed(DeadlinePassed)
    else if name !in st.pairs then Failed(PairMissing)
    else
      var pair := st.pairs[name];
      if pair.poolToken !in st.tokens then Failed(PoolTokenMissing) else
        match DepositTerms(env.precision, pair, SupplyOf(st.supply, pair.poolToken), msg.maxBase.amount, msg.quoteIn.amount)
        case Refused(e) => Failed(e)
        case Accepted(base, liquidity) =>
          if base > msg.maxBase.amount then Failed(BaseAboveMax)
          else if liquidity < msg.minLiquidity then Failed(LiquidityBelowMin)
          else
            var baseIn := Coin(msg.maxBase.denom, base);
            match PayAll(st.ledger, msg.sender, SWAP_ACCOUNT, CoinSort([msg.quoteIn, baseIn]))
            case None => Failed(UserFunds)
            case Some(paid) =>
              match Regrouped(pair, AddCoin(pair.quote, msg.quoteIn), AddCoin(pair.base, baseIn))
              case None => Failed(CoinPanic)
              case Some(pair') =>
                MintToUser(st.(pairs := st.pairs[name := pair'], ledger := paid), Coin(pair.poolToken, liquidity), msg.sender)
  }

  /** `MintPoolCoinsToUser`: shares are minted to the module account and passed on. */
  function MintToUser(st: State, shares: Coin, user: Account): Outcome {
    var minted := Credit(st.ledger, SWAP_ACCOUNT, shares);
    var supply := st.supply[shares.denom := SupplyOf(st.supply, shares.denom) + shares.amount];
    match Pay(minted, SWAP_ACCOUNT, user, shares)
    case None => Failed(PoolFunds)
    case Some(paid) => Done(st.(supply := supply, ledger := paid))
  }

  /** `BurnPoolCoinsFromUser`: shares are collected by the module account and burned there. */
  function BurnFromUser(st: State, shares: Coin, user: Account): Outcome {
    match Pay(st.ledger, user, SWAP_ACCOUNT, shares)
    case None => Failed(UserFunds)
    case Some(paid) =>
      var held := Held(paid, SWAP_ACCOUNT, shares.denom);
      var supply := SupplyOf(st.supply, shares.denom);
      if held < shares.amount || supply < shares.amount then Failed(PoolFunds) else
        Done(st.(supply := st.supply[shares.denom := supply - shares.amount],
                 ledger := paid[(SWAP_ACCOUNT, shares.denom) := held - shares.amount]))
  }

  datatype Redemption = Redemption(base: nat, quote: nat)

  function RedemptionOf(precision: int, pair: Pair, liquidity: nat, supply: nat): Redemption
    requires precision > 0 && supply > 0
  {
    MulAndQuoIsFloor(precision, pair.base.amount, liquidity, supply);
    MulAndQuoIsFloor(precision, pair.quote.amount, liquidity, supply);
    FloorIsGreatest(pair.base.amount * liquidity, supply, 0);
    FloorIsGreatest(pair.quote.amount * liquidity, supply, 0);
    Redemption(Redeem(precision, pair.base.amount, liquidity, supply),
               Redeem(precision, pair.quote.amount, liquidity, supply))
  }

  function Remove(env: Env, st: State, msg: Msg): Outcome
    requires ValidEnv(env) && msg.RemoveLiquidity? && msg.liquidity > 0
  {
    var name := PairName(msg.minBase.denom, msg.minQuote.denom);
    if msg.deadline < env.blockTime then Failed(DeadlinePassed)
    else if name !in st.pairs then Failed(PairMissing)
    else
      var pair := st.pairs[name];
      var supply := SupplyOf(st.supply, pair.poolToken);
      if supply < msg.liquidity then Failed(SupplyBelowLiquidity) else
        var redeemed := RedemptionOf(env.precision, pair, msg.liquidity, supply);
        var baseOut := Coin(pair.base.denom, redeemed.base);
        var quoteOut := Coin(pair.quote.denom, redeemed.quote);
        if baseOut.denom != msg.minBase.denom || quoteOut.denom != msg.minQuote.denom then Failed(CoinPanic)
        else if baseOut.amount < msg.minBase.amount then Failed(BaseBelowMin)
        else if quoteOut.amount < msg.minQuote.amount then Failed(QuoteBelowMin)
        else
          match PayAll(st.ledger, SWAP_ACCOUNT, msg.sender, CoinSort([baseOut, quoteOut]))
          case None => Failed(PoolFunds)
          case Some(paid) =>
            match Regrouped(pair, SubCoin(pair.quote, quoteOut), SubCoin(pair.base, baseOut))
            case None => Failed(CoinPanic)
            case Some(pair') =>
              BurnFromUser(st.(pairs := st.pairs[name := pair'], ledger := paid), Coin(pair.poolToken, msg.liquidity), msg.sender)
  }

  predicate Empty(pair: Pair) {
    pair.base.amount == 0 || pair.quote.amount == 0
  }

  function TokenToBuy(env: Env, pair: Pair, sell: Coin, buyDenom: string): (c: Coin)
    requires ValidEnv(env) && !Empty(pair)
    ensures c.denom == buyDenom
    ensures c.amount < if Less(buyDenom, sell.denom) then pair.base.amount else pair.quote.amount
  {
    var input, output :=
      if Less(buyDenom, sell.denom) then pair.quote.amount else pair.base.amount,
      if Less(buyDenom, sell.denom) then pair.base.amount else pair.quote.amount;
    PriceIsFloor(env.precision, sell.amount, input, output, env.feeRate);
    Coin(buyDenom, GetInputPrice(env.precision, sell.amount, input, output, env.feeRate))
  }

  /** `swapTokenNativeToken`: collect what is sold, pay out what is bought, write the pair back. */
  function Exchange(st: State, pair: Pair, bought: Coin, msg: Msg): Outcome
    requires msg.TokenToToken?
  {
    match Pay(st.ledger, msg.sender, SWAP_ACCOUNT, msg.sold)
    case None => Failed(UserFunds)
    case Some(collected) =>
      match Pay(collected, SWAP_ACCOUNT, msg.recipient, bought)
      case None => Failed(PoolFunds)
      case Some(paid) =>
        var regrouped :=
          if Less(msg.minBought.denom, msg.sold.denom) then
            Regrouped(pair, AddCoin(pair.quote, msg.sold), SubCoin(pair.base, bought))
          else
            Regrouped(pair, SubCoin(pair.quote, bought), AddCoin(pair.base, msg.sold));
        match regrouped
        case None => Failed(CoinPanic)
        case Some(pair') =>
          Done(st.(pairs := st.pairs[PairName(msg.minBought.denom, msg.sold.denom) := pair'], ledger := paid))
  }

  function SwapDirect(env: Env, st: State, msg: Msg): Outcome
    requires ValidEnv(env) && msg.TokenToToken?
  {
    var name := PairName(msg.minBought.denom, msg.sold.denom);
    if Held(st.ledger, msg.sender, msg.sold.denom) < msg.sold.amount then Failed(UserFunds)
    else if msg.deadline < env.blockTime then Failed(DeadlinePassed)
    else if name !in st.pairs then Failed(PairMissing)
    else
      var pair := st.pairs[name];
      if Empty(pair) then Failed(ZeroReserve) else
        var bought := TokenToBuy(env, pair, msg.sold, msg.minBought.denom);
        if bought.amount == 0 then Failed(ZeroBought)
        else if bought.amount < msg.minBought.amount then Failed(BoughtBelowMin)
        else Exchange(st, pair, bought, msg)
  }

  /** `swapTokenByRouter`: both pairs are read, and both legs priced, before anything moves. */
  function SwapRouted(env: Env, st: State, msg: Msg): Outcome
    requires ValidEnv(env) && msg.TokenToToken?
  {
    var name1 := PairName(msg.sold.denom, env.native);
    var name2 := PairName(msg.minBought.denom, env.native);
    if msg.deadline < env.blockTime then Failed(DeadlinePassed)
    else if Held(st.ledger, msg.sender, msg.sold.denom) < msg.sold.amount then Failed(UserFunds)
    else if name1 !in st.pairs then Failed(PairMissing)
    else if Empty(st.pairs[name1]) then Failed(ZeroReserve)
    else if name2 !in st.pairs then Failed(PairMissing)
    else if Empty(st.pairs[name2]) then Failed(ZeroReserve)
    else
      var nativeBought := TokenToBuy(env, st.pairs[name1], msg.sold, env.native);
      if nativeBought.amount == 0 then Failed(ZeroBought) else
        var bought := TokenToBuy(env, st.pairs[name2], nativeBought, msg.minBought.denom);
        if bought.amount == 0 then Failed(ZeroBought)
        else if bought.amount < msg.minBought.amount then Failed(BoughtBelowMin)
        else BothLegs(env, st, msg, nativeBought, bought)
  }

  /** Both exchanges of a routed swap, at the prices already taken. */
  function BothLegs(env: Env, st: State, msg: Msg, nativeBought: Coin, bought: Coin): Outcome
    requires msg.TokenToToken?
    requires PairName(msg.sold.denom, env.native) in st.pairs && PairName(msg.minBought.denom, env.native) in st.pairs
  {
    var pair2 := st.pairs[PairName(msg.minBought.denom, env.native)];
    match Exchange(st, st.pairs[PairName(msg.sold.denom, env.native)], nativeBought, msg.(minBought := Coin(env.native, 0)))
    case Failed(e) => Failed(e)
    case Done(st1) => Exchange(st1, pair2, bought, msg.(sold := nativeBought))
  }

  function SwapTokens(env: Env, st: State, msg: Msg): Outcome
    requires ValidEnv(env) && msg.TokenToToken?
  {
    if PairName(msg.minBought.denom, msg.sold.denom) in st.pairs then SwapDirect(env, st, msg)
    else SwapRouted(env, st, msg)
  }

  function Handle(env: Env, st: State, msg: Msg): Outcome
    requires ValidEnv(env) && ValidMsg(msg)
  {
    match msg
    case CreateExchange(_, _, _) => Create(st, msg)
    case AddLiquidity(_, _, _, _, _) => Add(env, st, msg)
    case RemoveLiquidity(_, _, _, _, _) => Remove(env, st, msg)
    case TokenToToken(_, _, _, _, _) => SwapTokens(env, st, msg)
  }

  /** A transaction that fails leaves the chain as it was. */
  function Deliver(env: Env, st: State, msg: Msg): State
    requires ValidEnv(env) && ValidMsg(msg)
  {
    match Handle(env, st, msg)
    case Done(st') => st'
    case Failed(_) => st
  }

  /** `queryBuyAmount`: the amount a sale would bring, before any account is looked at. */
  function QueryBuyAmount(env: Env, st: State, sold: Coin, buy: string): Option<nat>
    requires ValidEnv(env)
  {
    if !ValidSwapName(buy) || !ValidSwapName(sold.denom) then None else
      var name := PairName(sold.denom, buy);
      if name in st.pairs then
        if Empty(st.pairs[name]) then None else Some(TokenToBuy(env, st.pairs[name], sold, buy).amount)
      else
        var name1, name2 := PairName(sold.denom, env.native), PairName(buy, env.native);
        if name1 !in st.pairs || Empty(st.pairs[name1]) then None
        else if name2 !in st.pairs || Empty(st.pairs[name2]) then None
        else
          var native := TokenToBuy(env, st.pairs[name1], sold, env.native);
          Some(TokenToBuy(env, st.pairs[name2], native, buy).amount)
  }
}
