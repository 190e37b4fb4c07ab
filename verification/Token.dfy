/** The token module: records and owners of tokens, pending transfers of ownership, and coins locked
    in escrow (x/token). The functions say what each handler computes; `TokenKeeper` is the code. */
module Token {
  import opened Options

  type Address = string

  /** The module account all locked coins sit in, and the one fees go to. */
  const TOKEN_ACCOUNT: Address := "token"
  const FEE_COLLECTOR: Address := "fee_collector"
  const BLACK_HOLE: Address := "0000000000000000000000000000000000000000"

  // ---------------------------------------------------------------- coins and accounts

  /** A set of coins in raw units: a bag that holds each denomination once for every unit of it. */
  type Coins = multiset<string>

  function One(denom: string, amount: nat): Coins {
    multiset{}[denom := amount]
  }

  type Ledger = map<Address, Coins>

  function Balance(l: Ledger, who: Address): Coins {
    if who in l then l[who] else multiset{}
  }

  function Credit(l: Ledger, who: Address, coins: Coins): Ledger {
    l[who := Balance(l, who) + coins]
  }

  /** The bank refuses a transfer the payer cannot cover. */
  function Send(l: Ledger, payer: Address, payee: Address, coins: Coins): Option<Ledger> {
    if coins <= Balance(l, payer) then Some(Credit(l[payer := Balance(l, payer) - coins], payee, coins)) else None
  }

  // ---------------------------------------------------------------- state

  datatype Info = Info(symbol: string, owner: Address, mintable: bool, description: string)

  datatype Confirm = Confirm(symbol: string, address: Address, expire: int)

  type Locks = map<Address, Coins>

  /** `owned` is the store's index of owner and symbol. */
  datatype State = State(
    tokens: map<string, Info>,
    owned: set<(Address, string)>,
    pending: map<string, Confirm>,
    supply: map<string, nat>,
    ledger: Ledger,
    quantityLocks: Locks,
    feeLocks: Locks)

  function SupplyOf(supply: map<string, nat>, denom: string): nat {
    if denom in supply then supply[denom] else 0
  }

  /** `txHash`: the hash of the transaction, in hexadecimal digits. `wellFormed`: the names the Cosmos SDK
      accepts for coins. */
  datatype Env = Env(
    blockTime: int, confirmWindow: int, upperBound: nat,
    txHash: string, wellFormed: string -> bool,
    feeIssue: Coins, feeMint: Coins, feeBurn: Coins, feeChown: Coins, feeModify: Coins,
    sendEnabled: bool,
    blacklist: set<Address>,   // accounts that may not receive: the module accounts are among them
    contracts: set<Address>)   // contracts that may not receive, once the chain refuses them

  datatype Error =
    | TooMuchSupply | NoName | NotOwner | NotMintable | StillPending | NothingPending | Expired
    | WrongAddress | TokenMissing | NothingModified | BadLockType | NotLocked
    | SendDisabled | BlockedRecipient | BlockedContract
    | UserFunds     // an account cannot cover what it must pay
    | ModuleFunds   // the module account cannot cover what it must pay

  datatype Outcome = Done(state: State) | Failed(error: Error)

  /** `Issue` names the symbol the owner would like; the token gets a suffix to it. */
  datatype Msg =
    | Issue(owner: Address, symbol: string, totalSupply: nat, mintable: bool, description: string)
    | Mint(owner: Address, denom: string, amount: nat)
    | Burn(owner: Address, denom: string, amount: nat)
    | TransferOwnership(from: Address, to: Address, symbol: string)
    | ConfirmOwnership(address: Address, symbol: string)
    | Modify(owner: Address, symbol: string, change: Option<string>)
    | SendOne(from: Address, to: Address, coins: Coins)
    | SendMany(from: Address, transfers: seq<Transfer>)

  datatype Transfer = Transfer(to: Address, coins: Coins)

  function Signer(msg: Msg): Address {
    match msg
    case Issue(owner, _, _, _, _) => owner
    case Mint(owner, _, _) => owner
    case Burn(owner, _, _) => owner
    case TransferOwnership(from, _, _) => from
    case ConfirmOwnership(address, _) => address
    case Modify(owner, _, _) => owner
    case SendOne(from, _, _) => from
    case SendMany(from, _) => from
  }

  // ---------------------------------------------------------------- records

  /** `NewToken` also stands for a change of owner: the record is written and indexed. */
  function NewToken(st: State, info: Info): State {
    st.(tokens := st.tokens[info.symbol := info], owned := st.owned + {(info.owner, info.symbol)})
  }

  function DeleteUserToken(st: State, owner: Address, symbol: string): State {
    st.(owned := st.owned - {(owner, symbol)})
  }

  function Reowned(st: State, symbol: string, owner: Address): State
    requires symbol in st.tokens
  {
    var info := st.tokens[symbol];
    NewToken(DeleteUserToken(st, info.owner, info.symbol), info.(owner := owner))
  }

  predicate OwnedBy(st: State, symbol: string, who: Address) {
    symbol in st.tokens && st.tokens[symbol].owner == who
  }

  // ---------------------------------------------------------------- handlers

  function Moved(st: State, payer: Address, payee: Address, coins: Coins, error: Error): Outcome {
    match Send(st.ledger, payer, payee, coins)
    case None => Failed(error)
    case Some(l) => Done(st.(ledger := l))
  }

  function PayFee(st: State, who: Address, fee: Coins): Outcome {
    Moved(st, who, FEE_COLLECTOR, fee, UserFunds)
  }

  function Minted(st: State, denom: string, amount: nat): State {
    st.(supply := st.supply[denom := SupplyOf(st.supply, denom) + amount],
        ledger := Credit(st.ledger, TOKEN_ACCOUNT, One(denom, amount)))
  }

  /** Coins are minted to the module account and sent on. */
  function MintTo(st: State, who: Address, denom: string, amount: nat): Outcome {
    Moved(Minted(st, denom, amount), TOKEN_ACCOUNT, who, One(denom, amount), ModuleFunds)
  }

  function Burned(st: State, denom: string, amount: nat): Outcome {
    var coins, held := One(denom, amount), Balance(st.ledger, TOKEN_ACCOUNT);
    if !(coins <= held) || SupplyOf(st.supply, denom) < amount then Failed(ModuleFunds)
    else Done(st.(supply := st.supply[denom := SupplyOf(st.supply, denom) - amount], ledger := st.ledger[TOKEN_ACCOUNT := held - coins]))
  }

  /** Coins are collected by the module account and burned there. */
  function BurnFrom(st: State, who: Address, denom: string, amount: nat): Outcome {
    match Moved(st, who, TOKEN_ACCOUNT, One(denom, amount), UserFunds)
    case Failed(e) => Failed(e)
    case Done(st1) => Burned(st1, denom, amount)
  }

  /** The name made of a symbol and the `i`-th three digits of the transaction's hash. */
  function Suffixed(symbol: string, hash: string, i: nat): string
    requires 3 * i + 3 <= |hash|
  {
    symbol + "-" + hash[3 * i..3 * i + 3]
  }

  /** Of the first `n` candidates the last that is not taken; none if one after it is ill formed. */
  function NewName(symbol: string, hash: string, valid: string -> bool, tokens: map<string, Info>, n: nat): Option<string>
    requires 3 * n <= |hash|
    decreases n
  {
    if n == 0 then None else
      var name := Suffixed(symbol, hash, n - 1);
      if !valid(name) then None
      else if name !in tokens then Some(name)
      else NewName(symbol, hash, valid, tokens, n - 1)
  }

  function NameOf(env: Env, st: State, msg: Msg): Option<string>
    requires msg.Issue?
  {
    NewName(msg.symbol, env.txHash, env.wellFormed, st.tokens, |env.txHash| / 3)
  }

  lemma {:induction false} NewNameIsFree(symbol: string, hash: string, valid: string -> bool, tokens: map<string, Info>, n: nat)
    requires 3 * n <= |hash|
    ensures var name := NewName(symbol, hash, valid, tokens, n); name.Some? ==> valid(name.value) && name.value !in tokens
    decreases n
  {
    if n > 0 { NewNameIsFree(symbol, hash, valid, tokens, n - 1); }
  }

  function Issued(env: Env, st: State, msg: Msg, name: string): Outcome
    requires msg.Issue?
  {
    match MintTo(st, msg.owner, name, msg.totalSupply)
    case Failed(e) => Failed(e)
    case Done(st1) => PayFee(NewToken(st1, Info(name, msg.owner, msg.mintable, msg.description)), msg.owner, env.feeIssue)
  }

  function HandleIssue(env: Env, st: State, msg: Msg): Outcome
    requires msg.Issue?
  {
    if msg.totalSupply > env.upperBound then Failed(TooMuchSupply) else
      match NameOf(env, st, msg)
      case None => Failed(NoName)
      case Some(name) => Issued(env, st, msg, name)
  }

  function HandleMint(env: Env, st: State, msg: Msg): Outcome
    requires msg.Mint?
  {
    if !OwnedBy(st, msg.denom, msg.owner) then Failed(NotOwner)
    else if !st.tokens[msg.denom].mintable then Failed(NotMintable)
    else if SupplyOf(st.supply, msg.denom) + msg.amount > env.upperBound then Failed(TooMuchSupply)
    else
      match MintTo(st, msg.owner, msg.denom, msg.amount)
      case Failed(e) => Failed(e)
      case Done(st1) => PayFee(st1, msg.owner, env.feeMint)
  }

  function HandleBurn(env: Env, st: State, msg: Msg): Outcome
    requires msg.Burn?
  {
    if !OwnedBy(st, msg.denom, msg.owner) then Failed(NotOwner)
    else
      match BurnFrom(st, msg.owner, msg.denom, msg.amount)
      case Failed(e) => Failed(e)
      case Done(st1) => PayFee(st1, msg.owner, env.feeBurn)
  }

  /** A request to the black hole takes effect at once, any other waits to be confirmed. */
  function AfterRequest(env: Env, st: State, msg: Msg): State
    requires msg.TransferOwnership? && msg.symbol in st.tokens
  {
    if msg.to == BLACK_HOLE then Reowned(st, msg.symbol, msg.to)
    else st.(pending := st.pending[msg.symbol := Confirm(msg.symbol, msg.to, env.blockTime + env.confirmWindow)])
  }

  function HandleTransfer(env: Env, st: State, msg: Msg): Outcome
    requires msg.TransferOwnership?
  {
    if !OwnedBy(st, msg.symbol, msg.from) then Failed(NotOwner)
    else if msg.symbol in st.pending && !(env.blockTime > st.pending[msg.symbol].expire) then Failed(StillPending)
    else PayFee(AfterRequest(env, st, msg), msg.from, env.feeChown)
  }

  function AfterConfirm(st: State, msg: Msg): State
    requires msg.ConfirmOwnership? && msg.symbol in st.tokens && msg.symbol in st.pending
  {
    var st1 := Reowned(st, msg.symbol, msg.address);
    st1.(pending := st1.pending - {st.pending[msg.symbol].symbol})
  }

  function HandleConfirm(env: Env, st: State, msg: Msg): Outcome
    requires msg.ConfirmOwnership?
  {
    if msg.symbol !in st.pending then Failed(NothingPending)
    else
      var confirm := st.pending[msg.symbol];
      if env.blockTime > confirm.expire then Failed(Expired)
      else if confirm.address != msg.address then Failed(WrongAddress)
      else if msg.symbol !in st.tokens then Failed(TokenMissing)
      else
        Done(AfterConfirm(st, msg))
  }

  function AfterModify(st: State, msg: Msg): State
    requires msg.Modify? && msg.symbol in st.tokens && msg.change.Some?
  {
    var info := st.tokens[msg.symbol].(description := msg.change.value);
    st.(tokens := st.tokens[info.symbol := info])
  }

  function HandleModify(env: Env, st: State, msg: Msg): Outcome
    requires msg.Modify?
  {
    if !OwnedBy(st, msg.symbol, msg.owner) then Failed(NotOwner)
    else if msg.change.None? then Failed(NothingModified)
    else PayFee(AfterModify(st, msg), msg.owner, env.feeModify)
  }

  /** `SendCoinsFromAccountToAccount`. */
  function SendTo(env: Env, st: State, payer: Address, t: Transfer): Outcome {
    if t.to in env.blacklist then Failed(BlockedRecipient)
    else if t.to in env.contracts then Failed(BlockedContract)
    else Moved(st, payer, t.to, t.coins, UserFunds)
  }

  function SendEach(env: Env, st: State, payer: Address, transfers: seq<Transfer>): Outcome
    decreases |transfers|
  {
    if transfers == [] then Done(st) else
      match SendTo(env, st, payer, transfers[0])
      case Failed(e) => Failed(e)
      case Done(st1) => SendEach(env, st1, payer, transfers[1..])
  }

  function HandleSend(env: Env, st: State, msg: Msg): Outcome
    requires msg.SendOne? || msg.SendMany?
  {
    if !env.sendEnabled then Failed(SendDisabled)
    else if msg.SendOne? then SendTo(env, st, msg.from, Transfer(msg.to, msg.coins))
    else SendEach(env, st, msg.from, msg.transfers)
  }

  function Handle(env: Env, st: State, msg: Msg): Outcome {
    match msg
    case Issue(_, _, _, _, _) => HandleIssue(env, st, msg)
    case Mint(_, _, _) => HandleMint(env, st, msg)
    case Burn(_, _, _) => HandleBurn(env, st, msg)
    case TransferOwnership(_, _, _) => HandleTransfer(env, st, msg)
    case ConfirmOwnership(_, _) => HandleConfirm(env, st, msg)
    case Modify(_, _, _) => HandleModify(env, st, msg)
    case SendOne(_, _, _) => HandleSend(env, st, msg)
    case SendMany(_, _) => HandleSend(env, st, msg)
  }

  // ---------------------------------------------------------------- escrow

  const LOCK_QUANTITY := 1
  const LOCK_FEE := 2

  function LockedBy(locks: Locks, who: Address): Coins {
    if who in locks then locks[who] else multiset{}
  }

  /** A record with no coins left in it is deleted. */
  function StoreLock(locks: Locks, who: Address, coins: Coins): Locks {
    if coins == multiset{} then locks - {who} else locks[who := coins]
  }

  /** `updateLockedCoins` on one of the two ledgers of locked coins. */
  function UpdateLocks(locks: Locks, who: Address, coins: Coins, doAdd: bool): Option<Locks> {
    if doAdd then
      Some(StoreLock(locks, who, if who in locks then locks[who] + coins else coins))
    else if who !in locks || !(coins <= locks[who]) then None
    else Some(StoreLock(locks, who, locks[who] - coins))
  }

  function UpdateLocked(st: State, who: Address, coins: Coins, doAdd: bool, kind: int): Outcome {
    if kind == LOCK_QUANTITY then
      match UpdateLocks(st.quantityLocks, who, coins, doAdd)
      case None => Failed(NotLocked)
      case Some(locks) => Done(st.(quantityLocks := locks))
    else if kind == LOCK_FEE then
      match UpdateLocks(st.feeLocks, who, coins, doAdd)
      case None => Failed(NotLocked)
      case Some(locks) => Done(st.(feeLocks := locks))
    else Failed(BadLockType)
  }

  function Lock(st: State, who: Address, coins: Coins, kind: int): Outcome {
    match Send(st.ledger, who, TOKEN_ACCOUNT, coins)
    case None => Failed(UserFunds)
    case Some(l) => UpdateLocked(st.(ledger := l), who, coins, true, kind)
  }

  function Unlock(st: State, who: Address, coins: Coins, kind: int): Outcome {
    match UpdateLocked(st, who, coins, false, kind)
    case Failed(e) => Failed(e)
    case Done(st1) =>
      match Send(st1.ledger, TOKEN_ACCOUNT, who, coins)
      case None => Failed(ModuleFunds)
      case Some(l) => Done(st1.(ledger := l))
  }

  /** `BalanceAccount`: one side of a settled order gives up locked coins and is paid others. */
  datatype Settlement = Settlement(who: Address, output: Coins, input: Coins)

  function Settle(st: State, s: Settlement): Outcome {
    var unlocked := if s.output == multiset{} then Done(st) else UpdateLocked(st, s.who, s.output, false, LOCK_QUANTITY);
    match unlocked
    case Failed(e) => Failed(e)
    case Done(st1) =>
      if s.input == multiset{} then Done(st1) else
        match Send(st1.ledger, TOKEN_ACCOUNT, s.who, s.input)
        case None => Failed(ModuleFunds)
        case Some(l) => Done(st1.(ledger := l))
  }

  function SettleAll(st: State, batch: seq<Settlement>): Outcome
    decreases |batch|
  {
    if batch == [] then Done(st) else
      match Settle(st, batch[0])
      case Failed(e) => Failed(e)
      case Done(st1) => SettleAll(st1, batch[1..])
  }
}
