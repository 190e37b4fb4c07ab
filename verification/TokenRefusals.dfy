/** When a token message, a lock or a settlement is refused: every reason, said of the state and the message,
    and that it goes through exactly when none of them holds. */
module TokenRefusals {
  import opened Options
  import opened Token
  import opened TokenEffects
  import opened TokenSupply
  import opened TokenEscrow
  import TokenOwnership

  /** What the transfers before the `i`-th take from their payer, of which none is to itself. */
  function Spent(payer: Address, transfers: seq<Transfer>): Coins {
    if transfers == [] then multiset{}
    else (if transfers[0].to == payer then multiset{} else transfers[0].coins) + Spent(payer, transfers[1..])
  }

  predicate NotCovered(l: Ledger, payer: Address, transfers: seq<Transfer>) {
    exists i | 0 <= i < |transfers| :: !(Spent(payer, transfers[..i]) + transfers[i].coins <= Balance(l, payer))
  }

  /** Somebody among the recipients is one of these. */
  predicate ToOne(transfers: seq<Transfer>, some: set<Address>) {
    exists i | 0 <= i < |transfers| :: transfers[i].to in some
  }

  predicate IsOwner(st: State, symbol: string, who: Address) {
    symbol in st.tokens && st.tokens[symbol].owner == who
  }

  /** A reason to refuse a message, said of the state and the message. */
  ghost predicate Hindered(env: Env, st: State, msg: Msg, e: Error) {
    match msg
    case Issue(owner, _, totalSupply, _, _) =>
      (match e
       case TooMuchSupply => totalSupply > env.upperBound
       case NoName => forall name: string :: !NameFor(env, st, msg, name)
       case UserFunds => exists name: string :: NameFor(env, st, msg, name) && !(env.feeIssue <= Balance(st.ledger, owner) + One(name, totalSupply))
       case _ => false)
    case Mint(owner, denom, amount) =>
      (match e
       case NotOwner => !IsOwner(st, denom, owner)
       case NotMintable => denom in st.tokens && !st.tokens[denom].mintable
       case TooMuchSupply => SupplyOf(st.supply, denom) + amount > env.upperBound
       case UserFunds => !(env.feeMint <= Balance(st.ledger, owner) + One(denom, amount))
       case _ => false)
    case Burn(owner, denom, amount) =>
      (match e
       case NotOwner => !IsOwner(st, denom, owner)
       case UserFunds => !(One(denom, amount) + env.feeBurn <= Balance(st.ledger, owner))
       case _ => false)
    case TransferOwnership(from, _, symbol) =>
      (match e
       case NotOwner => !IsOwner(st, symbol, from)
       case StillPending => symbol in st.pending && env.blockTime <= st.pending[symbol].expire
       case UserFunds => !(env.feeChown <= Balance(st.ledger, from))
       case _ => false)
    case ConfirmOwnership(address, symbol) =>
      (match e
       case NothingPending => symbol !in st.pending
       case Expired => symbol in st.pending && st.pending[symbol].expire < env.blockTime
       case WrongAddress => symbol in st.pending && st.pending[symbol].address != address
       case _ => false)
    case Modify(owner, symbol, change) =>
      (match e
       case NotOwner => !IsOwner(st, symbol, owner)
       case NothingModified => change.None?
       case UserFunds => !(env.feeModify <= Balance(st.ledger, owner))
       case _ => false)
    case SendOne(from, _, _) => SendHindered(env, st, from, TransfersOf(msg), e)
    case SendMany(from, _) => SendHindered(env, st, from, TransfersOf(msg), e)
  }

  ghost predicate SendHindered(env: Env, st: State, from: Address, transfers: seq<Transfer>, e: Error) {
    match e
    case SendDisabled => !env.sendEnabled
    case BlockedRecipient => ToOne(transfers, env.blacklist)
    case BlockedContract => ToOne(transfers, env.contracts)
    case UserFunds => NotCovered(st.ledger, from, transfers)
    case _ => false
  }

  /** A message that goes through meets no reason to refuse it, and one that fails names a true one. */
  ghost predicate Justified(env: Env, st: State, msg: Msg, o: Outcome) {
    match o
    case Done(_) => forall e: Error :: !Hindered(env, st, msg, e)
    case Failed(e) => Hindered(env, st, msg, e)
  }

  // ---------------------------------------------------------------- issue, mint and burn

  /** After coins were made for an account it can pay a fee exactly if it could with these coins. */
  lemma MintedCovers(st: State, who: Address, denom: string, amount: nat, fee: Coins)
    requires who != TOKEN_ACCOUNT
    ensures MintTo(st, who, denom, amount).Done?
    ensures Balance(MintTo(st, who, denom, amount).state.ledger, who) == Balance(st.ledger, who) + One(denom, amount)
  {
    MintToMoves(st, who, denom, amount);
    var l' := MintTo(st, who, denom, amount).state.ledger;
    forall d: string
      ensures Balance(l', who)[d] == (Balance(st.ledger, who) + One(denom, amount))[d]
    {
      NetOne(Flow(None, Some(who), One(denom, amount)), who, d);
      assert Amount(l', who, d) == Amount(st.ledger, who, d) + Net([Flow(None, Some(who), One(denom, amount))], who, d);
    }
  }

  lemma IssueOutcome(env: Env, st: State, msg: Msg, name: string)
    requires msg.Issue? && msg.owner != TOKEN_ACCOUNT
    ensures Issued(env, st, msg, name).Done? <==> env.feeIssue <= Balance(st.ledger, msg.owner) + One(name, msg.totalSupply)
    ensures Issued(env, st, msg, name).Failed? ==> Issued(env, st, msg, name).error == UserFunds
  {
    MintedCovers(st, msg.owner, name, msg.totalSupply, env.feeIssue);
    var st1 := MintTo(st, msg.owner, name, msg.totalSupply).state;
    FeeMoves(NewToken(st1, Info(name, msg.owner, msg.mintable, msg.description)), msg.owner, env.feeIssue);
  }

  lemma IssueJustified(env: Env, st: State, msg: Msg)
    requires msg.Issue? && msg.owner != TOKEN_ACCOUNT
    ensures Justified(env, st, msg, HandleIssue(env, st, msg))
  {
    NameIs(env, st, msg);
    if NameOf(env, st, msg).Some? { IssueOutcome(env, st, msg, NameOf(env, st, msg).value); }
  }

  lemma MintOutcome(env: Env, st: State, msg: Msg)
    requires msg.Mint? && msg.owner != TOKEN_ACCOUNT
    requires IsOwner(st, msg.denom, msg.owner) && st.tokens[msg.denom].mintable && SupplyOf(st.supply, msg.denom) + msg.amount <= env.upperBound
    ensures HandleMint(env, st, msg).Done? <==> env.feeMint <= Balance(st.ledger, msg.owner) + One(msg.denom, msg.amount)
    ensures HandleMint(env, st, msg).Failed? ==> HandleMint(env, st, msg).error == UserFunds
  {
    MintedCovers(st, msg.owner, msg.denom, msg.amount, env.feeMint);
    FeeMoves(MintTo(st, msg.owner, msg.denom, msg.amount).state, msg.owner, env.feeMint);
  }

  lemma MintJustified(env: Env, st: State, msg: Msg)
    requires msg.Mint? && msg.owner != TOKEN_ACCOUNT
    ensures Justified(env, st, msg, HandleMint(env, st, msg))
  {
    if IsOwner(st, msg.denom, msg.owner) && st.tokens[msg.denom].mintable && SupplyOf(st.supply, msg.denom) + msg.amount <= env.upperBound {
      MintOutcome(env, st, msg);
    }
  }

  lemma Together(a: Coins, b: Coins, c: Coins)
    ensures a + b <= c <==> a <= c && b <= c - a
  {
    if a <= c && b <= c - a {
      assert forall d: string :: (a + b)[d] <= c[d];
    }
    if a + b <= c {
      assert forall d: string :: (a + b)[d] <= c[d];
    }
  }

  /** After an account gave coins up it holds the rest. */
  lemma BurnedCovers(st: State, who: Address, denom: string, amount: nat)
    requires BurnFrom(st, who, denom, amount).Done? && who != TOKEN_ACCOUNT && One(denom, amount) <= Balance(st.ledger, who)
    ensures Balance(BurnFrom(st, who, denom, amount).state.ledger, who) == Balance(st.ledger, who) - One(denom, amount)
  {
    BurnFromMoves(st, who, denom, amount);
    var l' := BurnFrom(st, who, denom, amount).state.ledger;
    forall d: string
      ensures Balance(l', who)[d] == (Balance(st.ledger, who) - One(denom, amount))[d]
    {
      NetOne(Flow(Some(who), None, One(denom, amount)), who, d);
      assert Amount(l', who, d) == Amount(st.ledger, who, d) + Net([Flow(Some(who), None, One(denom, amount))], who, d);
    }
  }

  lemma BurnOutcome(env: Env, st: State, msg: Msg)
    requires SupplyExact(st) && msg.Burn? && msg.owner != TOKEN_ACCOUNT && IsOwner(st, msg.denom, msg.owner)
    ensures HandleBurn(env, st, msg).Done? <==> One(msg.denom, msg.amount) + env.feeBurn <= Balance(st.ledger, msg.owner)
    ensures HandleBurn(env, st, msg).Failed? ==> HandleBurn(env, st, msg).error == UserFunds
  {
    Together(One(msg.denom, msg.amount), env.feeBurn, Balance(st.ledger, msg.owner));
    BurnFromExact(st, msg.owner, msg.denom, msg.amount);
    if One(msg.denom, msg.amount) <= Balance(st.ledger, msg.owner) {
      BurnedCovers(st, msg.owner, msg.denom, msg.amount);
      FeeMoves(BurnFrom(st, msg.owner, msg.denom, msg.amount).state, msg.owner, env.feeBurn);
    }
  }

  lemma BurnJustified(env: Env, st: State, msg: Msg)
    requires SupplyExact(st) && msg.Burn? && msg.owner != TOKEN_ACCOUNT
    ensures Justified(env, st, msg, HandleBurn(env, st, msg))
  {
    if IsOwner(st, msg.denom, msg.owner) { BurnOutcome(env, st, msg); }
  }

  // ---------------------------------------------------------------- records

  lemma TransferJustified(env: Env, st: State, msg: Msg)
    requires msg.TransferOwnership?
    ensures Justified(env, st, msg, HandleTransfer(env, st, msg))
  {
    if IsOwner(st, msg.symbol, msg.from) { FeeMoves(AfterRequest(env, st, msg), msg.from, env.feeChown); }
  }

  lemma ConfirmJustified(env: Env, st: State, msg: Msg)
    requires TokenOwnership.Inv(st) && msg.ConfirmOwnership?
    ensures Justified(env, st, msg, HandleConfirm(env, st, msg))
  {
  }

  lemma ModifyJustified(env: Env, st: State, msg: Msg)
    requires msg.Modify?
    ensures Justified(env, st, msg, HandleModify(env, st, msg))
  {
    if IsOwner(st, msg.symbol, msg.owner) && msg.change.Some? { FeeMoves(AfterModify(st, msg), msg.owner, env.feeModify); }
  }

  // ---------------------------------------------------------------- sends

  /** What the payer has left after one transfer. */
  lemma PayerLeft(l: Ledger, payer: Address, t: Transfer)
    requires t.coins <= Balance(l, payer)
    ensures Send(l, payer, t.to, t.coins).Some?
    ensures Balance(Send(l, payer, t.to, t.coins).value, payer) == Balance(l, payer) - (if t.to == payer then multiset{} else t.coins)
  {
    var held := Balance(l, payer);
    assert held - t.coins + t.coins == held && held - multiset{} == held;
  }

  /** Covering the rest from what is left is covering all of it but the first. */
  lemma RestCovered(left: Coins, held: Coins, first: Coins, spent: Coins, coins: Coins)
    requires first <= held && left == held - first
    ensures spent + coins <= left <==> first + spent + coins <= held
  {
    assert first + spent + coins == first + (spent + coins);
    Together(first, spent + coins, held);
  }

  lemma NotCoveredStep(l: Ledger, l1: Ledger, payer: Address, transfers: seq<Transfer>)
    requires transfers != [] && transfers[0].coins <= Balance(l, payer)
    requires Balance(l1, payer) == Balance(l, payer) - (if transfers[0].to == payer then multiset{} else transfers[0].coins)
    ensures NotCovered(l, payer, transfers) <==> NotCovered(l1, payer, transfers[1..])
  {
    var rest := transfers[1..];
    var first := if transfers[0].to == payer then multiset{} else transfers[0].coins;
    forall j | 0 <= j < |rest|
      ensures Spent(payer, rest[..j]) + rest[j].coins <= Balance(l1, payer) <==> Spent(payer, transfers[..j + 1]) + transfers[j + 1].coins <= Balance(l, payer)
    {
      assert transfers[..j + 1][1..] == rest[..j] && transfers[..j + 1][0] == transfers[0];
      RestCovered(Balance(l1, payer), Balance(l, payer), first, Spent(payer, rest[..j]), rest[j].coins);
    }
    if NotCovered(l1, payer, rest) {
      var j :| 0 <= j < |rest| && !(Spent(payer, rest[..j]) + rest[j].coins <= Balance(l1, payer));
      assert !(Spent(payer, transfers[..j + 1]) + transfers[j + 1].coins <= Balance(l, payer));
    }
    if NotCovered(l, payer, transfers) {
      var i :| 0 <= i < |transfers| && !(Spent(payer, transfers[..i]) + transfers[i].coins <= Balance(l, payer));
      assert rest[i - 1] == transfers[i];
      assert !(Spent(payer, rest[..i - 1]) + rest[i - 1].coins <= Balance(l1, payer));
    }
  }

  lemma ToOneStep(transfers: seq<Transfer>, some: set<Address>)
    requires transfers != []
    ensures ToOne(transfers, some) <==> transfers[0].to in some || ToOne(transfers[1..], some)
  {
    if ToOne(transfers, some) {
      var i :| 0 <= i < |transfers| && transfers[i].to in some;
      if i > 0 { assert transfers[1..][i - 1] == transfers[i]; }
    }
    if ToOne(transfers[1..], some) {
      var i :| 0 <= i < |transfers[1..]| && transfers[1..][i].to in some;
      assert transfers[i + 1].to in some;
    }
  }

  /** How a list of transfers ends. */
  ghost predicate SendsEnd(env: Env, l: Ledger, payer: Address, transfers: seq<Transfer>, o: Outcome) {
    match o
    case Done(_) => !ToOne(transfers, env.blacklist) && !ToOne(transfers, env.contracts) && !NotCovered(l, payer, transfers)
    case Failed(e) =>
      match e
      case BlockedRecipient => ToOne(transfers, env.blacklist)
      case BlockedContract => ToOne(transfers, env.contracts)
      case UserFunds => NotCovered(l, payer, transfers)
      case _ => false
  }

  lemma FirstNotCovered(l: Ledger, payer: Address, transfers: seq<Transfer>)
    requires transfers != [] && !(transfers[0].coins <= Balance(l, payer))
    ensures NotCovered(l, payer, transfers)
  {
    assert transfers[..0] == [];
    assert multiset{} + transfers[0].coins == transfers[0].coins;
    assert !(Spent(payer, transfers[..0]) + transfers[0].coins <= Balance(l, payer));
  }

  lemma {:induction false} SendEachEnds(env: Env, st: State, payer: Address, transfers: seq<Transfer>)
    ensures SendsEnd(env, st.ledger, payer, transfers, SendEach(env, st, payer, transfers))
    decreases |transfers|
  {
    if transfers != [] {
      var t := transfers[0];
      ToOneStep(transfers, env.blacklist);
      ToOneStep(transfers, env.contracts);
      if t.to !in env.blacklist && t.to !in env.contracts {
        if t.coins <= Balance(st.ledger, payer) {
          PayerLeft(st.ledger, payer, t);
          var st1 := SendTo(env, st, payer, t).state;
          NotCoveredStep(st.ledger, st1.ledger, payer, transfers);
          SendEachEnds(env, st1, payer, transfers[1..]);
        } else {
          FirstNotCovered(st.ledger, payer, transfers);
        }
      }
    }
  }

  lemma SendJustified(env: Env, st: State, msg: Msg)
    requires msg.SendOne? || msg.SendMany?
    ensures Justified(env, st, msg, HandleSend(env, st, msg))
  {
    if msg.SendOne? { SendIsEach(env, st, msg.from, Transfer(msg.to, msg.coins)); }
    SendEachEnds(env, st, msg.from, TransfersOf(msg));
  }

  /** Every message goes through exactly when nothing hinders it, and fails only for a reason that is so. */
  lemma HandleJustified(env: Env, st: State, msg: Msg)
    requires TokenOwnership.Inv(st) && SupplyExact(st) && Signer(msg) != TOKEN_ACCOUNT
    ensures Justified(env, st, msg, Handle(env, st, msg))
  {
    match msg
    case Issue(_, _, _, _, _) => IssueJustified(env, st, msg);
    case Mint(_, _, _) => MintJustified(env, st, msg);
    case Burn(_, _, _) => BurnJustified(env, st, msg);
    case TransferOwnership(_, _, _) => TransferJustified(env, st, msg);
    case ConfirmOwnership(_, _) => ConfirmJustified(env, st, msg);
    case Modify(_, _, _) => ModifyJustified(env, st, msg);
    case SendOne(_, _, _) => SendJustified(env, st, msg);
    case SendMany(_, _) => SendJustified(env, st, msg);
  }

  // ---------------------------------------------------------------- locks and settlements

  predicate KnownKind(kind: int) {
    kind == LOCK_QUANTITY || kind == LOCK_FEE
  }

  predicate HasLocked(locks: Locks, who: Address, coins: Coins) {
    who in locks && coins <= locks[who]
  }

  /** Locking goes through exactly for a known kind and coins the account has. */
  predicate LockEnds(st: State, who: Address, coins: Coins, kind: int, o: Outcome) {
    match o
    case Done(_) => KnownKind(kind) && coins <= Balance(st.ledger, who)
    case Failed(e) => (e == UserFunds && !(coins <= Balance(st.ledger, who))) || (e == BadLockType && !KnownKind(kind))
  }

  lemma LockJustified(st: State, who: Address, coins: Coins, kind: int)
    ensures LockEnds(st, who, coins, kind, Lock(st, who, coins, kind))
  {
  }

  /** Unlocking goes through exactly for a known kind and coins the account has locked under it. */
  predicate UnlockEnds(st: State, who: Address, coins: Coins, kind: int, o: Outcome) {
    match o
    case Done(_) => KnownKind(kind) && HasLocked(LocksOf(st, kind), who, coins)
    case Failed(e) => (e == NotLocked && !HasLocked(LocksOf(st, kind), who, coins)) || (e == BadLockType && !KnownKind(kind))
  }

  lemma UnlockJustified(st: State, who: Address, coins: Coins, kind: int)
    requires Backed(st) && who != TOKEN_ACCOUNT
    ensures UnlockEnds(st, who, coins, kind, Unlock(st, who, coins, kind))
  {
    UnlockKeepsBacked(st, who, coins, kind);
  }

  /** A settlement goes through exactly when the output is locked and the module account has the input. */
  predicate SettleEnds(st: State, s: Settlement, o: Outcome) {
    match o
    case Done(_) => (s.output == multiset{} || HasLocked(st.quantityLocks, s.who, s.output)) && s.input <= Balance(st.ledger, TOKEN_ACCOUNT)
    case Failed(e) =>
      || (e == NotLocked && s.output != multiset{} && !HasLocked(st.quantityLocks, s.who, s.output))
      || (e == ModuleFunds && !(s.input <= Balance(st.ledger, TOKEN_ACCOUNT)))
  }

  lemma SettleJustified(st: State, s: Settlement)
    ensures SettleEnds(st, s, Settle(st, s))
  {
  }
}
