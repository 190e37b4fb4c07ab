/** The token module as code (x/token/handler.go, x/token/keeper.go): stores are set and deleted one
    after the other. */
module TokenKeeper {
  import opened Options
  import opened Token
  import opened TokenOwnership
  import opened TokenEscrow
  import opened TokenSupply
  import opened TokenEffects
  import opened TokenRefusals

  // ---------------------------------------------------------------- names of new tokens

  /** `addTokenSuffix` tries its candidates, last first, until one is free or ill formed. The first of
      these decides: a name is returned exactly when that one is well formed. */
  method AddTokenSuffix(symbol: string, hash: string, valid: string -> bool, tokens: map<string, Info>) returns (name: Option<string>)
    ensures name == NewName(symbol, hash, valid, tokens, |hash| / 3)
    ensures name.Some? ==> valid(name.value) && name.value !in tokens
    ensures name.Some? <==> exists i: nat :: Decides(symbol, hash, valid, tokens, i) && valid(Suffixed(symbol, hash, i))
    ensures name.Some? ==> exists i: nat :: Decides(symbol, hash, valid, tokens, i) && name.value == Suffixed(symbol, hash, i)
  {
    var i := |hash| / 3 - 1;
    while i >= 0
      invariant -1 <= i < |hash| / 3
      invariant AllTaken(symbol, hash, valid, tokens, i + 1)
      invariant NewName(symbol, hash, valid, tokens, |hash| / 3) == NewName(symbol, hash, valid, tokens, i + 1)
    {
      var candidate := Suffixed(symbol, hash, i);
      if !valid(candidate) || candidate !in tokens {
        assert Decides(symbol, hash, valid, tokens, i);
        forall j: nat | Decides(symbol, hash, valid, tokens, j)
          ensures j == i
        {
          OneDecides(symbol, hash, valid, tokens, i, j);
        }
      }
      if !valid(candidate) {
        return None;
      }
      if candidate !in tokens {
        return Some(candidate);
      }
      i := i - 1;
    }
    forall j: nat
      ensures !Decides(symbol, hash, valid, tokens, j)
    {
      if j < |hash| / 3 { var name := Suffixed(symbol, hash, j); }
    }
    return None;
  }

  // ---------------------------------------------------------------- what every transaction keeps

  /** The index of owners is exact, all locked coins are backed, and every supply is what is held. */
  ghost predicate Sound(st: State) {
    Inv(st) && Backed(st) && SupplyExact(st)
  }

  /** A message of any account but the module's own, on a chain that blacklists module accounts. */
  predicate Sendable(env: Env, msg: Msg) {
    Signer(msg) != TOKEN_ACCOUNT && TOKEN_ACCOUNT in env.blacklist
  }

  /** The failures no message can meet in a sound state. */
  predicate Impossible(e: Error) {
    e.TokenMissing? || e.ModuleFunds?
  }

  ghost predicate Proper(o: Outcome) {
    match o
    case Done(st) => Sound(st)
    case Failed(e) => !Impossible(e)
  }

  lemma KeepsInv(env: Env, st: State, msg: Msg)
    requires Inv(st) && Handle(env, st, msg).Done?
    ensures Inv(Handle(env, st, msg).state)
  {
    HandledRecords(env, st, msg);
    RecordsKeep(env, st, msg);
    SameRecordsKeep(RecordsAfter(env, st, msg), Handle(env, st, msg).state);
  }

  lemma KeepsBacked(env: Env, st: State, msg: Msg)
    requires Backed(st) && Sendable(env, msg) && Handle(env, st, msg).Done?
    ensures Backed(Handle(env, st, msg).state)
  {
    MessagesLeaveEscrow(env, st, msg);
  }

  lemma {:induction false} SendsNeedNoModule(env: Env, st: State, payer: Address, transfers: seq<Transfer>)
    ensures SendEach(env, st, payer, transfers) != Failed(ModuleFunds)
    decreases |transfers|
  {
    if transfers != [] && SendTo(env, st, payer, transfers[0]).Done? {
      SendsNeedNoModule(env, SendTo(env, st, payer, transfers[0]).state, payer, transfers[1..]);
    }
  }

  lemma IssuersNeedNoFunds(env: Env, st: State, msg: Msg, name: string)
    requires msg.Issue? && msg.owner != TOKEN_ACCOUNT
    ensures Issued(env, st, msg, name) != Failed(ModuleFunds)
  {
    MintLeaves(st, msg.owner, name, msg.totalSupply);
  }

  lemma MintersNeedNoFunds(env: Env, st: State, msg: Msg)
    requires (msg.Issue? || msg.Mint?) && msg.owner != TOKEN_ACCOUNT
    ensures Handle(env, st, msg) != Failed(ModuleFunds)
  {
    if msg.Issue? {
      if NameOf(env, st, msg).Some? { IssuersNeedNoFunds(env, st, msg, NameOf(env, st, msg).value); }
    } else {
      MintLeaves(st, msg.owner, msg.denom, msg.amount);
    }
  }

  lemma BurnersNeedNoFunds(env: Env, st: State, msg: Msg)
    requires SupplyExact(st) && msg.Burn?
    ensures HandleBurn(env, st, msg) != Failed(ModuleFunds)
  {
    BurnFromExact(st, msg.owner, msg.denom, msg.amount);
  }

  lemma ModuleNeverShort(env: Env, st: State, msg: Msg)
    requires SupplyExact(st) && Sendable(env, msg)
    ensures Handle(env, st, msg) != Failed(ModuleFunds)
  {
    match msg
    case Issue(_, _, _, _, _) => MintersNeedNoFunds(env, st, msg);
    case Mint(_, _, _) => MintersNeedNoFunds(env, st, msg);
    case Burn(_, _, _) => BurnersNeedNoFunds(env, st, msg);
    case TransferOwnership(_, _, _) =>
    case ConfirmOwnership(_, _) =>
    case Modify(_, _, _) =>
    case SendOne(_, _, _) =>
    case SendMany(from, transfers) => SendsNeedNoModule(env, st, from, transfers);
  }

  /** Every message keeps the state sound, and none fails for lack of module funds or a lost record. */
  lemma HandledProperly(env: Env, st: State, msg: Msg)
    requires Sound(st) && Sendable(env, msg)
    ensures Proper(Handle(env, st, msg))
  {
    NeverMissing(env, st, msg);
    ModuleNeverShort(env, st, msg);
    if Handle(env, st, msg).Done? {
      KeepsInv(env, st, msg);
      KeepsBacked(env, st, msg);
      MessagesKeepSupply(env, st, msg);
    }
  }

  lemma HandledAsStated(env: Env, st: State, msg: Msg)
    requires Sound(st) && Sendable(env, msg)
    ensures Justified(env, st, msg, Handle(env, st, msg))
    ensures Handle(env, st, msg).Done? ==> Effect(env, st, Handle(env, st, msg).state, msg)
  {
    HandleJustified(env, st, msg);
    if Handle(env, st, msg).Done? { HandleEffect(env, st, msg); }
  }

  /** What a settlement means for the account settled, the module account and everybody else. */
  lemma SettledAsStated(st: State, s: Settlement)
    requires s.who != TOKEN_ACCOUNT
    ensures SettleEnds(st, s, Settle(st, s))
    ensures Settle(st, s).Done? ==>
      && SettledFor(st, Settle(st, s).state, s)
      && Balance(Settle(st, s).state.ledger, TOKEN_ACCOUNT) + s.input == Balance(st.ledger, TOKEN_ACCOUNT)
      && Balance(Settle(st, s).state.ledger, s.who) == Balance(st.ledger, s.who) + s.input
      && Escrow(Settle(st, s).state) + s.output == Escrow(st)
  {
    SettleJustified(st, s);
    if GivenUp(st, s).Done? { SettleEffect(st, s); }
    if Settle(st, s).Done? {
      SettlesFor(st, s);
      SettledIsPaid(st.ledger, Settle(st, s).state.ledger, s);
    }
  }

  lemma SettledIsPaid(l: Ledger, l': Ledger, s: Settlement)
    requires s.who != TOKEN_ACCOUNT && Moves(l, l', [Transferred(TOKEN_ACCOUNT, s.who, s.input)])
    ensures Balance(l', s.who) == Balance(l, s.who) + s.input
  {
    forall d: string
      ensures Balance(l', s.who)[d] == (Balance(l, s.who) + s.input)[d]
    {
      NetOne(Transferred(TOKEN_ACCOUNT, s.who, s.input), s.who, d);
      assert Amount(l', s.who, d) == Amount(l, s.who, d) + Net([Transferred(TOKEN_ACCOUNT, s.who, s.input)], s.who, d);
    }
  }

  lemma LockKeepsInv(st: State, who: Address, coins: Coins, kind: int)
    requires Inv(st) && Lock(st, who, coins, kind).Done?
    ensures Inv(Lock(st, who, coins, kind).state)
  {
    LockSameRecords(st, who, coins, kind);
    SameRecordsKeep(st, Lock(st, who, coins, kind).state);
  }

  lemma LockSameRecords(st: State, who: Address, coins: Coins, kind: int)
    requires Lock(st, who, coins, kind).Done?
    ensures SameRecords(st, Lock(st, who, coins, kind).state)
  {
    UpdateSameRecords(st.(ledger := Send(st.ledger, who, TOKEN_ACCOUNT, coins).value), who, coins, true, kind);
  }

  lemma UpdateSameRecords(st: State, who: Address, coins: Coins, doAdd: bool, kind: int)
    ensures UpdateLocked(st, who, coins, doAdd, kind).Done? ==> SameRecords(st, UpdateLocked(st, who, coins, doAdd, kind).state)
  {
  }

  lemma LockAddsEscrow(st: State, who: Address, coins: Coins, kind: int)
    requires Lock(st, who, coins, kind).Done?
    ensures Escrow(Lock(st, who, coins, kind).state) == Escrow(st) + coins
  {
    EscrowUpdated(st.(ledger := Send(st.ledger, who, TOKEN_ACCOUNT, coins).value), who, coins, true, kind);
  }

  lemma LockedSoundly(st: State, who: Address, coins: Coins, kind: int)
    requires Sound(st) && who != TOKEN_ACCOUNT
    ensures var o := Lock(st, who, coins, kind);
            o.Done? ==> Sound(o.state) && Escrow(o.state) == Escrow(st) + coins
  {
    LockKeepsBacked(st, who, coins, kind);
    LockExact(st, who, coins, kind);
    if Lock(st, who, coins, kind).Done? {
      LockKeepsInv(st, who, coins, kind);
      LockAddsEscrow(st, who, coins, kind);
    }
  }

  lemma UnlockKeepsInv(st: State, who: Address, coins: Coins, kind: int)
    requires Inv(st) && Unlock(st, who, coins, kind).Done?
    ensures Inv(Unlock(st, who, coins, kind).state)
  {
    UnlockSameRecords(st, who, coins, kind);
    SameRecordsKeep(st, Unlock(st, who, coins, kind).state);
  }

  lemma UnlockSameRecords(st: State, who: Address, coins: Coins, kind: int)
    requires Unlock(st, who, coins, kind).Done?
    ensures SameRecords(st, Unlock(st, who, coins, kind).state)
  {
    UpdateSameRecords(st, who, coins, false, kind);
  }

  lemma UnlockTakesEscrow(st: State, who: Address, coins: Coins, kind: int)
    requires Unlock(st, who, coins, kind).Done?
    ensures Escrow(Unlock(st, who, coins, kind).state) + coins == Escrow(st)
  {
    EscrowUpdated(st, who, coins, false, kind);
  }

  lemma UnlockedSoundly(st: State, who: Address, coins: Coins, kind: int)
    requires Sound(st) && who != TOKEN_ACCOUNT
    ensures var o := Unlock(st, who, coins, kind);
            && o != Failed(ModuleFunds)
            && (o.Done? ==> Sound(o.state) && Escrow(o.state) + coins == Escrow(st))
  {
    UnlockKeepsBacked(st, who, coins, kind);
    UnlockExact(st, who, coins, kind);
    if Unlock(st, who, coins, kind).Done? {
      UnlockKeepsInv(st, who, coins, kind);
      UnlockTakesEscrow(st, who, coins, kind);
    }
  }

  predicate Has(found: seq<Info>, symbol: string) {
    exists i | 0 <= i < |found| :: found[i].symbol == symbol
  }

  lemma HasSnoc(found: seq<Info>, info: Info)
    ensures forall s :: Has(found + [info], s) <==> Has(found, s) || s == info.symbol
  {
    var more := found + [info];
    assert more[|found|] == info;
    forall s
      ensures Has(more, s) <==> Has(found, s) || s == info.symbol
    {
      if Has(found, s) {
        var i :| 0 <= i < |found| && found[i].symbol == s;
        assert more[i].symbol == s;
      }
    }
  }

  class Keeper {
    var tokens: map<string, Info>
    var owned: set<(Address, string)>
    var pending: map<string, Confirm>
    var supply: map<string, nat>
    var ledger: Ledger
    var quantityLocks: Locks
    var feeLocks: Locks

    ghost function View(): State
      reads this
    {
      State(tokens, owned, pending, supply, ledger, quantityLocks, feeLocks)
    }

    ghost predicate Valid()
      reads this
    {
      Sound(View())
    }

    // -------------------------------------------------------------- listing

    /** `GetUserTokensInfo` walks the index entries of one owner: with an exact index it returns each
        token whose record names that owner, once. */
    method GetUserTokensInfo(owner: Address) returns (found: seq<Info>)
      requires Inv(View())
      ensures forall s :: OwnedBy(View(), s, owner) <==> Has(found, s)
      ensures forall i | 0 <= i < |found| :: found[i].symbol in tokens && found[i] == tokens[found[i].symbol] && found[i].owner == owner
      ensures forall i, j | 0 <= i < j < |found| :: found[i].symbol != found[j].symbol
    {
      found := [];
      var rest := set entry | entry in owned && entry.0 == owner;
      assert forall s :: OwnedBy(View(), s, owner) <==> Listed(View(), owner, s);
      while rest != {}
        invariant forall entry | entry in rest :: entry in owned && entry.0 == owner && !Has(found, entry.1)
        invariant forall s :: OwnedBy(View(), s, owner) <==> Has(found, s) || (owner, s) in rest
        invariant forall i | 0 <= i < |found| :: found[i].symbol in tokens && found[i] == tokens[found[i].symbol] && found[i].owner == owner
        invariant forall i, j | 0 <= i < j < |found| :: found[i].symbol != found[j].symbol
        decreases |rest|
      {
        var entry :| entry in rest;
        assert entry == (owner, entry.1);
        assert OwnedBy(View(), entry.1, owner);
        HasSnoc(found, tokens[entry.1]);
        found := found + [tokens[entry.1]];
        rest := rest - {entry};
      }
    }

    // -------------------------------------------------------------- escrow

    method UpdateLockedCoins(who: Address, coins: Coins, doAdd: bool, kind: int) returns (err: Option<Error>)
      modifies `quantityLocks, `feeLocks
      ensures err.Some? ==> View() == old(View())
      ensures UpdateLocked(old(View()), who, coins, doAdd, kind) == if err.None? then Done(View()) else Failed(err.value)
    {
      if kind != LOCK_QUANTITY && kind != LOCK_FEE {
        return Some(BadLockType);
      }
      var store := if kind == LOCK_QUANTITY then quantityLocks else feeLocks;
      var newCoins: Coins;
      if doAdd {
        if who !in store {
          newCoins := coins;
        } else {
          newCoins := store[who] + coins;
        }
      } else {
        if who !in store {
          return Some(NotLocked);
        }
        if !(coins <= store[who]) {
          return Some(NotLocked);
        }
        newCoins := store[who] - coins;
      }
      if newCoins != multiset{} {
        store := store[who := newCoins];
      } else {
        store := store - {who};
      }
      if kind == LOCK_QUANTITY {
        quantityLocks := store;
      } else {
        feeLocks := store;
      }
      return None;
    }

    method LockAway(who: Address, coins: Coins, kind: int) returns (err: Option<Error>)
      modifies `ledger, `quantityLocks, `feeLocks
      ensures Lock(old(View()), who, coins, kind) == if err.None? then Done(View()) else Failed(err.value)
    {
      var sent := Send(ledger, who, TOKEN_ACCOUNT, coins);
      if sent.None? {
        return Some(UserFunds);
      }
      ledger := sent.value;
      err := UpdateLockedCoins(who, coins, true, kind);
    }

    method LockCoins(who: Address, coins: Coins, kind: int) returns (err: Option<Error>)
      requires Valid() && who != TOKEN_ACCOUNT
      modifies `ledger, `quantityLocks, `feeLocks
      ensures err.None? ==> Valid() && Escrow(View()) == Escrow(old(View())) + coins
      ensures err.None? ==> LockedFor(old(View()), View(), who, coins, kind)
      ensures LockEnds(old(View()), who, coins, kind, if err.None? then Done(View()) else Failed(err.value))
      ensures Lock(old(View()), who, coins, kind) == if err.None? then Done(View()) else Failed(err.value)
    {
      LockedSoundly(View(), who, coins, kind);
      LockJustified(View(), who, coins, kind);
      if Lock(View(), who, coins, kind).Done? { LockEffect(View(), who, coins, kind); }
      err := LockAway(who, coins, kind);
    }

    method GiveBack(who: Address, coins: Coins, kind: int) returns (err: Option<Error>)
      modifies `ledger, `quantityLocks, `feeLocks
      ensures Unlock(old(View()), who, coins, kind) == if err.None? then Done(View()) else Failed(err.value)
      ensures err.Some? && err.value != ModuleFunds ==> View() == old(View())
    {
      err := UpdateLockedCoins(who, coins, false, kind);
      if err.None? {
        var sent := Send(ledger, TOKEN_ACCOUNT, who, coins);
        if sent.None? {
          return Some(ModuleFunds);
        }
        ledger := sent.value;
      }
    }

    method UnlockCoins(who: Address, coins: Coins, kind: int) returns (err: Option<Error>)
      requires Valid() && who != TOKEN_ACCOUNT
      modifies `ledger, `quantityLocks, `feeLocks
      ensures Valid()
      ensures err.None? ==> Escrow(View()) + coins == Escrow(old(View()))
      ensures err.None? ==> UnlockedFor(old(View()), View(), who, coins, kind)
      ensures UnlockEnds(old(View()), who, coins, kind, if err.None? then Done(View()) else Failed(err.value))
      ensures err.Some? ==> View() == old(View()) && err.value != ModuleFunds
      ensures Unlock(old(View()), who, coins, kind) == if err.None? then Done(View()) else Failed(err.value)
    {
      UnlockedSoundly(View(), who, coins, kind);
      UnlockJustified(View(), who, coins, kind);
      if Unlock(View(), who, coins, kind).Done? { UnlockEffect(View(), who, coins, kind); }
      err := GiveBack(who, coins, kind);
    }

    method SettleOne(who: Address, output: Coins, input: Coins) returns (err: Option<Error>)
      modifies `ledger, `quantityLocks, `feeLocks
      ensures Settle(old(View()), Settlement(who, output, input)) == if err.None? then Done(View()) else Failed(err.value)
    {
      err := None;
      if output != multiset{} {
        err := UpdateLockedCoins(who, output, false, LOCK_QUANTITY);
        if err.Some? {
          return;
        }
      }
      if input != multiset{} {
        var sent := Send(ledger, TOKEN_ACCOUNT, who, input);
        if sent.None? {
          return Some(ModuleFunds);
        }
        ledger := sent.value;
      }
    }

    method BalanceAccount(who: Address, output: Coins, input: Coins) returns (err: Option<Error>)
      requires who != TOKEN_ACCOUNT
      modifies `ledger, `quantityLocks, `feeLocks
      ensures err.None? ==>
        && Balance(ledger, TOKEN_ACCOUNT) + input == Balance(old(ledger), TOKEN_ACCOUNT)
        && Balance(ledger, who) == Balance(old(ledger), who) + input
        && Escrow(View()) + output == Escrow(old(View()))
      ensures err.None? ==> SettledFor(old(View()), View(), Settlement(who, output, input))
      ensures SettleEnds(old(View()), Settlement(who, output, input), if err.None? then Done(View()) else Failed(err.value))
      ensures Settle(old(View()), Settlement(who, output, input)) == if err.None? then Done(View()) else Failed(err.value)
    {
      SettledAsStated(View(), Settlement(who, output, input));
      err := SettleOne(who, output, input);
    }

    // -------------------------------------------------------------- records

    method SaveToken(info: Info)
      modifies `tokens, `owned
      ensures View() == NewToken(old(View()), info)
    {
      tokens := tokens[info.symbol := info];
      owned := owned + {(info.owner, info.symbol)};
    }

    method ChangeOwner(symbol: string, owner: Address)
      requires symbol in tokens
      modifies `tokens, `owned
      ensures View() == Reowned(old(View()), symbol, owner)
    {
      var info := tokens[symbol];
      owned := owned - {(info.owner, info.symbol)};
      info := info.(owner := owner);
      SaveToken(info);
    }

    method SendCoins(payer: Address, payee: Address, coins: Coins, error: Error) returns (err: Option<Error>)
      modifies `ledger
      ensures Moved(old(View()), payer, payee, coins, error) == if err.None? then Done(View()) else Failed(err.value)
    {
      var sent := Send(ledger, payer, payee, coins);
      if sent.None? {
        return Some(error);
      }
      ledger := sent.value;
      return None;
    }

    method DeductFee(who: Address, fee: Coins) returns (err: Option<Error>)
      modifies `ledger
      ensures PayFee(old(View()), who, fee) == if err.None? then Done(View()) else Failed(err.value)
    {
      err := SendCoins(who, FEE_COLLECTOR, fee, UserFunds);
    }

    method MintCoins(denom: string, amount: nat)
      modifies `supply, `ledger
      ensures View() == Minted(old(View()), denom, amount)
    {
      supply, ledger := supply[denom := SupplyOf(supply, denom) + amount], Credit(ledger, TOKEN_ACCOUNT, One(denom, amount));
    }

    method BurnCoins(denom: string, amount: nat) returns (err: Option<Error>)
      modifies `supply, `ledger
      ensures Burned(old(View()), denom, amount) == if err.None? then Done(View()) else Failed(err.value)
    {
      var coins, held := One(denom, amount), Balance(ledger, TOKEN_ACCOUNT);
      if !(coins <= held) || SupplyOf(supply, denom) < amount {
        return Some(ModuleFunds);
      }
      supply := supply[denom := SupplyOf(supply, denom) - amount];
      ledger := ledger[TOKEN_ACCOUNT := held - coins];
      return None;
    }

    method MintAndSend(who: Address, denom: string, amount: nat) returns (err: Option<Error>)
      modifies `supply, `ledger
      ensures MintTo(old(View()), who, denom, amount) == if err.None? then Done(View()) else Failed(err.value)
    {
      MintCoins(denom, amount);
      err := SendCoins(TOKEN_ACCOUNT, who, One(denom, amount), ModuleFunds);
    }

    method CollectAndBurn(who: Address, denom: string, amount: nat) returns (err: Option<Error>)
      modifies `supply, `ledger
      ensures BurnFrom(old(View()), who, denom, amount) == if err.None? then Done(View()) else Failed(err.value)
    {
      err := SendCoins(who, TOKEN_ACCOUNT, One(denom, amount), UserFunds);
      if err.None? {
        err := BurnCoins(denom, amount);
      }
    }

    method IssueNamed(env: Env, msg: Msg, name: string) returns (err: Option<Error>)
      requires msg.Issue?
      modifies this
      ensures err.None? ==> OwnedBy(View(), name, msg.owner) && SupplyOf(supply, name) == SupplyOf(old(supply), name) + msg.totalSupply
      ensures Issued(env, old(View()), msg, name) == if err.None? then Done(View()) else Failed(err.value)
    {
      err := MintAndSend(msg.owner, name, msg.totalSupply);
      if err.Some? {
        return;
      }
      SaveToken(Info(name, msg.owner, msg.mintable, msg.description));
      err := DeductFee(msg.owner, env.feeIssue);
    }

    method IssueToken(env: Env, msg: Msg) returns (err: Option<Error>)
      requires msg.Issue?
      modifies this
      ensures HandleIssue(env, old(View()), msg) == if err.None? then Done(View()) else Failed(err.value)
    {
      if msg.totalSupply > env.upperBound {
        return Some(TooMuchSupply);
      }
      var name := AddTokenSuffix(msg.symbol, env.txHash, env.wellFormed, tokens);
      if name.None? {
        return Some(NoName);
      }
      err := IssueNamed(env, msg, name.value);
    }

    method HandleMsgTokenIssue(env: Env, msg: Msg) returns (err: Option<Error>)
      requires Valid() && msg.Issue? && Sendable(env, msg)
      modifies this
      ensures err.None? ==> Valid()
      ensures err.Some? ==> !Impossible(err.value)
      ensures err.None? ==> exists name: string :: IssuedAs(env, old(View()), View(), msg, name)
      ensures Justified(env, old(View()), msg, if err.None? then Done(View()) else Failed(err.value))
      ensures HandleIssue(env, old(View()), msg) == if err.None? then Done(View()) else Failed(err.value)
    {
      HandledProperly(env, View(), msg);
      HandledAsStated(env, View(), msg);
      err := IssueToken(env, msg);
    }

    method MintToken(env: Env, msg: Msg) returns (err: Option<Error>)
      requires msg.Mint?
      modifies this
      ensures HandleMint(env, old(View()), msg) == if err.None? then Done(View()) else Failed(err.value)
    {
      if msg.denom !in tokens || tokens[msg.denom].owner != msg.owner {
        return Some(NotOwner);
      }
      if !tokens[msg.denom].mintable {
        return Some(NotMintable);
      }
      if SupplyOf(supply, msg.denom) + msg.amount > env.upperBound {
        return Some(TooMuchSupply);
      }
      err := MintAndSend(msg.owner, msg.denom, msg.amount);
      if err.Some? {
        return;
      }
      err := DeductFee(msg.owner, env.feeMint);
    }

    method HandleMsgTokenMint(env: Env, msg: Msg) returns (err: Option<Error>)
      requires Valid() && msg.Mint? && Sendable(env, msg)
      modifies this
      ensures err.None? ==> Valid()
      ensures err.Some? ==> !Impossible(err.value)
      ensures err.None? ==> OwnedBy(old(View()), msg.denom, msg.owner)
      ensures err.None? ==> SupplyOf(supply, msg.denom) == SupplyOf(old(supply), msg.denom) + msg.amount <= env.upperBound
      ensures err.None? ==> MintedBy(env, old(View()), View(), msg)
      ensures Justified(env, old(View()), msg, if err.None? then Done(View()) else Failed(err.value))
      ensures HandleMint(env, old(View()), msg) == if err.None? then Done(View()) else Failed(err.value)
    {
      HandledProperly(env, View(), msg);
      HandledAsStated(env, View(), msg);
      err := MintToken(env, msg);
    }

    method BurnToken(env: Env, msg: Msg) returns (err: Option<Error>)
      requires msg.Burn?
      modifies this
      ensures HandleBurn(env, old(View()), msg) == if err.None? then Done(View()) else Failed(err.value)
    {
      if msg.denom !in tokens || tokens[msg.denom].owner != msg.owner {
        return Some(NotOwner);
      }
      err := CollectAndBurn(msg.owner, msg.denom, msg.amount);
      if err.Some? {
        return;
      }
      err := DeductFee(msg.owner, env.feeBurn);
    }

    method HandleMsgTokenBurn(env: Env, msg: Msg) returns (err: Option<Error>)
      requires Valid() && msg.Burn? && Sendable(env, msg)
      modifies this
      ensures err.None? ==> Valid()
      ensures err.Some? ==> !Impossible(err.value)
      ensures err.None? ==> OwnedBy(old(View()), msg.denom, msg.owner)
      ensures err.None? ==> SupplyOf(supply, msg.denom) + msg.amount == SupplyOf(old(supply), msg.denom)
      ensures err.None? ==> BurnedBy(env, old(View()), View(), msg)
      ensures Justified(env, old(View()), msg, if err.None? then Done(View()) else Failed(err.value))
      ensures HandleBurn(env, old(View()), msg) == if err.None? then Done(View()) else Failed(err.value)
    {
      HandledProperly(env, View(), msg);
      HandledAsStated(env, View(), msg);
      err := BurnToken(env, msg);
    }

    method UpdateToken(msg: Msg)
      requires msg.Modify? && msg.symbol in tokens && msg.change.Some?
      modifies `tokens
      ensures View() == AfterModify(old(View()), msg)
    {
      var info := tokens[msg.symbol].(description := msg.change.value);
      tokens := tokens[info.symbol := info];
    }

    method ModifyToken(env: Env, msg: Msg) returns (err: Option<Error>)
      requires msg.Modify?
      modifies this
      ensures HandleModify(env, old(View()), msg) == if err.None? then Done(View()) else Failed(err.value)
    {
      if msg.symbol !in tokens || tokens[msg.symbol].owner != msg.owner {
        return Some(NotOwner);
      }
      if msg.change.None? {
        return Some(NothingModified);
      }
      UpdateToken(msg);
      err := DeductFee(msg.owner, env.feeModify);
    }

    method HandleMsgTokenModify(env: Env, msg: Msg) returns (err: Option<Error>)
      requires Valid() && msg.Modify? && Sendable(env, msg)
      modifies this
      ensures err.None? ==> Valid()
      ensures err.Some? ==> !Impossible(err.value)
      ensures err.None? ==> OwnedBy(View(), msg.symbol, msg.owner) && supply == old(supply)
      ensures err.None? ==> ModifiedBy(env, old(View()), View(), msg)
      ensures Justified(env, old(View()), msg, if err.None? then Done(View()) else Failed(err.value))
      ensures HandleModify(env, old(View()), msg) == if err.None? then Done(View()) else Failed(err.value)
    {
      HandledProperly(env, View(), msg);
      HandledAsStated(env, View(), msg);
      err := ModifyToken(env, msg);
    }

    method Request(env: Env, msg: Msg)
      requires msg.TransferOwnership? && msg.symbol in tokens
      modifies `tokens, `owned, `pending
      ensures View() == AfterRequest(env, old(View()), msg)
    {
      if msg.to == BLACK_HOLE {
        ChangeOwner(msg.symbol, msg.to);
      } else {
        pending := pending[msg.symbol := Confirm(msg.symbol, msg.to, env.blockTime + env.confirmWindow)];
      }
    }

    method RequestOwnership(env: Env, msg: Msg) returns (err: Option<Error>)
      requires msg.TransferOwnership?
      modifies this
      ensures HandleTransfer(env, old(View()), msg) == if err.None? then Done(View()) else Failed(err.value)
    {
      if msg.symbol !in tokens || tokens[msg.symbol].owner != msg.from {
        return Some(NotOwner);
      }
      if msg.symbol in pending && !(env.blockTime > pending[msg.symbol].expire) {
        return Some(StillPending);
      }
      Request(env, msg);
      err := DeductFee(msg.from, env.feeChown);
    }

    method HandleMsgTransferOwnership(env: Env, msg: Msg) returns (err: Option<Error>)
      requires Valid() && msg.TransferOwnership? && Sendable(env, msg)
      modifies this
      ensures err.None? ==> Valid()
      ensures err.Some? ==> !Impossible(err.value)
      ensures err.None? ==> OwnedBy(old(View()), msg.symbol, msg.from)
      ensures err.None? ==> OwnedBy(View(), msg.symbol, if msg.to == BLACK_HOLE then BLACK_HOLE else msg.from)
      ensures err.None? && msg.to != BLACK_HOLE ==> msg.symbol in pending && pending[msg.symbol].address == msg.to
      ensures err.None? ==> RequestedBy(env, old(View()), View(), msg)
      ensures Justified(env, old(View()), msg, if err.None? then Done(View()) else Failed(err.value))
      ensures HandleTransfer(env, old(View()), msg) == if err.None? then Done(View()) else Failed(err.value)
    {
      HandledProperly(env, View(), msg);
      HandledAsStated(env, View(), msg);
      err := RequestOwnership(env, msg);
    }

    method TakeOwnership(env: Env, msg: Msg) returns (err: Option<Error>)
      requires msg.ConfirmOwnership?
      modifies this
      ensures HandleConfirm(env, old(View()), msg) == if err.None? then Done(View()) else Failed(err.value)
    {
      if msg.symbol !in pending {
        return Some(NothingPending);
      }
      var confirm := pending[msg.symbol];
      if env.blockTime > confirm.expire {
        pending := pending - {confirm.symbol};   // DeliverTx undoes this
        return Some(Expired);
      }
      if confirm.address != msg.address {
        return Some(WrongAddress);
      }
      if msg.symbol !in tokens {
        return Some(TokenMissing);
      }
      ChangeOwner(msg.symbol, msg.address);
      pending := pending - {confirm.symbol};
      return None;
    }

    method HandleMsgConfirmOwnership(env: Env, msg: Msg) returns (err: Option<Error>)
      requires Valid() && msg.ConfirmOwnership? && Sendable(env, msg)
      modifies this
      ensures err.None? ==> Valid()
      ensures err.Some? ==> !Impossible(err.value)
      ensures err.None? ==> OwnedBy(View(), msg.symbol, msg.address) && msg.symbol !in pending
      ensures err.None? ==> ConfirmedBy(old(View()), View(), msg)
      ensures Justified(env, old(View()), msg, if err.None? then Done(View()) else Failed(err.value))
      ensures HandleConfirm(env, old(View()), msg) == if err.None? then Done(View()) else Failed(err.value)
    {
      HandledProperly(env, View(), msg);
      HandledAsStated(env, View(), msg);
      err := TakeOwnership(env, msg);
    }

    // -------------------------------------------------------------- sends

    /** `SendCoinsFromAccountToAccount`. */
    method SendFromAccount(env: Env, payer: Address, t: Transfer) returns (err: Option<Error>)
      modifies `ledger
      ensures SendTo(env, old(View()), payer, t) == if err.None? then Done(View()) else Failed(err.value)
    {
      if t.to in env.blacklist {
        return Some(BlockedRecipient);
      }
      if t.to in env.contracts {
        return Some(BlockedContract);
      }
      err := SendCoins(payer, t.to, t.coins, UserFunds);
    }

    method SendOnce(env: Env, msg: Msg) returns (err: Option<Error>)
      requires msg.SendOne?
      modifies `ledger
      ensures HandleSend(env, old(View()), msg) == if err.None? then Done(View()) else Failed(err.value)
    {
      if !env.sendEnabled {
        return Some(SendDisabled);
      }
      err := SendFromAccount(env, msg.from, Transfer(msg.to, msg.coins));
    }

    method HandleMsgSend(env: Env, msg: Msg) returns (err: Option<Error>)
      requires Valid() && msg.SendOne? && Sendable(env, msg)
      modifies `ledger
      ensures err.None? ==> Valid()
      ensures err.Some? ==> !Impossible(err.value)
      ensures err.None? ==> Balance(ledger, TOKEN_ACCOUNT) == Balance(old(ledger), TOKEN_ACCOUNT)
      ensures err.None? ==> SentBy(old(View()), View(), msg)
      ensures Justified(env, old(View()), msg, if err.None? then Done(View()) else Failed(err.value))
      ensures HandleSend(env, old(View()), msg) == if err.None? then Done(View()) else Failed(err.value)
    {
      HandledProperly(env, View(), msg);
      MessagesLeaveEscrow(env, View(), msg);
      HandledAsStated(env, View(), msg);
      err := SendOnce(env, msg);
    }

    /** One transfer after the other; the first that fails fails the message. */
    method SendInTurn(env: Env, msg: Msg) returns (err: Option<Error>)
      requires msg.SendMany?
      modifies `ledger
      ensures HandleSend(env, old(View()), msg) == if err.None? then Done(View()) else Failed(err.value)
    {
      if !env.sendEnabled {
        return Some(SendDisabled);
      }
      for i := 0 to |msg.transfers|
        invariant SendEach(env, old(View()), msg.from, msg.transfers) == SendEach(env, View(), msg.from, msg.transfers[i..])
      {
        assert msg.transfers[i..][1..] == msg.transfers[i + 1..];
        err := SendFromAccount(env, msg.from, msg.transfers[i]);
        if err.Some? {
          return;
        }
      }
      return None;
    }

    method HandleMsgMultiSend(env: Env, msg: Msg) returns (err: Option<Error>)
      requires Valid() && msg.SendMany? && Sendable(env, msg)
      modifies `ledger
      ensures err.None? ==> Valid()
      ensures err.Some? ==> !Impossible(err.value)
      ensures err.None? ==> Balance(ledger, TOKEN_ACCOUNT) == Balance(old(ledger), TOKEN_ACCOUNT)
      ensures err.None? ==> SentBy(old(View()), View(), msg)
      ensures Justified(env, old(View()), msg, if err.None? then Done(View()) else Failed(err.value))
      ensures HandleSend(env, old(View()), msg) == if err.None? then Done(View()) else Failed(err.value)
    {
      HandledProperly(env, View(), msg);
      MessagesLeaveEscrow(env, View(), msg);
      HandledAsStated(env, View(), msg);
      err := SendInTurn(env, msg);
    }

    // -------------------------------------------------------------- transactions

    method Dispatch(env: Env, msg: Msg) returns (err: Option<Error>)
      requires Valid() && Sendable(env, msg)
      modifies this
      ensures Handle(env, old(View()), msg) == if err.None? then Done(View()) else Failed(err.value)
    {
      match msg {
        case Issue(_, _, _, _, _) => err := HandleMsgTokenIssue(env, msg);
        case Mint(_, _, _) => err := HandleMsgTokenMint(env, msg);
        case Burn(_, _, _) => err := HandleMsgTokenBurn(env, msg);
        case TransferOwnership(_, _, _) => err := HandleMsgTransferOwnership(env, msg);
        case ConfirmOwnership(_, _) => err := HandleMsgConfirmOwnership(env, msg);
        case Modify(_, _, _) => err := HandleMsgTokenModify(env, msg);
        case SendOne(_, _, _) => err := HandleMsgSend(env, msg);
        case SendMany(_, _) => err := HandleMsgMultiSend(env, msg);
      }
    }

    /** One transaction: whatever a failing handler had already changed is undone, the deletion of an
        expired request included. */
    method DeliverTx(env: Env, msg: Msg) returns (err: Option<Error>)
      requires Valid() && Sendable(env, msg)
      modifies this
      ensures Valid() && LeavesEscrow(old(View()), View())
      ensures err.Some? ==> View() == old(View()) && !Impossible(err.value)
      ensures err.None? ==> Effect(env, old(View()), View(), msg)
      ensures Justified(env, old(View()), msg, if err.None? then Done(View()) else Failed(err.value))
      ensures err.None? ==> Handle(env, old(View()), msg) == Done(View())
      ensures err.Some? ==> Handle(env, old(View()), msg) == Failed(err.value)
    {
      HandledAsStated(env, View(), msg);
      HandledProperly(env, View(), msg);
      MessagesLeaveEscrow(env, View(), msg);
      var tokens0, owned0, pending0, supply0 := tokens, owned, pending, supply;
      var ledger0, quantityLocks0, feeLocks0 := ledger, quantityLocks, feeLocks;
      err := Dispatch(env, msg);
      if err.Some? {
        tokens, owned, pending, supply := tokens0, owned0, pending0, supply0;
        ledger, quantityLocks, feeLocks := ledger0, quantityLocks0, feeLocks0;
      }
    }
  }
}
