/** Coins are neither lost nor made up: the recorded supply of every token is what all accounts hold of
    it, the module accounts included. */
module TokenSupply {
  import opened Options
  import opened Token
  import opened TokenEscrow

  /** The supply of a coin is its total over all accounts. */
  ghost predicate ExactFor(st: State, denom: string) {
    TotalOf(st.ledger)[denom] == SupplyOf(st.supply, denom)
  }

  ghost predicate SupplyExact(st: State) {
    forall denom: string :: ExactFor(st, denom)
  }

  // ---------------------------------------------------------------- ledgers

  lemma TotalSet(l: Ledger, who: Address, coins: Coins)
    ensures TotalOf(l[who := coins]) + Balance(l, who) == TotalOf(l) + coins
  {
    var l' := l[who := coins];
    var rest := TotalOf(l - {who});
    assert TotalOf(l') == coins + rest by {
      TotalWithout(l', who);
      assert l' - {who} == l - {who};
    }
    assert TotalOf(l) == Balance(l, who) + rest by {
      TotalWithout(l, who);
    }
    Shuffle(coins, rest, Balance(l, who));
  }

  lemma CreditAdds(l: Ledger, who: Address, coins: Coins)
    ensures TotalOf(Credit(l, who, coins)) == TotalOf(l) + coins
  {
    TotalSet(l, who, Balance(l, who) + coins);
    var mine := Balance(l, who);
    assert TotalOf(l) + (mine + coins) == TotalOf(l) + coins + mine;
    CancelCoins(TotalOf(Credit(l, who, coins)), TotalOf(l) + coins, mine);
  }

  lemma DebitTakes(l: Ledger, who: Address, coins: Coins)
    requires coins <= Balance(l, who)
    ensures TotalOf(l[who := Balance(l, who) - coins]) + coins == TotalOf(l)
  {
    var mine := Balance(l, who);
    var left := mine - coins;
    assert mine == left + coins;
    TotalSet(l, who, left);
    var after := TotalOf(l[who := left]);
    assert after + coins + left == after + mine;
    CancelCoins(after + coins, TotalOf(l), left);
  }

  lemma SendConserves(l: Ledger, payer: Address, payee: Address, coins: Coins)
    requires Send(l, payer, payee, coins).Some?
    ensures TotalOf(Send(l, payer, payee, coins).value) == TotalOf(l)
  {
    DebitTakes(l, payer, coins);
    CreditAdds(l[payer := Balance(l, payer) - coins], payee, coins);
  }

  // ---------------------------------------------------------------- messages

  lemma MovedExact(st: State, payer: Address, payee: Address, coins: Coins, error: Error)
    requires SupplyExact(st)
    ensures Moved(st, payer, payee, coins, error).Done? ==> SupplyExact(Moved(st, payer, payee, coins, error).state)
  {
    if Moved(st, payer, payee, coins, error).Done? {
      SendConserves(st.ledger, payer, payee, coins);
      SameExact(st, Moved(st, payer, payee, coins, error).state);
    }
  }

  lemma SameExact(st: State, st': State)
    requires SupplyExact(st) && st'.supply == st.supply && TotalOf(st'.ledger) == TotalOf(st.ledger)
    ensures SupplyExact(st')
  {
    forall denom: string
      ensures ExactFor(st', denom)
    {
      assert ExactFor(st, denom);
    }
  }

  lemma MintedExact(st: State, denom: string, amount: nat)
    requires SupplyExact(st)
    ensures SupplyExact(Minted(st, denom, amount))
  {
    CreditAdds(st.ledger, TOKEN_ACCOUNT, One(denom, amount));
    forall d: string
      ensures ExactFor(Minted(st, denom, amount), d)
    {
      assert ExactFor(st, d);
      assert (TotalOf(st.ledger) + One(denom, amount))[d] == TotalOf(st.ledger)[d] + One(denom, amount)[d];
    }
  }

  lemma BurnedExact(st: State, denom: string, amount: nat)
    requires SupplyExact(st) && Burned(st, denom, amount).Done?
    ensures SupplyExact(Burned(st, denom, amount).state)
  {
    var st' := Burned(st, denom, amount).state;
    DebitTakes(st.ledger, TOKEN_ACCOUNT, One(denom, amount));
    forall d: string
      ensures ExactFor(st', d)
    {
      assert ExactFor(st, d);
      assert (TotalOf(st'.ledger) + One(denom, amount))[d] == TotalOf(st'.ledger)[d] + One(denom, amount)[d];
    }
  }

  lemma MintToExact(st: State, who: Address, denom: string, amount: nat)
    requires SupplyExact(st)
    ensures MintTo(st, who, denom, amount).Done? ==> SupplyExact(MintTo(st, who, denom, amount).state)
  {
    MintedExact(st, denom, amount);
    MovedExact(Minted(st, denom, amount), TOKEN_ACCOUNT, who, One(denom, amount), ModuleFunds);
  }

  lemma HoldingAtMostTotal(l: Ledger, who: Address)
    ensures Balance(l, who) <= TotalOf(l)
  {
    TotalWithout(l, who);
  }

  /** Burning coins an account has never fails on the module's side: after they are collected the
      module account has them, and the supply is at least what is held. */
  lemma BurnFromExact(st: State, who: Address, denom: string, amount: nat)
    requires SupplyExact(st)
    ensures BurnFrom(st, who, denom, amount).Done? <==> One(denom, amount) <= Balance(st.ledger, who)
    ensures BurnFrom(st, who, denom, amount).Failed? ==> BurnFrom(st, who, denom, amount).error == UserFunds
    ensures BurnFrom(st, who, denom, amount).Done? ==> SupplyExact(BurnFrom(st, who, denom, amount).state)
  {
    var coins := One(denom, amount);
    var collected := Moved(st, who, TOKEN_ACCOUNT, coins, UserFunds);
    if collected.Done? {
      var st1 := collected.state;
      MovedExact(st, who, TOKEN_ACCOUNT, coins, UserFunds);
      Collected(st.ledger, who, coins);
      HoldingAtMostTotal(st1.ledger, TOKEN_ACCOUNT);
      assert ExactFor(st1, denom);
      assert coins[denom] == amount;
      assert Burned(st1, denom, amount).Done?;
      BurnedExact(st1, denom, amount);
    }
  }

  lemma Collected(l: Ledger, who: Address, coins: Coins)
    requires Send(l, who, TOKEN_ACCOUNT, coins).Some?
    ensures coins <= Balance(Send(l, who, TOKEN_ACCOUNT, coins).value, TOKEN_ACCOUNT)
  {
    var l1 := l[who := Balance(l, who) - coins];
    assert Balance(Credit(l1, TOKEN_ACCOUNT, coins), TOKEN_ACCOUNT) == Balance(l1, TOKEN_ACCOUNT) + coins;
  }

  lemma {:induction false} SendsExact(env: Env, st: State, payer: Address, transfers: seq<Transfer>)
    requires SupplyExact(st)
    ensures SendEach(env, st, payer, transfers).Done? ==> SupplyExact(SendEach(env, st, payer, transfers).state)
    decreases |transfers|
  {
    if transfers != [] && SendTo(env, st, payer, transfers[0]).Done? {
      MovedExact(st, payer, transfers[0].to, transfers[0].coins, UserFunds);
      SendsExact(env, SendTo(env, st, payer, transfers[0]).state, payer, transfers[1..]);
    }
  }

  lemma IssueExact(env: Env, st: State, msg: Msg)
    requires SupplyExact(st) && msg.Issue?
    ensures HandleIssue(env, st, msg).Done? ==> SupplyExact(HandleIssue(env, st, msg).state)
  {
    if NameOf(env, st, msg).Some? {
      var name := NameOf(env, st, msg).value;
      var minted := MintTo(st, msg.owner, name, msg.totalSupply);
      MintToExact(st, msg.owner, name, msg.totalSupply);
      if minted.Done? {
        var st1 := NewToken(minted.state, Info(name, msg.owner, msg.mintable, msg.description));
        SameExact(minted.state, st1);
        MovedExact(st1, msg.owner, FEE_COLLECTOR, env.feeIssue, UserFunds);
      }
    }
  }

  lemma MintExact(env: Env, st: State, msg: Msg)
    requires SupplyExact(st) && msg.Mint?
    ensures HandleMint(env, st, msg).Done? ==> SupplyExact(HandleMint(env, st, msg).state)
  {
    var minted := MintTo(st, msg.owner, msg.denom, msg.amount);
    MintToExact(st, msg.owner, msg.denom, msg.amount);
    if minted.Done? { MovedExact(minted.state, msg.owner, FEE_COLLECTOR, env.feeMint, UserFunds); }
  }

  lemma BurnExact(env: Env, st: State, msg: Msg)
    requires SupplyExact(st) && msg.Burn?
    ensures HandleBurn(env, st, msg).Done? ==> SupplyExact(HandleBurn(env, st, msg).state)
  {
    var burned := BurnFrom(st, msg.owner, msg.denom, msg.amount);
    BurnFromExact(st, msg.owner, msg.denom, msg.amount);
    if burned.Done? { MovedExact(burned.state, msg.owner, FEE_COLLECTOR, env.feeBurn, UserFunds); }
  }

  lemma TransferExact(env: Env, st: State, msg: Msg)
    requires SupplyExact(st) && msg.TransferOwnership?
    ensures HandleTransfer(env, st, msg).Done? ==> SupplyExact(HandleTransfer(env, st, msg).state)
  {
    if OwnedBy(st, msg.symbol, msg.from) {
      SameExact(st, AfterRequest(env, st, msg));
      MovedExact(AfterRequest(env, st, msg), msg.from, FEE_COLLECTOR, env.feeChown, UserFunds);
    }
  }

  lemma ConfirmExact(env: Env, st: State, msg: Msg)
    requires SupplyExact(st) && msg.ConfirmOwnership?
    ensures HandleConfirm(env, st, msg).Done? ==> SupplyExact(HandleConfirm(env, st, msg).state)
  {
    if msg.symbol in st.tokens && msg.symbol in st.pending { SameExact(st, AfterConfirm(st, msg)); }
  }

  lemma ModifyExact(env: Env, st: State, msg: Msg)
    requires SupplyExact(st) && msg.Modify?
    ensures HandleModify(env, st, msg).Done? ==> SupplyExact(HandleModify(env, st, msg).state)
  {
    if OwnedBy(st, msg.symbol, msg.owner) && msg.change.Some? {
      SameExact(st, AfterModify(st, msg));
      MovedExact(AfterModify(st, msg), msg.owner, FEE_COLLECTOR, env.feeModify, UserFunds);
    }
  }

  lemma SendExact(env: Env, st: State, msg: Msg)
    requires SupplyExact(st) && (msg.SendOne? || msg.SendMany?)
    ensures HandleSend(env, st, msg).Done? ==> SupplyExact(HandleSend(env, st, msg).state)
  {
    if msg.SendOne? {
      MovedExact(st, msg.from, msg.to, msg.coins, UserFunds);
    } else {
      SendsExact(env, st, msg.from, msg.transfers);
    }
  }

  /** Every message keeps the supply of every token exact. */
  lemma MessagesKeepSupply(env: Env, st: State, msg: Msg)
    requires SupplyExact(st)
    ensures Handle(env, st, msg).Done? ==> SupplyExact(Handle(env, st, msg).state)
  {
    match msg
    case Issue(_, _, _, _, _) => IssueExact(env, st, msg);
    case Mint(_, _, _) => MintExact(env, st, msg);
    case Burn(_, _, _) => BurnExact(env, st, msg);
    case TransferOwnership(_, _, _) => TransferExact(env, st, msg);
    case ConfirmOwnership(_, _) => ConfirmExact(env, st, msg);
    case Modify(_, _, _) => ModifyExact(env, st, msg);
    case SendOne(_, _, _) => SendExact(env, st, msg);
    case SendMany(_, _) => SendExact(env, st, msg);
  }

  // ---------------------------------------------------------------- runs

  lemma UpdateExact(st: State, who: Address, coins: Coins, doAdd: bool, kind: int)
    requires SupplyExact(st)
    ensures UpdateLocked(st, who, coins, doAdd, kind).Done? ==> SupplyExact(UpdateLocked(st, who, coins, doAdd, kind).state)
  {
    if UpdateLocked(st, who, coins, doAdd, kind).Done? { SameExact(st, UpdateLocked(st, who, coins, doAdd, kind).state); }
  }

  lemma LockExact(st: State, who: Address, coins: Coins, kind: int)
    requires SupplyExact(st)
    ensures Lock(st, who, coins, kind).Done? ==> SupplyExact(Lock(st, who, coins, kind).state)
  {
    var sent := Moved(st, who, TOKEN_ACCOUNT, coins, UserFunds);
    MovedExact(st, who, TOKEN_ACCOUNT, coins, UserFunds);
    if sent.Done? { UpdateExact(sent.state, who, coins, true, kind); }
  }

  lemma UnlockExact(st: State, who: Address, coins: Coins, kind: int)
    requires SupplyExact(st)
    ensures Unlock(st, who, coins, kind).Done? ==> SupplyExact(Unlock(st, who, coins, kind).state)
  {
    var unlocked := UpdateLocked(st, who, coins, false, kind);
    UpdateExact(st, who, coins, false, kind);
    if unlocked.Done? { MovedExact(unlocked.state, TOKEN_ACCOUNT, who, coins, ModuleFunds); }
  }

  lemma SettleExact(st: State, s: Settlement)
    requires SupplyExact(st)
    ensures Settle(st, s).Done? ==> SupplyExact(Settle(st, s).state)
  {
    UpdateExact(st, s.who, s.output, false, LOCK_QUANTITY);
    if GivenUp(st, s).Done? { MovedExact(GivenUp(st, s).state, TOKEN_ACCOUNT, s.who, s.input, ModuleFunds); }
  }

  lemma {:induction false} SettleAllExact(st: State, batch: seq<Settlement>)
    requires SupplyExact(st)
    ensures SettleAll(st, batch).Done? ==> SupplyExact(SettleAll(st, batch).state)
    decreases |batch|
  {
    if batch != [] && Settle(st, batch[0]).Done? {
      SettleExact(st, batch[0]);
      SettleAllExact(Settle(st, batch[0]).state, batch[1..]);
    }
  }

  /** Other modules mint and burn through the same ledger, which counts what they do. */
  ghost predicate Counted(st: State, step: Step) {
    step.Outside? && SupplyExact(st) ==> SupplyExact(step.after)
  }

  ghost predicate AllCounted(st: State, steps: seq<Step>)
    decreases |steps|
  {
    steps == [] || (Counted(st, steps[0]) && AllCounted(Apply(st, steps[0]), steps[1..]))
  }

  lemma StepKeepsSupply(st: State, step: Step)
    requires SupplyExact(st) && Counted(st, step)
    ensures SupplyExact(Apply(st, step))
  {
    match step
    case Message(env, msg) => MessagesKeepSupply(env, st, msg);
    case LockStep(who, coins, kind) => LockExact(st, who, coins, kind);
    case UnlockStep(who, coins, kind) => UnlockExact(st, who, coins, kind);
    case SettleStep(batch) => SettleAllExact(st, batch);
    case Outside(_) =>
  }

  /** Over any run, balanced batches or not, the supply of every token is what all accounts hold. */
  lemma {:induction false} SupplyAlwaysExact(st: State, steps: seq<Step>)
    requires SupplyExact(st) && AllCounted(st, steps)
    ensures SupplyExact(ApplyAll(st, steps))
    decreases |steps|
  {
    if steps != [] {
      StepKeepsSupply(st, steps[0]);
      SupplyAlwaysExact(Apply(st, steps[0]), steps[1..]);
    }
  }
}
