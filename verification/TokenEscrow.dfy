/** Every locked coin is backed by a coin in the module account, and the other way round. */
module TokenEscrow {
  import opened Options
  import opened Token

  // ---------------------------------------------------------------- all locked coins together

  /** What all accounts of a ledger hold together. */
  ghost function TotalOf(locks: Locks): Coins
    decreases |locks|
  {
    if locks == map[] then multiset{} else
      var who :| who in locks;
      FewerLocks(locks, who);
      locks[who] + TotalOf(locks - {who})
  }

  lemma FewerLocks(locks: Locks, who: Address)
    requires who in locks
    ensures |locks - {who}| < |locks|
  {
    assert (locks - {who}).Keys == locks.Keys - {who};
    assert |(locks - {who}).Keys| == |locks.Keys| - 1;
  }

  lemma {:induction false} TotalWithout(locks: Locks, who: Address)
    ensures TotalOf(locks) == LockedBy(locks, who) + TotalOf(locks - {who})
    decreases |locks|
  {
    if who !in locks {
      assert locks - {who} == locks;
    } else {
      var w :| w in locks && TotalOf(locks) == locks[w] + TotalOf(locks - {w});
      if w != who {
        TotalWithoutTwo(locks, who, w);
      }
    }
  }

  lemma TotalWithoutTwo(locks: Locks, who: Address, w: Address)
    requires who in locks && w in locks && w != who
    ensures locks[w] + TotalOf(locks - {w}) == locks[who] + TotalOf(locks - {who})
    decreases |locks|, 0
  {
    FewerLocks(locks, w);
    TotalWithout(locks - {w}, who);
    FewerLocks(locks, who);
    TotalWithout(locks - {who}, w);
    assert locks - {w} - {who} == locks - {who} - {w};
    var rest := TotalOf(locks - {w} - {who});
    assert TotalOf(locks - {w}) == locks[who] + rest;
    assert TotalOf(locks - {who}) == locks[w] + rest;
    Exchange(locks[w], locks[who], rest);
  }

  lemma Exchange(a: Coins, b: Coins, c: Coins)
    ensures a + (b + c) == b + (a + c)
  {
  }

  lemma LockedStored(locks: Locks, who: Address, coins: Coins)
    ensures TotalOf(StoreLock(locks, who, coins)) + LockedBy(locks, who) == TotalOf(locks) + coins
  {
    var locks' := StoreLock(locks, who, coins);
    var rest := TotalOf(locks - {who});
    assert TotalOf(locks') == coins + rest by {
      TotalWithout(locks', who);
      assert locks' - {who} == locks - {who};
      assert LockedBy(locks', who) == coins;
    }
    assert TotalOf(locks) == LockedBy(locks, who) + rest by {
      TotalWithout(locks, who);
    }
    Shuffle(coins, rest, LockedBy(locks, who));
  }

  lemma Shuffle(a: Coins, b: Coins, c: Coins)
    ensures a + b + c == c + b + a
  {
  }

  /** Locking adds to the total, unlocking takes from it, exactly the coins named. */
  lemma LockedUpdated(locks: Locks, who: Address, coins: Coins, doAdd: bool)
    requires UpdateLocks(locks, who, coins, doAdd).Some?
    ensures var locks' := UpdateLocks(locks, who, coins, doAdd).value;
            if doAdd then TotalOf(locks') == TotalOf(locks) + coins else TotalOf(locks') + coins == TotalOf(locks)
  {
    var stored := if doAdd then (if who in locks then locks[who] + coins else coins) else locks[who] - coins;
    LockedStored(locks, who, stored);
    var total, total', mine := TotalOf(locks), TotalOf(StoreLock(locks, who, stored)), LockedBy(locks, who);
    assert total' + mine == total + stored;
    if doAdd {
      CancelCoins(total', total + coins, mine);
    } else {
      assert stored + coins == mine;
      CancelCoins(total' + coins, total, stored);
    }
  }

  lemma CancelCoins(a: Coins, b: Coins, c: Coins)
    requires a + c == b + c
    ensures a == b
  {
    forall d: string
      ensures a[d] == b[d]
    {
      assert (a + c)[d] == (b + c)[d];
    }
  }

  ghost function Escrow(st: State): Coins {
    TotalOf(st.quantityLocks) + TotalOf(st.feeLocks)
  }

  /** The module account holds exactly the locked coins. */
  ghost predicate Backed(st: State) {
    Balance(st.ledger, TOKEN_ACCOUNT) == Escrow(st)
  }

  lemma EscrowUpdated(st: State, who: Address, coins: Coins, doAdd: bool, kind: int)
    requires UpdateLocked(st, who, coins, doAdd, kind).Done?
    ensures var st' := UpdateLocked(st, who, coins, doAdd, kind).state;
            && st'.ledger == st.ledger
            && if doAdd then Escrow(st') == Escrow(st) + coins else Escrow(st') + coins == Escrow(st)
  {
    if kind == LOCK_QUANTITY {
      LockedUpdated(st.quantityLocks, who, coins, doAdd);
    } else {
      LockedUpdated(st.feeLocks, who, coins, doAdd);
    }
  }

  /** A transfer between two accounts moves exactly its coins. */
  lemma SendEffect(l: Ledger, payer: Address, payee: Address, coins: Coins)
    requires payer != payee && Send(l, payer, payee, coins).Some?
    ensures var l' := Send(l, payer, payee, coins).value;
            && Balance(l', payer) + coins == Balance(l, payer)
            && Balance(l', payee) == Balance(l, payee) + coins
            && forall a | a != payer && a != payee :: Balance(l', a) == Balance(l, a)
  {
    var b := Balance(l, payer);
    assert b - coins + coins == b;
  }

  lemma Untouched(l: Ledger, payer: Address, payee: Address, coins: Coins, who: Address)
    requires who != payer && who != payee && Send(l, payer, payee, coins).Some?
    ensures Balance(Send(l, payer, payee, coins).value, who) == Balance(l, who)
  {
  }

  // ---------------------------------------------------------------- lock and unlock

  lemma LockKeepsBacked(st: State, who: Address, coins: Coins, kind: int)
    requires Backed(st) && who != TOKEN_ACCOUNT
    ensures Lock(st, who, coins, kind).Done? ==> Backed(Lock(st, who, coins, kind).state)
  {
    if Lock(st, who, coins, kind).Done? {
      EscrowUpdated(st.(ledger := Send(st.ledger, who, TOKEN_ACCOUNT, coins).value), who, coins, true, kind);
    }
  }

  /** Coins that an account has locked can always be paid back to it. */
  lemma UnlockKeepsBacked(st: State, who: Address, coins: Coins, kind: int)
    requires Backed(st) && who != TOKEN_ACCOUNT
    ensures Unlock(st, who, coins, kind).Done? ==> Backed(Unlock(st, who, coins, kind).state)
    ensures Unlock(st, who, coins, kind) != Failed(ModuleFunds)
  {
    var unlocked := UpdateLocked(st, who, coins, false, kind);
    if unlocked.Done? {
      EscrowUpdated(st, who, coins, false, kind);
      var left := Escrow(unlocked.state);
      assert coins <= left + coins;
      assert left + coins - coins == left;
    }
  }

  /** Locking and unlocking the same coins leaves every holding as it was. */
  lemma LockThenUnlock(st: State, who: Address, coins: Coins, kind: int)
    requires who != TOKEN_ACCOUNT && coins != multiset{} && Lock(st, who, coins, kind).Done?
    ensures var o := Unlock(Lock(st, who, coins, kind).state, who, coins, kind);
            && o.Done?
            && (forall a :: Balance(o.state.ledger, a) == Balance(st.ledger, a))
            && (forall a :: LockedBy(o.state.quantityLocks, a) == LockedBy(st.quantityLocks, a))
            && (forall a :: LockedBy(o.state.feeLocks, a) == LockedBy(st.feeLocks, a))
  {
    ThereAndBack(st.ledger, who, coins);
    var l1 := Send(st.ledger, who, TOKEN_ACCOUNT, coins).value;
    if kind == LOCK_QUANTITY {
      var there := UpdateLocks(st.quantityLocks, who, coins, true).value;
      assert Lock(st, who, coins, kind) == Done(st.(ledger := l1, quantityLocks := there));
      BackAndForth(st.quantityLocks, who, coins);
    } else {
      var there := UpdateLocks(st.feeLocks, who, coins, true).value;
      assert Lock(st, who, coins, kind) == Done(st.(ledger := l1, feeLocks := there));
      BackAndForth(st.feeLocks, who, coins);
    }
  }

  lemma ThereAndBack(l: Ledger, who: Address, coins: Coins)
    requires who != TOKEN_ACCOUNT && Send(l, who, TOKEN_ACCOUNT, coins).Some?
    ensures Send(Send(l, who, TOKEN_ACCOUNT, coins).value, TOKEN_ACCOUNT, who, coins).Some?
    ensures var l' := Send(Send(l, who, TOKEN_ACCOUNT, coins).value, TOKEN_ACCOUNT, who, coins).value;
            forall a :: Balance(l', a) == Balance(l, a)
  {
    var l1 := Send(l, who, TOKEN_ACCOUNT, coins).value;
    SendEffect(l, who, TOKEN_ACCOUNT, coins);
    var l2 := Send(l1, TOKEN_ACCOUNT, who, coins).value;
    SendEffect(l1, TOKEN_ACCOUNT, who, coins);
    CancelCoins(Balance(l2, TOKEN_ACCOUNT), Balance(l, TOKEN_ACCOUNT), coins);
  }

  lemma BackAndForth(locks: Locks, who: Address, coins: Coins)
    requires coins != multiset{}
    ensures var there := UpdateLocks(locks, who, coins, true).value;
            && UpdateLocks(there, who, coins, false).Some?
            && forall a :: LockedBy(UpdateLocks(there, who, coins, false).value, a) == LockedBy(locks, a)
  {
    var mine := LockedBy(locks, who);
    assert multiset{} + coins == coins;
    var sum := mine + coins;
    assert sum - coins == mine && coins <= sum;
    assert sum != multiset{} by {
      var d :| d in coins;
      assert d in sum;
    }
    assert UpdateLocks(locks, who, coins, true).value == locks[who := sum];
  }

  // ---------------------------------------------------------------- messages

  /** A step that neither touches locks nor what the module account holds. */
  predicate LeavesEscrow(st: State, st': State) {
    && st'.quantityLocks == st.quantityLocks && st'.feeLocks == st.feeLocks
    && Balance(st'.ledger, TOKEN_ACCOUNT) == Balance(st.ledger, TOKEN_ACCOUNT)
  }

  lemma MintLeaves(st: State, who: Address, denom: string, amount: nat)
    requires who != TOKEN_ACCOUNT
    ensures MintTo(st, who, denom, amount).Done? && LeavesEscrow(st, MintTo(st, who, denom, amount).state)
  {
    var held, coins := Balance(st.ledger, TOKEN_ACCOUNT), One(denom, amount);
    assert coins <= held + coins && held + coins - coins == held;
  }

  lemma BurnLeaves(st: State, who: Address, denom: string, amount: nat)
    requires who != TOKEN_ACCOUNT
    ensures BurnFrom(st, who, denom, amount).Done? ==> LeavesEscrow(st, BurnFrom(st, who, denom, amount).state)
  {
    var coins := One(denom, amount);
    if BurnFrom(st, who, denom, amount).Done? {
      SendEffect(st.ledger, who, TOKEN_ACCOUNT, coins);
      var held := Balance(st.ledger, TOKEN_ACCOUNT);
      assert held + coins - coins == held;
    }
  }

  lemma FeeLeaves(st: State, who: Address, fee: Coins)
    requires who != TOKEN_ACCOUNT
    ensures PayFee(st, who, fee).Done? ==> LeavesEscrow(st, PayFee(st, who, fee).state)
  {
  }

  lemma TransferLeaves(env: Env, st: State, msg: Msg)
    requires msg.TransferOwnership? && msg.from != TOKEN_ACCOUNT
    ensures HandleTransfer(env, st, msg).Done? ==> LeavesEscrow(st, HandleTransfer(env, st, msg).state)
  {
    if OwnedBy(st, msg.symbol, msg.from) {
      FeeLeaves(AfterRequest(env, st, msg), msg.from, env.feeChown);
    }
  }

  lemma IssueLeaves(env: Env, st: State, msg: Msg)
    requires msg.Issue? && msg.owner != TOKEN_ACCOUNT
    ensures HandleIssue(env, st, msg).Done? ==> LeavesEscrow(st, HandleIssue(env, st, msg).state)
  {
    if NameOf(env, st, msg).Some? {
      var name := NameOf(env, st, msg).value;
      MintLeaves(st, msg.owner, name, msg.totalSupply);
      var st1 := MintTo(st, msg.owner, name, msg.totalSupply).state;
      FeeLeaves(NewToken(st1, Info(name, msg.owner, msg.mintable, msg.description)), msg.owner, env.feeIssue);
    }
  }

  lemma MintAndBurnLeave(env: Env, st: State, msg: Msg)
    requires (msg.Mint? || msg.Burn?) && msg.owner != TOKEN_ACCOUNT
    ensures Handle(env, st, msg).Done? ==> LeavesEscrow(st, Handle(env, st, msg).state)
  {
    if msg.Mint? {
      MintLeaves(st, msg.owner, msg.denom, msg.amount);
      FeeLeaves(MintTo(st, msg.owner, msg.denom, msg.amount).state, msg.owner, env.feeMint);
    } else {
      BurnLeaves(st, msg.owner, msg.denom, msg.amount);
      var burned := BurnFrom(st, msg.owner, msg.denom, msg.amount);
      if burned.Done? {
        FeeLeaves(burned.state, msg.owner, env.feeBurn);
      }
    }
  }

  lemma SendLeaves(env: Env, st: State, payer: Address, t: Transfer)
    requires payer != TOKEN_ACCOUNT && TOKEN_ACCOUNT in env.blacklist
    ensures SendTo(env, st, payer, t).Done? ==> LeavesEscrow(st, SendTo(env, st, payer, t).state)
  {
    if SendTo(env, st, payer, t).Done? { Untouched(st.ledger, payer, t.to, t.coins, TOKEN_ACCOUNT); }
  }

  lemma {:induction false} SendsLeave(env: Env, st: State, payer: Address, transfers: seq<Transfer>)
    requires payer != TOKEN_ACCOUNT && TOKEN_ACCOUNT in env.blacklist
    ensures SendEach(env, st, payer, transfers).Done? ==> LeavesEscrow(st, SendEach(env, st, payer, transfers).state)
    decreases |transfers|
  {
    if transfers != [] && SendTo(env, st, payer, transfers[0]).Done? {
      SendLeaves(env, st, payer, transfers[0]);
      SendsLeave(env, SendTo(env, st, payer, transfers[0]).state, payer, transfers[1..]);
    }
  }

  /** Issuing, minting and burning pass through the module account and leave nothing behind; nobody can
      send to it, since it is blacklisted as a recipient; the other messages do not come near it. */
  lemma MessagesLeaveEscrow(env: Env, st: State, msg: Msg)
    requires Signer(msg) != TOKEN_ACCOUNT && TOKEN_ACCOUNT in env.blacklist
    ensures Handle(env, st, msg).Done? ==> LeavesEscrow(st, Handle(env, st, msg).state)
  {
    match msg
    case Issue(_, _, _, _, _) => IssueLeaves(env, st, msg);
    case Mint(_, _, _) => MintAndBurnLeave(env, st, msg);
    case Burn(_, _, _) => MintAndBurnLeave(env, st, msg);
    case TransferOwnership(_, _, _) => TransferLeaves(env, st, msg);
    case ConfirmOwnership(_, _) =>
    case Modify(owner, symbol, change) =>
      if OwnedBy(st, symbol, owner) && change.Some? {
        FeeLeaves(AfterModify(st, msg), owner, env.feeModify);
      }
    case SendOne(from, to, coins) => SendLeaves(env, st, from, Transfer(to, coins));
    case SendMany(from, transfers) => SendsLeave(env, st, from, transfers);
  }

  // ---------------------------------------------------------------- settlements

  function Outputs(batch: seq<Settlement>): Coins {
    if batch == [] then multiset{} else batch[0].output + Outputs(batch[1..])
  }

  function Inputs(batch: seq<Settlement>): Coins {
    if batch == [] then multiset{} else batch[0].input + Inputs(batch[1..])
  }

  predicate Users(batch: seq<Settlement>) {
    forall i | 0 <= i < |batch| :: batch[i].who != TOKEN_ACCOUNT
  }

  /** The locked coins every settlement of the batch gives up are there when its turn comes. */
  predicate OutputsLocked(locks: Locks, batch: seq<Settlement>)
    decreases |batch|
  {
    batch == [] ||
    (if batch[0].output == multiset{} then OutputsLocked(locks, batch[1..])
     else UpdateLocks(locks, batch[0].who, batch[0].output, false).Some?
          && OutputsLocked(UpdateLocks(locks, batch[0].who, batch[0].output, false).value, batch[1..]))
  }

  lemma {:induction false} EnoughLocked(locks: Locks, batch: seq<Settlement>)
    requires OutputsLocked(locks, batch)
    ensures Outputs(batch) <= TotalOf(locks)
    decreases |batch|
  {
    if batch != [] {
      if batch[0].output == multiset{} {
        EnoughLocked(locks, batch[1..]);
      } else {
        LockedUpdated(locks, batch[0].who, batch[0].output, false);
        EnoughLocked(UpdateLocks(locks, batch[0].who, batch[0].output, false).value, batch[1..]);
      }
    }
  }

  /** Short or over by exactly what the rest of the batch will make good. */
  ghost predicate OnTrack(st: State, batch: seq<Settlement>) {
    Balance(st.ledger, TOKEN_ACCOUNT) + Outputs(batch) == Escrow(st) + Inputs(batch)
  }

  function GivenUp(st: State, s: Settlement): Outcome {
    if s.output == multiset{} then Done(st) else UpdateLocked(st, s.who, s.output, false, LOCK_QUANTITY)
  }

  lemma GivenUpEscrow(st: State, s: Settlement)
    requires GivenUp(st, s).Done?
    ensures var st1 := GivenUp(st, s).state;
            Escrow(st1) + s.output == Escrow(st) && st1.ledger == st.ledger && st1.feeLocks == st.feeLocks
  {
    if s.output != multiset{} {
      EscrowUpdated(st, s.who, s.output, false, LOCK_QUANTITY);
    }
  }

  /** Off balance or not, an account on track covers the next payout. */
  lemma PayoutCovered(balance: Coins, escrow: Coins, outs: Coins, input: Coins, ins: Coins)
    requires balance + outs == escrow + (input + ins)
    requires outs <= escrow
    ensures input <= balance
  {
    forall d: string
      ensures input[d] <= balance[d]
    {
      assert (balance + outs)[d] == (escrow + (input + ins))[d];
      assert outs[d] <= escrow[d];
    }
  }

  lemma StillOnTrack(b0: Coins, b1: Coins, e0: Coins, e1: Coins, output: Coins, outs: Coins, input: Coins, ins: Coins)
    requires b0 + (output + outs) == e0 + (input + ins)
    requires e1 + output == e0 && b1 + input == b0
    ensures b1 + outs == e1 + ins
  {
    forall d: string
      ensures (b1 + outs)[d] == (e1 + ins)[d]
    {
      assert (b0 + (output + outs))[d] == (e0 + (input + ins))[d];
      assert (e1 + output)[d] == e0[d] && (b1 + input)[d] == b0[d];
    }
  }

  /** A settlement gives up its output and pays its input, if the account covers it. */
  lemma SettleEffect(st: State, s: Settlement)
    requires s.who != TOKEN_ACCOUNT && GivenUp(st, s).Done?
    ensures s.input <= Balance(st.ledger, TOKEN_ACCOUNT) ==> Settle(st, s).Done?
    ensures Settle(st, s).Done? ==>
      && Balance(Settle(st, s).state.ledger, TOKEN_ACCOUNT) + s.input == Balance(st.ledger, TOKEN_ACCOUNT)
      && Escrow(Settle(st, s).state) + s.output == Escrow(st)
      && Settle(st, s).state.quantityLocks == GivenUp(st, s).state.quantityLocks
  {
    GivenUpEscrow(st, s);
    var balance := Balance(st.ledger, TOKEN_ACCOUNT);
    if s.input == multiset{} {
      assert balance + s.input == balance;
    } else if s.input <= balance {
      SendEffect(st.ledger, TOKEN_ACCOUNT, s.who, s.input);
    }
  }

  /** One settlement of a batch that is on track: its payout is covered, and the rest stays on track. */
  lemma SettleOnTrack(st: State, batch: seq<Settlement>)
    requires batch != [] && batch[0].who != TOKEN_ACCOUNT
    requires OutputsLocked(st.quantityLocks, batch) && OnTrack(st, batch)
    ensures Settle(st, batch[0]).Done?
    ensures OnTrack(Settle(st, batch[0]).state, batch[1..])
    ensures OutputsLocked(Settle(st, batch[0]).state.quantityLocks, batch[1..])
  {
    var s, rest := batch[0], batch[1..];
    var balance := Balance(st.ledger, TOKEN_ACCOUNT);
    assert Outputs(batch) <= Escrow(st) by { EnoughLocked(st.quantityLocks, batch); }
    PayoutCovered(balance, Escrow(st), Outputs(batch), s.input, Inputs(rest));
    SettleEffect(st, s);
    var st1 := Settle(st, s).state;
    StillOnTrack(balance, Balance(st1.ledger, TOKEN_ACCOUNT), Escrow(st), Escrow(st1), s.output, Outputs(rest), s.input, Inputs(rest));
  }

  lemma {:induction false} BatchOnTrack(st: State, batch: seq<Settlement>)
    requires Users(batch) && OutputsLocked(st.quantityLocks, batch) && OnTrack(st, batch)
    ensures SettleAll(st, batch).Done? && Backed(SettleAll(st, batch).state)
    decreases |batch|
  {
    if batch == [] {
      var b, e := Balance(st.ledger, TOKEN_ACCOUNT), Escrow(st);
      assert b + multiset{} == b && e + multiset{} == e;
    } else {
      SettleOnTrack(st, batch);
      BatchOnTrack(Settle(st, batch[0]).state, batch[1..]);
    }
  }

  /** A batch of settlements that pays out, coin by coin, what it collects goes through whenever the
      coins it collects are locked: no payout on the way lacks funds, although the account is off
      balance in between, and in the end everything is backed again. */
  lemma BalancedBatchSettles(st: State, batch: seq<Settlement>)
    requires Backed(st) && Users(batch) && OutputsLocked(st.quantityLocks, batch)
    requires Inputs(batch) == Outputs(batch)
    ensures SettleAll(st, batch).Done? && Backed(SettleAll(st, batch).state)
  {
    BatchOnTrack(st, batch);
  }

  lemma {:induction false} BatchDrift(st: State, batch: seq<Settlement>)
    requires Users(batch) && SettleAll(st, batch).Done?
    ensures var st' := SettleAll(st, batch).state;
            Balance(st'.ledger, TOKEN_ACCOUNT) + Inputs(batch) + Escrow(st)
              == Balance(st.ledger, TOKEN_ACCOUNT) + Escrow(st') + Outputs(batch)
    decreases |batch|
  {
    if batch != [] {
      var s, rest := batch[0], batch[1..];
      SettleEffect(st, s);
      var st2 := Settle(st, s).state;
      BatchDrift(st2, rest);
      var st' := SettleAll(st, batch).state;
      DriftStep(Balance(st.ledger, TOKEN_ACCOUNT), Balance(st2.ledger, TOKEN_ACCOUNT), Balance(st'.ledger, TOKEN_ACCOUNT),
                Escrow(st), Escrow(st2), Escrow(st'), s.input, Inputs(rest), s.output, Outputs(rest));
    }
  }

  lemma DriftStep(b0: Coins, b1: Coins, b2: Coins, e0: Coins, e1: Coins, e2: Coins, in0: Coins, ins: Coins, out0: Coins, outs: Coins)
    requires b1 + in0 == b0 && e1 + out0 == e0
    requires b2 + ins + e1 == b1 + e2 + outs
    ensures b2 + (in0 + ins) + e0 == b0 + e2 + (out0 + outs)
  {
    forall d: string
      ensures (b2 + (in0 + ins) + e0)[d] == (b0 + e2 + (out0 + outs))[d]
    {
      assert (b1 + in0)[d] == b0[d] && (e1 + out0)[d] == e0[d];
      assert (b2 + ins + e1)[d] == (b1 + e2 + outs)[d];
    }
  }

  /** Any batch that goes through leaves all locked coins backed if and only if it pays out exactly
      what it collects. */
  lemma BatchBackedExactlyWhenBalanced(st: State, batch: seq<Settlement>)
    requires Backed(st) && Users(batch) && SettleAll(st, batch).Done?
    ensures Backed(SettleAll(st, batch).state) <==> Inputs(batch) == Outputs(batch)
  {
    var st' := SettleAll(st, batch).state;
    BatchDrift(st, batch);
    var b, e, e0, ins, outs := Balance(st'.ledger, TOKEN_ACCOUNT), Escrow(st'), Escrow(st), Inputs(batch), Outputs(batch);
    BalanceTells(b, e, e0, ins, outs);
  }

  lemma BalanceTells(b: Coins, e: Coins, e0: Coins, ins: Coins, outs: Coins)
    requires b + ins + e0 == e0 + e + outs
    ensures b == e <==> ins == outs
  {
    forall d: string
      ensures b[d] + ins[d] == e[d] + outs[d]
    {
      assert (b + ins + e0)[d] == (e0 + e + outs)[d];
    }
  }

  /** A batch that is not balanced and goes through: an account gives up a locked coin and nobody is
      paid. The coin stays with the module account, backing nothing. */
  lemma UnbalancedBatchBreaksEscrow()
    ensures var coin := One("okt", 1);
            var st := State(map[], {}, map[], map["okt" := 1], map[TOKEN_ACCOUNT := coin], map["u" := coin], map[]);
            var batch := [Settlement("u", coin, multiset{})];
            && Backed(st) && Users(batch) && SettleAll(st, batch).Done?
            && Inputs(batch) != Outputs(batch) && !Backed(SettleAll(st, batch).state)
  {
    var coin := One("okt", 1);
    var st := State(map[], {}, map[], map["okt" := 1], map[TOKEN_ACCOUNT := coin], map["u" := coin], map[]);
    var batch := [Settlement("u", coin, multiset{})];
    TotalWithout(st.quantityLocks, "u");
    assert st.quantityLocks - {"u"} == map[];
    assert coin + multiset{} == coin;
    assert Backed(st);
    assert coin["okt"] == 1;
    assert batch[1..] == [];
    assert Settle(st, batch[0]).Done?;
    assert SettleAll(Settle(st, batch[0]).state, []).Done?;
    assert Inputs(batch) == multiset{} && Outputs(batch) == coin;
    BatchBackedExactlyWhenBalanced(st, batch);
  }

  // ---------------------------------------------------------------- every reachable state

  /** One step of the chain as the escrow sees it. Module accounts sign nothing and lock nothing, and
      nobody else moves the module account's coins. */
  datatype Step =
    | Message(env: Env, msg: Msg)
    | LockStep(who: Address, coins: Coins, kind: int)
    | UnlockStep(who: Address, coins: Coins, kind: int)
    | SettleStep(batch: seq<Settlement>)
    | Outside(after: State)

  predicate Allowed(st: State, step: Step) {
    match step
    case Message(env, msg) => Signer(msg) != TOKEN_ACCOUNT && TOKEN_ACCOUNT in env.blacklist
    case LockStep(who, _, _) => who != TOKEN_ACCOUNT
    case UnlockStep(who, _, _) => who != TOKEN_ACCOUNT
    case SettleStep(batch) => Users(batch) && Inputs(batch) == Outputs(batch)
    case Outside(after) => LeavesEscrow(st, after)
  }

  function Attempt(st: State, step: Step): Outcome {
    match step
    case Message(env, msg) => Handle(env, st, msg)
    case LockStep(who, coins, kind) => Lock(st, who, coins, kind)
    case UnlockStep(who, coins, kind) => Unlock(st, who, coins, kind)
    case SettleStep(batch) => SettleAll(st, batch)
    case Outside(after) => Done(after)
  }

  /** A step that fails leaves everything as it was. */
  function Apply(st: State, step: Step): State {
    match Attempt(st, step)
    case Done(st') => st'
    case Failed(_) => st
  }

  function ApplyAll(st: State, steps: seq<Step>): State
    decreases |steps|
  {
    if steps == [] then st else ApplyAll(Apply(st, steps[0]), steps[1..])
  }

  predicate AllAllowed(st: State, steps: seq<Step>)
    decreases |steps|
  {
    steps == [] || (Allowed(st, steps[0]) && AllAllowed(Apply(st, steps[0]), steps[1..]))
  }

  lemma StepKeepsBacked(st: State, step: Step)
    requires Backed(st) && Allowed(st, step)
    ensures Backed(Apply(st, step))
  {
    match step
    case Message(env, msg) => MessagesLeaveEscrow(env, st, msg);
    case LockStep(who, coins, kind) => LockKeepsBacked(st, who, coins, kind);
    case UnlockStep(who, coins, kind) => UnlockKeepsBacked(st, who, coins, kind);
    case SettleStep(batch) =>
      if SettleAll(st, batch).Done? {
        BatchBackedExactlyWhenBalanced(st, batch);
      }
    case Outside(_) =>
  }

  /** After any run of steps the module account holds exactly all locked coins. */
  lemma {:induction false} AlwaysBacked(st: State, steps: seq<Step>)
    requires Backed(st) && AllAllowed(st, steps)
    ensures Backed(ApplyAll(st, steps))
    decreases |steps|
  {
    if steps != [] {
      StepKeepsBacked(st, steps[0]);
      AlwaysBacked(Apply(st, steps[0]), steps[1..]);
    }
  }
}
