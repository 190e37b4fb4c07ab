/** What each token message, lock and settlement does to every account and record. All of it is said of
    balances, records, locks and the message alone, not of how a handler computes it. */
module TokenEffects {
  import opened Options
  import opened Token

  // ---------------------------------------------------------------- who gains and who loses

  /** Coins that change hands; no payer means they are minted, no payee that they are burned. */
  datatype Flow = Flow(payer: Option<Address>, payee: Option<Address>, coins: Coins)

  function Transferred(payer: Address, payee: Address, coins: Coins): Flow {
    Flow(Some(payer), Some(payee), coins)
  }

  /** How much an account has of a coin. */
  function Amount(l: Ledger, who: Address, denom: string): nat {
    Balance(l, who)[denom]
  }

  function Of(coins: Coins, denom: string): int {
    coins[denom]
  }

  function NetOf(f: Flow, who: Address, denom: string): int {
    (if f.payee == Some(who) then Of(f.coins, denom) else 0) - (if f.payer == Some(who) then Of(f.coins, denom) else 0)
  }

  /** What an account gains of a coin by all the flows. */
  function Net(flows: seq<Flow>, who: Address, denom: string): int {
    if flows == [] then 0 else NetOf(flows[0], who, denom) + Net(flows[1..], who, denom)
  }

  /** Every balance of every account changes by exactly what the flows say. */
  ghost predicate Moves(l: Ledger, l': Ledger, flows: seq<Flow>) {
    forall who: Address, denom: string {:trigger Amount(l', who, denom)} :: Amount(l', who, denom) == Amount(l, who, denom) + Net(flows, who, denom)
  }

  lemma NetOne(f: Flow, who: Address, denom: string)
    ensures Net([f], who, denom) == NetOf(f, who, denom)
  {
    assert [f][1..] == [];
  }

  lemma {:induction false} NetConcat(f: seq<Flow>, g: seq<Flow>, who: Address, denom: string)
    ensures Net(f + g, who, denom) == Net(f, who, denom) + Net(g, who, denom)
    decreases |f|
  {
    if f == [] {
      assert f + g == g;
    } else {
      assert (f + g)[1..] == f[1..] + g;
      NetConcat(f[1..], g, who, denom);
    }
  }

  lemma NetTwo(f: Flow, g: Flow, who: Address, denom: string)
    ensures Net([f, g], who, denom) == NetOf(f, who, denom) + NetOf(g, who, denom)
  {
    assert [f, g][1..] == [g];
    NetOne(g, who, denom);
  }

  lemma MovesThen(l: Ledger, l1: Ledger, l2: Ledger, f: seq<Flow>, g: seq<Flow>)
    requires Moves(l, l1, f) && Moves(l1, l2, g)
    ensures Moves(l, l2, f + g)
  {
    forall who: Address, denom: string
      ensures Amount(l2, who, denom) == Amount(l, who, denom) + Net(f + g, who, denom)
    {
      NetConcat(f, g, who, denom);
      assert Amount(l1, who, denom) == Amount(l, who, denom) + Net(f, who, denom);
    }
  }

  lemma SentAmount(l: Ledger, payer: Address, payee: Address, coins: Coins, who: Address, denom: string)
    requires coins <= Balance(l, payer)
    ensures Send(l, payer, payee, coins).Some?
    ensures Amount(Send(l, payer, payee, coins).value, who, denom) == Amount(l, who, denom) + NetOf(Transferred(payer, payee, coins), who, denom)
  {
  }

  lemma SendMoves(l: Ledger, payer: Address, payee: Address, coins: Coins)
    requires coins <= Balance(l, payer)
    ensures Send(l, payer, payee, coins).Some?
    ensures Moves(l, Send(l, payer, payee, coins).value, [Transferred(payer, payee, coins)])
  {
    var l' := Send(l, payer, payee, coins).value;
    forall who: Address, denom: string
      ensures Amount(l', who, denom) == Amount(l, who, denom) + Net([Transferred(payer, payee, coins)], who, denom)
    {
      NetOne(Transferred(payer, payee, coins), who, denom);
      SentAmount(l, payer, payee, coins, who, denom);
    }
  }

  lemma NothingMoves(l: Ledger, f: Flow)
    requires f.coins == multiset{}
    ensures Moves(l, l, [f])
  {
    forall who: Address, denom: string
      ensures Net([f], who, denom) == 0
    {
      NetOne(f, who, denom);
    }
  }

  // ---------------------------------------------------------------- names of new tokens

  /** From candidate `i` on every name is well formed and taken. */
  predicate AllTaken(symbol: string, hash: string, valid: string -> bool, tokens: map<string, Info>, i: nat) {
    forall k: nat {:trigger Suffixed(symbol, hash, k)} | i <= k < |hash| / 3 ::
      valid(Suffixed(symbol, hash, k)) && Suffixed(symbol, hash, k) in tokens
  }

  /** Candidate `i` is the last one that is free or ill formed. */
  predicate Decides(symbol: string, hash: string, valid: string -> bool, tokens: map<string, Info>, i: nat) {
    && i < |hash| / 3
    && !(valid(Suffixed(symbol, hash, i)) && Suffixed(symbol, hash, i) in tokens)
    && AllTaken(symbol, hash, valid, tokens, i + 1)
  }

  /** No two candidates decide. */
  lemma OneDecides(symbol: string, hash: string, valid: string -> bool, tokens: map<string, Info>, i: nat, j: nat)
    requires Decides(symbol, hash, valid, tokens, i) && Decides(symbol, hash, valid, tokens, j)
    ensures i == j
  {
    var name, name' := Suffixed(symbol, hash, i), Suffixed(symbol, hash, j);
  }

  /** The name a new token gets: the deciding candidate, if it is well formed. */
  predicate NameFor(env: Env, st: State, msg: Msg, name: string)
    requires msg.Issue?
  {
    exists i: nat | i < |env.txHash| / 3 ::
      Decides(msg.symbol, env.txHash, env.wellFormed, st.tokens, i) && name == Suffixed(msg.symbol, env.txHash, i) && env.wellFormed(name)
  }

  lemma {:induction false} NewNameDecides(symbol: string, hash: string, valid: string -> bool, tokens: map<string, Info>, n: nat)
    requires n <= |hash| / 3 && AllTaken(symbol, hash, valid, tokens, n)
    ensures match NewName(symbol, hash, valid, tokens, n)
            case Some(name) => exists i: nat | i < |hash| / 3 :: Decides(symbol, hash, valid, tokens, i) && name == Suffixed(symbol, hash, i) && valid(name)
            case None => forall i: nat | i < |hash| / 3 && Decides(symbol, hash, valid, tokens, i) :: !valid(Suffixed(symbol, hash, i))
    decreases n
  {
    if n > 0 {
      var name := Suffixed(symbol, hash, n - 1);
      if valid(name) && name in tokens {
        NewNameDecides(symbol, hash, valid, tokens, n - 1);
      } else {
        assert Decides(symbol, hash, valid, tokens, n - 1);
        forall i: nat | i < |hash| / 3 && Decides(symbol, hash, valid, tokens, i)
          ensures i == n - 1
        {
          OneDecides(symbol, hash, valid, tokens, i, n - 1);
        }
      }
    }
  }

  lemma NameIs(env: Env, st: State, msg: Msg)
    requires msg.Issue?
    ensures NameOf(env, st, msg).Some? ==> NameFor(env, st, msg, NameOf(env, st, msg).value)
    ensures forall name: string :: NameFor(env, st, msg, name) ==> NameOf(env, st, msg) == Some(name)
  {
    var symbol, hash, valid, tokens := msg.symbol, env.txHash, env.wellFormed, st.tokens;
    NewNameDecides(symbol, hash, valid, tokens, |hash| / 3);
    forall name: string | NameFor(env, st, msg, name)
      ensures NameOf(env, st, msg) == Some(name)
    {
      var i: nat :| i < |hash| / 3 && Decides(symbol, hash, valid, tokens, i) && name == Suffixed(symbol, hash, i) && valid(name);
      if NameOf(env, st, msg).Some? {
        var j: nat :| j < |hash| / 3 && Decides(symbol, hash, valid, tokens, j) && NameOf(env, st, msg).value == Suffixed(symbol, hash, j);
        OneDecides(symbol, hash, valid, tokens, i, j);
      }
    }
  }

  // ---------------------------------------------------------------- messages

  predicate RecordsKept(st: State, st': State) {
    st'.tokens == st.tokens && st'.pending == st.pending
  }

  predicate SameLocks(st: State, st': State) {
    st'.quantityLocks == st.quantityLocks && st'.feeLocks == st.feeLocks
  }

  /** Nothing but balances differs. */
  predicate SameBesides(st: State, st': State) {
    RecordsKept(st, st') && SameLocks(st, st') && st'.supply == st.supply
  }

  /** The supply of one token changes, of no other. */
  ghost predicate SupplyChanged(st: State, st': State, denom: string, change: int) {
    forall d: string :: SupplyOf(st'.supply, d) == SupplyOf(st.supply, d) + if d == denom then change else 0
  }

  function Fee(who: Address, fee: Coins): Flow {
    Transferred(who, FEE_COLLECTOR, fee)
  }

  ghost predicate IssuedAs(env: Env, st: State, st': State, msg: Msg, name: string)
    requires msg.Issue?
  {
    && NameFor(env, st, msg, name) && name !in st.tokens && SameLocks(st, st') && st'.pending == st.pending
    && st'.tokens == st.tokens[name := Info(name, msg.owner, msg.mintable, msg.description)]
    && SupplyChanged(st, st', name, msg.totalSupply)
    && Moves(st.ledger, st'.ledger, [Flow(None, Some(msg.owner), One(name, msg.totalSupply)), Fee(msg.owner, env.feeIssue)])
  }

  ghost predicate MintedBy(env: Env, st: State, st': State, msg: Msg)
    requires msg.Mint?
  {
    && RecordsKept(st, st') && SameLocks(st, st')
    && SupplyChanged(st, st', msg.denom, msg.amount)
    && Moves(st.ledger, st'.ledger, [Flow(None, Some(msg.owner), One(msg.denom, msg.amount)), Fee(msg.owner, env.feeMint)])
  }

  ghost predicate BurnedBy(env: Env, st: State, st': State, msg: Msg)
    requires msg.Burn?
  {
    && RecordsKept(st, st') && SameLocks(st, st')
    && SupplyChanged(st, st', msg.denom, 0 - msg.amount)
    && Moves(st.ledger, st'.ledger, [Flow(Some(msg.owner), None, One(msg.denom, msg.amount)), Fee(msg.owner, env.feeBurn)])
  }

  /** To the black hole at once; to anybody else a request until the window ends, and the owner stays. */
  ghost predicate RequestedBy(env: Env, st: State, st': State, msg: Msg)
    requires msg.TransferOwnership?
  {
    && SameLocks(st, st') && st'.supply == st.supply && msg.symbol in st.tokens
    && (if msg.to == BLACK_HOLE then
          st'.tokens == st.tokens[msg.symbol := st.tokens[msg.symbol].(owner := BLACK_HOLE)] && st'.pending == st.pending
        else
          && st'.tokens == st.tokens
          && st'.pending == st.pending[msg.symbol := Confirm(msg.symbol, msg.to, env.blockTime + env.confirmWindow)])
    && Moves(st.ledger, st'.ledger, [Fee(msg.from, env.feeChown)])
  }

  ghost predicate ConfirmedBy(st: State, st': State, msg: Msg)
    requires msg.ConfirmOwnership?
  {
    && SameLocks(st, st') && st'.supply == st.supply && st'.ledger == st.ledger && msg.symbol in st.tokens
    && st'.tokens == st.tokens[msg.symbol := st.tokens[msg.symbol].(owner := msg.address)]
    && st'.pending == st.pending - {msg.symbol}
  }

  ghost predicate ModifiedBy(env: Env, st: State, st': State, msg: Msg)
    requires msg.Modify?
  {
    && SameLocks(st, st') && st'.supply == st.supply && st'.pending == st.pending && msg.symbol in st.tokens && msg.change.Some?
    && st'.tokens == st.tokens[msg.symbol := st.tokens[msg.symbol].(description := msg.change.value)]
    && Moves(st.ledger, st'.ledger, [Fee(msg.owner, env.feeModify)])
  }

  function SendFlows(payer: Address, transfers: seq<Transfer>): seq<Flow> {
    if transfers == [] then [] else [Transferred(payer, transfers[0].to, transfers[0].coins)] + SendFlows(payer, transfers[1..])
  }

  /** The transfers of a send message. */
  function TransfersOf(msg: Msg): seq<Transfer>
    requires msg.SendOne? || msg.SendMany?
  {
    if msg.SendOne? then [Transfer(msg.to, msg.coins)] else msg.transfers
  }

  ghost predicate SentBy(st: State, st': State, msg: Msg)
    requires msg.SendOne? || msg.SendMany?
  {
    && RecordsKept(st, st') && SameLocks(st, st') && st'.supply == st.supply
    && Moves(st.ledger, st'.ledger, SendFlows(msg.from, TransfersOf(msg)))
  }

  /** What a message that goes through leaves behind. */
  ghost predicate Effect(env: Env, st: State, st': State, msg: Msg) {
    match msg
    case Issue(_, _, _, _, _) => exists name: string :: IssuedAs(env, st, st', msg, name)
    case Mint(_, _, _) => MintedBy(env, st, st', msg)
    case Burn(_, _, _) => BurnedBy(env, st, st', msg)
    case TransferOwnership(_, _, _) => RequestedBy(env, st, st', msg)
    case ConfirmOwnership(_, _) => ConfirmedBy(st, st', msg)
    case Modify(_, _, _) => ModifiedBy(env, st, st', msg)
    case SendOne(_, _, _) => SentBy(st, st', msg)
    case SendMany(_, _) => SentBy(st, st', msg)
  }

  // ---------------------------------------------------------------- the steps handlers are made of

  lemma MintedAmount(l: Ledger, coins: Coins, who: Address, d: string)
    ensures Amount(Credit(l, TOKEN_ACCOUNT, coins), who, d) == Amount(l, who, d) + NetOf(Flow(None, Some(TOKEN_ACCOUNT), coins), who, d)
  {
  }

  /** Coins made in the module account and passed on come from nowhere. */
  lemma MintedMoves(l: Ledger, who: Address, coins: Coins)
    ensures var sent := Send(Credit(l, TOKEN_ACCOUNT, coins), TOKEN_ACCOUNT, who, coins);
            sent.Some? && Moves(l, sent.value, [Flow(None, Some(who), coins)])
  {
    var minted := Credit(l, TOKEN_ACCOUNT, coins);
    assert coins <= Balance(minted, TOKEN_ACCOUNT);
    forall a: Address, d: string
      ensures Amount(Send(minted, TOKEN_ACCOUNT, who, coins).value, a, d) == Amount(l, a, d) + Net([Flow(None, Some(who), coins)], a, d)
    {
      NetOne(Flow(None, Some(who), coins), a, d);
      MintedAmount(l, coins, a, d);
      SentAmount(minted, TOKEN_ACCOUNT, who, coins, a, d);
    }
  }

  lemma MintToMoves(st: State, who: Address, denom: string, amount: nat)
    ensures MintTo(st, who, denom, amount).Done?
    ensures Moves(st.ledger, MintTo(st, who, denom, amount).state.ledger, [Flow(None, Some(who), One(denom, amount))])
  {
    var sent := Send(Credit(st.ledger, TOKEN_ACCOUNT, One(denom, amount)), TOKEN_ACCOUNT, who, One(denom, amount));
    MintedMoves(st.ledger, who, One(denom, amount));
    assert MintTo(st, who, denom, amount).state.ledger == sent.value;
  }

  lemma Taken(l: Ledger, coins: Coins)
    requires coins <= Balance(l, TOKEN_ACCOUNT)
    ensures Moves(l, l[TOKEN_ACCOUNT := Balance(l, TOKEN_ACCOUNT) - coins], [Flow(Some(TOKEN_ACCOUNT), None, coins)])
  {
    forall a: Address, d: string
      ensures Amount(l[TOKEN_ACCOUNT := Balance(l, TOKEN_ACCOUNT) - coins], a, d) == Amount(l, a, d) + Net([Flow(Some(TOKEN_ACCOUNT), None, coins)], a, d)
    {
      NetOne(Flow(Some(TOKEN_ACCOUNT), None, coins), a, d);
    }
  }

  /** Coins collected by the module account and burned there are gone. */
  lemma CollectedAndBurned(l: Ledger, mid: Ledger, l': Ledger, who: Address, coins: Coins)
    requires Moves(l, mid, [Transferred(who, TOKEN_ACCOUNT, coins)]) && Moves(mid, l', [Flow(Some(TOKEN_ACCOUNT), None, coins)])
    ensures Moves(l, l', [Flow(Some(who), None, coins)])
  {
    forall a: Address, d: string
      ensures Amount(l', a, d) == Amount(l, a, d) + Net([Flow(Some(who), None, coins)], a, d)
    {
      NetOne(Transferred(who, TOKEN_ACCOUNT, coins), a, d);
      NetOne(Flow(Some(TOKEN_ACCOUNT), None, coins), a, d);
      NetOne(Flow(Some(who), None, coins), a, d);
      assert Amount(mid, a, d) == Amount(l, a, d) + Net([Transferred(who, TOKEN_ACCOUNT, coins)], a, d);
    }
  }

  lemma BurnedMoves(l: Ledger, who: Address, coins: Coins)
    requires coins <= Balance(l, who)
    requires var mid := Send(l, who, TOKEN_ACCOUNT, coins).value; coins <= Balance(mid, TOKEN_ACCOUNT)
    ensures var mid := Send(l, who, TOKEN_ACCOUNT, coins).value;
            Moves(l, mid[TOKEN_ACCOUNT := Balance(mid, TOKEN_ACCOUNT) - coins], [Flow(Some(who), None, coins)])
  {
    var mid := Send(l, who, TOKEN_ACCOUNT, coins).value;
    SendMoves(l, who, TOKEN_ACCOUNT, coins);
    Taken(mid, coins);
    CollectedAndBurned(l, mid, mid[TOKEN_ACCOUNT := Balance(mid, TOKEN_ACCOUNT) - coins], who, coins);
  }

  lemma BurnFromMoves(st: State, who: Address, denom: string, amount: nat)
    requires BurnFrom(st, who, denom, amount).Done?
    ensures Moves(st.ledger, BurnFrom(st, who, denom, amount).state.ledger, [Flow(Some(who), None, One(denom, amount))])
  {
    BurnedMoves(st.ledger, who, One(denom, amount));
  }

  lemma FeeMoves(st: State, who: Address, fee: Coins)
    ensures PayFee(st, who, fee).Done? <==> fee <= Balance(st.ledger, who)
    ensures PayFee(st, who, fee).Failed? ==> PayFee(st, who, fee).error == UserFunds
    ensures PayFee(st, who, fee).Done? ==>
      var st' := PayFee(st, who, fee).state;
      SameBesides(st, st') && Moves(st.ledger, st'.ledger, [Fee(who, fee)])
  {
    if fee <= Balance(st.ledger, who) { SendMoves(st.ledger, who, FEE_COLLECTOR, fee); }
  }

  /** A step, and then a fee. */
  lemma ThenFee(l: Ledger, l1: Ledger, l2: Ledger, f: Flow, fee: Flow)
    requires Moves(l, l1, [f]) && Moves(l1, l2, [fee])
    ensures Moves(l, l2, [f, fee])
  {
    MovesThen(l, l1, l2, [f], [fee]);
    assert [f] + [fee] == [f, fee];
  }

  // ---------------------------------------------------------------- handlers

  /** What minting and a fee come to: `f` is the first flow. */
  lemma FeeAfter(st: State, st1: State, o: Outcome, f: Flow, who: Address, fee: Coins)
    requires Moves(st.ledger, st1.ledger, [f]) && o == PayFee(st1, who, fee) && o.Done?
    ensures Moves(st.ledger, o.state.ledger, [f, Fee(who, fee)]) && SameBesides(st1, o.state)
  {
    FeeMoves(st1, who, fee);
    ThenFee(st.ledger, st1.ledger, o.state.ledger, f, Fee(who, fee));
  }

  lemma IssuedSteps(env: Env, st: State, msg: Msg, name: string) returns (st1: State)
    requires msg.Issue?
    ensures Moves(st.ledger, st1.ledger, [Flow(None, Some(msg.owner), One(name, msg.totalSupply))])
    ensures Issued(env, st, msg, name) == PayFee(st1, msg.owner, env.feeIssue)
  {
    MintToMoves(st, msg.owner, name, msg.totalSupply);
    st1 := NewToken(MintTo(st, msg.owner, name, msg.totalSupply).state, Info(name, msg.owner, msg.mintable, msg.description));
  }

  lemma IssuedFrame(env: Env, st: State, msg: Msg, name: string)
    requires msg.Issue? && Issued(env, st, msg, name).Done?
    ensures var st' := Issued(env, st, msg, name).state;
            && SameLocks(st, st') && st'.pending == st.pending
            && st'.tokens == st.tokens[name := Info(name, msg.owner, msg.mintable, msg.description)]
  {
  }

  lemma IssuedSupply(env: Env, st: State, msg: Msg, name: string)
    requires msg.Issue? && Issued(env, st, msg, name).Done?
    ensures SupplyChanged(st, Issued(env, st, msg, name).state, name, msg.totalSupply)
  {
  }

  lemma IssuedMoves(env: Env, st: State, msg: Msg, name: string)
    requires msg.Issue? && Issued(env, st, msg, name).Done?
    ensures Moves(st.ledger, Issued(env, st, msg, name).state.ledger, [Flow(None, Some(msg.owner), One(name, msg.totalSupply)), Fee(msg.owner, env.feeIssue)])
  {
    var st1 := IssuedSteps(env, st, msg, name);
    FeeAfter(st, st1, Issued(env, st, msg, name), Flow(None, Some(msg.owner), One(name, msg.totalSupply)), msg.owner, env.feeIssue);
  }

  lemma IssueEffect(env: Env, st: State, msg: Msg)
    requires msg.Issue? && HandleIssue(env, st, msg).Done?
    ensures exists name: string :: IssuedAs(env, st, HandleIssue(env, st, msg).state, msg, name)
  {
    var name := NameOf(env, st, msg).value;
    NameIs(env, st, msg);
    NewNameIsFree(msg.symbol, env.txHash, env.wellFormed, st.tokens, |env.txHash| / 3);
    IssuedFrame(env, st, msg, name);
    IssuedSupply(env, st, msg, name);
    IssuedMoves(env, st, msg, name);
    assert IssuedAs(env, st, HandleIssue(env, st, msg).state, msg, name);
  }

  lemma MintThenFee(env: Env, st: State, msg: Msg, st1: State)
    requires msg.Mint? && HandleMint(env, st, msg).Done? && MintTo(st, msg.owner, msg.denom, msg.amount) == Done(st1)
    ensures HandleMint(env, st, msg) == PayFee(st1, msg.owner, env.feeMint)
  {
  }

  lemma MintSteps(env: Env, st: State, msg: Msg) returns (st1: State)
    requires msg.Mint? && HandleMint(env, st, msg).Done?
    ensures Moves(st.ledger, st1.ledger, [Flow(None, Some(msg.owner), One(msg.denom, msg.amount))])
    ensures HandleMint(env, st, msg) == PayFee(st1, msg.owner, env.feeMint)
  {
    MintToMoves(st, msg.owner, msg.denom, msg.amount);
    st1 := MintTo(st, msg.owner, msg.denom, msg.amount).state;
    MintThenFee(env, st, msg, st1);
  }

  lemma MintFrame(env: Env, st: State, msg: Msg)
    requires msg.Mint? && HandleMint(env, st, msg).Done?
    ensures var st' := HandleMint(env, st, msg).state;
            RecordsKept(st, st') && SameLocks(st, st')
  {
  }

  lemma MintSupply(env: Env, st: State, msg: Msg)
    requires msg.Mint? && HandleMint(env, st, msg).Done?
    ensures SupplyChanged(st, HandleMint(env, st, msg).state, msg.denom, msg.amount)
  {
  }

  lemma MintEffect(env: Env, st: State, msg: Msg)
    requires msg.Mint? && HandleMint(env, st, msg).Done?
    ensures MintedBy(env, st, HandleMint(env, st, msg).state, msg)
  {
    var st1 := MintSteps(env, st, msg);
    MintFrame(env, st, msg);
    MintSupply(env, st, msg);
    FeeAfter(st, st1, HandleMint(env, st, msg), Flow(None, Some(msg.owner), One(msg.denom, msg.amount)), msg.owner, env.feeMint);
  }

  lemma BurnThenFee(env: Env, st: State, msg: Msg, st1: State)
    requires msg.Burn? && HandleBurn(env, st, msg).Done? && BurnFrom(st, msg.owner, msg.denom, msg.amount) == Done(st1)
    ensures HandleBurn(env, st, msg) == PayFee(st1, msg.owner, env.feeBurn)
  {
  }

  lemma BurnSteps(env: Env, st: State, msg: Msg) returns (st1: State)
    requires msg.Burn? && HandleBurn(env, st, msg).Done?
    ensures Moves(st.ledger, st1.ledger, [Flow(Some(msg.owner), None, One(msg.denom, msg.amount))])
    ensures HandleBurn(env, st, msg) == PayFee(st1, msg.owner, env.feeBurn)
  {
    BurnFromMoves(st, msg.owner, msg.denom, msg.amount);
    st1 := BurnFrom(st, msg.owner, msg.denom, msg.amount).state;
    BurnThenFee(env, st, msg, st1);
  }

  lemma BurnFrame(env: Env, st: State, msg: Msg)
    requires msg.Burn? && HandleBurn(env, st, msg).Done?
    ensures var st' := HandleBurn(env, st, msg).state;
            RecordsKept(st, st') && SameLocks(st, st')
  {
  }

  lemma BurnSupply(env: Env, st: State, msg: Msg)
    requires msg.Burn? && HandleBurn(env, st, msg).Done?
    ensures SupplyChanged(st, HandleBurn(env, st, msg).state, msg.denom, 0 - msg.amount)
  {
  }

  lemma BurnEffect(env: Env, st: State, msg: Msg)
    requires msg.Burn? && HandleBurn(env, st, msg).Done?
    ensures BurnedBy(env, st, HandleBurn(env, st, msg).state, msg)
  {
    var st1 := BurnSteps(env, st, msg);
    BurnFrame(env, st, msg);
    BurnSupply(env, st, msg);
    FeeAfter(st, st1, HandleBurn(env, st, msg), Flow(Some(msg.owner), None, One(msg.denom, msg.amount)), msg.owner, env.feeBurn);
  }

  /** Records are stored under their own symbol. */
  predicate OwnNames(st: State) {
    && (forall s | s in st.tokens :: st.tokens[s].symbol == s)
    && (forall s | s in st.pending :: st.pending[s].symbol == s)
  }

  lemma TransferEffect(env: Env, st: State, msg: Msg)
    requires OwnNames(st) && msg.TransferOwnership? && HandleTransfer(env, st, msg).Done?
    ensures RequestedBy(env, st, HandleTransfer(env, st, msg).state, msg)
  {
    FeeMoves(AfterRequest(env, st, msg), msg.from, env.feeChown);
  }

  lemma ConfirmEffect(env: Env, st: State, msg: Msg)
    requires OwnNames(st) && msg.ConfirmOwnership? && HandleConfirm(env, st, msg).Done?
    ensures ConfirmedBy(st, HandleConfirm(env, st, msg).state, msg)
  {
  }

  lemma ModifyEffect(env: Env, st: State, msg: Msg)
    requires OwnNames(st) && msg.Modify? && HandleModify(env, st, msg).Done?
    ensures ModifiedBy(env, st, HandleModify(env, st, msg).state, msg)
  {
    FeeMoves(AfterModify(st, msg), msg.owner, env.feeModify);
  }

  lemma {:induction false} SendEachEffect(env: Env, st: State, payer: Address, transfers: seq<Transfer>)
    requires SendEach(env, st, payer, transfers).Done?
    ensures var st' := SendEach(env, st, payer, transfers).state;
            SameBesides(st, st') && Moves(st.ledger, st'.ledger, SendFlows(payer, transfers))
    decreases |transfers|
  {
    if transfers != [] {
      var t := transfers[0];
      SendMoves(st.ledger, payer, t.to, t.coins);
      var st1 := SendTo(env, st, payer, t).state;
      SendEachEffect(env, st1, payer, transfers[1..]);
      MovesThen(st.ledger, st1.ledger, SendEach(env, st, payer, transfers).state.ledger,
                [Transferred(payer, t.to, t.coins)], SendFlows(payer, transfers[1..]));
    }
  }

  /** A single send is a list of one. */
  lemma SendIsEach(env: Env, st: State, payer: Address, t: Transfer)
    ensures SendEach(env, st, payer, [t]) == SendTo(env, st, payer, t)
  {
    assert [t][1..] == [];
  }

  lemma SentEffect(env: Env, st: State, msg: Msg)
    requires (msg.SendOne? || msg.SendMany?) && HandleSend(env, st, msg).Done?
    ensures SentBy(st, HandleSend(env, st, msg).state, msg)
  {
    if msg.SendOne? { SendIsEach(env, st, msg.from, Transfer(msg.to, msg.coins)); }
    SendEachEffect(env, st, msg.from, TransfersOf(msg));
  }

  lemma HandleEffect(env: Env, st: State, msg: Msg)
    requires OwnNames(st) && Handle(env, st, msg).Done?
    ensures Effect(env, st, Handle(env, st, msg).state, msg)
  {
    match msg
    case Issue(_, _, _, _, _) => IssueEffect(env, st, msg);
    case Mint(_, _, _) => MintEffect(env, st, msg);
    case Burn(_, _, _) => BurnEffect(env, st, msg);
    case TransferOwnership(_, _, _) => TransferEffect(env, st, msg);
    case ConfirmOwnership(_, _) => ConfirmEffect(env, st, msg);
    case Modify(_, _, _) => ModifyEffect(env, st, msg);
    case SendOne(_, _, _) => SentEffect(env, st, msg);
    case SendMany(_, _) => SentEffect(env, st, msg);
  }

  // ---------------------------------------------------------------- locks and settlements

  /** How much of a coin an account has locked. */
  function LockedAmount(locks: Locks, who: Address, denom: string): nat {
    LockedBy(locks, who)[denom]
  }

  /** One account's locked coins grow by `added` less `taken`; every other lock is as it was. */
  ghost predicate LockChanged(locks: Locks, locks': Locks, who: Address, added: Coins, taken: Coins) {
    forall a: Address, d: string {:trigger LockedAmount(locks', a, d)} ::
      LockedAmount(locks', a, d) == LockedAmount(locks, a, d) + if a == who then Of(added, d) - Of(taken, d) else 0
  }

  lemma StoredAmount(locks: Locks, who: Address, coins: Coins, a: Address, d: string)
    ensures LockedAmount(StoreLock(locks, who, coins), a, d) == if a == who then coins[d] else LockedAmount(locks, a, d)
  {
  }

  lemma UpdateChanges(locks: Locks, who: Address, coins: Coins, doAdd: bool)
    ensures UpdateLocks(locks, who, coins, doAdd).Some? <==> doAdd || (who in locks && coins <= locks[who])
    ensures UpdateLocks(locks, who, coins, doAdd).Some? ==>
      LockChanged(locks, UpdateLocks(locks, who, coins, doAdd).value, who, if doAdd then coins else multiset{}, if doAdd then multiset{} else coins)
  {
    if UpdateLocks(locks, who, coins, doAdd).Some? {
      var stored := if doAdd then (if who in locks then locks[who] + coins else coins) else locks[who] - coins;
      forall a: Address, d: string
        ensures LockedAmount(StoreLock(locks, who, stored), a, d)
             == LockedAmount(locks, a, d) + if a == who then (if doAdd then Of(coins, d) else 0 - Of(coins, d)) else 0
      {
        StoredAmount(locks, who, stored, a, d);
      }
    }
  }

  /** The ledger of locks a kind names. */
  function LocksOf(st: State, kind: int): Locks {
    if kind == LOCK_QUANTITY then st.quantityLocks else st.feeLocks
  }

  predicate OtherLocksKept(st: State, st': State, kind: int) {
    if kind == LOCK_QUANTITY then st'.feeLocks == st.feeLocks else st'.quantityLocks == st.quantityLocks
  }

  ghost predicate LockedFor(st: State, st': State, who: Address, coins: Coins, kind: int) {
    && RecordsKept(st, st') && st'.supply == st.supply && OtherLocksKept(st, st', kind)
    && LockChanged(LocksOf(st, kind), LocksOf(st', kind), who, coins, multiset{})
    && Moves(st.ledger, st'.ledger, [Transferred(who, TOKEN_ACCOUNT, coins)])
  }

  ghost predicate UnlockedFor(st: State, st': State, who: Address, coins: Coins, kind: int) {
    && RecordsKept(st, st') && st'.supply == st.supply && OtherLocksKept(st, st', kind)
    && LockChanged(LocksOf(st, kind), LocksOf(st', kind), who, multiset{}, coins)
    && Moves(st.ledger, st'.ledger, [Transferred(TOKEN_ACCOUNT, who, coins)])
  }

  lemma LockChanges(st: State, who: Address, coins: Coins, doAdd: bool, kind: int)
    requires UpdateLocked(st, who, coins, doAdd, kind).Done?
    ensures var st' := UpdateLocked(st, who, coins, doAdd, kind).state;
            && RecordsKept(st, st') && st'.supply == st.supply && st'.ledger == st.ledger && OtherLocksKept(st, st', kind)
            && LockChanged(LocksOf(st, kind), LocksOf(st', kind), who, if doAdd then coins else multiset{}, if doAdd then multiset{} else coins)
  {
    UpdateChanges(LocksOf(st, kind), who, coins, doAdd);
  }

  lemma LockEffect(st: State, who: Address, coins: Coins, kind: int)
    requires Lock(st, who, coins, kind).Done?
    ensures LockedFor(st, Lock(st, who, coins, kind).state, who, coins, kind)
  {
    SendMoves(st.ledger, who, TOKEN_ACCOUNT, coins);
    LockChanges(st.(ledger := Send(st.ledger, who, TOKEN_ACCOUNT, coins).value), who, coins, true, kind);
  }

  lemma UnlockEffect(st: State, who: Address, coins: Coins, kind: int)
    requires Unlock(st, who, coins, kind).Done?
    ensures UnlockedFor(st, Unlock(st, who, coins, kind).state, who, coins, kind)
  {
    LockChanges(st, who, coins, false, kind);
    SendMoves(st.ledger, TOKEN_ACCOUNT, who, coins);
  }

  /** The account settled is paid the input and gives up the output; nobody else is touched. */
  ghost predicate SettledFor(st: State, st': State, s: Settlement) {
    && RecordsKept(st, st') && st'.supply == st.supply && st'.feeLocks == st.feeLocks
    && LockChanged(st.quantityLocks, st'.quantityLocks, s.who, multiset{}, s.output)
    && Moves(st.ledger, st'.ledger, [Transferred(TOKEN_ACCOUNT, s.who, s.input)])
  }

  lemma SettlesFor(st: State, s: Settlement)
    requires Settle(st, s).Done?
    ensures SettledFor(st, Settle(st, s).state, s)
  {
    if s.output != multiset{} { UpdateChanges(st.quantityLocks, s.who, s.output, false); }
    if s.input == multiset{} {
      NothingMoves(st.ledger, Transferred(TOKEN_ACCOUNT, s.who, s.input));
    } else {
      SendMoves(st.ledger, TOKEN_ACCOUNT, s.who, s.input);
    }
  }

  function PaidTo(batch: seq<Settlement>, who: Address, denom: string): nat {
    if batch == [] then 0 else (if batch[0].who == who then batch[0].input[denom] else 0) + PaidTo(batch[1..], who, denom)
  }

  function GivenUpBy(batch: seq<Settlement>, who: Address, denom: string): nat {
    if batch == [] then 0 else (if batch[0].who == who then batch[0].output[denom] else 0) + GivenUpBy(batch[1..], who, denom)
  }

  /** After a whole batch each account but the module's has its own inputs more and its own outputs less
      locked, no matter how the batch is ordered. */
  lemma {:induction false} BatchPaysEach(st: State, batch: seq<Settlement>, who: Address, denom: string)
    requires SettleAll(st, batch).Done? && who != TOKEN_ACCOUNT
    ensures var st' := SettleAll(st, batch).state;
            && Amount(st'.ledger, who, denom) == Amount(st.ledger, who, denom) + PaidTo(batch, who, denom)
            && LockedAmount(st'.quantityLocks, who, denom) == LockedAmount(st.quantityLocks, who, denom) - GivenUpBy(batch, who, denom)
            && st'.feeLocks == st.feeLocks && RecordsKept(st, st') && st'.supply == st.supply
    decreases |batch|
  {
    if batch != [] {
      var s, st1 := batch[0], Settle(st, batch[0]).state;
      SettlesFor(st, s);
      BatchPaysEach(st1, batch[1..], who, denom);
      NetOne(Transferred(TOKEN_ACCOUNT, s.who, s.input), who, denom);
      assert Amount(st1.ledger, who, denom) == Amount(st.ledger, who, denom) + NetOf(Transferred(TOKEN_ACCOUNT, s.who, s.input), who, denom);
    }
  }
}
