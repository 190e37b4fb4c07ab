/** Who owns a token, who may take it over, and what the index of owners lists, over whole runs. */
module TokenOwnership {
  import opened Options
  import opened Token

  // ---------------------------------------------------------------- the index

  predicate Listed(st: State, owner: Address, symbol: string) {
    (owner, symbol) in st.owned
  }

  /** The index lists exactly the owner each record names. */
  ghost predicate IndexExact(st: State) {
    forall owner: Address, symbol: string :: Listed(st, owner, symbol) <==> OwnedBy(st, symbol, owner)
  }

  predicate Named(st: State) {
    && (forall s | s in st.tokens :: st.tokens[s].symbol == s)
    && (forall s | s in st.pending :: s in st.tokens && st.pending[s].symbol == s && st.pending[s].address != BLACK_HOLE)
  }

  ghost predicate Inv(st: State) {
    IndexExact(st) && Named(st)
  }

  // ---------------------------------------------------------------- runs

  /** One event. Besides messages, other modules may create tokens under new names and do anything
      that leaves records, index and pending transfers alone. */
  datatype Event =
    | Message(env: Env, msg: Msg)
    | Created(info: Info)
    | Other(after: State)

  predicate CanHappen(st: State, e: Event) {
    match e
    case Message(_, msg) => Signer(msg) != BLACK_HOLE   // nobody has its key
    case Created(info) => info.symbol !in st.tokens
    case Other(after) => after.tokens == st.tokens && after.owned == st.owned && after.pending == st.pending
  }

  function Happen(st: State, e: Event): State {
    match e
    case Message(env, msg) => (match Handle(env, st, msg) case Done(st') => st' case Failed(_) => st)
    case Created(info) => NewToken(st, info)
    case Other(after) => after
  }

  predicate StepAt(states: seq<State>, events: seq<Event>, i: nat)
    requires |states| == |events| + 1 && i < |events|
  {
    CanHappen(states[i], events[i]) && states[i + 1] == Happen(states[i], events[i])
  }

  /** Block time never runs backwards. `clock[i]` is the time at which event `i` happens. */
  ghost predicate Run(states: seq<State>, events: seq<Event>, clock: seq<int>) {
    && |states| == |events| + 1 && |clock| == |events|
    && Inv(states[0]) && states[0].pending == map[]
    && (forall i | 0 <= i < |events| :: StepAt(states, events, i))
    && (forall i | 0 <= i < |events| && events[i].Message? :: events[i].env.blockTime == clock[i])
    && (forall i, j | 0 <= i <= j < |clock| :: clock[i] <= clock[j])
  }

  // ---------------------------------------------------------------- one step

  lemma ReownedKeeps(st: State, symbol: string, owner: Address)
    requires Inv(st) && symbol in st.tokens
    ensures Inv(Reowned(st, symbol, owner))
  {
    var st' := Reowned(st, symbol, owner);
    forall o: Address, s: string
      ensures Listed(st', o, s) <==> OwnedBy(st', s, o)
    {
      assert Listed(st, o, s) <==> OwnedBy(st, s, o);
    }
  }

  lemma NewKeeps(st: State, info: Info)
    requires Inv(st) && info.symbol !in st.tokens
    ensures Inv(NewToken(st, info))
  {
    var st' := NewToken(st, info);
    forall o: Address, s: string
      ensures Listed(st', o, s) <==> OwnedBy(st', s, o)
    {
      assert Listed(st, o, s) <==> OwnedBy(st, s, o);
    }
  }

  /** Only the parts a lemma about owners looks at. */
  predicate SameRecords(st: State, st': State) {
    st'.tokens == st.tokens && st'.owned == st.owned && st'.pending == st.pending
  }

  lemma SameRecordsKeep(st: State, st': State)
    requires Inv(st) && SameRecords(st, st')
    ensures Inv(st')
  {
    forall o: Address, s: string
      ensures Listed(st', o, s) <==> OwnedBy(st', s, o)
    {
      assert Listed(st, o, s) <==> OwnedBy(st, s, o);
    }
  }

  /** What a message does to records, index and pending transfers when it goes through. */
  function RecordsAfter(env: Env, st: State, msg: Msg): State {
    match msg
    case Issue(owner, _, _, mintable, description) =>
      var name := NameOf(env, st, msg);
      if name.None? then st else NewToken(st, Info(name.value, owner, mintable, description))
    case Mint(_, _, _) => st
    case Burn(_, _, _) => st
    case TransferOwnership(_, _, symbol) => if symbol !in st.tokens then st else AfterRequest(env, st, msg)
    case ConfirmOwnership(_, symbol) => if symbol !in st.tokens || symbol !in st.pending then st else AfterConfirm(st, msg)
    case Modify(_, symbol, change) => if symbol !in st.tokens || change.None? then st else AfterModify(st, msg)
    case SendOne(_, _, _) => st
    case SendMany(_, _) => st
  }

  lemma HandledRecords(env: Env, st: State, msg: Msg)
    requires Handle(env, st, msg).Done?
    ensures SameRecords(RecordsAfter(env, st, msg), Handle(env, st, msg).state)
  {
    match msg
    case Issue(_, _, _, _, _) => IssuedRecords(env, st, msg);
    case Mint(_, _, _) => MintedRecords(env, st, msg);
    case Burn(_, _, _) => BurnedRecords(env, st, msg);
    case TransferOwnership(_, _, _) => TransferredRecords(env, st, msg);
    case ConfirmOwnership(_, _) =>
    case Modify(_, _, _) => ModifiedRecords(env, st, msg);
    case SendOne(_, _, _) =>
    case SendMany(from, transfers) => SentRecords(env, st, from, transfers);
  }

  lemma IssuedRecords(env: Env, st: State, msg: Msg)
    requires msg.Issue? && HandleIssue(env, st, msg).Done?
    ensures SameRecords(RecordsAfter(env, st, msg), HandleIssue(env, st, msg).state)
  {
    var name := NameOf(env, st, msg).value;
    MintSame(st, msg.owner, name, msg.totalSupply);
    var minted := MintTo(st, msg.owner, name, msg.totalSupply).state;
    FeeSame(NewToken(minted, Info(name, msg.owner, msg.mintable, msg.description)), msg.owner, env.feeIssue);
  }

  lemma MintedRecords(env: Env, st: State, msg: Msg)
    requires msg.Mint? && HandleMint(env, st, msg).Done?
    ensures SameRecords(st, HandleMint(env, st, msg).state)
  {
    MintSame(st, msg.owner, msg.denom, msg.amount);
    FeeSame(MintTo(st, msg.owner, msg.denom, msg.amount).state, msg.owner, env.feeMint);
  }

  lemma BurnedRecords(env: Env, st: State, msg: Msg)
    requires msg.Burn? && HandleBurn(env, st, msg).Done?
    ensures SameRecords(st, HandleBurn(env, st, msg).state)
  {
    BurnSame(st, msg.owner, msg.denom, msg.amount);
    FeeSame(BurnFrom(st, msg.owner, msg.denom, msg.amount).state, msg.owner, env.feeBurn);
  }

  lemma TransferredRecords(env: Env, st: State, msg: Msg)
    requires msg.TransferOwnership? && HandleTransfer(env, st, msg).Done?
    ensures SameRecords(RecordsAfter(env, st, msg), HandleTransfer(env, st, msg).state)
  {
    FeeSame(RecordsAfter(env, st, msg), msg.from, env.feeChown);
  }

  lemma ModifiedRecords(env: Env, st: State, msg: Msg)
    requires msg.Modify? && HandleModify(env, st, msg).Done?
    ensures SameRecords(RecordsAfter(env, st, msg), HandleModify(env, st, msg).state)
  {
    FeeSame(RecordsAfter(env, st, msg), msg.owner, env.feeModify);
  }

  lemma {:induction false} SentRecords(env: Env, st: State, payer: Address, transfers: seq<Transfer>)
    requires SendEach(env, st, payer, transfers).Done?
    ensures SameRecords(st, SendEach(env, st, payer, transfers).state)
    decreases |transfers|
  {
    if transfers != [] {
      SentRecords(env, SendTo(env, st, payer, transfers[0]).state, payer, transfers[1..]);
    }
  }

  lemma FeeSame(st: State, who: Address, fee: Coins)
    ensures PayFee(st, who, fee).Done? ==> SameRecords(st, PayFee(st, who, fee).state)
  {
  }

  lemma MintSame(st: State, who: Address, denom: string, amount: nat)
    ensures MintTo(st, who, denom, amount).Done? ==> SameRecords(st, MintTo(st, who, denom, amount).state)
  {
  }

  lemma BurnSame(st: State, who: Address, denom: string, amount: nat)
    ensures BurnFrom(st, who, denom, amount).Done? ==> SameRecords(st, BurnFrom(st, who, denom, amount).state)
  {
  }

  /** What a message that goes through has met, as far as owners and pending transfers go. */
  predicate Accepted(env: Env, st: State, msg: Msg) {
    match msg
    case Issue(_, _, _, _, _) => NameOf(env, st, msg).Some? && NameOf(env, st, msg).value !in st.tokens
    case Mint(_, _, _) => true
    case Burn(_, _, _) => true
    case TransferOwnership(from, _, symbol) =>
      OwnedBy(st, symbol, from) && (symbol in st.pending ==> env.blockTime > st.pending[symbol].expire)
    case ConfirmOwnership(address, symbol) =>
      symbol in st.pending && env.blockTime <= st.pending[symbol].expire && st.pending[symbol].address == address
    case Modify(owner, symbol, _) => OwnedBy(st, symbol, owner)
    case SendOne(_, _, _) => true
    case SendMany(_, _) => true
  }

  lemma HandledIsAccepted(env: Env, st: State, msg: Msg)
    requires Handle(env, st, msg).Done?
    ensures Accepted(env, st, msg)
  {
    if msg.Issue? { NewNameIsFree(msg.symbol, env.txHash, env.wellFormed, st.tokens, |env.txHash| / 3); }
  }

  lemma RecordsOwner(env: Env, st: State, msg: Msg, symbol: string)
    requires Named(st) && Accepted(env, st, msg) && symbol in st.tokens
    ensures var st' := RecordsAfter(env, st, msg);
            && symbol in st'.tokens
            && (|| st'.tokens[symbol].owner == st.tokens[symbol].owner
                || msg == TransferOwnership(st.tokens[symbol].owner, BLACK_HOLE, symbol)
                || (msg.ConfirmOwnership? && msg.symbol == symbol && symbol in st.pending && env.blockTime <= st.pending[symbol].expire))
  {
    match msg
    case Issue(_, _, _, _, _) =>
    case Mint(_, _, _) =>
    case Burn(_, _, _) =>
    case TransferOwnership(_, _, _) =>
    case ConfirmOwnership(_, _) =>
    case Modify(_, _, _) =>
    case SendOne(_, _, _) =>
    case SendMany(_, _) =>
  }

  /** An owner changes only by the owner's own request to the black hole, or by the confirmation of a
      transfer that is still open. */
  lemma OwnerChange(env: Env, st: State, msg: Msg, symbol: string, st': State)
    requires Named(st) && Handle(env, st, msg) == Done(st') && symbol in st.tokens
    ensures symbol in st'.tokens
    ensures || st'.tokens[symbol].owner == st.tokens[symbol].owner
            || msg == TransferOwnership(st.tokens[symbol].owner, BLACK_HOLE, symbol)
            || (msg.ConfirmOwnership? && msg.symbol == symbol && symbol in st.pending && env.blockTime <= st.pending[symbol].expire)
  {
    HandledRecords(env, st, msg);
    HandledIsAccepted(env, st, msg);
    RecordsOwner(env, st, msg, symbol);
  }

  lemma RecordsKeep(env: Env, st: State, msg: Msg)
    requires Inv(st) && Handle(env, st, msg).Done?
    ensures Inv(RecordsAfter(env, st, msg))
  {
    match msg
    case Issue(owner, _, _, mintable, description) =>
      HandledIsAccepted(env, st, msg);
      NewKeeps(st, Info(NameOf(env, st, msg).value, owner, mintable, description));
    case Mint(_, _, _) =>
    case Burn(_, _, _) =>
    case TransferOwnership(_, to, symbol) =>
      ReownedKeeps(st, symbol, to);
      SameIndex(st, RecordsAfter(env, st, msg), to == BLACK_HOLE);
    case ConfirmOwnership(address, symbol) =>
      ReownedKeeps(st, symbol, address);
      SameIndex(Reowned(st, symbol, address), RecordsAfter(env, st, msg), false);
    case Modify(_, symbol, _) =>
      SameIndex(st, RecordsAfter(env, st, msg), false);
    case SendOne(_, _, _) =>
    case SendMany(_, _) =>
  }

  /** The index stays exact as long as it and the owners in the records stay. */
  lemma SameIndex(st: State, st': State, skip: bool)
    requires IndexExact(st)
    requires skip || (st'.owned == st.owned && st'.tokens.Keys == st.tokens.Keys
                      && forall s | s in st.tokens :: st'.tokens[s].owner == st.tokens[s].owner)
    ensures skip || IndexExact(st')
  {
    if !skip {
      forall o: Address, s: string
        ensures Listed(st', o, s) <==> OwnedBy(st', s, o)
      {
        assert Listed(st, o, s) <==> OwnedBy(st, s, o);
      }
    }
  }

  lemma StepKeeps(st: State, e: Event)
    requires Inv(st) && CanHappen(st, e)
    ensures Inv(Happen(st, e))
  {
    match e
    case Message(env, msg) =>
      if Handle(env, st, msg).Done? {
        HandledRecords(env, st, msg);
        RecordsKeep(env, st, msg);
        SameRecordsKeep(RecordsAfter(env, st, msg), Handle(env, st, msg).state);
      }
    case Created(info) => NewKeeps(st, info);
    case Other(after) => SameRecordsKeep(st, after);
  }

  /** At every moment the per-owner listing is exactly the tokens whose record names that owner, and
      a confirmation always finds its token. */
  lemma {:induction false} IndexAlwaysExact(states: seq<State>, events: seq<Event>, clock: seq<int>, i: nat)
    requires Run(states, events, clock) && i < |states|
    ensures Inv(states[i])
    ensures forall env, msg :: Handle(env, states[i], msg) != Failed(TokenMissing)
  {
    if i > 0 {
      IndexAlwaysExact(states, events, clock, i - 1);
      assert StepAt(states, events, i - 1);
      StepKeeps(states[i - 1], events[i - 1]);
    }
    forall env, msg
      ensures Handle(env, states[i], msg) != Failed(TokenMissing)
    {
      NeverMissing(env, states[i], msg);
    }
  }

  lemma NeverMissing(env: Env, st: State, msg: Msg)
    requires Named(st)
    ensures Handle(env, st, msg) != Failed(TokenMissing)
  {
    if msg.SendMany? { SendsMissNothing(env, st, msg.from, msg.transfers); }
  }

  lemma {:induction false} SendsMissNothing(env: Env, st: State, payer: Address, transfers: seq<Transfer>)
    ensures SendEach(env, st, payer, transfers) != Failed(TokenMissing)
    decreases |transfers|
  {
    if transfers != [] && SendTo(env, st, payer, transfers[0]).Done? {
      SendsMissNothing(env, SendTo(env, st, payer, transfers[0]).state, payer, transfers[1..]);
    }
  }

  // ---------------------------------------------------------------- pending transfers

  /** Event `k` is a request by `who` to hand `symbol` to `to`, and it went through. */
  predicate RequestAt(states: seq<State>, events: seq<Event>, k: nat, who: Address, to: Address, symbol: string)
    requires |states| == |events| + 1 && k < |events|
  {
    && events[k].Message? && events[k].msg == TransferOwnership(who, to, symbol)
    && Handle(events[k].env, states[k], events[k].msg).Done?
  }

  ghost predicate Requested(states: seq<State>, events: seq<Event>, i: nat, symbol: string)
    requires |states| == |events| + 1 && i < |states|
    requires symbol in states[i].tokens && symbol in states[i].pending
  {
    exists k: nat :: k < i && k < |events|
                     && RequestAt(states, events, k, states[i].tokens[symbol].owner, states[i].pending[symbol].address, symbol)
  }

  lemma RecordsFrozen(env: Env, st: State, msg: Msg, symbol: string)
    requires Named(st) && Accepted(env, st, msg) && symbol in st.tokens
    requires symbol in st.pending && env.blockTime <= st.pending[symbol].expire
    ensures var st' := RecordsAfter(env, st, msg);
            symbol in st'.pending ==>
              && st'.pending[symbol] == st.pending[symbol]
              && symbol in st'.tokens && st'.tokens[symbol].owner == st.tokens[symbol].owner
  {
    match msg
    case Issue(_, _, _, _, _) =>
    case Mint(_, _, _) =>
    case Burn(_, _, _) =>
    case TransferOwnership(_, _, _) =>
    case ConfirmOwnership(_, _) =>
    case Modify(_, _, _) =>
    case SendOne(_, _, _) =>
    case SendMany(_, _) =>
  }

  /** A pending transfer that is still open keeps the owner in place until it is confirmed. */
  lemma OpenRequestFreezesOwner(env: Env, st: State, msg: Msg, symbol: string, st': State)
    requires Inv(st) && symbol in st.pending && env.blockTime <= st.pending[symbol].expire
    requires Handle(env, st, msg) == Done(st')
    ensures symbol in st'.pending ==>
              && st'.pending[symbol] == st.pending[symbol]
              && symbol in st'.tokens && st'.tokens[symbol].owner == st.tokens[symbol].owner
  {
    HandledRecords(env, st, msg);
    HandledIsAccepted(env, st, msg);
    RecordsFrozen(env, st, msg, symbol);
  }

  lemma RecordsRequest(env: Env, st: State, msg: Msg, symbol: string)
    requires Named(st) && Accepted(env, st, msg)
    requires symbol !in st.pending || env.blockTime > st.pending[symbol].expire
    ensures var st' := RecordsAfter(env, st, msg);
            symbol in st'.pending ==>
              || (symbol in st.pending && st'.pending[symbol] == st.pending[symbol])
              || (symbol in st'.tokens && msg == TransferOwnership(st'.tokens[symbol].owner, st'.pending[symbol].address, symbol))
  {
    match msg
    case Issue(_, _, _, _, _) =>
    case Mint(_, _, _) =>
    case Burn(_, _, _) =>
    case TransferOwnership(_, _, _) =>
    case ConfirmOwnership(_, _) =>
    case Modify(_, _, _) =>
    case SendOne(_, _, _) =>
    case SendMany(_, _) =>
  }

  /** A transfer that becomes pending was requested just now, by the owner. */
  lemma NewPendingIsRequest(env: Env, st: State, msg: Msg, symbol: string, st': State)
    requires Inv(st) && Handle(env, st, msg) == Done(st') && symbol in st'.pending
    requires symbol !in st.pending || env.blockTime > st.pending[symbol].expire
    ensures || (symbol in st.pending && st'.pending[symbol] == st.pending[symbol])
            || (symbol in st'.tokens && msg == TransferOwnership(st'.tokens[symbol].owner, st'.pending[symbol].address, symbol))
  {
    HandledRecords(env, st, msg);
    HandledIsAccepted(env, st, msg);
    RecordsRequest(env, st, msg, symbol);
  }

  /** An open transfer was there before with the same owner, or has just been requested. */
  lemma PendingStep(st: State, e: Event, st': State, now: int, symbol: string)
    requires Inv(st) && CanHappen(st, e) && st' == Happen(st, e) && (e.Message? ==> e.env.blockTime == now)
    requires symbol in st'.pending && now <= st'.pending[symbol].expire
    ensures symbol in st'.tokens
    ensures || (e.Message? && Handle(e.env, st, e.msg) == Done(st')
                && e.msg == TransferOwnership(st'.tokens[symbol].owner, st'.pending[symbol].address, symbol))
            || (symbol in st.pending && st'.pending[symbol] == st.pending[symbol]
                && symbol in st.tokens && st'.tokens[symbol].owner == st.tokens[symbol].owner)
  {
    if e.Message? && Handle(e.env, st, e.msg).Done? {
      if symbol in st.pending && now <= st.pending[symbol].expire {
        OpenRequestFreezesOwner(e.env, st, e.msg, symbol, st');
      } else {
        NewPendingIsRequest(e.env, st, e.msg, symbol, st');
      }
    }
  }

  /** Every pending transfer that has not expired was requested by the token's present owner. */
  lemma {:induction false} PendingWasRequested(states: seq<State>, events: seq<Event>, clock: seq<int>, i: nat, symbol: string)
    requires Run(states, events, clock) && i < |states| && symbol in states[i].pending
    requires i > 0 ==> clock[i - 1] <= states[i].pending[symbol].expire
    ensures symbol in states[i].tokens && Requested(states, events, i, symbol)
  {
    if i > 0 {
      var st, e, st' := states[i - 1], events[i - 1], states[i];
      IndexAlwaysExact(states, events, clock, i - 1);
      assert StepAt(states, events, i - 1);
      PendingStep(st, e, st', clock[i - 1], symbol);
      var owner, to := st'.tokens[symbol].owner, st'.pending[symbol].address;
      if e.Message? && Handle(e.env, st, e.msg) == Done(st') && e.msg == TransferOwnership(owner, to, symbol) {
        assert RequestAt(states, events, i - 1, owner, to, symbol);
      } else {
        PendingWasRequested(states, events, clock, i - 1, symbol);
        var k: nat :| k < i - 1 && RequestAt(states, events, k, owner, to, symbol);
        assert k < i && RequestAt(states, events, k, owner, to, symbol);
      }
    }
  }

  /** A token sent to the black hole never gets another owner. */
  lemma {:induction false} BlackHoleKeeps(states: seq<State>, events: seq<Event>, clock: seq<int>, i: nat, j: nat, symbol: string)
    requires Run(states, events, clock) && i <= j < |states|
    requires OwnedBy(states[i], symbol, BLACK_HOLE)
    ensures OwnedBy(states[j], symbol, BLACK_HOLE)
    decreases j - i
  {
    if i < j {
      BlackHoleKeeps(states, events, clock, i, j - 1, symbol);
      var st, e := states[j - 1], events[j - 1];
      IndexAlwaysExact(states, events, clock, j - 1);
      assert StepAt(states, events, j - 1);
      if e.Message? && Handle(e.env, st, e.msg).Done? {
        OwnerChange(e.env, st, e.msg, symbol, states[j]);
        if e.msg.ConfirmOwnership? && e.msg.symbol == symbol && symbol in st.pending && clock[j - 1] <= st.pending[symbol].expire {
          NoOpenRequestOnBlackHole(states, events, clock, j - 1, symbol);
        }
      }
    }
  }

  /** Once the black hole owns a token, no transfer of it is open: it cannot have asked for one. */
  lemma NoOpenRequestOnBlackHole(states: seq<State>, events: seq<Event>, clock: seq<int>, i: nat, symbol: string)
    requires Run(states, events, clock) && i < |states| && symbol in states[i].pending
    requires OwnedBy(states[i], symbol, BLACK_HOLE)
    ensures i > 0 && states[i].pending[symbol].expire < clock[i - 1]
  {
    if i == 0 || clock[i - 1] <= states[i].pending[symbol].expire {
      PendingWasRequested(states, events, clock, i, symbol);
      var k: nat :| k < i && RequestAt(states, events, k, BLACK_HOLE, states[i].pending[symbol].address, symbol);
      RequesterSigned(states, events, clock, k, BLACK_HOLE, states[i].pending[symbol].address, symbol);
    }
  }

  lemma RequesterSigned(states: seq<State>, events: seq<Event>, clock: seq<int>, k: nat, who: Address, to: Address, symbol: string)
    requires Run(states, events, clock) && k < |events| && RequestAt(states, events, k, who, to, symbol)
    ensures who != BLACK_HOLE
  {
    assert StepAt(states, events, k);
  }
}
