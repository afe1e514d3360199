/** What a run leaves in the event log: the entries of each transaction, and two retirement logs that match. */
module Journal {
  import opened Lists
  import opened Tezos
  import opened World
  import FA2
  import FA2Proofs
  import Custodian
  import CustodianProofs
  import CustodianEffects
  import MintProofs

  // ---------- the log entries of one transaction ----------

  function OpEmissions(sender: Address): Custodian.Operation -> seq<Emission> {
    (op: Custodian.Operation) =>
      match op
      case Emit(event) => [Emission(sender, event)]
      case Transaction(target, entry) => Map(EmittedBy(target), FA2Proofs.EntryEvents(entry))
  }

  function OpRecords(sender: Address): Custodian.Operation -> seq<Record> {
    (op: Custodian.Operation) =>
      match op
      case Emit(_) => []
      case Transaction(target, entry) => [TokenRecord(sender, target, entry)]
  }

  lemma ExecuteLogs(w: World, sender: Address, op: Custodian.Operation)
    requires Execute(sender)(w, op).Ok?
    ensures Execute(sender)(w, op).value.events == w.events + OpEmissions(sender)(op)
    ensures Execute(sender)(w, op).value.calls == w.calls + OpRecords(sender)(op)
    ensures Execute(sender)(w, op).value.custodians == w.custodians
  {
    if op.Transaction? {
      FA2Proofs.MainEffect(sender, op.entry, w.tokens[op.target]);
    }
  }

  lemma AppendAssociates<X>(xs: seq<X>, ys: seq<X>, zs: seq<X>)
    ensures xs + ys + zs == xs + (ys + zs)
  {
  }

  ghost predicate Logged(w: World, self: Address, ops: seq<Custodian.Operation>, w': World) {
    && w'.events == w.events + Gather(OpEmissions(self), ops)
    && w'.calls == w.calls + Gather(OpRecords(self), ops)
    && w'.custodians == w.custodians
  }

  lemma {:induction false} ExecuteAllLogs(w: World, self: Address, ops: seq<Custodian.Operation>)
    requires Fold(Execute(self), ops, w).Ok?
    ensures Logged(w, self, ops, Fold(Execute(self), ops, w).value)
    decreases |ops|
  {
    if ops == [] {
    } else {
      var m := Execute(self)(w, ops[0]).value;
      ExecuteLogs(w, self, ops[0]);
      ExecuteAllLogs(m, self, ops[1..]);
      AppendAssociates(w.events, OpEmissions(self)(ops[0]), Gather(OpEmissions(self), ops[1..]));
      AppendAssociates(w.calls, OpRecords(self)(ops[0]), Gather(OpRecords(self), ops[1..]));
    }
  }

  /** The operations behind a call: itself if to a token contract, else those the custodian emits. */
  function OpsOf(w: World, call: Call): seq<Custodian.Operation> {
    match call.target
    case ToToken(entry) => [Custodian.Transaction(call.address, entry)]
    case ToCustodian(entry) =>
      if call.address !in w.custodians then []
      else CustodianEffects.EmittedOps(ContextOf(w, call), w.custodians[call.address], entry)
  }

  function Executor(call: Call): Address {
    if call.target.ToToken? then call.sender else call.address
  }

  function NewEvents(w: World, call: Call): seq<Emission> {
    Gather(OpEmissions(Executor(call)), OpsOf(w, call))
  }

  function NewCalls(w: World, call: Call): seq<Record> {
    (match call.target
     case ToToken(_) => []
     case ToCustodian(entry) => [CustodianRecord(call.sender, call.address, entry)]) +
    Gather(OpRecords(Executor(call)), OpsOf(w, call))
  }

  lemma TokenCallLogs(w: World, call: Call)
    requires Transact(w, call).Ok? && call.target.ToToken?
    ensures Apply(w, call).events == w.events + NewEvents(w, call)
    ensures Apply(w, call).calls == w.calls + NewCalls(w, call)
    ensures Apply(w, call).custodians == w.custodians
  {
    var op := Custodian.Transaction(call.address, call.target.tokenEntry);
    ExecuteLogs(w, call.sender, op);
    GatherOne(OpEmissions(call.sender), op);
    GatherOne(OpRecords(call.sender), op);
  }

  lemma CustodianCallLogs(w: World, call: Call)
    requires Transact(w, call).Ok? && call.target.ToCustodian?
    ensures Apply(w, call).events == w.events + NewEvents(w, call)
    ensures Apply(w, call).calls == w.calls + NewCalls(w, call)
    ensures Apply(w, call).custodians == w.custodians[call.address := RunCustodian(w, call).value.1]
  {
    var (ops, s) := RunCustodian(w, call).value;
    var entry := call.target.custodianEntry;
    CustodianEffects.MainEffect(ContextOf(w, call), entry, w.custodians[call.address]);
    ExecuteAllLogs(Debited(w, call, s), call.address, ops);
    AppendAssociates(w.calls, [CustodianRecord(call.sender, call.address, entry)],
        Gather(OpRecords(call.address), ops));
  }

  /** A committed transaction appends its own events and calls to the log, and of the custodians changes
      at most the one called. */
  lemma TransactLogs(w: World, call: Call)
    requires Transact(w, call).Ok?
    ensures Apply(w, call).events == w.events + NewEvents(w, call)
    ensures Apply(w, call).calls == w.calls + NewCalls(w, call)
    ensures call.target.ToToken? ==> Apply(w, call).custodians == w.custodians
    ensures call.target.ToCustodian? ==>
              Apply(w, call).custodians == w.custodians[call.address := RunCustodian(w, call).value.1]
  {
    if call.target.ToToken? {
      TokenCallLogs(w, call);
    } else {
      CustodianCallLogs(w, call);
    }
  }

  // ---------- two logs, one story ----------

  datatype Retirement = Retirement(tokenId: nat, amount: nat, retiringData: Bytes)

  /** Token contract `a`'s retirement events for holdings of custodian `c`. */
  function TokenStory(c: Address, a: Address): Emission -> seq<Retirement> {
    (e: Emission) =>
      if e.emitter == a && e.event.TokenRetired? && e.event.tx.retiringParty == c
      then [Retirement(e.event.tx.tokenId, e.event.tx.amount, e.event.tx.retiringData)]
      else []
  }

  /** Custodian `c`'s retirement events for tokens of contract `a`. */
  function CustodianStory(c: Address, a: Address): Emission -> seq<Retirement> {
    (e: Emission) =>
      if e.emitter == c && e.event.CustodianRetired? && e.event.token.tokenAddress == a
      then [Retirement(e.event.token.tokenId, e.event.amount, e.event.retiringData)]
      else []
  }

  ghost predicate OneStory(w: World) {
    forall c, a :: c in w.custodians && a in w.tokens ==>
      Gather(TokenStory(c, a), w.events) == Gather(CustodianStory(c, a), w.events)
  }

  function ToRetirement(p: Custodian.InternalRetireData): Retirement {
    Retirement(p.tokenId, p.amount, p.retiringData)
  }

  function RequestedStory(a: Address): Custodian.InternalRetire -> seq<Retirement> {
    (p: Custodian.InternalRetire) => if p.tokenAddress == a then Map(ToRetirement, p.txs) else []
  }

  function ForwardedEmissions(c: Address): Custodian.InternalRetire -> seq<Emission> {
    (p: Custodian.InternalRetire) => OpEmissions(c)(CustodianProofs.RetireOp(c)(p))
  }

  function OwnEmissions(c: Address, source: Address): Custodian.InternalRetire -> seq<Emission> {
    (p: Custodian.InternalRetire) => Gather(OpEmissions(c), CustodianProofs.RetireEvents(source)(p))
  }

  lemma {:induction false} ForwardedStory(c: Address, a: Address, tokenAddress: Address,
      txs: seq<Custodian.InternalRetireData>)
    ensures var forwarded := Map(CustodianProofs.RetireTxOf(c), txs);
            var es := Map(EmittedBy(tokenAddress), Map(FA2Proofs.RetiredEvent, forwarded));
            && Gather(TokenStory(c, a), es) == (if tokenAddress == a then Map(ToRetirement, txs) else [])
            && Gather(CustodianStory(c, a), es) == []
  {
    if txs == [] {
    } else {
      var forwarded := Map(CustodianProofs.RetireTxOf(c), txs);
      assert forwarded[1..] == Map(CustodianProofs.RetireTxOf(c), txs[1..]);
      assert Map(FA2Proofs.RetiredEvent, forwarded)[1..] == Map(FA2Proofs.RetiredEvent, forwarded[1..]);
      var es := Map(EmittedBy(tokenAddress), Map(FA2Proofs.RetiredEvent, forwarded));
      assert es[1..] == Map(EmittedBy(tokenAddress), Map(FA2Proofs.RetiredEvent, forwarded)[1..]);
      ForwardedStory(c, a, tokenAddress, txs[1..]);
    }
  }

  lemma {:induction false} OwnStory(c: Address, a: Address, source: Address, tokenAddress: Address,
                                    txs: seq<Custodian.InternalRetireData>)
    ensures var es := Gather(OpEmissions(c), Map(CustodianProofs.RetireEvent(source, tokenAddress), txs));
            && Gather(CustodianStory(c, a), es) == (if tokenAddress == a then Map(ToRetirement, txs) else [])
            && Gather(TokenStory(c, a), es) == []
  {
    if txs == [] {
    } else {
      var ops := Map(CustodianProofs.RetireEvent(source, tokenAddress), txs);
      assert ops[1..] == Map(CustodianProofs.RetireEvent(source, tokenAddress), txs[1..]);
      var first, rest := OpEmissions(c)(ops[0]), Gather(OpEmissions(c), ops[1..]);
      GatherAppend(CustodianStory(c, a), first, rest);
      GatherAppend(TokenStory(c, a), first, rest);
      assert first[1..] == [];
      OwnStory(c, a, source, tokenAddress, txs[1..]);
    }
  }

  /** One retire call tells both logs the story its parameter requests. */
  lemma RetireStories(c: Address, a: Address, source: Address, retires: seq<Custodian.InternalRetire>)
    ensures var es := Gather(OpEmissions(c),
                             Map(CustodianProofs.RetireOp(c),
                                 retires) + Gather(CustodianProofs.RetireEvents(source), retires));
            && Gather(TokenStory(c, a), es) == Gather(RequestedStory(a), retires)
            && Gather(CustodianStory(c, a), es) == Gather(RequestedStory(a), retires)
  {
    var transactions, emits := Map(CustodianProofs.RetireOp(c), retires),
        Gather(CustodianProofs.RetireEvents(source), retires);
    var forwarded, own := Gather(OpEmissions(c), transactions), Gather(OpEmissions(c), emits);
    GatherAppend(OpEmissions(c), transactions, emits);
    GatherAppend(TokenStory(c, a), forwarded, own);
    GatherAppend(CustodianStory(c, a), forwarded, own);
    GatherMap(OpEmissions(c), CustodianProofs.RetireOp(c), ForwardedEmissions(c), retires);
    GatherGather(OpEmissions(c), CustodianProofs.RetireEvents(source), OwnEmissions(c, source), retires);
    forall p
      ensures Gather(TokenStory(c, a), ForwardedEmissions(c)(p)) == RequestedStory(a)(p)
      ensures Gather(CustodianStory(c, a), ForwardedEmissions(c)(p)) == []
      ensures Gather(CustodianStory(c, a), OwnEmissions(c, source)(p)) == RequestedStory(a)(p)
      ensures Gather(TokenStory(c, a), OwnEmissions(c, source)(p)) == []
    {
      ForwardedStory(c, a, p.tokenAddress, p.txs);
      OwnStory(c, a, source, p.tokenAddress, p.txs);
    }
    var none := (p: Custodian.InternalRetire) => [];
    GatherGather(TokenStory(c, a), ForwardedEmissions(c), RequestedStory(a), retires);
    GatherGather(CustodianStory(c, a), OwnEmissions(c, source), RequestedStory(a), retires);
    GatherGather(CustodianStory(c, a), ForwardedEmissions(c), none, retires);
    GatherGather(TokenStory(c, a), OwnEmissions(c, source), none, retires);
    GatherNothing(none, retires);
  }

  // ---------- the same story over runs ----------

  ghost predicate Silent(c: Address, a: Address, es: seq<Emission>) {
    forall e <- es :: TokenStory(c, a)(e) == [] && CustodianStory(c, a)(e) == []
  }

  lemma SilentStories(c: Address, a: Address, es: seq<Emission>)
    requires Silent(c, a, es)
    ensures Gather(TokenStory(c, a), es) == Gather(CustodianStory(c, a), es)
  {
    GatherNothing(TokenStory(c, a), es);
    GatherNothing(CustodianStory(c, a), es);
  }

  /** An outside call to a token contract retires nothing of a custodian's. */
  lemma OutsideCallIsSilent(w: World, call: Call, c: Address, a: Address)
    requires Sound(w) && Transact(w, call).Ok? && call.target.ToToken? && c in w.custodians
    ensures Silent(c, a, NewEvents(w, call))
  {
    var entry := call.target.tokenEntry;
    var op := Custodian.Transaction(call.address, entry);
    GatherOne(OpEmissions(call.sender), op);
    assert NewEvents(w, call) == Map(EmittedBy(call.address), FA2Proofs.EntryEvents(entry));
    forall e <- NewEvents(w, call)
      ensures TokenStory(c, a)(e) == [] && CustodianStory(c, a)(e) == []
    {
      assert entry.RetireEntry? && e.event in Map(FA2Proofs.RetiredEvent, entry.txs);
      RetiresOwn(call.sender, entry.txs, w.tokens[call.address], e.event, c);
    }
  }

  /** A retirement event names the sender or someone the sender is an operator for. */
  lemma RetiresOwn(sender: Address, txs: seq<RetireTx>, s: FA2.Storage, e: Event, c: Address)
    requires FA2.RetireTokens(sender, txs, s).Ok? && e in Map(FA2Proofs.RetiredEvent, txs)
    requires sender != c && forall o <- s.operators :: o.tokenOwner != c
    ensures e.TokenRetired? && e.tx.retiringParty != c
  {
    FA2Proofs.RetireExact(sender, txs, s);
    assert sender == e.tx.retiringParty || FA2.Operator(e.tx.retiringParty, sender, e.tx.tokenId) in s.operators;
  }

  /** Only `retire` makes a custodian emit a retirement event. */
  lemma RetirementEventsFromRetire(ctx: Custodian.Context, s: Custodian.Storage, entry: Custodian.Entrypoint,
      op: Custodian.Operation)
    requires op in CustodianEffects.EmittedOps(ctx, s, entry) && !entry.RetireEntry?
    ensures op.Emit? ==> !op.event.CustodianRetired?
    ensures op.Transaction? ==> op.entry.TransferEntry?
  {
    if entry.InternalMintEntry? {
      var t := GatherOrigin(MintProofs.MintOps(ctx, s), entry.tokens, op);
    }
  }

  /** An operation of a custodian tells nothing about another's retirements, nor does one of a call
      other than `retire` about its own. */
  lemma OpIsSilent(w: World, self: Address, op: Custodian.Operation, c: Address, a: Address, e: Emission)
    requires Sound(w) && self in w.custodians && c in w.custodians && a in w.tokens
    requires CustodianEffects.Outgoing(self, op) && (op.Transaction? ==> op.target in w.tokens)
    requires self == c ==> if op.Emit? then !op.event.CustodianRetired? else op.entry.TransferEntry?
    requires e in OpEmissions(self)(op)
    ensures TokenStory(c, a)(e) == [] && CustodianStory(c, a)(e) == []
  {
    if op.Emit? {
      assert e == Emission(self, op.event);
    } else {
      var events := FA2Proofs.EntryEvents(op.entry);
      assert OpEmissions(self)(op) == Map(EmittedBy(op.target), events);
      assert e.emitter == op.target && e.event in events;
    }
  }

  lemma CustodianCallStories(w: World, call: Call, c: Address, a: Address)
    requires Sound(w) && Transact(w, call).Ok? && call.target.ToCustodian? && c in w.custodians && a in w.tokens
    ensures Gather(TokenStory(c, a), NewEvents(w, call)) == Gather(CustodianStory(c, a), NewEvents(w, call))
  {
    var entry := call.target.custodianEntry;
    if call.address == c && entry.RetireEntry? {
      RetireStories(c, a, call.source, entry.retires);
    } else {
      CustodianCallIsSilent(w, call, c, a);
      SilentStories(c, a, NewEvents(w, call));
    }
  }

  lemma CustodianCallIsSilent(w: World, call: Call, c: Address, a: Address)
    requires Sound(w) && Transact(w, call).Ok? && call.target.ToCustodian? && c in w.custodians && a in w.tokens
    requires call.address == c ==> !call.target.custodianEntry.RetireEntry?
    ensures Silent(c, a, NewEvents(w, call))
  {
    var ctx, s, entry := ContextOf(w, call), w.custodians[call.address], call.target.custodianEntry;
    forall e <- NewEvents(w, call)
      ensures TokenStory(c, a)(e) == [] && CustodianStory(c, a)(e) == []
    {
      var op := GatherOrigin(OpEmissions(call.address), OpsOf(w, call), e);
      CustodianEffects.OpsAreOutgoing(ctx, entry, s, op);
      if !entry.RetireEntry? {
        RetirementEventsFromRetire(ctx, s, entry, op);
      }
      OpIsSilent(w, call.address, op, c, a, e);
    }
  }

  /** Two logs, one story: over any run the retirements a token contract reports for a custodian's holdings
      are, in order and item by item, the ones that custodian reports for that contract's tokens. */
  lemma {:induction false} RunTellsOneStory(w: World, calls: seq<Call>)
    requires Genesis(w)
    ensures OneStory(Run(w, calls))
  {
    if calls == [] {
    } else {
      var m, call := Run(w, calls[..|calls| - 1]), calls[|calls| - 1];
      RunTellsOneStory(w, calls[..|calls| - 1]);
      RunIsSound(w, calls[..|calls| - 1]);
      ApplyKeepsSound(m, call);
      if Transact(m, call).Ok? {
        TransactLogs(m, call);
        forall c, a | c in m.custodians && a in m.tokens
          ensures Gather(TokenStory(c, a), Apply(m, call).events) == Gather(CustodianStory(c, a), Apply(m, call).events)
        {
          GatherAppend(TokenStory(c, a), m.events, NewEvents(m, call));
          GatherAppend(CustodianStory(c, a), m.events, NewEvents(m, call));
          if call.target.ToToken? {
            OutsideCallIsSilent(m, call, c, a);
            SilentStories(c, a, NewEvents(m, call));
          } else {
            CustodianCallStories(m, call, c, a);
          }
        }
      }
    }
  }
}
