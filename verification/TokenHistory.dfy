/** Each token contract over a run: its recorded calls explain its storage, its events and its supply. */
module TokenHistory {
  import opened Outcomes
  import opened Lists
  import opened Ledgers
  import opened Operators
  import opened Tezos
  import opened World
  import FA2
  import FA2Proofs
  import Custodian

  datatype TokenCall = TokenCall(sender: Address, entry: FA2.Entrypoint)

  function CallsOn(a: Address): Record -> seq<TokenCall> {
    (r: Record) => if r.TokenRecord? && r.token == a then [TokenCall(r.sender, r.tokenEntry)] else []
  }

  function EventsOf(a: Address): Emission -> seq<Event> {
    (e: Emission) => if e.emitter == a then [e.event] else []
  }

  /** The committed calls to token contract `a`, in order. */
  function History(w: World, a: Address): seq<TokenCall> {
    Gather(CallsOn(a), w.calls)
  }

  function CallStep(s: FA2.Storage, c: TokenCall): Result<FA2.Storage> {
    var (_, s') :- FA2.Main(c.sender, c.entry, s);
    Ok(s')
  }

  function CallEvents(c: TokenCall): seq<Event> {
    FA2Proofs.EntryEvents(c.entry)
  }

  // ---------- storage and events are those of the recorded calls ----------

  /** Running the recorded calls of `a` from its original storage gives its storage and its event log. */
  ghost predicate Explained(origin: World, w: World, a: Address) {
    && a in origin.tokens && a in w.tokens
    && Fold(CallStep, History(w, a), origin.tokens[a]) == Ok(w.tokens[a])
    && Gather(EventsOf(a), w.events) == Gather(CallEvents, History(w, a))
  }

  lemma {:induction false} OwnEvents(a: Address, emitter: Address, events: seq<Event>)
    ensures Gather(EventsOf(a), Map(EmittedBy(emitter), events)) == if emitter == a then events else []
  {
    if events == [] {
    } else {
      assert Map(EmittedBy(emitter), events)[1..] == Map(EmittedBy(emitter), events[1..]);
      OwnEvents(a, emitter, events[1..]);
      assert events == [events[0]] + events[1..];
    }
  }

  lemma ExecuteExplained(origin: World, w: World, a: Address, sender: Address, op: Custodian.Operation)
    requires Explained(origin, w, a) && Execute(sender)(w, op).Ok?
    requires op.Emit? ==> sender != a
    ensures Explained(origin, Execute(sender)(w, op).value, a)
  {
    var w' := Execute(sender)(w, op).value;
    if op.Transaction? {
      var r := TokenRecord(sender, op.target, op.entry);
      var (events, s) := FA2.Main(sender, op.entry, w.tokens[op.target]).value;
      FA2Proofs.MainEffect(sender, op.entry, w.tokens[op.target]);
      GatherAppend(CallsOn(a), w.calls, [r]);
      GatherOne(CallsOn(a), r);
      GatherAppend(EventsOf(a), w.events, Map(EmittedBy(op.target), events));
      OwnEvents(a, op.target, events);
      if op.target == a {
        var c := TokenCall(sender, op.entry);
        FoldAppend(CallStep, History(w, a), [c], origin.tokens[a]);
        FoldOne(CallStep, c, w.tokens[a]);
        GatherAppend(CallEvents, History(w, a), [c]);
        GatherOne(CallEvents, c);
      } else {
        assert History(w', a) == History(w, a);
      }
    } else {
      GatherAppend(EventsOf(a), w.events, [Emission(sender, op.event)]);
      GatherOne(EventsOf(a), Emission(sender, op.event));
      assert Gather(EventsOf(a), w'.events) == Gather(EventsOf(a), w.events);
    }
  }

  lemma {:induction false} ExecuteAllExplained(origin: World, w: World, a: Address, self: Address,
      ops: seq<Custodian.Operation>)
    requires Explained(origin, w, a) && self != a && Fold(Execute(self), ops, w).Ok?
    ensures Explained(origin, Fold(Execute(self), ops, w).value, a)
    decreases |ops|
  {
    if ops == [] {
    } else {
      ExecuteExplained(origin, w, a, self, ops[0]);
      ExecuteAllExplained(origin, Execute(self)(w, ops[0]).value, a, self, ops[1..]);
    }
  }

  lemma ApplyExplained(origin: World, w: World, a: Address, call: Call)
    requires Sound(w) && Explained(origin, w, a)
    ensures Explained(origin, Apply(w, call), a)
  {
    if Transact(w, call).Ok? {
      match call.target
      case ToToken(entry) => ExecuteExplained(origin, w, a, call.sender, Custodian.Transaction(call.address, entry));
      case ToCustodian(entry) =>
        var (ops, s) := RunCustodian(w, call).value;
        var r := CustodianRecord(call.sender, call.address, entry);
        GatherAppend(CallsOn(a), w.calls, [r]);
        GatherOne(CallsOn(a), r);
        assert History(Debited(w, call, s), a) == History(w, a);
        ExecuteAllExplained(origin, Debited(w, call, s), a, call.address, ops);
    }
  }

  /** Over any run a token contract's storage and event log are what its recorded calls, run one after
      another from origination, produce: nothing else, custodians' forwarded calls included, reaches it. */
  lemma {:induction false} RunExplained(w: World, calls: seq<Call>, a: Address)
    requires Genesis(w) && a in w.tokens
    ensures Explained(w, Run(w, calls), a)
  {
    if calls == [] {
    } else {
      var init := calls[..|calls| - 1];
      RunExplained(w, init, a);
      RunIsSound(w, init);
      ApplyExplained(w, Run(w, init), a, calls[|calls| - 1]);
    }
  }

  // ---------- supply ----------

  function MintQty(id: nat): FA2.MintData -> int {
    (p: FA2.MintData) => if p.tokenId == id then p.qty else 0
  }

  function MintedBy(id: nat): TokenCall -> int {
    (c: TokenCall) => if c.entry.MintEntry? then Sum(MintQty(id), c.entry.mints) else 0
  }

  function RetiredBy(id: nat): Event -> int {
    (e: Event) => if e.TokenRetired? && e.tx.tokenId == id then e.tx.amount else 0
  }

  lemma {:induction false} RetiredNet(txs: seq<RetireTx>, id: nat)
    ensures NetIn(Map(FA2Proofs.RetirePosting, txs), id) == -Sum(RetiredBy(id), Map(FA2Proofs.RetiredEvent, txs))
  {
    if txs == [] {
    } else {
      assert Map(FA2Proofs.RetirePosting, txs)[1..] == Map(FA2Proofs.RetirePosting, txs[1..]);
      assert Map(FA2Proofs.RetiredEvent, txs)[1..] == Map(FA2Proofs.RetiredEvent, txs[1..]);
      RetiredNet(txs[1..], id);
    }
  }

  lemma CallNet(c: TokenCall, id: nat)
    ensures NetIn(FA2Proofs.LedgerPostings(c.entry), id) == MintedBy(id)(c) - Sum(RetiredBy(id), CallEvents(c))
  {
    match c.entry
    case TransferEntry(batches) => MovesConserve(FA2Proofs.Moves(batches), id);
    case MintEntry(mints) => SumMap(DiffIn(id), FA2Proofs.MintPosting, MintQty(id), mints);
    case RetireEntry(txs) => RetiredNet(txs, id);
    case _ =>
  }

  lemma {:induction false} HistoryTotal(cs: seq<TokenCall>, s: FA2.Storage, id: nat)
    requires Fold(CallStep, cs, s).Ok?
    ensures Total(Fold(CallStep, cs, s).value.ledger, id) ==
            Total(s.ledger, id) + Sum(MintedBy(id), cs) - Sum(RetiredBy(id), Gather(CallEvents, cs))
    decreases |cs|
  {
    if cs == [] {
    } else {
      var c, s' := cs[0], CallStep(s, cs[0]).value;
      FA2Proofs.MainEffect(c.sender, c.entry, s);
      TotalPosted(FA2.INSUFFICIENT_BALANCE, FA2Proofs.LedgerPostings(c.entry), s.ledger, id);
      CallNet(c, id);
      SumAppend(RetiredBy(id), CallEvents(c), Gather(CallEvents, cs[1..]));
      HistoryTotal(cs[1..], s', id);
    }
  }

  /** Supply conservation: over any run the balances of each token id add up to what its committed mints
      created less what its emitted retirement events report. */
  lemma SupplyConserved(w: World, calls: seq<Call>, a: Address, id: nat)
    requires Genesis(w) && a in w.tokens
    ensures var w' := Run(w, calls);
            && a in w'.tokens
            && Total(w'.tokens[a].ledger, id) ==
               Sum(MintedBy(id), History(w', a)) - Sum(RetiredBy(id), Gather(EventsOf(a), w'.events))
  {
    RunExplained(w, calls, a);
    HistoryTotal(History(Run(w, calls), a), w.tokens[a], id);
  }

  function CallNetAt(h: FA2.Owner): TokenCall -> int {
    (c: TokenCall) => Net(FA2Proofs.LedgerPostings(c.entry), h)
  }

  lemma {:induction false} HistoryBalance(cs: seq<TokenCall>, s: FA2.Storage, h: FA2.Owner)
    requires Fold(CallStep, cs, s).Ok?
    ensures Get(Fold(CallStep, cs, s).value.ledger, h) == Get(s.ledger, h) + Sum(CallNetAt(h), cs)
    decreases |cs|
  {
    if cs == [] {
    } else {
      var c, s' := cs[0], CallStep(s, cs[0]).value;
      FA2Proofs.MainEffect(c.sender, c.entry, s);
      PostExact(FA2.INSUFFICIENT_BALANCE, FA2Proofs.LedgerPostings(c.entry), s.ledger);
      HistoryBalance(cs[1..], s', h);
    }
  }

  /** Over any run the view of a holding answers what the recorded calls, and nothing else, put into it
      less what they took out of it. */
  lemma BalanceIsNet(w: World, calls: seq<Call>, a: Address, h: FA2.Owner)
    requires Genesis(w) && a in w.tokens
    ensures var w' := Run(w, calls);
            a in w'.tokens && FA2.ViewBalanceOf(h, w'.tokens[a]) == Sum(CallNetAt(h), History(w', a))
  {
    RunExplained(w, calls, a);
    HistoryBalance(History(Run(w, calls), a), w.tokens[a], h);
  }

  // ---------- delegation and metadata ----------

  function UpdatesBy(c: TokenCall): seq<OperatorUpdate<FA2.Operator>> {
    FA2Proofs.OperatorUpdates(c.entry)
  }

  lemma {:induction false} HistoryOperators(cs: seq<TokenCall>, s: FA2.Storage)
    requires Fold(CallStep, cs, s).Ok?
    ensures Fold(CallStep, cs, s).value.operators == UpdateAll(Gather(UpdatesBy, cs), s.operators)
    ensures forall c <- cs, u <- UpdatesBy(c) :: u.operator.tokenOwner == c.sender
    decreases |cs|
  {
    if cs == [] {
    } else {
      var c, s' := cs[0], CallStep(s, cs[0]).value;
      assert cs == [c] + cs[1..];
      FA2Proofs.MainEffect(c.sender, c.entry, s);
      if c.entry.UpdateOperatorsEntry? {
        FA2Proofs.OperatorUpdatesExact(c.sender, c.entry.updates, s);
      }
      UpdateAllAppend(UpdatesBy(c), Gather(UpdatesBy, cs[1..]), s.operators);
      HistoryOperators(cs[1..], s');
    }
  }

  /** A triple is an operator entry exactly when the last committed update naming it was an addition; every
      committed update was sent by the owner it names, and no owner is its own operator. */
  lemma OperatorsAreLastAdded(w: World, calls: seq<Call>, a: Address, o: FA2.Operator)
    requires Genesis(w) && a in w.tokens
    ensures var w' := Run(w, calls);
            && a in w'.tokens
            && (o in w'.tokens[a].operators <==> LastAdded(Gather(UpdatesBy, History(w', a)), o))
            && (forall c <- History(w', a), u <- UpdatesBy(c) :: u.operator.tokenOwner == c.sender)
            && (o in w'.tokens[a].operators ==> o.tokenOwner != o.tokenOperator)
  {
    var w' := Run(w, calls);
    RunExplained(w, calls, a);
    RunIsSound(w, calls);
    HistoryOperators(History(w', a), w.tokens[a]);
    LastUpdateDecides(Gather(UpdatesBy, History(w', a)), {}, o);
  }

  /** One call to a token contract lowers a balance only if its owner sent it, or a current operator did. */
  lemma BalanceFallsByOwnerOrOperator(w: World, call: Call, a: Address, h: FA2.Owner)
    requires Sound(w) && a in w.tokens
    requires call.target.ToToken? && a in Apply(w, call).tokens
    requires FA2.ViewBalanceOf(h, Apply(w, call).tokens[a]) < FA2.ViewBalanceOf(h, w.tokens[a])
    ensures call.address == a
    ensures call.sender == h.owner || FA2.Operator(h.owner, call.sender, h.item) in w.tokens[a].operators
  {
    FA2Proofs.MainSpends(call.sender, call.target.tokenEntry, w.tokens[a], h);
  }

  ghost predicate MetadataKept(w: World, w': World) {
    forall a :: a in w.tokens ==>
      && a in w'.tokens
      && FA2Proofs.Extends(w.tokens[a].tokenMetadata, w'.tokens[a].tokenMetadata)
  }

  lemma ExecuteKeepsMetadata(w: World, sender: Address, op: Custodian.Operation)
    requires Execute(sender)(w, op).Ok?
    ensures MetadataKept(w, Execute(sender)(w, op).value)
  {
    if op.Transaction? {
      FA2Proofs.MainEffect(sender, op.entry, w.tokens[op.target]);
    }
  }

  lemma {:induction false} ExecuteAllKeepsMetadata(w: World, self: Address, ops: seq<Custodian.Operation>)
    requires Fold(Execute(self), ops, w).Ok?
    ensures MetadataKept(w, Fold(Execute(self), ops, w).value)
    decreases |ops|
  {
    if ops == [] {
    } else {
      ExecuteKeepsMetadata(w, self, ops[0]);
      ExecuteAllKeepsMetadata(Execute(self)(w, ops[0]).value, self, ops[1..]);
    }
  }

  lemma {:induction false} RunKeepsMetadata(w: World, calls: seq<Call>)
    ensures MetadataKept(w, Run(w, calls))
  {
    if calls == [] {
    } else {
      var m, call := Run(w, calls[..|calls| - 1]), calls[|calls| - 1];
      RunKeepsMetadata(w, calls[..|calls| - 1]);
      if Transact(m, call).Ok? {
        match call.target
        case ToToken(entry) => ExecuteKeepsMetadata(m, call.sender, Custodian.Transaction(call.address, entry));
        case ToCustodian(_) =>
          var (ops, s) := RunCustodian(m, call).value;
          ExecuteAllKeepsMetadata(Debited(m, call, s), call.address, ops);
      }
    }
  }

  function ListedBy(c: TokenCall): seq<FA2.TokenMetadata> {
    FA2Proofs.ListedMetadata(c.entry)
  }

  /** Filing two lists one after the other files their concatenation. */
  lemma FiledTwice(xs: seq<FA2.TokenMetadata>, ys: seq<FA2.TokenMetadata>, m0: map<nat, FA2.TokenMetadata>,
      m1: map<nat, FA2.TokenMetadata>, m2: map<nat, FA2.TokenMetadata>)
    requires FA2Proofs.Filed(xs, m0, m1) && FA2Proofs.Filed(ys, m1, m2)
    ensures FA2Proofs.Filed(xs + ys, m0, m2)
  {
    var all := xs + ys;
    forall i | 0 <= i < |all|
      ensures all[i].tokenId !in m0
    {
      assert if i < |xs| then all[i] == xs[i] else all[i] == ys[i - |xs|];
    }
    forall i, j | 0 <= i < j < |all|
      ensures all[i].tokenId != all[j].tokenId
    {
      if j >= |xs| > i {
        assert all[i] == xs[i] && all[i] in xs && all[j] == ys[j - |xs|];
      } else if i >= |xs| {
        assert all[i] == ys[i - |xs|] && all[j] == ys[j - |xs|];
      }
    }
    forall d <- all
      ensures d.tokenId in m2 && m2[d.tokenId] == d
    {
      assert d in xs || d in ys;
    }
  }

  lemma {:induction false} HistoryMetadata(cs: seq<TokenCall>, s: FA2.Storage)
    requires Fold(CallStep, cs, s).Ok?
    ensures FA2Proofs.Filed(Gather(ListedBy, cs), s.tokenMetadata, Fold(CallStep, cs, s).value.tokenMetadata)
    decreases |cs|
  {
    if cs == [] {
    } else {
      var c, s' := cs[0], CallStep(s, cs[0]).value;
      FA2Proofs.MainEffect(c.sender, c.entry, s);
      HistoryMetadata(cs[1..], s');
      FiledTwice(ListedBy(c), Gather(ListedBy, cs[1..]), s.tokenMetadata, s'.tokenMetadata,
          Fold(CallStep, cs, s).value.tokenMetadata);
    }
  }

  /** Token universe: the metadata of a token contract is exactly what its committed `add_token_id` calls
      listed, no id twice, each entry under its own id; it is never removed or overwritten, and covers every
      token id anyone holds, although `transfer` never checks it. */
  lemma TokenUniverse(w: World, calls: seq<Call>, more: seq<Call>, a: Address)
    requires Genesis(w) && a in w.tokens
    ensures var now, later := Run(w, calls), Run(w, calls + more);
            && a in now.tokens && a in later.tokens
            && FA2Proofs.Filed(Gather(ListedBy, History(now, a)), map[], now.tokens[a].tokenMetadata)
            && FA2Proofs.Extends(now.tokens[a].tokenMetadata, later.tokens[a].tokenMetadata)
            && FA2Proofs.Keyed(now.tokens[a].tokenMetadata)
            && (forall h :: h in now.tokens[a].ledger ==> h.item in now.tokens[a].tokenMetadata)
  {
    RunIsSound(w, calls);
    RunExplained(w, calls, a);
    HistoryMetadata(History(Run(w, calls), a), w.tokens[a]);
    RunExtends(w, calls, more);
    RunKeepsMetadata(Run(w, calls), more);
  }
}
