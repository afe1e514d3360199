/** Folding a custodian's events rebuilds its client ledger, but for what external transfers took. */
module Replay {
  import opened Outcomes
  import opened Lists
  import opened Ledgers
  import opened Tezos
  import opened World
  import opened Journal
  import FA2
  import FA2Proofs
  import Custodian
  import CustodianProofs
  import CustodianEffects
  import MintProofs

  type ClientPosting = Posting<Custodian.Owner>

  /** What one event of custodian `c` says about client balances. */
  function EventPostings(c: Address): Emission -> seq<ClientPosting> {
    (e: Emission) =>
      if e.emitter != c then []
      else
        match e.event
        case TokenRetired(_) => []
        case InternallyTransferred(source, destination, token, amount) =>
            Entries(Move(source, destination, token, amount))
        case InternallyMinted(token, diff, _) => [Posting(Holding(SELF, token), diff)]
        case CustodianRetired(_, kyc, token, amount, _) => [Posting(Holding(kyc, token), -(amount as int))]
  }

  /** The ledger an observer of the event log builds from an empty map. */
  function Rebuilt(c: Address, events: seq<Emission>): Result<map<Custodian.Owner, nat>> {
    Post(Custodian.INSUFFICIENT_BALANCE, Gather(EventPostings(c), events), map[])
  }

  /** What the committed external transfers of `c` took from one client. */
  function TakenBy(c: Address, h: Custodian.Owner): Record -> int {
    (r: Record) =>
      if r.CustodianRecord? && r.custodian == c && r.custodianEntry.ExternalTransferEntry?
      then CustodianProofs.Owed(CustodianProofs.ExternalDebits(r.custodianEntry.externals), h)
      else 0
  }

  function SentOut(w: World, c: Address, h: Custodian.Owner): int {
    Sum(TakenBy(c, h), w.calls)
  }

  /** The log rebuilds the ledger plus whatever was sent out without an event. */
  ghost predicate Rebuildable(w: World, c: Address) {
    && c in w.custodians
    && Rebuilt(c, w.events).Ok?
    && forall h :: Get(Rebuilt(c, w.events).value, h) == Get(w.custodians[c].ledger, h) + SentOut(w, c, h)
  }

  // ---------- the postings of one call's events ----------

  function OpPostings(c: Address): Custodian.Operation -> seq<ClientPosting> {
    (op: Custodian.Operation) => Gather(EventPostings(c), OpEmissions(c)(op))
  }

  lemma EmitPostings(c: Address, event: Event)
    ensures OpPostings(c)(Custodian.Emit(event)) == EventPostings(c)(Emission(c, event))
  {
    assert OpEmissions(c)(Custodian.Emit(event)) == [Emission(c, event)];
    GatherOne(EventPostings(c), Emission(c, event));
  }

  lemma TransactionPostings(c: Address, target: Address, entry: FA2.Entrypoint)
    ensures OpPostings(c)(Custodian.Transaction(target, entry)) == []
  {
    var es := OpEmissions(c)(Custodian.Transaction(target, entry));
    assert es == Map(EmittedBy(target), FA2Proofs.EntryEvents(entry));
    GatherNothing(EventPostings(c), es);
  }

  /** Internal transfer events carry exactly the postings of the transfer. */
  lemma TransferEventPostings(c: Address, transfers: seq<Custodian.InternalTransferBatch>)
    ensures var mvs := CustodianProofs.Moves(transfers);
            Gather(OpPostings(c), Map(CustodianProofs.TransferEvent, mvs)) == MovePostings(mvs)
  {
    var mvs := CustodianProofs.Moves(transfers);
    forall mv <- mvs
      ensures Entries(mv) == OpPostings(c)(CustodianProofs.TransferEvent(mv))
    {
      EmitPostings(c, CustodianProofs.TransferEvent(mv).event);
    }
    GatherMap(OpPostings(c), CustodianProofs.TransferEvent, Entries, mvs);
  }

  function RetiredPostings(p: Custodian.InternalRetire): seq<ClientPosting> {
    Map(CustodianProofs.ClientPosting, CustodianProofs.RetireBatchDebits(p))
  }

  function DebitPosting(d: CustodianProofs.Debit): seq<ClientPosting> {
    [CustodianProofs.ClientPosting(d)]
  }

  function RetiredItem(tokenAddress: Address): Custodian.InternalRetireData -> seq<ClientPosting> {
    (p: Custodian.InternalRetireData) => DebitPosting(CustodianProofs.RetireDebit(tokenAddress)(p))
  }

  /** Retirement events carry exactly the postings of the retirement. */
  lemma RetireEventPostings(c: Address, source: Address, retires: seq<Custodian.InternalRetire>)
    ensures Gather(OpPostings(c), Gather(CustodianProofs.RetireEvents(source), retires)) ==
            Map(CustodianProofs.ClientPosting, CustodianProofs.RetireDebits(retires))
  {
    forall p
      ensures RetiredPostings(p) == Gather(OpPostings(c), CustodianProofs.RetireEvents(source)(p))
      ensures RetiredPostings(p) == Gather(DebitPosting, CustodianProofs.RetireBatchDebits(p))
    {
      var item, debit, emit :=
        RetiredItem(p.tokenAddress), CustodianProofs.RetireDebit(p.tokenAddress),
            CustodianProofs.RetireEvent(source, p.tokenAddress);
      forall d <- p.txs
        ensures item(d) == OpPostings(c)(emit(d))
      {
        EmitPostings(c, emit(d).event);
      }
      GatherMap(OpPostings(c), emit, item, p.txs);
      GatherMap(DebitPosting, debit, item, p.txs);
      MapIsGather(CustodianProofs.ClientPosting, DebitPosting, CustodianProofs.RetireBatchDebits(p));
    }
    GatherGather(OpPostings(c), CustodianProofs.RetireEvents(source), RetiredPostings, retires);
    GatherGather(DebitPosting, CustodianProofs.RetireBatchDebits, RetiredPostings, retires);
    MapIsGather(CustodianProofs.ClientPosting, DebitPosting, CustodianProofs.RetireDebits(retires));
  }

  /** Leaving out the zero-amount mint events loses nothing. */
  lemma {:induction false} MintEventPostings(ctx: Custodian.Context, s: Custodian.Storage, tokens: seq<Token>,
      h: Custodian.Owner)
    requires MintProofs.Mintable(ctx, s, tokens)
    ensures var ps := Gather(OpPostings(ctx.self), Gather(MintProofs.MintOps(ctx, s), tokens));
            && Net(ps, h) == Net(MintProofs.MintPostings(ctx, s, tokens), h)
            && (forall p <- ps :: p.diff >= 0)
  {
    if tokens == [] {
    } else {
      var t, rest := tokens[0], tokens[1..];
      var first := MintProofs.MintOps(ctx, s)(t);
      GatherAppend(OpPostings(ctx.self), first, Gather(MintProofs.MintOps(ctx, s), rest));
      NetAppend(Gather(OpPostings(ctx.self), first), Gather(OpPostings(ctx.self),
          Gather(MintProofs.MintOps(ctx, s), rest)), h);
      MintEventPostings(ctx, s, rest, h);
      assert Map(MintProofs.Found(ctx, s), tokens)[1..] == Map(MintProofs.Found(ctx, s), rest);
      assert MintProofs.MintPostings(ctx, s, tokens)[1..] == MintProofs.MintPostings(ctx, s, rest);
      if first != [] {
        GatherOne(OpPostings(ctx.self), first[0]);
        EmitPostings(ctx.self, first[0].event);
        SumOne(DiffAt(h), Posting(Holding(SELF, t), MintProofs.Diff(ctx, s, t)));
      }
    }
  }

  lemma {:induction false} TransactionsAreQuiet(c: Address, ops: seq<Custodian.Operation>)
    requires forall op <- ops :: op.Transaction?
    ensures Gather(OpPostings(c), ops) == []
  {
    if ops == [] {
    } else {
      assert ops[0].Transaction?;
      TransactionPostings(c, ops[0].target, ops[0].entry);
      TransactionsAreQuiet(c, ops[1..]);
    }
  }

  /** Except for external transfers, the postings of a call's events net to the call's own postings and
      apply to any ledger at least as rich; external transfers emit none. */
  lemma CallReplays(ctx: Custodian.Context, s: Custodian.Storage, entry: Custodian.Entrypoint,
      m: map<Custodian.Owner, nat>)
    requires Custodian.Main(ctx, entry, s).Ok?
    requires forall h :: Get(s.ledger, h) <= Get(m, h)
    ensures var ps := Gather(OpPostings(ctx.self), CustodianEffects.EmittedOps(ctx, s, entry));
            && Post(Custodian.INSUFFICIENT_BALANCE, ps, m).Ok?
            && (entry.ExternalTransferEntry? ==> ps == [])
            && (!entry.ExternalTransferEntry? ==>
                  forall h :: Net(ps, h) == Net(CustodianEffects.ClientPostings(ctx, s, entry), h))
  {
    var c := ctx.self;
    CustodianEffects.MainEffect(ctx, entry, s);
    match entry
    case InternalTransferEntry(transfers) =>
      TransferEventPostings(c, transfers);
      PostMonotone(Custodian.INSUFFICIENT_BALANCE, MovePostings(CustodianProofs.Moves(transfers)), s.ledger, m);
    case InternalMintEntry(tokens) =>
      MintProofs.MintEffect(ctx, tokens, s);
      forall h
        ensures Net(Gather(OpPostings(c), Gather(MintProofs.MintOps(ctx, s), tokens)), h) ==
                Net(MintProofs.MintPostings(ctx, s, tokens), h)
      {
        MintEventPostings(ctx, s, tokens, h);
      }
      MintEventPostings(ctx, s, tokens, Holding(SELF, Token(c, 0)));
      CreditsSucceed(Custodian.INSUFFICIENT_BALANCE, Gather(OpPostings(c), Gather(MintProofs.MintOps(ctx, s),
          tokens)), m);
    case ExternalTransferEntry(externals) =>
      TransactionsAreQuiet(c, Map(CustodianProofs.TransferOp(c), externals));
    case RetireEntry(retires) =>
      var transactions, emits := Map(CustodianProofs.RetireOp(c), retires),
          Gather(CustodianProofs.RetireEvents(ctx.source), retires);
      GatherAppend(OpPostings(c), transactions, emits);
      TransactionsAreQuiet(c, transactions);
      RetireEventPostings(c, ctx.source, retires);
      assert Gather(OpPostings(c), transactions + emits) == Gather(OpPostings(c), emits);
      PostMonotone(Custodian.INSUFFICIENT_BALANCE, Map(CustodianProofs.ClientPosting,
          CustodianProofs.RetireDebits(retires)), s.ledger, m);
    case _ =>
  }

  // ---------- one transaction ----------

  lemma {:induction false} RecordsTakeNothing(c: Address, h: Custodian.Owner, sender: Address,
      ops: seq<Custodian.Operation>)
    ensures Sum(TakenBy(c, h), Gather(OpRecords(sender), ops)) == 0
  {
    if ops == [] {
    } else {
      RecordsTakeNothing(c, h, sender, ops[1..]);
      SumAppend(TakenBy(c, h), OpRecords(sender)(ops[0]), Gather(OpRecords(sender), ops[1..]));
      if ops[0].Transaction? {
        SumOne(TakenBy(c, h), TokenRecord(sender, ops[0].target, ops[0].entry));
      }
    }
  }

  lemma SentOutGrows(w: World, call: Call, c: Address, h: Custodian.Owner)
    requires Transact(w, call).Ok?
    ensures SentOut(Apply(w, call), c, h) == SentOut(w, c, h) +
            if call.target.ToCustodian? then TakenBy(c, h)(CustodianRecord(call.sender, call.address,
                call.target.custodianEntry)) else 0
  {
    TransactLogs(w, call);
    SumAppend(TakenBy(c, h), w.calls, NewCalls(w, call));
    var forwarded := Gather(OpRecords(Executor(call)), OpsOf(w, call));
    RecordsTakeNothing(c, h, Executor(call), OpsOf(w, call));
    if call.target.ToCustodian? {
      var r := CustodianRecord(call.sender, call.address, call.target.custodianEntry);
      SumAppend(TakenBy(c, h), [r], forwarded);
      SumOne(TakenBy(c, h), r);
    } else {
      assert NewCalls(w, call) == forwarded;
    }
  }

  lemma SentOutNonnegative(w: World, c: Address, h: Custodian.Owner)
    ensures SentOut(w, c, h) >= 0
  {
    forall r <- w.calls
      ensures TakenBy(c, h)(r) >= 0
    {
      if r.CustodianRecord? && r.custodianEntry.ExternalTransferEntry? {
        SumNonnegative(CustodianProofs.OwedBy(h), CustodianProofs.ExternalDebits(r.custodianEntry.externals));
      }
    }
    SumNonnegative(TakenBy(c, h), w.calls);
  }

  lemma OthersOpIsQuiet(w: World, executor: Address, op: Custodian.Operation, c: Address, e: Emission)
    requires c !in w.tokens && executor != c && (op.Transaction? ==> op.target in w.tokens)
    requires e in OpEmissions(executor)(op)
    ensures EventPostings(c)(e) == []
  {
    if op.Emit? {
      assert e == Emission(executor, op.event);
    } else {
      assert OpEmissions(executor)(op) == Map(EmittedBy(op.target), FA2Proofs.EntryEvents(op.entry));
      assert e.emitter == op.target;
    }
  }

  /** Events of other contracts say nothing about `c`. */
  lemma OthersAreQuiet(w: World, call: Call, c: Address)
    requires Sound(w) && Transact(w, call).Ok? && c in w.custodians
    requires call.target.ToToken? || call.address != c
    ensures Gather(EventPostings(c), NewEvents(w, call)) == []
  {
    forall e <- NewEvents(w, call)
      ensures EventPostings(c)(e) == []
    {
      var op := GatherOrigin(OpEmissions(Executor(call)), OpsOf(w, call), e);
      if call.target.ToCustodian? {
        CustodianEffects.OpsAreOutgoing(ContextOf(w, call), call.target.custodianEntry, w.custodians[call.address], op);
      }
      OthersOpIsQuiet(w, Executor(call), op, c, e);
    }
    GatherNothing(EventPostings(c), NewEvents(w, call));
  }

  lemma OwnEventPostings(w: World, call: Call)
    requires Transact(w, call).Ok? && call.target.ToCustodian?
    ensures var ops := CustodianEffects.EmittedOps(ContextOf(w, call), w.custodians[call.address],
        call.target.custodianEntry);
            Gather(EventPostings(call.address), Apply(w, call).events) ==
            Gather(EventPostings(call.address), w.events) + Gather(OpPostings(call.address), ops)
  {
    var c := call.address;
    TransactLogs(w, call);
    GatherAppend(EventPostings(c), w.events, NewEvents(w, call));
    GatherGather(EventPostings(c), OpEmissions(c), OpPostings(c), OpsOf(w, call));
  }

  lemma OwnCallRebuilds(w: World, call: Call)
    requires Sound(w) && Transact(w, call).Ok? && call.target.ToCustodian? && Rebuildable(w, call.address)
    ensures Rebuildable(Apply(w, call), call.address)
  {
    var c, ctx, entry := call.address, ContextOf(w, call), call.target.custodianEntry;
    var s, w', m := w.custodians[c], Apply(w, call), Rebuilt(c, w.events).value;
    var ps := Gather(OpPostings(c), CustodianEffects.EmittedOps(ctx, s, entry));
    OwnEventPostings(w, call);
    PostAppend(Custodian.INSUFFICIENT_BALANCE, Gather(EventPostings(c), w.events), ps, map[]);
    forall h ensures Get(s.ledger, h) <= Get(m, h) { SentOutNonnegative(w, c, h); }
    CallReplays(ctx, s, entry, m);
    PostExact(Custodian.INSUFFICIENT_BALANCE, ps, m);
    TransactLogs(w, call);
    forall h
      ensures Get(Rebuilt(c, w'.events).value, h) == Get(w'.custodians[c].ledger, h) + SentOut(w', c, h)
    {
      SentOutGrows(w, call, c, h);
      OwnBalanceShifts(w, call, h);
    }
  }

  lemma OwnBalanceShifts(w: World, call: Call, h: Custodian.Owner)
    requires Transact(w, call).Ok? && call.target.ToCustodian?
    ensures var ctx, entry, s := ContextOf(w, call), call.target.custodianEntry, w.custodians[call.address];
            var ps := CustodianEffects.ClientPostings(ctx, s, entry);
            && Get(RunCustodian(w, call).value.1.ledger, h) == Get(s.ledger, h) + Net(ps, h)
            && (entry.ExternalTransferEntry? ==>
                  Net(ps, h) == -CustodianProofs.Owed(CustodianProofs.ExternalDebits(entry.externals), h))
  {
    var ctx, entry, s := ContextOf(w, call), call.target.custodianEntry, w.custodians[call.address];
    CustodianEffects.MainEffect(ctx, entry, s);
    PostExact(Custodian.INSUFFICIENT_BALANCE, CustodianEffects.ClientPostings(ctx, s, entry), s.ledger);
    if entry.ExternalTransferEntry? {
      CustodianProofs.ClientNet(CustodianProofs.ExternalDebits(entry.externals), h);
    }
  }

  lemma ApplyRebuilds(w: World, call: Call, c: Address)
    requires Sound(w) && Rebuildable(w, c)
    ensures Rebuildable(Apply(w, call), c)
  {
    if Transact(w, call).Ok? {
      if call.target.ToCustodian? && call.address == c {
        OwnCallRebuilds(w, call);
      } else {
        TransactLogs(w, call);
        GatherAppend(EventPostings(c), w.events, NewEvents(w, call));
        OthersAreQuiet(w, call, c);
        assert Gather(EventPostings(c), Apply(w, call).events) == Gather(EventPostings(c), w.events);
        forall h ensures SentOut(Apply(w, call), c, h) == SentOut(w, c, h) { SentOutGrows(w, call, c, h); }
      }
    }
  }

  lemma {:induction false} RunRebuilds(w: World, calls: seq<Call>, c: Address)
    requires Genesis(w) && c in w.custodians
    ensures Rebuildable(Run(w, calls), c)
  {
    if calls == [] {
    } else {
      var init := calls[..|calls| - 1];
      RunRebuilds(w, init, c);
      RunIsSound(w, init);
      ApplyRebuilds(Run(w, init), calls[|calls| - 1], c);
    }
  }

  /** Event replay: over any run the fold of a custodian's events from an empty map succeeds, exceeds each
      client's balance by exactly what committed external transfers took, and so reproduces the ledger if
      and only if they took nothing. */
  lemma EventReplay(w: World, calls: seq<Call>, c: Address)
    requires Genesis(w) && c in w.custodians
    ensures var w' := Run(w, calls);
            var rebuilt := Rebuilt(c, w'.events);
            && c in w'.custodians && rebuilt.Ok?
            && (forall h ::
                  Get(rebuilt.value, h) == Custodian.ViewBalanceOf(h, w'.custodians[c]) + SentOut(w', c, h))
            && (rebuilt.value == w'.custodians[c].ledger <==> forall h :: SentOut(w', c, h) == 0)
  {
    var w' := Run(w, calls);
    RunRebuilds(w, calls, c);
    RunIsSound(w, calls);
    PostExact(Custodian.INSUFFICIENT_BALANCE, Gather(EventPostings(c), w'.events), map[]);
    var m, ledger := Rebuilt(c, w'.events).value, w'.custodians[c].ledger;
    if forall h :: SentOut(w', c, h) == 0 {
      CanonicalExtensional(m, ledger);
    }
    if m == ledger {
      forall h ensures SentOut(w', c, h) == 0 {
        assert Get(m, h) == Get(ledger, h) + SentOut(w', c, h);
      }
    }
  }
}
