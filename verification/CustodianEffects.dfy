/** Every custodian entrypoint at once: its postings, operator updates and emitted operations. */
module CustodianEffects {
  import opened Outcomes
  import opened Lists
  import opened Ledgers
  import opened Operators
  import opened Tezos
  import opened Custodian
  import opened CustodianProofs
  import opened MintProofs
  import FA2

  function ClientPostings(ctx: Context, s: Storage, entry: Entrypoint): seq<Posting<Owner>> {
    match entry
    case InternalTransferEntry(transfers) => MovePostings(Moves(transfers))
    case InternalMintEntry(tokens) => MintPostings(ctx, s, tokens)
    case ExternalTransferEntry(externals) => Map(ClientPosting, ExternalDebits(externals))
    case RetireEntry(retires) => Map(ClientPosting, RetireDebits(retires))
    case _ => []
  }

  function CachePostings(ctx: Context, s: Storage, entry: Entrypoint): seq<Posting<Token>> {
    match entry
    case InternalMintEntry(tokens) => MintCachePostings(ctx, s, tokens)
    case ExternalTransferEntry(externals) => Map(CachePosting, ExternalDebits(externals))
    case RetireEntry(retires) => Map(CachePosting, RetireDebits(retires))
    case _ => []
  }

  function InternalUpdates(entry: Entrypoint): seq<OperatorUpdate<Operator>> {
    if entry.UpdateInternalOperatorsEntry? then entry.updates else []
  }

  /** The operations of a successful call: all token transactions first, then the events, each in list order. */
  function EmittedOps(ctx: Context, s: Storage, entry: Entrypoint): seq<Operation> {
    match entry
    case InternalTransferEntry(transfers) => Map(TransferEvent, Moves(transfers))
    case InternalMintEntry(tokens) => Gather(MintOps(ctx, s), tokens)
    case ExternalTransferEntry(externals) => Map(TransferOp(ctx.self), externals)
    case RetireEntry(retires) => Map(RetireOp(ctx.self), retires) + Gather(RetireEvents(ctx.source), retires)
    case _ => []
  }

  lemma {:induction false} OperatorUpdatesApply(us: seq<OperatorUpdate<Operator>>, s: Storage)
    ensures Fold(UpdateInternalOperator, us, s) == Ok(s.(operators := UpdateAll(us, s.operators)))
  {
    if us == [] {
    } else {
      OperatorUpdatesApply(us[1..], s.(operators := UpdateOne(s.operators, us[0])));
    }
  }

  /** The calls reserved for the custodian of the moment. */
  predicate ForCustodian(entry: Entrypoint) {
    !entry.InternalTransferEntry? && !entry.RetireEntry?
  }

  /** A successful call posts its postings to the two maps, applies its operator updates, emits its operations,
      and passes the custodian's role on only when the custodian says so. */
  lemma MainEffect(ctx: Context, entry: Entrypoint, s: Storage)
    requires Main(ctx, entry, s).Ok?
    ensures var (ops, s') := Main(ctx, entry, s).value;
            && Post(INSUFFICIENT_BALANCE, ClientPostings(ctx, s, entry), s.ledger) == Ok(s'.ledger)
            && Post(INSUFFICIENT_BALANCE, CachePostings(ctx, s, entry), s.externalLedger) == Ok(s'.externalLedger)
            && s'.operators == UpdateAll(InternalUpdates(entry), s.operators)
            && ops == EmittedOps(ctx, s, entry)
            && (ForCustodian(entry) ==> ctx.sender == s.custodian)
            && s'.custodian == (if entry.UpdateCustodianEntry? then entry.newCustodian else s.custodian)
  {
    match entry
    case InternalTransferEntry(transfers) =>
      InternalTransferFlattens(ctx.sender, transfers, s);
      GuardedMoves(ctx.sender, Moves(transfers), s);
      TransferEvents(transfers);
    case InternalMintEntry(tokens) => MintEffect(ctx, tokens, s);
    case ExternalTransferEntry(externals) =>
      ExternalTransferFlattens(externals, s);
      WithdrawalsPost(ExternalDebits(externals), s);
      ForwardedTransfers(ctx, externals);
    case RetireEntry(retires) =>
      RetireFlattens(ctx.sender, retires, s);
      GuardedWithdrawals(ctx.sender, RetireDebits(retires), s);
      WithdrawalsPost(RetireDebits(retires), s);
      ForwardedRetires(ctx, retires);
      RetirementEvents(ctx.source, retires);
    case UpdateInternalOperatorsEntry(updates) => OperatorUpdatesApply(updates, s);
    case UpdateCustodianEntry(_) =>
  }

  /** Each token's client total and cached balance move together, in every entrypoint and for every batch. */
  lemma PostingsAgree(ctx: Context, s: Storage, entry: Entrypoint, t: Token)
    ensures NetIn(ClientPostings(ctx, s, entry), t) == Net(CachePostings(ctx, s, entry), t)
  {
    match entry
    case InternalTransferEntry(transfers) => MovesConserve(Moves(transfers), t);
    case InternalMintEntry(tokens) => MintNets(ctx, s, tokens, Holding(SELF, t));
    case ExternalTransferEntry(externals) => DebitsAgree(ExternalDebits(externals), t);
    case RetireEntry(retires) => DebitsAgree(RetireDebits(retires), t);
    case _ =>
  }

  /** Only tokens a view has found ever enter the cache. */
  lemma CacheStaysKnown(ctx: Context, entry: Entrypoint, s: Storage, t: Token)
    requires Sound(s) && Main(ctx, entry, s).Ok?
    requires t in Main(ctx, entry, s).value.1.externalLedger
    ensures t in s.externalLedger || t.tokenAddress in ctx.tokens
  {
    MainKeepsSound(ctx, entry, s);
    MainEffect(ctx, entry, s);
    PostExact(INSUFFICIENT_BALANCE, CachePostings(ctx, s, entry), s.externalLedger);
    match entry
    case InternalMintEntry(tokens) =>
      MintNets(ctx, s, tokens, Holding(SELF, t));
      MintEffect(ctx, tokens, s);
      if t !in tokens {
        UnlistedDoesNotGrow(ctx, s, tokens, t);
      }
    case ExternalTransferEntry(externals) => SumNonpositive(Map(CachePosting, ExternalDebits(externals)), t);
    case RetireEntry(retires) => SumNonpositive(Map(CachePosting, RetireDebits(retires)), t);
    case _ =>
  }

  /** Reconciliation: every call keeps the clients' balances of each token summing to its cached balance. */
  lemma MainKeepsSound(ctx: Context, entry: Entrypoint, s: Storage)
    requires Sound(s) && Main(ctx, entry, s).Ok?
    ensures Sound(Main(ctx, entry, s).value.1)
  {
    MainEffect(ctx, entry, s);
    var s' := Main(ctx, entry, s).value.1;
    var clientPs, cachePs := ClientPostings(ctx, s, entry), CachePostings(ctx, s, entry);
    forall t ensures NetIn(clientPs, t) == Net(cachePs, t) { PostingsAgree(ctx, s, entry, t); }
    PostedKeepsSound(clientPs, cachePs, s, s');
  }

  /** A client's balance falls only in a call by the custodian of the moment or by an operator of that
      client for that token id. */
  lemma MainSpends(ctx: Context, entry: Entrypoint, s: Storage, h: Owner)
    requires Main(ctx, entry, s).Ok?
    requires ViewBalanceOf(h, Main(ctx, entry, s).value.1) < ViewBalanceOf(h, s)
    ensures ctx.sender == s.custodian || Operator(h.owner, ctx.sender, h.item.tokenId) in s.operators
  {
    MainEffect(ctx, entry, s);
    PostExact(INSUFFICIENT_BALANCE, ClientPostings(ctx, s, entry), s.ledger);
    if ctx.sender != s.custodian {
      var p := NegativeNetHasDebit(ClientPostings(ctx, s, entry), h);
      if entry.InternalTransferEntry? {
        var mvs := Moves(entry.transfers);
        InternalTransferFlattens(ctx.sender, entry.transfers, s);
        GuardedMoves(ctx.sender, mvs, s);
        var mv := GatherOrigin(Entries, mvs, p);
      } else if entry.RetireEntry? {
        RetireFlattens(ctx.sender, entry.retires, s);
        GuardedWithdrawals(ctx.sender, RetireDebits(entry.retires), s);
      }
    }
  }

  // ---------- verdicts ----------

  /** When the custodian accepts a call: each entrypoint's condition, over its own parameter. */
  ghost predicate Accepts(ctx: Context, entry: Entrypoint, s: Storage) {
    match entry
    case InternalTransferEntry(transfers) =>
      TransferPermits(ctx.sender, transfers, s) && Covered(Moves(transfers), s.ledger)
    case InternalMintEntry(tokens) => ctx.sender == s.custodian && Mintable(ctx, s, tokens)
    case ExternalTransferEntry(externals) =>
      && ctx.sender == s.custodian && Payable(ExternalDebits(externals), s)
      && forall p <- externals :: p.tokenAddress in ctx.tokens
    case UpdateInternalOperatorsEntry(_) => ctx.sender == s.custodian
    case RetireEntry(retires) =>
      && RetirePermits(ctx.sender, retires, s) && Payable(RetireDebits(retires), s)
      && forall p <- retires :: p.tokenAddress in ctx.tokens
    case UpdateCustodianEntry(_) => ctx.sender == s.custodian
  }

  /** Which code a refused call carries: that of the missing role, of the first failing item, or of an
      unknown token contract. */
  ghost predicate Refuses(ctx: Context, entry: Entrypoint, s: Storage, failure: Failure) {
    match entry
    case InternalTransferEntry(transfers) => exists i :: MoveFailsFirst(ctx.sender, Moves(transfers), s, i, failure)
    case RetireEntry(retires) =>
      var ds := RetireDebits(retires);
      if RetirePermits(ctx.sender, retires, s) && Payable(ds, s) then failure == FailWith(ADDRESS_NOT_FOUND)
      else exists i :: DebitFailsFirst(ctx.sender, ds, s, i, failure)
    case InternalMintEntry(tokens) =>
      if ctx.sender != s.custodian then failure == FailWith(PERMISSIONS_DENIED)
      else exists i :: MintFailsFirst(ctx, s, tokens, i, failure)
    case ExternalTransferEntry(externals) =>
      failure == FailWith(
        if ctx.sender != s.custodian then PERMISSIONS_DENIED
        else if !Payable(ExternalDebits(externals), s) then INSUFFICIENT_BALANCE
        else ADDRESS_NOT_FOUND)
    case _ => failure == FailWith(PERMISSIONS_DENIED)
  }

  /** Dispatch and verdict of every entrypoint. */
  lemma MainExact(ctx: Context, entry: Entrypoint, s: Storage)
    requires Reconciled(s)
    ensures Main(ctx, entry, s).Ok? <==> Accepts(ctx, entry, s)
    ensures Main(ctx, entry, s).Err? ==> Refuses(ctx, entry, s, Main(ctx, entry, s).failure)
  {
    match entry
    case InternalTransferEntry(transfers) => InternalTransferExact(ctx, transfers, s);
    case InternalMintEntry(tokens) =>
      MintEffect(ctx, tokens, s);
      if InternalMint(ctx, tokens, s).Err? {
        MintFailure(ctx, tokens, s);
      }
    case ExternalTransferEntry(externals) => ExternalTransferExact(ctx, externals, s);
    case RetireEntry(retires) => RetireExact(ctx, retires, s);
    case UpdateInternalOperatorsEntry(updates) => OperatorUpdatesApply(updates, s);
    case UpdateCustodianEntry(_) =>
  }

  // ---------- the operations only spend what the custodian holds ----------

  /** An event, or a transaction that takes tokens from `self` alone. */
  ghost predicate Outgoing(self: Address, op: Operation) {
    match op
    case Emit(_) => true
    case Transaction(_, TransferEntry(batches)) => forall b <- batches :: b.from == self
    case Transaction(_, RetireEntry(txs)) => forall tx <- txs :: tx.retiringParty == self
    case _ => false
  }

  lemma ForwardedTransferIsOutgoing(self: Address, externals: seq<ExternalTransferTx>, op: Operation)
    requires op in Map(TransferOp(self), externals)
    ensures Outgoing(self, op) && exists p <- externals :: op.Transaction? && op.target == p.tokenAddress
  {
    var i :| 0 <= i < |externals| && op == TransferOp(self)(externals[i]);
    assert op == Transaction(externals[i].tokenAddress, FA2.TransferEntry(Map(SentBatch(self), externals[i].txnBatch)));
    assert externals[i] in externals;
  }

  lemma ForwardedRetireIsOutgoing(self: Address, retires: seq<InternalRetire>, op: Operation)
    requires op in Map(RetireOp(self), retires)
    ensures Outgoing(self, op) && exists p <- retires :: op.Transaction? && op.target == p.tokenAddress
  {
    var i :| 0 <= i < |retires| && op == RetireOp(self)(retires[i]);
    assert op == Transaction(retires[i].tokenAddress, FA2.RetireEntry(Map(RetireTxOf(self), retires[i].txs)));
    assert retires[i] in retires;
  }

  lemma EventsOnly(ctx: Context, s: Storage, entry: Entrypoint)
    requires entry.InternalTransferEntry? || entry.InternalMintEntry?
    ensures forall op <- EmittedOps(ctx, s, entry) :: op.Emit?
  {
    forall op <- EmittedOps(ctx, s, entry) ensures op.Emit? {
      if entry.InternalMintEntry? {
        var t := GatherOrigin(MintOps(ctx, s), entry.tokens, op);
      }
    }
  }

  lemma RetirementsAreEvents(source: Address, retires: seq<InternalRetire>)
    ensures forall op <- Gather(RetireEvents(source), retires) :: op.Emit?
  {
    forall op <- Gather(RetireEvents(source), retires) ensures op.Emit? {
      var p := GatherOrigin(RetireEvents(source), retires, op);
    }
  }

  lemma KnownTargets(ctx: Context, entry: Entrypoint, s: Storage)
    requires Main(ctx, entry, s).Ok?
    ensures entry.ExternalTransferEntry? ==> forall p <- entry.externals :: p.tokenAddress in ctx.tokens
    ensures entry.RetireEntry? ==> forall p <- entry.retires :: p.tokenAddress in ctx.tokens
  {
    if entry.ExternalTransferEntry? {
      ForwardedTransfers(ctx, entry.externals);
    } else if entry.RetireEntry? {
      ForwardedRetires(ctx, entry.retires);
    }
  }

  /** Every operation of a successful call takes from the custodian alone, at a known token contract. */
  lemma OpsAreOutgoing(ctx: Context, entry: Entrypoint, s: Storage, op: Operation)
    requires Main(ctx, entry, s).Ok? && op in EmittedOps(ctx, s, entry)
    ensures Outgoing(ctx.self, op)
    ensures op.Transaction? ==> op.target in ctx.tokens
  {
    KnownTargets(ctx, entry, s);
    if entry.ExternalTransferEntry? {
      ForwardedTransferIsOutgoing(ctx.self, entry.externals, op);
    } else if entry.RetireEntry? {
      if op in Map(RetireOp(ctx.self), entry.retires) {
        ForwardedRetireIsOutgoing(ctx.self, entry.retires, op);
      } else {
        RetirementsAreEvents(ctx.source, entry.retires);
      }
    } else if entry.InternalTransferEntry? || entry.InternalMintEntry? {
      EventsOnly(ctx, s, entry);
    }
  }

  /** A retirement event reports a debit the sender was permitted, and names the transaction's source. */
  lemma RetirementsArePermitted(ctx: Context, entry: Entrypoint, s: Storage, op: Operation)
    requires Main(ctx, entry, s).Ok? && op in EmittedOps(ctx, s, entry) && op.Emit? && op.event.CustodianRetired?
    ensures ctx.sender == s.custodian || Operator(op.event.kyc, ctx.sender, op.event.token.tokenId) in s.operators
    ensures op.event.retiringParty == ctx.source
  {
    if entry.InternalMintEntry? {
      var t := GatherOrigin(MintOps(ctx, s), entry.tokens, op);
    } else if entry.RetireEntry? {
      var retires := entry.retires;
      var p := GatherOrigin(RetireEvents(ctx.source), retires, op);
      var i :| 0 <= i < |p.txs| && op == RetireEvent(ctx.source, p.tokenAddress)(p.txs[i]);
      var d := RetireDebit(p.tokenAddress)(p.txs[i]);
      assert RetireBatchDebits(p)[i] == d;
      GatherContains(RetireBatchDebits, retires, p, d);
      RetireFlattens(ctx.sender, retires, s);
      GuardedWithdrawals(ctx.sender, RetireDebits(retires), s);
    }
  }
}
