/** The custodian contract, `src/custodian.mligo`: storage, entrypoints and view. */
module Custodian {
  import opened Outcomes
  import opened Lists
  import opened Ledgers
  import opened Operators
  import opened Tezos
  import FA2

  type Owner = Holding<Bytes, Token>

  /** Keyed by the token id alone: the token's contract address plays no part. */
  datatype Operator = Operator(tokenOwner: Bytes, tokenOperator: Address, tokenId: nat)

  datatype Storage = Storage(
    custodian: Address,
    ledger: map<Owner, nat>,
    externalLedger: map<Token, nat>,
    operators: set<Operator>)

  datatype InternalTransferTo = InternalTransferTo(to: Bytes, tokenId: nat, amount: nat)

  datatype InternalTransferBatch = InternalTransferBatch(from: Bytes, tokenAddress: Address,
      txs: seq<InternalTransferTo>)

  datatype ExternalTransferBatch = ExternalTransferBatch(from: Bytes, txs: seq<FA2.TransferTo>)

  datatype ExternalTransferTx = ExternalTransferTx(tokenAddress: Address, txnBatch: seq<ExternalTransferBatch>)

  datatype InternalRetireData = InternalRetireData(kyc: Bytes, tokenId: nat, amount: nat, retiringData: Bytes)

  datatype InternalRetire = InternalRetire(tokenAddress: Address, txs: seq<InternalRetireData>)

  /** What `internal_mint` finds for one listed token; also the payload of its event. */
  datatype MintUpdate = MintUpdate(token: Token, diff: int, newTotal: nat)

  datatype Entrypoint =
    | InternalTransferEntry(transfers: seq<InternalTransferBatch>)
    | InternalMintEntry(tokens: seq<Token>)
    | ExternalTransferEntry(externals: seq<ExternalTransferTx>)
    | UpdateInternalOperatorsEntry(updates: seq<OperatorUpdate<Operator>>)
    | RetireEntry(retires: seq<InternalRetire>)
    | UpdateCustodianEntry(newCustodian: Address)

  datatype Operation = Emit(event: Event) | Transaction(target: Address, entry: FA2.Entrypoint)

  type Output = Result<(seq<Operation>, Storage)>

  /** What the chain tells the running contract: `get_sender`, `get_source`, `get_self_address`, and
      the token contracts that views and entrypoint lookups can find. */
  datatype Context = Context(sender: Address, source: Address, self: Address, tokens: map<Address, FA2.Storage>)

  const PERMISSIONS_DENIED: nat := 0
  const ADDRESS_NOT_FOUND: nat := 1
  const INSUFFICIENT_BALANCE: nat := 2
  const CALL_VIEW_FAILED: nat := 3

  predicate MaySpend(sender: Address, kyc: Bytes, tokenId: nat, storage: Storage) {
    sender == storage.custodian || Operator(kyc, sender, tokenId) in storage.operators
  }

  // ---------- internal_transfer ----------

  function InternalTransferStep(sender: Address, transfer: InternalTransferBatch)
    : (Storage, InternalTransferTo) -> Result<Storage>
  {
    (s: Storage, p: InternalTransferTo) =>
      if !MaySpend(sender, transfer.from, p.tokenId, s) then Err(FailWith(PERMISSIONS_DENIED))
      else
        var token := Token(transfer.tokenAddress, p.tokenId);
        var credited :- UpdateBalance(INSUFFICIENT_BALANCE, Holding(p.to, token), p.amount, s.ledger);
        var ledger :- UpdateBalance(INSUFFICIENT_BALANCE, Holding(transfer.from, token), -(p.amount as int), credited);
        Ok(s.(ledger := ledger))
  }

  function InternalTransferBatchStep(sender: Address): (Storage, InternalTransferBatch) -> Result<Storage> {
    (s: Storage, transfer: InternalTransferBatch) => Fold(InternalTransferStep(sender, transfer), transfer.txs, s)
  }

  function EmitTransferred(transfer: InternalTransferBatch): InternalTransferTo -> Operation {
    (p: InternalTransferTo) =>
      Emit(InternallyTransferred(transfer.from, p.to, Token(transfer.tokenAddress, p.tokenId), p.amount))
  }

  function EmitTransfers(transfer: InternalTransferBatch): seq<Operation> {
    Map(EmitTransferred(transfer), transfer.txs)
  }

  function InternalTransfer(ctx: Context, transfers: seq<InternalTransferBatch>, storage: Storage): Output {
    var s :- Fold(InternalTransferBatchStep(ctx.sender), transfers, storage);
    Ok((FlatMap(EmitTransfers, transfers), s))
  }

  // ---------- internal_mint ----------

  /** The diff of one listed token, always against the storage the call started with. */
  function FindMint(ctx: Context, storage: Storage): Token -> Result<MintUpdate> {
    (token: Token) =>
      if token.tokenAddress !in ctx.tokens then Err(FailWith(CALL_VIEW_FAILED))
      else
        var external := FA2.ViewBalanceOf(Holding(ctx.self, token.tokenId), ctx.tokens[token.tokenAddress]);
        var diff := external - Get(storage.externalLedger, token);
        if diff < 0 then Err(FailWith(INSUFFICIENT_BALANCE))
        else Ok(MintUpdate(token, diff, external))
  }

  function MintStep(s: Storage, update: MintUpdate): Result<Storage> {
    var ledger :- UpdateBalance(INSUFFICIENT_BALANCE, Holding(SELF, update.token), update.diff, s.ledger);
    var externalLedger :- UpdateBalance(INSUFFICIENT_BALANCE, update.token, update.diff, s.externalLedger);
    Ok(s.(ledger := ledger, externalLedger := externalLedger))
  }

  function EmitMinted(update: MintUpdate): Option<Operation> {
    if update.diff != 0 then Some(Emit(InternallyMinted(update.token, update.diff, update.newTotal))) else None
  }

  function InternalMint(ctx: Context, tokens: seq<Token>, storage: Storage): Output {
    if ctx.sender != storage.custodian then Err(FailWith(PERMISSIONS_DENIED))
    else
      var updates :- Traverse(FindMint(ctx, storage), tokens);
      var s :- Fold(MintStep, updates, storage);
      Ok((FilterMap(EmitMinted, updates), s))
  }

  // ---------- debits: external_transfer and retire ----------

  function Withdraw(s: Storage, kyc: Bytes, token: Token, amount: nat): Result<Storage> {
    var ledger :- UpdateBalance(INSUFFICIENT_BALANCE, Holding(kyc, token), -(amount as int), s.ledger);
    var externalLedger :- UpdateBalance(INSUFFICIENT_BALANCE, token, -(amount as int), s.externalLedger);
    Ok(s.(ledger := ledger, externalLedger := externalLedger))
  }

  function ExternalTransferStep(tokenAddress: Address, from: Bytes): (Storage, FA2.TransferTo) -> Result<Storage> {
    (s: Storage, p: FA2.TransferTo) => Withdraw(s, from, Token(tokenAddress, p.tokenId), p.amount)
  }

  function ExternalTransferBatchStep(tokenAddress: Address): (Storage, ExternalTransferBatch) -> Result<Storage> {
    (s: Storage, p: ExternalTransferBatch) => Fold(ExternalTransferStep(tokenAddress, p.from), p.txs, s)
  }

  function ExternalTransferTxStep(s: Storage, p: ExternalTransferTx): Result<Storage> {
    Fold(ExternalTransferBatchStep(p.tokenAddress), p.txnBatch, s)
  }

  function FromSelf(self: Address): ExternalTransferBatch -> FA2.TransferBatch {
    (p: ExternalTransferBatch) => FA2.TransferBatch(self, p.txs)
  }

  function ForwardTransfer(ctx: Context): ExternalTransferTx -> Result<Operation> {
    (p: ExternalTransferTx) =>
      if p.tokenAddress !in ctx.tokens then Err(FailWith(ADDRESS_NOT_FOUND))
      else Ok(Transaction(p.tokenAddress, FA2.TransferEntry(Map(FromSelf(ctx.self), p.txnBatch))))
  }

  function ExternalTransfer(ctx: Context, externals: seq<ExternalTransferTx>, storage: Storage): Output {
    if ctx.sender != storage.custodian then Err(FailWith(PERMISSIONS_DENIED))
    else
      var s :- Fold(ExternalTransferTxStep, externals, storage);
      var ops :- Traverse(ForwardTransfer(ctx), externals);
      Ok((ops, s))
  }

  function RetireStep(sender: Address, tokenAddress: Address): (Storage, InternalRetireData) -> Result<Storage> {
    (s: Storage, p: InternalRetireData) =>
      if !MaySpend(sender, p.kyc, p.tokenId, s) then Err(FailWith(PERMISSIONS_DENIED))
      else Withdraw(s, p.kyc, Token(tokenAddress, p.tokenId), p.amount)
  }

  function RetireBatchStep(sender: Address): (Storage, InternalRetire) -> Result<Storage> {
    (s: Storage, p: InternalRetire) => Fold(RetireStep(sender, p.tokenAddress), p.txs, s)
  }

  function RetireFromSelf(self: Address): InternalRetireData -> RetireTx {
    (p: InternalRetireData) => RetireTx(self, p.tokenId, p.amount, p.retiringData)
  }

  function ForwardRetire(ctx: Context): InternalRetire -> Result<Operation> {
    (p: InternalRetire) =>
      if p.tokenAddress !in ctx.tokens then Err(FailWith(ADDRESS_NOT_FOUND))
      else Ok(Transaction(p.tokenAddress, FA2.RetireEntry(Map(RetireFromSelf(ctx.self), p.txs))))
  }

  function EmitRetirement(source: Address, tokenAddress: Address): InternalRetireData -> Operation {
    (p: InternalRetireData) =>
      Emit(CustodianRetired(source, p.kyc, Token(tokenAddress, p.tokenId), p.amount, p.retiringData))
  }

  function EmitRetirements(source: Address): InternalRetire -> seq<Operation> {
    (p: InternalRetire) => Map(EmitRetirement(source, p.tokenAddress), p.txs)
  }

  function Retire(ctx: Context, retires: seq<InternalRetire>, storage: Storage): Output {
    var s :- Fold(RetireBatchStep(ctx.sender), retires, storage);
    var ops :- Traverse(ForwardRetire(ctx), retires);
    Ok((Concat(ops, FlatMap(EmitRetirements(ctx.source), retires)), s))
  }

  // ---------- administration ----------

  function UpdateInternalOperator(s: Storage, u: OperatorUpdate<Operator>): Result<Storage> {
    Ok(s.(operators := UpdateOne(s.operators, u)))
  }

  function UpdateInternalOperators(ctx: Context, updates: seq<OperatorUpdate<Operator>>, storage: Storage): Output {
    if ctx.sender != storage.custodian then Err(FailWith(PERMISSIONS_DENIED))
    else
      var s :- Fold(UpdateInternalOperator, updates, storage);
      Ok(([], s))
  }

  function UpdateCustodian(ctx: Context, newCustodian: Address, storage: Storage): Output {
    if ctx.sender != storage.custodian then Err(FailWith(PERMISSIONS_DENIED))
    else Ok(([], storage.(custodian := newCustodian)))
  }

  // ---------- view and main ----------

  function ViewBalanceOf(owner: Owner, storage: Storage): nat {
    Get(storage.ledger, owner)
  }

  function Main(ctx: Context, entry: Entrypoint, storage: Storage): Output {
    match entry
    case InternalTransferEntry(transfers) => InternalTransfer(ctx, transfers, storage)
    case InternalMintEntry(tokens) => InternalMint(ctx, tokens, storage)
    case ExternalTransferEntry(externals) => ExternalTransfer(ctx, externals, storage)
    case UpdateInternalOperatorsEntry(updates) => UpdateInternalOperators(ctx, updates, storage)
    case RetireEntry(retires) => Retire(ctx, retires, storage)
    case UpdateCustodianEntry(newCustodian) => UpdateCustodian(ctx, newCustodian, storage)
  }
}
