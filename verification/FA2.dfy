/** The token contract, `src/fa2.mligo`: storage, entrypoints and views. */
module FA2 {
  import opened Outcomes
  import opened Lists
  import opened Ledgers
  import opened Operators
  import opened Tezos

  type Owner = Holding<Address, nat>

  datatype Operator = Operator(tokenOwner: Address, tokenOperator: Address, tokenId: nat)

  datatype TokenMetadata = TokenMetadata(tokenId: nat, tokenInfo: map<string, Bytes>)

  datatype Storage = Storage(
    oracle: Address,
    ledger: map<Owner, nat>,
    operators: set<Operator>,
    tokenMetadata: map<nat, TokenMetadata>)

  datatype TransferTo = TransferTo(to: Address, tokenId: nat, amount: nat)

  datatype TransferBatch = TransferBatch(from: Address, txs: seq<TransferTo>)

  datatype MintData = MintData(owner: Address, tokenId: nat, qty: nat)

  datatype Entrypoint =
    | TransferEntry(batches: seq<TransferBatch>)
    | UpdateOperatorsEntry(updates: seq<OperatorUpdate<Operator>>)
    | MintEntry(mints: seq<MintData>)
    | RetireEntry(txs: seq<RetireTx>)
    | AddTokenIdEntry(metadata: seq<TokenMetadata>)
    | UpdateOracleEntry(newOracle: Address)

  /** The operations a modelled entrypoint returns are all emitted events. */
  type Output = Result<(seq<Event>, Storage)>

  const TOKEN_UNDEFINED: nat := 0
  const INSUFFICIENT_BALANCE: nat := 1
  const PERMISSIONS_DENIED: nat := 10
  const ID_ALREADY_IN_USE: nat := 11
  const COLLISION: nat := 12

  /** The sender owns the tokens or is an operator for them. */
  predicate MaySpend(sender: Address, owner: Address, tokenId: nat, operators: set<Operator>) {
    sender == owner || Operator(owner, sender, tokenId) in operators
  }

  // ---------- transfer ----------

  function TransferStep(sender: Address, from: Address): (Storage, TransferTo) -> Result<Storage> {
    (s: Storage, p: TransferTo) =>
      if !MaySpend(sender, from, p.tokenId, s.operators) then Err(FailWith(PERMISSIONS_DENIED))
      else
        var credited :- UpdateBalance(INSUFFICIENT_BALANCE, Holding(p.to, p.tokenId), p.amount, s.ledger);
        var ledger :- UpdateBalance(INSUFFICIENT_BALANCE, Holding(from, p.tokenId), -(p.amount as int), credited);
        Ok(s.(ledger := ledger))
  }

  function TransferBatchStep(sender: Address): (Storage, TransferBatch) -> Result<Storage> {
    (s: Storage, p: TransferBatch) => Fold(TransferStep(sender, p.from), p.txs, s)
  }

  function Transfer(sender: Address, batches: seq<TransferBatch>, storage: Storage): Output {
    var s :- Fold(TransferBatchStep(sender), batches, storage);
    Ok(([], s))
  }

  // ---------- update_operators ----------

  function OperatorStep(sender: Address): (Storage, OperatorUpdate<Operator>) -> Result<Storage> {
    (s: Storage, u: OperatorUpdate<Operator>) =>
      if sender != u.operator.tokenOwner then Err(FailWith(PERMISSIONS_DENIED))
      else if u.AddOperator? && u.operator.tokenOperator == u.operator.tokenOwner then Err(FailWith(COLLISION))
      else Ok(s.(operators := UpdateOne(s.operators, u)))
  }

  function UpdateOperators(sender: Address, updates: seq<OperatorUpdate<Operator>>, storage: Storage): Output {
    var s :- Fold(OperatorStep(sender), updates, storage);
    Ok(([], s))
  }

  // ---------- mint_tokens and retire_tokens ----------

  function MintStep(storage: Storage): (Storage, MintData) -> Result<Storage> {
    (s: Storage, p: MintData) =>
      if p.tokenId !in storage.tokenMetadata then Err(FailWith(TOKEN_UNDEFINED))
      else
        var ledger :- UpdateBalance(INSUFFICIENT_BALANCE, Holding(p.owner, p.tokenId), p.qty, s.ledger);
        Ok(storage.(ledger := ledger))
  }

  function MintTokens(sender: Address, mints: seq<MintData>, storage: Storage): Output {
    if sender != storage.oracle then Err(FailWith(PERMISSIONS_DENIED))
    else
      var s :- Fold(MintStep(storage), mints, storage);
      Ok(([], s))
  }

  function RetireStep(sender: Address, storage: Storage): (Storage, RetireTx) -> Result<Storage> {
    (s: Storage, p: RetireTx) =>
      if !MaySpend(sender, p.retiringParty, p.tokenId, s.operators) then Err(FailWith(PERMISSIONS_DENIED))
      else
        var ledger :- UpdateBalance(
          INSUFFICIENT_BALANCE, Holding(p.retiringParty, p.tokenId), -(p.amount as int), s.ledger);
        Ok(storage.(ledger := ledger))
  }

  function EmitRetired(tx: RetireTx): Event {
    TokenRetired(tx)
  }

  function RetireTokens(sender: Address, txs: seq<RetireTx>, storage: Storage): Output {
    var s :- Fold(RetireStep(sender, storage), txs, storage);
    Ok((Map(EmitRetired, txs), s))
  }

  // ---------- add_token_id and update_oracle ----------

  function AddTokenStep(s: Storage, d: TokenMetadata): Result<Storage> {
    if d.tokenId in s.tokenMetadata then Err(FailWith(ID_ALREADY_IN_USE))
    else Ok(s.(tokenMetadata := s.tokenMetadata[d.tokenId := d]))
  }

  function AddTokenId(sender: Address, metadata: seq<TokenMetadata>, storage: Storage): Output {
    if sender != storage.oracle then Err(FailWith(PERMISSIONS_DENIED))
    else
      var s :- Fold(AddTokenStep, metadata, storage);
      Ok(([], s))
  }

  function UpdateOracle(sender: Address, newOracle: Address, storage: Storage): Output {
    if sender != storage.oracle then Err(FailWith(PERMISSIONS_DENIED))
    else Ok(([], storage.(oracle := newOracle)))
  }

  // ---------- view and main ----------

  function ViewBalanceOf(owner: Owner, storage: Storage): nat {
    Get(storage.ledger, owner)
  }

  function Main(sender: Address, entry: Entrypoint, storage: Storage): Output {
    match entry
    case TransferEntry(batches) => Transfer(sender, batches, storage)
    case UpdateOperatorsEntry(updates) => UpdateOperators(sender, updates, storage)
    case MintEntry(mints) => MintTokens(sender, mints, storage)
    case RetireEntry(txs) => RetireTokens(sender, txs, storage)
    case AddTokenIdEntry(metadata) => AddTokenId(sender, metadata, storage)
    case UpdateOracleEntry(newOracle) => UpdateOracle(sender, newOracle, storage)
  }
}
