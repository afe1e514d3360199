/** End to end: what a committed external transfer or retirement does to every holding at the token contracts. */
module Delivery {
  import opened Lists
  import opened Ledgers
  import opened Tezos
  import opened World
  import opened Backing
  import FA2
  import FA2Proofs
  import Custodian
  import CustodianProofs
  import CustodianEffects

  // ---------- what the caller asked to send ----------

  function ItemTo(holder: Address, id: nat): FA2.TransferTo -> int {
    (p: FA2.TransferTo) => if p.to == holder && p.tokenId == id then p.amount else 0
  }

  function BatchTo(holder: Address, id: nat): Custodian.ExternalTransferBatch -> int {
    (b: Custodian.ExternalTransferBatch) => Sum(ItemTo(holder, id), b.txs)
  }

  function TxTo(holder: Address, t: Token): Custodian.ExternalTransferTx -> int {
    (p: Custodian.ExternalTransferTx) =>
      if p.tokenAddress == t.tokenAddress then Sum(BatchTo(holder, t.tokenId), p.txnBatch) else 0
  }

  /** The amount of `t` an external transfer is asked to send to `holder`. */
  function Addressed(externals: seq<Custodian.ExternalTransferTx>, holder: Address, t: Token): int {
    Sum(TxTo(holder, t), externals)
  }

  // ---------- what the operations do ----------

  /** What one operation adds to a holding. */
  function OpNet(holder: Address, t: Token): Custodian.Operation -> int {
    (op: Custodian.Operation) =>
      if op.Transaction? && op.target == t.tokenAddress
      then Net(FA2Proofs.LedgerPostings(op.entry), Holding(holder, t.tokenId))
      else 0
  }

  lemma {:induction false} ExecuteAllShifts(w: World, self: Address, ops: seq<Custodian.Operation>,
      holder: Address, t: Token)
    requires Fold(Execute(self), ops, w).Ok?
    ensures Balance(Fold(Execute(self), ops, w).value, holder, t) == Balance(w, holder, t) + Sum(OpNet(holder, t), ops)
    decreases |ops|
  {
    if ops == [] {
    } else {
      var op := ops[0];
      if op.Transaction? {
        var s, ps := w.tokens[op.target], FA2Proofs.LedgerPostings(op.entry);
        FA2Proofs.MainEffect(self, op.entry, s);
        PostExact(FA2.INSUFFICIENT_BALANCE, ps, s.ledger);
      }
      ExecuteAllShifts(Execute(self)(w, op).value, self, ops[1..], holder, t);
    }
  }

  lemma InflowAsAddressed(self: Address, p: Custodian.ExternalTransferTx, holder: Address, id: nat)
    ensures Inflow(FA2Proofs.Moves(Map(CustodianProofs.SentBatch(self), p.txnBatch)), Holding(holder, id)) ==
            Sum(BatchTo(holder, id), p.txnBatch)
  {
    var h := Holding(holder, id);
    forall b <- p.txnBatch
      ensures BatchTo(holder, id)(b) == Sum(InflowOf(h), MovesOfBatch(self)(b))
    {
      assert CustodianProofs.SentBatch(self)(b) == FA2.TransferBatch(self, b.txs);
      SumMap(InflowOf(h), FA2Proofs.MoveFrom(self), ItemTo(holder, id), b.txs);
    }
    GatherMap(FA2Proofs.BatchMoves, CustodianProofs.SentBatch(self), MovesOfBatch(self), p.txnBatch);
    SumGather(InflowOf(h), MovesOfBatch(self), BatchTo(holder, id), p.txnBatch);
  }

  function TransferNet(self: Address, holder: Address, t: Token): Custodian.ExternalTransferTx -> int {
    (p: Custodian.ExternalTransferTx) => TxTo(holder, t)(p) - if holder == self then TxOwed(t)(p) else 0
  }

  lemma TransferOpNet(self: Address, p: Custodian.ExternalTransferTx, holder: Address, t: Token)
    ensures OpNet(holder, t)(CustodianProofs.TransferOp(self)(p)) == TransferNet(self, holder, t)(p)
  {
    var batches, h := Map(CustodianProofs.SentBatch(self), p.txnBatch), Holding(holder, t.tokenId);
    var mvs := FA2Proofs.Moves(batches);
    var op := CustodianProofs.TransferOp(self)(p);
    assert op == Custodian.Transaction(p.tokenAddress, FA2.TransferEntry(batches));
    TransferForwardsDebits(self, p, t);
    assert OpOutflow(self, t)(op) == TxOwed(t)(p);
    if p.tokenAddress == t.tokenAddress {
      assert OpOutflow(self, t)(op) == Outflow(mvs, Holding(self, t.tokenId));
      assert OpNet(holder, t)(op) == Net(MovePostings(mvs), h);
      MovesNet(mvs, h);
      InflowAsAddressed(self, p, holder, t.tokenId);
      if holder != self {
        MovesFromSelf(self, batches);
        NoOutflow(mvs, h);
      }
    }
  }

  lemma {:induction false} TransferNets(self: Address, externals: seq<Custodian.ExternalTransferTx>,
      holder: Address, t: Token)
    ensures Sum(TransferNet(self, holder, t), externals) ==
            Addressed(externals, holder, t) -
            if holder == self then CustodianProofs.OwedOf(CustodianProofs.ExternalDebits(externals), t) else 0
  {
    if externals == [] {
    } else {
      TransferNets(self, externals[1..], holder, t);
      SumAppend(CustodianProofs.OwedIn(t), CustodianProofs.ExternalTxDebits(externals[0]),
          CustodianProofs.ExternalDebits(externals[1..]));
    }
  }

  lemma TransferOpsNet(self: Address, externals: seq<Custodian.ExternalTransferTx>, holder: Address, t: Token)
    ensures Sum(OpNet(holder, t), Map(CustodianProofs.TransferOp(self), externals)) ==
            Addressed(externals, holder, t) -
            if holder == self then CustodianProofs.OwedOf(CustodianProofs.ExternalDebits(externals), t) else 0
  {
    forall p <- externals
      ensures TransferNet(self, holder, t)(p) == OpNet(holder, t)(CustodianProofs.TransferOp(self)(p))
    {
      TransferOpNet(self, p, holder, t);
    }
    SumMap(OpNet(holder, t), CustodianProofs.TransferOp(self), TransferNet(self, holder, t), externals);
    TransferNets(self, externals, holder, t);
  }

  /** A committed external transfer moves, token by token, exactly what it takes from the clients: every
      holder gains what is addressed to it, and the custodian gives up the clients' debits. */
  lemma ExternalTransferDelivers(w: World, call: Call, holder: Address, t: Token)
    requires Transact(w, call).Ok? && call.target.ToCustodian? && call.target.custodianEntry.ExternalTransferEntry?
    ensures var externals := call.target.custodianEntry.externals;
            Balance(Apply(w, call), holder, t) ==
            Balance(w, holder, t) + Addressed(externals, holder, t) -
            if holder == call.address
            then CustodianProofs.OwedOf(CustodianProofs.ExternalDebits(externals), t)
            else 0
  {
    var (ops, s) := RunCustodian(w, call).value;
    CustodianEffects.MainEffect(ContextOf(w, call), call.target.custodianEntry, w.custodians[call.address]);
    ExecuteAllShifts(Debited(w, call, s), call.address, ops, holder, t);
    assert Balance(Debited(w, call, s), holder, t) == Balance(w, holder, t);
    TransferOpsNet(call.address, call.target.custodianEntry.externals, holder, t);
  }

  // ---------- retirements ----------

  function RetireNet(self: Address, holder: Address, t: Token): Custodian.InternalRetire -> int {
    (p: Custodian.InternalRetire) => if holder == self then -RetireOwed(t)(p) else 0
  }

  lemma RetireOpNet(self: Address, p: Custodian.InternalRetire, holder: Address, t: Token)
    ensures OpNet(holder, t)(CustodianProofs.RetireOp(self)(p)) == RetireNet(self, holder, t)(p)
  {
    var txs := Map(CustodianProofs.RetireTxOf(self), p.txs);
    var op := CustodianProofs.RetireOp(self)(p);
    assert op == Custodian.Transaction(p.tokenAddress, FA2.RetireEntry(txs));
    RetireForwardsDebits(self, p, t);
    assert OpOutflow(self, t)(op) == RetireOwed(t)(p);
    if p.tokenAddress == t.tokenAddress {
      assert OpNet(holder, t)(op) == Net(Map(FA2Proofs.RetirePosting, txs), Holding(holder, t.tokenId));
    }
    if holder != self {
      RetiresFromSelf(self, txs, Holding(holder, t.tokenId));
    }
  }

  lemma {:induction false} RetireNets(self: Address, retires: seq<Custodian.InternalRetire>, holder: Address, t: Token)
    ensures Sum(RetireNet(self, holder, t), retires) ==
            if holder == self then -CustodianProofs.OwedOf(CustodianProofs.RetireDebits(retires), t) else 0
  {
    if retires == [] {
    } else {
      assert RetireNet(self, holder, t)(retires[0]) == if holder == self then -RetireOwed(t)(retires[0]) else 0;
      RetireNets(self, retires[1..], holder, t);
      var first, rest := CustodianProofs.RetireBatchDebits(retires[0]), CustodianProofs.RetireDebits(retires[1..]);
      SumAppend(CustodianProofs.OwedIn(t), first, rest);
    }
  }

  lemma {:induction false} EventsShiftNothing(ops: seq<Custodian.Operation>, holder: Address, t: Token)
    requires forall op <- ops :: op.Emit?
    ensures Sum(OpNet(holder, t), ops) == 0
  {
    if ops == [] {
    } else {
      assert ops[0].Emit?;
      EventsShiftNothing(ops[1..], holder, t);
    }
  }

  function RetireOps(self: Address, source: Address, retires: seq<Custodian.InternalRetire>): seq<Custodian.Operation> {
    Map(CustodianProofs.RetireOp(self), retires) + Gather(CustodianProofs.RetireEvents(source), retires)
  }

  lemma RetireOpsNet(
    self: Address, source: Address, retires: seq<Custodian.InternalRetire>, holder: Address, t: Token)
    ensures Sum(OpNet(holder, t), RetireOps(self, source, retires)) ==
            if holder == self then -CustodianProofs.OwedOf(CustodianProofs.RetireDebits(retires), t) else 0
  {
    var emits := Gather(CustodianProofs.RetireEvents(source), retires);
    SumAppend(OpNet(holder, t), Map(CustodianProofs.RetireOp(self), retires), emits);
    CustodianEffects.RetirementsAreEvents(source, retires);
    EventsShiftNothing(emits, holder, t);
    forall p <- retires
      ensures RetireNet(self, holder, t)(p) == OpNet(holder, t)(CustodianProofs.RetireOp(self)(p))
    {
      RetireOpNet(self, p, holder, t);
    }
    SumMap(OpNet(holder, t), CustodianProofs.RetireOp(self), RetireNet(self, holder, t), retires);
    RetireNets(self, retires, holder, t);
  }

  /** A committed custodian retirement destroys at the token contracts exactly the clients' debits: the
      custodian's holding falls by them and no other holding changes. */
  lemma RetirementDestroys(w: World, call: Call, holder: Address, t: Token)
    requires Transact(w, call).Ok? && call.target.ToCustodian? && call.target.custodianEntry.RetireEntry?
    ensures Balance(Apply(w, call), holder, t) ==
            Balance(w, holder, t) -
            if holder == call.address
            then CustodianProofs.OwedOf(CustodianProofs.RetireDebits(call.target.custodianEntry.retires), t)
            else 0
  {
    var (ops, s) := RunCustodian(w, call).value;
    CustodianEffects.MainEffect(ContextOf(w, call), call.target.custodianEntry, w.custodians[call.address]);
    ExecuteAllShifts(Debited(w, call, s), call.address, ops, holder, t);
    assert Balance(Debited(w, call, s), holder, t) == Balance(w, holder, t);
    RetireOpsNet(call.address, call.source, call.target.custodianEntry.retires, holder, t);
  }
}
