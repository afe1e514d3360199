/** The custodians' cached balances are backed by the token contracts, and forwarded operations never bounce. */
module Backing {
  import opened Outcomes
  import opened Lists
  import opened Ledgers
  import opened Tezos
  import opened World
  import FA2
  import FA2Proofs
  import Custodian
  import CustodianProofs
  import CustodianEffects
  import MintProofs

  /** What the token's contract says `holder` owns. */
  function Balance(w: World, holder: Address, t: Token): nat {
    if t.tokenAddress in w.tokens
    then FA2.ViewBalanceOf(Holding(holder, t.tokenId), w.tokens[t.tokenAddress])
    else 0
  }

  /** No custodian's cache claims more than the token contract holds for it. */
  ghost predicate Backed(w: World) {
    forall c, t :: c in w.custodians ==> Get(w.custodians[c].externalLedger, t) <= Balance(w, c, t)
  }

  // ---------- what pending operations will take ----------

  function OpOutflow(self: Address, t: Token): Custodian.Operation -> int {
    (op: Custodian.Operation) =>
      if !op.Transaction? || op.target != t.tokenAddress then 0
      else
        match op.entry
        case TransferEntry(batches) => Outflow(FA2Proofs.Moves(batches), Holding(self, t.tokenId))
        case RetireEntry(txs) => -Net(Map(FA2Proofs.RetirePosting, txs), Holding(self, t.tokenId))
        case _ => 0
  }

  /** The total of token `t` that the operations still to run will take from `self`. */
  function Pending(ops: seq<Custodian.Operation>, self: Address, t: Token): int {
    Sum(OpOutflow(self, t), ops)
  }

  lemma OutflowNonnegative(self: Address, t: Token, op: Custodian.Operation)
    ensures OpOutflow(self, t)(op) >= 0
  {
    if op.Transaction? && op.entry.TransferEntry? {
      SumNonnegative(OutflowOf(Holding(self, t.tokenId)), FA2Proofs.Moves(op.entry.batches));
    } else if op.Transaction? && op.entry.RetireEntry? {
      SumNonpositive(Map(FA2Proofs.RetirePosting, op.entry.txs), Holding(self, t.tokenId));
    }
  }

  lemma PendingNonnegative(ops: seq<Custodian.Operation>, self: Address, t: Token)
    ensures Pending(ops, self, t) >= 0
  {
    forall op <- ops ensures OpOutflow(self, t)(op) >= 0 { OutflowNonnegative(self, t, op); }
    SumNonnegative(OpOutflow(self, t), ops);
  }

  /** The pending-outflow invariant: each operation takes from `self` alone at a known token contract, and
      the cached balance of every token plus all that is still pending against it is really there. */
  ghost predicate Covering(w: World, self: Address, ops: seq<Custodian.Operation>) {
    && self in w.custodians
    && (forall op <- ops :: CustodianEffects.Outgoing(self, op) && (op.Transaction? ==> op.target in w.tokens))
    && (forall t :: Get(w.custodians[self].externalLedger, t) + Pending(ops, self, t) <= Balance(w, self, t))
  }

  /** Everyone but `self` holds at least as much as before. */
  ghost predicate OthersKeep(w: World, self: Address, w': World) {
    forall holder, t :: holder != self ==> Balance(w', holder, t) >= Balance(w, holder, t)
  }

  // ---------- one operation ----------

  lemma MovesFromSelf(self: Address, batches: seq<FA2.TransferBatch>)
    requires forall b <- batches :: b.from == self
    ensures forall mv <- FA2Proofs.Moves(batches) :: mv.from == self
  {
    forall mv <- FA2Proofs.Moves(batches)
      ensures mv.from == self
    {
      var b := GatherOrigin(FA2Proofs.BatchMoves, batches, mv);
    }
  }

  /** A token contract accepts an outgoing operation that its sender can pay, takes no more than the
      operation says, and takes nothing from anybody else. */
  lemma OutgoingAccepted(self: Address, op: Custodian.Operation, s: FA2.Storage)
    requires op.Transaction? && CustodianEffects.Outgoing(self, op)
    requires forall id :: OpOutflow(self, Token(op.target, id))(op) <= Get(s.ledger, Holding(self, id))
    ensures FA2.Main(self, op.entry, s).Ok?
    ensures var s' := FA2.Main(self, op.entry, s).value.1;
            && (forall id :: Get(s'.ledger, Holding(self, id)) >=
                             Get(s.ledger, Holding(self, id)) - OpOutflow(self, Token(op.target, id))(op))
            && (forall h: FA2.Owner :: h.owner != self ==> Get(s'.ledger, h) >= Get(s.ledger, h))
  {
    match op.entry
    case TransferEntry(batches) =>
      var mvs := FA2Proofs.Moves(batches);
      MovesFromSelf(self, batches);
      forall id ensures Outflow(mvs, Holding(self, id)) <= Get(s.ledger, Holding(self, id)) {
        assert OpOutflow(self, Token(op.target, id))(op) == Outflow(mvs, Holding(self, id));
      }
      OutgoingMoves(FA2.INSUFFICIENT_BALANCE, mvs, self, s.ledger);
      FA2Proofs.TransferFlattens(self, batches, s);
      FA2Proofs.GuardedMoves(self, mvs, s);
    case RetireEntry(txs) =>
      var ps := Map(FA2Proofs.RetirePosting, txs);
      forall h: FA2.Owner
        ensures Get(s.ledger, h) + Net(ps, h) >= 0
        ensures h.owner != self ==> Net(ps, h) == 0
      {
        if h.owner == self {
          assert OpOutflow(self, Token(op.target, h.item))(op) == -Net(ps, h);
        } else {
          RetiresFromSelf(self, txs, h);
        }
      }
      FA2Proofs.RetireExact(self, txs, s);
      forall id ensures OpOutflow(self, Token(op.target, id))(op) == -Net(ps, Holding(self, id)) {}
  }

  lemma {:induction false} RetiresFromSelf(self: Address, txs: seq<RetireTx>, h: FA2.Owner)
    requires h.owner != self && forall tx <- txs :: tx.retiringParty == self
    ensures Net(Map(FA2Proofs.RetirePosting, txs), h) == 0
  {
    if txs == [] {
    } else {
      assert Map(FA2Proofs.RetirePosting, txs)[1..] == Map(FA2Proofs.RetirePosting, txs[1..]);
      RetiresFromSelf(self, txs[1..], h);
    }
  }

  lemma ExecuteCovered(w: World, self: Address, op: Custodian.Operation, rest: seq<Custodian.Operation>)
    requires Covering(w, self, [op] + rest)
    ensures Execute(self)(w, op).Ok?
    ensures var w' := Execute(self)(w, op).value;
            Covering(w', self, rest) && OthersKeep(w, self, w') && w'.custodians == w.custodians
  {
    assert ([op] + rest)[0] == op && ([op] + rest)[1..] == rest;
    forall t
      ensures Pending([op] + rest, self, t) == OpOutflow(self, t)(op) + Pending(rest, self, t)
      ensures Pending(rest, self, t) >= 0
    {
      PendingNonnegative(rest, self, t);
    }
    if op.Transaction? {
      var s := w.tokens[op.target];
      forall id
        ensures OpOutflow(self, Token(op.target, id))(op) <= Get(s.ledger, Holding(self, id))
      {
        var t := Token(op.target, id);
        assert Get(w.custodians[self].externalLedger, t) + Pending([op] + rest, self, t) <= Balance(w, self, t);
      }
      OutgoingAccepted(self, op, s);
      var w' := Execute(self)(w, op).value;
      forall t
        ensures Get(w'.custodians[self].externalLedger, t) + Pending(rest, self, t) <= Balance(w', self, t)
      {
        assert Get(w.custodians[self].externalLedger, t) + Pending([op] + rest, self, t) <= Balance(w, self, t);
        assert t == Token(t.tokenAddress, t.tokenId);
      }
    } else {
      var w' := Execute(self)(w, op).value;
      forall t
        ensures Get(w'.custodians[self].externalLedger, t) + Pending(rest, self, t) <= Balance(w', self, t)
      {
        assert Get(w.custodians[self].externalLedger, t) + Pending([op] + rest, self, t) <= Balance(w, self, t);
      }
    }
  }

  // ---------- the whole list, one at a time ----------

  /** After any number of the operations has run, none has failed and the invariant covers the rest. */
  lemma {:induction false} PendingOutflow(w: World, self: Address, ops: seq<Custodian.Operation>, done: nat)
    requires Covering(w, self, ops) && done <= |ops|
    ensures Fold(Execute(self), ops[..done], w).Ok?
    ensures var w' := Fold(Execute(self), ops[..done], w).value;
            Covering(w', self, ops[done..]) && OthersKeep(w, self, w') && w'.custodians == w.custodians
    decreases done
  {
    if done == 0 {
      assert ops[done..] == ops;
    } else {
      var op, rest := ops[0], ops[1..];
      assert ops == [op] + rest;
      ExecuteCovered(w, self, op, rest);
      var m := Execute(self)(w, op).value;
      PendingOutflow(m, self, rest, done - 1);
      assert ops[..done][1..] == rest[..done - 1] && ops[done..] == rest[done - 1..];
      var w' := Fold(Execute(self), rest[..done - 1], m).value;
      forall holder, t | holder != self
        ensures Balance(w', holder, t) >= Balance(w, holder, t)
      {
        assert Balance(w', holder, t) >= Balance(m, holder, t) >= Balance(w, holder, t);
      }
    }
  }

  // ---------- what a custodian call reserves ----------

  function TxAmount(id: nat): FA2.TransferTo -> int {
    (p: FA2.TransferTo) => if p.tokenId == id then p.amount else 0
  }

  function BatchAmount(id: nat): Custodian.ExternalTransferBatch -> int {
    (b: Custodian.ExternalTransferBatch) => Sum(TxAmount(id), b.txs)
  }

  function MovesOfBatch(self: Address): Custodian.ExternalTransferBatch -> seq<Move<Address, nat>> {
    (b: Custodian.ExternalTransferBatch) => FA2Proofs.BatchMoves(CustodianProofs.SentBatch(self)(b))
  }

  /** A forwarded transfer takes from the custodian what the custodian took from its clients. */
  lemma TransferForwardsDebits(self: Address, p: Custodian.ExternalTransferTx, t: Token)
    ensures OpOutflow(self, t)(CustodianProofs.TransferOp(self)(p)) ==
            CustodianProofs.OwedOf(CustodianProofs.ExternalTxDebits(p), t)
  {
    var h := Holding(self, t.tokenId);
    var debits := CustodianProofs.ExternalBatchDebits(p.tokenAddress);
    if p.tokenAddress == t.tokenAddress {
      assert t == Token(p.tokenAddress, t.tokenId);
      forall b <- p.txnBatch
        ensures BatchAmount(t.tokenId)(b) == Sum(OutflowOf(h), MovesOfBatch(self)(b))
        ensures BatchAmount(t.tokenId)(b) == Sum(CustodianProofs.OwedIn(t), debits(b))
      {
        assert CustodianProofs.SentBatch(self)(b) == FA2.TransferBatch(self, b.txs);
        SumMap(OutflowOf(h), FA2Proofs.MoveFrom(self), TxAmount(t.tokenId), b.txs);
        var toDebit := CustodianProofs.ExternalDebit(p.tokenAddress, b.from);
        SumMap(CustodianProofs.OwedIn(t), toDebit, TxAmount(t.tokenId), b.txs);
      }
      GatherMap(FA2Proofs.BatchMoves, CustodianProofs.SentBatch(self), MovesOfBatch(self), p.txnBatch);
      SumGather(OutflowOf(h), MovesOfBatch(self), BatchAmount(t.tokenId), p.txnBatch);
      SumGather(CustodianProofs.OwedIn(t), debits, BatchAmount(t.tokenId), p.txnBatch);
    } else {
      forall d <- CustodianProofs.ExternalTxDebits(p)
        ensures d.token != t
      {
        var b := GatherOrigin(debits, p.txnBatch, d);
      }
      CustodianProofs.OwesNothing(CustodianProofs.ExternalTxDebits(p), t);
    }
  }

  lemma {:induction false} RetireForwardsTxs(self: Address, tokenAddress: Address,
      txs: seq<Custodian.InternalRetireData>, id: nat)
    ensures -Net(Map(FA2Proofs.RetirePosting, Map(CustodianProofs.RetireTxOf(self), txs)), Holding(self, id)) ==
            CustodianProofs.OwedOf(Map(CustodianProofs.RetireDebit(tokenAddress), txs), Token(tokenAddress, id))
  {
    if txs == [] {
    } else {
      var forwarded, debits := Map(CustodianProofs.RetireTxOf(self), txs),
          Map(CustodianProofs.RetireDebit(tokenAddress), txs);
      assert forwarded[1..] == Map(CustodianProofs.RetireTxOf(self), txs[1..]);
      assert Map(FA2Proofs.RetirePosting, forwarded)[1..] == Map(FA2Proofs.RetirePosting, forwarded[1..]);
      assert debits[1..] == Map(CustodianProofs.RetireDebit(tokenAddress), txs[1..]);
      RetireForwardsTxs(self, tokenAddress, txs[1..], id);
    }
  }

  /** A forwarded retirement takes from the custodian what the custodian took from its clients. */
  lemma RetireForwardsDebits(self: Address, p: Custodian.InternalRetire, t: Token)
    ensures OpOutflow(self, t)(CustodianProofs.RetireOp(self)(p)) ==
            CustodianProofs.OwedOf(CustodianProofs.RetireBatchDebits(p), t)
  {
    if p.tokenAddress == t.tokenAddress {
      assert t == Token(p.tokenAddress, t.tokenId);
      RetireForwardsTxs(self, p.tokenAddress, p.txs, t.tokenId);
    } else {
      assert forall d <- CustodianProofs.RetireBatchDebits(p) :: d.token != t;
      CustodianProofs.OwesNothing(CustodianProofs.RetireBatchDebits(p), t);
    }
  }

  lemma {:induction false} EventsTakeNothing(ops: seq<Custodian.Operation>, self: Address, t: Token)
    requires forall op <- ops :: op.Emit?
    ensures Pending(ops, self, t) == 0
  {
    if ops == [] {
    } else {
      assert ops[0].Emit?;
      EventsTakeNothing(ops[1..], self, t);
    }
  }

  function TxOwed(t: Token): Custodian.ExternalTransferTx -> int {
    (p: Custodian.ExternalTransferTx) => CustodianProofs.OwedOf(CustodianProofs.ExternalTxDebits(p), t)
  }

  function RetireOwed(t: Token): Custodian.InternalRetire -> int {
    (p: Custodian.InternalRetire) => CustodianProofs.OwedOf(CustodianProofs.RetireBatchDebits(p), t)
  }

  /** Apart from minting, a call leaves cached balance plus pending outflow of every token as the cache was. */
  lemma CallReserves(ctx: Custodian.Context, entry: Custodian.Entrypoint, s: Custodian.Storage, t: Token)
    requires Custodian.Main(ctx, entry, s).Ok?
    ensures var (ops, s') := Custodian.Main(ctx, entry, s).value;
            && (!entry.InternalMintEntry? ==>
                  Get(s'.externalLedger, t) + Pending(ops, ctx.self, t) == Get(s.externalLedger, t))
            && (entry.InternalMintEntry? ==> Pending(ops, ctx.self, t) == 0)
  {
    CustodianEffects.MainEffect(ctx, entry, s);
    PostExact(Custodian.INSUFFICIENT_BALANCE, CustodianEffects.CachePostings(ctx, s, entry), s.externalLedger);
    var self := ctx.self;
    var ops := CustodianEffects.EmittedOps(ctx, s, entry);
    match entry
    case ExternalTransferEntry(externals) =>
      forall p <- externals ensures TxOwed(t)(p) == OpOutflow(self, t)(CustodianProofs.TransferOp(self)(p)) {
        TransferForwardsDebits(self, p, t);
      }
      SumMap(OpOutflow(self, t), CustodianProofs.TransferOp(self), TxOwed(t), externals);
      SumGather(CustodianProofs.OwedIn(t), CustodianProofs.ExternalTxDebits, TxOwed(t), externals);
      CustodianProofs.CacheNet(CustodianProofs.ExternalDebits(externals), t);
    case RetireEntry(retires) =>
      forall p <- retires ensures RetireOwed(t)(p) == OpOutflow(self, t)(CustodianProofs.RetireOp(self)(p)) {
        RetireForwardsDebits(self, p, t);
      }
      SumMap(OpOutflow(self, t), CustodianProofs.RetireOp(self), RetireOwed(t), retires);
      SumGather(CustodianProofs.OwedIn(t), CustodianProofs.RetireBatchDebits, RetireOwed(t), retires);
      CustodianProofs.CacheNet(CustodianProofs.RetireDebits(retires), t);
      var emits := Gather(CustodianProofs.RetireEvents(ctx.source), retires);
      SumAppend(OpOutflow(self, t), Map(CustodianProofs.RetireOp(self), retires), emits);
      CustodianEffects.RetirementsAreEvents(ctx.source, retires);
      EventsTakeNothing(emits, self, t);
    case InternalTransferEntry(_) =>
      CustodianEffects.EventsOnly(ctx, s, entry);
      EventsTakeNothing(ops, self, t);
    case InternalMintEntry(_) =>
      CustodianEffects.EventsOnly(ctx, s, entry);
      EventsTakeNothing(ops, self, t);
    case _ =>
  }

  // ---------- no bounce ----------

  /** Events alone never fail and touch no contract. */
  lemma {:induction false} EventsExecute(w: World, self: Address, ops: seq<Custodian.Operation>)
    requires forall op <- ops :: op.Emit?
    ensures Fold(Execute(self), ops, w).Ok?
    ensures var w' := Fold(Execute(self), ops, w).value; w'.tokens == w.tokens && w'.custodians == w.custodians
    decreases |ops|
  {
    if ops == [] {
    } else {
      EventsExecute(Execute(self)(w, ops[0]).value, self, ops[1..]);
    }
  }

  lemma DebitedCovers(w: World, call: Call)
    requires Sound(w) && Backed(w)
    requires call.target.ToCustodian? && call.address in w.custodians && RunCustodian(w, call).Ok?
    requires !call.target.custodianEntry.InternalMintEntry?
    ensures var (ops, s) := RunCustodian(w, call).value; Covering(Debited(w, call, s), call.address, ops)
  {
    DebitedKeepsSound(w, call);
    var (ops, s) := RunCustodian(w, call).value;
    var w' := Debited(w, call, s);
    forall t
      ensures Get(w'.custodians[call.address].externalLedger, t) + Pending(ops, call.address, t) <=
          Balance(w', call.address, t)
    {
      CallReserves(ContextOf(w, call), call.target.custodianEntry, w.custodians[call.address], t);
      assert Balance(w', call.address, t) == Balance(w, call.address, t);
    }
  }

  /** From a sound and backed world, a custodian call that succeeds inside the custodian commits as a
      whole: no forwarded transfer or retirement is refused. */
  lemma NoBounce(w: World, call: Call)
    requires Sound(w) && Backed(w)
    requires !IsContract(w, call.sender) && call.target.ToCustodian? && call.address in w.custodians
    ensures Transact(w, call).Ok? <==> RunCustodian(w, call).Ok?
  {
    if RunCustodian(w, call).Ok? {
      var (ops, s) := RunCustodian(w, call).value;
      if call.target.custodianEntry.InternalMintEntry? {
        CustodianEffects.MainEffect(ContextOf(w, call), call.target.custodianEntry, w.custodians[call.address]);
        CustodianEffects.EventsOnly(ContextOf(w, call), w.custodians[call.address], call.target.custodianEntry);
        EventsExecute(Debited(w, call, s), call.address, ops);
      } else {
        DebitedCovers(w, call);
        PendingOutflow(Debited(w, call, s), call.address, ops, |ops|);
        assert ops[..|ops|] == ops;
      }
    }
  }

  function OneRetirement(kyc: Bytes, t: Token, amount: nat, data: Bytes): Custodian.Entrypoint {
    Custodian.RetireEntry([Custodian.InternalRetire(t.tokenAddress, [Custodian.InternalRetireData(kyc, t.tokenId,
        amount, data)])])
  }

  lemma OneRetirementForwards(ctx: Custodian.Context, kyc: Bytes, t: Token, amount: nat, data: Bytes,
      s: Custodian.Storage)
    requires CustodianProofs.Reconciled(s) && ctx.sender == s.custodian && t.tokenAddress in ctx.tokens
    requires amount <= Get(s.ledger, Holding(kyc, t))
    ensures var r := Custodian.Main(ctx, OneRetirement(kyc, t, amount, data), s);
            && r.Ok? && |r.value.0| > 0
            && r.value.0[0] == Custodian.Transaction(
                 t.tokenAddress, FA2.RetireEntry([RetireTx(ctx.self, t.tokenId, amount, data)]))
  {
    var retires := OneRetirement(kyc, t, amount, data).retires;
    var d := CustodianProofs.Debit(kyc, t, amount);
    GatherOne(CustodianProofs.RetireBatchDebits, retires[0]);
    assert CustodianProofs.RetireDebits(retires) == [d];
    forall h ensures CustodianProofs.Owed([d], h) ==
        CustodianProofs.OwedBy(h)(d) { SumOne(CustodianProofs.OwedBy(h), d); }
    CustodianProofs.RetireExact(ctx, retires, s);
    CustodianEffects.MainEffect(ctx, OneRetirement(kyc, t, amount, data), s);
    assert Map(CustodianProofs.RetireOp(ctx.self), retires)[0] == CustodianProofs.RetireOp(ctx.self)(retires[0]);
    assert Map(CustodianProofs.RetireTxOf(ctx.self), retires[0].txs) == [RetireTx(ctx.self, t.tokenId, amount, data)];
  }

  lemma OverdrawnRetirementRefused(self: Address, tx: RetireTx, s: FA2.Storage)
    requires tx.retiringParty == self && Get(s.ledger, Holding(self, tx.tokenId)) < tx.amount
    ensures FA2.Main(self, FA2.RetireEntry([tx]), s) == Err(FailWith(FA2.INSUFFICIENT_BALANCE))
  {
    FoldOne(FA2.RetireStep(self, s), tx, s);
  }

  /** Why backing matters: where a client's balance exceeds what the token contract holds, the custodian's
      retirement of that balance passes inside the custodian, is refused by the token contract, and reverts. */
  lemma OverstatedRetirementBounces(w: World, call: Call, kyc: Bytes, t: Token, amount: nat, data: Bytes)
    requires Sound(w) && !IsContract(w, call.sender) && call.address in w.custodians && t.tokenAddress in w.tokens
    requires call.sender == w.custodians[call.address].custodian
    requires call.target == ToCustodian(OneRetirement(kyc, t, amount, data))
    requires Balance(w, call.address, t) < amount <= Get(w.custodians[call.address].ledger, Holding(kyc, t))
    ensures RunCustodian(w, call).Ok?
    ensures Transact(w, call) == Err(FailWith(FA2.INSUFFICIENT_BALANCE))
  {
    OneRetirementForwards(ContextOf(w, call), kyc, t, amount, data, w.custodians[call.address]);
    OverdrawnRetirementRefused(call.address, RetireTx(call.address, t.tokenId, amount, data), w.tokens[t.tokenAddress]);
    var (ops, s) := RunCustodian(w, call).value;
    assert Execute(call.address)(Debited(w, call, s), ops[0]) == Err(FailWith(FA2.INSUFFICIENT_BALANCE));
  }

  // ---------- backing over runs ----------

  /** The call does not commit an `internal_mint` whose batch counts some growth twice. */
  ghost predicate Disciplined(w: World, call: Call) {
    call.target.ToCustodian? && call.target.custodianEntry.InternalMintEntry? && Transact(w, call).Ok? ==>
      MintProofs.Synchronising(ContextOf(w, call), w.custodians[call.address], call.target.custodianEntry.tokens)
  }

  /** Outside calls to token contracts cannot lower a custodian's balance. */
  lemma TokenCallKeepsBacking(w: World, call: Call)
    requires Sound(w) && Backed(w) && call.target.ToToken? && Transact(w, call).Ok?
    ensures Backed(Apply(w, call))
  {
    var w' := Apply(w, call);
    forall c, t | c in w'.custodians
      ensures Get(w'.custodians[c].externalLedger, t) <= Balance(w', c, t)
    {
      assert Get(w.custodians[c].externalLedger, t) <= Balance(w, c, t);
      if t.tokenAddress == call.address && Balance(w', c, t) < Balance(w, c, t) {
        FA2Proofs.MainSpends(call.sender, call.target.tokenEntry, w.tokens[call.address], Holding(c, t.tokenId));
        assert false;
      }
    }
  }

  lemma ForwardingKeepsBacking(w: World, call: Call)
    requires Sound(w) && Backed(w) && Transact(w, call).Ok?
    requires call.target.ToCustodian? && !call.target.custodianEntry.InternalMintEntry?
    ensures Backed(Apply(w, call))
  {
    var (ops, s) := RunCustodian(w, call).value;
    var m, w' := Debited(w, call, s), Apply(w, call);
    DebitedCovers(w, call);
    PendingOutflow(m, call.address, ops, |ops|);
    assert ops[..|ops|] == ops;
    forall c, t | c in w'.custodians
      ensures Get(w'.custodians[c].externalLedger, t) <= Balance(w', c, t)
    {
      assert Balance(m, c, t) == Balance(w, c, t);
      if c == call.address {
        PendingNonnegative(ops[|ops|..], c, t);
      } else {
        assert Get(w.custodians[c].externalLedger, t) <= Balance(w, c, t);
      }
    }
  }

  lemma MintCommits(w: World, call: Call)
    requires Transact(w, call).Ok? && call.target.ToCustodian? && call.target.custodianEntry.InternalMintEntry?
    ensures Apply(w, call).tokens == w.tokens
    ensures Apply(w, call).custodians == w.custodians[call.address := RunCustodian(w, call).value.1]
  {
    var ctx, s := ContextOf(w, call), w.custodians[call.address];
    var (ops, s') := RunCustodian(w, call).value;
    CustodianEffects.MainEffect(ctx, call.target.custodianEntry, s);
    CustodianEffects.EventsOnly(ctx, s, call.target.custodianEntry);
    EventsExecute(Debited(w, call, s'), call.address, ops);
  }

  /** The cache after a mint stays within the viewed balances exactly for synchronising batches. */
  lemma MintStaysCovered(ctx: Custodian.Context, tokens: seq<Token>, s: Custodian.Storage)
    requires Custodian.InternalMint(ctx, tokens, s).Ok?
    requires forall t :: Get(s.externalLedger, t) <= MintProofs.Viewed(ctx, t)
    ensures var s' := Custodian.InternalMint(ctx, tokens, s).value.1;
            (forall t :: Get(s'.externalLedger, t) <= MintProofs.Viewed(ctx, t)) <==>
            MintProofs.Synchronising(ctx, s, tokens)
  {
    var s' := Custodian.InternalMint(ctx, tokens, s).value.1;
    MintProofs.MintSynchronises(ctx, tokens, s);
    forall t | t !in tokens
      ensures Get(s'.externalLedger, t) <= MintProofs.Viewed(ctx, t)
    {
      MintProofs.MintShifts(ctx, tokens, s);
      MintProofs.UnlistedDoesNotGrow(ctx, s, tokens, t);
    }
  }

  lemma MintingBacks(w: World, call: Call)
    requires Sound(w) && Backed(w) && Transact(w, call).Ok?
    requires call.target.ToCustodian? && call.target.custodianEntry.InternalMintEntry?
    ensures Backed(Apply(w, call)) <==> Disciplined(w, call)
  {
    var c, ctx, w' := call.address, ContextOf(w, call), Apply(w, call);
    var s, s' := w.custodians[c], RunCustodian(w, call).value.1;
    MintCommits(w, call);
    assert forall t :: MintProofs.Viewed(ctx, t) == Balance(w, c, t) == Balance(w', c, t);
    assert forall t :: Get(s.externalLedger, t) <= Balance(w, c, t);
    MintStaysCovered(ctx, call.target.custodianEntry.tokens, s);
    if forall t :: Get(s'.externalLedger, t) <= MintProofs.Viewed(ctx, t) {
      forall d, t | d in w'.custodians
        ensures Get(w'.custodians[d].externalLedger, t) <= Balance(w', d, t)
      {
        if d != c {
          assert Get(w.custodians[d].externalLedger, t) <= Balance(w, d, t) == Balance(w', d, t);
        }
      }
    } else {
      var t :| !(Get(s'.externalLedger, t) <= MintProofs.Viewed(ctx, t));
      assert !(Get(w'.custodians[c].externalLedger, t) <= Balance(w', c, t));
    }
  }

  /** One step: a backed world stays backed exactly when the call is disciplined. */
  lemma StepBacks(w: World, call: Call)
    requires Sound(w) && Backed(w)
    ensures Backed(Apply(w, call)) <==> Disciplined(w, call)
  {
    if Transact(w, call).Ok? {
      if call.target.ToToken? {
        TokenCallKeepsBacking(w, call);
      } else if call.target.custodianEntry.InternalMintEntry? {
        MintingBacks(w, call);
      } else {
        ForwardingKeepsBacking(w, call);
      }
    }
  }

  /** Backed at the start and after each call of the run. */
  ghost predicate BackedThroughout(w: World, calls: seq<Call>) {
    Backed(Run(w, calls)) && (calls != [] ==> BackedThroughout(w, calls[..|calls| - 1]))
  }

  /** Each call of the run is disciplined in the world it reaches. */
  ghost predicate DisciplinedThroughout(w: World, calls: seq<Call>) {
    calls != [] ==>
      && Disciplined(Run(w, calls[..|calls| - 1]), calls[|calls| - 1])
      && DisciplinedThroughout(w, calls[..|calls| - 1])
  }

  /** Backing over all runs, exactly: every world along a run is backed if and only if every committed
      `internal_mint` of the run was given a synchronising batch. */
  lemma {:induction false} RunBacks(w: World, calls: seq<Call>)
    requires Genesis(w)
    ensures BackedThroughout(w, calls) <==> DisciplinedThroughout(w, calls)
  {
    if calls == [] {
    } else {
      var init, last := calls[..|calls| - 1], calls[|calls| - 1];
      RunBacks(w, init);
      RunIsSound(w, init);
      if BackedThroughout(w, init) {
        StepBacks(Run(w, init), last);
      }
    }
  }

  ghost predicate DuplicateFree(call: Call) {
    call.target.ToCustodian? && call.target.custodianEntry.InternalMintEntry? ==>
      forall t <- call.target.custodianEntry.tokens :: multiset(call.target.custodianEntry.tokens)[t] == 1
  }

  lemma {:induction false} DuplicateFreeIsDisciplined(w: World, calls: seq<Call>)
    requires forall call <- calls :: DuplicateFree(call)
    ensures DisciplinedThroughout(w, calls)
  {
    if calls == [] {
    } else {
      assert DuplicateFree(calls[|calls| - 1]);
      DuplicateFreeIsDisciplined(w, calls[..|calls| - 1]);
    }
  }

  /** In particular, while every `internal_mint` lists each token once, every reachable custodian's client
      balances sum, token by token, to its cached balance, which its token contract covers. */
  lemma DuplicateFreeRunsAreBacked(w: World, calls: seq<Call>)
    requires Genesis(w) && forall call <- calls :: DuplicateFree(call)
    ensures var w' := Run(w, calls);
            forall c, t :: c in w'.custodians ==>
              Total(w'.custodians[c].ledger, t) == Get(w'.custodians[c].externalLedger, t) <= Balance(w', c, t)
  {
    DuplicateFreeIsDisciplined(w, calls);
    RunBacks(w, calls);
    RunIsSound(w, calls);
  }

  /** No bounce over runs: in every world a disciplined run reaches, a custodian call commits as a whole
      exactly when the custodian itself accepts it. */
  lemma RunsDoNotBounce(w: World, calls: seq<Call>, next: Call)
    requires Genesis(w) && DisciplinedThroughout(w, calls)
    requires !IsContract(w, next.sender) && next.target.ToCustodian? && next.address in w.custodians
    ensures var w' := Run(w, calls);
            next.address in w'.custodians && (Transact(w', next).Ok? <==> RunCustodian(w', next).Ok?)
  {
    RunBacks(w, calls);
    RunIsSound(w, calls);
    NoBounce(Run(w, calls), next);
  }

  /** In a backed world the custodian's own `internal_mint` of viewable tokens always succeeds: its
      insufficient-balance branch is unreachable. */
  lemma MintNeverShort(w: World, call: Call)
    requires Sound(w) && Backed(w)
    requires !IsContract(w, call.sender) && call.target.ToCustodian? && call.address in w.custodians
    requires call.target.custodianEntry.InternalMintEntry?
    ensures Transact(w, call).Ok? <==>
            && call.sender == w.custodians[call.address].custodian
            && forall t <- call.target.custodianEntry.tokens :: t.tokenAddress in w.tokens
    ensures Transact(w, call) != Err(FailWith(Custodian.INSUFFICIENT_BALANCE))
  {
    NoBounce(w, call);
    var ctx, s := ContextOf(w, call), w.custodians[call.address];
    var tokens := call.target.custodianEntry.tokens;
    MintProofs.MintEffect(ctx, tokens, s);
    forall t
      ensures MintProofs.Diff(ctx, s, t) >= 0
    {
      assert Get(s.externalLedger, t) <= Balance(w, call.address, t);
    }
    if Custodian.InternalMint(ctx, tokens, s).Err? {
      MintProofs.MintFailure(ctx, tokens, s);
    }
  }
}
