/** Who can lower whose balance, over any run. */
module Delegation {
  import opened Lists
  import opened Ledgers
  import opened Operators
  import opened Tezos
  import opened World
  import opened Backing
  import opened Journal
  import opened TokenHistory
  import opened Roles
  import FA2
  import FA2Proofs
  import Custodian
  import CustodianEffects

  // ---------- holdings at the token contracts ----------

  /** An outgoing operation takes from its sender alone, even where others have named it their operator. */
  lemma OutgoingSpares(self: Address, op: Custodian.Operation, s: FA2.Storage, h: FA2.Owner)
    requires op.Transaction? && CustodianEffects.Outgoing(self, op) && h.owner != self
    requires FA2.Main(self, op.entry, s).Ok?
    ensures Get(FA2.Main(self, op.entry, s).value.1.ledger, h) >= Get(s.ledger, h)
  {
    var ps := FA2Proofs.LedgerPostings(op.entry);
    FA2Proofs.MainEffect(self, op.entry, s);
    PostExact(FA2.INSUFFICIENT_BALANCE, ps, s.ledger);
    if Net(ps, h) < 0 {
      var p := NegativeNetHasDebit(ps, h);
      if op.entry.TransferEntry? {
        MovesFromSelf(self, op.entry.batches);
        var mv := GatherOrigin(Entries, FA2Proofs.Moves(op.entry.batches), p);
      }
      assert false;
    }
  }

  lemma {:induction false} ExecuteAllSpares(w: World, self: Address, ops: seq<Custodian.Operation>,
      holder: Address, t: Token)
    requires Fold(Execute(self), ops, w).Ok? && holder != self
    requires forall op <- ops :: CustodianEffects.Outgoing(self, op)
    ensures Balance(Fold(Execute(self), ops, w).value, holder, t) >= Balance(w, holder, t)
    decreases |ops|
  {
    if ops == [] {
    } else {
      var op := ops[0];
      if op.Transaction? && op.target == t.tokenAddress {
        OutgoingSpares(self, op, w.tokens[op.target], Holding(holder, t.tokenId));
      }
      ExecuteAllSpares(Execute(self)(w, op).value, self, ops[1..], holder, t);
    }
  }

  /** A holding falls only in a call to its token contract by the owner or an operator the owner named for
      that token, or, for a custodian's holdings, in a call to that custodian. */
  lemma HoldingFalls(w: World, call: Call, holder: Address, t: Token)
    requires Sound(w) && Balance(Apply(w, call), holder, t) < Balance(w, holder, t)
    ensures || (&& call.target.ToToken? && call.address == t.tokenAddress && call.address in w.tokens
                && (call.sender == holder ||
                    FA2.Operator(holder, call.sender, t.tokenId) in w.tokens[call.address].operators))
            || (call.target.ToCustodian? && call.address == holder && holder in w.custodians)
    ensures holder in w.custodians ==> call.target.ToCustodian? && call.address == holder
  {
    if call.target.ToToken? {
      assert call.address == t.tokenAddress;
      FA2Proofs.MainSpends(call.sender, call.target.tokenEntry, w.tokens[call.address], Holding(holder, t.tokenId));
    } else if call.address != holder {
      var (ops, s) := RunCustodian(w, call).value;
      DebitedKeepsSound(w, call);
      ExecuteAllSpares(Debited(w, call, s), call.address, ops, holder, t);
    }
  }

  /** Over runs: a holding falls only in a call to its token contract by its owner, or by an address whose
      last committed update as that owner's operator for that very id was an addition, or, for a
      custodian's holdings, in a call to that custodian. */
  lemma OnlyDelegatesSpend(w: World, calls: seq<Call>, next: Call, holder: Address, t: Token)
    requires Genesis(w) && t.tokenAddress in w.tokens
    ensures var now := Run(w, calls);
            var us := Gather(UpdatesBy, History(now, t.tokenAddress));
            Balance(Apply(now, next), holder, t) < Balance(now, holder, t) ==>
              || (&& next.target.ToToken? && next.address == t.tokenAddress
                  && (next.sender == holder || LastAdded(us, FA2.Operator(holder, next.sender, t.tokenId))))
              || (next.target.ToCustodian? && next.address == holder && holder in w.custodians)
  {
    var now := Run(w, calls);
    RunIsSound(w, calls);
    if Balance(Apply(now, next), holder, t) < Balance(now, holder, t) {
      HoldingFalls(now, next, holder, t);
      OperatorsAreLastAdded(w, calls, t.tokenAddress, FA2.Operator(holder, next.sender, t.tokenId));
    }
  }

  /** Only the custodian spends its holdings: over any run no token contract has an operator for a
      custodian's tokens, and only calls to the custodian itself lower what it holds. */
  lemma OnlyTheCustodianSpends(w: World, calls: seq<Call>, next: Call, c: Address, t: Token)
    requires Genesis(w) && c in w.custodians
    ensures var w' := Run(w, calls);
            && (forall a, o :: a in w'.tokens && o in w'.tokens[a].operators ==> o.tokenOwner != c)
            && (Balance(Apply(w', next), c, t) < Balance(w', c, t) ==> next.target.ToCustodian? && next.address == c)
  {
    var w' := Run(w, calls);
    RunIsSound(w, calls);
    if Balance(Apply(w', next), c, t) < Balance(w', c, t) {
      HoldingFalls(w', next, c, t);
    }
  }

  // ---------- client balances at a custodian ----------

  /** A client's balance falls only in a call to its custodian by the custodian of that moment, or by an
      operator of the client for that token id. */
  lemma ClientBalanceFalls(w: World, call: Call, c: Address, h: Custodian.Owner)
    requires c in w.custodians && c in Apply(w, call).custodians
    requires Custodian.ViewBalanceOf(h, Apply(w, call).custodians[c]) < Custodian.ViewBalanceOf(h, w.custodians[c])
    ensures call.target.ToCustodian? && call.address == c
    ensures || call.sender == w.custodians[c].custodian
            || Custodian.Operator(h.owner, call.sender, h.item.tokenId) in w.custodians[c].operators
  {
    assert Transact(w, call).Ok?;
    TransactLogs(w, call);
    CustodianEffects.MainSpends(ContextOf(w, call), call.target.custodianEntry, w.custodians[c], h);
  }

  function UpdatesTo(c: Address): Record -> seq<OperatorUpdate<Custodian.Operator>> {
    (r: Record) =>
      if r.CustodianRecord? && r.custodian == c then CustodianEffects.InternalUpdates(r.custodianEntry) else []
  }

  lemma NewUpdates(w: World, call: Call, c: Address)
    requires Transact(w, call).Ok?
    ensures Gather(UpdatesTo(c), NewCalls(w, call)) ==
            if call.target.ToCustodian? && call.address == c
            then CustodianEffects.InternalUpdates(call.target.custodianEntry) else []
  {
    var forwarded := Gather(OpRecords(Executor(call)), OpsOf(w, call));
    forall r <- forwarded
      ensures UpdatesTo(c)(r) == []
    {
      var op := GatherOrigin(OpRecords(Executor(call)), OpsOf(w, call), r);
    }
    GatherNothing(UpdatesTo(c), forwarded);
    if call.target.ToCustodian? {
      var r := CustodianRecord(call.sender, call.address, call.target.custodianEntry);
      GatherAppend(UpdatesTo(c), [r], forwarded);
      GatherOne(UpdatesTo(c), r);
    } else {
      assert NewCalls(w, call) == forwarded;
    }
  }

  lemma {:induction false} OperatorsReplay(w: World, calls: seq<Call>, c: Address)
    requires Genesis(w) && c in w.custodians
    ensures var w' := Run(w, calls);
            c in w'.custodians && w'.custodians[c].operators == UpdateAll(Gather(UpdatesTo(c), w'.calls), {})
  {
    if calls == [] {
    } else {
      var m, call := Run(w, calls[..|calls| - 1]), calls[|calls| - 1];
      OperatorsReplay(w, calls[..|calls| - 1], c);
      if Transact(m, call).Ok? {
        TransactLogs(m, call);
        NewUpdates(m, call, c);
        GatherAppend(UpdatesTo(c), m.calls, NewCalls(m, call));
        UpdateAllAppend(Gather(UpdatesTo(c), m.calls), Gather(UpdatesTo(c), NewCalls(m, call)), {});
        if call.target.ToCustodian? && call.address == c {
          CustodianEffects.MainEffect(ContextOf(m, call), call.target.custodianEntry, m.custodians[c]);
        }
      }
    }
  }

  /** A triple is a custodian operator exactly when the last committed update naming it was an addition. */
  lemma InternalOperatorsAreLastAdded(w: World, calls: seq<Call>, c: Address, o: Custodian.Operator)
    requires Genesis(w) && c in w.custodians
    ensures var w' := Run(w, calls);
            && c in w'.custodians
            && (o in w'.custodians[c].operators <==> LastAdded(Gather(UpdatesTo(c), w'.calls), o))
  {
    OperatorsReplay(w, calls, c);
    LastUpdateDecides(Gather(UpdatesTo(c), Run(w, calls).calls), {}, o);
  }

  /** By the record: `sender` is the custodian last named for `c`, or the operator of `kyc` for `tokenId`. */
  ghost predicate ClientAllows(origin: World, w: World, c: Address, sender: Address, kyc: Bytes, tokenId: nat)
    requires c in origin.custodians
  {
    || sender == Holder(origin.custodians[c].custodian, Gather(NamedCustodian(c), w.calls))
    || LastAdded(Gather(UpdatesTo(c), w.calls), Custodian.Operator(kyc, sender, tokenId))
  }

  /** Over runs: a client's balance falls only in a call to its custodian by whoever the last committed
      `update_custodian` named, or by an address whose last committed update as that client's operator for
      that very token id was an addition. */
  lemma OnlyClientDelegatesSpend(w: World, calls: seq<Call>, next: Call, c: Address, h: Custodian.Owner)
    requires Genesis(w) && c in w.custodians
    ensures var now := Run(w, calls);
            && c in now.custodians && c in Apply(now, next).custodians
            && (Custodian.ViewBalanceOf(h, Apply(now, next).custodians[c]) <
                Custodian.ViewBalanceOf(h, now.custodians[c]) ==>
                  && next.target.ToCustodian? && next.address == c
                  && ClientAllows(w, now, c, next.sender, h.owner, h.item.tokenId))
  {
    var now := Run(w, calls);
    RunIsSound(w, calls);
    ApplyKeepsSound(now, next);
    CustodianIsLastNamed(w, calls, c);
    InternalOperatorsAreLastAdded(w, calls, c, Custodian.Operator(h.owner, next.sender, h.item.tokenId));
    if Custodian.ViewBalanceOf(h, Apply(now, next).custodians[c]) < Custodian.ViewBalanceOf(h, now.custodians[c]) {
      ClientBalanceFalls(now, next, c, h);
    }
  }

  // ---------- retirements in the log ----------

  /** Every retirement a custodian has logged was permitted: it belongs to a committed call of the run to
      that custodian, whose sender was by the record of that moment the custodian or the client's operator
      for that token id, and it names that call's source. */
  lemma {:induction false} RetirementWasPermitted(w: World, calls: seq<Call>, c: Address, e: Emission) returns (k: nat)
    requires Genesis(w) && c in w.custodians
    requires e in Run(w, calls).events && e.emitter == c && e.event.CustodianRetired?
    ensures k < |calls|
    ensures var m, call := Run(w, calls[..k]), calls[k];
            && Transact(m, call).Ok? && call.target.ToCustodian? && call.address == c && c in m.custodians
            && e in NewEvents(m, call)
            && ClientAllows(w, m, c, call.sender, e.event.kyc, e.event.token.tokenId)
            && e.event.retiringParty == call.source
  {
    var n := |calls| - 1;
    var m, call := Run(w, calls[..n]), calls[n];
    RunIsSound(w, calls[..n]);
    if e in m.events {
      k := RetirementWasPermitted(w, calls[..n], c, e);
      assert calls[..n][..k] == calls[..k];
    } else {
      k := n;
      TransactLogs(m, call);
      NewRetirement(m, call, c, e);
      CustodianIsLastNamed(w, calls[..n], c);
      InternalOperatorsAreLastAdded(
        w, calls[..n], c, Custodian.Operator(e.event.kyc, call.sender, e.event.token.tokenId));
    }
  }

  lemma NewRetirement(w: World, call: Call, c: Address, e: Emission)
    requires Sound(w) && Transact(w, call).Ok? && c in w.custodians
    requires e in NewEvents(w, call) && e.emitter == c && e.event.CustodianRetired?
    ensures call.target.ToCustodian? && call.address == c
    ensures || call.sender == w.custodians[c].custodian
            || Custodian.Operator(e.event.kyc, call.sender, e.event.token.tokenId) in w.custodians[c].operators
    ensures e.event.retiringParty == call.source
  {
    var op := GatherOrigin(OpEmissions(Executor(call)), OpsOf(w, call), e);
    if op.Emit? {
      CustodianEffects.RetirementsArePermitted(
        ContextOf(w, call), call.target.custodianEntry, w.custodians[call.address], op);
    }
  }
}
