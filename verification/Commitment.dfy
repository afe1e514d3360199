/** Exactly when a call the custodian accepts commits as a whole, and what a custodian can always pay. */
module Commitment {
  import opened Outcomes
  import opened Lists
  import opened Ledgers
  import opened Tezos
  import opened World
  import opened Backing
  import opened Delivery
  import FA2
  import FA2Proofs
  import Custodian
  import CustodianProofs
  import CustodianEffects
  import MintProofs

  // ---------- a list of outgoing operations, exactly ----------

  /** What one operation posts to the ledger of token contract `a`. */
  function PostingsTo(a: Address): Custodian.Operation -> seq<Posting<FA2.Owner>> {
    (op: Custodian.Operation) =>
      if op.Transaction? && op.target == a then FA2Proofs.LedgerPostings(op.entry) else []
  }

  function PostOps(a: Address, ops: seq<Custodian.Operation>, ledger: map<FA2.Owner, nat>)
    : Result<map<FA2.Owner, nat>>
  {
    Post(FA2.INSUFFICIENT_BALANCE, Gather(PostingsTo(a), ops), ledger)
  }

  /** Every token contract can post all that the operations have for it. */
  ghost predicate AllPost(w: World, ops: seq<Custodian.Operation>) {
    forall a :: a in w.tokens ==> PostOps(a, ops, w.tokens[a].ledger).Ok?
  }

  /** An outgoing operation needs no permission: funds alone decide, and lack of them is the failure. */
  lemma OutgoingExact(self: Address, op: Custodian.Operation, s: FA2.Storage)
    requires op.Transaction? && CustodianEffects.Outgoing(self, op)
    ensures FA2.Main(self, op.entry, s).Ok? <==>
            Post(FA2.INSUFFICIENT_BALANCE, FA2Proofs.LedgerPostings(op.entry), s.ledger).Ok?
    ensures FA2.Main(self, op.entry, s).Err? ==> FA2.Main(self, op.entry, s) == Err(FailWith(FA2.INSUFFICIENT_BALANCE))
  {
    match op.entry
    case TransferEntry(batches) =>
      MovesFromSelf(self, batches);
      FA2Proofs.TransferExact(self, batches, s);
      MovesExact(FA2.INSUFFICIENT_BALANCE, FA2Proofs.Moves(batches), s.ledger);
    case RetireEntry(txs) =>
      FA2Proofs.RetireExact(self, txs, s);
      FA2Proofs.RetirePayable(txs, s);
  }

  lemma PostFirst(a: Address, op: Custodian.Operation, rest: seq<Custodian.Operation>, ledger: map<FA2.Owner, nat>)
    ensures PostOps(a, [op] + rest, ledger) ==
            match PostOps(a, [op], ledger) {
              case Ok(ledger') => PostOps(a, rest, ledger')
              case Err(e) => Err(e)
            }
  {
    GatherAppend(PostingsTo(a), [op], rest);
    PostAppend(FA2.INSUFFICIENT_BALANCE, Gather(PostingsTo(a), [op]), Gather(PostingsTo(a), rest), ledger);
  }

  /** One outgoing operation posts to every token contract what it has for it, and fails exactly where its
      target cannot. */
  lemma ExecuteOne(w: World, self: Address, op: Custodian.Operation, a: Address)
    requires CustodianEffects.Outgoing(self, op) && (op.Transaction? ==> op.target in w.tokens) && a in w.tokens
    ensures var r := Execute(self)(w, op);
            && (r.Ok? ==> a in r.value.tokens && PostOps(a, [op], w.tokens[a].ledger) == Ok(r.value.tokens[a].ledger))
            && (r.Ok? ==> r.value.tokens.Keys == w.tokens.Keys)
            && (r.Err? ==> op.Transaction? && r == Err(FailWith(FA2.INSUFFICIENT_BALANCE)))
            && (r.Err? && op.target == a ==> PostOps(a, [op], w.tokens[a].ledger).Err?)
  {
    GatherOne(PostingsTo(a), op);
    if op.Transaction? {
      OutgoingExact(self, op, w.tokens[op.target]);
      if Execute(self)(w, op).Ok? {
        FA2Proofs.MainEffect(self, op.entry, w.tokens[op.target]);
      }
    }
  }

  lemma ExecuteFirst(w: World, self: Address, op: Custodian.Operation, rest: seq<Custodian.Operation>)
    requires CustodianEffects.Outgoing(self, op) && (op.Transaction? ==> op.target in w.tokens)
    ensures var r := Execute(self)(w, op);
            && (AllPost(w, [op] + rest) <==> r.Ok? && AllPost(r.value, rest))
            && (r.Ok? ==> r.value.tokens.Keys == w.tokens.Keys)
            && (r.Err? ==> r == Err(FailWith(FA2.INSUFFICIENT_BALANCE)))
  {
    var r := Execute(self)(w, op);
    forall a | a in w.tokens
      ensures r.Ok? ==> a in r.value.tokens &&
                        PostOps(a, [op] + rest, w.tokens[a].ledger) == PostOps(a, rest, r.value.tokens[a].ledger)
    {
      ExecuteOne(w, self, op, a);
      PostFirst(a, op, rest, w.tokens[a].ledger);
    }
    if op.Transaction? {
      ExecuteOne(w, self, op, op.target);
      PostFirst(op.target, op, rest, w.tokens[op.target].ledger);
    }
  }

  /** Outgoing operations all run exactly when every token contract can post all they have for it. */
  lemma {:induction false} ExecuteAllExact(w: World, self: Address, ops: seq<Custodian.Operation>)
    requires forall op <- ops :: CustodianEffects.Outgoing(self, op) && (op.Transaction? ==> op.target in w.tokens)
    ensures Fold(Execute(self), ops, w).Ok? <==> AllPost(w, ops)
    ensures Fold(Execute(self), ops, w).Err? ==>
              Fold(Execute(self), ops, w) == Err(FailWith(FA2.INSUFFICIENT_BALANCE))
    decreases |ops|
  {
    if ops == [] {
    } else {
      var op, rest := ops[0], ops[1..];
      assert op in ops;
      ExecuteFirst(w, self, op, rest);
      assert ops == [op] + rest;
      if Execute(self)(w, op).Ok? {
        ExecuteAllExact(Execute(self)(w, op).value, self, rest);
      }
    }
  }

  // ---------- which accepted calls commit ----------

  lemma AcceptedCallExact(w: World, call: Call)
    requires Sound(w) && !IsContract(w, call.sender)
    requires call.target.ToCustodian? && call.address in w.custodians && RunCustodian(w, call).Ok?
    ensures var ops := RunCustodian(w, call).value.0;
            && ops == CustodianEffects.EmittedOps(
                        ContextOf(w, call), w.custodians[call.address], call.target.custodianEntry)
            && (Transact(w, call).Ok? <==> AllPost(w, ops))
            && (Transact(w, call).Err? ==> Transact(w, call) == Err(FailWith(FA2.INSUFFICIENT_BALANCE)))
  {
    var (ops, s) := RunCustodian(w, call).value;
    DebitedKeepsSound(w, call);
    CustodianEffects.MainEffect(ContextOf(w, call), call.target.custodianEntry, w.custodians[call.address]);
    ExecuteAllExact(Debited(w, call, s), call.address, ops);
    assert AllPost(Debited(w, call, s), ops) <==> AllPost(w, ops);
  }

  lemma NetTo(a: Address, ops: seq<Custodian.Operation>, holder: Address, id: nat)
    ensures Net(Gather(PostingsTo(a), ops), Holding(holder, id)) == Sum(OpNet(holder, Token(a, id)), ops)
  {
    SumGather(DiffAt(Holding(holder, id)), PostingsTo(a), OpNet(holder, Token(a, id)), ops);
  }

  lemma RetireOpsKind(self: Address, source: Address, retires: seq<Custodian.InternalRetire>, op: Custodian.Operation)
    requires op in RetireOps(self, source, retires)
    ensures op.Emit? || op.entry.RetireEntry?
  {
    if op in Map(CustodianProofs.RetireOp(self), retires) {
      var i :| 0 <= i < |retires| && op == CustodianProofs.RetireOp(self)(retires[i]);
    } else {
      CustodianEffects.RetirementsAreEvents(source, retires);
    }
  }

  lemma RetireOpsDebit(self: Address, source: Address, retires: seq<Custodian.InternalRetire>, a: Address)
    ensures forall p <- Gather(PostingsTo(a), RetireOps(self, source, retires)) :: p.diff <= 0
  {
    var ops := RetireOps(self, source, retires);
    forall p <- Gather(PostingsTo(a), ops)
      ensures p.diff <= 0
    {
      var op := GatherOrigin(PostingsTo(a), ops, p);
      RetireOpsKind(self, source, retires, op);
    }
  }

  /** Every custodian holding covers what the retirement asks of it. */
  ghost predicate Redeemable(w: World, c: Address, retires: seq<Custodian.InternalRetire>) {
    forall t :: CustodianProofs.OwedOf(CustodianProofs.RetireDebits(retires), t) <= Balance(w, c, t)
  }

  lemma UnknownTokensOweNothing(tokens: set<Address>, retires: seq<Custodian.InternalRetire>, t: Token)
    requires (forall p <- retires :: p.tokenAddress in tokens) && t.tokenAddress !in tokens
    ensures CustodianProofs.OwedOf(CustodianProofs.RetireDebits(retires), t) == 0
  {
    forall d <- CustodianProofs.RetireDebits(retires)
      ensures d.token != t
    {
      var p := GatherOrigin(CustodianProofs.RetireBatchDebits, retires, d);
    }
    CustodianProofs.OwesNothing(CustodianProofs.RetireDebits(retires), t);
  }

  lemma RetireOpsPost(w: World, self: Address, source: Address, retires: seq<Custodian.InternalRetire>)
    requires forall p <- retires :: p.tokenAddress in w.tokens
    ensures AllPost(w, RetireOps(self, source, retires)) <==> Redeemable(w, self, retires)
  {
    var ops, ds := RetireOps(self, source, retires), CustodianProofs.RetireDebits(retires);
    forall a | a in w.tokens
      ensures PostOps(a, ops, w.tokens[a].ledger).Ok? <==>
              forall id :: CustodianProofs.OwedOf(ds, Token(a, id)) <= Balance(w, self, Token(a, id))
    {
      var ledger, ps := w.tokens[a].ledger, Gather(PostingsTo(a), ops);
      RetireOpsDebit(self, source, retires, a);
      DebitsExact(FA2.INSUFFICIENT_BALANCE, ps, ledger);
      forall h: FA2.Owner
        ensures Net(ps, h) == if h.owner == self then -CustodianProofs.OwedOf(ds, Token(a, h.item)) else 0
      {
        NetTo(a, ops, h.owner, h.item);
        RetireOpsNet(self, source, retires, h.owner, Token(a, h.item));
      }
      assert forall id :: Net(ps, Holding(self, id)) == -CustodianProofs.OwedOf(ds, Token(a, id));
      assert forall id :: Get(ledger, Holding(self, id)) == Balance(w, self, Token(a, id));
      if Post(FA2.INSUFFICIENT_BALANCE, ps, ledger).Ok? {
        forall id ensures CustodianProofs.OwedOf(ds, Token(a, id)) <= Balance(w, self, Token(a, id)) {
          assert Get(ledger, Holding(self, id)) + Net(ps, Holding(self, id)) >= 0;
        }
      } else {
        var h :| Get(ledger, h) + Net(ps, h) < 0;
        assert !(CustodianProofs.OwedOf(ds, Token(a, h.item)) <= Balance(w, self, Token(a, h.item)));
      }
    }
    forall t: Token | t.tokenAddress !in w.tokens
      ensures CustodianProofs.OwedOf(ds, t) <= Balance(w, self, t)
    {
      UnknownTokensOweNothing(w.tokens.Keys, retires, t);
    }
    assert forall t: Token :: t == Token(t.tokenAddress, t.tokenId);
  }

  /** A retirement commits exactly when the custodian accepts it and, token by token, really holds what is
      retired, backed world or not; the one way to bounce is the token contract's shortage. */
  lemma RetireCommits(w: World, call: Call)
    requires Sound(w) && !IsContract(w, call.sender)
    requires call.target.ToCustodian? && call.address in w.custodians && call.target.custodianEntry.RetireEntry?
    ensures Transact(w, call).Ok? <==>
            RunCustodian(w, call).Ok? && Redeemable(w, call.address, call.target.custodianEntry.retires)
    ensures RunCustodian(w, call).Ok? && Transact(w, call).Err? ==>
              Transact(w, call) == Err(FailWith(FA2.INSUFFICIENT_BALANCE))
  {
    if RunCustodian(w, call).Ok? {
      AcceptedCallExact(w, call);
      KnownRetireTargets(w, call);
      RetireOpsPost(w, call.address, call.source, call.target.custodianEntry.retires);
    }
  }

  lemma KnownRetireTargets(w: World, call: Call)
    requires call.target.ToCustodian? && call.address in w.custodians && call.target.custodianEntry.RetireEntry?
    requires RunCustodian(w, call).Ok?
    ensures forall p <- call.target.custodianEntry.retires :: p.tokenAddress in w.tokens
  {
    CustodianProofs.ForwardedRetires(ContextOf(w, call), call.target.custodianEntry.retires);
  }

  function MovesTo(self: Address, a: Address): Custodian.ExternalTransferTx -> seq<Move<Address, nat>> {
    (p: Custodian.ExternalTransferTx) =>
      if p.tokenAddress == a then FA2Proofs.Moves(Map(CustodianProofs.SentBatch(self), p.txnBatch)) else []
  }

  /** The flattened moves an external transfer forwards to token contract `a`, in order. */
  function ForwardedMoves(self: Address, externals: seq<Custodian.ExternalTransferTx>, a: Address)
    : seq<Move<Address, nat>>
  {
    Gather(MovesTo(self, a), externals)
  }

  function TransferPostingsTo(self: Address, a: Address): Custodian.ExternalTransferTx -> seq<Posting<FA2.Owner>> {
    (p: Custodian.ExternalTransferTx) => MovePostings(MovesTo(self, a)(p))
  }

  lemma ForwardedPostings(self: Address, externals: seq<Custodian.ExternalTransferTx>, a: Address)
    ensures Gather(PostingsTo(a), Map(CustodianProofs.TransferOp(self), externals)) ==
            MovePostings(ForwardedMoves(self, externals, a))
  {
    forall p
      ensures TransferPostingsTo(self, a)(p) == PostingsTo(a)(CustodianProofs.TransferOp(self)(p))
    {
      var batches := Map(CustodianProofs.SentBatch(self), p.txnBatch);
      var op := CustodianProofs.TransferOp(self)(p);
      assert op == Custodian.Transaction(p.tokenAddress, FA2.TransferEntry(batches));
      assert MovesTo(self, a)(p) == if p.tokenAddress == a then FA2Proofs.Moves(batches) else [];
    }
    GatherMap(PostingsTo(a), CustodianProofs.TransferOp(self), TransferPostingsTo(self, a), externals);
    GatherGather(Entries, MovesTo(self, a), TransferPostingsTo(self, a), externals);
  }

  /** An external transfer commits exactly when the custodian accepts it and, at each token contract, every
      forwarded move is covered at its turn: tokens sent to the custodian itself come back in time. */
  lemma ExternalTransferCommits(w: World, call: Call)
    requires Sound(w) && !IsContract(w, call.sender)
    requires call.target.ToCustodian? && call.address in w.custodians
    requires call.target.custodianEntry.ExternalTransferEntry?
    ensures Transact(w, call).Ok? <==>
            && RunCustodian(w, call).Ok?
            && forall a :: a in w.tokens ==>
                 Covered(ForwardedMoves(call.address, call.target.custodianEntry.externals, a), w.tokens[a].ledger)
    ensures RunCustodian(w, call).Ok? && Transact(w, call).Err? ==>
              Transact(w, call) == Err(FailWith(FA2.INSUFFICIENT_BALANCE))
  {
    var self, externals := call.address, call.target.custodianEntry.externals;
    if RunCustodian(w, call).Ok? {
      AcceptedCallExact(w, call);
      var ops := RunCustodian(w, call).value.0;
      forall a | a in w.tokens
        ensures PostOps(a, ops, w.tokens[a].ledger).Ok? <==>
                Covered(ForwardedMoves(self, externals, a), w.tokens[a].ledger)
      {
        ForwardedPostings(self, externals, a);
        MovesExact(FA2.INSUFFICIENT_BALANCE, ForwardedMoves(self, externals, a), w.tokens[a].ledger);
      }
    }
  }

  /** Every other call commits exactly when the custodian accepts it. */
  lemma LocalCallCommits(w: World, call: Call)
    requires Sound(w) && !IsContract(w, call.sender) && call.target.ToCustodian? && call.address in w.custodians
    requires !call.target.custodianEntry.ExternalTransferEntry? && !call.target.custodianEntry.RetireEntry?
    ensures Transact(w, call).Ok? <==> RunCustodian(w, call).Ok?
  {
    if RunCustodian(w, call).Ok? {
      var ctx, s, entry := ContextOf(w, call), w.custodians[call.address], call.target.custodianEntry;
      CustodianEffects.MainEffect(ctx, entry, s);
      if entry.InternalTransferEntry? || entry.InternalMintEntry? {
        CustodianEffects.EventsOnly(ctx, s, entry);
      }
      EventsExecute(Debited(w, call, RunCustodian(w, call).value.1), call.address, RunCustodian(w, call).value.0);
    }
  }

  // ---------- every call ----------

  /** When a call commits: it comes from outside to a known contract, which accepts it; and what a custodian
      forwards is covered at the token contracts. */
  ghost predicate Commits(w: World, call: Call) {
    && call.sender !in w.tokens && call.sender !in w.custodians
    && match call.target
       case ToToken(entry) =>
         call.address in w.tokens && FA2Proofs.Accepts(call.sender, entry, w.tokens[call.address])
       case ToCustodian(entry) =>
         && call.address in w.custodians
         && CustodianEffects.Accepts(
              Custodian.Context(call.sender, call.source, call.address, w.tokens), entry, w.custodians[call.address])
         && (entry.RetireEntry? ==> Redeemable(w, call.address, entry.retires))
         && (entry.ExternalTransferEntry? ==>
               forall a :: a in w.tokens ==>
                 Covered(ForwardedMoves(call.address, entry.externals, a), w.tokens[a].ledger))
  }

  /** The failure of a call that does not commit: refused by the chain, by the contract called, or for
      shortage by a token contract to which a custodian forwards. */
  ghost predicate Fails(w: World, call: Call, failure: Failure) {
    if call.sender in w.tokens || call.sender in w.custodians then failure == Rejected
    else
      match call.target
      case ToToken(entry) =>
        if call.address !in w.tokens then failure == Rejected
        else FA2Proofs.Refuses(call.sender, entry, w.tokens[call.address], failure)
      case ToCustodian(entry) =>
        if call.address !in w.custodians then failure == Rejected
        else
          var ctx := Custodian.Context(call.sender, call.source, call.address, w.tokens);
          if CustodianEffects.Accepts(ctx, entry, w.custodians[call.address])
          then failure == FailWith(FA2.INSUFFICIENT_BALANCE)
          else CustodianEffects.Refuses(ctx, entry, w.custodians[call.address], failure)
  }

  /** Every call, exactly: when it commits, and with which failure it does not. */
  lemma CallCommits(w: World, call: Call)
    requires Sound(w)
    ensures Transact(w, call).Ok? <==> Commits(w, call)
    ensures Transact(w, call).Err? ==> Fails(w, call, Transact(w, call).failure)
  {
    if IsContract(w, call.sender) {
    } else if call.target.ToToken? {
      if call.address in w.tokens {
        FA2Proofs.MainExact(call.sender, call.target.tokenEntry, w.tokens[call.address]);
      }
    } else if call.address in w.custodians {
      CustodianCallCommits(w, call);
    }
  }

  lemma CustodianCallCommits(w: World, call: Call)
    requires Sound(w) && !IsContract(w, call.sender) && call.target.ToCustodian? && call.address in w.custodians
    ensures Transact(w, call).Ok? <==> Commits(w, call)
    ensures Transact(w, call).Err? ==> Fails(w, call, Transact(w, call).failure)
  {
    CustodianEffects.MainExact(ContextOf(w, call), call.target.custodianEntry, w.custodians[call.address]);
    match call.target.custodianEntry
    case ExternalTransferEntry(_) => ExternalTransferCommits(w, call);
    case RetireEntry(_) => RetireCommits(w, call);
    case _ => LocalCallCommits(w, call);
  }

  // ---------- backing is exactly what keeps calls from bouncing ----------

  /** Retire every client's whole balance of a token. */
  ghost function Redemptions(ledger: map<Custodian.Owner, nat>, t: Token): seq<Custodian.InternalRetireData>
    decreases |ledger|
  {
    if ledger == map[] then []
    else
      var h :| h in ledger;
      RedemptionOf(ledger, t, h) + Redemptions(ledger - {h}, t)
  }

  function RedemptionOf(ledger: map<Custodian.Owner, nat>, t: Token, h: Custodian.Owner)
    : seq<Custodian.InternalRetireData>
    requires h in ledger
  {
    if h.item == t then [Custodian.InternalRetireData(h.owner, t.tokenId, ledger[h], Bytes([]))] else []
  }

  ghost function RedemptionDebits(ledger: map<Custodian.Owner, nat>, t: Token): seq<CustodianProofs.Debit> {
    Map(CustodianProofs.RetireDebit(t.tokenAddress), Redemptions(ledger, t))
  }

  /** The debits of all clients take each one's whole balance of the token, and its total in all. */
  lemma {:induction false} RedemptionsOwe(ledger: map<Custodian.Owner, nat>, t: Token, h: Custodian.Owner)
    ensures CustodianProofs.Owed(RedemptionDebits(ledger, t), h) == if h.item == t then Get(ledger, h) else 0
    ensures CustodianProofs.OwedOf(RedemptionDebits(ledger, t), t) == Total(ledger, t)
    decreases |ledger|
  {
    if ledger == map[] {
    } else {
      var g :| g in ledger && Redemptions(ledger, t) == RedemptionOf(ledger, t, g) + Redemptions(ledger - {g}, t);
      var first := Map(CustodianProofs.RetireDebit(t.tokenAddress), RedemptionOf(ledger, t, g));
      RedemptionsOwe(ledger - {g}, t, h);
      TotalWithout(ledger, t, g);
      MapAppend(CustodianProofs.RetireDebit(t.tokenAddress), RedemptionOf(ledger, t, g), Redemptions(ledger - {g}, t));
      SumAppend(CustodianProofs.OwedBy(h), first, RedemptionDebits(ledger - {g}, t));
      SumAppend(CustodianProofs.OwedIn(t), first, RedemptionDebits(ledger - {g}, t));
      if g.item == t {
        var d := CustodianProofs.Debit(g.owner, t, ledger[g]);
        assert first == [d];
        SumOne(CustodianProofs.OwedBy(h), d);
        SumOne(CustodianProofs.OwedIn(t), d);
      }
    }
  }

  /** The custodian's own account retires every client's balance of one token. */
  ghost function RedeemAll(w: World, c: Address, t: Token): Call
    requires c in w.custodians
  {
    var s := w.custodians[c];
    Call(s.custodian, s.custodian, c,
         ToCustodian(Custodian.RetireEntry([Custodian.InternalRetire(t.tokenAddress, Redemptions(s.ledger, t))])))
  }

  lemma RedeemAllDebits(ledger: map<Custodian.Owner, nat>, t: Token)
    ensures CustodianProofs.RetireDebits([Custodian.InternalRetire(t.tokenAddress, Redemptions(ledger, t))]) ==
            RedemptionDebits(ledger, t)
  {
    GatherOne(CustodianProofs.RetireBatchDebits, Custodian.InternalRetire(t.tokenAddress, Redemptions(ledger, t)));
  }

  /** The custodian accepts it: every client pays exactly what it has. */
  lemma RedeemAllAccepted(w: World, c: Address, t: Token)
    requires Sound(w) && c in w.custodians && t.tokenAddress in w.tokens
    ensures RunCustodian(w, RedeemAll(w, c, t)).Ok?
    ensures CustodianProofs.OwedOf(
              CustodianProofs.RetireDebits(RedeemAll(w, c, t).target.custodianEntry.retires), t) ==
            Get(w.custodians[c].externalLedger, t)
  {
    var call, s := RedeemAll(w, c, t), w.custodians[c];
    var retires := call.target.custodianEntry.retires;
    RedeemAllDebits(s.ledger, t);
    forall h
      ensures CustodianProofs.Owed(CustodianProofs.RetireDebits(retires), h) <= Get(s.ledger, h)
    {
      RedemptionsOwe(s.ledger, t, h);
    }
    CustodianProofs.RetireExact(ContextOf(w, call), retires, s);
    RedemptionsOwe(s.ledger, t, Holding(SELF, t));
  }

  /** Wherever a cache exceeds the holding, however it is spread over clients, retiring all of it passes
      the custodian, is refused by the token contract, and reverts. */
  lemma OverstatedCacheBounces(w: World, c: Address, t: Token)
    requires Sound(w) && c in w.custodians && !IsContract(w, w.custodians[c].custodian)
    requires Balance(w, c, t) < Get(w.custodians[c].externalLedger, t)
    ensures RunCustodian(w, RedeemAll(w, c, t)).Ok?
    ensures Transact(w, RedeemAll(w, c, t)) == Err(FailWith(FA2.INSUFFICIENT_BALANCE))
  {
    var call := RedeemAll(w, c, t);
    RedeemAllAccepted(w, c, t);
    assert !Redeemable(w, c, call.target.custodianEntry.retires);
    RetireCommits(w, call);
  }

  ghost predicate Accepted(w: World, call: Call) {
    && !IsContract(w, call.sender)
    && call.target.ToCustodian? && call.address in w.custodians && RunCustodian(w, call).Ok?
  }

  /** Outside calls commit whenever the custodian accepts them. */
  ghost predicate NothingBounces(w: World) {
    forall call :: Accepted(w, call) ==> Transact(w, call).Ok?
  }

  /** Backing, exactly: with custodian accounts outside the modelled contracts, a sound world is backed if
      and only if no call a custodian accepts can bounce. */
  lemma BackedIsNoBounce(w: World)
    requires Sound(w) && forall c :: c in w.custodians ==> !IsContract(w, w.custodians[c].custodian)
    ensures Backed(w) <==> NothingBounces(w)
  {
    if Backed(w) {
      forall call | Accepted(w, call)
        ensures Transact(w, call).Ok?
      {
        NoBounce(w, call);
      }
    } else {
      var c, t :| c in w.custodians && !(Get(w.custodians[c].externalLedger, t) <= Balance(w, c, t));
      OverstatedCacheBounces(w, c, t);
      assert Transact(w, RedeemAll(w, c, t)).Err?;
    }
  }

  // ---------- clients can always be paid out ----------

  /** The custodian's own account sends `amount` of a client's token to `to`. */
  ghost function PayOut(w: World, c: Address, kyc: Bytes, t: Token, amount: nat, to: Address): Call
    requires c in w.custodians
  {
    var account := w.custodians[c].custodian;
    Call(account, account, c, ToCustodian(Custodian.ExternalTransferEntry([PayOutTx(kyc, t, amount, to)])))
  }

  function PayOutTx(kyc: Bytes, t: Token, amount: nat, to: Address): Custodian.ExternalTransferTx {
    Custodian.ExternalTransferTx(
      t.tokenAddress, [Custodian.ExternalTransferBatch(kyc, [FA2.TransferTo(to, t.tokenId, amount)])])
  }

  lemma PayOutDebits(kyc: Bytes, t: Token, amount: nat, to: Address)
    ensures CustodianProofs.ExternalDebits([PayOutTx(kyc, t, amount, to)]) == [CustodianProofs.Debit(kyc, t, amount)]
  {
    var p := PayOutTx(kyc, t, amount, to);
    GatherOne(CustodianProofs.ExternalTxDebits, p);
    GatherOne(CustodianProofs.ExternalBatchDebits(t.tokenAddress), p.txnBatch[0]);
    var items := CustodianProofs.ExternalBatchDebits(t.tokenAddress)(p.txnBatch[0]);
    assert items == Map(CustodianProofs.ExternalDebit(t.tokenAddress, kyc), p.txnBatch[0].txs);
    assert items == [CustodianProofs.Debit(kyc, t, amount)];
  }

  lemma PayOutAddressed(kyc: Bytes, t: Token, amount: nat, to: Address, holder: Address)
    ensures Addressed([PayOutTx(kyc, t, amount, to)], holder, t) == if holder == to then amount else 0
  {
    var p := PayOutTx(kyc, t, amount, to);
    SumOne(TxTo(holder, t), p);
    SumOne(BatchTo(holder, t.tokenId), p.txnBatch[0]);
    SumOne(ItemTo(holder, t.tokenId), p.txnBatch[0].txs[0]);
  }

  lemma HeldTokensAreKnown(w: World, c: Address, kyc: Bytes, t: Token)
    requires Sound(w) && c in w.custodians && Get(w.custodians[c].ledger, Holding(kyc, t)) > 0
    ensures t.tokenAddress in w.tokens
  {
    var s := w.custodians[c];
    BalanceWithinTotal(s.ledger, Holding(kyc, t));
    assert Total(s.ledger, t) == Get(s.externalLedger, t);
  }

  /** In a backed world any part of any client's balance can be paid out: the transfer commits, the client
      pays, and the receiver gains what the custodian gives up. */
  lemma PayOutCommits(w: World, c: Address, kyc: Bytes, t: Token, amount: nat, to: Address)
    requires Sound(w) && Backed(w) && c in w.custodians && !IsContract(w, w.custodians[c].custodian)
    requires 0 < amount <= Get(w.custodians[c].ledger, Holding(kyc, t))
    ensures var call := PayOut(w, c, kyc, t, amount, to);
            var w' := Apply(w, call);
            && Transact(w, call).Ok? && c in w'.custodians
            && Get(w'.custodians[c].ledger, Holding(kyc, t)) == Get(w.custodians[c].ledger, Holding(kyc, t)) - amount
            && (to != c ==>
                  && Balance(w', to, t) == Balance(w, to, t) + amount
                  && Balance(w', c, t) == Balance(w, c, t) - amount)
  {
    var call, s := PayOut(w, c, kyc, t, amount, to), w.custodians[c];
    var externals, d := call.target.custodianEntry.externals, CustodianProofs.Debit(kyc, t, amount);
    PayOutDebits(kyc, t, amount, to);
    forall h ensures CustodianProofs.Owed([d], h) == CustodianProofs.OwedBy(h)(d) {
      SumOne(CustodianProofs.OwedBy(h), d);
    }
    SumOne(CustodianProofs.OwedIn(t), d);
    HeldTokensAreKnown(w, c, kyc, t);
    CustodianProofs.ExternalTransferExact(ContextOf(w, call), externals, s);
    NoBounce(w, call);
    ExecuteAllKeepsCustodians(w, call);
    forall holder
      ensures Balance(Apply(w, call), holder, t) ==
              Balance(w, holder, t) + (if holder == to then amount else 0) - if holder == c then amount else 0
    {
      PayOutAddressed(kyc, t, amount, to, holder);
      ExternalTransferDelivers(w, call, holder, t);
    }
  }

  lemma ExecuteAllKeepsCustodians(w: World, call: Call)
    requires Sound(w) && Transact(w, call).Ok? && call.target.ToCustodian?
    ensures Apply(w, call).custodians == w.custodians[call.address := RunCustodian(w, call).value.1]
  {
    var (ops, s) := RunCustodian(w, call).value;
    DebitedKeepsSound(w, call);
    ExecuteAllKeepsSound(Debited(w, call, s), call.address, ops);
  }

  /** Over runs: in every world a disciplined run reaches, every client can be paid out up to its balance. */
  lemma ClientsCanBePaidOut(
    w: World, calls: seq<Call>, c: Address, kyc: Bytes, t: Token, amount: nat, to: Address)
    requires Genesis(w) && DisciplinedThroughout(w, calls) && c in Run(w, calls).custodians
    requires !IsContract(w, Run(w, calls).custodians[c].custodian)
    requires 0 < amount <= Get(Run(w, calls).custodians[c].ledger, Holding(kyc, t))
    ensures var now := Run(w, calls);
            var later := Apply(now, PayOut(now, c, kyc, t, amount, to));
            && Transact(now, PayOut(now, c, kyc, t, amount, to)).Ok? && c in later.custodians
            && Get(later.custodians[c].ledger, Holding(kyc, t)) ==
               Get(now.custodians[c].ledger, Holding(kyc, t)) - amount
            && (to != c ==> Balance(later, to, t) == Balance(now, to, t) + amount)
  {
    RunIsSound(w, calls);
    RunBacks(w, calls);
    PayOutCommits(Run(w, calls), c, kyc, t, amount, to);
  }
}
