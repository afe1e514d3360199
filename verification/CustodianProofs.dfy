/** What the custodian's entrypoints do to client balances and to the cached external balances. */
module CustodianProofs {
  import opened Outcomes
  import opened Lists
  import opened Ledgers
  import opened Tezos
  import opened Custodian
  import FA2

  // ---------- storage invariant ----------

  /** The clients' balances of each token add up to the cached external balance. */
  ghost predicate Reconciled(s: Storage) {
    forall t :: Total(s.ledger, t) == Get(s.externalLedger, t)
  }

  ghost predicate Sound(s: Storage) {
    Canonical(s.ledger) && Canonical(s.externalLedger) && Reconciled(s)
  }

  // ---------- internal_transfer as one list of atomic moves ----------

  function MoveFrom(transfer: InternalTransferBatch): InternalTransferTo -> Move<Bytes, Token> {
    (p: InternalTransferTo) => Move(transfer.from, p.to, Token(transfer.tokenAddress, p.tokenId), p.amount)
  }

  function BatchMoves(transfer: InternalTransferBatch): seq<Move<Bytes, Token>> {
    Map(MoveFrom(transfer), transfer.txs)
  }

  function Moves(transfers: seq<InternalTransferBatch>): seq<Move<Bytes, Token>> {
    Gather(BatchMoves, transfers)
  }

  function MoveStep(sender: Address): (Storage, Move<Bytes, Token>) -> Result<Storage> {
    (s: Storage, mv: Move<Bytes, Token>) =>
      InternalTransferStep(sender, InternalTransferBatch(mv.from, mv.item.tokenAddress, []))(
        s, InternalTransferTo(mv.to, mv.item.tokenId, mv.amount))
  }

  lemma StepIgnoresSiblings(sender: Address, transfer: InternalTransferBatch, s: Storage, p: InternalTransferTo)
    ensures InternalTransferStep(sender, transfer)(s, p) == MoveStep(sender)(s, MoveFrom(transfer)(p))
  {
    var alone := InternalTransferBatch(transfer.from, transfer.tokenAddress, []);
    assert MoveStep(sender)(s, MoveFrom(transfer)(p)) == InternalTransferStep(sender, alone)(s, p);
  }

  /** The nested folds are one fold over the flattened moves, failures included. */
  lemma InternalTransferFlattens(sender: Address, transfers: seq<InternalTransferBatch>, s: Storage)
    ensures Fold(InternalTransferBatchStep(sender), transfers, s) == Fold(MoveStep(sender), Moves(transfers), s)
  {
    forall s, transfer
      ensures InternalTransferBatchStep(sender)(s, transfer) == Fold(MoveStep(sender), BatchMoves(transfer), s)
    {
      forall s, p
        ensures InternalTransferStep(sender, transfer)(s, p) == MoveStep(sender)(s, MoveFrom(transfer)(p))
      {
        StepIgnoresSiblings(sender, transfer, s, p);
      }
      FoldMap(InternalTransferStep(sender, transfer), MoveStep(sender), MoveFrom(transfer), transfer.txs, s);
    }
    FoldNested(InternalTransferBatchStep(sender), MoveStep(sender), BatchMoves, transfers, s);
  }

  ghost predicate MovesAllowed(sender: Address, mvs: seq<Move<Bytes, Token>>, s: Storage) {
    forall mv <- mvs :: sender == s.custodian || Operator(mv.from, sender, mv.item.tokenId) in s.operators
  }

  /** One item: permission is asked first, then the destination is credited and the source debited. */
  lemma GuardedMove(sender: Address, mv: Move<Bytes, Token>, s: Storage)
    ensures MoveStep(sender)(s, mv) ==
            if sender != s.custodian && Operator(mv.from, sender, mv.item.tokenId) !in s.operators
            then Err(FailWith(PERMISSIONS_DENIED))
            else match Post(INSUFFICIENT_BALANCE, Entries(mv), s.ledger) {
              case Ok(ledger) => Ok(s.(ledger := ledger))
              case Err(_) => Err(FailWith(INSUFFICIENT_BALANCE))
            }
  {
    PostPair(INSUFFICIENT_BALANCE, Entries(mv), s.ledger);
    assert mv.item == Token(mv.item.tokenAddress, mv.item.tokenId);
    assert MoveStep(sender)(s, mv) ==
      InternalTransferStep(sender, InternalTransferBatch(mv.from, mv.item.tokenAddress, []))(
        s, InternalTransferTo(mv.to, mv.item.tokenId, mv.amount));
  }

  lemma {:induction false} GuardedMoves(sender: Address, mvs: seq<Move<Bytes, Token>>, s: Storage)
    ensures var posted := Post(INSUFFICIENT_BALANCE, MovePostings(mvs), s.ledger);
            var r := Fold(MoveStep(sender), mvs, s);
            && (r.Ok? <==> MovesAllowed(sender, mvs, s) && posted.Ok?)
            && (r.Ok? ==> r.value == s.(ledger := posted.value))
  {
    if mvs == [] {
    } else {
      var mv := mvs[0];
      PostAppend(INSUFFICIENT_BALANCE, Entries(mv), MovePostings(mvs[1..]), s.ledger);
      GuardedMove(sender, mv, s);
      assert mvs == [mv] + mvs[1..];
      match MoveStep(sender)(s, mv)
      case Ok(m) =>
        GuardedMoves(sender, mvs[1..], m);
      case Err(_) =>
    }
  }

  /** Move `i` is the first that fails: all earlier ones are permitted and covered, and the code is denial
      where permission is missing, shortage where only the funds are. */
  ghost predicate MoveFailsFirst(sender: Address, mvs: seq<Move<Bytes, Token>>, s: Storage, i: nat, failure: Failure) {
    && i < |mvs| && MovesAllowed(sender, mvs[..i], s) && Covered(mvs[..i], s.ledger)
    && if sender != s.custodian && Operator(mvs[i].from, sender, mvs[i].item.tokenId) !in s.operators
       then failure == FailWith(PERMISSIONS_DENIED)
       else failure == FailWith(INSUFFICIENT_BALANCE) && !CoveredAt(mvs, s.ledger, i)
  }

  lemma FailedMove(sender: Address, mvs: seq<Move<Bytes, Token>>, s: Storage, i: nat)
    requires i < |mvs| && Fold(MoveStep(sender), mvs[..i], s).Ok?
    requires MoveStep(sender)(Fold(MoveStep(sender), mvs[..i], s).value, mvs[i]).Err?
    ensures MoveFailsFirst(
              sender, mvs, s, i, MoveStep(sender)(Fold(MoveStep(sender), mvs[..i], s).value, mvs[i]).failure)
  {
    var m := Fold(MoveStep(sender), mvs[..i], s).value;
    GuardedMoves(sender, mvs[..i], s);
    MovesExact(INSUFFICIENT_BALANCE, mvs[..i], s.ledger);
    GuardedMove(sender, mvs[i], m);
    OneMove(INSUFFICIENT_BALANCE, mvs[i], m.ledger);
  }

  /** The sender is the custodian, or is the paying client's operator for the token id of every item. */
  ghost predicate TransferPermits(sender: Address, transfers: seq<InternalTransferBatch>, s: Storage) {
    forall b <- transfers, p <- b.txs :: sender == s.custodian || Operator(b.from, sender, p.tokenId) in s.operators
  }

  lemma TransferPermitsMoves(sender: Address, transfers: seq<InternalTransferBatch>, s: Storage)
    ensures TransferPermits(sender, transfers, s) <==> MovesAllowed(sender, Moves(transfers), s)
  {
    if TransferPermits(sender, transfers, s) {
      forall mv <- Moves(transfers)
        ensures sender == s.custodian || Operator(mv.from, sender, mv.item.tokenId) in s.operators
      {
        var b := GatherOrigin(BatchMoves, transfers, mv);
      }
    }
    if MovesAllowed(sender, Moves(transfers), s) {
      forall b <- transfers, p <- b.txs
        ensures sender == s.custodian || Operator(b.from, sender, p.tokenId) in s.operators
      {
        var i :| 0 <= i < |b.txs| && b.txs[i] == p;
        var mv := Move(b.from, p.to, Token(b.tokenAddress, p.tokenId), p.amount);
        assert BatchMoves(b)[i] == mv;
        GatherContains(BatchMoves, transfers, b, mv);
      }
    }
  }

  function TransferEvent(mv: Move<Bytes, Token>): Operation {
    Emit(InternallyTransferred(mv.from, mv.to, mv.item, mv.amount))
  }

  lemma BatchEvents(transfer: InternalTransferBatch)
    ensures EmitTransfers(transfer) == Map(TransferEvent, BatchMoves(transfer))
  {
    forall i | 0 <= i < |transfer.txs|
      ensures EmitTransfers(transfer)[i] == Map(TransferEvent, BatchMoves(transfer))[i]
    {
      assert BatchMoves(transfer)[i] == MoveFrom(transfer)(transfer.txs[i]);
    }
  }

  /** One event per move, in order. */
  lemma {:induction false} TransferEvents(transfers: seq<InternalTransferBatch>)
    ensures Gather(EmitTransfers, transfers) == Map(TransferEvent, Moves(transfers))
  {
    if transfers == [] {
    } else {
      BatchEvents(transfers[0]);
      TransferEvents(transfers[1..]);
      MapAppend(TransferEvent, BatchMoves(transfers[0]), Moves(transfers[1..]));
    }
  }

  /** `internal_transfer` succeeds exactly when every item is permitted and, at each step, source and
      destination coincide or the source holds the amount; only client balances change, by inflow less
      outflow, and each move is reported. */
  lemma InternalTransferExact(ctx: Context, transfers: seq<InternalTransferBatch>, s: Storage)
    ensures var mvs := Moves(transfers);
            var r := InternalTransfer(ctx, transfers, s);
            && (r.Ok? <==> TransferPermits(ctx.sender, transfers, s) && Covered(mvs, s.ledger))
            && (r.Ok? ==>
                  && r.value.0 == Map(TransferEvent, mvs)
                  && r.value.1 == s.(ledger := r.value.1.ledger)
                  && (forall h :: Get(r.value.1.ledger, h) == Get(s.ledger, h) + Inflow(mvs, h) - Outflow(mvs, h)))
            && (r.Err? ==> exists i :: MoveFailsFirst(ctx.sender, mvs, s, i, r.failure))
  {
    var mvs := Moves(transfers);
    TransferPermitsMoves(ctx.sender, transfers, s);
    TransferEvents(transfers);
    InternalTransferFlattens(ctx.sender, transfers, s);
    GuardedMoves(ctx.sender, mvs, s);
    MovesExact(INSUFFICIENT_BALANCE, mvs, s.ledger);
    if InternalTransfer(ctx, transfers, s).Err? {
      var i := FoldFailure(MoveStep(ctx.sender), mvs, s);
      FailedMove(ctx.sender, mvs, s, i);
    }
  }

  /** A stranger moves nothing: an item whose client has not named the sender operator for its token id
      refuses the whole call, and with denial where funds are no obstacle. */
  lemma StrangerMovesNothing(ctx: Context, transfers: seq<InternalTransferBatch>, b: InternalTransferBatch,
      p: InternalTransferTo, s: Storage)
    requires b in transfers && p in b.txs
    requires ctx.sender != s.custodian && Operator(b.from, ctx.sender, p.tokenId) !in s.operators
    ensures InternalTransfer(ctx, transfers, s).Err?
    ensures Covered(Moves(transfers), s.ledger) ==>
              InternalTransfer(ctx, transfers, s) == Err(FailWith(PERMISSIONS_DENIED))
  {
    InternalTransferExact(ctx, transfers, s);
  }

  function ToItself(kyc: Bytes, token: Token, amount: nat): InternalTransferBatch {
    InternalTransferBatch(kyc, token.tokenAddress, [InternalTransferTo(kyc, token.tokenId, amount)])
  }

  /** Crediting first, the custodian too accepts a self-transfer of any amount, reports it, and leaves
      canonical storage as it was. */
  lemma InternalSelfTransfer(ctx: Context, kyc: Bytes, token: Token, amount: nat, s: Storage)
    requires Canonical(s.ledger)
    requires ctx.sender == s.custodian || Operator(kyc, ctx.sender, token.tokenId) in s.operators
    ensures var transfers := [ToItself(kyc, token, amount)];
            InternalTransfer(ctx, transfers, s) == Ok(([Emit(InternallyTransferred(kyc, kyc, token, amount))], s))
  {
    var transfers := [ToItself(kyc, token, amount)];
    var mv := Move(kyc, kyc, token, amount);
    GatherOne(BatchMoves, transfers[0]);
    assert Moves(transfers) == [mv];
    InternalTransferExact(ctx, transfers, s);
    InternalTransferFlattens(ctx.sender, transfers, s);
    GuardedMoves(ctx.sender, [mv], s);
    PostExact(INSUFFICIENT_BALANCE, MovePostings([mv]), s.ledger);
    var ledger := InternalTransfer(ctx, transfers, s).value.1.ledger;
    forall h ensures Get(ledger, h) == Get(s.ledger, h) {
      SumOne(InflowOf(h), mv);
      SumOne(OutflowOf(h), mv);
    }
    CanonicalExtensional(ledger, s.ledger);
    assert Map(TransferEvent, [mv]) == [Emit(InternallyTransferred(kyc, kyc, token, amount))];
  }

  /** Two transfer lists in one call act, and are reported, as two calls one after the other. */
  lemma InternalTransferComposes(ctx: Context, first: seq<InternalTransferBatch>,
      second: seq<InternalTransferBatch>, s: Storage)
    ensures InternalTransfer(ctx, first + second, s) ==
            match InternalTransfer(ctx, first, s) {
              case Ok((ops, m)) =>
                (match InternalTransfer(ctx, second, m) {
                   case Ok((ops', s')) => Ok((ops + ops', s'))
                   case Err(e) => Err(e)
                 })
              case Err(e) => Err(e)
            }
  {
    FoldAppend(InternalTransferBatchStep(ctx.sender), first, second, s);
    GatherAppend(EmitTransfers, first, second);
  }

  // ---------- withdrawals: the local phase of external_transfer and retire ----------

  datatype Debit = Debit(kyc: Bytes, token: Token, amount: nat)

  function ClientPosting(d: Debit): Posting<Owner> {
    Posting(Holding(d.kyc, d.token), -(d.amount as int))
  }

  function CachePosting(d: Debit): Posting<Token> {
    Posting(d.token, -(d.amount as int))
  }

  function OwedBy(h: Owner): Debit -> int {
    (d: Debit) => if Holding(d.kyc, d.token) == h then d.amount else 0
  }

  /** What the debits take from one client's balance in all. */
  function Owed(ds: seq<Debit>, h: Owner): int {
    Sum(OwedBy(h), ds)
  }

  function WithdrawStep(s: Storage, d: Debit): Result<Storage> {
    Withdraw(s, d.kyc, d.token, d.amount)
  }

  function GuardedStep(sender: Address): (Storage, Debit) -> Result<Storage> {
    (s: Storage, d: Debit) =>
      if sender != s.custodian && Operator(d.kyc, sender, d.token.tokenId) !in s.operators
      then Err(FailWith(PERMISSIONS_DENIED))
      else WithdrawStep(s, d)
  }

  ghost predicate DebitsAllowed(sender: Address, ds: seq<Debit>, s: Storage) {
    forall d <- ds :: sender == s.custodian || Operator(d.kyc, sender, d.token.tokenId) in s.operators
  }

  function ExternalDebit(tokenAddress: Address, from: Bytes): FA2.TransferTo -> Debit {
    (p: FA2.TransferTo) => Debit(from, Token(tokenAddress, p.tokenId), p.amount)
  }

  function ExternalBatchDebits(tokenAddress: Address): ExternalTransferBatch -> seq<Debit> {
    (p: ExternalTransferBatch) => Map(ExternalDebit(tokenAddress, p.from), p.txs)
  }

  function ExternalTxDebits(p: ExternalTransferTx): seq<Debit> {
    Gather(ExternalBatchDebits(p.tokenAddress), p.txnBatch)
  }

  /** The debits of an `external_transfer` parameter, in the order the three nested folds visit them. */
  function ExternalDebits(externals: seq<ExternalTransferTx>): seq<Debit> {
    Gather(ExternalTxDebits, externals)
  }

  function RetireDebit(tokenAddress: Address): InternalRetireData -> Debit {
    (p: InternalRetireData) => Debit(p.kyc, Token(tokenAddress, p.tokenId), p.amount)
  }

  function RetireBatchDebits(p: InternalRetire): seq<Debit> {
    Map(RetireDebit(p.tokenAddress), p.txs)
  }

  /** The debits of a `retire` parameter, in the order the nested folds visit them. */
  function RetireDebits(retires: seq<InternalRetire>): seq<Debit> {
    Gather(RetireBatchDebits, retires)
  }

  lemma ExternalTransferFlattens(externals: seq<ExternalTransferTx>, s: Storage)
    ensures Fold(ExternalTransferTxStep, externals, s) == Fold(WithdrawStep, ExternalDebits(externals), s)
  {
    forall s, p
      ensures ExternalTransferTxStep(s, p) == Fold(WithdrawStep, ExternalTxDebits(p), s)
    {
      forall s, b
        ensures ExternalTransferBatchStep(p.tokenAddress)(s, b) ==
                Fold(WithdrawStep, ExternalBatchDebits(p.tokenAddress)(b), s)
      {
        FoldMap(ExternalTransferStep(p.tokenAddress, b.from), WithdrawStep, ExternalDebit(p.tokenAddress,
            b.from), b.txs, s);
      }
      FoldNested(ExternalTransferBatchStep(p.tokenAddress), WithdrawStep, ExternalBatchDebits(p.tokenAddress),
          p.txnBatch, s);
    }
    FoldNested(ExternalTransferTxStep, WithdrawStep, ExternalTxDebits, externals, s);
  }

  lemma RetireFlattens(sender: Address, retires: seq<InternalRetire>, s: Storage)
    ensures Fold(RetireBatchStep(sender), retires, s) == Fold(GuardedStep(sender), RetireDebits(retires), s)
  {
    forall s, p
      ensures RetireBatchStep(sender)(s, p) == Fold(GuardedStep(sender), RetireBatchDebits(p), s)
    {
      FoldMap(RetireStep(sender, p.tokenAddress), GuardedStep(sender), RetireDebit(p.tokenAddress), p.txs, s);
    }
    FoldNested(RetireBatchStep(sender), GuardedStep(sender), RetireBatchDebits, retires, s);
  }

  /** Withdrawals post the same debits to both maps. */
  lemma {:induction false} WithdrawalsPost(ds: seq<Debit>, s: Storage)
    ensures var client := Post(INSUFFICIENT_BALANCE, Map(ClientPosting, ds), s.ledger);
            var cache := Post(INSUFFICIENT_BALANCE, Map(CachePosting, ds), s.externalLedger);
            var r := Fold(WithdrawStep, ds, s);
            && (r.Ok? <==> client.Ok? && cache.Ok?)
            && (r.Ok? ==> r.value == s.(ledger := client.value, externalLedger := cache.value))
            && (r.Err? ==> r == Err(FailWith(INSUFFICIENT_BALANCE)))
  {
    if ds == [] {
    } else {
      assert Map(ClientPosting, ds)[1..] == Map(ClientPosting, ds[1..]);
      assert Map(CachePosting, ds)[1..] == Map(CachePosting, ds[1..]);
      match WithdrawStep(s, ds[0])
      case Ok(m) =>
        WithdrawalsPost(ds[1..], m);
      case Err(_) =>
    }
  }

  lemma {:induction false} GuardedWithdrawals(sender: Address, ds: seq<Debit>, s: Storage)
    ensures var r := Fold(GuardedStep(sender), ds, s);
            && (r.Ok? <==> DebitsAllowed(sender, ds, s) && Fold(WithdrawStep, ds, s).Ok?)
            && (r.Ok? ==> r == Fold(WithdrawStep, ds, s))
  {
    if ds == [] {
    } else {
      assert ds == [ds[0]] + ds[1..];
      match GuardedStep(sender)(s, ds[0])
      case Ok(m) =>
        GuardedWithdrawals(sender, ds[1..], m);
      case Err(_) =>
    }
  }

  lemma {:induction false} ClientNet(ds: seq<Debit>, h: Owner)
    ensures Net(Map(ClientPosting, ds), h) == -Owed(ds, h)
  {
    if ds == [] {
    } else {
      assert Map(ClientPosting, ds)[1..] == Map(ClientPosting, ds[1..]);
      ClientNet(ds[1..], h);
    }
  }

  /** What leaves the clients' balances of a token leaves its cached balance. */
  lemma {:induction false} DebitsAgree(ds: seq<Debit>, t: Token)
    ensures NetIn(Map(ClientPosting, ds), t) == Net(Map(CachePosting, ds), t)
  {
    if ds == [] {
    } else {
      assert Map(ClientPosting, ds)[1..] == Map(ClientPosting, ds[1..]);
      assert Map(CachePosting, ds)[1..] == Map(CachePosting, ds[1..]);
      DebitsAgree(ds[1..], t);
    }
  }

  function OwedIn(t: Token): Debit -> int {
    (d: Debit) => if d.token == t then d.amount else 0
  }

  function OwedOf(ds: seq<Debit>, t: Token): int {
    Sum(OwedIn(t), ds)
  }

  lemma {:induction false} CacheNet(ds: seq<Debit>, t: Token)
    ensures Net(Map(CachePosting, ds), t) == -OwedOf(ds, t)
  {
    if ds == [] {
    } else {
      assert Map(CachePosting, ds)[1..] == Map(CachePosting, ds[1..]);
      CacheNet(ds[1..], t);
    }
  }

  lemma {:induction false} OwesNothing(ds: seq<Debit>, t: Token)
    requires forall d <- ds :: d.token != t
    ensures OwedOf(ds, t) == 0
  {
    if ds == [] {
    } else {
      OwesNothing(ds[1..], t);
    }
  }

  /** Each client can pay its total. */
  ghost predicate Payable(ds: seq<Debit>, s: Storage) {
    forall h :: Owed(ds, h) <= Get(s.ledger, h)
  }

  /** Each client has paid its total, each cached balance has fallen by what was owed of its token, and
      nothing else has changed. */
  ghost predicate Paid(ds: seq<Debit>, s: Storage, s': Storage) {
    && s' == s.(ledger := s'.ledger, externalLedger := s'.externalLedger)
    && (forall h :: Get(s'.ledger, h) == Get(s.ledger, h) - Owed(ds, h))
    && (forall t :: Get(s'.externalLedger, t) == Get(s.externalLedger, t) - OwedOf(ds, t))
  }

  lemma ClientsPay(ds: seq<Debit>, s: Storage)
    ensures Post(INSUFFICIENT_BALANCE, Map(ClientPosting, ds), s.ledger).Ok? <==> Payable(ds, s)
  {
    var clientPs := Map(ClientPosting, ds);
    forall h ensures Net(clientPs, h) == -Owed(ds, h) { ClientNet(ds, h); }
    assert forall p <- clientPs :: p.diff <= 0;
    DebitsExact(INSUFFICIENT_BALANCE, clientPs, s.ledger);
  }

  /** Where clients can pay, so can the cache, which holds their sum. */
  lemma CacheNeverDecides(ds: seq<Debit>, s: Storage)
    requires Reconciled(s) && Post(INSUFFICIENT_BALANCE, Map(ClientPosting, ds), s.ledger).Ok?
    ensures Post(INSUFFICIENT_BALANCE, Map(CachePosting, ds), s.externalLedger).Ok?
  {
    var clientPs, cachePs := Map(ClientPosting, ds), Map(CachePosting, ds);
    assert forall p <- cachePs :: p.diff <= 0;
    DebitsExact(INSUFFICIENT_BALANCE, cachePs, s.externalLedger);
    forall t
      ensures Get(s.externalLedger, t) + Net(cachePs, t) >= 0
    {
      TotalPosted(INSUFFICIENT_BALANCE, clientPs, s.ledger, t);
      DebitsAgree(ds, t);
    }
  }

  /** On reconciled storage a batch of withdrawals succeeds exactly when each client can pay its total:
      the cached external balance is never what stops it. */
  lemma WithdrawalsExact(ds: seq<Debit>, s: Storage)
    requires Reconciled(s)
    ensures var r := Fold(WithdrawStep, ds, s);
            && (r.Ok? <==> Payable(ds, s))
            && (r.Ok? ==> Paid(ds, s, r.value))
            && (r.Err? ==> r == Err(FailWith(INSUFFICIENT_BALANCE)))
  {
    WithdrawalsPost(ds, s);
    ClientsPay(ds, s);
    if Payable(ds, s) {
      CacheNeverDecides(ds, s);
      PostExact(INSUFFICIENT_BALANCE, Map(ClientPosting, ds), s.ledger);
      PostExact(INSUFFICIENT_BALANCE, Map(CachePosting, ds), s.externalLedger);
      forall h ensures Net(Map(ClientPosting, ds), h) == -Owed(ds, h) { ClientNet(ds, h); }
      forall t ensures Net(Map(CachePosting, ds), t) == -OwedOf(ds, t) { CacheNet(ds, t); }
    }
  }

  /** Order and grouping do not matter: batches holding the same debits get the same verdict from the
      local phase and leave the same storage. */
  lemma WithdrawalsPermute(ds: seq<Debit>, ds': seq<Debit>, s: Storage)
    requires Sound(s) && multiset(ds) == multiset(ds')
    ensures Fold(WithdrawStep, ds, s).Ok? <==> Fold(WithdrawStep, ds', s).Ok?
    ensures Fold(WithdrawStep, ds, s).Ok? ==> Fold(WithdrawStep, ds, s) == Fold(WithdrawStep, ds', s)
  {
    forall h ensures Owed(ds, h) == Owed(ds', h) { SumPermutation(OwedBy(h), ds, ds'); }
    WithdrawalsExact(ds, s);
    WithdrawalsExact(ds', s);
    if Fold(WithdrawStep, ds, s).Ok? {
      var a, b := Fold(WithdrawStep, ds, s).value, Fold(WithdrawStep, ds', s).value;
      WithdrawalsKeepSound(ds, s);
      WithdrawalsKeepSound(ds', s);
      CanonicalExtensional(a.ledger, b.ledger);
      assert forall t :: Get(a.externalLedger, t) == Total(a.ledger, t) == Get(b.externalLedger, t);
      CanonicalExtensional(a.externalLedger, b.externalLedger);
    }
  }

  lemma WithdrawalsKeepReconciled(ds: seq<Debit>, s: Storage)
    requires Reconciled(s) && Fold(WithdrawStep, ds, s).Ok?
    ensures Reconciled(Fold(WithdrawStep, ds, s).value)
  {
    var clientPs, cachePs := Map(ClientPosting, ds), Map(CachePosting, ds);
    WithdrawalsPost(ds, s);
    forall t ensures NetIn(clientPs, t) == Net(cachePs, t) { DebitsAgree(ds, t); }
    PostedKeepsReconciled(clientPs, cachePs, s, Fold(WithdrawStep, ds, s).value);
  }

  lemma WithdrawalsKeepSound(ds: seq<Debit>, s: Storage)
    requires Sound(s) && Fold(WithdrawStep, ds, s).Ok?
    ensures Sound(Fold(WithdrawStep, ds, s).value)
  {
    WithdrawalsKeepReconciled(ds, s);
    WithdrawalsPost(ds, s);
    PostExact(INSUFFICIENT_BALANCE, Map(ClientPosting, ds), s.ledger);
    PostExact(INSUFFICIENT_BALANCE, Map(CachePosting, ds), s.externalLedger);
  }

  /** Posting to both maps alike for every token keeps client totals and caches in step. */
  lemma PostedKeepsReconciled(clientPs: seq<Posting<Owner>>, cachePs: seq<Posting<Token>>, s: Storage, s': Storage)
    requires Reconciled(s)
    requires Post(INSUFFICIENT_BALANCE, clientPs, s.ledger) == Ok(s'.ledger)
    requires Post(INSUFFICIENT_BALANCE, cachePs, s.externalLedger) == Ok(s'.externalLedger)
    requires forall t :: NetIn(clientPs, t) == Net(cachePs, t)
    ensures Reconciled(s')
  {
    PostExact(INSUFFICIENT_BALANCE, cachePs, s.externalLedger);
    forall t
      ensures Total(s'.ledger, t) == Get(s'.externalLedger, t)
    {
      TotalPosted(INSUFFICIENT_BALANCE, clientPs, s.ledger, t);
    }
  }

  lemma PostedKeepsSound(clientPs: seq<Posting<Owner>>, cachePs: seq<Posting<Token>>, s: Storage, s': Storage)
    requires Sound(s)
    requires Post(INSUFFICIENT_BALANCE, clientPs, s.ledger) == Ok(s'.ledger)
    requires Post(INSUFFICIENT_BALANCE, cachePs, s.externalLedger) == Ok(s'.externalLedger)
    requires forall t :: NetIn(clientPs, t) == Net(cachePs, t)
    ensures Sound(s')
  {
    PostedKeepsReconciled(clientPs, cachePs, s, s');
    PostExact(INSUFFICIENT_BALANCE, clientPs, s.ledger);
    PostExact(INSUFFICIENT_BALANCE, cachePs, s.externalLedger);
  }

  /** Debit `i` is the first that fails: all earlier ones are permitted and paid, and the code is denial
      where permission is missing, shortage where only the funds are. */
  ghost predicate DebitFailsFirst(sender: Address, ds: seq<Debit>, s: Storage, i: nat, failure: Failure) {
    && i < |ds| && DebitsAllowed(sender, ds[..i], s) && Payable(ds[..i], s)
    && if sender != s.custodian && Operator(ds[i].kyc, sender, ds[i].token.tokenId) !in s.operators
       then failure == FailWith(PERMISSIONS_DENIED)
       else
         var h := Holding(ds[i].kyc, ds[i].token);
         failure == FailWith(INSUFFICIENT_BALANCE) && Get(s.ledger, h) - Owed(ds[..i], h) < ds[i].amount
  }

  lemma FailedDebit(sender: Address, ds: seq<Debit>, s: Storage, i: nat)
    requires Reconciled(s) && i < |ds| && Fold(GuardedStep(sender), ds[..i], s).Ok?
    requires GuardedStep(sender)(Fold(GuardedStep(sender), ds[..i], s).value, ds[i]).Err?
    ensures DebitFailsFirst(
              sender, ds, s, i, GuardedStep(sender)(Fold(GuardedStep(sender), ds[..i], s).value, ds[i]).failure)
  {
    var m := Fold(GuardedStep(sender), ds[..i], s).value;
    GuardedWithdrawals(sender, ds[..i], s);
    WithdrawalsExact(ds[..i], s);
    WithdrawalsKeepReconciled(ds[..i], s);
    BalanceWithinTotal(m.ledger, Holding(ds[i].kyc, ds[i].token));
  }

  lemma {:induction false} MissingAddresses<X>(f: X -> Result<Operation>, xs: seq<X>)
    requires forall x <- xs :: f(x).Err? ==> f(x) == Err(FailWith(ADDRESS_NOT_FOUND))
    ensures Traverse(f, xs).Err? ==> Traverse(f, xs) == Err(FailWith(ADDRESS_NOT_FOUND))
  {
    if xs == [] {
    } else {
      assert xs[0] in xs;
      MissingAddresses(f, xs[1..]);
    }
  }

  function SentBatch(self: Address): ExternalTransferBatch -> FA2.TransferBatch {
    (b: ExternalTransferBatch) => FA2.TransferBatch(self, b.txs)
  }

  /** The custodian sends every item itself, to the receiver and in the amount its client asked for. */
  function TransferOp(self: Address): ExternalTransferTx -> Operation {
    (p: ExternalTransferTx) => Transaction(p.tokenAddress, FA2.TransferEntry(Map(SentBatch(self), p.txnBatch)))
  }

  function RetireTxOf(self: Address): InternalRetireData -> RetireTx {
    (d: InternalRetireData) => RetireTx(self, d.tokenId, d.amount, d.retiringData)
  }

  /** The custodian retires every item from its own holding. */
  function RetireOp(self: Address): InternalRetire -> Operation {
    (p: InternalRetire) => Transaction(p.tokenAddress, FA2.RetireEntry(Map(RetireTxOf(self), p.txs)))
  }

  function RetireEvent(source: Address, tokenAddress: Address): InternalRetireData -> Operation {
    (d: InternalRetireData) =>
      Emit(CustodianRetired(source, d.kyc, Token(tokenAddress, d.tokenId), d.amount, d.retiringData))
  }

  /** One event per item, naming the client it is retired for and the transaction's source. */
  function RetireEvents(source: Address): InternalRetire -> seq<Operation> {
    (p: InternalRetire) => Map(RetireEvent(source, p.tokenAddress), p.txs)
  }

  lemma ForwardedTransfers(ctx: Context, externals: seq<ExternalTransferTx>)
    requires Traverse(ForwardTransfer(ctx), externals).Ok?
    ensures Traverse(ForwardTransfer(ctx), externals).value == Map(TransferOp(ctx.self), externals)
    ensures forall p <- externals :: p.tokenAddress in ctx.tokens
  {
    var ops := Traverse(ForwardTransfer(ctx), externals).value;
    forall i | 0 <= i < |externals|
      ensures ops[i] == TransferOp(ctx.self)(externals[i])
    {
      assert ForwardTransfer(ctx)(externals[i]) == Ok(ops[i]);
      assert Map(FromSelf(ctx.self), externals[i].txnBatch) == Map(SentBatch(ctx.self), externals[i].txnBatch);
    }
  }

  lemma ForwardedRetires(ctx: Context, retires: seq<InternalRetire>)
    requires Traverse(ForwardRetire(ctx), retires).Ok?
    ensures Traverse(ForwardRetire(ctx), retires).value == Map(RetireOp(ctx.self), retires)
    ensures forall p <- retires :: p.tokenAddress in ctx.tokens
  {
    var ops := Traverse(ForwardRetire(ctx), retires).value;
    forall i | 0 <= i < |retires|
      ensures ops[i] == RetireOp(ctx.self)(retires[i])
    {
      assert ForwardRetire(ctx)(retires[i]) == Ok(ops[i]);
      assert Map(RetireFromSelf(ctx.self), retires[i].txs) == Map(RetireTxOf(ctx.self), retires[i].txs);
    }
  }

  lemma {:induction false} RetirementEvents(source: Address, retires: seq<InternalRetire>)
    ensures Gather(EmitRetirements(source), retires) == Gather(RetireEvents(source), retires)
  {
    if retires == [] {
    } else {
      assert EmitRetirements(source)(retires[0]) == RetireEvents(source)(retires[0]);
      RetirementEvents(source, retires[1..]);
    }
  }

  lemma ForwardFailure(ctx: Context, retires: seq<InternalRetire>, externals: seq<ExternalTransferTx>)
    ensures Traverse(ForwardRetire(ctx), retires).Ok? <==> forall p <- retires :: p.tokenAddress in ctx.tokens
    ensures Traverse(ForwardTransfer(ctx), externals).Ok? <==> forall p <- externals :: p.tokenAddress in ctx.tokens
  {
    assert forall i :: 0 <= i < |retires| ==>
      (ForwardRetire(ctx)(retires[i]).Ok? <==> retires[i].tokenAddress in ctx.tokens);
    assert forall i :: 0 <= i < |externals| ==>
      (ForwardTransfer(ctx)(externals[i]).Ok? <==> externals[i].tokenAddress in ctx.tokens);
  }

  /** The sender is the custodian, or is the retiring client's operator for the token id of every item. */
  ghost predicate RetirePermits(sender: Address, retires: seq<InternalRetire>, s: Storage) {
    forall p <- retires, d <- p.txs :: sender == s.custodian || Operator(d.kyc, sender, d.tokenId) in s.operators
  }

  lemma RetirePermitsDebits(sender: Address, retires: seq<InternalRetire>, s: Storage)
    ensures RetirePermits(sender, retires, s) <==> DebitsAllowed(sender, RetireDebits(retires), s)
  {
    if RetirePermits(sender, retires, s) {
      forall d <- RetireDebits(retires)
        ensures sender == s.custodian || Operator(d.kyc, sender, d.token.tokenId) in s.operators
      {
        var p := GatherOrigin(RetireBatchDebits, retires, d);
      }
    }
    if DebitsAllowed(sender, RetireDebits(retires), s) {
      forall p <- retires, d <- p.txs
        ensures sender == s.custodian || Operator(d.kyc, sender, d.tokenId) in s.operators
      {
        var i :| 0 <= i < |p.txs| && p.txs[i] == d;
        var debit := Debit(d.kyc, Token(p.tokenAddress, d.tokenId), d.amount);
        assert RetireBatchDebits(p)[i] == debit;
        GatherContains(RetireBatchDebits, retires, p, debit);
      }
    }
  }

  /** `retire` as a whole: permission and funds decide the local phase, then every named token contract must
      exist; what a successful call debits and emits, and which code a failed one carries. */
  lemma RetireExact(ctx: Context, retires: seq<InternalRetire>, s: Storage)
    requires Reconciled(s)
    ensures var ds := RetireDebits(retires);
            var r := Retire(ctx, retires, s);
            var granted := RetirePermits(ctx.sender, retires, s) && Payable(ds, s);
            && (r.Ok? <==> granted && forall p <- retires :: p.tokenAddress in ctx.tokens)
            && (r.Ok? ==>
                  && Paid(ds, s, r.value.1)
                  && r.value.0 == Map(RetireOp(ctx.self), retires) + Gather(RetireEvents(ctx.source), retires))
            && (granted && r.Err? ==> r == Err(FailWith(ADDRESS_NOT_FOUND)))
            && (!granted ==> r.Err? && exists i :: DebitFailsFirst(ctx.sender, ds, s, i, r.failure))
  {
    var ds := RetireDebits(retires);
    RetirePermitsDebits(ctx.sender, retires, s);
    RetireFlattens(ctx.sender, retires, s);
    GuardedWithdrawals(ctx.sender, ds, s);
    WithdrawalsExact(ds, s);
    ForwardFailure(ctx, retires, []);
    MissingAddresses(ForwardRetire(ctx), retires);
    if Fold(GuardedStep(ctx.sender), ds, s).Err? {
      var i := FoldFailure(GuardedStep(ctx.sender), ds, s);
      FailedDebit(ctx.sender, ds, s, i);
    } else if Retire(ctx, retires, s).Ok? {
      ForwardedRetires(ctx, retires);
      RetirementEvents(ctx.source, retires);
    }
  }

  lemma PrefixOwed(ds: seq<Debit>, i: nat, h: Owner)
    requires i < |ds|
    ensures Owed(ds[..i], h) + OwedBy(h)(ds[i]) <= Owed(ds, h)
  {
    assert ds == ds[..i] + [ds[i]] + ds[i + 1..];
    SumAppend(OwedBy(h), ds[..i] + [ds[i]], ds[i + 1..]);
    SumAppend(OwedBy(h), ds[..i], [ds[i]]);
    SumOne(OwedBy(h), ds[i]);
    SumNonnegative(OwedBy(h), ds[i + 1..]);
  }

  /** A stranger retires nothing: an item whose client has not named the sender operator for its token id
      refuses the whole call, and with denial where funds are no obstacle. */
  lemma StrangerRetiresNothing(ctx: Context, retires: seq<InternalRetire>, p: InternalRetire, d: InternalRetireData,
      s: Storage)
    requires Reconciled(s) && p in retires && d in p.txs
    requires ctx.sender != s.custodian && Operator(d.kyc, ctx.sender, d.tokenId) !in s.operators
    ensures Retire(ctx, retires, s).Err?
    ensures Payable(RetireDebits(retires), s) ==> Retire(ctx, retires, s) == Err(FailWith(PERMISSIONS_DENIED))
  {
    var ds := RetireDebits(retires);
    RetireExact(ctx, retires, s);
    if Payable(ds, s) {
      var i: nat :| DebitFailsFirst(ctx.sender, ds, s, i, Retire(ctx, retires, s).failure);
      PrefixOwed(ds, i, Holding(ds[i].kyc, ds[i].token));
    }
  }

  /** `external_transfer` as a whole: the custodian's alone, then funds, then known token contracts; what a
      successful call debits and forwards, and which code a failed one carries. */
  lemma ExternalTransferExact(ctx: Context, externals: seq<ExternalTransferTx>, s: Storage)
    requires Reconciled(s)
    ensures var ds := ExternalDebits(externals);
            var r := ExternalTransfer(ctx, externals, s);
            var known := forall p <- externals :: p.tokenAddress in ctx.tokens;
            && (r.Ok? <==> ctx.sender == s.custodian && Payable(ds, s) && known)
            && (r.Ok? ==> Paid(ds, s, r.value.1) && r.value.0 == Map(TransferOp(ctx.self), externals))
            && (r.Err? ==> r == Err(FailWith(
                  if ctx.sender != s.custodian then PERMISSIONS_DENIED
                  else if !Payable(ds, s) then INSUFFICIENT_BALANCE
                  else ADDRESS_NOT_FOUND)))
  {
    ExternalTransferFlattens(externals, s);
    WithdrawalsExact(ExternalDebits(externals), s);
    ForwardFailure(ctx, [], externals);
    MissingAddresses(ForwardTransfer(ctx), externals);
    if ExternalTransfer(ctx, externals, s).Ok? {
      ForwardedTransfers(ctx, externals);
    }
  }

  lemma AllowedPermutes(sender: Address, ds: seq<Debit>, ds': seq<Debit>, s: Storage)
    requires multiset(ds) == multiset(ds')
    ensures DebitsAllowed(sender, ds, s) <==> DebitsAllowed(sender, ds', s)
  {
    forall d ensures d in ds <==> d in ds' {
      assert d in ds <==> d in multiset(ds);
    }
  }

  /** Regrouping a retire batch changes neither the verdict of the local phase nor the storage it leaves. */
  lemma {:induction false} RetireRegroups(sender: Address, retires: seq<InternalRetire>,
      retires': seq<InternalRetire>, s: Storage)
    requires Sound(s) && multiset(RetireDebits(retires)) == multiset(RetireDebits(retires'))
    ensures var r, r' := Fold(RetireBatchStep(sender), retires, s), Fold(RetireBatchStep(sender), retires', s);
            && (r.Ok? <==> r'.Ok?)
            && (r.Ok? ==> r == r')
  {
    var ds, ds' := RetireDebits(retires), RetireDebits(retires');
    RetireFlattens(sender, retires, s);
    RetireFlattens(sender, retires', s);
    GuardedWithdrawals(sender, ds, s);
    GuardedWithdrawals(sender, ds', s);
    AllowedPermutes(sender, ds, ds', s);
    WithdrawalsPermute(ds, ds', s);
  }

  lemma ExternalTransferRegroups(externals: seq<ExternalTransferTx>,
      externals': seq<ExternalTransferTx>, s: Storage)
    requires Sound(s) && multiset(ExternalDebits(externals)) == multiset(ExternalDebits(externals'))
    ensures var r, r' := Fold(ExternalTransferTxStep, externals, s), Fold(ExternalTransferTxStep, externals', s);
            && (r.Ok? <==> r'.Ok?)
            && (r.Ok? ==> r == r')
  {
    ExternalTransferFlattens(externals, s);
    ExternalTransferFlattens(externals', s);
    WithdrawalsPermute(ExternalDebits(externals), ExternalDebits(externals'), s);
  }
}
