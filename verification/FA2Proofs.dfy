/** What the token contract's entrypoints do to balances, operators and metadata. */
module FA2Proofs {
  import opened Outcomes
  import opened Lists
  import opened Ledgers
  import opened Operators
  import opened Tezos
  import opened FA2

  // ---------- transfer as one list of atomic moves ----------

  function MoveFrom(from: Address): TransferTo -> Move<Address, nat> {
    (p: TransferTo) => Move(from, p.to, p.tokenId, p.amount)
  }

  function BatchMoves(p: TransferBatch): seq<Move<Address, nat>> {
    Map(MoveFrom(p.from), p.txs)
  }

  /** The atomic moves of a transfer parameter, in the order the nested folds visit them. */
  function Moves(batches: seq<TransferBatch>): seq<Move<Address, nat>> {
    Gather(BatchMoves, batches)
  }

  function MoveStep(sender: Address): (Storage, Move<Address, nat>) -> Result<Storage> {
    (s: Storage, mv: Move<Address, nat>) =>
      TransferStep(sender, mv.from)(s, TransferTo(mv.to, mv.item, mv.amount))
  }

  /** The nested folds are one fold over the flattened moves, failures included. */
  lemma TransferFlattens(sender: Address, batches: seq<TransferBatch>, s: Storage)
    ensures Fold(TransferBatchStep(sender), batches, s) == Fold(MoveStep(sender), Moves(batches), s)
  {
    forall s, p
      ensures TransferBatchStep(sender)(s, p) == Fold(MoveStep(sender), BatchMoves(p), s)
    {
      FoldMap(TransferStep(sender, p.from), MoveStep(sender), MoveFrom(p.from), p.txs, s);
    }
    FoldNested(TransferBatchStep(sender), MoveStep(sender), BatchMoves, batches, s);
  }

  ghost predicate MovesAllowed(sender: Address, mvs: seq<Move<Address, nat>>, operators: set<Operator>) {
    forall mv <- mvs :: sender == mv.from || Operator(mv.from, sender, mv.item) in operators
  }

  /** One item: permission is asked first, then the destination is credited and the source debited. */
  lemma GuardedMove(sender: Address, mv: Move<Address, nat>, s: Storage)
    ensures MoveStep(sender)(s, mv) ==
            if sender != mv.from && Operator(mv.from, sender, mv.item) !in s.operators
            then Err(FailWith(PERMISSIONS_DENIED))
            else match Post(INSUFFICIENT_BALANCE, Entries(mv), s.ledger) {
              case Ok(ledger) => Ok(s.(ledger := ledger))
              case Err(_) => Err(FailWith(INSUFFICIENT_BALANCE))
            }
  {
    PostPair(INSUFFICIENT_BALANCE, Entries(mv), s.ledger);
    assert MoveStep(sender)(s, mv) == TransferStep(sender, mv.from)(s, TransferTo(mv.to, mv.item, mv.amount));
  }

  /** A fold of guarded moves checks every permission and posts the moves' entries. */
  lemma {:induction false} GuardedMoves(sender: Address, mvs: seq<Move<Address, nat>>, s: Storage)
    ensures var posted := Post(INSUFFICIENT_BALANCE, MovePostings(mvs), s.ledger);
            var r := Fold(MoveStep(sender), mvs, s);
            && (r.Ok? <==> MovesAllowed(sender, mvs, s.operators) && posted.Ok?)
            && (r.Ok? ==> r.value == s.(ledger := posted.value))
  {
    if mvs == [] {
    } else {
      var mv := mvs[0];
      var es := Entries(mv);
      PostAppend(INSUFFICIENT_BALANCE, es, MovePostings(mvs[1..]), s.ledger);
      GuardedMove(sender, mv, s);
      assert mvs == [mv] + mvs[1..];
      match MoveStep(sender)(s, mv)
      case Ok(m) =>
        GuardedMoves(sender, mvs[1..], m);
      case Err(_) =>
    }
  }

  /** Move `i` is the first that fails: all earlier ones are permitted and covered, and the code is denial
      where permission is missing, shortage where only the funds are. */
  ghost predicate MoveFailsFirst(sender: Address, mvs: seq<Move<Address, nat>>, s: Storage, i: nat, failure: Failure) {
    && i < |mvs| && MovesAllowed(sender, mvs[..i], s.operators) && Covered(mvs[..i], s.ledger)
    && if sender != mvs[i].from && Operator(mvs[i].from, sender, mvs[i].item) !in s.operators
       then failure == FailWith(PERMISSIONS_DENIED)
       else failure == FailWith(INSUFFICIENT_BALANCE) && !CoveredAt(mvs, s.ledger, i)
  }

  lemma FailedMove(sender: Address, mvs: seq<Move<Address, nat>>, s: Storage, i: nat)
    requires i < |mvs| && Fold(MoveStep(sender), mvs[..i], s).Ok?
    requires MoveStep(sender)(Fold(MoveStep(sender), mvs[..i], s).value, mvs[i]).Err?
    ensures MoveFailsFirst(
              sender, mvs, s, i, MoveStep(sender)(Fold(MoveStep(sender), mvs[..i], s).value, mvs[i]).failure)
  {
    var m := Fold(MoveStep(sender), mvs[..i], s).value;
    GuardedMoves(sender, mvs[..i], s);
    MovesExact(INSUFFICIENT_BALANCE, mvs[..i], s.ledger);
    GuardedMove(sender, mvs[i], m);
    OneMove(INSUFFICIENT_BALANCE, mvs[i], m.ledger);
  }

  /** The sender owns the tokens of every item, or is the owner's operator for that very token id. */
  ghost predicate Permits(sender: Address, batches: seq<TransferBatch>, operators: set<Operator>) {
    forall b <- batches, p <- b.txs :: sender == b.from || Operator(b.from, sender, p.tokenId) in operators
  }

  lemma PermitsMoves(sender: Address, batches: seq<TransferBatch>, operators: set<Operator>)
    ensures Permits(sender, batches, operators) <==> MovesAllowed(sender, Moves(batches), operators)
  {
    if Permits(sender, batches, operators) {
      forall mv <- Moves(batches)
        ensures sender == mv.from || Operator(mv.from, sender, mv.item) in operators
      {
        var b := GatherOrigin(BatchMoves, batches, mv);
      }
    }
    if MovesAllowed(sender, Moves(batches), operators) {
      forall b <- batches, p <- b.txs
        ensures sender == b.from || Operator(b.from, sender, p.tokenId) in operators
      {
        var i :| 0 <= i < |b.txs| && b.txs[i] == p;
        var mv := Move(b.from, p.to, p.tokenId, p.amount);
        assert BatchMoves(b)[i] == mv;
        GatherContains(BatchMoves, batches, b, mv);
      }
    }
  }

  /** `transfer` succeeds exactly when every item is permitted and, at each step, either source and
      destination coincide or the source holds the amount; each balance then shifts by inflow less outflow. */
  lemma TransferExact(sender: Address, batches: seq<TransferBatch>, s: Storage)
    ensures var mvs := Moves(batches);
            var r := Transfer(sender, batches, s);
            && (r.Ok? <==> Permits(sender, batches, s.operators) && Covered(mvs, s.ledger))
            && (r.Ok? ==>
                  && r.value == ([], s.(ledger := r.value.1.ledger))
                  && (forall h :: Get(r.value.1.ledger, h) == Get(s.ledger, h) + Inflow(mvs, h) - Outflow(mvs, h)))
            && (r.Err? ==> exists i :: MoveFailsFirst(sender, mvs, s, i, r.failure))
  {
    var mvs := Moves(batches);
    PermitsMoves(sender, batches, s.operators);
    TransferFlattens(sender, batches, s);
    GuardedMoves(sender, mvs, s);
    MovesExact(INSUFFICIENT_BALANCE, mvs, s.ledger);
    if Transfer(sender, batches, s).Err? {
      var i := FoldFailure(MoveStep(sender), mvs, s);
      FailedMove(sender, mvs, s, i);
    }
  }

  /** Transferring two batches in one call is transferring one after the other. */
  lemma TransferComposes(sender: Address, first: seq<TransferBatch>, second: seq<TransferBatch>, s: Storage)
    ensures Transfer(sender, first + second, s) ==
            match Transfer(sender, first, s) {
              case Ok(r) => Transfer(sender, second, r.1)
              case Err(e) => Err(e)
            }
  {
    FoldAppend(TransferBatchStep(sender), first, second, s);
  }

  /** TZIP-12 asks for the balance even when source and destination coincide; crediting first, the contract
      does not: a self-transfer of any amount succeeds and leaves a canonical ledger as it was. */
  lemma SelfTransferAboveBalance(owner: Address, id: nat, amount: nat, s: Storage)
    requires Canonical(s.ledger)
    ensures Transfer(owner, [TransferBatch(owner, [TransferTo(owner, id, amount)])], s) == Ok(([], s))
  {
    var batches := [TransferBatch(owner, [TransferTo(owner, id, amount)])];
    var mv := Move(owner, owner, id, amount);
    GatherOne(BatchMoves, batches[0]);
    assert Moves(batches) == [mv];
    TransferExact(owner, batches, s);
    TransferFlattens(owner, batches, s);
    GuardedMoves(owner, [mv], s);
    PostExact(INSUFFICIENT_BALANCE, MovePostings([mv]), s.ledger);
    var ledger := Transfer(owner, batches, s).value.1.ledger;
    forall h ensures Get(ledger, h) == Get(s.ledger, h) {
      SumOne(InflowOf(h), mv);
      SumOne(OutflowOf(h), mv);
    }
    CanonicalExtensional(ledger, s.ledger);
  }

  // ---------- retire and mint as postings ----------

  function RetirePosting(tx: RetireTx): Posting<Owner> {
    Posting(Holding(tx.retiringParty, tx.tokenId), -(tx.amount as int))
  }

  function MintPosting(p: MintData): Posting<Owner> {
    Posting(Holding(p.owner, p.tokenId), p.qty)
  }

  ghost predicate RetireAllowed(sender: Address, txs: seq<RetireTx>, operators: set<Operator>) {
    forall tx <- txs :: sender == tx.retiringParty || Operator(tx.retiringParty, sender, tx.tokenId) in operators
  }

  lemma {:induction false} GuardedRetire(sender: Address, txs: seq<RetireTx>, storage: Storage, s: Storage)
    requires s == storage.(ledger := s.ledger)
    ensures var posted := Post(INSUFFICIENT_BALANCE, Map(RetirePosting, txs), s.ledger);
            var r := Fold(RetireStep(sender, storage), txs, s);
            && (r.Ok? <==> RetireAllowed(sender, txs, storage.operators) && posted.Ok?)
            && (r.Ok? ==> r.value == storage.(ledger := posted.value))
  {
    if txs == [] {
    } else {
      assert txs == [txs[0]] + txs[1..];
      assert Map(RetirePosting, txs)[1..] == Map(RetirePosting, txs[1..]);
      match RetireStep(sender, storage)(s, txs[0])
      case Ok(m) =>
        GuardedRetire(sender, txs[1..], storage, m);
      case Err(_) =>
    }
  }

  lemma {:induction false} GuardedMint(mints: seq<MintData>, storage: Storage, s: Storage)
    requires s == storage.(ledger := s.ledger)
    ensures var posted := Post(INSUFFICIENT_BALANCE, Map(MintPosting, mints), s.ledger);
            var r := Fold(MintStep(storage), mints, s);
            && (r.Ok? <==> (forall p <- mints :: p.tokenId in storage.tokenMetadata) && posted.Ok?)
            && (r.Ok? ==> r.value == storage.(ledger := posted.value))
            && (r.Err? && posted.Ok? ==> r == Err(FailWith(TOKEN_UNDEFINED)))
  {
    if mints == [] {
    } else {
      assert mints == [mints[0]] + mints[1..];
      assert Map(MintPosting, mints)[1..] == Map(MintPosting, mints[1..]);
      match MintStep(storage)(s, mints[0])
      case Ok(m) =>
        GuardedMint(mints[1..], storage, m);
      case Err(_) =>
    }
  }

  /** Each owner can pay the total of its items. */
  ghost predicate Payable(txs: seq<RetireTx>, s: Storage) {
    forall h :: Get(s.ledger, h) + Net(Map(RetirePosting, txs), h) >= 0
  }

  lemma RetirePayable(txs: seq<RetireTx>, s: Storage)
    ensures Post(INSUFFICIENT_BALANCE, Map(RetirePosting, txs), s.ledger).Ok? <==> Payable(txs, s)
  {
    var ps := Map(RetirePosting, txs);
    assert forall p <- ps :: p.diff <= 0;
    DebitsExact(INSUFFICIENT_BALANCE, ps, s.ledger);
  }

  /** Item `i` is the first that fails, with the code of what it lacks. */
  ghost predicate RetireFailsFirst(sender: Address, txs: seq<RetireTx>, s: Storage, i: nat, failure: Failure) {
    && i < |txs| && RetireAllowed(sender, txs[..i], s.operators) && Payable(txs[..i], s)
    && if sender != txs[i].retiringParty && Operator(txs[i].retiringParty, sender, txs[i].tokenId) !in s.operators
       then failure == FailWith(PERMISSIONS_DENIED)
       else
         var h := Holding(txs[i].retiringParty, txs[i].tokenId);
         && failure == FailWith(INSUFFICIENT_BALANCE)
         && Get(s.ledger, h) + Net(Map(RetirePosting, txs[..i]), h) < txs[i].amount
  }

  lemma FailedRetire(sender: Address, txs: seq<RetireTx>, s: Storage, i: nat)
    requires i < |txs| && Fold(RetireStep(sender, s), txs[..i], s).Ok?
    requires RetireStep(sender, s)(Fold(RetireStep(sender, s), txs[..i], s).value, txs[i]).Err?
    ensures RetireFailsFirst(
              sender, txs, s, i, RetireStep(sender, s)(Fold(RetireStep(sender, s), txs[..i], s).value, txs[i]).failure)
  {
    GuardedRetire(sender, txs[..i], s, s);
    RetirePayable(txs[..i], s);
    PostExact(INSUFFICIENT_BALANCE, Map(RetirePosting, txs[..i]), s.ledger);
  }

  /** `retire` succeeds exactly when every item is permitted and each owner can pay its total, in any order. */
  lemma RetireExact(sender: Address, txs: seq<RetireTx>, s: Storage)
    ensures var ps := Map(RetirePosting, txs);
            var r := RetireTokens(sender, txs, s);
            && (r.Ok? <==> RetireAllowed(sender, txs, s.operators) && Payable(txs, s))
            && (r.Ok? ==>
                  && |r.value.0| == |txs|
                  && (forall i :: 0 <= i < |txs| ==> r.value.0[i] == TokenRetired(txs[i]))
                  && r.value.1 == s.(ledger := r.value.1.ledger)
                  && Shifted(s.ledger, ps, r.value.1.ledger))
            && (r.Err? ==> exists i :: RetireFailsFirst(sender, txs, s, i, r.failure))
  {
    var ps := Map(RetirePosting, txs);
    GuardedRetire(sender, txs, s, s);
    RetirePayable(txs, s);
    PostExact(INSUFFICIENT_BALANCE, ps, s.ledger);
    if RetireTokens(sender, txs, s).Err? {
      var i := FoldFailure(RetireStep(sender, s), txs, s);
      FailedRetire(sender, txs, s, i);
    }
  }

  /** `mint` succeeds exactly for the oracle and known token ids; minting itself never overdraws. */
  lemma MintExact(sender: Address, mints: seq<MintData>, s: Storage)
    ensures var ps := Map(MintPosting, mints);
            var r := MintTokens(sender, mints, s);
            && (r.Ok? <==> sender == s.oracle && forall p <- mints :: p.tokenId in s.tokenMetadata)
            && (r.Ok? ==>
                  && r.value == ([], s.(ledger := r.value.1.ledger))
                  && Shifted(s.ledger, ps, r.value.1.ledger))
            && (r.Err? ==> r == Err(FailWith(if sender != s.oracle then PERMISSIONS_DENIED else TOKEN_UNDEFINED)))
  {
    var ps := Map(MintPosting, mints);
    GuardedMint(mints, s, s);
    assert forall p <- ps :: p.diff >= 0;
    CreditsSucceed(INSUFFICIENT_BALANCE, ps, s.ledger);
    PostExact(INSUFFICIENT_BALANCE, ps, s.ledger);
  }

  // ---------- operators and metadata ----------

  ghost predicate AllOwn(sender: Address, us: seq<OperatorUpdate<Operator>>) {
    forall u <- us :: u.operator.tokenOwner == sender
  }

  ghost predicate NoneAddsItself(us: seq<OperatorUpdate<Operator>>) {
    forall u <- us :: u.AddOperator? ==> u.operator.tokenOperator != u.operator.tokenOwner
  }

  /** Update `i` is the first that fails, with the code of what is wrong with it. */
  ghost predicate UpdateFailsFirst(sender: Address, us: seq<OperatorUpdate<Operator>>, i: nat, failure: Failure) {
    && i < |us| && AllOwn(sender, us[..i]) && NoneAddsItself(us[..i])
    && if us[i].operator.tokenOwner != sender then failure == FailWith(PERMISSIONS_DENIED)
       else
         && failure == FailWith(COLLISION)
         && us[i].AddOperator? && us[i].operator.tokenOperator == us[i].operator.tokenOwner
  }

  lemma {:induction false} GuardedUpdates(sender: Address, us: seq<OperatorUpdate<Operator>>, s: Storage)
    ensures var r := Fold(OperatorStep(sender), us, s);
            && (r.Ok? <==> AllOwn(sender, us) && NoneAddsItself(us))
            && (r.Ok? ==> r.value == s.(operators := UpdateAll(us, s.operators)))
  {
    if us == [] {
    } else {
      assert us == [us[0]] + us[1..];
      match OperatorStep(sender)(s, us[0])
      case Ok(m) =>
        GuardedUpdates(sender, us[1..], m);
      case Err(_) =>
    }
  }

  /** `update_operators` succeeds exactly when the sender owns every entry and never adds itself; it then
      applies every update and nothing else. */
  lemma OperatorUpdatesExact(sender: Address, us: seq<OperatorUpdate<Operator>>, s: Storage)
    ensures var r := UpdateOperators(sender, us, s);
            && (r.Ok? <==> AllOwn(sender, us) && NoneAddsItself(us))
            && (r.Ok? ==> r.value == ([], s.(operators := UpdateAll(us, s.operators))))
            && (r.Err? ==> exists i :: UpdateFailsFirst(sender, us, i, r.failure))
  {
    GuardedUpdates(sender, us, s);
    if Fold(OperatorStep(sender), us, s).Err? {
      var i := FoldFailure(OperatorStep(sender), us, s);
      GuardedUpdates(sender, us[..i], s);
      assert UpdateFailsFirst(sender, us, i, Fold(OperatorStep(sender), us, s).failure);
    }
  }

  ghost predicate FreshIds(metadata: seq<TokenMetadata>, known: map<nat, TokenMetadata>) {
    && (forall i :: 0 <= i < |metadata| ==> metadata[i].tokenId !in known)
    && (forall i, j :: 0 <= i < j < |metadata| ==> metadata[i].tokenId != metadata[j].tokenId)
  }

  ghost predicate Extends(known: map<nat, TokenMetadata>, known': map<nat, TokenMetadata>) {
    forall id :: id in known ==> id in known' && known'[id] == known[id]
  }

  /** Each entry sits under its own id. */
  ghost predicate Keyed(known: map<nat, TokenMetadata>) {
    forall id :: id in known ==> known[id].tokenId == id
  }

  lemma FreshIdsCons(d: TokenMetadata, rest: seq<TokenMetadata>, known: map<nat, TokenMetadata>)
    ensures FreshIds([d] + rest, known) <==> d.tokenId !in known && FreshIds(rest, known[d.tokenId := d])
  {
    var all, known' := [d] + rest, known[d.tokenId := d];
    assert all[0] == d && forall i :: 0 <= i < |rest| ==> all[i + 1] == rest[i];
    if FreshIds(all, known) {
      forall i | 0 <= i < |rest|
        ensures rest[i].tokenId !in known'
      {
        assert all[0].tokenId != all[i + 1].tokenId;
      }
      forall i, j | 0 <= i < j < |rest|
        ensures rest[i].tokenId != rest[j].tokenId
      {
        assert all[i + 1].tokenId != all[j + 1].tokenId;
      }
    }
    if d.tokenId !in known && FreshIds(rest, known') {
      forall i, j | 0 <= i < j < |all|
        ensures all[i].tokenId != all[j].tokenId
      {
        assert rest[j - 1].tokenId !in known';
        assert i > 0 ==> all[i] == rest[i - 1];
      }
    }
  }

  /** The listed entries were new, each is now filed under its own id, every earlier entry is kept, and
      nothing else was added. */
  ghost predicate Filed(metadata: seq<TokenMetadata>, known: map<nat, TokenMetadata>, known': map<nat, TokenMetadata>) {
    && FreshIds(metadata, known)
    && Extends(known, known')
    && (forall d <- metadata :: d.tokenId in known' && known'[d.tokenId] == d)
    && known'.Keys == known.Keys + (set d <- metadata :: d.tokenId)
  }

  lemma {:induction false} GuardedAdds(metadata: seq<TokenMetadata>, s: Storage)
    ensures var r := Fold(AddTokenStep, metadata, s);
            && (r.Ok? <==> FreshIds(metadata, s.tokenMetadata))
            && (r.Ok? ==>
                  && r.value == s.(tokenMetadata := r.value.tokenMetadata)
                  && Filed(metadata, s.tokenMetadata, r.value.tokenMetadata))
            && (r.Err? ==> r == Err(FailWith(ID_ALREADY_IN_USE)))
  {
    if metadata == [] {
    } else {
      var d, rest := metadata[0], metadata[1..];
      assert metadata == [d] + rest;
      FreshIdsCons(d, rest, s.tokenMetadata);
      match AddTokenStep(s, d)
      case Ok(m) =>
        GuardedAdds(rest, m);
      case Err(_) =>
    }
  }

  /** `add_token_id` is write-once: it succeeds exactly when the oracle lists ids new to the contract and to
      the batch, keeps every earlier entry and files exactly the listed ones. */
  lemma AddTokensExact(sender: Address, metadata: seq<TokenMetadata>, s: Storage)
    ensures var r := AddTokenId(sender, metadata, s);
            && (r.Ok? <==> sender == s.oracle && FreshIds(metadata, s.tokenMetadata))
            && (r.Ok? ==>
                  && r.value == ([], s.(tokenMetadata := r.value.1.tokenMetadata))
                  && Filed(metadata, s.tokenMetadata, r.value.1.tokenMetadata))
            && (r.Err? ==> r == Err(FailWith(if sender != s.oracle then PERMISSIONS_DENIED else ID_ALREADY_IN_USE)))
  {
    GuardedAdds(metadata, s);
  }

  // ---------- every entrypoint at once ----------

  /** The postings an entrypoint makes to the ledger. */
  function LedgerPostings(entry: Entrypoint): seq<Posting<Owner>> {
    match entry
    case TransferEntry(batches) => MovePostings(Moves(batches))
    case MintEntry(mints) => Map(MintPosting, mints)
    case RetireEntry(txs) => Map(RetirePosting, txs)
    case _ => []
  }

  function OperatorUpdates(entry: Entrypoint): seq<OperatorUpdate<Operator>> {
    if entry.UpdateOperatorsEntry? then entry.updates else []
  }

  function RetiredEvent(tx: RetireTx): Event {
    TokenRetired(tx)
  }

  function EntryEvents(entry: Entrypoint): seq<Event> {
    if entry.RetireEntry? then Map(RetiredEvent, entry.txs) else []
  }

  /** The calls reserved for the oracle. */
  predicate ForOracle(entry: Entrypoint) {
    entry.MintEntry? || entry.AddTokenIdEntry? || entry.UpdateOracleEntry?
  }

  function ListedMetadata(entry: Entrypoint): seq<TokenMetadata> {
    if entry.AddTokenIdEntry? then entry.metadata else []
  }

  /** A successful call posts its postings, applies its operator updates, emits its events, files its
      metadata, and passes the oracle's role on only when the oracle says so. */
  lemma MainEffect(sender: Address, entry: Entrypoint, s: Storage)
    requires Main(sender, entry, s).Ok?
    ensures var (events, s') := Main(sender, entry, s).value;
            && Post(INSUFFICIENT_BALANCE, LedgerPostings(entry), s.ledger) == Ok(s'.ledger)
            && s'.operators == UpdateAll(OperatorUpdates(entry), s.operators)
            && events == EntryEvents(entry)
            && Filed(ListedMetadata(entry), s.tokenMetadata, s'.tokenMetadata)
            && (ForOracle(entry) ==> sender == s.oracle)
            && s'.oracle == (if entry.UpdateOracleEntry? then entry.newOracle else s.oracle)
  {
    match entry
    case TransferEntry(batches) =>
      TransferFlattens(sender, batches, s);
      GuardedMoves(sender, Moves(batches), s);
    case MintEntry(mints) => GuardedMint(mints, s, s);
    case RetireEntry(txs) =>
      GuardedRetire(sender, txs, s, s);
      assert Map(EmitRetired, txs) == Map(RetiredEvent, txs);
    case UpdateOperatorsEntry(updates) => OperatorUpdatesExact(sender, updates, s);
    case AddTokenIdEntry(metadata) => AddTokensExact(sender, metadata, s);
    case UpdateOracleEntry(_) =>
  }

  lemma FiledKeepsKeyed(metadata: seq<TokenMetadata>, known: map<nat, TokenMetadata>, known': map<nat, TokenMetadata>)
    requires Filed(metadata, known, known') && Keyed(known)
    ensures Keyed(known')
  {
    forall id | id in known'
      ensures known'[id].tokenId == id
    {
      if id !in known {
        var d :| d in metadata && d.tokenId == id;
      }
    }
  }

  /** When the contract accepts a call: each entrypoint's condition, over its own parameter. */
  ghost predicate Accepts(sender: Address, entry: Entrypoint, s: Storage) {
    match entry
    case TransferEntry(batches) =>
      Permits(sender, batches, s.operators) && Covered(Moves(batches), s.ledger)
    case UpdateOperatorsEntry(updates) => AllOwn(sender, updates) && NoneAddsItself(updates)
    case MintEntry(mints) => sender == s.oracle && forall p <- mints :: p.tokenId in s.tokenMetadata
    case RetireEntry(txs) => RetireAllowed(sender, txs, s.operators) && Payable(txs, s)
    case AddTokenIdEntry(metadata) => sender == s.oracle && FreshIds(metadata, s.tokenMetadata)
    case UpdateOracleEntry(_) => sender == s.oracle
  }

  /** Which code a refused call carries: that of the first failing item, or of the missing role. */
  ghost predicate Refuses(sender: Address, entry: Entrypoint, s: Storage, failure: Failure) {
    match entry
    case TransferEntry(batches) => exists i :: MoveFailsFirst(sender, Moves(batches), s, i, failure)
    case UpdateOperatorsEntry(updates) => exists i :: UpdateFailsFirst(sender, updates, i, failure)
    case MintEntry(_) =>
      failure == FailWith(if sender != s.oracle then PERMISSIONS_DENIED else TOKEN_UNDEFINED)
    case RetireEntry(txs) => exists i :: RetireFailsFirst(sender, txs, s, i, failure)
    case AddTokenIdEntry(_) =>
      failure == FailWith(if sender != s.oracle then PERMISSIONS_DENIED else ID_ALREADY_IN_USE)
    case UpdateOracleEntry(_) => failure == FailWith(PERMISSIONS_DENIED)
  }

  /** Dispatch and verdict of every entrypoint. */
  lemma MainExact(sender: Address, entry: Entrypoint, s: Storage)
    ensures Main(sender, entry, s).Ok? <==> Accepts(sender, entry, s)
    ensures Main(sender, entry, s).Err? ==> Refuses(sender, entry, s, Main(sender, entry, s).failure)
  {
    match entry
    case TransferEntry(batches) => TransferExact(sender, batches, s);
    case UpdateOperatorsEntry(updates) => OperatorUpdatesExact(sender, updates, s);
    case MintEntry(mints) => MintExact(sender, mints, s);
    case RetireEntry(txs) => RetireExact(sender, txs, s);
    case AddTokenIdEntry(metadata) => AddTokensExact(sender, metadata, s);
    case UpdateOracleEntry(_) =>
  }

  /** A balance falls only in a call by its owner or by an operator the owner had named for that token. */
  lemma MainSpends(sender: Address, entry: Entrypoint, s: Storage, h: Owner)
    requires Main(sender, entry, s).Ok?
    requires Get(Main(sender, entry, s).value.1.ledger, h) < Get(s.ledger, h)
    ensures sender == h.owner || Operator(h.owner, sender, h.item) in s.operators
  {
    MainEffect(sender, entry, s);
    PostExact(INSUFFICIENT_BALANCE, LedgerPostings(entry), s.ledger);
    var p := NegativeNetHasDebit(LedgerPostings(entry), h);
    if entry.TransferEntry? {
      TransferExact(sender, entry.batches, s);
      PermitsMoves(sender, entry.batches, s.operators);
      var mv := GatherOrigin(Entries, Moves(entry.batches), p);
    } else if entry.RetireEntry? {
      RetireExact(sender, entry.txs, s);
    }
  }

  /** Only an owner adds operators for its own tokens, and never itself. */
  lemma NewOperators(sender: Address, entry: Entrypoint, s: Storage, o: Operator)
    requires Main(sender, entry, s).Ok? && o in Main(sender, entry, s).value.1.operators && o !in s.operators
    ensures o.tokenOwner == sender && o.tokenOperator != sender
  {
    MainEffect(sender, entry, s);
    LastUpdateDecides(OperatorUpdates(entry), s.operators, o);
    if entry.UpdateOperatorsEntry? {
      OperatorUpdatesExact(sender, entry.updates, s);
    }
  }

  // ---------- storage invariant ----------

  /** Holds of every storage a run can reach: no stored zero, every held token id has metadata filed
      under its own id, and no owner is its own operator. */
  ghost predicate Sound(s: Storage) {
    && Canonical(s.ledger)
    && (forall h :: h in s.ledger ==> h.item in s.tokenMetadata)
    && Keyed(s.tokenMetadata)
    && (forall o <- s.operators :: o.tokenOwner != o.tokenOperator)
  }

  /** Only `mint` raises the total of a token, and it does so for known ids alone. */
  lemma {:induction false} RaisedTotalIsMinted(mints: seq<MintData>, id: nat)
    requires NetIn(Map(MintPosting, mints), id) > 0
    ensures exists p <- mints :: p.tokenId == id
  {
    assert Map(MintPosting, mints)[1..] == Map(MintPosting, mints[1..]);
    if mints[0].tokenId != id {
      RaisedTotalIsMinted(mints[1..], id);
    }
  }

  lemma {:induction false} RetireLowersTotals(txs: seq<RetireTx>, id: nat)
    ensures NetIn(Map(RetirePosting, txs), id) <= 0
  {
    if txs == [] {
    } else {
      assert Map(RetirePosting, txs)[1..] == Map(RetirePosting, txs[1..]);
      RetireLowersTotals(txs[1..], id);
    }
  }

  /** A token id held after a call was held before it or has metadata, although transfers never check. */
  lemma HeldIdsAreKnown(sender: Address, entry: Entrypoint, s: Storage, h: Owner)
    requires Sound(s) && Main(sender, entry, s).Ok?
    requires h in Main(sender, entry, s).value.1.ledger
    ensures h.item in s.tokenMetadata
  {
    var s' := Main(sender, entry, s).value.1;
    MainEffect(sender, entry, s);
    PostExact(INSUFFICIENT_BALANCE, LedgerPostings(entry), s.ledger);
    TotalPosted(INSUFFICIENT_BALANCE, LedgerPostings(entry), s.ledger, h.item);
    BalanceWithinTotal(s'.ledger, h);
    if Total(s.ledger, h.item) > 0 {
      var g := PositiveTotalHasHolder(s.ledger, h.item);
    } else {
      match entry
      case TransferEntry(batches) => MovesConserve(Moves(batches), h.item);
      case MintEntry(mints) =>
        RaisedTotalIsMinted(mints, h.item);
        MintExact(sender, mints, s);
      case RetireEntry(txs) => RetireLowersTotals(txs, h.item);
      case _ =>
    }
  }

  /** Every call keeps the storage invariant. */
  lemma MainKeepsSound(sender: Address, entry: Entrypoint, s: Storage)
    requires Sound(s) && Main(sender, entry, s).Ok?
    ensures Sound(Main(sender, entry, s).value.1)
  {
    var s' := Main(sender, entry, s).value.1;
    MainEffect(sender, entry, s);
    FiledKeepsKeyed(ListedMetadata(entry), s.tokenMetadata, s'.tokenMetadata);
    PostExact(INSUFFICIENT_BALANCE, LedgerPostings(entry), s.ledger);
    forall h | h in s'.ledger
      ensures h.item in s'.tokenMetadata
    {
      HeldIdsAreKnown(sender, entry, s, h);
    }
    forall o <- s'.operators
      ensures o.tokenOwner != o.tokenOperator
    {
      if o !in s.operators {
        NewOperators(sender, entry, s, o);
      }
    }
  }
}
