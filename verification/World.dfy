/** Token contracts and custodians on one chain: transactions, reverts, runs and the invariant of every run. */
module World {
  import opened Outcomes
  import opened Lists
  import opened Ledgers
  import opened Operators
  import opened Tezos
  import FA2
  import FA2Proofs
  import Custodian
  import CustodianProofs
  import CustodianEffects

  /** A call that a token contract or a custodian carried out. */
  datatype Record =
    | TokenRecord(sender: Address, token: Address, tokenEntry: FA2.Entrypoint)
    | CustodianRecord(sender: Address, custodian: Address, custodianEntry: Custodian.Entrypoint)

  datatype Emission = Emission(emitter: Address, event: Event)

  /** The contracts' storages, and the committed calls and emitted events in the order they happened. */
  datatype World = World(
    tokens: map<Address, FA2.Storage>,
    custodians: map<Address, Custodian.Storage>,
    calls: seq<Record>,
    events: seq<Emission>)

  datatype Target = ToToken(tokenEntry: FA2.Entrypoint) | ToCustodian(custodianEntry: Custodian.Entrypoint)

  /** A call from outside: by an account, or by a contract that is neither a token contract nor a custodian. */
  datatype Call = Call(sender: Address, source: Address, address: Address, target: Target)

  predicate IsContract(w: World, a: Address) {
    a in w.tokens || a in w.custodians
  }

  // ---------- execution ----------

  function EmittedBy(emitter: Address): Event -> Emission {
    (e: Event) => Emission(emitter, e)
  }

  /** Run one emitted operation; a token contract's own events follow its call at once. */
  function Execute(sender: Address): (World, Custodian.Operation) -> Result<World> {
    (w: World, op: Custodian.Operation) =>
      match op
      case Emit(event) => Ok(w.(events := w.events + [Emission(sender, event)]))
      case Transaction(target, entry) =>
        if target !in w.tokens then Err(Rejected)
        else
          var (events, s) :- FA2.Main(sender, entry, w.tokens[target]);
          Ok(w.(tokens := w.tokens[target := s],
                calls := w.calls + [TokenRecord(sender, target, entry)],
                events := w.events + Map(EmittedBy(target), events)))
  }

  function ContextOf(w: World, call: Call): Custodian.Context {
    Custodian.Context(call.sender, call.source, call.address, w.tokens)
  }

  function RunCustodian(w: World, call: Call): Custodian.Output
    requires call.target.ToCustodian? && call.address in w.custodians
  {
    Custodian.Main(ContextOf(w, call), call.target.custodianEntry, w.custodians[call.address])
  }

  /** The world in which a custodian has updated its own storage and its operations are still to run. */
  function Debited(w: World, call: Call, s: Custodian.Storage): World
    requires call.target.ToCustodian?
  {
    w.(custodians := w.custodians[call.address := s],
       calls := w.calls + [CustodianRecord(call.sender, call.address, call.target.custodianEntry)])
  }

  /** A call and everything it triggers, in order; any failure is the failure of the whole. */
  function Transact(w: World, call: Call): Result<World> {
    if IsContract(w, call.sender) then Err(Rejected)
    else
      match call.target
      case ToToken(entry) => Execute(call.sender)(w, Custodian.Transaction(call.address, entry))
      case ToCustodian(_) =>
        if call.address !in w.custodians then Err(Rejected)
        else
          var (ops, s) :- RunCustodian(w, call);
          Fold(Execute(call.address), ops, Debited(w, call, s))
  }

  /** A failed transaction reverts: the world stays as it was. */
  function Apply(w: World, call: Call): World {
    match Transact(w, call)
    case Ok(w') => w'
    case Err(_) => w
  }

  function Run(w: World, calls: seq<Call>): World {
    if calls == [] then w else Apply(Run(w, calls[..|calls| - 1]), calls[|calls| - 1])
  }

  lemma RunStep(w: World, calls: seq<Call>, last: Call)
    ensures Run(w, calls + [last]) == Apply(Run(w, calls), last)
  {
    assert (calls + [last])[..|calls|] == calls;
  }

  lemma {:induction false} RunExtends(w: World, calls: seq<Call>, more: seq<Call>)
    ensures Run(w, calls + more) == Run(Run(w, calls), more)
  {
    if more == [] {
      assert calls + more == calls;
    } else {
      var init, last := more[..|more| - 1], more[|more| - 1];
      assert (calls + more)[..|calls + more| - 1] == calls + init;
      RunExtends(w, calls, init);
    }
  }

  // ---------- failed calls ----------

  /** The calls of a run that commit at their turn. */
  function Committed(w: World, calls: seq<Call>): seq<Call> {
    if calls == [] then []
    else
      var init, last := calls[..|calls| - 1], calls[|calls| - 1];
      Committed(w, init) + if Transact(Run(w, init), last).Ok? then [last] else []
  }

  predicate CommitsAt(w: World, calls: seq<Call>, k: nat)
    requires k < |calls|
  {
    Transact(Run(w, calls[..k]), calls[k]).Ok?
  }

  lemma FailureReverts(w: World, call: Call)
    ensures Transact(w, call).Err? ==> Apply(w, call) == w
  {
  }

  lemma CommitsAfter(w: World, calls: seq<Call>, last: Call)
    requires Transact(Run(w, calls), last).Ok?
    requires forall k :: 0 <= k < |calls| ==> CommitsAt(w, calls, k)
    ensures forall k :: 0 <= k < |calls + [last]| ==> CommitsAt(w, calls + [last], k)
  {
    forall k | 0 <= k < |calls + [last]|
      ensures CommitsAt(w, calls + [last], k)
    {
      if k < |calls| {
        assert (calls + [last])[..k] == calls[..k];
        assert CommitsAt(w, calls, k);
      } else {
        assert (calls + [last])[..k] == calls;
      }
    }
  }

  /** Failed calls leave no trace: at once, nothing in the world has changed; and a run ends where it would
      have ended without them, each remaining call committing at its turn. */
  lemma {:induction false} FailuresLeaveNoTrace(w: World, calls: seq<Call>, next: Call)
    ensures var now := Run(w, calls);
            Transact(now, next).Err? ==>
              && Apply(now, next).tokens == now.tokens && Apply(now, next).custodians == now.custodians
              && Apply(now, next).calls == now.calls && Apply(now, next).events == now.events
    ensures Run(w, Committed(w, calls)) == Run(w, calls)
    ensures forall k :: 0 <= k < |Committed(w, calls)| ==> CommitsAt(w, Committed(w, calls), k)
  {
    FailureReverts(Run(w, calls), next);
    if calls == [] {
    } else {
      var init, last := calls[..|calls| - 1], calls[|calls| - 1];
      var before := Committed(w, init);
      FailuresLeaveNoTrace(w, init, last);
      if Transact(Run(w, init), last).Ok? {
        RunStep(w, before, last);
        CommitsAfter(w, before, last);
      } else {
        assert Committed(w, calls) == before;
      }
    }
  }

  // ---------- origination ----------

  /** Freshly originated contracts at distinct addresses: empty ledgers, operator sets and metadata. */
  ghost predicate Genesis(w: World) {
    && w.tokens.Keys !! w.custodians.Keys
    && (forall a :: a in w.tokens ==>
          w.tokens[a].ledger == map[] && w.tokens[a].operators == {} && w.tokens[a].tokenMetadata == map[])
    && (forall c :: c in w.custodians ==>
          && w.custodians[c].ledger == map[] && w.custodians[c].externalLedger == map[]
          && w.custodians[c].operators == {})
    && w.calls == [] && w.events == []
  }

  // ---------- the invariant of every run ----------

  /** Sound storages everywhere, no token contract has an operator for a contract's own holdings, and
      custodians cache balances of existing token contracts only. */
  ghost predicate Sound(w: World) {
    && w.tokens.Keys !! w.custodians.Keys
    && (forall a :: a in w.tokens ==> FA2Proofs.Sound(w.tokens[a]))
    && (forall a, o :: a in w.tokens && o in w.tokens[a].operators ==> !IsContract(w, o.tokenOwner))
    && (forall c :: c in w.custodians ==> CustodianProofs.Sound(w.custodians[c]))
    && (forall c, t :: c in w.custodians && t in w.custodians[c].externalLedger ==> t.tokenAddress in w.tokens)
  }

  ghost predicate SameContracts(w: World, w': World) {
    w'.tokens.Keys == w.tokens.Keys && w'.custodians.Keys == w.custodians.Keys
  }

  lemma OutgoingAddsNoOperator(self: Address, op: Custodian.Operation, s: FA2.Storage, o: FA2.Operator)
    requires op.Transaction? && FA2.Main(self, op.entry, s).Ok?
    requires o in FA2.Main(self, op.entry, s).value.1.operators && o !in s.operators
    ensures !CustodianEffects.Outgoing(self, op)
  {
    FA2Proofs.MainEffect(self, op.entry, s);
  }

  lemma ExecuteKeepsSound(w: World, sender: Address, op: Custodian.Operation)
    requires Sound(w) && Execute(sender)(w, op).Ok?
    requires IsContract(w, sender) ==> CustodianEffects.Outgoing(sender, op)
    ensures var w' := Execute(sender)(w, op).value;
            Sound(w') && SameContracts(w, w') && w'.custodians == w.custodians
  {
    if op.Transaction? {
      var a, s := op.target, w.tokens[op.target];
      FA2Proofs.MainKeepsSound(sender, op.entry, s);
      var w' := Execute(sender)(w, op).value;
      forall o <- w'.tokens[a].operators
        ensures !IsContract(w', o.tokenOwner)
      {
        if o !in s.operators {
          FA2Proofs.NewOperators(sender, op.entry, s, o);
          OutgoingAddsNoOperator(sender, op, s, o);
        }
      }
    }
  }

  lemma {:induction false} ExecuteAllKeepsSound(w: World, self: Address, ops: seq<Custodian.Operation>)
    requires Sound(w) && Fold(Execute(self), ops, w).Ok?
    requires forall op <- ops :: CustodianEffects.Outgoing(self, op)
    ensures var w' := Fold(Execute(self), ops, w).value;
            Sound(w') && SameContracts(w, w') && w'.custodians == w.custodians
    decreases |ops|
  {
    if ops == [] {
    } else {
      ExecuteKeepsSound(w, self, ops[0]);
      ExecuteAllKeepsSound(Execute(self)(w, ops[0]).value, self, ops[1..]);
    }
  }

  lemma DebitedKeepsSound(w: World, call: Call)
    requires Sound(w) && call.target.ToCustodian? && call.address in w.custodians && RunCustodian(w, call).Ok?
    ensures var (ops, s) := RunCustodian(w, call).value;
            && Sound(Debited(w, call, s)) && SameContracts(w, Debited(w, call, s))
            && (forall op <- ops :: CustodianEffects.Outgoing(call.address, op) && (op.Transaction? ==>
                op.target in w.tokens))
  {
    var ctx, entry, s := ContextOf(w, call), call.target.custodianEntry, w.custodians[call.address];
    var (ops, s') := RunCustodian(w, call).value;
    CustodianEffects.MainKeepsSound(ctx, entry, s);
    CustodianEffects.MainEffect(ctx, entry, s);
    forall op <- ops
      ensures CustodianEffects.Outgoing(call.address, op) && (op.Transaction? ==> op.target in w.tokens)
    {
      CustodianEffects.OpsAreOutgoing(ctx, entry, s, op);
    }
    forall t | t in s'.externalLedger
      ensures t.tokenAddress in w.tokens
    {
      CustodianEffects.CacheStaysKnown(ctx, entry, s, t);
    }
    assert Debited(w, call, s').custodians.Keys == w.custodians.Keys;
  }

  lemma ApplyKeepsSound(w: World, call: Call)
    requires Sound(w)
    ensures Sound(Apply(w, call)) && SameContracts(w, Apply(w, call))
  {
    if Transact(w, call).Ok? {
      match call.target
      case ToToken(entry) => ExecuteKeepsSound(w, call.sender, Custodian.Transaction(call.address, entry));
      case ToCustodian(_) =>
        var (ops, s) := RunCustodian(w, call).value;
        DebitedKeepsSound(w, call);
        ExecuteAllKeepsSound(Debited(w, call, s), call.address, ops);
    }
  }

  /** Every reachable world is sound. In particular each custodian's client balances add up, token by
      token, to its cached external balances, and no ledger stores a zero. */
  lemma {:induction false} RunIsSound(w: World, calls: seq<Call>)
    requires Genesis(w)
    ensures Sound(Run(w, calls)) && SameContracts(w, Run(w, calls))
  {
    if calls == [] {
      assert forall s: Custodian.Storage, t :: s.ledger == map[] ==> Total(s.ledger, t) == 0;
    } else {
      RunIsSound(w, calls[..|calls| - 1]);
      ApplyKeepsSound(Run(w, calls[..|calls| - 1]), calls[|calls| - 1]);
    }
  }
}
