/** A run from origination that leaves backing through one duplicated mint, and the bounce that follows. */
module DuplicateRun {
  import opened Outcomes
  import opened Lists
  import opened Ledgers
  import opened Tezos
  import opened World
  import opened Backing
  import opened Commitment
  import FA2
  import FA2Proofs
  import Custodian
  import MintProofs

  /** A token contract's oracle and a custodian's account, both outside the modelled contracts. */
  ghost predicate Actors(w: World, a: Address, c: Address) {
    && a in w.tokens && c in w.custodians
    && !IsContract(w, w.tokens[a].oracle) && !IsContract(w, w.custodians[c].custodian)
  }

  function ToOracle(w: World, a: Address, entry: FA2.Entrypoint): Call
    requires a in w.tokens
  {
    Call(w.tokens[a].oracle, w.tokens[a].oracle, a, ToToken(entry))
  }

  function AddId(w: World, a: Address, id: nat): Call
    requires a in w.tokens
  {
    ToOracle(w, a, FA2.AddTokenIdEntry([FA2.TokenMetadata(id, map[])]))
  }

  function MintTo(w: World, a: Address, c: Address, id: nat, qty: nat): Call
    requires a in w.tokens
  {
    ToOracle(w, a, FA2.MintEntry([FA2.MintData(c, id, qty)]))
  }

  function MintTwice(w: World, a: Address, c: Address, id: nat): Call
    requires c in w.custodians
  {
    var account := w.custodians[c].custodian;
    Call(account, account, c, ToCustodian(Custodian.InternalMintEntry([Token(a, id), Token(a, id)])))
  }

  /** Register an id, mint some of it to the custodian, and list it twice in one `internal_mint`. */
  function Overstate(w: World, a: Address, c: Address, id: nat, qty: nat): seq<Call>
    requires a in w.tokens && c in w.custodians
  {
    [AddId(w, a, id), MintTo(w, a, c, id, qty), MintTwice(w, a, c, id)]
  }

  /** The three worlds of the run. */
  lemma RunOfThree(w: World, x: Call, y: Call, z: Call)
    ensures Run(w, [x, y, z]) == Apply(Apply(Apply(w, x), y), z)
  {
    RunStep(w, [], x);
    RunStep(w, [x], y);
    RunStep(w, [x, y], z);
    assert [] + [x] == [x] && [x] + [y] == [x, y] && [x, y] + [z] == [x, y, z];
  }

  /** A world in which `a` knows the id, the custodian holds `qty` of it, and nothing is cached yet. */
  ghost predicate Uncached(w: World, a: Address, c: Address, id: nat, qty: nat) {
    && a in w.tokens && c in w.custodians && !IsContract(w, w.custodians[c].custodian)
    && Balance(w, c, Token(a, id)) == qty
    && w.custodians[c].externalLedger == map[] && w.custodians[c].ledger == map[]
  }

  /** The custodian believes it holds twice what it does, all of it unassigned. */
  ghost predicate Overstated(w: World, c: Address, account: Address, t: Token, qty: nat) {
    && c in w.custodians && w.custodians[c].custodian == account
    && Balance(w, c, t) == qty
    && Get(w.custodians[c].externalLedger, t) == qty + qty
    && Get(w.custodians[c].ledger, Holding(SELF, t)) == qty + qty
  }

  lemma AddIdWorks(w: World, a: Address, c: Address, id: nat)
    requires Genesis(w) && Actors(w, a, c)
    ensures var w' := Apply(w, AddId(w, a, id));
            && w'.custodians == w.custodians && w'.tokens.Keys == w.tokens.Keys
            && w'.tokens[a].oracle == w.tokens[a].oracle && id in w'.tokens[a].tokenMetadata
            && w'.tokens[a].ledger == map[]
  {
    FA2Proofs.AddTokensExact(w.tokens[a].oracle, [FA2.TokenMetadata(id, map[])], w.tokens[a]);
    assert FA2.TokenMetadata(id, map[]) in [FA2.TokenMetadata(id, map[])];
  }

  lemma MintToWorks(w: World, a: Address, c: Address, id: nat, qty: nat)
    requires Actors(w, a, c) && id in w.tokens[a].tokenMetadata && w.tokens[a].ledger == map[]
    ensures var w' := Apply(w, MintTo(w, a, c, id, qty));
            && w'.custodians == w.custodians && w'.tokens.Keys == w.tokens.Keys
            && Balance(w', c, Token(a, id)) == qty
  {
    var mints := [FA2.MintData(c, id, qty)];
    FA2Proofs.MintExact(w.tokens[a].oracle, mints, w.tokens[a]);
    SumOne(DiffAt(Holding(c, id)), FA2Proofs.MintPosting(mints[0]));
    assert Map(FA2Proofs.MintPosting, mints) == [FA2Proofs.MintPosting(mints[0])];
  }

  lemma MintTwiceOverstates(w: World, a: Address, c: Address, id: nat, qty: nat)
    requires Sound(w) && Uncached(w, a, c, id, qty) && qty > 0
    ensures Overstated(Apply(w, MintTwice(w, a, c, id)), c, w.custodians[c].custodian, Token(a, id), qty)
  {
    var t, call, s := Token(a, id), MintTwice(w, a, c, id), w.custodians[c];
    MintProofs.DuplicateOverstates(ContextOf(w, call), t, s, qty);
    MintProofs.MintClosedForm(ContextOf(w, call), [t, t], s, Holding(SELF, t));
    assert multiset([t, t])[t] == 2;
    MintProofs.MintEffect(ContextOf(w, call), [t, t], s);
    LocalCallCommits(w, call);
    MintCommits(w, call);
  }

  lemma TwoCallsLeaveUncached(w: World, a: Address, c: Address, id: nat, qty: nat)
    requires Genesis(w) && Actors(w, a, c)
    ensures var m := Apply(Apply(w, AddId(w, a, id)), MintTo(w, a, c, id, qty));
            Sound(m) && Uncached(m, a, c, id, qty) && m.custodians == w.custodians
  {
    var m := Apply(w, AddId(w, a, id));
    AddIdWorks(w, a, c, id);
    MintToWorks(m, a, c, id, qty);
    TwoCallsKeepSound(w, AddId(w, a, id), MintTo(w, a, c, id, qty));
    assert MintTo(w, a, c, id, qty) == MintTo(m, a, c, id, qty);
  }

  lemma TwoCallsKeepSound(w: World, x: Call, y: Call)
    requires Genesis(w)
    ensures Sound(Apply(Apply(w, x), y))
  {
    RunIsSound(w, []);
    ApplyKeepsSound(w, x);
    ApplyKeepsSound(Apply(w, x), y);
  }

  /** From origination, three outside calls leave backing: one `internal_mint` listing a token twice. */
  lemma DuplicateLeavesBacking(w: World, a: Address, c: Address, id: nat, qty: nat)
    requires Genesis(w) && Actors(w, a, c) && qty > 0
    ensures var w' := Run(w, Overstate(w, a, c, id, qty));
            !Backed(w') && Overstated(w', c, w.custodians[c].custodian, Token(a, id), qty)
  {
    var m := Apply(Apply(w, AddId(w, a, id)), MintTo(w, a, c, id, qty));
    RunOfThree(w, AddId(w, a, id), MintTo(w, a, c, id, qty), MintTwice(w, a, c, id));
    TwoCallsLeaveUncached(w, a, c, id, qty);
    MintTwiceOverstates(m, a, c, id, qty);
    var w' := Run(w, Overstate(w, a, c, id, qty));
    assert !(Get(w'.custodians[c].externalLedger, Token(a, id)) <= Balance(w', c, Token(a, id)));
  }

  /** The custodian's own account retires all it believes it holds of the token. */
  function RetireBoth(account: Address, c: Address, t: Token, qty: nat, data: Bytes): Call {
    Call(account, account, c, ToCustodian(OneRetirement(SELF, t, qty + qty, data)))
  }

  lemma OverstatedBounces(w: World, c: Address, account: Address, t: Token, qty: nat, data: Bytes)
    requires Sound(w) && Overstated(w, c, account, t, qty) && qty > 0
    requires t.tokenAddress in w.tokens && !IsContract(w, account)
    ensures RunCustodian(w, RetireBoth(account, c, t, qty, data)).Ok?
    ensures Transact(w, RetireBoth(account, c, t, qty, data)) == Err(FailWith(FA2.INSUFFICIENT_BALANCE))
  {
    OverstatedRetirementBounces(w, RetireBoth(account, c, t, qty, data), SELF, t, qty + qty, data);
  }

  /** And the custodian's next retirement of all it believes it holds passes it and bounces. */
  lemma DuplicateThenBounces(w: World, a: Address, c: Address, id: nat, qty: nat, data: Bytes)
    requires Genesis(w) && Actors(w, a, c) && qty > 0
    ensures var w' := Run(w, Overstate(w, a, c, id, qty));
            var call := RetireBoth(w.custodians[c].custodian, c, Token(a, id), qty, data);
            && c in w'.custodians
            && RunCustodian(w', call).Ok?
            && Transact(w', call) == Err(FailWith(FA2.INSUFFICIENT_BALANCE))
  {
    var calls := Overstate(w, a, c, id, qty);
    DuplicateLeavesBacking(w, a, c, id, qty);
    RunIsSound(w, calls);
    OverstatedBounces(Run(w, calls), c, w.custodians[c].custodian, Token(a, id), qty, data);
  }
}
