/** `internal_mint`: when it synchronises the custodian with the token contracts, and when it does not. */
module MintProofs {
  import opened Outcomes
  import opened Lists
  import opened Ledgers
  import opened Tezos
  import opened Custodian
  import opened CustodianProofs
  import FA2

  /** The custodian's own balance, as the token contract's view reports it. */
  function Viewed(ctx: Context, t: Token): nat {
    if t.tokenAddress in ctx.tokens
    then FA2.ViewBalanceOf(Holding(ctx.self, t.tokenId), ctx.tokens[t.tokenAddress])
    else 0
  }

  function Diff(ctx: Context, s: Storage, t: Token): int {
    Viewed(ctx, t) - Get(s.externalLedger, t)
  }

  function Found(ctx: Context, s: Storage): Token -> MintUpdate {
    (t: Token) => MintUpdate(t, Diff(ctx, s, t), Viewed(ctx, t))
  }

  function ClientCredit(u: MintUpdate): Posting<Owner> {
    Posting(Holding(SELF, u.token), u.diff)
  }

  function CacheCredit(u: MintUpdate): Posting<Token> {
    Posting(u.token, u.diff)
  }

  function MintPostings(ctx: Context, s: Storage, tokens: seq<Token>): seq<Posting<Owner>> {
    Map(ClientCredit, Map(Found(ctx, s), tokens))
  }

  function MintCachePostings(ctx: Context, s: Storage, tokens: seq<Token>): seq<Posting<Token>> {
    Map(CacheCredit, Map(Found(ctx, s), tokens))
  }

  /** One event per listed token whose diff is not zero, in list order. */
  function MintOps(ctx: Context, s: Storage): Token -> seq<Operation> {
    (t: Token) =>
      if Diff(ctx, s, t) == 0 then [] else [Emit(InternallyMinted(t, Diff(ctx, s, t), Viewed(ctx, t)))]
  }

  /** No listed token has shrunk outside the custodian's knowledge, and every one can be viewed. */
  ghost predicate Mintable(ctx: Context, s: Storage, tokens: seq<Token>) {
    forall t <- tokens :: t.tokenAddress in ctx.tokens && Diff(ctx, s, t) >= 0
  }

  lemma {:induction false} MintFold(us: seq<MintUpdate>, s: Storage)
    requires forall u <- us :: u.diff >= 0
    ensures var client := Post(INSUFFICIENT_BALANCE, Map(ClientCredit, us), s.ledger);
            var cache := Post(INSUFFICIENT_BALANCE, Map(CacheCredit, us), s.externalLedger);
            client.Ok? && cache.Ok? &&
            Fold(MintStep, us, s) == Ok(s.(ledger := client.value, externalLedger := cache.value))
  {
    if us == [] {
    } else {
      assert Map(ClientCredit, us)[1..] == Map(ClientCredit, us[1..]);
      assert Map(CacheCredit, us)[1..] == Map(CacheCredit, us[1..]);
      match MintStep(s, us[0])
      case Ok(m) => MintFold(us[1..], m);
      case Err(_) =>
    }
  }

  lemma MintEvents(ctx: Context, s: Storage, tokens: seq<Token>)
    ensures FilterMap(EmitMinted, Map(Found(ctx, s), tokens)) == Gather(MintOps(ctx, s), tokens)
  {
    forall t ensures MintOps(ctx, s)(t) == PresentAt(EmitMinted)(Found(ctx, s)(t)) {
      assert PresentAt(EmitMinted)(Found(ctx, s)(t)) == Present(EmitMinted(Found(ctx, s)(t)));
    }
    GatherMap(PresentAt(EmitMinted), Found(ctx, s), MintOps(ctx, s), tokens);
  }

  /** The whole effect of `internal_mint`, and when it happens. */
  lemma {:induction false} MintEffect(ctx: Context, tokens: seq<Token>, s: Storage)
    ensures var r := InternalMint(ctx, tokens, s);
            && (r.Ok? <==> ctx.sender == s.custodian && Mintable(ctx, s, tokens))
            && (r.Ok? ==>
                  var (ops, s') := r.value;
                  && ops == Gather(MintOps(ctx, s), tokens)
                  && s' == s.(ledger := s'.ledger, externalLedger := s'.externalLedger)
                  && Post(INSUFFICIENT_BALANCE, MintPostings(ctx, s, tokens), s.ledger) == Ok(s'.ledger)
                  && Post(INSUFFICIENT_BALANCE, MintCachePostings(ctx, s, tokens), s.externalLedger)
                     == Ok(s'.externalLedger))
  {
    var found := Traverse(FindMint(ctx, s), tokens);
    assert forall i :: 0 <= i < |tokens| ==>
      (FindMint(ctx, s)(tokens[i]).Ok? <==> tokens[i].tokenAddress in ctx.tokens && Diff(ctx, s, tokens[i]) >= 0);
    if found.Ok? {
      assert found.value == Map(Found(ctx, s), tokens);
      MintFold(found.value, s);
      MintEvents(ctx, s, tokens);
    }
  }

  ghost predicate Viewable(ctx: Context, tokens: seq<Token>) {
    forall t <- tokens :: t.tokenAddress in ctx.tokens
  }

  ghost predicate NoneShrunk(ctx: Context, s: Storage, tokens: seq<Token>) {
    forall t <- tokens :: Diff(ctx, s, t) >= 0
  }

  /** Token `i` is the first that fails, with the code of what is wrong with it. */
  ghost predicate MintFailsFirst(ctx: Context, s: Storage, tokens: seq<Token>, i: nat, failure: Failure) {
    && i < |tokens| && Viewable(ctx, tokens[..i]) && NoneShrunk(ctx, s, tokens[..i])
    && if tokens[i].tokenAddress !in ctx.tokens then failure == FailWith(CALL_VIEW_FAILED)
       else failure == FailWith(INSUFFICIENT_BALANCE) && Diff(ctx, s, tokens[i]) < 0
  }

  /** Why `internal_mint` fails: the caller, or the first token that cannot be viewed or has shrunk. */
  lemma MintFailure(ctx: Context, tokens: seq<Token>, s: Storage)
    requires InternalMint(ctx, tokens, s).Err?
    ensures var failure := InternalMint(ctx, tokens, s).failure;
            if ctx.sender != s.custodian then failure == FailWith(PERMISSIONS_DENIED)
            else exists i :: MintFailsFirst(ctx, s, tokens, i, failure)
  {
    var found := Traverse(FindMint(ctx, s), tokens);
    if found.Err? {
      var i := TraverseFailure(FindMint(ctx, s), tokens);
      forall t <- tokens[..i]
        ensures t.tokenAddress in ctx.tokens && Diff(ctx, s, t) >= 0
      {
        assert FindMint(ctx, s)(t).Ok?;
      }
      assert ctx.sender == s.custodian ==> MintFailsFirst(ctx, s, tokens, i, InternalMint(ctx, tokens, s).failure);
    } else {
      assert forall i :: 0 <= i < |tokens| ==>
        FindMint(ctx, s)(tokens[i]).Ok? ==> tokens[i].tokenAddress in ctx.tokens && Diff(ctx, s, tokens[i]) >= 0;
      MintEffect(ctx, tokens, s);
    }
  }

  function GrowthAt(ctx: Context, s: Storage, t: Token): Token -> int {
    (u: Token) => if u == t then Diff(ctx, s, t) else 0
  }

  /** What a batch adds to the cache of one token: its diff, once per listing. */
  function Growth(ctx: Context, s: Storage, tokens: seq<Token>, t: Token): int {
    Sum(GrowthAt(ctx, s, t), tokens)
  }

  lemma {:induction false} MintNets(ctx: Context, s: Storage, tokens: seq<Token>, h: Owner)
    ensures Net(MintCachePostings(ctx, s, tokens), h.item) == Growth(ctx, s, tokens, h.item)
    ensures NetIn(MintPostings(ctx, s, tokens), h.item) == Growth(ctx, s, tokens, h.item)
    ensures Net(MintPostings(ctx, s, tokens), h) == if h.owner == SELF then Growth(ctx, s, tokens, h.item) else 0
  {
    if tokens == [] {
    } else {
      var rest := tokens[1..];
      MintNets(ctx, s, rest, h);
      assert Map(Found(ctx, s), tokens)[1..] == Map(Found(ctx, s), rest);
      assert MintPostings(ctx, s, tokens)[1..] == MintPostings(ctx, s, rest);
      assert MintCachePostings(ctx, s, tokens)[1..] == MintCachePostings(ctx, s, rest);
    }
  }

  lemma MintShifts(ctx: Context, tokens: seq<Token>, s: Storage)
    requires InternalMint(ctx, tokens, s).Ok?
    ensures var s' := InternalMint(ctx, tokens, s).value.1;
            && (forall t :: Get(s'.externalLedger, t) == Get(s.externalLedger, t) + Growth(ctx, s, tokens, t))
            && (forall h: Owner :: Get(s'.ledger, h) ==
                  Get(s.ledger, h) + if h.owner == SELF then Growth(ctx, s, tokens, h.item) else 0)
  {
    MintEffect(ctx, tokens, s);
    PostExact(INSUFFICIENT_BALANCE, MintPostings(ctx, s, tokens), s.ledger);
    PostExact(INSUFFICIENT_BALANCE, MintCachePostings(ctx, s, tokens), s.externalLedger);
    forall t ensures Net(MintCachePostings(ctx, s, tokens), t) == Growth(ctx, s, tokens, t) {
      MintNets(ctx, s, tokens, Holding(SELF, t));
    }
    forall h: Owner
      ensures Net(MintPostings(ctx, s, tokens), h) == if h.owner == SELF then Growth(ctx, s, tokens, h.item) else 0
    {
      MintNets(ctx, s, tokens, h);
    }
  }

  lemma OneMore(k: int, d: int)
    ensures (k + 1) * d == k * d + d
  {
  }

  lemma CountsHead(t: Token, tokens: seq<Token>)
    requires tokens != []
    ensures multiset(tokens)[t] == multiset(tokens[1..])[t] + if tokens[0] == t then 1 else 0
  {
    assert tokens == [tokens[0]] + tokens[1..];
  }

  lemma {:induction false} GrowthCounts(ctx: Context, s: Storage, tokens: seq<Token>, t: Token)
    ensures Growth(ctx, s, tokens, t) == multiset(tokens)[t] * Diff(ctx, s, t)
  {
    if tokens == [] {
    } else {
      GrowthCounts(ctx, s, tokens[1..], t);
      CountsHead(t, tokens);
      OneMore(multiset(tokens[1..])[t], Diff(ctx, s, t));
    }
  }

  /** Closed form: from cached balance b and viewed balance e, a token listed k times ends at
      b + k * (e - b); the unassigned holder gains k * (e - b) of it and no client anything. */
  lemma MintClosedForm(ctx: Context, tokens: seq<Token>, s: Storage, h: Owner)
    requires InternalMint(ctx, tokens, s).Ok?
    ensures var s' := InternalMint(ctx, tokens, s).value.1;
            var k, b, e := multiset(tokens)[h.item], Get(s.externalLedger, h.item), Viewed(ctx, h.item);
            && Get(s'.externalLedger, h.item) == b + k * (e - b)
            && Get(s'.ledger, h) == Get(s.ledger, h) + if h.owner == SELF then k * (e - b) else 0
  {
    MintShifts(ctx, tokens, s);
    GrowthCounts(ctx, s, tokens, h.item);
  }

  /** Every listed token is listed once, or already agrees with its view. */
  ghost predicate Synchronising(ctx: Context, s: Storage, tokens: seq<Token>) {
    forall t <- tokens :: multiset(tokens)[t] == 1 || Diff(ctx, s, t) == 0
  }

  lemma TimesIsOnce(k: nat, d: nat)
    requires k >= 1
    ensures k * d == d <==> k == 1 || d == 0
    ensures k * d >= d
  {
    assert k * d == d + (k - 1) * d;
  }

  lemma GrowthIsDiff(ctx: Context, s: Storage, tokens: seq<Token>, t: Token)
    requires Diff(ctx, s, t) >= 0
    ensures t in tokens ==> Growth(ctx, s, tokens, t) >= Diff(ctx, s, t)
    ensures t in tokens ==> (Growth(ctx, s, tokens, t) == Diff(ctx, s, t) <==>
                             multiset(tokens)[t] == 1 || Diff(ctx, s, t) == 0)
  {
    GrowthCounts(ctx, s, tokens, t);
    if t in tokens {
      TimesIsOnce(multiset(tokens)[t], Diff(ctx, s, t));
    }
  }

  lemma {:induction false} UnlistedDoesNotGrow(ctx: Context, s: Storage, tokens: seq<Token>, t: Token)
    requires t !in tokens || Diff(ctx, s, t) == 0
    ensures Growth(ctx, s, tokens, t) == 0
  {
    if tokens == [] {
    } else {
      UnlistedDoesNotGrow(ctx, s, tokens[1..], t);
    }
  }

  /** A successful mint leaves every listed cache at its viewed balance exactly for synchronising batches;
      otherwise some cache ends above what the custodian really holds. */
  lemma MintSynchronises(ctx: Context, tokens: seq<Token>, s: Storage)
    requires InternalMint(ctx, tokens, s).Ok?
    ensures var s' := InternalMint(ctx, tokens, s).value.1;
            && (Synchronising(ctx, s, tokens) <==> forall t <- tokens :: Get(s'.externalLedger, t) == Viewed(ctx, t))
            && (Synchronising(ctx, s, tokens) <==> forall t <- tokens :: Get(s'.externalLedger, t) <= Viewed(ctx, t))
  {
    MintEffect(ctx, tokens, s);
    MintShifts(ctx, tokens, s);
    var s' := InternalMint(ctx, tokens, s).value.1;
    forall t <- tokens
      ensures Get(s'.externalLedger, t) >= Viewed(ctx, t)
      ensures Get(s'.externalLedger, t) == Viewed(ctx, t) <==> multiset(tokens)[t] == 1 || Diff(ctx, s, t) == 0
    {
      GrowthIsDiff(ctx, s, tokens, t);
    }
  }

  /** The documented idempotence, exactly: an immediate repeat succeeds if and only if the batch was
      synchronising, and then it changes nothing and emits nothing. */
  lemma MintRepeats(ctx: Context, tokens: seq<Token>, s: Storage)
    requires Sound(s) && InternalMint(ctx, tokens, s).Ok?
    ensures var s' := InternalMint(ctx, tokens, s).value.1;
            && (InternalMint(ctx, tokens, s').Ok? <==> Synchronising(ctx, s, tokens))
            && (InternalMint(ctx, tokens, s').Ok? ==> InternalMint(ctx, tokens, s') == Ok(([], s')))
  {
    var s' := InternalMint(ctx, tokens, s).value.1;
    MintEffect(ctx, tokens, s);
    MintSynchronises(ctx, tokens, s);
    MintEffect(ctx, tokens, s');
    if InternalMint(ctx, tokens, s').Ok? {
      assert forall t <- tokens :: Diff(ctx, s', t) == 0;
      GatherNothing(MintOps(ctx, s'), tokens);
      MintKeepsSound(ctx, tokens, s);
      MintKeepsSound(ctx, tokens, s');
      MintShifts(ctx, tokens, s');
      var s'' := InternalMint(ctx, tokens, s').value.1;
      forall t ensures Growth(ctx, s', tokens, t) == 0 { UnlistedDoesNotGrow(ctx, s', tokens, t); }
      CanonicalExtensional(s''.ledger, s'.ledger);
      CanonicalExtensional(s''.externalLedger, s'.externalLedger);
    }
  }

  lemma MintKeepsSound(ctx: Context, tokens: seq<Token>, s: Storage)
    requires Sound(s) && InternalMint(ctx, tokens, s).Ok?
    ensures Sound(InternalMint(ctx, tokens, s).value.1)
  {
    MintEffect(ctx, tokens, s);
    forall t
      ensures NetIn(MintPostings(ctx, s, tokens), t) == Net(MintCachePostings(ctx, s, tokens), t)
    {
      MintNets(ctx, s, tokens, Holding(SELF, t));
    }
    PostedKeepsSound(MintPostings(ctx, s, tokens), MintCachePostings(ctx, s, tokens), s, InternalMint(ctx,
        tokens, s).value.1);
  }

  // ---------- one call per token ----------

  function MintOne(ctx: Context): (Storage, Token) -> Result<Storage> {
    (s: Storage, t: Token) =>
      var (_, s') :- InternalMint(ctx, [t], s);
      Ok(s')
  }

  lemma MintOneEffect(ctx: Context, t: Token, s: Storage)
    ensures var r := MintOne(ctx)(s, t);
            && (r.Ok? <==> ctx.sender == s.custodian && t.tokenAddress in ctx.tokens && Diff(ctx, s, t) >= 0)
            && (r.Ok? ==>
                  && r.value == s.(ledger := r.value.ledger, externalLedger := r.value.externalLedger)
                  && (Sound(s) ==> Sound(r.value))
                  && (forall u :: Get(r.value.externalLedger, u) == if u ==
                      t then Viewed(ctx, t) else Get(s.externalLedger, u))
                  && (forall h :: Get(r.value.ledger, h) ==
                                  Get(s.ledger, h) + if h == Holding(SELF, t) then Diff(ctx, s, t) else 0))
  {
    MintEffect(ctx, [t], s);
    if InternalMint(ctx, [t], s).Ok? {
      MintShifts(ctx, [t], s);
      forall u ensures Growth(ctx, s, [t], u) == GrowthAt(ctx, s, u)(t) { SumOne(GrowthAt(ctx, s, u), t); }
      if Sound(s) {
        MintKeepsSound(ctx, [t], s);
      }
    }
  }

  /** Every listed cache agrees with its view, the unassigned holder gained the differences, and nothing
      else changed. */
  ghost predicate Synchronised(ctx: Context, tokens: seq<Token>, s: Storage, s': Storage) {
    && s' == s.(ledger := s'.ledger, externalLedger := s'.externalLedger)
    && (forall u :: Get(s'.externalLedger, u) == if u in tokens then Viewed(ctx, u) else Get(s.externalLedger, u))
    && (forall h :: Get(s'.ledger, h) ==
                    Get(s.ledger, h) + if h.owner == SELF && h.item in tokens then Diff(ctx, s, h.item) else 0)
  }

  lemma SynchronisedStep(ctx: Context, t: Token, rest: seq<Token>, s: Storage, m: Storage, s': Storage)
    requires MintOne(ctx)(s, t) == Ok(m) && Synchronised(ctx, rest, m, s')
    ensures Synchronised(ctx, [t] + rest, s, s')
  {
    MintOneEffect(ctx, t, s);
    forall u
      ensures u in [t] + rest <==> u == t || u in rest
      ensures Diff(ctx, m, u) == if u == t then 0 else Diff(ctx, s, u)
    {
    }
  }

  lemma MintableStep(ctx: Context, t: Token, rest: seq<Token>, s: Storage, m: Storage)
    requires MintOne(ctx)(s, t) == Ok(m)
    ensures Mintable(ctx, s, [t] + rest) <==> Mintable(ctx, m, rest)
  {
    MintOneEffect(ctx, t, s);
    forall u
      ensures u in [t] + rest <==> u == t || u in rest
      ensures Diff(ctx, m, u) == if u == t then 0 else Diff(ctx, s, u)
    {
    }
  }

  /** Minting token by token ends with every listed cache at its viewed balance, repeats or not. */
  lemma {:induction false} MintEach(ctx: Context, tokens: seq<Token>, s: Storage)
    requires Sound(s)
    ensures var r := Fold(MintOne(ctx), tokens, s);
            && (r.Ok? <==> tokens == [] || (ctx.sender == s.custodian && Mintable(ctx, s, tokens)))
            && (r.Ok? ==> Sound(r.value) && Synchronised(ctx, tokens, s, r.value))
    decreases |tokens|
  {
    if tokens == [] {
    } else {
      var t, rest := tokens[0], tokens[1..];
      assert tokens == [t] + rest;
      MintOneEffect(ctx, t, s);
      match MintOne(ctx)(s, t)
      case Ok(m) =>
        MintEach(ctx, rest, m);
        MintableStep(ctx, t, rest, s, m);
        if Fold(MintOne(ctx), rest, m).Ok? {
          SynchronisedStep(ctx, t, rest, s, m, Fold(MintOne(ctx), rest, m).value);
        }
      case Err(_) =>
    }
  }

  lemma SameMembers(tokens: seq<Token>, order: seq<Token>, t: Token)
    requires multiset(tokens) == multiset(order)
    ensures t in tokens <==> t in order
  {
    assert t in multiset(tokens) <==> t in tokens;
    assert t in multiset(order) <==> t in order;
  }

  /** One call on a non-empty list succeeds exactly when single-token calls in any order all do. */
  lemma MintBatchSucceedsAlike(ctx: Context, tokens: seq<Token>, order: seq<Token>, s: Storage)
    requires Sound(s) && tokens != [] && multiset(tokens) == multiset(order)
    ensures InternalMint(ctx, tokens, s).Ok? <==> Fold(MintOne(ctx), order, s).Ok?
  {
    forall t ensures t in tokens <==> t in order { SameMembers(tokens, order, t); }
    assert tokens[0] in order;
    MintEffect(ctx, tokens, s);
    MintEach(ctx, order, s);
  }

  /** A successful call leaves the storage that single-token calls in any order leave, exactly when the
      list is synchronising. */
  lemma MintBatchIsOneByOne(ctx: Context, tokens: seq<Token>, order: seq<Token>, s: Storage)
    requires Sound(s) && multiset(tokens) == multiset(order) && InternalMint(ctx, tokens, s).Ok?
    ensures Fold(MintOne(ctx), order, s) == Ok(InternalMint(ctx, tokens, s).value.1) <==> Synchronising(ctx, s, tokens)
  {
    forall t ensures t in tokens <==> t in order { SameMembers(tokens, order, t); }
    MintEffect(ctx, tokens, s);
    MintEach(ctx, order, s);
    MintKeepsSound(ctx, tokens, s);
    var batch, each := InternalMint(ctx, tokens, s).value.1, Fold(MintOne(ctx), order, s).value;
    if batch == each {
      MintSynchronises(ctx, tokens, s);
      assert forall t <- tokens :: Get(batch.externalLedger, t) == Viewed(ctx, t);
    }
    if Synchronising(ctx, s, tokens) {
      SynchronisedAlike(ctx, tokens, order, s);
      CanonicalExtensional(batch.externalLedger, each.externalLedger);
      CanonicalExtensional(batch.ledger, each.ledger);
    }
  }

  lemma SynchronisedGrowth(ctx: Context, tokens: seq<Token>, order: seq<Token>, s: Storage, t: Token)
    requires multiset(tokens) == multiset(order)
    requires Synchronising(ctx, s, tokens) && Mintable(ctx, s, tokens)
    ensures Growth(ctx, s, tokens, t) == if t in order then Diff(ctx, s, t) else 0
  {
    SameMembers(tokens, order, t);
    if t in tokens {
      GrowthIsDiff(ctx, s, tokens, t);
    } else {
      UnlistedDoesNotGrow(ctx, s, tokens, t);
    }
  }

  lemma SynchronisedAlike(ctx: Context, tokens: seq<Token>, order: seq<Token>, s: Storage)
    requires Sound(s) && multiset(tokens) == multiset(order)
    requires Synchronising(ctx, s, tokens)
    requires InternalMint(ctx, tokens, s).Ok? && Fold(MintOne(ctx), order, s).Ok?
    ensures var batch, each := InternalMint(ctx, tokens, s).value.1, Fold(MintOne(ctx), order, s).value;
            && (forall t :: Get(batch.externalLedger, t) == Get(each.externalLedger, t))
            && (forall h :: Get(batch.ledger, h) == Get(each.ledger, h))
  {
    var batch, each := InternalMint(ctx, tokens, s).value.1, Fold(MintOne(ctx), order, s).value;
    MintEffect(ctx, tokens, s);
    MintEach(ctx, order, s);
    forall t
      ensures Get(batch.externalLedger, t) == Get(each.externalLedger, t)
    {
      MintShifts(ctx, tokens, s);
      SynchronisedGrowth(ctx, tokens, order, s, t);
    }
    forall h: Owner
      ensures Get(batch.ledger, h) == Get(each.ledger, h)
    {
      MintShifts(ctx, tokens, s);
      SynchronisedGrowth(ctx, tokens, order, s, h.item);
    }
  }

  /** A witness that repeats matter: listing a token twice whose balance grew by `growth` counts the
      growth twice, and repeating the call then fails. */
  lemma DuplicateOverstates(ctx: Context, t: Token, s: Storage, growth: nat)
    requires ctx.sender == s.custodian && t.tokenAddress in ctx.tokens
    requires growth > 0 && Diff(ctx, s, t) == growth
    ensures var r := InternalMint(ctx, [t, t], s);
            && r.Ok?
            && Get(r.value.1.externalLedger, t) == Viewed(ctx, t) + growth
            && InternalMint(ctx, [t, t], r.value.1) == Err(FailWith(INSUFFICIENT_BALANCE))
  {
    MintEffect(ctx, [t, t], s);
    MintClosedForm(ctx, [t, t], s, Holding(SELF, t));
    assert multiset([t, t])[t] == 2;
    var s' := InternalMint(ctx, [t, t], s).value.1;
    assert FindMint(ctx, s')(t) == Err(FailWith(INSUFFICIENT_BALANCE));
  }
}
