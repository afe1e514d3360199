/** Who holds the oracle's and the custodian's role over any run, and what is reserved for them. */
module Roles {
  import opened Lists
  import opened Tezos
  import opened World
  import opened Journal
  import opened TokenHistory
  import FA2
  import FA2Proofs
  import CustodianEffects

  /** The holder of a role: the last address named for it, or the first holder while none has been. */
  function Holder(first: Address, named: seq<Address>): Address {
    if named == [] then first else named[|named| - 1]
  }

  lemma HolderAppend(first: Address, named: seq<Address>, more: seq<Address>)
    ensures Holder(first, named + more) == Holder(Holder(first, named), more)
  {
    if more == [] {
      assert named + more == named;
    } else {
      assert (named + more)[|named + more| - 1] == more[|more| - 1];
    }
  }

  // ---------- oracles ----------

  function NamedOracle(c: TokenCall): seq<Address> {
    if c.entry.UpdateOracleEntry? then [c.entry.newOracle] else []
  }

  /** If recorded call `i` is reserved for the oracle, its sender was the oracle of that moment. */
  ghost predicate SentByOracle(first: Address, cs: seq<TokenCall>, i: nat)
    requires i < |cs|
  {
    FA2Proofs.ForOracle(cs[i].entry) ==> cs[i].sender == Holder(first, Gather(NamedOracle, cs[..i]))
  }

  lemma {:induction false} HistoryOracle(cs: seq<TokenCall>, s: FA2.Storage)
    requires Fold(CallStep, cs, s).Ok?
    ensures Fold(CallStep, cs, s).value.oracle == Holder(s.oracle, Gather(NamedOracle, cs))
    ensures forall i :: 0 <= i < |cs| ==> SentByOracle(s.oracle, cs, i)
    decreases |cs|
  {
    if cs == [] {
    } else {
      var c, rest, s' := cs[0], cs[1..], CallStep(s, cs[0]).value;
      FA2Proofs.MainEffect(c.sender, c.entry, s);
      HistoryOracle(rest, s');
      HolderAppend(s.oracle, NamedOracle(c), Gather(NamedOracle, rest));
      forall i | 0 < i < |cs|
        ensures SentByOracle(s.oracle, cs, i)
      {
        assert cs[..i][1..] == rest[..i - 1];
        HolderAppend(s.oracle, NamedOracle(c), Gather(NamedOracle, rest[..i - 1]));
        assert SentByOracle(s'.oracle, rest, i - 1);
      }
    }
  }

  /** Over any run a token contract's oracle is whom its last committed `update_oracle` named, or the
      original one, and the oracle of the moment sent every committed call reserved for it. */
  lemma OracleIsLastNamed(w: World, calls: seq<Call>, a: Address)
    requires Genesis(w) && a in w.tokens
    ensures var w' := Run(w, calls);
            && a in w'.tokens
            && w'.tokens[a].oracle == Holder(w.tokens[a].oracle, Gather(NamedOracle, History(w', a)))
            && forall i :: 0 <= i < |History(w', a)| ==> SentByOracle(w.tokens[a].oracle, History(w', a), i)
  {
    RunExplained(w, calls, a);
    HistoryOracle(History(Run(w, calls), a), w.tokens[a]);
  }

  // ---------- custodians ----------

  function NamedCustodian(c: Address): Record -> seq<Address> {
    (r: Record) =>
      if r.CustodianRecord? && r.custodian == c && r.custodianEntry.UpdateCustodianEntry?
      then [r.custodianEntry.newCustodian]
      else []
  }

  /** If record `i` is a call to `c` reserved for its custodian, its sender was the custodian of that moment. */
  ghost predicate SentByCustodian(c: Address, first: Address, records: seq<Record>, i: nat)
    requires i < |records|
  {
    var r := records[i];
    r.CustodianRecord? && r.custodian == c && CustodianEffects.ForCustodian(r.custodianEntry) ==>
      r.sender == Holder(first, Gather(NamedCustodian(c), records[..i]))
  }

  ghost predicate RoleKept(w: World, c: Address, first: Address) {
    && c in w.custodians
    && w.custodians[c].custodian == Holder(first, Gather(NamedCustodian(c), w.calls))
    && forall i :: 0 <= i < |w.calls| ==> SentByCustodian(c, first, w.calls, i)
  }

  lemma ForwardedAreTokenCalls(w: World, call: Call)
    ensures forall r <- Gather(OpRecords(Executor(call)), OpsOf(w, call)) :: r.TokenRecord?
  {
    var forwarded := Gather(OpRecords(Executor(call)), OpsOf(w, call));
    forall r <- forwarded
      ensures r.TokenRecord?
    {
      var op := GatherOrigin(OpRecords(Executor(call)), OpsOf(w, call), r);
    }
  }

  /** Records of token calls change no custodian's role. */
  lemma TokenCallsKeepRole(c: Address, first: Address, records: seq<Record>, more: seq<Record>)
    requires forall i :: 0 <= i < |records| ==> SentByCustodian(c, first, records, i)
    requires forall r <- more :: r.TokenRecord?
    ensures Gather(NamedCustodian(c), records + more) == Gather(NamedCustodian(c), records)
    ensures forall i :: 0 <= i < |records + more| ==> SentByCustodian(c, first, records + more, i)
  {
    GatherAppend(NamedCustodian(c), records, more);
    GatherNothing(NamedCustodian(c), more);
    forall i | 0 <= i < |records + more|
      ensures SentByCustodian(c, first, records + more, i)
    {
      if i < |records| {
        assert (records + more)[..i] == records[..i];
        assert SentByCustodian(c, first, records, i);
      } else {
        var r := more[i - |records|];
        assert r in more && (records + more)[i] == r;
      }
    }
  }

  /** The record of a call its sender was entitled to make adds the name it gives, if any. */
  lemma CustodianCallKeepsRole(c: Address, first: Address, records: seq<Record>, r: Record)
    requires forall i :: 0 <= i < |records| ==> SentByCustodian(c, first, records, i)
    requires SentByCustodian(c, first, records + [r], |records|)
    ensures Gather(NamedCustodian(c), records + [r]) == Gather(NamedCustodian(c), records) + NamedCustodian(c)(r)
    ensures forall i :: 0 <= i < |records + [r]| ==> SentByCustodian(c, first, records + [r], i)
  {
    GatherAppend(NamedCustodian(c), records, [r]);
    GatherOne(NamedCustodian(c), r);
    forall i | 0 <= i < |records|
      ensures SentByCustodian(c, first, records + [r], i)
    {
      assert (records + [r])[..i] == records[..i];
      assert SentByCustodian(c, first, records, i);
    }
  }

  lemma ApplyKeepsRole(w: World, call: Call, c: Address, first: Address)
    requires RoleKept(w, c, first)
    ensures RoleKept(Apply(w, call), c, first)
  {
    if Transact(w, call).Ok? {
      var forwarded := Gather(OpRecords(Executor(call)), OpsOf(w, call));
      TransactLogs(w, call);
      ForwardedAreTokenCalls(w, call);
      if call.target.ToToken? {
        TokenCallsKeepRole(c, first, w.calls, forwarded);
        assert NewCalls(w, call) == forwarded;
      } else {
        var r := CustodianRecord(call.sender, call.address, call.target.custodianEntry);
        CustodianEffects.MainEffect(ContextOf(w, call), call.target.custodianEntry, w.custodians[call.address]);
        assert (w.calls + [r])[..|w.calls|] == w.calls;
        CustodianCallKeepsRole(c, first, w.calls, r);
        HolderAppend(first, Gather(NamedCustodian(c), w.calls), NamedCustodian(c)(r));
        TokenCallsKeepRole(c, first, w.calls + [r], forwarded);
        AppendAssociates(w.calls, [r], forwarded);
      }
    }
  }

  /** Over any run a custodian's account is whom the last committed `update_custodian` record for it named,
      or the original one, and the custodian of the moment sent every committed call reserved for it. */
  lemma {:induction false} CustodianIsLastNamed(w: World, calls: seq<Call>, c: Address)
    requires Genesis(w) && c in w.custodians
    ensures RoleKept(Run(w, calls), c, w.custodians[c].custodian)
  {
    if calls == [] {
    } else {
      CustodianIsLastNamed(w, calls[..|calls| - 1], c);
      ApplyKeepsRole(Run(w, calls[..|calls| - 1]), calls[|calls| - 1], c, w.custodians[c].custodian);
    }
  }
}
