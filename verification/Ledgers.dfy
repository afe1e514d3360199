/** Balance maps and the sequences of signed postings both contracts apply to them. */
module Ledgers {
  import opened Outcomes
  import opened Lists

  // ---------- one balance ----------

  /** A big map lookup in which a missing key reads as zero. */
  function Get<K(==)>(ledger: map<K, nat>, k: K): nat {
    if k in ledger then ledger[k] else 0
  }

  /** No stored zero. */
  ghost predicate Canonical<K(!new)>(ledger: map<K, nat>) {
    forall k :: k in ledger ==> ledger[k] > 0
  }

  /** `update_balance`: both contracts carry a copy of it, each failing with its own code. */
  function UpdateBalance<K(==, !new)>(code: nat, k: K, diff: int, ledger: map<K, nat>): (r: Result<map<K, nat>>)
    ensures r == Err(FailWith(code)) <==> Get(ledger, k) + diff < 0
    ensures r.Ok? <==> Get(ledger, k) + diff >= 0
    ensures r.Ok? ==> forall j :: Get(r.value, j) == Get(ledger, j) + (if j == k then diff else 0)
    ensures r.Ok? ==> Canonical(ledger) ==> Canonical(r.value)
  {
    var balance := Get(ledger, k) + diff;
    if balance < 0 then Err(FailWith(code))
    else if balance == 0 then Ok(ledger - {k})
    else Ok(ledger[k := balance])
  }

  /** Canonical ledgers that answer every balance query alike are the same map. */
  lemma CanonicalExtensional<K(!new)>(a: map<K, nat>, b: map<K, nat>)
    requires Canonical(a) && Canonical(b)
    requires forall k :: Get(a, k) == Get(b, k)
    ensures a == b
  {
    forall k
      ensures k in a <==> k in b
      ensures k in a ==> a[k] == b[k]
    {
      assert Get(a, k) == Get(b, k);
    }
  }

  // ---------- sequences of postings ----------

  datatype Posting<K> = Posting(key: K, diff: int)

  function PostStep<K(==, !new)>(code: nat): (map<K, nat>, Posting<K>) -> Result<map<K, nat>> {
    (ledger: map<K, nat>, p: Posting<K>) => UpdateBalance(code, p.key, p.diff, ledger)
  }

  /** Apply the postings in order; the first overdraft fails the whole sequence. */
  function Post<K(==, !new)>(code: nat, ps: seq<Posting<K>>, ledger: map<K, nat>): Result<map<K, nat>> {
    Fold(PostStep(code), ps, ledger)
  }

  function DiffAt<K(==)>(k: K): Posting<K> -> int {
    (p: Posting<K>) => if p.key == k then p.diff else 0
  }

  function Net<K(==)>(ps: seq<Posting<K>>, k: K): int {
    Sum(DiffAt(k), ps)
  }

  ghost predicate Shifted<K(!new)>(ledger: map<K, nat>, ps: seq<Posting<K>>, ledger': map<K, nat>) {
    forall k :: Get(ledger', k) == Get(ledger, k) + Net(ps, k)
  }

  /** No prefix of the postings overdraws the key it ends on. */
  ghost predicate Affordable<K>(ps: seq<Posting<K>>, ledger: map<K, nat>) {
    forall i :: 0 <= i < |ps| ==> Get(ledger, ps[i].key) + Net(ps[..i + 1], ps[i].key) >= 0
  }

  lemma NetAppend<K>(ps: seq<Posting<K>>, qs: seq<Posting<K>>, k: K)
    ensures Net(ps + qs, k) == Net(ps, k) + Net(qs, k)
  {
    SumAppend(DiffAt(k), ps, qs);
  }

  lemma PostAppend<K(!new)>(code: nat, ps: seq<Posting<K>>, qs: seq<Posting<K>>, ledger: map<K, nat>)
    ensures Post(code, ps + qs, ledger) ==
            match Post(code, ps, ledger) {
              case Ok(m) => Post(code, qs, m)
              case Err(e) => Err(e)
            }
  {
    FoldAppend(PostStep(code), ps, qs, ledger);
  }

  /** What posting does, and exactly when it succeeds, in terms of the initial ledger alone. */
  lemma {:induction false} PostExact<K(!new)>(code: nat, ps: seq<Posting<K>>, ledger: map<K, nat>)
    ensures Post(code, ps, ledger).Ok? <==> Affordable(ps, ledger)
    ensures Post(code, ps, ledger).Err? ==> Post(code, ps, ledger) == Err(FailWith(code))
    ensures Post(code, ps, ledger).Ok? ==> Shifted(ledger, ps, Post(code, ps, ledger).value)
    ensures Post(code, ps, ledger).Ok? && Canonical(ledger) ==> Canonical(Post(code, ps, ledger).value)
  {
    if ps == [] {
    } else {
      var n := |ps| - 1;
      var init, last := ps[..n], ps[n];
      assert ps == init + [last];
      PostExact(code, init, ledger);
      PostAppend(code, init, [last], ledger);
      forall k
        ensures Net(ps, k) == Net(init, k) + DiffAt(k)(last)
      {
        NetAppend(init, [last], k);
        SumOne(DiffAt(k), last);
      }
      assert forall i :: 0 <= i < n ==> init[..i + 1] == ps[..i + 1] && init[i] == ps[i];
      assert ps[..n + 1] == ps;
      if Post(code, init, ledger).Ok? {
        var m := Post(code, init, ledger).value;
        FoldOne(PostStep(code), last, m);
        assert Get(m, last.key) == Get(ledger, last.key) + Net(init, last.key);
        assert Affordable(init, ledger);
        if Affordable(ps, ledger) {
          assert Get(ledger, ps[n].key) + Net(ps[..n + 1], ps[n].key) >= 0;
        }
        if Post(code, ps, ledger).Ok? {
          forall i | 0 <= i < |ps|
            ensures Get(ledger, ps[i].key) + Net(ps[..i + 1], ps[i].key) >= 0
          {
            if i < n {
              assert init[..i + 1] == ps[..i + 1];
              assert Get(ledger, init[i].key) + Net(init[..i + 1], init[i].key) >= 0;
            }
          }
        }
      } else {
        assert !Affordable(init, ledger);
        var i :| 0 <= i < n && Get(ledger, init[i].key) + Net(init[..i + 1], init[i].key) < 0;
        assert init[..i + 1] == ps[..i + 1];
      }
    }
  }

  /** Credits never fail. */
  lemma CreditsSucceed<K(!new)>(code: nat, ps: seq<Posting<K>>, ledger: map<K, nat>)
    requires forall p <- ps :: p.diff >= 0
    ensures Post(code, ps, ledger).Ok?
  {
    forall i | 0 <= i < |ps|
      ensures Get(ledger, ps[i].key) + Net(ps[..i + 1], ps[i].key) >= 0
    {
      SumNonnegative(DiffAt(ps[i].key), ps[..i + 1]);
    }
    PostExact(code, ps, ledger);
  }

  /** Debits succeed exactly when each key can pay its total, whatever the order. */
  lemma DebitsExact<K(!new)>(code: nat, ps: seq<Posting<K>>, ledger: map<K, nat>)
    requires forall p <- ps :: p.diff <= 0
    ensures Post(code, ps, ledger).Ok? <==> forall k :: Get(ledger, k) + Net(ps, k) >= 0
  {
    PostExact(code, ps, ledger);
    if Post(code, ps, ledger).Ok? {
      var m := Post(code, ps, ledger).value;
      assert forall k :: Get(m, k) == Get(ledger, k) + Net(ps, k);
    } else {
      var i :| 0 <= i < |ps| && Get(ledger, ps[i].key) + Net(ps[..i + 1], ps[i].key) < 0;
      var k := ps[i].key;
      assert ps == ps[..i + 1] + ps[i + 1..];
      NetAppend(ps[..i + 1], ps[i + 1..], k);
      SumNonpositive(ps[i + 1..], k);
      assert Get(ledger, k) + Net(ps, k) < 0;
    }
  }

  lemma {:induction false} SumNonpositive<K>(ps: seq<Posting<K>>, k: K)
    requires forall p <- ps :: p.diff <= 0
    ensures Net(ps, k) <= 0
  {
    if ps == [] {
    } else {
      SumNonpositive(ps[1..], k);
    }
  }

  /** A richer ledger affords whatever a poorer one does. */
  lemma PostMonotone<K(!new)>(code: nat, ps: seq<Posting<K>>, poor: map<K, nat>, rich: map<K, nat>)
    requires forall k :: Get(poor, k) <= Get(rich, k)
    requires Post(code, ps, poor).Ok?
    ensures Post(code, ps, rich).Ok?
  {
    PostExact(code, ps, poor);
    PostExact(code, ps, rich);
  }

  /** A key whose postings net below zero was debited by one of them. */
  lemma {:induction false} NegativeNetHasDebit<K>(ps: seq<Posting<K>>, k: K) returns (p: Posting<K>)
    requires Net(ps, k) < 0
    ensures p in ps && p.key == k && p.diff < 0
  {
    if ps[0].key == k && ps[0].diff < 0 {
      p := ps[0];
    } else {
      p := NegativeNetHasDebit(ps[1..], k);
    }
  }

  // ---------- holdings: keys that pair an owner with an item ----------

  datatype Holding<A, B> = Holding(owner: A, item: B)

  /** The sum of all owners' balances of one item. */
  ghost function Total<A, B>(ledger: map<Holding<A, B>, nat>, item: B): nat
    decreases |ledger|
  {
    if ledger == map[] then 0
    else
      var h :| h in ledger;
      (if h.item == item then ledger[h] else 0) + Total(ledger - {h}, item)
  }

  lemma {:induction false} TotalWithout<A, B>(ledger: map<Holding<A, B>, nat>, item: B, h: Holding<A, B>)
    requires h in ledger
    ensures Total(ledger, item) == (if h.item == item then ledger[h] else 0) + Total(ledger - {h}, item)
    decreases |ledger|
  {
    var g :| g in ledger &&
      Total(ledger, item) == (if g.item == item then ledger[g] else 0) + Total(ledger - {g}, item);
    if g != h {
      TotalWithout(ledger - {g}, item, h);
      TotalWithout(ledger - {h}, item, g);
      assert ledger - {g} - {h} == ledger - {h} - {g};
    }
  }

  lemma TotalAdjusted<A(!new), B(!new)>(code: nat, h: Holding<A, B>, diff: int,
                                        ledger: map<Holding<A, B>, nat>, item: B)
    requires UpdateBalance(code, h, diff, ledger).Ok?
    ensures Total(UpdateBalance(code, h, diff, ledger).value, item) ==
            Total(ledger, item) + (if h.item == item then diff else 0)
  {
    var ledger' := UpdateBalance(code, h, diff, ledger).value;
    assert ledger' - {h} == ledger - {h};
    if h in ledger {
      TotalWithout(ledger, item, h);
    } else {
      assert ledger - {h} == ledger;
    }
    if h in ledger' {
      TotalWithout(ledger', item, h);
    } else {
      assert ledger' - {h} == ledger';
    }
  }

  lemma BalanceWithinTotal<A, B>(ledger: map<Holding<A, B>, nat>, h: Holding<A, B>)
    ensures Get(ledger, h) <= Total(ledger, h.item)
  {
    if h in ledger {
      TotalWithout(ledger, h.item, h);
    }
  }

  lemma {:induction false} PositiveTotalHasHolder<A, B>(ledger: map<Holding<A, B>, nat>, item: B)
    returns (h: Holding<A, B>)
    requires Total(ledger, item) > 0
    ensures h in ledger && h.item == item
    decreases |ledger|
  {
    h :| h in ledger;
    if h.item != item {
      TotalWithout(ledger, item, h);
      h := PositiveTotalHasHolder(ledger - {h}, item);
    }
  }

  ghost function Holders<A(!new), B(!new)>(ledger: map<Holding<A, B>, nat>, item: B): set<A> {
    set h | h in ledger && h.item == item :: h.owner
  }

  ghost function SumOver<A>(f: A -> int, owners: set<A>): int
    decreases |owners|
  {
    if owners == {} then 0
    else
      var a :| a in owners;
      f(a) + SumOver(f, owners - {a})
  }

  lemma HolderListed<A(!new), B(!new)>(ledger: map<Holding<A, B>, nat>, h: Holding<A, B>)
    requires h in ledger
    ensures h.owner in Holders(ledger, h.item)
  {
  }

  /** A total is the sum of the balances of any set of owners that includes every holder. */
  lemma {:induction false} TotalIsSum<A(!new), B(!new)>(
    ledger: map<Holding<A, B>, nat>, item: B, owners: set<A>, f: A -> int)
    requires forall a <- owners :: f(a) == Get(ledger, Holding(a, item))
    requires Holders(ledger, item) <= owners
    ensures SumOver(f, owners) == Total(ledger, item)
    decreases |owners|
  {
    if owners == {} {
      if Total(ledger, item) > 0 {
        var h := PositiveTotalHasHolder(ledger, item);
        HolderListed(ledger, h);
      }
    } else {
      var a :| a in owners && SumOver(f, owners) == f(a) + SumOver(f, owners - {a});
      var h := Holding(a, item);
      forall g | g in ledger - {h} && g.item == item
        ensures g.owner in owners - {a}
      {
        HolderListed(ledger, g);
        assert g == Holding(g.owner, g.item);
      }
      TotalIsSum(ledger - {h}, item, owners - {a}, f);
      if h in ledger {
        TotalWithout(ledger, item, h);
      } else {
        assert ledger - {h} == ledger;
      }
    }
  }

  function DiffIn<A, B(==)>(item: B): Posting<Holding<A, B>> -> int {
    (p: Posting<Holding<A, B>>) => if p.key.item == item then p.diff else 0
  }

  /** What the postings add to the total of one item. */
  function NetIn<A, B(==)>(ps: seq<Posting<Holding<A, B>>>, item: B): int {
    Sum(DiffIn(item), ps)
  }

  lemma NetInAppend<A, B>(ps: seq<Posting<Holding<A, B>>>, qs: seq<Posting<Holding<A, B>>>, item: B)
    ensures NetIn(ps + qs, item) == NetIn(ps, item) + NetIn(qs, item)
  {
    SumAppend(DiffIn(item), ps, qs);
  }

  lemma {:induction false} TotalPosted<A(!new), B(!new)>(
    code: nat, ps: seq<Posting<Holding<A, B>>>, ledger: map<Holding<A, B>, nat>, item: B)
    requires Post(code, ps, ledger).Ok?
    ensures Total(Post(code, ps, ledger).value, item) == Total(ledger, item) + NetIn(ps, item)
  {
    if ps == [] {
    } else {
      var m := UpdateBalance(code, ps[0].key, ps[0].diff, ledger).value;
      TotalAdjusted(code, ps[0].key, ps[0].diff, ledger, item);
      TotalPosted(code, ps[1..], m, item);
    }
  }

  // ---------- moves ----------

  /** A transfer of an amount of an item between two owners. */
  datatype Move<A, B> = Move(from: A, to: A, item: B, amount: nat)

  /** Both contracts credit the destination first and debit the source second. */
  function Entries<A, B>(mv: Move<A, B>): seq<Posting<Holding<A, B>>> {
    [Posting(Holding(mv.to, mv.item), mv.amount), Posting(Holding(mv.from, mv.item), -(mv.amount as int))]
  }

  function MovePostings<A, B>(mvs: seq<Move<A, B>>): seq<Posting<Holding<A, B>>> {
    Gather(Entries, mvs)
  }

  function InflowOf<A(==), B(==)>(h: Holding<A, B>): Move<A, B> -> int {
    (mv: Move<A, B>) => if Holding(mv.to, mv.item) == h then mv.amount else 0
  }

  function OutflowOf<A(==), B(==)>(h: Holding<A, B>): Move<A, B> -> int {
    (mv: Move<A, B>) => if Holding(mv.from, mv.item) == h then mv.amount else 0
  }

  function Inflow<A(==), B(==)>(mvs: seq<Move<A, B>>, h: Holding<A, B>): int {
    Sum(InflowOf(h), mvs)
  }

  function Outflow<A(==), B(==)>(mvs: seq<Move<A, B>>, h: Holding<A, B>): int {
    Sum(OutflowOf(h), mvs)
  }

  /** The move is a self-transfer, or its source holds the amount once the earlier moves are done. */
  ghost predicate CoveredAt<A, B>(mvs: seq<Move<A, B>>, ledger: map<Holding<A, B>, nat>, i: nat)
    requires i < |mvs|
  {
    var h := Holding(mvs[i].from, mvs[i].item);
    mvs[i].from == mvs[i].to || Get(ledger, h) + Inflow(mvs[..i], h) - Outflow(mvs[..i], h) >= mvs[i].amount
  }

  ghost predicate Covered<A, B>(mvs: seq<Move<A, B>>, ledger: map<Holding<A, B>, nat>) {
    forall i :: 0 <= i < |mvs| ==> CoveredAt(mvs, ledger, i)
  }

  lemma SumPair<X>(f: X -> int, xs: seq<X>)
    requires |xs| == 2
    ensures Sum(f, xs) == f(xs[0]) + f(xs[1])
  {
    assert xs == [xs[0]] + [xs[1]];
    SumAppend(f, [xs[0]], [xs[1]]);
    SumOne(f, xs[0]);
    SumOne(f, xs[1]);
  }

  lemma {:induction false} MovesNet<A, B>(mvs: seq<Move<A, B>>, h: Holding<A, B>)
    ensures Net(MovePostings(mvs), h) == Inflow(mvs, h) - Outflow(mvs, h)
  {
    if mvs == [] {
    } else {
      NetAppend(Entries(mvs[0]), MovePostings(mvs[1..]), h);
      MovesNet(mvs[1..], h);
      SumPair(DiffAt(h), Entries(mvs[0]));
    }
  }

  /** Moves leave the total of every item alone. */
  lemma {:induction false} MovesConserve<A, B>(mvs: seq<Move<A, B>>, item: B)
    ensures NetIn(MovePostings(mvs), item) == 0
  {
    if mvs == [] {
    } else {
      NetInAppend(Entries(mvs[0]), MovePostings(mvs[1..]), item);
      MovesConserve(mvs[1..], item);
      SumPair(DiffIn(item), Entries(mvs[0]));
    }
  }

  lemma PostPair<K(!new)>(code: nat, ps: seq<Posting<K>>, ledger: map<K, nat>)
    requires |ps| == 2
    ensures Post(code, ps, ledger) ==
            match UpdateBalance(code, ps[0].key, ps[0].diff, ledger) {
              case Ok(m) => UpdateBalance(code, ps[1].key, ps[1].diff, m)
              case Err(e) => Err(e)
            }
  {
    assert ps[1..] == [ps[1]];
    match UpdateBalance(code, ps[0].key, ps[0].diff, ledger)
    case Ok(m) => FoldOne(PostStep(code), ps[1], m);
    case Err(_) =>
  }

  lemma OneMove<A(!new), B(!new)>(code: nat, mv: Move<A, B>, ledger: map<Holding<A, B>, nat>)
    ensures Post(code, Entries(mv), ledger).Ok? <==>
            mv.from == mv.to || Get(ledger, Holding(mv.from, mv.item)) >= mv.amount
  {
    PostPair(code, Entries(mv), ledger);
  }

  /** A batch of moves succeeds exactly when it is covered, and shifts each balance by inflow less outflow. */
  lemma {:induction false} MovesExact<A(!new), B(!new)>(
    code: nat, mvs: seq<Move<A, B>>, ledger: map<Holding<A, B>, nat>)
    ensures Post(code, MovePostings(mvs), ledger).Ok? <==> Covered(mvs, ledger)
    ensures Post(code, MovePostings(mvs), ledger).Ok? ==>
              forall h :: Get(Post(code, MovePostings(mvs), ledger).value, h) ==
                          Get(ledger, h) + Inflow(mvs, h) - Outflow(mvs, h)
  {
    PostExact(code, MovePostings(mvs), ledger);
    forall h ensures Net(MovePostings(mvs), h) == Inflow(mvs, h) - Outflow(mvs, h) { MovesNet(mvs, h); }
    if mvs == [] {
    } else {
      var n := |mvs| - 1;
      var init, last := mvs[..n], mvs[n];
      assert mvs == init + [last];
      MovesExact(code, init, ledger);
      GatherAppend(Entries, init, [last]);
      assert MovePostings(mvs) == MovePostings(init) + Entries(last);
      PostAppend(code, MovePostings(init), Entries(last), ledger);
      CoveredPrefix(mvs, ledger, n);
      if Covered(init, ledger) {
        OneMove(code, last, Post(code, MovePostings(init), ledger).value);
        CoveredExtends(mvs, ledger);
      }
    }
  }

  lemma CoveredPrefix<A, B>(mvs: seq<Move<A, B>>, ledger: map<Holding<A, B>, nat>, n: nat)
    requires n <= |mvs|
    ensures Covered(mvs, ledger) ==> Covered(mvs[..n], ledger)
  {
    forall i | 0 <= i < n && CoveredAt(mvs, ledger, i)
      ensures CoveredAt(mvs[..n], ledger, i)
    {
      assert mvs[..n][..i] == mvs[..i];
    }
  }

  lemma CoveredExtends<A, B>(mvs: seq<Move<A, B>>, ledger: map<Holding<A, B>, nat>)
    requires mvs != [] && Covered(mvs[..|mvs| - 1], ledger)
    ensures Covered(mvs, ledger) <==> CoveredAt(mvs, ledger, |mvs| - 1)
  {
    var init := mvs[..|mvs| - 1];
    forall i | 0 <= i < |init|
      ensures CoveredAt(init, ledger, i) <==> CoveredAt(mvs, ledger, i)
    {
      assert init[..i] == mvs[..i] && init[i] == mvs[i];
    }
  }

  /** Moves that all leave one owner succeed once that owner can pay the whole batch; afterwards it
      keeps at least what the batch left over, and nobody else has lost anything. */
  lemma OutgoingMoves<A(!new), B(!new)>(code: nat, mvs: seq<Move<A, B>>, payer: A, ledger: map<Holding<A, B>, nat>)
    requires forall mv <- mvs :: mv.from == payer
    requires forall item :: Outflow(mvs, Holding(payer, item)) <= Get(ledger, Holding(payer, item))
    ensures Post(code, MovePostings(mvs), ledger).Ok?
    ensures var ledger' := Post(code, MovePostings(mvs), ledger).value;
            && (forall item :: Get(ledger', Holding(payer, item)) >=
                               Get(ledger, Holding(payer, item)) - Outflow(mvs, Holding(payer, item)))
            && (forall h: Holding<A, B> :: h.owner != payer ==> Get(ledger', h) >= Get(ledger, h))
  {
    forall i | 0 <= i < |mvs|
      ensures CoveredAt(mvs, ledger, i)
    {
      var h := Holding(payer, mvs[i].item);
      assert mvs == mvs[..i] + [mvs[i]] + mvs[i + 1..];
      SumAppend(OutflowOf(h), mvs[..i] + [mvs[i]], mvs[i + 1..]);
      SumAppend(OutflowOf(h), mvs[..i], [mvs[i]]);
      SumOne(OutflowOf(h), mvs[i]);
      SumNonnegative(OutflowOf(h), mvs[i + 1..]);
      SumNonnegative(InflowOf(h), mvs[..i]);
      assert Outflow(mvs, Holding(payer, mvs[i].item)) <= Get(ledger, h);
    }
    MovesExact(code, mvs, ledger);
    forall h
      ensures Inflow(mvs, h) >= 0
      ensures h.owner != payer ==> Outflow(mvs, h) == 0
    {
      SumNonnegative(InflowOf(h), mvs);
      if h.owner != payer {
        NoOutflow(mvs, h);
      }
    }
  }

  lemma {:induction false} NoOutflow<A, B>(mvs: seq<Move<A, B>>, h: Holding<A, B>)
    requires forall mv <- mvs :: mv.from != h.owner
    ensures Outflow(mvs, h) == 0
  {
    if mvs == [] {
    } else {
      NoOutflow(mvs[1..], h);
    }
  }
}
