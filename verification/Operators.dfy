/** Operator sets, and what a history of additions and removals leaves in them. */
module Operators {

  datatype OperatorUpdate<O> = AddOperator(operator: O) | RemoveOperator(operator: O)

  function UpdateOne<O(==)>(operators: set<O>, u: OperatorUpdate<O>): set<O> {
    match u
    case AddOperator(o) => operators + {o}
    case RemoveOperator(o) => operators - {o}
  }

  function UpdateAll<O(==)>(us: seq<OperatorUpdate<O>>, operators: set<O>): set<O> {
    if us == [] then operators else UpdateAll(us[1..], UpdateOne(operators, us[0]))
  }

  ghost predicate Unnamed<O>(us: seq<OperatorUpdate<O>>, o: O) {
    forall u <- us :: u.operator != o
  }

  /** The last update naming `o` added it. */
  ghost predicate LastAdded<O>(us: seq<OperatorUpdate<O>>, o: O) {
    exists i :: 0 <= i < |us| && us[i] == AddOperator(o) && Unnamed(us[i + 1..], o)
  }

  lemma {:induction false} UpdateAllAppend<O>(
    us: seq<OperatorUpdate<O>>, vs: seq<OperatorUpdate<O>>, operators: set<O>)
    ensures UpdateAll(us + vs, operators) == UpdateAll(vs, UpdateAll(us, operators))
  {
    if us == [] {
      assert us + vs == vs;
    } else {
      assert (us + vs)[1..] == us[1..] + vs;
      UpdateAllAppend(us[1..], vs, UpdateOne(operators, us[0]));
    }
  }

  /** Membership after a history of updates: the last update naming the operator decides. */
  lemma {:induction false} LastUpdateDecides<O>(us: seq<OperatorUpdate<O>>, operators: set<O>, o: O)
    ensures o in UpdateAll(us, operators) <==> LastAdded(us, o) || (o in operators && Unnamed(us, o))
  {
    if us == [] {
    } else {
      var rest, operators' := us[1..], UpdateOne(operators, us[0]);
      LastUpdateDecides(rest, operators', o);
      assert us == [us[0]] + rest;
      if LastAdded(rest, o) {
        var i :| 0 <= i < |rest| && rest[i] == AddOperator(o) && Unnamed(rest[i + 1..], o);
        assert us[i + 1] == rest[i] && us[i + 2..] == rest[i + 1..];
      }
      if LastAdded(us, o) {
        var i :| 0 <= i < |us| && us[i] == AddOperator(o) && Unnamed(us[i + 1..], o);
        if i > 0 {
          assert rest[i - 1] == us[i] && rest[i..] == us[i + 1..];
        }
      }
      if us[0] == AddOperator(o) && Unnamed(rest, o) {
        assert us[0 + 1..] == rest;
      }
    }
  }
}
