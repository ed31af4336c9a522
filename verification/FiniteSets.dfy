/** Least elements, sorted listings and sizes of finite sets. */
module FiniteSets {

  /** x comes before every other member of the set. */
  predicate IsLeast<T(==)>(x: T, ids: set<T>, before: (T, T) -> bool) {
    x in ids && forall y | y in ids && y != x :: before(x, y)
  }

  /** Any two members are comparable, and the order is transitive. */
  ghost predicate Ordered<T>(ids: set<T>, before: (T, T) -> bool) {
    && (forall x, y | x in ids && y in ids :: x == y || before(x, y) || before(y, x))
    && (forall x, y, z | x in ids && y in ids && z in ids && before(x, y) && before(y, z) :: before(x, z))
  }

  lemma {:induction false} LeastExists<T>(ids: set<T>, before: (T, T) -> bool)
    requires ids != {} && Ordered(ids, before)
    ensures exists x :: IsLeast(x, ids, before)
    decreases ids
  {
    var x :| x in ids;
    var rest := ids - {x};
    assert ids == rest + {x};
    if rest == {} {
      assert IsLeast(x, ids, before);
    } else {
      LeastExists(rest, before);
      var y :| IsLeast(y, rest, before);
      assert IsLeast(if before(x, y) then x else y, ids, before);
    }
  }

  /** Each member of the list comes before all that follow it. */
  predicate Sorted<T(!new)>(list: seq<T>, before: (T, T) -> bool) {
    forall i, j | 0 <= i < j < |list| :: before(list[i], list[j])
  }

  /** The members of a set in order, each once. */
  method SortSet<T(==, !new)>(ids: set<T>, before: (T, T) -> bool) returns (list: seq<T>)
    requires Ordered(ids, before)
    ensures forall x :: x in list <==> x in ids
    ensures Sorted(list, before)
    ensures forall i, j | 0 <= i < j < |list| :: list[i] != list[j]
    ensures |list| == |ids|
  {
    list := [];
    var todo := ids;
    while todo != {}
      invariant todo <= ids
      invariant forall x :: x in list <==> x in ids - todo
      invariant forall x, y | x in list && y in todo :: before(x, y)
      invariant Sorted(list, before)
      invariant forall i, j | 0 <= i < j < |list| :: list[i] != list[j]
      invariant |list| + |todo| == |ids|
      decreases todo
    {
      LeastExists(todo, before);
      var next :| next in todo && IsLeast(next, todo, before);
      forall i | 0 <= i < |list| ensures list[i] != next { assert list[i] in list; }
      list := list + [next];
      todo := todo - {next};
    }
  }

  /** The order on row ids. */
  function Ascending(): (nat, nat) -> bool { (x, y) => x <= y }

  function Least(ids: set<nat>): (least: nat)
    requires ids != {}
    ensures least in ids && forall y | y in ids :: least <= y
  {
    LeastExists(ids, Ascending());
    var least :| least in ids && IsLeast(least, ids, Ascending());
    assert forall y | y in ids && y != least :: Ascending()(least, y);
    least
  }

  /** A set with at most one new member. */
  lemma GrownByOne(larger: set<nat>, smaller: set<nat>, x: nat, added: bool)
    requires x !in smaller && forall y :: y in larger <==> y in smaller || (added && y == x)
    ensures |larger| == |smaller| + if added then 1 else 0
  {
    assert larger == smaller + if added then {x} else {};
  }

  lemma SubsetSmaller(small: set<nat>, large: set<nat>)
    requires small <= large
    ensures |small| <= |large|
    ensures |small| == |large| ==> small == large
  {
    assert large == small + (large - small);
  }
}
