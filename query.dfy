/**
 * The predicate-based query layer: `by`, `by_name` and the `list`/`get` pair
 * that every manager inherits. A manager's `_list_all` is passed in as the
 * item sequence; conditions are total functions of one item.
 */
module Query {
  import opened Wrappers

  /** `by(field, condition)`: the condition applied to one field of the object. */
  function By<T, F>(field: T -> F, condition: F -> bool): T -> bool
  {
    obj => condition(field(obj))
  }

  /** `by_name(condition)`: `by` on the object's `name` field. */
  function ByName<T>(name: T -> string, condition: string -> bool): T -> bool
  {
    By(name, condition)
  }

  /** A `by` predicate holds of an object exactly when the condition holds of that field. */
  lemma ByAppliesConditionToField<T, F>(field: T -> F, condition: F -> bool, obj: T)
    ensures By(field, condition)(obj) == condition(field(obj))
  {
  }

  /** `by_name(c)` is `by` on the name field. */
  lemma ByNameIsByOnName<T>(name: T -> string, condition: string -> bool, obj: T)
    ensures ByName(name, condition)(obj) == By(name, condition)(obj) == condition(name(obj))
  {
  }

  /** The items that satisfy the condition, in their original relative order. */
  function Filter<T(==)>(items: seq<T>, condition: T -> bool): seq<T>
  {
    if items == [] then []
    else if condition(items[0]) then [items[0]] + Filter(items[1..], condition)
    else Filter(items[1..], condition)
  }

  /** Filtering keeps only satisfying items, so never more items than it was given. */
  lemma {:induction false} FilterKeepsOnlyMatches<T>(items: seq<T>, condition: T -> bool)
    ensures var r := Filter(items, condition);
      |r| <= |items| && forall i :: 0 <= i < |r| ==> condition(r[i])
  {
    if items != [] {
      FilterKeepsOnlyMatches(items[1..], condition);
    }
  }

  /** Filtering keeps every occurrence of a satisfying item and none of any other. */
  lemma {:induction false} FilterCount<T>(items: seq<T>, condition: T -> bool, x: T)
    ensures multiset(Filter(items, condition))[x] == if condition(x) then multiset(items)[x] else 0
  {
    if items != [] {
      FilterCount(items[1..], condition, x);
      assert items == [items[0]] + items[1..];
    }
  }

  /** Filtering yields a sub-multiset that holds every occurrence of each satisfying item. */
  lemma FilterKeepsExactlyMatches<T>(items: seq<T>, condition: T -> bool)
    ensures var r := Filter(items, condition);
      && multiset(r) <= multiset(items)
      && (forall i :: 0 <= i < |items| && condition(items[i]) ==> multiset(r)[items[i]] == multiset(items)[items[i]])
  {
    var r := Filter(items, condition);
    forall x ensures multiset(r)[x] <= multiset(items)[x] {
      FilterCount(items, condition, x);
    }
    forall i | 0 <= i < |items| && condition(items[i])
      ensures multiset(r)[items[i]] == multiset(items)[items[i]]
    {
      FilterCount(items, condition, items[i]);
    }
  }

  /** `sub` can be obtained from `s` by deleting elements (greedy left-to-right matching). */
  predicate IsSubsequence<T(==)>(sub: seq<T>, s: seq<T>)
    decreases |s|
  {
    if sub == [] then true
    else if s == [] then false
    else if sub[0] == s[0] then IsSubsequence(sub[1..], s[1..])
    else IsSubsequence(sub, s[1..])
  }

  /** Filtering keeps the relative order of the items it keeps. */
  lemma {:induction false} FilterKeepsOrder<T>(items: seq<T>, condition: T -> bool)
    ensures IsSubsequence(Filter(items, condition), items)
  {
    if items != [] {
      FilterKeepsOrder(items[1..], condition);
      var rest := Filter(items[1..], condition);
      if condition(items[0]) {
        assert ([items[0]] + rest)[1..] == rest;
      } else {
        FilterKeepsOnlyMatches(items[1..], condition);
      }
    }
  }

  /**
   * `QueryMixin.list`: every item of `_list_all` when no condition is given,
   * otherwise exactly the satisfying items, in their original order.
   */
  function List<T(==)>(all: seq<T>, condition: Option<T -> bool>): (r: seq<T>)
    ensures condition.None? ==> r == all
    ensures condition.Some? ==> forall i :: 0 <= i < |r| ==> condition.value(r[i])
    ensures forall i :: 0 <= i < |r| ==> r[i] in all
    ensures condition.Some? ==> forall i :: 0 <= i < |all| && condition.value(all[i]) ==> all[i] in r
    ensures condition.Some? ==> forall i :: 0 <= i < |all| && condition.value(all[i]) ==> multiset(r)[all[i]] == multiset(all)[all[i]]
    ensures IsSubsequence(r, all)
  {
    match condition
    case None =>
      SubsequenceOfItself(all);
      all
    case Some(c) =>
      FilterKeepsOrder(all, c);
      FilterKeepsOnlyMatches(all, c);
      FilterKeepsExactlyMatches(all, c);
      var r := Filter(all, c);
      assert forall i :: 0 <= i < |all| && c(all[i]) ==> all[i] in r by {
        forall i | 0 <= i < |all| && c(all[i]) ensures all[i] in r {
          assert all[i] in multiset(all);
        }
      }
      assert forall i :: 0 <= i < |r| ==> r[i] in all by {
        forall i | 0 <= i < |r| ensures r[i] in all {
          assert r[i] in multiset(r);
        }
      }
      r
  }

  /** Every sequence is a subsequence of itself. */
  lemma {:induction false} SubsequenceOfItself<T>(s: seq<T>)
    ensures IsSubsequence(s, s)
  {
    if s != [] {
      SubsequenceOfItself(s[1..]);
    }
  }

  /** `QueryMixin.get`: the first item, in `_list_all` order, that satisfies the condition. */
  function Get<T>(all: seq<T>, condition: T -> bool): Option<T>
  {
    if all == [] then None
    else if condition(all[0]) then Some(all[0])
    else Get(all[1..], condition)
  }

  /** `get` finds nothing exactly when no item satisfies the condition, and otherwise a satisfying item of the sequence. */
  lemma {:induction false} GetFindsMatch<T>(all: seq<T>, condition: T -> bool)
    ensures var r := Get(all, condition);
      && (r.None? <==> forall i :: 0 <= i < |all| ==> !condition(all[i]))
      && (r.Some? ==> r.value in all && condition(r.value))
  {
    if all != [] && !condition(all[0]) {
      GetFindsMatch(all[1..], condition);
      assert forall i :: 1 <= i < |all| ==> all[i] == all[1..][i - 1];
    }
  }

  /** The match `get` returns is the first one: no earlier item satisfies the condition. */
  lemma {:induction false} GetIsFirstMatch<T>(all: seq<T>, condition: T -> bool, k: nat)
    requires k < |all| && condition(all[k])
    requires forall j :: 0 <= j < k ==> !condition(all[j])
    ensures Get(all, condition) == Some(all[k])
  {
    if k > 0 {
      GetIsFirstMatch(all[1..], condition, k - 1);
    }
  }

  /** `get(c)` is the head of `list(c)` whenever that list is non-empty, and `None` otherwise. */
  lemma {:induction false} GetIsHeadOfList<T>(all: seq<T>, condition: T -> bool)
    ensures var l := List(all, Some(condition));
      Get(all, condition) == if l == [] then None else Some(l[0])
  {
    if all != [] {
      GetIsHeadOfList(all[1..], condition);
      assert all == [all[0]] + all[1..];
    }
  }

  /** Searching a sequence that starts with `x` finds `x` if it qualifies, else searches the rest. */
  lemma GetOfCons<T>(x: T, rest: seq<T>, condition: T -> bool)
    ensures Get([x] + rest, condition) == if condition(x) then Some(x) else Get(rest, condition)
  {
    assert ([x] + rest)[1..] == rest;
  }

  /** Searching a concatenation finds the first part's match if it has one, else the second part's. */
  lemma {:induction false} GetOfConcat<T>(a: seq<T>, b: seq<T>, condition: T -> bool)
    ensures Get(a + b, condition) == if Get(a, condition).Some? then Get(a, condition) else Get(b, condition)
  {
    if a != [] {
      assert (a + b)[1..] == a[1..] + b;
      GetOfConcat(a[1..], b, condition);
    } else {
      assert a + b == b;
    }
  }
}
