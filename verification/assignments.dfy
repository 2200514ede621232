/**
 * Navigation between the targets of an assignment. An assignment's targets
 * are the rows linking it to its source objects, each with a 1-based `order`;
 * the database returns them sorted by that order. A lookup that finds no row
 * or several rows raises, and the navigation methods turn any exception into
 * None.
 */
module Assignments {
  import opened Values

  /** One row linking the assignment to a source object. */
  datatype Target = Target(objectPk: int, order: int)

  /** The rows of `s` that satisfy `p`, in order. */
  function Filter(s: seq<Target>, p: Target -> bool): (r: seq<Target>)
    ensures |r| <= |s|
    ensures forall t :: t in r <==> t in s && p(t)
  {
    if s == [] then [] else (if p(s[0]) then [s[0]] else []) + Filter(s[1..], p)
  }

  /** A filter that no row satisfies is empty. */
  lemma {:induction false} FilterNone(s: seq<Target>, p: Target -> bool)
    requires forall k :: 0 <= k < |s| ==> !p(s[k])
    ensures Filter(s, p) == []
  {
    if s != [] {
      FilterNone(s[1..], p);
    }
  }

  /** A filter that one row alone satisfies yields that row alone. */
  lemma {:induction false} FilterSingle(s: seq<Target>, p: Target -> bool, j: nat)
    requires j < |s| && p(s[j])
    requires forall k :: 0 <= k < |s| && k != j ==> !p(s[k])
    ensures Filter(s, p) == [s[j]]
  {
    if j == 0 {
      FilterNone(s[1..], p);
    } else {
      FilterSingle(s[1..], p, j - 1);
    }
  }

  /** Django's `get`: the one matching row, or None where it raises. */
  function Only(matches: seq<Target>): (r: Option<Target>)
    ensures r.Some? <==> |matches| == 1
    ensures r.Some? ==> r.value == matches[0]
  {
    if |matches| == 1 then Some(matches[0]) else None
  }

  /** The target of source object `pk`, when exactly one row links it. */
  function TargetOf(targets: seq<Target>, pk: int): Option<Target>
  {
    Only(Filter(targets, (t: Target) => t.objectPk == pk))
  }

  /** The target at position `order`, when exactly one row has it. */
  function TargetAt(targets: seq<Target>, order: int): Option<Target>
  {
    Only(Filter(targets, (t: Target) => t.order == order))
  }

  /**
   * The target one place before source object `pk`: None when the assignment
   * has fewer than two objects, when `pk`'s target is first, or when either
   * lookup does not find exactly one row.
   */
  function ObjectBefore(targets: seq<Target>, pk: int): (r: Option<Target>)
    ensures |targets| <= 1 ==> r.None?
    ensures r.Some? ==> r.value in targets &&
                        TargetOf(targets, pk).Some? &&
                        TargetOf(targets, pk).value.order == r.value.order + 1 != 1
  {
    if |targets| > 1 then
      match TargetOf(targets, pk)
      case None => None
      case Some(t) =>
        if t.order == 1 then None
        else TargetAt(targets, t.order - 1)
    else None
  }

  /**
   * The target one place after source object `pk`: None when the assignment
   * has fewer than two objects, when `pk`'s target's order equals the number of
   * objects, or when either lookup does not find exactly one row.
   */
  function ObjectAfter(targets: seq<Target>, pk: int): (r: Option<Target>)
    ensures |targets| <= 1 ==> r.None?
    ensures r.Some? ==> r.value in targets &&
                        TargetOf(targets, pk).Some? &&
                        TargetOf(targets, pk).value.order + 1 == r.value.order &&
                        TargetOf(targets, pk).value.order != |targets|
  {
    if |targets| > 1 then
      match TargetOf(targets, pk)
      case None => None
      case Some(t) =>
        if t.order == |targets| then None
        else TargetAt(targets, t.order + 1)
    else None
  }

  /**
   * The stored invariant: orders run 1..N in the database's order, and no
   * source object is linked twice.
   */
  predicate Dense(targets: seq<Target>)
  {
    && (forall i :: 0 <= i < |targets| ==> targets[i].order == i + 1)
    && (forall i, j :: 0 <= i < j < |targets| ==> targets[i].objectPk != targets[j].objectPk)
  }

  lemma DenseLookups(targets: seq<Target>, i: nat)
    requires Dense(targets) && i < |targets|
    ensures TargetOf(targets, targets[i].objectPk) == Some(targets[i])
    ensures forall k :: 0 <= k < |targets| ==> TargetAt(targets, k + 1) == Some(targets[k])
  {
    FilterSingle(targets, (t: Target) => t.objectPk == targets[i].objectPk, i);
    forall k | 0 <= k < |targets| ensures TargetAt(targets, k + 1) == Some(targets[k]) {
      FilterSingle(targets, (t: Target) => t.order == k + 1, k);
    }
  }

  /** With dense orders, the neighbours are the adjacent rows, and the ends have none. */
  lemma DenseNeighbours(targets: seq<Target>, i: nat)
    requires Dense(targets) && i < |targets|
    ensures ObjectBefore(targets, targets[i].objectPk) ==
              if i == 0 || |targets| == 1 then None else Some(targets[i - 1])
    ensures ObjectAfter(targets, targets[i].objectPk) ==
              if i == |targets| - 1 then None else Some(targets[i + 1])
  {
    DenseLookups(targets, i);
  }
}
