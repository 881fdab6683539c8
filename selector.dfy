/** The cost-center selector: the index of cost-center ids, sorted in
    place, and the option list built from it. */
module Selector {
  import opened Decimal

  /** One `<option>` of the selector. */
  datatype SelectOption = Placeholder | CostCenter(id: int)

  /** The option's `value`, which is what a change of selection passes on:
      the empty string for the placeholder, the id's decimal text otherwise. */
  function Value(o: SelectOption): (v: string)
    ensures v == "" <==> o.Placeholder?
  {
    match o
    case Placeholder => ""
    case CostCenter(id) => IntToString(id)
  }

  /** Different options pass on different values, so each option selects
      its own cost center. */
  lemma ValueInjective(o1: SelectOption, o2: SelectOption)
    requires Value(o1) == Value(o2)
    ensures o1 == o2
  {
    if o1.CostCenter? && o2.CostCenter? {
      IntToStringInjective(o1.id, o2.id);
    }
  }

  /** The selector's contents for an index: the placeholder, then one
      option per id in index order. */
  function OptionsFor(ids: seq<int>): (opts: seq<SelectOption>)
    ensures |opts| == |ids| + 1 && Value(opts[0]) == ""
    ensures forall k :: 1 <= k < |opts| ==> Value(opts[k]) != ""
  {
    [Placeholder] + seq(|ids|, k requires 0 <= k < |ids| => CostCenter(ids[k]))
  }

  /** Reading the ids back from a selector built for an index gives the index. */
  function IdsOf(options: seq<SelectOption>): (ids: seq<int>)
    ensures |ids| == if options == [] then 0 else |options| - 1
  {
    if |options| <= 1 then []
    else seq(|options| - 1, k requires 0 <= k < |options| - 1 =>
           if options[k + 1].CostCenter? then options[k + 1].id else 0)
  }

  lemma OptionsRoundTrip(ids: seq<int>)
    ensures IdsOf(OptionsFor(ids)) == ids
    ensures |OptionsFor(ids)| == |ids| + 1 && OptionsFor(ids)[0] == Placeholder
    ensures forall k :: 0 <= k < |ids| ==> OptionsFor(ids)[k + 1] == CostCenter(ids[k])
  {
  }

  predicate Sorted(s: seq<int>)
  {
    forall i, j :: 0 <= i < j < |s| ==> s[i] <= s[j]
  }

  /** `Array.prototype.sort` with the comparator `(a, b) => a - b`: orders
      the index ascending, in place, keeping the same ids. */
  method SortIndex(a: array<int>)
    modifies a
    ensures Sorted(a[..])
    ensures multiset(a[..]) == multiset(old(a[..]))
  {
    var i := 0;
    while i < a.Length
      invariant 0 <= i <= a.Length
      invariant forall m, n :: 0 <= m < n < i ==> a[m] <= a[n]
      invariant multiset(a[..]) == multiset(old(a[..]))
    {
      Insert(a, i);
      i := i + 1;
    }
  }

  /** One insertion step: with `a[..i]` ascending, moves `a[i]` left past
      every larger id, leaving `a[..i + 1]` ascending. */
  method Insert(a: array<int>, i: nat)
    requires i < a.Length
    requires forall m, n :: 0 <= m < n < i ==> a[m] <= a[n]
    modifies a
    ensures forall m, n :: 0 <= m < n <= i ==> a[m] <= a[n]
    ensures multiset(a[..]) == multiset(old(a[..]))
  {
    var j := i;
    while j > 0 && a[j - 1] > a[j]
      invariant 0 <= j <= i
      invariant forall m, n :: 0 <= m < n <= i && m != j && n != j ==> a[m] <= a[n]
      invariant forall n :: j < n <= i ==> a[j] < a[n]
      invariant multiset(a[..]) == multiset(old(a[..]))
    {
      SwapDown(a, j);
      j := j - 1;
    }
  }

  /** Exchanges `a[j - 1]` and `a[j]`. */
  method SwapDown(a: array<int>, j: nat)
    requires 0 < j < a.Length
    modifies a
    ensures a[j - 1] == old(a[j]) && a[j] == old(a[j - 1])
    ensures forall k :: 0 <= k < a.Length && k != j - 1 && k != j ==> a[k] == old(a[k])
    ensures multiset(a[..]) == multiset(old(a[..]))
  {
    a[j - 1], a[j] := a[j], a[j - 1];
  }
}
