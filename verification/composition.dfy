/**
 * The ordered list of active filters kept by the worker of main.py, as
 * values: what toggling one filter id does to the list, and the composition
 * description shown to the user.
 */
module Composition {
  import opened Wrappers
  import opened ImageFilters

  const FilterComposition: string := "Filter compostion: "
  const NoFiltersSelected: string := FilterComposition + "no filters selected."
  const Separator: string := " > "

  /** Python's `sep.join(parts)`. */
  function Join(sep: string, parts: seq<string>): (r: string)
    ensures |parts| == 0 ==> r == ""
    ensures |parts| > 0 ==> parts[0] <= r
  {
    if |parts| == 0 then ""
    else if |parts| == 1 then parts[0]
    else parts[0] + sep + Join(sep, parts[1..])
  }

  /** Joining one more part appends the separator and that part. */
  lemma {:induction false} JoinSnoc(sep: string, parts: seq<string>, p: string)
    requires |parts| > 0
    ensures Join(sep, parts + [p]) == Join(sep, parts) + sep + p
  {
    if |parts| > 1 {
      assert (parts + [p])[1..] == parts[1..] + [p];
      JoinSnoc(sep, parts[1..], p);
    }
  }

  /** `str(filter_)` for each filter, in list order. */
  function Names(filters: seq<ImageFilter>): seq<string>
  {
    seq(|filters|, i requires 0 <= i < |filters| => filters[i].Str())
  }

  /** The composition description returned after a toggle. */
  function Describe(active: seq<ImageFilter>): (r: string)
    ensures FilterComposition <= r
    ensures |active| > 0 ==> FilterComposition + active[0].displayName <= r
  {
    if |active| > 0 then FilterComposition + Join(Separator, Names(active)) else NoFiltersSelected
  }

  /** With nothing active the description is the fixed text, typo included. */
  lemma DescribeEmpty()
    ensures Describe([]) == "Filter compostion: no filters selected."
  {
  }

  /** One active filter gives its display name after the prefix, with no separator. */
  lemma DescribeSingle(f: ImageFilter)
    ensures Describe([f]) == "Filter compostion: " + f.displayName
  {
  }

  /** A filter appended to a non-empty list adds `' > '` and its name at the end of the description. */
  lemma DescribeAppend(active: seq<ImageFilter>, f: ImageFilter)
    requires |active| > 0
    ensures Describe(active + [f]) == Describe(active) + " > " + f.displayName
  {
    assert Names(active + [f]) == Names(active) + [f.Str()];
    JoinSnoc(Separator, Names(active), f.Str());
  }

  /** No filter id occurs twice in the list. */
  predicate NoDuplicateIds(s: seq<ImageFilter>)
  {
    forall i, j :: 0 <= i < j < |s| ==> s[i].filterId != s[j].filterId
  }

  /** The registry's own convention: the filter at position i has id i. */
  predicate IdsArePositions(available: seq<ImageFilter>)
  {
    forall i :: 0 <= i < |available| ==> available[i].filterId == i
  }

  /** Every active filter is the registry's filter for its id. */
  predicate Registered(active: seq<ImageFilter>, available: seq<ImageFilter>)
  {
    forall i :: 0 <= i < |active| ==> active[i].filterId < |available| && available[active[i].filterId] == active[i]
  }

  /** The index the scan over `enumerate(active_filters_)` ends with: the last one holding the id. */
  function LastIndexOf(s: seq<ImageFilter>, id: nat): (r: Option<nat>)
    ensures r.None? <==> forall i :: 0 <= i < |s| ==> s[i].filterId != id
    ensures r.Some? ==>
              r.value < |s| && s[r.value].filterId == id &&
              forall j :: r.value < j < |s| ==> s[j].filterId != id
  {
    if |s| == 0 then None
    else if s[|s| - 1].filterId == id then Some(|s| - 1)
    else LastIndexOf(s[..|s| - 1], id)
  }

  datatype ToggleError = UnknownFilterId(id: nat)

  /**
   * `activate_or_deactivate_filter` on the list: an active id is removed, an
   * inactive one has its registry filter appended, and an id the registry
   * does not hold raises before the list is touched.
   */
  function Toggle(active: seq<ImageFilter>, available: seq<ImageFilter>, id: nat): (r: Result<seq<ImageFilter>, ToggleError>)
    ensures r.Err? <==> id >= |available| && forall i :: 0 <= i < |active| ==> active[i].filterId != id
    ensures r.Err? ==> r.error == UnknownFilterId(id)
    ensures r.Ok? ==> forall f :: f in r.value ==> f in active || (id < |available| && f == available[id])
  {
    match LastIndexOf(active, id)
    case Some(k) => Ok(active[..k] + active[k + 1..])
    case None => if id < |available| then Ok(active + [available[id]]) else Err(UnknownFilterId(id))
  }

  /** The invariant of the active list: registered filters with distinct ids, over a registry indexed by id. */
  predicate ActiveListValid(active: seq<ImageFilter>, available: seq<ImageFilter>)
  {
    IdsArePositions(available) && NoDuplicateIds(active) && Registered(active, available)
  }

  /** Toggling an inactive registered id appends that filter at the end. */
  lemma ToggleInactiveAppends(active: seq<ImageFilter>, available: seq<ImageFilter>, id: nat)
    requires forall i :: 0 <= i < |active| ==> active[i].filterId != id
    requires id < |available|
    ensures Toggle(active, available, id) == Ok(active + [available[id]])
  {
  }

  /** Toggling an active id removes exactly that filter and keeps the others in their order. */
  lemma ToggleActiveRemoves(active: seq<ImageFilter>, available: seq<ImageFilter>, id: nat, k: nat)
    requires NoDuplicateIds(active)
    requires k < |active| && active[k].filterId == id
    ensures Toggle(active, available, id) == Ok(active[..k] + active[k + 1..])
  {
  }

  /** With a valid list, an id the registry does not hold fails with `UnknownFilterId`. */
  lemma ToggleUnknownIdFails(active: seq<ImageFilter>, available: seq<ImageFilter>, id: nat)
    requires Registered(active, available)
    requires id >= |available|
    ensures Toggle(active, available, id) == Err(UnknownFilterId(id))
  {
    assert forall i :: 0 <= i < |active| ==> active[i].filterId != id by {
      forall i | 0 <= i < |active|
        ensures active[i].filterId != id
      {
        assert active[i].filterId < |available|;
      }
    }
  }

  /** Toggling keeps the invariant: ids stay distinct and every active filter stays registered. */
  lemma ToggleKeepsListValid(active: seq<ImageFilter>, available: seq<ImageFilter>, id: nat)
    requires ActiveListValid(active, available)
    ensures Toggle(active, available, id).Ok? ==> ActiveListValid(Toggle(active, available, id).value, available)
  {
    match LastIndexOf(active, id)
    case Some(k) =>
      var rest := active[..k] + active[k + 1..];
      forall i, j | 0 <= i < j < |rest|
        ensures rest[i].filterId != rest[j].filterId
      {
        var i' := if i < k then i else i + 1;
        var j' := if j < k then j else j + 1;
        assert rest[i] == active[i'] && rest[j] == active[j'];
      }
      forall i | 0 <= i < |rest|
        ensures rest[i].filterId < |available| && available[rest[i].filterId] == rest[i]
      {
        assert rest[i] == active[if i < k then i else i + 1];
      }
    case None =>
      if id < |available| {
        var grown := active + [available[id]];
        forall i, j | 0 <= i < j < |grown|
          ensures grown[i].filterId != grown[j].filterId
        {
          if j == |active| {
            assert grown[i] == active[i];
          }
        }
      }
  }

  /** Toggling an inactive registered id twice leaves the list exactly as it was. */
  lemma ToggleTwiceInactive(active: seq<ImageFilter>, available: seq<ImageFilter>, id: nat)
    requires ActiveListValid(active, available)
    requires id < |available|
    requires forall i :: 0 <= i < |active| ==> active[i].filterId != id
    ensures Toggle(active, available, id) == Ok(active + [available[id]])
    ensures Toggle(active + [available[id]], available, id) == Ok(active)
  {
    var once := active + [available[id]];
    ToggleKeepsListValid(active, available, id);
    ToggleActiveRemoves(once, available, id, |active|);
    assert once[..|active|] + once[|active| + 1..] == active;
  }

  /**
   * Toggling an active id twice restores the same filters, but the filter
   * comes back at the end rather than at its old position k.
   */
  lemma ToggleTwiceActive(active: seq<ImageFilter>, available: seq<ImageFilter>, id: nat, k: nat)
    requires ActiveListValid(active, available)
    requires k < |active| && active[k].filterId == id
    ensures Toggle(active, available, id) == Ok(active[..k] + active[k + 1..])
    ensures Toggle(active[..k] + active[k + 1..], available, id) == Ok(active[..k] + active[k + 1..] + [active[k]])
    ensures multiset(active[..k] + active[k + 1..] + [active[k]]) == multiset(active)
  {
    var rest := active[..k] + active[k + 1..];
    ToggleActiveRemoves(active, available, id, k);
    forall i | 0 <= i < |rest|
      ensures rest[i].filterId != id
    {
      assert rest[i] == active[if i < k then i else i + 1];
    }
    ToggleInactiveAppends(rest, available, id);
    assert available[id] == active[k];
    assert active == active[..k] + [active[k]] + active[k + 1..];
  }

  /** The list after one toggle, where a toggle that raises leaves the list unchanged. */
  function ToggleOrKeep(active: seq<ImageFilter>, available: seq<ImageFilter>, id: nat): seq<ImageFilter>
  {
    var r := Toggle(active, available, id);
    if r.Ok? then r.value else active
  }

  /** The list after a sequence of toggles. */
  function ToggleAll(active: seq<ImageFilter>, available: seq<ImageFilter>, ids: seq<nat>): seq<ImageFilter>
    decreases |ids|
  {
    if ids == [] then active
    else ToggleAll(ToggleOrKeep(active, available, ids[0]), available, ids[1..])
  }

  /** Starting from any valid list, in particular the empty one, no sequence of toggles duplicates an id. */
  lemma {:induction false} ToggleAllKeepsListValid(active: seq<ImageFilter>, available: seq<ImageFilter>, ids: seq<nat>)
    requires ActiveListValid(active, available)
    ensures ActiveListValid(ToggleAll(active, available, ids), available)
    ensures NoDuplicateIds(ToggleAll(active, available, ids))
    decreases |ids|
  {
    if ids != [] {
      ToggleKeepsListValid(active, available, ids[0]);
      ToggleAllKeepsListValid(ToggleOrKeep(active, available, ids[0]), available, ids[1..]);
    }
  }

  /** From the empty list of `Worker.__init__`, toggles never put two filters with one id in the list. */
  lemma ToggleAllFromEmpty(available: seq<ImageFilter>, ids: seq<nat>)
    requires IdsArePositions(available)
    ensures NoDuplicateIds(ToggleAll([], available, ids))
  {
    ToggleAllKeepsListValid([], available, ids);
  }

  /**
   * Toggling ids 0 then 5 activates both in that order; toggling 0 again
   * leaves only 5 active.
   */
  lemma ToggleScenario(available: seq<ImageFilter>)
    requires IdsArePositions(available) && |available| > 5
    ensures ToggleAll([], available, [0, 5]) == [available[0], available[5]]
    ensures ToggleAll([], available, [0, 5, 0]) == [available[5]]
  {
    var one := [available[0]];
    var two := [available[0], available[5]];
    assert available[0].filterId == 0 && available[5].filterId == 5;
    ToggleInactiveAppends([], available, 0);
    ToggleInactiveAppends(one, available, 5);
    ToggleActiveRemoves(two, available, 0, 0);
    assert ToggleOrKeep([], available, 0) == one;
    assert ToggleOrKeep(one, available, 5) == two;
    assert ToggleOrKeep(two, available, 0) == [available[5]];
    ToggleAllStep([], available, [0, 5]);
    ToggleAllStep(one, available, [5]);
    ToggleAllStep([], available, [0, 5, 0]);
    ToggleAllStep(one, available, [5, 0]);
    ToggleAllStep(two, available, [0]);
  }

  /** One toggle, then the rest. */
  lemma ToggleAllStep(active: seq<ImageFilter>, available: seq<ImageFilter>, ids: seq<nat>)
    requires |ids| > 0
    ensures ToggleAll(active, available, ids) == ToggleAll(ToggleOrKeep(active, available, ids[0]), available, ids[1..])
  {
  }
}
