/** Selecting the integrations whose target field the pattern finds a match in. */
module Matcher {
  import opened Values

  /** `re.compile(pattern).search(value)` is truthy; the regex engine itself is not modelled. */
  type Search = (string, string) -> bool

  /** The items kept by the selection loop, in their order, or the fault of the first
      item whose target field is missing or not a string. Defined from the last item
      backwards, the order in which the loop's prefix grows. */
  function Select(items: seq<Item>, field: string, pattern: string, search: Search): Result<seq<Item>>
  {
    if items == [] then Ok([])
    else
      match Select(items[..|items| - 1], field, pattern, search)
      case Err(f) => Err(f)
      case Ok(kept) =>
        var item := items[|items| - 1];
        match TextAt(item, field)
        case Err(f) => Err(f)
        case Ok(v) => Ok(if search(pattern, v) then kept + [item] else kept)
  }

  /** Item `i` is kept: its target field is a string the pattern is found in. */
  predicate Hit(items: seq<Item>, i: nat, field: string, pattern: string, search: Search)
    requires i < |items|
  {
    TextAt(items[i], field).Ok? && search(pattern, TextAt(items[i], field).value)
  }

  /** The positions of the kept items, in increasing order. */
  function HitIndices(items: seq<Item>, field: string, pattern: string, search: Search): seq<nat>
  {
    if items == [] then []
    else
      var prev := HitIndices(items[..|items| - 1], field, pattern, search);
      if Hit(items, |items| - 1, field, pattern, search) then prev + [|items| - 1] else prev
  }

  /** The loop at the top of the script: one pass over `items`, appending each match. */
  method FindMatches(items: seq<Item>, field: string, pattern: string, search: Search)
    returns (r: Result<seq<Item>>)
    ensures r == Select(items, field, pattern, search)
  {
    var todrop: seq<Item> := [];
    var i := 0;
    while i < |items|
      invariant 0 <= i <= |items|
      invariant Select(items[..i], field, pattern, search) == Ok(todrop)
    {
      var item := items[i];
      assert items[..i + 1][..i] == items[..i];
      var value := TextAt(item, field);
      if value.Err? {
        assert Select(items[..i + 1], field, pattern, search).Err?;
        SelectErrExtends(items, i + 1, field, pattern, search);
        return Err(value.fault);
      }
      if search(pattern, value.value) {
        todrop := todrop + [item];
      }
      i := i + 1;
    }
    assert items[..i] == items;
    r := Ok(todrop);
  }

  /** Once a prefix fails, the whole list fails with the same fault. */
  lemma {:induction false} SelectErrExtends(items: seq<Item>, n: nat, field: string, pattern: string, search: Search)
    requires n <= |items|
    requires Select(items[..n], field, pattern, search).Err?
    ensures Select(items, field, pattern, search) == Select(items[..n], field, pattern, search)
    decreases |items| - n
  {
    if n < |items| {
      assert items[..n + 1][..n] == items[..n];
      SelectErrExtends(items, n + 1, field, pattern, search);
    } else {
      assert items[..n] == items;
    }
  }

  /** The selection fails exactly when some item lacks a string target field, and
      then with the fault of the first such item. */
  lemma {:induction false} SelectFailsIff(items: seq<Item>, field: string, pattern: string, search: Search)
    ensures Select(items, field, pattern, search).Err? <==>
      exists i :: 0 <= i < |items| && TextAt(items[i], field).Err?
    ensures Select(items, field, pattern, search).Err? ==>
      exists i :: 0 <= i < |items| && TextAt(items[i], field).Err? &&
        Select(items, field, pattern, search).fault == TextAt(items[i], field).fault &&
        forall j :: 0 <= j < i ==> TextAt(items[j], field).Ok?
  {
    if items != [] {
      var init := items[..|items| - 1];
      SelectFailsIff(init, field, pattern, search);
      assert forall j :: 0 <= j < |init| ==> init[j] == items[j];
    }
  }

  /** A successful selection is exactly the items that hit, each once, in source order:
      `kept[j]` is the item at the j-th hit position, the positions strictly increase,
      and a position is listed if and only if its item hits. */
  lemma {:induction false} SelectIsOrderedFilter(items: seq<Item>, field: string, pattern: string, search: Search)
    requires Select(items, field, pattern, search).Ok?
    ensures var kept := Select(items, field, pattern, search).value;
      var idx := HitIndices(items, field, pattern, search);
      && |kept| == |idx|
      && (forall j :: 0 <= j < |idx| ==> idx[j] < |items| && kept[j] == items[idx[j]])
      && (forall j, k :: 0 <= j < k < |idx| ==> idx[j] < idx[k])
      && (forall i :: 0 <= i < |items| ==> (i in idx <==> Hit(items, i, field, pattern, search)))
  {
    if items != [] {
      var init := items[..|items| - 1];
      SelectIsOrderedFilter(init, field, pattern, search);
      assert forall j :: 0 <= j < |init| ==> init[j] == items[j];
      assert forall i :: 0 <= i < |init| ==>
        (Hit(init, i, field, pattern, search) <==> Hit(items, i, field, pattern, search));
    }
  }
}
