/** Resolving the positional argument `[field:]pattern` into the field to match and
    the regular expression to search it with. */
module Pattern {
  import opened Values

  const DefaultField: string := "name"
  /** The regular expression used when the argument gives none. A search with it finds
      only an empty value or a value that is a single newline. */
  const DefaultPattern: string := "^$"

  /** The three parts Python's `str.rpartition` returns. */
  datatype Partition = Partition(head: string, sep: string, tail: string)

  /** The position of the last occurrence of `c` in `s`, if any. */
  function LastIndexOf(s: string, c: char): (r: Option<nat>)
    ensures r.Some? ==> r.value < |s| && s[r.value] == c
    ensures r.Some? ==> forall j :: r.value < j < |s| ==> s[j] != c
    ensures r.None? <==> c !in s
  {
    if s == [] then None
    else if s[|s| - 1] == c then Some(|s| - 1)
    else
      var r := LastIndexOf(s[..|s| - 1], c);
      assert forall j :: 0 <= j < |s| - 1 ==> s[..|s| - 1][j] == s[j];
      r
  }

  /** `s.rpartition(c)`: split at the last `c`, or ("", "", s) when there is none. */
  function RPartition(s: string, c: char): (p: Partition)
    ensures p.head + p.sep + p.tail == s
    ensures c !in p.tail
    ensures c in s ==> p.sep == [c]
    ensures c !in s ==> p == Partition([], [], s)
  {
    match LastIndexOf(s, c)
    case None => Partition([], [], s)
    case Some(k) =>
      assert s == s[..k] + [c] + s[k + 1..];
      Partition(s[..k], [c], s[k + 1..])
  }

  datatype Target = Target(field: string, pattern: string)

  /** The field and the pattern the run uses for argument `arg`. */
  function Resolve(arg: string): (t: Target)
    ensures ':' !in arg ==> t.field == DefaultField
    ensures ':' !in arg ==> t.pattern == (if arg == [] then DefaultPattern else arg)
    ensures t.pattern != []
    ensures t.field != []
  {
    var parts := RPartition(arg, ':');
    var field := if |parts.head| != 0 then parts.head else DefaultField;
    var pattern := if |parts.tail| != 0 then parts.tail else DefaultPattern;
    Target(field, pattern)
  }

  /** Splitting happens at the LAST colon: whatever precedes it (colons included) is
      the field, whatever follows it is the pattern, each replaced by its default when
      empty. */
  lemma {:induction false} ResolveAtLastColon(head: string, tail: string)
    requires ':' !in tail
    ensures Resolve(head + ":" + tail).field == (if head == [] then DefaultField else head)
    ensures Resolve(head + ":" + tail).pattern == (if tail == [] then DefaultPattern else tail)
  {
    var s := head + ":" + tail;
    LastColonAt(head, tail);
    assert s[..|head|] == head;
    assert s[|head| + 1..] == tail;
  }

  lemma {:induction false} LastColonAt(head: string, tail: string)
    requires ':' !in tail
    ensures LastIndexOf(head + ":" + tail, ':') == Some(|head|)
  {
    var s := head + ":" + tail;
    assert s[|head|] == ':';
    assert forall j :: |head| < j < |s| ==> s[j] == tail[j - |head| - 1];
  }

  /** When both sides of the last colon are non-empty, field and pattern joined by a
      colon give back the argument. */
  lemma ResolveRoundTrip(head: string, tail: string)
    requires ':' !in tail && head != [] && tail != []
    ensures Resolve(head + ":" + tail).field + ":" + Resolve(head + ":" + tail).pattern == head + ":" + tail
  {
    ResolveAtLastColon(head, tail);
  }

  /** A trailing colon (or an empty argument) always selects the default pattern `^$`. */
  lemma EmptySuffixSelectsDefault(arg: string)
    requires arg == [] || arg[|arg| - 1] == ':'
    ensures Resolve(arg).pattern == DefaultPattern
  {
  }

  /** The worked example: the field keeps every colon but the last. */
  lemma ResolveExample()
    ensures Resolve("a:b:c") == Target("a:b", "c")
  {
    ResolveAtLastColon("a:b", "c");
    assert "a:b" + ":" + "c" == "a:b:c";
  }

  /** Edge cases: an empty field, an empty pattern, an empty argument, no colon. */
  lemma ResolveEdgeCases()
    ensures Resolve(":x") == Target(DefaultField, "x")
    ensures Resolve("f:") == Target("f", DefaultPattern)
    ensures Resolve("") == Target(DefaultField, DefaultPattern)
    ensures Resolve("abc") == Target(DefaultField, "abc")
  {
    ResolveAtLastColon("", "x");
    assert "" + ":" + "x" == ":x";
    ResolveAtLastColon("f", "");
    assert "f" + ":" + "" == "f:";
  }
}
