/**
 * Searching and splitting text at a separator character: the pieces the
 * stored-user encoding and the query-string reader are built from.
 */
module Strings {
  import opened Wrappers

  /** The first position of `c` in `s`, if any. */
  function IndexOf(s: string, c: char): (r: Option<nat>)
    ensures r.Some? ==> r.value < |s| && s[r.value] == c && forall j :: 0 <= j < r.value ==> s[j] != c
    ensures r.None? ==> forall j :: 0 <= j < |s| ==> s[j] != c
  {
    if s == [] then None
    else if s[0] == c then Some(0)
    else match IndexOf(s[1..], c)
      case Some(k) => Some(k + 1)
      case None => None
  }

  /** Splits `s` around the first `c`: the text before it and the text after it. */
  function SplitAt(s: string, c: char): (r: Option<(string, string)>)
    ensures r.Some? ==> s == r.value.0 + [c] + r.value.1 && c !in r.value.0
    ensures r.None? ==> c !in s
  {
    match IndexOf(s, c)
    case Some(i) => assert s == s[..i] + [c] + s[i + 1..]; Some((s[..i], s[i + 1..]))
    case None => None
  }

  /** Splitting at the first separator undoes joining around it, when the left part holds no separator. */
  lemma SplitJoin(a: string, c: char, b: string)
    requires c !in a
    ensures SplitAt(a + [c] + b, c) == Some((a, b))
  {
    var s := a + [c] + b;
    assert s[|a|] == c;
    assert forall j :: 0 <= j < |a| ==> s[j] == a[j];
    assert IndexOf(s, c) == Some(|a|);
    assert s[..|a|] == a && s[|a| + 1..] == b;
  }

  /** The pieces joined back with `c` between them. */
  function Join(parts: seq<string>, c: char): string
    requires |parts| >= 1
  {
    if |parts| == 1 then parts[0] else parts[0] + [c] + Join(parts[1..], c)
  }

  /** `s.split(c)`: every piece between separators, in order, at least one. */
  function Split(s: string, c: char): (parts: seq<string>)
    ensures |parts| >= 1
    ensures forall i :: 0 <= i < |parts| ==> c !in parts[i]
    ensures Join(parts, c) == s
    decreases |s|
  {
    match SplitAt(s, c)
    case None => [s]
    case Some((a, b)) =>
      var rest := Split(b, c);
      assert ([a] + rest)[1..] == rest;
      [a] + rest
  }

  /** Splitting joined pieces that hold no separator gives the pieces back. */
  lemma {:induction false} SplitOfJoin(parts: seq<string>, c: char)
    requires |parts| >= 1
    requires forall i :: 0 <= i < |parts| ==> c !in parts[i]
    ensures Split(Join(parts, c), c) == parts
  {
    if |parts| == 1 {
      assert SplitAt(parts[0], c).None?;
    } else {
      var rest := Join(parts[1..], c);
      assert Join(parts, c) == parts[0] + [c] + rest;
      SplitJoin(parts[0], c, rest);
      assert Split(Join(parts, c), c) == [parts[0]] + Split(rest, c);
      SplitOfJoin(parts[1..], c);
      assert parts == [parts[0]] + parts[1..];
    }
  }
}
