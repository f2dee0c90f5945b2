/** The pieces of Go's package strings that the text layers use. */
module Text {
  import opened Common

  function Join(parts: seq<string>, sep: char): string {
    if parts == [] then "" else if |parts| == 1 then parts[0] else parts[0] + [sep] + Join(parts[1..], sep)
  }

  /** The position of the first `c`; |s| if there is none. */
  function IndexOf(s: string, c: char): (i: nat)
    ensures i <= |s| && (i < |s| ==> s[i] == c) && forall j :: 0 <= j < i ==> s[j] != c
  {
    if s == "" then 0 else if s[0] == c then 0 else 1 + IndexOf(s[1..], c)
  }

  function Split(s: string, sep: char): (parts: seq<string>)
    ensures parts != []
    decreases |s|
  {
    var i := IndexOf(s, sep);
    if i == |s| then [s] else [s[..i]] + Split(s[i + 1..], sep)
  }

  function Cut(s: string, sep: char): Option<(string, string)> {
    var i := IndexOf(s, sep);
    if i == |s| then None else Some((s[..i], s[i + 1..]))
  }

  /** unicode.IsSpace. */
  predicate IsSpace(c: char) {
    var n := c as int;
    9 <= n <= 13 || n == 32 || n == 0x85 || n == 0xA0 || n == 0x1680 || 0x2000 <= n <= 0x200A ||
    n == 0x2028 || n == 0x2029 || n == 0x202F || n == 0x205F || n == 0x3000
  }

  function TrimLeft(s: string): string {
    if s != "" && IsSpace(s[0]) then TrimLeft(s[1..]) else s
  }

  function TrimRight(s: string): string {
    if s != "" && IsSpace(s[|s| - 1]) then TrimRight(s[..|s| - 1]) else s
  }

  /** strings.TrimSpace. */
  function Trim(s: string): string {
    TrimRight(TrimLeft(s))
  }

  lemma {:induction false} IndexIs(s: string, c: char, i: nat)
    requires i <= |s| && (i < |s| ==> s[i] == c) && forall j :: 0 <= j < i ==> s[j] != c
    ensures IndexOf(s, c) == i
  {
  }

  lemma {:induction false} SplitFirst(s: string, sep: char, i: nat)
    requires i < |s| && s[i] == sep && forall j :: 0 <= j < i ==> s[j] != sep
    ensures Split(s, sep) == [s[..i]] + Split(s[i + 1..], sep)
  {
    IndexIs(s, sep, i);
  }

  lemma {:induction false} SplitNone(s: string, sep: char)
    requires sep !in s
    ensures Split(s, sep) == [s]
  {
    IndexIs(s, sep, |s|);
  }

  lemma {:induction false} SplitAfter(s: string, sep: char, a: string, b: string)
    requires s == a + [sep] + b && sep !in a
    ensures Split(s, sep) == [a] + Split(b, sep)
  {
    assert s[..|a|] == a && s[|a| + 1..] == b;
    hide Split, IndexOf;
    assert forall j :: 0 <= j < |a| ==> s[j] == a[j];
    SplitFirst(s, sep, |a|);
  }

  /** Splitting at a separator splits both sides on their own. */
  lemma {:induction false} SplitConcat(a: string, b: string, sep: char)
    ensures Split(a + [sep] + b, sep) == Split(a, sep) + Split(b, sep)
    decreases |a|
  {
    hide Split;
    var i := IndexOf(a, sep);
    if i == |a| {
      SplitNone(a, sep);
      SplitAfter(a + [sep] + b, sep, a, b);
    } else {
      SplitConcat(a[i + 1..], b, sep);
      SplitConcatStep(a[..i], a[i + 1..], b, sep);
      hide IndexOf;
      assert a[..i] + [sep] + a[i + 1..] == a;
    }
  }

  lemma {:induction false} SplitConcatStep(first: string, rest: string, b: string, sep: char)
    requires sep !in first && Split(rest + [sep] + b, sep) == Split(rest, sep) + Split(b, sep)
    ensures Split(first + [sep] + rest + [sep] + b, sep) == Split(first + [sep] + rest, sep) + Split(b, sep)
  {
    hide Split;
    var tail := rest + [sep] + b;
    assert first + [sep] + rest + [sep] + b == first + [sep] + tail;
    SplitAfter(first + [sep] + rest, sep, first, rest);
    SplitAfter(first + [sep] + tail, sep, first, tail);
    assert [first] + Split(rest, sep) + Split(b, sep) == [first] + Split(tail, sep);
  }

  lemma {:induction false} SplitJoin(parts: seq<string>, sep: char)
    requires parts != [] && forall i :: 0 <= i < |parts| ==> sep !in parts[i]
    ensures Split(Join(parts, sep), sep) == parts
  {
    var s := Join(parts, sep);
    assert forall j :: 0 <= j < |parts[0]| ==> parts[0][j] in parts[0];
    IndexIs(s, sep, |parts[0]|);
    hide IndexOf;
    if |parts| > 1 {
      SplitJoin(parts[1..], sep);
      assert s[..|parts[0]|] == parts[0];
      assert s[|parts[0]| + 1..] == Join(parts[1..], sep);
    }
  }

  /** Text that is one field already: nothing to trim. */
  lemma TrimSame(s: string)
    requires s != "" ==> !IsSpace(s[0]) && !IsSpace(s[|s| - 1])
    ensures Trim(s) == s
  {
  }
}
