/**
  Core lists as text: the printers (internal/api/cli_kernel_baseline.go coreListText,
  internal/cli/setup.go compressCoreText, internal/api/setstmt.go formatValue) and the parsers
  (internal/api/cliexec.go expandCores, internal/cli/setup.go parseCoreListText).
 */
module CoreList {
  import opened Common
  import opened Decimal
  import opened Ordering
  import opened Text

  // ---------- printing ----------

  datatype Span = Span(lo: int, hi: int)

  function SpanText(s: Span): string {
    if s.lo == s.hi then Itoa(s.lo) else Itoa(s.lo) + "-" + Itoa(s.hi)
  }

  function SpanTexts(spans: seq<Span>): (parts: seq<string>)
    ensures |parts| == |spans|
  {
    seq(|spans|, i requires 0 <= i < |spans| => SpanText(spans[i]))
  }

  /** The maximal runs, continuing an open one. */
  function RunsFrom(open: Span, xs: seq<int>): seq<Span>
    decreases xs
  {
    if xs == [] then [open]
    else if xs[0] == open.hi + 1 then RunsFrom(Span(open.lo, xs[0]), xs[1..])
    else [open] + RunsFrom(Span(xs[0], xs[0]), xs[1..])
  }

  function Runs(xs: seq<int>): seq<Span> {
    if xs == [] then [] else RunsFrom(Span(xs[0], xs[0]), xs[1..])
  }

  /** coreListText and compressCoreText. */
  function Compressed(xs: seq<int>): string {
    Join(SpanTexts(Runs(xs)), ',')
  }

  /** A list printed core by core. */
  function Listed(xs: seq<int>): string {
    Join(SpanTexts(Singles(xs)), ',')
  }

  function Singles(xs: seq<int>): (spans: seq<Span>)
    ensures |spans| == |xs|
  {
    seq(|xs|, i requires 0 <= i < |xs| => Span(xs[i], xs[i]))
  }

  method CompressCores(cores: seq<int>) returns (text: string)
    ensures text == Compressed(cores)
  {
    hide Itoa;
    if cores == [] {
      return "";
    }
    var parts: seq<string> := [];
    ghost var done: seq<Span> := [];
    var start, prev := cores[0], cores[0];
    for i := 1 to |cores|
      invariant parts == SpanTexts(done)
      invariant Runs(cores) == done + RunsFrom(Span(start, prev), cores[i..])
    {
      assert cores[i..][1..] == cores[i + 1..];
      if cores[i] == prev + 1 {
        prev := cores[i];
        continue;
      }
      parts := parts + [if start == prev then Itoa(start) else Itoa(start) + "-" + Itoa(prev)];
      done := done + [Span(start, prev)];
      start, prev := cores[i], cores[i];
    }
    parts := parts + [if start == prev then Itoa(start) else Itoa(start) + "-" + Itoa(prev)];
    assert cores[|cores|..] == [];
    assert SpanTexts(done + [Span(start, prev)]) == parts;
    text := Join(parts, ',');
  }

  // ---------- parsing ----------

  datatype BadPart = BadRange(part: string) | BadNumber(part: string)

  function Interval(lo: int, hi: int): seq<int>
    decreases hi - lo
  {
    if lo > hi then [] else [lo] + Interval(lo + 1, hi)
  }

  /** One part of the list; the server also trims around the dash. */
  function PartCores(part: string, trim: bool): Result<seq<int>, BadPart> {
    match Cut(part, '-')
    case Some(ends) =>
      var lo, hi := Atoi(if trim then Trim(ends.0) else ends.0), Atoi(if trim then Trim(ends.1) else ends.1);
      if lo.None? || hi.None? || lo.value > hi.value then Err(BadRange(part))
      else Ok(Interval(lo.value, hi.value))
    case None =>
      var n := Atoi(part);
      if n.None? then Err(BadNumber(part)) else Ok([n.value])
  }

  function Prefixed(xs: seq<int>, r: Result<seq<int>, BadPart>): (q: Result<seq<int>, BadPart>)
    ensures xs == [] ==> q == r
  {
    match r
    case Err(e) => Err(e)
    case Ok(ys) =>
      assert [] + ys == ys;
      Ok(xs + ys)
  }

  lemma PrefixedTwice(xs: seq<int>, ys: seq<int>, r: Result<seq<int>, BadPart>)
    ensures Prefixed(xs, Prefixed(ys, r)) == Prefixed(xs + ys, r)
  {
    if r.Ok? {
      assert xs + (ys + r.value) == (xs + ys) + r.value;
    }
  }

  lemma PrefixedError(xs: seq<int>, e: BadPart)
    ensures Prefixed(xs, Err(e)) == Err(e)
  {
  }

  lemma PrefixedNothing(xs: seq<int>)
    ensures Prefixed(xs, Ok([])) == Ok(xs)
  {
    assert xs + [] == xs;
  }

  function ExpandParts(parts: seq<string>): Result<seq<int>, BadPart> {
    if parts == [] then Ok([])
    else
      match PartCores(Trim(parts[0]), true)
      case Err(e) => Err(e)
      case Ok(xs) => Prefixed(xs, ExpandParts(parts[1..]))
  }

  /** expandCores. */
  function Expanded(s: string): Result<seq<int>, BadPart> {
    ExpandParts(Split(s, ','))
  }

  function AddNew(acc: seq<int>, xs: seq<int>): seq<int>
    decreases xs
  {
    if xs == [] then acc else AddNew(if xs[0] in acc then acc else acc + [xs[0]], xs[1..])
  }

  function ParseParts(parts: seq<string>, acc: seq<int>): Result<seq<int>, BadPart>
    decreases parts
  {
    if parts == [] then Ok(SortInts(acc))
    else if Trim(parts[0]) == "" then ParseParts(parts[1..], acc)
    else
      match PartCores(Trim(parts[0]), false)
      case Err(e) => Err(e)
      case Ok(xs) => ParseParts(parts[1..], AddNew(acc, xs))
  }

  /** parseCoreListText. */
  function Parsed(s: string): Result<seq<int>, BadPart> {
    ParseParts(Split(s, ','), [])
  }

  method ExpandCores(s: string) returns (r: Result<seq<int>, BadPart>)
    ensures r == Expanded(s)
  {
    hide Split, IndexOf, Cut, TrimLeft, TrimRight, Trim, Atoi, Prefixed;
    var out: seq<int> := [];
    var parts := Split(s, ',');
    assert parts[0..] == parts;
    for i := 0 to |parts|
      invariant Expanded(s) == Prefixed(out, ExpandParts(parts[i..]))
    {
      assert parts[i..][1..] == parts[i + 1..];
      var part := Trim(parts[i]);
      var ends := Cut(part, '-');
      if ends.Some? {
        var a, b := Atoi(Trim(ends.value.0)), Atoi(Trim(ends.value.1));
        if a.None? || b.None? || a.value > b.value {
          PrefixedError(out, BadRange(part));
          return Err(BadRange(part));
        }
        assert ExpandParts(parts[i..]) == Prefixed(Interval(a.value, b.value), ExpandParts(parts[i + 1..]));
        ghost var before := out;
        var x := a.value;
        while x <= b.value
          invariant a.value <= x <= b.value + 1
          invariant before + Interval(a.value, b.value) == out + Interval(x, b.value)
        {
          assert out + Interval(x, b.value) == out + [x] + Interval(x + 1, b.value);
          out := out + [x];
          x := x + 1;
        }
        assert out == before + Interval(a.value, b.value) by {
          assert Interval(x, b.value) == [];
        }
        PrefixedTwice(before, Interval(a.value, b.value), ExpandParts(parts[i + 1..]));
        continue;
      }
      var n := Atoi(part);
      if n.None? {
        PrefixedError(out, BadNumber(part));
        return Err(BadNumber(part));
      }
      assert ExpandParts(parts[i..]) == Prefixed([n.value], ExpandParts(parts[i + 1..]));
      PrefixedTwice(out, [n.value], ExpandParts(parts[i + 1..]));
      out := out + [n.value];
    }
    PrefixedNothing(out);
    r := Ok(out);
  }

  method ParseCoreList(s: string) returns (r: Result<seq<int>, BadPart>)
    ensures r == Parsed(s)
  {
    hide Split, IndexOf, Cut, TrimLeft, TrimRight, Trim, Atoi, SortInts;
    var out: seq<int> := [];
    var seen: set<int> := {};
    var parts := Split(s, ',');
    assert parts[0..] == parts;
    for i := 0 to |parts|
      invariant seen == Elements(out)
      invariant Parsed(s) == ParseParts(parts[i..], out)
    {
      assert parts[i..][1..] == parts[i + 1..];
      var part := Trim(parts[i]);
      if part == "" {
        continue;
      }
      var ends := Cut(part, '-');
      if ends.Some? {
        var lo, hi := Atoi(ends.value.0), Atoi(ends.value.1);
        if lo.None? || hi.None? || lo.value > hi.value {
          return Err(BadRange(part));
        }
        ghost var before := out;
        var x := lo.value;
        while x <= hi.value
          invariant lo.value <= x <= hi.value + 1 && seen == Elements(out)
          invariant AddNew(before, Interval(lo.value, hi.value)) == AddNew(out, Interval(x, hi.value))
        {
          if x !in seen {
            seen := seen + {x};
            out := out + [x];
          }
          x := x + 1;
        }
        assert Interval(x, hi.value) == [];
        continue;
      }
      var n := Atoi(part);
      if n.None? {
        return Err(BadNumber(part));
      }
      assert AddNew(out, [n.value]) == if n.value in out then out else out + [n.value];
      if n.value !in seen {
        seen := seen + {n.value};
        out := out + [n.value];
      }
    }
    r := Ok(SortInts(out));
  }

  // ---------- round trips ----------

  function Cores(spans: seq<Span>): seq<int> {
    if spans == [] then [] else Interval(spans[0].lo, spans[0].hi) + Cores(spans[1..])
  }

  predicate IsCore(n: int) {
    0 <= n <= INT64_MAX
  }

  predicate Natural(s: Span) {
    IsCore(s.lo) && s.lo <= s.hi <= INT64_MAX
  }

  predicate AllCores(xs: seq<int>) {
    forall i :: 0 <= i < |xs| ==> IsCore(xs[i])
  }

  lemma SpanTextFacts(s: Span)
    requires -INT64_MAX - 1 <= s.lo <= s.hi <= INT64_MAX
    ensures SpanText(s) != "" && ',' !in SpanText(s) && Trim(SpanText(s)) == SpanText(s)
    ensures forall trim :: Natural(s) ==> PartCores(SpanText(s), trim) == Ok(Interval(s.lo, s.hi))
    ensures forall trim :: s.lo < 0 ==> PartCores(SpanText(s), trim).Err?
  {
    hide Itoa, Atoi, Trim, IsSpace, IndexOf;
    var lo, hi, text := Itoa(s.lo), Itoa(s.hi), SpanText(s);
    ItoaShape(s.lo);
    ItoaShape(s.hi);
    assert forall i :: 0 <= i < |text| ==> IsDigit(text[i]) || text[i] == '-';
    TrimSame(text);
    if s.lo < 0 {
      NegativePart(text);
    } else if s.lo < s.hi {
      RangePart(s.lo, s.hi);
    } else {
      IndexIs(text, '-', |text|);
      SingleInterval(s.lo);
    }
  }

  lemma NegativePart(text: string)
    requires text != "" && text[0] == '-'
    ensures forall trim :: PartCores(text, trim).Err?
  {
    IndexIs(text, '-', 0);
    assert text[..0] == "" && Trim("") == "";
  }

  lemma {:induction false} RangePart(lo: int, hi: int)
    requires 0 <= lo < hi <= INT64_MAX
    ensures forall trim :: PartCores(Itoa(lo) + "-" + Itoa(hi), trim) == Ok(Interval(lo, hi))
  {
    hide Itoa, Atoi, Trim, IsSpace, IndexOf, Interval;
    var a, b := Itoa(lo), Itoa(hi);
    var text := a + "-" + b;
    ItoaShape(lo);
    ItoaShape(hi);
    TrimSame(a);
    TrimSame(b);
    IndexIs(text, '-', |a|);
    assert text[..|a|] == a && text[|a| + 1..] == b;
  }

  lemma {:induction false} SingleInterval(n: int)
    ensures Interval(n, n) == [n]
  {
    assert Interval(n + 1, n) == [];
  }

  lemma ItoaShape(n: int)
    requires -INT64_MAX - 1 <= n <= INT64_MAX
    ensures Itoa(n) != "" && Atoi(Itoa(n)) == Some(n)
    ensures n < 0 ==> Itoa(n)[0] == '-'
    ensures n >= 0 ==> AllDigits(Itoa(n))
    ensures forall i :: 0 <= i < |Itoa(n)| ==> IsDigit(Itoa(n)[i]) || Itoa(n)[i] == '-'
    ensures !IsSpace(Itoa(n)[0]) && !IsSpace(Itoa(n)[|Itoa(n)| - 1])
  {
    AtoiOfItoa(n);
    DigitsFacts(if n < 0 then -n else n);
  }

  predicate AnyNegative(spans: seq<Span>) {
    exists i :: 0 <= i < |spans| && spans[i].lo < 0
  }

  predicate AnyBelowZero(xs: seq<int>) {
    exists i :: 0 <= i < |xs| && xs[i] < 0
  }

  predicate Printable(spans: seq<Span>) {
    forall i :: 0 <= i < |spans| ==> -INT64_MAX - 1 <= spans[i].lo <= spans[i].hi <= INT64_MAX
  }

  lemma SplitSpans(spans: seq<Span>)
    requires spans != [] && Printable(spans)
    ensures Split(Join(SpanTexts(spans), ','), ',') == SpanTexts(spans)
  {
    forall i | 0 <= i < |spans| ensures ',' !in SpanTexts(spans)[i] {
      SpanTextFacts(spans[i]);
    }
    SplitJoin(SpanTexts(spans), ',');
  }

  lemma {:induction false} ExpandSpans(spans: seq<Span>)
    requires Printable(spans)
    ensures !AnyNegative(spans) ==> ExpandParts(SpanTexts(spans)) == Ok(Cores(spans))
    ensures AnyNegative(spans) ==> ExpandParts(SpanTexts(spans)).Err?
  {
    if spans != [] {
      SpanTextFacts(spans[0]);
      assert SpanTexts(spans)[1..] == SpanTexts(spans[1..]);
      ExpandSpans(spans[1..]);
      NegativeSpans(spans);
    }
  }

  lemma {:induction false} AddNewFacts(acc: seq<int>, xs: seq<int>)
    requires Distinct(acc)
    ensures Distinct(AddNew(acc, xs)) && Elements(AddNew(acc, xs)) == Elements(acc) + Elements(xs)
    decreases xs
  {
    if xs != [] {
      var next := if xs[0] in acc then acc else acc + [xs[0]];
      AddNewFacts(next, xs[1..]);
      assert xs == [xs[0]] + xs[1..];
      assert Elements(xs) == {xs[0]} + Elements(xs[1..]);
    }
  }

  lemma {:induction false} ParseSpans(spans: seq<Span>, acc: seq<int>)
    requires Printable(spans) && Distinct(acc)
    ensures !AnyNegative(spans) ==>
      var r := ParseParts(SpanTexts(spans), acc);
      r.Ok? && Increasing(r.value) && Elements(r.value) == Elements(acc) + Elements(Cores(spans))
    ensures AnyNegative(spans) ==> ParseParts(SpanTexts(spans), acc).Err?
  {
    hide SpanText, PartCores, SortInts, Trim, Itoa;
    if spans == [] {
      SortIntsDistinct(acc);
    } else {
      SpanTextFacts(spans[0]);
      assert SpanTexts(spans)[1..] == SpanTexts(spans[1..]);
      var here := Interval(spans[0].lo, spans[0].hi);
      AddNewFacts(acc, here);
      ParseSpans(spans[1..], AddNew(acc, here));
      assert Elements(Cores(spans)) == Elements(here) + Elements(Cores(spans[1..]));
      NegativeSpans(spans);
    }
  }

  lemma NegativeSpans(spans: seq<Span>)
    requires spans != []
    ensures AnyNegative(spans) <==>
            (spans[0].lo < 0 || AnyNegative(spans[1..]))
  {
    if i :| 0 <= i < |spans| && spans[i].lo < 0 {
      assert i > 0 ==> spans[1..][i - 1].lo < 0;
    }
    if i :| 0 <= i < |spans[1..]| && spans[1..][i].lo < 0 {
      assert spans[i + 1].lo < 0;
    }
  }

  lemma {:induction false} IntervalSnoc(lo: int, hi: int)
    requires lo <= hi + 1
    ensures Interval(lo, hi + 1) == Interval(lo, hi) + [hi + 1]
    decreases hi - lo
  {
    if lo <= hi {
      IntervalSnoc(lo + 1, hi);
    } else {
      assert Interval(hi + 2, hi + 1) == [];
    }
  }

  /** The runs hold the listed cores in the listed order. */
  lemma {:induction false} RunsCover(open: Span, xs: seq<int>)
    requires -INT64_MAX - 1 <= open.lo <= open.hi <= INT64_MAX && IsGoInts(xs)
    ensures Printable(RunsFrom(open, xs)) && RunsFrom(open, xs) != []
    ensures Cores(RunsFrom(open, xs)) == Interval(open.lo, open.hi) + xs
    decreases xs
  {
    hide Interval;
    if xs == [] {
      assert [open][1..] == [] && Cores([]) == [];
    } else {
      assert IsGoInts(xs[1..]) && xs == [xs[0]] + xs[1..];
      if xs[0] == open.hi + 1 {
        RunsCover(Span(open.lo, xs[0]), xs[1..]);
        IntervalSnoc(open.lo, open.hi);
        hide *;
        assert Interval(open.lo, open.hi) + [xs[0]] + xs[1..] == Interval(open.lo, open.hi) + xs;
      } else {
        var rest := RunsFrom(Span(xs[0], xs[0]), xs[1..]);
        RunsCover(Span(xs[0], xs[0]), xs[1..]);
        SingleInterval(xs[0]);
        assert ([open] + rest)[1..] == rest;
        assert Cores([open] + rest) == Interval(open.lo, open.hi) + Cores(rest);
      }
    }
  }

  /** A run starts below zero exactly if some listed core is below zero. */
  lemma {:induction false} RunsNegative(open: Span, xs: seq<int>)
    requires open.lo <= open.hi
    ensures AnyNegative(RunsFrom(open, xs))
            <==> (open.lo < 0 || AnyBelowZero(xs))
    decreases xs
  {
    if xs == [] {
      assert RunsFrom(open, xs) == [open];
      assert RunsFrom(open, xs)[0].lo == open.lo;
    } else {
      NegativeTail(xs);
      if xs[0] == open.hi + 1 {
        RunsNegative(Span(open.lo, xs[0]), xs[1..]);
        assert RunsFrom(open, xs) == RunsFrom(Span(open.lo, xs[0]), xs[1..]);
        assert xs[0] < 0 ==> open.lo < 0;
      } else {
        var rest := RunsFrom(Span(xs[0], xs[0]), xs[1..]);
        RunsNegative(Span(xs[0], xs[0]), xs[1..]);
        var all := [open] + rest;
        assert all[0] == open && all[1..] == rest;
        NegativeSpans(all);
        assert RunsFrom(open, xs) == all;
      }
    }
  }

  lemma NegativeTail(xs: seq<int>)
    requires xs != []
    ensures AnyBelowZero(xs) <==> (xs[0] < 0 || AnyBelowZero(xs[1..]))
  {
    if i :| 0 <= i < |xs| && xs[i] < 0 {
      assert i > 0 ==> xs[1..][i - 1] < 0;
    }
    if i :| 0 <= i < |xs[1..]| && xs[1..][i] < 0 {
      assert xs[i + 1] < 0;
    }
  }

  predicate IsGoInts(xs: seq<int>) {
    forall i :: 0 <= i < |xs| ==> -INT64_MAX - 1 <= xs[i] <= INT64_MAX
  }

  lemma RunsFacts(xs: seq<int>)
    requires xs != [] && IsGoInts(xs)
    ensures Runs(xs) != [] && Printable(Runs(xs)) && Cores(Runs(xs)) == xs
    ensures AnyNegative(Runs(xs)) <==> !AllCores(xs)
  {
    RunsCover(Span(xs[0], xs[0]), xs[1..]);
    RunsNegative(Span(xs[0], xs[0]), xs[1..]);
    SingleInterval(xs[0]);
    assert xs == [xs[0]] + xs[1..];
    NegativeTail(xs);
  }

  /** expandCores reads back what coreListText prints exactly for non-empty lists of natural numbers. */
  lemma ExpandCompressed(xs: seq<int>)
    requires IsGoInts(xs)
    ensures Expanded(Compressed(xs)) == Ok(xs) <==> xs != [] && AllCores(xs)
    ensures Expanded(Compressed(xs)).Err? <==> !(xs != [] && AllCores(xs))
  {
    if xs == [] {
      EmptyText();
    } else {
      RunsFacts(xs);
      SplitSpans(Runs(xs));
      ExpandSpans(Runs(xs));
    }
  }

  lemma EmptyText()
    ensures Compressed([]) == "" && Listed([]) == "" && Expanded("").Err? && Parsed("") == Ok([])
  {
    IndexIs("", ',', 0);
    IndexIs("", '-', 0);
    assert Split("", ',') == [""];
    assert Trim("") == "";
    assert ExpandParts([""]) == Err(BadNumber(""));
    assert ParseParts([""], []) == ParseParts([], []);
  }

  /** The same for the list printed core by core. */
  lemma ExpandListed(xs: seq<int>)
    requires IsGoInts(xs)
    ensures Expanded(Listed(xs)) == Ok(xs) <==> xs != [] && AllCores(xs)
  {
    if xs == [] {
      EmptyText();
    } else {
      var spans := Singles(xs);
      SplitSpans(spans);
      ExpandSpans(spans);
      SinglesCores(xs);
      if !AllCores(xs) {
        var i :| 0 <= i < |xs| && !IsCore(xs[i]);
        assert spans[i].lo < 0;
      }
    }
  }

  lemma {:induction false} SinglesCores(xs: seq<int>)
    ensures Cores(Singles(xs)) == xs
  {
    if xs != [] {
      assert Singles(xs)[1..] == Singles(xs[1..]);
      SinglesCores(xs[1..]);
      SingleInterval(xs[0]);
    }
  }

  /** The wizard's parser returns the same cores, sorted and without repetition. */
  lemma ParseCompressed(xs: seq<int>)
    requires IsGoInts(xs)
    ensures var r := Parsed(Compressed(xs));
      if AllCores(xs) then r.Ok? && Increasing(r.value) && Elements(r.value) == Elements(xs) else r.Err?
  {
    if xs == [] {
      EmptyText();
    } else {
      RunsFacts(xs);
      SplitSpans(Runs(xs));
      ParseSpans(Runs(xs), []);
      if AllCores(xs) {
        assert Elements<int>([]) + Elements(xs) == Elements(xs);
      }
    }
  }

  /** It reads back the list itself exactly for strictly increasing lists of natural numbers. */
  lemma ParseCompressedExactly(xs: seq<int>)
    requires IsGoInts(xs)
    ensures Parsed(Compressed(xs)) == Ok(xs) <==> AllCores(xs) && Increasing(xs)
  {
    ParseCompressed(xs);
    if AllCores(xs) && Increasing(xs) {
      SameIncreasing(Parsed(Compressed(xs)).value, xs);
    }
  }

  lemma {:induction false} SameIncreasing(xs: seq<int>, ys: seq<int>)
    requires Increasing(xs) && Increasing(ys) && Elements(xs) == Elements(ys)
    ensures xs == ys
  {
    assert forall i :: 0 <= i < |xs| ==> xs[i] in Elements(ys);
    assert forall i :: 0 <= i < |ys| ==> ys[i] in Elements(xs);
    if xs != [] && ys != [] {
      FirstIsLeast(xs, ys[0]);
      FirstIsLeast(ys, xs[0]);
      TailElements(xs);
      TailElements(ys);
      SameIncreasing(xs[1..], ys[1..]);
      assert xs == [xs[0]] + xs[1..] && ys == [ys[0]] + ys[1..];
    }
  }

  lemma FirstIsLeast(xs: seq<int>, y: int)
    requires xs != [] && Increasing(xs) && y in Elements(xs)
    ensures xs[0] <= y
  {
    var i :| 0 <= i < |xs| && xs[i] == y;
  }

  lemma TailElements(xs: seq<int>)
    requires xs != [] && Increasing(xs)
    ensures Elements(xs[1..]) == Elements(xs) - {xs[0]} && Increasing(xs[1..])
  {
    assert xs == [xs[0]] + xs[1..];
    assert forall i :: 0 <= i < |xs[1..]| ==> xs[1..][i] == xs[i + 1];
  }

  lemma {:induction false} TrimSubset(s: string, c: char)
    requires c !in s
    ensures c !in TrimLeft(s) && c !in TrimRight(s)
  {
    if s != "" {
      TrimSubset(s[1..], c);
      TrimSubset(s[..|s| - 1], c);
    }
  }

  lemma NoSign(s: string)
    requires '-' !in s && Atoi(s).Some?
    ensures IsCore(Atoi(s).value)
  {
  }

  lemma {:induction false} IntervalCores(lo: int, hi: int)
    requires 0 <= lo && hi <= INT64_MAX
    ensures AllCores(Interval(lo, hi))
    decreases hi - lo
  {
    if lo <= hi {
      IntervalCores(lo + 1, hi);
    }
  }

  lemma PartIsCores(part: string, trim: bool)
    requires PartCores(part, trim).Ok?
    ensures PartCores(part, trim).value != [] && AllCores(PartCores(part, trim).value)
  {
    var i := IndexOf(part, '-');
    if i == |part| {
      NoSign(part);
    } else {
      assert '-' !in part[..i];
      TrimSubset(part[..i], '-');
      TrimSubset(TrimLeft(part[..i]), '-');
      NoSign(if trim then Trim(part[..i]) else part[..i]);
      var lo, hi := Atoi(if trim then Trim(part[..i]) else part[..i]), Atoi(if trim then Trim(part[i + 1..]) else part[i + 1..]);
      IntervalCores(lo.value, hi.value);
    }
  }

  lemma {:induction false} ExpandPartsAreCores(parts: seq<string>)
    requires parts != [] && ExpandParts(parts).Ok?
    ensures ExpandParts(parts).value != [] && AllCores(ExpandParts(parts).value)
  {
    hide Trim, PartCores;
    PartIsCores(Trim(parts[0]), true);
    if |parts| > 1 {
      ExpandPartsAreCores(parts[1..]);
    }
  }

  /** Whatever text expandCores accepts, it gives a non-empty list of natural numbers. */
  lemma ExpandedAreCores(s: string)
    requires Expanded(s).Ok?
    ensures Expanded(s).value != [] && AllCores(Expanded(s).value)
  {
    ExpandPartsAreCores(Split(s, ','));
  }

  // ---------- texts typed by hand ----------

  lemma {:induction false} IntervalIs(lo: int, hi: int)
    ensures |Interval(lo, hi)| == if lo <= hi then hi - lo + 1 else 0
    ensures forall i :: 0 <= i < |Interval(lo, hi)| ==> Interval(lo, hi)[i] == lo + i
    decreases hi - lo
  {
    if lo <= hi {
      IntervalIs(lo + 1, hi);
    }
  }

  lemma {:induction false} ExpandPartsConcat(a: seq<string>, b: seq<string>)
    ensures ExpandParts(a + b) ==
      match ExpandParts(a) case Err(e) => Err(e) case Ok(xs) => Prefixed(xs, ExpandParts(b))
  {
    hide PartCores, Trim;
    if a == [] {
      assert a + b == b;
    } else {
      assert (a + b)[1..] == a[1..] + b;
      ExpandPartsConcat(a[1..], b);
      if PartCores(Trim(a[0]), true).Ok? && ExpandParts(a[1..]).Ok? {
        PrefixedTwice(PartCores(Trim(a[0]), true).value, ExpandParts(a[1..]).value, ExpandParts(b));
      }
    }
  }

  /** The parts between commas stand for themselves: in order, with repetitions, first bad part first. */
  lemma ExpandedByParts(a: string, b: string)
    ensures Expanded(a + "," + b) ==
      match Expanded(a)
      case Err(e) => Err(e)
      case Ok(xs) => (match Expanded(b) case Err(e) => Err(e) case Ok(ys) => Ok(xs + ys))
  {
    SplitConcat(a, b, ',');
    ExpandPartsConcat(Split(a, ','), Split(b, ','));
  }

  lemma {:induction false} OnePart(s: string)
    requires ',' !in s
    ensures Split(s, ',') == [s] && Expanded(s) == PartCores(Trim(s), true)
    ensures Parsed(s) ==
      if Trim(s) == "" then Ok([])
      else match PartCores(Trim(s), false) case Err(e) => Err(e) case Ok(xs) => Ok(SortInts(AddNew([], xs)))
  {
    IndexIs(s, ',', |s|);
    hide IndexOf, Trim, PartCores, SortInts;
    assert [s][1..] == [];
    assert ExpandParts([]) == Ok([]);
    assert forall acc :: ParseParts([s][1..], acc) == Ok(SortInts(acc));
    if PartCores(Trim(s), true).Ok? {
      PrefixedNothing(PartCores(Trim(s), true).value);
    }
    assert SortInts([]) == [];
  }

  lemma {:induction false} TrimPadded(before: string, s: string, after: string)
    requires forall i :: 0 <= i < |before| ==> IsSpace(before[i])
    requires forall i :: 0 <= i < |after| ==> IsSpace(after[i])
    requires s != "" && !IsSpace(s[0]) && !IsSpace(s[|s| - 1])
    ensures Trim(before + s + after) == s
    decreases |before| + |after|
  {
    hide IsSpace;
    var all := before + s + after;
    if before != [] {
      assert all[1..] == before[1..] + s + after;
      TrimPadded(before[1..], s, after);
    } else {
      assert TrimLeft(all) == all;
      TrimEnd(s, after);
      assert all == s + after;
    }
  }

  lemma {:induction false} TrimEnd(s: string, after: string)
    requires forall i :: 0 <= i < |after| ==> IsSpace(after[i])
    requires s != "" && !IsSpace(s[|s| - 1])
    ensures TrimRight(s + after) == s
  {
    if after == [] {
      assert s + after == s;
    } else {
      var all := s + after;
      assert all[..|all| - 1] == s + after[..|after| - 1];
      TrimEnd(s, after[..|after| - 1]);
    }
  }

  /** A number, or two with a dash between them and the smaller first; anything else is refused as a whole. */
  lemma NumberPart(s: string)
    requires ',' !in s && '-' !in Trim(s)
    ensures Expanded(s) == if Atoi(Trim(s)).Some? then Ok([Atoi(Trim(s)).value]) else Err(BadNumber(Trim(s)))
  {
    OnePart(s);
    IndexIs(Trim(s), '-', |Trim(s)|);
    hide Trim, Atoi;
  }

  lemma RangeOfText(s: string, lo: string, hi: string)
    requires ',' !in s && Trim(s) == lo + "-" + hi && '-' !in lo
    ensures var a, b := Atoi(Trim(lo)), Atoi(Trim(hi));
      Expanded(s) == if a.Some? && b.Some? && a.value <= b.value then Ok(Interval(a.value, b.value)) else Err(BadRange(Trim(s)))
  {
    OnePart(s);
    var t := Trim(s);
    IndexIs(t, '-', |lo|);
    assert t[..|lo|] == lo && t[|lo| + 1..] == hi;
    hide Trim, Atoi, Interval, IndexOf;
  }

  /** The wizard's parser skips empty parts and wants no spaces around the dash. */
  lemma ParsedPart(s: string)
    requires ',' !in s
    ensures Trim(s) == "" ==> Parsed(s) == Ok([])
    ensures Trim(s) != "" && '-' !in Trim(s) ==>
      Parsed(s) == if Atoi(Trim(s)).Some? then Ok([Atoi(Trim(s)).value]) else Err(BadNumber(Trim(s)))
  {
    OnePart(s);
    var t := Trim(s);
    if '-' !in t {
      IndexIs(t, '-', |t|);
      hide Trim, Atoi;
      if Atoi(t).Some? {
        var n := Atoi(t).value;
        assert AddNew([], [n]) == AddNew([n], [n][1..]) && [n][1..] == [];
        assert SortInts([n]) == [n];
      }
    }
  }

  lemma ParsedRange(s: string, lo: string, hi: string)
    requires ',' !in s && Trim(s) == lo + "-" + hi && '-' !in lo
    ensures var a, b := Atoi(lo), Atoi(hi);
      if a.Some? && b.Some? && a.value <= b.value then
        Parsed(s).Ok? && Increasing(Parsed(s).value) && Elements(Parsed(s).value) == Elements(Interval(a.value, b.value))
      else Parsed(s) == Err(BadRange(Trim(s)))
  {
    OnePart(s);
    var t := Trim(s);
    IndexIs(t, '-', |lo|);
    assert t[..|lo|] == lo && t[|lo| + 1..] == hi && t != "";
    hide Trim, Atoi, Interval, IndexOf;
    var a, b := Atoi(lo), Atoi(hi);
    if a.Some? && b.Some? && a.value <= b.value {
      AddNewFacts([], Interval(a.value, b.value));
      SortIntsDistinct(AddNew([], Interval(a.value, b.value)));
      assert Elements<int>([]) == {};
    }
  }

  /** The cores of all parts, or the first part that is bad. */
  function UnionOf(parts: seq<string>): Result<set<int>, BadPart> {
    if parts == [] then Ok({})
    else if Trim(parts[0]) == "" then UnionOf(parts[1..])
    else
      match PartCores(Trim(parts[0]), false)
      case Err(e) => Err(e)
      case Ok(xs) => match UnionOf(parts[1..]) case Err(e) => Err(e) case Ok(u) => Ok(Elements(xs) + u)
  }

  lemma {:induction false} ParseIsUnion(parts: seq<string>, acc: seq<int>)
    requires Distinct(acc)
    ensures match UnionOf(parts)
      case Err(e) => ParseParts(parts, acc) == Err(e)
      case Ok(u) =>
        && ParseParts(parts, acc).Ok? && Increasing(ParseParts(parts, acc).value)
        && Elements(ParseParts(parts, acc).value) == Elements(acc) + u
    decreases parts
  {
    hide PartCores, Trim, SortInts;
    if parts == [] {
      SortIntsDistinct(acc);
    } else if Trim(parts[0]) == "" {
      ParseIsUnion(parts[1..], acc);
    } else if PartCores(Trim(parts[0]), false).Ok? {
      var xs := PartCores(Trim(parts[0]), false).value;
      AddNewFacts(acc, xs);
      ParseIsUnion(parts[1..], AddNew(acc, xs));
    }
  }

  lemma {:induction false} UnionConcat(a: seq<string>, b: seq<string>)
    ensures UnionOf(a + b) ==
      match UnionOf(a)
      case Err(e) => Err(e)
      case Ok(u) => (match UnionOf(b) case Err(e) => Err(e) case Ok(v) => Ok(u + v))
  {
    hide PartCores, Trim;
    if a == [] {
      assert a + b == b;
      if UnionOf(b).Ok? {
        assert {} + UnionOf(b).value == UnionOf(b).value;
      }
    } else {
      assert (a + b)[1..] == a[1..] + b && (a + b)[0] == a[0];
      UnionConcat(a[1..], b);
      if PartCores(Trim(a[0]), false).Ok? && UnionOf(a[1..]).Ok? && UnionOf(b).Ok? {
        var xs := Elements(PartCores(Trim(a[0]), false).value);
        assert xs + (UnionOf(a[1..]).value + UnionOf(b).value) == (xs + UnionOf(a[1..]).value) + UnionOf(b).value;
      }
    }
  }

  /** The cores of all parts, each once and sorted; first bad part first. */
  lemma ParsedByParts(a: string, b: string)
    ensures var r := Parsed(a + "," + b);
      match Parsed(a)
      case Err(e) => r == Err(e)
      case Ok(xs) =>
        match Parsed(b)
        case Err(e) => r == Err(e)
        case Ok(ys) => r.Ok? && Increasing(r.value) && Elements(r.value) == Elements(xs) + Elements(ys)
  {
    SplitConcat(a, b, ',');
    UnionConcat(Split(a, ','), Split(b, ','));
    hide ParseParts, Split, UnionOf;
    ParseIsUnion(Split(a, ','), []);
    ParseIsUnion(Split(b, ','), []);
    ParseIsUnion(Split(a, ',') + Split(b, ','), []);
    assert Elements<int>([]) == {};
  }

  /** Runs that could be joined are joined: no run starts where the one before it ends. */
  predicate Maximal(spans: seq<Span>) {
    forall i :: 0 <= i < |spans| - 1 ==> spans[i + 1].lo != spans[i].hi + 1
  }

  lemma {:induction false} RunsFromMaximal(open: Span, xs: seq<int>)
    requires open.lo <= open.hi
    ensures Maximal(RunsFrom(open, xs)) && RunsFrom(open, xs) != [] && RunsFrom(open, xs)[0].lo == open.lo
    ensures forall i :: 0 <= i < |RunsFrom(open, xs)| ==> RunsFrom(open, xs)[i].lo <= RunsFrom(open, xs)[i].hi
    decreases xs
  {
    if xs != [] {
      if xs[0] == open.hi + 1 {
        RunsFromMaximal(Span(open.lo, xs[0]), xs[1..]);
      } else {
        RunsFromMaximal(Span(xs[0], xs[0]), xs[1..]);
      }
    }
  }

  /** The printed runs are the maximal ones, and a run of one core is printed without a dash. */
  lemma CompressedExactly(xs: seq<int>)
    requires xs != [] && IsGoInts(xs)
    ensures Cores(Runs(xs)) == xs && Maximal(Runs(xs))
    ensures forall i :: 0 <= i < |Runs(xs)| ==>
      var s := Runs(xs)[i];
      s.lo <= s.hi && SpanTexts(Runs(xs))[i] == if s.lo < s.hi then Itoa(s.lo) + "-" + Itoa(s.hi) else Itoa(s.lo)
  {
    RunsFacts(xs);
    RunsFromMaximal(Span(xs[0], xs[0]), xs[1..]);
    hide Itoa, RunsFrom;
  }
}
