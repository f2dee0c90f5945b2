/**
  Statement lines as text: joining tokens with quotes (internal/api/setstmt.go) and splitting a
  line into tokens (internal/api/cliexec.go).
 */
module Quoting {
  import opened Text

  // ---------- printing ----------

  predicate IsSpecial(c: char) {
    c == ' ' || c == '\t' || c == '"' || c == '\\'
  }

  predicate IsPlain(s: string) {
    s != "" && forall i :: 0 <= i < |s| ==> !IsSpecial(s[i])
  }

  function Escaped(s: string): string {
    if s == "" then ""
    else Escaped(s[..|s| - 1]) + (if s[|s| - 1] == '"' || s[|s| - 1] == '\\' then ['\\', s[|s| - 1]] else [s[|s| - 1]])
  }

  /** quoteStatementToken. */
  function Quoted(s: string): string {
    if IsPlain(s) then s else "\"" + Escaped(s) + "\""
  }

  function Parts(toks: seq<string>): (parts: seq<string>)
    ensures |parts| == |toks|
  {
    seq(|toks|, i requires 0 <= i < |toks| => if i == 0 then toks[0] else Quoted(toks[i]))
  }

  /** joinStatementTokens: the first token goes out as it is. */
  function Joined(toks: seq<string>): string {
    Join(Parts(toks), ' ')
  }

  method QuoteStatementToken(s: string) returns (r: string)
    ensures r == Quoted(s)
  {
    if IsPlain(s) {
      return s;
    }
    r := "\"";
    for i := 0 to |s|
      invariant r == "\"" + Escaped(s[..i])
    {
      assert s[..i + 1][..i] == s[..i];
      if s[i] == '"' || s[i] == '\\' {
        r := r + "\\";
      }
      r := r + [s[i]];
    }
    assert s[..|s|] == s;
    r := r + "\"";
  }

  method JoinStatementTokens(toks: seq<string>) returns (r: string)
    ensures r == Joined(toks)
  {
    var parts: seq<string> := [];
    for i := 0 to |toks|
      invariant parts == Parts(toks)[..i]
    {
      var t := toks[i];
      if i > 0 {
        t := QuoteStatementToken(t);
      }
      parts := parts + [t];
    }
    assert parts == Parts(toks);
    r := Join(parts, ' ');
  }

  // ---------- splitting ----------

  /** The tokens of the rest of a line, after `token` of the current one has been read. */
  function Scan(s: string, token: string, inQuote: bool, started: bool): seq<string>
    decreases |s|
  {
    if s == "" then if started then [token] else []
    else if s[0] == '\\' && |s| > 1 && (s[1] == '"' || s[1] == '\\') then Scan(s[2..], token + [s[1]], inQuote, true)
    else if s[0] == '"' then Scan(s[1..], token, !inQuote, true)
    else if (s[0] == ' ' || s[0] == '\t') && !inQuote then
      if started then [token] + Scan(s[1..], "", inQuote, false) else Scan(s[1..], token, inQuote, false)
    else Scan(s[1..], token + [s[0]], inQuote, true)
  }

  /** splitFieldsQuoted. */
  function Fields(s: string): seq<string> {
    Scan(s, "", false, false)
  }

  method SplitFieldsQuoted(s: string) returns (out: seq<string>)
    ensures out == Fields(s)
  {
    out := [];
    var token, inQuote, started := "", false, false;
    var i := 0;
    assert s[0..] == s;
    while i < |s|
      invariant i <= |s|
      invariant Fields(s) == out + Scan(s[i..], token, inQuote, started)
    {
      var c := s[i];
      assert s[i..][0] == c && s[i..][1..] == s[i + 1..];
      if c == '\\' && i + 1 < |s| && (s[i + 1] == '"' || s[i + 1] == '\\') {
        assert s[i..][2..] == s[i + 2..] && s[i..][1] == s[i + 1];
        token := token + [s[i + 1]];
        i := i + 1;
        started := true;
      } else if c == '"' {
        inQuote := !inQuote;
        started := true;
      } else if (c == ' ' || c == '\t') && !inQuote {
        if started {
          out := out + [token];
          token, started := "", false;
        }
      } else {
        token := token + [c];
        started := true;
      }
      i := i + 1;
    }
    if started {
      out := out + [token];
    }
  }

  // ---------- round trip ----------

  lemma {:induction false} ScanPlain(t: string, rest: string, token: string, started: bool)
    requires forall i :: 0 <= i < |t| ==> !IsSpecial(t[i])
    ensures Scan(t + rest, token, false, started) == Scan(rest, token + t, false, started || t != "")
    decreases |t|
  {
    if t == "" {
      assert t + rest == rest && token + t == token;
    } else {
      assert (t + rest)[1..] == t[1..] + rest;
      ScanPlain(t[1..], rest, token + [t[0]], true);
      assert token + [t[0]] + t[1..] == token + t;
    }
  }

  lemma {:induction false} EscapedHead(t: string)
    requires t != ""
    ensures Escaped(t) == (if t[0] == '"' || t[0] == '\\' then ['\\', t[0]] else [t[0]]) + Escaped(t[1..])
  {
    if |t| > 1 {
      EscapedHead(t[..|t| - 1]);
      assert t[..|t| - 1][1..] == t[1..][..|t| - 2];
    } else {
      assert t[..0] == "" && t[1..] == "";
    }
  }

  lemma {:induction false} ScanEscaped(t: string, rest: string, token: string)
    ensures Scan(Escaped(t) + "\"" + rest, token, true, true) == Scan(rest, token + t, false, true)
    decreases |t|
  {
    var s := Escaped(t) + "\"" + rest;
    if t == "" {
      assert s[1..] == rest && token + t == token;
    } else {
      EscapedHead(t);
      ScanEscaped(t[1..], rest, token + [t[0]]);
      var tail := Escaped(t[1..]) + "\"" + rest;
      if t[0] == '"' || t[0] == '\\' {
        assert s == ['\\', t[0]] + tail;
        assert s[2..] == tail;
      } else {
        assert s == [t[0]] + tail;
        assert s[1..] == tail;
      }
      assert token + [t[0]] + t[1..] == token + t;
    }
  }

  lemma {:induction false} ScanQuoted(t: string, rest: string)
    ensures Scan(Quoted(t) + rest, "", false, false) == Scan(rest, t, false, true)
  {
    if IsPlain(t) {
      ScanPlain(t, rest, "", false);
      assert "" + t == t;
    } else {
      var s := Quoted(t) + rest;
      assert s[1..] == Escaped(t) + "\"" + rest;
      ScanEscaped(t, rest, "");
      assert "" + t == t;
    }
  }

  function QuotedAll(toks: seq<string>): (parts: seq<string>)
    ensures |parts| == |toks|
  {
    seq(|toks|, i requires 0 <= i < |toks| => Quoted(toks[i]))
  }

  lemma {:induction false} ScanQuotedAll(toks: seq<string>)
    requires toks != []
    ensures Fields(Join(QuotedAll(toks), ' ')) == toks
    decreases |toks|
  {
    if |toks| == 1 {
      ScanQuoted(toks[0], "");
      assert Quoted(toks[0]) + "" == Quoted(toks[0]);
    } else {
      hide *;
      var rest := Join(QuotedAll(toks[1..]), ' ');
      ScanQuotedAll(toks[1..]);
      ScanQuoted(toks[0], [' '] + rest);
      ScanSpace(rest, toks[0]);
      JoinFirst(toks);
      assert toks == [toks[0]] + toks[1..];
      assert Quoted(toks[0]) + [' '] + rest == Quoted(toks[0]) + ([' '] + rest);
    }
  }

  lemma {:induction false} ScanSpace(rest: string, token: string)
    ensures Scan([' '] + rest, token, false, true) == [token] + Fields(rest)
  {
    assert ([' '] + rest)[1..] == rest;
  }

  lemma JoinFirst(toks: seq<string>)
    requires |toks| > 1
    ensures Fields(Join(QuotedAll(toks), ' ')) ==
      Scan(Quoted(toks[0]) + [' '] + Join(QuotedAll(toks[1..]), ' '), "", false, false)
  {
    assert QuotedAll(toks)[1..] == QuotedAll(toks[1..]);
  }

  /** Splitting a joined statement gives its tokens back, whatever characters they hold. */
  lemma SplitOfJoin(toks: seq<string>)
    ensures Fields(Joined(["set"] + toks)) == ["set"] + toks
  {
    var all := ["set"] + toks;
    assert IsPlain("set");
    assert Parts(all) == QuotedAll(all);
    ScanQuotedAll(all);
  }

  /** Different statements never print as the same line. */
  lemma LinesDiffer(xs: seq<string>, ys: seq<string>)
    requires Joined(["set"] + xs) == Joined(["set"] + ys)
    ensures xs == ys
  {
    SplitOfJoin(xs);
    SplitOfJoin(ys);
    assert xs == (["set"] + xs)[1..] && ys == (["set"] + ys)[1..];
  }

  /** Quotes are written only where they are needed. */
  lemma QuotedExactly(s: string)
    ensures Quoted(s) == s <==>
      s != "" && forall i :: 0 <= i < |s| ==> s[i] != ' ' && s[i] != '\t' && s[i] != '"' && s[i] != '\\'
  {
    if !IsPlain(s) {
      EscapedLength(s);
      assert |Quoted(s)| > |s|;
    }
  }

  lemma {:induction false} EscapedLength(s: string)
    ensures |Escaped(s)| >= |s|
  {
    if s != "" {
      EscapedLength(s[..|s| - 1]);
    }
  }

  // ---------- lines typed by hand ----------

  predicate IsBlank(c: char) {
    c == ' ' || c == '\t'
  }

  /** A quote is open at the end of the text: it holds an odd number of quotes that are not escaped. */
  predicate Open(s: string)
    decreases |s|
  {
    if s == "" then false
    else if s[0] == '\\' && |s| > 1 && (s[1] == '"' || s[1] == '\\') then Open(s[2..])
    else if s[0] == '"' then !Open(s[1..])
    else Open(s[1..])
  }

  lemma {:induction false} ScanSplits(x: string, b: char, y: string, token: string, inQuote: bool, started: bool)
    requires IsBlank(b) && Open(x) == inQuote && (!started ==> token == "")
    ensures Scan(x + [b] + y, token, inQuote, started) == Scan(x, token, inQuote, started) + Fields(y)
    decreases |x|
  {
    var s := x + [b] + y;
    if x == "" {
      assert s == [b] + y && s[1..] == y;
    } else {
      assert s[0] == x[0] && s[1..] == x[1..] + [b] + y;
      assert |x| > 1 ==> s[1] == x[1] && s[2..] == x[2..] + [b] + y;
      if x[0] == '\\' && |x| > 1 && (x[1] == '"' || x[1] == '\\') {
        ScanSplits(x[2..], b, y, token + [x[1]], inQuote, true);
      } else if x[0] == '"' {
        ScanSplits(x[1..], b, y, token, !inQuote, true);
      } else if IsBlank(x[0]) && !inQuote {
        ScanSplits(x[1..], b, y, "", inQuote, false);
      } else {
        assert |x| == 1 ==> s[1] == b;
        ScanSplits(x[1..], b, y, token + [x[0]], inQuote, true);
      }
    }
  }

  /** A space or tab outside quotes parts the line, however many there are and wherever they stand. */
  lemma {:induction false} BlankSeparates(x: string, b: char, y: string)
    requires IsBlank(b) && !Open(x)
    ensures Fields(x + [b] + y) == Fields(x) + Fields(y)
    ensures Fields("") == [] && Fields([b] + y) == Fields(y) && Fields(x + [b]) == Fields(x)
  {
    ScanSplits(x, b, y, "", false, false);
    ScanSplits("", b, y, "", false, false);
    ScanSplits(x, b, "", "", false, false);
    assert "" + [b] + y == [b] + y && x + [b] + "" == x + [b];
    assert Fields(x) + [] == Fields(x);
  }

  /** No blanks, no quotes, and no backslash that escapes another one. */
  predicate IsWord(t: string) {
    && t != ""
    && (forall i :: 0 <= i < |t| ==> !IsBlank(t[i]) && t[i] != '"')
    && (forall i :: 0 <= i < |t| - 1 ==> !(t[i] == '\\' && t[i + 1] == '\\'))
  }

  /** Such a word is one token as it stands; a backslash before any other character is kept. */
  lemma {:induction false} WordScans(t: string, token: string)
    requires IsWord(t)
    ensures Scan(t, token, false, true) == [token + t] && Scan(t, token, false, false) == [token + t]
    decreases |t|
  {
    assert Scan(t, token, false, true) == Scan(t[1..], token + [t[0]], false, true);
    assert Scan(t, token, false, false) == Scan(t[1..], token + [t[0]], false, true);
    assert token + t == token + [t[0]] + t[1..];
    if |t| > 1 {
      WordScans(t[1..], token + [t[0]]);
    } else {
      assert t[1..] == "" && token + [t[0]] == token + t;
    }
  }

  lemma WordIsToken(t: string)
    requires IsWord(t)
    ensures Fields(t) == [t]
  {
    WordScans(t, "");
    assert "" + t == t;
  }

  predicate NoMarks(t: string) {
    forall i :: 0 <= i < |t| ==> t[i] != '"' && t[i] != '\\'
  }

  lemma {:induction false} ScanInQuotes(t: string, rest: string, token: string)
    requires NoMarks(t)
    ensures Scan(t + rest, token, true, true) == Scan(rest, token + t, true, true)
    decreases |t|
  {
    if t == "" {
      assert t + rest == rest && token + t == token;
    } else {
      assert (t + rest)[1..] == t[1..] + rest;
      ScanInQuotes(t[1..], rest, token + [t[0]]);
      assert token + [t[0]] + t[1..] == token + t;
    }
  }

  /** A quote that is never closed takes the rest of the line, blanks included, as one token. */
  lemma {:induction false} UnclosedQuote(x: string, b: char, t: string)
    requires IsBlank(b) && !Open(x) && NoMarks(t)
    ensures Fields(x + [b] + ("\"" + t)) == Fields(x) + [t]
  {
    BlankSeparates(x, b, "\"" + t);
    assert ("\"" + t)[1..] == t;
    ScanInQuotes(t, "", "");
    assert t + "" == t && "" + t == t;
  }

  /** Quotes may stand inside a token; what they enclose belongs to it. */
  lemma QuotesInside(a: string, t: string, z: string)
    requires IsPlain(a) && IsWord(z) && NoMarks(t)
    ensures Fields(a + ("\"" + (t + ("\"" + z)))) == [a + t + z]
  {
    ScanPlain(a, "\"" + (t + ("\"" + z)), "", false);
    assert ("\"" + (t + ("\"" + z)))[1..] == t + ("\"" + z);
    ScanInQuotes(t, "\"" + z, a);
    assert ("\"" + z)[1..] == z && "" + a == a;
    WordScans(z, a + t);
  }
}
