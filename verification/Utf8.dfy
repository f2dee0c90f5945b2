/**
  The byte-by-byte UTF-8 assembler of the line editor (internal/cli/rawmode.go). Encoding and
  well-formedness follow sections 3 and 4 of RFC 3629.
 */
module Utf8 {
  import opened Common

  newtype Byte = x: int | 0 <= x < 0x100

  const RUNE_ERROR := 0xFFFD

  // ---------- RFC 3629 ----------

  /** Unicode scalar values: no surrogates. */
  predicate IsScalarValue(r: int) {
    0 <= r <= 0x10FFFF && !(0xD800 <= r <= 0xDFFF)
  }

  function Tail(r: int): Byte {
    (0x80 + r % 64) as Byte
  }

  /** Section 3: the octets of a character number. */
  function Encode(r: int): (bs: seq<Byte>)
    requires IsScalarValue(r)
    ensures 1 <= |bs| <= 4
  {
    if r < 0x80 then [r as Byte]
    else if r < 0x800 then [(0xC0 + r / 0x40) as Byte, Tail(r)]
    else if r < 0x10000 then [(0xE0 + r / 0x1000) as Byte, Tail(r / 0x40), Tail(r)]
    else [(0xF0 + r / 0x40000) as Byte, Tail(r / 0x1000), Tail(r / 0x40), Tail(r)]
  }

  function EncodeAll(rs: seq<int>): seq<Byte>
    requires forall i :: 0 <= i < |rs| ==> IsScalarValue(rs[i])
  {
    if rs == [] then [] else EncodeAll(rs[..|rs| - 1]) + Encode(rs[|rs| - 1])
  }

  predicate IsTail(b: Byte) {
    0x80 <= b <= 0xBF
  }

  /** Section 4: the production UTF8-char. */
  predicate IsUtf8Char(bs: seq<Byte>) {
    || (|bs| == 1 && bs[0] <= 0x7F)
    || (|bs| == 2 && 0xC2 <= bs[0] <= 0xDF && IsTail(bs[1]))
    || (|bs| == 3 && IsTail(bs[2]) &&
        ((bs[0] == 0xE0 && 0xA0 <= bs[1] <= 0xBF) || (0xE1 <= bs[0] <= 0xEC && IsTail(bs[1])) ||
         (bs[0] == 0xED && 0x80 <= bs[1] <= 0x9F) || (0xEE <= bs[0] <= 0xEF && IsTail(bs[1]))))
    || (|bs| == 4 && IsTail(bs[2]) && IsTail(bs[3]) &&
        ((bs[0] == 0xF0 && 0x90 <= bs[1] <= 0xBF) || (0xF1 <= bs[0] <= 0xF3 && IsTail(bs[1])) ||
         (bs[0] == 0xF4 && 0x80 <= bs[1] <= 0x8F)))
  }

  // ---------- the assembler ----------

  /** utf8SeqLen. */
  function SeqLen(lead: Byte): nat {
    var b := lead as bv8;
    if b & 0xE0 == 0xC0 then 2 else if b & 0xF0 == 0xE0 then 3 else if b & 0xF8 == 0xF0 then 4 else 1
  }

  predicate IsContinuation(b: Byte) {
    (b as bv8) & 0xC0 == 0x80
  }

  /** utf8.DecodeRune of the standard library, on a sequence as long as its lead byte says: rune and width. */
  function DecodeRune(bs: seq<Byte>): (int, nat) {
    if !IsUtf8Char(bs) then (RUNE_ERROR, if bs == [] then 0 else 1)
    else if |bs| == 1 then (bs[0] as int, 1)
    else if |bs| == 2 then ((bs[0] as int - 0xC0) * 0x40 + (bs[1] as int - 0x80), 2)
    else if |bs| == 3 then ((bs[0] as int - 0xE0) * 0x1000 + (bs[1] as int - 0x80) * 0x40 + (bs[2] as int - 0x80), 3)
    else ((bs[0] as int - 0xF0) * 0x40000 + (bs[1] as int - 0x80) * 0x1000 + (bs[2] as int - 0x80) * 0x40 + (bs[3] as int - 0x80), 4)
  }

  /** The buffer after one more byte, and the character it completed. */
  function Feed(buf: seq<Byte>, b: Byte): (seq<Byte>, Option<int>) {
    if buf != [] && IsContinuation(b) then
      var all := buf + [b];
      if |all| < SeqLen(all[0]) then (all, None)
      else
        var (r, size) := DecodeRune(all);
        ([], if r == RUNE_ERROR && size <= 1 then None else Some(r))
    else if b < 0x80 then ([], Some(b as int))
    else (if 0xC2 <= b <= 0xF4 then [b] else [], None)
  }

  class Utf8Accum {
    var buf: seq<Byte>

    constructor ()
      ensures buf == []
    {
      buf := [];
    }

    method FeedByte(b: Byte) returns (r: int, ok: bool)
      modifies this
      ensures (buf, if ok then Some(r) else None) == Feed(old(buf), b)
      ensures !ok ==> r == 0
    {
      if |buf| > 0 {
        if IsContinuation(b) {
          buf := buf + [b];
          if |buf| < SeqLen(buf[0]) {
            return 0, false;
          }
          var (rune, size) := DecodeRune(buf);
          buf := [];
          if rune == RUNE_ERROR && size <= 1 {
            return 0, false;
          }
          return rune, true;
        }
        buf := [];
      }
      if b < 0x80 {
        return b as int, true;
      }
      if 0xC2 <= b <= 0xF4 {
        buf := buf + [b];
        assert buf == [b];
      }
      return 0, false;
    }

    method Drop()
      modifies this
      ensures buf == []
    {
      buf := [];
    }
  }

  // ---------- streams ----------

  function FedBuffer(buf: seq<Byte>, bs: seq<Byte>): seq<Byte> {
    if bs == [] then buf else Feed(FedBuffer(buf, bs[..|bs| - 1]), bs[|bs| - 1]).0
  }

  /** What the last byte of a stream completed. */
  function Completed(buf: seq<Byte>, bs: seq<Byte>): Option<int>
    requires bs != []
  {
    Feed(FedBuffer(buf, bs[..|bs| - 1]), bs[|bs| - 1]).1
  }

  /** The characters of a stream. */
  function Output(buf: seq<Byte>, bs: seq<Byte>): seq<int> {
    if bs == [] then []
    else Output(buf, bs[..|bs| - 1]) + (if Completed(buf, bs).Some? then [Completed(buf, bs).value] else [])
  }

  /** Every buffer the assembler can hold: an unfinished sequence. */
  predicate Unfinished(buf: seq<Byte>) {
    buf != [] ==>
      && 0xC2 <= buf[0] <= 0xF4 && |buf| < SeqLen(buf[0])
      && forall i :: 1 <= i < |buf| ==> IsTail(buf[i])
  }

  predicate IsSuffix(s: seq<Byte>, bs: seq<Byte>) {
    |s| <= |bs| && bs[|bs| - |s|..] == s
  }

  // ---------- proofs ----------

  lemma MaskRanges(b: Byte)
    ensures IsContinuation(b) <==> IsTail(b)
    ensures SeqLen(b) == if 0xC0 <= b < 0xE0 then 2 else if 0xE0 <= b < 0xF0 then 3 else if 0xF0 <= b < 0xF8 then 4 else 1
  {
  }

  lemma EncodeIsChar(r: int)
    requires IsScalarValue(r)
    ensures IsUtf8Char(Encode(r)) && DecodeRune(Encode(r)).0 == r && DecodeRune(Encode(r)).1 == |Encode(r)|
  {
    if 0x800 <= r < 0x10000 {
      Split3(r);
    } else if 0x10000 <= r {
      Split3(r);
      assert r / 0x1000 == 0x40 * (r / 0x40000) + (r / 0x1000) % 0x40;
    }
  }

  lemma Split3(r: int)
    requires r >= 0
    ensures r == 0x1000 * (r / 0x1000) + 0x40 * ((r / 0x40) % 0x40) + r % 0x40
  {
    assert r / 0x40 == 0x40 * (r / 0x1000) + (r / 0x40) % 0x40;
  }

  lemma DecodeIsScalar(bs: seq<Byte>)
    requires IsUtf8Char(bs)
    ensures IsScalarValue(DecodeRune(bs).0) && Encode(DecodeRune(bs).0) == bs && DecodeRune(bs).1 == |bs|
  {
    if |bs| == 3 {
      Decode3(bs);
    } else if |bs| == 4 {
      Decode4(bs);
    }
  }

  lemma Decode3(bs: seq<Byte>)
    requires IsUtf8Char(bs) && |bs| == 3
    ensures IsScalarValue(DecodeRune(bs).0) && Encode(DecodeRune(bs).0) == bs
  {
    var a, b, c := bs[0] as int - 0xE0, bs[1] as int - 0x80, bs[2] as int - 0x80;
    var r := DecodeRune(bs).0;
    assert r == a * 0x1000 + b * 0x40 + c && 0 <= b < 0x40 && 0 <= c < 0x40;
    Digits3(a, b, c);
    assert Encode(r) == [bs[0], Tail(r / 0x40), Tail(r)];
  }

  lemma Decode4(bs: seq<Byte>)
    requires IsUtf8Char(bs) && |bs| == 4
    ensures IsScalarValue(DecodeRune(bs).0) && Encode(DecodeRune(bs).0) == bs
  {
    var a, b, c, d := bs[0] as int - 0xF0, bs[1] as int - 0x80, bs[2] as int - 0x80, bs[3] as int - 0x80;
    var r := DecodeRune(bs).0;
    assert r == a * 0x40000 + b * 0x1000 + c * 0x40 + d && 0 <= b < 0x40 && 0 <= c < 0x40 && 0 <= d < 0x40;
    Digits3(a * 0x40 + b, c, d);
    assert r / 0x40000 == a && (r / 0x1000) % 0x40 == b;
    assert Encode(r) == [bs[0], Tail(r / 0x1000), Tail(r / 0x40), Tail(r)];
  }

  lemma Digits3(a: int, b: int, c: int)
    requires 0 <= a && 0 <= b < 0x40 && 0 <= c < 0x40
    ensures var r := a * 0x1000 + b * 0x40 + c; r / 0x1000 == a && r / 0x40 == a * 0x40 + b && (r / 0x40) % 0x40 == b && r % 0x40 == c
  {
  }

  /** The grammar of RFC 3629 generates exactly the encodings of the scalar values. */
  lemma GrammarIsEncoding(bs: seq<Byte>)
    ensures IsUtf8Char(bs) <==> exists r :: IsScalarValue(r) && Encode(r) == bs
  {
    if IsUtf8Char(bs) {
      DecodeIsScalar(bs);
    }
    if r :| IsScalarValue(r) && Encode(r) == bs {
      EncodeIsChar(r);
    }
  }

  lemma FeedStep(buf: seq<Byte>, b: Byte)
    requires Unfinished(buf)
    ensures var (next, r) := Feed(buf, b);
      && Unfinished(next)
      && (next == [] || next == [b] || next == buf + [b])
      && (r.Some? ==> IsScalarValue(r.value) && (Encode(r.value) == [b] || Encode(r.value) == buf + [b]))
  {
    MaskRanges(b);
    if buf != [] {
      MaskRanges(buf[0]);
      var all := buf + [b];
      if IsUtf8Char(all) {
        DecodeIsScalar(all);
      }
    }
    MaskRanges(if buf != [] then buf[0] else b);
  }

  lemma SuffixGrows(s: seq<Byte>, xs: seq<Byte>, b: Byte)
    requires IsSuffix(s, xs)
    ensures IsSuffix(s + [b], xs + [b]) && IsSuffix([b], xs + [b]) && IsSuffix([], xs + [b])
  {
    assert (xs + [b])[|xs| - |s|..] == xs[|xs| - |s|..] + [b];
  }

  /** The buffer is always the end of what was fed, behind what was there before. */
  lemma {:induction false} BufferIsSuffix(buf: seq<Byte>, bs: seq<Byte>)
    requires Unfinished(buf)
    ensures Unfinished(FedBuffer(buf, bs)) && IsSuffix(FedBuffer(buf, bs), buf + bs)
  {
    hide Feed, Unfinished, IsSuffix, Encode;
    if bs == [] {
      assert buf + bs == buf;
      WholeIsSuffix(buf);
    } else {
      var init, b := bs[..|bs| - 1], bs[|bs| - 1];
      BufferIsSuffix(buf, init);
      FeedStep(FedBuffer(buf, init), b);
      SuffixGrows(FedBuffer(buf, init), buf + init, b);
      assert buf + bs == (buf + init) + [b];
    }
  }

  lemma WholeIsSuffix(s: seq<Byte>)
    ensures IsSuffix(s, s)
  {
  }

  lemma FeedLead(buf: seq<Byte>, b: Byte)
    requires Unfinished(buf) && 0xC2 <= b <= 0xF4
    ensures Feed(buf, b) == ([b], None)
  {
    MaskRanges(b);
  }

  lemma FeedTail(buf: seq<Byte>, b: Byte)
    requires buf != [] && IsTail(b) && |buf| + 1 < SeqLen(buf[0])
    ensures Feed(buf, b) == (buf + [b], None)
  {
    MaskRanges(b);
  }

  lemma FeedLast(buf: seq<Byte>, b: Byte)
    requires buf != [] && IsUtf8Char(buf + [b]) && IsTail(b)
    ensures Feed(buf, b) == ([], Some(DecodeRune(buf + [b]).0))
  {
    MaskRanges(b);
    MaskRanges(buf[0]);
  }

  lemma CharShape(bs: seq<Byte>)
    requires IsUtf8Char(bs)
    ensures |bs| == SeqLen(bs[0]) && (|bs| > 1 ==> 0xC2 <= bs[0] <= 0xF4) && (|bs| == 1 ==> bs[0] < 0x80)
    ensures forall i :: 1 <= i < |bs| ==> IsTail(bs[i])
  {
    MaskRanges(bs[0]);
  }

  /** Within a character the buffer holds its octets so far, and nothing comes out. */
  lemma {:induction false} WithinChar(buf: seq<Byte>, bs: seq<Byte>, n: nat)
    requires Unfinished(buf) && IsUtf8Char(bs) && 1 <= n < |bs|
    ensures FedBuffer(buf, bs[..n]) == bs[..n] && Output(buf, bs[..n]) == []
  {
    CharShape(bs);
    hide Feed, IsUtf8Char, SeqLen;
    var s, b := bs[..n], bs[n - 1];
    assert s[..|s| - 1] == bs[..n - 1] && s[|s| - 1] == b;
    if n == 1 {
      FeedLead(buf, b);
      assert bs[..0] == [];
      assert s == [b];
    } else {
      WithinChar(buf, bs, n - 1);
      FeedTail(bs[..n - 1], b);
      assert bs[..n - 1] + [b] == s;
    }
  }

  /** Whatever is in the buffer, the octets of a character produce it with their last octet and nothing before. */
  lemma {:induction false} CharCompletes(buf: seq<Byte>, r: int)
    requires Unfinished(buf) && IsScalarValue(r)
    ensures Completed(buf, Encode(r)) == Some(r) && FedBuffer(buf, Encode(r)) == []
    ensures Output(buf, Encode(r)) == [r]
  {
    EncodeIsChar(r);
    var bs := Encode(r);
    CharShape(bs);
    var n := |bs| - 1;
    hide Feed, IsUtf8Char, SeqLen, Encode, DecodeRune, IsScalarValue;
    if n > 0 {
      WithinChar(buf, bs, n);
      assert bs[..n] + [bs[n]] == bs;
      FeedLast(bs[..n], bs[n]);
    } else {
      assert bs[..0] == [] && bs == [bs[0]];
      FeedAscii(buf, bs[0]);
      AsciiIsItself(r);
    }
  }

  lemma FeedAscii(buf: seq<Byte>, b: Byte)
    requires b < 0x80
    ensures Feed(buf, b) == ([], Some(b as int))
  {
    MaskRanges(b);
  }

  lemma AsciiIsItself(r: int)
    requires IsScalarValue(r) && |Encode(r)| == 1
    ensures Encode(r)[0] as int == r
  {
  }

  lemma {:induction false} FedConcat(buf: seq<Byte>, xs: seq<Byte>, ys: seq<Byte>)
    ensures FedBuffer(buf, xs + ys) == FedBuffer(FedBuffer(buf, xs), ys)
    ensures ys != [] ==> Completed(buf, xs + ys) == Completed(FedBuffer(buf, xs), ys)
    ensures Output(buf, xs + ys) == Output(buf, xs) + Output(FedBuffer(buf, xs), ys)
    decreases |ys|
  {
    hide Feed;
    if ys == [] {
      assert xs + ys == xs;
    } else {
      var init := ys[..|ys| - 1];
      assert (xs + ys)[..|xs + ys| - 1] == xs + init;
      FedConcat(buf, xs, init);
    }
  }

  lemma {:induction false} NothingFed(buf: seq<Byte>)
    ensures Output(buf, []) == [] && FedBuffer(buf, []) == buf
  {
  }

  lemma EmptyIsUnfinished()
    ensures Unfinished([])
  {
  }

  /** From any state, the encoding of a text yields exactly that text. */
  lemma {:induction false} SelfSynchronising(buf: seq<Byte>, rs: seq<int>)
    requires Unfinished(buf) && forall i :: 0 <= i < |rs| ==> IsScalarValue(rs[i])
    ensures Output(buf, EncodeAll(rs)) == rs
    ensures Unfinished(FedBuffer(buf, EncodeAll(rs))) && (rs != [] ==> FedBuffer(buf, EncodeAll(rs)) == [])
  {
    hide Feed, Encode, IsScalarValue, Unfinished, FedBuffer, Output;
    if rs == [] {
      NothingFed(buf);
    } else {
      var init, r := rs[..|rs| - 1], rs[|rs| - 1];
      SelfSynchronising(buf, init);
      CharCompletes(FedBuffer(buf, EncodeAll(init)), r);
      FedConcat(buf, EncodeAll(init), Encode(r));
      EmptyIsUnfinished();
      assert rs == init + [r];
    }
  }

  /** The last byte of a stream completes a character exactly if the stream ends with its octets. */
  lemma CompletesExactly(bs: seq<Byte>, r: int)
    requires bs != []
    ensures Completed([], bs) == Some(r) <==> IsScalarValue(r) && IsSuffix(Encode(r), bs)
  {
    hide *;
    var init, b := bs[..|bs| - 1], bs[|bs| - 1];
    EmptyIsUnfinished();
    BufferIsSuffix([], init);
    assert [] + init == init && bs == init + [b];
    FeedStep(FedBuffer([], init), b);
    SuffixGrows(FedBuffer([], init), init, b);
    CompletedIsFeed(bs);
    if IsScalarValue(r) && IsSuffix(Encode(r), bs) {
      var junk := SplitSuffix(Encode(r), bs);
      BufferIsSuffix([], junk);
      FedConcat([], junk, Encode(r));
      CharCompletes(FedBuffer([], junk), r);
    }
  }

  lemma CompletedIsFeed(bs: seq<Byte>)
    requires bs != []
    ensures Completed([], bs) == Feed(FedBuffer([], bs[..|bs| - 1]), bs[|bs| - 1]).1
  {
  }

  lemma SplitSuffix(s: seq<Byte>, bs: seq<Byte>) returns (junk: seq<Byte>)
    requires IsSuffix(s, bs)
    ensures bs == junk + s
  {
    junk := bs[..|bs| - |s|];
  }

  /** No byte stream ever yields anything but scalar values. */
  lemma {:induction false} OnlyScalars(buf: seq<Byte>, bs: seq<Byte>)
    requires Unfinished(buf)
    ensures forall i :: 0 <= i < |Output(buf, bs)| ==> IsScalarValue(Output(buf, bs)[i])
  {
    if bs != [] {
      OnlyScalars(buf, bs[..|bs| - 1]);
      BufferIsSuffix(buf, bs[..|bs| - 1]);
      FeedStep(FedBuffer(buf, bs[..|bs| - 1]), bs[|bs| - 1]);
    }
  }
}
