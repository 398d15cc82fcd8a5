/** Bytes, C's 32-bit words, and how these lie in memory on the little-endian machine. */
module Bytes {
  type byte = x: int | 0 <= x < 256
  type int32 = x: int | -0x8000_0000 <= x < 0x8000_0000
  type word = x: int | 0 <= x < 0x1_0000_0000

  /** `whole` with the elements from `at` on overwritten by `part`. */
  function Splice<T>(whole: seq<T>, at: nat, part: seq<T>): (r: seq<T>)
    requires at + |part| <= |whole|
    ensures |r| == |whole|
    ensures forall k :: 0 <= k < |r| ==> r[k] == if at <= k < at + |part| then part[k - at] else whole[k]
  {
    whole[..at] + part + whole[at + |part|..]
  }

  function Pow2(n: nat): (p: nat)
    ensures p > 0
  {
    if n == 0 then 1 else 2 * Pow2(n - 1)
  }

  lemma Pow2Of32()
    ensures Pow2(32) == 0x1_0000_0000
  {
    assert Pow2(8) == 256;
    assert Pow2(16) == 0x1_0000;
    assert Pow2(24) == 0x100_0000;
  }

  /** The words of a signed int and back. */
  function ToWord(n: int32): word {
    if n < 0 then n + 0x1_0000_0000 else n
  }

  function ToInt(w: word): int32 {
    if w >= 0x8000_0000 then w - 0x1_0000_0000 else w
  }

  function EncodeWord(w: word): (b: seq<byte>)
    ensures |b| == 4
  {
    [w % 256, w / 256 % 256, w / 0x1_0000 % 256, w / 0x100_0000]
  }

  function DecodeWord(b: seq<byte>): word
    requires |b| == 4
  {
    b[0] as int + 256 * b[1] as int + 0x1_0000 * b[2] as int + 0x100_0000 * b[3] as int
  }

  lemma DecodeEncodeWord(w: word)
    ensures DecodeWord(EncodeWord(w)) == w
  {
    assert w == 256 * (w / 256) + w % 256;
    assert w / 256 == 256 * (w / 0x1_0000) + w / 256 % 256;
    assert w / 0x1_0000 == 256 * (w / 0x100_0000) + w / 0x1_0000 % 256;
  }

  /** An array of words, element after element. */
  function EncodeWords(ws: seq<word>): (b: seq<byte>)
    ensures |b| == 4 * |ws|
  {
    if ws == [] then [] else EncodeWord(ws[0]) + EncodeWords(ws[1..])
  }

  function DecodeWords(b: seq<byte>): (ws: seq<word>)
    requires |b| % 4 == 0
    ensures 4 * |ws| == |b|
  {
    if b == [] then [] else [DecodeWord(b[..4])] + DecodeWords(b[4..])
  }

  lemma {:induction false} DecodeEncodeWords(ws: seq<word>)
    ensures DecodeWords(EncodeWords(ws)) == ws
  {
    if ws != [] {
      var b := EncodeWords(ws);
      assert b[..4] == EncodeWord(ws[0]);
      assert b[4..] == EncodeWords(ws[1..]);
      DecodeEncodeWord(ws[0]);
      DecodeEncodeWords(ws[1..]);
    }
  }

  /** Each word has its four bytes. */
  lemma {:induction false} WordInPlace(ws: seq<word>, i: nat)
    requires i < |ws|
    ensures EncodeWords(ws)[4 * i..4 * i + 4] == EncodeWord(ws[i])
  {
    var rest := EncodeWords(ws[1..]);
    assert EncodeWords(ws) == EncodeWord(ws[0]) + rest;
    if i > 0 {
      WordInPlace(ws[1..], i - 1);
      assert EncodeWords(ws)[4 * i..4 * i + 4] == rest[4 * (i - 1)..4 * (i - 1) + 4];
    }
  }

  /** An array of signed ints. */
  function ToWords(ns: seq<int32>): (ws: seq<word>)
    ensures |ws| == |ns|
  {
    seq(|ns|, i requires 0 <= i < |ns| => ToWord(ns[i]))
  }

  function ToInts(ws: seq<word>): (ns: seq<int32>)
    ensures |ns| == |ws|
  {
    seq(|ws|, i requires 0 <= i < |ws| => ToInt(ws[i]))
  }

  lemma IntsRoundTrip(ns: seq<int32>)
    ensures ToInts(DecodeWords(EncodeWords(ToWords(ns)))) == ns
  {
    DecodeEncodeWords(ToWords(ns));
  }
}
