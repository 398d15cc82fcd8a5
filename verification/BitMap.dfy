/** The bit map that allocates disk sectors and page frames: bits packed into 32-bit words.

  `1 << k` with `|=`, `& ~` and `&` reads, sets or clears one bit of a word; the three functions below say
  so by peeling off the low bit, which is division by two. */
module BitMaps {
  import opened Bytes

  const BITS_IN_WORD: nat := 32

  /** w & (1 << k) */
  predicate Bit(w: nat, k: nat)
    decreases k
  {
    if k == 0 then w % 2 == 1 else Bit(w / 2, k - 1)
  }

  /** w | (1 << k) */
  function SetBit(w: nat, k: nat): nat
    decreases k
  {
    if k == 0 then w / 2 * 2 + 1 else SetBit(w / 2, k - 1) * 2 + w % 2
  }

  /** w & ~(1 << k) */
  function ClearBit(w: nat, k: nat): nat
    decreases k
  {
    if k == 0 then w / 2 * 2 else ClearBit(w / 2, k - 1) * 2 + w % 2
  }

  lemma {:induction false} BitAfterSet(w: nat, k: nat, j: nat)
    ensures Bit(SetBit(w, k), j) <==> j == k || Bit(w, j)
    decreases k
  {
    if k > 0 {
      var v := SetBit(w / 2, k - 1);
      assert (v * 2 + w % 2) / 2 == v;
      if j > 0 {
        BitAfterSet(w / 2, k - 1, j - 1);
      }
    }
  }

  lemma {:induction false} BitAfterClear(w: nat, k: nat, j: nat)
    ensures Bit(ClearBit(w, k), j) <==> j != k && Bit(w, j)
    decreases k
  {
    if k > 0 {
      var v := ClearBit(w / 2, k - 1);
      assert (v * 2 + w % 2) / 2 == v;
      if j > 0 {
        BitAfterClear(w / 2, k - 1, j - 1);
      }
    }
  }

  /** Words of n bits stay words of n bits. */
  lemma {:induction false} BitOperationsFit(w: nat, k: nat, n: nat)
    requires k < n && w < Pow2(n)
    ensures SetBit(w, k) < Pow2(n) && ClearBit(w, k) < Pow2(n)
    decreases k
  {
    assert w / 2 < Pow2(n - 1);
    if k > 0 {
      BitOperationsFit(w / 2, k - 1, n - 1);
    }
  }

  /** The first `n` bits of an array of words. */
  function BitsOf(ws: seq<word>, n: nat): (bits: seq<bool>)
    requires n <= BITS_IN_WORD * |ws|
    ensures |bits| == n
    ensures forall i :: 0 <= i < n ==> bits[i] == Bit(ws[i / BITS_IN_WORD], i % BITS_IN_WORD)
  {
    seq(n, i requires 0 <= i < n => Bit(ws[i / BITS_IN_WORD], i % BITS_IN_WORD))
  }

  lemma SetBitOf(ws: seq<word>, n: nat, k: nat, w: word)
    requires k < n <= BITS_IN_WORD * |ws|
    requires w == SetBit(ws[k / BITS_IN_WORD], k % BITS_IN_WORD)
    ensures BitsOf(ws[k / BITS_IN_WORD := w], n) == BitsOf(ws, n)[k := true]
  {
    var after, expected := BitsOf(ws[k / BITS_IN_WORD := w], n), BitsOf(ws, n)[k := true];
    forall i | 0 <= i < n
      ensures after[i] == expected[i]
    {
      BitAfterSet(ws[k / BITS_IN_WORD], k % BITS_IN_WORD, i % BITS_IN_WORD);
    }
  }

  lemma ClearBitOf(ws: seq<word>, n: nat, k: nat, w: word)
    requires k < n <= BITS_IN_WORD * |ws|
    requires w == ClearBit(ws[k / BITS_IN_WORD], k % BITS_IN_WORD)
    ensures BitsOf(ws[k / BITS_IN_WORD := w], n) == BitsOf(ws, n)[k := false]
  {
    var after, expected := BitsOf(ws[k / BITS_IN_WORD := w], n), BitsOf(ws, n)[k := false];
    forall i | 0 <= i < n
      ensures after[i] == expected[i]
    {
      BitAfterClear(ws[k / BITS_IN_WORD], k % BITS_IN_WORD, i % BITS_IN_WORD);
    }
  }

  /** The lowest clear bit at or after `from`, or -1. */
  function FirstClear(bits: seq<bool>, from: nat): (r: int)
    requires from <= |bits|
    ensures r == -1 || (from <= r < |bits| && !bits[r])
    ensures forall i :: from <= i < (if r == -1 then |bits| else r) ==> bits[i]
    decreases |bits| - from
  {
    if from == |bits| then -1 else if !bits[from] then from else FirstClear(bits, from + 1)
  }

  lemma {:induction false} FirstClearIs(bits: seq<bool>, from: nat, k: nat)
    requires from <= k < |bits| && !bits[k]
    requires forall i :: from <= i < k ==> bits[i]
    ensures FirstClear(bits, from) == k
    decreases k - from
  {
    if from < k {
      FirstClearIs(bits, from + 1, k);
    }
  }

  function CountClear(bits: seq<bool>): (n: nat)
    ensures n <= |bits|
  {
    if bits == [] then 0
    else CountClear(bits[..|bits| - 1]) + (if bits[|bits| - 1] then 0 else 1)
  }

  /** Flipping one bit moves the count by one, and a positive count means a clear bit to find. */
  lemma {:induction false} CountAfterMark(bits: seq<bool>, k: nat)
    requires k < |bits| && !bits[k]
    ensures CountClear(bits[k := true]) == CountClear(bits) - 1
  {
    var n := |bits| - 1;
    if k < n {
      CountAfterMark(bits[..n], k);
      assert bits[k := true][..n] == bits[..n][k := true];
    } else {
      assert bits[k := true][..n] == bits[..n];
    }
  }

  lemma {:induction false} CountZero(bits: seq<bool>)
    ensures CountClear(bits) == 0 <==> forall i :: 0 <= i < |bits| ==> bits[i]
  {
    if bits != [] {
      var init := bits[..|bits| - 1];
      CountZero(init);
      assert forall i :: 0 <= i < |init| ==> init[i] == bits[i];
    }
  }

  class BitMap {
    const numBits: nat
    const words: array<word>

    ghost predicate Valid()
      reads this
    {
      words.Length == numBits / BITS_IN_WORD + (if numBits % BITS_IN_WORD > 0 then 1 else 0)
    }

    ghost function Bits(): (bits: seq<bool>)
      requires Valid()
      reads this, words
      ensures |bits| == numBits
    {
      BitsOf(words[..], numBits)
    }

    constructor (nitems: nat)
      ensures Valid() && fresh(words)
      ensures numBits == nitems
      ensures forall i :: 0 <= i < nitems ==> !Bits()[i]
    {
      numBits := nitems;
      words := new word[nitems / BITS_IN_WORD + (if nitems % BITS_IN_WORD > 0 then 1 else 0)];
      new;
      for i := 0 to nitems
        invariant forall j :: 0 <= j < i ==> !Bits()[j]
      {
        Clear(i);
      }
    }

    method Mark(which: nat)
      requires Valid() && which < numBits
      modifies words
      ensures Bits() == old(Bits())[which := true]
    {
      ghost var before := words[..];
      Pow2Of32();
      BitOperationsFit(words[which / BITS_IN_WORD], which % BITS_IN_WORD, 32);
      words[which / BITS_IN_WORD] := SetBit(words[which / BITS_IN_WORD], which % BITS_IN_WORD);
      SetBitOf(before, numBits, which, words[which / BITS_IN_WORD]);
      assert words[..] == before[which / BITS_IN_WORD := words[which / BITS_IN_WORD]];
    }

    method Clear(which: nat)
      requires Valid() && which < numBits
      modifies words
      ensures Bits() == old(Bits())[which := false]
    {
      ghost var before := words[..];
      Pow2Of32();
      BitOperationsFit(words[which / BITS_IN_WORD], which % BITS_IN_WORD, 32);
      words[which / BITS_IN_WORD] := ClearBit(words[which / BITS_IN_WORD], which % BITS_IN_WORD);
      ClearBitOf(before, numBits, which, words[which / BITS_IN_WORD]);
      assert words[..] == before[which / BITS_IN_WORD := words[which / BITS_IN_WORD]];
    }

    method Test(which: nat) returns (isSet: bool)
      requires Valid() && which < numBits
      ensures isSet == Bits()[which]
    {
      isSet := Bit(words[which / BITS_IN_WORD], which % BITS_IN_WORD);
    }

    /** Finds the lowest clear bit and sets it; -1 when every bit is set. */
    method Find() returns (which: int)
      requires Valid()
      modifies words
      ensures which == FirstClear(old(Bits()), 0)
      ensures Bits() == if which == -1 then old(Bits()) else old(Bits())[which := true]
    {
      for i := 0 to numBits
        invariant Bits() == old(Bits())
        invariant forall j :: 0 <= j < i ==> Bits()[j]
      {
        var used := Test(i);
        if !used {
          FirstClearIs(Bits(), 0, i);
          Mark(i);
          return i;
        }
      }
      return -1;
    }

    method NumClear() returns (count: nat)
      requires Valid()
      ensures count == CountClear(Bits())
    {
      count := 0;
      for i := 0 to numBits
        invariant count == CountClear(Bits()[..i])
      {
        var used := Test(i);
        assert Bits()[..i + 1][..i] == Bits()[..i];
        if !used {
          count := count + 1;
        }
      }
      assert Bits()[..numBits] == Bits();
    }
  }
}
