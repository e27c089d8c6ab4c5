/** Reversal of sixteen bits by swapping neighbours, pairs, nibbles and bytes (osd/stb_image.h). */
module BitReversal {
  import opened Bits

  /** `a & b` */
  function And(a: nat, b: nat): nat {
    if a == 0 then 0 else (if a % 2 == 1 && b % 2 == 1 then 1 else 0) + 2 * And(a / 2, b / 2)
  }

  /** Swaps the parts of `n` that two masks select, `k` places apart. */
  function Swap(n: nat, high: nat, low: nat, k: nat): nat { Or(Shr(And(n, high), k), Shl(And(n, low), k)) }

  function BitReverse16(n: nat): nat {
    Swap(Swap(Swap(Swap(n, 0xaaaa, 0x5555, 1), 0xcccc, 0x3333, 2), 0xf0f0, 0x0f0f, 4), 0xff00, 0x00ff, 8)
  }

  // --- bit by bit ---

  function Bit(n: nat, i: nat): nat { Shr(n, i) % 2 }

  lemma {:induction false} BitOfAnd(a: nat, b: nat, i: nat)
    ensures Bit(And(a, b), i) == if Bit(a, i) == 1 && Bit(b, i) == 1 then 1 else 0
  {
    if a == 0 { ZeroBits(i); } else if i > 0 { BitOfAnd(a / 2, b / 2, i - 1); }
  }

  lemma {:induction false} BitOfOr(a: nat, b: nat, i: nat)
    ensures Bit(Or(a, b), i) == if Bit(a, i) == 1 || Bit(b, i) == 1 then 1 else 0
  {
    if a == 0 { ZeroBits(i); } else if i > 0 { BitOfOr(a / 2, b / 2, i - 1); }
  }

  lemma {:induction false} ZeroBits(i: nat)
    ensures Bit(0, i) == 0
  {
    if i > 0 { ZeroBits(i - 1); }
  }

  lemma BitOfShr(a: nat, k: nat, i: nat)
    ensures Bit(Shr(a, k), i) == Bit(a, k + i)
  {
    ShrAdd(a, k, i);
  }

  lemma {:induction false} BitOfShl(a: nat, k: nat, i: nat)
    ensures Bit(Shl(a, k), i) == if i < k then 0 else Bit(a, i - k)
  {
    hide Bit, Shr, Shl;
    NextBit(Shl(a, k), i);
    NextBit(a, i);
    HalfOfShl(a, k);
    if k > 0 && i > 0 { BitOfShl(a, k - 1, i - 1); }
  }

  lemma HalfOfShl(a: nat, k: nat)
    ensures if k == 0 then Shl(a, k) == a else Shl(a, k) / 2 == Shl(a, k - 1) && Shl(a, k) % 2 == 0
  {
  }

  lemma NextBit(n: nat, i: nat)
    ensures Bit(n, i) == if i == 0 then n % 2 else Bit(n / 2, i - 1)
  {
  }

  /** Numbers of sixteen bits with the same bits are equal. */
  lemma {:induction false} SameBits(a: nat, b: nat, n: nat)
    requires a < Pow2(n) && b < Pow2(n) && forall i :: 0 <= i < n ==> Bit(a, i) == Bit(b, i)
    ensures a == b
  {
    if n > 0 {
      forall i | 0 <= i < n - 1 ensures Bit(a / 2, i) == Bit(b / 2, i) {
        assert Bit(a, i + 1) == Bit(b, i + 1);
      }
      SameBits(a / 2, b / 2, n - 1);
      assert Bit(a, 0) == Bit(b, 0);
    }
  }

  lemma {:induction false} BitOfRev(w: nat, n: nat, i: nat)
    requires i < n
    ensures Bit(Rev(w, n), i) == Bit(w, n - 1 - i)
  {
    if i > 0 {
      assert Rev(w, n) / 2 == Rev(w, n - 1);
      BitOfRev(w, n - 1, i - 1);
    }
  }

  // --- the four swaps ---

  /** The place lies in the upper one of two groups of `k` bits. */
  predicate Upper(i: nat, k: nat) {
    if k == 1 then i % 2 == 1 else if k == 2 then i / 2 % 2 == 1 else if k == 4 then i / 4 % 2 == 1 else i / 8 % 2 == 1
  }

  /** The place that is `k` across. */
  function Across(i: nat, k: nat): int { if Upper(i, k) then i - k else i + k }

  /** A mask of the lower groups of `k` bits. */
  ghost predicate IsMask(low: nat, k: nat) {
    forall i :: 0 <= i < 16 ==> Bit(low, i) == if Upper(i, k) then 0 else 1
  }

  lemma UpperByte(m: nat, h: nat)
    requires Shr(m, 8) == h
    ensures forall i :: 8 <= i < 16 ==> Bit(m, i) == Bit(h, i - 8)
  {
    forall i | 8 <= i < 16 ensures Bit(m, i) == Bit(h, i - 8) { BitOfShr(m, 8, i - 8); }
  }

  lemma Mask1()
    ensures IsMask(0x5555, 1)
  {
    assert Bit(0x5555, 0) == 1 && Bit(0x5555, 1) == 0 && Bit(0x5555, 2) == 1 && Bit(0x5555, 3) == 0;
    assert Bit(0x5555, 4) == 1 && Bit(0x5555, 5) == 0 && Bit(0x5555, 6) == 1 && Bit(0x5555, 7) == 0;
    assert Bit(0x55, 0) == 1 && Bit(0x55, 1) == 0 && Bit(0x55, 2) == 1 && Bit(0x55, 3) == 0;
    assert Bit(0x55, 4) == 1 && Bit(0x55, 5) == 0 && Bit(0x55, 6) == 1 && Bit(0x55, 7) == 0;
    UpperByte(0x5555, 0x55);
  }

  lemma Mask2()
    ensures IsMask(0x3333, 2)
  {
    assert Bit(0x3333, 0) == 1 && Bit(0x3333, 1) == 1 && Bit(0x3333, 2) == 0 && Bit(0x3333, 3) == 0;
    assert Bit(0x3333, 4) == 1 && Bit(0x3333, 5) == 1 && Bit(0x3333, 6) == 0 && Bit(0x3333, 7) == 0;
    assert Bit(0x33, 0) == 1 && Bit(0x33, 1) == 1 && Bit(0x33, 2) == 0 && Bit(0x33, 3) == 0;
    assert Bit(0x33, 4) == 1 && Bit(0x33, 5) == 1 && Bit(0x33, 6) == 0 && Bit(0x33, 7) == 0;
    UpperByte(0x3333, 0x33);
  }

  lemma Mask4()
    ensures IsMask(0x0f0f, 4)
  {
    assert Bit(0x0f0f, 0) == 1 && Bit(0x0f0f, 1) == 1 && Bit(0x0f0f, 2) == 1 && Bit(0x0f0f, 3) == 1;
    assert Bit(0x0f0f, 4) == 0 && Bit(0x0f0f, 5) == 0 && Bit(0x0f0f, 6) == 0 && Bit(0x0f0f, 7) == 0;
    assert Bit(0xf, 0) == 1 && Bit(0xf, 1) == 1 && Bit(0xf, 2) == 1 && Bit(0xf, 3) == 1;
    assert Bit(0xf, 4) == 0 && Bit(0xf, 5) == 0 && Bit(0xf, 6) == 0 && Bit(0xf, 7) == 0;
    UpperByte(0x0f0f, 0xf);
  }

  lemma Mask8()
    ensures IsMask(0x00ff, 8)
  {
    assert Bit(0x00ff, 0) == 1 && Bit(0x00ff, 1) == 1 && Bit(0x00ff, 2) == 1 && Bit(0x00ff, 3) == 1;
    assert Bit(0x00ff, 4) == 1 && Bit(0x00ff, 5) == 1 && Bit(0x00ff, 6) == 1 && Bit(0x00ff, 7) == 1;
    assert Bit(0x0, 0) == 0 && Bit(0x0, 1) == 0 && Bit(0x0, 2) == 0 && Bit(0x0, 3) == 0;
    assert Bit(0x0, 4) == 0 && Bit(0x0, 5) == 0 && Bit(0x0, 6) == 0 && Bit(0x0, 7) == 0;
    UpperByte(0x00ff, 0x0);
  }

  lemma Sides(i: nat, k: nat)
    requires (k == 1 || k == 2 || k == 4 || k == 8) && i < 16
    ensures if Upper(i, k) then i >= k && !Upper(i - k, k) else i + k < 16 && Upper(i + k, k)
    ensures i >= k ==> Upper(i - k, k) == !Upper(i, k)
  {
  }

  lemma BitOfSwap(n: nat, high: nat, low: nat, k: nat, i: nat)
    requires (k == 1 || k == 2 || k == 4 || k == 8) && IsMask(low, k) && high == Shl(low, k) && i < 16
    ensures 0 <= Across(i, k) < 16 && Bit(Swap(n, high, low, k), i) == Bit(n, Across(i, k))
  {
    hide Bit, Upper;
    Sides(i, k);
    BitOfOr(Shr(And(n, high), k), Shl(And(n, low), k), i);
    BitOfShr(And(n, high), k, i);
    BitOfAnd(n, high, k + i);
    BitOfShl(low, k, k + i);
    BitOfShl(And(n, low), k, i);
    if i >= k {
      BitOfAnd(n, low, i - k);
      BitIsBinary(n, i - k);
    }
    BitIsBinary(n, k + i);
  }

  lemma BitIsBinary(n: nat, i: nat)
    ensures Bit(n, i) == 0 || Bit(n, i) == 1
  {
  }

  lemma HighMasks()
    ensures Shl(0x5555, 1) == 0xaaaa && Shl(0x3333, 2) == 0xcccc && Shl(0x0f0f, 4) == 0xf0f0 && Shl(0x00ff, 8) == 0xff00
  {
  }

  lemma FourSwaps(i: nat)
    requires i < 16
    ensures Across(Across(Across(Across(i, 8), 4), 2), 1) == 15 - i
  {
  }

  lemma {:induction false} AndBelow(a: nat, b: nat)
    ensures And(a, b) <= b
  {
    if a > 0 { AndBelow(a / 2, b / 2); }
  }

  lemma {:induction false} OrBelow(a: nat, b: nat)
    ensures Or(a, b) <= a + b
  {
    if a > 0 { OrBelow(a / 2, b / 2); }
  }

  lemma {:induction false} ShrMonotone(a: nat, b: nat, k: nat)
    requires a <= b
    ensures Shr(a, k) <= Shr(b, k)
  {
    if k > 0 { ShrMonotone(a / 2, b / 2, k - 1); }
  }

  lemma SwapBytesFits(n: nat)
    ensures Swap(n, 0xff00, 0x00ff, 8) < 0x1_0000
  {
    AndBelow(n, 0xff00);
    AndBelow(n, 0x00ff);
    ShrMonotone(And(n, 0xff00), 0xff00, 8);
    ShlMonotone(And(n, 0x00ff), 0x00ff, 8);
    HighMasks();
    assert Shr(0xff00, 8) == 0xff;
    OrBelow(Shr(And(n, 0xff00), 8), Shl(And(n, 0x00ff), 8));
  }

  /** The four swaps read the first sixteen bits as a codeword: the first bit comes out on top. */
  lemma SwapsReverse(n: nat)
    ensures BitReverse16(n) == Rev(n, 16)
  {
    hide Bit, Swap, IsMask;
    var a := Swap(n, 0xaaaa, 0x5555, 1);
    var b := Swap(a, 0xcccc, 0x3333, 2);
    var c := Swap(b, 0xf0f0, 0x0f0f, 4);
    HighMasks();
    Mask1();
    Mask2();
    Mask4();
    Mask8();
    forall i | 0 <= i < 16 ensures Bit(BitReverse16(n), i) == Bit(Rev(n, 16), i) {
      BitOfSwap(c, 0xff00, 0x00ff, 8, i);
      BitOfSwap(b, 0xf0f0, 0x0f0f, 4, Across(i, 8));
      BitOfSwap(a, 0xcccc, 0x3333, 2, Across(Across(i, 8), 4));
      BitOfSwap(n, 0xaaaa, 0x5555, 1, Across(Across(Across(i, 8), 4), 2));
      FourSwaps(i);
      BitOfRev(n, 16, i);
    }
    SwapBytesFits(c);
    RevBound(n, 16);
    Pow2Values();
    SameBits(BitReverse16(n), Rev(n, 16), 16);
  }
}
