/** Shifts as repeated doubling and halving, and the reading of codewords from a little-endian bit buffer. */
module Bits {
  /** 2 to the n. */
  function Pow2(n: nat): (r: nat)
    ensures r > 0
  {
    if n == 0 then 1 else 2 * Pow2(n - 1)
  }

  /** w << n */
  function Shl(w: nat, n: nat): nat { if n == 0 then w else 2 * Shl(w, n - 1) }

  /** w >> n */
  function Shr(w: nat, n: nat): nat { if n == 0 then w else Shr(w / 2, n - 1) }

  /** w & ((1 << n) - 1) */
  function Low(w: nat, n: nat): nat { if n == 0 then 0 else w % 2 + 2 * Low(w / 2, n - 1) }

  /** The first `n` bits of `w` as a codeword: the first bit read is the most significant. */
  function Rev(w: nat, n: nat): nat { if n == 0 then 0 else 2 * Rev(w, n - 1) + Shr(w, n - 1) % 2 }

  // --- shifting ---

  lemma {:induction false} ShrMore(w: nat, n: nat)
    ensures Shr(w, n + 1) == Shr(w, n) / 2
  {
    if n > 0 { ShrMore(w / 2, n - 1); }
  }

  lemma {:induction false} ShrAdd(w: nat, a: nat, b: nat)
    ensures Shr(w, a + b) == Shr(Shr(w, a), b)
  {
    if a > 0 { ShrAdd(w / 2, a - 1, b); }
  }

  /** Comparing before or after the shift is the same. */
  lemma {:induction false} ShiftCompare(k: nat, e: nat, n: nat)
    ensures k < Shl(e, n) <==> Shr(k, n) < e
  {
    if n > 0 { ShiftCompare(k / 2, e, n - 1); }
  }

  lemma {:induction false} ShlPow2(n: nat)
    ensures Shl(1, n) == Pow2(n)
  {
    if n > 0 { ShlPow2(n - 1); }
  }

  lemma {:induction false} ShlZero(n: nat)
    ensures Shl(0, n) == 0
  {
    if n > 0 { ShlZero(n - 1); }
  }

  lemma {:induction false} ShlMonotone(a: nat, b: nat, n: nat)
    requires a <= b
    ensures Shl(a, n) <= Shl(b, n)
  {
    if n > 0 { ShlMonotone(a, b, n - 1); }
  }

  lemma {:induction false} ShlAdd(w: nat, a: nat, b: nat)
    ensures Shl(Shl(w, a), b) == Shl(w, a + b)
  {
    if b > 0 { ShlAdd(w, a, b - 1); }
  }

  lemma {:induction false} ShlSum(x: nat, y: nat, n: nat)
    ensures Shl(x + y, n) == Shl(x, n) + Shl(y, n)
  {
    if n > 0 { ShlSum(x, y, n - 1); }
  }

  lemma {:induction false} Pow2Monotone(a: nat, b: nat)
    requires a <= b
    ensures Pow2(a) <= Pow2(b)
  {
    if a < b { Pow2Monotone(a, b - 1); }
  }

  /** A number is its upper part shifted back and its low bits. */
  lemma {:induction false} SplitLow(w: nat, n: nat)
    ensures w == Shl(Shr(w, n), n) + Low(w, n)
    ensures Low(w, n) < Pow2(n)
    ensures w < Pow2(n) ==> Low(w, n) == w && Shr(w, n) == 0
  {
    if n > 0 { SplitLow(w / 2, n - 1); }
  }

  /** Adding a number above the first `n` bits. */
  lemma {:induction false} Above(b: nat, y: nat, n: nat)
    requires y < Pow2(n)
    ensures Shr(Shl(b, n) + y, n) == b
    ensures Low(Shl(b, n) + y, n) == y
  {
    if n > 0 {
      assert (Shl(b, n) + y) / 2 == Shl(b, n - 1) + y / 2;
      Above(b, y / 2, n - 1);
    }
  }

  lemma LowHalf(w: nat, n: nat)
    requires n > 0
    ensures Low(w, n) / 2 == Low(w / 2, n - 1) && Low(w, n) % 2 == w % 2
  {
  }

  lemma {:induction false} LowBits(w: nat, i: nat, n: nat)
    requires i < n
    ensures Shr(Low(w, n), i) % 2 == Shr(w, i) % 2
  {
    hide Low;
    LowHalf(w, n);
    if i > 0 { LowBits(w / 2, i - 1, n - 1); }
  }

  lemma {:induction false} LowLow(w: nat, l: nat, n: nat)
    requires l <= n
    ensures Low(Low(w, n), l) == Low(w, l)
  {
    if l > 0 {
      LowHalf(w, n);
      LowLow(w / 2, l - 1, n - 1);
    }
  }

  // --- a bit buffer and what lies above it ---

  /** `a | b` */
  function Or(a: nat, b: nat): nat {
    if a == 0 then b else (if a % 2 == 1 || b % 2 == 1 then 1 else 0) + 2 * Or(a / 2, b / 2)
  }

  /** Setting bits above the first `n` adds them. */
  lemma {:induction false} OrAbove(a: nat, b: nat, n: nat)
    requires a < Pow2(n)
    ensures Or(a, Shl(b, n)) == a + Shl(b, n)
  {
    if n > 0 && a > 0 {
      OrAbove(a / 2, b, n - 1);
      assert Shl(b, n) / 2 == Shl(b, n - 1);
    }
  }

  /** Eight more places. */
  lemma {:induction false} ShlByte(v: nat, n: nat)
    ensures Shl(256 * v, n) == Shl(v, n + 8)
  {
    if n == 0 {
      assert Shl(v, 1) == 2 * v;
      assert Shl(v, 2) == 4 * v;
      assert Shl(v, 4) == 16 * v;
      assert Shl(v, 6) == 64 * v;
    } else {
      ShlByte(v, n - 1);
    }
  }

  lemma {:induction false} ByteFits(a: nat, b: nat, n: nat)
    requires a < Pow2(n) && b < 256
    ensures a + Shl(b, n) < Pow2(n + 8)
  {
    if n == 0 { Pow2Values(); } else { ByteFits(a / 2, b, n - 1); }
  }

  /** A byte put above the bits of the buffer comes after them. */
  lemma OneMoreByte(a: nat, b: nat, v: nat, n: nat)
    requires a < Pow2(n) && b < 256
    ensures Or(a, Shl(b, n)) + Shl(v, n + 8) == a + Shl(b + 256 * v, n)
    ensures Or(a, Shl(b, n)) < Pow2(n + 8)
  {
    OrAbove(a, b, n);
    ByteFits(a, b, n);
    ShlSum(b, 256 * v, n);
    ShlByte(v, n);
  }

  /** Bits that lie above stay above when lower ones are shifted out. */
  lemma {:induction false} ShrBelow(a: nat, v: nat, m: nat, n: nat)
    requires n <= m
    ensures Shr(a + Shl(v, m), n) == Shr(a, n) + Shl(v, m - n)
  {
    if n > 0 {
      assert (a + Shl(v, m)) / 2 == a / 2 + Shl(v, m - 1);
      ShrBelow(a / 2, v, m - 1, n - 1);
    }
  }

  lemma {:induction false} ShrFits(a: nat, m: nat, n: nat)
    requires n <= m && a < Pow2(m)
    ensures Shr(a, n) < Pow2(m - n)
  {
    if n > 0 { ShrFits(a / 2, m - 1, n - 1); }
  }

  /** The buffer holds the first bits of the whole. */
  lemma FrontOfBuffer(a: nat, v: nat, m: nat, n: nat)
    requires n <= m && a < Pow2(m)
    ensures Low(a + Shl(v, m), n) == Low(a, n)
  {
    Above(v, a, m);
    LowLow(a + Shl(v, m), n, m);
  }

  // --- codewords ---

  lemma {:induction false} RevBound(w: nat, n: nat)
    ensures Rev(w, n) < Pow2(n)
  {
    if n > 0 { RevBound(w, n - 1); }
  }

  /** A shorter reading is the longer one without its last bits. */
  lemma {:induction false} RevPrefix(w: nat, l: nat, n: nat)
    requires l <= n
    ensures Rev(w, l) == Shr(Rev(w, n), n - l)
  {
    if l < n {
      RevPrefix(w, l, n - 1);
      assert Rev(w, n) / 2 == Rev(w, n - 1);
    }
  }

  /** Bits beyond the first `n` do not matter. */
  lemma {:induction false} RevLow(w: nat, l: nat, n: nat)
    requires l <= n
    ensures Rev(Low(w, n), l) == Rev(w, l)
  {
    if l > 0 {
      RevLow(w, l - 1, n);
      LowBits(w, l - 1, n);
    }
  }

  /** The first bit read comes out on top. */
  lemma {:induction false} RevCons(w: nat, n: nat)
    ensures Rev(w, n + 1) == Shl(w % 2, n) + Rev(w / 2, n)
  {
    if n > 0 { RevCons(w, n - 1); }
  }

  /** Reading `n` bits twice gives them back. */
  lemma {:induction false} RevRev(w: nat, n: nat)
    ensures Rev(Rev(w, n), n) == Low(w, n)
  {
    if n > 0 {
      var b, y := w % 2, Rev(w / 2, n - 1);
      RevCons(w, n - 1);
      RevBound(w / 2, n - 1);
      RevOfSum(b, y, n - 1);
      RevRev(w / 2, n - 1);
    }
  }

  /** The reading of a number with `b` above its first `n` bits. */
  lemma RevOfSum(b: nat, y: nat, n: nat)
    requires b < 2 && y < Pow2(n)
    ensures Rev(Shl(b, n) + y, n + 1) == 2 * Rev(y, n) + b
  {
    var v := Shl(b, n) + y;
    Above(b, y, n);
    RevLow(v, n, n);
  }

  /** One reads `v` from `j` exactly when `j` starts with the reverse of `v`. */
  lemma RevInverse(j: nat, v: nat, n: nat)
    requires v < Pow2(n)
    ensures Low(j, n) == Rev(v, n) <==> Rev(j, n) == v
  {
    RevRev(j, n);
    RevRev(v, n);
    RevLow(j, n, n);
    SplitLow(v, n);
  }

  lemma Pow2Values()
    ensures Pow2(7) == 128 && Pow2(8) == 256 && Pow2(9) == 512 && Pow2(15) == 32768 && Pow2(16) == 65536
    ensures Pow2(32) == 0x1_0000_0000
  {
    assert Pow2(4) == 16 && Pow2(12) == 4096 && Pow2(20) == 0x10_0000 && Pow2(28) == 0x1000_0000;
  }
}
