/** The Huffman tables of the inflate decoder (osd/stb_image.h): the builder fills a nine-bit fast table and
    the tables of the slow path in place; decoding by either is the canonical code. */
module Huffman {
  import opened Bits
  import opened BitReversal
  import opened CanonicalCode

  const FAST_BITS: nat := 9
  const FAST_SIZE: nat := 512

  /** `n & 0xffff` */
  function U16(n: nat): nat { n % 0x1_0000 }

  /** Reversal of the low `bits` bits of `v`, as a reversal of sixteen bits shifted down. */
  function BitReverse(v: nat, bits: nat): nat
    requires bits <= 16
  {
    Shr(BitReverse16(v), 16 - bits)
  }

  /** Reversing the low bits reads them as a codeword. */
  lemma ReverseIsReading(v: nat, bits: nat)
    requires bits <= 16
    ensures BitReverse(v, bits) == Rev(v, bits)
  {
    hide BitReverse16;
    SwapsReverse(v);
    RevPrefix(v, bits, 16);
  }

  /** What a fast table of the first `n` symbols holds at position `j`. */
  ghost predicate FastEntry(lens: seq<nat>, n: nat, j: nat, entry: nat)
    requires n <= |lens|
  {
    && (forall sym: nat | sym < n :: Matches(lens, sym, j) && lens[sym] <= FAST_BITS ==> entry == lens[sym] * 512 + sym)
    && (entry != 0 ==> exists sym: nat :: sym < n && Matches(lens, sym, j) && lens[sym] <= FAST_BITS)
  }

  class Table {
    const fast: array<nat>
    const firstcode: array<nat>
    const maxcode: array<nat>
    const firstsymbol: array<nat>
    const size: array<nat>
    const value: array<nat>

    ghost predicate Apart(a: array<nat>) {
      a != fast && a != firstcode && a != maxcode && a != firstsymbol && a != size && a != value
    }

    constructor ()
      ensures Shaped()
      ensures fresh(fast) && fresh(firstcode) && fresh(maxcode) && fresh(firstsymbol) && fresh(size) && fresh(value)
    {
      fast := new nat[FAST_SIZE];
      firstcode := new nat[16];
      maxcode := new nat[17];
      firstsymbol := new nat[16];
      size := new nat[288];
      value := new nat[288];
    }

    ghost predicate Shaped() {
      && fast.Length == FAST_SIZE && firstcode.Length == 16 && maxcode.Length == 17
      && firstsymbol.Length == 16 && size.Length == 288 && value.Length == 288
      && firstcode != firstsymbol && size != value && fast != firstcode && fast != maxcode && fast != firstsymbol
      && fast != size && fast != value && firstcode != maxcode && firstcode != size && firstcode != value
      && maxcode != firstsymbol && maxcode != size && maxcode != value && firstsymbol != size && firstsymbol != value
    }

    /** The per-length tables hold the canonical code up to below length `l`. */
    ghost predicate Levels(lens: seq<nat>, l: nat)
      requires Shaped() && l <= 16
      reads firstcode, maxcode, firstsymbol
    {
      forall i :: 1 <= i < l ==>
        && firstcode[i] == First(lens, i) && firstsymbol[i] == FirstSym(lens, i)
        && maxcode[i] == Shl(End(lens, i), 16 - i)
    }

    /** The per-symbol tables hold the first `n` symbols. */
    ghost predicate Sorted(lens: seq<nat>, n: nat)
      requires Shaped() && n <= |lens|
      reads size, value
    {
      forall sym :: 0 <= sym < n && lens[sym] > 0 ==>
        Place(lens, sym) < 288 && size[Place(lens, sym)] == lens[sym] && value[Place(lens, sym)] == sym
    }

    /** The fast table holds the first `n` symbols. */
    ghost predicate Quick(lens: seq<nat>, n: nat)
      requires Shaped() && n <= |lens|
      reads fast
    {
      forall j :: 0 <= j < FAST_SIZE ==> FastEntry(lens, n, j, fast[j])
    }

    /** The table is that of the canonical code of `lens`. */
    ghost predicate Represents(lens: seq<nat>)
      reads fast, firstcode, maxcode, firstsymbol, size, value
    {
      && Shaped() && CodeLengths(lens) && Fits(lens)
      && Levels(lens, 16) && maxcode[16] == 0x1_0000 && Sorted(lens, |lens|) && Quick(lens, |lens|)
    }

    /** Builds the table; refuses exactly the lists of lengths that break Kraft's inequality. */
    method Build(lens: seq<nat>) returns (ok: bool)
      requires Shaped() && CodeLengths(lens)
      modifies fast, firstcode, maxcode, firstsymbol, size, value
      ensures ok ==> Represents(lens)
      ensures ok <==> Kraft(lens, |lens|) <= Pow2(MAX_BITS)
    {
      FitsIsKraft(lens);
      var sizes := CountSizes(lens);
      ClearFast();
      ok := SizesFit(lens, sizes);
      if !ok { return; }
      var nextCode;
      ok, nextCode := AssignCodes(lens, sizes);
      if !ok { return; }
      maxcode[16] := 0x1_0000;
      EnterSymbols(lens, nextCode);
    }

    /** Enters every symbol that has a codeword in the slow tables, and the short ones in the fast table. */
    method EnterSymbols(lens: seq<nat>, nextCode: array<nat>)
      requires Shaped() && CodeLengths(lens) && Fits(lens) && Levels(lens, 16)
      requires nextCode.Length == 16 && Apart(nextCode)
      requires forall l :: 1 <= l < 16 ==> nextCode[l] == First(lens, l)
      requires forall j :: 0 <= j < FAST_SIZE ==> fast[j] == 0
      modifies fast, size, value, nextCode
      ensures Sorted(lens, |lens|) && Quick(lens, |lens|)
    {
      hide First, FirstSym, Matches, Code, Pow2, Place;
      var i := 0;
      while i < |lens|
        invariant 0 <= i <= |lens|
        invariant Sorted(lens, i) && Quick(lens, i)
        invariant forall l :: 1 <= l < 16 ==> nextCode[l] == First(lens, l) + Count(lens, l, i)
        modifies fast, size, value, nextCode
      {
        var s := lens[i];
        if s != 0 {
          CodeIsNext(lens, i);
          PlaceSymbol(lens, i, nextCode[s]);
          if s <= FAST_BITS {
            SpeedSymbol(lens, i, nextCode[s]);
          } else {
            PassSymbol(lens, i);
          }
          nextCode[s] := nextCode[s] + 1;
        } else {
          PassSymbol(lens, i);
        }
        i := i + 1;
      }
    }

    lemma CodeIsNext(lens: seq<nat>, i: nat)
      requires i < |lens|
      ensures Code(lens, i) == First(lens, lens[i]) + Count(lens, lens[i], i)
    {
    }

    /** A symbol without a codeword or with a long one changes nothing in the fast table. */
    lemma PassSymbol(lens: seq<nat>, i: nat)
      requires Shaped() && i < |lens| && (lens[i] == 0 || lens[i] > FAST_BITS) && Quick(lens, i)
      ensures Quick(lens, i + 1)
    {
      forall j: nat | j < FAST_SIZE ensures FastEntry(lens, i + 1, j, fast[j]) {
        assert FastEntry(lens, i, j, fast[j]);
      }
    }

    method ClearFast()
      requires Shaped()
      modifies fast
      ensures forall j :: 0 <= j < FAST_SIZE ==> fast[j] == 0
    {
      var i := 0;
      while i < FAST_SIZE
        invariant 0 <= i <= FAST_SIZE
        invariant forall j :: 0 <= j < i ==> fast[j] == 0
      {
        fast[i] := 0;
        i := i + 1;
      }
    }

    /** The first codeword of each length, or a refusal when a length has more codewords than fit. */
    method AssignCodes(lens: seq<nat>, sizes: seq<nat>) returns (ok: bool, nextCode: array<nat>)
      requires Shaped() && CodeLengths(lens)
      requires |sizes| == 17 && forall l :: 1 <= l < 16 ==> sizes[l] == Size(lens, l)
      modifies firstcode, maxcode, firstsymbol
      ensures fresh(nextCode) && nextCode.Length == 16 && Apart(nextCode)
      ensures ok <==> Fits(lens)
      ensures ok ==> Levels(lens, 16) && forall l :: 1 <= l < 16 ==> nextCode[l] == First(lens, l)
    {
      hide First, End, FirstSym, Pow2, Shl, Size, CodeLengths;
      nextCode := new nat[16];
      LevelStep(lens, 0);
      var code, k, i := 0, 0, 1;
      while i < 16
        invariant 1 <= i <= 16
        invariant code == First(lens, i) && k == FirstSym(lens, i)
        invariant forall l :: 1 <= l < i ==> End(lens, l) <= Pow2(l)
        invariant forall l :: 1 <= l < i ==> nextCode[l] == First(lens, l)
        invariant Levels(lens, i)
        modifies firstcode, maxcode, firstsymbol, nextCode
      {
        FitsSixteenBits(lens, i);
        LevelStep(lens, i);
        nextCode[i] := code;
        firstcode[i] := U16(code);
        firstsymbol[i] := U16(k);
        code := code + sizes[i];
        if sizes[i] != 0 && code - 1 >= Shl(1, i) {
          assert End(lens, i) > Pow2(i);
          return false, nextCode;
        }
        maxcode[i] := Shl(code, 16 - i);
        code := 2 * code;
        k := k + sizes[i];
        i := i + 1;
      }
      ok := true;
    }

    /** Enters one symbol at its place in the slow tables. */
    method PlaceSymbol(lens: seq<nat>, i: nat, code: nat)
      requires Shaped() && CodeLengths(lens) && i < |lens| && lens[i] > 0
      requires Levels(lens, 16) && Sorted(lens, i) && code == Code(lens, i)
      modifies size, value
      ensures Sorted(lens, i + 1)
    {
      PlacesDistinct(lens, i, i);
      var c := code - firstcode[lens[i]] + firstsymbol[lens[i]];
      size[c] := lens[i];
      value[c] := i;
      forall sym: nat | sym < i && lens[sym] > 0 ensures Place(lens, sym) != Place(lens, i) {
        PlacesDistinct(lens, sym, i);
      }
    }

    /** Enters a short symbol at every fast position that starts with its codeword. */
    method SpeedSymbol(lens: seq<nat>, i: nat, code: nat)
      requires Shaped() && CodeLengths(lens) && Fits(lens) && i < |lens| && 0 < lens[i] <= FAST_BITS
      requires Quick(lens, i) && code == Code(lens, i)
      modifies fast
      ensures Quick(lens, i + 1)
    {
      hide FastEntry, BitReverse, U16, Code;
      var s := lens[i];
      ShortEntry(lens, i);
      FillFast(s, BitReverse(code, s), U16(s * 512 + i));
      forall j: nat | j < FAST_SIZE ensures FastEntry(lens, i + 1, j, fast[j]) {
        OneMoreEntry(lens, i, j, old(fast[j]));
      }
    }

    /** Enters a value at every position whose low `s` bits are `start`. */
    method FillFast(s: nat, start: nat, entry: nat)
      requires fast.Length == FAST_SIZE && s <= FAST_BITS && start < Pow2(s)
      modifies fast
      ensures forall j :: 0 <= j < FAST_SIZE ==>
                fast[j] == if Low(j, s) == start then entry else old(fast[j])
    {
      SplitLow(start, s);
      var j := start;
      ShlPow2(s);
      forall x: nat | x < j ensures Low(x, s) != start { NextAlike(x, j, s); }
      while j < FAST_SIZE
        invariant Low(j, s) == start
        invariant forall x :: 0 <= x < FAST_SIZE ==>
          fast[x] == if x < j && Low(x, s) == start then entry else old(fast[x])
      {
        fast[j] := entry;
        forall x: nat | j < x < j + Shl(1, s) ensures Low(x, s) != start { NextAlike(j, x, s); }
        NextIsAlike(j, s);
        j := j + Shl(1, s);
      }
    }
  }

  /** The start and the value of a short symbol's fast positions. */
  lemma ShortEntry(lens: seq<nat>, i: nat)
    requires CodeLengths(lens) && i < |lens| && lens[i] <= FAST_BITS
    ensures BitReverse(Code(lens, i), lens[i]) == Rev(Code(lens, i), lens[i]) < Pow2(lens[i])
    ensures U16(lens[i] * 512 + i) == lens[i] * 512 + i
  {
    hide BitReverse, Code;
    ReverseIsReading(Code(lens, i), lens[i]);
    RevBound(Code(lens, i), lens[i]);
  }

  /** A symbol claims the fast positions that start with its codeword, and no other symbol has claimed them before. */
  lemma OneMoreEntry(lens: seq<nat>, i: nat, j: nat, entry: nat)
    requires i < |lens| && 0 < lens[i] <= FAST_BITS && Fits(lens) && FastEntry(lens, i, j, entry)
    ensures FastEntry(lens, i + 1, j,
                      if Low(j, lens[i]) == Rev(Code(lens, i), lens[i]) then lens[i] * 512 + i else entry)
  {
    CodeInRange(lens, i);
    RevInverse(j, Code(lens, i), lens[i]);
    if Matches(lens, i, j) {
      forall sym: nat | sym < |lens| && Matches(lens, sym, j) ensures sym == i {
        PrefixFree(lens, sym, i, j);
      }
    }
  }

  /** The first check of the builder, length by length. */
  method SizesFit(lens: seq<nat>, sizes: seq<nat>) returns (ok: bool)
    requires |sizes| == 17 && forall l :: 1 <= l < 16 ==> sizes[l] == Size(lens, l)
    ensures Fits(lens) ==> ok
  {
    var i := 1;
    while i < 16
      invariant 1 <= i <= 16
    {
      ShlPow2(i);
      if sizes[i] > Shl(1, i) {
        assert End(lens, i) > Pow2(i);
        return false;
      }
      i := i + 1;
    }
    return true;
  }

  /** Numbers with the same low bits are a power of two apart. */
  lemma NextAlike(a: nat, b: nat, s: nat)
    ensures a < b && Low(a, s) == Low(b, s) ==> a + Shl(1, s) <= b
  {
    SplitLow(a, s);
    SplitLow(b, s);
    if Shr(b, s) <= Shr(a, s) {
      ShlMonotone(Shr(b, s), Shr(a, s), s);
    } else {
      ShlMonotone(Shr(a, s) + 1, Shr(b, s), s);
      ShlSum(Shr(a, s), 1, s);
    }
  }

  lemma NextIsAlike(a: nat, s: nat)
    ensures Low(a + Shl(1, s), s) == Low(a, s)
  {
    SplitLow(a, s);
    ShlSum(Shr(a, s), 1, s);
    Above(Shr(a, s) + 1, Low(a, s), s);
  }

  /** From one length to the next. */
  lemma LevelStep(lens: seq<nat>, l: nat)
    ensures l >= 1 ==> First(lens, l + 1) == 2 * End(lens, l) && FirstSym(lens, l + 1) == FirstSym(lens, l) + Size(lens, l)
    ensures l == 0 ==> First(lens, l + 1) == 0 && FirstSym(lens, l + 1) == 0
    ensures End(lens, l) == First(lens, l) + Size(lens, l) && Shl(1, l) == Pow2(l)
  {
    ShlPow2(l);
  }

  lemma FitsSixteenBits(lens: seq<nat>, i: nat)
    requires CodeLengths(lens) && 1 <= i < 16
    requires forall l :: 1 <= l < i ==> End(lens, l) <= Pow2(l)
    ensures First(lens, i) <= Pow2(i) < 0x1_0000 && FirstSym(lens, i) < 0x1_0000
  {
    Pow2Values();
    Pow2Monotone(i, 15);
    FirstSymIsTotal(lens, 16);
    CountAll(lens, |lens|);
    FirstSymMonotone(lens, i, 16);
  }

  method CountSizes(lens: seq<nat>) returns (sizes: seq<nat>)
    requires CodeLengths(lens)
    ensures |sizes| == 17 && sizes[0] == 0 && forall l :: 1 <= l < 16 ==> sizes[l] == Size(lens, l)
  {
    var a := new nat[17](_ => 0);
    var i := 0;
    while i < |lens|
      invariant 0 <= i <= |lens|
      invariant forall l :: 0 <= l < 17 ==> a[l] == Count(lens, l, i)
    {
      a[lens[i]] := a[lens[i]] + 1;
      i := i + 1;
    }
    a[0] := 0;
    sizes := a[..];
  }

  // --- reading with the tables ---

  /** What the fast table says about the input `w`. */
  lemma FastFound(lens: seq<nat>, w: nat, entry: nat)
    requires CodeLengths(lens) && FastEntry(lens, |lens|, Low(w, FAST_BITS), entry)
    ensures entry != 0 ==>
              var sym := entry % 512; Matches(lens, sym, w) && lens[sym] == entry / 512 && lens[sym] <= FAST_BITS
    ensures entry == 0 ==> Rev(w, FAST_BITS) >= End(lens, FAST_BITS)
  {
    hide Matches, Low, Rev, End, First;
    var j := Low(w, FAST_BITS);
    if entry != 0 {
      var sym: nat :| sym < |lens| && Matches(lens, sym, j) && lens[sym] <= FAST_BITS;
      LowMatches(lens, sym, w);
      Unpack(lens[sym], sym);
    } else if Rev(w, FAST_BITS) < End(lens, FAST_BITS) {
      var sym := SomeMatch(lens, w, FAST_BITS);
      LowMatches(lens, sym, w);
    }
  }

  lemma Unpack(l: nat, sym: nat)
    requires sym < 512
    ensures (l * 512 + sym) / 512 == l && (l * 512 + sym) % 512 == sym
  {
  }

  /** Nine bits decide whether a short codeword comes next. */
  lemma LowMatches(lens: seq<nat>, sym: nat, w: nat)
    requires sym < |lens| && lens[sym] <= FAST_BITS
    ensures Matches(lens, sym, Low(w, FAST_BITS)) <==> Matches(lens, sym, w)
  {
    RevLow(w, lens[sym], FAST_BITS);
  }

  /** The comparison of the slow path, against bounds shifted up to sixteen bits. */
  lemma SlowCompare(lens: seq<nat>, w: nat, s: nat)
    requires 1 <= s < 16
    ensures Rev(w, 16) < Shl(End(lens, s), 16 - s) <==> Rev(w, s) < End(lens, s)
    ensures Shr(Rev(w, 16), 16 - s) == Rev(w, s)
  {
    RevPrefix(w, s, 16);
    ShiftCompare(Rev(w, 16), End(lens, s), 16 - s);
  }

  /** The symbol at the place the slow path computes. */
  lemma SlowFound(lens: seq<nat>, w: nat, s: nat) returns (sym: nat)
    requires CodeLengths(lens) && 1 < s < 16 && Rev(w, s - 1) >= End(lens, s - 1) && Rev(w, s) < End(lens, s)
    ensures Matches(lens, sym, w) && lens[sym] == s
    ensures First(lens, s) <= Rev(w, s) && Place(lens, sym) == Rev(w, s) - First(lens, s) + FirstSym(lens, s) < 288
  {
    ReachesFirst(lens, w, s);
    sym := Select(lens, s, Rev(w, s) - First(lens, s), |lens|);
    PlacesDistinct(lens, sym, sym);
  }
}
