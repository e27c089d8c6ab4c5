/** The canonical prefix code of section 3.2.2 of RFC 1951, given by its list of code lengths. */
module CanonicalCode {
  import opened Bits

  const MAX_BITS: nat := 15

  ghost predicate CodeLengths(lens: seq<nat>) {
    |lens| <= 288 && forall i :: 0 <= i < |lens| ==> lens[i] <= MAX_BITS
  }

  /** How many of the first `n` symbols have length `l`. */
  function Count(lens: seq<nat>, l: nat, n: nat): (r: nat)
    requires n <= |lens|
    ensures r <= n
  {
    if n == 0 then 0 else Count(lens, l, n - 1) + if lens[n - 1] == l then 1 else 0
  }

  function Size(lens: seq<nat>, l: nat): nat { Count(lens, l, |lens|) }

  /** The first codeword of length `l`, and the bound of the codewords of that length. */
  function First(lens: seq<nat>, l: nat): nat
    decreases l, 0
  {
    if l <= 1 then 0 else 2 * End(lens, l - 1)
  }

  function End(lens: seq<nat>, l: nat): nat
    decreases l, 1
  {
    First(lens, l) + Size(lens, l)
  }

  /** The codeword of a symbol. */
  function Code(lens: seq<nat>, sym: nat): nat
    requires sym < |lens|
  {
    First(lens, lens[sym]) + Count(lens, lens[sym], sym)
  }

  /** The codeword of `sym` comes next in the bit buffer `w`. */
  predicate Matches(lens: seq<nat>, sym: nat, w: nat) {
    sym < |lens| && lens[sym] > 0 && Rev(w, lens[sym]) == Code(lens, sym)
  }

  /** No length has more codewords than there is room for. */
  ghost predicate Fits(lens: seq<nat>) {
    forall l :: 1 <= l <= MAX_BITS ==> End(lens, l) <= Pow2(l)
  }

  /** The position of a symbol when symbols are sorted by length and then by value. */
  function FirstSym(lens: seq<nat>, l: nat): nat { if l <= 1 then 0 else FirstSym(lens, l - 1) + Size(lens, l - 1) }
  function Place(lens: seq<nat>, sym: nat): nat
    requires sym < |lens|
  {
    FirstSym(lens, lens[sym]) + Count(lens, lens[sym], sym)
  }

  // --- counting ---

  lemma {:induction false} CountMonotone(lens: seq<nat>, l: nat, m: nat, n: nat)
    requires m <= n <= |lens|
    ensures Count(lens, l, m) <= Count(lens, l, n)
    ensures m < n && lens[m] == l ==> Count(lens, l, m) < Count(lens, l, n)
    decreases n
  {
    if m < n {
      CountMonotone(lens, l, m, n - 1);
    }
  }

  /** The symbol of a given rank among those of one length. */
  lemma {:induction false} Select(lens: seq<nat>, l: nat, r: nat, n: nat) returns (sym: nat)
    requires n <= |lens| && r < Count(lens, l, n)
    ensures sym < n && lens[sym] == l && Count(lens, l, sym) == r
  {
    if Count(lens, l, n - 1) == r { sym := n - 1; } else { sym := Select(lens, l, r, n - 1); }
  }

  lemma CodeInRange(lens: seq<nat>, sym: nat)
    requires sym < |lens|
    ensures First(lens, lens[sym]) <= Code(lens, sym) < End(lens, lens[sym])
  {
    CountMonotone(lens, lens[sym], sym, |lens|);
  }

  lemma {:induction false} CountAll(lens: seq<nat>, n: nat)
    requires CodeLengths(lens) && n <= |lens|
    ensures Total(lens, n, MAX_BITS + 1) <= n
  {
    TotalStep(lens, n, MAX_BITS + 1);
    if n > 0 { CountAll(lens, n - 1); }
  }

  /** The symbols among the first `n` with a length from 1 to below `l`. */
  function Total(lens: seq<nat>, n: nat, l: nat): nat
    requires n <= |lens|
  {
    if l <= 1 then 0 else Total(lens, n, l - 1) + Count(lens, l - 1, n)
  }

  lemma {:induction false} TotalStep(lens: seq<nat>, n: nat, l: nat)
    requires n <= |lens|
    ensures Total(lens, 0, l) == 0
    ensures n > 0 ==> Total(lens, n, l) == Total(lens, n - 1, l) + if 1 <= lens[n - 1] < l then 1 else 0
  {
    if l > 1 { TotalStep(lens, n, l - 1); }
  }

  lemma {:induction false} FirstSymIsTotal(lens: seq<nat>, l: nat)
    ensures FirstSym(lens, l) == Total(lens, |lens|, l)
  {
    if l > 1 { FirstSymIsTotal(lens, l - 1); }
  }

  lemma {:induction false} FirstSymMonotone(lens: seq<nat>, l: nat, m: nat)
    requires 1 <= l < m
    ensures FirstSym(lens, l) + Size(lens, l) <= FirstSym(lens, m)
    decreases m
  {
    if l < m - 1 { FirstSymMonotone(lens, l, m - 1); }
  }

  /** Places are within the list and no two symbols share one. */
  lemma PlacesDistinct(lens: seq<nat>, a: nat, b: nat)
    requires CodeLengths(lens) && a < |lens| && b < |lens| && lens[a] > 0 && lens[b] > 0
    ensures Place(lens, a) < |lens|
    ensures Place(lens, a) == Place(lens, b) ==> a == b
  {
    CountMonotone(lens, lens[a], a, |lens|);
    CountMonotone(lens, lens[b], b, |lens|);
    FirstSymMonotone(lens, lens[a], MAX_BITS + 1);
    FirstSymIsTotal(lens, MAX_BITS + 1);
    CountAll(lens, |lens|);
    if lens[a] < lens[b] { FirstSymMonotone(lens, lens[a], lens[b]); }
    if lens[b] < lens[a] { FirstSymMonotone(lens, lens[b], lens[a]); }
    if lens[a] == lens[b] {
      if a < b { CountMonotone(lens, lens[a], a, b); }
      if b < a { CountMonotone(lens, lens[a], b, a); }
    }
  }

  // --- reading ---

  /** Once the reading is below the bound of a length it stays below the codewords of greater lengths. */
  lemma {:induction false} StaysBelow(lens: seq<nat>, w: nat, l: nat, m: nat)
    requires 1 <= l < m && Rev(w, l) < End(lens, l)
    ensures Rev(w, m) < First(lens, m)
    decreases m
  {
    if l < m - 1 { StaysBelow(lens, w, l, m - 1); }
  }

  /** While it is not below the bounds it is not below the next codewords either. */
  lemma ReachesFirst(lens: seq<nat>, w: nat, l: nat)
    requires l >= 1 && (l > 1 ==> Rev(w, l - 1) >= End(lens, l - 1))
    ensures Rev(w, l) >= First(lens, l)
  {
  }

  /** The code is prefix-free: at most one codeword comes next. */
  lemma PrefixFree(lens: seq<nat>, a: nat, b: nat, w: nat)
    requires Matches(lens, a, w) && Matches(lens, b, w)
    ensures a == b
  {
    CodeInRange(lens, a);
    CodeInRange(lens, b);
    if lens[a] < lens[b] { StaysBelow(lens, w, lens[a], lens[b]); }
    if lens[b] < lens[a] { StaysBelow(lens, w, lens[b], lens[a]); }
    if lens[a] == lens[b] {
      if a < b { CountMonotone(lens, lens[a], a, b); }
      if b < a { CountMonotone(lens, lens[a], b, a); }
    }
  }

  /** If the reading is below the bound of some length, a codeword of at most that length comes next. */
  lemma {:induction false} SomeMatch(lens: seq<nat>, w: nat, l: nat) returns (sym: nat)
    requires l >= 1 && Rev(w, l) < End(lens, l)
    ensures Matches(lens, sym, w) && lens[sym] <= l
    decreases l
  {
    if l > 1 && Rev(w, l - 1) < End(lens, l - 1) {
      sym := SomeMatch(lens, w, l - 1);
    } else {
      ReachesFirst(lens, w, l);
      sym := Select(lens, l, Rev(w, l) - First(lens, l), |lens|);
    }
  }

  /** A codeword comes next exactly when the reading is below the bound of the greatest length. */
  lemma MatchExists(lens: seq<nat>, w: nat)
    requires CodeLengths(lens)
    ensures (exists sym: nat :: Matches(lens, sym, w)) <==> Rev(w, MAX_BITS) < End(lens, MAX_BITS)
  {
    if Rev(w, MAX_BITS) < End(lens, MAX_BITS) {
      var sym := SomeMatch(lens, w, MAX_BITS);
    }
    if sym: nat :| Matches(lens, sym, w) {
      CodeInRange(lens, sym);
      if lens[sym] < MAX_BITS { StaysBelow(lens, w, lens[sym], MAX_BITS); }
    }
  }

  // --- Kraft's inequality ---

  /** The share of the code space the first `n` symbols use, in units of 2^-15. */
  function Kraft(lens: seq<nat>, n: nat): nat
    requires n <= |lens|
  {
    if n == 0 then 0
    else Kraft(lens, n - 1) + if 1 <= lens[n - 1] <= MAX_BITS then Pow2(MAX_BITS - lens[n - 1]) else 0
  }

  /** The same, counted by lengths up to `l`. */
  function KraftByLength(lens: seq<nat>, n: nat, l: nat): nat
    requires n <= |lens| && l <= MAX_BITS
  {
    if l == 0 then 0 else KraftByLength(lens, n, l - 1) + Shl(Count(lens, l, n), MAX_BITS - l)
  }

  lemma {:induction false} KraftStep(lens: seq<nat>, n: nat, l: nat)
    requires n <= |lens| && l <= MAX_BITS
    ensures KraftByLength(lens, 0, l) == 0
    ensures n > 0 ==> KraftByLength(lens, n, l) == KraftByLength(lens, n - 1, l)
                                                   + if 1 <= lens[n - 1] <= l then Pow2(MAX_BITS - lens[n - 1]) else 0
  {
    if l > 0 {
      KraftStep(lens, n, l - 1);
      ShlZero(MAX_BITS - l);
      if n > 0 && lens[n - 1] == l {
        ShlSum(Count(lens, l, n - 1), 1, MAX_BITS - l);
        ShlPow2(MAX_BITS - l);
      }
    }
  }

  lemma {:induction false} KraftCountedTwice(lens: seq<nat>, n: nat)
    requires n <= |lens|
    ensures Kraft(lens, n) == KraftByLength(lens, n, MAX_BITS)
  {
    KraftStep(lens, n, MAX_BITS);
    if n > 0 { KraftCountedTwice(lens, n - 1); }
  }

  lemma {:induction false} KraftIsEnd(lens: seq<nat>, l: nat)
    requires 1 <= l <= MAX_BITS
    ensures KraftByLength(lens, |lens|, l) == Shl(End(lens, l), MAX_BITS - l)
  {
    ShlSum(First(lens, l), Size(lens, l), MAX_BITS - l);
    if l == 1 {
      ShlZero(MAX_BITS - 1);
    } else {
      KraftIsEnd(lens, l - 1);
      DoubleFirst(End(lens, l - 1), MAX_BITS - l);
    }
  }

  lemma {:induction false} DoubleFirst(w: nat, n: nat)
    ensures Shl(2 * w, n) == Shl(w, n + 1)
  {
    if n > 0 { DoubleFirst(w, n - 1); }
  }

  /** The codewords of one length fit if those of the next length do. */
  lemma {:induction false} FitsDownTo(lens: seq<nat>, l: nat)
    requires 1 <= l <= MAX_BITS && End(lens, MAX_BITS) <= Pow2(MAX_BITS)
    ensures End(lens, l) <= Pow2(l)
    decreases MAX_BITS - l
  {
    if l < MAX_BITS { FitsDownTo(lens, l + 1); }
  }

  /** A list of code lengths fits exactly when it meets Kraft's inequality. */
  lemma FitsIsKraft(lens: seq<nat>)
    ensures Fits(lens) <==> Kraft(lens, |lens|) <= Pow2(MAX_BITS)
  {
    KraftCountedTwice(lens, |lens|);
    KraftIsEnd(lens, MAX_BITS);
    if End(lens, MAX_BITS) <= Pow2(MAX_BITS) {
      forall l | 1 <= l <= MAX_BITS ensures End(lens, l) <= Pow2(l) { FitsDownTo(lens, l); }
    }
  }
}
