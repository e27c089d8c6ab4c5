/** Sections 3.2.3 and 3.2.5 of RFC 1951: what the compressed bits of a block stand for. */
module Lz77 {
  import opened Prelude
  import opened Bits
  import opened CanonicalCode


  datatype Token = Literal(value: byte) | Copy(length: nat, distance: nat)

  /** The next element of a block and the number of bits it takes. */
  datatype Element = Emit(token: Token, bits: nat) | Stop(bits: nat) | Bad {
    function Width(): nat { if Bad? then 0 else bits }
  }

  const END_OF_BLOCK: nat := 256
  const LENGTH_BASE: seq<nat> :=
    [3, 4, 5, 6, 7, 8, 9, 10, 11, 13, 15, 17, 19, 23, 27, 31, 35, 43, 51, 59,
     67, 83, 99, 115, 131, 163, 195, 227, 258, 0, 0]
  const LENGTH_EXTRA: seq<nat> :=
    [0, 0, 0, 0, 0, 0, 0, 0, 1, 1, 1, 1, 2, 2, 2, 2, 3, 3, 3, 3, 4, 4, 4, 4, 5, 5, 5, 5, 0, 0, 0]
  const DIST_BASE: seq<nat> :=
    [1, 2, 3, 4, 5, 7, 9, 13, 17, 25, 33, 49, 65, 97, 129, 193, 257, 385, 513, 769,
     1025, 1537, 2049, 3073, 4097, 6145, 8193, 12289, 16385, 24577, 0, 0]
  const DIST_EXTRA: seq<nat> :=
    [0, 0, 0, 0, 1, 1, 2, 2, 3, 3, 4, 4, 5, 5, 6, 6, 7, 7, 8, 8, 9, 9, 10, 10, 11, 11, 12, 12, 13, 13, 0, 0]

  // --- meaning ---

  /** The output after a copy, one byte at a time, so that a copy may read what it has just written. */
  function Repeat(out: seq<byte>, length: nat, distance: nat): (r: seq<byte>)
    requires 1 <= distance <= |out|
    ensures |r| == |out| + length
  {
    if length == 0 then out
    else
      var r := Repeat(out, length - 1, distance);
      r + [r[|r| - distance]]
  }

  function Apply(out: seq<byte>, t: Token): Option<seq<byte>> {
    match t
    case Literal(b) => Some(out + [b])
    case Copy(l, d) => if 1 <= d <= |out| then Some(Repeat(out, l, d)) else None
  }

  function Expand(out: seq<byte>, tokens: seq<Token>): Option<seq<byte>> {
    if tokens == [] then Some(out)
    else match Expand(out, tokens[..|tokens| - 1])
      case None => None
      case Some(o) => Apply(o, tokens[|tokens| - 1])
  }

  /** One byte more. */
  lemma RepeatMore(out: seq<byte>, length: nat, distance: nat)
    requires 1 <= distance <= |out|
    ensures Repeat(out, 0, distance) == out
    ensures var r := Repeat(out, length, distance); Repeat(out, length + 1, distance) == r + [r[|r| - distance]]
  {
  }

  /** A copy keeps what was there and repeats it with the period of the distance. */
  lemma {:induction false} RepeatIsPeriodic(out: seq<byte>, length: nat, distance: nat)
    requires 1 <= distance <= |out|
    ensures Repeat(out, length, distance)[..|out|] == out
    ensures forall i :: |out| <= i < |out| + length ==>
              Repeat(out, length, distance)[i] == Repeat(out, length, distance)[i - distance]
  {
    if length > 0 { RepeatIsPeriodic(out, length - 1, distance); }
  }

  // --- reading ---

  ghost function NextSymbol(lens: seq<nat>, w: nat): (r: Option<nat>)
    ensures r.Some? ==> Matches(lens, r.value, w)
    ensures r.None? <==> forall sym: nat :: !Matches(lens, sym, w)
  {
    if sym: nat :| Matches(lens, sym, w) then Some(sym) else None
  }

  /** A codeword that comes next is the next symbol: the code is prefix-free. */
  lemma NextSymbolIs(lens: seq<nat>, sym: nat, w: nat)
    requires Matches(lens, sym, w)
    ensures NextSymbol(lens, w) == Some(sym)
  {
    PrefixFree(lens, sym, NextSymbol(lens, w).value, w);
  }

  /** The table of lengths: the least length of a symbol and its number of extra bits. */
  function LengthBase(z: nat): (r: nat)
    requires z < 29
    ensures 3 <= r <= 258
  {
    LENGTH_BASE[z]
  }

  function LengthExtra(z: nat): (r: nat)
    requires z < 29
    ensures r <= 5
  {
    LENGTH_EXTRA[z]
  }

  /** The table of distances. */
  function DistBase(d: nat): (r: nat)
    requires d < 30
    ensures 1 <= r <= 24577
  {
    DIST_BASE[d]
  }

  function DistExtra(d: nat): (r: nat)
    requires d < 30
    ensures r <= 13
  {
    DIST_EXTRA[d]
  }

  ghost function NextElement(lit: seq<nat>, dist: seq<nat>, w: nat): Element {
    match NextSymbol(lit, w)
    case None => Bad
    case Some(s) =>
      if s < 256 then Emit(Literal(s as byte), lit[s])
      else if s == END_OF_BLOCK then Stop(lit[s])
      else if s >= 286 then Bad
      else NextCopy(dist, w, s - 257, lit[s])
  }

  /** The rest of a copy whose length symbol took the first `n` bits. */
  ghost function NextCopy(dist: seq<nat>, w: nat, z: nat, n: nat): Element
    requires z < 29
  {
    NextDistance(dist, w, LengthBase(z) + Low(Shr(w, n), LengthExtra(z)), n + LengthExtra(z))
  }

  /** The rest of a copy of a known length that took the first `n` bits. */
  ghost function NextDistance(dist: seq<nat>, w: nat, length: nat, n: nat): Element {
    match NextSymbol(dist, Shr(w, n))
    case None => Bad
    case Some(d) =>
      if d >= 30 then Bad
      else
        var k := n + dist[d];
        Emit(Copy(length, DistBase(d) + Low(Shr(w, k), DistExtra(d))), k + DistExtra(d))
  }

  /** The number of bits the tokens take when they are the first of what is ahead. */
  ghost function After(lit: seq<nat>, dist: seq<nat>, w: nat, tokens: seq<Token>): Option<nat> {
    if tokens == [] then Some(0)
    else match After(lit, dist, w, tokens[..|tokens| - 1])
      case None => None
      case Some(n) =>
        match NextElement(lit, dist, Shr(w, n))
        case Emit(t, bits) => if t == tokens[|tokens| - 1] then Some(n + bits) else None
        case _ => None
  }

  /** One more element. */
  lemma AfterMore(lit: seq<nat>, dist: seq<nat>, w: nat, tokens: seq<Token>, n: nat, next: Element)
    requires After(lit, dist, w, tokens) == Some(n) && next == NextElement(lit, dist, Shr(w, n)) && next.Emit?
    ensures After(lit, dist, w, tokens + [next.token]) == Some(n + next.bits)
    ensures Shr(w, n + next.bits) == Shr(Shr(w, n), next.bits)
  {
    hide NextElement;
    assert (tokens + [next.token])[..|tokens|] == tokens;
    ShrAdd(w, n, next.bits);
  }

  /** What is ahead starts with a block of exactly these tokens and this many bits. */
  ghost predicate IsBlock(lit: seq<nat>, dist: seq<nat>, w: nat, tokens: seq<Token>, bits: nat) {
    match After(lit, dist, w, tokens)
    case None => false
    case Some(n) => var e := NextElement(lit, dist, Shr(w, n)); e.Stop? && bits == n + e.bits
  }

  // --- what a block is, is unique ---

  /** Reading only part of the tokens. */
  lemma {:induction false} AfterPrefix(lit: seq<nat>, dist: seq<nat>, w: nat, tokens: seq<Token>, k: nat)
    requires After(lit, dist, w, tokens).Some? && k <= |tokens|
    ensures After(lit, dist, w, tokens[..k]).Some?
    ensures After(lit, dist, w, tokens[..k]).value <= After(lit, dist, w, tokens).value
    ensures k < |tokens| ==>
              var n := After(lit, dist, w, tokens[..k]).value;
              var e := NextElement(lit, dist, Shr(w, n));
              e.Emit? && e.token == tokens[k] && n + e.bits <= After(lit, dist, w, tokens).value
  {
    if k == |tokens| {
      assert tokens[..k] == tokens;
    } else {
      var shorter := tokens[..|tokens| - 1];
      AfterPrefix(lit, dist, w, shorter, k);
      assert tokens[..k] == shorter[..k];
    }
  }

  lemma {:induction false} ExpandPrefix(out: seq<byte>, tokens: seq<Token>, k: nat)
    requires Expand(out, tokens).Some? && k <= |tokens|
    ensures Expand(out, tokens[..k]).Some? && |Expand(out, tokens[..k]).value| <= |Expand(out, tokens).value|
    ensures k < |tokens| ==>
              var next := Apply(Expand(out, tokens[..k]).value, tokens[k]);
              next.Some? && |next.value| <= |Expand(out, tokens).value|
  {
    if k == |tokens| {
      assert tokens[..k] == tokens;
    } else {
      var shorter := tokens[..|tokens| - 1];
      ExpandPrefix(out, shorter, k);
      assert tokens[..k] == shorter[..k];
    }
  }

  /** Whatever can be read at the start of a block is the start of that block. */
  lemma {:induction false} StartOfBlock(lit: seq<nat>, dist: seq<nat>, w: nat, all: seq<Token>, size: nat, tokens: seq<Token>)
    requires IsBlock(lit, dist, w, all, size) && After(lit, dist, w, tokens).Some?
    ensures tokens <= all
  {
    hide NextElement;
    if tokens != [] {
      var shorter := tokens[..|tokens| - 1];
      StartOfBlock(lit, dist, w, all, size, shorter);
      var k := |shorter|;
      assert all[..k] == shorter;
      assert NextElement(lit, dist, Shr(w, After(lit, dist, w, shorter).value)).Emit?;
      assert all[..|all|] == all;
      AfterPrefix(lit, dist, w, all, k);
      assert tokens == all[..k + 1];
    }
  }

  /** After part of a block, the rest of it goes on within its bits and its expansion. */
  lemma InsideBlock(lit: seq<nat>, dist: seq<nat>, w: nat, out: seq<byte>, all: seq<Token>, size: nat,
                    tokens: seq<Token>, bits: nat)
    requires IsBlock(lit, dist, w, all, size) && After(lit, dist, w, tokens) == Some(bits)
    requires Expand(out, all).Some? && Expand(out, tokens).Some?
    ensures var next := NextElement(lit, dist, Shr(w, bits));
            && !next.Bad? && bits + next.Width() <= size
            && (next.Emit? ==> var r := Apply(Expand(out, tokens).value, next.token);
                               r.Some? && |r.value| <= |Expand(out, all).value|)
  {
    hide NextElement;
    StartOfBlock(lit, dist, w, all, size, tokens);
    assert all[..|tokens|] == tokens;
    AfterPrefix(lit, dist, w, all, |tokens|);
    ExpandPrefix(out, all, |tokens|);
    if |tokens| == |all| { assert tokens == all; }
  }

  /** A block has one reading. */
  lemma OneReading(lit: seq<nat>, dist: seq<nat>, w: nat, a: seq<Token>, m: nat, b: seq<Token>, n: nat)
    requires IsBlock(lit, dist, w, a, m) && IsBlock(lit, dist, w, b, n)
    ensures a == b && m == n
  {
    StartOfBlock(lit, dist, w, a, m, b);
    StartOfBlock(lit, dist, w, b, n, a);
  }

  // --- writing ---

  /** A symbol's codeword, first bit lowest, and then what follows it. */
  function Put(lens: seq<nat>, sym: nat, tail: nat): nat
    requires sym < |lens|
  {
    Rev(Code(lens, sym), lens[sym]) + Shl(tail, lens[sym])
  }

  lemma PutIsRead(lens: seq<nat>, sym: nat, tail: nat)
    requires CodeLengths(lens) && Fits(lens) && sym < |lens| && lens[sym] > 0
    ensures NextSymbol(lens, Put(lens, sym, tail)) == Some(sym) && Shr(Put(lens, sym, tail), lens[sym]) == tail
  {
    var l, c := lens[sym], Code(lens, sym);
    var w := Put(lens, sym, tail);
    CodeInRange(lens, sym);
    RevBound(c, l);
    Above(tail, Rev(c, l), l);
    RevInverse(w, c, l);
    NextSymbolIs(lens, sym, w);
  }

  /** The symbols and extra bits of a token. */
  datatype Coded = Lone(value: byte) | Back(z: nat, more: nat, d: nat, far: nat)

  ghost predicate Codable(lit: seq<nat>, dist: seq<nat>, c: Coded) {
    match c
    case Lone(b) => b as int < |lit| && lit[b as int] > 0
    case Back(z, more, d, far) =>
      && z < 29 && 257 + z < |lit| && lit[257 + z] > 0 && more < Pow2(LengthExtra(z))
      && d < 30 && d < |dist| && dist[d] > 0 && far < Pow2(DistExtra(d))
  }

  function Meaning(c: Coded): Token
    requires c.Back? ==> c.z < 29 && c.d < 30
  {
    match c
    case Lone(b) => Literal(b)
    case Back(z, more, d, far) => Copy(LengthBase(z) + more, DistBase(d) + far)
  }

  /** The bits of a token and then what follows. */
  ghost function Write(lit: seq<nat>, dist: seq<nat>, c: Coded, tail: nat): nat
    requires Codable(lit, dist, c)
  {
    match c
    case Lone(b) => Put(lit, b as int, tail)
    case Back(z, more, d, far) =>
      Put(lit, 257 + z, more + Shl(Put(dist, d, far + Shl(tail, DistExtra(d))), LengthExtra(z)))
  }

  /** A written token is read back, with what follows it. */
  lemma TokenRoundTrip(lit: seq<nat>, dist: seq<nat>, c: Coded, tail: nat)
    requires CodeLengths(lit) && Fits(lit) && CodeLengths(dist) && Fits(dist) && Codable(lit, dist, c)
    ensures var e := NextElement(lit, dist, Write(lit, dist, c, tail));
            e.Emit? && e.token == Meaning(c) && Shr(Write(lit, dist, c, tail), e.bits) == tail
  {
    match c
    case Lone(b) => PutIsRead(lit, b as int, tail);
    case Back(z, more, d, far) => CopyRoundTrip(lit, dist, z, more, d, far, tail);
  }

  lemma CopyRoundTrip(lit: seq<nat>, dist: seq<nat>, z: nat, more: nat, d: nat, far: nat, tail: nat)
    requires CodeLengths(lit) && Fits(lit) && CodeLengths(dist) && Fits(dist)
    requires Codable(lit, dist, Back(z, more, d, far))
    ensures var w := Write(lit, dist, Back(z, more, d, far), tail);
            var e := NextElement(lit, dist, w);
            e.Emit? && e.token == Copy(LengthBase(z) + more, DistBase(d) + far) && Shr(w, e.bits) == tail
  {
    hide Put, Low, Shr, Shl, Matches, LengthBase, LengthExtra, DistBase, DistExtra, NextDistance, Fits;
    var w2 := Put(dist, d, far + Shl(tail, DistExtra(d)));
    var w1 := more + Shl(w2, LengthExtra(z));
    var w, n := Put(lit, 257 + z, w1), lit[257 + z];
    PutIsRead(lit, 257 + z, w1);
    Above(w2, more, LengthExtra(z));
    ShrAdd(w, n, LengthExtra(z));
    DistanceIsRead(dist, w, n + LengthExtra(z), LengthBase(z) + more, d, far, tail);
  }

  lemma DistanceIsRead(dist: seq<nat>, w: nat, n: nat, length: nat, d: nat, far: nat, tail: nat)
    requires CodeLengths(dist) && Fits(dist) && d < 30 && d < |dist| && dist[d] > 0 && far < Pow2(DistExtra(d))
    requires Shr(w, n) == Put(dist, d, far + Shl(tail, DistExtra(d)))
    ensures var e := NextDistance(dist, w, length, n);
            e.Emit? && e.token == Copy(length, DistBase(d) + far) && Shr(w, e.bits) == tail
  {
    hide Put, Low, Shr, Shl, Matches, DistBase, DistExtra, Fits;
    PutIsRead(dist, d, far + Shl(tail, DistExtra(d)));
    Above(tail, far, DistExtra(d));
    ShrAdd(w, n, dist[d]);
    ShrAdd(w, n + dist[d], DistExtra(d));
  }

  /** Tokens one after the other. */
  ghost function WriteAll(lit: seq<nat>, dist: seq<nat>, cs: seq<Coded>, tail: nat): nat
    requires forall c :: c in cs ==> Codable(lit, dist, c)
  {
    if cs == [] then tail
    else WriteAll(lit, dist, cs[..|cs| - 1], Write(lit, dist, cs[|cs| - 1], tail))
  }

  ghost function Meanings(lit: seq<nat>, dist: seq<nat>, cs: seq<Coded>): (r: seq<Token>)
    requires forall c :: c in cs ==> Codable(lit, dist, c)
    ensures |r| == |cs|
  {
    if cs == [] then []
    else
      assert Codable(lit, dist, cs[|cs| - 1]);
      Meanings(lit, dist, cs[..|cs| - 1]) + [Meaning(cs[|cs| - 1])]
  }

  lemma {:induction false} TokensRoundTrip(lit: seq<nat>, dist: seq<nat>, cs: seq<Coded>, tail: nat)
    requires CodeLengths(lit) && Fits(lit) && CodeLengths(dist) && Fits(dist)
    requires forall c :: c in cs ==> Codable(lit, dist, c)
    ensures var n := After(lit, dist, WriteAll(lit, dist, cs, tail), Meanings(lit, dist, cs));
            n.Some? && Shr(WriteAll(lit, dist, cs, tail), n.value) == tail
  {
    if cs != [] {
      var init, c := cs[..|cs| - 1], cs[|cs| - 1];
      TokensRoundTrip(lit, dist, init, Write(lit, dist, c, tail));
      WrittenLast(lit, dist, cs, tail);
    }
  }

  lemma WrittenLast(lit: seq<nat>, dist: seq<nat>, cs: seq<Coded>, tail: nat)
    requires CodeLengths(lit) && Fits(lit) && CodeLengths(dist) && Fits(dist)
    requires cs != [] && forall c :: c in cs ==> Codable(lit, dist, c)
    requires var init, next := cs[..|cs| - 1], Write(lit, dist, cs[|cs| - 1], tail);
             var n := After(lit, dist, WriteAll(lit, dist, init, next), Meanings(lit, dist, init));
             n.Some? && Shr(WriteAll(lit, dist, init, next), n.value) == next
    ensures var n := After(lit, dist, WriteAll(lit, dist, cs, tail), Meanings(lit, dist, cs));
            n.Some? && Shr(WriteAll(lit, dist, cs, tail), n.value) == tail
  {
    hide NextElement, Write, Shr, Fits, CodeLengths, After, Codable;
    var init, c := cs[..|cs| - 1], cs[|cs| - 1];
    var w := WriteAll(lit, dist, cs, tail);
    var n := After(lit, dist, w, Meanings(lit, dist, init)).value;
    TokenRoundTrip(lit, dist, c, tail);
    AfterMore(lit, dist, w, Meanings(lit, dist, init), n, NextElement(lit, dist, Shr(w, n)));
  }

  /** Every block that is written is read back, up to the bits that follow it. */
  lemma BlockRoundTrip(lit: seq<nat>, dist: seq<nat>, cs: seq<Coded>, tail: nat) returns (size: nat)
    requires CodeLengths(lit) && Fits(lit) && CodeLengths(dist) && Fits(dist)
    requires |lit| > END_OF_BLOCK && lit[END_OF_BLOCK] > 0
    requires forall c :: c in cs ==> Codable(lit, dist, c)
    ensures var w := WriteAll(lit, dist, cs, Put(lit, END_OF_BLOCK, tail));
            IsBlock(lit, dist, w, Meanings(lit, dist, cs), size) && Shr(w, size) == tail
  {
    hide Matches, Put;
    var rest := Put(lit, END_OF_BLOCK, tail);
    var w := WriteAll(lit, dist, cs, rest);
    TokensRoundTrip(lit, dist, cs, rest);
    PutIsRead(lit, END_OF_BLOCK, tail);
    var n := After(lit, dist, w, Meanings(lit, dist, cs)).value;
    ShrAdd(w, n, lit[END_OF_BLOCK]);
    size := n + lit[END_OF_BLOCK];
  }

  /** The tables leave no gap: every length from 3 to 258 and every distance from 1 to 32768 has its symbol. */
  lemma EveryCopyHasSymbols(length: nat, distance: nat) returns (z: nat, more: nat, d: nat, far: nat)
    requires 3 <= length <= 258 && 1 <= distance <= 32768
    ensures z < 29 && more < Pow2(LengthExtra(z)) && length == LengthBase(z) + more
    ensures d < 30 && far < Pow2(DistExtra(d)) && distance == DistBase(d) + far
  {
    z, more := LengthSymbol(length, 27);
    LastRanges();
    d, far := DistanceSymbol(distance, 29);
  }

  lemma {:induction false} LengthSymbol(length: nat, top: nat) returns (z: nat, more: nat)
    requires top < 28 && 3 <= length && (top < 27 ==> length < LengthBase(top + 1)) && length <= 258
    ensures z < 29 && more < Pow2(LengthExtra(z)) && length == LengthBase(z) + more
  {
    if length < LengthBase(top) {
      z, more := LengthSymbol(length, top - 1);
    } else {
      z, more := top, length - LengthBase(top);
      if top < 27 { NoLengthGap(top); } else { LastRanges(); }
    }
  }

  lemma {:induction false} DistanceSymbol(distance: nat, top: nat) returns (d: nat, far: nat)
    requires top < 30 && 1 <= distance && (top < 29 ==> distance < DistBase(top + 1)) && distance <= 32768
    ensures d < 30 && far < Pow2(DistExtra(d)) && distance == DistBase(d) + far
  {
    if distance < DistBase(top) {
      d, far := DistanceSymbol(distance, top - 1);
    } else {
      d, far := top, distance - DistBase(top);
      if top < 29 { NoDistanceGap(top); } else { LastRanges(); }
    }
  }

  /** The lengths of section 3.2.5: four symbols to each number of extra bits from the ninth on, but for the last, which is
      258 without any. */
  lemma LengthsOfTheStandard(z: nat)
    requires z < 29
    ensures LengthExtra(z) == if z < 8 || z == 28 then 0 else z / 4 - 1
    ensures LengthBase(z) == if z < 8 then 3 + z else if z == 28 then 258 else 3 + (4 + z % 4) * Pow2(z / 4 - 1)
  {
    assert Pow2(1) == 2 && Pow2(2) == 4 && Pow2(3) == 8 && Pow2(4) == 16 && Pow2(5) == 32;
  }

  /** The distances: two symbols to each number of extra bits from the fifth on. */
  lemma DistancesOfTheStandard(d: nat)
    requires d < 30
    ensures DistExtra(d) == if d < 4 then 0 else d / 2 - 1
    ensures DistBase(d) == if d < 4 then 1 + d else 1 + (2 + d % 2) * Pow2(d / 2 - 1)
  {
    hide DistBase, DistExtra;
    if d < 16 { NearDistances(d); } else { FarDistances(d); }
  }

  lemma NearDistances(d: nat)
    requires d < 16
    ensures DistExtra(d) == if d < 4 then 0 else d / 2 - 1
    ensures DistBase(d) == if d < 4 then 1 + d else 1 + (2 + d % 2) * Pow2(d / 2 - 1)
  {
    assert Pow2(1) == 2 && Pow2(2) == 4 && Pow2(3) == 8 && Pow2(4) == 16 && Pow2(5) == 32 && Pow2(6) == 64;
  }

  lemma FarDistances(d: nat)
    requires 16 <= d < 30
    ensures DistExtra(d) == d / 2 - 1 && DistBase(d) == 1 + (2 + d % 2) * Pow2(d / 2 - 1)
  {
    assert Pow2(7) == 128 && Pow2(8) == 256 && Pow2(9) == 512 && Pow2(10) == 1024;
    assert Pow2(11) == 2048 && Pow2(12) == 4096 && Pow2(13) == 8192;
  }

  lemma LastRanges()
    ensures LengthBase(27) + Pow2(LengthExtra(27)) == 259 && DistBase(29) + Pow2(DistExtra(29)) == 32769
    ensures LengthBase(0) == 3 && DistBase(0) == 1
  {
    assert Pow2(3) == 8 && Pow2(5) == 32 && Pow2(7) == 128 && Pow2(9) == 512 && Pow2(11) == 2048 && Pow2(13) == 8192;
  }

  lemma NoLengthGap(z: nat)
    requires z < 27
    ensures LengthBase(z) + Pow2(LengthExtra(z)) == LengthBase(z + 1)
  {
    assert Pow2(2) == 4 && Pow2(4) == 16;
  }

  lemma NoDistanceGap(d: nat)
    requires d < 29
    ensures DistBase(d) + Pow2(DistExtra(d)) == DistBase(d + 1)
  {
    assert Pow2(2) == 4 && Pow2(4) == 16 && Pow2(6) == 64 && Pow2(8) == 256 && Pow2(10) == 1024 && Pow2(12) == 4096;
  }
}
