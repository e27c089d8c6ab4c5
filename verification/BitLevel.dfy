/** How full the bit buffer of the inflate decoder is (osd/stb_image.h): when it is refilled, when the end of the input is
    padded, and when the decoder gives up. It depends on the widths of what is read only, so it tells beforehand which
    blocks are accepted. */
module BitLevel {
  import opened Prelude
  import opened Bits
  import opened CanonicalCode
  import opened Lz77

  /** The position in the input, the bits in the buffer, whether the end has been padded, and the zero bits made up
      after it other than the sixteen of padding. */
  datatype Level = Level(pos: nat, numBits: nat, hitEnd: bool, madeUp: nat) {
    /** The padding has been used. */
    predicate Overrun() { hitEnd && numBits < 16 }

    function Padding(): nat { if hitEnd then 16 else 0 }

    /** Nothing has been taken yet of what is not input. */
    predicate Backed() { numBits >= madeUp + Padding() }

    /** The bits taken so far. */
    function Taken(): int { 8 * pos + madeUp + Padding() - numBits }

    /** Nothing is made up before the input has been used up. */
    predicate Sound(size: nat) { pos <= size && (hitEnd || madeUp > 0 ==> pos == size) }

    function Less(n: nat): Level { this.(numBits := if n <= numBits then numBits - n else 0) }

    /** One byte more, or eight zeros after the last. */
    function OneByte(size: nat): Level {
      if pos < size then Level(pos + 1, numBits + 8, hitEnd, madeUp) else Level(pos, numBits + 8, hitEnd, madeUp + 8)
    }

    /** Bytes until there are more than 24 bits. */
    function Filled(size: nat): Level
      decreases if numBits <= 24 then 25 - numBits else 0
    {
      var more := OneByte(size);
      if more.numBits <= 24 then more.Filled(size) else more
    }

    /** After `n` bits have been received. */
    function Received(n: nat, size: nat): Level { (if numBits < n then Filled(size) else this).Less(n) }

    /** Before a codeword is decoded; None when the padding has been used. */
    function Needed(size: nat): Option<Level> {
      if numBits >= 16 then Some(this)
      else if pos < size then Some(Filled(size))
      else if !hitEnd then Some(this.(hitEnd := true, numBits := numBits + 16))
      else None
    }
  }

  lemma FilledStep(l: Level, size: nat)
    ensures var more := l.OneByte(size);
            l.Filled(size) == if more.numBits <= 24 then more.Filled(size) else more
  {
  }

  /** After the next element of a block; None when it cannot be read. */
  ghost function AfterElement(lit: seq<nat>, dist: seq<nat>, w: nat, l: Level, size: nat): Option<Level> {
    match NextSymbol(lit, w)
    case None => None
    case Some(s) =>
      match l.Needed(size)
      case None => None
      case Some(g) =>
        if s <= END_OF_BLOCK then Some(g.Less(lit[s]))
        else if s >= 286 then None
        else AfterCopy(dist, w, s - 257, lit[s], g.Less(lit[s]), size)
  }

  ghost function AfterCopy(dist: seq<nat>, w: nat, z: nat, n: nat, l: Level, size: nat): Option<Level>
    requires z < 29
  {
    AfterDistance(dist, w, n + LengthExtra(z), l.Received(LengthExtra(z), size), size)
  }

  ghost function AfterDistance(dist: seq<nat>, w: nat, n: nat, l: Level, size: nat): Option<Level> {
    match NextSymbol(dist, Shr(w, n))
    case None => None
    case Some(d) =>
      if d >= 30 then None
      else match l.Needed(size)
        case None => None
        case Some(g) => Some(g.Less(dist[d]).Received(DistExtra(d), size))
  }

  /** After the first tokens of a block. */
  ghost function AfterTokens(lit: seq<nat>, dist: seq<nat>, w: nat, tokens: seq<Token>, l: Level, size: nat): Option<Level> {
    if tokens == [] then Some(l)
    else
      var init := tokens[..|tokens| - 1];
      match (AfterTokens(lit, dist, w, init, l, size), After(lit, dist, w, init))
      case (Some(g), Some(n)) => AfterElement(lit, dist, Shr(w, n), g, size)
      case _ => None
  }

  /** After a whole block. */
  ghost function AfterBlock(lit: seq<nat>, dist: seq<nat>, w: nat, all: seq<Token>, l: Level, size: nat): Option<Level> {
    match (AfterTokens(lit, dist, w, all, l, size), After(lit, dist, w, all))
    case (Some(g), Some(n)) => AfterElement(lit, dist, Shr(w, n), g, size)
    case _ => None
  }

  /** The decoder comes to the end of the block and does not take it for a premature one. */
  ghost predicate InTime(lit: seq<nat>, dist: seq<nat>, w: nat, all: seq<Token>, l: Level, size: nat) {
    var e := AfterBlock(lit, dist, w, all, l, size);
    e.Some? && !e.value.Overrun()
  }

  lemma {:induction false} AfterTokensPrefix(lit: seq<nat>, dist: seq<nat>, w: nat, tokens: seq<Token>, l: Level,
                                             size: nat, k: nat)
    requires AfterTokens(lit, dist, w, tokens, l, size).Some? && k <= |tokens|
    ensures AfterTokens(lit, dist, w, tokens[..k], l, size).Some?
    ensures k < |tokens| && After(lit, dist, w, tokens[..k]).Some? ==>
              AfterElement(lit, dist, Shr(w, After(lit, dist, w, tokens[..k]).value),
                           AfterTokens(lit, dist, w, tokens[..k], l, size).value, size).Some?
  {
    hide AfterElement, After;
    if k == |tokens| {
      assert tokens[..k] == tokens;
    } else {
      var init := tokens[..|tokens| - 1];
      AfterTokensPrefix(lit, dist, w, init, l, size, k);
      assert tokens[..k] == init[..k];
    }
  }

  // --- what is taken ---

  lemma {:induction false} FilledTakes(l: Level, size: nat)
    requires l.Sound(size)
    ensures var r := l.Filled(size); r.Sound(size) && r.Taken() == l.Taken() && r.numBits > 24
    decreases if l.numBits <= 24 then 25 - l.numBits else 0
  {
    FilledStep(l, size);
    if l.OneByte(size).numBits <= 24 { FilledTakes(l.OneByte(size), size); }
  }

  lemma ReceivedTakes(l: Level, n: nat, size: nat)
    requires l.Sound(size) && n <= 24
    ensures var r := l.Received(n, size); r.Sound(size) && r.Taken() == l.Taken() + n
  {
    FilledTakes(l, size);
  }

  lemma NeededTakes(l: Level, size: nat)
    requires l.Sound(size)
    ensures match l.Needed(size)
            case Some(g) => g.Sound(size) && g.Taken() == l.Taken() && g.numBits >= 16
            case None => l.Taken() > 8 * size
  {
    FilledTakes(l, size);
  }

  /** The level tells how many bits were taken when something was read, and that they were not there when it was not. */
  ghost predicate Takes(l: Level, bits: nat, after: Option<Level>, size: nat) {
    match after
    case Some(g) => g.Sound(size) && g.Taken() == l.Taken() + bits
    case None => l.Taken() + bits > 8 * size
  }

  lemma DistanceTakes(dist: seq<nat>, w: nat, length: nat, n: nat, l: Level, size: nat)
    requires CodeLengths(dist) && l.Sound(size)
    ensures var next := NextDistance(dist, w, length, n);
            !next.Bad? ==> next.bits >= n && Takes(l, next.bits - n, AfterDistance(dist, w, n, l, size), size)
    ensures NextDistance(dist, w, length, n).Bad? ==> AfterDistance(dist, w, n, l, size).None?
  {
    hide Rev, Code, Shr, Low, DistBase, DistExtra, Level.Filled, Level.Received, Level.Needed;
    NeededTakes(l, size);
    match NextSymbol(dist, Shr(w, n))
    case None =>
    case Some(d) =>
      if d < 30 && l.Needed(size).Some? { ReceivedTakes(l.Needed(size).value.Less(dist[d]), DistExtra(d), size); }
  }

  lemma ElementTakes(lit: seq<nat>, dist: seq<nat>, w: nat, l: Level, size: nat)
    requires CodeLengths(lit) && CodeLengths(dist) && l.Sound(size)
    ensures var next := NextElement(lit, dist, w);
            if next.Bad? then AfterElement(lit, dist, w, l, size).None?
            else Takes(l, next.bits, AfterElement(lit, dist, w, l, size), size)
  {
    hide Rev, Code, Shr, Low, LengthBase, LengthExtra, NextDistance, AfterDistance, Level.Filled, Level.Received, Level.Needed;
    NeededTakes(l, size);
    match NextSymbol(lit, w)
    case None =>
    case Some(s) =>
      if END_OF_BLOCK < s < 286 {
        var z, n := s - 257, lit[s];
        var extra := LengthExtra(z);
        if l.Needed(size).Some? {
          ReceivedTakes(l.Needed(size).value.Less(n), extra, size);
          DistanceTakes(dist, w, LengthBase(z) + Low(Shr(w, n), extra), n + extra,
                        l.Needed(size).value.Less(n).Received(extra, size), size);
        }
      }
  }

  lemma {:induction false} TokensTake(lit: seq<nat>, dist: seq<nat>, w: nat, tokens: seq<Token>, bits: nat, l: Level, size: nat)
    requires CodeLengths(lit) && CodeLengths(dist) && l.Sound(size) && After(lit, dist, w, tokens) == Some(bits)
    ensures Takes(l, bits, AfterTokens(lit, dist, w, tokens, l, size), size)
  {
    hide NextElement, AfterElement, Shr, CodeLengths;
    if tokens != [] {
      var init := tokens[..|tokens| - 1];
      var n := After(lit, dist, w, init).value;
      TokensTake(lit, dist, w, init, n, l, size);
      var g := AfterTokens(lit, dist, w, init, l, size);
      if g.Some? { ElementTakes(lit, dist, Shr(w, n), g.value, size); }
    }
  }

  /** A block lies within the input exactly if the decoder accepts it and its buffer still holds all that is not input.
      So the check for a premature end is complete where nothing but the padding is made up. */
  lemma WithinInput(lit: seq<nat>, dist: seq<nat>, w: nat, all: seq<Token>, bits: nat, l: Level, size: nat)
    requires CodeLengths(lit) && CodeLengths(dist) && l.Sound(size) && IsBlock(lit, dist, w, all, bits)
    ensures l.Taken() + bits <= 8 * size
            <==> InTime(lit, dist, w, all, l, size) && AfterBlock(lit, dist, w, all, l, size).value.Backed()
    ensures InTime(lit, dist, w, all, l, size) && AfterBlock(lit, dist, w, all, l, size).value.madeUp == 0
            ==> l.Taken() + bits <= 8 * size
  {
    hide NextElement, AfterElement, Shr, CodeLengths;
    var n := After(lit, dist, w, all).value;
    TokensTake(lit, dist, w, all, n, l, size);
    var g := AfterTokens(lit, dist, w, all, l, size);
    if g.Some? { ElementTakes(lit, dist, Shr(w, n), g.value, size); }
  }
}
