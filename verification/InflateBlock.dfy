/** The inflate loop over one compressed block, into an output buffer that grows while it runs. */
module InflateBlock {
  import opened Prelude
  import opened Bits
  import opened CanonicalCode
  import opened Huffman
  import opened BitLevel
  import opened BitReader
  import opened Lz77

  const UINT_MAX: nat := 0xffff_ffff

  datatype Outcome = More | Done | BadCode | BadDistance | PastEnd | NoRoom

  /** Doubling comes to hold `need` within 32 bits. */
  ghost predicate Doubles(limit: nat, need: nat) { exists k: nat :: need <= Shl(limit, k) <= UINT_MAX }

  lemma {:induction false} DoublesOnce(limit: nat, k: nat, later: nat)
    requires k < later
    ensures Shl(limit, later) >= Shl(limit, k + 1) == 2 * Shl(limit, k)
  {
    if k + 1 < later { DoublesOnce(limit, k, later - 1); }
  }

  /** Twice the limit until `need` fits, or a refusal before 32 bits overflow. */
  method Double(limit0: nat, need: nat) returns (ok: bool, limit: nat)
    requires 0 < limit0 <= UINT_MAX
    ensures ok ==> limit0 <= limit && need <= limit <= UINT_MAX
    ensures ok <==> Doubles(limit0, need)
  {
    limit := limit0;
    ghost var k: nat := 0;
    while need > limit
      invariant 0 < limit0 <= limit == Shl(limit0, k) <= UINT_MAX
      invariant forall l: nat :: l < k ==> Shl(limit0, l) < need
      decreases UINT_MAX - limit
    {
      if limit > UINT_MAX / 2 {
        forall l: nat ensures !(need <= Shl(limit0, l) <= UINT_MAX) {
          if l > k { DoublesOnce(limit0, k, l); }
        }
        return false, limit;
      }
      limit, k := 2 * limit, k + 1;
    }
    ok := true;
  }

  class Inflater {
    const input: Reader
    const expandable: bool
    var buf: array<byte>
    var zout: nat

    constructor (input: Reader, buf: array<byte>, expandable: bool)
      requires 0 < buf.Length <= UINT_MAX
      ensures this.input == input && this.buf == buf && this.expandable == expandable && zout == 0
    {
      this.input, this.buf, this.expandable, zout := input, buf, expandable, 0;
    }

    ghost predicate Valid()
      reads this, input
    {
      input.Valid() && zout <= buf.Length <= UINT_MAX && (expandable ==> buf.Length > 0)
    }

    ghost function Written(): seq<byte>
      requires zout <= buf.Length
      reads this, buf
    {
      buf[..zout]
    }

    /** Makes room for `n` bytes after the first `at`: exactly if the buffer may grow, doubling comes to hold them, and the
        memory is granted. */
    method Grow(at: nat, n: nat, granted: bool) returns (ok: bool)
      requires at <= buf.Length <= UINT_MAX && (expandable ==> buf.Length > 0)
      modifies this`buf, this`zout
      ensures zout == at <= buf.Length <= UINT_MAX && old(buf.Length) <= buf.Length && buf[..at] == old(buf[..at])
      ensures ok ==> expandable && at + n <= buf.Length && fresh(buf)
      ensures !ok ==> buf == old(buf)
      ensures ok <==> expandable && granted && Doubles(old(buf.Length), at + n)
    {
      zout := at;
      if !expandable { return false; }
      if UINT_MAX - at < n { return false; }
      var limit;
      ok, limit := Double(buf.Length, at + n);
      if !ok { return; }
      if !granted { return false; }
      var q := new byte[limit];
      var i := 0;
      while i < buf.Length
        invariant 0 <= i <= buf.Length
        invariant forall k :: 0 <= k < i ==> q[k] == buf[k]
        modifies q
      {
        q[i] := buf[i];
        i := i + 1;
      }
      buf := q;
    }

    /** The copy loops: a run of one byte, or byte by byte from `distance` back. */
    method CopyRun(at: nat, length: nat, distance: nat)
      requires 1 <= distance <= at && at + length <= buf.Length
      modifies buf
      ensures buf[..at + length] == Repeat(old(buf[..at]), length, distance)
    {
      hide Repeat;
      ghost var was := buf[..at];
      RepeatMore(was, 0, distance);
      var z, p, len := at, at - distance, length;
      if distance == 1 {
        var v := buf[p];
        while len > 0
          invariant 0 <= len <= length && z == at + length - len
          invariant buf[..z] == Repeat(was, length - len, distance) && buf[z - 1] == v
          modifies buf
        {
          RepeatMore(was, length - len, distance);
          buf[z] := v;
          assert buf[..z + 1] == buf[..z] + [v];
          z, len := z + 1, len - 1;
        }
      } else {
        while len > 0
          invariant 0 <= len <= length && z == at + length - len && p == z - distance
          invariant buf[..z] == Repeat(was, length - len, distance)
          modifies buf
        {
          RepeatMore(was, length - len, distance);
          buf[z] := buf[p];
          assert buf[..z + 1] == buf[..z] + [buf[p]];
          z, p, len := z + 1, p + 1, len - 1;
        }
      }
    }

    /** Appends one byte. */
    method PutByte(at: nat, b: byte, granted: bool) returns (ok: bool)
      requires Valid() && at <= buf.Length
      modifies this`buf, this`zout, buf
      ensures Valid() && (buf == old(buf) || fresh(buf)) && old(buf.Length) <= buf.Length
      ensures ok ==> at < buf.Length && buf[..at + 1] == old(buf[..at]) + [b]
      ensures !ok ==> at == buf.Length && !(expandable && granted && Doubles(buf.Length, at + 1))
    {
      if at >= buf.Length {
        ok := Grow(at, 1, granted);
        if !ok { return; }
      }
      buf[at] := b;
      assert buf[..at + 1] == buf[..at] + [b];
      ok := true;
    }

    /** Appends a copy of what was written `distance` before. */
    method PutRun(at: nat, length: nat, distance: nat, granted: bool) returns (ok: bool)
      requires Valid() && 1 <= distance <= at <= buf.Length
      modifies this`buf, this`zout, buf
      ensures Valid() && (buf == old(buf) || fresh(buf)) && old(buf.Length) <= buf.Length
      ensures ok ==> at + length <= buf.Length && buf[..at + length] == Repeat(old(buf[..at]), length, distance)
      ensures !ok ==> at + length > buf.Length && !(expandable && granted && Doubles(buf.Length, at + length))
    {
      if length > buf.Length - at {
        ok := Grow(at, length, granted);
        if !ok { return; }
      }
      CopyRun(at, length, distance);
      ok := true;
    }

    /** One turn of the block's loop, from the first `at` bytes of output; memory is granted or not. */
    method Turn(at: nat, tl: Table, td: Table, granted: bool, ghost lit: seq<nat>, ghost dist: seq<nat>)
      returns (r: Outcome, z: nat, ghost next: Element)
      requires Valid() && at <= buf.Length && tl.Represents(lit) && td.Represents(dist)
      modifies this`buf, this`zout, buf, input
      ensures Valid() && (buf == old(buf) || fresh(buf)) && old(buf.Length) <= buf.Length
      ensures tl.Represents(lit) && td.Represents(dist)
      ensures next == NextElement(lit, dist, old(input.Ahead()))
      ensures r.More? || r.Done? ==>
                input.Ahead() == Shr(old(input.Ahead()), next.Width()) && input.taken == old(input.taken) + next.Width()
      ensures var after := AfterElement(lit, dist, old(input.Ahead()), old(input.Now()), |input.bytes|);
              (r.More? || r.Done? || r.PastEnd? ==> after == Some(input.Now())) && Verdict(r, next, after, old(buf[..at]))
      ensures r.Done? ==> next.Stop? && z == at == zout && buf[..at] == old(buf[..at])
      ensures r.More? ==> next.Emit? && at < z <= buf.Length && Apply(old(buf[..at]), next.token) == Some(buf[..z])
      ensures Blame(r, next, old(input.taken), old(buf[..at]), granted)
    {
      hide Doubles, Matches, Shr, Low, NextElement, AfterElement, Table.Represents;
      ghost var used;
      var e;
      z, next := at, NextElement(lit, dist, input.Ahead());
      e, used := ReadElement(input, tl, td, lit, dist);
      match e {
        case Broken =>
          r := BadCode;
        case End =>
          zout := at;
          r := if input.hitEnd && input.numBits < 16 then PastEnd else Done;
        case Byte(b) =>
          var ok := PutByte(at, b, granted);
          if !ok { return NoRoom, at, next; }
          r, z := More, at + 1;
        case Run(length, distance) =>
          if at < distance { return BadDistance, at, next; }
          var ok := PutRun(at, length, distance, granted);
          if !ok { return NoRoom, at, next; }
          r, z := More, at + length;
      }
    }

    /** What a failure says about the element at which it stopped; the room that was wanting could not be had by doubling,
        or the memory was not granted. */
    ghost predicate Blame(r: Outcome, next: Element, taken: nat, out: seq<byte>, granted: bool)
      reads this, input
    {
      var beyond := taken + next.Width() > 8 * |input.bytes|;
      match r
      case PastEnd => next.Stop? && beyond
      case BadCode => next.Bad? || beyond
      case BadDistance => next.Emit? && Apply(out, next.token).None?
      case NoRoom =>
        && next.Emit? && Apply(out, next.token).Some?
        && var need := |Apply(out, next.token).value|;
           need > buf.Length && !(expandable && granted && Doubles(buf.Length, need))
      case _ => true
    }

    /** Which outcome an element has. The end of a block is taken for a premature one exactly if the end of the input has
        been padded and fewer than sixteen bits are left. */
    ghost predicate Verdict(r: Outcome, next: Element, after: Option<Level>, out: seq<byte>)
      reads this
    {
      match after
      case None => r.BadCode?
      case Some(l) =>
        match next
        case Bad => false
        case Stop(_) => if l.Overrun() then r.PastEnd? else r.Done?
        case Emit(t, _) =>
          match Apply(out, t)
          case None => r.BadDistance?
          case Some(o) => r.More? || (r.NoRoom? && |o| > buf.Length)
    }

    /** A block is accepted exactly if the decoder reads it in time, unless room is wanting. */
    lemma AcceptedExactlyInTime(r: Outcome, lit: seq<nat>, dist: seq<nat>, w: nat, out: seq<byte>, tokens: seq<Token>,
                                bits: nat, all: seq<Token>, size: nat, l: Level)
      requires After(lit, dist, w, tokens) == Some(bits) && Expand(out, tokens).Some? && !r.More?
      requires AfterTokens(lit, dist, w, tokens, l, |input.bytes|).Some?
      requires Verdict(r, NextElement(lit, dist, Shr(w, bits)),
                       AfterElement(lit, dist, Shr(w, bits), AfterTokens(lit, dist, w, tokens, l, |input.bytes|).value,
                                    |input.bytes|),
                       Expand(out, tokens).value)
      requires IsBlock(lit, dist, w, all, size) && Expand(out, all).Some?
      ensures r.NoRoom? ==> |Expand(out, all).value| > buf.Length
      ensures !r.NoRoom? ==> (r.Done? <==> InTime(lit, dist, w, all, l, |input.bytes|))
    {
      hide NextElement, AfterElement, Apply;
      InsideBlock(lit, dist, w, out, all, size, tokens, bits);
      StartOfBlock(lit, dist, w, all, size, tokens);
      var k := |tokens|;
      assert all[..k] == tokens;
      if k == |all| {
        assert tokens == all;
      } else {
        AfterPrefix(lit, dist, w, all, k);
        if AfterTokens(lit, dist, w, all, l, |input.bytes|).Some? {
          AfterTokensPrefix(lit, dist, w, all, l, |input.bytes|, k);
        }
      }
    }

    /** A well-formed block that lies within the input can only fail for want of room, and not even for that when the
        buffer is large enough already, or can grow and is granted the memory. */
    lemma OnlyRoomIsWanting(r: Outcome, lit: seq<nat>, dist: seq<nat>, w: nat, taken: nat, out: seq<byte>,
                            tokens: seq<Token>, bits: nat, all: seq<Token>, size: nat, granted: bool)
      requires After(lit, dist, w, tokens) == Some(bits) && Expand(out, tokens).Some?
      requires Blame(r, NextElement(lit, dist, Shr(w, bits)), taken + bits, Expand(out, tokens).value, granted)
      requires IsBlock(lit, dist, w, all, size) && Expand(out, all).Some? && taken + size <= 8 * |input.bytes|
      ensures r.More? || r.Done? || r.NoRoom?
      ensures r.NoRoom? ==> var need := |Expand(out, all).value|;
                            need > buf.Length && !(expandable && granted && Doubles(buf.Length, need))
    {
      InsideBlock(lit, dist, w, out, all, size, tokens, bits);
    }

    /** Reads one block. When it succeeds, exactly the bits of a block were taken from what is ahead and the output
        is the old output and the expansion of that block. When it fails, `tokens` is what was read until then and
        the outcome tells what is wrong with what follows. */
    method ParseBlock(tl: Table, td: Table, ghost lit: seq<nat>, ghost dist: seq<nat>)
      returns (r: Outcome, ghost tokens: seq<Token>, ghost bits: nat, ghost granted: bool)
      requires Valid() && tl.Represents(lit) && td.Represents(dist)
      modifies this`buf, this`zout, buf, input
      ensures Valid() && !r.More? && old(buf.Length) <= buf.Length
      ensures After(lit, dist, old(input.Ahead()), tokens) == Some(bits) && Expand(old(Written()), tokens).Some?
      ensures r.Done? ==> Expand(old(Written()), tokens) == Some(Written())
      ensures r.Done? ==> old(input.taken) <= input.taken
      ensures r.Done? ==> (input.taken <= 8 * |input.bytes| <==> input.Now().Backed())
      ensures r.Done? || r.PastEnd? ==>
                AfterBlock(lit, dist, old(input.Ahead()), tokens, old(input.Now()), |input.bytes|) == Some(input.Now())
      ensures AfterTokens(lit, dist, old(input.Ahead()), tokens, old(input.Now()), |input.bytes|).Some?
      ensures Verdict(r, NextElement(lit, dist, Shr(old(input.Ahead()), bits)),
                      AfterElement(lit, dist, Shr(old(input.Ahead()), bits),
                                   AfterTokens(lit, dist, old(input.Ahead()), tokens, old(input.Now()), |input.bytes|).value,
                                   |input.bytes|),
                      Expand(old(Written()), tokens).value)
      ensures r.Done? ==> var n := input.taken - old(input.taken);
                          IsBlock(lit, dist, old(input.Ahead()), tokens, n) && input.Ahead() == Shr(old(input.Ahead()), n)
      ensures Blame(r, NextElement(lit, dist, Shr(old(input.Ahead()), bits)), old(input.taken) + bits,
                    Expand(old(Written()), tokens).value, granted)
    {
      hide Doubles, Matches, Shr, Low, NextElement, After, AfterElement, AfterTokens, Table.Represents, Expand, Apply;
      ghost var w, o, taken, l, size := input.Ahead(), Written(), input.taken, input.Now(), |input.bytes|;
      Nothing(lit, dist, w, o, l, size);
      var z := zout;
      tokens, bits, granted := [], 0, true;
      ghost var buf0 := buf;
      while true
        invariant Valid() && z <= buf.Length && buf0.Length <= buf.Length && (buf == buf0 || fresh(buf))
        invariant After(lit, dist, w, tokens) == Some(bits) && Expand(o, tokens) == Some(buf[..z])
        invariant input.Ahead() == Shr(w, bits) && input.taken == taken + bits
        invariant AfterTokens(lit, dist, w, tokens, l, size) == Some(input.Now())
        invariant tl.Represents(lit) && td.Represents(dist)
        decreases UINT_MAX - z
      {
        Extend(lit, dist, w, o, tokens, bits, l, size);
        ghost var next;
        var memory: bool := *;
        granted := memory;
        r, z, next := Turn(z, tl, td, memory, lit, dist);
        if !r.More? {
          ShrAdd(w, bits, next.Width());
          return;
        }
        tokens, bits := tokens + [next.token], bits + next.bits;
      }
    }
  }

  lemma Nothing(lit: seq<nat>, dist: seq<nat>, w: nat, out: seq<byte>, l: Level, size: nat)
    ensures AfterTokens(lit, dist, w, [], l, size) == Some(l)
    ensures After(lit, dist, w, []) == Some(0) && Expand(out, []) == Some(out) && Shr(w, 0) == w
  {
  }

  /** One more token. */
  lemma Extend(lit: seq<nat>, dist: seq<nat>, w: nat, out: seq<byte>, tokens: seq<Token>, bits: nat, l: Level, size: nat)
    requires After(lit, dist, w, tokens) == Some(bits) && Expand(out, tokens).Some?
    requires AfterTokens(lit, dist, w, tokens, l, size).Some?
    ensures var next := NextElement(lit, dist, Shr(w, bits));
            next.Emit? ==>
              && After(lit, dist, w, tokens + [next.token]) == Some(bits + next.bits)
              && Shr(w, bits + next.bits) == Shr(Shr(w, bits), next.bits)
              && AfterTokens(lit, dist, w, tokens + [next.token], l, size)
                 == AfterElement(lit, dist, Shr(w, bits), AfterTokens(lit, dist, w, tokens, l, size).value, size)
              && Expand(out, tokens + [next.token]) == Apply(Expand(out, tokens).value, next.token)
  {
    hide NextElement, AfterElement, Shr, Apply;
    var next := NextElement(lit, dist, Shr(w, bits));
    if next.Emit? {
      assert (tokens + [next.token])[..|tokens|] == tokens;
      AfterMore(lit, dist, w, tokens, bits, next);
    }
  }

  /** One turn's reading: a literal, a length and a distance with their extra bits, the end of the block, or an error. */
  datatype Event = Byte(value: byte) | Run(length: nat, distance: nat) | End | Broken {
    ghost function Meaning(bits: nat): Element {
      match this
      case Byte(b) => Emit(Literal(b), bits)
      case Run(l, d) => Emit(Copy(l, d), bits)
      case End => Stop(bits)
      case Broken => Bad
    }
  }

  /** The next symbol; an error when there is none or the input has been overrun. */
  method Symbol(input: Reader, t: Table, ghost lens: seq<nat>) returns (sym: int)
    requires input.Valid() && t.Represents(lens)
    modifies input
    ensures input.Valid() && t.Represents(lens)
    ensures sym >= 0 ==> sym < |lens| && sym < 288 && NextSymbol(lens, old(input.Ahead())) == Some(sym)
    ensures sym >= 0 ==> input.Ahead() == Shr(old(input.Ahead()), lens[sym]) && input.taken == old(input.taken) + lens[sym]
    ensures sym < 0 <==> NextSymbol(lens, old(input.Ahead())).None? || old(input.Now()).Needed(|input.bytes|).None?
    ensures sym >= 0 ==> input.Now() == old(input.Now()).Needed(|input.bytes|).value.Less(lens[sym])
    ensures sym < 0 ==> NextSymbol(lens, old(input.Ahead())).None? || old(input.taken) > 8 * |input.bytes|
  {
    sym := input.Decode(t, lens);
    if sym >= 0 { NextSymbolIs(lens, sym, old(input.Ahead())); }
  }

  method ReadElement(input: Reader, tl: Table, td: Table, ghost lit: seq<nat>, ghost dist: seq<nat>)
    returns (e: Event, ghost used: nat)
    requires input.Valid() && tl.Represents(lit) && td.Represents(dist)
    modifies input
    ensures input.Valid()
    ensures !e.Broken? ==> NextElement(lit, dist, old(input.Ahead())) == e.Meaning(used)
    ensures !e.Broken? ==> input.Ahead() == Shr(old(input.Ahead()), used) && input.taken == old(input.taken) + used
    ensures e.Broken? ==> var next := NextElement(lit, dist, old(input.Ahead()));
                          next.Bad? || old(input.taken) + next.bits > 8 * |input.bytes|
    ensures AfterElement(lit, dist, old(input.Ahead()), old(input.Now()), |input.bytes|)
            == if e.Broken? then None else Some(input.Now())
    ensures e.Run? ==> e.distance >= 1 && e.length >= 3
  {
    hide Matches, Shr, Low, Level.Needed, Level.Received, Level.Less, AfterCopy, NextCopy, Reader.Valid, Table.Represents;
    ghost var w := input.Ahead();
    var sym := Symbol(input, tl, lit);
    if sym < 0 { return Broken, 0; }
    used := lit[sym];
    if sym < 256 { return Byte(sym as byte), used; }
    if sym == END_OF_BLOCK { return End, used; }
    if sym >= 286 { return Broken, 0; }
    e, used := ReadCopy(input, td, dist, sym - 257, w, used);
  }

  /** The extra bits of a length or a distance. */
  method Extra(input: Reader, n: nat) returns (k: nat)
    requires input.Valid() && n <= 13
    modifies input
    ensures input.Valid() && k == Low(old(input.Ahead()), n)
    ensures input.Ahead() == Shr(old(input.Ahead()), n) && input.taken == old(input.taken) + n
    ensures input.Now() == old(input.Now()).Received(n, |input.bytes|)
  {
    k := 0;
    if n != 0 { k := input.Receive(n); }
  }

  method ReadCopy(input: Reader, td: Table, ghost dist: seq<nat>, z: nat, ghost w: nat, ghost n: nat)
    returns (e: Event, ghost used: nat)
    requires input.Valid() && td.Represents(dist) && z < 29 && input.Ahead() == Shr(w, n)
    modifies input
    ensures input.Valid()
    ensures e.Run? || e.Broken?
    ensures e.Run? ==> NextCopy(dist, w, z, n) == e.Meaning(used) && e.distance >= 1 && e.length >= 3
    ensures e.Run? ==> input.Ahead() == Shr(w, used) && n <= used && input.taken == old(input.taken) + used - n
    ensures e.Broken? ==> var next := NextCopy(dist, w, z, n);
                          next.Bad? || old(input.taken) + next.bits - n > 8 * |input.bytes|
    ensures AfterCopy(dist, w, z, n, old(input.Now()), |input.bytes|) == if e.Broken? then None else Some(input.Now())
  {
    hide Matches, Shr, Low, LengthBase, LengthExtra, NextDistance, AfterDistance, Table.Represents;
    var extra := Extra(input, LengthExtra(z));
    ShrAdd(w, n, LengthExtra(z));
    e, used := ReadDistance(input, td, dist, LengthBase(z) + extra, w, n + LengthExtra(z));
  }

  method ReadDistance(input: Reader, td: Table, ghost dist: seq<nat>, length: nat, ghost w: nat, ghost n: nat)
    returns (e: Event, ghost used: nat)
    requires input.Valid() && td.Represents(dist) && input.Ahead() == Shr(w, n)
    modifies input
    ensures input.Valid()
    ensures e.Run? || e.Broken?
    ensures e.Run? ==> NextDistance(dist, w, length, n) == e.Meaning(used) && e.distance >= 1 && e.length == length
    ensures e.Run? ==> input.Ahead() == Shr(w, used) && n <= used && input.taken == old(input.taken) + used - n
    ensures e.Broken? ==> var next := NextDistance(dist, w, length, n);
                          next.Bad? || old(input.taken) + next.bits - n > 8 * |input.bytes|
    ensures AfterDistance(dist, w, n, old(input.Now()), |input.bytes|) == if e.Broken? then None else Some(input.Now())
  {
    hide Matches, Shr, Low, DistBase, DistExtra, Table.Represents, Level.Needed, Level.Received, Level.Less, Reader.Valid;
    DistanceWidth(dist, w, length, n);
    var d := Symbol(input, td, dist);
    if d < 0 || d >= 30 { return Broken, 0; }
    used := n + dist[d];
    ShrAdd(w, n, dist[d]);
    var extra := Extra(input, DistExtra(d));
    ShrAdd(w, used, DistExtra(d));
    used := used + DistExtra(d);
    e := Run(length, DistBase(d) + extra);
  }

  lemma DistanceWidth(dist: seq<nat>, w: nat, length: nat, n: nat)
    ensures var next := NextDistance(dist, w, length, n); (next.Emit? && next.bits >= n) || next.Bad?
  {
  }
}
