/** The inflate decoder (osd/stb_image.h). The input that is still ahead is one natural number, its first bit the
    least significant: the bit buffer followed by the unread bytes and then by zeros without end. */
module BitReader {
  import opened Bits
  import opened CanonicalCode
  import opened Huffman
  import opened BitLevel
  import opened Prelude

  /** Bytes from position `p`, the first byte lowest. */
  function Value(bytes: seq<nat>, p: nat): nat
    requires p <= |bytes|
    decreases |bytes| - p
  {
    if p == |bytes| then 0 else bytes[p] + 256 * Value(bytes, p + 1)
  }

  class Reader {
    const bytes: seq<nat>
    var pos: nat
    var numBits: nat
    var codeBuffer: nat
    var hitEnd: bool
    /** Bits handed out, and zero bits made up past the end of the input other than the sixteen of padding. */
    ghost var taken: nat
    ghost var madeUp: nat

    constructor (input: seq<nat>)
      requires forall i :: 0 <= i < |input| ==> input[i] < 256
      ensures Valid() && bytes == input && taken == 0 && Now() == Level(0, 0, false, 0)
      ensures Ahead() == Value(input, 0)
    {
      bytes, pos, numBits, codeBuffer, hitEnd := input, 0, 0, 0, false;
      taken, madeUp := 0, 0;
      new;
      Begins();
    }

    /** How full the buffer is. */
    ghost function Now(): Level
      reads this
    {
      Level(pos, numBits, hitEnd, madeUp)
    }

    ghost predicate Valid()
      reads this
    {
      && (forall i :: 0 <= i < |bytes| ==> bytes[i] < 256)
      && numBits <= 32 && codeBuffer < Pow2(numBits)
      && Now().Sound(|bytes|) && Now().Taken() == taken
    }

    /** Everything still ahead. */
    ghost function Ahead(): nat
      requires Valid()
      reads this
    {
      codeBuffer + Shl(Value(bytes, pos), numBits)
    }

    lemma Begins()
      requires forall i :: 0 <= i < |bytes| ==> bytes[i] < 256
      requires codeBuffer == 0 && taken == 0 && Now() == Level(0, 0, false, 0)
      ensures Valid() && Ahead() == Value(bytes, 0)
    {
      hide Value;
    }

    method Get8() returns (b: nat)
      requires Valid()
      modifies this`pos
      ensures b < 256 && old(pos) <= pos <= |bytes| && Value(bytes, old(pos)) == b + 256 * Value(bytes, pos)
      ensures pos == if old(pos) == |bytes| then |bytes| else old(pos) + 1
    {
      if pos >= |bytes| { return 0; }
      b := bytes[pos];
      pos := pos + 1;
    }

    /** Refills the bit buffer to more than 24 bits; what is ahead does not change. */
    method FillBits()
      requires Valid() && numBits <= 24
      modifies this`pos, this`numBits, this`codeBuffer, this`madeUp
      ensures Valid() && 24 < numBits && Ahead() == old(Ahead()) && Now() == old(Now()).Filled(|bytes|)
    {
      ghost var start := Now();
      FilledStep(start, |bytes|);
      FillByte();
      while numBits <= 24
        invariant Valid() && Ahead() == old(Ahead())
        invariant start.Filled(|bytes|) == if numBits <= 24 then Now().Filled(|bytes|) else Now()
        decreases 32 - numBits
      {
        FilledStep(Now(), |bytes|);
        FillByte();
      }
    }

    /** One turn of the refill. The guard against a corrupt bit buffer never fires. */
    method FillByte()
      requires Valid() && numBits <= 24
      modifies this`pos, this`numBits, this`codeBuffer, this`madeUp
      ensures Valid() && numBits == old(numBits) + 8 && Ahead() == old(Ahead()) && Now() == old(Now()).OneByte(|bytes|)
    {
      ShlPow2(numBits);
      hide Or, Shl, Shr, Pow2;
      assert codeBuffer < Shl(1, numBits);
      ghost var atEnd := pos == |bytes|;
      var b := Get8();
      OneMoreByte(codeBuffer, b, Value(bytes, pos), numBits);
      codeBuffer := Or(codeBuffer, Shl(b, numBits));
      numBits := numBits + 8;
      if atEnd { madeUp := madeUp + 8; }
    }

    /** Drops `n` bits of the buffer. */
    method Skip(n: nat)
      requires Valid() && n <= numBits
      modifies this`numBits, this`codeBuffer, this`taken
      ensures Valid() && Now() == old(Now()).Less(n) && taken == old(taken) + n
      ensures Ahead() == Shr(old(Ahead()), n)
    {
      ShrBelow(codeBuffer, Value(bytes, pos), numBits, n);
      ShrFits(codeBuffer, numBits, n);
      codeBuffer := Shr(codeBuffer, n);
      numBits := numBits - n;
      taken := taken + n;
    }

    /** The buffer holds the first bits of what is ahead. */
    lemma Buffered(n: nat)
      requires Valid() && n <= numBits
      ensures Low(codeBuffer, n) == Low(Ahead(), n)
      ensures Rev(codeBuffer, n) == Rev(Ahead(), n)
    {
      var v := Value(bytes, pos);
      Above(v, codeBuffer, numBits);
      LowLow(Ahead(), n, numBits);
      RevLow(Ahead(), n, numBits);
    }

    /** The next `n` bits as a number. */
    method Receive(n: nat) returns (k: nat)
      requires Valid() && n <= 24
      modifies this`pos, this`numBits, this`codeBuffer, this`madeUp, this`taken
      ensures Valid() && k == Low(old(Ahead()), n) && Ahead() == Shr(old(Ahead()), n) && taken == old(taken) + n
      ensures Now() == old(Now()).Received(n, |bytes|)
    {
      if numBits < n { FillBits(); }
      Buffered(n);
      k := Low(codeBuffer, n);
      Skip(n);
    }

    /** At least sixteen bits in the buffer, or a refusal when the padding has been used already. */
    method Need16() returns (ok: bool)
      requires Valid()
      modifies this`pos, this`numBits, this`codeBuffer, this`madeUp, this`hitEnd
      ensures Valid() && Ahead() == old(Ahead()) && (ok ==> numBits >= 16)
      ensures old(Now()).Needed(|bytes|) == if ok then Some(Now()) else None
      ensures !ok ==> hitEnd && pos == |bytes| && Now() == old(Now())
    {
      ok := true;
      if numBits < 16 {
        if pos >= |bytes| {
          if !hitEnd {
            Pow2Monotone(numBits, numBits + 16);
            ShlZero(numBits);
            ShlZero(numBits + 16);
            hitEnd := true;
            numBits := numBits + 16;
          } else {
            return false;
          }
        } else {
          FillBits();
        }
      }
    }

    /** Reads one codeword: fails exactly when none comes next or the padding has been used already. */
    method Decode(t: Table, ghost lens: seq<nat>) returns (sym: int)
      requires Valid() && t.Represents(lens)
      modifies this
      ensures Valid()
      ensures sym == -1 || (0 <= sym < 288 && sym < |lens|)
      ensures sym >= 0 ==> Matches(lens, sym, old(Ahead()))
      ensures sym >= 0 ==> Ahead() == Shr(old(Ahead()), lens[sym]) && taken == old(taken) + lens[sym]
      ensures sym >= 0 ==> old(Now()).Needed(|bytes|).Some? && Now() == old(Now()).Needed(|bytes|).value.Less(lens[sym])
      ensures sym < 0 ==> Ahead() == old(Ahead()) && taken == old(taken)
      ensures sym < 0 <==> old(Now()).Needed(|bytes|).None? || forall s: nat :: !Matches(lens, s, old(Ahead()))
    {
      var ok := Need16();
      if !ok { return -1; }
      FastIndex();
      var b := t.fast[Low(codeBuffer, FAST_BITS)];
      FastFound(lens, Ahead(), b);
      if b != 0 {
        var s := b / 512;
        Skip(s);
        return b % 512;
      }
      sym := DecodeSlow(t, lens);
    }

    lemma FastIndex()
      requires Valid() && numBits >= 16
      ensures Low(codeBuffer, FAST_BITS) == Low(Ahead(), FAST_BITS) < FAST_SIZE
    {
      Buffered(FAST_BITS);
      SplitLow(codeBuffer, FAST_BITS);
      Pow2Values();
    }

    method DecodeSlow(t: Table, ghost lens: seq<nat>) returns (sym: int)
      requires Valid() && numBits >= 16 && t.Represents(lens)
      requires Rev(Ahead(), FAST_BITS) >= End(lens, FAST_BITS)
      modifies this`numBits, this`codeBuffer, this`taken
      ensures Valid()
      ensures sym == -1 || (0 <= sym < 288 && sym < |lens|)
      ensures sym >= 0 ==> Matches(lens, sym, old(Ahead()))
      ensures sym >= 0 ==> Ahead() == Shr(old(Ahead()), lens[sym]) && taken == old(taken) + lens[sym]
      ensures sym >= 0 ==> Now() == old(Now()).Less(lens[sym])
      ensures sym < 0 ==> Ahead() == old(Ahead()) && taken == old(taken)
      ensures sym < 0 <==> forall s: nat :: !Matches(lens, s, old(Ahead()))
    {
      hide BitReverse, First, End, FirstSym, Matches, Rev, Shl, Shr, Pow2;
      ghost var w := Ahead();
      Buffered(16);
      var k := BitReverse(codeBuffer, 16);
      ReverseIsReading(codeBuffer, 16);
      RevBound(w, 16);
      Pow2Values();
      var s := FAST_BITS + 1;
      while k >= t.maxcode[s]
        invariant FAST_BITS < s <= 16 && Rev(w, s - 1) >= End(lens, s - 1)
        modifies {}
        decreases 16 - s
      {
        SlowCompare(lens, w, s);
        s := s + 1;
      }
      if s >= 16 {
        MatchExists(lens, w);
        return -1;
      }
      SlowCompare(lens, w, s);
      ghost var found := SlowFound(lens, w, s);
      var b := Shr(k, 16 - s) - t.firstcode[s] + t.firstsymbol[s];
      if b >= 288 { return -1; }
      if t.size[b] != s { return -1; }
      Skip(s);
      return t.value[b];
    }
  }
}
