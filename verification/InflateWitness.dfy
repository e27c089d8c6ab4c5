/** An input that ends inside a block and is accepted (osd/stb_image.h). */
module InflateWitness {
  import opened Prelude
  import opened Bits
  import opened CanonicalCode
  import opened Huffman
  import opened BitLevel
  import opened BitReader
  import opened Lz77
  import opened InflateBlock

  /** The end of a block is the bit 0, and the first two literals are the bits 10 and 11; there are no distances. */
  const LIT: seq<nat> := seq(257, i => if i < 2 then 2 else if i == END_OF_BLOCK then 1 else 0)
  const DIST: seq<nat> := []
  /** The bits 10101010, the first one lowest. */
  const INPUT: seq<nat> := [0x55]
  const START := Level(0, 0, false, 0)

  lemma {:induction false} CountLit(l: nat, n: nat)
    requires l > 0 && n <= 257
    ensures Count(LIT, l, n) == (if l == 2 && n > 0 then if n == 1 then 1 else 2 else 0) + if l == 1 && n == 257 then 1 else 0
  {
    if n > 0 { CountLit(l, n - 1); }
  }

  lemma {:induction false} KraftLit(n: nat)
    requires n <= 257
    ensures Kraft(LIT, n) == (if n == 0 then 0 else if n == 1 then 0x2000 else 0x4000) + if n == 257 then 0x4000 else 0
  {
    Pow2Values();
    assert Pow2(13) == 0x2000 && Pow2(14) == 0x4000 by { assert Pow2(12) == 0x1000; }
    if n > 0 { KraftLit(n - 1); }
  }

  /** The codewords of the first literal and of the end of a block. */
  lemma Codewords()
    ensures |LIT| == 257 && LIT[0] == 2 && LIT[END_OF_BLOCK] == 1 && Code(LIT, 0) == 2 && Code(LIT, END_OF_BLOCK) == 0
  {
    CountLit(1, 257);
    CountLit(2, 0);
    CountLit(1, END_OF_BLOCK);
    assert Size(LIT, 1) == 1;
    assert First(LIT, 2) == 2 * CanonicalCode.End(LIT, 1) == 2;
  }

  /** Reading 1 and then 0 gives the first literal. */
  lemma NextLiteral(w: nat)
    requires w % 4 == 1
    ensures NextSymbol(LIT, w) == Some(0) && NextElement(LIT, DIST, w) == Emit(Literal(0), 2)
  {
    hide Code, LIT;
    Codewords();
    assert Rev(w, 1) == w % 2;
    assert Rev(w, 2) == 2 * Rev(w, 1) + Shr(w, 1) % 2;
    NextSymbolIs(LIT, 0, w);
  }

  /** Reading 0 ends the block. */
  lemma NextEnd(w: nat)
    requires w % 2 == 0
    ensures NextSymbol(LIT, w) == Some(END_OF_BLOCK) && NextElement(LIT, DIST, w) == Stop(1)
  {
    hide Code, LIT;
    Codewords();
    assert Rev(w, 1) == w % 2;
    NextSymbolIs(LIT, END_OF_BLOCK, w);
  }

  /** The first `k` literals, and the level after them. */
  function Literals(k: nat): (r: seq<Token>)
    ensures |r| == k
  {
    if k == 0 then [] else Literals(k - 1) + [Literal(0)]
  }

  function LevelAfter(k: nat): Level
    requires k <= 4
  {
    if k == 0 then START else Level(1, 32 - 2 * k, false, 24)
  }

  function Zeros(k: nat): seq<byte> { if k == 0 then [] else Zeros(k - 1) + [0] }

  lemma FirstFill()
    ensures START.Filled(1) == Level(1, 32, false, 24)
  {
    FilledStep(START, 1);
    FilledStep(Level(1, 8, false, 0), 1);
    FilledStep(Level(1, 16, false, 8), 1);
    FilledStep(Level(1, 24, false, 16), 1);
  }

  lemma ShrInput(k: nat)
    requires k <= 4
    ensures k < 4 ==> Shr(0x55, 2 * k) % 4 == 1
    ensures k == 4 ==> Shr(0x55, 2 * k) == 0
  {
    assert Shr(0x55, 4) == 5 && Shr(0x55, 2) == 21;
    assert Shr(5, 4) == 0 && Shr(5, 2) == 1;
    ShrAdd(0x55, 4, 2);
    ShrAdd(0x55, 4, 4);
  }

  lemma {:induction false} LiteralsAreRead(k: nat)
    requires k <= 4
    ensures After(LIT, DIST, 0x55, Literals(k)) == Some(2 * k)
    ensures AfterTokens(LIT, DIST, 0x55, Literals(k), START, 1) == Some(LevelAfter(k))
    ensures Expand([], Literals(k)) == Some(Zeros(k))
  {
    hide LIT, NextElement, Shr, NextSymbol, Level.Filled, After, AfterTokens, AfterElement, Expand, LevelAfter, Apply;
    if k == 0 {
      Nothing(LIT, DIST, 0x55, [], START, 1);
      assert LevelAfter(0) == START by { StartLevel(); }
    } else {
      LiteralsAreRead(k - 1);
      ShrInput(k - 1);
      NextLiteral(Shr(0x55, 2 * (k - 1)));
      OneMore(Shr(0x55, 2 * (k - 1)), k);
      Append(Zeros(k - 1));
      Extend(LIT, DIST, 0x55, [], Literals(k - 1), 2 * (k - 1), START, 1);
    }
  }

  lemma StartLevel()
    ensures LevelAfter(0) == START
  {
  }

  lemma Append(out: seq<byte>)
    ensures Apply(out, Literal(0)) == Some(out + [0])
  {
  }

  lemma OneMore(w: nat, k: nat)
    requires 0 < k <= 4 && NextSymbol(LIT, w) == Some(0)
    ensures AfterElement(LIT, DIST, w, LevelAfter(k - 1), 1) == Some(LevelAfter(k))
  {
    FirstFill();
  }

  /** Nine bits of a block in an input of eight, read in time by the decoder. */
  lemma BlockIsLonger()
    ensures |INPUT| == 1 && IsBlock(LIT, DIST, 0x55, Literals(4), 9) && Expand([], Literals(4)) == Some([0, 0, 0, 0])
    ensures InTime(LIT, DIST, 0x55, Literals(4), START, |INPUT|)
  {
    hide Shr, NextElement, NextSymbol, Expand;
    LiteralsAreRead(4);
    ShrInput(4);
    NextEnd(0);
    assert Zeros(2) == [0, 0] && Zeros(4) == [0, 0, 0, 0];
  }

  lemma ListsFit()
    ensures CodeLengths(LIT) && CodeLengths(DIST)
    ensures Kraft(LIT, |LIT|) <= Pow2(MAX_BITS) && Kraft(DIST, |DIST|) <= Pow2(MAX_BITS)
  {
    KraftLit(257);
    Pow2Values();
  }

  method Tables() returns (tl: Table, td: Table)
    ensures tl.Represents(LIT) && td.Represents(DIST)
  {
    hide Table.Represents, CodeLengths, Kraft, Pow2, LIT, DIST;
    ListsFit();
    tl := new Table();
    td := new Table();
    var ok := tl.Build(LIT);
    ok := td.Build(DIST);
  }

  /** The decoder accepts the block and has taken nine bits of eight. */
  method PrematureEndIsAccepted() returns (r: Outcome, ghost taken: nat)
    ensures r.Done? && taken == 9 > 8 * |INPUT|
  {
    hide IsBlock, InTime, After, AfterTokens, AfterElement, NextElement, Expand, Table.Represents, Inflater.Verdict,
         Inflater.Blame, LIT, Shr, Literals, Value, Reader.Valid;
    var tl, td := Tables();
    var input := new Reader(INPUT);
    var buf := new byte[4];
    var inflater := new Inflater(input, buf, false);
    ReadInput();
    BlockIsLonger();
    assert inflater.Written() == [];
    ghost var tokens, bits, granted;
    r, tokens, bits, granted := inflater.ParseBlock(tl, td, LIT, DIST);
    taken := input.taken;
    inflater.AcceptedExactlyInTime(r, LIT, DIST, 0x55, [], tokens, bits, Literals(4), 9, START);
    if r.Done? { OneReading(LIT, DIST, 0x55, tokens, taken, Literals(4), 9); }
  }

  lemma ReadInput()
    ensures Value(INPUT, 0) == 0x55
  {
  }
}
