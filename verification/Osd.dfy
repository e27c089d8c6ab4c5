/** Glyph lookup and label drawing of the on-screen display (osd/osd.cpp). */
module Glyphs {
  import opened Prelude

  /** A glyph: its code, and its cell in the atlas. */
  datatype Glyph = Glyph(code: nat, left: real, top: real, width: real, height: real)

  // --- the simple search ---

  /** The first glyph of a code. */
  function FirstMatch(glyphs: seq<Glyph>, code: nat): Option<Glyph> {
    if glyphs == [] then None
    else if glyphs[0].code == code then Some(glyphs[0])
    else FirstMatch(glyphs[1..], code)
  }

  // --- stable sorting ---

  /** The glyphs of one code, in their order. */
  function OfCode(glyphs: seq<Glyph>, code: nat): (r: seq<Glyph>) {
    if glyphs == [] then []
    else (if glyphs[0].code == code then [glyphs[0]] else []) + OfCode(glyphs[1..], code)
  }

  ghost predicate Sorted(glyphs: seq<Glyph>) {
    forall i, j :: 0 <= i < j < |glyphs| ==> glyphs[i].code <= glyphs[j].code
  }

  /** In ascending order of codes, and glyphs of the same code in the order in which they were. */
  ghost predicate StablySorted(file: seq<Glyph>, sorted: seq<Glyph>) {
    Sorted(sorted) && forall code: nat :: OfCode(sorted, code) == OfCode(file, code)
  }

  lemma {:induction false} FirstOfCode(glyphs: seq<Glyph>, code: nat)
    ensures FirstMatch(glyphs, code) == if OfCode(glyphs, code) == [] then None else Some(OfCode(glyphs, code)[0])
  {
    if glyphs != [] { FirstOfCode(glyphs[1..], code); }
  }

  /** Any stable sort keeps what the simple search finds. */
  lemma SortingKeepsTheFirst(file: seq<Glyph>, sorted: seq<Glyph>, code: nat)
    requires StablySorted(file, sorted)
    ensures FirstMatch(sorted, code) == FirstMatch(file, code)
  {
    FirstOfCode(sorted, code);
    FirstOfCode(file, code);
  }

  lemma {:induction false} FirstIsAt(glyphs: seq<Glyph>, code: nat, k: nat)
    requires k <= |glyphs| && forall i :: 0 <= i < k ==> glyphs[i].code != code
    ensures k == |glyphs| ==> FirstMatch(glyphs, code) == None
    ensures k < |glyphs| && glyphs[k].code == code ==> FirstMatch(glyphs, code) == Some(glyphs[k])
    ensures k < |glyphs| && (forall i :: k <= i < |glyphs| ==> glyphs[i].code != code) ==> FirstMatch(glyphs, code) == None
  {
    if k > 0 { FirstIsAt(glyphs[1..], code, k - 1); }
    else if glyphs != [] && glyphs[0].code != code && (forall i :: 0 <= i < |glyphs| ==> glyphs[i].code != code) {
      NoMatch(glyphs, code);
    }
  }

  lemma {:induction false} NoMatch(glyphs: seq<Glyph>, code: nat)
    requires forall i :: 0 <= i < |glyphs| ==> glyphs[i].code != code
    ensures FirstMatch(glyphs, code) == None
  {
    if glyphs != [] { NoMatch(glyphs[1..], code); }
  }

  // --- sorting in place ---

  /** A glyph put behind those of smaller or equal code. */
  function Insert(glyphs: seq<Glyph>, g: Glyph): (r: seq<Glyph>)
    ensures |r| == |glyphs| + 1
  {
    if glyphs == [] || glyphs[|glyphs| - 1].code <= g.code then glyphs + [g]
    else Insert(glyphs[..|glyphs| - 1], g) + [glyphs[|glyphs| - 1]]
  }

  function StableSort(file: seq<Glyph>): (r: seq<Glyph>)
    ensures |r| == |file|
  {
    if file == [] then [] else Insert(StableSort(file[..|file| - 1]), file[|file| - 1])
  }

  lemma {:induction false} OfCodeConcat(a: seq<Glyph>, b: seq<Glyph>, code: nat)
    ensures OfCode(a + b, code) == OfCode(a, code) + OfCode(b, code)
  {
    if a == [] {
      assert a + b == b;
    } else {
      OfCodeConcat(a[1..], b, code);
      assert (a + b)[1..] == a[1..] + b;
      Regroup(if a[0].code == code then [a[0]] else [], OfCode(a[1..], code), OfCode(b, code));
    }
  }

  lemma Regroup(x: seq<Glyph>, y: seq<Glyph>, z: seq<Glyph>)
    ensures x + (y + z) == x + y + z
  {
  }

  lemma {:induction false} InsertIsSorted(glyphs: seq<Glyph>, g: Glyph)
    requires Sorted(glyphs)
    ensures Sorted(Insert(glyphs, g)) && (forall x :: x in Insert(glyphs, g) ==> x in glyphs || x == g)
  {
    if glyphs != [] && glyphs[|glyphs| - 1].code > g.code {
      var init, last := glyphs[..|glyphs| - 1], glyphs[|glyphs| - 1];
      InsertIsSorted(init, g);
      forall x | x in Insert(init, g) ensures x.code <= last.code {
        if x in init { var i :| 0 <= i < |init| && init[i] == x; }
      }
    }
  }

  lemma {:induction false} InsertIsStable(glyphs: seq<Glyph>, g: Glyph, code: nat)
    ensures OfCode(Insert(glyphs, g), code) == OfCode(glyphs, code) + OfCode([g], code)
  {
    if glyphs == [] || glyphs[|glyphs| - 1].code <= g.code {
      OfCodeConcat(glyphs, [g], code);
    } else {
      var init, last := glyphs[..|glyphs| - 1], glyphs[|glyphs| - 1];
      InsertIsStable(init, g, code);
      OfCodeConcat(Insert(init, g), [last], code);
      OfCodeConcat(init, [last], code);
      assert glyphs == init + [last];
      assert OfCode([last], code) == [] || OfCode([g], code) == [];
    }
  }

  /** There is a stable sort: inserting one glyph after the other. */
  lemma {:induction false} StableSortExists(file: seq<Glyph>)
    ensures StablySorted(file, StableSort(file))
  {
    if file != [] {
      var init, last := file[..|file| - 1], file[|file| - 1];
      StableSortExists(init);
      forall code: nat ensures OfCode(StableSort(file), code) == OfCode(file, code) {
        InsertIsStable(StableSort(init), last, code);
        OfCodeConcat(init, [last], code);
        assert file == init + [last];
      }
      InsertIsSorted(StableSort(init), last);
    }
  }

  /** The binary search over the sorted glyphs finds what the simple search over the file finds. */
  method FindGlyph(glyphs: seq<Glyph>, code: nat, ghost file: seq<Glyph>) returns (g: Option<Glyph>)
    requires StablySorted(file, glyphs)
    ensures g == FirstMatch(file, code)
  {
    SortingKeepsTheFirst(file, glyphs, code);
    var at, count := 0, |glyphs|;
    while count > 0
      invariant 0 <= at <= at + count <= |glyphs|
      invariant forall i :: 0 <= i < at ==> glyphs[i].code < code
      invariant forall i :: at + count <= i < |glyphs| ==> glyphs[i].code >= code
    {
      var half := count / 2;
      if glyphs[at + half].code < code {
        at, count := at + half + 1, count - half - 1;
      } else {
        count := half;
      }
    }
    FirstIsAt(glyphs, code, at);
    if at == |glyphs| || glyphs[at].code != code { return None; }
    g := Some(glyphs[at]);
  }
}

/** Text is drawn glyph after glyph; a label is text with icons between angle brackets. */
module Labels {
  import opened Prelude
  import opened Glyphs

  // --- UTF-8 ---

  type codepoint = c: nat | c < 0x11_0000

  /** A code point as section 3 of RFC 3629 writes it. */
  function Encode(cp: codepoint): (s: seq<byte>)
    ensures 1 <= |s| <= 4
  {
    if cp < 0x80 then [cp as byte]
    else if cp < 0x800 then [(0xc0 + cp / 0x40) as byte, Tail(cp)]
    else if cp < 0x1_0000 then [(0xe0 + cp / 0x1000) as byte, Tail(cp / 0x40), Tail(cp)]
    else [(0xf0 + cp / 0x4_0000) as byte, Tail(cp / 0x1000), Tail(cp / 0x40), Tail(cp)]
  }

  function Tail(cp: nat): byte { (0x80 + cp % 0x40) as byte }

  function EncodeAll(cps: seq<codepoint>): seq<byte> {
    if cps == [] then [] else Encode(cps[0]) + EncodeAll(cps[1..])
  }

  /** The six low bits of a byte. */
  function Six(b: byte): nat { b as nat % 0x40 }

  /** What the code reads at the start of some bytes: a code point and its length, or nothing when they are cut off. */
  function ReadOne(s: seq<byte>): (r: Option<(nat, nat)>)
    requires s != []
    ensures r.Some? ==> 1 <= r.value.1 <= |s|
  {
    var c := s[0] as nat;
    if c < 0x80 then Some((c, 1))
    else if 0xc0 <= c < 0xe0 && |s| > 1 then Some((c % 0x20 * 0x40 + Six(s[1]), 2))
    else if 0xe0 <= c < 0xf0 && |s| > 2 then Some((c % 0x10 * 0x1000 + Six(s[1]) * 0x40 + Six(s[2]), 3))
    else if |s| > 3 then Some((c % 8 * 0x4_0000 + Six(s[1]) * 0x1000 + Six(s[2]) * 0x40 + Six(s[3]), 4))
    else None
  }

  function Decode(s: seq<byte>): seq<nat> {
    if s == [] then []
    else match ReadOne(s)
      case None => []
      case Some((cp, n)) => [cp] + Decode(s[n..])
  }

  lemma ReadOneRoundTrip(cp: codepoint, rest: seq<byte>)
    ensures ReadOne(Encode(cp) + rest) == Some((cp, |Encode(cp)|))
  {
    hide Tail, Six;
    Digits(cp);
    Leads(cp);
    ReadLong(cp, rest);
  }

  /** The first byte gives the highest digit. */
  lemma Leads(cp: codepoint)
    ensures cp < 0x800 ==> 0xc0 <= 0xc0 + cp / 0x40 < 0xe0 && (0xc0 + cp / 0x40) % 0x20 == cp / 0x40
    ensures cp < 0x1_0000 ==> 0xe0 <= 0xe0 + cp / 0x1000 < 0xf0 && (0xe0 + cp / 0x1000) % 0x10 == cp / 0x1000
    ensures 0xf0 <= 0xf0 + cp / 0x4_0000 < 0xf8 && (0xf0 + cp / 0x4_0000) % 8 == cp / 0x4_0000
  {
  }

  lemma ReadLong(cp: codepoint, rest: seq<byte>)
    requires cp < 0x800 ==> (0xc0 + cp / 0x40) % 0x20 == cp / 0x40
    requires cp < 0x1_0000 ==> (0xe0 + cp / 0x1000) % 0x10 == cp / 0x1000
    requires 0xf0 + cp / 0x4_0000 < 0xf8 && (0xf0 + cp / 0x4_0000) % 8 == cp / 0x4_0000
    requires cp == cp / 0x40 * 0x40 + Six(Tail(cp)) && cp / 0x40 == cp / 0x1000 * 0x40 + Six(Tail(cp / 0x40))
    requires cp / 0x1000 == cp / 0x4_0000 * 0x40 + Six(Tail(cp / 0x1000))
    ensures ReadOne(Encode(cp) + rest) == Some((cp, |Encode(cp)|))
  {
    hide Tail, Six;
    var s := Encode(cp) + rest;
    if cp < 0x80 {
    } else if cp < 0x800 {
      assert s[0] as nat == 0xc0 + cp / 0x40 && s[1] == Tail(cp);
    } else if cp < 0x1_0000 {
      assert s[0] as nat == 0xe0 + cp / 0x1000 && s[1] == Tail(cp / 0x40) && s[2] == Tail(cp);
    } else {
      assert s[0] as nat == 0xf0 + cp / 0x4_0000;
      assert s[1] == Tail(cp / 0x1000) && s[2] == Tail(cp / 0x40) && s[3] == Tail(cp);
    }
  }

  /** A number in digits of six bits. */
  lemma Digits(cp: nat)
    ensures Six(Tail(cp)) == cp % 0x40 && Six(Tail(cp / 0x40)) == cp / 0x40 % 0x40
    ensures Six(Tail(cp / 0x1000)) == cp / 0x1000 % 0x40
    ensures cp == cp / 0x40 * 0x40 + cp % 0x40
    ensures cp / 0x40 == cp / 0x1000 * 0x40 + cp / 0x40 % 0x40
    ensures cp / 0x1000 == cp / 0x4_0000 * 0x40 + cp / 0x1000 % 0x40
  {
    assert cp / 0x1000 == cp / 0x40 / 0x40 && cp / 0x4_0000 == cp / 0x1000 / 0x40;
  }

  /** Well-formed text decodes to exactly its code points. */
  lemma {:induction false} TextRoundTrip(cps: seq<codepoint>)
    ensures Decode(EncodeAll(cps)) == cps
  {
    if cps != [] {
      var rest := EncodeAll(cps[1..]);
      ReadOneRoundTrip(cps[0], rest);
      TextRoundTrip(cps[1..]);
      assert (Encode(cps[0]) + rest)[|Encode(cps[0])|..] == rest;
    }
  }

  // --- drawing ---

  const SIZE_STEP: nat := 0x1000
  const CUSTOM_ICON_BASE: nat := 0xe000
  const ICON_HASH_SPACE: bv32 := 0x1000

  /** Sizes of the atlas and of the frame, and the scale of the role being built. */
  datatype Metrics = Metrics(atlasW: real, atlasH: real, scale: real, fw: real, fh: real) {
    ghost predicate Valid() { fw > 0.0 && fh > 0.0 }
  }

  /** A rectangle on the screen and its rectangle in the atlas. */
  datatype Quad = Quad(x: real, y: real, w: real, h: real, u0: real, v0: real, u1: real, v1: real)

  function Advance(g: Glyph, m: Metrics): real
    requires m.Valid()
  {
    g.width * m.atlasW * m.scale / m.fw
  }

  function QuadOf(g: Glyph, x: real, y: real, m: Metrics): Quad
    requires m.Valid()
  {
    Quad(x, y, Advance(g, m), g.height * m.atlasH * m.scale / m.fh, g.left, g.top, g.left + g.width, g.top + g.height)
  }

  /** The quads drawn from `x` on, and where the next one would start. */
  datatype Drawn = Drawn(quads: seq<Quad>, x: real)

  /** One glyph, found by the simple search; nothing for a code without one. */
  function OneGlyph(file: seq<Glyph>, code: nat, x: real, y: real, m: Metrics): Drawn
    requires m.Valid()
  {
    match FirstMatch(file, code)
    case None => Drawn([], x)
    case Some(g) => Drawn([QuadOf(g, x, y, m)], x + Advance(g, m))
  }

  function Text(file: seq<Glyph>, cps: seq<nat>, offset: nat, x: real, y: real, m: Metrics): Drawn
    requires m.Valid()
  {
    if cps == [] then Drawn([], x)
    else
      var first := OneGlyph(file, cps[0] + offset, x, y, m);
      var rest := Text(file, cps[1..], offset, first.x, y, m);
      Drawn(first.quads + rest.quads, rest.x)
  }

  function ToLower(c: byte): byte { if 65 <= c <= 90 then c + 32 else c }

  function Mixed(letter: byte, h: bv32): bv32 { (h ^ (letter as bv32)) * 16777619 }

  /** The hash of an icon's name, FNV-1a over its letters in lower case. */
  function Hash(name: seq<byte>, h: bv32): bv32 { if name == [] then h else Hash(name[1..], Mixed(ToLower(name[0]), h)) }

  /** Published values of FNV-1a with 32 bits: of nothing and of "a". */
  lemma HashIsFnv()
    ensures Hash([], 0x811c9dc5) == 0x811c9dc5 && Hash([97], 0x811c9dc5) == 0xe40c292c
  {
    var a: seq<byte> := [97];
    MixedA();
    hide Mixed;
    assert a[1..] == [];
  }

  lemma MixedA()
    ensures Mixed(97, 0x811c9dc5) == 0xe40c292c
  {
  }

  /** Capital letters count as small ones. */
  lemma {:induction false} CaseIsNothing(a: seq<byte>, b: seq<byte>, h: bv32)
    requires |a| == |b| && forall i :: 0 <= i < |a| ==> ToLower(a[i]) == ToLower(b[i])
    ensures Hash(a, h) == Hash(b, h)
  {
    hide Mixed, ToLower;
    if a != [] { CaseIsNothing(a[1..], b[1..], Mixed(ToLower(a[0]), h)); }
  }

  function NameHash(name: seq<byte>): nat { (Hash(name, 0x811c9dc5) % ICON_HASH_SPACE) as nat }

  function IconCode(name: seq<byte>, offset: nat): nat { CUSTOM_ICON_BASE + NameHash(name) + offset }

  class DrawList {
    var quads: seq<Quad>

    constructor ()
      ensures quads == []
    {
      quads := [];
    }
  }

  method EmitGlyph(dl: DrawList, g: Glyph, x: real, y: real, m: Metrics) returns (next: real)
    requires m.Valid()
    modifies dl
    ensures dl.quads == old(dl.quads) + [QuadOf(g, x, y, m)] && next == x + Advance(g, m)
  {
    dl.quads := dl.quads + [QuadOf(g, x, y, m)];
    next := x + Advance(g, m);
  }

  /** Draws text: the quads are those of its code points by the simple search over the file. */
  method EmitText(dl: DrawList, glyphs: seq<Glyph>, text: seq<byte>, x: real, y: real, sizeIndex: nat, m: Metrics,
                  ghost file: seq<Glyph>)
    returns (next: real)
    requires m.Valid() && StablySorted(file, glyphs)
    modifies dl
    ensures var d := Text(file, Decode(text), sizeIndex * SIZE_STEP, x, y, m);
            dl.quads == old(dl.quads) + d.quads && next == d.x
  {
    hide QuadOf, Advance, ReadOne, OneGlyph, FirstMatch, StablySorted, Text, Decode;
    var offset := sizeIndex * SIZE_STEP;
    ghost var all := Text(file, Decode(text), offset, x, y, m);
    next := x;
    var i := 0;
    assert text[0..] == text;
    NoText(file, offset, x, y, m);
    while i < |text|
      invariant 0 <= i <= |text|
      invariant var rest := Text(file, Decode(text[i..]), offset, next, y, m);
                dl.quads + rest.quads == old(dl.quads) + all.quads && rest.x == all.x
    {
      var r := ReadOne(text[i..]);
      TextStep(file, text[i..], offset, next, y, m);
      if r.None? { return; }
      assert text[i..][r.value.1..] == text[i + r.value.1..];
      i := i + r.value.1;
      var g := FindGlyph(glyphs, r.value.0 + offset, file);
      OneGlyphIs(file, r.value.0 + offset, next, y, m);
      if g.Some? { next := EmitGlyph(dl, g.value, next, y, m); }
    }
    assert text[i..] == [];
    NoText(file, offset, next, y, m);
  }

  lemma NoText(file: seq<Glyph>, offset: nat, x: real, y: real, m: Metrics)
    requires m.Valid()
    ensures Decode([]) == [] && Text(file, [], offset, x, y, m) == Drawn([], x)
  {
  }

  /** One code point more. */
  lemma TextStep(file: seq<Glyph>, s: seq<byte>, offset: nat, x: real, y: real, m: Metrics)
    requires m.Valid() && s != []
    ensures var r := ReadOne(s);
            Text(file, Decode(s), offset, x, y, m) ==
              match r
              case None => Drawn([], x)
              case Some((cp, n)) =>
                var first := OneGlyph(file, cp + offset, x, y, m);
                var rest := Text(file, Decode(s[n..]), offset, first.x, y, m);
                Drawn(first.quads + rest.quads, rest.x)
  {
    hide OneGlyph, ReadOne;
    var r := ReadOne(s);
    if r.Some? {
      assert Decode(s)[1..] == Decode(s[r.value.1..]);
    }
  }

  lemma OneGlyphIs(file: seq<Glyph>, code: nat, x: real, y: real, m: Metrics)
    requires m.Valid()
    ensures OneGlyph(file, code, x, y, m) ==
              match FirstMatch(file, code)
              case None => Drawn([], x)
              case Some(g) => Drawn([QuadOf(g, x, y, m)], x + Advance(g, m))
  {
  }

  method EmitIcon(dl: DrawList, glyphs: seq<Glyph>, icon: seq<byte>, x: real, y: real, sizeIndex: nat, m: Metrics,
                  ghost file: seq<Glyph>)
    returns (next: real)
    requires m.Valid() && StablySorted(file, glyphs)
    modifies dl
    ensures var d := OneGlyph(file, IconCode(icon, sizeIndex * SIZE_STEP), x, y, m);
            dl.quads == old(dl.quads) + d.quads && next == d.x
  {
    hide IconCode;
    var g := FindGlyph(glyphs, IconCode(icon, sizeIndex * SIZE_STEP), file);
    if g.None? { return x; }
    next := EmitGlyph(dl, g.value, x, y, m);
  }

  // --- labels ---

  const LT: byte := 60
  const GT: byte := 62

  datatype Segment = Verbatim(text: seq<byte>) | Icon(name: seq<byte>)

  /** Where a byte first occurs, or the length. */
  function Find(s: seq<byte>, b: byte): (i: nat)
    ensures i <= |s| && (i < |s| ==> s[i] == b) && b !in s[..i]
  {
    if s == [] || s[0] == b then 0
    else
      var i := 1 + Find(s[1..], b);
      assert s[..i] == [s[0]] + s[1..][..i - 1];
      i
  }

  /** What one turn of the loop takes off a label: text before the first bracket, and what the bracket opens. */
  function Turn(t: seq<byte>): (r: (seq<Segment>, seq<byte>))
    requires t != []
    ensures |r.1| < |t|
  {
    var lt := Find(t, LT);
    if lt == |t| then ([Verbatim(t)], [])
    else
      var (segment, rest) := Bracket(t[lt..]);
      ((if lt > 0 then [Verbatim(t[..lt])] else []) + [segment], rest)
  }

  /** A name in brackets; an empty pair of brackets and an open bracket are text. */
  function Bracket(t: seq<byte>): (r: (Segment, seq<byte>))
    requires t != [] && t[0] == LT
    ensures |r.1| < |t|
  {
    var gt := 1 + Find(t[1..], GT);
    if gt == |t| then (Verbatim(t), [])
    else if gt == 1 then (Verbatim(t[..2]), t[2..])
    else (Icon(t[1..gt]), t[gt + 1..])
  }

  function Segments(t: seq<byte>): seq<Segment>
    decreases |t|
  {
    if t == [] then [] else Turn(t).0 + Segments(Turn(t).1)
  }

  function Plain(s: Segment): seq<byte> {
    match s
    case Verbatim(text) => text
    case Icon(name) => [LT] + name + [GT]
  }

  function Join(segments: seq<Segment>): seq<byte> {
    if segments == [] then [] else Plain(segments[0]) + Join(segments[1..])
  }

  lemma {:induction false} JoinConcat(a: seq<Segment>, b: seq<Segment>)
    ensures Join(a + b) == Join(a) + Join(b)
  {
    hide Plain;
    if a == [] {
      assert a + b == b;
    } else {
      JoinConcat(a[1..], b);
      assert (a + b)[1..] == a[1..] + b;
      Regroup(Plain(a[0]), Join(a[1..]), Join(b));
    }
  }

  lemma Regroup(x: seq<byte>, y: seq<byte>, z: seq<byte>)
    ensures x + (y + z) == x + y + z
  {
  }

  lemma JoinOne(s: Segment)
    ensures Join([s]) == Plain(s)
  {
  }

  lemma BracketTakesAPart(t: seq<byte>)
    requires t != [] && t[0] == LT
    ensures var (s, rest) := Bracket(t);
            Plain(s) + rest == t && (s.Icon? ==> s.name != [] && GT !in s.name)
  {
    var gt := 1 + Find(t[1..], GT);
    if gt < |t| {
      assert t[gt] == GT && t[1..gt] == t[1..][..gt - 1];
      assert t == [LT] + t[1..gt] + [GT] + t[gt + 1..];
    }
  }

  /** A turn takes a part off the front, and names of icons are not empty and end at the first closing bracket. */
  lemma TurnTakesAPart(t: seq<byte>)
    requires t != []
    ensures Join(Turn(t).0) + Turn(t).1 == t
    ensures forall s :: s in Turn(t).0 && s.Icon? ==> s.name != [] && GT !in s.name
  {
    hide Join, Find, Bracket, Plain;
    var lt := Find(t, LT);
    JoinOne(Verbatim(t));
    PlainText(t);
    if lt < |t| {
      BracketTakesAPart(t[lt..]);
      var (segment, rest) := Bracket(t[lt..]);
      JoinOne(segment);
      JoinOne(Verbatim(t[..lt]));
      PlainText(t[..lt]);
      JoinConcat([Verbatim(t[..lt])], [segment]);
      assert t == t[..lt] + t[lt..];
      assert lt == 0 ==> ([] + [segment]) == [segment];
      assert Turn(t).0 == if lt > 0 then [Verbatim(t[..lt])] + [segment] else [segment];
      assert t[..lt] + (Plain(segment) + rest) == t[..lt] + Plain(segment) + rest;
    }
  }

  lemma PlainText(t: seq<byte>)
    ensures Plain(Verbatim(t)) == t
  {
  }

  /** Nothing of a label is lost, and every name has its brackets. */
  lemma {:induction false} NothingIsLost(t: seq<byte>)
    ensures Join(Segments(t)) == t
    ensures forall s :: s in Segments(t) && s.Icon? ==> s.name != [] && GT !in s.name
    decreases |t|
  {
    if t != [] {
      hide Turn;
      TurnTakesAPart(t);
      NothingIsLost(Turn(t).1);
      JoinConcat(Turn(t).0, Segments(Turn(t).1));
    }
  }

  function OneSegment(file: seq<Glyph>, s: Segment, offset: nat, x: real, y: real, m: Metrics): Drawn
    requires m.Valid()
  {
    match s
    case Verbatim(text) => Text(file, Decode(text), offset, x, y, m)
    case Icon(name) => OneGlyph(file, IconCode(name, offset), x, y, m)
  }

  /** The quads of a label's segments, one after the other. */
  function Label(file: seq<Glyph>, segments: seq<Segment>, offset: nat, x: real, y: real, m: Metrics): Drawn
    requires m.Valid()
  {
    if segments == [] then Drawn([], x)
    else
      var first := OneSegment(file, segments[0], offset, x, y, m);
      var rest := Label(file, segments[1..], offset, first.x, y, m);
      Drawn(first.quads + rest.quads, rest.x)
  }

  lemma {:induction false} LabelConcat(file: seq<Glyph>, a: seq<Segment>, b: seq<Segment>, offset: nat, x: real, y: real,
                                       m: Metrics)
    requires m.Valid()
    ensures var first := Label(file, a, offset, x, y, m);
            var rest := Label(file, b, offset, first.x, y, m);
            Label(file, a + b, offset, x, y, m) == Drawn(first.quads + rest.quads, rest.x)
  {
    hide OneSegment;
    if a == [] {
      assert a + b == b;
    } else {
      var one := OneSegment(file, a[0], offset, x, y, m);
      LabelConcat(file, a[1..], b, offset, one.x, y, m);
      assert (a + b)[1..] == a[1..] + b;
      var more := Label(file, a[1..], offset, one.x, y, m);
      Associative(one.quads, more.quads, Label(file, b, offset, more.x, y, m).quads);
    }
  }

  lemma Associative(a: seq<Quad>, b: seq<Quad>, c: seq<Quad>)
    ensures a + (b + c) == a + b + c
  {
  }

  // --- the quads of a label lie side by side ---

  /** Each quad starts where the one before it ends, the first at `x`, and the last ends at `end`. */
  predicate SideBySide(quads: seq<Quad>, x: real, end: real) {
    if quads == [] then x == end else quads[0].x == x && SideBySide(quads[1..], x + quads[0].w, end)
  }

  lemma {:induction false} Beside(a: seq<Quad>, b: seq<Quad>, x: real, middle: real, end: real)
    requires SideBySide(a, x, middle) && SideBySide(b, middle, end)
    ensures SideBySide(a + b, x, end)
  {
    if a == [] {
      assert a + b == b;
    } else {
      Beside(a[1..], b, x + a[0].w, middle, end);
      assert (a + b)[1..] == a[1..] + b;
    }
  }

  lemma GlyphBesideNothing(file: seq<Glyph>, code: nat, x: real, y: real, m: Metrics)
    requires m.Valid()
    ensures var d := OneGlyph(file, code, x, y, m); SideBySide(d.quads, x, d.x)
  {
    hide FirstMatch;
    var d := OneGlyph(file, code, x, y, m);
    if d.quads != [] { assert d.quads[1..] == []; }
  }

  lemma {:induction false} TextIsSideBySide(file: seq<Glyph>, cps: seq<nat>, offset: nat, x: real, y: real, m: Metrics)
    requires m.Valid()
    ensures var d := Text(file, cps, offset, x, y, m); SideBySide(d.quads, x, d.x)
  {
    hide OneGlyph;
    if cps != [] {
      var first := OneGlyph(file, cps[0] + offset, x, y, m);
      GlyphBesideNothing(file, cps[0] + offset, x, y, m);
      TextIsSideBySide(file, cps[1..], offset, first.x, y, m);
      var rest := Text(file, cps[1..], offset, first.x, y, m);
      Beside(first.quads, rest.quads, x, first.x, rest.x);
    }
  }

  /** Text and icons alike: nothing overlaps and there are no gaps, and the next label starts at the end. */
  lemma {:induction false} LabelIsSideBySide(file: seq<Glyph>, segments: seq<Segment>, offset: nat, x: real, y: real,
                                             m: Metrics)
    requires m.Valid()
    ensures var d := Label(file, segments, offset, x, y, m); SideBySide(d.quads, x, d.x)
  {
    hide OneGlyph, Text, IconCode;
    if segments != [] {
      var s := segments[0];
      var first := OneSegment(file, s, offset, x, y, m);
      if s.Icon? { GlyphBesideNothing(file, IconCode(s.name, offset), x, y, m); }
      else { TextIsSideBySide(file, Decode(s.text), offset, x, y, m); }
      LabelIsSideBySide(file, segments[1..], offset, first.x, y, m);
      var rest := Label(file, segments[1..], offset, first.x, y, m);
      Beside(first.quads, rest.quads, x, first.x, rest.x);
    }
  }

  method EmitSegment(dl: DrawList, glyphs: seq<Glyph>, s: Segment, x: real, y: real, sizeIndex: nat, m: Metrics,
                     ghost file: seq<Glyph>)
    returns (next: real)
    requires m.Valid() && StablySorted(file, glyphs)
    modifies dl
    ensures var d := Label(file, [s], sizeIndex * SIZE_STEP, x, y, m);
            dl.quads == old(dl.quads) + d.quads && next == d.x
  {
    hide Text, OneGlyph, IconCode;
    ghost var one := OneSegment(file, s, sizeIndex * SIZE_STEP, x, y, m);
    assert one.quads + [] == one.quads;
    assert Label(file, [s], sizeIndex * SIZE_STEP, x, y, m) == one;
    match s {
      case Verbatim(text) => next := EmitText(dl, glyphs, text, x, y, sizeIndex, m, file);
      case Icon(name) => next := EmitIcon(dl, glyphs, name, x, y, sizeIndex, m, file);
    }
  }

  /** One turn over the label from `i` on: the segments are drawn as they are found. */
  method EmitTurn(dl: DrawList, glyphs: seq<Glyph>, text: seq<byte>, i: nat, x: real, y: real, sizeIndex: nat, m: Metrics,
                  ghost file: seq<Glyph>)
    returns (next: real, j: nat)
    requires m.Valid() && StablySorted(file, glyphs) && i < |text|
    modifies dl
    ensures i < j <= |text| && text[j..] == Turn(text[i..]).1
    ensures var d := Label(file, Turn(text[i..]).0, sizeIndex * SIZE_STEP, x, y, m);
            dl.quads == old(dl.quads) + d.quads && next == d.x
  {
    hide Label, OneSegment, StablySorted, Bracket, Find, Turn;
    ghost var offset := sizeIndex * SIZE_STEP;
    TurnOf(text, i);
    NoSegments(file, offset, x, y, m);
    next, j := x, |text|;
    var lt := i + Find(text[i..], LT);
    if lt == |text| {
      next := EmitSegment(dl, glyphs, Verbatim(text[i..]), next, y, sizeIndex, m, file);
      return;
    }
    LabelConcat(file, TextBefore(text, i, lt), [Bracket(text[lt..]).0], offset, x, y, m);
    if lt > i { next := EmitSegment(dl, glyphs, Verbatim(text[i..lt]), next, y, sizeIndex, m, file); }
    next, j := EmitBracket(dl, glyphs, text, lt, next, y, sizeIndex, m, file);
  }

  function TextBefore(text: seq<byte>, i: nat, lt: nat): seq<Segment>
    requires i <= lt <= |text|
  {
    if lt > i then [Verbatim(text[i..lt])] else []
  }

  lemma TurnOf(text: seq<byte>, i: nat)
    requires i < |text|
    ensures var lt := i + Find(text[i..], LT);
            && lt <= |text| && (lt < |text| ==> text[lt] == LT)
            && Turn(text[i..]) == if lt == |text| then ([Verbatim(text[i..])], [])
                                  else (TextBefore(text, i, lt) + [Bracket(text[lt..]).0], Bracket(text[lt..]).1)
  {
    hide Bracket;
    var t := text[i..];
    var n := Find(t, LT);
    assert t[n..] == text[i + n..] && t[..n] == text[i..i + n];
  }

  lemma NoSegments(file: seq<Glyph>, offset: nat, x: real, y: real, m: Metrics)
    requires m.Valid()
    ensures Label(file, [], offset, x, y, m) == Drawn([], x)
  {
  }

  method EmitBracket(dl: DrawList, glyphs: seq<Glyph>, text: seq<byte>, lt: nat, x: real, y: real, sizeIndex: nat, m: Metrics,
                     ghost file: seq<Glyph>)
    returns (next: real, j: nat)
    requires m.Valid() && StablySorted(file, glyphs) && lt < |text| && text[lt] == LT
    modifies dl
    ensures lt < j <= |text| && text[j..] == Bracket(text[lt..]).1
    ensures var d := Label(file, [Bracket(text[lt..]).0], sizeIndex * SIZE_STEP, x, y, m);
            dl.quads == old(dl.quads) + d.quads && next == d.x
  {
    hide Label, OneSegment, StablySorted;
    ghost var t := text[lt..];
    assert t[1..] == text[lt + 1..];
    var gt := lt + 1 + Find(text[lt + 1..], GT);
    j := |text|;
    if gt == |text| {
      next := EmitSegment(dl, glyphs, Verbatim(text[lt..]), x, y, sizeIndex, m, file);
      return;
    }
    if gt == lt + 1 {
      assert t[..2] == text[lt..gt + 1] && t[2..] == text[gt + 1..];
      next := EmitSegment(dl, glyphs, Verbatim(text[lt..gt + 1]), x, y, sizeIndex, m, file);
    } else {
      assert t[1..gt - lt] == text[lt + 1..gt] && t[gt - lt + 1..] == text[gt + 1..];
      next := EmitSegment(dl, glyphs, Icon(text[lt + 1..gt]), x, y, sizeIndex, m, file);
    }
    j := gt + 1;
  }

  /** Draws a label: the quads are those of its segments, by the simple search over the file. */
  method EmitLabelOrIcon(dl: DrawList, glyphs: seq<Glyph>, text: seq<byte>, x: real, y: real, sizeIndex: nat, m: Metrics,
                         ghost file: seq<Glyph>)
    returns (next: real)
    requires m.Valid() && StablySorted(file, glyphs)
    modifies dl
    ensures var d := Label(file, Segments(text), sizeIndex * SIZE_STEP, x, y, m);
            dl.quads == old(dl.quads) + d.quads && next == d.x
  {
    hide Turn, Label, StablySorted;
    ghost var offset := sizeIndex * SIZE_STEP;
    ghost var all := Label(file, Segments(text), offset, x, y, m);
    next := x;
    var i := 0;
    assert text[0..] == text;
    while i < |text|
      invariant 0 <= i <= |text|
      invariant var rest := Label(file, Segments(text[i..]), offset, next, y, m);
                dl.quads + rest.quads == old(dl.quads) + all.quads && rest.x == all.x
    {
      LabelConcat(file, Turn(text[i..]).0, Segments(Turn(text[i..]).1), offset, next, y, m);
      next, i := EmitTurn(dl, glyphs, text, i, next, y, sizeIndex, m, file);
    }
    NoSegments(file, offset, next, y, m);
  }
}
