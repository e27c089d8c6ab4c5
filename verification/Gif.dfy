/** The LZW decoder of GIF rasters (osd/stb_image.h), against the string table of Appendix F of the GIF89a
    specification. */
module Lzw {
  import opened Prelude
  import opened Bits

  const TABLE_SIZE: nat := 8192

  /** The string table, the code before, and the width of the next code. A decoder starts at the first clear code. */
  datatype Dict = Dict(table: seq<seq<byte>>, prev: Option<nat>, width: nat, started: bool)
  datatype Event = Next(dict: Dict, out: seq<byte>) | End | Fail

  /** One string for each colour index, and the two codes that stand for none. */
  function Roots(n: nat): (t: seq<seq<byte>>)
    ensures |t| == n && forall i :: 0 <= i < n ==> t[i] == [(i % 256) as byte]
  {
    seq(n, i => [(i % 256) as byte])
  }

  function Initial(cs: nat): seq<seq<byte>> { Roots(Pow2(cs)) + [[], []] }

  predicate IsColour(cs: nat, code: nat) { code != Pow2(cs) && code != Pow2(cs) + 1 }

  /** The table holds a string for every code but those two. */
  ghost predicate Good(cs: nat, d: Dict) {
    && Pow2(cs) + 2 <= |d.table| <= TABLE_SIZE && d.width >= 1
    && (forall i :: 0 <= i < |d.table| && IsColour(cs, i) ==> d.table[i] != [])
    && (d.prev.Some? ==> d.prev.value < |d.table| && IsColour(cs, d.prev.value))
    && (d.prev.None? ==> |d.table| == Pow2(cs) + 2)
  }

  /** Codes get wider when the table has filled the present width, up to twelve bits. */
  function Widen(size: nat, width: nat): (r: nat)
    ensures r >= width
  {
    if Low(size, width) == 0 && size <= 0xfff then width + 1 else width
  }

  /** The string a code adds to the table: the string before and the first byte of its own. */
  function Entry(before: seq<byte>, table: seq<seq<byte>>, code: nat): seq<byte>
    requires before != [] && (code < |table| ==> table[code] != [])
  {
    before + [if code < |table| then table[code][0] else before[0]]
  }

  /** What one code does. */
  function Step(cs: nat, d: Dict, code: nat): (e: Event)
    requires Good(cs, d)
    ensures e.Next? ==> Good(cs, e.dict)
  {
    if code == Pow2(cs) then Next(Dict(Initial(cs), None, cs + 1, true), [])
    else if code == Pow2(cs) + 1 then End
    else if code > |d.table| || !d.started then Fail
    else match d.prev
      case None =>
        if code == |d.table| then Fail
        else Next(d.(prev := Some(code), width := Widen(|d.table|, d.width)), d.table[code])
      case Some(p) =>
        if |d.table| == TABLE_SIZE then Fail
        else
          var table := d.table + [Entry(d.table[p], d.table, code)];
          Next(Dict(table, Some(code), Widen(|table|, d.width), true), table[code])
  }

  /** The colour indices of `n` bits of codes, the first bit of `w` first; None for a corrupt raster. */
  function Run(cs: nat, d: Dict, w: nat, n: nat): Option<seq<byte>>
    requires Good(cs, d)
    decreases n
  {
    if n < d.width then Some([])
    else match Step(cs, d, Low(w, d.width))
      case End => Some([])
      case Fail => None
      case Next(next, out) =>
        match Run(cs, next, Shr(w, d.width), n - d.width)
        case None => None
        case Some(rest) => Some(out + rest)
  }

  function Start(cs: nat): Dict { Dict(Initial(cs), None, cs + 1, false) }
  function Cleared(cs: nat): Dict { Dict(Initial(cs), None, cs + 1, true) }

  // --- compression is undone ---

  function Concat(parts: seq<seq<byte>>): seq<byte> {
    if parts == [] then [] else parts[0] + Concat(parts[1..])
  }

  /** The compressor's table when it emits part `k`: every earlier part with the first byte of the part after it. */
  function Compressor(cs: nat, parts: seq<seq<byte>>, k: nat): (t: seq<seq<byte>>)
    requires k < |parts| && forall i :: 0 <= i < |parts| ==> parts[i] != []
    ensures |t| == Pow2(cs) + 2 + k
  {
    if k == 0 then Initial(cs) else Compressor(cs, parts, k - 1) + [parts[k - 1] + [parts[k][0]]]
  }

  /** The codes of data cut into parts, each of which is in the compressor's table. */
  ghost predicate Compressed(cs: nat, parts: seq<seq<byte>>, codes: seq<nat>) {
    && |codes| == |parts|
    && (forall i :: 0 <= i < |parts| ==> parts[i] != [])
    && forall k :: 0 <= k < |parts| ==>
         var t := Compressor(cs, parts, k);
         codes[k] < |t| && IsColour(cs, codes[k]) && t[codes[k]] == parts[k]
  }

  /** The width of code `k` after a clear code: it grows with the compressor's table. */
  function WidthAt(cs: nat, k: nat): nat {
    if k == 0 then cs + 1 else Widen(Pow2(cs) + 1 + k, WidthAt(cs, k - 1))
  }

  lemma NextWidth(cs: nat, k: nat)
    ensures WidthAt(cs, 0) == cs + 1 && WidthAt(cs, k + 1) == Widen(Pow2(cs) + 2 + k, WidthAt(cs, k))
    ensures |Initial(cs)| == Pow2(cs) + 2
  {
  }

  /** The decompressor before part `k`: its table is one entry behind. */
  ghost predicate Behind(cs: nat, parts: seq<seq<byte>>, codes: seq<nat>, k: nat, d: Dict)
    requires Compressed(cs, parts, codes) && k <= |parts|
  {
    && d.started && Good(cs, d)
    && d.table == (if k == 0 then Initial(cs) else Compressor(cs, parts, k - 1))
    && d.prev == (if k == 0 then None else Some(codes[k - 1]))
    && d.width == WidthAt(cs, k)
  }

  /** The decompressor's table has room for the entry of code `k`; the first code adds none. */
  predicate Room(cs: nat, k: nat) { k == 0 || k + Pow2(cs) + 1 < TABLE_SIZE }

  /** What a colour code does after a clear code and later. */
  lemma StepFirst(cs: nat, d: Dict, code: nat)
    requires Good(cs, d) && d.started && IsColour(cs, code) && d.prev.None? && code < |d.table|
    ensures Step(cs, d, code) == Next(d.(prev := Some(code), width := Widen(|d.table|, d.width)), d.table[code])
  {
  }

  lemma StepLater(cs: nat, d: Dict, code: nat)
    requires Good(cs, d) && d.started && IsColour(cs, code) && d.prev.Some? && code <= |d.table| < TABLE_SIZE
    ensures var table := d.table + [Entry(d.table[d.prev.value], d.table, code)];
            Step(cs, d, code) == Next(Dict(table, Some(code), Widen(|table|, d.width), true), table[code])
  {
  }

  /** The entry the decompressor adds is the compressor's. */
  lemma EntryIsCompressors(cs: nat, parts: seq<seq<byte>>, codes: seq<nat>, k: nat)
    requires Compressed(cs, parts, codes) && 0 < k < |parts|
    ensures var before, t := Compressor(cs, parts, k - 1), Compressor(cs, parts, k);
            && codes[k - 1] < |before| && codes[k] <= |before| && before[codes[k - 1]] == parts[k - 1] != []
            && t[codes[k]] == parts[k] && IsColour(cs, codes[k])
            && (codes[k] < |before| ==> before[codes[k]] != [])
            && before + [Entry(parts[k - 1], before, codes[k])] == t
  {
    hide Initial, Pow2;
    var before, t := Compressor(cs, parts, k - 1), Compressor(cs, parts, k);
    assert before[codes[k - 1]] == parts[k - 1];
    assert t[codes[k]] == parts[k];
  }

  /** Each code gives its part, also when it names the entry that is about to be added. */
  lemma PartDecoded(cs: nat, parts: seq<seq<byte>>, codes: seq<nat>, k: nat, d: Dict)
    requires Compressed(cs, parts, codes) && k < |parts| && Room(cs, k) && Behind(cs, parts, codes, k, d)
    ensures var e := Step(cs, d, codes[k]);
            e.Next? && e.out == parts[k] && Behind(cs, parts, codes, k + 1, e.dict)
  {
    hide Widen, WidthAt, Initial, Pow2, Step, Good, Entry;
    NextWidth(cs, k);
    if k == 0 {
      assert Compressor(cs, parts, 0)[codes[0]] == parts[0];
      StepFirst(cs, d, codes[0]);
    } else {
      EntryIsCompressors(cs, parts, codes, k);
      StepLater(cs, d, codes[k]);
    }
  }

  /** The width is enough for every code of the table and the next one, until it is twelve. */
  ghost predicate WideEnough(d: Dict) { d.width <= 12 && (|d.table| < Pow2(d.width) || d.width == 12) }

  lemma StaysWideEnough(cs: nat, d: Dict, code: nat)
    requires Good(cs, d) && WideEnough(d) && 2 <= cs <= 11
    ensures var e := Step(cs, d, code); e.Next? ==> WideEnough(e.dict)
  {
    hide Step, Widen, Pow2, Good;
    NextSize(cs, d, code);
    ClearedWideEnough(cs);
    WidensInTime(|d.table|, d.width);
    WidensInTime(|d.table| + 1, d.width);
  }

  /** A code clears the table, leaves it, or adds one entry. */
  lemma NextSize(cs: nat, d: Dict, code: nat)
    requires Good(cs, d)
    ensures |d.table| > 0
    ensures var e := Step(cs, d, code);
            e.Next? && e.dict != Cleared(cs) ==>
              && (|e.dict.table| == |d.table| || |e.dict.table| == |d.table| + 1)
              && e.dict.width == Widen(|e.dict.table|, d.width)
  {
    hide Widen, Initial, Entry;
  }

  lemma ClearedWideEnough(cs: nat)
    requires 2 <= cs <= 11
    ensures WideEnough(Cleared(cs))
  {
    Pow2Monotone(2, cs);
    TwelveBits(2);
  }

  lemma WidensInTime(size: nat, width: nat)
    requires 0 < size && width <= 12 && (size <= Pow2(width) || width == 12)
    ensures var r := Widen(size, width); r <= 12 && (size < Pow2(r) || r == 12)
  {
    TwelveBits(width);
    SplitLow(size, width);
    if size == Pow2(width) {
      ShlPow2(width);
      Above(1, 0, width);
    }
  }

  lemma TwelveBits(width: nat)
    ensures Pow2(2) == 4 && (width < 12 ==> Pow2(width) <= 2048) && Pow2(12) == 4096
  {
    Pow2Values();
    assert Pow2(11) == 2048 && Pow2(12) == 4096;
    if width < 12 { Pow2Monotone(width, 11); }
  }

  // --- the widths, without the rule for widening them ---

  /** The least width from the first one on whose codes are more than the entries of a table, or twelve. */
  ghost predicate LeastWidth(cs: nat, size: nat, width: nat) {
    && cs + 1 <= width <= 12 && (size < Pow2(width) || width == 12)
    && (width == cs + 1 || Pow2(width - 1) <= size)
  }

  lemma LeastWidthIsUnique(cs: nat, size: nat, a: nat, b: nat)
    requires LeastWidth(cs, size, a) && LeastWidth(cs, size, b)
    ensures a == b
  {
    if a < b { Pow2Monotone(a, b - 1); }
    if b < a { Pow2Monotone(b, a - 1); }
  }

  /** Where the least width did for a smaller table, widening it once is enough. */
  lemma WidenIsLeast(cs: nat, size: nat, width: nat)
    requires 2 <= cs <= 11 && 0 < size && cs + 1 <= width <= 12 && (size <= Pow2(width) || width == 12)
    requires width == cs + 1 || Pow2(width - 1) <= size
    ensures LeastWidth(cs, size, Widen(size, width))
  {
    WidensInTime(size, width);
    if Widen(size, width) > width { WidensLate(size, width); }
  }

  /** Codes are not widened before the table fills the width. */
  lemma WidensLate(size: nat, width: nat)
    requires size > 0 && Widen(size, width) > width
    ensures Widen(size, width) == width + 1 && Pow2(width) <= size
  {
    SplitLow(size, width);
  }

  /** So the width of code `k` after a clear code is the least one for the compressor's table and this code's entry. */
  lemma {:induction false} WidthAtIsLeast(cs: nat, k: nat)
    requires 2 <= cs <= 11
    ensures WidthAt(cs, 0) == cs + 1 && LeastWidth(cs, Pow2(cs) + 1 + k, WidthAt(cs, k))
  {
    hide Widen;
    TwelveBits(cs);
    if k == 0 {
      ShlPow2(cs);
      Pow2Monotone(2, cs);
    } else {
      WidthAtIsLeast(cs, k - 1);
      WidenIsLeast(cs, Pow2(cs) + 1 + k, WidthAt(cs, k - 1));
    }
  }

  /** What a decoder has after some codes, if it has not stopped. */
  function Reached(cs: nat, d: Dict, codes: seq<nat>): (r: Option<Dict>)
    requires Good(cs, d)
    ensures r.Some? ==> Good(cs, r.value)
    decreases |codes|
  {
    if codes == [] then Some(d)
    else match Step(cs, d, codes[0])
      case Next(next, _) => Reached(cs, next, codes[1..])
      case _ => None
  }

  /** And so is the width of every dictionary of a decoder. */
  ghost predicate HasLeastWidth(cs: nat, d: Dict) { |d.table| > 0 && LeastWidth(cs, |d.table|, d.width) }

  lemma StepHasLeastWidth(cs: nat, d: Dict, code: nat)
    requires 2 <= cs <= 11 && Good(cs, d) && HasLeastWidth(cs, d)
    ensures var e := Step(cs, d, code); e.Next? ==> HasLeastWidth(cs, e.dict)
  {
    hide Step, Widen, Pow2, Good;
    NextSize(cs, d, code);
    ClearedHasLeastWidth(cs);
    WidenIsLeast(cs, |d.table|, d.width);
    WidenIsLeast(cs, |d.table| + 1, d.width);
  }

  lemma ClearedHasLeastWidth(cs: nat)
    requires 2 <= cs <= 11
    ensures HasLeastWidth(cs, Cleared(cs)) && HasLeastWidth(cs, Start(cs))
  {
    ClearedWideEnough(cs);
  }

  lemma {:induction false} ReachedHasLeastWidth(cs: nat, d: Dict, codes: seq<nat>)
    requires 2 <= cs <= 11 && Good(cs, d) && HasLeastWidth(cs, d)
    ensures var r := Reached(cs, d, codes); r.Some? ==> HasLeastWidth(cs, r.value)
    decreases |codes|
  {
    hide Step, HasLeastWidth, Good;
    if codes != [] {
      StepHasLeastWidth(cs, d, codes[0]);
      var e := Step(cs, d, codes[0]);
      if e.Next? { ReachedHasLeastWidth(cs, e.dict, codes[1..]); }
    }
  }

  /** In every raster, after any codes: the width is the least one that has a code for the next entry of the table. */
  lemma WidthsOfARaster(cs: nat, codes: seq<nat>)
    requires 2 <= cs <= 11
    ensures Good(cs, Start(cs))
    ensures var r := Reached(cs, Start(cs), codes);
            r.Some? ==> forall w :: LeastWidth(cs, |r.value.table|, w) <==> w == r.value.width
  {
    StartsGood(cs);
    ClearedHasLeastWidth(cs);
    ReachedHasLeastWidth(cs, Start(cs), codes);
    var r := Reached(cs, Start(cs), codes);
    if r.Some? {
      forall w | LeastWidth(cs, |r.value.table|, w) ensures w == r.value.width {
        LeastWidthIsUnique(cs, |r.value.table|, w, r.value.width);
      }
    }
  }

  // --- compressed data as bits ---

  /** The codes from `k` on, each with its width, and what comes after them. */
  function Packed(cs: nat, codes: seq<nat>, k: nat, rest: nat): nat
    requires k <= |codes|
    decreases |codes| - k
  {
    if k == |codes| then rest else Shl(Packed(cs, codes, k + 1, rest), WidthAt(cs, k)) + codes[k]
  }

  /** Their number of bits. */
  function PackedBits(cs: nat, codes: seq<nat>, k: nat): nat
    requires k <= |codes|
    decreases |codes| - k
  {
    if k == |codes| then 0 else WidthAt(cs, k) + PackedBits(cs, codes, k + 1)
  }

  /** A compressor uses at most twelve bits; when its table is full it may go on without a clear code. */
  ghost predicate TwelveBitCodes(codes: seq<nat>) { forall k :: 0 <= k < |codes| ==> codes[k] < 4096 }

  /** The table has room for one entry for each of `m` codes but the first. */
  predicate HasRoom(cs: nat, m: nat) { m + Pow2(cs) + 1 <= TABLE_SIZE }

  /** What was shown before and the outcome of the rest. */
  function After(shown: seq<byte>, rest: Option<seq<byte>>): Option<seq<byte>> {
    if rest.None? then None else Some(shown + rest.value)
  }

  /** Codes are decoded to their parts, and then the decoder goes on with what follows; or they are refused, exactly if
      there is no room for all of them. */
  lemma {:induction false} CodesDecode(cs: nat, parts: seq<seq<byte>>, codes: seq<nat>, k: nat, d: Dict, rest: nat, n: nat)
    returns (last: Dict)
    requires 2 <= cs <= 11 && Compressed(cs, parts, codes) && TwelveBitCodes(codes) && k <= |parts|
    requires Behind(cs, parts, codes, k, d) && WideEnough(d) && n >= PackedBits(cs, codes, k)
    ensures Good(cs, d) && Good(cs, last) && WideEnough(last)
    ensures HasRoom(cs, |parts|) ==> last.width == WidthAt(cs, |codes|)
    ensures Run(cs, d, Packed(cs, codes, k, rest), n)
            == if HasRoom(cs, |parts|) then After(Concat(parts[k..]), Run(cs, last, rest, n - PackedBits(cs, codes, k)))
               else None
    decreases |parts| - k
  {
    hide Compressor, Initial, Step, Behind, WideEnough, Shl, Shr, Low, Pow2, WidthAt, Room, HasRoom, Good;
    last := d;
    IsGood(cs, parts, codes, k, d);
    RoomForAll(cs, parts, codes, k, d);
    if k == |parts| {
      Unshown(Run(cs, d, rest, n));
    } else {
      CodeIsRead(cs, parts, codes, k, d, rest);
      RefusedWhenFull(cs, parts, codes, k, d);
      if Room(cs, k) {
        NextPart(cs, parts, codes, k, d);
        last := CodesDecode(cs, parts, codes, k + 1, Step(cs, d, codes[k]).dict, rest, n - d.width);
        OnePart(parts, k, Run(cs, last, rest, n - PackedBits(cs, codes, k)));
      }
    }
  }

  /** Where a code has no room, not all have; at the end all had. */
  lemma RoomForAll(cs: nat, parts: seq<seq<byte>>, codes: seq<nat>, k: nat, d: Dict)
    requires 2 <= cs <= 11 && Compressed(cs, parts, codes) && k <= |parts| && Behind(cs, parts, codes, k, d)
    ensures if k == |parts| then HasRoom(cs, |parts|) else !Room(cs, k) ==> !HasRoom(cs, |parts|)
  {
    TwelveBits(cs);
  }

  lemma Unshown(rest: Option<seq<byte>>)
    ensures After([], rest) == rest
  {
    if rest.Some? { assert [] + rest.value == rest.value; }
  }

  lemma OnePart(parts: seq<seq<byte>>, k: nat, rest: Option<seq<byte>>)
    requires k < |parts|
    ensures After(Concat(parts[k..]), rest) == After(parts[k], After(Concat(parts[k + 1..]), rest))
  {
    assert parts[k..][1..] == parts[k + 1..];
    if rest.Some? {
      assert parts[k] + (Concat(parts[k + 1..]) + rest.value) == parts[k] + Concat(parts[k + 1..]) + rest.value;
    }
  }

  // --- a whole raster ---

  /** The data between two clear codes, cut into parts, and their codes. */
  datatype Segment = Segment(parts: seq<seq<byte>>, codes: seq<nat>)

  ghost predicate Segments(cs: nat, segments: seq<Segment>) {
    forall s :: s in segments ==> Compressed(cs, s.parts, s.codes) && TwelveBitCodes(s.codes)
  }

  function All(segments: seq<Segment>): seq<byte> {
    if segments == [] then [] else Concat(segments[0].parts) + All(segments[1..])
  }

  /** An end code, or a clear code and the codes of a segment and so on; the first code has the given width. */
  function Stream(cs: nat, segments: seq<Segment>, width: nat, tail: nat): nat {
    if segments == [] then Shl(tail, width) + (Pow2(cs) + 1)
    else
      var codes := segments[0].codes;
      Shl(Packed(cs, codes, 0, Stream(cs, segments[1..], WidthAt(cs, |codes|), tail)), width) + Pow2(cs)
  }

  function StreamBits(cs: nat, segments: seq<Segment>, width: nat): nat {
    if segments == [] then width
    else
      var codes := segments[0].codes;
      width + PackedBits(cs, codes, 0) + StreamBits(cs, segments[1..], WidthAt(cs, |codes|))
  }

  predicate AllHaveRoom(cs: nat, segments: seq<Segment>) { forall s :: s in segments ==> HasRoom(cs, |s.parts|) }

  lemma {:induction false} StreamDecodes(cs: nat, segments: seq<Segment>, d: Dict, tail: nat, n: nat)
    requires 2 <= cs <= 11 && Segments(cs, segments) && Good(cs, d) && WideEnough(d)
    requires n >= StreamBits(cs, segments, d.width)
    ensures Run(cs, d, Stream(cs, segments, d.width, tail), n)
            == if AllHaveRoom(cs, segments) then Some(All(segments)) else None
  {
    hide Run, Step, WideEnough, Compressed, Good, HasRoom, TwelveBitCodes, Behind, WidthAt, PackedBits, Packed, Shl, Concat;
    if segments == [] {
      EndIsRead(cs, d, tail, n);
    } else {
      var first, others := segments[0], segments[1..];
      StartsGood(cs);
      ClearedWideEnough(cs);
      BeginsBehind(cs, first.parts, first.codes);
      var rest := Stream(cs, others, WidthAt(cs, |first.codes|), tail);
      var last := CodesDecode(cs, first.parts, first.codes, 0, Cleared(cs), rest, n - d.width);
      ClearIsRead(cs, d, Packed(cs, first.codes, 0, rest), n);
      assert first.parts[0..] == first.parts;
      if HasRoom(cs, |first.parts|) {
        StreamDecodes(cs, others, last, tail, n - d.width - PackedBits(cs, first.codes, 0));
      }
    }
  }

  /** From the start of a raster on, compressed data, with a clear code before each segment, decode to the data, or they are
      refused as a whole, exactly if some segment has more codes than the table has room for. */
  lemma CompressedDataDecode(cs: nat, segments: seq<Segment>, tail: nat, n: nat)
    requires 2 <= cs <= 11 && Segments(cs, segments) && n >= StreamBits(cs, segments, cs + 1)
    ensures Good(cs, Start(cs))
    ensures Run(cs, Start(cs), Stream(cs, segments, cs + 1, tail), n)
            == if AllHaveRoom(cs, segments) then Some(All(segments)) else None
  {
    hide Run, Step, Segments, StreamBits, Stream, AllHaveRoom, All;
    StartsGood(cs);
    StartWideEnough(cs);
    StreamDecodes(cs, segments, Start(cs), tail, n);
  }

  /** So the data of a compressor that clears its table when the twelve bits are used up are always decoded. */
  lemma ClearedInTimeDecodes(cs: nat, segments: seq<Segment>, tail: nat, n: nat)
    requires 2 <= cs <= 11 && Segments(cs, segments) && n >= StreamBits(cs, segments, cs + 1)
    requires forall s :: s in segments ==> |s.codes| <= 4096
    ensures Good(cs, Start(cs))
    ensures Run(cs, Start(cs), Stream(cs, segments, cs + 1, tail), n) == Some(All(segments))
  {
    hide Run, StreamBits, Stream, All, Compressed, TwelveBitCodes;
    CompressedDataDecode(cs, segments, tail, n);
    forall s | s in segments ensures HasRoom(cs, |s.parts|) { SameLength(cs, s); TwelveBits(cs); }
  }

  lemma SameLength(cs: nat, s: Segment)
    requires Compressed(cs, s.parts, s.codes)
    ensures |s.parts| == |s.codes|
  {
  }

  lemma StartWideEnough(cs: nat)
    requires 2 <= cs <= 11
    ensures WideEnough(Start(cs))
  {
    ClearedWideEnough(cs);
  }

  /** `m` pixels of the first colour, compressed to one code each. */
  function Ones(m: nat): (r: seq<seq<byte>>)
    ensures |r| == m && forall i :: 0 <= i < m ==> r[i] == [0]
  {
    seq(m, _ => [0])
  }

  function Zeros(m: nat): (r: seq<nat>)
    ensures |r| == m && forall i :: 0 <= i < m ==> r[i] == 0
  {
    seq(m, _ => 0)
  }

  lemma {:induction false} FirstColourStays(m: nat, k: nat)
    requires k < m
    ensures Compressor(2, Ones(m), k)[0] == [0]
  {
    if k > 0 { FirstColourStays(m, k - 1); }
  }

  function OneColour(m: nat): seq<Segment> { [Segment(Ones(m), Zeros(m))] }

  /** With four colours up to 8187 such codes are decoded, and from 8188 on they are refused. */
  lemma OneCodeTooMany(m: nat, tail: nat, n: nat)
    requires n >= StreamBits(2, OneColour(m), 3)
    ensures Good(2, Start(2)) && Segments(2, OneColour(m))
    ensures Run(2, Start(2), Stream(2, OneColour(m), 3, tail), n) == if m <= 8187 then Some(All(OneColour(m))) else None
  {
    hide Run, Stream, StreamBits, All, Compressed, TwelveBitCodes;
    AllZeros(m);
    TwelveBits(2);
    CompressedDataDecode(2, OneColour(m), tail, n);
    assert OneColour(m)[0] in OneColour(m);
  }

  lemma AllZeros(m: nat)
    ensures Compressed(2, Ones(m), Zeros(m)) && TwelveBitCodes(Zeros(m))
  {
    hide Compressor, Ones, Zeros;
    TwelveBits(2);
    forall k: nat | k < m ensures Compressor(2, Ones(m), k)[0] == [0] { FirstColourStays(m, k); }
  }

  lemma BeginsBehind(cs: nat, parts: seq<seq<byte>>, codes: seq<nat>)
    requires Compressed(cs, parts, codes) && Good(cs, Cleared(cs))
    ensures Behind(cs, parts, codes, 0, Cleared(cs))
  {
  }

  lemma StartsGood(cs: nat)
    requires cs <= 12
    ensures Good(cs, Start(cs)) && Good(cs, Cleared(cs))
  {
    TwelveBits(12);
    Pow2Monotone(cs, 12);
  }

  /** A clear code. */
  lemma ClearIsRead(cs: nat, d: Dict, w: nat, n: nat)
    requires 2 <= cs <= 11 && Good(cs, d) && WideEnough(d) && Good(cs, Cleared(cs)) && n >= d.width
    ensures Run(cs, d, Shl(w, d.width) + Pow2(cs), n) == Run(cs, Cleared(cs), w, n - d.width)
  {
    hide Initial;
    TwelveBits(cs);
    TwelveBits(d.width);
    Above(w, Pow2(cs), d.width);
    Unshown(Run(cs, Cleared(cs), w, n - d.width));
  }

  lemma IsGood(cs: nat, parts: seq<seq<byte>>, codes: seq<nat>, k: nat, d: Dict)
    requires Compressed(cs, parts, codes) && k <= |parts| && Behind(cs, parts, codes, k, d)
    ensures Good(cs, d) && d.width == WidthAt(cs, k)
  {
  }

  /** Where the room ends, compressed data are refused, whatever the next colour code. */
  lemma RefusedWhenFull(cs: nat, parts: seq<seq<byte>>, codes: seq<nat>, k: nat, d: Dict)
    requires Compressed(cs, parts, codes) && k < |parts| && Behind(cs, parts, codes, k, d)
    ensures Step(cs, d, codes[k]).Fail? <==> !Room(cs, k)
    ensures !Step(cs, d, codes[k]).End?
  {
    if k > 0 && k + Pow2(cs) + 1 < TABLE_SIZE {
      assert |Compressor(cs, parts, k)| == Pow2(cs) + 2 + k;
    }
    var t := Compressor(cs, parts, k);
    assert codes[k] < |t|;
  }

  /** An end code. */
  lemma EndIsRead(cs: nat, d: Dict, tail: nat, n: nat)
    requires 2 <= cs <= 11 && Good(cs, d) && WideEnough(d) && n >= d.width
    ensures Run(cs, d, Shl(tail, d.width) + (Pow2(cs) + 1), n) == Some([])
  {
    TwelveBits(cs);
    TwelveBits(d.width);
    Above(tail, Pow2(cs) + 1, d.width);
  }

  lemma CodeIsRead(cs: nat, parts: seq<seq<byte>>, codes: seq<nat>, k: nat, d: Dict, tail: nat)
    requires Compressed(cs, parts, codes) && TwelveBitCodes(codes) && k < |parts|
    requires Behind(cs, parts, codes, k, d) && WideEnough(d)
    ensures Low(Packed(cs, codes, k, tail), d.width) == codes[k]
    ensures Shr(Packed(cs, codes, k, tail), d.width) == Packed(cs, codes, k + 1, tail)
  {
    hide Compressor, Initial, WideEnough, Good, WidthAt;
    CodeFits(cs, parts, codes, k, d);
    Above(Packed(cs, codes, k + 1, tail), codes[k], d.width);
  }

  lemma NextPart(cs: nat, parts: seq<seq<byte>>, codes: seq<nat>, k: nat, d: Dict)
    requires 2 <= cs <= 11 && Compressed(cs, parts, codes) && k < |parts| && Room(cs, k)
    requires Behind(cs, parts, codes, k, d) && WideEnough(d)
    ensures Good(cs, d)
    ensures var e := Step(cs, d, codes[k]);
            e.Next? && e.out == parts[k] && Behind(cs, parts, codes, k + 1, e.dict) && WideEnough(e.dict)
  {
    hide Compressor, Initial, Step, Behind, WideEnough, Good;
    IsGood(cs, parts, codes, k, d);
    PartDecoded(cs, parts, codes, k, d);
    StaysWideEnough(cs, d, codes[k]);
  }

  lemma CodeFits(cs: nat, parts: seq<seq<byte>>, codes: seq<nat>, k: nat, d: Dict)
    requires Compressed(cs, parts, codes) && TwelveBitCodes(codes) && k < |parts|
    requires Behind(cs, parts, codes, k, d) && WideEnough(d)
    ensures codes[k] < Pow2(d.width)
  {
    TwelveBits(d.width);
    assert codes[k] < |Compressor(cs, parts, k)|;
  }
}

/** The decoder of the code: strings are kept as chains of prefixes in three arrays, and bits come from sub-blocks. */
module Gif {
  import opened Prelude
  import opened Bits
  import opened Lzw
  import GifCursor

  datatype Verdict = More | Stop | Bad

  class Raster {
    const prefix: array<int>
    const first: array<byte>
    const suffix: array<byte>
    var avail: nat
    var oldcode: int
    var codesize: nat
    /** No clear code has been seen. */
    var early: bool
    /** Where the colour indices are drawn. */
    const cursor: GifCursor.Cursor
    ghost var table: seq<seq<byte>>

    /** The arrays hold the table: each string is that of its prefix and one more byte. */
    ghost predicate Holds(cs: nat)
      reads this, prefix, first, suffix
    {
      && prefix.Length == TABLE_SIZE && first.Length == TABLE_SIZE && suffix.Length == TABLE_SIZE && first != suffix
      && avail == |table| <= TABLE_SIZE && Pow2(cs) + 2 <= avail
      && table[..Pow2(cs) + 2] == Initial(cs)
      && forall i :: 0 <= i < avail && IsColour(cs, i) ==> Chained(cs, i)
    }

    ghost predicate Chained(cs: nat, i: nat)
      requires prefix.Length == first.Length == suffix.Length == TABLE_SIZE && i < |table| <= TABLE_SIZE
      reads this, prefix, first, suffix
    {
      && table[i] != [] && first[i] == table[i][0]
      && if prefix[i] < 0 then table[i] == [suffix[i]]
         else prefix[i] < i && IsColour(cs, prefix[i]) && table[i] == table[prefix[i]] + [suffix[i]]
    }

    ghost function Abstract(): Dict
      reads this
    {
      Dict(table, if oldcode < 0 then None else Some(oldcode), codesize, !early)
    }

    ghost predicate Valid(cs: nat)
      reads this, prefix, first, suffix
    {
      Holds(cs) && Good(cs, Abstract())
    }

    constructor (cs: nat, cursor: GifCursor.Cursor)
      requires cs <= 12
      ensures Valid(cs) && Abstract() == Start(cs) && this.cursor == cursor && fresh(prefix) && fresh(first) && fresh(suffix)
    {
      this.cursor := cursor;
      prefix, first, suffix := new int[TABLE_SIZE], new byte[TABLE_SIZE], new byte[TABLE_SIZE];
      avail, oldcode, codesize, early := Pow2(cs) + 2, -1, cs + 1, true;
      table := Initial(cs);
      new;
      TwelveBits(12);
      Pow2Monotone(cs, 12);
      FillRoots(Pow2(cs));
    }

    method FillRoots(clear: nat)
      requires clear <= TABLE_SIZE == prefix.Length == first.Length == suffix.Length && first != suffix
      modifies prefix, first, suffix
      ensures forall k :: 0 <= k < clear ==> prefix[k] == -1 && first[k] == suffix[k] == (k % 256) as byte
    {
      var i := 0;
      while i < clear
        invariant 0 <= i <= clear
        invariant forall k :: 0 <= k < i ==> prefix[k] == -1 && first[k] == suffix[k] == (k % 256) as byte
      {
        prefix[i] := -1;
        first[i] := (i % 256) as byte;
        suffix[i] := (i % 256) as byte;
        i := i + 1;
      }
    }

    /** Draws a code's string, prefixes first. */
    method OutCode(cs: nat, code: nat)
      requires Holds(cs) && code < avail && IsColour(cs, code) && cursor.Ready()
      modifies cursor, cursor.frame
      ensures cursor.Ready() && cursor.drawn == old(cursor.drawn) + table[code]
      decreases code
    {
      assert Chained(cs, code);
      if prefix[code] >= 0 { OutCode(cs, prefix[code]); }
      cursor.Draw(suffix[code]);
    }

    /** Back to the roots. The rest of the arrays is left as it is. */
    method Clear(cs: nat)
      requires Valid(cs) && cs <= 12
      modifies this`avail, this`oldcode, this`codesize, this`early, this`table
      ensures Valid(cs) && Abstract() == Cleared(cs)
    {
      forall i: nat | i < Pow2(cs) ensures prefix[i] < 0 && first[i] == suffix[i] == (i % 256) as byte { RootStays(cs, i); }
      avail, oldcode, codesize, early := Pow2(cs) + 2, -1, cs + 1, false;
      table := Initial(cs);
    }

    lemma RootStays(cs: nat, i: nat)
      requires Holds(cs) && i < Pow2(cs)
      ensures prefix[i] < 0 && first[i] == suffix[i] == (i % 256) as byte
    {
      assert table[i] == table[..Pow2(cs) + 2][i] == Initial(cs)[i] == [(i % 256) as byte];
      assert Chained(cs, i);
      assert prefix[i] < 0 || Chained(cs, prefix[i]);
    }

    /** One code other than the clear and end codes. */
    method Code(cs: nat, code: nat) returns (ok: bool)
      requires Valid(cs) && IsColour(cs, code) && cursor.Ready()
      modifies this, prefix, first, suffix, cursor, cursor.frame
      ensures cursor.Ready()
      ensures var e := Step(cs, old(Abstract()), code);
              if ok then e.Next? && Valid(cs) && Abstract() == e.dict && cursor.drawn == old(cursor.drawn) + e.out else e.Fail?
    {
      hide Widen, Initial, GifCursor.Cursor.Ready;
      if code > avail { return false; }
      if early { return false; }
      if oldcode >= 0 {
        if avail + 1 > TABLE_SIZE { return false; }
        AddEntry(cs, code);
      } else if code == avail {
        return false;
      }
      Show(cs, code);
      ok := true;
    }

    method Show(cs: nat, code: nat)
      requires Holds(cs) && code < avail && IsColour(cs, code) && cursor.Ready()
      modifies this`codesize, this`oldcode, cursor, cursor.frame
      ensures cursor.Ready() && cursor.drawn == old(cursor.drawn) + table[code]
      ensures oldcode == code && codesize == Widen(avail, old(codesize))
    {
      hide GifCursor.Cursor.Ready, Initial;
      OutCode(cs, code);
      if Low(avail, codesize) == 0 && avail <= 0xfff { codesize := codesize + 1; }
      oldcode := code;
    }

    /** One code of any kind. */
    method Handle(cs: nat, code: nat) returns (r: Verdict)
      requires Valid(cs) && cs <= 12 && cursor.Ready()
      modifies this, prefix, first, suffix, cursor, cursor.frame
      ensures cursor.Ready()
      ensures match Step(cs, old(Abstract()), code)
              case Next(next, out) => r.More? && Valid(cs) && Abstract() == next && cursor.drawn == old(cursor.drawn) + out
              case End => r.Stop? && cursor.drawn == old(cursor.drawn)
              case Fail => r.Bad?
    {
      hide Holds, Entry, Initial;
      if code == Pow2(cs) {
        Clear(cs);
        r := More;
      } else if code == Pow2(cs) + 1 {
        r := Stop;
      } else {
        var ok := Code(cs, code);
        r := if ok then More else Bad;
      }
    }

    /** The entry a code adds. */
    method AddEntry(cs: nat, code: nat)
      requires Valid(cs) && oldcode >= 0 && code <= avail < TABLE_SIZE && IsColour(cs, code)
      modifies prefix, first, suffix, this`avail, this`table
      ensures Holds(cs) && table == old(table) + [Entry(old(table)[oldcode], old(table), code)]
    {
      hide Initial;
      var p := avail;
      avail := avail + 1;
      prefix[p] := oldcode;
      first[p] := first[oldcode];
      suffix[p] := first[if code == avail then p else code];
      table := table + [Entry(table[oldcode], table, code)];
    }
  }

  // --- sub-blocks ---

  function At(bytes: seq<byte>, pos: nat): byte { if pos < |bytes| then bytes[pos] else 0 }

  function Past(bytes: seq<byte>, pos: nat): nat { if pos < |bytes| then pos + 1 else pos }

  /** The data of the sub-blocks from here as one number, the first byte lowest; `len` bytes of a block are left. */
  function DataValue(bytes: seq<byte>, pos: nat, len: nat): nat
    decreases if pos < |bytes| then |bytes| - pos else 0, len
  {
    var b := At(bytes, pos) as nat;
    if len > 0 then b + 256 * DataValue(bytes, Past(bytes, pos), len - 1)
    else if b == 0 then 0
    else DataValue(bytes, Past(bytes, pos), b)
  }

  function DataBits(bytes: seq<byte>, pos: nat, len: nat): nat
    decreases if pos < |bytes| then |bytes| - pos else 0, len
  {
    var b := At(bytes, pos) as nat;
    if len > 0 then 8 + DataBits(bytes, Past(bytes, pos), len - 1)
    else if b == 0 then 0
    else DataBits(bytes, Past(bytes, pos), b)
  }

  /** What a raster that starts at `pos` shows, by the specification; None when it is refused. */
  function Shown(bytes: seq<byte>, pos: nat): Option<seq<byte>> {
    var cs := At(bytes, pos) as nat;
    if cs > 12 then None
    else
      StartsGood(cs);
      Run(cs, Start(cs), DataValue(bytes, Past(bytes, pos), 0), DataBits(bytes, Past(bytes, pos), 0))
  }

  // --- data in sub-blocks ---

  /** Sub-blocks, each after its length, and the empty one that ends them. */
  function Blocked(blocks: seq<seq<byte>>): seq<byte>
    requires AreBlocks(blocks)
  {
    if blocks == [] then [0] else [|blocks[0]| as byte] + blocks[0] + Blocked(blocks[1..])
  }

  predicate AreBlocks(blocks: seq<seq<byte>>) { forall b :: b in blocks ==> 0 < |b| < 256 }

  /** Bytes as a number, the first one lowest, and what comes above them. */
  function Number(data: seq<byte>, above: nat): nat {
    if data == [] then above else data[0] as nat + 256 * Number(data[1..], above)
  }

  lemma {:induction false} BlockIsRead(bytes: seq<byte>, pos: nat, len: nat)
    requires pos + len <= |bytes|
    ensures DataValue(bytes, pos, len) == Number(bytes[pos..pos + len], DataValue(bytes, pos + len, 0))
    ensures DataBits(bytes, pos, len) == 8 * len + DataBits(bytes, pos + len, 0)
    decreases len
  {
    if len > 0 {
      BlockIsRead(bytes, pos + 1, len - 1);
      assert bytes[pos..pos + len][1..] == bytes[pos + 1..pos + 1 + (len - 1)];
    }
  }

  lemma {:induction false} NumberConcat(a: seq<byte>, b: seq<byte>, above: nat)
    ensures Number(a + b, above) == Number(a, Number(b, above))
  {
    if a == [] {
      assert a + b == b;
    } else {
      NumberConcat(a[1..], b, above);
      assert (a + b)[1..] == a[1..] + b;
    }
  }

  lemma FirstBlock(bytes: seq<byte>, pos: nat, blocks: seq<seq<byte>>)
    requires AreBlocks(blocks) && pos <= |bytes| && Blocked(blocks) <= bytes[pos..]
    ensures pos < |bytes| && bytes[pos] as nat == if blocks == [] then 0 else |blocks[0]|
    ensures blocks != [] ==>
              var next := pos + 1 + |blocks[0]|;
              next <= |bytes| && bytes[pos + 1..next] == blocks[0] && AreBlocks(blocks[1..])
              && Blocked(blocks[1..]) <= bytes[next..]
  {
    var here, all := bytes[pos..], Blocked(blocks);
    assert bytes[pos] == here[0] == all[0];
    if blocks != [] {
      var n := |blocks[0]|;
      var rest := Blocked(blocks[1..]);
      assert all == [n as byte] + blocks[0] + rest;
      hide Blocked;
      assert bytes[pos + 1..pos + 1 + n] == here[1..1 + n] == all[1..1 + n] == blocks[0];
      assert bytes[pos + 1 + n..] == here[1 + n..];
      assert rest == all[1 + n..];
    }
  }

  lemma LengthIsRead(bytes: seq<byte>, pos: nat)
    requires pos < |bytes|
    ensures DataValue(bytes, pos, 0) == if bytes[pos] == 0 then 0 else DataValue(bytes, pos + 1, bytes[pos] as nat)
    ensures DataBits(bytes, pos, 0) == if bytes[pos] == 0 then 0 else DataBits(bytes, pos + 1, bytes[pos] as nat)
  {
  }

  /** The data of sub-blocks is read, wherever they are cut. */
  lemma {:induction false} BlocksAreRead(bytes: seq<byte>, pos: nat, blocks: seq<seq<byte>>)
    requires AreBlocks(blocks) && pos <= |bytes| && Blocked(blocks) <= bytes[pos..]
    ensures DataValue(bytes, pos, 0) == Number(Concat(blocks), 0) && DataBits(bytes, pos, 0) == 8 * |Concat(blocks)|
    decreases |blocks|
  {
    hide DataValue, DataBits, Blocked;
    FirstBlock(bytes, pos, blocks);
    LengthIsRead(bytes, pos);
    if blocks != [] {
      var n := |blocks[0]|;
      BlocksAreRead(bytes, pos + 1 + n, blocks[1..]);
      BlockIsRead(bytes, pos + 1, n);
      NumberConcat(blocks[0], Concat(blocks[1..]), 0);
    }
  }

  /** Compressed data in sub-blocks are shown: from the bytes of a raster to the indices, or refused for want of room. */
  lemma RasterRoundTrip(bytes: seq<byte>, start: nat, cs: nat, blocks: seq<seq<byte>>, segments: seq<Segment>, tail: nat)
    requires 2 <= cs <= 11 && Segments(cs, segments) && AreBlocks(blocks)
    requires start <= |bytes| && [cs as byte] + Blocked(blocks) <= bytes[start..]
    requires Number(Concat(blocks), 0) == Stream(cs, segments, cs + 1, tail)
    requires 8 * |Concat(blocks)| >= StreamBits(cs, segments, cs + 1)
    ensures Shown(bytes, start) == if AllHaveRoom(cs, segments) then Some(All(segments)) else None
  {
    hide Run, Stream, StreamBits, Segments, AllHaveRoom, All, DataValue, DataBits, Blocked, Number, Concat, Good;
    assert bytes[start] == bytes[start..][0] == cs as byte;
    assert bytes[start + 1..] == bytes[start..][1..];
    assert ([cs as byte] + Blocked(blocks))[1..] == Blocked(blocks);
    BlocksAreRead(bytes, start + 1, blocks);
    CompressedDataDecode(cs, segments, tail, 8 * |Concat(blocks)|);
  }

  // --- the buffer ---

  /** The bits still ahead: those in the buffer and then the data. */
  function Ahead(bytes: seq<byte>, pos: nat, len: nat, bits: nat, valid: nat): nat {
    bits + Shl(DataValue(bytes, pos, len), valid)
  }

  function Left(bytes: seq<byte>, pos: nat, len: nat, valid: nat): nat { valid + DataBits(bytes, pos, len) }

  /** Neither a block's length nor a byte moved into the buffer changes what is ahead. */
  lemma Refill(bytes: seq<byte>, pos: nat, len: nat, bits: nat, valid: nat)
    requires bits < Pow2(valid)
    ensures len == 0 ==>
              var n := At(bytes, pos) as nat;
              if n == 0 then Left(bytes, pos, 0, valid) == valid
              else pos < |bytes| && Ahead(bytes, pos + 1, n, bits, valid) == Ahead(bytes, pos, 0, bits, valid)
                   && Left(bytes, pos + 1, n, valid) == Left(bytes, pos, 0, valid)
    ensures len > 0 ==>
              var next := Past(bytes, pos);
              var more := Or(bits, Shl(At(bytes, pos) as nat, valid));
              more < Pow2(valid + 8) && Ahead(bytes, next, len - 1, more, valid + 8) == Ahead(bytes, pos, len, bits, valid)
              && Left(bytes, next, len - 1, valid + 8) == Left(bytes, pos, len, valid)
  {
    if len > 0 {
      OneMoreByte(bits, At(bytes, pos) as nat, DataValue(bytes, Past(bytes, pos), len - 1), valid);
    }
  }

  /** A code taken from the buffer is the next one ahead. */
  lemma TakeCode(bytes: seq<byte>, pos: nat, len: nat, bits: nat, valid: nat, n: nat)
    requires bits < Pow2(valid) && n <= valid
    ensures Low(Ahead(bytes, pos, len, bits, valid), n) == Low(bits, n)
    ensures Shr(Ahead(bytes, pos, len, bits, valid), n) == Ahead(bytes, pos, len, Shr(bits, n), valid - n)
    ensures Left(bytes, pos, len, valid) - n == Left(bytes, pos, len, valid - n) && Shr(bits, n) < Pow2(valid - n)
  {
    FrontOfBuffer(bits, DataValue(bytes, pos, len), valid, n);
    ShrBelow(bits, DataValue(bytes, pos, len), valid, n);
    ShrFits(bits, valid, n);
  }

  lemma OneCode(cs: nat, d: Dict, w: nat, n: nat, drawn: seq<byte>)
    requires Good(cs, d)
    ensures n < d.width ==> After(drawn, Run(cs, d, w, n)) == Some(drawn)
    ensures n >= d.width ==>
              var e := Step(cs, d, Low(w, d.width));
              After(drawn, Run(cs, d, w, n)) ==
                match e
                case End => Some(drawn)
                case Fail => None
                case Next(next, out) => After(drawn + out, Run(cs, next, Shr(w, d.width), n - d.width))
  {
    hide Step, Low, Shr;
    assert drawn + [] == drawn;
    if n >= d.width && Step(cs, d, Low(w, d.width)).Next? {
      var e := Step(cs, d, Low(w, d.width));
      var rest := Run(cs, e.dict, Shr(w, d.width), n - d.width);
      if rest.Some? { assert drawn + (e.out + rest.value) == drawn + e.out + rest.value; }
    }
  }

  lemma Begin(bytes: seq<byte>, start: nat)
    ensures var cs := At(bytes, start) as nat;
            var p := Past(bytes, start);
            cs <= 12 ==> Good(cs, Start(cs))
                         && Shown(bytes, start) == After([], Run(cs, Start(cs), Ahead(bytes, p, 0, 0, 0), Left(bytes, p, 0, 0)))
  {
    var cs := At(bytes, start) as nat;
    if cs <= 12 {
      StartsGood(cs);
      var shown := Shown(bytes, start);
      if shown.Some? { assert [] + shown.value == shown.value; }
    }
  }

  /** Decodes a raster into a frame. */
  method ProcessRaster(bytes: seq<byte>, start: nat, cursor: GifCursor.Cursor) returns (ok: bool)
    requires cursor.Ready() && cursor.drawn == []
    modifies cursor, cursor.frame
    ensures cursor.Ready() && Shown(bytes, start) == if ok then Some(cursor.drawn) else None
  {
    hide Run, Ahead, Left, Shown, Step, Low, Shr, Or, Shl, DataValue, DataBits, After, Initial, Good, Raster.Holds,
         GifCursor.Cursor.Ready;
    var cs := At(bytes, start) as nat;
    if cs > 12 { TooWide(bytes, start); return false; }
    Begin(bytes, start);
    var g := new Raster(cs, cursor);
    var pos: nat, len: nat, bits: nat, valid: nat := Past(bytes, start), 0, 0, 0;
    while true
      invariant g.Valid(cs) && g.cursor == cursor && cursor.Ready() && bits < Pow2(valid)
      invariant fresh(g) && fresh(g.prefix) && fresh(g.first) && fresh(g.suffix)
      invariant After(cursor.drawn, Run(cs, g.Abstract(), Ahead(bytes, pos, len, bits, valid), Left(bytes, pos, len, valid)))
                == Shown(bytes, start)
      decreases Left(bytes, pos, len, valid), if pos < |bytes| then |bytes| - pos else 0, len
    {
      HasWidth(cs, g.Abstract());
      OneCode(cs, g.Abstract(), Ahead(bytes, pos, len, bits, valid), Left(bytes, pos, len, valid), cursor.drawn);
      Refill(bytes, pos, len, bits, valid);
      if valid < g.codesize {
        if len == 0 {
          len := At(bytes, pos) as nat;
          if len == 0 { return true; }
          pos := Past(bytes, pos);
          Refill(bytes, pos, len, bits, valid);
        }
        bits := Or(bits, Shl(At(bytes, pos) as nat, valid));
        pos, len, valid := Past(bytes, pos), len - 1, valid + 8;
      } else {
        TakeCode(bytes, pos, len, bits, valid, g.codesize);
        HasBits(bytes, pos, len, valid);
        var code := Low(bits, g.codesize);
        bits, valid := Shr(bits, g.codesize), valid - g.codesize;
        var r := g.Handle(cs, code);
        if r.Stop? { return true; }
        if r.Bad? { return false; }
      }
    }
  }

  lemma TooWide(bytes: seq<byte>, start: nat)
    requires At(bytes, start) > 12
    ensures Shown(bytes, start) == None
  {
  }

  lemma HasWidth(cs: nat, d: Dict)
    requires Good(cs, d)
    ensures d.width >= 1
  {
  }

  lemma HasBits(bytes: seq<byte>, pos: nat, len: nat, valid: nat)
    ensures Left(bytes, pos, len, valid) >= valid
  {
  }
}
