/** Reconstruction of the scanlines of an eight-bit, non-interlaced PNG image (osd/stb_image.h), against the filters
    of section 9 of the PNG specification. */
module Png {
  import opened Prelude

  const INT_MAX: nat := 0x7fff_ffff
  const MAX_DIMENSION: nat := 0x100_0000

  // --- the filters of the specification ---

  function Abs(x: int): nat { if x < 0 then -x else x }

  /** The Paeth predictor of section 9.4. */
  function PaethPredictor(a: int, b: int, c: int): int {
    var p := a + b - c;
    var pa, pb, pc := Abs(p - a), Abs(p - b), Abs(p - c);
    if pa <= pb && pa <= pc then a else if pb <= pc then b else c
  }

  /** It is the neighbour closest to the sum of two less the third, the left one on ties and then the upper one. */
  lemma PaethIsClosest(a: int, b: int, c: int)
    ensures var p, r := a + b - c, PaethPredictor(a, b, c);
            && r in [a, b, c] && (forall x :: x in [a, b, c] ==> Abs(p - r) <= Abs(p - x))
            && (Abs(p - a) == Abs(p - r) ==> r == a) && (Abs(p - b) == Abs(p - r) ==> r == a || r == b)
  {
  }

  /** What filter type `ft` predicts from the bytes to the left, above, and above left. */
  function Predict(ft: nat, a: byte, b: byte, c: byte): int {
    if ft == 1 then a as int
    else if ft == 2 then b as int
    else if ft == 3 then (a as int + b as int) / 2
    else if ft == 4 then PaethPredictor(a as int, b as int, c as int)
    else 0
  }

  /** The byte `bpp` to the left of position `k`, or zero. */
  function Left(row: seq<byte>, k: nat, bpp: nat): byte
    requires k <= |row|
  {
    if k < bpp || bpp == 0 then 0 else row[k - bpp]
  }

  function Zeros(n: nat): (r: seq<byte>)
    ensures |r| == n && forall i :: 0 <= i < n ==> r[i] == 0
  {
    seq(n, _ => 0)
  }

  function Cast(x: int): byte { (x % 256) as byte }

  /** Filtering the first `n` bytes of a row: each byte less its prediction. */
  function Filtered(ft: nat, row: seq<byte>, prior: seq<byte>, bpp: nat, n: nat): (r: seq<byte>)
    requires n <= |row| == |prior|
    ensures |r| == n
  {
    if n == 0 then []
    else
      var k := n - 1;
      Filtered(ft, row, prior, bpp, k)
      + [Cast(row[k] as int - Predict(ft, Left(row, k, bpp), prior[k], Left(prior, k, bpp)))]
  }

  /** Reconstructing the first `n` bytes of a row from its filtered bytes. */
  function Restored(ft: nat, line: seq<byte>, prior: seq<byte>, bpp: nat, n: nat): (r: seq<byte>)
    requires n <= |line| == |prior|
    ensures |r| == n
  {
    if n == 0 then []
    else
      var k := n - 1;
      var row := Restored(ft, line, prior, bpp, k);
      row + [Cast(line[k] as int + Predict(ft, Left(row, k, bpp), prior[k], Left(prior, k, bpp)))]
  }

  /** Scanlines: a filter type and `nk` filtered bytes each. */
  ghost predicate Scanlines(lines: seq<seq<byte>>, nk: nat) {
    forall j :: 0 <= j < |lines| ==> |lines[j]| == nk + 1
  }

  /** Reconstruction of the rows: the row above the first is all zeros. */
  function Rows(lines: seq<seq<byte>>, nk: nat, bpp: nat): (rows: seq<seq<byte>>)
    requires Scanlines(lines, nk)
    ensures |rows| == |lines| && forall j :: 0 <= j < |rows| ==> |rows[j]| == nk
  {
    if lines == [] then []
    else
      var line := lines[|lines| - 1];
      var rows := Rows(lines[..|lines| - 1], nk, bpp);
      rows + [Restored(line[0] as nat, line[1..], LastOf(rows, nk), bpp, nk)]
  }

  function LastOf(rows: seq<seq<byte>>, nk: nat): seq<byte> { if rows == [] then Zeros(nk) else rows[|rows| - 1] }

  /** The scanlines of an image with a chosen filter type for each row. */
  function Encoded(rows: seq<seq<byte>>, types: seq<byte>, nk: nat, bpp: nat): (lines: seq<seq<byte>>)
    requires |types| == |rows| && forall j :: 0 <= j < |rows| ==> |rows[j]| == nk
    ensures |lines| == |rows| && Scanlines(lines, nk)
  {
    if rows == [] then []
    else
      var n := |rows| - 1;
      Encoded(rows[..n], types[..n], nk, bpp)
      + [[types[n]] + Filtered(types[n] as nat, rows[n], LastOf(rows[..n], nk), bpp, nk)]
  }

  // --- the filters are undone ---

  lemma AddBack(x: byte, p: int)
    ensures Cast(Cast(x as int - p) as int + p) == x
  {
  }

  lemma {:induction false} FilteredPrefix(ft: nat, row: seq<byte>, prior: seq<byte>, bpp: nat, m: nat, n: nat)
    requires m <= n <= |row| == |prior|
    ensures Filtered(ft, row, prior, bpp, n)[..m] == Filtered(ft, row, prior, bpp, m)
  {
    if m < n {
      FilteredPrefix(ft, row, prior, bpp, m, n - 1);
      assert Filtered(ft, row, prior, bpp, n)[..m] == Filtered(ft, row, prior, bpp, n - 1)[..m];
    }
  }

  /** Restoring a filtered row gives the row. */
  lemma {:induction false} RowRoundTrip(ft: nat, row: seq<byte>, prior: seq<byte>, bpp: nat, n: nat)
    requires n <= |row| == |prior|
    ensures Restored(ft, Filtered(ft, row, prior, bpp, |row|), prior, bpp, n) == row[..n]
  {
    if n > 0 {
      hide Predict, Cast;
      var k := n - 1;
      RowRoundTrip(ft, row, prior, bpp, k);
      FilteredPrefix(ft, row, prior, bpp, n, |row|);
      assert Filtered(ft, row, prior, bpp, |row|)[k] == Filtered(ft, row, prior, bpp, n)[k];
      AddBack(row[k], Predict(ft, Left(row, k, bpp), prior[k], Left(prior, k, bpp)));
      assert Left(row[..k], k, bpp) == Left(row, k, bpp);
      assert row[..n] == row[..k] + [row[k]];
    }
  }

  /** Whatever filter types were chosen for the rows, reconstruction gives back the rows. */
  lemma {:induction false} ImageRoundTrip(rows: seq<seq<byte>>, types: seq<byte>, nk: nat, bpp: nat)
    requires |types| == |rows| && forall j :: 0 <= j < |rows| ==> |rows[j]| == nk
    ensures Rows(Encoded(rows, types, nk, bpp), nk, bpp) == rows
  {
    if rows != [] {
      hide Restored, Filtered, LastOf;
      var n := |rows| - 1;
      var ft, above, rest := types[n] as nat, LastOf(rows[..n], nk), Encoded(rows[..n], types[..n], nk, bpp);
      ImageRoundTrip(rows[..n], types[..n], nk, bpp);
      RowRoundTrip(ft, rows[n], above, bpp, nk);
      var filtered := Filtered(ft, rows[n], above, bpp, nk);
      var line := [types[n]] + filtered;
      assert (rest + [line])[..n] == rest && line[1..] == filtered && rows[n][..nk] == rows[n];
    }
  }

  // --- the filters of the code ---

  /** The predictor as it is computed. */
  function Paeth(a: int, b: int, c: int): int {
    var thresh := c * 3 - (a + b);
    var lo := if a < b then a else b;
    var hi := if a < b then b else a;
    var t0 := if hi <= thresh then lo else c;
    if thresh <= lo then hi else t0
  }

  lemma PaethIsThePredictor(a: int, b: int, c: int)
    ensures Paeth(a, b, c) == PaethPredictor(a, b, c)
  {
  }

  /** The sixth filter is the average with zeros above. */
  const AVG_FIRST: nat := 5
  const FIRST_ROW_FILTER: seq<nat> := [0, 1, 0, AVG_FIRST, 1]

  /** What is added to the first bytes of a row, which have nothing to their left. */
  function AddedFirst(filter: nat, b: byte): int {
    if filter == 2 || filter == 4 then b as int
    else if filter == 3 then b as int / 2
    else 0
  }

  /** What is added to the other bytes. */
  function AddedRest(filter: nat, a: byte, b: byte, c: byte): int {
    if filter == 1 then a as int
    else if filter == 2 then b as int
    else if filter == 3 then (b as int + a as int) / 2
    else if filter == 4 then Paeth(a as int, b as int, c as int)
    else if filter == AVG_FIRST then a as int / 2
    else 0
  }

  /** The first `n` bytes of a row as the code undoes its filter. */
  function Undone(filter: nat, line: seq<byte>, above: seq<byte>, bpp: nat, n: nat): (r: seq<byte>)
    requires n <= |line| == |above|
    ensures |r| == n
  {
    if n == 0 then []
    else
      var k := n - 1;
      var row := Undone(filter, line, above, bpp, k);
      row + [Cast(line[k] as int + if k < bpp || bpp == 0 then AddedFirst(filter, above[k])
                                   else AddedRest(filter, row[k - bpp], above[k], above[k - bpp]))]
  }

  /** The code's filters are those of the specification. */
  lemma {:induction false} UndoneIsRestored(filter: nat, line: seq<byte>, above: seq<byte>, bpp: nat, n: nat)
    requires filter <= 4 && n <= |line| == |above|
    ensures Undone(filter, line, above, bpp, n) == Restored(filter, line, above, bpp, n)
  {
    if n > 0 {
      var k := n - 1;
      UndoneIsRestored(filter, line, above, bpp, k);
      var row := Restored(filter, line, above, bpp, k);
      PaethIsThePredictor(Left(row, k, bpp) as int, above[k] as int, Left(above, k, bpp) as int);
    }
  }

  /** The first row's filters do over any bytes what the five filters do over zeros. */
  lemma {:induction false} FirstRowIsRestored(ft: nat, line: seq<byte>, above: seq<byte>, bpp: nat, n: nat)
    requires ft <= 4 && n <= |line| == |above|
    ensures Undone(FIRST_ROW_FILTER[ft], line, above, bpp, n) == Restored(ft, line, Zeros(|line|), bpp, n)
  {
    if n > 0 {
      var k := n - 1;
      FirstRowIsRestored(ft, line, above, bpp, k);
    }
  }

  /** Undoes one row's filter into the row buffer `cur`, over the row buffer `prior`. */
  method UnfilterRow(filter: nat, raw: seq<byte>, at: nat, cur: array<byte>, prior: array<byte>, bpp: nat)
    requires cur != prior && 0 < bpp <= cur.Length == prior.Length && at + cur.Length <= |raw|
    modifies cur
    ensures cur[..] == Undone(filter, raw[at..at + cur.Length], prior[..], bpp, cur.Length)
  {
    UnfilterStart(filter, raw, at, cur, prior, bpp);
    hide AddedFirst, AddedRest, Cast;
    ghost var line := raw[at..at + cur.Length];
    var k := bpp;
    while k < cur.Length
      invariant bpp <= k <= cur.Length
      invariant cur[..k] == Undone(filter, line, prior[..], bpp, k)
    {
      assert cur[k - bpp] == cur[..k][k - bpp];
      cur[k] := Cast(raw[at + k] as int + AddedRest(filter, cur[k - bpp], prior[k], prior[k - bpp]));
      assert cur[..k + 1] == cur[..k] + [cur[k]];
      k := k + 1;
    }
    assert cur[..k] == cur[..];
  }

  method UnfilterStart(filter: nat, raw: seq<byte>, at: nat, cur: array<byte>, prior: array<byte>, bpp: nat)
    requires cur != prior && 0 < bpp <= cur.Length == prior.Length && at + cur.Length <= |raw|
    modifies cur
    ensures cur[..bpp] == Undone(filter, raw[at..at + cur.Length], prior[..], bpp, bpp)
  {
    hide AddedFirst, AddedRest, Cast;
    ghost var line := raw[at..at + cur.Length];
    var k := 0;
    while k < bpp
      invariant 0 <= k <= bpp
      invariant cur[..k] == Undone(filter, line, prior[..], bpp, k)
    {
      cur[k] := Cast(raw[at + k] as int + AddedFirst(filter, prior[k]));
      assert cur[..k + 1] == cur[..k] + [cur[k]];
      k := k + 1;
    }
  }

  // --- the image ---

  datatype Outcome = Done | OutOfMemory | TooLarge | NotEnough | BadFilter

  /** a * b fits an int, and so does a * b + add. */
  predicate MulFits(a: int, b: int) { a >= 0 && b >= 0 && (b == 0 || a <= INT_MAX / b) }
  predicate AddFits(a: int, b: int) { b >= 0 && a <= INT_MAX - b }
  predicate Mad2Fits(a: int, b: int, add: int) { MulFits(a, b) && AddFits(a * b, add) }
  predicate Mad3Fits(a: int, b: int, c: int, add: int) { MulFits(a, b) && MulFits(a * b, c) && AddFits(a * b * c, add) }

  function Flat(rows: seq<seq<byte>>): seq<byte> {
    if rows == [] then [] else Flat(rows[..|rows| - 1]) + rows[|rows| - 1]
  }

  /** Byte `m` of a row once an opaque alpha channel is added to its one or three channels. */
  function Widened(row: seq<byte>, imgN: nat, m: nat): byte {
    var i := if imgN == 1 then m / 2 else 3 * (m / 4) + m % 4;
    if m % (if imgN == 1 then 2 else 4) == (if imgN == 1 then 1 else 3) || i >= |row| then 255 else row[i]
  }

  /** A row's pixels as they are handed out: unchanged, or with alpha. */
  ghost predicate IsPixels(row: seq<byte>, imgN: nat, outN: nat, d: seq<byte>) {
    if imgN == outN then d == row
    else
      && imgN * |d| == outN * |row|
      && forall m :: 0 <= m < |d| ==> d[m] == Widened(row, imgN, m)
  }

  /** Every pixel keeps its channels and is opaque. */
  lemma PixelsAreOpaque(row: seq<byte>, imgN: nat, d: seq<byte>, i: nat, c: nat)
    requires (imgN == 1 || imgN == 3) && IsPixels(row, imgN, imgN + 1, d) && imgN * i + imgN <= |row| && c < imgN
    ensures (imgN + 1) * i + imgN < |d| && d[(imgN + 1) * i + imgN] == 255
    ensures d[(imgN + 1) * i + c] == row[imgN * i + c]
  {
    hide Widened;
    if imgN == 1 {
      WidenedGrey(row, i);
      assert (imgN + 1) * i == 2 * i && imgN * i == i;
      assert d[2 * i] == Widened(row, 1, 2 * i) && d[2 * i + 1] == Widened(row, 1, 2 * i + 1);
    } else {
      WidenedColour(row, i, c);
      assert (imgN + 1) * i == 4 * i && imgN * i == 3 * i;
      assert d[4 * i + c] == Widened(row, 3, 4 * i + c) && d[4 * i + 3] == Widened(row, 3, 4 * i + 3);
    }
  }

  lemma WidenedGrey(row: seq<byte>, i: nat)
    requires i < |row|
    ensures Widened(row, 1, 2 * i) == row[i] && Widened(row, 1, 2 * i + 1) == 255
  {
  }

  lemma WidenedColour(row: seq<byte>, i: nat, c: nat)
    requires 3 * i + c < |row| && c < 3
    ensures Widened(row, 3, 4 * i + c) == row[3 * i + c] && Widened(row, 3, 4 * i + 3) == 255
  {
    assert (4 * i + c) / 4 == i && (4 * i + c) % 4 == c;
  }

  /** The bytes `w` of a row and the bytes `stride` of its pixels. */
  ghost predicate Shape(imgN: nat, outN: nat, w: nat, stride: nat) {
    && 1 <= imgN <= 4 && imgN <= w
    && ((outN == imgN && stride == w) || (imgN == 1 && outN == 2 && stride == 2 * w)
        || (imgN == 3 && outN == 4 && 3 * stride == 4 * w))
  }

  lemma HasShape(imgN: nat, outN: nat, x: nat)
    requires x >= 1 && 1 <= imgN <= 4 && (outN == imgN || (outN == imgN + 1 && (imgN == 1 || imgN == 3)))
    ensures Shape(imgN, outN, imgN * x, outN * x)
  {
    Times(1, x, imgN);
  }

  /** Writes a row's pixels into the image, from the last to the first where alpha is added. */
  method PutRow(dest: array<byte>, at: nat, cur: array<byte>, imgN: nat, outN: nat, stride: nat)
    requires cur != dest && Shape(imgN, outN, cur.Length, stride) && at + stride <= dest.Length
    modifies dest
    ensures dest[..at] == old(dest[..at])
    ensures IsPixels(cur[..], imgN, outN, dest[at..at + stride])
  {
    if imgN == outN {
      var i := 0;
      while i < cur.Length
        invariant 0 <= i <= cur.Length
        invariant dest[..at] == old(dest[..at]) && dest[at..at + i] == cur[..i]
      {
        dest[at + i] := cur[i];
        i := i + 1;
      }
      assert cur[..i] == cur[..];
    } else if imgN == 1 {
      PutRow1(dest, at, cur, cur.Length);
    } else {
      PutRow3(dest, at, cur, cur.Length / 3);
    }
  }

  method PutRow1(dest: array<byte>, at: nat, cur: array<byte>, x: nat)
    requires cur != dest && cur.Length == x && at + 2 * x <= dest.Length
    modifies dest
    ensures dest[..at] == old(dest[..at])
    ensures IsPixels(cur[..], 1, 2, dest[at..at + 2 * x])
  {
    ghost var row := cur[..];
    var i := x;
    while i > 0
      invariant 0 <= i <= x && dest[..at] == old(dest[..at])
      invariant forall m :: 2 * i <= m < 2 * x ==> dest[at + m] == Widened(row, 1, m)
    {
      i := i - 1;
      dest[at + (2 * i + 1)] := 255;
      dest[at + 2 * i] := cur[i];
    }
  }

  method PutRow3(dest: array<byte>, at: nat, cur: array<byte>, x: nat)
    requires cur != dest && cur.Length == 3 * x && at + 4 * x <= dest.Length
    modifies dest
    ensures dest[..at] == old(dest[..at])
    ensures IsPixels(cur[..], 3, 4, dest[at..at + 4 * x])
  {
    ghost var row := cur[..];
    var i := x;
    while i > 0
      invariant 0 <= i <= x && dest[..at] == old(dest[..at])
      invariant forall m :: 4 * i <= m < 4 * x ==> dest[at + m] == Widened(row, 3, m)
    {
      i := i - 1;
      dest[at + (4 * i + 3)] := 255;
      dest[at + (4 * i + 2)] := cur[3 * i + 2];
      dest[at + (4 * i + 1)] := cur[3 * i + 1];
      dest[at + 4 * i] := cur[3 * i];
      assert Widened(row, 3, 4 * i + 3) == 255 && Widened(row, 3, 4 * i + 2) == cur[3 * i + 2];
    }
  }

  /** One scanline: its filter type is checked, and on the first row replaced by the one that reads no row above. */
  method Scanline(raw: seq<byte>, at: nat, first: bool, cur: array<byte>, prior: array<byte>, bpp: nat)
    returns (ok: bool)
    requires cur != prior && 0 < bpp <= cur.Length == prior.Length && at + 1 + cur.Length <= |raw|
    modifies cur
    ensures ok <==> raw[at] <= 4
    ensures ok ==> cur[..] == Restored(raw[at] as nat, raw[at + 1..at + 1 + cur.Length],
                                       if first then Zeros(cur.Length) else prior[..], bpp, cur.Length)
  {
    hide Restored, Undone;
    var filter := raw[at] as nat;
    if filter > 4 { return false; }
    ghost var line := raw[at + 1..at + 1 + cur.Length];
    if first {
      FirstRowIsRestored(filter, line, prior[..], bpp, cur.Length);
    } else {
      UndoneIsRestored(filter, line, prior[..], bpp, cur.Length);
    }
    UnfilterRow(if first then FIRST_ROW_FILTER[filter] else filter, raw, at + 1, cur, prior, bpp);
    ok := true;
  }

  /** Where row `j` starts when each takes `size` bytes. */
  function Offset(size: nat, j: nat): nat { size * j }

  lemma NextOffset(size: nat, j: nat, y: nat)
    requires j < y
    ensures Offset(size, j) + size == Offset(size, j + 1) <= Offset(size, y)
  {
  }

  lemma NoOffset(size: nat)
    ensures Offset(size, 0) == 0
  {
  }

  lemma MulFitsMeans(a: nat, b: nat)
    ensures MulFits(a, b) <==> a * b <= INT_MAX
  {
    if b > 0 {
      var q := INT_MAX / b;
      if a <= q { Times(a, q, b); } else { Times(q + 1, a, b); }
    }
  }

  lemma Times(a: nat, b: nat, c: nat)
    requires a <= b
    ensures a * c <= b * c
  {
  }

  /** The checks refuse exactly what does not fit an int. */
  lemma SizesMean(imgN: nat, x: nat, y: nat)
    requires imgN >= 1
    ensures Mad3Fits(imgN, x, 8, 7) <==> imgN * x * 8 + 7 <= INT_MAX
    ensures Mad2Fits(imgN * x, y, imgN * x) <==> imgN * x * y + imgN * x <= INT_MAX
  {
    MulFitsMeans(imgN, x);
    MulFitsMeans(imgN * x, 8);
    MulFitsMeans(imgN * x, y);
  }

  lemma Products(imgN: nat, outN: nat, x: nat, y: nat)
    ensures (imgN * x * 8 + 7) / 8 == imgN * x && outN * x * y >= 0
    ensures Offset(imgN * x + 1, y) == (imgN * x + 1) * y && Offset(outN * x, y) == outN * x * y
  {
  }

  /** The image of the scanlines, or the reason there is none. */
  method CreateImage(raw: seq<byte>, imgN: nat, outN: nat, x: nat, y: nat)
    returns (r: Outcome, out: array<byte>, ghost lines: seq<seq<byte>>, ghost pixels: seq<seq<byte>>)
    requires 1 <= x <= MAX_DIMENSION && 1 <= y <= MAX_DIMENSION
    requires 1 <= imgN <= 4 && (outN == imgN || (outN == imgN + 1 && (imgN == 1 || imgN == 3)))
    ensures r.NotEnough? ==> |raw| < (imgN * x + 1) * y
    ensures r.TooLarge? ==> imgN * x * 8 + 7 > INT_MAX || imgN * x * y + imgN * x > INT_MAX
    ensures r.Done? || r.BadFilter? ==> Decoded(raw, imgN, outN, imgN * x, lines, pixels)
    ensures r.BadFilter? ==> |lines| < y && |Flat(lines)| < |raw| && raw[|Flat(lines)|] > 4
    ensures r.Done? ==> |lines| == y && out[..] == Flat(pixels)
  {
    hide Decoded, Mad2Fits, Mad3Fits, Shape, Scanlines, Offset, Flat;
    lines, pixels := [], [];
    out := new byte[0];
    SizesMean(imgN, x, y);
    Products(imgN, outN, x, y);
    if !Mad3Fits(x, y, outN, 0) { return OutOfMemory, out, lines, pixels; }
    var granted := *;
    if !granted { return OutOfMemory, out, lines, pixels; }
    if !Mad3Fits(imgN, x, 8, 7) { return TooLarge, out, lines, pixels; }
    var w := (imgN * x * 8 + 7) / 8;
    assert w == imgN * x;
    if !Mad2Fits(w, y, w) { return TooLarge, out, lines, pixels; }
    if |raw| < (w + 1) * y { return NotEnough, out, lines, pixels; }
    granted := *;
    if !Mad2Fits(w, 2, 0) || !granted { return OutOfMemory, out, lines, pixels; }
    out := new byte[outN * x * y];
    HasShape(imgN, outN, x);
    r, lines, pixels := FillImage(raw, out, imgN, outN, w, outN * x, y);
  }

  /** The first scanlines of the input and the pixels of their rows. */
  ghost predicate Decoded(raw: seq<byte>, imgN: nat, outN: nat, w: nat, lines: seq<seq<byte>>, pixels: seq<seq<byte>>) {
    && Scanlines(lines, w) && Flat(lines) <= raw && |pixels| == |lines|
    && forall j :: 0 <= j < |lines| ==>
         lines[j][0] <= 4 && IsPixels(Rows(lines, w, imgN)[j], imgN, outN, pixels[j])
  }

  lemma OneMoreRow(raw: seq<byte>, imgN: nat, outN: nat, w: nat, lines: seq<seq<byte>>, pixels: seq<seq<byte>>,
                   at: nat, d: seq<byte>)
    requires Decoded(raw, imgN, outN, w, lines, pixels) && at + w + 1 <= |raw|
    requires raw[at] <= 4 && Flat(lines) == raw[..at]
    requires var line := raw[at..at + w + 1];
             IsPixels(Restored(line[0] as nat, line[1..], LastOf(Rows(lines, w, imgN), w), imgN, w), imgN, outN, d)
    ensures var line := raw[at..at + w + 1];
            && Decoded(raw, imgN, outN, w, lines + [line], pixels + [d])
            && Flat(lines + [line]) == raw[..at + w + 1] && Flat(pixels + [d]) == Flat(pixels) + d
            && Rows(lines + [line], w, imgN)[|lines|] ==
                 Restored(line[0] as nat, line[1..], LastOf(Rows(lines, w, imgN), w), imgN, w)
  {
    hide IsPixels, Restored, LastOf;
    var line := raw[at..at + w + 1];
    assert (lines + [line])[..|lines|] == lines && (pixels + [d])[..|pixels|] == pixels;
    assert raw[..at] + line == raw[..at + w + 1];
  }

  lemma Empty(w: nat, bpp: nat)
    ensures Flat([]) == [] && Rows([], w, bpp) == [] && LastOf([], w) == Zeros(w)
    ensures forall rows: seq<seq<byte>> :: rows != [] ==> LastOf(rows, w) == rows[|rows| - 1]
  {
  }

  lemma NothingDecoded(raw: seq<byte>, imgN: nat, outN: nat, w: nat)
    ensures Decoded(raw, imgN, outN, w, [], [])
  {
  }

  /** The scanlines of an input are determined by it. */
  lemma {:induction false} SameScanlines(raw: seq<byte>, a: seq<seq<byte>>, b: seq<seq<byte>>, w: nat)
    requires Scanlines(a, w) && Scanlines(b, w) && |a| == |b| && Flat(a) <= raw && Flat(b) <= raw
    ensures a == b && |Flat(a)| == |Flat(b)|
  {
    if a != [] {
      var n := |a| - 1;
      SameScanlines(raw, a[..n], b[..n], w);
      assert Flat(a) == Flat(b);
      assert a[n] == Flat(a)[|Flat(a[..n])|..] && b[n] == Flat(b)[|Flat(b[..n])|..];
      assert a == a[..n] + [a[n]] && b == b[..n] + [b[n]];
    }
  }

  /** Decoding the scanlines of an image, however they were filtered and whatever follows them, gives the pixels of
      the image's rows. */
  lemma DecodingInvertsFiltering(raw: seq<byte>, imgN: nat, outN: nat, w: nat, lines: seq<seq<byte>>,
                                 pixels: seq<seq<byte>>, rows: seq<seq<byte>>, types: seq<byte>)
    requires Decoded(raw, imgN, outN, w, lines, pixels) && |lines| == |rows| == |types|
    requires forall j :: 0 <= j < |rows| ==> |rows[j]| == w
    requires Flat(Encoded(rows, types, w, imgN)) <= raw
    ensures forall j :: 0 <= j < |rows| ==> IsPixels(rows[j], imgN, outN, pixels[j])
  {
    SameScanlines(raw, lines, Encoded(rows, types, w, imgN), w);
    ImageRoundTrip(rows, types, w, imgN);
  }

  /** One scanline into its place in the image. */
  method NextRow(raw: seq<byte>, at: nat, first: bool, cur: array<byte>, prior: array<byte>,
                 out: array<byte>, to: nat, imgN: nat, outN: nat, stride: nat,
                 ghost lines: seq<seq<byte>>, ghost pixels: seq<seq<byte>>)
    returns (ok: bool, ghost line: seq<byte>, ghost d: seq<byte>)
    requires cur != prior && out != cur && out != prior && cur.Length == prior.Length
    requires Shape(imgN, outN, cur.Length, stride) && at + 1 + cur.Length <= |raw| && to + stride <= out.Length
    requires Decoded(raw, imgN, outN, cur.Length, lines, pixels) && Flat(lines) == raw[..at] && out[..to] == Flat(pixels)
    requires first <==> lines == []
    requires !first ==> prior[..] == LastOf(Rows(lines, cur.Length, imgN), cur.Length)
    modifies cur, out
    ensures ok <==> raw[at] <= 4
    ensures ok ==> Decoded(raw, imgN, outN, cur.Length, lines + [line], pixels + [d])
    ensures ok ==> Flat(lines + [line]) == raw[..at + 1 + cur.Length] && out[..to + stride] == Flat(pixels + [d])
    ensures ok ==> cur[..] == LastOf(Rows(lines + [line], cur.Length, imgN), cur.Length)
  {
    hide IsPixels, Rows, Restored, Flat, LastOf;
    ghost var w := cur.Length;
    Empty(w, imgN);
    line, d := [], [];
    ok := Scanline(raw, at, first, cur, prior, imgN);
    if !ok { return; }
    PutRow(out, to, cur, imgN, outN, stride);
    line, d := raw[at..at + w + 1], out[to..to + stride];
    assert line[1..] == raw[at + 1..at + 1 + w];
    OneMoreRow(raw, imgN, outN, w, lines, pixels, at, d);
    assert out[..to + stride] == out[..to] + d;
  }

  method FillImage(raw: seq<byte>, out: array<byte>, imgN: nat, outN: nat, w: nat, stride: nat, y: nat)
    returns (r: Outcome, ghost lines: seq<seq<byte>>, ghost pixels: seq<seq<byte>>)
    requires Shape(imgN, outN, w, stride)
    requires Offset(w + 1, y) <= |raw| && out.Length == Offset(stride, y)
    modifies out
    ensures r.Done? || r.BadFilter?
    ensures Decoded(raw, imgN, outN, w, lines, pixels)
    ensures r.BadFilter? ==> |lines| < y && |Flat(lines)| < |raw| && raw[|Flat(lines)|] > 4
    ensures r.Done? ==> |lines| == y && out[..] == Flat(pixels)
  {
    hide IsPixels, Rows, Restored, Offset, Flat, LastOf, Shape, Scanlines;
    var cur, prior := new byte[w], new byte[w];
    var j, at: nat, to: nat := 0, 0, 0;
    NoOffset(w + 1);
    NoOffset(stride);
    Empty(w, imgN);
    NothingDecoded(raw, imgN, outN, w);
    lines, pixels := [], [];
    while j < y
      invariant 0 <= j <= y && at == Offset(w + 1, j) <= |raw| && to == Offset(stride, j) <= out.Length
      invariant |lines| == j && Decoded(raw, imgN, outN, w, lines, pixels)
      invariant Flat(lines) == raw[..at] && out[..to] == Flat(pixels)
      invariant cur != prior && cur != out && prior != out && fresh(cur) && fresh(prior)
      invariant cur.Length == prior.Length == w
      invariant j > 0 ==> prior[..] == LastOf(Rows(lines, w, imgN), w)
      modifies out, cur, prior
    {
      NextOffset(w + 1, j, y);
      NextOffset(stride, j, y);
      ghost var line, d;
      var ok;
      ok, line, d := NextRow(raw, at, j == 0, cur, prior, out, to, imgN, outN, stride, lines, pixels);
      if !ok { r := BadFilter; return; }
      lines, pixels := lines + [line], pixels + [d];
      cur, prior := prior, cur;
      j, at, to := j + 1, at + w + 1, to + stride;
    }
    r := Done;
  }
}
