/** Where the decoder of GIF rasters puts its pixels (osd/stb_image.h): line by line, or in the four passes of Appendix E
    of the GIF89a specification. Rows and columns are counted from the corner of the frame. */
module GifCursor {
  import opened Prelude

  /** Every `step`-th row from `start` on. */
  function Rows(start: nat, step: nat, h: nat): seq<nat>
    requires step > 0
    decreases h - start
  {
    if start >= h then [] else [start] + Rows(start + step, step, h)
  }

  /** The order of the rows. */
  function Order(interlaced: bool, h: nat): seq<nat> {
    if interlaced then Rows(0, 8, h) + (Rows(4, 8, h) + (Rows(2, 4, h) + Rows(1, 2, h))) else Rows(0, 1, h)
  }

  function Count(s: seq<nat>, r: nat): nat { if s == [] then 0 else (if s[0] == r then 1 else 0) + Count(s[1..], r) }

  lemma {:induction false} CountConcat(a: seq<nat>, b: seq<nat>, r: nat)
    ensures Count(a + b, r) == Count(a, r) + Count(b, r)
  {
    if a == [] {
      assert a + b == b;
    } else {
      CountConcat(a[1..], b, r);
      assert (a + b)[1..] == a[1..] + b;
    }
  }

  lemma {:induction false} CountRows(start: nat, step: nat, h: nat, r: nat)
    requires step == 1 || step == 2 || step == 4 || step == 8
    ensures Count(Rows(start, step, h), r) == if r < h && InPass(start, step, r) then 1 else 0
    decreases h - start
  {
    hide InPass;
    NextInPass(start, step, r);
    if start < h {
      CountRows(start + step, step, h, r);
      assert Rows(start, step, h)[1..] == Rows(start + step, step, h);
    }
  }

  /** The row belongs to the pass. */
  predicate InPass(start: nat, step: nat, r: nat)
    requires step > 0
  {
    start <= r && (r - start) % step == 0
  }

  lemma NextInPass(start: nat, step: nat, r: nat)
    requires step == 1 || step == 2 || step == 4 || step == 8
    ensures InPass(start, step, r) <==> r == start || InPass(start + step, step, r)
    ensures InPass(start, step, r) ==> start <= r
    ensures InPass(start + step, step, r) ==> start < r
  {
    if step == 1 {
    } else if step == 2 {
    } else if step == 4 {
    } else {
    }
  }

  /** Either way every row of the frame comes exactly once, and no other. */
  lemma EveryRowOnce(interlaced: bool, h: nat, r: nat)
    ensures Count(Order(interlaced, h), r) == if r < h then 1 else 0
  {
    hide Rows, Count;
    Residues(r);
    if interlaced {
      CountRows(0, 8, h, r);
      CountRows(4, 8, h, r);
      CountRows(2, 4, h, r);
      CountRows(1, 2, h, r);
      CountConcat(Rows(0, 8, h), Rows(4, 8, h) + (Rows(2, 4, h) + Rows(1, 2, h)), r);
      CountConcat(Rows(4, 8, h), Rows(2, 4, h) + Rows(1, 2, h), r);
      CountConcat(Rows(2, 4, h), Rows(1, 2, h), r);
    } else {
      CountRows(0, 1, h, r);
    }
  }

  /** The four passes share out the rows. */
  lemma Residues(r: nat)
    ensures (if r % 8 == 0 then 1 else 0) + (if r >= 4 && (r - 4) % 8 == 0 then 1 else 0)
            + (if r >= 2 && (r - 2) % 4 == 0 then 1 else 0) + (if r >= 1 && (r - 1) % 2 == 0 then 1 else 0) == 1
  {
    Eighths(r);
    Fourths(r);
    Halves(r);
  }

  lemma Eighths(r: nat)
    ensures r >= 4 && (r - 4) % 8 == 0 <==> r % 8 == 4
  {
  }

  lemma Fourths(r: nat)
    ensures r >= 2 && (r - 2) % 4 == 0 <==> r % 8 == 2 || r % 8 == 6
  {
  }

  lemma Halves(r: nat)
    ensures r >= 1 && (r - 1) % 2 == 0 <==> r % 8 == 1 || r % 8 == 3 || r % 8 == 5 || r % 8 == 7
  {
    Odd(r);
    EvenMore(4 * (r / 8), r % 8);
  }

  lemma Odd(r: nat)
    ensures r >= 1 && (r - 1) % 2 == 0 <==> r % 2 == 1
  {
  }

  lemma EvenMore(k: nat, m: nat)
    ensures (2 * k + m) % 2 == m % 2
  {
  }

  // --- the passes of Appendix E ---

  /** Every eighth row from the first, every eighth from the fifth, every fourth from the third, every second from the
      second. */
  function Pass(r: nat): nat { if r % 8 == 0 then 1 else if r % 8 == 4 then 2 else if r % 4 == 2 then 3 else 4 }

  lemma {:induction false} RowOfPass(start: nat, step: nat, h: nat, k: nat)
    requires (step == 1 || step == 2 || step == 4 || step == 8) && k < |Rows(start, step, h)|
    ensures Rows(start, step, h)[k] >= start && InPass(start, step, Rows(start, step, h)[k])
    decreases k
  {
    hide InPass;
    NextInPass(start, step, start);
    if k > 0 {
      RowOfPass(start + step, step, h, k - 1);
      NextInPass(start, step, Rows(start, step, h)[k]);
    }
  }

  lemma {:induction false} RowsIncrease(start: nat, step: nat, h: nat, i: nat, j: nat)
    requires (step == 1 || step == 2 || step == 4 || step == 8) && i < j < |Rows(start, step, h)|
    ensures Rows(start, step, h)[i] < Rows(start, step, h)[j]
    decreases i
  {
    hide InPass;
    if i > 0 { RowsIncrease(start + step, step, h, i - 1, j - 1); } else { RowOfPass(start + step, step, h, j - 1); }
  }

  lemma PassOf(r: nat)
    ensures InPass(0, 8, r) <==> Pass(r) == 1
    ensures InPass(4, 8, r) <==> Pass(r) == 2
    ensures InPass(2, 4, r) <==> Pass(r) == 3
    ensures InPass(1, 2, r) <==> Pass(r) == 4
  {
    Eighths(r);
    Fourths(r);
    Halves(r);
    OddEighths(r);
  }

  lemma OddEighths(r: nat)
    ensures r % 4 == 2 <==> r % 8 == 2 || r % 8 == 6
  {
  }

  /** A row of the interlaced order, found in its pass. */
  lemma PlaceInPass(h: nat, i: nat) returns (start: nat, step: nat, k: nat, before: nat)
    requires i < |Order(true, h)|
    ensures (start, step) == [(0, 8), (4, 8), (2, 4), (1, 2)][Pass(Order(true, h)[i]) - 1]
    ensures k < |Rows(start, step, h)| && i == before + k && Order(true, h)[i] == Rows(start, step, h)[k]
    ensures before == PassStart(h, Pass(Order(true, h)[i])) && i < PassStart(h, Pass(Order(true, h)[i]) + 1)
  {
    hide Rows, InPass, Pass;
    var a, b, c := |Rows(0, 8, h)|, |Rows(4, 8, h)|, |Rows(2, 4, h)|;
    PassOf(Order(true, h)[i]);
    if i < a { start, step, k, before := 0, 8, i, 0; }
    else if i < a + b { start, step, k, before := 4, 8, i - a, a; }
    else if i < a + b + c { start, step, k, before := 2, 4, i - a - b, a + b; }
    else { start, step, k, before := 1, 2, i - a - b - c, a + b + c; }
    RowOfPass(start, step, h, k);
  }

  /** How many rows come before a pass. */
  function PassStart(h: nat, pass: nat): nat {
    (if pass > 1 then |Rows(0, 8, h)| else 0) + (if pass > 2 then |Rows(4, 8, h)| else 0)
    + (if pass > 3 then |Rows(2, 4, h)| else 0) + if pass > 4 then |Rows(1, 2, h)| else 0
  }

  /** Interlaced, rows come pass by pass and from the top in each; otherwise from the top. */
  lemma RowsComeInPasses(h: nat, i: nat, j: nat)
    requires i < j < h
    ensures |Order(true, h)| == |Order(false, h)| == h && Order(false, h)[i] < Order(false, h)[j]
    ensures var a, b := Order(true, h)[i], Order(true, h)[j]; Pass(a) < Pass(b) || (Pass(a) == Pass(b) && a < b)
  {
    OrderLength(true, h);
    OrderLength(false, h);
    RowsIncrease(0, 1, h, i, j);
    hide Rows, Order;
    var start, step, k, before := PlaceInPass(h, i);
    var other, pace, l, earlier := PlaceInPass(h, j);
    var p, q := Pass(Order(true, h)[i]), Pass(Order(true, h)[j]);
    if p == q { RowsIncrease(start, step, h, k, l); }
    if q < p { PassesFollow(h, q + 1, p); }
  }

  lemma PassesFollow(h: nat, p: nat, q: nat)
    requires p <= q
    ensures PassStart(h, p) <= PassStart(h, q)
  {
    hide Rows;
  }

  /** Every row comes, so there are as many as the frame has. */
  lemma OrderLength(interlaced: bool, h: nat)
    ensures |Order(interlaced, h)| == h
  {
    hide Rows;
    if interlaced {
      Shares(h);
      RowsLength(0, 8, h);
      RowsLength(4, 8, h);
      RowsLength(2, 4, h);
      RowsLength(1, 2, h);
    } else {
      RowsLength(0, 1, h);
    }
  }

  /** The rows of a pass. */
  function Share(start: nat, step: nat, h: nat): nat
    requires step > 0
  {
    if start >= h then 0 else (h - start + step - 1) / step
  }

  lemma Shares(h: nat)
    ensures Share(0, 8, h) + (Share(4, 8, h) + (Share(2, 4, h) + Share(1, 2, h))) == h
  {
    var q, r := h / 8, h % 8;
    assert h == 8 * q + r;
    assert Share(0, 8, h) == q + if r > 0 then 1 else 0;
    assert Share(4, 8, h) == q + if r > 4 then 1 else 0;
    assert Share(2, 4, h) == 2 * q + if r > 6 then 2 else if r > 2 then 1 else 0;
    assert Share(1, 2, h) == 4 * q + r / 2;
  }

  lemma {:induction false} RowsLength(start: nat, step: nat, h: nat)
    requires step == 1 || step == 2 || step == 4 || step == 8
    ensures |Rows(start, step, h)| == Share(start, step, h)
    decreases h - start
  {
    if start < h { RowsLength(start + step, step, h); }
  }

  lemma {:induction false} CountTwice(s: seq<nat>, a: nat, b: nat)
    requires a < b < |s| && s[a] == s[b]
    ensures Count(s, s[a]) >= 2
  {
    if a > 0 { CountTwice(s[1..], a - 1, b - 1); } else { CountOnce(s[1..], b - 1); }
  }

  lemma {:induction false} CountOnce(s: seq<nat>, b: nat)
    requires b < |s|
    ensures Count(s, s[b]) >= 1
  {
    if b > 0 { CountOnce(s[1..], b - 1); }
  }

  /** Where the `i`-th pixel of a frame goes, as row and column; pixels beyond the frame are dropped. */
  ghost function Spot(interlaced: bool, w: nat, h: nat, i: nat): (r: Option<(nat, nat)>)
    ensures r.Some? ==> r.value.1 < w
  {
    if w > 0 && i / w < |Order(interlaced, h)| then Some((Order(interlaced, h)[i / w], i % w)) else None
  }

  /** The first pixels fill the frame, each in a place of its own. */
  lemma SpotsDistinct(interlaced: bool, w: nat, h: nat, i: nat, j: nat)
    ensures Spot(interlaced, w, h, i).Some? <==> i < w * h
    ensures Spot(interlaced, w, h, i).Some? ==> Spot(interlaced, w, h, i).value.0 < h
    ensures Spot(interlaced, w, h, i).Some? && Spot(interlaced, w, h, i) == Spot(interlaced, w, h, j) ==> i == j
  {
    hide Order, Count;
    OrderLength(interlaced, h);
    if w > 0 {
      RowOfIndex(w, h, i);
      if i / w < h {
        var s := Order(interlaced, h);
        EveryRowOnce(interlaced, h, s[i / w]);
        CountOnce(s, i / w);
        if j / w < h && s[i / w] == s[j / w] {
          if i / w < j / w { CountTwice(s, i / w, j / w); }
          if j / w < i / w { CountTwice(s, j / w, i / w); }
          SameIndex(w, i, j);
        }
      }
    }
  }

  lemma RowOfIndex(w: nat, h: nat, i: nat)
    requires w > 0
    ensures i / w < h <==> i < w * h
  {
    assert i == w * (i / w) + i % w;
    if i / w < h { assert w * (i / w + 1) <= w * h; } else { assert w * (i / w) >= w * h; }
  }

  lemma SameIndex(w: nat, i: nat, j: nat)
    requires w > 0
    ensures i / w == j / w && i % w == j % w ==> i == j
  {
  }

  lemma NextIndex(w: nat, i: nat)
    requires w > 0
    ensures if i % w + 1 == w then (i + 1) / w == i / w + 1 && (i + 1) % w == 0
            else (i + 1) / w == i / w && (i + 1) % w == i % w + 1
  {
    var q, r := i / w, i % w;
    assert i + 1 == w * q + (r + 1);
    if r + 1 == w {
      assert i + 1 == w * (q + 1) + 0;
      DivMod(w, q + 1, 0);
    } else {
      DivMod(w, q, r + 1);
    }
  }

  lemma DivMod(w: nat, q: nat, r: nat)
    requires r < w
    ensures (w * q + r) / w == q && (w * q + r) % w == r
  {
    var x := w * q + r;
    var a, b := x / w, x % w;
    assert w * a + b == x;
    SameParts(w, a, b, q, r);
  }

  lemma SameParts(w: nat, a: nat, b: nat, q: nat, r: nat)
    requires b < w && r < w && w * a + b == w * q + r
    ensures a == q && b == r
  {
    Times(w, q - a);
    assert w * (q - a) == w * q - w * a;
  }

  lemma Times(w: nat, k: int)
    ensures k >= 1 ==> w * k >= w
    ensures k <= -1 ==> w * k + w <= 0
  {
  }

  /** The rows still to come and the column, `q` rows and `c` columns on. */
  predicate From(s: seq<nat>, q: nat, c: nat, rows: seq<nat>, x: nat) {
    if q < |s| then rows == s[q..] && x == c else rows == []
  }

  /** The rows still to come and the column when pixel `i` is the next. */
  ghost predicate Reached(interlaced: bool, w: nat, h: nat, i: nat, rows: seq<nat>, x: nat) {
    w > 0 ==> From(Order(interlaced, h), i / w, i % w, rows, x)
  }

  lemma OnePixel(interlaced: bool, w: nat, h: nat, i: nat, rows: seq<nat>, x: nat)
    requires Reached(interlaced, w, h, i, rows, x)
    ensures Spot(interlaced, w, h, i) == if w == 0 || rows == [] then None else Some((rows[0], x))
    ensures rows == [] || w == 0 ==> Reached(interlaced, w, h, i + 1, rows, x)
    ensures rows != [] ==> Reached(interlaced, w, h, i + 1, if x + 1 == w then rows[1..] else rows,
                                   if x + 1 == w then 0 else x + 1)
  {
    hide Order, From;
    if w > 0 {
      NextIndex(w, i);
      OneOn(Order(interlaced, h), i / w, i % w, rows, x);
    }
  }

  lemma OneOn(s: seq<nat>, q: nat, c: nat, rows: seq<nat>, x: nat)
    requires From(s, q, c, rows, x)
    ensures if q < |s| then rows != [] && rows[0] == s[q] && x == c else rows == []
    ensures rows == [] ==> From(s, q + 1, 0, rows, x) && From(s, q, c + 1, rows, x)
    ensures rows != [] ==> From(s, q + 1, 0, rows[1..], 0) && From(s, q, c + 1, rows, x + 1)
  {
    if q < |s| { assert s[q..][1..] == s[q + 1..]; }
  }

  class Cursor {
    const frame: array2<byte>
    const w: nat
    const h: nat
    const interlaced: bool
    var x: nat
    var y: nat
    var step: nat
    var parse: nat
    /** The pixels that have come. */
    ghost var drawn: seq<byte>

    constructor (frame: array2<byte>, interlaced: bool)
      ensures Ready() && this.frame == frame && this.interlaced == interlaced && drawn == []
    {
      this.frame, w, h, this.interlaced := frame, frame.Length1, frame.Length0, interlaced;
      x, y, drawn := 0, if frame.Length1 == 0 then frame.Length0 else 0, [];
      step, parse := if interlaced then 8 else 1, if interlaced then 3 else 0;
      new;
      assert !interlaced ==> Rows(0, 1, h) + [] == Rows(0, 1, h);
      assert Rows(1, 2, h) + [] == Rows(1, 2, h);
    }

    ghost predicate Valid()
      reads this
    {
      && w == frame.Length1 && h == frame.Length0
      && step > 0 && parse <= 3 && (w > 0 ==> x < w) && (w == 0 ==> y >= h)
      && (w > 0 && y >= h ==> parse == 0 || h == 0)
    }

    /** The pixels are in their places. */
    ghost predicate Painted()
      requires w == frame.Length1 && h == frame.Length0
      reads this`drawn, frame
    {
      forall i :: 0 <= i < |drawn| ==> Shows(i)
    }

    ghost predicate Shows(i: nat)
      requires w == frame.Length1 && h == frame.Length0 && i < |drawn|
      reads this`drawn, frame
    {
      SpotsDistinct(interlaced, w, h, i, i);
      match Spot(interlaced, w, h, i)
      case None => true
      case Some((row, column)) => frame[row, column] == drawn[i]
    }

    /** The frame holds the pixels that have come, and the next one will go to its place. */
    ghost predicate Ready()
      reads this, frame
    {
      Valid() && InStep() && Painted()
    }

    /** Every pixel that has come and lies in the frame stands in its place, and the others are dropped. */
    lemma PixelInPlace(i: nat)
      requires Ready() && i < |drawn|
      ensures Spot(interlaced, w, h, i).Some? <==> i < w * h
      ensures match Spot(interlaced, w, h, i)
              case Some((row, column)) => row < frame.Length0 && column < frame.Length1 && frame[row, column] == drawn[i]
              case None => true
    {
      hide Order;
      assert Shows(i);
      SpotsDistinct(interlaced, w, h, i, i);
    }

    /** The cursor is where the next pixel goes. */
    ghost predicate InStep()
      requires Valid()
      reads this
    {
      Reached(interlaced, w, h, |drawn|, Ahead(), x)
    }

    /** The rows that are still to come, the present one first. */
    ghost function Ahead(): seq<nat>
      requires step > 0 && parse <= 3
      reads this`y, this`step, this`parse
    {
      Coming(y, step, parse)
    }

    ghost function Coming(y: nat, step: nat, parse: nat): seq<nat>
      requires step > 0 && parse <= 3
    {
      Rows(y, step, h) + Later(parse)
    }

    /** The rows of later passes. */
    function Later(parse: nat): seq<nat>
      requires parse <= 3
    {
      if parse == 0 then [] else Rows(Half(parse), 2 * Half(parse), h) + Later(parse - 1)
    }

    function Half(parse: nat): (r: nat)
      requires parse <= 3
      ensures r > 0
    {
      if parse == 3 then 4 else if parse == 2 then 2 else 1
    }

    /** Within a pass, and from one to the next. */
    lemma OneRow(y: nat, step: nat, parse: nat)
      requires step > 0 && parse <= 3
      ensures y < h ==> Coming(y, step, parse) == [y] + Coming(y + step, step, parse)
      ensures y >= h && parse > 0 ==> Coming(y, step, parse) == Coming(Half(parse), 2 * Half(parse), parse - 1)
      ensures y >= h && (parse == 0 || h == 0) ==> Coming(y, step, parse) == []
    {
      if h == 0 { NoRows(parse); }
    }

    lemma {:induction false} NoRows(parse: nat)
      requires parse <= 3 && h == 0
      ensures Later(parse) == []
    {
      if parse > 0 { NoRows(parse - 1); }
    }

    /** Where the next pixel goes, if there is room for it, and one place on. */
    method Next() returns (spot: Option<(nat, nat)>)
      requires Valid()
      modifies this`x, this`y, this`step, this`parse
      ensures Valid()
      ensures spot.None? <==> w == 0 || old(Ahead()) == []
      ensures spot.None? ==> x == old(x) && Ahead() == old(Ahead())
      ensures spot.Some? ==> spot.value == (old(Ahead())[0], old(x))
      ensures spot.Some? ==> x == (if old(x) + 1 == w then 0 else old(x) + 1)
                             && Ahead() == if x == 0 then old(Ahead())[1..] else old(Ahead())
    {
      hide Coming;
      OneRow(y, step, parse);
      if y >= h { return None; }
      spot := Some((y, x));
      x := x + 1;
      if x >= w {
        x := 0;
        NextRow();
      }
    }

    /** Draws one pixel in its own place. */
    method Draw(b: byte)
      requires Ready()
      modifies this, frame
      ensures Ready() && drawn == old(drawn) + [b]
      ensures forall row: nat, column: nat :: row < h && column < w ==>
                frame[row, column] == if Spot(interlaced, w, h, |old(drawn)|) == Some((row, column)) then b
                                      else old(frame[row, column])
    {
      hide Order, Ahead, Spot, Reached;
      ghost var count := |drawn|;
      OnePixel(interlaced, w, h, count, Ahead(), x);
      SpotsDistinct(interlaced, w, h, count, count);
      var spot := Next();
      drawn := drawn + [b];
      if spot.Some? { frame[spot.value.0, spot.value.1] := b; }
      forall i: nat | i < |drawn| ensures Shows(i) {
        SpotsDistinct(interlaced, w, h, i, count);
        assert i < count ==> old(Shows(i));
      }
    }

    /** Down to the next row of the pass, or to the first row of the next pass that has one. */
    method NextRow()
      requires Valid() && y < h
      modifies this`y, this`step, this`parse
      ensures Valid() && Ahead() == old(Ahead())[1..]
    {
      hide Coming;
      OneRow(y, step, parse);
      y := y + step;
      while y >= h && parse > 0
        invariant step > 0 && parse <= 3
        invariant Ahead() == old(Ahead())[1..]
        decreases parse
      {
        OneRow(y, step, parse);
        step := 2 * Half(parse);
        y := Half(parse);
        parse := parse - 1;
      }
    }
  }
}
