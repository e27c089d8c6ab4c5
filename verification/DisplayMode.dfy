/** The choice of a display mode (display/display.cpp). */
module DisplayMode {
  datatype Mode = Mode(width: nat, height: nat, hz: nat, preferred: bool)
  datatype Limits = Limits(wantWidth: int, wantHeight: int, maxWidth: int, maxHeight: int)

  /** The mode that was asked for by name. */
  predicate Asked(l: Limits, m: Mode) {
    l.wantWidth > 0 && l.wantHeight > 0 && m.width == l.wantWidth && m.height == l.wantHeight
  }

  predicate Fits(l: Limits, m: Mode) { m.width <= l.maxWidth && m.height <= l.maxHeight }

  predicate OverCap(l: Limits, m: Mode) { l.maxWidth > 0 && l.maxHeight > 0 && !Fits(l, m) }

  function Area(m: Mode): nat { m.width * m.height }

  /** A mode is larger, or as large and faster. */
  predicate Better(a: Mode, b: Mode) { Area(a) > Area(b) || (Area(a) == Area(b) && a.hz > b.hz) }

  ghost predicate IsFirst(modes: seq<Mode>, p: Mode -> bool, c: nat) {
    c < |modes| && p(modes[c]) && forall j :: 0 <= j < c ==> !p(modes[j])
  }

  /** What the display itself asks for: its first preferred mode, or its first. */
  ghost predicate IsDefault(modes: seq<Mode>, c: nat) {
    if exists j :: 0 <= j < |modes| && modes[j].preferred then IsFirst(modes, (m: Mode) => m.preferred, c) else c == 0
  }

  /** The best of the modes that fit: none is larger, none as large is faster, and none before it is as good. */
  ghost predicate IsBestFit(l: Limits, modes: seq<Mode>, c: nat) {
    && c < |modes| && Fits(l, modes[c])
    && forall j :: 0 <= j < |modes| && Fits(l, modes[j]) ==>
         && Area(modes[j]) <= Area(modes[c]) && (Area(modes[j]) == Area(modes[c]) ==> modes[j].hz <= modes[c].hz)
         && (Area(modes[j]) == Area(modes[c]) && modes[j].hz == modes[c].hz ==> c <= j)
  }

  /** A mode asked for is taken whatever its size; else what the display asks for, kept under the cap if any mode is. */
  method Choose(modes: seq<Mode>, l: Limits) returns (c: nat)
    requires modes != []
    ensures c < |modes|
    ensures (exists j :: 0 <= j < |modes| && Asked(l, modes[j])) ==> IsFirst(modes, (m: Mode) => Asked(l, m), c)
    ensures (forall j :: 0 <= j < |modes| ==> !Asked(l, modes[j])) ==>
              forall d :: 0 <= d < |modes| && IsDefault(modes, d) ==>
                if OverCap(l, modes[d]) && exists j :: 0 <= j < |modes| && Fits(l, modes[j]) then IsBestFit(l, modes, c)
                else c == d
  {
    var asked := FirstOf(modes, (m: Mode) => Asked(l, m));
    if asked < |modes| { return asked; }
    var preferred := FirstOf(modes, (m: Mode) => m.preferred);
    c := if preferred < |modes| then preferred else 0;
    if OverCap(l, modes[c]) {
      var best := BestFit(modes, l);
      if best < |modes| { c := best; }
    }
  }

  method FirstOf(modes: seq<Mode>, p: Mode -> bool) returns (c: nat)
    ensures c <= |modes| && forall j :: 0 <= j < c ==> !p(modes[j])
    ensures c < |modes| ==> p(modes[c])
  {
    c := 0;
    while c < |modes| && !p(modes[c])
      invariant 0 <= c <= |modes| && forall j :: 0 <= j < c ==> !p(modes[j])
    {
      c := c + 1;
    }
  }

  method BestFit(modes: seq<Mode>, l: Limits) returns (best: nat)
    ensures best < |modes| ==> IsBestFit(l, modes, best)
    ensures best >= |modes| ==> forall j :: 0 <= j < |modes| ==> !Fits(l, modes[j])
  {
    hide Area;
    best := |modes|;
    var i := 0;
    while i < |modes|
      invariant 0 <= i <= |modes| && (best < i || best == |modes|)
      invariant best == |modes| ==> forall j :: 0 <= j < i ==> !Fits(l, modes[j])
      invariant best < i ==>
        Fits(l, modes[best]) && forall j :: 0 <= j < i && Fits(l, modes[j]) ==>
          !Better(modes[j], modes[best]) && (j < best ==> Better(modes[best], modes[j]))
    {
      if Fits(l, modes[i]) && (best == |modes| || Better(modes[i], modes[best])) { best := i; }
      i := i + 1;
    }
  }
}
