/** The display engine on values: each function is one critical section of display/display.cpp.
    The class in DisplayEngine.dfy performs the same changes in place and is proved against them. */
module DisplayModel {
  import opened Prelude

  /** What may be done with a scan-out buffer. */
  datatype Slot = Free | Drawing | Pending | InFlight | Current

  datatype RingBuf = RingBuf(fd: int, fb: nat, slot: Slot)

  /** The ticket the renderer holds while it draws. */
  datatype Target = Target(screen: int, index: int, generation: nat, fd: int)

  datatype Stats = Stats(presented: nat, dropped: nat)

  datatype ConnectorType = HDMIA | HDMIB | DisplayPort | EDP | OtherConnector

  /** One output; `generation == 0` means that no monitor is configured in the slot. */
  datatype Output = Output(
    generation: nat, connector: nat, ctype: ConnectorType, crtc: nat, plane: nat,
    ring: seq<RingBuf>, idxPending: int, idxInFlight: int, idxCurrent: int,
    modesetDone: bool, st: Stats, primary: bool)
  {
    predicate Live() { generation != 0 }

    /** The indices can be followed without leaving the ring. */
    predicate InRange() {
      && -1 <= idxPending < |ring| && -1 <= idxInFlight < |ring| && -1 <= idxCurrent < |ring|
    }

    /** The three indices and the slot states say the same thing. */
    ghost predicate Agree() {
      && InRange()
      && (forall j :: 0 <= j < |ring| ==>
            && (ring[j].slot == Pending <==> j == idxPending)
            && (ring[j].slot == InFlight <==> j == idxInFlight)
            && (ring[j].slot == Current <==> j == idxCurrent))
    }

    function Mark(j: int, s: Slot): Output {
      if 0 <= j < |ring| then this.(ring := ring[j := ring[j].(slot := s)]) else this
    }
  }

  const NO_OUTPUT := Output(0, 0, OtherConnector, 0, 0, [], -1, -1, -1, false, Stats(0, 0), false)

  datatype Display = Display(
    outs: seq<Output>, retired: seq<RingBuf>, liveBufs: int, generations: nat, primarySlot: int)
  {
    ghost predicate InRange() { forall i :: 0 <= i < |outs| ==> outs[i].InRange() }

    /** The output of a slot that has one. */
    predicate Has(screen: int) { 0 <= screen < |outs| && outs[screen].Live() }

    /** The configuration that issued the target is over. */
    predicate Gone(t: Target) {
      !(0 <= t.screen < |outs|) || t.generation != outs[t.screen].generation
    }

    function With(screen: int, o: Output): Display
      requires 0 <= screen < |outs|
    {
      this.(outs := outs[screen := o])
    }
  }

  /** The first position of a free buffer, or the length of the ring. */
  function FirstFree(ring: seq<RingBuf>): (i: nat)
    ensures i <= |ring|
    ensures forall j :: 0 <= j < i ==> ring[j].slot != Free
    ensures i < |ring| ==> ring[i].slot == Free
  {
    if ring == [] then 0 else if ring[0].slot == Free then 0 else 1 + FirstFree(ring[1..])
  }

  function Acquire(d: Display, screen: int): (Display, Option<Target>) {
    if !d.Has(screen) then (d, None) else
      var o := d.outs[screen];
      var i := FirstFree(o.ring);
      if i == |o.ring| then (d, None)
      else (d.With(screen, o.Mark(i, Drawing)), Some(Target(screen, i, o.generation, o.ring[i].fd)))
  }

  /** The retired list without its first buffer of the given descriptor. */
  function Released(retired: seq<RingBuf>, fd: int): (r: seq<RingBuf>)
    ensures |r| <= |retired|
  {
    if retired == [] then []
    else if retired[0].fd == fd then retired[1..]
    else [retired[0]] + Released(retired[1..], fd)
  }

  function ReleaseRetired(d: Display, fd: int): Display {
    var r := Released(d.retired, fd);
    d.(retired := r, liveBufs := d.liveBufs - (|d.retired| - |r|))
  }

  /** The locked part of `present`; true means that the frame was taken. */
  function Queue(d: Display, t: Target): (Display, bool) {
    if d.Gone(t) then (ReleaseRetired(d, t.fd), false) else
      var o := d.outs[t.screen];
      if !(0 <= t.index < |o.ring|) || o.ring[t.index].slot != Drawing then (d, false) else
        (d.With(t.screen, Pend(o, t.index)), true)
  }

  /** A drawn buffer becomes the pending one; the frame that was pending is dropped. */
  function Pend(o: Output, index: int): Output {
    var o1 := if o.idxPending >= 0
              then o.Mark(o.idxPending, Free).(st := o.st.(dropped := o.st.dropped + 1))
              else o;
    o1.Mark(index, Pending).(idxPending := index)
  }

  /** The first critical section of `try_commit`: which buffer to hand to the kernel, if any. */
  function BeginCommit(o: Output): (Output, Option<int>) {
    if o.idxInFlight >= 0 || o.idxPending < 0 then (o, None)
    else (o.Mark(o.idxPending, InFlight).(idxInFlight := o.idxPending, idxPending := -1), Some(o.idxPending))
  }

  /** The second critical section of `try_commit`, after the kernel has refused. */
  function FailCommit(o: Output, idx: int): Output {
    o.Mark(idx, Free).(idxInFlight := -1)
  }

  function DoneCommit(o: Output): Output {
    o.(modesetDone := true)
  }

  /** The locked part of `on_flip`. */
  function Flip(o: Output): Output {
    var o1 := if o.idxCurrent >= 0 then o.Mark(o.idxCurrent, Free) else o;
    var o2 := if o.idxInFlight >= 0 then o1.Mark(o.idxInFlight, Current) else o1;
    o2.(idxCurrent := o.idxInFlight, idxInFlight := -1, st := o.st.(presented := o.st.presented + 1))
  }

  /** The buffers of a ring the renderer is drawing into. */
  function Drawn(ring: seq<RingBuf>): (r: seq<RingBuf>)
    ensures |r| <= |ring|
    ensures forall b :: b in r <==> b in ring && b.slot == Drawing
  {
    if ring == [] then []
    else (if ring[0].slot == Drawing then [ring[0]] else []) + Drawn(ring[1..])
  }

  function Teardown(d: Display, screen: int): Display
    requires 0 <= screen < |d.outs|
  {
    var o := d.outs[screen];
    d.With(screen, NO_OUTPUT.(ctype := o.ctype))
    .(retired := d.retired + Drawn(o.ring), liveBufs := d.liveBufs - (|o.ring| - |Drawn(o.ring)|))
  }

  // --- bringing one output up ---

  /** What the kernel says about one connector: the CRTC positions each of its encoders can use. */
  datatype Connector = Connector(id: nat, ctype: ConnectorType, encoders: seq<Option<set<nat>>>)

  datatype Plane = Plane(id: nat, crtcs: set<nat>, isPrimary: bool)

  datatype Resources = Resources(crtcs: seq<nat>, planes: seq<Option<Plane>>)

  /** How far the allocation of one scan-out buffer gets. */
  datatype Grant = NoMemory | NotScannable(unusedFd: int) | Ready(fd: int, fb: nat)

  /** The kernel's answers while one connector is configured. */
  datatype Answers = Answers(blob: bool, grants: seq<Grant>)

  ghost predicate Usable(res: Resources, crtcs: set<nat>, busy: set<nat>, j: nat) {
    j < |res.crtcs| && j in crtcs && res.crtcs[j] !in busy
  }

  function FirstCrtc(res: Resources, possible: set<nat>, busy: set<nat>, from: nat): (r: nat)
    requires from <= |res.crtcs|
    ensures from <= r <= |res.crtcs|
    ensures r < |res.crtcs| ==> Usable(res, possible, busy, r)
    ensures forall j :: from <= j < r ==> !Usable(res, possible, busy, j)
    decreases |res.crtcs| - from
  {
    if from == |res.crtcs| || (from in possible && res.crtcs[from] !in busy) then from
    else FirstCrtc(res, possible, busy, from + 1)
  }

  /** The position of the CRTC for a connector: the first free one of its first encoder that has any. */
  function PickCrtc(res: Resources, encoders: seq<Option<set<nat>>>, busy: set<nat>): (r: Option<nat>)
    ensures r.Some? ==> r.value < |res.crtcs| && res.crtcs[r.value] !in busy
  {
    if encoders == [] then None
    else
      var j := if encoders[0].Some? then FirstCrtc(res, encoders[0].value, busy, 0) else |res.crtcs|;
      if j < |res.crtcs| then Some(j) else PickCrtc(res, encoders[1..], busy)
  }

  ghost predicate CanUse(res: Resources, encoders: seq<Option<set<nat>>>, busy: set<nat>, e: int, j: nat) {
    0 <= e < |encoders| && encoders[e].Some? && Usable(res, encoders[e].value, busy, j)
  }

  /** Some encoder can use the CRTC, no encoder before it can use any, and it can use none before this one. */
  ghost predicate IsChosen(res: Resources, encoders: seq<Option<set<nat>>>, busy: set<nat>, j: nat) {
    exists e :: ComesFirst(res, encoders, busy, e, j)
  }

  ghost predicate ComesFirst(res: Resources, encoders: seq<Option<set<nat>>>, busy: set<nat>, e: int, j: nat) {
    && CanUse(res, encoders, busy, e, j)
    && forall f, k :: CanUse(res, encoders, busy, f, k) ==> e < f || (e == f && j <= k)
  }

  /** A connector is refused only if no encoder of it can use a free CRTC. */
  lemma {:induction false} PickCrtcIsComplete(res: Resources, encoders: seq<Option<set<nat>>>, busy: set<nat>)
    ensures var r := PickCrtc(res, encoders, busy);
            match r
            case Some(j) => IsChosen(res, encoders, busy, j)
            case None => forall e, j :: !CanUse(res, encoders, busy, e, j)
  {
    if encoders != [] {
      var rest := encoders[1..];
      PickCrtcIsComplete(res, rest, busy);
      var first := if encoders[0].Some? then FirstCrtc(res, encoders[0].value, busy, 0) else |res.crtcs|;
      assert forall e: int, j: nat :: CanUse(res, encoders, busy, e, j) <==>
               (e == 0 && CanUse(res, encoders, busy, 0, j)) || CanUse(res, rest, busy, e - 1, j);
      if first < |res.crtcs| {
        assert ComesFirst(res, encoders, busy, 0, first);
      } else if PickCrtc(res, rest, busy).Some? {
        var j := PickCrtc(res, rest, busy).value;
        var e :| ComesFirst(res, rest, busy, e, j);
        assert ComesFirst(res, encoders, busy, e + 1, j);
      }
    }
  }

  predicate Suits(p: Option<Plane>, crtc: nat, busy: set<nat>) {
    p.Some? && crtc in p.value.crtcs && p.value.id !in busy && p.value.isPrimary
  }

  function FirstPlane(planes: seq<Option<Plane>>, crtc: nat, busy: set<nat>): (r: nat)
    ensures r <= |planes|
    ensures r < |planes| ==> Suits(planes[r], crtc, busy)
    ensures forall j :: 0 <= j < r ==> !Suits(planes[j], crtc, busy)
  {
    if planes == [] || Suits(planes[0], crtc, busy) then 0 else 1 + FirstPlane(planes[1..], crtc, busy)
  }

  /** The slot a new monitor goes to: the first without one, else a new slot at the end. */
  function FreeSlot(outs: seq<Output>): (i: nat)
    ensures i <= |outs|
    ensures forall j :: 0 <= j < i ==> outs[j].Live()
    ensures i < |outs| ==> !outs[i].Live()
  {
    if outs == [] || !outs[0].Live() then 0 else 1 + FreeSlot(outs[1..])
  }

  predicate AllReady(grants: seq<Grant>, n: nat) {
    n <= |grants| && forall k :: 0 <= k < n ==> grants[k].Ready?
  }

  function NewRing(grants: seq<Grant>, n: nat): (r: seq<RingBuf>)
    requires AllReady(grants, n)
    ensures |r| == n
  {
    seq(n, k requires 0 <= k < n => RingBuf(grants[k].fd, grants[k].fb, Free))
  }

  ghost function BusyCrtcs(outs: seq<Output>): set<nat> { set o | o in outs && o.Live() :: o.crtc }
  ghost function BusyPlanes(outs: seq<Output>): set<nat> { set o | o in outs && o.Live() :: o.plane }
  ghost function Connectors(outs: seq<Output>): set<nat> { set o | o in outs && o.Live() :: o.connector }

  /** The slots after a place for one more monitor has been found. */
  function Opened(d: Display): (r: Display)
    ensures FreeSlot(d.outs) < |r.outs|
  {
    if FreeSlot(d.outs) == |d.outs| then d.(outs := d.outs + [NO_OUTPUT]) else d
  }

  /** The choice of `configure_one`: the slot with its connector, CRTC and plane, and whether there are any. */
  ghost function Prepare(d: Display, res: Resources, conn: Connector, blob: bool): (r: (Display, bool))
    ensures FreeSlot(d.outs) < |r.0.outs|
  {
    var slot := FreeSlot(d.outs);
    var d1 := Opened(d);
    var o := d1.outs[slot].(connector := conn.id, ctype := conn.ctype, crtc := 0);
    var c := PickCrtc(res, conn.encoders, BusyCrtcs(d.outs));
    if c.None? then (d1.With(slot, o), false) else
      var p := FirstPlane(res.planes, c.value, BusyPlanes(d.outs));
      if p == |res.planes| || !blob then (d1.With(slot, o.(plane := 0)), false) else
        (d1.With(slot, o.(crtc := res.crtcs[c.value], plane := res.planes[p].value.id)), true)
  }

  /** `configure_one`: the new state, and whether the connector now has an output. */
  ghost function Configure(d: Display, res: Resources, conn: Connector, a: Answers, n: nat): (Display, bool) {
    var (d1, chosen) := Prepare(d, res, conn, a.blob);
    if chosen then BringUp(d1, FreeSlot(d.outs), a.grants, n) else (d1, false)
  }

  /** The end of `configure_one`: the ring is allocated and the output gets its generation. */
  function BringUp(d: Display, slot: nat, grants: seq<Grant>, n: nat): (Display, bool)
    requires slot < |d.outs|
  {
    if !AllReady(grants, n) then (Teardown(d, slot), false) else
      (d.With(slot, d.outs[slot].(ring := NewRing(grants, n), idxPending := -1, idxInFlight := -1, idxCurrent := -1,
                                  generation := d.generations + 1))
       .(generations := d.generations + 1, liveBufs := d.liveBufs + n), true)
  }

  // --- roles ---

  function RoleRank(c: ConnectorType): nat {
    match c
    case HDMIA => 0
    case HDMIB => 0
    case DisplayPort => 1
    case EDP => 1
    case OtherConnector => 2
  }

  /** `i` is the live slot of least rank, the lowest one on ties; -1 when nothing is live. */
  ghost predicate IsBest(outs: seq<Output>, i: int) {
    if i == -1 then forall j :: 0 <= j < |outs| ==> !outs[j].Live()
    else
      && 0 <= i < |outs| && outs[i].Live()
      && (forall j :: 0 <= j < |outs| && outs[j].Live() ==>
            RoleRank(outs[i].ctype) < RoleRank(outs[j].ctype)
            || (RoleRank(outs[i].ctype) == RoleRank(outs[j].ctype) && i <= j))
  }

  /** The best of the first `n` slots. */
  function Best(outs: seq<Output>, n: nat): (i: int)
    requires n <= |outs|
    ensures -1 <= i < n
    ensures IsBest(outs[..n], i)
  {
    if n == 0 then -1 else
      var b := Best(outs, n - 1);
      assert outs[..n - 1] == outs[..n][..n - 1];
      assert forall j :: 0 <= j < n - 1 ==> outs[..n][j] == outs[..n - 1][j];
      if outs[n - 1].Live() && (b < 0 || RoleRank(outs[n - 1].ctype) < RoleRank(outs[b].ctype)) then n - 1 else b
  }

  function AssignRoles(d: Display): (r: Display)
    ensures |r.outs| == |d.outs|
  {
    var b := Best(d.outs, |d.outs|);
    d.(primarySlot := b, outs := Marked(d.outs, b))
  }

  function Marked(outs: seq<Output>, b: int): (r: seq<Output>)
    ensures |r| == |outs| && forall i :: 0 <= i < |outs| ==> r[i] == outs[i].(primary := i == b)
  {
    seq(|outs|, i requires 0 <= i < |outs| => outs[i].(primary := i == b))
  }

  // --- a hot-plug pass ---

  /** One connector in the kernel's list: whether it is due for a probe, and what the probe finds
      (nothing when no monitor with a mode is connected). */
  datatype Probe = Probe(id: nat, due: bool, found: Option<Connector>, answers: Answers)

  /** Tears down the live outputs from slot `i` on whose connector has no monitor any more. */
  function LoseGone(d: Display, connected: set<nat>, i: nat): (r: (Display, bool))
    requires i <= |d.outs|
    ensures |r.0.outs| == |d.outs|
    decreases |d.outs| - i
  {
    if i == |d.outs| then (d, false)
    else if d.outs[i].Live() && d.outs[i].connector !in connected then
      (LoseGone(Teardown(d, i), connected, i + 1).0, true)
    else LoseGone(d, connected, i + 1)
  }

  /** `configure_all`: brings up what is probed and not yet known. */
  ghost function AddFound(d: Display, known: set<nat>, res: Resources, probes: seq<Probe>, n: nat): (Display, bool)
    decreases |probes|
  {
    if probes == [] then (d, false) else
      var p := probes[0];
      if p.id in known || !p.due || p.found.None? then AddFound(d, known, res, probes[1..], n) else
        var (d1, ok) := Configure(d, res, p.found.value, p.answers, n);
        var (d2, rest) := AddFound(d1, known, res, probes[1..], n);
        (d2, ok || rest)
  }

  /** `handle_hotplug`. */
  ghost function HotplugPass(d: Display, connected: set<nat>, res: Resources, probes: seq<Probe>, n: nat): Display {
    var (d1, lost) := LoseGone(d, connected, 0);
    var (d2, added) := AddFound(d1, Connectors(d1.outs), res, probes, n);
    if lost || added then AssignRoles(d2) else d2
  }
}
