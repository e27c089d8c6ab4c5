/** The display engine in place: the fields of display/display.cpp and its critical sections as methods,
    each proved equal to its function in DisplayModel. */
module DisplayEngine {
  import opened Prelude
  import opened DisplayModel

  class Screen {
    var generation: nat
    var connector: nat
    var ctype: ConnectorType
    var crtc: nat
    var plane: nat
    var ring: seq<RingBuf>
    var idxPending: int
    var idxInFlight: int
    var idxCurrent: int
    var modesetDone: bool
    var st: Stats
    var primary: bool

    constructor ()
      ensures View() == NO_OUTPUT
    {
      generation, connector, ctype, crtc, plane := 0, 0, OtherConnector, 0, 0;
      ring, idxPending, idxInFlight, idxCurrent := [], -1, -1, -1;
      modesetDone, st, primary := false, Stats(0, 0), false;
    }

    function View(): Output
      reads this
    {
      Output(generation, connector, ctype, crtc, plane, ring, idxPending, idxInFlight, idxCurrent,
             modesetDone, st, primary)
    }

    method Occupy(connector: nat, ctype: ConnectorType, crtc: nat, plane: nat)
      modifies `connector, `ctype, `crtc, `plane
      ensures View() == old(View()).(connector := connector, ctype := ctype, crtc := crtc, plane := plane)
    {
      this.connector, this.ctype, this.crtc, this.plane := connector, ctype, crtc, plane;
    }

    method SetSlot(j: int, s: Slot)
      requires 0 <= j < |ring|
      modifies `ring
      ensures View() == old(View()).Mark(j, s)
    {
      ring := ring[j := ring[j].(slot := s)];
    }

    /** A drawn buffer becomes the pending one. */
    method Pend(index: int)
      requires View().InRange() && 0 <= index < |ring|
      modifies this
      ensures View() == DisplayModel.Pend(old(View()), index) && View().InRange()
      ensures |ring| == |old(ring)| && generation == old(generation)
    {
      if idxPending >= 0 {
        SetSlot(idxPending, Free);
        st := st.(dropped := st.dropped + 1);
      }
      SetSlot(index, Pending);
      idxPending := index;
    }

    /** Takes the pending buffer for a commit: -1 when there is nothing to commit. */
    method BeginCommit() returns (idx: int, fb: nat, needModeset: bool)
      requires View().InRange()
      modifies this
      ensures var (o, i) := DisplayModel.BeginCommit(old(View()));
              View() == o && (if i.Some? then idx == i.value >= 0 else idx == -1)
      ensures idx >= 0 ==> fb == old(ring)[idx].fb && needModeset == !old(modesetDone)
    {
      idx, fb, needModeset := -1, 0, false;
      if idxInFlight >= 0 || idxPending < 0 { return; }
      idx := idxPending;
      idxPending := -1;
      SetSlot(idx, InFlight);
      idxInFlight := idx;
      fb := ring[idx].fb;
      needModeset := !modesetDone;
    }

    /** What a commit leaves: after a refusal the buffer is free again. */
    method EndCommit(idx: int, accepted: bool)
      modifies this
      ensures View() == if accepted then DoneCommit(old(View())) else FailCommit(old(View()), idx)
    {
      if !accepted {
        if 0 <= idx < |ring| { SetSlot(idx, Free); }
        idxInFlight := -1;
        return;
      }
      modesetDone := true;
    }

    /** The frame in flight is on the screen and the one before it is free. */
    method Flip()
      requires View().InRange()
      modifies this
      ensures View() == DisplayModel.Flip(old(View()))
    {
      if idxCurrent >= 0 { SetSlot(idxCurrent, Free); }
      idxCurrent := idxInFlight;
      if idxCurrent >= 0 { SetSlot(idxCurrent, Current); }
      idxInFlight := -1;
      st := st.(presented := st.presented + 1);
    }
  }

  class Engine {
    const buffers: int
    var outs: seq<Screen>
    var retired: seq<RingBuf>
    var liveBufs: int
    var generations: nat
    var primarySlot: int

    constructor (buffers: int)
      ensures Valid() && View() == Display([], [], 0, 0, -1) && this.buffers == buffers
    {
      this.buffers := buffers;
      outs, retired, liveBufs, generations, primarySlot := [], [], 0, 0, -1;
    }

    ghost predicate Valid()
      reads this, outs
    {
      && (forall i, j :: 0 <= i < j < |outs| ==> outs[i] != outs[j])
      && (forall i :: 0 <= i < |outs| ==> outs[i].View().InRange())
      && (forall i :: 0 <= i < |outs| && !outs[i].View().Live() ==> outs[i].ring == [])
    }

    function View(): Display
      reads this, outs
    {
      Display(seq(|outs|, i requires 0 <= i < |outs| reads this, outs => outs[i].View()),
              retired, liveBufs, generations, primarySlot)
    }

    /** One screen has changed, the others have not. */
    lemma OneChanged(was: seq<Output>, slot: nat, o: Output)
      requires slot < |outs| == |was| && outs[slot].View() == o
      requires forall i :: 0 <= i < |outs| && i != slot ==> outs[i].View() == was[i]
      ensures View().outs == was[slot := o]
    {
    }

    /** The depth of a ring. */
    function Depth(): nat { if buffers > 0 then buffers else 2 }

    method Acquire(slot: int) returns (ok: bool, t: Target)
      requires Valid()
      modifies set o <- outs
      ensures Valid() && outs == old(outs)
      ensures (View(), if ok then Some(t) else None) == DisplayModel.Acquire(old(View()), slot)
    {
      t := Target(-1, -1, 0, -1);
      if slot < 0 || slot >= |outs| || outs[slot].generation == 0 { return false, t; }
      var o := outs[slot];
      var i := 0;
      while i < |o.ring|
        invariant 0 <= i <= |o.ring|
        invariant forall j :: 0 <= j < i ==> o.ring[j].slot != Free
      {
        if o.ring[i].slot == Free {
          t := Target(slot, i, o.generation, o.ring[i].fd);
          o.SetSlot(i, Drawing);
          OneChanged(old(View()).outs, slot, o.View());
          return true, t;
        }
        i := i + 1;
      }
      return false, t;
    }

    method ReleaseRetired(fd: int)
      modifies `retired, `liveBufs
      ensures retired == Released(old(retired), fd)
      ensures liveBufs == old(liveBufs) - (|old(retired)| - |retired|)
    {
      hide Released;
      assert retired[..0] + Released(retired[0..], fd) == Released(retired, fd) by { assert retired[0..] == retired; }
      ReleasedNone(fd);
      var i := 0;
      while i < |retired|
        invariant 0 <= i <= |retired|
        invariant retired == old(retired) && liveBufs == old(liveBufs)
        invariant Released(retired, fd) == retired[..i] + Released(retired[i..], fd)
      {
        ReleasedNext(retired, i, fd);
        if retired[i].fd == fd {
          retired, liveBufs := retired[..i] + retired[i + 1..], liveBufs - 1;
          return;
        }
        i := i + 1;
      }
    }

    /** The locked part of `present`. */
    method Queue(t: Target) returns (taken: bool)
      requires Valid()
      modifies this`retired, this`liveBufs, set o <- outs
      ensures Valid() && outs == old(outs)
      ensures (View(), taken) == DisplayModel.Queue(old(View()), t)
    {
      hide DisplayModel.Pend, Released;
      if t.screen < 0 || t.screen >= |outs| || t.generation != outs[t.screen].generation {
        ReleaseRetired(t.fd);
        assert View().outs == old(View()).outs;
        return false;
      }
      var o := outs[t.screen];
      if t.index < 0 || t.index >= |o.ring| { return false; }
      if o.ring[t.index].slot != Drawing { return false; }
      o.Pend(t.index);
      OneChanged(old(View()).outs, t.screen, o.View());
      return true;
    }

    /** The first critical section of `try_commit`: -1 when there is nothing to commit. */
    method BeginCommit(slot: nat) returns (idx: int, fb: nat, needModeset: bool)
      requires Valid() && slot < |outs|
      modifies outs[slot]
      ensures Valid() && outs == old(outs)
      ensures var (o, i) := DisplayModel.BeginCommit(old(outs[slot].View()));
              View() == old(View()).With(slot, o) && (if i.Some? then idx == i.value >= 0 else idx == -1)
      ensures idx >= 0 ==> fb == old(outs[slot].ring)[idx].fb && needModeset == !old(outs[slot].modesetDone)
    {
      idx, fb, needModeset := outs[slot].BeginCommit();
      OneChanged(old(View()).outs, slot, outs[slot].View());
    }

    /** The end of `try_commit`: its second critical section when the kernel has refused. */
    method EndCommit(slot: nat, idx: int, accepted: bool)
      requires Valid() && slot < |outs|
      modifies outs[slot]
      ensures Valid() && outs == old(outs)
      ensures View() == old(View()).With(slot, if accepted then DoneCommit(old(outs[slot].View()))
                                               else FailCommit(old(outs[slot].View()), idx))
    {
      outs[slot].EndCommit(idx, accepted);
      OneChanged(old(View()).outs, slot, outs[slot].View());
    }

    /** The locked part of `on_flip`; the answer says whether the renderer is to be woken. */
    method OnFlip(slot: nat) returns (isPrimary: bool)
      requires Valid() && slot < |outs|
      modifies outs[slot]
      ensures Valid() && outs == old(outs)
      ensures View() == old(View()).With(slot, Flip(old(outs[slot].View())))
      ensures isPrimary <==> slot == primarySlot
    {
      outs[slot].Flip();
      OneChanged(old(View()).outs, slot, outs[slot].View());
      isPrimary := slot == primarySlot;
    }

    /** Frees a ring; what the renderer is drawing into is retired instead. */
    method DestroyRing(o: Screen)
      modifies this`retired, this`liveBufs, o`ring, o`idxPending, o`idxInFlight, o`idxCurrent
      ensures retired == old(retired) + Drawn(old(o.ring))
      ensures liveBufs == old(liveBufs) - (|old(o.ring)| - |Drawn(old(o.ring))|)
      ensures o.ring == [] && o.idxPending == o.idxInFlight == o.idxCurrent == -1
    {
      var i := 0;
      while i < |o.ring|
        invariant 0 <= i <= |o.ring| && o.ring == old(o.ring)
        invariant retired + Drawn(o.ring[i..]) == old(retired) + Drawn(o.ring)
        invariant liveBufs == old(liveBufs) - (i - (|retired| - |old(retired)|))
        modifies this`retired, this`liveBufs
      {
        DrawnNext(retired, o.ring, i);
        if o.ring[i].slot == Drawing {
          retired := retired + [o.ring[i]];
        } else {
          liveBufs := liveBufs - 1;
        }
        i := i + 1;
      }
      o.ring, o.idxPending, o.idxInFlight, o.idxCurrent := [], -1, -1, -1;
    }

    /** The locked part of `teardown_output`. */
    method Teardown(slot: nat)
      requires Valid() && slot < |outs|
      modifies this`retired, this`liveBufs, outs[slot]
      ensures Valid() && outs == old(outs)
      ensures View() == DisplayModel.Teardown(old(View()), slot)
    {
      hide Drawn;
      var o := outs[slot];
      ghost var was := o.View();
      DestroyRing(o);
      o.st := Stats(0, 0);
      o.connector, o.crtc, o.plane := 0, 0, 0;
      o.modesetDone, o.generation, o.primary := false, 0, false;
      OneChanged(old(View()).outs, slot, NO_OUTPUT.(ctype := was.ctype));
    }

    /** Allocates the ring of an output in place of the one it has, or leaves it empty with nothing allocated. */
    method CreateRing(o: Screen, grants: seq<Grant>) returns (ok: bool)
      modifies this`retired, this`liveBufs, o`ring, o`idxPending, o`idxInFlight, o`idxCurrent
      ensures ok <==> AllReady(grants, Depth())
      ensures retired == old(retired) + Drawn(old(o.ring)) && o.idxPending == o.idxInFlight == o.idxCurrent == -1
      ensures liveBufs == old(liveBufs) - (|old(o.ring)| - |Drawn(old(o.ring))|) + if ok then Depth() else 0
      ensures o.ring == if ok then NewRing(grants, Depth()) else []
    {
      DestroyRing(o);
      ghost var live, left := liveBufs, retired;
      var i := 0;
      while i < Depth()
        invariant 0 <= i <= Depth() && AllReady(grants, i)
        invariant o.ring == NewRing(grants, i)
        invariant liveBufs == live + i && retired == left
        invariant o.idxPending == o.idxInFlight == o.idxCurrent == -1
      {
        var g := if i < |grants| then grants[i] else NoMemory;
        match g {
          case NoMemory =>
          case NotScannable(fd) =>
            o.ring, liveBufs := o.ring + [RingBuf(fd, 0, Free)], liveBufs + 1;
          case Ready(fd, fb) =>
            o.ring, liveBufs := o.ring + [RingBuf(fd, fb, Free)], liveBufs + 1;
        }
        if !g.Ready? {
          NothingDrawn(o.ring);
          DestroyRing(o);
          assert !AllReady(grants, Depth());
          return false;
        }
        i := i + 1;
      }
      return true;
    }

    /** The slot a new monitor goes to; slots are never renumbered. */
    method OpenSlot() returns (slot: nat)
      requires Valid()
      modifies `outs
      ensures Valid() && slot < |outs| && slot == FreeSlot(old(View()).outs) && !outs[slot].View().Live()
      ensures old(outs) <= outs && fresh(set o <- outs | o !in old(outs))
      ensures View() == Opened(old(View()))
    {
      slot := 0;
      while slot < |outs| && outs[slot].generation != 0
        invariant 0 <= slot <= |outs|
        invariant forall j :: 0 <= j < slot ==> View().outs[j].Live()
      {
        assert View().outs[slot].Live();
        slot := slot + 1;
      }
      assert slot < |outs| ==> !View().outs[slot].Live();
      if slot == |outs| {
        var s := new Screen();
        outs := outs + [s];
        assert View().outs == old(View()).outs + [NO_OUTPUT];
      }
    }

    /** The CRTCs and planes in use by live outputs. */
    method InUse() returns (crtcs: set<nat>, planes: set<nat>)
      requires Valid()
      ensures crtcs == BusyCrtcs(View().outs) && planes == BusyPlanes(View().outs)
    {
      crtcs, planes := {}, {};
      var i := 0;
      while i < |outs|
        invariant 0 <= i <= |outs|
        invariant crtcs == BusyCrtcs(View().outs[..i]) && planes == BusyPlanes(View().outs[..i])
      {
        ghost var v := View().outs;
        assert v[..i + 1] == v[..i] + [outs[i].View()];
        if outs[i].generation != 0 {
          crtcs, planes := crtcs + {outs[i].crtc}, planes + {outs[i].plane};
        }
        i := i + 1;
      }
      assert View().outs[..|outs|] == View().outs;
    }

    /** The end of `configure_one`. */
    method BringUp(slot: nat, grants: seq<Grant>) returns (added: bool)
      requires Valid() && slot < |outs| && !outs[slot].View().Live()
      modifies this`retired, this`liveBufs, this`generations, outs[slot]
      ensures Valid() && outs == old(outs)
      ensures (View(), added) == DisplayModel.BringUp(old(View()), slot, grants, Depth())
    {
      hide DisplayModel.Teardown, Drawn, NewRing, AllReady;
      NothingDrawn([]);
      var o := outs[slot];
      added := CreateRing(o, grants);
      if !added {
        assert View() == old(View()) by {
          OneChanged(old(View()).outs, slot, o.View());
          assert o.View() == old(View()).outs[slot] && retired == old(retired);
        }
        Teardown(slot);
        return;
      }
      generations := generations + 1;
      o.generation := generations;
      OneChanged(old(View()).outs, slot, o.View());
      assert retired == old(retired);
    }

    /** The CRTC and plane choice of `configure_one`; -1 when the connector cannot be served. */
    method Choose(res: Resources, conn: Connector) returns (c: int, p: nat)
      requires Valid()
      ensures c == match PickCrtc(res, conn.encoders, BusyCrtcs(View().outs)) case Some(j) => j case None => -1
      ensures c >= 0 ==> p == FirstPlane(res.planes, c, BusyPlanes(View().outs))
    {
      var crtcs, planes := InUse();
      p := 0;
      c := SearchCrtc(res, conn.encoders, crtcs);
      if c >= 0 { p := SearchPlane(res.planes, c, planes); }
    }

    /** Notes in a slot what its output will occupy. */
    method Settle(slot: nat, conn: Connector, crtc: nat, plane: nat)
      requires Valid() && slot < |outs|
      modifies outs[slot]
      ensures Valid() && outs == old(outs) && (outs[slot].View().Live() <==> old(outs[slot].View().Live()))
      ensures View() == old(View()).With(slot, old(outs[slot].View()).(
                connector := conn.id, ctype := conn.ctype, crtc := crtc, plane := plane))
    {
      outs[slot].Occupy(conn.id, conn.ctype, crtc, plane);
      OneChanged(old(View()).outs, slot, outs[slot].View());
    }

    /** The slot of a new output with its connector, CRTC and plane. */
    method Prepare(res: Resources, conn: Connector, blob: bool) returns (slot: nat, chosen: bool)
      requires Valid()
      modifies this`outs, set o <- outs
      ensures Valid() && old(outs) <= outs && fresh(set o <- outs | o !in old(outs))
      ensures (View(), chosen) == DisplayModel.Prepare(old(View()), res, conn, blob)
      ensures slot == FreeSlot(old(View()).outs) < |outs| && !outs[slot].View().Live()
    {
      hide BusyCrtcs, BusyPlanes, PickCrtc, FirstPlane, FreeSlot;
      var c, p := Choose(res, conn);
      slot := OpenSlot();
      chosen := c >= 0 && p < |res.planes| && blob;
      var plane := if chosen then res.planes[p].value.id else if c >= 0 then 0 else outs[slot].plane;
      Settle(slot, conn, if chosen then res.crtcs[c] else 0, plane);
    }

    /** `configure_one`, on the answers of the kernel. */
    method ConfigureOne(res: Resources, conn: Connector, a: Answers) returns (added: bool)
      requires Valid()
      modifies this`outs, this`retired, this`liveBufs, this`generations, set o <- outs
      ensures Valid() && old(outs) <= outs && fresh(set o <- outs | o !in old(outs))
      ensures (View(), added) == Configure(old(View()), res, conn, a, Depth())
    {
      var slot;
      slot, added := Prepare(res, conn, a.blob);
      if added { added := BringUp(slot, a.grants); }
    }

    /** The end of `assign_roles`: every output learns whether it is the primary one. */
    method MarkPrimary()
      requires Valid()
      modifies set o <- outs
      ensures Valid()
      ensures View() == old(View()).(outs := Marked(old(View()).outs, primarySlot))
    {
      var i := 0;
      while i < |outs|
        invariant 0 <= i <= |outs|
        invariant forall j :: 0 <= j < |outs| ==>
          outs[j].View() == if j < i then old(outs[j].View()).(primary := j == primarySlot) else old(outs[j].View())
      {
        outs[i].primary := i == primarySlot;
        i := i + 1;
      }
      assert View().outs == Marked(old(View()).outs, primarySlot);
    }

    /** The first live output of least rank. */
    method BestSlot() returns (best: int)
      requires Valid()
      ensures best == Best(View().outs, |View().outs|)
    {
      ghost var was := View().outs;
      best := -1;
      var bestRank := 99;
      var i := 0;
      while i < |outs|
        invariant 0 <= i <= |outs|
        invariant -1 <= best < i
        invariant best == Best(was, i)
        invariant bestRank == if best < 0 then 99 else RoleRank(was[best].ctype)
      {
        assert was[i] == outs[i].View();
        if outs[i].generation != 0 && RoleRank(outs[i].ctype) < bestRank {
          best, bestRank := i, RoleRank(outs[i].ctype);
        }
        i := i + 1;
      }
    }

    /** `assign_roles`: the first live output of least rank becomes the primary one. */
    method AssignRoles()
      requires Valid()
      modifies this`primarySlot, set o <- outs
      ensures Valid() && outs == old(outs)
      ensures View() == DisplayModel.AssignRoles(old(View()))
    {
      hide Best;
      primarySlot := BestSlot();
      assert View().outs == old(View()).outs;
      MarkPrimary();
    }

    /** The first half of `handle_hotplug`: outputs whose monitor is gone are torn down. */
    method LoseGone(connected: set<nat>) returns (lost: bool)
      requires Valid()
      modifies this`retired, this`liveBufs, set o <- outs
      ensures Valid() && outs == old(outs)
      ensures (View(), lost) == DisplayModel.LoseGone(old(View()), connected, 0)
    {
      lost := false;
      var i := 0;
      while i < |outs|
        invariant 0 <= i <= |outs| && outs == old(outs) && Valid()
        invariant DisplayModel.LoseGone(old(View()), connected, 0).0 == DisplayModel.LoseGone(View(), connected, i).0
        invariant DisplayModel.LoseGone(old(View()), connected, 0).1
                  == (lost || DisplayModel.LoseGone(View(), connected, i).1)
      {
        assert View().outs[i] == outs[i].View();
        if outs[i].generation != 0 && outs[i].connector !in connected {
          Teardown(i);
          lost := true;
        }
        i := i + 1;
      }
    }

    /** The connectors that have an output. */
    method Known() returns (known: set<nat>)
      requires Valid()
      ensures known == Connectors(View().outs)
    {
      known := {};
      var i := 0;
      while i < |outs|
        invariant 0 <= i <= |outs|
        invariant known == Connectors(View().outs[..i])
      {
        ghost var v := View().outs;
        assert v[..i + 1] == v[..i] + [outs[i].View()];
        if outs[i].generation != 0 { known := known + {outs[i].connector}; }
        i := i + 1;
      }
      assert View().outs[..|outs|] == View().outs;
    }

    /** `configure_all`, on the probes of the kernel. */
    method ConfigureAll(res: Resources, probes: seq<Probe>) returns (added: bool)
      requires Valid()
      modifies this`outs, this`retired, this`liveBufs, this`generations, set o <- outs
      ensures Valid() && old(outs) <= outs && fresh(set o <- outs | o !in old(outs))
      ensures (View(), added) == AddFound(old(View()), Connectors(old(View()).outs), res, probes, Depth())
    {
      hide Configure;
      var known := Known();
      added := false;
      ghost var goal := AddFound(View(), known, res, probes, Depth());
      var i := 0;
      while i < |probes|
        invariant 0 <= i <= |probes| && Valid()
        invariant old(outs) <= outs && fresh(set o <- outs | o !in old(outs))
        invariant goal.0 == AddFound(View(), known, res, probes[i..], Depth()).0
        invariant goal.1 == (added || AddFound(View(), known, res, probes[i..], Depth()).1)
      {
        assert probes[i..][1..] == probes[i + 1..];
        var p := probes[i];
        if p.id !in known && p.due && p.found.Some? {
          var ok := ConfigureOne(res, p.found.value, p.answers);
          added := added || ok;
        }
        i := i + 1;
      }
    }

    /** `handle_hotplug`: one output at a time, and roles only after a real change. */
    method HandleHotplug(connected: set<nat>, res: Resources, probes: seq<Probe>)
      requires Valid()
      modifies this, set o <- outs
      ensures Valid()
      ensures View() == HotplugPass(old(View()), connected, res, probes, Depth())
    {
      var lost := LoseGone(connected);
      var added := ConfigureAll(res, probes);
      if lost || added { AssignRoles(); }
    }
  }

  /** The position of a free CRTC that some encoder of the connector can use, or -1. */
  method SearchCrtc(res: Resources, encoders: seq<Option<set<nat>>>, busy: set<nat>) returns (c: int)
    ensures c == match PickCrtc(res, encoders, busy) case Some(j) => j case None => -1
  {
    var i := 0;
    while i < |encoders|
      invariant 0 <= i <= |encoders|
      invariant PickCrtc(res, encoders, busy) == PickCrtc(res, encoders[i..], busy)
    {
      assert encoders[i..][1..] == encoders[i + 1..];
      if encoders[i].Some? {
        var j := 0;
        while j < |res.crtcs|
          invariant 0 <= j <= |res.crtcs|
          invariant FirstCrtc(res, encoders[i].value, busy, 0) == FirstCrtc(res, encoders[i].value, busy, j)
        {
          if j in encoders[i].value && res.crtcs[j] !in busy { return j; }
          j := j + 1;
        }
      }
      i := i + 1;
    }
    return -1;
  }

  /** The position of a free primary plane on the CRTC, or the number of planes. */
  method SearchPlane(planes: seq<Option<Plane>>, crtc: nat, busy: set<nat>) returns (p: nat)
    ensures p == FirstPlane(planes, crtc, busy)
  {
    p := 0;
    while p < |planes|
      invariant 0 <= p <= |planes|
      invariant forall j :: 0 <= j < p ==> !Suits(planes[j], crtc, busy)
    {
      if planes[p].Some? && crtc in planes[p].value.crtcs && planes[p].value.id !in busy && planes[p].value.isPrimary {
        return;
      }
      p := p + 1;
    }
  }

  lemma ReleasedNone(fd: int)
    ensures Released([], fd) == []
  {
  }

  /** One buffer further in the search of the retired list. */
  lemma ReleasedNext(bufs: seq<RingBuf>, i: nat, fd: int)
    requires i < |bufs|
    ensures bufs[..i] + Released(bufs[i..], fd)
            == if bufs[i].fd == fd then bufs[..i] + bufs[i + 1..] else bufs[..i + 1] + Released(bufs[i + 1..], fd)
  {
    assert bufs[i..][1..] == bufs[i + 1..];
    assert bufs[..i] + ([bufs[i]] + Released(bufs[i + 1..], fd)) == bufs[..i + 1] + Released(bufs[i + 1..], fd);
  }

  /** One buffer further in a ring, after those of `kept`. */
  lemma DrawnNext(kept: seq<RingBuf>, ring: seq<RingBuf>, i: nat)
    requires i < |ring|
    ensures kept + Drawn(ring[i..]) == (if ring[i].slot == Drawing then kept + [ring[i]] else kept) + Drawn(ring[i + 1..])
  {
    assert ring[i..][1..] == ring[i + 1..];
    assert kept + ([ring[i]] + Drawn(ring[i + 1..])) == kept + [ring[i]] + Drawn(ring[i + 1..]);
  }

  lemma {:induction false} NothingDrawn(ring: seq<RingBuf>)
    requires forall b :: b in ring ==> b.slot == Free
    ensures Drawn(ring) == []
  {
    if ring != [] { NothingDrawn(ring[1..]); }
  }
}
