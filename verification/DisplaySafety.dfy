/** Invariants of the display system on one output, kept by every step. */
module DisplaySafety {
  import opened Prelude
  import opened DisplayModel
  import opened DisplaySystem

  /** Nothing has been drawn, so the outcome of a commit to an earlier configuration of the slot changes nothing. */
  predicate Untouched(o: Output) {
    && o.idxPending == -1 && o.idxInFlight == -1 && o.idxCurrent == -1
    && forall j :: 0 <= j < |o.ring| ==> o.ring[j].slot == Free
  }

  /** The indices agree with the slot states; what the hardware scans or is about to scan is marked
      Current or InFlight; an InFlight buffer is either owed by one thread or is the outstanding flip. */
  ghost predicate ScanOut(o: Output, hw: Hardware, r: Pc, e: Pc) {
    && o.Agree()
    && (o.Live() <==> |o.ring| >= 1)
    && -1 <= hw.flip
    && (hw.stale > 0 ==> !o.Live())
    && (if hw.latched then hw.flip >= 0 && hw.scan == hw.flip else hw.scan == o.idxCurrent)
    && (hw.flip >= 0 ==> hw.flip == o.idxInFlight && !r.Owes() && !e.Owes())
    && (hw.flip < 0 && o.idxInFlight >= 0 ==> r.Owes() || e.Owes())
    && (r.Owes() ==> r.idx >= 0 && ((!e.Owes() && r.idx == o.idxInFlight) || (r.Answered? && Untouched(o))))
    && (e.Owes() ==> e.idx >= 0 && e.idx == o.idxInFlight)
  }

  /** Why a pending frame does not wait for ever in a ring of two. */
  ghost predicate Moving(o: Output, r: Pc, e: Pc) {
    && (r.Inside() && !r.Push? ==> o.idxPending < 0)
    && (e.Inside() && !e.Push? ==> o.Live())
    && (e.Inside() && o.Live() ==> o.idxCurrent >= 0)
    && (o.idxPending >= 0 && o.idxInFlight < 0 ==> r.Push? || e.Push? || |o.ring| >= 3)
  }

  function One(idx: int): nat { if idx >= 0 then 1 else 0 }

  function TagOf(h: History, idx: int): seq<nat> { if 0 <= idx < |h.tag| then [h.tag[idx]] else [] }

  ghost predicate Increasing(s: seq<nat>, bound: nat) {
    && (forall a, b :: 0 <= a < b < |s| ==> s[a] < s[b])
    && (forall a :: 0 <= a < |s| ==> s[a] < bound)
  }

  /** The frames shown, then the one in flight, then the one that waits. */
  function Line(o: Output, h: History): seq<nat> {
    h.shown + TagOf(h, o.idxInFlight) + TagOf(h, o.idxPending)
  }

  /** Frames are shown in the order they were accepted, and every accepted frame is accounted for. */
  ghost predicate Counted(o: Output, h: History) {
    && |h.tag| == |o.ring|
    && Increasing(Line(o, h), h.accepted)
    && (o.idxCurrent >= 0 ==> h.shown != [] && TagOf(h, o.idxCurrent) == [h.shown[|h.shown| - 1]])
    && o.st.presented == |h.shown| + h.staleReports
    && h.accepted == |h.shown| + o.st.dropped + h.refused + One(o.idxPending) + One(o.idxInFlight)
    && (!o.Live() ==> h.accepted == 0)
  }

  ghost predicate Local(o: Output, hw: Hardware, h: History, r: Pc, e: Pc) {
    ScanOut(o, hw, r, e) && Moving(o, r, e) && Counted(o, h)
  }

  // --- one output ---

  lemma AcquireOne(o: Output, hw: Hardware, h: History, e: Pc, j: int)
    requires Local(o, hw, h, Idle, e) && 0 <= j < |o.ring| && o.ring[j].slot == Free
    ensures Local(o.Mark(j, Drawing), hw, h, Idle, e)
  {
  }

  lemma IncreasingMore(s: seq<nat>, k: nat, bound: nat)
    requires Increasing(s, bound) && k <= |s|
    ensures Increasing(s[..k] + [bound], bound + 1)
  {
  }

  lemma PresentLine(o: Output, h: History, j: int)
    requires o.Live() && o.Agree() && Counted(o, h) && 0 <= j < |o.ring| && o.ring[j].slot == Drawing
    ensures Counted(Pend(o, j), Accept(h, j))
  {
    var h' := Accept(h, j);
    assert TagOf(h', o.idxInFlight) == TagOf(h, o.idxInFlight);
    assert TagOf(h', o.idxCurrent) == TagOf(h, o.idxCurrent);
    hide Increasing, TagOf;
    var front := h.shown + TagOf(h, o.idxInFlight);
    assert front == Line(o, h)[..|front|];
    IncreasingMore(Line(o, h), |front|, h.accepted);
    PendedTag(o, h, j);
    assert Line(Pend(o, j), h') == front + [h.accepted];
  }

  lemma PendedTag(o: Output, h: History, j: int)
    requires 0 <= j < |o.ring| == |h.tag|
    ensures TagOf(Accept(h, j), j) == [h.accepted]
  {
  }

  lemma PresentOne(o: Output, hw: Hardware, h: History, e: Pc, j: int, i: int)
    requires Local(o, hw, h, Idle, e) && 0 <= j < |o.ring| && o.ring[j].slot == Drawing
    ensures Local(Pend(o, j), hw, Accept(h, j), Push(i), e)
  {
    hide Counted, Pend, Accept;
    PresentLine(o, h, j);
    PendedAgrees(o, j);
  }

  lemma PendedAgrees(o: Output, j: int)
    requires o.Agree() && 0 <= j < |o.ring| && o.ring[j].slot == Drawing
    ensures var o' := Pend(o, j);
            && o'.Agree() && o'.idxPending == j && o'.idxInFlight == o.idxInFlight && o'.idxCurrent == o.idxCurrent
            && |o'.ring| == |o.ring| && o'.generation == o.generation
  {
  }

  /** The first section of `try_commit`, run by either thread. */
  lemma BeginOne(o: Output, hw: Hardware, h: History, r: Pc, e: Pc, i: int)
    requires Local(o, hw, h, r, e)
    ensures var (o', idx) := BeginCommit(o);
            var mine := if idx.Some? then Asking(i, idx.value) else Idle;
            && (r.Push? ==> Local(o', hw, h, mine, e))
            && (e.Push? ==> Local(o', hw, h, r, mine))
  {
    var (o', idx) := BeginCommit(o);
    if idx.Some? {
      assert Line(o', h) == Line(o, h);
      assert o'.Agree();
    }
  }

  lemma RefusedLine(o: Output, h: History)
    requires o.Agree() && Counted(o, h) && o.idxInFlight >= 0
    ensures Counted(FailCommit(o, o.idxInFlight), h.(refused := h.refused + 1))
  {
    var rest := h.shown + TagOf(h, o.idxPending);
    assert Line(FailCommit(o, o.idxInFlight), h.(refused := h.refused + 1)) == rest;
    assert forall a :: |h.shown| <= a < |rest| ==> rest[a] == Line(o, h)[a + 1];
    assert forall a :: 0 <= a < |h.shown| ==> rest[a] == Line(o, h)[a];
  }

  /** The second section of `try_commit`, after a refusal: to the renderer, to the event thread, and to a commit of an
      earlier configuration. */
  lemma RefusedOne(o: Output, hw: Hardware, h: History, r: Pc, e: Pc)
    requires Local(o, hw, h, r, e)
    ensures r.Answered? && !r.ok ==> Local(FailCommit(o, r.idx), hw, Refuse(h, o, r.idx), Idle, e)
    ensures e.Answered? && !e.ok ==> Local(FailCommit(o, e.idx), hw, Refuse(h, o, e.idx), r, Idle)
  {
    hide Local, FailCommit, Refuse;
    if r.Answered? && !r.ok {
      RefusalsHit(o, hw, h, r, e);
      if r.idx == o.idxInFlight { RefusedRenderer(o, hw, h, r, e); } else { RefusedLate(o, hw, h, r, e); }
    }
    if e.Answered? && !e.ok { RefusedEvents(o, hw, h, r, e); }
  }

  lemma RefusalsHit(o: Output, hw: Hardware, h: History, r: Pc, e: Pc)
    requires Local(o, hw, h, r, e) && r.Answered? && !r.ok
    ensures r.idx >= 0 && (r.idx == o.idxInFlight || Untouched(o))
  {
  }

  lemma RefusedLate(o: Output, hw: Hardware, h: History, r: Pc, e: Pc)
    requires Local(o, hw, h, r, e) && r.Answered? && !r.ok && r.idx != o.idxInFlight && Untouched(o)
    ensures Local(FailCommit(o, r.idx), hw, Refuse(h, o, r.idx), Idle, e)
  {
    assert FailCommit(o, r.idx).ring == o.ring;
  }

  lemma RefusedRenderer(o: Output, hw: Hardware, h: History, r: Pc, e: Pc)
    requires Local(o, hw, h, r, e) && r.Answered? && !r.ok && 0 <= r.idx == o.idxInFlight
    ensures Local(FailCommit(o, r.idx), hw, Refuse(h, o, r.idx), Idle, e)
  {
    hide Counted;
    RefusedLine(o, h);
    assert FailCommit(o, o.idxInFlight).Agree();
  }

  lemma RefusedEvents(o: Output, hw: Hardware, h: History, r: Pc, e: Pc)
    requires Local(o, hw, h, r, e) && e.Answered? && !e.ok
    ensures Local(FailCommit(o, e.idx), hw, Refuse(h, o, e.idx), r, Idle)
  {
    hide Counted;
    RefusedLine(o, h);
    assert FailCommit(o, o.idxInFlight).Agree();
    if o.idxPending >= 0 {
      // in flight, current and pending are three different buffers
      assert o.ring[o.idxCurrent].slot == Current && o.ring[o.idxPending].slot == Pending;
      assert o.ring[o.idxInFlight].slot == InFlight;
    }
  }

  lemma FlipOne(o: Output, hw: Hardware, h: History, r: Pc, i: int)
    requires Local(o, hw, h, r, Idle) && hw.flip >= 0 && hw.latched
    ensures hw.flip < |h.tag|
    ensures Local(Flip(o), hw.(flip := -1, latched := false), Show(h, hw.flip), r, Push(i))
  {
    var o' := Flip(o);
    var h' := Show(h, hw.flip);
    assert Line(o', h') == Line(o, h);
    assert o'.Agree();
  }

  lemma KernelOne(o: Output, hw: Hardware, h: History, r: Pc, e: Pc, ok: bool)
    requires Local(o, hw, h, r, e)
    ensures r.Asking? ==> Local(o, if ok then hw.(flip := r.idx, latched := false) else hw, h,
                                Answered(r.screen, r.idx, ok), e)
    ensures e.Asking? ==> Local(o, if ok then hw.(flip := e.idx, latched := false) else hw, h,
                                r, Answered(e.screen, e.idx, ok))
  {
  }

  lemma AcceptedOne(o: Output, hw: Hardware, h: History, r: Pc, e: Pc)
    requires Local(o, hw, h, r, e)
    ensures r.Answered? && r.ok ==> Local(DoneCommit(o), hw, h, Idle, e)
    ensures e.Answered? && e.ok ==> Local(DoneCommit(o), hw, h, r, Idle)
  {
  }

  lemma BlankOne(o: Output, hw: Hardware, h: History, r: Pc, e: Pc)
    requires Local(o, hw, h, r, e)
    ensures hw.flip >= 0 && !hw.latched ==> Local(o, hw.(scan := hw.flip, latched := true), h, r, e)
    ensures hw.stale > 0 ==> Local(o, hw.(stale := hw.stale - 1), h, r, e)
  {
  }

  lemma StaleFlipOne(o: Output, hw: Hardware, h: History, r: Pc, i: int)
    requires Local(o, hw, h, r, Idle) && hw.stale > 0
    ensures Local(Flip(o), hw.(stale := hw.stale - 1), h.(staleReports := h.staleReports + 1), r, Push(i))
  {
  }

  lemma RoleOne(o: Output, hw: Hardware, h: History, r: Pc, e: Pc, b: bool)
    requires Local(o, hw, h, r, e)
    ensures Local(o.(primary := b), hw, h, r, e)
  {
  }

  lemma LoseOne(o: Output, hw: Hardware, h: History, r: Pc)
    requires Local(o, hw, h, r, Idle) && !r.Asking?
    ensures Local(NO_OUTPUT.(ctype := o.ctype), Darken(hw), NEW_HISTORY, r, Idle)
  {
    hide Counted;
    EmptyCounted(NO_OUTPUT.(ctype := o.ctype));
  }

  lemma EmptyCounted(o: Output)
    requires o.ring == [] && !o.Live() && o.idxPending == o.idxInFlight == o.idxCurrent == -1 && o.st == Stats(0, 0)
    ensures Counted(o, NEW_HISTORY)
  {
  }

  /** What `configure_one` leaves in the slot it has chosen. */
  ghost predicate AddedOne(before: Output, after: Output, added: bool, n: nat) {
    && after.idxPending == -1 && after.idxInFlight == -1 && after.idxCurrent == -1
    && if added then
         && after.generation > 0 && |after.ring| == n && after.st == before.st
         && (forall k :: 0 <= k < n ==> after.ring[k].slot == Free)
       else
         after.generation == 0 && after.ring == [] && (after.st == before.st || after.st == Stats(0, 0))
  }

  lemma AddOne(before: Output, after: Output, added: bool, n: nat, hw: Hardware, h: History, r: Pc)
    requires Local(before, hw, h, r, Idle) && !before.Live() && hw.stale == 0 && n >= 1
    requires AddedOne(before, after, added, n)
    ensures Local(after, hw, Begun(h, added, after.st != before.st, n), r, Idle)
  {
    hide ScanOut, Moving, Counted, AddedOne;
    AddScanOut(before, after, added, n, hw, r);
    AddCounted(before, after, added, n, hw, h, r);
  }

  lemma AddScanOut(before: Output, after: Output, added: bool, n: nat, hw: Hardware, r: Pc)
    requires ScanOut(before, hw, r, Idle) && Moving(before, r, Idle) && !before.Live() && hw.stale == 0 && n >= 1
    requires AddedOne(before, after, added, n)
    ensures ScanOut(after, hw, r, Idle) && Moving(after, r, Idle)
  {
    assert after.Agree();
  }

  lemma AddCounted(before: Output, after: Output, added: bool, n: nat, hw: Hardware, h: History, r: Pc)
    requires ScanOut(before, hw, r, Idle) && Counted(before, h) && !before.Live()
    requires AddedOne(before, after, added, n)
    ensures Counted(after, Begun(h, added, after.st != before.st, n))
  {
    hide Increasing;
    var h' := Begun(h, added, after.st != before.st, n);
    assert Line(after, h') == h'.shown;
    assert Line(before, h) == h.shown;
    NoneIncreasing(h.accepted);
  }

  lemma NoneIncreasing(bound: nat)
    ensures Increasing([], bound)
  {
  }

  // --- all outputs ---

  ghost predicate Positions(r: Pc, e: Pc, n: nat) {
    && !r.InPass? && (r.Inside() ==> 0 <= r.screen < n) && (e.Inside() ==> 0 <= e.screen < n)
  }

  ghost predicate AllLocal(s: System) {
    && |s.hw| == |s.d.outs| && |s.log| == |s.d.outs|
    && Positions(s.renderer, s.events, |s.d.outs|)
    && forall i :: 0 <= i < |s.d.outs| ==>
         Local(s.d.outs[i], s.hw[i], s.log[i], s.renderer.On(i), s.events.On(i))
  }

  /** A step that touches one output leaves the others as they were. */
  lemma Lift(s: System, s': System, i: int)
    requires AllLocal(s) && 0 <= i < |s.d.outs| && Positions(s'.renderer, s'.events, |s.d.outs|)
    requires |s'.d.outs| == |s'.hw| == |s'.log| == |s.d.outs|
    requires forall j :: 0 <= j < |s.d.outs| && j != i ==>
               && s'.d.outs[j] == s.d.outs[j] && s'.hw[j] == s.hw[j] && s'.log[j] == s.log[j]
               && s'.renderer.On(j) == s.renderer.On(j) && s'.events.On(j) == s.events.On(j)
    requires Local(s'.d.outs[i], s'.hw[i], s'.log[i], s'.renderer.On(i), s'.events.On(i))
    ensures AllLocal(s')
  {
  }

  lemma ShapedIfLocal(s: System)
    requires AllLocal(s)
    ensures Shaped(s)
  {
    forall i | 0 <= i < |s.d.outs| ensures s.d.outs[i].InRange() {
      assert Local(s.d.outs[i], s.hw[i], s.log[i], s.renderer.On(i), s.events.On(i));
    }
  }

  lemma AcquireKeepsLocal(s: System, i: int)
    requires AllLocal(s) && s.renderer.Idle?
    ensures AllLocal(Acquiring(s, i))
  {
    hide Local;
    if Acquire(s.d, i).1.Some? {
      AcquireOne(s.d.outs[i], s.hw[i], s.log[i], s.events.On(i), FirstFree(s.d.outs[i].ring));
      Lift(s, Acquiring(s, i), i);
    }
  }

  lemma PresentKeepsLocal(s: System, t: Target)
    requires AllLocal(s) && s.renderer.Idle?
    ensures AllLocal(Presenting(s, t))
  {
    hide Local, Pend;
    if Queue(s.d, t).1 {
      var i := t.screen;
      PresentOne(s.d.outs[i], s.hw[i], s.log[i], s.events.On(i), t.index, i);
      Lift(s, Presenting(s, t), i);
    }
  }

  /** Entering `try_commit` keeps the local invariants. */
  lemma BeginKeepsLocal(s: System, th: Thread)
    requires AllLocal(s) && s.Thread(th).Push?
    ensures AllLocal(Beginning(s, th))
  {
    hide Local;
    var i := s.Thread(th).screen;
    BeginOne(s.d.outs[i], s.hw[i], s.log[i], s.renderer.On(i), s.events.On(i), i);
    Lift(s, Beginning(s, th), i);
  }

  /** The kernel's answer keeps the local invariants. */
  lemma KernelKeepsLocal(s: System, th: Thread, ok: bool)
    requires AllLocal(s) && s.Thread(th).Asking?
    ensures AllLocal(Answering(s, th, ok))
  {
    var i := s.Thread(th).screen;
    hide Local;
    KernelOne(s.d.outs[i], s.hw[i], s.log[i], s.renderer.On(i), s.events.On(i), ok);
    Lift(s, Answering(s, th, ok), i);
  }

  /** Leaving `try_commit` keeps the local invariants. */
  lemma EndKeepsLocal(s: System, th: Thread)
    requires AllLocal(s) && s.Thread(th).Answered?
    ensures AllLocal(Ending(s, th))
  {
    hide Local;
    var i := s.Thread(th).screen;
    if s.Thread(th).ok {
      AcceptedOne(s.d.outs[i], s.hw[i], s.log[i], s.renderer.On(i), s.events.On(i));
    } else {
      RefusedOne(s.d.outs[i], s.hw[i], s.log[i], s.renderer.On(i), s.events.On(i));
    }
    Lift(s, Ending(s, th), i);
  }

  /** The hardware keeps the local invariants. */
  lemma HardwareKeepsLocal(s: System, i: int)
    requires AllLocal(s) && 0 <= i < |s.hw|
    ensures s.hw[i].flip >= 0 && !s.hw[i].latched ==> AllLocal(Blanking(s, i))
    ensures s.hw[i].stale > 0 ==> AllLocal(LosingReport(s, i))
  {
    hide Local;
    BlankOne(s.d.outs[i], s.hw[i], s.log[i], s.renderer.On(i), s.events.On(i));
    if s.hw[i].flip >= 0 && !s.hw[i].latched { Lift(s, Blanking(s, i), i); }
    if s.hw[i].stale > 0 { Lift(s, LosingReport(s, i), i); }
  }

  /** The flip handler keeps the local invariants. */
  lemma FlipKeepsLocal(s: System, i: int)
    requires AllLocal(s) && 0 <= i < |s.hw| && s.events.Idle? && s.hw[i].flip >= 0 && s.hw[i].latched
    ensures AllLocal(Flipping(s, i))
  {
    hide Local, Flip, Show;
    FlipOne(s.d.outs[i], s.hw[i], s.log[i], s.renderer.On(i), i);
    Lift(s, Flipping(s, i), i);
  }

  /** So it does on a late report to a slot without an output. */
  lemma StaleFlipKeepsLocal(s: System, i: int)
    requires AllLocal(s) && 0 <= i < |s.hw| && s.events.Idle? && s.hw[i].stale > 0
    ensures AllLocal(StaleFlipping(s, i))
  {
    hide Local, Flip;
    StaleFlipOne(s.d.outs[i], s.hw[i], s.log[i], s.renderer.On(i), i);
    Lift(s, StaleFlipping(s, i), i);
  }

  /** Tearing an output down keeps the local invariants. */
  lemma LoseKeepsLocal(s: System, i: int)
    requires AllLocal(s) && 0 <= i < |s.hw| && s.events.InPass?
    requires !s.renderer.On(i).Asking?
    ensures AllLocal(Losing(s, i))
  {
    hide Local;
    LoseOne(s.d.outs[i], s.hw[i], s.log[i], s.renderer.On(i));
    Lift(s, Losing(s, i), i);
  }

  /** The ends of a hot-plug pass keep the local invariants. */
  lemma PassKeepsLocal(s: System)
    requires AllLocal(s)
    ensures s.events.Idle? ==> AllLocal(s.(events := InPass(false)))
    ensures s.events.InPass? ==> AllLocal(EndingPass(s))
  {
    hide Local;
    if s.events.InPass? {
      var outs := EndingPass(s).d.outs;
      forall i | 0 <= i < |s.d.outs| ensures Local(outs[i], s.hw[i], s.log[i], s.renderer.On(i), Idle) {
        RoleOne(s.d.outs[i], s.hw[i], s.log[i], s.renderer.On(i), Idle, outs[i].primary);
      }
    }
  }

  // --- bringing an output up ---

  ghost predicate DeadEmpty(d: Display) {
    forall i :: 0 <= i < |d.outs| && !d.outs[i].Live() ==>
      && d.outs[i].ring == [] && d.outs[i].idxPending == -1 && d.outs[i].idxInFlight == -1
      && d.outs[i].idxCurrent == -1
  }

  lemma LocalDeadEmpty(s: System)
    requires AllLocal(s)
    ensures DeadEmpty(s.d)
  {
    forall i | 0 <= i < |s.d.outs| && !s.d.outs[i].Live()
      ensures s.d.outs[i].ring == [] && s.d.outs[i].idxPending == -1 && s.d.outs[i].idxInFlight == -1
              && s.d.outs[i].idxCurrent == -1
    {
      assert Local(s.d.outs[i], s.hw[i], s.log[i], s.renderer.On(i), s.events.On(i));
    }
  }

  /** What `configure_one` changes of `d`: the slot it opens, and the counts of what it allocates. */
  ghost predicate Brought(d: Display, d': Display, slot: int, added: bool, n: nat) {
    && 0 <= slot < |d.outs| == |d'.outs|
    && (forall i :: 0 <= i < |d.outs| && i != slot ==> d'.outs[i] == d.outs[i])
    && AddedOne(d.outs[slot], d'.outs[slot], added, n)
    && d'.retired == d.retired
    && d'.liveBufs == d.liveBufs + (if added then n else 0)
    && d'.generations == d.generations + (if added then 1 else 0)
    && (added ==> d'.outs[slot].generation == d'.generations)
  }

  lemma ConfigureBrings(d: Display, res: Resources, conn: Connector, a: Answers, n: nat)
    requires DeadEmpty(d)
    ensures var (d', added) := Configure(d, res, conn, a, n); Brought(Opened(d), d', FreeSlot(d.outs), added, n)
  {
  }

  lemma DarkIsLocal()
    ensures Local(NO_OUTPUT, DARK, NEW_HISTORY, Idle, Idle)
  {
    EmptyCounted(NO_OUTPUT);
  }

  lemma OpeningKeepsLocal(s: System)
    requires AllLocal(s)
    ensures AllLocal(Opening(s))
  {
    hide Local;
    assert s.renderer.On(|s.d.outs|) == Idle && s.events.On(|s.d.outs|) == Idle;
    DarkIsLocal();
  }

  /** Bringing an output up in an opened slot keeps the local invariants. */
  lemma AdoptKeepsLocal(s: System, d: Display, slot: nat, added: bool, n: nat)
    requires AllLocal(s) && s.events.InPass? && n >= 1
    requires Brought(s.d, d, slot, added, n) && !s.d.outs[slot].Live() && s.hw[slot].stale == 0
    ensures var h := Begun(s.log[slot], added, d.outs[slot].st != s.d.outs[slot].st, n);
            AllLocal(s.(d := d, log := s.log[slot := h], events := InPass(s.events.changed || added)))
  {
    hide Local, AddedOne, Begun;
    AddOne(s.d.outs[slot], d.outs[slot], added, n, s.hw[slot], s.log[slot], s.renderer.On(slot));
    var h := Begun(s.log[slot], added, d.outs[slot].st != s.d.outs[slot].st, n);
    Lift(s, s.(d := d, log := s.log[slot := h], events := InPass(s.events.changed || added)), slot);
  }

  lemma AddKeepsLocal(s: System, res: Resources, conn: Connector, a: Answers, n: nat)
    requires AllLocal(s) && s.events.InPass? && n >= 1
    requires FreeSlot(s.d.outs) < |s.hw| ==> s.hw[FreeSlot(s.d.outs)].stale == 0
    ensures AllLocal(Adding(s, res, conn, a, n))
  {
    hide Local, Configure, AddedOne, Begun;
    LocalDeadEmpty(s);
    ConfigureBrings(s.d, res, conn, a, n);
    OpeningKeepsLocal(s);
    var (d, added) := Configure(s.d, res, conn, a, n);
    AdoptKeepsLocal(Opening(s), d, FreeSlot(s.d.outs), added, n);
  }
}
