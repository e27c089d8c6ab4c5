/** A frame that is presented reaches the screen (display/display.cpp). */
module DisplayProgress {
  import opened Prelude
  import opened DisplayModel
  import opened DisplaySystem
  import opened DisplaySafety
  import opened DisplayOwnership
  import opened DisplayTheorems

  /** The output in slot `i`, its hardware, its frames, and where the threads are. */
  ghost predicate At(s: System, i: int, o: Output, hw: Hardware, h: History, r: Pc, e: Pc) {
    && Shaped(s) && 0 <= i < |s.d.outs|
    && s.d.outs[i] == o && s.hw[i] == hw && s.log[i] == h && s.renderer == r && s.events == e
  }

  /** A buffer that is drawn into while no flip is outstanding. */
  predicate Ready(o: Output, h: History, j: int) {
    && 0 <= j < |o.ring| == |h.tag| && o.ring[j].slot == Drawing && o.idxInFlight < 0 && o.InRange()
  }

  lemma PresentGoes(s: System, t: Target, o: Output, hw: Hardware, h: History, n: nat)
    requires At(s, t.screen, o, hw, h, Idle, Idle) && t in s.held && !s.d.Gone(t) && Ready(o, h, t.index)
    ensures Shaped(s) && Enabled(s, PresentStep(t), n)
    ensures At(Do(s, PresentStep(t), n), t.screen, Pend(o, t.index), hw, Accept(h, t.index), Push(t.screen), Idle)
  {
  }

  lemma BeginGoes(s: System, i: int, o: Output, hw: Hardware, h: History, n: nat)
    requires At(s, i, o, hw, h, Push(i), Idle) && o.idxInFlight < 0 <= o.idxPending
    ensures Shaped(s) && Enabled(s, BeginStep(Renderer), n)
    ensures At(Do(s, BeginStep(Renderer), n), i, BeginCommit(o).0, hw, h, Asking(i, o.idxPending), Idle)
  {
  }

  lemma KernelGoes(s: System, i: int, j: int, o: Output, hw: Hardware, h: History, n: nat)
    requires At(s, i, o, hw, h, Asking(i, j), Idle)
    ensures Shaped(s) && Enabled(s, KernelStep(Renderer, true), n)
    ensures At(Do(s, KernelStep(Renderer, true), n), i, o, hw.(flip := j, latched := false), h, Answered(i, j, true), Idle)
  {
  }

  lemma EndGoes(s: System, i: int, j: int, o: Output, hw: Hardware, h: History, n: nat)
    requires At(s, i, o, hw, h, Answered(i, j, true), Idle)
    ensures Shaped(s) && Enabled(s, EndStep(Renderer), n)
    ensures At(Do(s, EndStep(Renderer), n), i, DoneCommit(o), hw, h, Idle, Idle)
  {
  }

  lemma BlankGoes(s: System, i: int, o: Output, hw: Hardware, h: History, n: nat)
    requires At(s, i, o, hw, h, Idle, Idle) && hw.flip >= 0 && !hw.latched
    ensures Shaped(s) && Enabled(s, VBlankStep(i), n)
    ensures At(Do(s, VBlankStep(i), n), i, o, hw.(scan := hw.flip, latched := true), h, Idle, Idle)
  {
  }

  lemma FlipGoes(s: System, i: int, o: Output, hw: Hardware, h: History, n: nat)
    requires At(s, i, o, hw, h, Idle, Idle) && hw.flip >= 0 && hw.latched
    ensures Shaped(s) && Enabled(s, FlipStep(i), n)
    ensures At(Do(s, FlipStep(i), n), i, Flip(o), hw.(flip := -1, latched := false), Show(h, hw.flip), Idle, Push(i))
  {
  }

  /** From the present to the report of the flip. */
  function Showing(t: Target): seq<Step> {
    [PresentStep(t), BeginStep(Renderer), KernelStep(Renderer, true), EndStep(Renderer), VBlankStep(t.screen),
     FlipStep(t.screen)]
  }

  /** The output when the frame is shown, and how it came there. */
  function Shown(o: Output, j: int): Output { Flip(DoneCommit(BeginCommit(Pend(o, j)).0)) }

  lemma ShownIsCurrent(o: Output, h: History, j: int)
    requires Ready(o, h, j)
    ensures Pend(o, j).idxInFlight < 0 && Pend(o, j).idxPending == j
    ensures var o' := Shown(o, j);
            && |o'.ring| == |o.ring| && o'.idxCurrent == j && o'.ring[j] == o.ring[j].(slot := Current)
            && o'.idxInFlight < 0 && o'.idxPending < 0 && o'.modesetDone && o'.st.presented == o.st.presented + 1
            && o'.st.dropped == o.st.dropped + if o.idxPending >= 0 then 1 else 0
    ensures Show(Accept(h, j), j).shown == h.shown + [h.accepted]
  {
    hide Flip, BeginCommit;
    IsPending(o, j);
    IsInFlight(Pend(o, j), j);
    hide Pend;
    BecomesCurrent(DoneCommit(BeginCommit(Pend(o, j)).0), j);
  }

  lemma IsPending(o: Output, j: int)
    requires 0 <= j < |o.ring| && o.ring[j].slot == Drawing && o.idxInFlight < 0 && o.InRange()
    ensures var o1 := Pend(o, j);
            && |o1.ring| == |o.ring| && o1.idxInFlight < 0 && o1.idxPending == j && o1.idxCurrent == o.idxCurrent
            && o1.ring[j] == o.ring[j].(slot := Pending) && o1.st.presented == o.st.presented
            && o1.st.dropped == o.st.dropped + if o.idxPending >= 0 then 1 else 0
  {
  }

  lemma IsInFlight(o: Output, j: int)
    requires 0 <= j < |o.ring| && o.idxPending == j && o.idxInFlight < 0
    ensures var o1 := BeginCommit(o).0;
            && |o1.ring| == |o.ring| && o1.idxInFlight == j && o1.idxPending < 0 && o1.idxCurrent == o.idxCurrent
            && o1.ring[j] == o.ring[j].(slot := InFlight) && o1.st == o.st
  {
  }

  lemma BecomesCurrent(o: Output, j: int)
    requires 0 <= j < |o.ring| && o.idxInFlight == j
    ensures var o1 := Flip(o);
            && |o1.ring| == |o.ring| && o1.idxCurrent == j && o1.ring[j] == o.ring[j].(slot := Current)
            && o1.idxInFlight < 0 && o1.idxPending == o.idxPending && o1.modesetDone == o.modesetDone
            && o1.st == o.st.(presented := o.st.presented + 1)
  {
  }

  /** The run goes on with these steps to `s`. */
  ghost predicate Leads(run: seq<System>, steps: seq<Step>, n: nat, more: seq<Step>, s: System) {
    exists on :: IsRun(on, steps + more, n) && run <= on && on[|steps + more|] == s
  }

  lemma Then(run: seq<System>, steps: seq<Step>, n: nat, more: seq<Step>, k: nat, s: System)
    requires k < |more| && Leads(run, steps, n, more[..k], s) && Shaped(s) && Enabled(s, more[k], n)
    ensures Leads(run, steps, n, more[..k + 1], Do(s, more[k], n))
  {
    var before := steps + more[..k];
    var on :| IsRun(on, before, n) && run <= on && on[|before|] == s;
    hide Do, Shaped, Allowed;
    RunExtends(on, before, n, more[k], BOTH);
    assert before + [more[k]] == steps + more[..k + 1];
    var next := on + [Do(s, more[k], n)];
    assert IsRun(next, steps + more[..k + 1], n) && run <= next;
  }

  /** In every run: a current target that the renderer holds while no flip of its output is outstanding can be presented,
      and if the kernel accepts the commit, the frame is on the screen after the next vertical blank; only a frame that was
      still waiting is dropped for it. */
  lemma FrameGetsThrough(run: seq<System>, steps: seq<Step>, n: nat, t: Target) returns (s': System)
    requires IsRun(run, steps, n) && n >= 1
    requires var s := run[|steps|];
             && t in s.held && !s.d.Gone(t) && s.renderer.Idle? && s.events.Idle?
             && |s.hw| == |s.d.outs| && 0 <= t.screen < |s.hw| && s.hw[t.screen].flip < 0
    ensures Leads(run, steps, n, Showing(t), s')
    ensures var s, i := run[|steps|], t.screen;
            && |s.log| == |s.d.outs| && i < |s'.d.outs| && |s'.log| == |s'.d.outs| == |s'.hw|
            && s'.hw[i].scan == t.index == s'.d.outs[i].idxCurrent && s'.log[i].shown == s.log[i].shown + [s.log[i].accepted]
            && 0 <= t.index < |s'.d.outs[i].ring| && s'.d.outs[i].ring[t.index].fd == t.fd
            && s'.d.outs[i].st.presented == s.d.outs[i].st.presented + 1
            && s'.d.outs[i].st.dropped == s.d.outs[i].st.dropped + if s.d.outs[i].idxPending >= 0 then 1 else 0
  {
    var s, i := run[|steps|], t.screen;
    RunKeepsInv(run, steps, n, |steps|);
    IsReady(s, t);
    Nothing(run, steps, n);
    var o, hw, h, j := s.d.outs[i], s.hw[i], s.log[i], t.index;
    ShownIsCurrent(o, h, j);
    hide Leads, At, IsRun, Do, Flip, DoneCommit, BeginCommit, Pend, Show, Accept, Showing, Inv, Shaped;
    s' := IsAccepted(run, steps, n, s, t, o, hw, h);
    s' := IsReported(run, steps, n, s', t, BeginCommit(Pend(o, j)).0, hw.(flip := j, latched := false), Accept(h, j));
    AtMeans(s', i, Shown(o, j), Hardware(j, -1, false, hw.stale), Show(Accept(h, j), j), Idle, Push(i));
  }

  lemma Nothing(run: seq<System>, steps: seq<Step>, n: nat)
    requires IsRun(run, steps, n)
    ensures Leads(run, steps, n, [], run[|steps|])
  {
    assert steps + [] == steps;
  }

  /** Up to the answer of the kernel. */
  lemma IsAccepted(run: seq<System>, steps: seq<Step>, n: nat, s: System, t: Target, o: Output, hw: Hardware, h: History)
    returns (s': System)
    requires Leads(run, steps, n, [], s) && At(s, t.screen, o, hw, h, Idle, Idle) && Ready(o, h, t.index)
    requires t in s.held && !s.d.Gone(t)
    ensures Leads(run, steps, n, Showing(t)[..3], s')
    ensures At(s', t.screen, BeginCommit(Pend(o, t.index)).0, hw.(flip := t.index, latched := false), Accept(h, t.index),
               Answered(t.screen, t.index, true), Idle)
  {
    var i, j := t.screen, t.index;
    ShownIsCurrent(o, h, j);
    assert Showing(t)[..0] == [];
    hide Leads, At, Do, Shaped, Allowed, Pend, BeginCommit, Accept, Shown, Show;
    PresentGoes(s, t, o, hw, h, n);
    Then(run, steps, n, Showing(t), 0, s);
    s' := Do(s, PresentStep(t), n);
    BeginGoes(s', i, Pend(o, j), hw, Accept(h, j), n);
    Then(run, steps, n, Showing(t), 1, s');
    s' := Do(s', BeginStep(Renderer), n);
    KernelGoes(s', i, j, BeginCommit(Pend(o, j)).0, hw, Accept(h, j), n);
    Then(run, steps, n, Showing(t), 2, s');
    s' := Do(s', KernelStep(Renderer, true), n);
  }

  /** And from there to the report. */
  lemma IsReported(run: seq<System>, steps: seq<Step>, n: nat, s: System, t: Target, o: Output, hw: Hardware, h: History)
    returns (s': System)
    requires Leads(run, steps, n, Showing(t)[..3], s) && hw.flip == t.index >= 0 && !hw.latched
    requires At(s, t.screen, o, hw, h, Answered(t.screen, t.index, true), Idle)
    ensures Leads(run, steps, n, Showing(t), s')
    ensures At(s', t.screen, Flip(DoneCommit(o)), Hardware(t.index, -1, false, hw.stale), Show(h, t.index), Idle,
               Push(t.screen))
  {
    var i, j := t.screen, t.index;
    assert Showing(t)[..6] == Showing(t);
    hide Leads, At, Do, Shaped, Allowed, DoneCommit, Flip, Show;
    EndGoes(s, i, j, o, hw, h, n);
    Then(run, steps, n, Showing(t), 3, s);
    s' := Do(s, EndStep(Renderer), n);
    BlankGoes(s', i, DoneCommit(o), hw, h, n);
    Then(run, steps, n, Showing(t), 4, s');
    s' := Do(s', VBlankStep(i), n);
    FlipGoes(s', i, DoneCommit(o), hw.(scan := j, latched := true), h, n);
    Then(run, steps, n, Showing(t), 5, s');
    s' := Do(s', FlipStep(i), n);
  }

  lemma AtMeans(s: System, i: int, o: Output, hw: Hardware, h: History, r: Pc, e: Pc)
    requires At(s, i, o, hw, h, r, e)
    ensures |s.hw| == |s.log| == |s.d.outs| && 0 <= i < |s.d.outs| && s.d.outs[i] == o && s.hw[i] == hw && s.log[i] == h
  {
  }

  lemma IsReady(s: System, t: Target)
    requires Inv(s) && Shaped(s) && t in s.held && !s.d.Gone(t) && s.renderer.Idle? && s.events.Idle?
    requires 0 <= t.screen < |s.d.outs| == |s.hw| == |s.log| && s.hw[t.screen].flip < 0
    ensures Ready(s.d.outs[t.screen], s.log[t.screen], t.index) && s.d.outs[t.screen].ring[t.index].fd == t.fd
    ensures At(s, t.screen, s.d.outs[t.screen], s.hw[t.screen], s.log[t.screen], Idle, Idle)
  {
    var i := t.screen;
    assert Placed(s.d, t);
    assert Local(s.d.outs[i], s.hw[i], s.log[i], s.renderer.On(i), s.events.On(i));
  }
}
