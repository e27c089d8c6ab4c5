/** What holds in every run of the display system, with any number of outputs and ring depth `n >= 1`. */
module DisplayTheorems {
  import opened Prelude
  import opened DisplayModel
  import opened DisplaySystem
  import opened DisplaySafety
  import opened DisplayOwnership
  import opened DisplayRoles

  ghost predicate Inv(s: System) { AllLocal(s) && Owned(s.d, s.held) && Settled(s) }

  lemma StepKeepsInv(s: System, step: Step, n: nat)
    requires Inv(s) && Shaped(s) && Enabled(s, step, n) && n >= 1
    ensures Inv(Do(s, step, n))
  {
    hide AllLocal, Owned, Settled, Do, Possible;
    StepKeepsLocal(s, step, n);
    StepKeepsOwned(s, step, n);
    StepKeepsSettled(s, step, n);
  }

  lemma StepKeepsLocal(s: System, step: Step, n: nat)
    requires AllLocal(s) && Shaped(s) && Enabled(s, step, n) && n >= 1
    ensures AllLocal(Do(s, step, n))
  {
    hide Local, AllLocal, Acquiring, Presenting, Beginning, Answering, Ending, Blanking, Flipping, StaleFlipping,
         LosingReport, Losing, Adding, EndingPass, Fresh;
    match step
    case AcquireStep(i) => AcquireKeepsLocal(s, i);
    case PresentStep(t) => PresentKeepsLocal(s, t);
    case BeginStep(th) => BeginKeepsLocal(s, th);
    case KernelStep(th, ok) => KernelKeepsLocal(s, th, ok);
    case EndStep(th) => EndKeepsLocal(s, th);
    case VBlankStep(i) => HardwareKeepsLocal(s, i);
    case FlipStep(i) => FlipKeepsLocal(s, i);
    case StaleFlipStep(i) => StaleFlipKeepsLocal(s, i);
    case LostReportStep(i) => HardwareKeepsLocal(s, i);
    case LoseStep(i) => LoseKeepsLocal(s, i);
    case AddStep(res, conn, a) => AddKeepsLocal(s, res, conn, a, n);
    case PassStep => PassKeepsLocal(s);
    case PassEndStep => PassKeepsLocal(s);
  }

  /** `run[0]` is the start and each later state follows from the one before by a step that `env` allows. */
  ghost predicate Follows(run: seq<System>, steps: seq<Step>, n: nat, env: Assumptions) {
    && |run| == |steps| + 1 && run[0] == START
    && forall k :: 0 <= k < |steps| ==>
         Shaped(run[k]) && Allowed(run[k], steps[k], n, env) && run[k + 1] == Do(run[k], steps[k], n)
  }

  /** A run of the system under both assumptions. */
  ghost predicate IsRun(run: seq<System>, steps: seq<Step>, n: nat) { Follows(run, steps, n, BOTH) }

  lemma {:induction false} RunKeepsInv(run: seq<System>, steps: seq<Step>, n: nat, k: nat)
    requires IsRun(run, steps, n) && n >= 1 && k < |run|
    ensures Inv(run[k]) && Shaped(run[k])
  {
    if k == 0 {
      assert StaleFds(START.d, {}) == {} && Fds([]) == {};
    } else {
      RunKeepsInv(run, steps, n, k - 1);
      StepKeepsInv(run[k - 1], steps[k - 1], n);
    }
    ShapedIfLocal(run[k]);
  }

  /** Any step that is allowed extends a run. */
  lemma RunExtends(run: seq<System>, steps: seq<Step>, n: nat, step: Step, env: Assumptions)
    requires Follows(run, steps, n, env) && Shaped(run[|steps|]) && Allowed(run[|steps|], step, n, env)
    ensures Follows(run + [Do(run[|steps|], step, n)], steps + [step], n, env)
  {
    hide Shaped, Do;
    var run', steps' := run + [Do(run[|steps|], step, n)], steps + [step];
    forall k | 0 <= k < |steps'|
      ensures Shaped(run'[k]) && Allowed(run'[k], steps'[k], n, env) && run'[k + 1] == Do(run'[k], steps'[k], n)
    {
      if k < |steps| { assert run'[k] == run[k] && run'[k + 1] == run[k + 1] && steps'[k] == steps[k]; }
    }
  }

  /** The buffer the hardware scans, or the one it will scan next. */
  predicate OnScreen(hw: Hardware, b: int) { b >= 0 && (b == hw.scan || b == hw.flip) }

  lemma OnScreenIsMarked(o: Output, hw: Hardware, r: Pc, e: Pc, b: int)
    requires ScanOut(o, hw, r, e) && OnScreen(hw, b)
    ensures b < |o.ring| && (o.ring[b].slot == Current || o.ring[b].slot == InFlight)
  {
  }

  /** Scan-out safety: a buffer on the screen is marked Current or InFlight, `acquire` does not hand it out
      and the renderer does not hold it; indices and slot states agree; and while a thread asks the kernel
      for a new flip none is outstanding. */
  lemma ScannedIsNeverHandedOut(run: seq<System>, steps: seq<Step>, n: nat, k: nat, i: nat, b: int)
    requires IsRun(run, steps, n) && n >= 1 && k < |run| && i < |run[k].d.outs|
    ensures |run[k].hw| == |run[k].d.outs| && run[k].d.outs[i].Agree()
    ensures OnScreen(run[k].hw[i], b) ==>
              && b < |run[k].d.outs[i].ring|
              && (run[k].d.outs[i].ring[b].slot == Current || run[k].d.outs[i].ring[b].slot == InFlight)
              && (forall t :: Acquire(run[k].d, i).1 == Some(t) ==> t.index != b)
              && (forall t :: t in run[k].held && t.screen == i && !run[k].d.Gone(t) ==> t.index != b)
    ensures run[k].renderer.On(i).Asking? || run[k].events.On(i).Asking? ==> run[k].hw[i].flip < 0
  {
    RunKeepsInv(run, steps, n, k);
    var s := run[k];
    assert ScanOut(s.d.outs[i], s.hw[i], s.renderer.On(i), s.events.On(i)) by {
      assert Local(s.d.outs[i], s.hw[i], s.log[i], s.renderer.On(i), s.events.On(i));
    }
    if OnScreen(s.hw[i], b) {
      OnScreenIsMarked(s.d.outs[i], s.hw[i], s.renderer.On(i), s.events.On(i), b);
      forall t | t in s.held && t.screen == i && !s.d.Gone(t) ensures t.index != b {
        assert Placed(s.d, t);
      }
    }
  }

  /** Conservation: live buffers are those of the rings and the retired ones; the retired ones are exactly
      those of held targets whose configuration is over; and every held current target still has its
      own buffer in Drawing. */
  lemma BuffersAreConserved(run: seq<System>, steps: seq<Step>, n: nat, k: nat)
    requires IsRun(run, steps, n) && n >= 1 && k < |run|
    ensures var s := run[k];
            && s.d.liveBufs == TotalRing(s.d.outs) + |s.d.retired|
            && Fds(s.d.retired) == StaleFds(s.d, s.held) && ListFdsDistinct(s.d.retired)
            && (forall t :: t in s.held ==> Placed(s.d, t))
            && DrawingHeld(s.d, s.held)
  {
    RunKeepsInv(run, steps, n, k);
  }

  /** A target of an earlier configuration enters no ring; it frees its own buffer and no other. */
  lemma StaleTargetFreesItsOwn(run: seq<System>, steps: seq<Step>, n: nat, k: nat, t: Target)
    requires IsRun(run, steps, n) && n >= 1 && k < |run| && t in run[k].held && run[k].d.Gone(t)
    ensures var d, d' := run[k].d, Queue(run[k].d, t).0;
            && d'.outs == d.outs && d'.liveBufs == d.liveBufs - 1 && |d'.retired| == |d.retired| - 1
            && t.fd in Fds(d.retired) && Fds(d'.retired) == Fds(d.retired) - {t.fd}
  {
    RunKeepsInv(run, steps, n, k);
    StaleKeepsOwned(run[k].d, run[k].held, t);
    ReleasedTakesOne(run[k].d.retired, t.fd);
    assert t.fd in StaleFds(run[k].d, run[k].held);
  }

  /** Frames of one configuration are shown in the order of acceptance, none twice, and each accepted
      frame is shown, dropped, refused, pending or in flight. */
  lemma FramesInOrder(run: seq<System>, steps: seq<Step>, n: nat, k: nat, i: nat)
    requires IsRun(run, steps, n) && n >= 1 && k < |run| && i < |run[k].d.outs|
    ensures |run[k].log| == |run[k].d.outs|
    ensures var o, h := run[k].d.outs[i], run[k].log[i];
            && Increasing(h.shown, h.accepted)
            && h.accepted == |h.shown| + o.st.dropped + h.refused + One(o.idxPending) + One(o.idxInFlight)
            && (h.accepted == o.st.presented + o.st.dropped + h.refused + One(o.idxPending) + One(o.idxInFlight)
                <==> h.staleReports == 0)
  {
    RunKeepsInv(run, steps, n, k);
    var s := run[k];
    var o, h := s.d.outs[i], s.log[i];
    assert Local(o, s.hw[i], h, s.renderer.On(i), s.events.On(i));
    assert h.shown == Line(o, h)[..|h.shown|];
  }

  /** What reaches the screen at a vertical blank is the frame reported at the following flip. */
  lemma ReportedFrameIsScanned(run: seq<System>, steps: seq<Step>, n: nat, k: nat, i: nat)
    requires IsRun(run, steps, n) && n >= 1 && k < |steps| && steps[k] == FlipStep(i)
    ensures var s, s' := run[k], run[k + 1];
            && i < |s.d.outs| == |s'.d.outs| && 0 <= s.hw[i].scan < |s.log[i].tag|
            && s'.log[i].shown == s.log[i].shown + [s.log[i].tag[s.hw[i].scan]]
            && s'.d.outs[i].idxCurrent == s.hw[i].scan
  {
    RunKeepsInv(run, steps, n, k);
    var s := run[k];
    assert Local(s.d.outs[i], s.hw[i], s.log[i], s.renderer.On(i), s.events.On(i));
  }

  /** Hot-plug: live outputs occupy different hardware, and outside a pass that has changed something the
      primary slot is the live one of least rank, the lowest on ties, and the only one marked. */
  lemma OutputsAreSettled(run: seq<System>, steps: seq<Step>, n: nat, k: nat)
    requires IsRun(run, steps, n) && n >= 1 && k < |run|
    ensures Disjoint(run[k].d.outs)
    ensures !(run[k].events.InPass? && run[k].events.changed) ==> Ranked(run[k].d)
  {
    RunKeepsInv(run, steps, n, k);
  }

  /** What every step leaves of an output that it does not tear down. */
  ghost predicate Stays(o: Output, o': Output) {
    SameIdentity(o.(primary := false), o'.(primary := false)) && |o'.ring| == |o.ring|
  }

  lemma RingLengthKept(s: System, step: Step, n: nat, i: nat)
    requires Shaped(s) && Enabled(s, step, n) && !step.LoseStep? && !step.AddStep? && i < |s.d.outs|
    ensures RingStays(s.d, Do(s, step, n).d, i)
  {
    hide RingStays, Acquire, Queue, BeginCommit, FailCommit, Flip, AssignRoles, Fresh;
    match step
    case AcquireStep(screen) => RendererKeepsRings(s, screen, Target(0, 0, 0, 0), i);
    case PresentStep(t) => RendererKeepsRings(s, 0, t, i);
    case BeginStep(th) => CommitKeepsRings(s, th, true, i);
    case KernelStep(th, ok) => CommitKeepsRings(s, th, ok, i);
    case EndStep(th) => CommitKeepsRings(s, th, true, i);
    case FlipStep(k) => EventsKeepRings(s, k, i);
    case StaleFlipStep(k) => EventsKeepRings(s, k, i);
    case PassEndStep => EventsKeepRings(s, i, i);
    case _ => RingStaysItself(s.d, i);
  }

  predicate RingStays(d: Display, d': Display, i: nat) {
    i < |d.outs| && i < |d'.outs| && |d'.outs[i].ring| == |d.outs[i].ring|
  }

  lemma RingStaysItself(d: Display, i: nat)
    requires i < |d.outs|
    ensures RingStays(d, d, i)
  {
  }

  lemma RendererKeepsRings(s: System, screen: int, t: Target, i: nat)
    requires Shaped(s) && i < |s.d.outs|
    ensures RingStays(s.d, Acquiring(s, screen).d, i) && RingStays(s.d, Presenting(s, t).d, i)
  {
  }

  lemma CommitKeepsRings(s: System, th: Thread, ok: bool, i: nat)
    requires Shaped(s) && i < |s.d.outs|
    ensures s.Thread(th).Push? ==> RingStays(s.d, Beginning(s, th).d, i)
    ensures s.Thread(th).Asking? ==> RingStays(s.d, Answering(s, th, ok).d, i)
    ensures s.Thread(th).Answered? ==> RingStays(s.d, Ending(s, th).d, i)
  {
  }

  lemma EventsKeepRings(s: System, k: int, i: nat)
    requires Shaped(s) && i < |s.d.outs| && 0 <= k < |s.d.outs|
    ensures RingStays(s.d, Flipping(s, k).d, i)
    ensures s.hw[k].stale > 0 ==> RingStays(s.d, StaleFlipping(s, k).d, i)
    ensures s.events.InPass? ==> RingStays(s.d, EndingPass(s).d, i)
  {
  }

  /** A live output keeps its slot, its hardware, its generation and its ring until it is torn down. */
  lemma LiveOutputStays(run: seq<System>, steps: seq<Step>, n: nat, k: nat, i: nat)
    requires IsRun(run, steps, n) && k < |steps| && run[k].d.Has(i) && steps[k] != LoseStep(i)
    ensures i < |run[k + 1].d.outs| && Stays(run[k].d.outs[i], run[k + 1].d.outs[i])
  {
    var s, step := run[k], steps[k];
    if step.AddStep? {
      ConfigureOccupies(s.d, step.res, step.conn, step.answers, n);
    } else if !step.LoseStep? {
      RingLengthKept(s, step, n, i);
      if !step.PassEndStep? { IdentityKept(s, step, n); }
    }
  }

  lemma ConfiguredDepth(s: System, step: Step, n: nat, i: nat)
    requires Inv(s) && Shaped(s) && Enabled(s, step, n) && n >= 1 && step.AddStep?
    requires i < |Do(s, step, n).d.outs| && Do(s, step, n).d.outs[i].Live() && !s.d.Has(i)
    ensures |Do(s, step, n).d.outs[i].ring| == n
  {
    hide Local, Owned, Settled, Configure, Fresh;
    LocalDeadEmpty(s);
    ConfigureBrings(s.d, step.res, step.conn, step.answers, n);
  }

  /** Nothing but a successful configuration brings an output to life. */
  lemma OnlyAddBringsToLife(s: System, step: Step, n: nat, i: nat)
    requires Shaped(s) && Enabled(s, step, n) && !step.AddStep?
    requires i < |Do(s, step, n).d.outs| && Do(s, step, n).d.outs[i].Live()
    ensures s.d.Has(i) && step != LoseStep(i)
  {
    if !step.LoseStep? && !step.PassEndStep? { IdentityKept(s, step, n); }
  }

  lemma {:induction false} RingsHaveDepth(run: seq<System>, steps: seq<Step>, n: nat, k: nat)
    requires IsRun(run, steps, n) && n >= 1 && k < |run|
    ensures forall i :: run[k].d.Has(i) ==> |run[k].d.outs[i].ring| == n
  {
    hide Inv, Do, Possible, Shaped, SameIdentity;
    if k > 0 {
      RingsHaveDepth(run, steps, n, k - 1);
      RunKeepsInv(run, steps, n, k - 1);
      var s, step := run[k - 1], steps[k - 1];
      forall i | run[k].d.Has(i) ensures |run[k].d.outs[i].ring| == n {
        if s.d.Has(i) && step != LoseStep(i) {
          LiveOutputStays(run, steps, n, k - 1, i);
        } else if step.AddStep? {
          ConfiguredDepth(s, step, n, i);
        } else {
          OnlyAddBringsToLife(s, step, n, i);
        }
      }
    }
  }

  /** Pending and Current cannot fill a ring by themselves once nothing is in flight. */
  lemma RoomLeft(o: Output, hw: Hardware, h: History)
    requires Local(o, hw, h, Idle, Idle) && hw.flip < 0 && |o.ring| >= 2
    requires forall j :: 0 <= j < |o.ring| ==> o.ring[j].slot != Drawing
    ensures FirstFree(o.ring) < |o.ring|
  {
    var p, c := o.idxPending, o.idxCurrent;
    var j := if 0 != p && 0 != c then 0 else if 1 != p && 1 != c then 1 else 2;
    assert o.ring[j].slot == Free;
  }

  /** Progress: with two buffers or more and no thread inside a commit of the output, `acquire` on a live
      output fails only if the renderer holds a buffer of it or a flip is outstanding. */
  lemma AcquireFailsOnlyIfBusy(run: seq<System>, steps: seq<Step>, n: nat, k: nat, i: nat)
    requires IsRun(run, steps, n) && n >= 2 && k < |run| && run[k].d.Has(i)
    requires !run[k].renderer.On(i).Inside() && !run[k].events.On(i).Inside()
    requires Acquire(run[k].d, i).1.None?
    ensures |run[k].hw| == |run[k].d.outs|
    ensures run[k].hw[i].flip >= 0 || exists t :: t in run[k].held && t.screen == i && !run[k].d.Gone(t)
  {
    RunKeepsInv(run, steps, n, k);
    RingsHaveDepth(run, steps, n, k);
    var s := run[k];
    var o := s.d.outs[i];
    assert Local(o, s.hw[i], s.log[i], Idle, Idle);
    if s.hw[i].flip < 0 {
      if forall j :: 0 <= j < |o.ring| ==> o.ring[j].slot != Drawing {
        RoomLeft(o, s.hw[i], s.log[i]);
      } else {
        var j :| 0 <= j < |o.ring| && o.ring[j].slot == Drawing;
        assert Target(i, j, o.generation, o.ring[j].fd) in s.held;
      }
    }
  }

  // --- a ring of one ---

  /** The only buffer of a ring is on the screen. */
  predicate Full(o: Output) { o.Live() && |o.ring| == 1 && o.idxCurrent == 0 }

  lemma FullHasNoFree(d: Display, i: int)
    requires d.Has(i) && Full(d.outs[i]) && d.outs[i].Agree()
    ensures Acquire(d, i).1.None?
  {
    assert d.outs[i].ring[0].slot == Current;
  }

  /** The confirmation of a flip puts the only buffer on the screen. */
  lemma FlipFills(o: Output, hw: Hardware, h: History, r: Pc)
    requires Local(o, hw, h, r, Idle) && hw.flip >= 0 && (o.Live() ==> |o.ring| == 1)
    ensures o.Live() && Flip(o).Live() && Full(Flip(o))
  {
  }

  /** What each thread and the hardware can do to an output of a full ring. */
  lemma FullOne(o: Output, hw: Hardware, h: History, r: Pc, e: Pc)
    requires Local(o, hw, h, r, e) && Full(o)
    ensures hw.flip < 0 && hw.stale == 0 && BeginCommit(o) == (o, None) && FirstFree(o.ring) == 1
    ensures o.ring[0].slot != Drawing && !(r.Answered? && !r.ok) && !(e.Answered? && !e.ok)
  {
    assert o.ring[0].slot == Current;
  }

  /** In a full ring none is free, none is drawn into, and no commit has anything to do. */
  ghost predicate Stuck(s: System, i: int) {
    && Shaped(s) && s.d.Has(i) && Full(s.d.outs[i]) && s.hw[i].flip < 0 && s.hw[i].stale == 0
    && BeginCommit(s.d.outs[i]) == (s.d.outs[i], None)
    && FirstFree(s.d.outs[i].ring) == 1 && s.d.outs[i].ring[0].slot != Drawing
    && !(s.renderer.On(i).Answered? && !s.renderer.On(i).ok) && !(s.events.On(i).Answered? && !s.events.On(i).ok)
  }

  lemma FullIsStuck(s: System, i: int)
    requires Inv(s) && Shaped(s) && s.d.Has(i) && Full(s.d.outs[i])
    ensures Stuck(s, i)
  {
    assert Local(s.d.outs[i], s.hw[i], s.log[i], s.renderer.On(i), s.events.On(i));
    FullOne(s.d.outs[i], s.hw[i], s.log[i], s.renderer.On(i), s.events.On(i));
  }

  lemma RendererKeepsFull(s: System, screen: int, t: Target, i: int)
    requires Stuck(s, i)
    ensures var d := Acquiring(s, screen).d; d.Has(i) && Full(d.outs[i])
    ensures var d := Presenting(s, t).d; d.Has(i) && Full(d.outs[i])
  {
  }

  lemma CommitKeepsFull(s: System, th: Thread, ok: bool, i: int)
    requires Stuck(s, i)
    ensures s.Thread(th).Push? ==> var d := Beginning(s, th).d; d.Has(i) && Full(d.outs[i])
    ensures s.Thread(th).Asking? ==> Answering(s, th, ok).d == s.d
    ensures s.Thread(th).Answered? ==> var d := Ending(s, th).d; d.Has(i) && Full(d.outs[i])
  {
    hide BeginCommit, Flip;
  }

  lemma EventsKeepFull(s: System, k: int, i: int)
    requires Stuck(s, i) && 0 <= k < |s.d.outs|
    ensures s.hw[k].flip >= 0 ==> var d := Flipping(s, k).d; d.Has(i) && Full(d.outs[i])
    ensures s.hw[k].stale > 0 ==> var d := StaleFlipping(s, k).d; d.Has(i) && Full(d.outs[i])
    ensures s.events.InPass? ==> var d := EndingPass(s).d; d.Has(i) && Full(d.outs[i])
  {
    hide BeginCommit, Flip;
  }

  lemma StepKeepsFull(s: System, step: Step, i: int)
    requires Inv(s) && Shaped(s) && Enabled(s, step, 1) && step != LoseStep(i) && s.d.Has(i) && Full(s.d.outs[i])
    ensures var d := Do(s, step, 1).d; d.Has(i) && Full(d.outs[i])
  {
    hide Full, Stuck, Inv, Acquire, Queue, Configure, Teardown, BeginCommit, FailCommit, Flip, AssignRoles, Fresh;
    FullIsStuck(s, i);
    match step
    case AcquireStep(screen) => RendererKeepsFull(s, screen, Target(0, 0, 0, 0), i);
    case PresentStep(t) => RendererKeepsFull(s, 0, t, i);
    case BeginStep(th) => CommitKeepsFull(s, th, true, i);
    case KernelStep(th, ok) => CommitKeepsFull(s, th, ok, i);
    case EndStep(th) => CommitKeepsFull(s, th, true, i);
    case FlipStep(k) => EventsKeepFull(s, k, i);
    case StaleFlipStep(k) => EventsKeepFull(s, k, i);
    case PassEndStep => EventsKeepFull(s, i, i);
    case AddStep(res, conn, a) => ConfigureOccupies(s.d, res, conn, a, 1);
    case LoseStep(k) => LosesOne(s.d, k, i);
    case _ =>
  }

  lemma LosesOne(d: Display, k: int, i: int)
    requires d.Has(k) && 0 <= i < |d.outs| && i != k
    ensures |Teardown(d, k).outs| == |d.outs| && Teardown(d, k).outs[i] == d.outs[i]
  {
  }

  /** With one buffer a display shows one frame: from the first confirmed flip on nothing more can be acquired, until the
      output is torn down. */
  lemma {:induction false} OneBufferStarves(run: seq<System>, steps: seq<Step>, k: nat, m: nat, i: int)
    requires IsRun(run, steps, 1) && k < m < |run| && steps[k] == FlipStep(i)
    requires forall j :: k < j < m ==> steps[j] != LoseStep(i)
    ensures run[m].d.Has(i) && Full(run[m].d.outs[i]) && Acquire(run[m].d, i).1.None?
  {
    hide Do, Local, Full, Acquire;
    RunKeepsInv(run, steps, 1, m);
    if m == k + 1 {
      RunKeepsInv(run, steps, 1, k);
      RingsHaveDepth(run, steps, 1, k);
      FlippedFull(run[k], i);
    } else {
      OneBufferStarves(run, steps, k, m - 1, i);
      RunKeepsInv(run, steps, 1, m - 1);
      StepKeepsFull(run[m - 1], steps[m - 1], i);
    }
    AgreeOf(run[m], i);
    FullHasNoFree(run[m].d, i);
  }

  lemma FlippedFull(s: System, i: int)
    requires Inv(s) && Shaped(s) && Enabled(s, FlipStep(i), 1) && (s.d.Has(i) ==> |s.d.outs[i].ring| == 1)
    ensures var d := Do(s, FlipStep(i), 1).d; d.Has(i) && Full(d.outs[i])
  {
    hide Local, Full, Flip, Owned, Settled;
    var o := s.d.outs[i];
    assert Local(o, s.hw[i], s.log[i], s.renderer.On(i), s.events.On(i));
    FlipFills(o, s.hw[i], s.log[i], s.renderer.On(i));
  }
}
