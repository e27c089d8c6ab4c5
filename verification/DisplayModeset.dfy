/** When an output counts as mode-set (display/display.cpp): exactly since an accepted commit of its slot has ended, which
    may be a commit of the configuration before. */
module DisplayModeset {
  import opened Prelude
  import opened DisplayModel
  import opened DisplaySystem
  import opened DisplaySafety
  import opened DisplayOwnership
  import opened DisplayRoles
  import opened DisplayTheorems

  ghost predicate Marked(s: System, i: nat) { i < |s.d.outs| && s.d.outs[i].modesetDone }

  /** A slot is cleared by a teardown and by a bring-up that fails for want of buffers. */
  ghost predicate Clears(s: System, step: Step, i: nat, n: nat) {
    || step == LoseStep(i)
    || (step.AddStep? && i == FreeSlot(s.d.outs) && Prepare(s.d, step.res, step.conn, step.answers.blob).1
        && !AllReady(step.answers.grants, n))
  }

  /** A thread leaves `try_commit` on the slot after its commit was accepted. */
  predicate Ends(s: System, step: Step, i: nat) {
    step.EndStep? && s.Thread(step.th).Answered? && s.Thread(step.th).ok && s.Thread(step.th).screen == i
  }

  // --- one step ---

  lemma AddMarks(s: System, step: Step, n: nat, i: nat)
    requires Shaped(s) && Enabled(s, step, n) && step.AddStep?
    ensures Marked(Do(s, step, n), i) == (!Clears(s, step, i, n) && Marked(s, i))
  {
    hide Configure, Prepare, Fresh, AllReady;
    ConfigureMarks(s.d, step.res, step.conn, step.answers, n, i);
  }

  lemma ConfigureMarks(d: Display, res: Resources, conn: Connector, a: Answers, n: nat, i: nat)
    ensures var outs := Configure(d, res, conn, a, n).0.outs;
            (i < |outs| && outs[i].modesetDone)
            == (!(i == FreeSlot(d.outs) && Prepare(d, res, conn, a.blob).1 && !AllReady(a.grants, n))
                && i < |d.outs| && d.outs[i].modesetDone)
  {
    hide FreeSlot, PickCrtc, FirstPlane, BusyCrtcs, BusyPlanes, AllReady, NewRing, Drawn;
  }

  lemma RendererMarks(s: System, screen: int, t: Target, i: nat)
    requires Shaped(s)
    ensures Marked(Acquiring(s, screen), i) == Marked(s, i) && Marked(Presenting(s, t), i) == Marked(s, i)
  {
  }

  lemma CommitMarks(s: System, th: Thread, ok: bool, i: nat)
    requires Shaped(s)
    ensures s.Thread(th).Push? ==> Marked(Beginning(s, th), i) == Marked(s, i)
    ensures s.Thread(th).Asking? ==> Marked(Answering(s, th, ok), i) == Marked(s, i)
    ensures s.Thread(th).Answered? && 0 <= s.Thread(th).screen < |s.d.outs| ==>
              Marked(Ending(s, th), i) == (Ends(s, EndStep(th), i) || Marked(s, i))
  {
  }

  lemma EventsMark(s: System, k: int, i: nat)
    requires Shaped(s) && 0 <= k < |s.d.outs|
    ensures Marked(Flipping(s, k), i) == Marked(s, i)
    ensures s.hw[k].stale > 0 ==> Marked(StaleFlipping(s, k), i) == Marked(s, i)
    ensures Marked(Losing(s, k), i) == (i != k && Marked(s, i))
  {
  }

  lemma RolesMark(s: System, i: nat)
    requires s.events.InPass?
    ensures Marked(EndingPass(s), i) == Marked(s, i)
  {
  }

  lemma StepMarks(s: System, step: Step, n: nat, i: nat)
    requires AllLocal(s) && Shaped(s) && Enabled(s, step, n)
    ensures Marked(Do(s, step, n), i) == (!Clears(s, step, i, n) && (Ends(s, step, i) || Marked(s, i)))
  {
    hide Local, Fresh, Acquire, Queue, Configure, Prepare, Teardown, BeginCommit, FailCommit, Flip, AssignRoles;
    match step
    case AcquireStep(screen) => RendererMarks(s, screen, Target(0, 0, 0, 0), i);
    case PresentStep(t) => RendererMarks(s, 0, t, i);
    case BeginStep(th) => CommitMarks(s, th, true, i);
    case KernelStep(th, ok) => CommitMarks(s, th, ok, i);
    case EndStep(th) => CommitMarks(s, th, true, i);
    case FlipStep(k) => EventsMark(s, k, i);
    case StaleFlipStep(k) => EventsMark(s, k, i);
    case LoseStep(k) => EventsMark(s, k, i);
    case AddStep(res, conn, a) => AddMarks(s, step, n, i);
    case PassEndStep => RolesMark(s, i);
    case _ =>
  }

  // --- runs ---

  /** The slot is not cleared from step `from` to before step `to`. */
  ghost predicate Uncleared(run: seq<System>, steps: seq<Step>, n: nat, from: nat, to: nat, i: nat)
    requires to <= |steps| <= |run|
  {
    forall q: nat :: from <= q < to ==> !Clears(run[q], steps[q], i, n)
  }

  /** An accepted commit of the slot has ended at step `m`, and the slot has not been cleared since. */
  ghost predicate EndedLast(run: seq<System>, steps: seq<Step>, n: nat, m: nat, k: nat, i: nat)
    requires k <= |steps| <= |run|
  {
    m < k && Ends(run[m], steps[m], i) && Uncleared(run, steps, n, m + 1, k, i)
  }

  /** In every run an output is marked as mode-set exactly if an accepted commit of its slot has ended since the slot was
      last cleared. */
  lemma {:induction false} MarkedSinceItsCommit(run: seq<System>, steps: seq<Step>, n: nat, k: nat, i: nat)
    requires IsRun(run, steps, n) && n >= 1 && k < |run|
    ensures Marked(run[k], i) <==> exists m: nat :: EndedLast(run, steps, n, m, k, i)
  {
    hide Marked, Clears, Ends, Do, Inv, AllLocal, Shaped, Allowed;
    if k == 0 {
      NothingMarked(i);
    } else {
      MarkedSinceItsCommit(run, steps, n, k - 1, i);
      RunKeepsInv(run, steps, n, k - 1);
      InvIsLocal(run[k - 1]);
      StepMarks(run[k - 1], steps[k - 1], n, i);
      if Clears(run[k - 1], steps[k - 1], i, n) {
        ClearsIsNoEnd(run[k - 1], steps[k - 1], i, n);
      } else if Ends(run[k - 1], steps[k - 1], i) {
        assert EndedLast(run, steps, n, k - 1, k, i);
      } else {
        var before: nat := k - 1;
        if m: nat :| EndedLast(run, steps, n, m, before, i) { assert EndedLast(run, steps, n, m, k, i); }
        if m: nat :| EndedLast(run, steps, n, m, k, i) { assert EndedLast(run, steps, n, m, before, i); }
      }
    }
  }

  lemma NothingMarked(i: nat)
    ensures !Marked(START, i)
  {
  }

  lemma InvIsLocal(s: System)
    requires Inv(s)
    ensures AllLocal(s)
  {
  }

  lemma ClearsIsNoEnd(s: System, step: Step, i: nat, n: nat)
    requires Clears(s, step, i, n)
    ensures !Ends(s, step, i)
  {
  }

  // --- which commit it was ---

  /** No frame of the present configuration has been taken by the hardware: none was shown and none is on its way. */
  ghost predicate Untried(s: System, i: nat) {
    i < |s.log| && i < |s.hw| && s.log[i].shown == [] && s.hw[i].flip < 0
  }

  /** The renderer's commit on the slot has been accepted and has not ended. */
  predicate Owing(s: System, i: nat) { s.renderer.Answered? && s.renderer.ok && s.renderer.screen == i }

  /** The slot was torn down at step `j` under an accepted commit of the renderer that has not ended before step `m`. */
  ghost predicate TornDown(run: seq<System>, steps: seq<Step>, j: nat, m: nat, i: nat)
    requires m <= |steps| < |run|
  {
    j < m && steps[j] == LoseStep(i) && Owing(run[j], i) && forall q: nat :: j < q <= m ==> run[q].renderer == run[j].renderer
  }

  /** The slot was torn down under an accepted commit; that commit has ended, and the slot has not been cleared since. */
  ghost predicate EndedAfterTeardown(run: seq<System>, steps: seq<Step>, n: nat, j: nat, m: nat, k: nat, i: nat)
    requires k <= |steps| < |run|
  {
    m < k && TornDown(run, steps, j, m, i) && steps[m] == EndStep(Renderer) && Uncleared(run, steps, n, m + 1, k, i)
  }

  /** While the event thread is inside a commit the output has shown a frame. */
  lemma EventsHaveShown(s: System, i: nat)
    requires AllLocal(s) && i < |s.d.outs| && s.events.Answered? && s.events.screen == i
    ensures !Untried(s, i)
  {
    assert Local(s.d.outs[i], s.hw[i], s.log[i], s.renderer.On(i), s.events.On(i));
  }

  /** Only a teardown makes an output untried again. */
  lemma UntriedBefore(s: System, step: Step, n: nat, i: nat)
    requires AllLocal(s) && Shaped(s) && Enabled(s, step, n) && step != LoseStep(i) && i < |s.d.outs|
    requires Untried(Do(s, step, n), i)
    ensures Untried(s, i)
  {
    hide Local, Fresh, Acquire, Queue, Configure, Prepare, Teardown, BeginCommit, FailCommit, Flip, AssignRoles;
    if step.AddStep? { AddUntried(s, step, n, i); }
    if step.KernelStep? { AcceptedIsFlip(s, step.th); }
  }

  lemma AcceptedIsFlip(s: System, th: Thread)
    requires AllLocal(s) && s.Thread(th).Asking?
    ensures 0 <= s.Thread(th).screen < |s.d.outs| && s.Thread(th).idx >= 0
  {
    var i := s.Thread(th).screen;
    assert Local(s.d.outs[i], s.hw[i], s.log[i], s.renderer.On(i), s.events.On(i));
  }

  lemma AddUntried(s: System, step: Step, n: nat, i: nat)
    requires AllLocal(s) && Shaped(s) && Enabled(s, step, n) && step.AddStep? && i < |s.d.outs|
    requires Untried(Do(s, step, n), i)
    ensures Untried(s, i)
  {
    hide AllLocal, Possible, Configure, FreeSlot, Opened, NoFrames;
    if i == FreeSlot(s.d.outs) { DeadHasNotShown(s, i); }
  }

  lemma DeadHasNotShown(s: System, i: nat)
    requires AllLocal(s) && i < |s.d.outs| && !s.d.outs[i].Live()
    ensures i < |s.log| && s.log[i].shown == []
  {
    assert Local(s.d.outs[i], s.hw[i], s.log[i], s.renderer.On(i), s.events.On(i));
  }

  /** An untried output with an accepted commit of the renderer has been torn down under it. */
  lemma {:induction false} OwingIsTornDown(run: seq<System>, steps: seq<Step>, n: nat, m: nat, i: nat) returns (j: nat)
    requires IsRun(run, steps, n) && n >= 1 && m < |run| && i < |run[m].d.outs| && Owing(run[m], i) && Untried(run[m], i)
    ensures TornDown(run, steps, j, m, i)
  {
    hide Owing, Untried, Do, Inv, AllLocal, Shaped, Allowed;
    if m == 0 {
      NothingOwed(i);
    } else {
      RunKeepsInv(run, steps, n, m - 1);
      InvIsLocal(run[m - 1]);
      j := m - 1;
      OwingBefore(run[j], steps[j], n, i);
      if steps[j] != LoseStep(i) {
        UntriedBefore(run[j], steps[j], n, i);
        j := OwingIsTornDown(run, steps, n, m - 1, i);
      }
    }
  }

  lemma NothingOwed(i: nat)
    ensures !Owing(START, i)
  {
  }

  /** The renderer's commit is accepted once, and then the output is not untried. */
  lemma OwingBefore(s: System, step: Step, n: nat, i: nat)
    requires AllLocal(s) && Shaped(s) && Enabled(s, step, n)
    requires Owing(Do(s, step, n), i) && Untried(Do(s, step, n), i) && i < |Do(s, step, n).d.outs|
    ensures Owing(s, i) && Do(s, step, n).renderer == s.renderer && i < |s.d.outs|
  {
    hide Local, Fresh, Acquire, Queue, Configure, Prepare, Teardown, BeginCommit, FailCommit, Flip, AssignRoles;
    if step.KernelStep? { AcceptedIsFlip(s, step.th); }
  }

  lemma OutsStay(s: System, step: Step, n: nat)
    requires Shaped(s) && Enabled(s, step, n)
    ensures |s.d.outs| <= |Do(s, step, n).d.outs|
  {
    hide Fresh, Acquire, Queue, Configure, BeginCommit, FailCommit, Flip;
    if step.AcquireStep? { AcquireStays(s.d, step.screen); }
    if step.PresentStep? { QueueStays(s.d, step.target); }
    if step.AddStep? { ConfigureOccupies(s.d, step.res, step.conn, step.answers, n); }
  }

  lemma AcquireStays(d: Display, screen: int)
    ensures |Acquire(d, screen).0.outs| == |d.outs|
  {
  }

  lemma QueueStays(d: Display, t: Target)
    ensures |Queue(d, t).0.outs| == |d.outs|
  {
  }

  /** An output that is untried at the end was so since the slot was last torn down. */
  lemma {:induction false} UntriedSince(run: seq<System>, steps: seq<Step>, n: nat, m: nat, k: nat, i: nat)
    requires IsRun(run, steps, n) && n >= 1 && m <= k < |run| && i < |run[m].d.outs|
    requires forall q: nat :: m <= q < k ==> steps[q] != LoseStep(i)
    ensures i < |run[k].d.outs| && (Untried(run[k], i) ==> Untried(run[m], i))
  {
    hide Untried, Do, Inv, AllLocal, Shaped, Allowed;
    if m < k {
      UntriedSince(run, steps, n, m, k - 1, i);
      RunKeepsInv(run, steps, n, k - 1);
      InvIsLocal(run[k - 1]);
      OutsStay(run[k - 1], steps[k - 1], n);
      if Untried(run[k], i) { UntriedBefore(run[k - 1], steps[k - 1], n, i); }
    }
  }

  /** Before the hardware has taken a frame of a configuration, its output is marked as mode-set exactly if the slot was
      torn down under an accepted commit of the renderer that has ended since, with no failed bring-up after that. */
  lemma SkippedExactly(run: seq<System>, steps: seq<Step>, n: nat, k: nat, i: nat)
    requires IsRun(run, steps, n) && n >= 1 && k < |run| && Untried(run[k], i)
    ensures Marked(run[k], i) <==> exists j: nat, m: nat :: EndedAfterTeardown(run, steps, n, j, m, k, i)
  {
    hide Marked, Untried, Do, Inv, AllLocal, Shaped, Allowed;
    MarkedSinceItsCommit(run, steps, n, k, i);
    if m: nat :| EndedLast(run, steps, n, m, k, i) {
      RunKeepsInv(run, steps, n, m);
      InvIsLocal(run[m]);
      InPosition(run[m], steps[m].th, i);
      UntriedSince(run, steps, n, m, k, i);
      if steps[m].th == Events { EventsHaveShown(run[m], i); }
      var j := OwingIsTornDown(run, steps, n, m, i);
      assert EndedAfterTeardown(run, steps, n, j, m, k, i);
    }
    if j: nat, m: nat :| EndedAfterTeardown(run, steps, n, j, m, k, i) {
      assert Ends(run[m], steps[m], i);
      assert EndedLast(run, steps, n, m, k, i);
    }
  }

  lemma InPosition(s: System, th: Thread, i: nat)
    requires AllLocal(s) && s.Thread(th).Answered? && s.Thread(th).screen == i
    ensures i < |s.d.outs|
  {
  }

  /** So it is when none of its frames has been accepted yet, and when a thread takes the first one to the kernel. */
  lemma UntriedAtFirst(s: System, i: nat)
    requires AllLocal(s) && i < |s.d.outs|
    ensures |s.log| == |s.hw| == |s.d.outs|
    ensures s.log[i].accepted == 0 ==> Untried(s, i)
    ensures s.log[i].shown == [] && BeginCommit(s.d.outs[i]).1.Some? ==> Untried(s, i)
  {
    assert Local(s.d.outs[i], s.hw[i], s.log[i], s.renderer.On(i), s.events.On(i));
  }

  /** The first commit of a configuration, and every one after refusals alone, asks for a modeset exactly unless the slot
      was torn down under an accepted commit that has ended since. */
  lemma FirstCommitAsksForModeset(run: seq<System>, steps: seq<Step>, n: nat, k: nat, th: Thread, i: nat)
    requires IsRun(run, steps, n) && n >= 1 && k < |steps| && steps[k] == BeginStep(th) && run[k].Thread(th) == Push(i)
    requires i < |run[k].d.outs| && BeginCommit(run[k].d.outs[i]).1.Some?
    requires |run[k].log| == |run[k].d.outs| && run[k].log[i].shown == []
    ensures !run[k].d.outs[i].modesetDone <==> !exists j: nat, m: nat :: EndedAfterTeardown(run, steps, n, j, m, k, i)
  {
    RunKeepsInv(run, steps, n, k);
    UntriedAtFirst(run[k], i);
    SkippedExactly(run, steps, n, k, i);
  }

  /** A configuration without frames is not marked either, unless the slot was torn down under an accepted commit. */
  lemma MarkedHasFrames(run: seq<System>, steps: seq<Step>, n: nat, k: nat, i: nat)
    requires IsRun(run, steps, n) && n >= 1 && k < |run| && i < |run[k].d.outs| && run[k].d.outs[i].modesetDone
    requires forall j: nat :: j < k && steps[j] == LoseStep(i) ==> !Owing(run[j], i)
    ensures i < |run[k].log| && run[k].log[i].accepted > 0
  {
    RunKeepsInv(run, steps, n, k);
    UntriedAtFirst(run[k], i);
    if run[k].log[i].accepted == 0 { SkippedExactly(run, steps, n, k, i); }
  }
}
