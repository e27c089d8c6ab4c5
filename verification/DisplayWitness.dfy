/** Runs that show what goes wrong: with the count of presented frames, with the modeset of a new configuration, and
    without each of the two assumptions about the environment. All of them have rings of two buffers. */
module DisplayWitness {
  import opened Prelude
  import opened DisplayModel
  import opened DisplaySystem
  import opened DisplayTheorems

  const ONE_CRTC := Resources([41], [Some(Plane(51, {0}, true))])
  const HDMI := Connector(31, HDMIA, [Some({0})])

  /** The kernel grants a ring of two buffers. */
  function Two(fd: int): Answers { Answers(true, [Ready(fd, 1), Ready(fd + 1, 2)]) }

  /** One output with generation `g`, whose first buffer is in the given slot, as the steps below leave it. */
  function Screen(g: nat, fd: int, slot: Slot, done: bool, st: Stats, primary: bool): Output {
    Output(g, 31, HDMIA, 41, 51, [RingBuf(fd, 1, slot), RingBuf(fd + 1, 2, Free)], if slot == Pending then 0 else -1,
           if slot == InFlight then 0 else -1, if slot == Current then 0 else -1, done, st, primary)
  }

  /** What a teardown leaves of it. */
  function Shut(done: bool, st: Stats): Output { NO_OUTPUT.(ctype := HDMIA, modesetDone := done, st := st) }

  /** The statistics a slot already has. */
  function StatsOf(outs: seq<Output>): Stats { if outs == [] then Stats(0, 0) else outs[0].st }

  lemma ConfigureScreen(d: Display, fd: int)
    requires d.outs == [] || d.outs == [Shut(d.outs[0].modesetDone, d.outs[0].st)]
    ensures var done, st := d.outs != [] && d.outs[0].modesetDone, StatsOf(d.outs);
            Configure(d, ONE_CRTC, HDMI, Two(fd), 2)
            == (d.(outs := [Screen(d.generations + 1, fd, Free, done, st, false)], generations := d.generations + 1,
                   liveBufs := d.liveBufs + 2), true)
  {
    ChosenScreen(d);
    var (d1, chosen) := Prepare(d, ONE_CRTC, HDMI, true);
    assert NewRing(Two(fd).grants, 2) == [RingBuf(fd, 1, Free), RingBuf(fd + 1, 2, Free)];
    var o := d1.outs[0].(ring := NewRing(Two(fd).grants, 2), generation := d.generations + 1);
    assert d1.outs[0 := o] == [o];
  }

  lemma ChosenScreen(d: Display)
    requires d.outs == [] || d.outs == [Shut(d.outs[0].modesetDone, d.outs[0].st)]
    ensures var done, st := d.outs != [] && d.outs[0].modesetDone, StatsOf(d.outs);
            FreeSlot(d.outs) == 0 && Prepare(d, ONE_CRTC, HDMI, true)
            == (d.(outs := [Screen(0, 0, Free, done, st, false).(ring := [])]), true)
  {
    assert BusyCrtcs(d.outs) == {} && BusyPlanes(d.outs) == {};
    assert FirstCrtc(ONE_CRTC, {0}, {}, 0) == 0;
    assert PickCrtc(ONE_CRTC, HDMI.encoders, {}) == Some(0);
    assert FirstPlane(ONE_CRTC.planes, 0, {}) == 0;
    var outs := Opened(d).outs;
    assert |outs| == 1;
    var o := outs[0].(connector := 31, ctype := HDMIA, crtc := 41, plane := 51);
    assert outs[0 := o] == [o];
  }

  // --- runs ---

  ghost predicate Reached(s: System, env: Assumptions) {
    Shaped(s) && exists run, steps :: Follows(run, steps, 2, env) && Last(run, s)
  }

  predicate Last(run: seq<System>, s: System) { run != [] && run[|run| - 1] == s }

  lemma Begins(env: Assumptions)
    ensures Reached(START, env)
  {
    assert Follows([START], [], 2, env) && Last([START], START);
  }

  ghost predicate Goes(s: System, step: Step, s': System, env: Assumptions) {
    Shaped(s) && Shaped(s') && Allowed(s, step, 2, env) && Do(s, step, 2) == s'
  }

  /** One step more. */
  lemma Then(s: System, step: Step, s': System, env: Assumptions)
    requires Reached(s, env) && Goes(s, step, s', env)
    ensures Reached(s', env)
  {
    hide Allowed, Do, Follows, Shaped;
    var run, steps :| Follows(run, steps, 2, env) && Last(run, s);
    FollowsLength(run, steps, env);
    RunExtends(run, steps, 2, step, env);
    assert Last(run + [s'], s');
  }

  lemma FollowsLength(run: seq<System>, steps: seq<Step>, env: Assumptions)
    requires Follows(run, steps, 2, env)
    ensures |run| == |steps| + 1
  {
  }

  // --- a monitor appears ---

  const FRESH := History(0, 0, [], 0, [0, 0])
  const NONE_YET := Stats(0, 0)

  /** The system with the output of generation `g` as it is configured, in a pass that has changed something. */
  function Risen(g: nat, fd: int, done: bool, st: Stats, hw: Hardware, h: History, primary: int): System {
    System(Display([Screen(g, fd, Free, done, st, false)], [], 2, g, primary), [hw], [h], {}, Idle, InPass(true))
  }

  /** The system with the output after the pass. */
  function Showing(o: Output, hw: Hardware, h: History, held: set<Target>, r: Pc, e: Pc): System {
    System(Display([o], [], 2, o.generation, 0), [hw], [h], held, r, e)
  }

  /** The system with an empty slot after `g` configurations; `primary` is the one of the last pass. */
  function Dark(done: bool, st: Stats, g: nat, primary: int, hw: Hardware, h: History, r: Pc, e: Pc): System {
    System(Display([Shut(done, st)], [], 0, g, primary), [hw], [h], {}, r, e)
  }

  lemma NothingOpen(d: Display, fd: int)
    requires d.retired == [] && forall i :: 0 <= i < |d.outs| ==> d.outs[i].ring == []
    ensures Fresh(d, Two(fd).grants, 2)
  {
  }

  lemma FirstAdded(env: Assumptions)
    ensures Goes(START.(events := InPass(false)), AddStep(ONE_CRTC, HDMI, Two(7)),
                 Risen(1, 7, false, NONE_YET, DARK, FRESH, -1), env)
  {
    hide Configure, Fresh;
    NothingOpen(START.d, 7);
    ConfigureScreen(START.d, 7);
    assert NoFrames(2) == [0, 0];
  }

  lemma AddedAgain(done: bool, st: Stats, g: nat, fd: int, primary: int, hw: Hardware, h: History, changed: bool,
                   env: Assumptions)
    requires env.noLateReports ==> hw.stale == 0
    ensures Goes(Dark(done, st, g, primary, hw, h, Idle, InPass(changed)), AddStep(ONE_CRTC, HDMI, Two(fd)),
                 Risen(g + 1, fd, done, st, hw, h.(tag := [0, 0]), primary), env)
  {
    hide Configure, Fresh;
    var s := Dark(done, st, g, primary, hw, h, Idle, InPass(changed));
    NothingOpen(s.d, fd);
    ConfigureScreen(s.d, fd);
    assert NoFrames(2) == [0, 0];
    assert Connectors(s.d.outs) == {} && FreeSlot(s.d.outs) == 0;
    assert s.log[0 := h.(tag := [0, 0])] == [h.(tag := [0, 0])];
  }

  lemma PassBegins(s: System, env: Assumptions)
    requires s.events.Idle? && Shaped(s)
    ensures Goes(s, PassStep, s.(events := InPass(false)), env)
  {
  }

  lemma PassEnds(g: nat, fd: int, done: bool, st: Stats, hw: Hardware, h: History, primary: int, env: Assumptions)
    requires g > 0
    ensures Goes(Risen(g, fd, done, st, hw, h, primary), PassEndStep,
                 Showing(Screen(g, fd, Free, done, st, true), hw, h, {}, Idle, Idle), env)
  {
    var d := Risen(g, fd, done, st, hw, h, primary).d;
    assert Best(d.outs, 1) == 0;
    assert AssignRoles(d).outs == [Screen(g, fd, Free, done, st, true)];
  }

  lemma DarkPassEnds(done: bool, st: Stats, g: nat, primary: int, hw: Hardware, h: History, env: Assumptions)
    ensures Goes(Dark(done, st, g, primary, hw, h, Idle, InPass(true)), PassEndStep,
                 Dark(done, st, g, -1, hw, h, Idle, Idle), env)
  {
    var d := Dark(done, st, g, primary, hw, h, Idle, InPass(true)).d;
    assert Best(d.outs, 1) == -1;
    assert AssignRoles(d).outs == [Shut(done, st)];
  }

  // --- a frame on its way to the screen ---

  lemma FrameAcquired(g: nat, fd: int, done: bool, st: Stats, hw: Hardware, h: History, env: Assumptions)
    requires g > 0
    ensures Goes(Showing(Screen(g, fd, Free, done, st, true), hw, h, {}, Idle, Idle), AcquireStep(0),
                 Showing(Screen(g, fd, Drawing, done, st, true), hw, h, {Target(0, 0, g, fd)}, Idle, Idle), env)
  {
    var o, o' := Screen(g, fd, Free, done, st, true), Screen(g, fd, Drawing, done, st, true);
    assert FirstFree(o.ring) == 0 && o.Mark(0, Drawing).ring == o'.ring && [o][0 := o'] == [o'];
  }

  lemma FramePresented(g: nat, fd: int, done: bool, st: Stats, hw: Hardware, h: History, env: Assumptions)
    requires g > 0 && h.accepted == 0 && h.tag == [0, 0]
    ensures Goes(Showing(Screen(g, fd, Drawing, done, st, true), hw, h, {Target(0, 0, g, fd)}, Idle, Idle),
                 PresentStep(Target(0, 0, g, fd)),
                 Showing(Screen(g, fd, Pending, done, st, true), hw, h.(accepted := 1), {}, Push(0), Idle), env)
  {
    var o, o' := Screen(g, fd, Drawing, done, st, true), Screen(g, fd, Pending, done, st, true);
    assert o.Mark(0, Pending).ring == o'.ring && [o][0 := o'] == [o'];
    assert h.tag[0 := 0] == h.tag && [h][0 := Accept(h, 0)] == [h.(accepted := 1)];
  }

  lemma FrameTaken(g: nat, fd: int, done: bool, st: Stats, hw: Hardware, h: History, env: Assumptions)
    ensures Goes(Showing(Screen(g, fd, Pending, done, st, true), hw, h, {}, Push(0), Idle), BeginStep(Renderer),
                 Showing(Screen(g, fd, InFlight, done, st, true), hw, h, {}, Asking(0, 0), Idle), env)
  {
    var o, o' := Screen(g, fd, Pending, done, st, true), Screen(g, fd, InFlight, done, st, true);
    assert o.Mark(0, InFlight).ring == o'.ring && [o][0 := o'] == [o'];
  }

  lemma KernelAccepts(s: System, hw: Hardware, env: Assumptions)
    requires Shaped(s) && s.renderer == Asking(0, 0) && s.hw == [hw]
    ensures Goes(s, KernelStep(Renderer, true), s.(hw := [hw.(flip := 0, latched := false)], renderer := Answered(0, 0, true)),
                 env)
  {
  }

  lemma CommitDone(s: System, o: Output, env: Assumptions)
    requires Shaped(s) && s.renderer == Answered(0, 0, true) && s.d.outs == [o]
    ensures Goes(s, EndStep(Renderer), s.(d := s.d.(outs := [o.(modesetDone := true)]), renderer := Idle), env)
  {
    assert s.d.outs[0] == o && o.InRange();
    assert [o][0 := DoneCommit(o)] == [o.(modesetDone := true)];
  }

  lemma Blanks(s: System, hw: Hardware, env: Assumptions)
    requires Shaped(s) && s.hw == [hw] && hw.flip == 0 && !hw.latched
    ensures Goes(s, VBlankStep(0), s.(hw := [hw.(scan := 0, latched := true)]), env)
  {
  }

  lemma ScreenIsLost(g: nat, fd: int, done: bool, st: Stats, hw: Hardware, h: History, r: Pc, env: Assumptions)
    requires g > 0 && (env.teardownWaits ==> !r.On(0).Asking?)
    ensures Goes(Showing(Screen(g, fd, InFlight, done, st, true), hw, h, {}, r, InPass(false)), LoseStep(0),
                 Dark(false, NONE_YET, g, 0, Darken(hw), NEW_HISTORY, r, InPass(true)), env)
  {
    var o := Screen(g, fd, InFlight, done, st, true);
    assert Drawn(o.ring) == [] && [o][0 := Shut(false, NONE_YET)] == [Shut(false, NONE_YET)];
  }

  // --- the runs ---

  lemma MonitorAppears(env: Assumptions)
    ensures Reached(Showing(Screen(1, 7, Free, false, NONE_YET, true), DARK, FRESH, {}, Idle, Idle), env)
  {
    hide Goes, Reached, Risen, Showing;
    Begins(env);
    PassBegins(START, env);
    Then(START, PassStep, START.(events := InPass(false)), env);
    FirstAdded(env);
    var up := Risen(1, 7, false, NONE_YET, DARK, FRESH, -1);
    Then(START.(events := InPass(false)), AddStep(ONE_CRTC, HDMI, Two(7)), up, env);
    PassEnds(1, 7, false, NONE_YET, DARK, FRESH, -1, env);
    Then(up, PassEndStep, Showing(Screen(1, 7, Free, false, NONE_YET, true), DARK, FRESH, {}, Idle, Idle), env);
  }

  /** The first frame of a configuration is handed to the kernel. */
  lemma FrameIsAsked(g: nat, fd: int, done: bool, st: Stats, hw: Hardware, h: History, env: Assumptions)
    requires g > 0 && h.accepted == 0 && h.tag == [0, 0]
    requires Reached(Showing(Screen(g, fd, Free, done, st, true), hw, h, {}, Idle, Idle), env)
    ensures Reached(Showing(Screen(g, fd, InFlight, done, st, true), hw, h.(accepted := 1), {}, Asking(0, 0), Idle), env)
  {
    hide Goes, Reached, Showing, Screen;
    var t := Target(0, 0, g, fd);
    var s0 := Showing(Screen(g, fd, Free, done, st, true), hw, h, {}, Idle, Idle);
    var s1 := Showing(Screen(g, fd, Drawing, done, st, true), hw, h, {t}, Idle, Idle);
    var s2 := Showing(Screen(g, fd, Pending, done, st, true), hw, h.(accepted := 1), {}, Push(0), Idle);
    var s3 := Showing(Screen(g, fd, InFlight, done, st, true), hw, h.(accepted := 1), {}, Asking(0, 0), Idle);
    FrameAcquired(g, fd, done, st, hw, h, env);
    Then(s0, AcquireStep(0), s1, env);
    FramePresented(g, fd, done, st, hw, h, env);
    Then(s1, PresentStep(t), s2, env);
    FrameTaken(g, fd, done, st, hw, h.(accepted := 1), env);
    Then(s2, BeginStep(Renderer), s3, env);
  }

  const FLYING := Screen(1, 7, InFlight, false, NONE_YET, true)
  const OUT_NOW := Hardware(-1, 0, false, 0)
  const ONE_LATE := Hardware(-1, -1, false, 1)
  const ONE_FRAME := History(1, 0, [], 0, [0, 0])
  const ANSWERED := Showing(FLYING, OUT_NOW, ONE_FRAME, {}, Answered(0, 0, true), Idle)

  lemma FirstFrameLeaves(env: Assumptions)
    ensures Reached(Showing(FLYING, DARK, ONE_FRAME, {}, Asking(0, 0), Idle), env) && Reached(ANSWERED, env)
  {
    MonitorAppears(env);
    FrameIsAsked(1, 7, false, NONE_YET, DARK, FRESH, env);
    var s := Showing(FLYING, DARK, ONE_FRAME, {}, Asking(0, 0), Idle);
    KernelAccepts(s, DARK, env);
    Then(s, KernelStep(Renderer, true), ANSWERED, env);
  }

  /** The monitor is lost while the flip is outstanding: `r` tells how far the renderer has come. */
  lemma MonitorIsLost(done: bool, r: Pc, env: Assumptions)
    requires (r == Answered(0, 0, true) && !done) || (r == Idle && done)
    ensures Reached(Dark(false, NONE_YET, 1, 0, ONE_LATE, NEW_HISTORY, r, InPass(true)), env)
  {
    FirstFrameLeaves(env);
    hide Goes, Reached, Shaped;
    var s := Showing(Screen(1, 7, InFlight, done, NONE_YET, true), OUT_NOW, ONE_FRAME, {}, r, Idle);
    AreShaped(s);
    AreShaped(ANSWERED);
    if done {
      CommitDone(ANSWERED, FLYING, env);
      Then(ANSWERED, EndStep(Renderer), s, env);
    }
    PassBegins(s, env);
    Then(s, PassStep, s.(events := InPass(false)), env);
    ScreenIsLost(1, 7, done, NONE_YET, OUT_NOW, ONE_FRAME, r, env);
    Then(s.(events := InPass(false)), LoseStep(0), Dark(false, NONE_YET, 1, 0, ONE_LATE, NEW_HISTORY, r, InPass(true)), env);
  }

  lemma AreShaped(s: System)
    requires |s.d.outs| == |s.hw| == |s.log| == 1 && s.d.outs[0].InRange()
    ensures Shaped(s)
  {
  }

  lemma MonitorVanishes(env: Assumptions)
    ensures Reached(Dark(false, NONE_YET, 1, -1, ONE_LATE, NEW_HISTORY, Idle, Idle), env)
  {
    hide Goes, Reached, Dark;
    MonitorIsLost(true, Idle, env);
    DarkPassEnds(false, NONE_YET, 1, 0, ONE_LATE, NEW_HISTORY, env);
    Then(Dark(false, NONE_YET, 1, 0, ONE_LATE, NEW_HISTORY, Idle, InPass(true)), PassEndStep,
         Dark(false, NONE_YET, 1, -1, ONE_LATE, NEW_HISTORY, Idle, Idle), env);
  }

  /** A monitor appears again at the empty slot. */
  lemma AppearsAgain(st: Stats, hw: Hardware, h: History, env: Assumptions)
    requires Reached(Dark(false, st, 1, -1, hw, h, Idle, Idle), env) && (env.noLateReports ==> hw.stale == 0)
    ensures Reached(Showing(Screen(2, 9, Free, false, st, true), hw, h.(tag := [0, 0]), {}, Idle, Idle), env)
  {
    var s0 := Dark(false, st, 1, -1, hw, h, Idle, Idle);
    var s1 := Dark(false, st, 1, -1, hw, h, Idle, InPass(false));
    var s2 := Risen(2, 9, false, st, hw, h.(tag := [0, 0]), -1);
    AreShaped(s0);
    hide Goes, Reached, Showing, Risen;
    PassBegins(s0, env);
    Then(s0, PassStep, s1, env);
    AddedAgain(false, st, 1, 9, -1, hw, h, false, env);
    Then(s1, AddStep(ONE_CRTC, HDMI, Two(9)), s2, env);
    PassEnds(2, 9, false, st, hw, h.(tag := [0, 0]), -1, env);
    Then(s2, PassEndStep, Showing(Screen(2, 9, Free, false, st, true), hw, h.(tag := [0, 0]), {}, Idle, Idle), env);
  }

  /** The report of a flip of the first configuration arrives at the empty slot. */
  lemma ReportAtDark(env: Assumptions)
    ensures Goes(Dark(false, NONE_YET, 1, -1, ONE_LATE, NEW_HISTORY, Idle, Idle), StaleFlipStep(0),
                 Dark(false, Stats(1, 0), 1, -1, DARK, NEW_HISTORY.(staleReports := 1), Idle, Push(0)), env)
    ensures Goes(Dark(false, Stats(1, 0), 1, -1, DARK, NEW_HISTORY.(staleReports := 1), Idle, Push(0)), BeginStep(Events),
                 Dark(false, Stats(1, 0), 1, -1, DARK, NEW_HISTORY.(staleReports := 1), Idle, Idle), env)
  {
  }

  /** A report that reaches a slot after its teardown is counted as presented in the next configuration,
      although nothing has been accepted or shown there: only the teardown clears the statistics. */
  lemma LateReportIsCounted() returns (s: System)
    ensures Reached(s, BOTH) && |s.d.outs| == 1 == |s.log| && s.d.Has(0)
    ensures s.d.outs[0].st.presented == 1 && s.log[0].shown == [] && s.log[0].accepted == 0
  {
    var h := NEW_HISTORY.(staleReports := 1);
    MonitorVanishes(BOTH);
    ReportAtDark(BOTH);
    Then(Dark(false, NONE_YET, 1, -1, ONE_LATE, NEW_HISTORY, Idle, Idle), StaleFlipStep(0),
         Dark(false, Stats(1, 0), 1, -1, DARK, h, Idle, Push(0)), BOTH);
    Then(Dark(false, Stats(1, 0), 1, -1, DARK, h, Idle, Push(0)), BeginStep(Events),
         Dark(false, Stats(1, 0), 1, -1, DARK, h, Idle, Idle), BOTH);
    AppearsAgain(Stats(1, 0), DARK, h, BOTH);
    s := Showing(Screen(2, 9, Free, false, Stats(1, 0), true), DARK, h.(tag := [0, 0]), {}, Idle, Idle);
  }

  /** The thread that waits for the kernel marks the mode as set after the slot has been torn down, so the first commit of
      the next configuration is made without a modeset: nothing else clears the mark. */
  lemma ModesetIsSkipped() returns (s: System)
    ensures Reached(s, BOTH) && |s.d.outs| == 1 == |s.log| && s.d.Has(0)
    ensures s.d.outs[0].modesetDone && s.log[0].accepted == 0
  {
    var r := Answered(0, 0, true);
    var s0 := Dark(false, NONE_YET, 1, 0, ONE_LATE, NEW_HISTORY, r, InPass(true));
    var s1 := Dark(true, NONE_YET, 1, 0, ONE_LATE, NEW_HISTORY, Idle, InPass(true));
    var s2 := Dark(true, NONE_YET, 1, 0, DARK, NEW_HISTORY, Idle, InPass(true));
    MonitorIsLost(false, r, BOTH);
    MarkedWhileDark(BOTH);
    hide Goes, Reached;
    Then(s0, EndStep(Renderer), s1, BOTH);
    Then(s1, LostReportStep(0), s2, BOTH);
    AddedAgain(true, NONE_YET, 1, 9, 0, DARK, NEW_HISTORY, true, BOTH);
    s := Risen(2, 9, true, NONE_YET, DARK, FRESH, 0);
    Then(s2, AddStep(ONE_CRTC, HDMI, Two(9)), s, BOTH);
  }

  lemma MarkedWhileDark(env: Assumptions)
    ensures Goes(Dark(false, NONE_YET, 1, 0, ONE_LATE, NEW_HISTORY, Answered(0, 0, true), InPass(true)), EndStep(Renderer),
                 Dark(true, NONE_YET, 1, 0, ONE_LATE, NEW_HISTORY, Idle, InPass(true)), env)
    ensures Goes(Dark(true, NONE_YET, 1, 0, ONE_LATE, NEW_HISTORY, Idle, InPass(true)), LostReportStep(0),
                 Dark(true, NONE_YET, 1, 0, DARK, NEW_HISTORY, Idle, InPass(true)), env)
  {
  }

  // --- why the assumptions are there ---

  const ANY_REPORTS := Assumptions(true, false)
  const ANY_TEARDOWNS := Assumptions(false, true)

  /** Without the assumption on late reports: the report of the first configuration is taken for one of the second, the
      second's own report then frees the buffer on the screen, and it is handed out. */
  lemma LateReportBreaksIt() returns (s: System, t: Target)
    ensures Reached(s, ANY_REPORTS) && |s.hw| == 1 && s.d.Has(0)
    ensures Acquire(s.d, 0).1 == Some(t) && t.index == s.hw[0].scan
  {
    var env := ANY_REPORTS;
    MonitorVanishes(env);
    AppearsAgain(NONE_YET, ONE_LATE, NEW_HISTORY, env);
    FrameIsAsked(2, 9, false, NONE_YET, ONE_LATE, FRESH, env);
    SecondFrameShown(env);
    LateReports(env);
    t := Target(0, 0, 2, 9);
    s := Showing(Screen(2, 9, Free, true, Stats(2, 0), true), Hardware(0, -1, false, 0), TWICE, {}, Idle, Push(0));
  }

  const TWICE := History(1, 0, [0], 1, [0, 0])

  /** The frame of the second configuration reaches the screen. */
  lemma SecondFrameShown(env: Assumptions)
    requires Reached(Showing(Screen(2, 9, InFlight, false, NONE_YET, true), ONE_LATE, ONE_FRAME, {}, Asking(0, 0), Idle), env)
    ensures Reached(Showing(Screen(2, 9, InFlight, true, NONE_YET, true), Hardware(0, 0, true, 1), ONE_FRAME, {}, Idle, Idle),
                    env)
  {
    var o, o' := Screen(2, 9, InFlight, false, NONE_YET, true), Screen(2, 9, InFlight, true, NONE_YET, true);
    var s0 := Showing(o, ONE_LATE, ONE_FRAME, {}, Asking(0, 0), Idle);
    var s1 := Showing(o, Hardware(-1, 0, false, 1), ONE_FRAME, {}, Answered(0, 0, true), Idle);
    var s2 := Showing(o', Hardware(-1, 0, false, 1), ONE_FRAME, {}, Idle, Idle);
    var s3 := Showing(o', Hardware(0, 0, true, 1), ONE_FRAME, {}, Idle, Idle);
    AreShaped(s0);
    AreShaped(s1);
    AreShaped(s2);
    hide Goes, Reached, Shaped;
    KernelAccepts(s0, ONE_LATE, env);
    Then(s0, KernelStep(Renderer, true), s1, env);
    CommitDone(s1, o, env);
    Then(s1, EndStep(Renderer), s2, env);
    Blanks(s2, Hardware(-1, 0, false, 1), env);
    Then(s2, VBlankStep(0), s3, env);
  }

  /** Both reports arrive, the late one first. */
  lemma LateReports(env: Assumptions)
    requires Reached(Showing(Screen(2, 9, InFlight, true, NONE_YET, true), Hardware(0, 0, true, 1), ONE_FRAME, {}, Idle, Idle),
                     env)
    ensures Reached(Showing(Screen(2, 9, Free, true, Stats(2, 0), true), Hardware(0, -1, false, 0), TWICE, {}, Idle, Push(0)), env)
  {
    var h := ONE_FRAME.(staleReports := 1);
    var o := Screen(2, 9, Current, true, Stats(1, 0), true);
    var s0 := Showing(Screen(2, 9, InFlight, true, NONE_YET, true), Hardware(0, 0, true, 1), ONE_FRAME, {}, Idle, Idle);
    var s1 := Showing(o, Hardware(0, 0, true, 0), h, {}, Idle, Push(0));
    var s2 := Showing(o, Hardware(0, 0, true, 0), h, {}, Idle, Idle);
    var s3 := Showing(Screen(2, 9, Free, true, Stats(2, 0), true), Hardware(0, -1, false, 0), TWICE, {}, Idle, Push(0));
    LateFlip(env);
    OwnFlip(env);
    hide Goes, Reached;
    Then(s0, StaleFlipStep(0), s1, env);
    Then(s1, BeginStep(Events), s2, env);
    Then(s2, FlipStep(0), s3, env);
  }

  lemma LateFlip(env: Assumptions)
    ensures var h := ONE_FRAME.(staleReports := 1);
            var o := Screen(2, 9, Current, true, Stats(1, 0), true);
            && Goes(Showing(Screen(2, 9, InFlight, true, NONE_YET, true), Hardware(0, 0, true, 1), ONE_FRAME, {}, Idle, Idle),
                    StaleFlipStep(0), Showing(o, Hardware(0, 0, true, 0), h, {}, Idle, Push(0)), env)
            && Goes(Showing(o, Hardware(0, 0, true, 0), h, {}, Idle, Push(0)), BeginStep(Events),
                    Showing(o, Hardware(0, 0, true, 0), h, {}, Idle, Idle), env)
  {
    hide Flip, Screen;
    FlipsOnce();
    ScreensInRange();
  }

  lemma OwnFlip(env: Assumptions)
    ensures Goes(Showing(Screen(2, 9, Current, true, Stats(1, 0), true), Hardware(0, 0, true, 0),
                         ONE_FRAME.(staleReports := 1), {}, Idle, Idle),
                 FlipStep(0),
                 Showing(Screen(2, 9, Free, true, Stats(2, 0), true), Hardware(0, -1, false, 0), TWICE, {}, Idle, Push(0)), env)
  {
    hide Flip, Screen;
    FlipsOnce();
    ScreensInRange();
    assert [] + [0] == [0];
  }

  lemma ScreensInRange()
    ensures forall slot, st :: var o := Screen(2, 9, slot, true, st, true);
                               o.InRange() && o.generation == 2 && o.idxPending == if slot == Pending then 0 else -1
  {
  }

  lemma FlipsOnce()
    ensures Flip(Screen(2, 9, InFlight, true, NONE_YET, true)) == Screen(2, 9, Current, true, Stats(1, 0), true)
    ensures Flip(Screen(2, 9, Current, true, Stats(1, 0), true)) == Screen(2, 9, Free, true, Stats(2, 0), true)
  {
    assert Screen(2, 9, InFlight, true, NONE_YET, true).Mark(0, Current).ring
           == Screen(2, 9, Current, true, Stats(1, 0), true).ring;
    assert Screen(2, 9, Current, true, Stats(1, 0), true).Mark(0, Free).ring
           == Screen(2, 9, Free, true, Stats(2, 0), true).ring;
  }

  /** Without the assumption on teardowns: a commit that the kernel accepts after the teardown leaves a flip that the next
      configuration knows nothing of, and the buffer it brings to the screen is handed out. */
  lemma TeardownInsideCommitBreaksIt() returns (s: System, t: Target)
    ensures Reached(s, ANY_TEARDOWNS) && |s.hw| == 1 && s.d.Has(0)
    ensures Acquire(s.d, 0).1 == Some(t) && t.index == s.hw[0].scan
  {
    var env := ANY_TEARDOWNS;
    FirstFrameLeaves(env);
    TornDown(env);
    AcceptedTooLate(env);
    t := Target(0, 0, 2, 9);
    s := Risen(2, 9, true, NONE_YET, Hardware(0, 0, true, 0), FRESH, 0);
  }

  lemma TornDown(env: Assumptions)
    requires Reached(Showing(FLYING, DARK, ONE_FRAME, {}, Asking(0, 0), Idle), env) && !env.teardownWaits
    ensures Reached(Dark(false, NONE_YET, 1, 0, DARK, NEW_HISTORY, Asking(0, 0), InPass(true)), env)
  {
    var s0 := Showing(FLYING, DARK, ONE_FRAME, {}, Asking(0, 0), Idle);
    var s1 := s0.(events := InPass(false));
    AreShaped(s0);
    hide Goes, Reached, Shaped;
    PassBegins(s0, env);
    Then(s0, PassStep, s1, env);
    ScreenIsLost(1, 7, false, NONE_YET, DARK, ONE_FRAME, Asking(0, 0), env);
    Then(s1, LoseStep(0), Dark(false, NONE_YET, 1, 0, DARK, NEW_HISTORY, Asking(0, 0), InPass(true)), env);
  }

  lemma AcceptedTooLate(env: Assumptions)
    requires Reached(Dark(false, NONE_YET, 1, 0, DARK, NEW_HISTORY, Asking(0, 0), InPass(true)), env)
    ensures Reached(Risen(2, 9, true, NONE_YET, Hardware(0, 0, true, 0), FRESH, 0), env)
  {
    var s0 := Dark(false, NONE_YET, 1, 0, DARK, NEW_HISTORY, Asking(0, 0), InPass(true));
    var s1 := Dark(false, NONE_YET, 1, 0, OUT_NOW, NEW_HISTORY, Answered(0, 0, true), InPass(true));
    var s2 := Dark(true, NONE_YET, 1, 0, OUT_NOW, NEW_HISTORY, Idle, InPass(true));
    var s3 := Risen(2, 9, true, NONE_YET, OUT_NOW, FRESH, 0);
    AreShaped(s0);
    AreShaped(s1);
    AreShaped(s3);
    hide Goes, Reached, Shaped;
    KernelAccepts(s0, DARK, env);
    Then(s0, KernelStep(Renderer, true), s1, env);
    CommitDone(s1, Shut(false, NONE_YET), env);
    Then(s1, EndStep(Renderer), s2, env);
    AddedAgain(true, NONE_YET, 1, 9, 0, OUT_NOW, NEW_HISTORY, true, env);
    Then(s2, AddStep(ONE_CRTC, HDMI, Two(9)), s3, env);
    Blanks(s3, OUT_NOW, env);
    Then(s3, VBlankStep(0), Risen(2, 9, true, NONE_YET, Hardware(0, 0, true, 0), FRESH, 0), env);
  }
}
