/** The renderer thread, the event thread and the display hardware around the display engine.
    One step is one critical section, one answer of the kernel, or one move of the hardware. */
module DisplaySystem {
  import opened Prelude
  import opened DisplayModel

  /** Where a thread is inside `try_commit`, or inside a hot-plug pass. */
  datatype Pc =
    | Idle
    | Push(screen: int)                         // about to enter the first critical section
    | Asking(screen: int, idx: int)             // outside the lock, the kernel has not answered
    | Answered(screen: int, idx: int, ok: bool) // outside the lock, the kernel has answered
    | InPass(changed: bool)                     // event thread only: inside handle_hotplug
  {
    /** The thread is inside `try_commit`. */
    predicate Inside() { Push? || Asking? || Answered? }

    /** The thread still owes the engine the outcome of a commit. */
    predicate Owes() { Asking? || (Answered? && !ok) }

    /** The part of the position that concerns the output in slot `i`. */
    function On(i: int): Pc { if Inside() && screen == i then this else Idle }
  }

  datatype Thread = Renderer | Events

  /** One CRTC: the scanned buffer, the accepted flip not yet reported, whether the scan-out has already
      moved to it, and how many reports of an earlier configuration are still on their way. */
  datatype Hardware = Hardware(scan: int, flip: int, latched: bool, stale: nat)

  /** What has happened to the frames of the present configuration. Frames are numbered as they are
      accepted; `tag` gives the frame last queued in each buffer. */
  datatype History = History(accepted: nat, refused: nat, shown: seq<nat>, staleReports: nat, tag: seq<nat>)

  const DARK := Hardware(-1, -1, false, 0)
  const NEW_HISTORY := History(0, 0, [], 0, [])

  datatype System = System(
    d: Display, hw: seq<Hardware>, log: seq<History>, held: set<Target>, renderer: Pc, events: Pc)
  {
    function Thread(th: Thread): Pc { if th == Renderer then renderer else events }

    function Goto(th: Thread, pc: Pc): System {
      if th == Renderer then this.(renderer := pc) else this.(events := pc)
    }
  }

  datatype Step =
    | AcquireStep(screen: int)
    | PresentStep(target: Target)
    | BeginStep(th: Thread)
    | KernelStep(th: Thread, accepts: bool)
    | EndStep(th: Thread)
    | VBlankStep(i: int)
    | FlipStep(i: int)
    | StaleFlipStep(i: int)
    | LostReportStep(i: int)
    | PassStep
    | LoseStep(i: int)
    | AddStep(res: Resources, conn: Connector, answers: Answers)
    | PassEndStep

  /** The length of all rings together. */
  function TotalRing(outs: seq<Output>): nat {
    if outs == [] then 0 else TotalRing(outs[..|outs| - 1]) + |outs[|outs| - 1].ring|
  }

  ghost predicate OpenFd(d: Display, fd: int) {
    || (exists i, j :: 0 <= i < |d.outs| && 0 <= j < |d.outs[i].ring| && d.outs[i].ring[j].fd == fd)
    || (exists k :: 0 <= k < |d.retired| && d.retired[k].fd == fd)
  }

  /** Descriptors handed out by the kernel are distinct from each other and from every open one. */
  ghost predicate Fresh(d: Display, grants: seq<Grant>, n: nat) {
    && (forall k :: 0 <= k < n && k < |grants| && grants[k].Ready? ==> !OpenFd(d, grants[k].fd))
    && (forall k, m :: 0 <= k < m < n && m < |grants| && grants[k].Ready? && grants[m].Ready? ==>
          grants[k].fd != grants[m].fd)
  }

  /** What is assumed about the environment: a slot is not torn down while the kernel has not answered a commit of the
      renderer on it, and no report of an earlier configuration arrives once the slot has been configured again. */
  datatype Assumptions = Assumptions(teardownWaits: bool, noLateReports: bool)

  const BOTH := Assumptions(true, true)

  /** Which steps can be taken. */
  ghost predicate Enabled(s: System, step: Step, n: nat) { Allowed(s, step, n, BOTH) }

  ghost predicate Allowed(s: System, step: Step, n: nat, env: Assumptions) {
    && Possible(s, step, n)
    && (env.teardownWaits ==> TeardownWaits(s, step))
    && (env.noLateReports ==> NoLateReports(s, step))
  }

  predicate TeardownWaits(s: System, step: Step) { step.LoseStep? ==> !s.renderer.On(step.i).Asking? }

  predicate NoLateReports(s: System, step: Step) {
    step.AddStep? && FreeSlot(s.d.outs) < |s.hw| ==> s.hw[FreeSlot(s.d.outs)].stale == 0
  }

  /** Which steps can be taken by the program, the kernel and the hardware as such. */
  ghost predicate Possible(s: System, step: Step, n: nat) {
    match step
    case AcquireStep(screen) => s.renderer.Idle?
    case PresentStep(t) => s.renderer.Idle? && t in s.held
    case BeginStep(th) => s.Thread(th).Push?
    case KernelStep(th, _) => s.Thread(th).Asking?
    case EndStep(th) => s.Thread(th).Answered?
    case VBlankStep(i) => 0 <= i < |s.hw| && s.hw[i].flip >= 0 && !s.hw[i].latched
    case FlipStep(i) => s.events.Idle? && 0 <= i < |s.hw| && s.hw[i].flip >= 0 && s.hw[i].latched
    case StaleFlipStep(i) => s.events.Idle? && 0 <= i < |s.hw| && s.hw[i].stale > 0
    case LostReportStep(i) => 0 <= i < |s.hw| && s.hw[i].stale > 0
    case PassStep => s.events.Idle?
    case LoseStep(i) => s.events.InPass? && s.d.Has(i)
    case AddStep(res, conn, a) =>
      s.events.InPass? && conn.id !in Connectors(s.d.outs) && Fresh(s.d, a.grants, n)
    case PassEndStep => s.events.InPass?
  }

  function NoFrames(n: nat): (r: seq<nat>)
    ensures |r| == n && forall k :: 0 <= k < n ==> r[k] == 0
  {
    seq(n, k => 0)
  }

  ghost predicate Shaped(s: System) {
    |s.hw| == |s.d.outs| && |s.log| == |s.d.outs| && s.d.InRange()
  }

  // --- the effect of each step; targets, frame numbers and the hardware are kept beside the engine ---

  function Acquiring(s: System, screen: int): System {
    var (d, t) := Acquire(s.d, screen);
    s.(d := d, held := if t.Some? then s.held + {t.value} else s.held)
  }

  function Accept(h: History, index: int): History {
    h.(accepted := h.accepted + 1, tag := if 0 <= index < |h.tag| then h.tag[index := h.accepted] else h.tag)
  }

  function Presenting(s: System, t: Target): System
    requires |s.log| == |s.d.outs|
  {
    var (d, taken) := Queue(s.d, t);
    var s1 := s.(d := d, held := s.held - {t});
    if taken then s1.(log := s.log[t.screen := Accept(s.log[t.screen], t.index)], renderer := Push(t.screen)) else s1
  }

  function Beginning(s: System, th: Thread): System
    requires s.Thread(th).Push?
  {
    var i := s.Thread(th).screen;
    if !(0 <= i < |s.d.outs|) then s.Goto(th, Idle) else
      var (o, idx) := BeginCommit(s.d.outs[i]);
      s.(d := s.d.With(i, o)).Goto(th, if idx.Some? then Asking(i, idx.value) else Idle)
  }

  function Answering(s: System, th: Thread, ok: bool): System
    requires s.Thread(th).Asking?
  {
    var pc := s.Thread(th);
    var s1 := s.Goto(th, Answered(pc.screen, pc.idx, ok));
    if ok && 0 <= pc.screen < |s.hw|
    then s1.(hw := s.hw[pc.screen := s.hw[pc.screen].(flip := pc.idx, latched := false)])
    else s1
  }

  /** A refusal counts if the frame is one of the present configuration. */
  function Refuse(h: History, o: Output, idx: int): History {
    if o.idxInFlight == idx then h.(refused := h.refused + 1) else h
  }

  function Ending(s: System, th: Thread): System
    requires s.Thread(th).Answered? && |s.log| == |s.d.outs|
  {
    var pc := s.Thread(th);
    if !(0 <= pc.screen < |s.d.outs|) then s.Goto(th, Idle)
    else if pc.ok then s.(d := s.d.With(pc.screen, DoneCommit(s.d.outs[pc.screen]))).Goto(th, Idle)
    else
      var h := s.log[pc.screen];
      s.(d := s.d.With(pc.screen, FailCommit(s.d.outs[pc.screen], pc.idx)),
         log := s.log[pc.screen := Refuse(h, s.d.outs[pc.screen], pc.idx)]).Goto(th, Idle)
  }

  function Blanking(s: System, i: int): System
    requires 0 <= i < |s.hw|
  {
    s.(hw := s.hw[i := s.hw[i].(scan := s.hw[i].flip, latched := true)])
  }

  function Show(h: History, b: int): History { h.(shown := h.shown + [if 0 <= b < |h.tag| then h.tag[b] else 0]) }

  function Flipping(s: System, i: int): System
    requires 0 <= i < |s.hw| == |s.log| == |s.d.outs|
  {
    s.(d := s.d.With(i, Flip(s.d.outs[i])),
       hw := s.hw[i := s.hw[i].(flip := -1, latched := false)],
       log := s.log[i := Show(s.log[i], s.hw[i].flip)],
       events := Push(i))
  }

  function StaleFlipping(s: System, i: int): System
    requires 0 <= i < |s.hw| == |s.log| == |s.d.outs| && s.hw[i].stale > 0
  {
    s.(d := s.d.With(i, Flip(s.d.outs[i])),
       hw := s.hw[i := s.hw[i].(stale := s.hw[i].stale - 1)],
       log := s.log[i := s.log[i].(staleReports := s.log[i].staleReports + 1)],
       events := Push(i))
  }

  function LosingReport(s: System, i: int): System
    requires 0 <= i < |s.hw| && s.hw[i].stale > 0
  {
    s.(hw := s.hw[i := s.hw[i].(stale := s.hw[i].stale - 1)])
  }

  function Darken(hw: Hardware): Hardware {
    Hardware(-1, -1, false, hw.stale + if hw.flip >= 0 then 1 else 0)
  }

  function Losing(s: System, i: int): System
    requires 0 <= i < |s.hw| == |s.log| == |s.d.outs|
  {
    s.(d := Teardown(s.d, i), hw := s.hw[i := Darken(s.hw[i])], log := s.log[i := NEW_HISTORY],
       events := InPass(true))
  }

  /** The system with a slot for one more output. */
  function Opening(s: System): System {
    if FreeSlot(s.d.outs) < |s.d.outs| then s
    else s.(d := Opened(s.d), hw := s.hw + [DARK], log := s.log + [NEW_HISTORY])
  }

  /** The history of a slot after an attempt to configure it; a failed one may clear the statistics. */
  function Begun(h: History, added: bool, cleared: bool, n: nat): History {
    if added then h.(tag := NoFrames(n)) else if cleared then NEW_HISTORY else h
  }

  /** The event thread has run `configure_one` with result `d` and `added`. */
  function Adopting(s: System, d: Display, added: bool, n: nat): System
    requires |s.hw| == |s.log| == |s.d.outs| && s.events.InPass?
  {
    var slot := FreeSlot(s.d.outs);
    var s1 := Opening(s);
    var cleared := slot < |d.outs| && d.outs[slot].st != s1.d.outs[slot].st;
    s1.(d := d, log := s1.log[slot := Begun(s1.log[slot], added, cleared, n)],
        events := InPass(s.events.changed || added))
  }

  ghost function Adding(s: System, res: Resources, conn: Connector, a: Answers, n: nat): System
    requires |s.hw| == |s.log| == |s.d.outs| && s.events.InPass?
  {
    var (d, added) := Configure(s.d, res, conn, a, n);
    Adopting(s, d, added, n)
  }

  function EndingPass(s: System): System
    requires s.events.InPass?
  {
    s.(d := if s.events.changed then AssignRoles(s.d) else s.d, events := Idle)
  }

  ghost function Do(s: System, step: Step, n: nat): System
    requires Shaped(s) && Possible(s, step, n)
  {
    match step
    case AcquireStep(screen) => Acquiring(s, screen)
    case PresentStep(t) => Presenting(s, t)
    case BeginStep(th) => Beginning(s, th)
    case KernelStep(th, ok) => Answering(s, th, ok)
    case EndStep(th) => Ending(s, th)
    case VBlankStep(i) => Blanking(s, i)
    case FlipStep(i) => Flipping(s, i)
    case StaleFlipStep(i) => StaleFlipping(s, i)
    case LostReportStep(i) => LosingReport(s, i)
    case PassStep => s.(events := InPass(false))
    case LoseStep(i) => Losing(s, i)
    case AddStep(res, conn, a) => Adding(s, res, conn, a, n)
    case PassEndStep => EndingPass(s)
  }

  const START := System(Display([], [], 0, 0, -1), [], [], {}, Idle, Idle)
}
