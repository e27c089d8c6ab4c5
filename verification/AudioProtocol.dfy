/** The request protocol of one audio output (audio/audio_out.cpp): callers change the wanted source and may raise a
    flag; the output's thread clears the flag, takes a snapshot, builds a pipeline and follows seeks and pauses. Every
    step is one critical section or one access to an atomic. */
module AudioProtocol {
  datatype Source = Live | File | Silent
  datatype Want = Want(src: Source, path: string, pos: int, gen: nat, paused: bool)
  datatype Request = PlayFile(path: string, pos: int, paused: bool) | SeekFile(pos: int) | PauseFile(paused: bool)
                   | GoLive | GoSilent

  /** What a request asks for. */
  function Asked(w: Want, r: Request): Want {
    match r
    case PlayFile(path, pos, paused) => Want(File, path, pos, w.gen + 1, paused)
    case SeekFile(pos) => w.(pos := pos, gen := w.gen + 1)
    case PauseFile(paused) => w.(paused := paused)
    case GoLive => w.(src := Live, path := "")
    case GoSilent => w.(src := Silent, path := "")
  }

  /** The caller finds that there is nothing to do. */
  predicate Skips(w: Want, r: Request) {
    match r
    case PauseFile(paused) => w.paused == paused
    case GoLive => w.src == Live
    case GoSilent => w.src == Silent
    case _ => false
  }

  /** The caller finds that the pipeline must be rebuilt. */
  predicate Rebuilds(w: Want, r: Request) {
    match r
    case PlayFile(path, _, _) => w.src != File || w.path != path
    case GoLive => true
    case GoSilent => true
    case _ => false
  }

  /** A call that changes something rebuilds exactly if it asks for another source or file; one that skips changes nothing. */
  lemma RebuildsExactly(w: Want, r: Request)
    requires w.src != File ==> w.path == ""
    ensures Skips(w, r) ==> Asked(w, r) == w
    ensures !Skips(w, r) ==> (Rebuilds(w, r) <==> Asked(w, r).src != w.src || Asked(w, r).path != w.path)
  {
  }

  /** A caller looks at the want, writes it, and then raises the flag if it found that it has to. */
  datatype Caller = Idle | Called(r: Request) | Decided(r: Request, rebuild: bool) | Written(rebuild: bool)

  /** set_udp_port: the port is stored, the want is looked at, and the flag is raised if it is the live source. */
  datatype Setter = Resting | Stored | Looked(live: bool)

  /** The pipeline: what it was built from, and the seek and the pause it was last told. */
  datatype Pipe = Pipe(port: int, gen: nat, sought: int, paused: bool)

  datatype Loop =
    | Top
    | Cleared
    | Snapped(s: Want)
    | Built(s: Want, port: int)
    | Playing(s: Want, pipe: Pipe)
    | Waiting(s: Want)
    | Down

  datatype State = State(callers: seq<Caller>, setter: Setter, loop: Loop, want: Want, flag: bool, port: int,
                         asked: Want)

  datatype Step =
    | Call(i: nat, r: Request) | Look(i: nat) | Write(i: nat) | Raise(i: nat)
    | StorePort(p: int) | LookLive | RaisePort
    | Clear | Snap | Build | Begin(ok: bool) | Pass | Leave(error: bool) | Rest

  // --- the steps ---

  predicate Enabled(st: State, a: Step) {
    match a
    case Call(i, _) => i < |st.callers| && st.callers[i].Idle?
    case Look(i) => i < |st.callers| && st.callers[i].Called?
    case Write(i) => i < |st.callers| && st.callers[i].Decided?
    case Raise(i) => i < |st.callers| && st.callers[i].Written?
    case StorePort(_) => st.setter.Resting?
    case LookLive => st.setter.Stored?
    case RaisePort => st.setter.Looked?
    case Clear => st.loop.Top?
    case Snap => st.loop.Cleared?
    case Build => st.loop.Snapped?
    case Begin(_) => st.loop.Built?
    case Pass => st.loop.Playing? && !st.flag
    case Leave(error) => (st.loop.Playing? && (st.flag || error)) || (st.loop.Waiting? && st.flag)
    case Rest => st.loop.Down?
  }

  function Looking(w: Want, r: Request): Caller { if Skips(w, r) then Idle else Decided(r, Rebuilds(w, r)) }

  function Building(s: Want, port: int): Loop { if s.src == Silent then Waiting(s) else Built(s, port) }

  /** The pipeline starts at the snapshot's position and pause. */
  function Beginning(s: Want, port: int): Loop { Playing(s, Pipe(port, s.gen, s.pos, s.paused)) }

  /** One pass of the inner loop: a file follows new seeks and pauses. */
  function Passing(s: Want, pipe: Pipe, w: Want): Loop {
    if s.src != File then Playing(s, pipe)
    else Playing(s, Pipe(pipe.port, w.gen, if w.gen != pipe.gen then w.pos else pipe.sought,
                         if w.paused != pipe.paused then w.paused else pipe.paused))
  }

  function Do(st: State, a: Step): State
    requires Enabled(st, a)
  {
    match a
    case Call(i, r) => st.(callers := st.callers[i := Called(r)], asked := Asked(st.asked, r))
    case Look(i) => st.(callers := st.callers[i := Looking(st.want, st.callers[i].r)])
    case Write(i) =>
      st.(callers := st.callers[i := Written(st.callers[i].rebuild)], want := Asked(st.want, st.callers[i].r))
    case Raise(i) => st.(callers := st.callers[i := Idle], flag := st.flag || st.callers[i].rebuild)
    case StorePort(p) => st.(setter := Stored, port := p)
    case LookLive => st.(setter := Looked(st.want.src == Live))
    case RaisePort => st.(setter := Resting, flag := st.flag || st.setter.live)
    case Clear => st.(loop := Cleared, flag := false)
    case Snap => st.(loop := Snapped(st.want))
    case Build => st.(loop := Building(st.loop.s, st.port))
    case Begin(ok) => st.(loop := if ok then Beginning(st.loop.s, st.loop.port) else Down)
    case Pass => st.(loop := Passing(st.loop.s, st.loop.pipe, st.want))
    case Leave(_) => st.(loop := if st.loop.Waiting? then Top else Down)
    case Rest => st.(loop := Top)
  }

  const NOTHING: Want := Want(Live, "", 0, 0, false)

  function Start(callers: nat, port: int): State {
    State(seq(callers, _ => Idle), Resting, Top, NOTHING, false, port, NOTHING)
  }

  ghost predicate IsRun(run: seq<State>, steps: seq<Step>, callers: nat, port: int) {
    && |run| == |steps| + 1 && run[0] == Start(callers, port)
    && forall k :: 0 <= k < |steps| ==> Enabled(run[k], steps[k]) && run[k + 1] == Do(run[k], steps[k])
  }

  // --- what is kept, for any number of callers and set_udp_port ---

  predicate HasSnapshot(l: Loop) { l.Snapped? || l.Built? || l.Playing? || l.Waiting? }

  function PortOf(l: Loop): int
    requires l.Built? || l.Playing?
  {
    if l.Built? then l.port else l.pipe.port
  }

  /** A rebuild is coming. */
  predicate Coming(st: State) { st.flag || Written(true) in st.callers }

  predicate SameSource(a: Want, b: Want) { a.src == b.src && a.path == b.path }

  predicate SourceKept(st: State) { HasSnapshot(st.loop) ==> Coming(st) || SameSource(st.loop.s, st.want) }

  predicate PortKept(st: State) {
    (st.loop.Built? || st.loop.Playing?) && st.loop.s.src == Live ==>
      Coming(st) || st.setter == Stored || st.setter == Looked(true) || PortOf(st.loop) == st.port
  }

  /** A seek is known by its generation. */
  predicate SeekKept(st: State) {
    && (HasSnapshot(st.loop) ==>
          st.loop.s.gen <= st.want.gen && (st.loop.s.gen == st.want.gen ==> st.loop.s.pos == st.want.pos))
    && (st.loop.Playing? ==>
          st.loop.pipe.gen <= st.want.gen && (st.loop.pipe.gen == st.want.gen ==> st.loop.pipe.sought == st.want.pos))
  }

  /** The thread waits exactly for a silent source, and has a pipeline for any other. */
  predicate KindKept(st: State) {
    (st.loop.Waiting? ==> st.loop.s.src == Silent) && (st.loop.Built? || st.loop.Playing? ==> st.loop.s.src != Silent)
  }

  predicate Kept(st: State) { SourceKept(st) && PortKept(st) && SeekKept(st) && KindKept(st) }

  /** A call writes another source, although it found when it looked that nothing had to be rebuilt. */
  predicate Blind(st: State, a: Step) {
    && a.Write? && a.i < |st.callers| && st.callers[a.i].Decided? && !st.callers[a.i].rebuild
    && !SameSource(Asked(st.want, st.callers[a.i].r), st.want)
  }

  /** One caller moves on; what the others have written stays. */
  lemma ComingStays(st: State, i: nat, c: Caller)
    requires i < |st.callers|
    ensures Written(true) in st.callers && st.callers[i] != Written(true) ==> Written(true) in st.callers[i := c]
    ensures c == Written(true) ==> Written(true) in st.callers[i := c]
  {
    if Written(true) in st.callers && st.callers[i] != Written(true) {
      var j :| 0 <= j < |st.callers| && st.callers[j] == Written(true);
      assert st.callers[i := c][j] == Written(true);
    }
    if c == Written(true) { assert st.callers[i := c][i] == c; }
  }

  /** A rebuild that is coming is not forgotten before the thread clears the flag. */
  lemma StillComing(st: State, a: Step)
    requires Enabled(st, a)
    ensures Coming(st) && !a.Clear? ==> Coming(Do(st, a))
    ensures a.Write? && st.callers[a.i].rebuild ==> Coming(Do(st, a))
  {
    match a
    case Call(i, r) => ComingStays(st, i, Called(r));
    case Look(i) => ComingStays(st, i, Looking(st.want, st.callers[i].r));
    case Write(i) => ComingStays(st, i, Written(st.callers[i].rebuild));
    case Raise(i) => ComingStays(st, i, Idle);
    case _ =>
  }

  /** Every step but a blind write keeps what the thread works on in step with the want. */
  lemma StepKeeps(st: State, a: Step)
    requires Kept(st) && Enabled(st, a) && !Blind(st, a)
    ensures Kept(Do(st, a))
  {
    hide Coming;
    StillComing(st, a);
    SourceStep(st, a);
    PortStep(st, a);
    SeekStep(st, a);
    KindStep(st, a);
  }

  lemma SourceStep(st: State, a: Step)
    requires SourceKept(st) && Enabled(st, a) && !Blind(st, a)
    ensures SourceKept(Do(st, a))
  {
    hide Coming;
    StillComing(st, a);
  }

  lemma PortStep(st: State, a: Step)
    requires SourceKept(st) && PortKept(st) && Enabled(st, a) && !Blind(st, a)
    ensures PortKept(Do(st, a))
  {
    StillComing(st, a);
    if a.RaisePort? { assert Coming(Do(st, a)) || !st.setter.live; }
    hide Coming;
  }

  lemma SeekStep(st: State, a: Step)
    requires SeekKept(st) && Enabled(st, a)
    ensures SeekKept(Do(st, a))
  {
  }

  lemma KindStep(st: State, a: Step)
    requires KindKept(st) && Enabled(st, a)
    ensures KindKept(Do(st, a))
  {
  }

  lemma {:induction false} RunKeeps(run: seq<State>, steps: seq<Step>, callers: nat, port: int, k: nat)
    requires IsRun(run, steps, callers, port) && k < |run|
    requires forall q: nat :: q < k ==> !Blind(run[q], steps[q])
    ensures Kept(run[k])
  {
    hide Blind, Do, Enabled;
    if k > 0 {
      RunKeeps(run, steps, callers, port, k - 1);
      StepKeeps(run[k - 1], steps[k - 1]);
    }
  }

  predicate Quiet(st: State) { (forall c :: c in st.callers ==> c.Idle?) && st.setter.Resting? }

  /** The output works on a source: it waits only if that is silence, it has a pipeline only if it is not, and live sound
      comes from the present port. */
  predicate WorksOn(st: State, w: Want) {
    && HasSnapshot(st.loop) && SameSource(st.loop.s, w)
    && (st.loop.Waiting? ==> w.src == Silent) && (st.loop.Built? || st.loop.Playing? ==> w.src != Silent)
    && ((st.loop.Built? || st.loop.Playing?) && st.loop.s.src == Live ==> PortOf(st.loop) == st.port)
  }

  /** With any number of callers, as long as no write is blind: when nobody is calling and the flag is down, an output past
      its snapshot works on what was written last. */
  lemma FollowsWithoutBlindWrites(run: seq<State>, steps: seq<Step>, callers: nat, port: int, k: nat)
    requires IsRun(run, steps, callers, port) && k < |run|
    requires forall q: nat :: q < k ==> !Blind(run[q], steps[q])
    requires Quiet(run[k]) && !run[k].flag && HasSnapshot(run[k].loop)
    ensures WorksOn(run[k], run[k].want)
  {
    RunKeeps(run, steps, callers, port, k);
  }

  /** A blind write, and no other, leaves a settled output on the wrong source when the call is over, and its passes do not
      help. */
  lemma BlindWriteIsLost(st: State, i: nat)
    requires Settled(st) && WorksOn(st, st.want) && st.setter.Resting? && i < |st.callers|
    requires st.callers[i].Decided? && !st.callers[i].rebuild
    requires forall j :: 0 <= j < |st.callers| && j != i ==> st.callers[j].Idle?
    ensures var done := Do(Do(st, Write(i)), Raise(i));
            && Quiet(done) && Settled(done) && (WorksOn(done, done.want) <==> !Blind(st, Write(i)))
            && (Enabled(done, Pass) ==> Do(done, Pass).loop.s == done.loop.s && Do(done, Pass).want == done.want)
  {
    var done := Do(Do(st, Write(i)), Raise(i));
    forall c | c in done.callers ensures c.Idle? {
      var j :| 0 <= j < |done.callers| && done.callers[j] == c;
    }
  }

  // --- calls that do not meet ---

  /** No call writes between another call's look and its write. */
  ghost predicate Undisturbed(steps: seq<Step>) {
    forall j, q, k, i | 0 <= j < q < k < |steps| && steps[j] == Look(i) && steps[k] == Write(i) && OneLook(steps, j, k, i) ::
      !steps[q].Write?
  }

  /** The look at step `j` is the last one of the caller before step `k`. */
  ghost predicate OneLook(steps: seq<Step>, j: int, k: int, i: nat) {
    0 <= j < k <= |steps| && steps[j] == Look(i) && forall q :: j < q < k ==> steps[q] != Look(i)
  }

  /** What a caller has decided rests on the want it looked at. */
  lemma {:induction false} LookedAt(run: seq<State>, steps: seq<Step>, callers: nat, port: int, k: nat, i: nat) returns (j: nat)
    requires IsRun(run, steps, callers, port) && k < |run| && i < |run[k].callers| && run[k].callers[i].Decided?
    ensures OneLook(steps, j, k, i) && run[k].callers[i].rebuild == Rebuilds(run[j].want, run[k].callers[i].r)
  {
    if k == 0 {
    } else if steps[k - 1] == Look(i) {
      j := k - 1;
    } else {
      DecidedBefore(run[k - 1], steps[k - 1], i);
      j := LookedAt(run, steps, callers, port, k - 1, i);
    }
  }

  lemma DecidedBefore(st: State, a: Step, i: nat)
    requires Enabled(st, a) && a != Look(i) && i < |Do(st, a).callers| && Do(st, a).callers[i].Decided?
    ensures i < |st.callers| && st.callers[i] == Do(st, a).callers[i]
  {
  }

  lemma {:induction false} WantStays(run: seq<State>, steps: seq<Step>, callers: nat, port: int, j: nat, k: nat)
    requires IsRun(run, steps, callers, port) && j <= k < |run| && forall q :: j <= q < k ==> !steps[q].Write?
    ensures run[k].want == run[j].want
  {
    if j < k { WantStays(run, steps, callers, port, j, k - 1); }
  }

  /** Then no write is blind. */
  lemma UndisturbedIsNotBlind(run: seq<State>, steps: seq<Step>, callers: nat, port: int, k: nat)
    requires IsRun(run, steps, callers, port) && Undisturbed(steps) && k < |steps|
    ensures !Blind(run[k], steps[k])
  {
    if Blind(run[k], steps[k]) {
      var i := steps[k].i;
      var j := LookedAt(run, steps, callers, port, k, i);
      WantStays(run, steps, callers, port, j, k);
    }
  }

  // --- one caller ---

  /** The caller's request is not lost between looking and writing. */
  predicate CallerKept(st: State)
    requires |st.callers| == 1
  {
    && (st.want.src != File ==> st.want.path == "")
    && match st.callers[0]
       case Called(r) => st.asked == Asked(st.want, r)
       case Decided(r, rebuild) => st.asked == Asked(st.want, r) && rebuild == Rebuilds(st.want, r)
       case _ => st.asked == st.want
  }

  predicate Inv(st: State) { |st.callers| == 1 && CallerKept(st) && Kept(st) }

  lemma StepKeepsInv(st: State, a: Step)
    requires Inv(st) && Enabled(st, a)
    ensures Inv(Do(st, a))
  {
    OneCallerSees(st, a);
    hide CallerKept, Kept;
    CallerStep(st, a);
    StepKeeps(st, a);
  }

  lemma OneCallerSees(st: State, a: Step)
    requires |st.callers| == 1 && CallerKept(st)
    ensures !Blind(st, a)
  {
  }

  lemma CallerStep(st: State, a: Step)
    requires |st.callers| == 1 && CallerKept(st) && Enabled(st, a)
    ensures |Do(st, a).callers| == 1 && CallerKept(Do(st, a))
  {
  }

  lemma {:induction false} RunKeepsInv(run: seq<State>, steps: seq<Step>, port: int, k: nat)
    requires IsRun(run, steps, 1, port) && k < |run|
    ensures Inv(run[k])
  {
    if k > 0 {
      RunKeepsInv(run, steps, port, k - 1);
      StepKeepsInv(run[k - 1], steps[k - 1]);
    }
  }

  /** No request is lost: in every run, when nobody is calling and the flag is down, an output past its snapshot works on
      the latest request. */
  lemma NoLostRequest(run: seq<State>, steps: seq<Step>, port: int, k: nat)
    requires IsRun(run, steps, 1, port) && k < |run|
    requires Quiet(run[k]) && !run[k].flag && HasSnapshot(run[k].loop)
    ensures WorksOn(run[k], run[k].asked)
  {
    RunKeepsInv(run, steps, port, k);
    assert run[k].callers[0] in run[k].callers;
  }

  /** One pass more, and a file's seek and pause are the latest ones. */
  lemma PassFollows(run: seq<State>, steps: seq<Step>, port: int, k: nat)
    requires IsRun(run, steps, 1, port) && k < |run| && Quiet(run[k]) && Enabled(run[k], Pass)
    ensures var after := Do(run[k], Pass);
            after.loop.s.src == File ==>
              after.loop.pipe.sought == after.asked.pos && after.loop.pipe.paused == after.asked.paused
  {
    RunKeepsInv(run, steps, port, k);
    assert run[k].callers[0] in run[k].callers;
  }

  // --- the output catches up ---

  /** Nothing is left to do for the output's thread. */
  predicate Settled(st: State) { !st.flag && (st.loop.Playing? || st.loop.Waiting?) }

  /** How many steps of its own the output's thread is from settling, if pipelines start and nobody calls. */
  function Distance(st: State): nat {
    match st.loop
    case Top => 4
    case Cleared => if st.flag then 9 else 3
    case Snapped(_) => if st.flag then 8 else 2
    case Built(_, _) => if st.flag then 7 else 1
    case Playing(_, _) => if st.flag then 6 else 0
    case Waiting(_) => if st.flag then 5 else 0
    case Down => 5
  }

  function Own(st: State): Step
    requires !Settled(st)
  {
    match st.loop
    case Top => Clear
    case Cleared => Snap
    case Snapped(_) => Build
    case Built(_, _) => Begin(true)
    case Down => Rest
    case _ => Leave(false)
  }

  /** The state in which the output's thread settles. */
  function Settle(st: State): (r: State)
    ensures Settled(r)
    decreases Distance(st)
  {
    if Settled(st) then st else Settle(Do(st, Own(st)))
  }

  /** Once nobody calls, the output's thread needs at most nine steps to work on the latest request: it plays unless silence
      was asked for, live sound from the present port, and after one pass more a file at the position and pause asked for. */
  lemma {:induction false} CatchesUp(st: State)
    requires Inv(st) && Quiet(st)
    ensures Distance(st) <= 9 && WorksOn(Settle(st), st.asked) && Settle(st).asked == st.asked
    ensures Settle(st).loop.Playing? <==> st.asked.src != Silent
    ensures st.asked.src == Live ==> Settle(st).loop.pipe.port == Settle(st).port == st.port
    ensures st.asked.src == File ==>
              && Enabled(Settle(st), Pass)
              && var pipe := Do(Settle(st), Pass).loop.pipe; pipe.sought == st.asked.pos && pipe.paused == st.asked.paused
    decreases Distance(st)
  {
    if Settled(st) {
      assert st.callers[0] in st.callers;
    } else {
      StepKeepsInv(st, Own(st));
      CatchesUp(Do(st, Own(st)));
    }
  }

  // --- why one caller ---

  function Two(port: int, a: Caller, b: Caller, loop: Loop, want: Want, flag: bool, asked: Want): State {
    State([a, b], Resting, loop, want, flag, port, asked)
  }

  /** A run of two callers can come to `st`. */
  ghost predicate Reaches(port: int, st: State) {
    exists run, steps :: IsRun(run, steps, 2, port) && run[|steps|] == st
  }

  lemma Then(port: int, st: State, a: Step, next: State)
    requires Reaches(port, st) && Enabled(st, a)
    requires Do(st, a).callers == next.callers && Do(st, a).(callers := []) == next.(callers := [])
    ensures Reaches(port, next)
  {
    assert Do(st, a) == next;
    hide Enabled, Do;
    var run, steps :| IsRun(run, steps, 2, port) && run[|steps|] == st;
    var run', steps' := run + [next], steps + [a];
    forall k | 0 <= k < |steps'| ensures Enabled(run'[k], steps'[k]) && run'[k + 1] == Do(run'[k], steps'[k]) {
      if k < |steps| { assert run'[k] == run[k] && run'[k + 1] == run[k + 1] && steps'[k] == steps[k]; }
    }
    assert IsRun(run', steps', 2, port) && run'[|steps'|] == next;
  }

  const ONE_FILE := PlayFile("a", 0, false)
  const FIRST_WANT := Want(File, "a", 0, 1, false)
  const SILENT_WANT := Want(Silent, "", 0, 1, false)
  const LAST_WANT := Want(File, "a", 0, 2, false)

  /** A file plays. */
  lemma FirstRequest(port: int)
    ensures Reaches(port, Two(port, Idle, Idle, Top, FIRST_WANT, true, FIRST_WANT))
  {
    hide Reaches;
    Begun(port);
    var s0 := Two(port, Idle, Idle, Top, NOTHING, false, NOTHING);
    var s1 := Two(port, Called(ONE_FILE), Idle, Top, NOTHING, false, FIRST_WANT);
    var s2 := Two(port, Decided(ONE_FILE, true), Idle, Top, NOTHING, false, FIRST_WANT);
    var s3 := Two(port, Written(true), Idle, Top, FIRST_WANT, false, FIRST_WANT);
    Then(port, s0, Call(0, ONE_FILE), s1);
    Then(port, s1, Look(0), s2);
    Then(port, s2, Write(0), s3);
    Then(port, s3, Raise(0), Two(port, Idle, Idle, Top, FIRST_WANT, true, FIRST_WANT));
  }

  lemma Begun(port: int)
    ensures Reaches(port, Two(port, Idle, Idle, Top, NOTHING, false, NOTHING))
  {
    assert Start(2, port).callers == [Idle, Idle];
    assert IsRun([Start(2, port)], [], 2, port);
  }

  /** The first caller asks for the same file again and looks; then the second makes the output silent. */
  lemma SecondRequest(port: int)
    requires Reaches(port, Two(port, Idle, Idle, Top, FIRST_WANT, true, FIRST_WANT))
    ensures Reaches(port, Two(port, Decided(ONE_FILE, false), Idle, Top, SILENT_WANT, true, LAST_WANT))
  {
    hide Reaches;
    var c := Decided(ONE_FILE, false);
    var s0 := Two(port, Idle, Idle, Top, FIRST_WANT, true, FIRST_WANT);
    var s1 := Two(port, Idle, Called(GoSilent), Top, FIRST_WANT, true, SILENT_WANT);
    var s2 := Two(port, Called(ONE_FILE), Called(GoSilent), Top, FIRST_WANT, true, LAST_WANT);
    var s3 := Two(port, c, Called(GoSilent), Top, FIRST_WANT, true, LAST_WANT);
    var s4 := Two(port, c, Decided(GoSilent, true), Top, FIRST_WANT, true, LAST_WANT);
    var s5 := Two(port, c, Written(true), Top, SILENT_WANT, true, LAST_WANT);
    Then(port, s0, Call(1, GoSilent), s1);
    Then(port, s1, Call(0, ONE_FILE), s2);
    Then(port, s2, Look(0), s3);
    Then(port, s3, Look(1), s4);
    Then(port, s4, Write(1), s5);
    Then(port, s5, Raise(1), Two(port, c, Idle, Top, SILENT_WANT, true, LAST_WANT));
  }

  /** With two callers a request can be lost: one decides that no rebuild is needed, the other changes the source. */
  lemma TwoCallersLoseARequest(port: int) returns (last: State)
    ensures Reaches(port, last)
    ensures Quiet(last) && Settled(last) && last.loop.s.src == Silent && last.asked.src == last.want.src == File
  {
    hide Reaches;
    FirstRequest(port);
    SecondRequest(port);
    var s0 := Two(port, Decided(ONE_FILE, false), Idle, Top, SILENT_WANT, true, LAST_WANT);
    var s1 := s0.(loop := Cleared, flag := false);
    var s2 := s1.(loop := Snapped(SILENT_WANT));
    var s3 := s1.(loop := Waiting(SILENT_WANT));
    var s4 := Two(port, Written(false), Idle, Waiting(SILENT_WANT), LAST_WANT, false, LAST_WANT);
    last := Two(port, Idle, Idle, Waiting(SILENT_WANT), LAST_WANT, false, LAST_WANT);
    Then(port, s0, Clear, s1);
    Then(port, s1, Snap, s2);
    Then(port, s2, Build, s3);
    Then(port, s3, Write(0), s4);
    Then(port, s4, Raise(0), last);
  }
}

/** The output's fields and the calls that change them. */
module AudioOutput {
  import opened AudioProtocol

  class Output {
    const udpPort: int
    var portOverride: int
    var wantRebuild: bool
    var wantSrc: Source
    var wantPath: string
    var wantPos: int
    var wantSeekGen: nat
    var wantPaused: bool

    constructor (udpPort: int)
      ensures Asking() == NOTHING && !wantRebuild && EffPort() == udpPort
    {
      this.udpPort, portOverride, wantRebuild := udpPort, -1, false;
      wantSrc, wantPath, wantPos, wantSeekGen, wantPaused := Live, "", 0, 0, false;
    }

    function Asking(): Want
      reads this
    {
      Want(wantSrc, wantPath, wantPos, wantSeekGen, wantPaused)
    }

    function EffPort(): int
      reads this
    {
      if portOverride < 0 then udpPort else portOverride
    }

    /** Raises the flag if the pipeline must be rebuilt. */
    method Raise(rebuild: bool)
      modifies this`wantRebuild
      ensures wantRebuild == (old(wantRebuild) || rebuild)
    {
      if rebuild { wantRebuild := true; }
    }

    method PlayFile(path: string, pos: int, paused: bool)
      modifies this`wantRebuild, this`wantSrc, this`wantPath, this`wantPos, this`wantSeekGen, this`wantPaused
      ensures Asking() == Asked(old(Asking()), AudioProtocol.PlayFile(path, pos, paused))
      ensures wantRebuild == (old(wantRebuild) || Rebuilds(old(Asking()), AudioProtocol.PlayFile(path, pos, paused)))
      ensures wantSrc == File && wantPath == path && wantPos == pos && wantPaused == paused
      ensures wantRebuild <==> old(wantRebuild) || wantSrc != old(wantSrc) || wantPath != old(wantPath)
    {
      var rebuild := wantSrc != File || wantPath != path;
      wantSrc, wantPath, wantPos, wantPaused, wantSeekGen := File, path, pos, paused, wantSeekGen + 1;
      Raise(rebuild);
    }

    method SeekFile(pos: int)
      modifies this`wantPos, this`wantSeekGen
      ensures Asking() == Asked(old(Asking()), AudioProtocol.SeekFile(pos)) && wantPos == pos
    {
      wantPos, wantSeekGen := pos, wantSeekGen + 1;
    }

    method PauseFile(paused: bool)
      modifies this`wantPaused
      ensures Asking() == Asked(old(Asking()), AudioProtocol.PauseFile(paused)) && wantPaused == paused
    {
      var same := wantPaused == paused;
      if !same { wantPaused := paused; }
    }

    method GoLive()
      requires wantSrc != File ==> wantPath == ""
      modifies this`wantRebuild, this`wantSrc, this`wantPath
      ensures Asking() == Asked(old(Asking()), AudioProtocol.GoLive)
      ensures wantRebuild == (old(wantRebuild) || !Skips(old(Asking()), AudioProtocol.GoLive))
      ensures wantSrc == Live && (wantRebuild <==> old(wantRebuild) || wantSrc != old(wantSrc))
    {
      var same := wantSrc == Live;
      if !same {
        wantSrc, wantPath := Live, "";
        Raise(true);
      }
    }

    method GoSilent()
      requires wantSrc != File ==> wantPath == ""
      modifies this`wantRebuild, this`wantSrc, this`wantPath
      ensures Asking() == Asked(old(Asking()), AudioProtocol.GoSilent)
      ensures wantRebuild == (old(wantRebuild) || !Skips(old(Asking()), AudioProtocol.GoSilent))
      ensures wantSrc == Silent && (wantRebuild <==> old(wantRebuild) || wantSrc != old(wantSrc))
    {
      var same := wantSrc == Silent;
      if !same {
        wantSrc, wantPath := Silent, "";
        Raise(true);
      }
    }

    /** The port matters to the live source only. */
    method SetUdpPort(port: int)
      modifies this`portOverride, this`wantRebuild
      ensures EffPort() == (if port < 0 then udpPort else port)
      ensures wantRebuild == (old(wantRebuild) || wantSrc == Live)
    {
      portOverride := port;
      Raise(wantSrc == Live);
    }

    /** The top of the thread's loop: the flag goes down before the want is read. */
    method TakeSnapshot() returns (s: Want)
      modifies this`wantRebuild
      ensures !wantRebuild && s == Asking()
    {
      wantRebuild := false;
      s := Asking();
    }

    /** One pass over a live pipeline. */
    method Pass(s: Want, pipe: Pipe) returns (next: Pipe)
      ensures Playing(s, next) == Passing(s, pipe, Asking())
    {
      next := pipe;
      if s.src == File {
        if wantSeekGen != pipe.gen { next := next.(sought := wantPos, gen := wantSeekGen); }
        if wantPaused != pipe.paused { next := next.(paused := wantPaused); }
      }
    }
  }
}
