/** Hot-plug: what outputs occupy, and which of them is primary. */
module DisplayRoles {
  import opened Prelude
  import opened DisplayModel
  import opened DisplaySystem
  import opened DisplaySafety

  /** No two live outputs share a connector, a CRTC or a primary plane. */
  ghost predicate Disjoint(outs: seq<Output>) {
    forall i, j :: 0 <= i < j < |outs| && outs[i].Live() && outs[j].Live() ==>
      && outs[i].connector != outs[j].connector
      && outs[i].crtc != outs[j].crtc
      && outs[i].plane != outs[j].plane
  }

  /** The primary slot is the best live one and only its output is marked. */
  ghost predicate Ranked(d: Display) {
    && IsBest(d.outs, d.primarySlot)
    && (forall i :: 0 <= i < |d.outs| ==> (d.outs[i].primary <==> i == d.primarySlot))
  }

  ghost predicate Settled(s: System) {
    && Disjoint(s.d.outs)
    && (!(s.events.InPass? && s.events.changed) ==> Ranked(s.d))
  }

  ghost predicate SameIdentity(o: Output, o': Output) {
    && o'.generation == o.generation && o'.connector == o.connector && o'.ctype == o.ctype
    && o'.crtc == o.crtc && o'.plane == o.plane && o'.primary == o.primary
  }

  /** A step changes neither what the outputs are nor what a hot-plug pass has done. */
  ghost predicate IdentityStays(s: System, s': System, enters: bool) {
    && |s'.d.outs| == |s.d.outs| && s'.d.primarySlot == s.d.primarySlot
    && (forall i :: 0 <= i < |s.d.outs| ==> SameIdentity(s.d.outs[i], s'.d.outs[i]))
    && (s'.events.InPass? <==> s.events.InPass? || enters)
    && (s'.events.InPass? && !enters ==> s'.events == s.events)
    && (enters ==> !s'.events.changed)
  }

  lemma CommitKeepsIdentity(s: System, step: Step, n: nat)
    requires Shaped(s) && Enabled(s, step, n) && (step.BeginStep? || step.KernelStep? || step.EndStep?)
    ensures IdentityStays(s, Do(s, step, n), false)
  {
  }

  lemma ReportKeepsIdentity(s: System, step: Step, n: nat)
    requires Shaped(s) && Enabled(s, step, n)
    requires step.VBlankStep? || step.FlipStep? || step.StaleFlipStep? || step.LostReportStep?
    ensures IdentityStays(s, Do(s, step, n), false)
  {
  }

  /** Only the event thread's hot-plug pass changes what an output is. */
  lemma IdentityKept(s: System, step: Step, n: nat)
    requires Shaped(s) && Enabled(s, step, n)
    requires !step.LoseStep? && !step.AddStep? && !step.PassEndStep?
    ensures IdentityStays(s, Do(s, step, n), step.PassStep?)
  {
    if step.BeginStep? || step.KernelStep? || step.EndStep? {
      CommitKeepsIdentity(s, step, n);
    } else if !step.AcquireStep? && !step.PresentStep? && !step.PassStep? {
      ReportKeepsIdentity(s, step, n);
    }
  }

  lemma SameIdentityKeepsSettled(s: System, s': System)
    requires Settled(s) && |s'.d.outs| == |s.d.outs| && s'.d.primarySlot == s.d.primarySlot
    requires forall i :: 0 <= i < |s.d.outs| ==> SameIdentity(s.d.outs[i], s'.d.outs[i])
    requires (s.events.InPass? && s.events.changed) == (s'.events.InPass? && s'.events.changed)
    ensures Settled(s')
  {
  }

  /** What a configured output occupies was free. */
  lemma ConfigureOccupies(d: Display, res: Resources, conn: Connector, a: Answers, n: nat)
    ensures var (d', added) := Configure(d, res, conn, a, n);
            var slot := FreeSlot(d.outs);
            && |d'.outs| == |Opened(d).outs| && slot < |d'.outs| && d'.primarySlot == d.primarySlot
            && (forall i :: 0 <= i < |d.outs| && i != slot ==> d'.outs[i] == d.outs[i])
            && (if added then
                  && d'.outs[slot].Live() && d'.outs[slot].connector == conn.id && d'.outs[slot].ctype == conn.ctype
                  && d'.outs[slot].crtc !in BusyCrtcs(d.outs)
                  && d'.outs[slot].plane !in BusyPlanes(d.outs)
                else
                  && !d'.outs[slot].Live()
                  && (d'.outs[slot].primary ==> slot < |d.outs| && d.outs[slot].primary))
  {
  }

  lemma AddKeepsDisjoint(d: Display, res: Resources, conn: Connector, a: Answers, n: nat)
    requires Disjoint(d.outs) && conn.id !in Connectors(d.outs)
    ensures Disjoint(Configure(d, res, conn, a, n).0.outs)
  {
    hide Configure, FreeSlot;
    var (d', added) := Configure(d, res, conn, a, n);
    var slot := FreeSlot(d.outs);
    ConfigureOccupies(d, res, conn, a, n);
    forall i | 0 <= i < |d.outs| && d.outs[i].Live()
      ensures d.outs[i].connector in Connectors(d.outs)
      ensures d.outs[i].crtc in BusyCrtcs(d.outs)
      ensures d.outs[i].plane in BusyPlanes(d.outs)
    {
      assert d.outs[i] in d.outs;
    }
  }

  /** A failed addition leaves the ranking as it was. */
  lemma FailedAddKeepsRanked(d: Display, res: Resources, conn: Connector, a: Answers, n: nat)
    requires Ranked(d) && !Configure(d, res, conn, a, n).1
    ensures Ranked(Configure(d, res, conn, a, n).0)
  {
    ConfigureOccupies(d, res, conn, a, n);
  }

  predicate IsHdmi(c: ConnectorType) { c.HDMIA? || c.HDMIB? }

  predicate IsPort(c: ConnectorType) { c.DisplayPort? || c.EDP? }

  /** The primary output is an HDMI one if any is live, else a DisplayPort one if any is, and among those the first. */
  lemma HdmiComesFirst(d: Display, j: nat)
    requires Ranked(d) && d.Has(j)
    ensures d.Has(d.primarySlot)
    ensures var c, p := d.outs[j].ctype, d.outs[d.primarySlot].ctype;
            && (IsHdmi(c) ==> IsHdmi(p)) && (IsPort(c) ==> IsHdmi(p) || IsPort(p))
            && (IsHdmi(c) == IsHdmi(p) && IsPort(c) == IsPort(p) ==> d.primarySlot <= j)
  {
  }

  lemma AssignRolesRanks(d: Display)
    ensures Ranked(AssignRoles(d))
    ensures Disjoint(d.outs) ==> Disjoint(AssignRoles(d).outs)
  {
    var b := Best(d.outs, |d.outs|);
    assert d.outs[..|d.outs|] == d.outs;
    assert IsBest(d.outs, b);
  }

  /** Every step keeps live outputs disjoint, and keeps the ranking outside a pass that changed something. */
  lemma StepKeepsSettled(s: System, step: Step, n: nat)
    requires Settled(s) && Shaped(s) && Enabled(s, step, n)
    ensures Settled(Do(s, step, n))
  {
    match step
    case LoseStep(i) =>
    case AddStep(res, conn, a) =>
      AddKeepsDisjoint(s.d, res, conn, a, n);
      if !Configure(s.d, res, conn, a, n).1 && !s.events.changed {
        FailedAddKeepsRanked(s.d, res, conn, a, n);
      }
    case PassEndStep => AssignRolesRanks(s.d);
    case _ =>
      IdentityKept(s, step, n);
      SameIdentityKeepsSettled(s, Do(s, step, n));
  }

  // --- whole passes ---

  /** The kernel lists every connector once, and a probe reports the connector it was made on. */
  ghost predicate Listed(probes: seq<Probe>) {
    && (forall j, k :: 0 <= j < k < |probes| ==> probes[j].id != probes[k].id)
    && (forall j :: 0 <= j < |probes| && probes[j].found.Some? ==> probes[j].found.value.id == probes[j].id)
  }

  lemma {:induction false} LoseGoneResult(d: Display, connected: set<nat>, i: nat)
    requires i <= |d.outs|
    ensures var (d', lost) := LoseGone(d, connected, i);
            && (forall j :: 0 <= j < |d.outs| ==>
                  d'.outs[j] == if j >= i && d.outs[j].Live() && d.outs[j].connector !in connected
                                then NO_OUTPUT.(ctype := d.outs[j].ctype) else d.outs[j])
            && (lost <==> exists j :: i <= j < |d.outs| && d.outs[j].Live() && d.outs[j].connector !in connected)
            && d'.primarySlot == d.primarySlot
    decreases |d.outs| - i
  {
    if i < |d.outs| {
      if d.outs[i].Live() && d.outs[i].connector !in connected {
        LoseGoneResult(Teardown(d, i), connected, i + 1);
      } else {
        LoseGoneResult(d, connected, i + 1);
      }
    }
  }

  /** Every connector in use is one that was known or one probed before. */
  ghost predicate InUseIsKnown(d: Display, known: set<nat>, probes: seq<Probe>) {
    forall c :: c in Connectors(d.outs) && c !in known ==> forall k :: 0 <= k < |probes| ==> probes[k].id != c
  }

  lemma AddFoundStep(d: Display, known: set<nat>, res: Resources, probes: seq<Probe>, n: nat)
    requires probes != [] && Listed(probes) && InUseIsKnown(d, known, probes)
    requires probes[0].id !in known && probes[0].found.Some?
    ensures var conn := probes[0].found.value;
            && conn.id !in Connectors(d.outs)
            && InUseIsKnown(Configure(d, res, conn, probes[0].answers, n).0, known, probes[1..])
  {
    var conn := probes[0].found.value;
    var (d', added) := Configure(d, res, conn, probes[0].answers, n);
    ConfigureOccupies(d, res, conn, probes[0].answers, n);
    forall c | c in Connectors(d'.outs) && c !in known
      ensures forall k :: 0 <= k < |probes[1..]| ==> probes[1..][k].id != c
    {
      var o :| o in d'.outs && o.Live() && o.connector == c;
      var j :| 0 <= j < |d'.outs| && d'.outs[j] == o;
      if j != FreeSlot(d.outs) {
        assert d.outs[j] == o && c in Connectors(d.outs);
        assert forall k :: 0 <= k < |probes[1..]| ==> probes[1..][k].id == probes[k + 1].id;
      }
    }
  }

  /** Bringing outputs up keeps those that were live, and keeps all of them apart. */
  lemma {:induction false} AddFoundResult(d: Display, known: set<nat>, res: Resources, probes: seq<Probe>, n: nat)
    requires Disjoint(d.outs) && Listed(probes) && InUseIsKnown(d, known, probes)
    ensures var (d', added) := AddFound(d, known, res, probes, n);
            && Disjoint(d'.outs) && |d.outs| <= |d'.outs|
            && (forall i :: 0 <= i < |d.outs| && d.outs[i].Live() ==> d'.outs[i] == d.outs[i])
            && (!added && Ranked(d) ==> Ranked(d'))
    decreases |probes|
  {
    if probes != [] {
      var p := probes[0];
      assert Listed(probes[1..]);
      if p.id in known || !p.due || p.found.None? {
        assert InUseIsKnown(d, known, probes[1..]) by {
          assert forall k :: 0 <= k < |probes[1..]| ==> probes[1..][k].id == probes[k + 1].id;
        }
        AddFoundResult(d, known, res, probes[1..], n);
      } else {
        AddFoundStep(d, known, res, probes, n);
        AddKeepsDisjoint(d, res, p.found.value, p.answers, n);
        ConfigureOccupies(d, res, p.found.value, p.answers, n);
        var (d1, ok) := Configure(d, res, p.found.value, p.answers, n);
        if !ok && Ranked(d) { FailedAddKeepsRanked(d, res, p.found.value, p.answers, n); }
        AddFoundResult(d1, known, res, probes[1..], n);
      }
    }
  }

  // --- what a pass brings up ---

  /** The kernel can serve a connector on this CRTC and plane beside the outputs there are: they are free, the CRTC is the
      first one that the first encoder with any can use, and the plane the first primary one on it. */
  ghost predicate OnHardware(outs: seq<Output>, res: Resources, conn: Connector, c: nat, q: nat) {
    && IsChosen(res, conn.encoders, BusyCrtcs(outs), c)
    && q < |res.planes| && Suits(res.planes[q], c, BusyPlanes(outs))
    && forall j :: 0 <= j < q ==> !Suits(res.planes[j], c, BusyPlanes(outs))
  }

  /** There is such hardware, a blob for the mode, and a buffer for each place of the ring. */
  ghost predicate Served(outs: seq<Output>, res: Resources, conn: Connector, a: Answers, n: nat) {
    && (exists c: nat, q: nat :: OnHardware(outs, res, conn, c, q)) && a.blob
    && n <= |a.grants| && forall k :: 0 <= k < n ==> a.grants[k].Ready?
  }

  /** The output of a connector: a live slot of its type, on such hardware, with a ring of the buffers granted. */
  ghost predicate IsOutputOf(o: Output, outs: seq<Output>, res: Resources, conn: Connector, a: Answers, n: nat) {
    && o.Live() && o.connector == conn.id && o.ctype == conn.ctype
    && (exists c: nat, q: nat ::
          OnHardware(outs, res, conn, c, q) && o.crtc == res.crtcs[c] && o.plane == res.planes[q].value.id)
    && |o.ring| == n <= |a.grants|
    && forall k :: 0 <= k < n ==> a.grants[k].Ready? && o.ring[k] == RingBuf(a.grants[k].fd, a.grants[k].fb, Free)
  }

  lemma ChosenIsUnique(res: Resources, encoders: seq<Option<set<nat>>>, busy: set<nat>, a: nat, b: nat)
    requires IsChosen(res, encoders, busy, a) && IsChosen(res, encoders, busy, b)
    ensures a == b
  {
  }

  /** A connector gets an output exactly if it can be served. */
  lemma ConfigureServes(d: Display, res: Resources, conn: Connector, a: Answers, n: nat)
    ensures var (d', added) := Configure(d, res, conn, a, n);
            var slot := FreeSlot(d.outs);
            && slot < |d'.outs| && (added <==> Served(d.outs, res, conn, a, n))
            && (added ==> IsOutputOf(d'.outs[slot], d.outs, res, conn, a, n))
  {
    hide FreeSlot, IsChosen, BusyCrtcs, BusyPlanes;
    PickCrtcIsComplete(res, conn.encoders, BusyCrtcs(d.outs));
    var pick := PickCrtc(res, conn.encoders, BusyCrtcs(d.outs));
    if pick.None? {
      NothingChosen(res, conn.encoders, BusyCrtcs(d.outs));
    } else {
      var q := FirstPlane(res.planes, pick.value, BusyPlanes(d.outs));
      if q < |res.planes| {
        assert OnHardware(d.outs, res, conn, pick.value, q);
      } else if c: nat, p: nat :| OnHardware(d.outs, res, conn, c, p) {
        ChosenIsUnique(res, conn.encoders, BusyCrtcs(d.outs), c, pick.value);
      }
    }
  }

  lemma NothingChosen(res: Resources, encoders: seq<Option<set<nat>>>, busy: set<nat>)
    requires forall e, j :: !CanUse(res, encoders, busy, e, j)
    ensures forall j :: !IsChosen(res, encoders, busy, j)
  {
  }

  /** The outputs when the pass comes to probe `k`. */
  ghost function OutsAt(d: Display, known: set<nat>, res: Resources, probes: seq<Probe>, n: nat, k: nat): seq<Output>
    requires k <= |probes|
  {
    AddFound(d, known, res, probes[..k], n).0.outs
  }

  /** Probe `k` is due, finds a monitor on a connector that is not in use, and the kernel can serve it. */
  ghost predicate BringsUp(d: Display, known: set<nat>, res: Resources, probes: seq<Probe>, n: nat, k: nat) {
    && k < |probes| && probes[k].due && probes[k].found.Some? && probes[k].id !in known
    && Served(OutsAt(d, known, res, probes, n, k), res, probes[k].found.value, probes[k].answers, n)
  }

  /** An output that probe `k` brings up. */
  ghost predicate Came(o: Output, d: Display, known: set<nat>, res: Resources, probes: seq<Probe>, n: nat, k: nat) {
    && BringsUp(d, known, res, probes, n, k)
    && IsOutputOf(o, OutsAt(d, known, res, probes, n, k), res, probes[k].found.value, probes[k].answers, n)
  }

  /** The state after the first probe. */
  ghost function AfterFirst(d: Display, known: set<nat>, res: Resources, probes: seq<Probe>, n: nat): Display
    requires probes != []
  {
    AddFound(d, known, res, probes[..1], n).0
  }

  lemma OneProbe(d: Display, known: set<nat>, res: Resources, probes: seq<Probe>, n: nat)
    requires probes != []
    ensures var p := probes[0];
            AfterFirst(d, known, res, probes, n)
            == if p.id in known || !p.due || p.found.None? then d else Configure(d, res, p.found.value, p.answers, n).0
  {
    hide Configure;
    var p := probes[0];
    assert probes[..1][1..] == [];
    NoProbes(d, known, res, n);
    if p.found.Some? { NoProbes(Configure(d, res, p.found.value, p.answers, n).0, known, res, n); }
  }

  lemma NoProbes(d: Display, known: set<nat>, res: Resources, n: nat)
    ensures AddFound(d, known, res, [], n) == (d, false)
  {
  }

  /** A later probe meets what the first one has left. */
  lemma LaterProbe(d: Display, known: set<nat>, res: Resources, probes: seq<Probe>, n: nat, k: nat, o: Output)
    requires 0 < k < |probes|
    ensures var d1 := AfterFirst(d, known, res, probes, n);
            && BringsUp(d, known, res, probes, n, k) == BringsUp(d1, known, res, probes[1..], n, k - 1)
            && Came(o, d, known, res, probes, n, k) == Came(o, d1, known, res, probes[1..], n, k - 1)
  {
    hide Configure, Served, IsOutputOf, AfterFirst;
    OneProbe(d, known, res, probes, n);
    assert probes[..k][1..] == probes[1..][..k - 1];
  }

  lemma AllProbes(d: Display, known: set<nat>, res: Resources, probes: seq<Probe>, n: nat)
    requires probes != []
    ensures AddFound(d, known, res, probes, n).0
            == AddFound(AfterFirst(d, known, res, probes, n), known, res, probes[1..], n).0
  {
    hide Configure, AfterFirst;
    OneProbe(d, known, res, probes, n);
  }

  /** The first probe brings up an output exactly if it can, and leaves everything else. */
  lemma FirstProbe(d: Display, known: set<nat>, res: Resources, probes: seq<Probe>, n: nat)
    requires probes != [] && Disjoint(d.outs) && Listed(probes) && InUseIsKnown(d, known, probes)
    ensures var d1, slot := AfterFirst(d, known, res, probes, n), FreeSlot(d.outs);
            && Disjoint(d1.outs) && Listed(probes[1..]) && InUseIsKnown(d1, known, probes[1..]) && |d.outs| <= |d1.outs|
            && (forall i :: 0 <= i < |d1.outs| && d1.outs[i].Live() ==>
                  (i < |d.outs| && d.outs[i] == d1.outs[i]) || (i == slot && Came(d1.outs[i], d, known, res, probes, n, 0)))
            && (BringsUp(d, known, res, probes, n, 0) ==>
                  slot < |d1.outs| && Came(d1.outs[slot], d, known, res, probes, n, 0))
  {
    hide Configure, Served, IsOutputOf, AfterFirst, FreeSlot;
    OneProbe(d, known, res, probes, n);
    assert probes[..0] == [];
    var p := probes[0];
    if p.id in known || !p.due || p.found.None? {
      assert InUseIsKnown(d, known, probes[1..]) by {
        assert forall k :: 0 <= k < |probes[1..]| ==> probes[1..][k].id == probes[k + 1].id;
      }
    } else {
      AddFoundStep(d, known, res, probes, n);
      AddKeepsDisjoint(d, res, p.found.value, p.answers, n);
      ConfigureOccupies(d, res, p.found.value, p.answers, n);
      ConfigureServes(d, res, p.found.value, p.answers, n);
    }
  }

  lemma {:induction false} BroughtUp(d: Display, known: set<nat>, res: Resources, probes: seq<Probe>, n: nat, k: nat)
    returns (i: nat)
    requires Disjoint(d.outs) && Listed(probes) && InUseIsKnown(d, known, probes) && BringsUp(d, known, res, probes, n, k)
    ensures var outs := AddFound(d, known, res, probes, n).0.outs; i < |outs| && Came(outs[i], d, known, res, probes, n, k)
    decreases k
  {
    hide Configure, BringsUp, Came, AfterFirst, Disjoint, Listed, InUseIsKnown, FreeSlot;
    HasProbe(d, known, res, probes, n, k);
    var d1 := AfterFirst(d, known, res, probes, n);
    FirstProbe(d, known, res, probes, n);
    AllProbes(d, known, res, probes, n);
    if k == 0 {
      i := FreeSlot(d.outs);
      CameIsLive(d1.outs[i], d, known, res, probes, n, 0);
      AddFoundResult(d1, known, res, probes[1..], n);
    } else {
      LaterProbe(d, known, res, probes, n, k, NO_OUTPUT);
      i := BroughtUp(d1, known, res, probes[1..], n, k - 1);
      LaterProbe(d, known, res, probes, n, k, AddFound(d, known, res, probes, n).0.outs[i]);
    }
  }

  lemma HasProbe(d: Display, known: set<nat>, res: Resources, probes: seq<Probe>, n: nat, k: nat)
    requires BringsUp(d, known, res, probes, n, k)
    ensures k < |probes|
  {
  }

  lemma CameIsLive(o: Output, d: Display, known: set<nat>, res: Resources, probes: seq<Probe>, n: nat, k: nat)
    requires Came(o, d, known, res, probes, n, k)
    ensures o.Live()
  {
  }

  /** Whatever is live afterwards was so before or has been brought up by one of the probes. */
  lemma {:induction false} CameFrom(d: Display, known: set<nat>, res: Resources, probes: seq<Probe>, n: nat, i: nat)
    returns (k: nat)
    requires Disjoint(d.outs) && Listed(probes) && InUseIsKnown(d, known, probes)
    requires i < |AddFound(d, known, res, probes, n).0.outs| && AddFound(d, known, res, probes, n).0.outs[i].Live()
    requires !d.Has(i)
    ensures Came(AddFound(d, known, res, probes, n).0.outs[i], d, known, res, probes, n, k)
    decreases |probes|
  {
    hide Configure, BringsUp, Came, AfterFirst, Disjoint, Listed, InUseIsKnown, FreeSlot;
    if probes != [] {
      var d1 := AfterFirst(d, known, res, probes, n);
      FirstProbe(d, known, res, probes, n);
      AllProbes(d, known, res, probes, n);
      var o := AddFound(d, known, res, probes, n).0.outs[i];
      if d1.Has(i) {
        AddFoundResult(d1, known, res, probes[1..], n);
        k := 0;
      } else {
        k := CameFrom(d1, known, res, probes[1..], n, i);
        HasCome(o, d1, known, res, probes[1..], n, k);
        LaterProbe(d, known, res, probes, n, k + 1, o);
        k := k + 1;
      }
    }
  }

  lemma HasCome(o: Output, d: Display, known: set<nat>, res: Resources, probes: seq<Probe>, n: nat, k: nat)
    requires Came(o, d, known, res, probes, n, k)
    ensures k < |probes|
  {
  }

  /** One hot-plug pass keeps live outputs apart and leaves exactly the best live slot primary; outputs
      whose monitor is still there keep their slot and everything else but the mark. */
  lemma PassSettles(d: Display, connected: set<nat>, res: Resources, probes: seq<Probe>, n: nat)
    requires Disjoint(d.outs) && Ranked(d) && Listed(probes)
    ensures var d' := HotplugPass(d, connected, res, probes, n);
            && Disjoint(d'.outs) && Ranked(d') && |d.outs| <= |d'.outs|
            && (forall i :: 0 <= i < |d.outs| && d.outs[i].Live() && d.outs[i].connector in connected ==>
                  d'.outs[i] == d.outs[i].(primary := d'.outs[i].primary))
  {
    LoseGoneResult(d, connected, 0);
    var (d1, lost) := LoseGone(d, connected, 0);
    assert Disjoint(d1.outs);
    assert !lost ==> d1.outs == d.outs;
    AddFoundResult(d1, Connectors(d1.outs), res, probes, n);
    AssignRolesRanks(AddFound(d1, Connectors(d1.outs), res, probes, n).0);
  }

  /** The live outputs whose monitor is still there, and what is known when the probes begin. */
  ghost function Kept(d: Display, connected: set<nat>): Display { LoseGone(d, connected, 0).0 }

  ghost predicate PassBrings(d: Display, connected: set<nat>, res: Resources, probes: seq<Probe>, n: nat, k: nat) {
    BringsUp(Kept(d, connected), Connectors(Kept(d, connected).outs), res, probes, n, k)
  }

  /** Up to the mark of the primary one, probe `k` brings up this output. */
  ghost predicate PassBrought(o: Output, d: Display, connected: set<nat>, res: Resources, probes: seq<Probe>, n: nat,
                              k: nat)
  {
    var d1 := Kept(d, connected);
    exists primary :: Came(o.(primary := primary), d1, Connectors(d1.outs), res, probes, n, k)
  }

  /** What a pass brings up: every connector that is listed, due, found, without an output and served by the kernel has a
      live output of its own id and type; and a live output there was not before is one of those. */
  lemma PassBringsUp(d: Display, connected: set<nat>, res: Resources, probes: seq<Probe>, n: nat)
    requires Disjoint(d.outs) && Listed(probes)
    ensures var outs := HotplugPass(d, connected, res, probes, n).outs;
            && (forall k: nat :: PassBrings(d, connected, res, probes, n, k) ==>
                  exists i :: 0 <= i < |outs| && PassBrought(outs[i], d, connected, res, probes, n, k))
            && (forall i :: 0 <= i < |outs| && outs[i].Live() ==>
                  (d.Has(i) && d.outs[i].connector in connected)
                  || exists k: nat :: PassBrought(outs[i], d, connected, res, probes, n, k))
  {
    hide Configure, BringsUp, Came;
    LoseGoneResult(d, connected, 0);
    var d1 := Kept(d, connected);
    assert Disjoint(d1.outs);
    var known := Connectors(d1.outs);
    var all, outs := AddFound(d1, known, res, probes, n).0.outs, HotplugPass(d, connected, res, probes, n).outs;
    assert |outs| == |all| && forall i :: 0 <= i < |outs| ==> all[i] == outs[i].(primary := all[i].primary);
    forall k: nat | PassBrings(d, connected, res, probes, n, k)
      ensures exists i :: 0 <= i < |outs| && PassBrought(outs[i], d, connected, res, probes, n, k)
    {
      var i := BroughtUp(d1, known, res, probes, n, k);
      assert PassBrought(outs[i], d, connected, res, probes, n, k);
    }
    forall i | 0 <= i < |outs| && outs[i].Live() && !d1.Has(i)
      ensures exists k: nat :: PassBrought(outs[i], d, connected, res, probes, n, k)
    {
      var k := CameFrom(d1, known, res, probes, n, i);
      assert PassBrought(outs[i], d, connected, res, probes, n, k);
    }
  }

  /** So a connector that is listed but not due, not found, in use or refused gets no new output. */
  lemma OthersStayDark(d: Display, connected: set<nat>, res: Resources, probes: seq<Probe>, n: nat, k: nat, i: nat)
    requires Disjoint(d.outs) && Listed(probes) && k < |probes| && !PassBrings(d, connected, res, probes, n, k)
    requires i < |HotplugPass(d, connected, res, probes, n).outs|
    ensures var o := HotplugPass(d, connected, res, probes, n).outs[i];
            o.Live() && o.connector == probes[k].id ==> d.Has(i) && d.outs[i].connector in connected
  {
    hide HotplugPass, Served, Kept;
    PassBringsUp(d, connected, res, probes, n);
  }

  /** What one pass is given: the connectors still in use, the kernel's resources and its probes. */
  datatype PassInput = PassInput(connected: set<nat>, res: Resources, probes: seq<Probe>)

  ghost function Passes(d: Display, inputs: seq<PassInput>, n: nat): Display
    decreases |inputs|
  {
    if inputs == [] then d
    else Passes(HotplugPass(d, inputs[0].connected, inputs[0].res, inputs[0].probes, n), inputs[1..], n)
  }

  /** Over every sequence of passes. */
  lemma {:induction false} PassesSettle(d: Display, inputs: seq<PassInput>, n: nat)
    requires Disjoint(d.outs) && Ranked(d) && forall p :: p in inputs ==> Listed(p.probes)
    ensures Disjoint(Passes(d, inputs, n).outs) && Ranked(Passes(d, inputs, n))
    decreases |inputs|
  {
    if inputs != [] {
      var p := inputs[0];
      PassSettles(d, p.connected, p.res, p.probes, n);
      PassesSettle(HotplugPass(d, p.connected, p.res, p.probes, n), inputs[1..], n);
    }
  }
}
