/** Who holds which buffer: conservation of buffers and of targets under hot-plug. */
module DisplayOwnership {
  import opened Prelude
  import opened DisplayModel
  import opened DisplaySystem
  import opened DisplaySafety

  ghost predicate RingFdsDistinct(outs: seq<Output>) {
    forall i, j, k, m | 0 <= i < |outs| && 0 <= j < |outs[i].ring| && 0 <= k < |outs| && 0 <= m < |outs[k].ring| ::
      outs[i].ring[j].fd == outs[k].ring[m].fd ==> i == k && j == m
  }

  ghost predicate ListFdsDistinct(bufs: seq<RingBuf>) {
    forall j, m :: 0 <= j < m < |bufs| ==> bufs[j].fd != bufs[m].fd
  }

  ghost function Fds(bufs: seq<RingBuf>): set<int> { set b | b in bufs :: b.fd }

  ghost predicate Apart(outs: seq<Output>, fds: set<int>) {
    forall i, j :: 0 <= i < |outs| && 0 <= j < |outs[i].ring| ==> outs[i].ring[j].fd !in fds
  }

  /** The descriptors of held targets whose configuration is over. */
  ghost function StaleFds(d: Display, held: set<Target>): set<int> { set t | t in held && d.Gone(t) :: t.fd }

  /** A held target of the present configuration names a buffer in Drawing. */
  ghost predicate Placed(d: Display, t: Target) {
    && 0 <= t.screen < |d.outs| && 1 <= t.generation <= d.generations
    && (!d.Gone(t) ==>
          && 0 <= t.index < |d.outs[t.screen].ring|
          && d.outs[t.screen].ring[t.index].slot == Drawing
          && d.outs[t.screen].ring[t.index].fd == t.fd)
  }

  ghost predicate DrawingHeld(d: Display, held: set<Target>) {
    forall i, j :: 0 <= i < |d.outs| && 0 <= j < |d.outs[i].ring| && d.outs[i].ring[j].slot == Drawing ==>
      Target(i, j, d.outs[i].generation, d.outs[i].ring[j].fd) in held
  }

  /** Open descriptors are distinct, and `liveBufs` counts every buffer that has not been freed. */
  ghost predicate Separate(d: Display) {
    && RingFdsDistinct(d.outs) && ListFdsDistinct(d.retired) && Apart(d.outs, Fds(d.retired))
    && (forall i :: 0 <= i < |d.outs| ==> d.outs[i].generation <= d.generations)
    && d.liveBufs == TotalRing(d.outs) + |d.retired|
  }

  /** The held targets are exactly those of the Drawing buffers and of the retired ones. */
  ghost predicate Accounted(d: Display, held: set<Target>) {
    && (forall t :: t in held ==> Placed(d, t))
    && (forall t, u :: t in held && u in held && t.fd == u.fd ==> t == u)
    && DrawingHeld(d, held)
    && Fds(d.retired) == StaleFds(d, held)
  }

  ghost predicate Owned(d: Display, held: set<Target>) { Separate(d) && Accounted(d, held) }

  // --- sums ---

  lemma {:induction false} TotalRingUpdate(outs: seq<Output>, i: int, o: Output)
    requires 0 <= i < |outs|
    ensures TotalRing(outs[i := o]) == TotalRing(outs) - |outs[i].ring| + |o.ring|
  {
    var last := |outs| - 1;
    if i == last {
      assert outs[i := o][..last] == outs[..last];
    } else {
      assert outs[i := o][..last] == outs[..last][i := o];
      TotalRingUpdate(outs[..last], i, o);
    }
  }

  lemma {:induction false} TotalRingSame(outs: seq<Output>, outs': seq<Output>)
    requires |outs| == |outs'| && forall i :: 0 <= i < |outs| ==> |outs[i].ring| == |outs'[i].ring|
    ensures TotalRing(outs) == TotalRing(outs')
  {
    if outs != [] {
      TotalRingSame(outs[..|outs| - 1], outs'[..|outs'| - 1]);
    }
  }

  // --- the retired list ---

  lemma FdsSplit(a: seq<RingBuf>, b: seq<RingBuf>)
    ensures Fds(a + b) == Fds(a) + Fds(b)
  {
    forall f ensures f in Fds(a + b) <==> f in Fds(a) || f in Fds(b) {
      if f in Fds(a) { var x :| x in a && x.fd == f; assert x in a + b; }
      if f in Fds(b) { var x :| x in b && x.fd == f; assert x in a + b; }
    }
  }

  lemma DistinctJoin(a: seq<RingBuf>, b: seq<RingBuf>)
    requires ListFdsDistinct(a) && ListFdsDistinct(b) && Fds(a) !! Fds(b)
    ensures ListFdsDistinct(a + b)
  {
    forall j, m | 0 <= j < m < |a + b| ensures (a + b)[j].fd != (a + b)[m].fd {
      assert (a + b)[j].fd in (if j < |a| then Fds(a) else Fds(b));
      assert (a + b)[m].fd in (if m < |a| then Fds(a) else Fds(b));
      if j >= |a| {
        assert (a + b)[j] == b[j - |a|] && (a + b)[m] == b[m - |a|];
      }
    }
  }

  lemma {:induction false} ReleasedTakesOne(bufs: seq<RingBuf>, fd: int)
    requires ListFdsDistinct(bufs)
    ensures |Released(bufs, fd)| == |bufs| - (if fd in Fds(bufs) then 1 else 0)
    ensures Fds(Released(bufs, fd)) == Fds(bufs) - {fd}
    ensures ListFdsDistinct(Released(bufs, fd))
  {
    if bufs != [] {
      var rest := bufs[1..];
      assert bufs == [bufs[0]] + rest;
      FdsSplit([bufs[0]], rest);
      assert Fds([bufs[0]]) == {bufs[0].fd};
      assert bufs[0].fd !in Fds(rest);
      ReleasedTakesOne(rest, fd);
      FdsSplit([bufs[0]], Released(rest, fd));
      if bufs[0].fd != fd {
        DistinctJoin([bufs[0]], Released(rest, fd));
      }
    }
  }

  ghost function DrawingFds(ring: seq<RingBuf>): set<int> {
    set j | 0 <= j < |ring| && ring[j].slot == Drawing :: ring[j].fd
  }

  /** The Drawing buffers of a ring keep their distinct descriptors. */
  lemma {:induction false} DrawnFds(ring: seq<RingBuf>)
    requires ListFdsDistinct(ring)
    ensures ListFdsDistinct(Drawn(ring))
    ensures Fds(Drawn(ring)) == DrawingFds(ring)
  {
    forall f ensures f in Fds(Drawn(ring)) <==> f in DrawingFds(ring) {
      if f in Fds(Drawn(ring)) {
        var b :| b in Drawn(ring) && b.fd == f;
        var j :| 0 <= j < |ring| && ring[j] == b;
      }
    }
    if ring != [] {
      var head := if ring[0].slot == Drawing then [ring[0]] else [];
      DrawnFds(ring[1..]);
      assert forall f :: f in Fds(head) ==> f == ring[0].fd;
      assert forall f :: f in DrawingFds(ring[1..]) ==> f != ring[0].fd;
      DistinctJoin(head, Drawn(ring[1..]));
    }
  }

  // --- steps ---

  /** The outputs keep their configurations and their rings; slot states may change. */
  ghost predicate SameRings(outs: seq<Output>, outs': seq<Output>) {
    && |outs| == |outs'|
    && forall i :: 0 <= i < |outs| ==>
         && outs'[i].generation == outs[i].generation && |outs'[i].ring| == |outs[i].ring|
         && forall j :: 0 <= j < |outs[i].ring| ==> outs'[i].ring[j].fd == outs[i].ring[j].fd
  }

  /** The same configuration with the same ring, and Drawing where it was. */
  ghost predicate SameOut(o: Output, o': Output) {
    && o'.generation == o.generation && |o'.ring| == |o.ring|
    && forall j :: 0 <= j < |o.ring| ==>
         && o'.ring[j].fd == o.ring[j].fd
         && (o'.ring[j].slot == Drawing <==> o.ring[j].slot == Drawing)
  }

  lemma SameRingsKeepSeparate(d: Display, d': Display)
    requires Separate(d) && SameRings(d.outs, d'.outs)
    requires d'.retired == d.retired && d'.liveBufs == d.liveBufs && d'.generations == d.generations
    ensures Separate(d')
    ensures forall t :: d'.Gone(t) <==> d.Gone(t)
  {
    TotalRingSame(d.outs, d'.outs);
  }

  lemma SameDrawingKeepsOwned(d: Display, d': Display, held: set<Target>)
    requires Owned(d, held) && |d'.outs| == |d.outs|
    requires forall i :: 0 <= i < |d.outs| ==> SameOut(d.outs[i], d'.outs[i])
    requires d'.retired == d.retired && d'.liveBufs == d.liveBufs && d'.generations == d.generations
    ensures Owned(d', held)
  {
    SameRingsKeepSeparate(d, d');
    assert forall t :: t in held ==> Placed(d, t) && Placed(d', t);
    assert StaleFds(d', held) == StaleFds(d, held);
  }

  lemma AcquireKeepsOwned(d: Display, held: set<Target>, screen: int)
    requires Owned(d, held) && Acquire(d, screen).1.Some?
    ensures Owned(Acquire(d, screen).0, held + {Acquire(d, screen).1.value})
    ensures Acquire(d, screen).1.value !in held
  {
    hide TotalRing;
    var (d', t) := Acquire(d, screen);
    SameRingsKeepSeparate(d, d');
    forall u | u in held ensures Placed(d', u) && u.fd != t.value.fd {
      assert Placed(d, u);
      if d.Gone(u) { assert u.fd in StaleFds(d, held); }
    }
    assert StaleFds(d', held + {t.value}) == StaleFds(d, held);
  }

  lemma PendDrawing(o: Output, index: int)
    requires o.Agree() && 0 <= index < |o.ring| && o.ring[index].slot == Drawing
    ensures var o' := Pend(o, index);
            && o'.generation == o.generation && |o'.ring| == |o.ring|
            && forall j :: 0 <= j < |o.ring| ==>
                 && o'.ring[j].fd == o.ring[j].fd
                 && (o'.ring[j].slot == Drawing <==> o.ring[j].slot == Drawing && j != index)
  {
  }

  /** A buffer leaves Drawing together with its target. */
  lemma LeaveDrawing(d: Display, o': Output, held: set<Target>, t: Target)
    requires Owned(d, held) && t in held && !d.Gone(t)
    requires var o := d.outs[t.screen];
             && o'.generation == o.generation && |o'.ring| == |o.ring|
             && forall j :: 0 <= j < |o.ring| ==>
                  && o'.ring[j].fd == o.ring[j].fd
                  && (o'.ring[j].slot == Drawing <==> o.ring[j].slot == Drawing && j != t.index)
    ensures Owned(d.With(t.screen, o'), held - {t})
  {
    var d' := d.With(t.screen, o');
    assert Placed(d, t);
    SameRingsKeepSeparate(d, d');
    forall u | u in held - {t} ensures Placed(d', u) { assert Placed(d, u) && u.fd != t.fd; }
    assert StaleFds(d', held - {t}) == StaleFds(d, held);
  }

  /** Returning a current target takes its buffer out of Drawing. */
  lemma PendKeepsOwned(d: Display, held: set<Target>, t: Target)
    requires Owned(d, held) && t in held && !d.Gone(t) && d.outs[t.screen].Agree()
    ensures Queue(d, t).1 && Owned(Queue(d, t).0, held - {t})
  {
    assert Placed(d, t);
    PendDrawing(d.outs[t.screen], t.index);
    LeaveDrawing(d, Pend(d.outs[t.screen], t.index), held, t);
  }

  /** Returning a stale target frees exactly its own retired buffer and enters no ring. */
  lemma StaleKeepsOwned(d: Display, held: set<Target>, t: Target)
    requires Owned(d, held) && t in held && d.Gone(t)
    ensures var d' := Queue(d, t).0;
            && !Queue(d, t).1 && Owned(d', held - {t}) && d'.outs == d.outs
            && Fds(d'.retired) == Fds(d.retired) - {t.fd} && d'.liveBufs == d.liveBufs - 1
  {
    assert Placed(d, t) && t.fd in StaleFds(d, held);
    var d' := Queue(d, t).0;
    ReleasedTakesOne(d.retired, t.fd);
    assert forall u :: u in held ==> Placed(d, u) && Placed(d', u) && (d'.Gone(u) <==> d.Gone(u));
    assert StaleFds(d', held - {t}) == StaleFds(d, held) - {t.fd};
  }

  /** The retired buffers after a teardown: those there were and those the renderer is drawing into. */
  lemma TeardownFds(d: Display, i: int)
    requires Separate(d) && 0 <= i < |d.outs|
    ensures var d' := Teardown(d, i);
            && ListFdsDistinct(d'.retired)
            && Fds(d'.retired) == Fds(d.retired) + DrawingFds(d.outs[i].ring)
            && Separate(d')
  {
    var d' := Teardown(d, i);
    var ring := d.outs[i].ring;
    assert ListFdsDistinct(ring);
    DrawnFds(ring);
    FdsSplit(d.retired, Drawn(ring));
    assert Fds(d.retired) !! DrawingFds(ring);
    DistinctJoin(d.retired, Drawn(ring));
    TotalRingUpdate(d.outs, i, d'.outs[i]);
    assert Apart(d'.outs, DrawingFds(ring));
  }

  /** Teardown frees no buffer the renderer draws into: those become retired and stay with their targets. */
  lemma TeardownKeepsOwned(d: Display, held: set<Target>, i: int)
    requires Owned(d, held) && d.Has(i)
    ensures Owned(Teardown(d, i), held)
  {
    var d' := Teardown(d, i);
    TeardownFds(d, i);
    forall t | t in held ensures Placed(d', t) { assert Placed(d, t); }
    forall f ensures f in Fds(d'.retired) <==> f in StaleFds(d', held) {
      if f in StaleFds(d', held) {
        var t :| t in held && d'.Gone(t) && t.fd == f;
        assert Placed(d, t);
        assert d.Gone(t) ==> f in StaleFds(d, held);
      }
      if f in StaleFds(d, held) {
        var t :| t in held && d.Gone(t) && t.fd == f;
        assert Placed(d, t) && d'.Gone(t);
      }
      if f in DrawingFds(d.outs[i].ring) {
        var j :| 0 <= j < |d.outs[i].ring| && d.outs[i].ring[j].slot == Drawing && d.outs[i].ring[j].fd == f;
        assert d'.Gone(Target(i, j, d.outs[i].generation, f));
      }
    }
  }

  /** A new slot comes at the end and has no buffers. */
  lemma OpenedOuts(d: Display)
    ensures d.outs <= Opened(d).outs && |Opened(d).outs| <= |d.outs| + 1
    ensures forall i :: |d.outs| <= i < |Opened(d).outs| ==> Opened(d).outs[i] == NO_OUTPUT
    ensures Opened(d) == d.(outs := Opened(d).outs)
  {
  }

  /** Every buffer is in a slot that was there before. */
  lemma OldPosition(d: Display, i: int, j: int)
    requires 0 <= i < |Opened(d).outs| && 0 <= j < |Opened(d).outs[i].ring|
    ensures i < |d.outs| && Opened(d).outs[i] == d.outs[i]
  {
    hide Opened;
    OpenedOuts(d);
  }

  lemma OpenedDistinct(d: Display)
    requires RingFdsDistinct(d.outs)
    ensures RingFdsDistinct(Opened(d).outs)
  {
    hide Opened;
    var outs := Opened(d).outs;
    forall i, j, k, m | 0 <= i < |outs| && 0 <= j < |outs[i].ring| && 0 <= k < |outs| && 0 <= m < |outs[k].ring|
      ensures outs[i].ring[j].fd == outs[k].ring[m].fd ==> i == k && j == m
    {
      OldPosition(d, i, j);
      OldPosition(d, k, m);
    }
  }

  lemma OpenedApart(d: Display, fds: set<int>)
    requires Apart(d.outs, fds)
    ensures Apart(Opened(d).outs, fds)
  {
    hide Opened;
    var outs := Opened(d).outs;
    forall i, j | 0 <= i < |outs| && 0 <= j < |outs[i].ring| ensures outs[i].ring[j].fd !in fds { OldPosition(d, i, j); }
  }

  lemma OpenedTotal(d: Display)
    ensures TotalRing(Opened(d).outs) == TotalRing(d.outs)
  {
    hide Opened;
    OpenedOuts(d);
    var outs := Opened(d).outs;
    if |outs| == |d.outs| { assert outs == d.outs; } else { assert outs[..|outs| - 1] == d.outs; }
  }

  lemma OpenedKeepsSeparate(d: Display)
    requires Separate(d)
    ensures Separate(Opened(d))
  {
    hide Opened, RingFdsDistinct, Apart, ListFdsDistinct, Fds, TotalRing;
    OpenedOuts(d);
    OpenedDistinct(d);
    OpenedApart(d, Fds(d.retired));
    OpenedTotal(d);
  }

  lemma OpenedKeepsPlaced(d: Display, t: Target)
    requires Placed(d, t)
    ensures Placed(Opened(d), t) && (Opened(d).Gone(t) <==> d.Gone(t))
  {
  }

  lemma OpenedKeepsDrawing(d: Display, held: set<Target>)
    requires DrawingHeld(d, held)
    ensures DrawingHeld(Opened(d), held) && Opened(d).retired == d.retired
  {
  }

  lemma OpenedKeepsOwned(d: Display, held: set<Target>)
    requires Owned(d, held)
    ensures Owned(Opened(d), held)
    ensures forall t :: t in held ==> (Opened(d).Gone(t) <==> d.Gone(t))
  {
    hide Separate, Placed, DrawingHeld, Opened, Fds;
    OpenedKeepsSeparate(d);
    OpenedKeepsDrawing(d, held);
    forall t | t in held ensures Placed(Opened(d), t) && (Opened(d).Gone(t) <==> d.Gone(t)) { OpenedKeepsPlaced(d, t); }
    assert StaleFds(Opened(d), held) == StaleFds(d, held);
  }

  /** A configured slot gets fresh buffers and a generation no held target can have. */
  lemma BroughtKeepsOwned(d: Display, d': Display, held: set<Target>, slot: int, added: bool, n: nat)
    requires Owned(d, held) && Brought(d, d', slot, added, n) && !d.outs[slot].Live() && d.outs[slot].ring == []
    requires added ==> forall k :: 0 <= k < n ==> !OpenFd(d, d'.outs[slot].ring[k].fd)
    requires added ==> ListFdsDistinct(d'.outs[slot].ring)
    ensures Owned(d', held)
  {
    TotalRingUpdate(d.outs, slot, d'.outs[slot]);
    assert d'.outs == d.outs[slot := d'.outs[slot]];
    forall f | f in Fds(d.retired) ensures OpenFd(d, f) {
      var b :| b in d.retired && b.fd == f;
      var k :| 0 <= k < |d.retired| && d.retired[k] == b;
    }
    assert forall i, j :: 0 <= i < |d.outs| && 0 <= j < |d.outs[i].ring| ==> OpenFd(d, d.outs[i].ring[j].fd);
    assert Separate(d');
    assert forall t :: t in held ==> Placed(d, t) && Placed(d', t) && (d'.Gone(t) <==> d.Gone(t));
    assert StaleFds(d', held) == StaleFds(d, held);
  }

  lemma FreshRing(d: Display, res: Resources, conn: Connector, a: Answers, n: nat)
    requires Fresh(d, a.grants, n) && Configure(d, res, conn, a, n).1
    ensures var ring := Configure(d, res, conn, a, n).0.outs[FreeSlot(d.outs)].ring;
            && |ring| == n && ListFdsDistinct(ring)
            && forall k :: 0 <= k < n ==> !OpenFd(Opened(d), ring[k].fd)
  {
    var ring := NewRing(a.grants, n);
    assert Configure(d, res, conn, a, n).0.outs[FreeSlot(d.outs)].ring == ring;
    forall k | 0 <= k < n ensures !OpenFd(Opened(d), ring[k].fd) {
      assert !OpenFd(d, a.grants[k].fd);
    }
  }

  lemma AddKeepsOwned(d: Display, held: set<Target>, res: Resources, conn: Connector, a: Answers, n: nat)
    requires Owned(d, held) && DeadEmpty(d) && Fresh(d, a.grants, n)
    ensures Owned(Configure(d, res, conn, a, n).0, held)
  {
    var (d', added) := Configure(d, res, conn, a, n);
    ConfigureBrings(d, res, conn, a, n);
    OpenedKeepsOwned(d, held);
    if added { FreshRing(d, res, conn, a, n); }
    BroughtKeepsOwned(Opened(d), d', held, FreeSlot(d.outs), added, n);
  }

  lemma MarkPassesOn(o: Output, j: int, to: Slot)
    requires 0 <= j < |o.ring| ==> o.ring[j].slot != Drawing
    requires to != Drawing
    ensures SameOut(o, o.Mark(j, to))
  {
  }

  /** The sections that only pass a buffer on from Pending to the screen and back. */
  lemma BeginPassesOn(o: Output)
    requires o.Agree()
    ensures SameOut(o, BeginCommit(o).0)
  {
    MarkPassesOn(o, o.idxPending, InFlight);
  }

  lemma FailPassesOn(o: Output, idx: int)
    requires 0 <= idx < |o.ring| ==> o.ring[idx].slot != Drawing
    ensures SameOut(o, FailCommit(o, idx))
  {
    MarkPassesOn(o, idx, Free);
  }

  lemma FlipPassesOn(o: Output)
    requires o.Agree()
    ensures SameOut(o, Flip(o))
  {
    MarkPassesOn(o, o.idxCurrent, Free);
    MarkPassesOn(if o.idxCurrent >= 0 then o.Mark(o.idxCurrent, Free) else o, o.idxInFlight, Current);
  }

  /** One output has changed and Drawing is where it was. */
  lemma OneSameKeepsOwned(d: Display, i: int, o': Output, held: set<Target>)
    requires Owned(d, held) && 0 <= i < |d.outs| && SameOut(d.outs[i], o')
    ensures Owned(d.With(i, o'), held)
  {
    SameDrawingKeepsOwned(d, d.With(i, o'), held);
  }

  /** The sections of `try_commit` and the flip handler move no buffer in or out of Drawing. */
  lemma BeginKeepsOwned(s: System, th: Thread)
    requires AllLocal(s) && Owned(s.d, s.held) && s.Thread(th).Push?
    ensures Owned(Beginning(s, th).d, s.held)
  {
    hide Owned, SameOut, Local;
    var i := s.Thread(th).screen;
    AgreeOf(s, i);
    BeginPassesOn(s.d.outs[i]);
    OneSameKeepsOwned(s.d, i, BeginCommit(s.d.outs[i]).0, s.held);
  }

  lemma EndKeepsOwned(s: System, th: Thread)
    requires AllLocal(s) && Owned(s.d, s.held) && s.Thread(th).Answered?
    ensures Owned(Ending(s, th).d, s.held)
  {
    hide Owned, SameOut, Local, FailCommit;
    var i := s.Thread(th).screen;
    var o := s.d.outs[i];
    if s.Thread(th).ok {
      DonePassesOn(o);
      OneSameKeepsOwned(s.d, i, DoneCommit(o), s.held);
    } else {
      RefusedIsNotDrawing(o, s.hw[i], s.log[i], s.renderer.On(i), s.events.On(i));
      FailPassesOn(o, s.Thread(th).idx);
      OneSameKeepsOwned(s.d, i, FailCommit(o, s.Thread(th).idx), s.held);
    }
  }

  lemma DonePassesOn(o: Output)
    ensures SameOut(o, DoneCommit(o))
  {
  }

  lemma RefusedIsNotDrawing(o: Output, hw: Hardware, h: History, r: Pc, e: Pc)
    requires Local(o, hw, h, r, e)
    ensures r.Answered? && !r.ok && 0 <= r.idx < |o.ring| ==> o.ring[r.idx].slot != Drawing
    ensures e.Answered? && !e.ok && 0 <= e.idx < |o.ring| ==> o.ring[e.idx].slot != Drawing
  {
    hide Counted, Moving;
  }

  lemma AgreeOf(s: System, i: int)
    requires AllLocal(s) && 0 <= i < |s.d.outs|
    ensures s.d.outs[i].Agree()
  {
    assert Local(s.d.outs[i], s.hw[i], s.log[i], s.renderer.On(i), s.events.On(i));
  }

  lemma FlipKeepsOwned(s: System, i: int)
    requires AllLocal(s) && Owned(s.d, s.held) && 0 <= i < |s.d.outs|
    ensures Owned(s.d.With(i, Flip(s.d.outs[i])), s.held)
  {
    hide Owned, SameOut, AllLocal, Flip;
    AgreeOf(s, i);
    FlipPassesOn(s.d.outs[i]);
    OneSameKeepsOwned(s.d, i, Flip(s.d.outs[i]), s.held);
  }

  lemma PresentStepKeepsOwned(s: System, t: Target)
    requires AllLocal(s) && Owned(s.d, s.held) && t in s.held
    ensures Owned(Presenting(s, t).d, Presenting(s, t).held)
  {
    if s.d.Gone(t) {
      StaleKeepsOwned(s.d, s.held, t);
    } else {
      assert Placed(s.d, t);
      var i := t.screen;
      AgreeOf(s, i);
      PendKeepsOwned(s.d, s.held, t);
    }
  }

  lemma AcquireStepKeepsOwned(s: System, screen: int)
    requires Owned(s.d, s.held)
    ensures Owned(Acquiring(s, screen).d, Acquiring(s, screen).held)
  {
    if Acquire(s.d, screen).1.Some? { AcquireKeepsOwned(s.d, s.held, screen); }
  }

  lemma RolesKeepOwned(s: System)
    requires Owned(s.d, s.held) && s.events.InPass?
    ensures Owned(EndingPass(s).d, s.held)
  {
    if s.events.changed { SameDrawingKeepsOwned(s.d, AssignRoles(s.d), s.held); }
  }

  lemma AddStepKeepsOwned(s: System, res: Resources, conn: Connector, a: Answers, n: nat)
    requires AllLocal(s) && Owned(s.d, s.held) && Fresh(s.d, a.grants, n) && s.events.InPass?
    ensures Owned(Adding(s, res, conn, a, n).d, s.held)
  {
    LocalDeadEmpty(s);
    AddKeepsOwned(s.d, s.held, res, conn, a, n);
  }

  /** Every step keeps the account of the buffers. */
  lemma StepKeepsOwned(s: System, step: Step, n: nat)
    requires AllLocal(s) && Shaped(s) && Enabled(s, step, n) && Owned(s.d, s.held)
    ensures Owned(Do(s, step, n).d, Do(s, step, n).held)
  {
    hide Owned, Local, Fresh, Acquire, Queue, Configure, Teardown, BeginCommit, FailCommit, Flip, AssignRoles;
    match step
    case AcquireStep(screen) => AcquireStepKeepsOwned(s, screen);
    case PresentStep(t) => PresentStepKeepsOwned(s, t);
    case BeginStep(th) => BeginKeepsOwned(s, th);
    case EndStep(th) => EndKeepsOwned(s, th);
    case FlipStep(i) => FlipKeepsOwned(s, i);
    case StaleFlipStep(i) => FlipKeepsOwned(s, i);
    case LoseStep(i) => TeardownKeepsOwned(s.d, s.held, i);
    case AddStep(res, conn, a) => AddStepKeepsOwned(s, res, conn, a, n);
    case PassEndStep => RolesKeepOwned(s);
    case _ =>
  }
}
