/** The telemetry log (osd/telemetry_log.cpp) and its reader (osd/telemetry_reader.cpp). */
module TelemetryFormat {
  import opened Prelude

  /** The `n` low bytes of a number, the lowest first, and back. */
  function Put(v: nat, n: nat): (s: seq<byte>)
    ensures |s| == n
  {
    if n == 0 then [] else [(v % 256) as byte] + Put(v / 256, n - 1)
  }

  function Get(s: seq<byte>): nat { if s == [] then 0 else s[0] as nat + 256 * Get(s[1..]) }

  predicate Fits(v: nat, n: nat) { if n == 0 then v == 0 else Fits(v / 256, n - 1) }

  /** What fits comes back. */
  lemma {:induction false} GetPut(v: nat, n: nat)
    requires Fits(v, n)
    ensures Get(Put(v, n)) == v
  {
    if n > 0 {
      GetPut(v / 256, n - 1);
      assert Put(v, n)[1..] == Put(v / 256, n - 1);
    }
  }

  const TWO_TO_63: int := 0x8000_0000_0000_0000

  function Limit(n: nat): nat { if n == 0 then 1 else 256 * Limit(n - 1) }

  lemma {:induction false} FitsBelow(v: nat, n: nat)
    requires v < Limit(n)
    ensures Fits(v, n)
  {
    if n > 0 { FitsBelow(v / 256, n - 1); }
  }

  lemma FitsMeans(v: nat)
    ensures v < 0x1_0000 ==> Fits(v, 2)
    ensures v < 0x1_0000_0000 ==> Fits(v, 4)
    ensures v < 2 * TWO_TO_63 ==> Fits(v, 8)
  {
    assert Limit(2) == 0x1_0000;
    assert Limit(4) == 0x1_0000_0000;
    assert Limit(6) == 0x1_0000_0000_0000;
    assert Limit(8) == 2 * TWO_TO_63;
    if v < Limit(2) { FitsBelow(v, 2); }
    if v < Limit(4) { FitsBelow(v, 4); }
    if v < Limit(8) { FitsBelow(v, 8); }
  }

  /** Two's complement of 64 bits. */
  function ToUnsigned(v: int): nat
    requires -TWO_TO_63 <= v < TWO_TO_63
  {
    if v < 0 then v + 2 * TWO_TO_63 else v
  }

  function ToSigned(u: nat): int { if u < TWO_TO_63 then u else u - 2 * TWO_TO_63 }

  /** A float is its 32 bits. */
  const NAN: nat := 0x7fc0_0000

  predicate IsNaN(bits: nat) { bits / 0x80_0000 % 256 == 255 && bits % 0x80_0000 != 0 }

  /** By the order of the bits: beyond infinity, with either sign. The value for a missing channel is one of those. */
  lemma NaNsLieBeyondInfinity(bits: nat)
    requires bits < 0x1_0000_0000
    ensures IsNaN(bits) <==> 0x7f80_0000 < bits < 0x8000_0000 || 0xff80_0000 < bits
    ensures IsNaN(NAN)
  {
  }

  /** C division, toward zero. */
  function Div(a: int, b: int): int
    requires b > 0
  {
    if a >= 0 then a / b else -((-a) / b)
  }

  const SIGNATURE: seq<byte> := [86, 82, 88, 84]

  datatype Header = Header(channels: nat, epochUs: int, frameMs: nat, frameLen: nat, metaLen: nat)

  predicate Representable(h: Header) {
    && h.channels < 0x1_0000 && -TWO_TO_63 <= h.epochUs < TWO_TO_63 && h.frameMs < 0x1_0000
    && h.frameLen < 0x1_0000 && h.metaLen < 0x1_0000_0000
  }

  function HeaderBytes(h: Header): (s: seq<byte>)
    requires Representable(h)
    ensures |s| == 32
  {
    SIGNATURE + Put(1, 2) + Put(h.channels, 2) + Put(ToUnsigned(h.epochUs), 8) + Put(h.frameMs, 2) + Put(h.frameLen, 2)
    + Put(h.metaLen, 4) + Put(0, 8)
  }

  /** The fields of a header, for a file that has one. */
  function Parsed(file: seq<byte>): Option<Header> {
    if |file| < 32 || file[..4] != SIGNATURE then None
    else Some(Header(Get(file[6..8]), ToSigned(Get(file[8..16])), Get(file[16..18]), Get(file[18..20]), Get(file[20..24])))
  }

  lemma HeaderRoundTrip(h: Header, rest: seq<byte>)
    requires Representable(h)
    ensures Parsed(HeaderBytes(h) + rest) == Some(h)
  {
    hide Put, Get, Fits, ToUnsigned, ToSigned;
    var s := HeaderBytes(h) + rest;
    assert s[..4] == SIGNATURE;
    assert s[6..8] == Put(h.channels, 2);
    assert s[8..16] == Put(ToUnsigned(h.epochUs), 8);
    assert s[16..18] == Put(h.frameMs, 2);
    assert s[18..20] == Put(h.frameLen, 2);
    assert s[20..24] == Put(h.metaLen, 4);
    FieldsRoundTrip(h);
  }

  lemma FieldsRoundTrip(h: Header)
    requires Representable(h)
    ensures Get(Put(h.channels, 2)) == h.channels && Get(Put(h.frameMs, 2)) == h.frameMs
    ensures Get(Put(h.frameLen, 2)) == h.frameLen && Get(Put(h.metaLen, 4)) == h.metaLen
    ensures ToSigned(Get(Put(ToUnsigned(h.epochUs), 8))) == h.epochUs
  {
    hide Put, Get, Fits;
    FitsMeans(h.channels);
    FitsMeans(h.frameMs);
    FitsMeans(h.frameLen);
    FitsMeans(h.metaLen);
    FitsMeans(ToUnsigned(h.epochUs));
    GetPut(h.channels, 2);
    GetPut(h.frameMs, 2);
    GetPut(h.frameLen, 2);
    GetPut(h.metaLen, 4);
    GetPut(ToUnsigned(h.epochUs), 8);
  }

  // --- frames ---

  /** The pairs of the first `k` channels. */
  function Pairs(values: seq<nat>, k: nat): (s: seq<byte>)
    requires k <= |values|
    ensures |s| == 6 * k
  {
    if k == 0 then [] else Pairs(values, k - 1) + Put(k - 1, 2) + Put(values[k - 1], 4)
  }

  function FrameBytes(tMs: nat, values: seq<nat>): (s: seq<byte>)
    ensures |s| == 4 + 6 * |values|
  {
    Put(tMs, 4) + Pairs(values, |values|)
  }

  ghost predicate Values(values: seq<nat>) { forall i :: 0 <= i < |values| ==> values[i] < 0x1_0000_0000 }

  /** Pair `k` of a frame. */
  function PairId(frame: seq<byte>, k: nat): nat
    requires 4 + 6 * k + 6 <= |frame|
  {
    Get(frame[4 + 6 * k..4 + 6 * k + 2])
  }

  function PairValue(frame: seq<byte>, k: nat): nat
    requires 4 + 6 * k + 6 <= |frame|
  {
    Get(frame[4 + 6 * k + 2..4 + 6 * k + 6])
  }

  /** The storage after the first `k` pairs of a frame. */
  function Stored(storage: map<nat, nat>, frame: seq<byte>, k: nat): map<nat, nat>
    requires |frame| >= 4 + 6 * k
  {
    if k == 0 then storage
    else
      var s := Stored(storage, frame, k - 1);
      var v := PairValue(frame, k - 1);
      if IsNaN(v) then s else s[PairId(frame, k - 1) := v]
  }

  lemma {:induction false} PairsPrefix(values: seq<nat>, j: nat, k: nat)
    requires j <= k <= |values|
    ensures Pairs(values, k)[..6 * j] == Pairs(values, j)
  {
    if j < k {
      PairsPrefix(values, j, k - 1);
      assert Pairs(values, k)[..6 * j] == Pairs(values, k - 1)[..6 * j];
    }
  }

  lemma LastPair(values: seq<nat>, k: nat)
    requires k < |values|
    ensures Pairs(values, k + 1) == Pairs(values, k) + Put(k, 2) + Put(values[k], 4)
  {
  }

  /** Where a pair lies behind the time of the frame and the pairs before. */
  lemma Sliced(time: seq<byte>, pairs: seq<byte>, before: seq<byte>, id: seq<byte>, value: seq<byte>, k: nat)
    requires |time| == 4 && |before| == 6 * k && |id| == 2 && |value| == 4 && 6 * (k + 1) <= |pairs|
    requires pairs[..6 * (k + 1)] == before + id + value
    ensures (time + pairs)[4 + 6 * k..4 + 6 * k + 2] == id
    ensures (time + pairs)[4 + 6 * k + 2..4 + 6 * k + 6] == value
  {
    var p := before + id + value;
    assert (time + pairs)[4 + 6 * k..4 + 6 * k + 2] == pairs[6 * k..6 * k + 2] == p[6 * k..6 * k + 2];
    assert (time + pairs)[4 + 6 * k + 2..4 + 6 * k + 6] == pairs[6 * k + 2..6 * k + 6] == p[6 * k + 2..6 * k + 6];
  }

  /** A pair is read as it was written. */
  lemma PairRoundTrip(tMs: nat, values: seq<nat>, k: nat)
    requires Values(values) && k < |values| <= 0x1_0000
    ensures PairId(FrameBytes(tMs, values), k) == k && PairValue(FrameBytes(tMs, values), k) == values[k]
  {
    hide Put, Get, Fits, Pairs;
    var f := FrameBytes(tMs, values);
    PairsPrefix(values, k + 1, |values|);
    LastPair(values, k);
    Sliced(Put(tMs, 4), Pairs(values, |values|), Pairs(values, k), Put(k, 2), Put(values[k], 4), k);
    FitsMeans(k);
    FitsMeans(values[k]);
    GetPut(k, 2);
    GetPut(values[k], 4);
  }

  /** Reading a frame puts every channel that was there under its own id, and touches no other. */
  lemma {:induction false} FrameRoundTrip(storage: map<nat, nat>, tMs: nat, values: seq<nat>, k: nat)
    requires Values(values) && k <= |values| <= 0x1_0000
    ensures var s := Stored(storage, FrameBytes(tMs, values), k);
            forall id: nat :: if id < k && !IsNaN(values[id]) then id in s && s[id] == values[id]
                              else (id in s <==> id in storage) && (id in s ==> s[id] == storage[id])
  {
    hide FrameBytes, PairId, PairValue, IsNaN;
    if k > 0 {
      FrameRoundTrip(storage, tMs, values, k - 1);
      PairRoundTrip(tMs, values, k - 1);
    }
  }

  // --- the file ---

  /** One frame after the other, of `n` channels each. */
  function Frames(times: seq<nat>, frames: seq<seq<nat>>): (s: seq<byte>)
    requires |times| == |frames|
  {
    if frames == [] then []
    else Frames(times[..|times| - 1], frames[..|frames| - 1]) + FrameBytes(times[|times| - 1], frames[|frames| - 1])
  }

  ghost predicate Uniform(frames: seq<seq<nat>>, n: nat) {
    forall i :: 0 <= i < |frames| ==> |frames[i]| == n && Values(frames[i])
  }

  /** Where frame `i` starts when each takes `size` bytes. */
  function Offset(size: nat, i: nat): nat { size * i }

  lemma NextOffset(size: nat, i: nat)
    ensures Offset(size, 0) == 0 && Offset(size, i + 1) == Offset(size, i) + size
  {
  }

  lemma {:induction false} FramesLength(times: seq<nat>, frames: seq<seq<nat>>, n: nat)
    requires |times| == |frames| && Uniform(frames, n)
    ensures |Frames(times, frames)| == Offset(4 + 6 * n, |frames|)
  {
    hide Offset;
    if frames == [] {
      NextOffset(4 + 6 * n, 0);
    } else {
      NextOffset(4 + 6 * n, |frames| - 1);
      FramesLength(times[..|times| - 1], frames[..|frames| - 1], n);
    }
  }

  /** Frame `i` lies where it is looked for, whatever follows. */
  lemma {:induction false} FrameAt(times: seq<nat>, frames: seq<seq<nat>>, n: nat, i: nat)
    requires |times| == |frames| && Uniform(frames, n) && i < |frames|
    ensures var at := Offset(4 + 6 * n, i);
            at + 4 + 6 * n <= |Frames(times, frames)|
            && Frames(times, frames)[at..at + 4 + 6 * n] == FrameBytes(times[i], frames[i])
  {
    hide Offset, FrameBytes;
    var m := |frames| - 1;
    FramesLength(times[..m], frames[..m], n);
    if i < m {
      FrameAt(times[..m], frames[..m], n, i);
      var at := Offset(4 + 6 * n, i);
      assert Frames(times, frames)[at..at + 4 + 6 * n] == Frames(times[..m], frames[..m])[at..at + 4 + 6 * n];
    }
  }

  /** A log: its header, its description, whole frames, and part of one more. */
  ghost predicate IsLog(file: seq<byte>, h: Header, meta: seq<byte>, times: seq<nat>, frames: seq<seq<nat>>, tail: seq<byte>) {
    && Representable(h) && h.frameLen == 4 + 6 * h.channels && h.metaLen == |meta| && |times| == |frames|
    && Uniform(frames, h.channels) && |tail| < h.frameLen
    && file == HeaderBytes(h) + meta + Frames(times, frames) + tail
  }

  lemma NoFrames(h: Header, meta: seq<byte>)
    requires Representable(h) && h.frameLen == 4 + 6 * h.channels && h.metaLen == |meta|
    ensures IsLog(HeaderBytes(h) + meta, h, meta, [], [], [])
  {
    assert HeaderBytes(h) + meta + Frames([], []) + [] == HeaderBytes(h) + meta;
  }

  lemma OneMoreFrame(file: seq<byte>, h: Header, meta: seq<byte>, times: seq<nat>, frames: seq<seq<nat>>, t: nat,
                     values: seq<nat>)
    requires IsLog(file, h, meta, times, frames, []) && Values(values) && |values| == h.channels
    ensures IsLog(file + FrameBytes(t, values), h, meta, times + [t], frames + [values], [])
  {
    hide FrameBytes, HeaderBytes;
    assert (times + [t])[..|times|] == times && (frames + [values])[..|frames|] == frames;
    assert Frames(times + [t], frames + [values]) == Frames(times, frames) + FrameBytes(t, values);
    assert file + FrameBytes(t, values) == HeaderBytes(h) + meta + (Frames(times, frames) + FrameBytes(t, values)) + [];
  }

  /** A channel that is missing when a frame is written is not read back. */
  lemma MissingIsNaN(storage: map<nat, nat>, n: nat, id: nat)
    requires id < n && id !in storage
    ensures IsNaN(Sampled(storage, n)[id])
  {
    NaNsLieBeyondInfinity(NAN);
  }

  /** A frame's values: what the storage has, and NaN for a channel that is not there. */
  function Sampled(storage: map<nat, nat>, n: nat): (values: seq<nat>)
    ensures |values| == n
    ensures forall i :: 0 <= i < n ==> values[i] == if i in storage then storage[i] else NAN
  {
    seq(n, i => if i in storage then storage[i] else NAN)
  }
}

/** The writer. */
module TelemetryLog {
  import opened Prelude
  import opened TelemetryFormat

  const MAX_CHANNELS: nat := 10921

  class Log {
    const channels: nat
    const frameMs: nat
    var open: bool
    /** The bytes written to the file so far. */
    var file: seq<byte>
    var frame: array<byte>
    var epochUs: int
    ghost var meta: seq<byte>
    ghost var times: seq<nat>
    ghost var frames: seq<seq<nat>>

    constructor (channels: nat, frameMs: nat)
      requires channels <= MAX_CHANNELS && frameMs < 0x1_0000
      ensures Valid() && !open && this.channels == channels && this.frameMs == frameMs && fresh(frame)
    {
      this.channels, this.frameMs, open, file, epochUs := channels, frameMs, false, [], 0;
      frame := new byte[0];
      meta, times, frames := [], [], [];
    }

    ghost function Head(): Header
      reads this
    {
      Header(channels, epochUs, frameMs, 4 + 6 * channels, |meta|)
    }

    ghost predicate Valid()
      reads this
    {
      channels <= MAX_CHANNELS && frameMs < 0x1_0000
      && (open ==> frame.Length == 4 + 6 * channels && IsLog(file, Head(), meta, times, frames, []))
    }

    /** A new file: header and description, or no file. */
    method OpenFile(now: int, description: seq<byte>) returns (ok: bool)
      requires Valid() && -TWO_TO_63 <= now < TWO_TO_63 && |description| < 256
      modifies this
      ensures Valid() && ok == open
      ensures ok ==> fresh(frame) && epochUs == now && meta == description && frames == []
    {
      hide HeaderBytes, IsLog;
      open := false;
      epochUs := now;
      var n := channels % 0x1_0000;
      var flen := (4 + n * 6) % 0x1_0000;
      frame := new byte[flen](_ => 0);
      file := HeaderBytes(Header(n, now, frameMs % 0x1_0000, flen, |description| % 0x1_0000_0000)) + description;
      meta, times, frames := description, [], [];
      NoFrames(Head(), description);
      ok := *;
      open := ok;
    }

    method PutAt(at: nat, v: nat, n: nat)
      requires at + n <= frame.Length
      modifies frame
      ensures frame[..at] == old(frame[..at]) && frame[at..at + n] == Put(v, n)
      ensures frame[at + n..] == old(frame[at + n..])
    {
      var i, rest := 0, v;
      while i < n
        invariant 0 <= i <= n && Put(v, n) == frame[at..at + i] + Put(rest, n - i)
        invariant frame[..at] == old(frame[..at]) && frame[at + n..] == old(frame[at + n..])
      {
        frame[at + i] := (rest % 256) as byte;
        assert frame[at..at + i + 1] == frame[at..at + i] + [frame[at + i]];
        i, rest := i + 1, rest / 256;
      }
    }

    /** Appends a frame of every channel, or gives the file up. A clock that was set back wraps around. */
    method WriteFrame(now: int, storage: map<nat, nat>)
      requires Valid() && forall id :: id in storage ==> storage[id] < 0x1_0000_0000
      modifies this`open, this`file, this`times, this`frames, frame
      ensures Valid() && (open ==> old(open))
      ensures open ==> frames == old(frames) + [Sampled(storage, channels)] && meta == old(meta)
      ensures open ==> times == old(times) + [Div(now - epochUs, 1000) % 0x1_0000_0000]
    {
      hide Div, FrameBytes, Sampled, IsLog;
      if !open { return; }
      var t: nat := Div(now - epochUs, 1000) % 0x1_0000_0000;
      ghost var values := Sampled(storage, channels);
      FillFrame(t, storage);
      var written := *;
      if !written { open := false; return; }
      OneMoreFrame(file, Head(), meta, times, frames, t, values);
      file := file + frame[..];
      times, frames := times + [t], frames + [values];
    }

    method FillFrame(tMs: nat, storage: map<nat, nat>)
      requires frame.Length == 4 + 6 * channels && channels <= MAX_CHANNELS
      modifies frame
      ensures frame[..] == FrameBytes(tMs, Sampled(storage, channels))
    {
      hide Put, Pairs;
      PutAt(0, tMs, 4);
      assert frame[..4] == frame[0..4];
      ghost var values := Sampled(storage, channels);
      NoPairs(values);
      var id, p := 0, 4;
      while id < channels
        invariant 0 <= id <= channels && p == 4 + 6 * id
        invariant frame[..p] == Put(tMs, 4) + Pairs(values, id)
        modifies frame
      {
        var v := NAN;
        if id in storage { v := storage[id]; }
        PutPair(p, id, v);
        OnePairMore(tMs, values, id);
        id, p := id + 1, p + 6;
      }
      assert frame[..p] == frame[..];
    }

    lemma NoPairs(values: seq<nat>)
      ensures Pairs(values, 0) == []
    {
    }

    lemma OnePairMore(tMs: nat, values: seq<nat>, id: nat)
      requires id < |values|
      ensures Put(tMs, 4) + Pairs(values, id) + Put(id, 2) + Put(values[id], 4) == Put(tMs, 4) + Pairs(values, id + 1)
    {
    }

    method PutPair(at: nat, id: nat, v: nat)
      requires at + 6 <= frame.Length
      modifies frame
      ensures frame[..at + 6] == old(frame[..at]) + Put(id, 2) + Put(v, 4)
    {
      PutAt(at, id, 2);
      assert frame[..at + 2] == frame[..at] + frame[at..at + 2];
      PutAt(at + 2, v, 4);
      assert frame[..at + 6] == frame[..at + 2] + frame[at + 2..at + 6];
    }
  }
}

/** The reader. */
module TelemetryReader {
  import opened Prelude
  import opened TelemetryFormat

  const REFRESH_NS: int := 200_000_000

  class Reader {
    var attached: bool
    var head: Header
    var lastIndex: int
    var lastFillNs: int

    constructor ()
      ensures !attached && Valid()
    {
      attached, head, lastIndex, lastFillNs := false, Header(0, 0, 0, 0, 0), -1, 0;
    }

    ghost predicate Valid()
      reads this
    {
      attached ==> head.frameLen > 4 && head.frameMs > 0
    }

    /** Takes the header of a file. */
    method Open(file: seq<byte>) returns (ok: bool)
      modifies this`attached, this`head, this`lastIndex
      ensures Valid() && ok == attached && lastIndex == -1
      ensures ok <==> Parsed(file).Some? && Parsed(file).value.frameLen > 4 && Parsed(file).value.frameMs > 0
      ensures ok ==> Some(head) == Parsed(file)
    {
      attached, lastIndex := false, -1;
      if |file| < 32 || file[..4] != SIGNATURE { return false; }
      head := Header(Get(file[6..8]), ToSigned(Get(file[8..16])), Get(file[16..18]), Get(file[18..20]), Get(file[20..24]));
      if head.frameLen <= 4 || head.frameMs <= 0 { return false; }
      attached := true;
      ok := true;
    }

    /** The number of the frame for an instant; None before the start. */
    function Index(wallUs: int): Option<nat>
      requires Valid() && attached
      reads this
    {
      var rel := Div(wallUs - head.epochUs, 1000);
      if rel < 0 then None else Some(rel / head.frameMs)
    }

    /** The frame of an instant is the one whose interval it lies in, to the millisecond. */
    lemma IndexIsTheFrameOf(wallUs: int)
      requires Valid() && attached && wallUs >= head.epochUs
      ensures Index(wallUs).Some?
      ensures var i := Index(wallUs).value;
              head.epochUs + 1000 * (i * head.frameMs) <= wallUs < head.epochUs + 1000 * ((i + 1) * head.frameMs)
    {
      var rel := (wallUs - head.epochUs) / 1000;
      assert rel == head.frameMs * (rel / head.frameMs) + rel % head.frameMs;
    }

    /** C division rounds toward zero, so instants less than a millisecond before the start are accepted too. */
    lemma IndexFromAMillisecondBefore(wallUs: int)
      requires Valid() && attached
      ensures Index(wallUs).Some? <==> wallUs > head.epochUs - 1000
    {
      if wallUs < head.epochUs {
        assert Div(wallUs - head.epochUs, 1000) < 0 <==> (head.epochUs - wallUs) / 1000 > 0;
      }
    }

    /** The frame for this instant is in the storage already, and was put there a short while ago. */
    predicate Cached(wallUs: int, nowNs: int)
      requires Valid() && attached
      reads this
    {
      Index(wallUs) == Some(lastIndex) && nowNs - lastFillNs < REFRESH_NS
    }

    /** Puts the values of an instant into the storage, unless they are there already. */
    method Fill(file: seq<byte>, wallUs: int, nowNs: int, storage: map<nat, nat>) returns (ok: bool, out: map<nat, nat>)
      requires Valid()
      modifies this`lastIndex, this`lastFillNs
      ensures Valid()
      ensures !ok ==> out == storage && lastIndex == old(lastIndex)
      ensures ok ==> attached && Index(wallUs).Some?
      ensures ok && old(Cached(wallUs, nowNs)) ==> out == storage && lastIndex == old(lastIndex)
      ensures ok && !old(Cached(wallUs, nowNs)) ==>
                && Count(file, head) > 0 && Some(lastIndex) == Index(wallUs) && lastFillNs == nowNs
                && out == Stored(storage, FrameOf(file, head, Index(wallUs).value), (head.frameLen - 4) / 6)
    {
      hide Div, Count, FrameOf, Stored;
      out := storage;
      if !attached { return false, out; }
      var rel := Div(wallUs - head.epochUs, 1000);
      if rel < 0 { return false, out; }
      var idx := rel / head.frameMs;
      if idx == lastIndex && nowNs - lastFillNs < REFRESH_NS { return true, out; }
      lastFillNs := nowNs;
      var frames := Count(file, head);
      if frames <= 0 { return false, out; }
      var readable := *;
      if !readable { return false, out; }
      out := Apply(FrameOf(file, head, idx), storage);
      lastIndex := idx;
      ok := true;
    }
  }

  /** Puts every value of a frame that is not NaN into the storage. */
  method Apply(buf: seq<byte>, storage: map<nat, nat>) returns (out: map<nat, nat>)
    requires |buf| >= 4
    ensures out == Stored(storage, buf, (|buf| - 4) / 6)
  {
    var pairs := (|buf| - 4) / 6;
    out := storage;
    var i := 0;
    while i < pairs
      invariant 0 <= i <= pairs && out == Stored(storage, buf, i)
    {
      var v := PairValue(buf, i);
      if !IsNaN(v) { out := out[PairId(buf, i) := v]; }
      i := i + 1;
    }
  }

  /** How many whole frames a file has. */
  function Count(file: seq<byte>, h: Header): int
    requires h.frameLen > 0
  {
    Div(|file| - (32 + h.metaLen), h.frameLen)
  }

  /** The frame with a number, or the last one when there are not so many. */
  function FrameOf(file: seq<byte>, h: Header, idx: nat): (frame: seq<byte>)
    requires h.frameLen > 0 && Count(file, h) > 0
    ensures |frame| == h.frameLen
  {
    var use := if idx >= Count(file, h) then Count(file, h) - 1 else idx;
    FrameEnds(|file| - (32 + h.metaLen), h.frameLen, use);
    var at := 32 + h.metaLen + Offset(h.frameLen, use);
    file[at..at + h.frameLen]
  }

  lemma FrameEnds(data: int, size: nat, use: nat)
    requires size > 0 && use < Div(data, size)
    ensures Offset(size, use) + size <= data
  {
    var n := data / size;
    Monotone(size, use + 1, n);
    NextOffset(size, use);
  }

  lemma Monotone(size: nat, a: nat, b: nat)
    requires a <= b
    ensures size * a <= size * b
  {
  }

  lemma CountOf(size: nat, k: nat, rest: nat)
    requires rest < size
    ensures Div(Offset(size, k) + rest, size) == k
  {
    var q := (size * k + rest) / size;
    if q < k { Monotone(size, q + 1, k); }
    if q > k { Monotone(size, k + 1, q); }
  }

  /** The header is read back, and every whole frame is counted. */
  lemma LogIsOpened(file: seq<byte>, h: Header, meta: seq<byte>, times: seq<nat>, frames: seq<seq<nat>>, tail: seq<byte>)
    requires IsLog(file, h, meta, times, frames, tail)
    ensures Parsed(file) == Some(h) && Count(file, h) == |frames|
    ensures |file| == 32 + h.metaLen + Offset(h.frameLen, |frames|) + |tail|
  {
    hide HeaderBytes, Parsed, Offset, Frames;
    assert file == HeaderBytes(h) + (meta + Frames(times, frames) + tail);
    HeaderRoundTrip(h, meta + Frames(times, frames) + tail);
    FramesLength(times, frames, h.channels);
    CountOf(h.frameLen, |frames|, |tail|);
  }

  /** The frame that is read is the one that was written. */
  lemma FrameIsFound(file: seq<byte>, h: Header, meta: seq<byte>, times: seq<nat>, frames: seq<seq<nat>>, tail: seq<byte>,
                     idx: nat)
    requires IsLog(file, h, meta, times, frames, tail) && frames != []
    ensures var use := if idx < |frames| then idx else |frames| - 1;
            Count(file, h) > 0 && FrameOf(file, h, idx) == FrameBytes(times[use], frames[use])
  {
    hide HeaderBytes, Parsed, FrameBytes, Offset, Frames, Count;
    LogIsOpened(file, h, meta, times, frames, tail);
    var use := if idx < |frames| then idx else |frames| - 1;
    FramesLength(times, frames, h.channels);
    FrameAt(times, frames, h.channels, use);
    var at, head := Offset(h.frameLen, use), HeaderBytes(h) + meta;
    assert file == head + (Frames(times, frames) + tail);
    Within(head, Frames(times, frames), tail, at, h.frameLen);
  }

  lemma Within(head: seq<byte>, body: seq<byte>, tail: seq<byte>, at: nat, n: nat)
    requires at + n <= |body|
    ensures (head + (body + tail))[|head| + at..|head| + at + n] == body[at..at + n]
  {
  }

  /** What was written is read: reading the log at an instant gives the frame of that instant, or the last one. */
  lemma LogIsRead(file: seq<byte>, h: Header, meta: seq<byte>, times: seq<nat>, frames: seq<seq<nat>>, tail: seq<byte>,
                  idx: nat, storage: map<nat, nat>)
    requires IsLog(file, h, meta, times, frames, tail) && frames != [] && 1 <= h.channels <= 10921
    ensures Parsed(file) == Some(h) && Count(file, h) == |frames|
    ensures var use := if idx < |frames| then idx else |frames| - 1;
            var s := Stored(storage, FrameOf(file, h, idx), (h.frameLen - 4) / 6);
            forall id: nat ::
              if id < h.channels && !IsNaN(frames[use][id]) then id in s && s[id] == frames[use][id]
              else (id in s <==> id in storage) && (id in s ==> s[id] == storage[id])
  {
    hide HeaderBytes, Parsed, Stored, FrameBytes, Frames, Count, FrameOf, IsNaN;
    LogIsOpened(file, h, meta, times, frames, tail);
    FrameIsFound(file, h, meta, times, frames, tail, idx);
    var use := if idx < |frames| then idx else |frames| - 1;
    FrameRoundTrip(storage, times[use], frames[use], h.channels);
  }
}
