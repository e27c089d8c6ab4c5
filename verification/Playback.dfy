/** The player's sound dispatcher (audio/playback_audio.cpp): a few caches around a rule without state. */
module Playback {
  import opened Prelude
  import opened AudioProtocol

  datatype Target = Target(active: bool, journal: string, posUs: int, speed: real)
  datatype IndexFile = IndexFile(name: string, channel: string, anchorUs: int, endUs: int)
  datatype Index = Index(startUs: int, dir: string, files: seq<IndexFile>, live: bool)

  // --- the rule ---

  /** What the outputs have to do. */
  datatype Sound = OnAir | Quiet | Play(path: string, rel: int, paused: bool)

  /** The first file of the channel that covers an instant. */
  function Covering(files: seq<IndexFile>, channel: string, want: int): Option<IndexFile> {
    if files == [] then None
    else if files[0].channel == channel && files[0].anchorUs <= want <= files[0].endUs then Some(files[0])
    else Covering(files[1..], channel, want)
  }

  predicate AtNormalSpeed(speed: real) { -0.001 < speed - 1.0 < 0.001 }

  function Rule(channel: string, enabled: bool, t: Target, ix: Option<Index>): Sound {
    if !enabled then Quiet
    else if !t.active then OnAir
    else match ix
      case None => Quiet
      case Some(x) =>
        match Covering(x.files, channel, x.startUs + t.posUs)
        case None => Quiet
        case Some(f) => Play(x.dir + "/" + f.name, x.startUs + t.posUs - f.anchorUs, !AtNormalSpeed(t.speed))
  }

  /** The file is of the channel, covers the instant, and no earlier one does; the offset in it is not negative. */
  lemma {:induction false} CoveringIsFirst(files: seq<IndexFile>, channel: string, want: int)
    ensures var r := Covering(files, channel, want);
            match r
            case None => forall i :: 0 <= i < |files| ==> !Covers(files[i], channel, want)
            case Some(f) => exists i :: 0 <= i < |files| && files[i] == f && Covers(f, channel, want)
                                        && forall j :: 0 <= j < i ==> !Covers(files[j], channel, want)
  {
    if files != [] && !Covers(files[0], channel, want) {
      CoveringIsFirst(files[1..], channel, want);
      var r := Covering(files[1..], channel, want);
      if r.Some? {
        var i :| 0 <= i < |files[1..]| && files[1..][i] == r.value
                 && forall j :: 0 <= j < i ==> !Covers(files[1..][j], channel, want);
        assert files[i + 1] == r.value;
        forall j | 0 <= j < i + 1 ensures !Covers(files[j], channel, want) {
          if j > 0 { assert files[j] == files[1..][j - 1]; }
        }
      }
    }
  }

  predicate Covers(f: IndexFile, channel: string, want: int) {
    f.channel == channel && f.anchorUs <= want <= f.endUs
  }

  /** The first file of the channel that covers an instant. */
  predicate IsFirstCovering(files: seq<IndexFile>, channel: string, want: int, i: nat) {
    && i < |files| && Covers(files[i], channel, want)
    && forall j :: 0 <= j < i ==> !Covers(files[j], channel, want)
  }

  /** The rule in terms of the session: sound off means silence, no session live sound; else the first file of the channel
      that covers the instant plays where the instant lies in it, and stands still unless the speed is one up to a
      thousandth; where there is none there is silence. */
  lemma RuleMeans(channel: string, enabled: bool, t: Target, ix: Option<Index>)
    ensures var r := Rule(channel, enabled, t, ix);
            && (!enabled ==> r.Quiet?) && (enabled && !t.active ==> r.OnAir?)
            && (enabled && t.active ==>
                  match ix
                  case None => r.Quiet?
                  case Some(x) =>
                    var want := x.startUs + t.posUs;
                    if forall i: nat :: !IsFirstCovering(x.files, channel, want, i) then r.Quiet?
                    else r.Play? && (r.paused <==> t.speed <= 0.999 || 1.001 <= t.speed)
                         && exists i: nat :: IsFirstCovering(x.files, channel, want, i)
                              && r.path == x.dir + "/" + x.files[i].name && x.files[i].anchorUs + r.rel == want)
  {
    if ix.Some? {
      var x := ix.value;
      var want := x.startUs + t.posUs;
      CoveringIsFirst(x.files, channel, want);
      var c := Covering(x.files, channel, want);
      if c.Some? {
        var i :| 0 <= i < |x.files| && x.files[i] == c.value && Covers(c.value, channel, want)
                 && forall j :: 0 <= j < i ==> !Covers(x.files[j], channel, want);
        assert IsFirstCovering(x.files, channel, want, i);
      }
    }
  }

  /** An output has been asked for a sound. */
  predicate Follows(w: Want, s: Sound) {
    match s
    case OnAir => w.src == Live
    case Quiet => w.src == Silent
    case Play(path, _, paused) => w.src == File && w.path == path && w.paused == paused
  }

  /** Two rules ask for the same source, file and pause. */
  predicate Alike(a: Sound, b: Sound) {
    match (a, b)
    case (Play(p, _, x), Play(q, _, y)) => p == q && x == y
    case _ => a == b
  }

  // --- the dispatcher ---

  datatype Config = Config(maxDriftUs: int, reloadMs: int, seekCooldownMs: int, channel: string)

  /** The moments at which an output was put on a position: at a start, or as a correction. */
  datatype Placing = Placing(at: int, correction: bool)

  /** Corrections keep the cooldown from whatever placed the output before. */
  predicate Spaced(placings: seq<Placing>, cooldown: int) {
    && (placings != [] ==> !placings[0].correction)
    && forall k :: 1 <= k < |placings| ==>
         placings[k].correction ==> placings[k].at - placings[k - 1].at >= cooldown
  }

  class Dispatcher {
    const cfg: Config
    var st: Source
    var curPath: string
    var curJournal: string
    var ix: Option<Index>
    var ixLoadedMs: int
    var seekAt: seq<int>
    /** What each output was last asked for. */
    var wants: seq<Want>
    ghost var placings: seq<seq<Placing>>

    constructor (cfg: Config, n: nat)
      ensures Valid() && |wants| == n && this.cfg == cfg && curJournal == "" && ix.None?
    {
      this.cfg, st, curPath, curJournal, ix, ixLoadedMs := cfg, Live, "", "", None, 0;
      seekAt, wants, placings := seq(n, _ => 0), seq(n, _ => NOTHING), seq(n, _ => []);
    }

    ghost predicate Valid()
      reads this
    {
      Placed() && (st == Live ==> curJournal == "" && ix.None?)
    }

    /** The outputs are where the dispatcher believes them to be. */
    ghost predicate Placed()
      reads this`st, this`curPath, this`seekAt, this`placings, this`wants
    {
      && AllPlaced() && (st == File ==> Started())
      && |wants| == |seekAt| && forall i :: 0 <= i < |wants| ==> IsAt(wants[i], st, curPath)
    }

    /** Corrections are spaced, and `seekAt` is the last placing. */
    ghost predicate AllPlaced()
      reads this`seekAt, this`placings
    {
      |seekAt| == |placings| && forall i :: 0 <= i < |placings| ==>
        Spaced(placings[i], cfg.seekCooldownMs)
        && (placings[i] != [] ==> placings[i][|placings[i]| - 1].at == seekAt[i])
    }

    ghost predicate Started()
      reads this`placings
    {
      forall i :: 0 <= i < |placings| ==> placings[i] != []
    }

    method AllLive()
      requires Valid()
      modifies this`wants, this`st, this`curPath, this`curJournal, this`ix
      ensures Valid() && st == Live && |wants| == old(|wants|)
    {
      if st == Live { return; }
      ghost var before := wants;
      var i := 0;
      while i < |wants|
        invariant 0 <= i <= |wants| == |before| && wants[i..] == before[i..]
        invariant forall k :: 0 <= k < i ==> IsAt(wants[k], Live, "")
        modifies this`wants
      {
        assert wants[i] == wants[i..][0];
        wants := wants[i := Asked(wants[i], GoLive)];
        i := i + 1;
      }
      st, curPath, curJournal, ix := Live, "", "", None;
    }

    method AllSilent()
      requires Placed()
      modifies this`wants, this`st, this`curPath
      ensures Valid() && st == Silent && |wants| == old(|wants|)
    {
      if st == Silent { return; }
      var i := 0;
      while i < |wants|
        invariant 0 <= i <= |wants| == old(|wants|)
        invariant forall k :: 0 <= k < i ==> IsAt(wants[k], Silent, "")
        modifies this`wants
      {
        wants := wants[i := Asked(wants[i], GoSilent)];
        i := i + 1;
      }
      st, curPath := Silent, "";
    }

    /** Puts every output on a position of a file. */
    method PlayAll(path: string, rel: int, paused: bool, now: int)
      requires AllPlaced() && |wants| == |seekAt|
      modifies this`wants, this`seekAt, this`placings, this`st, this`curPath
      ensures Valid() && st == File && curPath == path && |wants| == old(|wants|)
      ensures forall i :: 0 <= i < |wants| ==> wants[i].pos == rel && wants[i].paused == paused
      ensures forall i :: 0 <= i < |wants| ==> placings[i] == old(placings[i]) + [Placing(now, false)]
    {
      ghost var before, was := placings, seekAt;
      var i := 0;
      while i < |wants|
        invariant 0 <= i <= |wants| == |seekAt| == |placings| == |before| == old(|wants|) == |was|
        invariant forall k :: 0 <= k < i ==> IsAt(wants[k], File, path) && wants[k].pos == rel && wants[k].paused == paused
        invariant forall k :: 0 <= k < i ==> placings[k] == before[k] + [Placing(now, false)] && seekAt[k] == now
        invariant forall k :: i <= k < |wants| ==> placings[k] == before[k] && seekAt[k] == was[k]
        modifies this`wants, this`seekAt, this`placings
      {
        wants := wants[i := Asked(wants[i], PlayFile(path, rel, paused))];
        placings := placings[i := placings[i] + [Placing(now, false)]];
        seekAt := seekAt[i := now];
        i := i + 1;
      }
      st, curPath := File, path;
    }

    /** An output plays at normal speed, was not placed too recently, and is too far from where it should be. */
    predicate Due(rel: int, paused: bool, now: int, placedAt: int, p: int) {
      !paused && now - placedAt >= cfg.seekCooldownMs && p >= 0 && Abs(p - rel) > cfg.maxDriftUs
    }

    /** Outputs that already play the file: the pause follows the player, and a position that has drifted is corrected
        unless the output was placed too recently. */
    method Correct(rel: int, paused: bool, now: int, positions: seq<int>)
      requires Placed() && st == File && |positions| == |wants|
      modifies this`wants, this`seekAt, this`placings
      ensures Valid() && |wants| == old(|wants|)
      ensures forall i :: 0 <= i < |wants| ==>
                Corrected(rel, paused, now, positions[i], old(wants[i]), old(seekAt[i]), old(placings[i]), wants[i], placings[i])
    {
      ghost var before, was, asked := placings, seekAt, wants;
      var i := 0;
      while i < |wants|
        invariant 0 <= i <= |wants| == |seekAt| == |placings| == |before| == |was| == |asked|
        invariant AllPlaced() && Started()
        invariant forall k :: 0 <= k < |wants| ==> IsAt(wants[k], File, curPath)
        invariant forall k :: i <= k < |wants| ==> placings[k] == before[k] && seekAt[k] == was[k] && wants[k] == asked[k]
        invariant forall k :: 0 <= k < i ==>
          Corrected(rel, paused, now, positions[k], asked[k], was[k], before[k], wants[k], placings[k])
        modifies this`wants, this`seekAt, this`placings
      {
        CorrectOne(i, rel, paused, now, positions[i]);
        i := i + 1;
      }
    }

    ghost predicate Corrected(rel: int, paused: bool, now: int, p: int, w0: Want, at0: int, placings0: seq<Placing>,
                              w: Want, placings: seq<Placing>)
    {
      && w.paused == paused
      && if Due(rel, paused, now, at0, p) then w.pos == rel && placings == placings0 + [Placing(now, true)]
         else w.pos == w0.pos && placings == placings0
    }

    /** Afterwards an output that plays, whose position is known and which was not placed too recently, is no further off
        than allowed; and it is moved only if it was. */
    lemma CorrectedMeans(rel: int, paused: bool, now: int, p: int, w0: Want, at0: int, placings0: seq<Placing>, w: Want,
                         placings: seq<Placing>)
      requires Corrected(rel, paused, now, p, w0, at0, placings0, w, placings)
      ensures var off := p < rel - cfg.maxDriftUs || rel + cfg.maxDriftUs < p;
              if placings == placings0
              then w.pos == w0.pos && (!paused && p >= 0 && now >= at0 + cfg.seekCooldownMs ==> !off)
              else w.pos == rel && placings == placings0 + [Placing(now, true)]
                   && !paused && p >= 0 && now >= at0 + cfg.seekCooldownMs && off
    {
      assert placings0 + [Placing(now, true)] != placings0 by { assert |placings0 + [Placing(now, true)]| != |placings0|; }
    }

    /** A file that was not playing is started at its offset; one that was is corrected where that is due. */
    ghost predicate Positioned(r: Sound, now: int, positions: seq<int>, st0: Source, path0: string, wants0: seq<Want>,
                               seekAt0: seq<int>, placings0: seq<seq<Placing>>)
      reads this
    {
      && |wants| == |wants0| == |positions| == |placings| == |seekAt0| == |placings0|
      && (r.Play? ==> forall i :: 0 <= i < |wants| ==>
            if st0 != File || path0 != r.path then wants[i].pos == r.rel && wants[i].paused == r.paused
            else Corrected(r.rel, r.paused, now, positions[i], wants0[i], seekAt0[i], placings0[i], wants[i], placings[i]))
    }

    method CorrectOne(i: nat, rel: int, paused: bool, now: int, p: int)
      requires |wants| == |seekAt| && AllPlaced() && Started() && i < |wants| && IsAt(wants[i], File, curPath)
      modifies this`wants, this`seekAt, this`placings
      ensures |wants| == |seekAt| == old(|wants|) && AllPlaced() && Started()
      ensures IsAt(wants[i], File, curPath)
      ensures Corrected(rel, paused, now, p, old(wants[i]), old(seekAt[i]), old(placings[i]), wants[i], placings[i])
      ensures wants == old(wants)[i := wants[i]] && seekAt == old(seekAt)[i := seekAt[i]]
      ensures placings == old(placings)[i := placings[i]]
    {
      wants := wants[i := Asked(wants[i], PauseFile(paused))];
      if !paused && now - seekAt[i] >= cfg.seekCooldownMs {
        if p >= 0 && Abs(p - rel) > cfg.maxDriftUs {
          wants := wants[i := Asked(wants[i], SeekFile(rel))];
          placings := placings[i := placings[i] + [Placing(now, true)]];
          seekAt := seekAt[i := now];
        }
      }
    }

    /** One step. `loaded` is what reading the journal gives, should it be read, and `now` and `positions` what the clock
        and the outputs say. */
    method Step(enabled: bool, t: Target, now: int, loaded: Option<Index>, positions: seq<int>,
                ghost disk: string -> Option<Index>)
      returns (read: bool)
      requires Valid() && |positions| == |wants| && disk("") == None
      modifies this
      ensures Valid() && |wants| == old(|wants|)
      ensures forall i :: 0 <= i < |wants| ==> Follows(wants[i], Rule(cfg.channel, enabled, t, ix))
      ensures enabled && t.active ==> curJournal == t.journal && ix == (if read then loaded else old(ix))
      ensures read <==> enabled && t.active
                        && (t.journal != old(curJournal)
                            || (old(ix).Some? && old(ix).value.live && now - old(ixLoadedMs) > cfg.reloadMs))
      ensures enabled && t.active ==>
                Positioned(Rule(cfg.channel, true, t, ix), now, positions, old(st), old(curPath), old(wants), old(seekAt), old(placings))
      ensures enabled && t.active && loaded == disk(t.journal) ==> (ix == disk(t.journal) <==> read || old(ix) == disk(t.journal))
      ensures var now, due := Rule(cfg.channel, enabled, t, ix), Rule(cfg.channel, enabled, t, disk(t.journal));
              forall i :: 0 <= i < |wants| ==> (Follows(wants[i], due) <==> Alike(now, due))
      ensures old(ix) == disk(old(curJournal)) && loaded == disk(t.journal) ==>
                && ix == disk(curJournal)
                && forall i :: 0 <= i < |wants| ==> Follows(wants[i], Rule(cfg.channel, enabled, t, disk(t.journal)))
    {
      read := false;
      forall w: Want, a: Sound, b: Sound | Follows(w, a) ensures Follows(w, b) <==> Alike(a, b) { FollowsBoth(w, a, b); }
      hide Alike, Follows;
      if !enabled { AllSilent(); return; }
      if !t.active { AllLive(); return; }
      if t.journal != curJournal || (ix.Some? && ix.value.live && now - ixLoadedMs > cfg.reloadMs) {
        ix, ixLoadedMs, read := loaded, now, true;
        curJournal := t.journal;
      }
      Sounds(t, now, positions);
    }

    /** What an open session has to sound like at an instant. */
    method Sounds(t: Target, now: int, positions: seq<int>)
      requires Placed() && |positions| == |wants| && t.active
      modifies this`wants, this`seekAt, this`placings, this`st, this`curPath
      ensures Valid() && |wants| == old(|wants|)
      ensures forall i :: 0 <= i < |wants| ==> Follows(wants[i], Rule(cfg.channel, true, t, ix))
      ensures Positioned(Rule(cfg.channel, true, t, ix), now, positions, old(st), old(curPath), old(wants), old(seekAt), old(placings))
    {
      if ix.None? { AllSilent(); return; }
      var x := ix.value;
      var want := x.startUs + t.posUs;
      var f := Find(x.files, cfg.channel, want);
      if f.None? { AllSilent(); return; }
      var path := x.dir + "/" + f.value.name;
      var rel := want - f.value.anchorUs;
      var playing := AtNormalSpeed(t.speed);
      if st != File || path != curPath {
        PlayAll(path, rel, !playing, now);
      } else {
        Correct(rel, !playing, now, positions);
      }
    }
  }

  /** Where that is not so: a journal that cannot be read at first is not read again in the next step, although it can be
      read by then, and the output stays silent while the rule says to play. */
  method UnreadJournalStaysSilent() returns (first: bool, again: bool, w: Want, t: Target, x: Index)
    ensures first && !again
    ensures w.src == Silent && Rule("voice", true, t, Some(x)).Play?
  {
    x := Index(0, "rec", [IndexFile("a.wav", "voice", 0, 100)], true);
    t := Target(true, "rec/session", 50, 1.0);
    var d := new Dispatcher(Config(40, 1000, 1500, "voice"), 1);
    first := d.Step(true, t, 10, None, [0], _ => None);
    again := d.Step(true, t, 20, Some(x), [0], j => if j == "rec/session" then Some(x) else None);
    w := d.wants[0];
    FirstFile(x, t);
  }

  /** An output that follows one rule follows another exactly if they are alike. */
  lemma FollowsBoth(w: Want, a: Sound, b: Sound)
    requires Follows(w, a)
    ensures Follows(w, b) <==> Alike(a, b)
  {
  }

  lemma FirstFile(x: Index, t: Target)
    requires t.active && x.files != [] && Covers(x.files[0], "voice", x.startUs + t.posUs)
    ensures Rule("voice", true, t, Some(x)).Play?
  {
  }

  /** A file is never entered before its start. */
  lemma OffsetIsNotNegative(channel: string, enabled: bool, t: Target, ix: Option<Index>)
    ensures var r := Rule(channel, enabled, t, ix); r.Play? ==> r.rel >= 0
  {
    if ix.Some? { CoveringIsFirst(ix.value.files, channel, ix.value.startUs + t.posUs); }
  }

  /** The search for the file. */
  method Find(files: seq<IndexFile>, channel: string, want: int) returns (f: Option<IndexFile>)
    ensures f == Covering(files, channel, want)
  {
    var i := 0;
    while i < |files|
      invariant 0 <= i <= |files| && Covering(files, channel, want) == Covering(files[i..], channel, want)
    {
      var x := files[i];
      assert files[i..][0] == x && files[i..][1..] == files[i + 1..];
      if x.channel == channel {
        if want >= x.anchorUs && want <= x.endUs { return Some(x); }
      }
      i := i + 1;
    }
    f := None;
  }

  function Abs(x: int): nat { if x < 0 then -x else x }

  /** An output was last asked for this source. */
  predicate IsAt(w: Want, src: Source, path: string) { w.src == src && w.path == if src == File then path else "" }
}
