/** The loop that keeps frames in phase with the display (control/phase_controller.cpp), over real numbers. */
module PhaseLoop {
  import opened Prelude
  import opened CameraClient

  // --- the circle ---

  /** How many periods lie between two values. */
  ghost predicate Apart(a: real, b: real, period: real, k: int) { a == b + k as real * period }

  /** The shortest way round. */
  method WrapSigned(v: real, period: real) returns (r: real, ghost k: int)
    ensures period <= 0.0 ==> r == v
    ensures period > 0.0 ==> -period * 0.5 < r <= period * 0.5 && Apart(v, r, period, k)
  {
    hide Apart, Turns;
    r, k := v, 0;
    SamePlace(v, period);
    if period <= 0.0 { return; }
    while r > period * 0.5
      invariant Apart(v, r, period, k) && (k > 0 ==> r > -period * 0.5)
      decreases Turns(r, period) + 1
    {
      OnePeriodLess(r, period);
      OneTurn(v, r, period, k);
      r, k := r - period, k + 1;
    }
    while r <= -period * 0.5
      invariant Apart(v, r, period, k) && r <= period * 0.5
      decreases 1 - Turns(r, period)
    {
      OnePeriodLess(r + period, period);
      OneTurn(v, r, period, k);
      r, k := r + period, k - 1;
    }
  }

  lemma SamePlace(v: real, period: real)
    ensures Apart(v, v, period, 0)
  {
  }

  lemma OneTurn(v: real, r: real, period: real, k: int)
    requires Apart(v, r, period, k)
    ensures Apart(v, r - period, period, k + 1) && Apart(v, r + period, period, k - 1)
  {
  }

  /** How many whole periods a value holds. */
  ghost function Turns(r: real, period: real): int
    requires period > 0.0
  {
    (r / period).Floor
  }

  lemma Quotient(a: real, b: real, c: real)
    requires b > 0.0 && a == c * b
    ensures a / b == c
  {
  }

  lemma OnePeriodLess(r: real, period: real)
    requires period > 0.0
    ensures Turns(r - period, period) == Turns(r, period) - 1
    ensures r > 0.0 ==> Turns(r, period) >= 0
    ensures r <= period * 0.5 ==> Turns(r, period) <= 0
  {
    var q := r / period;
    assert r == q * period;
    Quotient(r - period, period, q - 1.0);
    if q < 0.0 { Below(q, period); }
    if q > 0.5 { Below(0.5 - q, period); }
  }

  lemma Below(q: real, period: real)
    requires q < 0.0 < period
    ensures q * period < 0.0
  {
  }

  /** Another way round the circle. */
  function WayRound(v: real, period: real, other: int): real { v - other as real * period }

  /** No way round is shorter. */
  lemma IsShortest(v: real, r: real, period: real, k: int, other: int)
    requires period > 0.0 && -period * 0.5 < r <= period * 0.5 && Apart(v, r, period, k)
    ensures var way := WayRound(v, period, other); -Size(way) <= r <= Size(way)
  {
    hide WayRound, Apart;
    var more := OtherWay(v, r, period, k, other);
  }

  /** k * x */
  function Times(k: real, x: real): real { k * x }

  /** Another way round is whole periods longer. */
  lemma OtherWay(v: real, r: real, period: real, k: int, other: int) returns (more: real)
    requires period > 0.0 && Apart(v, r, period, k)
    ensures WayRound(v, period, other) == r + more
    ensures more == 0.0 || more >= period || more <= -period
  {
    more := Times((k - other) as real, period);
    Periods(k, other, period);
    WholePeriods(k - other, period);
  }

  lemma Periods(a: int, b: int, period: real)
    ensures a as real * period - b as real * period == Times((a - b) as real, period)
  {
  }

  lemma WholePeriods(n: int, period: real)
    requires period > 0.0
    ensures var more := Times(n as real, period); more == 0.0 || more >= period || more <= -period
  {
    hide Times;
    var x := n as real;
    Swapped(x, period);
    UnitTimes(period);
    if n >= 1 { TimesGrows(period, 1.0, x); }
    if n <= -1 { TimesGrows(period, x, -1.0); }
  }

  lemma Swapped(x: real, y: real)
    ensures Times(x, y) == Times(y, x)
  {
  }

  lemma UnitTimes(x: real)
    ensures Times(x, 1.0) == x && Times(x, -1.0) == -x && Times(x, 0.0) == 0.0
  {
  }

  lemma TimesGrows(k: real, x: real, y: real)
    requires k >= 0.0 && x <= y
    ensures Times(k, x) <= Times(k, y)
  {
    if k > 0.0 && x < y { Below(x - y, k); }
  }

  function Size(x: real): real { if x < 0.0 then -x else x }

  method WrapPositive(v: real, period: real) returns (r: real, ghost k: int)
    ensures period <= 0.0 ==> r == v
    ensures period > 0.0 ==> 0.0 <= r < period && Apart(v, r, period, k)
  {
    hide Apart, Turns;
    r, k := v, 0;
    SamePlace(v, period);
    if period <= 0.0 { return; }
    while r < 0.0
      invariant Apart(v, r, period, k) && (k < 0 ==> r < period)
      decreases 1 - Turns(r, period)
    {
      OnePeriodLess(r, period);
      OnePeriodLess(r + period, period);
      OneTurn(v, r, period, k);
      r, k := r + period, k - 1;
    }
    while r >= period
      invariant Apart(v, r, period, k) && r >= 0.0
      decreases Turns(r, period) + 1
    {
      OnePeriodLess(r, period);
      OneTurn(v, r, period, k);
      r, k := r - period, k + 1;
    }
  }

  function Clamp(v: real, lo: real, hi: real): real { if v < lo then lo else if v > hi then hi else v }

  /** Rounding half away from zero. */
  function LRound(x: real): int { if x >= 0.0 then (x + 0.5).Floor else -((0.5 - x).Floor) }

  lemma Rounded(x: real)
    ensures x - 0.5 <= LRound(x) as real <= x + 0.5
  {
  }

  /** Between whole numbers, rounding stays between them, and it moves by at most one half. */
  lemma RoundStays(x: real, lo: int, hi: int)
    requires lo as real <= x <= hi as real
    ensures lo <= LRound(x) <= hi && x - 0.5 <= LRound(x) as real <= x + 0.5
  {
  }

  // --- the controller ---

  datatype Config = Config(trimLimit: int, trimMax: int, targetPhase: real, guard: real, kp: real, kf: real, gain: real,
                           minStep: int, heartbeatNs: int)

  datatype Measured = Measured(hz: real, taken: nat, pollOffset: real, phase: real, drift: real, now: int)

  /** A command, with the frequency term and the band at the moment it was sent. */
  datatype Command = Command(mhz: int, freq: real, lo: int, hi: int, byTick: bool)

  predicate InBand(c: Command) {
    c.byTick && c.lo <= c.hi ==> c.lo <= c.mhz <= c.hi && c.lo as real <= c.freq <= c.hi as real
  }

  function Ago(terms: seq<real>, n: nat): real { if n == 0 || |terms| < n then 0.0 else terms[|terms| - n] }

  function Abs(x: int): nat { if x < 0 then -x else x }

  /** The period of the display, and the difference of the frequencies that the drift of the phase shows. */
  function Period(m: Measured): (p: real)
    requires m.hz > 0.0
    ensures p > 0.0
  {
    1000.0 / m.hz
  }

  function Mismatch(m: Measured): real
    requires m.hz > 0.0
  {
    -m.drift * 1000.0 / Period(m)
  }

  /** The first measurement is taken whole, later ones in part and without our own contribution. */
  function Whole(cfg: Config, mismatch: real): real
    requires cfg.gain != 0.0
  {
    -mismatch / cfg.gain
  }

  function Part(cfg: Config, mismatch: real, own: real): real
    requires cfg.gain != 0.0
  {
    cfg.kf * (mismatch - own * cfg.gain) / cfg.gain
  }

  function NextFreq(cfg: Config, seeded: bool, freq: real, mismatch: real, own: real, lo: int, hi: int): real
    requires cfg.gain != 0.0
  {
    Clamp(if seeded then freq - Part(cfg, mismatch, own) else Clamp(Whole(cfg, mismatch), lo as real, hi as real),
          lo as real, hi as real)
  }

  function PhaseTerm(cfg: Config, err: real): real { cfg.kp * err }

  // --- why the loop settles: a command changes the difference of the frequencies by the actuator's gain ---

  /** The difference of the frequencies with a command, where `base` is the difference without one. */
  function Difference(cfg: Config, base: real, command: real): real { base + cfg.gain * command }

  /** The command that makes the frequencies equal. */
  function Balance(cfg: Config, base: real): real
    requires cfg.gain != 0.0
  {
    -base / cfg.gain
  }

  lemma BalanceIsZero(cfg: Config, base: real)
    requires cfg.gain != 0.0
    ensures Difference(cfg, base, Balance(cfg, base)) == 0.0
  {
  }

  /** The first measurement is made without a command. If balance lies in the band, it is reached at once. */
  lemma FirstTurn(cfg: Config, base: real, freq: real, own: real, lo: int, hi: int)
    requires cfg.gain != 0.0 && lo as real <= Balance(cfg, base) <= hi as real
    ensures Difference(cfg, base, Balance(cfg, base)) == 0.0
    ensures NextFreq(cfg, false, freq, Difference(cfg, base, 0.0), own, lo, hi) == Balance(cfg, base)
  {
    BalanceIsZero(cfg, base);
    hide Part, Balance, Whole, Difference;
    WholeIsBalance(cfg, base);
  }

  lemma WholeIsBalance(cfg: Config, base: real)
    requires cfg.gain != 0.0
    ensures Whole(cfg, Difference(cfg, base, 0.0)) == Balance(cfg, base)
  {
  }

  /** Later turns: what is measured is the command of two turns back, its frequency term and its phase term, so the phase
      term of that turn is taken out. */
  ghost predicate Steered(cfg: Config, base: real, freqs: seq<real>, terms: seq<real>, lo: int, hi: int)
    requires cfg.gain != 0.0
  {
    && |freqs| == |terms| >= 2 && lo as real <= freqs[1] <= hi as real
    && forall t :: 0 <= t < |freqs| - 2 ==>
         freqs[t + 2] == NextFreq(cfg, true, freqs[t + 1], Difference(cfg, base, freqs[t] + terms[t]), terms[t], lo, hi)
  }

  /** How far the frequency term is from balance. */
  function Off(cfg: Config, base: real, freqs: seq<real>, t: nat): real
    requires cfg.gain != 0.0 && t < |freqs|
  {
    freqs[t] - Balance(cfg, base)
  }

  /** One turn, in distances from balance: the part `k` of the distance of two turns back is gone, whatever the phase term. */
  function Turned(k: real, before: real, now: real, lo: real, hi: real): real { Clamp(now - k * before, lo, hi) }

  lemma TurnIsTurned(cfg: Config, base: real, freqs: seq<real>, terms: seq<real>, lo: int, hi: int, t: nat)
    requires cfg.gain != 0.0 && Steered(cfg, base, freqs, terms, lo, hi) && t + 2 < |freqs|
    ensures var b := Balance(cfg, base);
            Off(cfg, base, freqs, t + 2)
            == Turned(cfg.kf, Off(cfg, base, freqs, t), Off(cfg, base, freqs, t + 1), lo as real - b, hi as real - b)
  {
    hide Part, Balance, Difference;
    PartOfDistance(cfg, base, freqs[t], terms[t]);
    assert freqs[t + 2] == NextFreq(cfg, true, freqs[t + 1], Difference(cfg, base, freqs[t] + terms[t]), terms[t], lo, hi);
  }

  lemma PartOfDistance(cfg: Config, base: real, freq: real, own: real)
    requires cfg.gain != 0.0
    ensures Part(cfg, Difference(cfg, base, freq + own), own) == cfg.kf * (freq - Balance(cfg, base))
  {
    var left := Difference(cfg, base, freq + own) - own * cfg.gain;
    assert left == base + cfg.gain * freq;
    Ratio(left, cfg.gain, freq - Balance(cfg, base));
    assert cfg.kf * left / cfg.gain == cfg.kf * (left / cfg.gain);
  }

  lemma Ratio(a: real, b: real, c: real)
    requires b != 0.0 && a == b * c
    ensures a / b == c
  {
  }

  // --- a measure that every turn multiplies by `k` ---

  function Square(x: real): real { x * x }

  function Power(x: real, m: nat): real { if m == 0 then 1.0 else x * Power(x, m - 1) }

  /** A measure of two distances from balance, one turn after the other. */
  function Swing(k: real, before: real, now: real): real { now * now - now * before + k * (before * before) }

  lemma SwingTurned(k: real, before: real, now: real)
    ensures Swing(k, now, now - k * before) == Times(k, Swing(k, before, now))
  {
    var c := now - k * before;
    assert c * c - c * now == c * (c - now) == c * (-(k * before));
    assert c * (k * before) == now * (k * before) - (k * before) * (k * before);
    assert (k * before) * (k * before) == k * (k * (before * before));
    assert now * (k * before) == k * (now * before);
  }

  /** The band does not make the measure greater. */
  lemma SwingClamped(k: real, now: real, c: real, lo: real, hi: real)
    requires lo <= 0.0 <= hi && lo <= now <= hi
    ensures Swing(k, now, Clamp(c, lo, hi)) <= Swing(k, now, c)
  {
    var d := Clamp(c, lo, hi);
    assert Swing(k, now, d) - Swing(k, now, c) == (d - c) * (d + c - now);
    if c > hi {
      Below(hi - c, hi + c - now);
    } else if c < lo {
      Below(c - lo, now - lo - c);
      assert (lo - c) * (lo + c - now) == (c - lo) * (now - lo - c);
    }
  }

  /** Above a quarter it bounds the distance. */
  lemma SwingBounds(k: real, before: real, now: real)
    ensures Times(4.0 * k - 1.0, Square(now)) <= Times(4.0 * k, Swing(k, before, now))
  {
    var x := now - 2.0 * k * before;
    assert Square(x) == now * now - 4.0 * k * (now * before) + 4.0 * k * (k * (before * before));
    assert 4.0 * k * Swing(k, before, now) - (4.0 * k - 1.0) * Square(now) == Square(x);
    NotNegative(x);
  }

  lemma NotNegative(x: real)
    ensures Square(x) >= 0.0
  {
  }

  /** Every turn multiplies the measure by `kf`, or makes it less than that where the band binds. */
  lemma OneSwing(k: real, before: real, now: real, lo: real, hi: real)
    requires lo <= 0.0 <= hi && lo <= now <= hi
    ensures Swing(k, now, Turned(k, before, now, lo, hi)) <= Times(k, Swing(k, before, now))
    ensures lo < Turned(k, before, now, lo, hi) < hi ==>
              Swing(k, now, Turned(k, before, now, lo, hi)) == Times(k, Swing(k, before, now))
  {
    hide Swing, Times;
    SwingClamped(k, now, now - k * before, lo, hi);
    SwingTurned(k, before, now);
  }

  lemma OffInBand(cfg: Config, base: real, freqs: seq<real>, terms: seq<real>, lo: int, hi: int, t: nat)
    requires cfg.gain != 0.0 && Steered(cfg, base, freqs, terms, lo, hi) && lo <= hi && 1 <= t < |freqs|
    ensures lo as real - Balance(cfg, base) <= Off(cfg, base, freqs, t) <= hi as real - Balance(cfg, base)
  {
    hide Part, Balance, Difference;
    if t > 1 {
      var u := t - 2;
      assert freqs[u + 2] == NextFreq(cfg, true, freqs[u + 1], Difference(cfg, base, freqs[u] + terms[u]), terms[u], lo, hi);
    }
  }

  lemma {:induction false} SwingShrinks(cfg: Config, base: real, freqs: seq<real>, terms: seq<real>, lo: int, hi: int, m: nat)
    requires cfg.gain != 0.0 && cfg.kf >= 0.0 && lo as real <= Balance(cfg, base) <= hi as real
    requires Steered(cfg, base, freqs, terms, lo, hi) && m + 1 < |freqs|
    ensures Swing(cfg.kf, Off(cfg, base, freqs, m), Off(cfg, base, freqs, m + 1))
            <= Times(Power(cfg.kf, m), Swing(cfg.kf, Off(cfg, base, freqs, 0), Off(cfg, base, freqs, 1)))
  {
    hide Steered, Balance, Swing, Off, Turned, Difference, Power, Times;
    var k, first := cfg.kf, Swing(cfg.kf, Off(cfg, base, freqs, 0), Off(cfg, base, freqs, 1));
    if m == 0 {
      NoPower(k, first);
    } else {
      SwingShrinks(cfg, base, freqs, terms, lo, hi, m - 1);
      TurnIsTurned(cfg, base, freqs, terms, lo, hi, m - 1);
      OffInBand(cfg, base, freqs, terms, lo, hi, m);
      var b := Balance(cfg, base);
      OneSwing(k, Off(cfg, base, freqs, m - 1), Off(cfg, base, freqs, m), lo as real - b, hi as real - b);
      OnePower(k, m, Swing(k, Off(cfg, base, freqs, m - 1), Off(cfg, base, freqs, m)), first);
    }
  }

  lemma NoPower(k: real, x: real)
    ensures Times(Power(k, 0), x) == x
  {
  }

  /** Over any number of turns and whatever the phase terms: the measure has been multiplied by `kf` each turn, at least; so
      for a part above a quarter and below one the frequency term comes to balance. */
  lemma FrequencyTermSettles(cfg: Config, base: real, freqs: seq<real>, terms: seq<real>, lo: int, hi: int, m: nat)
    requires cfg.gain != 0.0 && cfg.kf >= 0.0 && lo as real <= Balance(cfg, base) <= hi as real
    requires Steered(cfg, base, freqs, terms, lo, hi) && m + 1 < |freqs|
    ensures var first := Swing(cfg.kf, Off(cfg, base, freqs, 0), Off(cfg, base, freqs, 1));
            Times(4.0 * cfg.kf - 1.0, Square(Off(cfg, base, freqs, m + 1))) <= Times(4.0 * cfg.kf, Times(Power(cfg.kf, m), first))
  {
    hide Steered, Balance, Swing, Off, Square, Power, Times;
    SwingShrinks(cfg, base, freqs, terms, lo, hi, m);
    SwingBounds(cfg.kf, Off(cfg, base, freqs, m), Off(cfg, base, freqs, m + 1));
    TimesGrows(4.0 * cfg.kf, Swing(cfg.kf, Off(cfg, base, freqs, m), Off(cfg, base, freqs, m + 1)),
               Times(Power(cfg.kf, m), Swing(cfg.kf, Off(cfg, base, freqs, 0), Off(cfg, base, freqs, 1))));
  }

  lemma OnePower(k: real, m: nat, x: real, y: real)
    requires k >= 0.0 && m > 0 && x <= Times(Power(k, m - 1), y)
    ensures Times(k, x) <= Times(Power(k, m), y)
  {
    TimesGrows(k, x, Times(Power(k, m - 1), y));
    assert k * (Power(k, m - 1) * y) == k * Power(k, m - 1) * y;
  }

  /** The bound on the part is needed: from one on the measure never gets less, as long as the band does not bind. */
  lemma {:induction false} NeverSettlesFromOneOn(cfg: Config, base: real, freqs: seq<real>, terms: seq<real>, lo: int, hi: int,
                                                 m: nat)
    requires cfg.gain != 0.0 && cfg.kf >= 1.0 && lo as real <= Balance(cfg, base) <= hi as real
    requires Steered(cfg, base, freqs, terms, lo, hi) && m + 1 < |freqs|
    requires forall t :: 0 <= t < |freqs| ==> lo as real < freqs[t] < hi as real
    ensures Swing(cfg.kf, Off(cfg, base, freqs, 0), Off(cfg, base, freqs, 1))
            <= Swing(cfg.kf, Off(cfg, base, freqs, m), Off(cfg, base, freqs, m + 1))
  {
    hide Steered, Balance, Swing, Turned, Difference, Times;
    if m > 0 {
      NeverSettlesFromOneOn(cfg, base, freqs, terms, lo, hi, m - 1);
      TurnIsTurned(cfg, base, freqs, terms, lo, hi, m - 1);
      OffInBand(cfg, base, freqs, terms, lo, hi, m);
      var b := Balance(cfg, base);
      var x, y := Off(cfg, base, freqs, m - 1), Off(cfg, base, freqs, m);
      OneSwing(cfg.kf, x, y, lo as real - b, hi as real - b);
      SwingNotNegative(cfg.kf, x, y);
      TimesAtLeast(cfg.kf, Swing(cfg.kf, x, y));
    }
  }

  lemma TimesAtLeast(k: real, x: real)
    requires k >= 1.0 && x >= 0.0
    ensures Times(k, x) >= x
  {
    if k > 1.0 && x > 0.0 { Below(1.0 - k, x); }
  }

  lemma SwingNotNegative(k: real, before: real, now: real)
    requires 4.0 * k >= 1.0
    ensures Swing(k, before, now) >= 0.0
  {
    hide Swing, Square;
    SwingBounds(k, before, now);
    NotNegative(now);
    TimesGrows(4.0 * k - 1.0, 0.0, Square(now));
    if Swing(k, before, now) < 0.0 { Below(Swing(k, before, now), 4.0 * k); }
  }

  // --- up to a quarter ---

  /** What is left of the distance when the slower of two parts is taken off. */
  function Rest(r: real, before: real, now: real): real { now - Times(1.0 - r, before) }

  /** Another measure, for a part `r * (1 - r)`. */
  function Reach(r: real, before: real, now: real): real { Greater(Size(now), Size(Rest(r, before, now))) }

  function Greater(x: real, y: real): real { if x < y then y else x }

  lemma SizeTimes(k: real, x: real)
    requires k >= 0.0
    ensures Size(Times(k, x)) == Times(k, Size(x)) >= 0.0
  {
    if x < 0.0 && k > 0.0 { Below(x, k); }
    if x > 0.0 && k > 0.0 { Below(-x, k); }
  }

  /** The band leaves a sum between nothing and itself. */
  lemma ClampedSum(p: real, q: real, lo: real, hi: real)
    requires lo <= 0.0 <= hi
    ensures Size(Clamp(p + q, lo, hi)) <= Size(p) + Size(q)
    ensures Size(Clamp(p + q, lo, hi) - p) <= Greater(Size(p), Size(q))
  {
  }

  lemma TwoParts(r: real, before: real, now: real)
    ensures now - r * (1.0 - r) * before == Times(1.0 - r, now) + Times(r, Rest(r, before, now))
  {
    var x := (1.0 - r) * before;
    assert r * (now - x) == r * now - r * x;
    assert r * x == r * (1.0 - r) * before;
    assert (1.0 - r) * now == now - r * now;
  }

  lemma OneReach(r: real, before: real, now: real, lo: real, hi: real)
    requires 0.0 <= r <= 1.0 && lo <= 0.0 <= hi
    ensures var next := Turned(r * (1.0 - r), before, now, lo, hi);
            && Size(next) <= Times(1.0 - r, Size(now)) + Times(r, Size(Rest(r, before, now)))
            && Size(Rest(r, now, next)) <= Greater(Times(1.0 - r, Size(now)), Times(r, Size(Rest(r, before, now))))
  {
    TwoParts(r, before, now);
    var raw := now - r * (1.0 - r) * before;
    assert Turned(r * (1.0 - r), before, now, lo, hi) == Clamp(raw, lo, hi);
    Parts(r, before, now, raw, lo, hi);
  }

  lemma Parts(r: real, before: real, now: real, raw: real, lo: real, hi: real)
    requires 0.0 <= r <= 1.0 && lo <= 0.0 <= hi && raw == Times(1.0 - r, now) + Times(r, Rest(r, before, now))
    ensures var next := Clamp(raw, lo, hi);
            && Size(next) <= Times(1.0 - r, Size(now)) + Times(r, Size(Rest(r, before, now)))
            && Size(Rest(r, now, next)) <= Greater(Times(1.0 - r, Size(now)), Times(r, Size(Rest(r, before, now))))
  {
    hide Size, Clamp, Greater, Times;
    var rest := Rest(r, before, now);
    ClampedSum(Times(1.0 - r, now), Times(r, rest), lo, hi);
    SizeTimes(1.0 - r, now);
    SizeTimes(r, rest);
  }

  /** Two turns bring the frequency term nearer by at least the part. */
  lemma TwoTurns(r: real, k: real, before: real, now: real, lo: real, hi: real)
    requires 0.5 <= r <= 1.0 && k == r * (1.0 - r) && lo <= 0.0 <= hi
    ensures var next := Turned(k, before, now, lo, hi);
            Reach(r, next, Turned(k, now, next, lo, hi)) <= Times(1.0 - k, Reach(r, before, now))
  {
    hide Size, Turned, Rest, Greater, Times;
    var next := Turned(k, before, now, lo, hi);
    var last := Turned(k, now, next, lo, hi);
    OneReach(r, before, now, lo, hi);
    OneReach(r, now, next, lo, hi);
    AreSizes(now, Rest(r, before, now));
    AreSizes(next, Rest(r, now, next));
    NumbersShrink(r, Size(now), Size(Rest(r, before, now)), Size(next), Size(Rest(r, now, next)), Size(last),
                  Size(Rest(r, next, last)));
    LeavesThis(r, k, Reach(r, before, now));
  }

  lemma LeavesThis(r: real, k: real, n: real)
    requires k == r * (1.0 - r)
    ensures Times(1.0 - r, n) + Times(r, Times(r, n)) == Times(1.0 - k, n)
  {
    var x := r * n;
    assert (1.0 - r) * n == n - x;
    assert k * n == r * (n - x) == x - r * x;
  }

  lemma AreSizes(x: real, y: real)
    ensures Size(x) >= 0.0 && Size(y) >= 0.0
  {
  }

  lemma NumbersShrink(r: real, e: real, f: real, e1: real, f1: real, e2: real, f2: real)
    requires 0.5 <= r <= 1.0 && e >= 0.0 && f >= 0.0 && e1 >= 0.0 && f1 >= 0.0
    requires e1 <= Times(1.0 - r, e) + Times(r, f) && f1 <= Greater(Times(1.0 - r, e), Times(r, f))
    requires e2 <= Times(1.0 - r, e1) + Times(r, f1) && f2 <= Greater(Times(1.0 - r, e1), Times(r, f1))
    ensures Greater(e2, f2) <= Times(1.0 - r, Greater(e, f)) + Times(r, Times(r, Greater(e, f)))
  {
    hide Times;
    var n := Greater(e, f);
    InParts(r, n);
    TimesGrows(1.0 - r, e, n);
    TimesGrows(r, f, n);
    assert e1 <= n && f1 <= Times(r, n);
    TimesGrows(1.0 - r, e1, n);
    TimesGrows(r, f1, Times(r, n));
  }

  lemma InParts(r: real, n: real)
    requires 0.5 <= r <= 1.0 && n >= 0.0
    ensures Times(1.0 - r, n) + Times(r, n) == n
    ensures 0.0 <= Times(1.0 - r, n) <= Times(r, n) && Times(r, Times(r, n)) >= 0.0
  {
    var x := r * n;
    assert (1.0 - r) * n == n - x;
    TimesGrows(n, 1.0 - r, r);
    TimesGrows(1.0 - r, 0.0, n);
    TimesGrows(r, 0.0, x);
  }

  /** For a part of up to a quarter: over any number of turns and whatever the phase terms, every two turns bring the
      frequency term nearer to balance by at least the part. */
  lemma {:induction false} FrequencyTermSettlesSlowly(cfg: Config, base: real, r: real, freqs: seq<real>, terms: seq<real>,
                                                      lo: int, hi: int, m: nat)
    requires cfg.gain != 0.0 && 0.5 <= r <= 1.0 && cfg.kf == r * (1.0 - r) && lo as real <= Balance(cfg, base) <= hi as real
    requires Steered(cfg, base, freqs, terms, lo, hi) && 2 * m + 1 < |freqs|
    ensures Reach(r, Off(cfg, base, freqs, 2 * m), Off(cfg, base, freqs, 2 * m + 1))
            <= Times(Power(1.0 - cfg.kf, m), Reach(r, Off(cfg, base, freqs, 0), Off(cfg, base, freqs, 1)))
    ensures Size(Off(cfg, base, freqs, 2 * m + 1))
            <= Times(Power(1.0 - cfg.kf, m), Reach(r, Off(cfg, base, freqs, 0), Off(cfg, base, freqs, 1)))
  {
    hide Steered, Balance, Turned, Difference, Power, Size, Off, Times, Rest;
    var first := Reach(r, Off(cfg, base, freqs, 0), Off(cfg, base, freqs, 1));
    if m == 0 {
      NoPower(1.0 - cfg.kf, first);
    } else {
      FrequencyTermSettlesSlowly(cfg, base, r, freqs, terms, lo, hi, m - 1);
      var t, b := 2 * m - 2, Balance(cfg, base);
      TurnIsTurned(cfg, base, freqs, terms, lo, hi, t);
      TurnIsTurned(cfg, base, freqs, terms, lo, hi, t + 1);
      TwoTurns(r, cfg.kf, Off(cfg, base, freqs, t), Off(cfg, base, freqs, t + 1), lo as real - b, hi as real - b);
      PartBelowOne(r);
      OnePower(1.0 - cfg.kf, m, Reach(r, Off(cfg, base, freqs, t), Off(cfg, base, freqs, t + 1)), first);
    }
  }

  lemma PartBelowOne(r: real)
    requires 0.5 <= r <= 1.0
    ensures r * (1.0 - r) <= 1.0
  {
    TimesGrows(r, 1.0 - r, 1.0);
  }

  // --- the phase term, once the frequencies are equal without it ---

  /** The part of the error that a turn of the given length takes off. */
  function Pull(cfg: Config, period: real, turn: real): real { cfg.gain * cfg.kp * period / 1000.0 * turn }

  /** The command of a turn: the nearest whole number to the sum of the two terms, or the end of the band that is nearer. */
  ghost predicate IsCommand(freq: real, term: real, lo: int, hi: int, want: int) {
    var goal := freq + term;
    && (lo as real <= goal <= hi as real ==> goal - 0.5 <= want as real <= goal + 0.5)
    && (goal < lo as real ==> want == lo) && (lo as real <= goal && hi as real < goal ==> want == hi)
  }

  /** What a command has beyond balance and the phase term. */
  function Excess(cfg: Config, base: real, command: real, err: real): real
    requires cfg.gain != 0.0
  {
    command - (Balance(cfg, base) + cfg.kp * err)
  }

  /** The phase drifts as the command makes it, which is balance and the phase term up to `slack`; the error of the next turn
      is what has become of it. */
  ghost predicate Drifts(cfg: Config, base: real, m: Measured, command: real, err: real, next: real, turn: real, slack: real)
    requires cfg.gain != 0.0 && m.hz > 0.0
  {
    && Mismatch(m) == Difference(cfg, base, command)
    && Size(Excess(cfg, base, command, err)) <= slack
    && next == err + m.drift * turn
  }

  ghost predicate Drifting(cfg: Config, base: real, ms: seq<Measured>, commands: seq<real>, errs: seq<real>, hz: real,
                           turn: real, slack: real)
    requires cfg.gain != 0.0
  {
    && hz > 0.0 && |errs| == |ms| + 1 == |commands| + 1
    && forall t :: 0 <= t < |ms| ==>
         ms[t].hz == hz && Drifts(cfg, base, ms[t], commands[t], errs[t], errs[t + 1], turn, slack)
  }

  /** A command the camera has need not be sent again while the new one differs by less than the least step. */
  function Slack(cfg: Config): real { if cfg.minStep >= 1 then cfg.minStep as real - 0.5 else 0.5 }

  /** A turn of the controller with its frequency term at balance and within the band: the camera has the command of the turn,
      or one that is less than the least step away. */
  ghost predicate Steers(cfg: Config, base: real, m: Measured, want: int, applied: int, err: real, next: real, turn: real,
                         lo: int, hi: int)
    requires cfg.gain != 0.0 && m.hz > 0.0
  {
    var term := cfg.kp * err;
    && IsCommand(Balance(cfg, base), term, lo, hi, want) && lo as real <= Balance(cfg, base) + term <= hi as real
    && (applied == want || Abs(want - applied) < cfg.minStep)
    && Mismatch(m) == Difference(cfg, base, applied as real) && next == err + m.drift * turn
  }

  lemma OneCommand(cfg: Config, base: real, m: Measured, want: int, applied: int, err: real, next: real, turn: real,
                   lo: int, hi: int)
    requires cfg.gain != 0.0 && m.hz > 0.0 && Steers(cfg, base, m, want, applied, err, next, turn, lo, hi)
    ensures Drifts(cfg, base, m, applied as real, err, next, turn, Slack(cfg))
  {
    hide Mismatch, Difference, Balance, IsCommand, Size;
    var b, term := Balance(cfg, base), cfg.kp * err;
    assert Excess(cfg, base, applied as real, err) == applied as real - (b + term);
    Near(b, term, lo, hi, want, applied, cfg.minStep);
  }

  lemma Near(freq: real, term: real, lo: int, hi: int, want: int, applied: int, step: int)
    requires IsCommand(freq, term, lo, hi, want) && lo as real <= freq + term <= hi as real
    requires applied == want || Abs(want - applied) < step
    ensures Size(applied as real - (freq + term)) <= if step >= 1 then step as real - 0.5 else 0.5
  {
  }

  /** So it is with the commands of the controller. */
  lemma CommandsDrift(cfg: Config, base: real, ms: seq<Measured>, wants: seq<int>, applied: seq<int>, errs: seq<real>,
                      hz: real, turn: real, lo: int, hi: int) returns (commands: seq<real>)
    requires cfg.gain != 0.0 && hz > 0.0 && |errs| == |ms| + 1 && |wants| == |applied| == |ms|
    requires forall t :: 0 <= t < |ms| ==>
               ms[t].hz == hz && Steers(cfg, base, ms[t], wants[t], applied[t], errs[t], errs[t + 1], turn, lo, hi)
    ensures |commands| == |applied| && forall t :: 0 <= t < |applied| ==> commands[t] == applied[t] as real
    ensures Drifting(cfg, base, ms, commands, errs, hz, turn, Slack(cfg))
  {
    hide Steers, Drifts, Slack;
    commands := seq(|applied|, t requires 0 <= t < |applied| => applied[t] as real);
    forall t | 0 <= t < |ms| ensures Drifts(cfg, base, ms[t], commands[t], errs[t], errs[t + 1], turn, Slack(cfg)) {
      OneCommand(cfg, base, ms[t], wants[t], applied[t], errs[t], errs[t + 1], turn, lo, hi);
    }
  }

  /** What a unit of the command moves the phase by in a turn. */
  function Rate(cfg: Config, period: real, turn: real): real { cfg.gain * period / 1000.0 * turn }

  /** How far a turn can be off for the slack. */
  function Slip(cfg: Config, period: real, turn: real, slack: real): real { Times(Size(Rate(cfg, period, turn)), slack) }

  lemma OnePull(cfg: Config, base: real, m: Measured, command: real, err: real, turn: real)
    requires m.hz > 0.0 && cfg.gain != 0.0 && Mismatch(m) == Difference(cfg, base, command)
    ensures err + m.drift * turn - Times(1.0 - Pull(cfg, Period(m), turn), err)
            == Times(-Rate(cfg, Period(m), turn), Excess(cfg, base, command, err))
  {
    var x, y, z := cfg.kp * err, Excess(cfg, base, command, err), command - Balance(cfg, base);
    assert z == x + y;
    hide Excess, Rate, Pull, Mismatch, Difference, Times, Period, Balance;
    AboutBalance(cfg, base, command);
    MovedBy(cfg, m, z, turn);
    PullOf(cfg, Period(m), turn, err);
    SharesOf(Rate(cfg, Period(m), turn), x, y, z);
  }

  lemma AboutBalance(cfg: Config, base: real, command: real)
    requires cfg.gain != 0.0
    ensures Difference(cfg, base, command) == Times(cfg.gain, command - Balance(cfg, base))
  {
    var b := Balance(cfg, base);
    BalanceIsZero(cfg, base);
    assert base == -Times(cfg.gain, b) && Difference(cfg, base, command) == base + Times(cfg.gain, command);
    hide Balance, Times, Difference;
    TimesMinus(cfg.gain, command, b);
  }

  lemma MovedBy(cfg: Config, m: Measured, z: real, turn: real)
    requires m.hz > 0.0 && Mismatch(m) == Times(cfg.gain, z)
    ensures m.drift * turn == -Times(Rate(cfg, Period(m), turn), z)
  {
    DriftOf(m, cfg.gain * z);
    hide Period, Mismatch;
    var p := Period(m);
    assert cfg.gain * z * p / 1000.0 == cfg.gain * p / 1000.0 * z;
    assert cfg.gain * p / 1000.0 * z * turn == cfg.gain * p / 1000.0 * turn * z;
  }

  lemma DriftOf(m: Measured, mismatch: real)
    requires m.hz > 0.0 && Mismatch(m) == mismatch
    ensures m.drift == -(mismatch * Period(m) / 1000.0)
  {
    hide Period;
    var p := Period(m);
    assert -m.drift * 1000.0 == mismatch * p by { assert -m.drift * 1000.0 / p == mismatch; }
  }

  lemma PullOf(cfg: Config, period: real, turn: real, err: real)
    ensures Times(1.0 - Pull(cfg, period, turn), err) == err - Times(Rate(cfg, period, turn), cfg.kp * err)
  {
    var g := cfg.gain * period / 1000.0;
    assert cfg.gain * cfg.kp * period / 1000.0 == g * cfg.kp;
    assert g * cfg.kp * turn * err == g * turn * (cfg.kp * err);
    var c := Pull(cfg, period, turn);
    assert (1.0 - c) * err == err - c * err;
  }

  lemma SharesOf(g: real, x: real, y: real, z: real)
    requires z == x + y
    ensures Times(g, z) == Times(g, x) + Times(g, y) && Times(-g, y) == -Times(g, y)
  {
  }

  lemma OneDrift(cfg: Config, base: real, ms: seq<Measured>, commands: seq<real>, errs: seq<real>, hz: real, turn: real,
                 slack: real, t: nat)
    requires cfg.gain != 0.0 && Drifting(cfg, base, ms, commands, errs, hz, turn, slack) && t + 1 < |errs|
    ensures var p := 1000.0 / hz;
            Size(errs[t + 1] - Times(1.0 - Pull(cfg, p, turn), errs[t])) <= Slip(cfg, p, turn, slack)
  {
    assert hz > 0.0 && ms[t].hz == hz;
    hide Drifts, Slip, Pull, Times, Size;
    HasDrifted(cfg, base, ms[t], commands[t], errs[t], errs[t + 1], turn, slack);
  }

  lemma HasDrifted(cfg: Config, base: real, m: Measured, command: real, err: real, next: real, turn: real, slack: real)
    requires cfg.gain != 0.0 && m.hz > 0.0 && Drifts(cfg, base, m, command, err, next, turn, slack)
    ensures Size(next - Times(1.0 - Pull(cfg, Period(m), turn), err)) <= Slip(cfg, Period(m), turn, slack)
  {
    hide Excess, Rate, Pull, Mismatch, Difference, Times, Size, Balance, Period;
    var g, off := Rate(cfg, Period(m), turn), Excess(cfg, base, command, err);
    OnePull(cfg, base, m, command, err, turn);
    assert next - Times(1.0 - Pull(cfg, Period(m), turn), err) == Times(-g, off);
    SizeOfTimes(-g, off);
    SameSize(g);
    TimesGrows(Size(g), Size(off), slack);
  }

  lemma SameSize(x: real)
    ensures Size(-x) == Size(x) >= 0.0
  {
  }

  /** What has become of a unit in every turn, when each turn leaves the part `k`. */
  function Spread(k: real, m: nat): real { if m == 0 then 0.0 else Times(k, Spread(k, m - 1)) + 1.0 }

  /** Every turn leaves the same part of the error, up to the slack of the command; over any number of turns the slack adds
      up to no more than that of a turn divided by what a turn takes off. */
  lemma {:induction false} PhaseTermSettles(cfg: Config, base: real, ms: seq<Measured>, commands: seq<real>, errs: seq<real>,
                                            hz: real, turn: real, slack: real, m: nat)
    requires cfg.gain != 0.0 && Drifting(cfg, base, ms, commands, errs, hz, turn, slack) && slack >= 0.0 && m < |errs|
    ensures var c, slip := Pull(cfg, 1000.0 / hz, turn), Slip(cfg, 1000.0 / hz, turn, slack);
            var off := Size(errs[m] - Times(Power(1.0 - c, m), errs[0]));
            off <= Times(Spread(Size(1.0 - c), m), slip) && (Size(1.0 - c) <= 1.0 ==> Times(1.0 - Size(1.0 - c), off) <= slip)
  {
    assert hz > 0.0;
    hide Power, Pull, Drifting, Times, Size, Spread, Slip, Balance;
    var c, slip := Pull(cfg, 1000.0 / hz, turn), Slip(cfg, 1000.0 / hz, turn, slack);
    if m == 0 {
      NoPower(1.0 - c, errs[0]);
      NoSpread(Size(1.0 - c), slip, errs[0]);
      SlipNotNegative(cfg, 1000.0 / hz, turn, slack);
    } else {
      PhaseTermSettles(cfg, base, ms, commands, errs, hz, turn, slack, m - 1);
      OneDrift(cfg, base, ms, commands, errs, hz, turn, slack, m - 1);
      NextSpread(1.0 - c, slip, errs[m - 1], errs[m], errs[0], m);
    }
  }

  lemma SlipNotNegative(cfg: Config, period: real, turn: real, slack: real)
    requires slack >= 0.0
    ensures Slip(cfg, period, turn, slack) >= 0.0
  {
    TimesGrows(Size(Rate(cfg, period, turn)), 0.0, slack);
  }

  lemma NoSpread(k: real, slip: real, x: real)
    ensures Times(Spread(k, 0), slip) == 0.0 == Size(x - x) && Times(1.0 - k, Size(x - x)) == 0.0
  {
  }

  lemma NextSpread(k: real, slip: real, before: real, now: real, first: real, m: nat)
    requires m > 0 && Size(before - Times(Power(k, m - 1), first)) <= Times(Spread(Size(k), m - 1), slip)
    requires Size(now - Times(k, before)) <= slip
    ensures var off := Size(now - Times(Power(k, m), first));
            off <= Times(Spread(Size(k), m), slip) && (Size(k) <= 1.0 ==> Times(1.0 - Size(k), off) <= slip)
  {
    hide Power, Times, Spread, Size;
    var was, left := before - Times(Power(k, m - 1), first), now - Times(k, before);
    NextPower(k, m, first);
    TimesMinus(k, before, Times(Power(k, m - 1), first));
    SizeOfTimes(k, was);
    SizeOfSum(left, Times(k, was));
    SameSize(k);
    TimesGrows(Size(k), Size(was), Times(Spread(Size(k), m - 1), slip));
    OneSpread(Size(k), m, slip);
    if Size(k) <= 1.0 {
      TimesGrows(1.0 - Size(k), Size(now - Times(Power(k, m), first)), Times(Spread(Size(k), m), slip));
      SpreadBound(Size(k), m, slip);
    }
  }

  lemma TimesMinus(k: real, x: real, y: real)
    ensures Times(k, x - y) == Times(k, x) - Times(k, y)
  {
  }

  lemma SizeOfSum(x: real, y: real)
    ensures Size(x + y) <= Size(x) + Size(y) && Size(x) >= 0.0
  {
  }

  lemma OneSpread(k: real, m: nat, slip: real)
    requires m > 0
    ensures Times(Spread(k, m), slip) == Times(k, Times(Spread(k, m - 1), slip)) + slip
  {
    var s := Spread(k, m - 1);
    assert (k * s + 1.0) * slip == k * s * slip + slip;
    assert k * s * slip == k * (s * slip);
  }

  lemma {:induction false} SpreadBound(k: real, m: nat, slip: real)
    requires 0.0 <= k <= 1.0 && slip >= 0.0
    ensures Times(1.0 - k, Times(Spread(k, m), slip)) <= slip
  {
    if m > 0 {
      SpreadBound(k, m - 1, slip);
      OneSpread(k, m, slip);
      var x := Times(Spread(k, m - 1), slip);
      TimesGrows(k, Times(1.0 - k, x), slip);
      assert (1.0 - k) * (k * x + slip) == k * ((1.0 - k) * x) + (1.0 - k) * slip;
      assert (1.0 - k) * slip == slip - k * slip;
    } else {
      TimesGrows(slip, 0.0, 1.0);
    }
  }

  /** With exact commands the phase comes nearer to its target exactly if what a turn takes off is between none and twice the
      error. */
  lemma PhaseComesNearer(cfg: Config, base: real, ms: seq<Measured>, commands: seq<real>, errs: seq<real>, hz: real,
                         turn: real, t: nat)
    requires cfg.gain != 0.0 && Drifting(cfg, base, ms, commands, errs, hz, turn, 0.0) && t + 1 < |errs| && errs[t] != 0.0
    ensures Size(errs[t + 1]) < Size(errs[t]) <==> 0.0 < Pull(cfg, 1000.0 / hz, turn) < 2.0
  {
    assert hz > 0.0;
    OneDrift(cfg, base, ms, commands, errs, hz, turn, 0.0, t);
    Nearer(Pull(cfg, 1000.0 / hz, turn), errs[t]);
    hide Pull, Drifting, Times;
    assert Slip(cfg, 1000.0 / hz, turn, 0.0) == 0.0 by { UnitTimes(Size(Rate(cfg, 1000.0 / hz, turn))); }
  }

  lemma NextPower(x: real, m: nat, y: real)
    requires m > 0
    ensures Times(x, Times(Power(x, m - 1), y)) == Times(Power(x, m), y)
  {
    assert x * (Power(x, m - 1) * y) == x * Power(x, m - 1) * y;
  }

  lemma Nearer(c: real, x: real)
    requires x != 0.0
    ensures Size(Times(1.0 - c, x)) < Size(x) <==> 0.0 < c < 2.0
  {
    hide Times;
    SizeOfTimes(1.0 - c, x);
    if Size(1.0 - c) < 1.0 {
      LessThanWhole(Size(1.0 - c), Size(x));
    } else {
      TimesGrows(Size(x), 1.0, Size(1.0 - c));
      UnitTimes(Size(x));
    }
  }

  lemma LessThanWhole(k: real, s: real)
    requires k < 1.0 && s > 0.0
    ensures Times(k, s) < s
  {
    Below(k - 1.0, s);
  }

  lemma SizeOfTimes(k: real, x: real)
    ensures Size(Times(k, x)) == Times(Size(k), Size(x)) == Times(Size(x), Size(k))
  {
    assert (-k) * (-x) == k * x && (-k) * x == -(k * x) == k * (-x);
    if k > 0.0 && x > 0.0 { Below(-k, x); }
    if k < 0.0 && x < 0.0 { Below(k, -x); }
    if k < 0.0 && x > 0.0 { Below(k, x); }
    if k > 0.0 && x < 0.0 { Below(x, k); }
  }

  /** Two values are the same point of the circle. */
  ghost predicate SamePoint(a: real, b: real, period: real) { exists k: int :: Apart(a, b, period, k) }

  lemma Shifted(phase: real, wanted: real, target: real, err: real, period: real, j: int, k: int)
    requires Apart(wanted, target, period, j) && Apart(phase - target, err, period, k)
    ensures SamePoint(phase - wanted, err, period)
  {
    assert Apart(phase - wanted, err, period, k - j) by {
      assert (k - j) as real * period == k as real * period - j as real * period;
    }
  }

  class PhaseController {
    const cfg: Config
    const api: CameraApi
    var freq: real
    const hist: array<real>
    var head: nat
    var seeded: bool
    var applied: int
    var lastSend: int
    var camKnown: bool
    var camLo: int
    var camHi: int
    var lastTaken: nat
    var engaged: bool
    /** Every phase term and every command so far. */
    ghost var terms: seq<real>
    ghost var sent: seq<Command>

    constructor (cfg: Config, api: CameraApi)
      requires cfg.gain != 0.0
      ensures Valid() && this.cfg == cfg && this.api == api && fresh(hist) && sent == [] && !camKnown
    {
      this.cfg, this.api, freq, head, seeded, applied, lastSend := cfg, api, 0.0, 0, false, 0, 0;
      camKnown, camLo, camHi, lastTaken, engaged := false, 0, 0, 0, false;
      hist := new real[2](_ => 0.0);
      terms, sent := [], [];
    }

    ghost predicate Valid()
      reads this, hist
    {
      && cfg.gain != 0.0 && hist.Length == 2 && head < 2
      && hist[head] == Ago(terms, 2) && hist[1 - head] == Ago(terms, 1)
      && forall c :: c in sent ==> InBand(c)
    }

    /** The band of control: ours and the camera's, as far as it has told. */
    function EffLo(): (lo: int)
      reads this
      ensures -cfg.trimLimit <= lo && (camKnown ==> camLo <= lo) && (lo == -cfg.trimLimit || (camKnown && lo == camLo))
    {
      if camKnown && camLo > -cfg.trimLimit then camLo else -cfg.trimLimit
    }

    function EffHi(): (hi: int)
      reads this
      ensures hi <= cfg.trimMax && (camKnown ==> hi <= camHi) && (hi == cfg.trimMax || (camKnown && hi == camHi))
    {
      if camKnown && camHi < cfg.trimMax then camHi else cfg.trimMax
    }

    method Hold()
      modifies this`engaged
      ensures !engaged
    {
      engaged := false;
    }

    method Adopt(rep: Reply)
      modifies this`camKnown, this`camLo, this`camHi, this`applied
      ensures applied == if rep.phase.Some? then rep.phase.value.trim else old(applied)
      ensures if rep.phase.Some? && rep.phase.value.band.Some?
              then camKnown && Band(camLo, camHi) == rep.phase.value.band.value
              else camKnown == old(camKnown) && camLo == old(camLo) && camHi == old(camHi)
    {
      if rep.phase.None? { return; }
      var p := rep.phase.value;
      if p.band.Some? && (!camKnown || p.band.value.lo != camLo || p.band.value.hi != camHi) {
        camLo, camHi, camKnown := p.band.value.lo, p.band.value.hi, true;
      }
      applied := p.trim;
    }

    /** Writes a value to the camera. After every write that is answered with state or accepted, what the controller
        believes to be applied is what the camera has; a write that is accepted is applied unchanged. */
    method Push(mhz: int, now: int, cam: Camera, ghost byTick: bool) returns (rep: Reply)
      requires Valid() && InBand(Command(mhz, freq, EffLo(), EffHi(), byTick))
      modifies this`lastSend, this`camKnown, this`camLo, this`camHi, this`applied, this`sent
      modifies api`dialect, api`requests, api`failures, cam`trim
      ensures Valid() && lastSend == now
      ensures rep.ok || rep.phase.Some? ==> applied == cam.trim
      ensures rep.ok ==> cam.trim == mhz
      ensures !rep.ok && rep.phase.None? ==> applied == old(applied)
      ensures rep.phase.Some? && rep.phase.value.band.Some? ==> camKnown && Band(camLo, camHi) == cam.band
      ensures sent == old(sent) + [Command(mhz, freq, old(EffLo()), old(EffHi()), byTick)]
      ensures old(api.dialect) == Legacy ==> api.dialect == Legacy
    {
      sent := sent + [Command(mhz, freq, EffLo(), EffHi(), byTick)];
      rep := api.SetPhase(mhz, cam);
      lastSend := now;
      Adopt(rep);
      if rep.ok && rep.phase.None? { applied := mhz; }
    }

    /** Another camera has another band. */
    method Retarget(ip: string) returns (moved: bool)
      modifies this`camKnown, api`host, api`dialect
      ensures moved <==> ip != "" && ip != old(api.host)
      ensures moved ==> api.host == ip && api.dialect == Auto && !camKnown
      ensures !moved ==> api.host == old(api.host) && api.dialect == old(api.dialect) && camKnown == old(camKnown)
    {
      if ip == "" || ip == api.host { return false; }
      api.SetHost(ip);
      camKnown := false;
      moved := true;
    }

    /** Frames have stopped, or the display's rate is not known: nothing is learned and nothing is sent. */
    predicate Holds(m: Measured)
      reads this
    {
      m.hz <= 0.0 || m.taken == lastTaken
    }

    /** The signed error: the shortest way round from the target to the measured phase. */
    ghost predicate IsError(m: Measured, period: real, err: real) {
      var target := if cfg.targetPhase < 0.0 then m.pollOffset - cfg.guard else cfg.targetPhase;
      -period * 0.5 < err <= period * 0.5 && SamePoint(m.phase - target, err, period)
    }

    method Error(m: Measured, period: real) returns (err: real)
      requires period > 0.0
      ensures IsError(m, period, err)
    {
      hide Apart, SamePoint;
      var target := cfg.targetPhase;
      if target < 0.0 { target := m.pollOffset - cfg.guard; }
      ghost var wanted := target;
      ghost var j, k;
      target, j := WrapPositive(target, period);
      err, k := WrapSigned(m.phase - target, period);
      Shifted(m.phase, wanted, target, err, period, j, k);
    }

    /** The two terms: what drift has been measured lies two turns back, so the phase term of that turn is left out. */
    method Steer(err: real, mismatch: real) returns (term: real)
      requires Valid()
      modifies this`freq, this`head, this`seeded, this`terms, hist
      ensures Valid() && seeded && terms == old(terms) + [term] && term == cfg.kp * err == PhaseTerm(cfg, err)
      ensures freq == NextFreq(cfg, old(seeded), old(freq), mismatch, Ago(old(terms), 2), EffLo(), EffHi())
      ensures EffLo() <= EffHi() ==> EffLo() as real <= freq <= EffHi() as real
    {
      hide Whole, Part;
      var own := hist[head];
      term := PhaseTerm(cfg, err);
      hist[head] := term;
      head := (head + 1) % 2;
      terms := terms + [term];
      if !seeded {
        freq := Clamp(Whole(cfg, mismatch), EffLo() as real, EffHi() as real);
        seeded := true;
      } else {
        freq := freq - Part(cfg, mismatch, own);
      }
      freq := Clamp(freq, EffLo() as real, EffHi() as real);
    }

    /** The command for an error. */
    function Wanted(err: real): int
      reads this
    {
      LRound(Clamp(freq + PhaseTerm(cfg, err), EffLo() as real, EffHi() as real))
    }

    /** It is the frequency term and the phase term, or an end of the band. */
    lemma WantedIsCommand(err: real)
      ensures IsCommand(freq, PhaseTerm(cfg, err), EffLo(), EffHi(), Wanted(err))
    {
      hide PhaseTerm;
      var goal := freq + PhaseTerm(cfg, err);
      Rounded(goal);
      RoundStays(EffLo() as real, EffLo(), EffLo());
      RoundStays(EffHi() as real, EffHi(), EffHi());
    }

    /** Frequency term and command are in the band whenever the band is not empty. */
    lemma WantedIsInBand(err: real)
      requires EffLo() <= EffHi()
      ensures EffLo() <= Wanted(err) <= EffHi()
    {
      RoundStays(Clamp(freq + PhaseTerm(cfg, err), EffLo() as real, EffHi() as real), EffLo(), EffHi());
    }

    /** One turn of the loop: `lo` and `hi` are the band in which it steers, `want` its command. The command stands if it did
        not have to be sent or the camera accepted it. */
    method Tick(m: Measured, ip: string, cam: Camera)
      returns (ghost err: real, ghost term: real, ghost want: int, ghost lo: int, ghost hi: int, ghost stands: bool)
      requires Valid()
      modifies this, hist, api, cam`trim
      ensures Valid()
      ensures old(Holds(m)) ==>
                !engaged && freq == old(freq) && terms == old(terms) && seeded == old(seeded) && sent == old(sent)
                && applied == old(applied) && cam.trim == old(cam.trim)
      ensures !old(Holds(m)) ==>
                && engaged && seeded && terms == old(terms) + [term] && term == cfg.kp * err && IsError(m, Period(m), err)
                && IsCommand(freq, term, lo, hi, want)
                && (stands ==> want == applied || Abs(want - applied) < cfg.minStep)
                && (sent == old(sent) ==> stands && applied == old(applied) && cam.trim == old(cam.trim))
                && (stands && sent != old(sent) ==> want == applied == cam.trim)
                && (lo, hi) == (if ip == "" || ip == old(api.host) then (old(EffLo()), old(EffHi()))
                                else (-cfg.trimLimit, cfg.trimMax))
                && freq == NextFreq(cfg, old(seeded), old(freq), Mismatch(m), Ago(old(terms), 2), lo, hi)
                && (lo <= hi ==> lo <= want <= hi && lo as real <= freq <= hi as real)
                && sent == old(sent) + (if Abs(want - old(applied)) >= cfg.minStep || m.now - old(lastSend) > cfg.heartbeatNs
                                        then [Command(want, freq, lo, hi, true)] else [])
      ensures old(api.dialect) == Legacy && api.dialect != Legacy ==> ip != "" && api.host == ip != old(api.host)
    {
      hide NextFreq, IsError, IsCommand, Mismatch, Period;
      err, term, want, lo, hi, stands := 0.0, 0.0, 0, 0, 0, false;
      var moved := Retarget(ip);
      if m.hz <= 0.0 { Hold(); return; }
      if m.taken == lastTaken { Hold(); return; }
      lastTaken := m.taken;
      lo, hi := EffLo(), EffHi();
      err, term, want, stands := Lead(m, cam);
      engaged := true;
    }

    /** The part of a turn that steers and sends. */
    method Lead(m: Measured, cam: Camera) returns (ghost err: real, ghost term: real, ghost want: int, ghost stands: bool)
      requires Valid() && m.hz > 0.0
      modifies this`freq, this`head, this`seeded, this`terms, hist
      modifies this`lastSend, this`camKnown, this`camLo, this`camHi, this`applied, this`sent
      modifies api`dialect, api`requests, api`failures, cam`trim
      ensures Valid() && seeded && terms == old(terms) + [term] && term == cfg.kp * err && IsError(m, Period(m), err)
      ensures IsCommand(freq, term, old(EffLo()), old(EffHi()), want)
      ensures stands ==> want == applied || Abs(want - applied) < cfg.minStep
      ensures sent == old(sent) ==> stands && applied == old(applied) && cam.trim == old(cam.trim)
      ensures stands && sent != old(sent) ==> want == applied == cam.trim
      ensures freq == NextFreq(cfg, old(seeded), old(freq), Mismatch(m), Ago(old(terms), 2), old(EffLo()), old(EffHi()))
      ensures old(EffLo()) <= old(EffHi()) ==>
                old(EffLo()) <= want <= old(EffHi()) && old(EffLo()) as real <= freq <= old(EffHi()) as real
      ensures sent == old(sent) + (if Abs(want - old(applied)) >= cfg.minStep || m.now - old(lastSend) > cfg.heartbeatNs
                                   then [Command(want, freq, old(EffLo()), old(EffHi()), true)] else [])
      ensures old(api.dialect) == Legacy ==> api.dialect == Legacy
    {
      hide PhaseTerm, Period, Mismatch, IsError, IsCommand, LRound, Clamp, NextFreq;
      var e := Error(m, Period(m));
      var own := Steer(e, Mismatch(m));
      if EffLo() <= EffHi() { WantedIsInBand(e); }
      WantedIsCommand(e);
      var w := Wanted(e);
      err, term, want, stands := e, own, w, true;
      if Abs(w - applied) >= cfg.minStep || m.now - lastSend > cfg.heartbeatNs {
        var rep := Push(w, m.now, cam, true);
        stands := rep.ok;
      }
    }

    /** Start: what the camera says about its band, and an explicit zero, which is not kept to the band. */
    method Begin(status: Answer, now: int, cam: Camera) returns (rep: Reply)
      requires Valid()
      modifies this`lastSend, this`camKnown, this`camLo, this`camHi, this`applied, this`sent, api, cam`trim
      ensures Valid() && lastSend == now
      ensures rep.ok || rep.phase.Some? ==> applied == cam.trim
      ensures rep.ok ==> cam.trim == 0
      ensures |sent| == |old(sent)| + 1 && sent[|old(sent)|].mhz == 0
      ensures old(api.dialect) == Legacy ==> api.dialect == Legacy
    {
      rep := api.Query(status);
      if rep.ok && rep.phase.Some? && rep.phase.value.band.Some? {
        camLo, camHi, camKnown := rep.phase.value.band.value.lo, rep.phase.value.band.value.hi, true;
      }
      rep := Push(0, now, cam, false);
    }
  }
}
