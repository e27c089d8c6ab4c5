/** Loss accounting by RTP sequence numbers (diag/link_monitor.cpp), against the extended numbering of section 5.1 of
    RFC 3550. */
module LinkMonitor {
  const WRAP: int := 0x1_0000

  /** Conversion to sixteen signed bits. */
  function Int16(x: int): (d: int)
    ensures -0x8000 <= d < 0x8000
  {
    var u := x % WRAP;
    if u < 0x8000 then u else u - WRAP
  }

  /** The steps of a stream: holes, steps back, and where its extended number has come to. */
  datatype Counts = Counts(lost: nat, reordered: nat, dups: nat, back: nat, extended: int)

  function Counted(c: Counts, delta: int): Counts {
    if delta > 0 then c.(lost := c.lost + delta, extended := c.extended + delta + 1)
    else if delta == 0 then c.(extended := c.extended + 1)
    else if delta == -1 then c.(dups := c.dups + 1, back := c.back + 1)
    else c.(reordered := c.reordered + 1, back := c.back - delta, extended := c.extended + delta + 1)
  }

  function Delta(before: nat, number: nat): int { Int16(number - (before + 1) % WRAP) }

  function Account(numbers: seq<nat>): Counts
    requires numbers != []
  {
    var n := |numbers| - 1;
    if n == 0 then Counts(0, 0, 0, 0, numbers[0])
    else Counted(Account(numbers[..n]), Delta(numbers[n - 1], numbers[n]))
  }

  ghost predicate SixteenBits(numbers: seq<nat>) { forall i :: 0 <= i < |numbers| ==> numbers[i] < WRAP }

  /** For any stream the steps add up: what is lost is what the numbering went forward, less the packets, plus what it
      went back. The extended number stays that of the last packet. */
  lemma {:induction false} StepsAddUp(numbers: seq<nat>)
    requires numbers != [] && SixteenBits(numbers)
    ensures var c := Account(numbers);
            && c.lost + |numbers| == c.extended - numbers[0] + 1 + c.back
            && c.extended % WRAP == numbers[|numbers| - 1]
            && c.back >= 2 * c.reordered + c.dups
            && (c.reordered == 0 && c.dups == 0 ==> c.back == 0)
  {
    var n := |numbers| - 1;
    if n > 0 {
      StepsAddUp(numbers[..n]);
      Moves(Account(numbers[..n]).extended, numbers[n - 1], numbers[n]);
    }
  }

  lemma Moves(extended: int, before: nat, number: nat)
    requires before < WRAP && number < WRAP && extended % WRAP == before
    ensures (extended + Delta(before, number) + 1) % WRAP == number
  {
    hide Delta;
    var k := DeltaWraps(before, number);
    var q := extended / WRAP;
    assert extended == WRAP * q + before;
    Multiple(q + k, number);
  }

  /** A step is the difference of the numbers up to one wrap-around. */
  lemma DeltaWraps(before: nat, number: nat) returns (k: int)
    requires before < WRAP && number < WRAP
    ensures Delta(before, number) == number - before - 1 + WRAP * k
  {
    k := if Delta(before, number) == number - before - 1 then 0
         else if Delta(before, number) == number - before - 1 + WRAP then 1 else -1;
  }

  lemma Multiple(q: int, r: nat)
    requires r < WRAP
    ensures (WRAP * q + r) % WRAP == r
  {
  }

  /** A packet is a duplicate exactly if it has the number of the one before it, and in order exactly if it has the next. */
  lemma StepsMean(before: nat, number: nat)
    requires before < WRAP && number < WRAP
    ensures Delta(before, number) == -1 <==> number == before
    ensures Delta(before, number) == 0 <==> number == (before + 1) % WRAP
  {
  }

  /** The stream never steps back: a number is never less than the one expected, modulo 2^16. */
  ghost predicate NeverBack(numbers: seq<nat>) {
    forall i :: 1 <= i < |numbers| ==> Delta(numbers[i - 1], numbers[i]) >= 0
  }

  lemma {:induction false} StepsBackAreCounted(numbers: seq<nat>)
    requires numbers != []
    ensures NeverBack(numbers) <==> Account(numbers).reordered == 0 && Account(numbers).dups == 0
  {
    hide Delta;
    var n := |numbers| - 1;
    if n > 0 {
      var init := numbers[..n];
      StepsBackAreCounted(init);
      if NeverBack(numbers) {
        forall i | 1 <= i < n ensures Delta(init[i - 1], init[i]) >= 0 { assert Delta(numbers[i - 1], numbers[i]) >= 0; }
      }
      if NeverBack(init) && Delta(numbers[n - 1], numbers[n]) >= 0 {
        forall i | 1 <= i <= n ensures Delta(numbers[i - 1], numbers[i]) >= 0 {
          if i < n { assert Delta(init[i - 1], init[i]) >= 0; }
        }
      }
    }
  }

  /** So the packets and the losses of a stream make up its numbering exactly when it never steps back. */
  lemma ExactWithoutStepsBack(numbers: seq<nat>)
    requires numbers != [] && SixteenBits(numbers)
    ensures var c := Account(numbers); c.lost + |numbers| == c.extended - numbers[0] + 1 <==> NeverBack(numbers)
  {
    hide Account, NeverBack;
    StepsAddUp(numbers);
    StepsBackAreCounted(numbers);
  }

  /** A stream in order, with holes of fewer than 2^15 packets, sent with the numbers `sent`. */
  ghost predicate InOrder(sent: seq<int>) {
    forall i :: 1 <= i < |sent| ==> 0 < sent[i] - sent[i - 1] <= 0x8000
  }

  /** For such a stream the losses are exactly the numbers that are missing, across every wrap-around. */
  lemma {:induction false} LossesAreTheHoles(sent: seq<int>, numbers: seq<nat>)
    requires sent != [] && |sent| == |numbers| && InOrder(sent)
    requires forall i :: 0 <= i < |sent| ==> numbers[i] == sent[i] % WRAP
    ensures var c := Account(numbers);
            && c.reordered == 0 && c.dups == 0 && c.extended - numbers[0] == sent[|sent| - 1] - sent[0]
            && c.lost + |numbers| == sent[|sent| - 1] - sent[0] + 1
  {
    var n := |sent| - 1;
    if n > 0 {
      LossesAreTheHoles(sent[..n], numbers[..n]);
      assert Delta(numbers[n - 1], numbers[n]) == sent[n] - sent[n - 1] - 1 by {
        Forward(sent[n - 1], sent[n]);
      }
    }
  }

  lemma Forward(a: int, b: int)
    requires 0 < b - a <= 0x8000
    ensures Delta(a % WRAP, b % WRAP) == b - a - 1
  {
    var x := b % WRAP - (a % WRAP + 1) % WRAP;
    assert (x - (b - a - 1)) % WRAP == 0;
    assert x % WRAP == b - a - 1;
  }

  /** Out of order it counts too many: four packets, none missing, and two losses. */
  lemma ReorderingIsCountedAsLoss() returns (numbers: seq<nat>)
    ensures numbers == [1, 3, 2, 4] && Account(numbers).lost == 2 && Account(numbers).reordered == 1
  {
    hide Delta, Account;
    var a: seq<nat> := [1];
    var b, c := a + [3], a + [3] + [2];
    SomeSteps();
    FirstOne(1);
    OneMore(a, 3);
    OneMore(b, 2);
    OneMore(c, 4);
    numbers := c + [4];
  }

  lemma FirstOne(number: nat)
    ensures Account([number]) == Counts(0, 0, 0, 0, number)
  {
  }

  lemma SomeSteps()
    ensures Delta(1, 3) == 1 && Delta(3, 2) == -2 && Delta(2, 4) == 1
  {
  }

  lemma OneMore(numbers: seq<nat>, number: nat)
    requires numbers != []
    ensures Account(numbers + [number]) == Counted(Account(numbers), Delta(numbers[|numbers| - 1], number))
  {
    assert (numbers + [number])[..|numbers|] == numbers;
  }

  /** The longest pause. */
  function Max(a: int, b: int): int { if a > b then a else b }

  class Monitor {
    const gapMs: int
    var expected: nat
    var haveExpected: bool
    var lastArrival: int
    var packets: nat
    var lost: nat
    var reordered: nat
    var dups: nat
    var gaps: nat
    var gapsWithLoss: nat
    var gapsClean: nat
    var lastGapMs: int
    var lastGapHadLoss: bool
    var worstGapMs: int
    ghost var numbers: seq<nat>
    /** The pauses that were long enough, and whether each ended with a hole. */
    ghost var pauses: seq<(int, bool)>

    constructor (gapMs: int)
      ensures Valid() && numbers == [] && pauses == []
    {
      this.gapMs, expected, haveExpected, lastArrival := gapMs, 0, false, 0;
      packets, lost, reordered, dups := 0, 0, 0, 0;
      gaps, gapsWithLoss, gapsClean, lastGapMs, lastGapHadLoss, worstGapMs := 0, 0, 0, 0, false, 0;
      numbers, pauses := [], [];
    }

    ghost predicate Valid()
      reads this
    {
      Numbering() && Pausing()
    }

    ghost predicate Numbering()
      reads this`packets, this`numbers, this`haveExpected, this`expected, this`lost, this`reordered, this`dups
    {
      && packets == |numbers| && SixteenBits(numbers) && haveExpected == (numbers != [])
      && (if numbers == [] then lost == reordered == dups == 0
          else expected == (numbers[|numbers| - 1] + 1) % WRAP
               && var c := Account(numbers); c.lost == lost && c.reordered == reordered && c.dups == dups)
    }

    ghost predicate Pausing()
      reads this`gaps, this`gapsWithLoss, this`gapsClean, this`pauses, this`worstGapMs, this`lastGapMs, this`lastGapHadLoss
    {
      && gaps == gapsWithLoss + gapsClean == |pauses|
      && gapsWithLoss == WithLoss(pauses) && worstGapMs == Worst(pauses)
      && (pauses != [] ==> (lastGapMs, lastGapHadLoss) == pauses[|pauses| - 1])
    }

    static function WithLoss(pauses: seq<(int, bool)>): nat {
      if pauses == [] then 0 else WithLoss(pauses[..|pauses| - 1]) + if pauses[|pauses| - 1].1 then 1 else 0
    }

    static function Worst(pauses: seq<(int, bool)>): (w: int)
      ensures w >= 0 && (forall p :: p in pauses ==> p.0 <= w) && (w == 0 || exists p :: p in pauses && p.0 == w)
    {
      if pauses == [] then 0 else Max(pauses[|pauses| - 1].0, Worst(pauses[..|pauses| - 1]))
    }

    static lemma OnePauseMore(pauses: seq<(int, bool)>, gap: int, lost: bool)
      ensures WithLoss(pauses + [(gap, lost)]) == WithLoss(pauses) + if lost then 1 else 0
      ensures Worst(pauses + [(gap, lost)]) == Max(gap, Worst(pauses))
    {
      assert (pauses + [(gap, lost)])[..|pauses|] == pauses;
    }

    /** Accounts for one packet. A pause is laid to the link exactly when the packet that ends it leaves a hole. */
    method Packet(number: nat, now: int)
      requires Valid() && number < WRAP
      modifies this
      ensures Valid() && numbers == old(numbers) + [number] && lastArrival == now
      ensures var gap := if old(lastArrival) > 0 then now - old(lastArrival) else 0;
              var hole := old(numbers) != [] && Delta(old(numbers)[|old(numbers)| - 1], number) > 0;
              pauses == old(pauses) + (if gap >= gapMs then [(gap, hole)] else [])
    {
      hide Delta, Numbering, Pausing;
      var gap := 0;
      if lastArrival > 0 { gap := now - lastArrival; }
      lastArrival := now;
      var lostHere := Number(number);
      if gap >= gapMs { Pause(gap, lostHere); }
    }

    method Pause(gap: int, lostHere: bool)
      requires Valid()
      modifies this`gaps, this`lastGapMs, this`lastGapHadLoss, this`worstGapMs, this`gapsWithLoss, this`gapsClean, this`pauses
      ensures Valid() && pauses == old(pauses) + [(gap, lostHere)]
    {
      hide Numbering, WithLoss, Worst;
      OnePauseMore(pauses, gap, lostHere);
      gaps, lastGapMs, lastGapHadLoss := gaps + 1, gap, lostHere;
      if gap > worstGapMs { worstGapMs := gap; }
      if lostHere { gapsWithLoss := gapsWithLoss + 1; } else { gapsClean := gapsClean + 1; }
      pauses := pauses + [(gap, lostHere)];
    }

    method Number(number: nat) returns (lostHere: bool)
      requires Valid() && number < WRAP
      modifies this`packets, this`haveExpected, this`lost, this`dups, this`reordered, this`expected, this`numbers
      ensures Valid() && numbers == old(numbers) + [number]
      ensures lostHere <==> old(numbers) != [] && Delta(old(numbers)[|old(numbers)| - 1], number) > 0
    {
      hide Int16, Account, Pausing;
      packets, lostHere := packets + 1, false;
      if !haveExpected {
        haveExpected := true;
      } else {
        var delta := Int16(number - expected);
        if delta > 0 {
          lost, lostHere := lost + delta, true;
        } else if delta < 0 {
          if delta == -1 { dups := dups + 1; } else { reordered := reordered + 1; }
        }
      }
      expected := (number + 1) % WRAP;
      if numbers == [] {
        FirstOne(number);
        assert numbers + [number] == [number];
      } else {
        OneMore(numbers, number);
      }
      numbers := numbers + [number];
    }
  }
}
