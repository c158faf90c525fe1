/**
 Device clock to wall clock: each collection turns the agent's uptime, a 32-bit count
 of hundredths of a second (TimeTicks, section 7.1.8 of RFC 2578), into a timestamp by
 counting from a remembered base. All comparisons and subtractions are on unsigned words.
 */
module DeviceClock {
  import opened Machine
  import opened Options

  /** What the code takes for a missing uptime. */
  const NO_TICKS: int := 0xFFFF_FFFF

  /** How far the ticks may run ahead of the base before it is renewed. */
  const MAX_DRIFT: int := 6000

  type Ticks = t: int | 0 <= t < 0x1_0000_0000

  function Sub32(a: Ticks, b: Ticks): Ticks { (a - b) % TWO_32 }

  datatype Clock = Clock(timeticks: Ticks, mytime: int)

  predicate MustRebase(c: Clock, tt: Ticks) {
    tt <= c.timeticks || c.timeticks == 0 || Sub32(tt, c.timeticks) > MAX_DRIFT
  }

  function Advance(c: Clock, tt: Ticks, now: int): Clock {
    if tt == NO_TICKS then c else if MustRebase(c, tt) then Clock(tt, now) else c
  }

  function Stamp(c: Clock, tt: Ticks, now: int): Option<int> {
    if tt == NO_TICKS then None
    else
      var base := Advance(c, tt, now);
      Some(base.mytime + Sub32(tt, base.timeticks) / 100)
  }

  /** The per-host fields and the block of `get_collect` that updates them. */
  class HostClock {
    var timeticks: Ticks
    var mytime: int

    function Value(): Clock
      reads this
    {
      Clock(timeticks, mytime)
    }

    constructor ()
      ensures Value() == Clock(0, 0)
    {
      timeticks, mytime := 0, 0;
    }

    method Sample(tt: Ticks, now: int) returns (stamp: Option<int>)
      modifies this
      ensures Value() == Advance(old(Value()), tt, now)
      ensures stamp == Stamp(old(Value()), tt, now)
    {
      if tt == NO_TICKS {
        return None;
      }
      if tt <= timeticks || timeticks == 0 || Sub32(tt, timeticks) > MAX_DRIFT {
        timeticks := tt;
        mytime := now;
      }
      var totaltime := Sub32(tt, timeticks);
      totaltime := totaltime / 100;
      stamp := Some(mytime + totaltime);
    }
  }

  // ----- an agent that keeps time

  /**
   Wall time is counted in hundredths of a second. The agent's uptime advances with it from
   an unknown start and wraps at 2^32; the collector reads its clock in whole seconds.
   */
  function TicksAt(wall: nat, start: int): Ticks { (wall + start) % TWO_32 }

  function Seconds(wall: nat): nat { wall / 100 }

  /** The base in use was set by a sample at wall time `base`, at most the drift before the latest one. */
  ghost predicate Tracks(c: Clock, start: int, base: nat, latest: nat) {
    && base <= latest <= base + MAX_DRIFT
    && c == Clock(TicksAt(base, start), Seconds(base))
  }

  /** Ticks since the base are exactly the time since the base when that is less than one wrap. */
  lemma {:induction false} ElapsedTicks(start: int, base: nat, wall: nat)
    requires base <= wall < base + TWO_32
    ensures Sub32(TicksAt(wall, start), TicksAt(base, start)) == wall - base
  {
    var a, b := wall + start, base + start;
    var qa, qb := a / TWO_32, b / TWO_32;
    assert a % TWO_32 - b % TWO_32 == (wall - base) + TWO_32 * (qb - qa);
    WholeTurns(wall - base, qb - qa);
  }

  /** One accepted sample: the base follows, and the stamp is the current second or the one before. */
  lemma {:induction false} SampleTracks(c: Clock, start: int, base: nat, latest: nat, wall: nat) returns (base': nat)
    requires c == Clock(0, 0) || Tracks(c, start, base, latest)
    requires latest <= wall < latest + TWO_32 - MAX_DRIFT
    requires TicksAt(wall, start) != NO_TICKS
    ensures var tt := TicksAt(wall, start);
      && Tracks(Advance(c, tt, Seconds(wall)), start, base', wall)
      && Stamp(c, tt, Seconds(wall)) == Some(Seconds(base') + (wall - base') / 100)
      && (base' == wall || (base' == base && c != Clock(0, 0)))
  {
    var tt := TicksAt(wall, start);
    if MustRebase(c, tt) {
      base' := wall;
    } else {
      base' := base;
      ElapsedTicks(start, base, wall);
    }
  }

  /**
   The block in numbers: 4294967295 is no uptime; a base is renewed when it is unset, when the
   ticks have not moved on from it, or when they are more than 6000 ahead; else it stays.
   */
  lemma {:induction false} SampleInNumbers(c: Clock, tt: Ticks, now: int)
    ensures tt == 4294967295 ==> Stamp(c, tt, now) == None && Advance(c, tt, now) == c
    ensures tt != 4294967295 && c.timeticks != 0 && c.timeticks < tt <= c.timeticks + 6000 ==>
              Stamp(c, tt, now) == Some(c.mytime + (tt - c.timeticks) / 100) && Advance(c, tt, now) == c
    ensures tt != 4294967295 && !(c.timeticks != 0 && c.timeticks < tt <= c.timeticks + 6000) ==>
              Stamp(c, tt, now) == Some(now) && Advance(c, tt, now) == Clock(tt, now)
  {
  }

  // ----- whole runs

  /** The clock before sample `i` of a run at the given wall times, starting from an unset base. */
  ghost function ClockAt(start: int, walls: seq<nat>, i: nat): Clock
    requires i <= |walls|
  {
    if i == 0 then Clock(0, 0)
    else Advance(ClockAt(start, walls, i - 1), TicksAt(walls[i - 1], start), Seconds(walls[i - 1]))
  }

  ghost function StampAt(start: int, walls: seq<nat>, i: nat): Option<int>
    requires i < |walls|
  {
    Stamp(ClockAt(start, walls, i), TicksAt(walls[i], start), Seconds(walls[i]))
  }

  ghost predicate AcceptedAt(start: int, walls: seq<nat>, i: nat)
    requires i < |walls|
  {
    TicksAt(walls[i], start) != NO_TICKS
  }

  /** The latest accepted sample among the first `i`, or the first sample when there is none. */
  ghost function Latest(start: int, walls: seq<nat>, i: nat): nat
    requires i <= |walls| && walls != []
  {
    if i == 0 then walls[0]
    else if AcceptedAt(start, walls, i - 1) then walls[i - 1]
    else Latest(start, walls, i - 1)
  }

  ghost predicate InOrder(walls: seq<nat>) {
    forall i, j :: 0 <= i < j < |walls| ==> walls[i] <= walls[j]
  }

  /** Samples come in order, each less than a wrap, drift deducted, after the latest accepted one. */
  ghost predicate Spaced(start: int, walls: seq<nat>) {
    && InOrder(walls)
    && (forall i :: 0 <= i < |walls| ==> walls[i] < Latest(start, walls, i) + TWO_32 - MAX_DRIFT)
  }

  /** Consecutive samples are less than half a wrap apart, drift deducted. */
  ghost predicate ShortGaps(walls: seq<nat>) {
    forall i :: 0 < i < |walls| ==> walls[i - 1] <= walls[i] && 2 * (walls[i] - walls[i - 1]) < TWO_32 - MAX_DRIFT
  }

  lemma {:induction false} ShortGapsInOrder(walls: seq<nat>, i: nat, j: nat)
    requires ShortGaps(walls) && i < j < |walls|
    ensures walls[i] <= walls[j]
  {
    if i + 1 < j { ShortGapsInOrder(walls, i, j - 1); }
  }

  lemma {:induction false} OneMissPerWrap(start: int, early: nat, late: nat)
    requires early < late < early + TWO_32 && TicksAt(late, start) == NO_TICKS
    ensures TicksAt(early, start) != NO_TICKS
  {
  }

  lemma {:induction false} LatestNear(start: int, walls: seq<nat>, i: nat)
    requires ShortGaps(walls) && 0 < i <= |walls|
    ensures Latest(start, walls, i) <= walls[i - 1] && 2 * (walls[i - 1] - Latest(start, walls, i)) < TWO_32 - MAX_DRIFT
    ensures AcceptedAt(start, walls, i - 1) ==> Latest(start, walls, i) == walls[i - 1]
  {
    if i > 1 && !AcceptedAt(start, walls, i - 1) {
      LatestNear(start, walls, i - 1);
      if walls[i - 2] < walls[i - 1] { OneMissPerWrap(start, walls[i - 2], walls[i - 1]); }
    }
  }

  /**
   Polling with short gaps never loses the samples of two different times in a row, so the gaps
   alone make a run spaced.
   */
  lemma {:induction false} ShortGapsAreSpaced(start: int, walls: seq<nat>)
    requires ShortGaps(walls)
    ensures Spaced(start, walls)
  {
    forall i, j | 0 <= i < j < |walls| ensures walls[i] <= walls[j] {
      ShortGapsInOrder(walls, i, j);
    }
    forall i | 0 <= i < |walls| ensures walls[i] < Latest(start, walls, i) + TWO_32 - MAX_DRIFT {
      if i > 0 { LatestNear(start, walls, i); }
    }
  }

  lemma {:induction false} LatestBounds(start: int, walls: seq<nat>, i: nat, j: nat)
    requires InOrder(walls) && i <= j < |walls|
    ensures Latest(start, walls, i) <= walls[j]
  {
    if i > 0 && !AcceptedAt(start, walls, i - 1) { LatestBounds(start, walls, i - 1, j); }
  }

  /** After any number of samples the base in use is that of some sample within the drift of the latest one. */
  lemma {:induction false} RunTracks(start: int, walls: seq<nat>, i: nat) returns (base: nat)
    requires Spaced(start, walls) && walls != [] && i <= |walls|
    ensures var c := ClockAt(start, walls, i); c == Clock(0, 0) || Tracks(c, start, base, Latest(start, walls, i))
    decreases i, 0
  {
    if i == 0 {
      base := 0;
    } else if AcceptedAt(start, walls, i - 1) {
      base := StampFromBase(start, walls, i - 1);
    } else {
      base := RunTracks(start, walls, i - 1);
    }
  }

  /** Every stamp is the whole seconds of its base plus the whole seconds since. */
  lemma {:induction false} StampFromBase(start: int, walls: seq<nat>, i: nat) returns (base: nat)
    requires Spaced(start, walls) && i < |walls| && AcceptedAt(start, walls, i)
    ensures Tracks(ClockAt(start, walls, i + 1), start, base, walls[i])
    ensures StampAt(start, walls, i) == Some(Seconds(base) + (walls[i] - base) / 100)
    decreases i, 1
  {
    base := RunTracks(start, walls, i);
    LatestBounds(start, walls, i, i);
    base := SampleTracks(ClockAt(start, walls, i), start, base, Latest(start, walls, i), walls[i]);
  }

  /** Every emitted stamp is the current second or the one before it. */
  lemma {:induction false} ClockAccuracy(start: int, walls: seq<nat>, i: nat)
    requires Spaced(start, walls) && i < |walls|
    ensures StampAt(start, walls, i).Some? <==> AcceptedAt(start, walls, i)
    ensures AcceptedAt(start, walls, i) ==>
              Seconds(walls[i]) - 1 <= StampAt(start, walls, i).value <= Seconds(walls[i])
  {
    if AcceptedAt(start, walls, i) {
      var base := StampFromBase(start, walls, i);
    }
  }

  /** Samples that are not accepted leave the clock alone. */
  lemma {:induction false} SkippedSamples(start: int, walls: seq<nat>, k: nat, j: nat)
    requires k < j <= |walls| && AcceptedAt(start, walls, k)
    requires forall i :: k < i < j ==> !AcceptedAt(start, walls, i)
    ensures ClockAt(start, walls, j) == ClockAt(start, walls, k + 1)
    ensures Latest(start, walls, j) == walls[k]
  {
    if k + 1 < j {
      assert !AcceptedAt(start, walls, j - 1);
      SkippedSamples(start, walls, k, j - 1);
    }
  }

  lemma {:induction false} WholeSeconds(base: nat, early: nat, late: nat)
    requires base <= early <= late
    ensures Seconds(base) + (early - base) / 100 <= Seconds(early) <= Seconds(late)
    ensures (early - base) / 100 <= (late - base) / 100
    ensures late - early >= 100 ==> Seconds(early) < Seconds(late) && (early - base) / 100 < (late - base) / 100
  {
  }

  /** From one accepted sample to the next the stamp does not fall, and over a second it rises. */
  lemma {:induction false} NextStamp(start: int, walls: seq<nat>, k: nat, j: nat)
    requires Spaced(start, walls) && k < j < |walls|
    requires AcceptedAt(start, walls, k) && AcceptedAt(start, walls, j)
    requires forall i :: k < i < j ==> !AcceptedAt(start, walls, i)
    ensures NotAfter(StampAt(start, walls, k), StampAt(start, walls, j))
    ensures walls[j] - walls[k] >= 100 ==> StampAt(start, walls, k).value < StampAt(start, walls, j).value
  {
    var base := StampFromBase(start, walls, k);
    SkippedSamples(start, walls, k, j);
    StampAfter(ClockAt(start, walls, j), start, base, walls[k], walls[j]);
  }

  /** A clock that tracked its base at one sample stamps the next one no lower. */
  lemma {:induction false} StampAfter(c: Clock, start: int, base: nat, early: nat, late: nat)
    requires Tracks(c, start, base, early) && early <= late < early + TWO_32 - MAX_DRIFT
    requires TicksAt(late, start) != NO_TICKS
    ensures var stamp := Stamp(c, TicksAt(late, start), Seconds(late));
      && stamp.Some? && Seconds(base) + (early - base) / 100 <= stamp.value
      && (late - early >= 100 ==> Seconds(base) + (early - base) / 100 < stamp.value)
  {
    var base' := SampleTracks(c, start, base, early, late);
    StampsCompare(base, base', early, late);
  }

  lemma {:induction false} StampsCompare(base: nat, base': nat, early: nat, late: nat)
    requires base <= early <= late && (base' == late || base' == base)
    ensures Seconds(base) + (early - base) / 100 <= Seconds(base') + (late - base') / 100
    ensures late - early >= 100 ==> Seconds(base) + (early - base) / 100 < Seconds(base') + (late - base') / 100
  {
    WholeSeconds(base, early, late);
  }

  lemma {:induction false} PreviousAccepted(start: int, walls: seq<nat>, i: nat, j: nat) returns (k: nat)
    requires i < j < |walls| && AcceptedAt(start, walls, i)
    ensures i <= k < j && AcceptedAt(start, walls, k)
    ensures forall m :: k < m < j ==> !AcceptedAt(start, walls, m)
  {
    k := j - 1;
    while !AcceptedAt(start, walls, k)
      invariant i <= k < j
      invariant forall m :: k < m < j ==> !AcceptedAt(start, walls, m)
      decreases k
    {
      k := k - 1;
    }
  }

  predicate NotAfter(a: Option<int>, b: Option<int>) { a.Some? && b.Some? && a.value <= b.value }

  /** Over the whole run, across rebases and wraps, stamps never fall. */
  lemma {:induction false} StampsMonotone(start: int, walls: seq<nat>, i: nat, j: nat)
    requires Spaced(start, walls) && i < j < |walls|
    requires AcceptedAt(start, walls, i) && AcceptedAt(start, walls, j)
    ensures NotAfter(StampAt(start, walls, i), StampAt(start, walls, j))
    decreases j
  {
    var k := PreviousAccepted(start, walls, i, j);
    NextStamp(start, walls, k, j);
    if i < k { StampsMonotone(start, walls, i, k); }
  }

  /** Any two accepted samples two seconds apart get different stamps, in order. */
  lemma {:induction false} StampsRise(start: int, walls: seq<nat>, i: nat, j: nat)
    requires Spaced(start, walls) && i < j < |walls| && walls[j] - walls[i] >= 200
    requires AcceptedAt(start, walls, i) && AcceptedAt(start, walls, j)
    ensures StampAt(start, walls, i).Some? && StampAt(start, walls, j).Some?
    ensures StampAt(start, walls, i).value < StampAt(start, walls, j).value
  {
    ClockAccuracy(start, walls, i);
    ClockAccuracy(start, walls, j);
  }

  // ----- when exactly a stamp is right

  /** The current second or the one before. */
  predicate Accurate(stamp: Option<int>, wall: nat) {
    stamp.Some? && Seconds(wall) - 1 <= stamp.value <= Seconds(wall)
  }

  lemma {:induction false} AccurateFromBase(start: int, base: nat, wall: nat)
    requires base <= wall && TicksAt(wall, start) != NO_TICKS
    ensures var c := Clock(TicksAt(base, start), Seconds(base));
      var tt := TicksAt(wall, start);
      Accurate(Stamp(c, tt, Seconds(wall)), wall) <==> MustRebase(c, tt) || wall < base + TWO_32
  {
    var elapsed := (wall - base) % TWO_32;
    assert TicksAt(base + elapsed, start) == TicksAt(wall, start) by {
      assert wall + start == base + elapsed + start + TWO_32 * ((wall - base) / TWO_32);
      SameTicks(base + elapsed + start, (wall - base) / TWO_32);
    }
    ElapsedTicks(start, base, base + elapsed);
  }

  lemma {:induction false} SameTicks(x: int, turns: nat)
    ensures (x + TWO_32 * turns) % TWO_32 == x % TWO_32
  {
    WholeTurns(x % TWO_32, x / TWO_32 + turns);
    assert x + TWO_32 * turns == x % TWO_32 + TWO_32 * (x / TWO_32 + turns);
  }

  /** When the base in use before sample `i` was set. */
  ghost function BaseAt(start: int, walls: seq<nat>, i: nat): nat
    requires i <= |walls|
  {
    if i == 0 then 0
    else if AcceptedAt(start, walls, i - 1)
        && MustRebase(ClockAt(start, walls, i - 1), TicksAt(walls[i - 1], start)) then walls[i - 1]
    else BaseAt(start, walls, i - 1)
  }

  lemma {:induction false} ClockHasBase(start: int, walls: seq<nat>, i: nat, j: nat)
    requires InOrder(walls) && i <= j < |walls|
    ensures var base := BaseAt(start, walls, i);
      && base <= walls[j]
      && (ClockAt(start, walls, i) == Clock(0, 0)
          || ClockAt(start, walls, i) == Clock(TicksAt(base, start), Seconds(base)))
  {
    if i > 0 { ClockHasBase(start, walls, i - 1, j); }
  }

  /**
   For samples in order, however far apart: an accepted sample gets the current second or the
   one before if and only if the base is renewed for it or is less than a wrap old.
   */
  lemma {:induction false} AccurateExactly(start: int, walls: seq<nat>, i: nat)
    requires InOrder(walls) && i < |walls| && AcceptedAt(start, walls, i)
    ensures Accurate(StampAt(start, walls, i), walls[i]) <==>
      MustRebase(ClockAt(start, walls, i), TicksAt(walls[i], start)) || walls[i] < BaseAt(start, walls, i) + TWO_32
  {
    ClockHasBase(start, walls, i, i);
    AccurateFromBase(start, BaseAt(start, walls, i), walls[i]);
  }

  /**
   The spacing is needed: a host that is not sampled for one wrap and a second after its base
   was set gets a stamp that is a whole wrap behind the wall clock.
   */
  lemma {:induction false} GapOfOneWrap()
    ensures var walls := [100, 200 + TWO_32];
      && AcceptedAt(0, walls, 0) && AcceptedAt(0, walls, 1)
      && StampAt(0, walls, 1) == Some(2) && Seconds(walls[1]) == 2 + TWO_32 / 100
      && !Accurate(StampAt(0, walls, 1), walls[1])
  {
    var walls := [100, 200 + TWO_32];
    assert ClockAt(0, walls, 0) == Clock(0, 0);
    assert ClockAt(0, walls, 1) == Clock(100, 1);
  }
}
