/** The fixed-tick sushi spawner: on every physics tick it checks its timer,
    possibly launches one sushi and re-draws its next interval, then advances
    the timer by the tick length. */
module SushiSpawner {
  import opened Common

  datatype Spawner = Spawner(
    isOn: bool,
    minTime: real,
    maxTime: real,
    targetTime: real,
    curTime: real,
    originSpeed: real)

  /** The field initialisers of a freshly placed spawner. */
  const Initial: Spawner := Spawner(false, 1.0, 2.0, 0.0, 0.0, 6.0)

  /** A launched sushi; it is given a rightward velocity equal to the spawner's speed. */
  datatype Sushi = Sushi(velocityX: real)

  datatype TickResult = TickResult(spawner: Spawner, spawned: Option<Sushi>)

  /** The values `Random.Range(lo, hi)` may return for floats: anything between
      the two bounds, both included. */
  predicate RangeDraw(lo: real, hi: real, x: real) {
    if lo <= hi then lo <= x <= hi else hi <= x <= lo
  }

  /** Two spawner states that share the configuration fields. */
  predicate SameConfig(a: Spawner, b: Spawner) {
    a.isOn == b.isOn && a.minTime == b.minTime && a.maxTime == b.maxTime
    && a.originSpeed == b.originSpeed
  }

  /** One `FixedUpdate`: `dt` is the fixed tick length and `draw` the value the
      random source would return if it were asked this tick. */
  function FixedUpdate(s: Spawner, dt: real, draw: real): (r: TickResult)
    requires RangeDraw(s.minTime, s.maxTime, draw)
    ensures SameConfig(r.spawner, s)
    ensures !s.isOn ==> r.spawner == s && r.spawned == None
    ensures s.isOn && s.curTime >= s.targetTime ==>
              && r.spawned == Some(Sushi(s.originSpeed))
              && RangeDraw(s.minTime, s.maxTime, r.spawner.targetTime)
              && r.spawner.curTime == dt
    ensures s.isOn && s.curTime < s.targetTime ==>
              && r.spawned == None
              && r.spawner.targetTime == s.targetTime
              && r.spawner.curTime == s.curTime + dt
  {
    if !s.isOn then
      TickResult(s, None)
    else if s.curTime >= s.targetTime then
      TickResult(s.(targetTime := draw, curTime := 0.0 + dt), Some(Sushi(s.originSpeed)))
    else
      TickResult(s.(curTime := s.curTime + dt), None)
  }

  predicate AllDraws(s: Spawner, draws: seq<real>) {
    forall i :: 0 <= i < |draws| ==> RangeDraw(s.minTime, s.maxTime, draws[i])
  }

  /** `|draws|` consecutive ticks; `draws[i]` is what the random source offers on
      tick `i`. Returns the final state and how many sushi were launched. */
  function Run(s: Spawner, dt: real, draws: seq<real>): (r: (Spawner, nat))
    requires AllDraws(s, draws)
    ensures SameConfig(r.0, s)
    ensures r.1 <= |draws|
    ensures !s.isOn ==> r == (s, 0)
    decreases |draws|
  {
    if |draws| == 0 then (s, 0)
    else
      var t := FixedUpdate(s, dt, draws[0]);
      var rest := Run(t.spawner, dt, draws[1..]);
      (rest.0, rest.1 + (if t.spawned.Some? then 1 else 0))
  }

  /** Once switched on, the initial timer (`curTime == targetTime == 0`) fires on the first tick. */
  lemma FirstEnabledTickSpawns(dt: real, draw: real)
    requires RangeDraw(Initial.minTime, Initial.maxTime, draw)
    ensures FixedUpdate(Initial.(isOn := true), dt, draw).spawned.Some?
    ensures FixedUpdate(Initial.(isOn := true), dt, draw).spawner.curTime == dt
  {
  }

  /** Once a spawn has drawn a target inside `[minTime, maxTime]`, every later
      target stays inside it. */
  lemma TargetStaysInRange(s: Spawner, dt: real, draws: seq<real>)
    requires AllDraws(s, draws)
    requires RangeDraw(s.minTime, s.maxTime, s.targetTime)
    ensures RangeDraw(s.minTime, s.maxTime, Run(s, dt, draws).0.targetTime)
    decreases |draws|
  {
    if |draws| > 0 {
      var t := FixedUpdate(s, dt, draws[0]);
      TargetStaysInRange(t.spawner, dt, draws[1..]);
    }
  }

  /** While the timer stays below its target, ticks only advance it. */
  lemma {:induction false} QuietTicks(s: Spawner, dt: real, draws: seq<real>)
    requires s.isOn && dt > 0.0
    requires AllDraws(s, draws)
    requires |draws| == 0 || s.curTime + (|draws| - 1) as real * dt < s.targetTime
    ensures Run(s, dt, draws) == (s.(curTime := s.curTime + |draws| as real * dt), 0)
    decreases |draws|
  {
    if |draws| > 0 {
      assert s.curTime < s.targetTime by {
        assert (|draws| - 1) as real * dt >= 0.0;
      }
      var t := FixedUpdate(s, dt, draws[0]);
      assert t.spawner == s.(curTime := s.curTime + dt);
      assert |draws[1..]| == |draws| - 1;
      if |draws| > 1 {
        assert t.spawner.curTime + (|draws| - 2) as real * dt == s.curTime + (|draws| - 1) as real * dt;
      }
      QuietTicks(t.spawner, dt, draws[1..]);
      assert t.spawner.curTime + (|draws| - 1) as real * dt == s.curTime + |draws| as real * dt;
    }
  }

  /** Smallest integer not below `x`. */
  function Ceil(x: real): (c: int)
    ensures x <= c as real < x + 1.0
  {
    -((-x).Floor)
  }

  /** Number of ticks from a spawn to the next one, for target `t` and tick length `dt`. */
  function TicksBetweenSpawns(t: real, dt: real): (k: int)
    requires dt > 0.0
    ensures k >= 1
  {
    var c := Ceil(t / dt);
    if c < 1 then 1 else c
  }

  lemma TicksBetweenSpawnsBounds(t: real, dt: real)
    requires dt > 0.0
    ensures TicksBetweenSpawns(t, dt) as real * dt >= t
    ensures TicksBetweenSpawns(t, dt) > 1 ==> (TicksBetweenSpawns(t, dt) - 1) as real * dt < t
  {
    var k := TicksBetweenSpawns(t, dt);
    ScaleByTick(k as real, t, dt);
    ScaleByTick((k - 1) as real, t, dt);
  }

  /** Comparing `a` with `t / dt` is comparing `a * dt` with `t`. */
  lemma ScaleByTick(a: real, t: real, dt: real)
    requires dt > 0.0
    ensures a >= t / dt ==> a * dt >= t
    ensures a < t / dt ==> a * dt < t
  {
    var q := t / dt;
    assert q * dt == t;
    if a >= q {
      assert a * dt - q * dt == (a - q) * dt;
    } else {
      assert q * dt - a * dt == (q - a) * dt;
    }
  }

  /** After a spawning tick has drawn target `T`, the next `k - 1` ticks launch
      nothing and tick number `k = max(1, ceil(T / dt))` launches the next sushi. */
  lemma NextSpawnTick(s: Spawner, dt: real, draw: real, draws: seq<real>)
    requires s.isOn && dt > 0.0 && s.curTime >= s.targetTime
    requires RangeDraw(s.minTime, s.maxTime, draw)
    requires AllDraws(s, draws)
    requires |draws| == TicksBetweenSpawns(draw, dt)
    ensures var after := FixedUpdate(s, dt, draw).spawner;
            var quiet := Run(after, dt, draws[..|draws| - 1]);
            && quiet.1 == 0
            && FixedUpdate(quiet.0, dt, draws[|draws| - 1]).spawned.Some?
  {
    var after := FixedUpdate(s, dt, draw).spawner;
    var k := |draws|;
    assert after.targetTime == draw && after.curTime == dt;
    TicksBetweenSpawnsBounds(draw, dt);
    var pre := draws[..k - 1];
    assert AllDraws(after, pre) by {
      forall i | 0 <= i < |pre| ensures RangeDraw(after.minTime, after.maxTime, pre[i]) {
        assert pre[i] == draws[i];
      }
    }
    if k > 1 {
      assert after.curTime + (|pre| - 1) as real * dt == (k - 1) as real * dt;
    }
    QuietTicks(after, dt, pre);
    var quiet := Run(after, dt, pre);
    assert quiet.0.curTime == dt + (k - 1) as real * dt == k as real * dt;
  }
}
