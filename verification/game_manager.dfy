/** The session record the spawner writes into, and its two timer getters.
    The manager and the spawner reference each other in the scene; here both
    live in one `World` value, with a flag for whether the manager's spawner
    reference is set. */
module GameManager {
  import opened Common
  import SushiSpawner

  /** The kinds of purchasable upgrade the shop refers to. */
  datatype UpgradeType = Bonus | Rate | Sp | SpecialBonus

  /** Live-session counters (C# `int` fields). */
  datatype Manager = Manager(money: int, sushiCount: int, maxMoney: int, maxSushiCount: int)

  predicate ValidManager(m: Manager) {
    IsInt32(m.money) && IsInt32(m.sushiCount) && IsInt32(m.maxMoney) && IsInt32(m.maxSushiCount)
  }

  datatype World = World(manager: Manager, spawner: SushiSpawner.Spawner, spawnerAttached: bool)

  /** A freshly created manager. */
  function NewManager(): (m: Manager)
    ensures ValidManager(m)
    ensures m.money == 0 && m.sushiCount == 0 && m.maxMoney == 0 && m.maxSushiCount == 0
  {
    Manager(0, 0, 0, 0)
  }

  /** The spawner's elapsed time, or 0 when no spawner is attached. */
  function GetCurrentTime(w: World): (t: real)
    ensures w.spawnerAttached ==> t == w.spawner.curTime
    ensures !w.spawnerAttached ==> t == 0.0
  {
    if w.spawnerAttached then w.spawner.curTime else 0.0
  }

  /** The spawner's current target interval, or 0 when no spawner is attached. */
  function GetTargetTime(w: World): (t: real)
    ensures w.spawnerAttached ==> t == w.spawner.targetTime
    ensures !w.spawnerAttached ==> t == 0.0
  {
    if w.spawnerAttached then w.spawner.targetTime else 0.0
  }

  /** The handler a spawned sushi raises when its fish is added: `sushiCount++`,
      which wraps around at the top of the 32-bit range. */
  function FishAdded(m: Manager): (r: Manager)
    requires ValidManager(m)
    ensures ValidManager(r)
    ensures r.money == m.money && r.maxMoney == m.maxMoney && r.maxSushiCount == m.maxSushiCount
    ensures m.sushiCount < MaxInt32 ==> r.sushiCount == m.sushiCount + 1
    ensures m.sushiCount == MaxInt32 ==> r.sushiCount == MinInt32
  {
    m.(sushiCount := WrapInt32(m.sushiCount + 1))
  }

  /** `n` fish-added notifications in a row. */
  function FishAddedTimes(m: Manager, n: nat): (r: Manager)
    requires ValidManager(m)
    ensures ValidManager(r)
  {
    if n == 0 then m else FishAdded(FishAddedTimes(m, n - 1))
  }

  /** Below the wrap-around point, `n` notifications raise the count by exactly `n`
      and touch no other counter. */
  lemma {:induction false} FishAddedCounts(m: Manager, n: nat)
    requires ValidManager(m)
    requires m.sushiCount + n <= MaxInt32
    ensures FishAddedTimes(m, n) == m.(sushiCount := m.sushiCount + n)
  {
    if n > 0 {
      FishAddedCounts(m, n - 1);
    }
  }

  /** One physics tick of the attached spawner. */
  function Tick(w: World, dt: real, draw: real): (r: (World, Option<SushiSpawner.Sushi>))
    requires SushiSpawner.RangeDraw(w.spawner.minTime, w.spawner.maxTime, draw)
    ensures r.0.manager == w.manager && r.0.spawnerAttached == w.spawnerAttached
  {
    var t := SushiSpawner.FixedUpdate(w.spawner, dt, draw);
    (w.(spawner := t.spawner), t.spawned)
  }

  /** Read through the getters, a spawning tick leaves elapsed time `dt` and a
      target inside `[minTime, maxTime]`; without a spawner both read 0. */
  lemma GettersAfterSpawn(w: World, dt: real, draw: real)
    requires w.spawner.isOn && w.spawner.curTime >= w.spawner.targetTime
    requires SushiSpawner.RangeDraw(w.spawner.minTime, w.spawner.maxTime, draw)
    ensures var w' := Tick(w, dt, draw).0;
            && (w.spawnerAttached ==> GetCurrentTime(w') == dt)
            && (w.spawnerAttached ==> SushiSpawner.RangeDraw(w.spawner.minTime, w.spawner.maxTime, GetTargetTime(w')))
            && (!w.spawnerAttached ==> GetCurrentTime(w') == 0.0 && GetTargetTime(w') == 0.0)
  {
  }
}
