/**
  Memory strength: exponential forgetting with a floor, bumps on recall, and archival of the
  weakest items.  `exp` is any forgetting curve, and times are seconds.  The strength column is
  NUMERIC(4,3), so each run is rounded to thousandths; `store` is the rounding, and the identity
  gives the formula itself.
 */
module Strength {
  import opened Common

  const FLOOR := 0.01
  const MAX := 1.0
  const BUMP := 0.15
  const HALF_STEP := 0.0005

  type Curve = real -> real

  // Multiplication, under a name of its own to keep products apart from linear arithmetic.
  function Times(x: real, k: real): (r: real)
    ensures 0.0 <= x && 0.0 <= k <= 1.0 ==> 0.0 <= r <= x
  {
    assert 0.0 <= x && 0.0 <= k <= 1.0 ==> x * (1.0 - k) >= 0.0;
    x * k
  }

  predicate Multiplies(f: Curve, a: real, b: real) {
    a >= 0.0 && b >= 0.0 ==> f(a + b) == Times(f(a), f(b))
  }

  ghost predicate Forgetting(f: Curve) {
    (forall a | a >= 0.0 :: 0.0 < f(a) <= 1.0) && (forall a, b :: Multiplies(f, a, b))
  }

  datatype Item = Item(agent: string, strength: real, lastAccessed: Option<real>, updatedAt: real, active: bool, accesses: nat)

  function Exact(x: real): real { x }

  // Round half up, as for positive numerics.
  function Rounded(x: real): real {
    (x * 1000.0 + 0.5).Floor as real / 1000.0
  }

  function AtLeast(lo: real, x: real): real { if x < lo then lo else x }
  function AtMost(hi: real, x: real): real { if hi < x then hi else x }

  // COALESCE(last_accessed_at, updated_at)
  function Since(it: Item): real {
    if it.lastAccessed.Some? then it.lastAccessed.value else it.updatedAt
  }

  function Decay(f: Curve, store: real -> real, it: Item, now: real): Item {
    it.(strength := store(Faded(it.strength, f(now - Since(it)))), updatedAt := now)
  }

  function Faded(s: real, k: real): real {
    AtLeast(FLOOR, Times(s, k))
  }

  function Access(it: Item, now: real): Item {
    it.(strength := AtMost(MAX, it.strength + BUMP), accesses := it.accesses + 1, lastAccessed := Some(now), updatedAt := now)
  }

  // One decay run after another.
  function Runs(f: Curve, store: real -> real, it: Item, ts: seq<real>): Item {
    if ts == [] then it else Decay(f, store, Runs(f, store, it, ts[..|ts| - 1]), ts[|ts| - 1])
  }

  predicate Schedule(from: real, ts: seq<real>) {
    ts == [] || (Schedule(from, ts[..|ts| - 1]) && Last(from, ts[..|ts| - 1]) <= ts[|ts| - 1])
  }

  function Last(from: real, ts: seq<real>): real {
    if ts == [] then from else ts[|ts| - 1]
  }

  lemma Between(f: Curve, a: real)
    requires Forgetting(f) && a >= 0.0
    ensures 0.0 < f(a) <= 1.0
  {
  }

  lemma Compose(f: Curve, a: real, b: real)
    requires Forgetting(f) && a >= 0.0 && b >= 0.0
    ensures f(a + b) == Times(f(a), f(b))
  {
    assert Multiplies(f, a, b);
  }

  lemma TimesMonotone(x: real, y: real, k: real)
    requires x <= y && 0.0 <= k
    ensures Times(x, k) <= Times(y, k)
  {
    assert (y - x) * k >= 0.0;
  }

  lemma TimesLaws(x: real, y: real, k: real)
    ensures Times(Times(x, y), k) == Times(x, Times(y, k))
    ensures Times(x + y, k) == Times(x, k) + Times(y, k)
    ensures Times(x - y, k) == Times(x, k) - Times(y, k)
    ensures Times(x, 1.0 - k) == x - Times(x, k)
    ensures Times(x, y) == Times(y, x)
  {
  }

  lemma FloorOnce(p: real, k: real)
    requires 0.0 < k <= 1.0
    ensures AtLeast(FLOOR, Times(AtLeast(FLOOR, p), k)) == AtLeast(FLOOR, Times(p, k))
  {
    if p < FLOOR {
      TimesMonotone(p, FLOOR, k);
    }
  }

  // The floor of an earlier run does not disturb a later one.
  lemma TwoRunsCompose(s: real, j: real, k: real)
    requires 0.0 < k <= 1.0
    ensures Faded(Faded(s, j), k) == Faded(s, Times(j, k))
  {
    TimesLaws(s, j, k);
    FloorOnce(Times(s, j), k);
  }

  lemma {:induction false} ScheduleMovesOn(from: real, ts: seq<real>)
    requires Schedule(from, ts)
    ensures from <= Last(from, ts)
  {
    if ts != [] {
      ScheduleMovesOn(from, ts[..|ts| - 1]);
    }
  }

  // When the next run will count from, after the runs of ts.
  function SinceAfter(it: Item, ts: seq<real>): real {
    if it.lastAccessed.Some? then it.lastAccessed.value else Last(it.updatedAt, ts)
  }

  lemma {:induction false} RunsLeaveAccessAlone(f: Curve, store: real -> real, it: Item, ts: seq<real>)
    ensures Since(Runs(f, store, it, ts)) == SinceAfter(it, ts)
    ensures Runs(f, store, it, ts).lastAccessed == it.lastAccessed
  {
    if ts != [] {
      RunsLeaveAccessAlone(f, store, it, ts[..|ts| - 1]);
    }
  }

  // The last run fades what the runs before it left.
  lemma LastRun(f: Curve, store: real -> real, it: Item, ts: seq<real>)
    requires ts != []
    ensures var before, t := ts[..|ts| - 1], ts[|ts| - 1];
            Runs(f, store, it, ts).strength == store(Faded(Runs(f, store, it, before).strength, f(t - SinceAfter(it, before))))
  {
    RunsLeaveAccessAlone(f, store, it, ts[..|ts| - 1]);
  }

  // ---------------------------------------------------------------- the formula, unrounded

  // For an item that was never recalled, the schedule of the runs does not matter: the result is
  // that of one run over the whole interval, floor included.
  lemma {:induction false} NeverRecalledForgetsByTheClock(f: Curve, it: Item, ts: seq<real>)
    requires Forgetting(f) && it.lastAccessed == None && Schedule(it.updatedAt, ts) && ts != []
    ensures Runs(f, Exact, it, ts) == Decay(f, Exact, it, Last(it.updatedAt, ts))
    decreases |ts|
  {
    var before, t := ts[..|ts| - 1], ts[|ts| - 1];
    if before == [] {
      assert Runs(f, Exact, it, before) == it;
    } else {
      NeverRecalledForgetsByTheClock(f, it, before);
      ScheduleMovesOn(it.updatedAt, before);
      var u := Last(it.updatedAt, before);
      var a, b := u - it.updatedAt, t - u;
      Compose(f, a, b);
      assert a + b == t - it.updatedAt;
      TwoRunsCompose(it.strength, f(a), f(b));
    }
  }

  // The time since the last access, counted again by every run.
  function SumSince(access: real, ts: seq<real>): real {
    if ts == [] then 0.0 else SumSince(access, ts[..|ts| - 1]) + (ts[|ts| - 1] - access)
  }

  lemma {:induction false} SumCoversLast(access: real, ts: seq<real>)
    requires Schedule(access, ts)
    ensures SumSince(access, ts) >= Last(access, ts) - access >= 0.0
  {
    if ts != [] {
      SumCoversLast(access, ts[..|ts| - 1]);
    }
  }

  // For a recalled item every run counts the whole time since the access, so the runs compound.
  lemma {:induction false} RecalledForgetsByTheSum(f: Curve, it: Item, ts: seq<real>)
    requires Forgetting(f) && it.lastAccessed.Some? && Schedule(it.lastAccessed.value, ts) && ts != []
    ensures Runs(f, Exact, it, ts).strength == Faded(it.strength, f(SumSince(it.lastAccessed.value, ts)))
    ensures Runs(f, Exact, it, ts).lastAccessed == it.lastAccessed
    decreases |ts|
  {
    var before, t, a := ts[..|ts| - 1], ts[|ts| - 1], it.lastAccessed.value;
    ScheduleMovesOn(a, ts);
    if before == [] {
      assert Runs(f, Exact, it, before) == it && SumSince(a, before) == 0.0;
    } else {
      RecalledForgetsByTheSum(f, it, before);
      SumCoversLast(a, before);
      Compose(f, SumSince(a, before), t - a);
      TwoRunsCompose(it.strength, f(SumSince(a, before)), f(t - a));
    }
  }

  // ---------------------------------------------------------------- the column, rounded to thousandths

  predicate OnGrid(x: real) {
    x == (x * 1000.0).Floor as real / 1000.0
  }

  lemma RoundedError(x: real)
    ensures -HALF_STEP <= Rounded(x) - x <= HALF_STEP && OnGrid(Rounded(x))
  {
    var n := (x * 1000.0 + 0.5).Floor;
    assert Rounded(x) * 1000.0 == n as real;
  }

  lemma FloorsKeepOrder(a: real, b: real)
    requires a <= b
    ensures a.Floor <= b.Floor
  {
    assert a.Floor as real <= a && b < (b.Floor + 1) as real;
  }

  lemma FloorIs(a: real, n: int)
    requires n as real <= a < (n + 1) as real
    ensures a.Floor == n
  {
  }

  lemma RoundedMonotone(x: real, y: real)
    requires x <= y
    ensures Rounded(x) <= Rounded(y)
  {
    var m, n := (x * 1000.0 + 0.5).Floor, (y * 1000.0 + 0.5).Floor;
    FloorsKeepOrder(x * 1000.0 + 0.5, y * 1000.0 + 0.5);
    assert m as real <= n as real;
  }

  // The number of thousandths of a stored strength.
  lemma Thousandths(x: real) returns (n: int)
    requires OnGrid(x)
    ensures x * 1000.0 == n as real && x == n as real / 1000.0
  {
    n := (x * 1000.0).Floor;
  }

  lemma RoundedOnGrid(x: real)
    requires OnGrid(x)
    ensures Rounded(x) == x
  {
    var n := Thousandths(x);
    FloorIs(x * 1000.0 + 0.5, n);
  }

  // A run never raises a stored strength, nor takes it off the grid or below the floor.
  lemma RunNeverRaises(f: Curve, it: Item, now: real)
    requires Forgetting(f) && Since(it) <= now && OnGrid(it.strength) && it.strength >= FLOOR
    ensures var s := Decay(f, Rounded, it, now).strength;
            OnGrid(s) && FLOOR <= s <= it.strength
  {
    Between(f, now - Since(it));
    var x := Faded(it.strength, f(now - Since(it)));
    RoundedError(x);
    RoundedMonotone(x, it.strength);
    RoundedOnGrid(it.strength);
    assert FLOOR * 1000.0 == 10.0 && OnGrid(FLOOR);
    RoundedMonotone(FLOOR, x);
    RoundedOnGrid(FLOOR);
  }

  lemma {:induction false} RunsNeverRaise(f: Curve, it: Item, ts: seq<real>)
    requires Forgetting(f) && Schedule(Since(it), ts) && OnGrid(it.strength) && it.strength >= FLOOR
    ensures var s := Runs(f, Rounded, it, ts).strength;
            OnGrid(s) && FLOOR <= s <= it.strength
    decreases |ts|
  {
    if ts != [] {
      var before := ts[..|ts| - 1];
      RunsNeverRaise(f, it, before);
      RunsLeaveAccessAlone(f, Rounded, it, before);
      ScheduleMovesOn(Since(it), before);
      RunNeverRaises(f, Runs(f, Rounded, it, before), ts[|ts| - 1]);
    }
  }

  lemma OrderKeepingStoreForgetsMore(f: Curve, store: real -> real, it: Item, ts: seq<real>)
    requires Forgetting(f) && it.lastAccessed.Some? && Schedule(it.lastAccessed.value, ts) && ts != []
    requires forall x, y :: x <= y ==> store(x) <= store(y)
    requires Runs(f, store, it, ts[..|ts| - 1]).strength <= it.strength
    ensures Runs(f, store, it, ts).strength <= Decay(f, store, it, Last(0.0, ts)).strength
  {
    var before, t, a := ts[..|ts| - 1], ts[|ts| - 1], it.lastAccessed.value;
    LastRun(f, store, it, ts);
    ScheduleMovesOn(a, ts);
    Between(f, t - a);
    var x := Runs(f, store, it, before).strength;
    TimesMonotone(x, it.strength, f(t - a));
    assert Faded(x, f(t - a)) <= Faded(it.strength, f(t - a));
  }

  // More runs never leave the stored strength of a recalled item above that of a single run at the end.
  lemma MoreRunsForgetMore(f: Curve, it: Item, ts: seq<real>)
    requires Forgetting(f) && it.lastAccessed.Some? && Schedule(it.lastAccessed.value, ts) && ts != []
    requires OnGrid(it.strength) && it.strength >= FLOOR
    ensures Runs(f, Rounded, it, ts).strength <= Decay(f, Rounded, it, Last(0.0, ts)).strength
  {
    RunsNeverRaise(f, it, ts[..|ts| - 1]);
    forall x, y | x <= y
      ensures Rounded(x) <= Rounded(y)
    {
      RoundedMonotone(x, y);
    }
    OrderKeepingStoreForgetsMore(f, Rounded, it, ts);
  }

  // A run leaves a stored strength unchanged exactly when it would take at most half a thousandth.
  lemma RunIsLostIff(f: Curve, it: Item, now: real)
    requires Forgetting(f) && Since(it) <= now && OnGrid(it.strength) && it.strength > FLOOR
    ensures Decay(f, Rounded, it, now).strength == it.strength
       <==> Times(it.strength, 1.0 - f(now - Since(it))) <= HALF_STEP
  {
    Between(f, now - Since(it));
    TimesLaws(it.strength, 0.0, f(now - Since(it)));
    RoundsBackIff(it.strength, Times(it.strength, f(now - Since(it))));
  }

  lemma RoundsBackIff(s: real, x: real)
    requires OnGrid(s) && s > FLOOR && 0.0 <= x <= s
    ensures Rounded(AtLeast(FLOOR, x)) == s <==> s - x <= HALF_STEP
  {
    var n := (s * 1000.0).Floor;
    assert s * 1000.0 == n as real && n >= 11;
    var m := (AtLeast(FLOOR, x) * 1000.0 + 0.5).Floor;
    assert Rounded(AtLeast(FLOOR, x)) == s <==> m == n;
    if x < FLOOR {
      assert FLOOR * 1000.0 + 0.5 == 10.5;
      assert m == 10;
    }
  }

  // Consecutive runs so close together that each is lost.
  predicate TooFrequent(f: Curve, s: real, from: real, ts: seq<real>) {
    ts == [] || (TooFrequent(f, s, from, ts[..|ts| - 1])
                 && Times(s, 1.0 - f(ts[|ts| - 1] - Last(from, ts[..|ts| - 1]))) <= HALF_STEP)
  }

  // The stored strength of a never-recalled item that is swept too often never decays at all.
  lemma {:induction false} FrequentRunsNeverForget(f: Curve, it: Item, ts: seq<real>)
    requires Forgetting(f) && it.lastAccessed == None && Schedule(it.updatedAt, ts)
    requires OnGrid(it.strength) && it.strength > FLOOR
    requires TooFrequent(f, it.strength, it.updatedAt, ts)
    ensures Runs(f, Rounded, it, ts) == it.(updatedAt := Last(it.updatedAt, ts))
    decreases |ts|
  {
    if ts != [] {
      FrequentRunsNeverForget(f, it, ts[..|ts| - 1]);
      RunIsLostIff(f, Runs(f, Rounded, it, ts[..|ts| - 1]), ts[|ts| - 1]);
    }
  }

  // The stored strength of a never-recalled item is what it was exactly when every run came too soon.
  lemma {:induction false} NeverFadesIff(f: Curve, it: Item, ts: seq<real>)
    requires Forgetting(f) && it.lastAccessed == None && Schedule(it.updatedAt, ts)
    requires OnGrid(it.strength) && it.strength > FLOOR
    ensures Runs(f, Rounded, it, ts).strength == it.strength <==> TooFrequent(f, it.strength, it.updatedAt, ts)
    decreases |ts|
  {
    if ts != [] {
      var before, t := ts[..|ts| - 1], ts[|ts| - 1];
      var mid := Runs(f, Rounded, it, before);
      NeverFadesIff(f, it, before);
      RunsNeverRaise(f, it, before);
      RunsLeaveAccessAlone(f, Rounded, it, before);
      RunNeverRaises(f, mid, t);
      if mid.strength == it.strength {
        RunIsLostIff(f, mid, t);
      }
    }
  }

  // ---------------------------------------------------------------- a sweep every d seconds

  function Sweeps(from: real, d: real, n: nat): seq<real> {
    if n == 0 then [] else Sweeps(from, d, n - 1) + [Last(from, Sweeps(from, d, n - 1)) + d]
  }

  // The stored strength after n sweeps.
  function Swept(f: Curve, it: Item, d: real, n: nat): real {
    Runs(f, Rounded, it, Sweeps(it.updatedAt, d, n)).strength
  }

  lemma {:induction false} SweepsAreASchedule(from: real, d: real, n: nat)
    requires d >= 0.0
    ensures |Sweeps(from, d, n)| == n && Schedule(from, Sweeps(from, d, n))
  {
    if n > 0 {
      SweepsAreASchedule(from, d, n - 1);
      var before := Sweeps(from, d, n - 1);
      assert Sweeps(from, d, n)[..n - 1] == before;
    }
  }

  lemma SweepAgain(f: Curve, store: real -> real, it: Item, d: real, n: nat)
    requires it.lastAccessed == None && d >= 0.0
    ensures var ts := Sweeps(it.updatedAt, d, n); var mid := Runs(f, store, it, ts);
            && Schedule(it.updatedAt, ts) && mid.lastAccessed == None
            && Runs(f, store, it, Sweeps(it.updatedAt, d, n + 1)).strength == store(Faded(mid.strength, f(d)))
  {
    var ts, more := Sweeps(it.updatedAt, d, n), Sweeps(it.updatedAt, d, n + 1);
    SweepsAreASchedule(it.updatedAt, d, n);
    SweepsAreASchedule(it.updatedAt, d, n + 1);
    assert more[..n] == ts && more[n] == Last(it.updatedAt, ts) + d;
    RunsLeaveAccessAlone(f, store, it, ts);
    LastRun(f, store, it, more);
  }

  // One sweep more.
  lemma OneMoreSweep(f: Curve, it: Item, d: real, n: nat)
    requires Forgetting(f) && d >= 0.0 && it.lastAccessed == None && OnGrid(it.strength) && it.strength >= FLOOR
    ensures OnGrid(Swept(f, it, d, n)) && FLOOR <= Swept(f, it, d, n)
    ensures Swept(f, it, d, n + 1) == Rounded(Faded(Swept(f, it, d, n), f(d))) <= Swept(f, it, d, n)
    ensures Swept(f, it, d, n) > FLOOR ==>
              (Swept(f, it, d, n + 1) == Swept(f, it, d, n) <==> Times(Swept(f, it, d, n), 1.0 - f(d)) <= HALF_STEP)
  {
    SweepAgain(f, Rounded, it, d, n);
    RunsNeverRaise(f, it, Sweeps(it.updatedAt, d, n));
    SweepOnce(f, it, d, Swept(f, it, d, n));
  }

  // What one sweep does to a stored strength.
  lemma SweepOnce(f: Curve, it: Item, d: real, s: real)
    requires Forgetting(f) && d >= 0.0 && it.lastAccessed == None && OnGrid(s) && s >= FLOOR
    ensures Rounded(Faded(s, f(d))) <= s
    ensures s > FLOOR ==> (Rounded(Faded(s, f(d))) == s <==> Times(s, 1.0 - f(d)) <= HALF_STEP)
  {
    var now := it.updatedAt + d;
    RunNeverRaises(f, it.(strength := s), now);
    if s > FLOOR {
      RunIsLostIff(f, it.(strength := s), now);
    }
  }

  const ABOVE_FLOOR := 0.011

  // Sweeps that could not take the last step down to the floor never do.
  lemma {:induction false} StaysAboveFloor(f: Curve, it: Item, d: real, n: nat)
    requires Forgetting(f) && d >= 0.0 && it.lastAccessed == None && OnGrid(it.strength) && it.strength >= ABOVE_FLOOR
    requires Times(ABOVE_FLOOR, 1.0 - f(d)) <= HALF_STEP
    ensures Swept(f, it, d, n) >= ABOVE_FLOOR
  {
    if n > 0 {
      StaysAboveFloor(f, it, d, n - 1);
      OneMoreSweep(f, it, d, n - 1);
      Between(f, d);
      var s := Swept(f, it, d, n - 1);
      TimesMonotone(ABOVE_FLOOR, s, f(d));
      TimesLaws(ABOVE_FLOOR, 0.0, f(d));
      RoundedMonotone(0.0105, Faded(s, f(d)));
      assert 0.0105 * 1000.0 + 0.5 == 11.0;
    }
  }

  lemma GridStep(x: real, y: real)
    requires OnGrid(x) && OnGrid(y) && x < y
    ensures x <= y - 0.001
  {
    var m := Thousandths(x);
    var n := Thousandths(y);
    assert m as real < n as real;
    assert m + 1 <= n;
    assert m as real + 1.0 <= n as real;
  }

  // Otherwise every sweep above the floor takes a thousandth at least.
  lemma SweepDrops(f: Curve, it: Item, d: real, n: nat)
    requires Forgetting(f) && d >= 0.0 && it.lastAccessed == None && OnGrid(it.strength) && it.strength >= FLOOR
    requires Times(ABOVE_FLOOR, 1.0 - f(d)) > HALF_STEP
    ensures FLOOR <= Swept(f, it, d, n + 1)
    ensures Swept(f, it, d, n + 1) == FLOOR || Swept(f, it, d, n + 1) <= Swept(f, it, d, n) - 0.001
  {
    OneMoreSweep(f, it, d, n);
    OneMoreSweep(f, it, d, n + 1);
    var s, next := Swept(f, it, d, n), Swept(f, it, d, n + 1);
    if s > FLOOR {
      Between(f, d);
      FloorOnGrid();
      GridStep(FLOOR, s);
      TimesMonotone(ABOVE_FLOOR, s, 1.0 - f(d));
      GridStep(next, s);
    }
  }

  lemma FloorOnGrid()
    ensures OnGrid(FLOOR)
  {
    assert FLOOR * 1000.0 == 10.0;
  }

  lemma {:induction false} DropsEverySweep(f: Curve, it: Item, d: real, n: nat)
    requires Forgetting(f) && d >= 0.0 && it.lastAccessed == None && OnGrid(it.strength) && it.strength >= FLOOR
    requires Times(ABOVE_FLOOR, 1.0 - f(d)) > HALF_STEP
    ensures Swept(f, it, d, n) == FLOOR || Swept(f, it, d, n) <= it.strength - n as real * 0.001
  {
    if n > 0 {
      DropsEverySweep(f, it, d, n - 1);
      SweepDrops(f, it, d, n - 1);
    }
  }

  // Swept every d seconds, a never-recalled item reaches the floor, and so becomes one that is
  // archived, exactly when a sweep takes more than half a thousandth from 0.011.
  lemma ReachesFloorIff(f: Curve, it: Item, d: real)
    requires Forgetting(f) && d >= 0.0 && it.lastAccessed == None && OnGrid(it.strength) && it.strength > FLOOR
    ensures (exists n: nat :: Swept(f, it, d, n) == FLOOR) <==> Times(ABOVE_FLOOR, 1.0 - f(d)) > HALF_STEP
  {
    FloorOnGrid();
    GridStep(FLOOR, it.strength);
    if Times(ABOVE_FLOOR, 1.0 - f(d)) > HALF_STEP {
      var n := (it.strength * 1000.0).Floor;
      DropsEverySweep(f, it, d, n);
      OneMoreSweep(f, it, d, n);
      assert Swept(f, it, d, n) == FLOOR;
    } else {
      forall n: nat
        ensures Swept(f, it, d, n) != FLOOR
      {
        StaysAboveFloor(f, it, d, n);
      }
    }
  }

  lemma OneMoreFrequent(f: Curve, s: real, from: real, before: seq<real>, d: real)
    ensures TooFrequent(f, s, from, before + [Last(from, before) + d])
       <==> TooFrequent(f, s, from, before) && Times(s, 1.0 - f(d)) <= HALF_STEP
  {
    var ts := before + [Last(from, before) + d];
    assert ts[..|ts| - 1] == before;
    assert ts[|ts| - 1] - Last(from, before) == d;
  }

  // At a fixed period every run comes too soon or none that finds the strength unchanged does.
  lemma {:induction false} PeriodTooShortIff(f: Curve, s: real, from: real, d: real, n: nat)
    requires n > 0
    ensures TooFrequent(f, s, from, Sweeps(from, d, n)) <==> Times(s, 1.0 - f(d)) <= HALF_STEP
  {
    OneMoreFrequent(f, s, from, Sweeps(from, d, n - 1), d);
    if n > 1 {
      PeriodTooShortIff(f, s, from, d, n - 1);
    }
  }

  const DAY := 86400.0

  lemma SquareBelow(f: Curve, a: real, x: real, y: real)
    requires Forgetting(f) && a >= 0.0 && f(a) <= x <= 1.0 && Times(x, x) <= y
    ensures f(a + a) <= y
  {
    Compose(f, a, a);
    Between(f, a);
    TimesMonotone(f(a), x, f(a));
    TimesMonotone(f(a), x, x);
    TimesLaws(f(a), x, 0.0);
  }

  // With a half-life of thirty days, one day keeps more than 95.46 percent.
  lemma OneDayKeepsMost(f: Curve)
    requires Forgetting(f) && f(30.0 * DAY) == 0.5
    ensures f(DAY) > 0.9546
  {
    if f(DAY) <= 0.9546 {
      SquareBelow(f, DAY, 0.9546, 0.9113);
      SquareBelow(f, 2.0 * DAY, 0.9113, 0.8305);
      SquareBelow(f, 4.0 * DAY, 0.8305, 0.6898);
      SquareBelow(f, 8.0 * DAY, 0.6898, 0.4759);
      Compose(f, 16.0 * DAY, 14.0 * DAY);
      Between(f, 16.0 * DAY);
      Between(f, 14.0 * DAY);
    }
  }

  // With the half-life and the daily sweep the program has, a never-recalled item is never archived.
  lemma DailySweepsNeverReachFloor(f: Curve, it: Item, n: nat)
    requires Forgetting(f) && f(30.0 * DAY) == 0.5
    requires it.lastAccessed == None && OnGrid(it.strength) && it.strength > FLOOR
    ensures Swept(f, it, DAY, n) >= ABOVE_FLOOR
  {
    OneDayKeepsMost(f);
    TimesLaws(1.0 - f(DAY), ABOVE_FLOOR, 0.0);
    assert Times(ABOVE_FLOOR, 1.0 - f(DAY)) == ABOVE_FLOOR * (1.0 - f(DAY)) <= HALF_STEP;
    FloorOnGrid();
    GridStep(FLOOR, it.strength);
    StaysAboveFloor(f, it, DAY, n);
  }

  // Fading and rounding move two nearby strengths apart by no more than the rounding.
  lemma OneMoreRun(x: real, y: real, k: real, d: real)
    requires 0.0 < k <= 1.0 && 0.0 <= d && y - d <= x <= y + d
    ensures Faded(y, k) - d <= Faded(x, k) <= Faded(y, k) + d
  {
    TimesMonotone(x, y + d, k);
    TimesMonotone(y - d, x, k);
    TimesLaws(y, d, k);
  }

  ghost predicate RoundsToNearest(store: real -> real) {
    forall x :: -HALF_STEP <= store(x) - x <= HALF_STEP
  }

  function Slack(runs: nat): real {
    if runs == 0 then 0.0 else Slack(runs - 1) + HALF_STEP
  }

  lemma {:induction false} SlackGrows(n: nat)
    ensures 0.0 <= Slack(n)
  {
    if n > 0 {
      SlackGrows(n - 1);
    }
  }

  lemma OneMoreStoredRun(store: real -> real, x: real, y: real, k: real, d: real)
    requires RoundsToNearest(store) && 0.0 < k <= 1.0 && 0.0 <= d && y - d <= x <= y + d
    ensures Faded(y, k) - (d + HALF_STEP) <= store(Faded(x, k)) <= Faded(y, k) + (d + HALF_STEP)
  {
    OneMoreRun(x, y, k, d);
    assert -HALF_STEP <= store(Faded(x, k)) - Faded(x, k) <= HALF_STEP;
  }

  ghost predicate Near(x: real, y: real, d: real) {
    y - d <= x <= y + d
  }

  lemma LastRunStrays(f: Curve, store: real -> real, it: Item, ts: seq<real>, d: real)
    requires ts != [] && RoundsToNearest(store) && 0.0 <= d
    requires 0.0 < f(ts[|ts| - 1] - SinceAfter(it, ts[..|ts| - 1])) <= 1.0
    requires Near(Runs(f, store, it, ts[..|ts| - 1]).strength, Runs(f, Exact, it, ts[..|ts| - 1]).strength, d)
    ensures Near(Runs(f, store, it, ts).strength, Runs(f, Exact, it, ts).strength, d + HALF_STEP)
  {
    var before := ts[..|ts| - 1];
    var x, y, k := Runs(f, store, it, before).strength, Runs(f, Exact, it, before).strength,
                   f(ts[|ts| - 1] - SinceAfter(it, before));
    LastRun(f, store, it, ts);
    LastRun(f, Exact, it, ts);
    OneMoreStoredRun(store, x, y, k, d);
  }

  lemma {:induction false} StoringErrorIsBounded(f: Curve, store: real -> real, it: Item, ts: seq<real>)
    requires Forgetting(f) && RoundsToNearest(store) && Schedule(Since(it), ts)
    ensures Near(Runs(f, store, it, ts).strength, Runs(f, Exact, it, ts).strength, Slack(|ts|))
    decreases |ts|
  {
    if ts != [] {
      var before := ts[..|ts| - 1];
      StoringErrorIsBounded(f, store, it, before);
      ScheduleMovesOn(Since(it), before);
      SlackGrows(|before|);
      Between(f, ts[|ts| - 1] - SinceAfter(it, before));
      LastRunStrays(f, store, it, ts, Slack(|before|));
    }
  }

  // In general the column strays from the formula by at most half a thousandth per run, recalled or not.
  lemma RoundingErrorIsBounded(f: Curve, it: Item, ts: seq<real>)
    requires Forgetting(f) && Schedule(Since(it), ts)
    ensures var y := Runs(f, Exact, it, ts).strength;
            y - Slack(|ts|) <= Runs(f, Rounded, it, ts).strength <= y + Slack(|ts|)
  {
    forall x
      ensures -HALF_STEP <= Rounded(x) - x <= HALF_STEP
    {
      RoundedError(x);
    }
    StoringErrorIsBounded(f, Rounded, it, ts);
  }

  // So the column of a never-recalled item stays near one run over the whole interval,
  lemma StoredForgetsNearTheClock(f: Curve, it: Item, ts: seq<real>)
    requires Forgetting(f) && it.lastAccessed == None && Schedule(it.updatedAt, ts) && ts != []
    ensures var y := Faded(it.strength, f(Last(it.updatedAt, ts) - it.updatedAt));
            y - Slack(|ts|) <= Runs(f, Rounded, it, ts).strength <= y + Slack(|ts|)
  {
    NeverRecalledForgetsByTheClock(f, it, ts);
    RoundingErrorIsBounded(f, it, ts);
  }

  // and that of a recalled one near the factor of the summed times since the access.
  lemma StoredForgetsNearTheSum(f: Curve, it: Item, ts: seq<real>)
    requires Forgetting(f) && it.lastAccessed.Some? && Schedule(it.lastAccessed.value, ts) && ts != []
    ensures var y := Faded(it.strength, f(SumSince(it.lastAccessed.value, ts)));
            y - Slack(|ts|) <= Runs(f, Rounded, it, ts).strength <= y + Slack(|ts|)
  {
    RecalledForgetsByTheSum(f, it, ts);
    RoundingErrorIsBounded(f, it, ts);
  }

  // ---------------------------------------------------------------- every run, and archival

  datatype Op = DecayAll(now: real) | Recall(now: real)

  function Apply(f: Curve, it: Item, op: Op): Item {
    match op
    case DecayAll(now) => Decay(f, Rounded, it, now)
    case Recall(now) => Access(it, now)
  }

  function ApplyAll(f: Curve, it: Item, ops: seq<Op>): Item {
    if ops == [] then it else Apply(f, ApplyAll(f, it, ops[..|ops| - 1]), ops[|ops| - 1])
  }

  predicate Ordered(from: real, ops: seq<Op>) {
    ops == [] || (Ordered(from, ops[..|ops| - 1]) && LastTime(from, ops[..|ops| - 1]) <= ops[|ops| - 1].now)
  }

  function LastTime(from: real, ops: seq<Op>): real {
    if ops == [] then from else ops[|ops| - 1].now
  }

  predicate InRange(it: Item) {
    FLOOR <= it.strength <= MAX
  }

  lemma DecayStaysInRange(f: Curve, it: Item, now: real)
    requires Forgetting(f) && InRange(it) && Since(it) <= now
    ensures InRange(Decay(f, Rounded, it, now))
  {
    Between(f, now - Since(it));
    var x := Faded(it.strength, f(now - Since(it)));
    var n := (x * 1000.0 + 0.5).Floor;
    assert 10.5 <= x * 1000.0 + 0.5 <= 1000.5;
    assert 10 <= n <= 1000;
  }

  // Whatever the order of decay and recall, stored strength stays in [0.01, 1].
  lemma {:induction false} StrengthStaysInRange(f: Curve, it: Item, ops: seq<Op>)
    requires Forgetting(f) && InRange(it) && Since(it) <= it.updatedAt && Ordered(it.updatedAt, ops)
    ensures var r := ApplyAll(f, it, ops);
            InRange(r) && Since(r) <= r.updatedAt == LastTime(it.updatedAt, ops)
    decreases |ops|
  {
    if ops != [] {
      StrengthStaysInRange(f, it, ops[..|ops| - 1]);
      var r := ApplyAll(f, it, ops[..|ops| - 1]);
      if ops[|ops| - 1].DecayAll? {
        DecayStaysInRange(f, r, ops[|ops| - 1].now);
      }
    }
  }

  // The agent's active items of at most this strength.
  function ActiveUpTo(items: seq<Item>, agent: string, limit: real): set<nat> {
    set i: nat | i < |items| && items[i].active && items[i].agent == agent && items[i].strength <= limit
  }

  lemma WeakerAreFewer(items: seq<Item>, agent: string, lo: real, hi: real)
    requires lo <= hi
    ensures |ActiveUpTo(items, agent, lo)| <= |ActiveUpTo(items, agent, hi)|
  {
    var some, all := ActiveUpTo(items, agent, lo), ActiveUpTo(items, agent, hi);
    assert all == some + (all - some);
  }

  lemma AllAreUpToMax(items: seq<Item>, agent: string)
    requires forall it | it in items :: InRange(it)
    ensures ActiveUpTo(items, agent, MAX) == set i: nat | i < |items| && items[i].active && items[i].agent == agent
  {
    forall i: nat | i < |items|
      ensures items[i].strength <= MAX
    {
      assert items[i] in items;
    }
  }

  // One decay run on one row: the formula over the days since the last recall, or else the last write,
  // not below 0.01, rounded half up to thousandths.
  ghost predicate FadedTo(f: Curve, was: Item, now: real, it: Item) {
    var since := if was.lastAccessed.Some? then was.lastAccessed.value else was.updatedAt;
    var raw := Times(was.strength, f(now - since));
    it == Item(was.agent, Rounded(if raw < 0.01 then 0.01 else raw), was.lastAccessed, now, was.active, was.accesses)
  }

  lemma DecayMeans(f: Curve, it: Item, now: real)
    ensures FadedTo(f, it, now, Decay(f, Rounded, it, now))
  {
    assert Since(it) == if it.lastAccessed.Some? then it.lastAccessed.value else it.updatedAt;
  }

  class ItemTable {
    var items: seq<Item>
    var clock: real
    const f: Curve

    ghost predicate Valid()
      reads this
    {
      Forgetting(f) && forall it | it in items :: InRange(it) && Since(it) <= clock && it.updatedAt <= clock
    }

    constructor (f: Curve, items: seq<Item>, now: real)
      requires Forgetting(f)
      requires forall it | it in items :: InRange(it) && Since(it) <= now && it.updatedAt <= now
      ensures Valid() && this.items == items && clock == now
    {
      this.f, this.items, clock := f, items, now;
    }

    method ApplyDecay(agent: string, now: real) returns (decayed: nat, belowMinimum: nat)
      requires Valid() && clock <= now
      modifies this
      ensures Valid() && clock == now && |items| == |old(items)|
      ensures forall i | 0 <= i < |items| ::
                if old(items)[i].active && old(items)[i].agent == agent
                then items[i] == Decay(f, Rounded, old(items)[i], now) && FadedTo(f, old(items)[i], now, items[i])
                else items[i] == old(items)[i]
      ensures decayed == |set i: nat | i < |items| && items[i].active && items[i].agent == agent|
      ensures belowMinimum == |set i: nat | i < |items| && items[i].active && items[i].agent == agent && items[i].strength <= 0.01| <= decayed
    {
      forall it | it in items && it.active && it.agent == agent
        ensures InRange(Decay(f, Rounded, it, now)) && FadedTo(f, it, now, Decay(f, Rounded, it, now))
      {
        DecayStaysInRange(f, it, now);
        DecayMeans(f, it, now);
      }
      var next := seq(|items|, i requires 0 <= i < |items| reads this =>
        if items[i].active && items[i].agent == agent then Decay(f, Rounded, items[i], now) else items[i]);
      items, clock := next, now;
      AllAreUpToMax(items, agent);
      WeakerAreFewer(items, agent, FLOOR, MAX);
      decayed, belowMinimum := |ActiveUpTo(items, agent, MAX)|, |ActiveUpTo(items, agent, FLOOR)|;
    }

    // At the default threshold, exactly the active items at the floor are archived.
    method ArchiveWeakItems(agent: string, now: real, threshold: real := FLOOR) returns (archived: nat)
      requires Valid() && clock <= now
      modifies this
      ensures Valid() && clock == now && |items| == |old(items)|
      ensures forall i | 0 <= i < |items| ::
                items[i] == if old(items)[i].active && old(items)[i].agent == agent && old(items)[i].strength <= threshold
                            then old(items)[i].(active := false, updatedAt := now) else old(items)[i]
      ensures threshold == 0.01 ==> forall i | 0 <= i < |items| ::
                items[i].active != old(items)[i].active
                <==> old(items)[i].active && old(items)[i].agent == agent && old(items)[i].strength == 0.01
      ensures archived == |set i: nat | i < |items| && items[i].active != old(items)[i].active|
      ensures forall it | it in items && it.active && it.agent == agent :: it.strength > threshold
    {
      var weak := ActiveUpTo(items, agent, threshold);
      var next := seq(|items|, i requires 0 <= i < |items| reads this =>
        if items[i].active && items[i].agent == agent && items[i].strength <= threshold
        then items[i].(active := false, updatedAt := now) else items[i]);
      items, clock := next, now;
      archived := |weak|;
      assert weak == set i: nat | i < |items| && items[i].active != old(items)[i].active;
    }

    method RecordAccessBatch(ids: set<nat>, now: real)
      requires Valid() && clock <= now
      modifies this
      ensures Valid() && clock == now && |items| == |old(items)|
      ensures forall i | 0 <= i < |items| :: items[i] == if i in ids then Access(old(items)[i], now) else old(items)[i]
      ensures forall i | 0 <= i < |items| && i in ids ::
                var it := old(items)[i];
                items[i] == it.(strength := if 1.0 < it.strength + 0.15 then 1.0 else it.strength + 0.15,
                                accesses := it.accesses + 1, lastAccessed := Some(now), updatedAt := now)
    {
      var next := seq(|items|, i requires 0 <= i < |items| reads this => if i in ids then Access(items[i], now) else items[i]);
      items, clock := next, now;
    }
  }
}
