/**
  The AgentHub rate limiter: a sliding hour built from per-minute buckets, and the
  cleanup pass that deletes old buckets.  Times are whole seconds.  Every SQL statement
  reads its own clock, so a call has a time at which it counts (`checkAt`) and a possibly
  later time at which it writes (`writeAt`); the immediate transaction serialises calls.
 */
module RateLimiter {

  const HOUR := 3600
  const RETENTION := 7200
  const GRAIN := 60
  // The longest closed window in which the limit really holds.
  const SAFE_WINDOW := HOUR - GRAIN

  datatype Key = Key(agent: string, action: string)
  datatype Row = Row(key: Key, windowStart: int, count: nat)
  // What really happened: one entry for every allowed call.
  datatype Grant = Grant(key: Key, at: int)

  // ---------------------------------------------------------------- the SQL statements

  function Minute(t: int): int {
    t - t % GRAIN
  }

  function SumSince(rows: seq<Row>, key: Key, since: int): nat {
    if rows == [] then 0
    else (if rows[0].key == key && rows[0].windowStart > since then rows[0].count else 0)
         + SumSince(rows[1..], key, since)
  }

  // INSERT ... ON CONFLICT(agent_id, action, window_start) DO UPDATE SET count = count + 1
  function Upsert(rows: seq<Row>, key: Key, windowStart: int): seq<Row> {
    if rows == [] then [Row(key, windowStart, 1)]
    else if rows[0].key == key && rows[0].windowStart == windowStart then
      [rows[0].(count := rows[0].count + 1)] + rows[1..]
    else [rows[0]] + Upsert(rows[1..], key, windowStart)
  }

  function DeleteBefore(rows: seq<Row>, cutoff: int): seq<Row> {
    if rows == [] then []
    else (if rows[0].windowStart < cutoff then [] else [rows[0]]) + DeleteBefore(rows[1..], cutoff)
  }

  // ---------------------------------------------------------------- the machine and its log

  // `log`, `clock` and `purged` are bookkeeping: the grants so far, the latest time seen, and
  // the bound below which buckets may have been deleted.
  datatype State = State(rows: seq<Row>, log: seq<Grant>, clock: int, purged: int)

  datatype Event =
    | Call(key: Key, limit: int, checkAt: int, writeAt: int)
    | Cleanup(at: int)

  function Init(clock: int): State {
    State([], [], clock, clock - RETENTION)
  }

  function Begin(e: Event): int { if e.Call? then e.checkAt else e.at }
  function End(e: Event): int { if e.Call? then e.writeAt else e.at }

  predicate Allowed(s: State, key: Key, limit: int, checkAt: int) {
    SumSince(s.rows, key, checkAt - HOUR) < limit
  }

  function Step(s: State, e: Event): State {
    match e
    case Call(key, limit, checkAt, writeAt) =>
      if Allowed(s, key, limit, checkAt) then
        State(Upsert(s.rows, key, Minute(writeAt)), s.log + [Grant(key, writeAt)], writeAt, s.purged)
      else s.(clock := writeAt)
    case Cleanup(at) =>
      State(DeleteBefore(s.rows, at - RETENTION), s.log, at,
            if s.purged < at - RETENTION then at - RETENTION else s.purged)
  }

  function Run(s: State, es: seq<Event>): State
    decreases es
  {
    if es == [] then s else Run(Step(s, es[0]), es[1..])
  }

  // The answers given to the calls of a run, in order.
  function Answers(s: State, es: seq<Event>): seq<bool>
    decreases es
  {
    if es == [] then []
    else (if es[0].Call? then [Allowed(s, es[0].key, es[0].limit, es[0].checkAt)] else [])
         + Answers(Step(s, es[0]), es[1..])
  }

  // The clock never runs backwards.
  predicate Timely(clock: int, es: seq<Event>)
    decreases es
  {
    es == [] || (clock <= Begin(es[0]) <= End(es[0]) && Timely(End(es[0]), es[1..]))
  }

  predicate FixedLimit(es: seq<Event>, key: Key, limit: int) {
    forall e | e in es && e.Call? && e.key == key :: e.limit == limit
  }

  function Count(log: seq<Grant>, p: Grant -> bool): nat {
    if log == [] then 0 else (if p(log[0]) then 1 else 0) + Count(log[1..], p)
  }

  function InWindow(key: Key, lo: int, hi: int): Grant -> bool {
    (g: Grant) => g.key == key && lo <= g.at <= hi
  }

  function RoundedAfter(key: Key, since: int): Grant -> bool {
    (g: Grant) => g.key == key && g.at - g.at % 60 > since
  }

  function CountIn(log: seq<Grant>, key: Key, lo: int, hi: int): nat {
    Count(log, InWindow(key, lo, hi))
  }

  // ---------------------------------------------------------------- the invariant

  predicate Has(rows: seq<Row>, key: Key, windowStart: int) {
    rows != [] && ((rows[0].key == key && rows[0].windowStart == windowStart) || Has(rows[1..], key, windowStart))
  }

  predicate PrimaryKey(rows: seq<Row>) {
    rows == [] || (!Has(rows[1..], rows[0].key, rows[0].windowStart) && PrimaryKey(rows[1..]))
  }

  predicate WellRounded(rows: seq<Row>, clock: int) {
    rows == [] || (rows[0].windowStart % GRAIN == 0 && rows[0].windowStart <= clock && WellRounded(rows[1..], clock))
  }

  // The bucket table refines the log: every sum the limiter can still ask for is the number of
  // granted calls whose rounded time lies in range.
  ghost predicate Refines(s: State) {
    forall key, since | since >= s.purged - 1 ::
      SumSince(s.rows, key, since) == Count(s.log, RoundedAfter(key, since))
  }

  ghost predicate Inv(s: State) {
    && PrimaryKey(s.rows)
    && WellRounded(s.rows, s.clock)
    && s.purged <= s.clock - RETENTION
    && (forall g | g in s.log :: g.at <= s.clock)
    && Refines(s)
  }

  ghost predicate Guarded(log: seq<Grant>, key: Key, limit: int) {
    forall lo, hi | hi <= lo + 3540 :: CountIn(log, key, lo, hi) <= limit
  }

  // ---------------------------------------------------------------- lemmas about counting

  lemma CountAppend(log: seq<Grant>, g: Grant, p: Grant -> bool)
    ensures Count(log + [g], p) == Count(log, p) + if p(g) then 1 else 0
  {
    if log != [] {
      assert (log + [g])[1..] == log[1..] + [g];
      CountAppend(log[1..], g, p);
    }
  }

  lemma {:induction false} CountMonotone(log: seq<Grant>, p: Grant -> bool, q: Grant -> bool)
    requires forall g | g in log && p(g) :: q(g)
    ensures Count(log, p) <= Count(log, q)
  {
    if log != [] {
      assert log[0] in log;
      CountMonotone(log[1..], p, q);
    }
  }

  lemma {:induction false} CountSplit(log: seq<Grant>, p: Grant -> bool, q: Grant -> bool, r: Grant -> bool)
    requires forall g | g in log && p(g) :: q(g) || r(g)
    ensures Count(log, p) <= Count(log, q) + Count(log, r)
  {
    if log != [] {
      assert log[0] in log;
      CountSplit(log[1..], p, q, r);
    }
  }

  lemma {:induction false} UpsertSum(rows: seq<Row>, key: Key, w: int, k: Key, since: int)
    ensures SumSince(Upsert(rows, key, w), k, since)
         == SumSince(rows, k, since) + if k == key && w > since then 1 else 0
  {
    if rows != [] {
      var up := Upsert(rows, key, w);
      if rows[0].key == key && rows[0].windowStart == w {
        assert up[1..] == rows[1..];
      } else {
        assert up[1..] == Upsert(rows[1..], key, w);
        UpsertSum(rows[1..], key, w, k, since);
      }
    } else {
      assert Upsert(rows, key, w)[1..] == [];
    }
  }

  lemma {:induction false} UpsertRows(rows: seq<Row>, key: Key, w: int)
    ensures forall k, v :: Has(Upsert(rows, key, w), k, v) <==> Has(rows, k, v) || (k == key && v == w)
    ensures PrimaryKey(rows) ==> PrimaryKey(Upsert(rows, key, w))
    ensures forall clock | WellRounded(rows, clock) && w % GRAIN == 0 && w <= clock :: WellRounded(Upsert(rows, key, w), clock)
  {
    if rows == [] {
      assert Upsert(rows, key, w)[1..] == [];
    } else if rows[0].key == key && rows[0].windowStart == w {
      assert Upsert(rows, key, w)[1..] == rows[1..];
    } else {
      assert Upsert(rows, key, w)[1..] == Upsert(rows[1..], key, w);
      UpsertRows(rows[1..], key, w);
    }
  }

  lemma {:induction false} WellRoundedLater(rows: seq<Row>, clock: int, later: int)
    requires WellRounded(rows, clock) && clock <= later
    ensures WellRounded(rows, later)
  {
    if rows != [] {
      WellRoundedLater(rows[1..], clock, later);
    }
  }

  lemma {:induction false} DeleteRows(rows: seq<Row>, cutoff: int)
    ensures forall k, v :: Has(DeleteBefore(rows, cutoff), k, v) <==> Has(rows, k, v) && v >= cutoff
    ensures PrimaryKey(rows) ==> PrimaryKey(DeleteBefore(rows, cutoff))
    ensures forall clock | WellRounded(rows, clock) :: WellRounded(DeleteBefore(rows, cutoff), clock)
  {
    if rows != [] {
      DeleteRows(rows[1..], cutoff);
      var rest := DeleteBefore(rows[1..], cutoff);
      if rows[0].windowStart < cutoff {
        assert DeleteBefore(rows, cutoff) == rest;
      } else {
        assert DeleteBefore(rows, cutoff)[1..] == rest;
      }
    }
  }

  lemma {:induction false} DeleteKeepsSums(rows: seq<Row>, cutoff: int, key: Key, since: int)
    requires since >= cutoff - 1
    ensures SumSince(DeleteBefore(rows, cutoff), key, since) == SumSince(rows, key, since)
  {
    if rows != [] {
      DeleteKeepsSums(rows[1..], cutoff, key, since);
      var rest := DeleteBefore(rows[1..], cutoff);
      if rows[0].windowStart < cutoff {
        assert DeleteBefore(rows, cutoff) == rest;
      } else {
        assert DeleteBefore(rows, cutoff)[1..] == rest;
      }
    }
  }

  // ---------------------------------------------------------------- one step

  lemma {:induction false} StepKeepsInv(s: State, e: Event)
    requires Inv(s) && s.clock <= Begin(e) <= End(e)
    ensures Inv(Step(s, e))
  {
    match e {
      case Call(key, limit, checkAt, writeAt) =>
        WellRoundedLater(s.rows, s.clock, writeAt);
        if Allowed(s, key, limit, checkAt) {
          UpsertRows(s.rows, key, Minute(writeAt));
          GrantKeepsRefines(s, key, writeAt);
        }
      case Cleanup(at) =>
        WellRoundedLater(s.rows, s.clock, at);
        DeleteRows(s.rows, at - RETENTION);
        CleanupKeepsRefines(s, at);
    }
  }

  lemma {:induction false} GrantKeepsRefines(s: State, key: Key, writeAt: int)
    requires Refines(s)
    ensures Refines(State(Upsert(s.rows, key, Minute(writeAt)), s.log + [Grant(key, writeAt)], writeAt, s.purged))
  {
    var t := State(Upsert(s.rows, key, Minute(writeAt)), s.log + [Grant(key, writeAt)], writeAt, s.purged);
    forall k, since | since >= t.purged - 1
      ensures SumSince(t.rows, k, since) == Count(t.log, RoundedAfter(k, since))
    {
      UpsertSum(s.rows, key, Minute(writeAt), k, since);
      CountAppend(s.log, Grant(key, writeAt), RoundedAfter(k, since));
    }
  }

  lemma {:induction false} CleanupKeepsRefines(s: State, at: int)
    requires Refines(s)
    ensures Refines(Step(s, Cleanup(at)))
  {
    var t := Step(s, Cleanup(at));
    forall k, since | since >= t.purged - 1
      ensures SumSince(t.rows, k, since) == Count(t.log, RoundedAfter(k, since))
    {
      DeleteKeepsSums(s.rows, at - RETENTION, k, since);
    }
  }

  // A grant never overfills any closed window of 3540 seconds: whoever shares a window with
  // the new call is, even after rounding down, still inside the hour the check has counted.
  lemma {:induction false} StepKeepsGuard(s: State, e: Event, key: Key, limit: int)
    requires Inv(s) && s.clock <= Begin(e) <= End(e)
    requires e.Call? && e.key == key ==> e.limit == limit
    requires Guarded(s.log, key, limit)
    ensures Guarded(Step(s, e).log, key, limit)
  {
    if e.Call? && Allowed(s, e.key, e.limit, e.checkAt) {
      forall lo, hi | hi <= lo + SAFE_WINDOW
        ensures CountIn(Step(s, e).log, key, lo, hi) <= limit
      {
        CountAppend(s.log, Grant(e.key, e.writeAt), InWindow(key, lo, hi));
        assert CountIn(s.log, key, lo, hi) <= limit;
        if e.key == key && lo <= e.writeAt <= hi {
          CountMonotone(s.log, InWindow(key, lo, hi), RoundedAfter(key, e.checkAt - HOUR));
          assert SumSince(s.rows, key, e.checkAt - HOUR) == Count(s.log, RoundedAfter(key, e.checkAt - HOUR));
        }
      }
    }
  }

  // A refusal is justified by `limit` allowed calls in the true last hour.
  lemma DenialIsJustified(s: State, key: Key, limit: int, checkAt: int)
    requires Inv(s) && s.clock <= checkAt
    requires !Allowed(s, key, limit, checkAt)
    ensures CountIn(s.log, key, checkAt - 3599, checkAt) >= limit
  {
    CountMonotone(s.log, RoundedAfter(key, checkAt - HOUR), InWindow(key, checkAt - HOUR + 1, checkAt));
    assert SumSince(s.rows, key, checkAt - HOUR) == Count(s.log, RoundedAfter(key, checkAt - HOUR));
  }

  // ---------------------------------------------------------------- whole runs

  lemma {:induction false} RunKeepsInv(s: State, es: seq<Event>)
    requires Inv(s) && Timely(s.clock, es)
    ensures Inv(Run(s, es))
    decreases es
  {
    if es != [] {
      StepKeepsInv(s, es[0]);
      RunKeepsInv(Step(s, es[0]), es[1..]);
    }
  }

  lemma {:induction false} RunKeepsGuard(s: State, es: seq<Event>, key: Key, limit: int)
    requires Inv(s) && Timely(s.clock, es) && FixedLimit(es, key, limit)
    requires Guarded(s.log, key, limit)
    ensures Guarded(Run(s, es).log, key, limit)
    decreases es
  {
    if es != [] {
      assert es[0] in es && forall e | e in es[1..] :: e in es;
      StepKeepsInv(s, es[0]);
      StepKeepsGuard(s, es[0], key, limit);
      RunKeepsGuard(Step(s, es[0]), es[1..], key, limit);
    }
  }

  lemma InitInv(clock: int)
    ensures Inv(Init(clock))
    ensures forall key, limit | limit >= 0 :: Guarded(Init(clock).log, key, limit)
  {
  }

  // Any closed window of 3540 seconds holds at most the limit.
  lemma AtMostLimitIn59Minutes(clock: int, es: seq<Event>, key: Key, limit: nat, lo: int, hi: int)
    requires Timely(clock, es) && FixedLimit(es, key, limit)
    requires hi <= lo + 3540
    ensures CountIn(Run(Init(clock), es).log, key, lo, hi) <= limit
  {
    InitInv(clock);
    RunKeepsGuard(Init(clock), es, key, limit);
  }

  // Any closed hour holds at most twice the limit.
  lemma AtMostTwiceLimitInHour(clock: int, es: seq<Event>, key: Key, limit: nat, a: int)
    requires Timely(clock, es) && FixedLimit(es, key, limit)
    ensures CountIn(Run(Init(clock), es).log, key, a, a + 3600) <= 2 * limit
  {
    var log := Run(Init(clock), es).log;
    var b := a + SAFE_WINDOW + 1;
    CountSplit(log, InWindow(key, a, a + HOUR), InWindow(key, a, a + SAFE_WINDOW), InWindow(key, b, b + SAFE_WINDOW));
    AtMostLimitIn59Minutes(clock, es, key, limit, a, a + SAFE_WINDOW);
    AtMostLimitIn59Minutes(clock, es, key, limit, b, b + SAFE_WINDOW);
  }

  // ---------------------------------------------------------------- the bound is tight

  function Repeat<T>(x: T, n: nat): seq<T> {
    if n == 0 then [] else [x] + Repeat(x, n - 1)
  }

  lemma OneIsGranted(s: State, key: Key, limit: int, t: int)
    requires Inv(s) && s.clock <= t && SumSince(s.rows, key, t - HOUR) < limit
    ensures var s' := Step(s, Call(key, limit, t, t));
            Inv(s') && s'.clock == t && s'.log == s.log + [Grant(key, t)]
            && SumSince(s'.rows, key, t - HOUR) == SumSince(s.rows, key, t - HOUR) + 1
  {
    StepKeepsInv(s, Call(key, limit, t, t));
    UpsertSum(s.rows, key, Minute(t), key, t - HOUR);
  }

  // While the hour has room for n more calls, n calls at one instant are all granted.
  lemma {:induction false} BurstIsGranted(s: State, key: Key, limit: int, t: int, n: nat)
    requires Inv(s) && s.clock <= t
    requires SumSince(s.rows, key, t - HOUR) + n <= limit
    ensures Timely(s.clock, Repeat(Call(key, limit, t, t), n))
    ensures Run(s, Repeat(Call(key, limit, t, t), n)).log == s.log + Repeat(Grant(key, t), n)
    decreases n
  {
    if n > 0 {
      var e := Call(key, limit, t, t);
      OneIsGranted(s, key, limit, t);
      BurstIsGranted(Step(s, e), key, limit, t, n - 1);
      assert Repeat(e, n)[1..] == Repeat(e, n - 1);
      assert s.log + [Grant(key, t)] + Repeat(Grant(key, t), n - 1) == s.log + Repeat(Grant(key, t), n);
    }
  }

  lemma {:induction false} CountRepeat(log: seq<Grant>, g: Grant, n: nat, p: Grant -> bool)
    ensures Count(log + Repeat(g, n), p) == Count(log, p) + if p(g) then n else 0
    decreases n
  {
    if n == 0 {
      assert log + Repeat(g, n) == log;
    } else {
      CountAppend(log, g, p);
      CountRepeat(log + [g], g, n - 1, p);
      assert log + [g] + Repeat(g, n - 1) == log + Repeat(g, n);
    }
  }

  lemma {:induction false} RunAppend(s: State, es: seq<Event>, fs: seq<Event>)
    ensures Run(s, es + fs) == Run(Run(s, es), fs)
    decreases es
  {
    if es == [] {
      assert es + fs == fs;
    } else {
      assert (es + fs)[1..] == es[1..] + fs;
      RunAppend(Step(s, es[0]), es[1..], fs);
    }
  }

  lemma {:induction false} TimelyAppend(clock: int, es: seq<Event>, fs: seq<Event>, mid: int)
    requires Timely(clock, es) && Timely(mid, fs)
    requires forall e | e in es :: End(e) <= mid
    requires clock <= mid
    ensures Timely(clock, es + fs)
    decreases es
  {
    if es == [] {
      assert es + fs == fs;
    } else {
      assert es[0] in es && (es + fs)[1..] == es[1..] + fs;
      TimelyAppend(End(es[0]), es[1..], fs, mid);
    }
  }

  lemma {:induction false} RepeatMembers<T>(x: T, n: nat)
    ensures forall y | y in Repeat(x, n) :: y == x
  {
    if n > 0 {
      RepeatMembers(x, n - 1);
    }
  }

  // The witness: a full burst in the last second of a minute, and another one 3541 seconds later.
  function TwoBursts(key: Key, limit: nat): seq<Event> {
    Repeat(Call(key, limit, 59, 59), limit) + Repeat(Call(key, limit, HOUR, HOUR), limit)
  }

  lemma TwiceLimitIn3541Seconds(key: Key, limit: nat)
    ensures Timely(0, TwoBursts(key, limit)) && FixedLimit(TwoBursts(key, limit), key, limit)
    ensures CountIn(Run(Init(0), TwoBursts(key, limit)).log, key, 59, 3600) == 2 * limit
  {
    var s := Init(0);
    var first, second := Call(key, limit, 59, 59), Call(key, limit, HOUR, HOUR);
    RepeatMembers(first, limit);
    RepeatMembers(second, limit);
    InitInv(0);
    BurstIsGranted(s, key, limit, 59, limit);
    var m := Run(s, Repeat(first, limit));
    RunKeepsInv(s, Repeat(first, limit));
    RunClock(s, Repeat(first, limit), HOUR);
    CountRepeat([], Grant(key, 59), limit, RoundedAfter(key, 0));
    assert m.log == [] + Repeat(Grant(key, 59), limit);
    assert SumSince(m.rows, key, 0) == 0;
    BurstIsGranted(m, key, limit, HOUR, limit);
    RunAppend(s, Repeat(first, limit), Repeat(second, limit));
    TimelyLater(m.clock, HOUR, second, limit);
    TimelyAppend(0, Repeat(first, limit), Repeat(second, limit), HOUR);
    var p := InWindow(key, 59, 59 + SAFE_WINDOW + 1);
    CountRepeat([], Grant(key, 59), limit, p);
    CountRepeat(m.log, Grant(key, HOUR), limit, p);
  }

  lemma {:induction false} RunClock(s: State, es: seq<Event>, bound: int)
    requires s.clock <= bound && forall e | e in es :: End(e) <= bound
    requires s.purged <= s.clock - RETENTION && Timely(s.clock, es)
    ensures Run(s, es).clock <= bound
    ensures (forall e | e in es :: e.Call?) ==> Run(s, es).purged == s.purged
    decreases es
  {
    if es != [] {
      assert es[0] in es && forall e | e in es[1..] :: e in es;
      RunClock(Step(s, es[0]), es[1..], bound);
    }
  }

  lemma TimelyLater(clock: int, mid: int, e: Event, n: nat)
    requires clock <= mid == Begin(e) && Timely(clock, Repeat(e, n))
    ensures Timely(mid, Repeat(e, n))
  {
  }

  // In every timely run with a fixed limit, no closed window of `length` seconds holds more calls.
  ghost predicate SafeLength(limit: nat, length: nat) {
    forall clock, es, key, lo, hi | Timely(clock, es) && FixedLimit(es, key, limit) && hi <= lo + length ::
      CountIn(Run(Init(clock), es).log, key, lo, hi) <= limit
  }

  // So "at most maxPerHour per hour" is false; the lengths for which the limit holds are exactly
  // those up to 59 minutes.
  lemma SafeLengthIsExactly59Minutes(limit: nat, length: nat)
    requires limit > 0
    ensures SafeLength(limit, length) <==> length <= 3540
  {
    if length <= SAFE_WINDOW {
      forall clock, es, key, lo, hi | Timely(clock, es) && FixedLimit(es, key, limit) && hi <= lo + length
        ensures CountIn(Run(Init(clock), es).log, key, lo, hi) <= limit
      {
        AtMostLimitIn59Minutes(clock, es, key, limit, lo, hi);
      }
    } else {
      var key := Key("agent", "push");
      TwiceLimitIn3541Seconds(key, limit);
      assert CountIn(Run(Init(0), TwoBursts(key, limit)).log, key, 59, 59 + SAFE_WINDOW + 1) > limit;
    }
  }

  // ---------------------------------------------------------------- cleanup

  function CallsOnly(es: seq<Event>): seq<Event> {
    if es == [] then []
    else (if es[0].Call? then [es[0]] else []) + CallsOnly(es[1..])
  }

  // Two states that grant the same calls from now on: same log, tables refined from it.
  lemma {:induction false} CleanupIsInvisible(s: State, t: State, es: seq<Event>)
    requires Inv(s) && Inv(t) && s.log == t.log && t.clock <= s.clock
    requires Timely(s.clock, es)
    ensures Answers(s, es) == Answers(t, CallsOnly(es))
    ensures Run(s, es).log == Run(t, CallsOnly(es)).log
    decreases es
  {
    if es != [] {
      var e := es[0];
      StepKeepsInv(s, e);
      match e {
        case Cleanup(_) =>
          assert CallsOnly(es) == CallsOnly(es[1..]);
          CleanupIsInvisible(Step(s, e), t, es[1..]);
        case Call(key, limit, checkAt, writeAt) =>
          StepKeepsInv(t, e);
          var since := checkAt - HOUR;
          assert SumSince(s.rows, key, since) == Count(s.log, RoundedAfter(key, since));
          assert SumSince(t.rows, key, since) == Count(t.log, RoundedAfter(key, since));
          CleanupIsInvisible(Step(s, e), Step(t, e), es[1..]);
          assert CallsOnly(es)[1..] == CallsOnly(es[1..]);
      }
    }
  }

  lemma CleanupNeverChangesAnAnswer(clock: int, es: seq<Event>)
    requires Timely(clock, es)
    ensures Answers(Init(clock), es) == Answers(Init(clock), CallsOnly(es))
  {
    InitInv(clock);
    CleanupIsInvisible(Init(clock), Init(clock), es);
  }

  // The number of buckets a key has from `lo` up to, and not including, `hi`.
  function Buckets(rows: seq<Row>, key: Key, lo: int, hi: int): nat {
    if rows == [] then 0
    else (if rows[0].key == key && lo <= rows[0].windowStart < hi then 1 else 0) + Buckets(rows[1..], key, lo, hi)
  }

  function AllBuckets(rows: seq<Row>, key: Key): nat {
    if rows == [] then 0 else (if rows[0].key == key then 1 else 0) + AllBuckets(rows[1..], key)
  }

  lemma {:induction false} EmptyMinute(rows: seq<Row>, key: Key, lo: int, clock: int)
    requires WellRounded(rows, clock)
    requires forall w | w % GRAIN == 0 && lo <= w < lo + GRAIN :: !Has(rows, key, w)
    ensures Buckets(rows, key, lo, lo + GRAIN) == 0
  {
    if rows != [] {
      forall w | w % GRAIN == 0 && lo <= w < lo + GRAIN
        ensures !Has(rows[1..], key, w)
      {
        assert !Has(rows, key, w);
      }
      EmptyMinute(rows[1..], key, lo, clock);
      assert rows[0].key == key ==> Has(rows, key, rows[0].windowStart);
    }
  }

  lemma {:induction false} OneBucketPerMinute(rows: seq<Row>, key: Key, lo: int, clock: int)
    requires PrimaryKey(rows) && WellRounded(rows, clock)
    ensures Buckets(rows, key, lo, lo + GRAIN) <= 1
  {
    if rows != [] {
      if rows[0].key == key && lo <= rows[0].windowStart < lo + GRAIN {
        forall w | w % GRAIN == 0 && lo <= w < lo + GRAIN
          ensures !Has(rows[1..], key, w)
        {
          assert w == rows[0].windowStart;
        }
        EmptyMinute(rows[1..], key, lo, clock);
      } else {
        OneBucketPerMinute(rows[1..], key, lo, clock);
      }
    }
  }

  lemma {:induction false} BucketsSplit(rows: seq<Row>, key: Key, lo: int, mid: int, hi: int)
    requires lo <= mid <= hi
    ensures Buckets(rows, key, lo, hi) == Buckets(rows, key, lo, mid) + Buckets(rows, key, mid, hi)
  {
    if rows != [] {
      BucketsSplit(rows[1..], key, lo, mid, hi);
    }
  }

  lemma {:induction false} BucketsInMinutes(rows: seq<Row>, key: Key, lo: int, n: nat, clock: int)
    requires PrimaryKey(rows) && WellRounded(rows, clock)
    ensures Buckets(rows, key, lo, lo + n * GRAIN) <= n
    decreases n
  {
    if n == 0 {
      NoBuckets(rows, key, lo);
    } else {
      BucketsSplit(rows, key, lo, lo + GRAIN, lo + n * GRAIN);
      OneBucketPerMinute(rows, key, lo, clock);
      BucketsInMinutes(rows, key, lo + GRAIN, n - 1, clock);
    }
  }

  lemma {:induction false} NoBuckets(rows: seq<Row>, key: Key, lo: int)
    ensures Buckets(rows, key, lo, lo) == 0
  {
    if rows != [] {
      NoBuckets(rows[1..], key, lo);
    }
  }

  lemma {:induction false} DeletedBuckets(rows: seq<Row>, key: Key, cutoff: int, clock: int)
    requires WellRounded(rows, clock)
    ensures AllBuckets(DeleteBefore(rows, cutoff), key) == Buckets(DeleteBefore(rows, cutoff), key, cutoff, clock + 1)
  {
    if rows != [] {
      DeletedBuckets(rows[1..], key, cutoff, clock);
      var rest := DeleteBefore(rows[1..], cutoff);
      if rows[0].windowStart < cutoff {
        assert DeleteBefore(rows, cutoff) == rest;
      } else {
        assert DeleteBefore(rows, cutoff)[1..] == rest;
      }
    }
  }

  // After a cleanup, two hours and a minute of buckets are all a key can have.
  lemma CleanupLeaves121Buckets(s: State, at: int, key: Key)
    requires Inv(s) && s.clock <= at
    ensures AllBuckets(Step(s, Cleanup(at)).rows, key) <= 121
  {
    var cutoff := at - RETENTION;
    var rows := DeleteBefore(s.rows, cutoff);
    StepKeepsInv(s, Cleanup(at));
    WellRoundedLater(s.rows, s.clock, at);
    DeletedBuckets(s.rows, key, cutoff, at);
    BucketsSplit(rows, key, cutoff, at + 1, cutoff + 121 * GRAIN);
    BucketsInMinutes(rows, key, cutoff, 121, at);
  }

  // The bucket of this key and minute counts one call more, or exists now and counts one; all others stay.
  ghost predicate OneMore(before: seq<Row>, after: seq<Row>, key: Key, windowStart: int) {
    && (forall r: Row | !(r.key == key && r.windowStart == windowStart) :: r in after <==> r in before)
    && (forall r | r in after && r.key == key && r.windowStart == windowStart ::
          if Has(before, key, windowStart) then r.count > 0 && Row(key, windowStart, r.count - 1) in before else r.count == 1)
    && exists r :: r in after && r.key == key && r.windowStart == windowStart
  }

  lemma {:induction false} HasRow(rows: seq<Row>, key: Key, w: int)
    ensures Has(rows, key, w) <==> exists r :: r in rows && r.key == key && r.windowStart == w
  {
    if rows != [] {
      HasRow(rows[1..], key, w);
      assert rows[0] in rows;
      assert forall r :: r in rows <==> r == rows[0] || r in rows[1..];
    }
  }

  lemma {:induction false} OneMoreHere(r0: Row, rest: seq<Row>)
    requires !Has(rest, r0.key, r0.windowStart)
    ensures OneMore([r0] + rest, [r0.(count := r0.count + 1)] + rest, r0.key, r0.windowStart)
  {
    var before, after := [r0] + rest, [r0.(count := r0.count + 1)] + rest;
    HasRow(rest, r0.key, r0.windowStart);
    HasRow(before, r0.key, r0.windowStart);
    assert before[0] in before && after[0] in after;
    assert forall r :: r in after <==> r == after[0] || r in rest;
    assert forall r :: r in before <==> r == r0 || r in rest;
  }

  lemma {:induction false} OneMoreLater(r0: Row, before: seq<Row>, after: seq<Row>, key: Key, w: int)
    requires OneMore(before, after, key, w) && !(r0.key == key && r0.windowStart == w)
    ensures OneMore([r0] + before, [r0] + after, key, w)
  {
    assert ([r0] + before)[1..] == before;
    assert forall r :: r in [r0] + after <==> r == r0 || r in after;
    assert forall r :: r in [r0] + before <==> r == r0 || r in before;
  }

  lemma {:induction false} UpsertAddsOne(rows: seq<Row>, key: Key, w: int)
    requires PrimaryKey(rows)
    ensures OneMore(rows, Upsert(rows, key, w), key, w)
  {
    if rows == [] {
      assert Row(key, w, 1) in Upsert(rows, key, w);
    } else {
      assert rows == [rows[0]] + rows[1..];
      if rows[0].key == key && rows[0].windowStart == w {
        OneMoreHere(rows[0], rows[1..]);
      } else {
        UpsertAddsOne(rows[1..], key, w);
        OneMoreLater(rows[0], rows[1..], Upsert(rows[1..], key, w), key, w);
      }
    }
  }

  lemma GrantAddsOne(s: State, key: Key, writeAt: int)
    requires Inv(s)
    ensures OneMore(s.rows, Upsert(s.rows, key, Minute(writeAt)), key, writeAt - writeAt % 60)
  {
    UpsertAddsOne(s.rows, key, Minute(writeAt));
  }

  lemma {:induction false} DeleteRowsBefore(rows: seq<Row>, cutoff: int)
    ensures forall r :: r in DeleteBefore(rows, cutoff) <==> r in rows && r.windowStart >= cutoff
  {
    if rows != [] {
      DeleteRowsBefore(rows[1..], cutoff);
      assert forall r :: r in rows <==> r == rows[0] || r in rows[1..];
      var rest := DeleteBefore(rows[1..], cutoff);
      assert DeleteBefore(rows, cutoff) == if rows[0].windowStart < cutoff then rest else [rows[0]] + rest;
    }
  }

  // ---------------------------------------------------------------- the database object

  class RateLimitTable {
    var rows: seq<Row>
    ghost var log: seq<Grant>
    ghost var clock: int
    ghost var purged: int

    ghost function Abstract(): State
      reads this
    {
      State(rows, log, clock, purged)
    }

    ghost predicate Valid()
      reads this
    {
      Inv(Abstract())
    }

    constructor (ghost now: int)
      ensures Valid() && Abstract() == Init(now)
    {
      rows := [];
      log, clock, purged := [], now, now - RETENTION;
      new;
      InitInv(now);
    }

    // A refusal changes nothing but the clock.
    method CheckAndIncrementRateLimit(agentID: string, action: string, maxPerHour: int, checkAt: int, writeAt: int)
      returns (allowed: bool)
      requires Valid() && clock <= checkAt <= writeAt
      modifies this
      ensures Valid()
      ensures allowed == Allowed(old(Abstract()), Key(agentID, action), maxPerHour, checkAt)
      ensures Abstract() == Step(old(Abstract()), Call(Key(agentID, action), maxPerHour, checkAt, writeAt))
      ensures !allowed ==>
                (rows == old(rows) && CountIn(log, Key(agentID, action), checkAt - 3599, checkAt) >= maxPerHour)
      ensures allowed ==> log == old(log) + [Grant(Key(agentID, action), writeAt)]
      ensures allowed <==> SumSince(old(rows), Key(agentID, action), checkAt - 3600) < maxPerHour
      ensures allowed ==> OneMore(old(rows), rows, Key(agentID, action), writeAt - writeAt % 60)
    {
      var key := Key(agentID, action);
      StepKeepsInv(Abstract(), Call(key, maxPerHour, checkAt, writeAt));
      var count := SumSince(rows, key, checkAt - HOUR);
      if count >= maxPerHour {
        DenialIsJustified(Abstract(), key, maxPerHour, checkAt);
        allowed := false;
      } else {
        GrantAddsOne(Abstract(), key, writeAt);
        rows := Upsert(rows, key, Minute(writeAt));
        log := log + [Grant(key, writeAt)];
        allowed := true;
      }
      clock := writeAt;
    }

    method CleanupRateLimits(now: int)
      requires Valid() && clock <= now
      modifies this
      ensures Valid() && log == old(log)
      ensures Abstract() == Step(old(Abstract()), Cleanup(now))
      ensures forall key :: AllBuckets(rows, key) <= 121
      ensures forall r :: r in rows <==> r in old(rows) && r.windowStart >= now - 7200
    {
      DeleteRowsBefore(rows, now - RETENTION);
      StepKeepsInv(Abstract(), Cleanup(now));
      forall key
        ensures AllBuckets(Step(Abstract(), Cleanup(now)).rows, key) <= 121
      {
        CleanupLeaves121Buckets(Abstract(), now, key);
      }
      rows := DeleteBefore(rows, now - RETENTION);
      clock, purged := now, if purged < now - RETENTION then now - RETENTION else purged;
    }
  }
}
