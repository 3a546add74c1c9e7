/**
  The per-repository circuit breaker of the AO bridge.  A call is two steps, `Begin` (the check)
  and `Finish` (the recorded outcome), because calls overlap across the awaited HTTP requests.
  Times are milliseconds of a clock that does not run backwards; callbacks do not throw.
 */
module CircuitBreaker {
  import opened Common

  const CIRCUIT_THRESHOLD := 3
  const CIRCUIT_RESET_MS := 60000
  const MAX_RETRIES := 1
  const NO_REPO := ""

  // ---------------------------------------------------------------- one call's HTTP attempts

  datatype Kind = Spawn | BatchSpawn
  datatype Response = Status(code: nat, parses: bool) | NetworkError
  // What a call records: a success, a failure, or nothing.
  datatype Verdict = Success | Failure | Unrecorded

  predicate Accepted(r: Response) {
    r.Status? && 200 <= r.code < 300 && r.parses
  }

  predicate ClientError(r: Response) {
    r.Status? && 400 <= r.code < 500
  }

  // A batch call does not retry a refusal below 500.
  predicate FinalRefusal(r: Response) {
    r.Status? && r.code < 500 && !(200 <= r.code < 300)
  }

  predicate Retryable(kind: Kind, r: Response) {
    !Accepted(r) && if kind == Spawn then !ClientError(r) else !FinalRefusal(r)
  }

  function VerdictOf(kind: Kind, last: Response): Verdict {
    if Accepted(last) then Success else if kind == Spawn && ClientError(last) then Unrecorded else Failure
  }

  // What a call records: the first answer's verdict, unless it is retried.
  function Ends(kind: Kind, answers: seq<Response>): Verdict
    requires |answers| == MAX_RETRIES + 1
  {
    VerdictOf(kind, if Retryable(kind, answers[0]) then answers[1] else answers[0])
  }

  // The retry loop of spawn and batchSpawn.  At most two attempts; the last answer alone decides.
  method Attempt(kind: Kind, answers: seq<Response>) returns (attempts: nat, verdict: Verdict)
    requires |answers| == MAX_RETRIES + 1
    ensures 1 <= attempts <= 2
    ensures attempts == 2 <==> Retryable(kind, answers[0])
    ensures verdict == Ends(kind, answers)
    ensures attempts == 1 <==>
              var first := answers[0];
              first.Status? && ((200 <= first.code <= 299 && first.parses)
                                || if kind == Spawn then 400 <= first.code <= 499
                                   else first.code <= 199 || 300 <= first.code <= 499)
    ensures var last := answers[attempts - 1];
            && (verdict == Success <==> last.Status? && 200 <= last.code <= 299 && last.parses)
            && (verdict == Unrecorded <==> kind == Spawn && last.Status? && 400 <= last.code <= 499)
  {
    attempts, verdict := 0, Failure;
    var attempt := 0;
    while attempt <= MAX_RETRIES
      invariant 0 <= attempt <= MAX_RETRIES
      invariant forall i | 0 <= i < attempt :: Retryable(kind, answers[i])
    {
      var response := answers[attempt];
      match response {
        case NetworkError =>
          if attempt < MAX_RETRIES {
            attempt := attempt + 1;
            continue;
          }
          return attempt + 1, Failure;
        case Status(code, parses) =>
          var ok := 200 <= code < 300;
          if kind == Spawn && 400 <= code < 500 {
            return attempt + 1, Unrecorded;
          }
          if !ok {
            if attempt < MAX_RETRIES && (kind == Spawn || code >= 500) {
              attempt := attempt + 1;
              continue;
            }
            return attempt + 1, Failure;
          }
          if !parses {              // the body's exception is caught like a network error
            if attempt < MAX_RETRIES {
              attempt := attempt + 1;
              continue;
            }
            return attempt + 1, Failure;
          }
          return attempt + 1, Success;
      }
    }
    assert false;               // the loop always returns
  }

  // ---------------------------------------------------------------- the machine

  datatype Circuit = Circuit(failures: nat, openUntil: int)

  // Bookkeeping: what was recorded for a repository, and when its window expired.
  datatype Mark = Failed(repo: string, at: int) | Succeeded(repo: string) | Expired(repo: string)
  // `step` is when the callback fired; `begun` is when the call that caused it began.
  datatype Callback = Callback(repo: string, open: bool, step: nat, begun: nat)
  datatype Flight = Flight(repo: string, begun: nat)

  datatype State = State(circuits: map<string, Circuit>, inFlight: map<nat, Flight>, clock: int, steps: nat,
                         marks: seq<Mark>, callbacks: seq<Callback>, admitted: seq<Flight>)

  datatype Event =
    | Begin(id: nat, repo: string, now: int)
    | Probe(repo: string, now: int)              // isCircuitOpen asked from outside
    | Finish(id: nat, verdict: Verdict, now: int)

  function Init(): State {
    State(map[], map[], 0, 0, [], [], [])
  }

  function Get(circuits: map<string, Circuit>, repo: string): Circuit {
    if repo in circuits then circuits[repo] else Circuit(0, 0)
  }

  predicate Open(s: State, repo: string, now: int) {
    repo != NO_REPO && Get(s.circuits, repo).failures >= CIRCUIT_THRESHOLD && now < Get(s.circuits, repo).openUntil
  }

  predicate PastWindow(s: State, repo: string, now: int) {
    repo != NO_REPO && !Open(s, repo, now) && Get(s.circuits, repo).openUntil > 0 && now >= Get(s.circuits, repo).openUntil
  }

  // The state isCircuitOpen leaves behind: an expired window is closed silently.
  function Check(s: State, repo: string, now: int): State {
    if PastWindow(s, repo, now) then
      s.(circuits := s.circuits[repo := Circuit(0, 0)], marks := s.marks + [Expired(repo)], clock := now)
    else s.(clock := now)
  }

  function RecordFailure(s: State, f: Flight, now: int): State {
    var c := Get(s.circuits, f.repo);
    var opens := c.failures + 1 >= CIRCUIT_THRESHOLD;
    s.(circuits := s.circuits[f.repo := Circuit(c.failures + 1, if opens then now + CIRCUIT_RESET_MS else c.openUntil)],
       marks := s.marks + [Failed(f.repo, now)], clock := now,
       callbacks := s.callbacks + if opens && c.openUntil == 0 then [Callback(f.repo, true, s.steps, f.begun)] else [])
  }

  function RecordSuccess(s: State, f: Flight, now: int): State {
    var c := Get(s.circuits, f.repo);
    s.(circuits := s.circuits[f.repo := Circuit(0, 0)],
       marks := s.marks + [Succeeded(f.repo)], clock := now,
       callbacks := s.callbacks + if c.openUntil > 0 && c.failures >= CIRCUIT_THRESHOLD
                                  then [Callback(f.repo, false, s.steps, f.begun)] else [])
  }

  function Record(s: State, f: Flight, verdict: Verdict, now: int): State {
    match verdict
    case Success => RecordSuccess(s, f, now)
    case Failure => RecordFailure(s, f, now)
    case Unrecorded => s.(clock := now)
  }

  function Step(s: State, e: Event): State {
    match e
    case Begin(id, repo, now) =>
      if id in s.inFlight || Open(s, repo, now) then s.(clock := now, steps := s.steps + 1)
      else
        var f := Flight(repo, s.steps);
        var c := Check(s, repo, now);
        c.(inFlight := c.inFlight[id := f], admitted := c.admitted + [f], steps := s.steps + 1)
    case Probe(repo, now) => Check(s, repo, now).(steps := s.steps + 1)
    case Finish(id, verdict, now) =>
      if id !in s.inFlight then s.(clock := now, steps := s.steps + 1)
      else Record(s, s.inFlight[id], verdict, now).(inFlight := s.inFlight - {id}, steps := s.steps + 1)
  }

  function Run(s: State, es: seq<Event>): State
    decreases es
  {
    if es == [] then s else Run(Step(s, es[0]), es[1..])
  }

  predicate Timely(clock: int, es: seq<Event>)
    decreases es
  {
    es == [] || (clock <= es[0].now && Timely(es[0].now, es[1..]))
  }

  // ---------------------------------------------------------------- what the history says

  // Failures recorded since the last success or expiry.
  function Streak(marks: seq<Mark>, repo: string): nat {
    if marks == [] then 0
    else
      var m := marks[|marks| - 1];
      if m.repo != repo then Streak(marks[..|marks| - 1], repo)
      else if m.Failed? then Streak(marks[..|marks| - 1], repo) + 1 else 0
  }

  function LastFailure(marks: seq<Mark>, repo: string): Option<int> {
    if marks == [] then None
    else
      var m := marks[|marks| - 1];
      if m.Failed? && m.repo == repo then Some(m.at) else LastFailure(marks[..|marks| - 1], repo)
  }

  function LastCallback(cbs: seq<Callback>, repo: string): Option<Callback> {
    if cbs == [] then None
    else if cbs[|cbs| - 1].repo == repo then Some(cbs[|cbs| - 1]) else LastCallback(cbs[..|cbs| - 1], repo)
  }

  predicate LastIsOpen(cbs: seq<Callback>, repo: string) {
    LastCallback(cbs, repo).Some? && LastCallback(cbs, repo).value.open
  }

  // Each "closed" follows an "open" of its repository, with no other "closed" between them, and
  // comes from a call that began before that opening.
  ghost predicate Paired(cbs: seq<Callback>) {
    forall k | 0 <= k < |cbs| && !cbs[k].open ::
      LastIsOpen(cbs[..k], cbs[k].repo)
      && (cbs[k].repo != NO_REPO ==> cbs[k].begun < LastCallback(cbs[..k], cbs[k].repo).value.step)
  }

  // ---------------------------------------------------------------- the invariant

  ghost predicate RepoInv(s: State, repo: string) {
    var c := Get(s.circuits, repo);
    && (c.failures >= CIRCUIT_THRESHOLD <==> c.openUntil > 0)
    && c.failures == Streak(s.marks, repo)
    && (c.openUntil > 0 ==>
          LastFailure(s.marks, repo).Some? && c.openUntil == LastFailure(s.marks, repo).value + CIRCUIT_RESET_MS
          && LastIsOpen(s.callbacks, repo))
    && c.openUntil >= 0
    && (LastFailure(s.marks, repo).Some? ==> LastFailure(s.marks, repo).value <= s.clock)
  }

  // While a circuit is open, whatever is in flight began before it opened.
  ghost predicate NoneBegunSinceOpening(s: State) {
    forall id | id in s.inFlight && s.inFlight[id].repo != NO_REPO && Get(s.circuits, s.inFlight[id].repo).openUntil > 0 ::
      LastIsOpen(s.callbacks, s.inFlight[id].repo)
      && s.inFlight[id].begun < LastCallback(s.callbacks, s.inFlight[id].repo).value.step
  }

  ghost predicate CircuitsAgree(s: State) {
    forall repo :: RepoInv(s, repo)
  }

  ghost predicate Inv(s: State) {
    && 0 <= s.clock
    && CircuitsAgree(s)
    && (forall id | id in s.inFlight :: s.inFlight[id].begun < s.steps)
    && NoneBegunSinceOpening(s)
    && Paired(s.callbacks)
  }

  lemma MarkAdded(marks: seq<Mark>, m: Mark, repo: string)
    ensures Streak(marks + [m], repo) ==
              if m.repo != repo then Streak(marks, repo) else if m.Failed? then Streak(marks, repo) + 1 else 0
    ensures LastFailure(marks + [m], repo) ==
              if m.Failed? && m.repo == repo then Some(m.at) else LastFailure(marks, repo)
  {
    assert (marks + [m])[..|marks|] == marks;
  }

  lemma CallbackAdded(cbs: seq<Callback>, c: Callback)
    ensures forall repo :: LastCallback(cbs + [c], repo) == if c.repo == repo then Some(c) else LastCallback(cbs, repo)
    ensures Paired(cbs)
            && (!c.open ==> LastIsOpen(cbs, c.repo)
                            && (c.repo != NO_REPO ==> c.begun < LastCallback(cbs, c.repo).value.step))
            ==> Paired(cbs + [c])
  {
    assert (cbs + [c])[..|cbs|] == cbs;
    forall k | 0 <= k < |cbs|
      ensures (cbs + [c])[..k] == cbs[..k]
    {
    }
  }

  lemma CheckKeepsCircuits(s: State, repo: string, now: int)
    requires CircuitsAgree(s) && 0 <= s.clock <= now
    ensures CircuitsAgree(Check(s, repo, now))
  {
    var t := Check(s, repo, now);
    forall r
      ensures RepoInv(t, r)
    {
      assert RepoInv(s, r);
      MarkAdded(s.marks, Expired(repo), r);
    }
  }

  lemma CheckKeepsInv(s: State, repo: string, now: int)
    requires Inv(s) && s.clock <= now
    ensures Inv(Check(s, repo, now))
  {
    CheckKeepsCircuits(s, repo, now);
  }

  lemma FailureKeepsCircuits(s: State, f: Flight, now: int)
    requires CircuitsAgree(s) && 0 <= s.clock <= now
    ensures CircuitsAgree(RecordFailure(s, f, now))
  {
    var t := RecordFailure(s, f, now);
    var cb := Callback(f.repo, true, s.steps, f.begun);
    assert RepoInv(s, f.repo);
    CallbackAdded(s.callbacks, cb);
    assert t.callbacks == s.callbacks || t.callbacks == s.callbacks + [cb];
    forall r
      ensures RepoInv(t, r)
    {
      assert RepoInv(s, r);
      MarkAdded(s.marks, Failed(f.repo, now), r);
    }
  }

  lemma SuccessKeepsCircuits(s: State, f: Flight, now: int)
    requires CircuitsAgree(s) && 0 <= s.clock <= now
    ensures CircuitsAgree(RecordSuccess(s, f, now))
  {
    var t := RecordSuccess(s, f, now);
    var cb := Callback(f.repo, false, s.steps, f.begun);
    CallbackAdded(s.callbacks, cb);
    assert t.callbacks == s.callbacks || t.callbacks == s.callbacks + [cb];
    forall r
      ensures RepoInv(t, r)
    {
      assert RepoInv(s, r);
      MarkAdded(s.marks, Succeeded(f.repo), r);
    }
  }

  lemma FailureKeepsCallbacks(s: State, f: Flight, now: int)
    requires Inv(s)
    ensures var t := RecordFailure(s, f, now);
            Paired(t.callbacks) && NoneBegunSinceOpening(t)
  {
    var t := RecordFailure(s, f, now);
    var cb := Callback(f.repo, true, s.steps, f.begun);
    assert RepoInv(s, f.repo);
    CallbackAdded(s.callbacks, cb);
    assert t.callbacks == s.callbacks || t.callbacks == s.callbacks + [cb];
  }

  lemma SuccessKeepsCallbacks(s: State, id: nat, now: int)
    requires Inv(s) && id in s.inFlight
    ensures var t := RecordSuccess(s, s.inFlight[id], now);
            Paired(t.callbacks) && NoneBegunSinceOpening(t)
  {
    var f := s.inFlight[id];
    var t := RecordSuccess(s, f, now);
    var cb := Callback(f.repo, false, s.steps, f.begun);
    assert RepoInv(s, f.repo);
    CallbackAdded(s.callbacks, cb);
    assert t.callbacks == s.callbacks || t.callbacks == s.callbacks + [cb];
  }

  lemma RecordKeepsInv(s: State, id: nat, verdict: Verdict, now: int)
    requires Inv(s) && s.clock <= now && id in s.inFlight
    ensures Inv(Record(s, s.inFlight[id], verdict, now))
  {
    var f := s.inFlight[id];
    match verdict {
      case Success =>
        SuccessKeepsCircuits(s, f, now);
        SuccessKeepsCallbacks(s, id, now);
      case Failure =>
        FailureKeepsCircuits(s, f, now);
        FailureKeepsCallbacks(s, f, now);
      case Unrecorded =>
        CircuitsLater(s, s.(clock := now));
    }
  }

  // What the circuits' invariant does not look at.
  lemma CircuitsLater(s: State, t: State)
    requires CircuitsAgree(s) && s.clock <= t.clock
    requires t.circuits == s.circuits && t.marks == s.marks && t.callbacks == s.callbacks
    ensures CircuitsAgree(t)
  {
    forall r
      ensures RepoInv(t, r)
    {
      assert RepoInv(s, r);
    }
  }

  lemma BeginKeepsInv(s: State, id: nat, repo: string, now: int)
    requires Inv(s) && s.clock <= now
    ensures Inv(Step(s, Begin(id, repo, now)))
  {
    var t := Step(s, Begin(id, repo, now));
    if id in s.inFlight || Open(s, repo, now) {
      CircuitsLater(s, t);
    } else {
      assert RepoInv(s, repo);
      CheckKeepsInv(s, repo, now);
      CircuitsLater(Check(s, repo, now), t);
    }
  }

  lemma FinishKeepsInv(s: State, id: nat, verdict: Verdict, now: int)
    requires Inv(s) && s.clock <= now && id in s.inFlight
    ensures var r := Record(s, s.inFlight[id], verdict, now);
            var t := r.(inFlight := r.inFlight - {id}, steps := r.steps + 1);
            Step(s, Finish(id, verdict, now)) == t && Inv(t)
  {
    RecordKeepsInv(s, id, verdict, now);
    CircuitsLater(Record(s, s.inFlight[id], verdict, now), Step(s, Finish(id, verdict, now)));
  }

  lemma StepKeepsInv(s: State, e: Event)
    requires Inv(s) && s.clock <= e.now
    ensures Inv(Step(s, e))
  {
    var t := Step(s, e);
    match e {
      case Begin(id, repo, now) => BeginKeepsInv(s, id, repo, now);
      case Probe(repo, now) =>
        CheckKeepsInv(s, repo, now);
        CircuitsLater(Check(s, repo, now), t);
      case Finish(id, verdict, now) =>
        if id in s.inFlight {
          FinishKeepsInv(s, id, verdict, now);
        } else {
          CircuitsLater(s, t);
        }
    }
  }

  lemma {:induction false} RunKeepsInv(s: State, es: seq<Event>)
    requires Inv(s) && Timely(s.clock, es)
    ensures Inv(Run(s, es))
    decreases es
  {
    if es != [] {
      StepKeepsInv(s, es[0]);
      RunKeepsInv(Step(s, es[0]), es[1..]);
    }
  }

  lemma InitInv()
    ensures Inv(Init())
  {
    forall repo
      ensures RepoInv(Init(), repo)
    {
    }
  }

  // ---------------------------------------------------------------- main results

  // Under any overlap of calls: the counter is the failures since the last success or expiry, the
  // window is armed exactly from three failures on, and callbacks come in pairs.
  lemma CounterAndWindowAgree(es: seq<Event>, repo: string)
    requires Timely(0, es)
    ensures var s := Run(Init(), es); var c := Get(s.circuits, repo);
            && (c.failures >= 3 <==> c.openUntil > 0)
            && c.failures == Streak(s.marks, repo)
            && Paired(s.callbacks)
  {
    InitInv();
    RunKeepsInv(Init(), es);
    assert RepoInv(Run(Init(), es), repo);
  }

  // ---------------------------------------------------------------- what the callbacks tell of an outage

  function Openings(cbs: seq<Callback>, repo: string): nat {
    if cbs == [] then 0
    else Openings(cbs[..|cbs| - 1], repo) + if cbs[|cbs| - 1].repo == repo && cbs[|cbs| - 1].open then 1 else 0
  }

  function Closings(cbs: seq<Callback>, repo: string): nat {
    if cbs == [] then 0
    else Closings(cbs[..|cbs| - 1], repo) + if cbs[|cbs| - 1].repo == repo && !cbs[|cbs| - 1].open then 1 else 0
  }

  function Expiries(marks: seq<Mark>, repo: string): nat {
    if marks == [] then 0
    else Expiries(marks[..|marks| - 1], repo) + if marks[|marks| - 1] == Expired(repo) then 1 else 0
  }

  lemma CallbackCounted(cbs: seq<Callback>, cb: Callback, repo: string)
    ensures Openings(cbs + [cb], repo) == Openings(cbs, repo) + if cb.repo == repo && cb.open then 1 else 0
    ensures Closings(cbs + [cb], repo) == Closings(cbs, repo) + if cb.repo == repo && !cb.open then 1 else 0
  {
    assert (cbs + [cb])[..|cbs|] == cbs;
  }

  lemma MarkCounted(marks: seq<Mark>, m: Mark, repo: string)
    ensures Expiries(marks + [m], repo) == Expiries(marks, repo) + if m == Expired(repo) then 1 else 0
  {
    assert (marks + [m])[..|marks|] == marks;
  }

  function Armed(s: State, repo: string): nat {
    if Get(s.circuits, repo).openUntil > 0 then 1 else 0
  }

  predicate Balanced(s: State, repo: string) {
    Openings(s.callbacks, repo) == Closings(s.callbacks, repo) + Expiries(s.marks, repo) + Armed(s, repo)
  }

  // Another repository's record moves neither its window nor its counts.
  lemma OtherBalances(s: State, t: State, m: Mark, cb: Callback, repo: string)
    requires Balanced(s, repo) && m.repo != repo && cb.repo != repo && Get(t.circuits, repo) == Get(s.circuits, repo)
    requires t.marks == s.marks + [m] && (t.callbacks == s.callbacks || t.callbacks == s.callbacks + [cb])
    ensures Balanced(t, repo)
  {
    MarkCounted(s.marks, m, repo);
    CallbackCounted(s.callbacks, cb, repo);
  }

  lemma FailureBalances(s: State, f: Flight, now: int, repo: string)
    requires RepoInv(s, f.repo) && 0 <= now && Balanced(s, repo)
    ensures Balanced(RecordFailure(s, f, now), repo)
  {
    var t, c := RecordFailure(s, f, now), Get(s.circuits, f.repo);
    var m, cb := Failed(f.repo, now), Callback(f.repo, true, s.steps, f.begun);
    var justOpened := c.failures + 1 >= CIRCUIT_THRESHOLD && c.openUntil == 0;
    assert t.callbacks == if justOpened then s.callbacks + [cb] else s.callbacks;
    if f.repo != repo {
      OtherBalances(s, t, m, cb, repo);
    } else {
      MarkCounted(s.marks, m, repo);
      CallbackCounted(s.callbacks, cb, repo);
      assert Armed(t, repo) == Armed(s, repo) + if justOpened then 1 else 0;
    }
  }

  lemma SuccessBalances(s: State, f: Flight, now: int, repo: string)
    requires RepoInv(s, f.repo) && Balanced(s, repo)
    ensures Balanced(RecordSuccess(s, f, now), repo)
  {
    var t, c := RecordSuccess(s, f, now), Get(s.circuits, f.repo);
    var m, cb := Succeeded(f.repo), Callback(f.repo, false, s.steps, f.begun);
    assert t.callbacks == if c.openUntil > 0 then s.callbacks + [cb] else s.callbacks;
    if f.repo != repo {
      OtherBalances(s, t, m, cb, repo);
    } else {
      MarkCounted(s.marks, m, repo);
      CallbackCounted(s.callbacks, cb, repo);
    }
  }

  lemma CheckBalances(s: State, asked: string, now: int, repo: string)
    requires Balanced(s, repo)
    ensures Balanced(Check(s, asked, now), repo)
  {
    if PastWindow(s, asked, now) {
      MarkCounted(s.marks, Expired(asked), repo);
    }
  }

  lemma SameBalance(s: State, t: State, repo: string)
    requires Balanced(s, repo) && t.circuits == s.circuits && t.callbacks == s.callbacks && t.marks == s.marks
    ensures Balanced(t, repo)
  {
  }

  lemma BeginBalances(s: State, id: nat, asked: string, now: int, repo: string)
    requires Balanced(s, repo)
    ensures Balanced(Step(s, Begin(id, asked, now)), repo)
  {
    var t := Step(s, Begin(id, asked, now));
    if id in s.inFlight || Open(s, asked, now) {
      SameBalance(s, t, repo);
    } else {
      CheckBalances(s, asked, now, repo);
      SameBalance(Check(s, asked, now), t, repo);
    }
  }

  lemma ProbeBalances(s: State, asked: string, now: int, repo: string)
    requires Balanced(s, repo)
    ensures Balanced(Step(s, Probe(asked, now)), repo)
  {
    CheckBalances(s, asked, now, repo);
    SameBalance(Check(s, asked, now), Step(s, Probe(asked, now)), repo);
  }

  lemma FinishBalances(s: State, id: nat, verdict: Verdict, now: int, repo: string)
    requires (id in s.inFlight ==> RepoInv(s, s.inFlight[id].repo)) && 0 <= now && Balanced(s, repo)
    ensures Balanced(Step(s, Finish(id, verdict, now)), repo)
  {
    var t := Step(s, Finish(id, verdict, now));
    if id !in s.inFlight {
      SameBalance(s, t, repo);
    } else {
      var f := s.inFlight[id];
      match verdict {
        case Success => SuccessBalances(s, f, now, repo);
        case Failure => FailureBalances(s, f, now, repo);
        case Unrecorded =>
      }
      SameBalance(Record(s, f, verdict, now), t, repo);
    }
  }

  lemma StepBalances(s: State, e: Event, repo: string)
    requires CircuitsAgree(s) && 0 <= e.now && Balanced(s, repo)
    ensures Balanced(Step(s, e), repo)
  {
    match e {
      case Begin(id, asked, now) => BeginBalances(s, id, asked, now, repo);
      case Probe(asked, now) => ProbeBalances(s, asked, now, repo);
      case Finish(id, verdict, now) => FinishBalances(s, id, verdict, now, repo);
    }
  }

  lemma {:induction false} RunBalances(s: State, es: seq<Event>, repo: string)
    requires Inv(s) && Timely(s.clock, es) && Balanced(s, repo)
    ensures Balanced(Run(s, es), repo)
    decreases es
  {
    if es != [] {
      StepKeepsInv(s, es[0]);
      StepBalances(s, es[0], repo);
      assert Step(s, es[0]).clock == es[0].now;
      RunBalances(Step(s, es[0]), es[1..], repo);
    }
  }

  // Under any overlap of calls: each opening announced is followed by a closing announced, or by a
  // window that ran out without a word, or the window is still armed.
  lemma OpeningsAreAccounted(es: seq<Event>, repo: string)
    requires Timely(0, es)
    ensures var s := Run(Init(), es);
            Openings(s.callbacks, repo) == Closings(s.callbacks, repo) + Expiries(s.marks, repo) + Armed(s, repo)
  {
    InitInv();
    RunBalances(Init(), es, repo);
  }

  lemma RunsOn(s: State, e: Event, es: seq<Event>)
    ensures Run(s, [e] + es) == Run(Step(s, e), es)
    ensures Timely(s.clock, [e] + es) <==> s.clock <= e.now && Timely(e.now, es)
  {
    assert ([e] + es)[1..] == es;
  }

  // A call that begins and fails at once.
  function FailedCall(id: nat, repo: string, rest: seq<Event>): seq<Event> {
    [Begin(id, repo, 0)] + ([Finish(id, Failure, 0)] + rest)
  }

  // A repository's circuit after some failures at time 0, with nothing in flight.
  ghost predicate After(s: State, repo: string, failures: nat) {
    && s.clock == 0 && s.inFlight == map[]
    && Get(s.circuits, repo) == Circuit(failures, if failures >= CIRCUIT_THRESHOLD then CIRCUIT_RESET_MS else 0)
    && |s.callbacks| == (if failures >= CIRCUIT_THRESHOLD then 1 else 0)
    && Closings(s.callbacks, repo) == 0 && Openings(s.callbacks, repo) == |s.callbacks|
  }

  lemma FailsOnce(s: State, id: nat, repo: string, failures: nat)
    requires repo != NO_REPO && failures < CIRCUIT_THRESHOLD && After(s, repo, failures)
    ensures After(Step(Step(s, Begin(id, repo, 0)), Finish(id, Failure, 0)), repo, failures + 1)
  {
    var t := Step(s, Begin(id, repo, 0));
    assert t.inFlight == map[id := Flight(repo, s.steps)] && t.callbacks == s.callbacks && t.circuits == s.circuits;
    CallbackCounted(t.callbacks, Callback(repo, true, t.steps, s.steps), repo);
    assert t.callbacks + [] == t.callbacks;
    assert t.inFlight - {id} == map[];
  }

  lemma FailedCallRuns(s: State, id: nat, repo: string, rest: seq<Event>)
    requires s.clock == 0
    ensures Run(s, FailedCall(id, repo, rest)) == Run(Step(Step(s, Begin(id, repo, 0)), Finish(id, Failure, 0)), rest)
    ensures Timely(0, FailedCall(id, repo, rest)) <==> Timely(0, rest)
  {
    var t := Step(s, Begin(id, repo, 0));
    RunsOn(s, Begin(id, repo, 0), [Finish(id, Failure, 0)] + rest);
    RunsOn(t, Finish(id, Failure, 0), rest);
  }

  // Three failures open the circuit with an announcement; asked a minute later it is closed again, and
  // nobody was told.
  lemma RecoveryGoesUnannounced(repo: string)
    requires repo != ""
    ensures var es := FailedCall(1, repo, FailedCall(2, repo, FailedCall(3, repo, [Probe(repo, 60000)])));
            var s := Run(Init(), es);
            && Timely(0, es) && !Open(s, repo, 60000) && Armed(s, repo) == 0
            && Openings(s.callbacks, repo) == 1 && Closings(s.callbacks, repo) == 0
  {
    var asked := [Probe(repo, CIRCUIT_RESET_MS)];
    var last := FailedCall(3, repo, asked);
    var s1 := Step(Step(Init(), Begin(1, repo, 0)), Finish(1, Failure, 0));
    var s2 := Step(Step(s1, Begin(2, repo, 0)), Finish(2, Failure, 0));
    var s3 := Step(Step(s2, Begin(3, repo, 0)), Finish(3, Failure, 0));
    FailsOnce(Init(), 1, repo, 0);
    FailsOnce(s1, 2, repo, 1);
    FailsOnce(s2, 3, repo, 2);
    FailedCallRuns(Init(), 1, repo, FailedCall(2, repo, last));
    FailedCallRuns(s1, 2, repo, last);
    FailedCallRuns(s2, 3, repo, asked);
    assert asked == asked + [];
    RunsOn(s3, Probe(repo, CIRCUIT_RESET_MS), []);
  }

  // A call is refused exactly when the last three recorded outcomes since a success or expiry are
  // failures and the last of them is less than a minute old.
  lemma RefusedIff(es: seq<Event>, repo: string, now: int)
    requires Timely(0, es) && repo != ""
    ensures var s := Run(Init(), es);
            Open(s, repo, now) <==>
              Streak(s.marks, repo) >= 3 && LastFailure(s.marks, repo).Some? && now < LastFailure(s.marks, repo).value + 60000
  {
    InitInv();
    RunKeepsInv(Init(), es);
    assert RepoInv(Run(Init(), es), repo);
  }

  // ---------------------------------------------------------------- from HTTP answers to the circuit

  // A spawn the service refuses as a bad request leaves every circuit, count and callback alone.
  lemma ClientErrorIsNotCounted(s: State, id: nat, answers: seq<Response>, now: int)
    requires id in s.inFlight && |answers| == 2
    requires answers[0].Status? && 400 <= answers[0].code <= 499
    ensures var t := Step(s, Finish(id, Ends(Spawn, answers), now));
            t.circuits == s.circuits && t.marks == s.marks && t.callbacks == s.callbacks && t.inFlight == s.inFlight - {id}
  {
    assert !Accepted(answers[0]) && ClientError(answers[0]);
  }

  // Both attempts met a server error or no answer at all.
  predicate Outage(answers: seq<Response>) {
    |answers| == 2 && forall r | r in answers :: r.NetworkError? || 500 <= r.code <= 599
  }

  lemma OutageFails(kind: Kind, answers: seq<Response>)
    requires Outage(answers)
    ensures Ends(kind, answers) == Failure
  {
    assert answers[0] in answers && answers[1] in answers;
  }

  lemma OutageIsCounted(s: State, id: nat, kind: Kind, answers: seq<Response>, now: int)
    requires id in s.inFlight && Outage(answers)
    ensures var t := Step(s, Finish(id, Ends(kind, answers), now)); var repo := s.inFlight[id].repo;
            && t.inFlight == s.inFlight - {id} && t.clock == now
            && Get(t.circuits, repo).failures == Get(s.circuits, repo).failures + 1
            && (Get(t.circuits, repo).failures >= 3 ==> Get(t.circuits, repo).openUntil == now + 60000)
  {
    OutageFails(kind, answers);
  }

  // One call of an outage.
  datatype Ended = Ended(id: nat, kind: Kind, answers: seq<Response>, now: int)

  function Finishing(e: Ended): Event
    requires |e.answers| == MAX_RETRIES + 1
  {
    Finish(e.id, Ends(e.kind, e.answers), e.now)
  }

  // Whatever came before, three calls that each end in two server errors open the circuit for a minute.
  lemma ThreeOutagesOpen(s: State, a: Ended, b: Ended, c: Ended, repo: string, now: int)
    requires a.id in s.inFlight && b.id in s.inFlight && c.id in s.inFlight && a.id != b.id && a.id != c.id && b.id != c.id
    requires s.inFlight[a.id].repo == s.inFlight[b.id].repo == s.inFlight[c.id].repo == repo != ""
    requires Outage(a.answers) && Outage(b.answers) && Outage(c.answers) && now < c.now + 60000
    ensures Open(Step(Step(Step(s, Finishing(a)), Finishing(b)), Finishing(c)), repo, now)
  {
    var s1 := Step(s, Finishing(a));
    OutageIsCounted(s, a.id, a.kind, a.answers, a.now);
    OutageIsCounted(s1, b.id, b.kind, b.answers, b.now);
    OutageIsCounted(Step(s1, Finishing(b)), c.id, c.kind, c.answers, c.now);
  }

  predicate Concerns(s: State, e: Event, repo: string) {
    if e.Finish? then e.id in s.inFlight && s.inFlight[e.id].repo == repo else e.repo == repo
  }

  // No success of the repository, and the clock stays before `until`.
  predicate NoSuccessBefore(s: State, es: seq<Event>, repo: string, until: int)
    decreases es
  {
    es == [] || (es[0].now < until
                 && !(Concerns(s, es[0], repo) && es[0].Finish? && es[0].verdict == Success)
                 && NoSuccessBefore(Step(s, es[0]), es[1..], repo, until))
  }

  function AdmittedFor(admitted: seq<Flight>, repo: string): nat {
    if admitted == [] then 0
    else AdmittedFor(admitted[..|admitted| - 1], repo) + if admitted[|admitted| - 1].repo == repo then 1 else 0
  }

  lemma StepWhileTripped(s: State, e: Event, repo: string, until: int)
    requires Inv(s) && s.clock <= e.now < until && repo != NO_REPO
    requires Get(s.circuits, repo).openUntil >= until > 0
    requires !(Concerns(s, e, repo) && e.Finish? && e.verdict == Success)
    ensures Get(Step(s, e).circuits, repo).openUntil >= until
    ensures AdmittedFor(Step(s, e).admitted, repo) == AdmittedFor(s.admitted, repo)
  {
    assert RepoInv(s, repo);
    if e.Begin? && e.id !in s.inFlight && e.repo != repo {
      var f := Flight(e.repo, s.steps);
      assert (s.admitted + [f])[..|s.admitted|] == s.admitted;
    }
  }

  // Once a repository has tripped, every call begun within 60 seconds of its last recorded failure
  // is refused, so makes no HTTP attempt, unless an earlier call in flight succeeds first.
  lemma {:induction false} TrippedRefusesForAMinute(s: State, es: seq<Event>, repo: string)
    requires Inv(s) && Timely(s.clock, es) && repo != ""
    requires Streak(s.marks, repo) >= 3 && LastFailure(s.marks, repo).Some?
    requires NoSuccessBefore(s, es, repo, LastFailure(s.marks, repo).value + 60000)
    ensures AdmittedFor(Run(s, es).admitted, repo) == AdmittedFor(s.admitted, repo)
    ensures Get(Run(s, es).circuits, repo).openUntil > 0
  {
    assert RepoInv(s, repo);
    StaysTripped(s, es, repo, LastFailure(s.marks, repo).value + CIRCUIT_RESET_MS);
  }

  lemma {:induction false} StaysTripped(s: State, es: seq<Event>, repo: string, until: int)
    requires Inv(s) && Timely(s.clock, es) && repo != NO_REPO
    requires Get(s.circuits, repo).openUntil >= until > 0
    requires NoSuccessBefore(s, es, repo, until)
    ensures AdmittedFor(Run(s, es).admitted, repo) == AdmittedFor(s.admitted, repo)
    ensures Get(Run(s, es).circuits, repo).openUntil >= until
    decreases es
  {
    if es != [] {
      StepWhileTripped(s, es[0], repo, until);
      StepKeepsInv(s, es[0]);
      StaysTripped(Step(s, es[0]), es[1..], repo, until);
    }
  }

  predicate SameFor(s: State, t: State, repo: string) {
    && Get(t.circuits, repo) == Get(s.circuits, repo)
    && LastCallback(t.callbacks, repo) == LastCallback(s.callbacks, repo)
    && Streak(t.marks, repo) == Streak(s.marks, repo)
  }

  lemma FailureIsLocal(s: State, f: Flight, now: int, repo: string)
    requires f.repo != repo
    ensures SameFor(s, RecordFailure(s, f, now), repo)
  {
    CallbackAdded(s.callbacks, Callback(f.repo, true, s.steps, f.begun));
    assert s.callbacks + [] == s.callbacks;
    MarkAdded(s.marks, Failed(f.repo, now), repo);
  }

  lemma SuccessIsLocal(s: State, f: Flight, now: int, repo: string)
    requires f.repo != repo
    ensures SameFor(s, RecordSuccess(s, f, now), repo)
  {
    CallbackAdded(s.callbacks, Callback(f.repo, false, s.steps, f.begun));
    assert s.callbacks + [] == s.callbacks;
    MarkAdded(s.marks, Succeeded(f.repo), repo);
  }

  lemma CheckIsLocal(s: State, checked: string, now: int, repo: string)
    requires checked != repo
    ensures SameFor(s, Check(s, checked, now), repo)
  {
    MarkAdded(s.marks, Expired(checked), repo);
  }

  // A call touches only its own repository's circuit, callbacks and counter.
  lemma OthersUnaffected(s: State, e: Event, repo: string)
    requires !Concerns(s, e, repo)
    ensures SameFor(s, Step(s, e), repo)
  {
    match e {
      case Begin(_, checked, now) => CheckIsLocal(s, checked, now, repo);
      case Probe(checked, now) => CheckIsLocal(s, checked, now, repo);
      case Finish(id, verdict, now) =>
        if id in s.inFlight {
          match verdict {
            case Success => SuccessIsLocal(s, s.inFlight[id], now, repo);
            case Failure => FailureIsLocal(s, s.inFlight[id], now, repo);
            case Unrecorded =>
          }
        }
    }
  }

  // ---------------------------------------------------------------- the bridge object

  // What the change callback is called with.
  datatype Change = Change(repo: string, open: bool)

  function Changes(cbs: seq<Callback>): seq<Change> {
    if cbs == [] then [] else Changes(cbs[..|cbs| - 1]) + [Change(cbs[|cbs| - 1].repo, cbs[|cbs| - 1].open)]
  }

  lemma ChangeAdded(cbs: seq<Callback>, cb: Callback)
    ensures Changes(cbs + [cb]) == Changes(cbs) + [Change(cb.repo, cb.open)]
  {
    assert (cbs + [cb])[..|cbs|] == cbs;
  }

  class AoBridge {
    var circuitState: map<string, Circuit>
    var changes: seq<Change>         // the calls of circuitChangeCallback
    ghost var history: State

    ghost function Abstract(): State
      reads this
    {
      history.(circuits := circuitState)
    }

    ghost predicate Valid()
      reads this
    {
      Inv(Abstract()) && changes == Changes(history.callbacks)
    }

    constructor ()
      ensures Valid() && Abstract() == Init()
    {
      circuitState, changes, history := map[], [], Init();
      new;
      InitInv();
    }

    method IsCircuitOpen(repo: string, now: int) returns (open: bool)
      requires Valid() && history.clock <= now
      modifies this
      ensures Valid() && open == Open(old(Abstract()), repo, now)
      ensures Abstract() == Check(old(Abstract()), repo, now)
      ensures var c := if repo in old(circuitState) then old(circuitState)[repo] else Circuit(0, 0);
              && (open <==> repo != "" && c.failures >= 3 && now < c.openUntil)
              && circuitState == if repo != "" && 0 < c.openUntil <= now then old(circuitState)[repo := Circuit(0, 0)]
                                 else old(circuitState)
      ensures changes == old(changes)
    {
      CheckKeepsInv(Abstract(), repo, now);
      history := history.(clock := now);
      if repo == NO_REPO {
        return false;
      }
      var state := Get(circuitState, repo);
      if state.failures >= CIRCUIT_THRESHOLD && now < state.openUntil {
        return true;
      }
      if state.openUntil > 0 && now >= state.openUntil {
        history := history.(marks := history.marks + [Expired(repo)]);
        circuitState := circuitState[repo := Circuit(0, 0)];
      }
      open := false;
    }

    // The first half of a call: refused calls leave everything as it is.
    method BeginCall(id: nat, repo: string, now: int) returns (admitted: bool)
      requires Valid() && history.clock <= now && id !in history.inFlight
      modifies this
      ensures Valid() && Abstract() == Step(old(Abstract()), Begin(id, repo, now))
      ensures admitted <==> !Open(old(Abstract()), repo, now)
      ensures admitted <==> !(repo != "" && repo in old(circuitState)
                              && old(circuitState)[repo].failures >= 3 && now < old(circuitState)[repo].openUntil)
      ensures changes == old(changes)
      ensures !admitted ==> circuitState == old(circuitState) && history.inFlight == old(history.inFlight)
    {
      StepKeepsInv(Abstract(), Begin(id, repo, now));
      var open := IsCircuitOpen(repo, now);
      if !open {
        var f := Flight(repo, history.steps);
        history := history.(inFlight := history.inFlight[id := f], admitted := history.admitted + [f]);
      }
      history := history.(steps := history.steps + 1);
      admitted := !open;
    }

    // The second half: the attempts are over and their verdict is recorded, once.
    method FinishCall(id: nat, repo: string, kind: Kind, answers: seq<Response>, now: int) returns (verdict: Verdict)
      requires Valid() && history.clock <= now && |answers| == MAX_RETRIES + 1
      requires id in history.inFlight && history.inFlight[id].repo == repo
      modifies this
      ensures Valid() && Abstract() == Step(old(Abstract()), Finish(id, verdict, now))
      ensures verdict == Ends(kind, answers)
      ensures kind == Spawn && answers[0].Status? && 400 <= answers[0].code <= 499 ==> verdict == Unrecorded
      ensures answers[0].Status? && 200 <= answers[0].code <= 299 && answers[0].parses ==> verdict == Success
      ensures kind == BatchSpawn && answers[0].Status? && 300 <= answers[0].code <= 499 ==> verdict == Failure
      ensures (forall r | r in answers :: r.NetworkError? || 500 <= r.code <= 599) ==> verdict == Failure
    {
      var attempts;
      attempts, verdict := Attempt(kind, answers);
      FinishKeepsInv(Abstract(), id, verdict, now);
      NoteVerdict(repo, verdict, now, history.inFlight[id]);
      history := history.(inFlight := history.inFlight - {id}, steps := history.steps + 1);
    }

    method NoteVerdict(repo: string, verdict: Verdict, now: int, ghost f: Flight)
      requires f.repo == repo && changes == Changes(history.callbacks)
      modifies this
      ensures Abstract() == Record(old(Abstract()), f, verdict, now)
      ensures changes == Changes(history.callbacks)
    {
      match verdict {
        case Failure => NoteFailure(repo, now, f);
        case Success => NoteSuccess(repo, now, f);
        case Unrecorded => history := history.(clock := now);
      }
    }

    // recordFailure: the callback fires when this failure opens the circuit.
    method NoteFailure(repo: string, now: int, ghost f: Flight)
      requires f.repo == repo && changes == Changes(history.callbacks)
      modifies this
      ensures Abstract() == RecordFailure(old(Abstract()), f, now)
      ensures var c := if repo in old(circuitState) then old(circuitState)[repo] else Circuit(0, 0);
              && circuitState == old(circuitState)[repo := Circuit(c.failures + 1, if c.failures >= 2 then now + 60000 else c.openUntil)]
              && changes == if c.failures >= 2 && c.openUntil == 0 then old(changes) + [Change(repo, true)] else old(changes)
      ensures changes == Changes(history.callbacks)
    {
      var state := Get(circuitState, repo);
      var failures, openUntil := state.failures + 1, state.openUntil;
      history := history.(marks := history.marks + [Failed(repo, now)], clock := now);
      if failures >= CIRCUIT_THRESHOLD {
        var justOpened := openUntil == 0;
        openUntil := now + CIRCUIT_RESET_MS;
        if justOpened {
          Fire(repo, true, f);
        }
      }
      circuitState := circuitState[repo := Circuit(failures, openUntil)];
    }

    // recordSuccess: the callback fires when the circuit was open.
    method NoteSuccess(repo: string, now: int, ghost f: Flight)
      requires f.repo == repo && changes == Changes(history.callbacks)
      modifies this
      ensures Abstract() == RecordSuccess(old(Abstract()), f, now)
      ensures var c := if repo in old(circuitState) then old(circuitState)[repo] else Circuit(0, 0);
              && circuitState == old(circuitState)[repo := Circuit(0, 0)]
              && changes == if c.failures >= 3 && c.openUntil > 0 then old(changes) + [Change(repo, false)] else old(changes)
      ensures changes == Changes(history.callbacks)
    {
      var state := Get(circuitState, repo);
      var wasOpen := state.openUntil > 0 && state.failures >= CIRCUIT_THRESHOLD;
      history := history.(marks := history.marks + [Succeeded(repo)], clock := now);
      circuitState := circuitState[repo := Circuit(0, 0)];
      if wasOpen {
        Fire(repo, false, f);
      }
    }

    method Fire(repo: string, open: bool, ghost f: Flight)
      requires changes == Changes(history.callbacks)
      modifies this`changes, this`history
      ensures changes == old(changes) + [Change(repo, open)] == Changes(history.callbacks)
      ensures history == old(history).(callbacks := old(history).callbacks + [Callback(repo, open, old(history).steps, f.begun)])
    {
      changes := changes + [Change(repo, open)];
      ChangeAdded(history.callbacks, Callback(repo, open, history.steps, f.begun));
      history := history.(callbacks := history.callbacks + [Callback(repo, open, history.steps, f.begun)]);
    }
  }
}
