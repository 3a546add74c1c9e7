/**
  The approval lifecycle.  `decide` and `expirePending` read, write and publish in separate
  steps, so each is an operation in flight whose steps may interleave with anybody's; the bulk
  update of an expiry pass touches one document at a time.  Times are milliseconds.
 */
module Approvals {
  import opened Common

  const EXPIRY_MS := 24 * 60 * 60 * 1000

  const KNOWN_AGENT_IDS := {
    "strategist", "reviewer", "ember", "scout", "forge", "architect", "deployer",
    "sentinel", "signal", "keeper", "treasurer", "guide", "designer", "builder"
  }

  // `lower` is the lower-casing of strings, whatever it does outside ASCII.
  predicate IsAgentIdentity(lower: string -> string, who: string) {
    lower(who) in KNOWN_AGENT_IDS
  }

  datatype Status = Pending | Approved | Rejected | Expired
  datatype Request = Request(requiresHuman: bool, status: Status, decidedBy: Option<string>, expiresAt: int)

  // A decision that has passed its checks: waiting to write, or written and waiting to publish.
  datatype Deciding = Deciding(id: nat, verdict: Status, who: string, written: bool)
  // An expiry pass: updating documents, then publishing for those it had read.
  datatype Expiring = Expiring(now: int, unpublished: set<nat>, written: bool)
  datatype Terminal = Terminal(id: nat, kind: Status)

  datatype State = State(requests: map<nat, Request>, deciders: map<nat, Deciding>, expirers: map<nat, Expiring>,
                         events: seq<Terminal>, clock: int)

  datatype Event =
    | Create(id: nat, requiresHuman: bool, now: int)
    | DecideRead(op: nat, id: nat, approve: bool, who: string)
    | DecideWrite(op: nat)
    | DecidePublish(op: nat)
    | ExpireRead(op: nat, now: int)
    | ExpireDocument(op: nat, id: nat)
    | ExpireWritten(op: nat)
    | ExpirePublish(op: nat, id: nat)

  function Init(): State {
    State(map[], map[], map[], [], 0)
  }

  predicate IsPending(s: State, id: nat) {
    id in s.requests && s.requests[id].status == Pending
  }

  predicate Overdue(s: State, id: nat, now: int) {
    IsPending(s, id) && s.requests[id].expiresAt <= now
  }

  // What find({status: 'pending', expiresAt: {$lte: now}}) returns.
  function AllOverdue(s: State, now: int): set<nat> {
    set id | id in s.requests && Overdue(s, id, now)
  }

  function Step(lower: string -> string, s: State, e: Event): State {
    match e
    case Create(id, human, now) =>
      if id in s.requests || now < s.clock then s
      else s.(requests := s.requests[id := Request(human, Pending, None, now + EXPIRY_MS)], clock := now)
    case DecideRead(op, id, approve, who) =>
      if op in s.deciders || !IsPending(s, id) then s
      else if s.requests[id].requiresHuman && IsAgentIdentity(lower, who) then s
      else s.(deciders := s.deciders[op := Deciding(id, if approve then Approved else Rejected, who, false)])
    case DecideWrite(op) =>        // the filter is the id alone
      if op !in s.deciders || s.deciders[op].written then s
      else
        var d := s.deciders[op];
        s.(deciders := s.deciders[op := d.(written := true)],
           requests := if d.id in s.requests
                       then s.requests[d.id := s.requests[d.id].(status := d.verdict, decidedBy := Some(d.who))]
                       else s.requests)
    case DecidePublish(op) =>
      if op !in s.deciders || !s.deciders[op].written then s
      else s.(deciders := s.deciders - {op}, events := s.events + [Terminal(s.deciders[op].id, s.deciders[op].verdict)])
    case ExpireRead(op, now) =>
      if op in s.expirers || now < s.clock then s
      else
        var found := AllOverdue(s, now);
        if found == {} then s.(clock := now)
        else s.(expirers := s.expirers[op := Expiring(now, found, false)], clock := now)
    case ExpireDocument(op, id) =>
      if op !in s.expirers || s.expirers[op].written || !Overdue(s, id, s.expirers[op].now) then s
      else s.(requests := s.requests[id := s.requests[id].(status := Expired)])
    case ExpireWritten(op) =>
      if op !in s.expirers || AllOverdue(s, s.expirers[op].now) != {} then s
      else s.(expirers := s.expirers[op := s.expirers[op].(written := true)])
    case ExpirePublish(op, id) =>
      if op !in s.expirers || !s.expirers[op].written || id !in s.expirers[op].unpublished then s
      else
        var rest := s.expirers[op].unpublished - {id};
        s.(events := s.events + [Terminal(id, Expired)],
           expirers := if rest == {} then s.expirers - {op} else s.expirers[op := s.expirers[op].(unpublished := rest)])
  }

  function Run(lower: string -> string, s: State, es: seq<Event>): State
    decreases es
  {
    if es == [] then s else Run(lower, Step(lower, s, es[0]), es[1..])
  }

  // ---------------------------------------------------------------- what every interleaving keeps

  predicate Decided(st: Status) {
    st == Approved || st == Rejected
  }

  ghost predicate RequestsSafe(lower: string -> string, requests: map<nat, Request>) {
    && (forall id | id in requests :: Decided(requests[id].status) <==> requests[id].decidedBy.Some?)
    && (forall id | id in requests && requests[id].requiresHuman && requests[id].decidedBy.Some? ::
          !IsAgentIdentity(lower, requests[id].decidedBy.value))
  }

  ghost predicate DecidersSafe(lower: string -> string, s: State) {
    forall op | op in s.deciders ::
      var d := s.deciders[op];
      d.id in s.requests && Decided(d.verdict) && (s.requests[d.id].requiresHuman ==> !IsAgentIdentity(lower, d.who))
  }

  ghost predicate Safe(lower: string -> string, s: State) {
    RequestsSafe(lower, s.requests) && DecidersSafe(lower, s)
  }

  // No request leaves a terminal status for `Pending`, and none changes its kind of approver.
  ghost predicate NeverReopens(s: State, t: State) {
    forall id | id in s.requests ::
      id in t.requests && t.requests[id].requiresHuman == s.requests[id].requiresHuman
      && (s.requests[id].status != Pending ==> t.requests[id].status != Pending)
  }

  lemma WriteIsSafe(lower: string -> string, s: State, op: nat)
    requires Safe(lower, s) && op in s.deciders && !s.deciders[op].written
    ensures Safe(lower, Step(lower, s, DecideWrite(op)))
  {
    var d := s.deciders[op];
    var t := Step(lower, s, DecideWrite(op));
    assert t.requests == s.requests[d.id := s.requests[d.id].(status := d.verdict, decidedBy := Some(d.who))];
    assert RequestsSafe(lower, t.requests);
  }

  lemma StepIsSafe(lower: string -> string, s: State, e: Event)
    requires Safe(lower, s)
    ensures Safe(lower, Step(lower, s, e)) && NeverReopens(s, Step(lower, s, e))
  {
    if e.DecideWrite? && e.op in s.deciders && !s.deciders[e.op].written {
      WriteIsSafe(lower, s, e.op);
    } else {
      OtherStepsAreSafe(lower, s, e);
    }
  }

  lemma OtherStepsAreSafe(lower: string -> string, s: State, e: Event)
    requires Safe(lower, s) && !(e.DecideWrite? && e.op in s.deciders && !s.deciders[e.op].written)
    ensures Safe(lower, Step(lower, s, e)) && NeverReopens(s, Step(lower, s, e))
  {
  }

  // Whatever the interleaving: a human-only request is never approved or rejected by a known agent,
  // no request returns to pending, and a request is approved or rejected exactly when decidedBy is set.
  lemma {:induction false} EveryInterleavingIsSafe(lower: string -> string, s: State, es: seq<Event>)
    requires Safe(lower, s)
    ensures Safe(lower, Run(lower, s, es)) && NeverReopens(s, Run(lower, s, es))
    ensures var t := Run(lower, s, es);
            forall id | id in t.requests && t.requests[id].requiresHuman && t.requests[id].status in {Approved, Rejected} ::
              t.requests[id].decidedBy.Some?
              && lower(t.requests[id].decidedBy.value) !in
                 {"strategist", "reviewer", "ember", "scout", "forge", "architect", "deployer",
                  "sentinel", "signal", "keeper", "treasurer", "guide", "designer", "builder"}
    decreases es
  {
    if es != [] {
      StepIsSafe(lower, s, es[0]);
      EveryInterleavingIsSafe(lower, Step(lower, s, es[0]), es[1..]);
    }
  }

  // A decision gets past the checks exactly when the request is pending, and is not both human-only and
  // decided under the name of an agent, in whatever case.
  lemma DecisionAdmittedIff(lower: string -> string, s: State, op: nat, id: nat, approve: bool, who: string)
    requires op !in s.deciders
    ensures var t := Step(lower, s, DecideRead(op, id, approve, who));
            if id in s.requests && s.requests[id].status == Pending
               && !(s.requests[id].requiresHuman
                    && lower(who) in {"strategist", "reviewer", "ember", "scout", "forge", "architect", "deployer",
                                     "sentinel", "signal", "keeper", "treasurer", "guide", "designer", "builder"})
            then t == s.(deciders := s.deciders[op := Deciding(id, if approve then Approved else Rejected, who, false)])
            else t == s
  {
  }

  // A capital letter does not make an agent human.
  lemma CapitalisedAgentIsRefused(lower: string -> string)
    requires lower("Strategist") == "strategist"
    ensures var t := Run(lower, Init(), [Create(1, true, 0), DecideRead(1, 1, true, "Strategist"), DecideWrite(1), DecidePublish(1)]);
            t.requests == map[1 := Request(true, Pending, None, 86_400_000)] && t.events == []
  {
    var e1, e2, e3, e4 := Create(1, true, 0), DecideRead(1, 1, true, "Strategist"), DecideWrite(1), DecidePublish(1);
    var s := Step(lower, Init(), e1);
    assert Step(lower, s, e2) == s && Step(lower, s, e3) == s && Step(lower, s, e4) == s;
    calc {
      Run(lower, Init(), [e1, e2, e3, e4]);
    == { assert [e1, e2, e3, e4][1..] == [e2, e3, e4]; }
      Run(lower, s, [e2, e3, e4]);
    == { assert [e2, e3, e4][1..] == [e3, e4]; }
      Run(lower, s, [e3, e4]);
    == { assert [e3, e4][1..] == [e4]; }
      Run(lower, s, [e4]);
    == { assert [e4][1..] == []; }
      s;
    }
  }

  // ---------------------------------------------------------------- one terminal event per request

  function EventsOf(events: seq<Terminal>, id: nat): seq<Status> {
    if events == [] then []
    else EventsOf(events[..|events| - 1], id) + if events[|events| - 1].id == id then [events[|events| - 1].kind] else []
  }

  function Expected(st: Status): seq<Status> {
    if st == Pending then [] else [st]
  }

  predicate Quiet(s: State) {
    s.deciders == map[] && s.expirers == map[]
  }

  // At most k operations are in flight at any time.
  predicate Concurrent(lower: string -> string, s: State, es: seq<Event>, k: nat)
    decreases es
  {
    es == [] || (|Step(lower, s, es[0]).deciders| + |Step(lower, s, es[0]).expirers| <= k
                 && Concurrent(lower, Step(lower, s, es[0]), es[1..], k))
  }

  // Each request has had exactly the terminal event its status calls for.
  ghost predicate Announced(s: State) {
    forall id | id in s.requests :: EventsOf(s.events, id) == Expected(s.requests[id].status)
  }

  function SoFar(s: State, id: nat): seq<Status> {
    if id in s.requests then Expected(s.requests[id].status) else []
  }

  lemma EventAdded(events: seq<Terminal>, t: Terminal)
    ensures forall id :: EventsOf(events + [t], id) == EventsOf(events, id) + if t.id == id then [t.kind] else []
  {
    assert (events + [t])[..|events|] == events;
  }

  // ---------------------------------------------------------------- who holds a request

  // The decisions and expiry passes in flight that have read the request and owe an event for it.
  function DecidersOf(s: State, id: nat): set<nat> {
    set op | op in s.deciders && s.deciders[op].id == id
  }

  function ExpirersOf(s: State, id: nat): set<nat> {
    set op | op in s.expirers && id in s.expirers[op].unpublished
  }

  function Holders(s: State, id: nat): nat {
    |DecidersOf(s, id)| + |ExpirersOf(s, id)|
  }

  // No two operations in flight ever hold the request at once; operations on others may overlap.
  predicate HeldAlone(lower: string -> string, s: State, es: seq<Event>, id: nat)
    decreases es
  {
    Holders(s, id) <= 1 && (es == [] || HeldAlone(lower, Step(lower, s, es[0]), es[1..], id))
  }

  // ---------------------------------------------------------------- events are never lost

  // Every hold ends in an event, so events and holders together only grow.
  function Load(s: State, id: nat): nat {
    |EventsOf(s.events, id)| + Holders(s, id)
  }

  lemma SubsetIsSmaller(a: set<nat>, b: set<nat>)
    requires a <= b
    ensures |a| <= |b|
  {
    assert b == a + (b - a);
  }

  function If(b: bool, op: nat): set<nat> {
    if b then {op} else {}
  }

  // How each step changes who holds a request.
  lemma DecideReadHolders(lower: string -> string, s: State, op: nat, i: nat, approve: bool, who: string, id: nat)
    ensures var t := Step(lower, s, DecideRead(op, i, approve, who));
            t == s
            || (IsPending(s, i) && op !in s.deciders && DecidersOf(t, id) == DecidersOf(s, id) + If(i == id, op)
                && ExpirersOf(t, id) == ExpirersOf(s, id) && t.requests == s.requests && t.events == s.events)
  {
  }

  lemma DecideWriteHolders(lower: string -> string, s: State, op: nat, id: nat)
    ensures var t := Step(lower, s, DecideWrite(op));
            DecidersOf(t, id) == DecidersOf(s, id) && ExpirersOf(t, id) == ExpirersOf(s, id) && t.events == s.events
  {
  }

  lemma DecidePublishHolders(lower: string -> string, s: State, op: nat, id: nat)
    ensures var t := Step(lower, s, DecidePublish(op));
            t == s
            || (op in s.deciders && s.deciders[op].written && t.requests == s.requests
                && DecidersOf(t, id) == DecidersOf(s, id) - {op} && ExpirersOf(t, id) == ExpirersOf(s, id)
                && EventsOf(t.events, id) == EventsOf(s.events, id) + if s.deciders[op].id == id then [s.deciders[op].verdict] else [])
  {
    if op in s.deciders {
      EventAdded(s.events, Terminal(s.deciders[op].id, s.deciders[op].verdict));
    }
  }

  lemma ExpireReadHolders(lower: string -> string, s: State, op: nat, now: int, id: nat)
    ensures var t := Step(lower, s, ExpireRead(op, now));
            && t.requests == s.requests && t.events == s.events && DecidersOf(t, id) == DecidersOf(s, id)
            && (ExpirersOf(t, id) == ExpirersOf(s, id)
                || (op !in s.expirers && Overdue(s, id, now) && ExpirersOf(t, id) == ExpirersOf(s, id) + {op}
                    && t.expirers == s.expirers[op := Expiring(now, AllOverdue(s, now), false)]))
  {
    var t := Step(lower, s, ExpireRead(op, now));
    if op !in s.expirers && op in ExpirersOf(t, id) {
      assert ExpirersOf(t, id) == ExpirersOf(s, id) + {op};
    } else {
      assert ExpirersOf(t, id) == ExpirersOf(s, id);
    }
  }

  lemma ExpireUpdateHolders(lower: string -> string, s: State, op: nat, i: nat, id: nat)
    ensures var t := Step(lower, s, ExpireDocument(op, i));
            DecidersOf(t, id) == DecidersOf(s, id) && ExpirersOf(t, id) == ExpirersOf(s, id) && t.events == s.events
    ensures var t := Step(lower, s, ExpireWritten(op));
            DecidersOf(t, id) == DecidersOf(s, id) && ExpirersOf(t, id) == ExpirersOf(s, id) && t.events == s.events
  {
  }

  lemma ExpirePublishHolders(lower: string -> string, s: State, op: nat, i: nat, id: nat)
    ensures var t := Step(lower, s, ExpirePublish(op, i));
            t == s
            || (op in s.expirers && s.expirers[op].written && i in s.expirers[op].unpublished && t.requests == s.requests
                && DecidersOf(t, id) == DecidersOf(s, id) && ExpirersOf(t, id) == ExpirersOf(s, id) - If(i == id, op)
                && EventsOf(t.events, id) == EventsOf(s.events, id) + if i == id then [Expired] else [])
  {
    EventAdded(s.events, Terminal(i, Expired));
    if op in s.expirers && s.expirers[op].written && i in s.expirers[op].unpublished {
      var t := Step(lower, s, ExpirePublish(op, i));
      var rest := s.expirers[op].unpublished - {i};
      assert op in t.expirers ==> t.expirers[op].unpublished == rest;
      assert op !in t.expirers ==> rest == {};
      assert ExpirersOf(t, id) == ExpirersOf(s, id) - If(i == id, op);
    }
  }

  lemma LoadGrows(lower: string -> string, s: State, e: Event, id: nat)
    ensures Load(Step(lower, s, e), id) >= Load(s, id)
  {
    match e {
      case Create(i, human, now) =>
      case DecideRead(op, i, approve, who) =>
        DecideReadHolders(lower, s, op, i, approve, who, id);
        SubsetIsSmaller(DecidersOf(s, id), DecidersOf(Step(lower, s, e), id));
      case DecideWrite(op) => DecideWriteHolders(lower, s, op, id);
      case DecidePublish(op) => DecidePublishHolders(lower, s, op, id);
      case ExpireRead(op, now) =>
        ExpireReadHolders(lower, s, op, now, id);
        SubsetIsSmaller(ExpirersOf(s, id), ExpirersOf(Step(lower, s, e), id));
      case ExpireDocument(op, i) => ExpireUpdateHolders(lower, s, op, i, id);
      case ExpireWritten(op) => ExpireUpdateHolders(lower, s, op, 0, id);
      case ExpirePublish(op, i) => ExpirePublishHolders(lower, s, op, i, id);
    }
  }

  lemma {:induction false} LoadNeverShrinks(lower: string -> string, s: State, es: seq<Event>, id: nat)
    ensures Load(Run(lower, s, es), id) >= Load(s, id)
    decreases es
  {
    if es != [] {
      LoadGrows(lower, s, es[0], id);
      LoadNeverShrinks(lower, Step(lower, s, es[0]), es[1..], id);
    }
  }

  // Two holders at once mean two events in the end.
  lemma {:induction false} TwoHoldersTwoEvents(lower: string -> string, s: State, es: seq<Event>, id: nat)
    requires !HeldAlone(lower, s, es, id)
    ensures Load(Run(lower, s, es), id) >= 2
    decreases es
  {
    if Holders(s, id) >= 2 {
      LoadNeverShrinks(lower, s, es, id);
    } else {
      TwoHoldersTwoEvents(lower, Step(lower, s, es[0]), es[1..], id);
    }
  }

  // ---------------------------------------------------------------- one holder at a time

  // A pass that is still updating has read everything it can update, its clock is not ahead, and a
  // decision is a decision.
  ghost predicate PassesCover(s: State) {
    && (forall op | op in s.deciders :: Decided(s.deciders[op].verdict))
    && (forall op | op in s.expirers ::
          s.expirers[op].now <= s.clock
          && (!s.expirers[op].written ==> AllOverdue(s, s.expirers[op].now) <= s.expirers[op].unpublished))
  }

  ghost predicate DecisionOnTrack(s: State, d: Deciding) {
    Decided(d.verdict) && d.id in s.requests && s.requests[d.id].status == if d.written then d.verdict else Pending
  }

  ghost predicate ExpiryOnTrack(s: State, x: Expiring, id: nat) {
    && id in s.requests && s.requests[id].expiresAt <= x.now
    && (s.requests[id].status == Expired || (!x.written && s.requests[id].status == Pending))
  }

  // A held request has had no event and is as far as its holder has come; any other has had the
  // events its status calls for.
  ghost predicate OnTrack(s: State, id: nat) {
    && (forall op | op in DecidersOf(s, id) :: DecisionOnTrack(s, s.deciders[op]))
    && (forall op | op in ExpirersOf(s, id) :: ExpiryOnTrack(s, s.expirers[op], id))
    && EventsOf(s.events, id) == if Holders(s, id) > 0 then [] else SoFar(s, id)
  }

  lemma OnlyOne(a: set<nat>, x: nat)
    requires x in a && |a| <= 1
    ensures a == {x}
  {
    assert a == {x} + (a - {x});
    assert |a - {x}| == 0;
  }

  lemma OnlyDecider(s: State, op: nat, id: nat)
    requires op in DecidersOf(s, id) && Holders(s, id) <= 1
    ensures DecidersOf(s, id) == {op} && ExpirersOf(s, id) == {}
  {
    OnlyOne(DecidersOf(s, id), op);
  }

  lemma OnlyExpirer(s: State, op: nat, id: nat)
    requires op in ExpirersOf(s, id) && Holders(s, id) <= 1
    ensures ExpirersOf(s, id) == {op} && DecidersOf(s, id) == {}
  {
    OnlyOne(ExpirersOf(s, id), op);
  }

  lemma Unheld(s: State, id: nat)
    ensures Holders(s, id) == 0 <==> DecidersOf(s, id) == {} && ExpirersOf(s, id) == {}
  {
  }

  lemma CreateOnTrack(lower: string -> string, s: State, i: nat, human: bool, now: int, id: nat)
    requires OnTrack(s, id)
    ensures OnTrack(Step(lower, s, Create(i, human, now)), id)
  {
    var t := Step(lower, s, Create(i, human, now));
    Unheld(s, id);
    assert DecidersOf(t, id) == DecidersOf(s, id) && ExpirersOf(t, id) == ExpirersOf(s, id);
  }

  lemma DecideReadOnTrack(lower: string -> string, s: State, op: nat, i: nat, approve: bool, who: string, id: nat)
    requires OnTrack(s, id) && Holders(Step(lower, s, DecideRead(op, i, approve, who)), id) <= 1
    ensures OnTrack(Step(lower, s, DecideRead(op, i, approve, who)), id)
  {
    var t := Step(lower, s, DecideRead(op, i, approve, who));
    DecideReadHolders(lower, s, op, i, approve, who, id);
    if t != s && i == id {
      OnlyDecider(t, op, id);
      assert op !in DecidersOf(s, id);
      assert DecidersOf(s, id) == {};
      Unheld(s, id);
    }
  }

  lemma DecideWriteOnTrack(lower: string -> string, s: State, op: nat, id: nat)
    requires OnTrack(s, id) && Holders(s, id) <= 1
    ensures OnTrack(Step(lower, s, DecideWrite(op)), id)
  {
    DecideWriteHolders(lower, s, op, id);
    Unheld(s, id);
    if op in DecidersOf(s, id) {
      OnlyDecider(s, op, id);
    }
  }

  lemma DecidePublishOnTrack(lower: string -> string, s: State, op: nat, id: nat)
    requires OnTrack(s, id) && Holders(s, id) <= 1
    ensures OnTrack(Step(lower, s, DecidePublish(op)), id)
  {
    DecidePublishHolders(lower, s, op, id);
    Unheld(s, id);
    if op in DecidersOf(s, id) {
      OnlyDecider(s, op, id);
    }
  }

  lemma ExpireReadOnTrack(lower: string -> string, s: State, op: nat, now: int, id: nat)
    requires OnTrack(s, id) && Holders(Step(lower, s, ExpireRead(op, now)), id) <= 1
    ensures OnTrack(Step(lower, s, ExpireRead(op, now)), id)
  {
    var t := Step(lower, s, ExpireRead(op, now));
    ExpireReadHolders(lower, s, op, now, id);
    if ExpirersOf(t, id) != ExpirersOf(s, id) {
      OnlyExpirer(t, op, id);
      assert op !in ExpirersOf(s, id);
      assert ExpirersOf(s, id) == {};
      Unheld(s, id);
    }
  }

  lemma ExpireDocumentOnTrack(lower: string -> string, s: State, op: nat, i: nat, id: nat)
    requires OnTrack(s, id) && Holders(s, id) <= 1 && PassesCover(s)
    ensures OnTrack(Step(lower, s, ExpireDocument(op, i)), id)
  {
    var t := Step(lower, s, ExpireDocument(op, i));
    ExpireUpdateHolders(lower, s, op, i, id);
    if t != s && i == id {
      assert id in AllOverdue(s, s.expirers[op].now);
      OnlyExpirer(s, op, id);
    }
  }

  lemma ExpireWrittenOnTrack(lower: string -> string, s: State, op: nat, id: nat)
    requires OnTrack(s, id)
    ensures OnTrack(Step(lower, s, ExpireWritten(op)), id)
  {
    ExpireUpdateHolders(lower, s, op, 0, id);
    if Step(lower, s, ExpireWritten(op)) != s {
      assert id !in AllOverdue(s, s.expirers[op].now);
    }
  }

  lemma ExpirePublishOnTrack(lower: string -> string, s: State, op: nat, i: nat, id: nat)
    requires OnTrack(s, id) && Holders(s, id) <= 1
    ensures OnTrack(Step(lower, s, ExpirePublish(op, i)), id)
  {
    ExpirePublishHolders(lower, s, op, i, id);
    Unheld(s, id);
    if i == id && op in ExpirersOf(s, id) {
      OnlyExpirer(s, op, id);
    }
  }

  lemma StepStaysOnTrack(lower: string -> string, s: State, e: Event, id: nat)
    requires OnTrack(s, id) && PassesCover(s) && Holders(s, id) <= 1 && Holders(Step(lower, s, e), id) <= 1
    ensures OnTrack(Step(lower, s, e), id)
  {
    match e {
      case Create(i, human, now) => CreateOnTrack(lower, s, i, human, now, id);
      case DecideRead(op, i, approve, who) => DecideReadOnTrack(lower, s, op, i, approve, who, id);
      case DecideWrite(op) => DecideWriteOnTrack(lower, s, op, id);
      case DecidePublish(op) => DecidePublishOnTrack(lower, s, op, id);
      case ExpireRead(op, now) => ExpireReadOnTrack(lower, s, op, now, id);
      case ExpireDocument(op, i) => ExpireDocumentOnTrack(lower, s, op, i, id);
      case ExpireWritten(op) => ExpireWrittenOnTrack(lower, s, op, id);
      case ExpirePublish(op, i) => ExpirePublishOnTrack(lower, s, op, i, id);
    }
  }

  lemma NothingBecomesOverdue(lower: string -> string, s: State, e: Event, now: int)
    requires PassesCover(s) && now <= s.clock
    ensures AllOverdue(Step(lower, s, e), now) <= AllOverdue(s, now)
  {
    var t := Step(lower, s, e);
    forall id | Overdue(t, id, now)
      ensures Overdue(s, id, now)
    {
    }
  }

  lemma PassesStayCovered(lower: string -> string, s: State, e: Event)
    requires PassesCover(s)
    ensures PassesCover(Step(lower, s, e))
  {
    var t := Step(lower, s, e);
    forall op | op in t.expirers
      ensures t.expirers[op].now <= t.clock
      ensures !t.expirers[op].written ==> AllOverdue(t, t.expirers[op].now) <= t.expirers[op].unpublished
    {
      if op in s.expirers {
        assert t.expirers[op].now == s.expirers[op].now;
        NothingBecomesOverdue(lower, s, e, s.expirers[op].now);
      }
    }
  }

  lemma {:induction false} HeldAloneStaysOnTrack(lower: string -> string, s: State, es: seq<Event>, id: nat)
    requires OnTrack(s, id) && PassesCover(s) && HeldAlone(lower, s, es, id)
    ensures OnTrack(Run(lower, s, es), id)
    decreases es
  {
    if es != [] {
      var t := Step(lower, s, es[0]);
      assert Holders(t, id) <= 1;
      StepStaysOnTrack(lower, s, es[0], id);
      PassesStayCovered(lower, s, es[0]);
      HeldAloneStaysOnTrack(lower, t, es[1..], id);
    }
  }

  // Once nobody holds a request any more, it has had exactly the events its final status calls for if
  // and only if no two operations ever held it at once, however many overlapped elsewhere.
  lemma AnnouncedOnceIffHeldAlone(lower: string -> string, es: seq<Event>, id: nat)
    requires Holders(Run(lower, Init(), es), id) == 0
    ensures var s := Run(lower, Init(), es);
            EventsOf(s.events, id) == SoFar(s, id) <==> HeldAlone(lower, Init(), es, id)
  {
    Unheld(Init(), id);
    if HeldAlone(lower, Init(), es, id) {
      HeldAloneStaysOnTrack(lower, Init(), es, id);
    } else {
      TwoHoldersTwoEvents(lower, Init(), es, id);
    }
  }

  // ---------------------------------------------------------------- serial runs

  lemma AtMostOneHolder(s: State, id: nat)
    requires |s.deciders| + |s.expirers| <= 1
    ensures Holders(s, id) <= 1
  {
    SubsetIsSmaller(DecidersOf(s, id), s.deciders.Keys);
    SubsetIsSmaller(ExpirersOf(s, id), s.expirers.Keys);
  }

  lemma {:induction false} SerialIsHeldAlone(lower: string -> string, s: State, es: seq<Event>, id: nat)
    requires |s.deciders| + |s.expirers| <= 1 && Concurrent(lower, s, es, 1)
    ensures HeldAlone(lower, s, es, id)
    decreases es
  {
    AtMostOneHolder(s, id);
    if es != [] {
      SerialIsHeldAlone(lower, Step(lower, s, es[0]), es[1..], id);
    }
  }

  // In a serial run each request has exactly one terminal event, and it matches the final status.
  lemma SerialRunsAnnounceOnce(lower: string -> string, es: seq<Event>)
    requires Concurrent(lower, Init(), es, 1) && Quiet(Run(lower, Init(), es))
    ensures Announced(Run(lower, Init(), es))
  {
    var s := Run(lower, Init(), es);
    forall id | id in s.requests
      ensures EventsOf(s.events, id) == Expected(s.requests[id].status)
    {
      Unheld(s, id);
      SerialIsHeldAlone(lower, Init(), es, id);
      AnnouncedOnceIffHeldAlone(lower, es, id);
    }
  }

  // Two people who both read the pending request: both write, both publish.
  function Race(): seq<Event> {
    [Create(0, false, 0)] + ([DecideRead(1, 0, true, "ann")] + ([DecideRead(2, 0, false, "bob")] + Answers()))
  }

  function Answers(): seq<Event> {
    [DecideWrite(1)] + ([DecideWrite(2)] + Publications())
  }

  function Publications(): seq<Event> {
    [DecidePublish(1)] + ([DecidePublish(2)] + [])
  }

  lemma RunsOn(lower: string -> string, s: State, e: Event, es: seq<Event>, t: State)
    requires t == Step(lower, s, e)
    ensures Run(lower, s, [e] + es) == Run(lower, t, es)
    ensures Concurrent(lower, s, [e] + es, 2) <==> |t.deciders| + |t.expirers| <= 2 && Concurrent(lower, t, es, 2)
  {
    assert ([e] + es)[1..] == es;
  }

  // The race once so many people have read, with the documents and events given.
  function Racing(r: Request, deciders: map<nat, Deciding>, events: seq<Terminal>): State {
    State(map[0 := r], deciders, map[], events, 0)
  }

  lemma ReadsOpenRequest(lower: string -> string, r: Request, deciders: map<nat, Deciding>, op: nat, approve: bool, who: string)
    requires r.status == Pending && !r.requiresHuman && op !in deciders
    ensures Step(lower, Racing(r, deciders, []), DecideRead(op, 0, approve, who))
         == Racing(r, deciders[op := Deciding(0, if approve then Approved else Rejected, who, false)], [])
  {
  }

  lemma WritesVerdict(lower: string -> string, r: Request, deciders: map<nat, Deciding>, op: nat)
    requires op in deciders && deciders[op].id == 0 && !deciders[op].written
    ensures Step(lower, Racing(r, deciders, []), DecideWrite(op))
         == Racing(r.(status := deciders[op].verdict, decidedBy := Some(deciders[op].who)),
                   deciders[op := deciders[op].(written := true)], [])
  {
  }

  lemma PublishesVerdict(lower: string -> string, r: Request, deciders: map<nat, Deciding>, events: seq<Terminal>, op: nat)
    requires op in deciders && deciders[op].written
    ensures Step(lower, Racing(r, deciders, events), DecidePublish(op))
         == Racing(r, deciders - {op}, events + [Terminal(deciders[op].id, deciders[op].verdict)])
  {
  }

  lemma TwoDeciders(a: Deciding, b: Deciding)
    ensures |map[1 := a, 2 := b]| == 2 && |map[2 := b]| == 1
    ensures map[1 := a, 2 := b] - {1} == map[2 := b]
  {
    assert map[1 := a, 2 := b].Keys == {1, 2} && map[2 := b].Keys == {2};
  }

  const ASKED := Request(false, Pending, None, EXPIRY_MS)
  const BOTH_READ := map[1 := Deciding(0, Approved, "ann", false), 2 := Deciding(0, Rejected, "bob", false)]

  lemma RaceReads(lower: string -> string)
    ensures Run(lower, Init(), Race()) == Run(lower, Racing(ASKED, BOTH_READ, []), Answers())
    ensures Concurrent(lower, Init(), Race(), 2) <==> Concurrent(lower, Racing(ASKED, BOTH_READ, []), Answers(), 2)
  {
    var one := map[1 := Deciding(0, Approved, "ann", false)];
    var last := [DecideRead(2, 0, false, "bob")] + Answers();
    RunsOn(lower, Init(), Create(0, false, 0), [DecideRead(1, 0, true, "ann")] + last, Racing(ASKED, map[], []));
    ReadsOpenRequest(lower, ASKED, map[], 1, true, "ann");
    RunsOn(lower, Racing(ASKED, map[], []), DecideRead(1, 0, true, "ann"), last, Racing(ASKED, one, []));
    ReadsOpenRequest(lower, ASKED, one, 2, false, "bob");
    RunsOn(lower, Racing(ASKED, one, []), DecideRead(2, 0, false, "bob"), Answers(), Racing(ASKED, BOTH_READ, []));
  }

  const SETTLED := Request(false, Rejected, Some("bob"), EXPIRY_MS)
  const ANN := Deciding(0, Approved, "ann", true)
  const BOB := Deciding(0, Rejected, "bob", true)
  const BOTH_WRITTEN := map[1 := ANN, 2 := BOB]

  lemma RaceWrites(lower: string -> string)
    ensures Run(lower, Racing(ASKED, BOTH_READ, []), Answers()) == Run(lower, Racing(SETTLED, BOTH_WRITTEN, []), Publications())
    ensures Concurrent(lower, Racing(ASKED, BOTH_READ, []), Answers(), 2)
       <==> Concurrent(lower, Racing(SETTLED, BOTH_WRITTEN, []), Publications(), 2)
  {
    var r, half := Request(false, Approved, Some("ann"), EXPIRY_MS), map[1 := ANN, 2 := BOB.(written := false)];
    WritesVerdict(lower, ASKED, BOTH_READ, 1);
    assert BOTH_READ[1 := ANN] == half;
    WritesVerdict(lower, r, half, 2);
    assert half[2 := BOB] == BOTH_WRITTEN;
    TwoDeciders(ANN, BOB.(written := false));
    TwoDeciders(ANN, BOB);
    RunsOn(lower, Racing(ASKED, BOTH_READ, []), DecideWrite(1), [DecideWrite(2)] + Publications(), Racing(r, half, []));
    RunsOn(lower, Racing(r, half, []), DecideWrite(2), Publications(), Racing(SETTLED, BOTH_WRITTEN, []));
  }

  lemma RacePublishes(lower: string -> string)
    ensures Concurrent(lower, Racing(SETTLED, BOTH_WRITTEN, []), Publications(), 2)
    ensures Run(lower, Racing(SETTLED, BOTH_WRITTEN, []), Publications())
         == Racing(SETTLED, map[], [Terminal(0, Approved), Terminal(0, Rejected)])
  {
    var first, both := [Terminal(0, Approved)], [Terminal(0, Approved), Terminal(0, Rejected)];
    TwoDeciders(ANN, BOB);
    PublishesVerdict(lower, SETTLED, BOTH_WRITTEN, [], 1);
    PublishesVerdict(lower, SETTLED, map[2 := BOB], first, 2);
    assert map[2 := BOB] - {2} == map[];
    assert first + [Terminal(0, Rejected)] == both;
    RunsOn(lower, Racing(SETTLED, BOTH_WRITTEN, []), DecidePublish(1), [DecidePublish(2)] + [], Racing(SETTLED, map[2 := BOB], first));
    RunsOn(lower, Racing(SETTLED, map[2 := BOB], first), DecidePublish(2), [], Racing(SETTLED, map[], both));
  }

  lemma RaceEvents()
    ensures EventsOf([Terminal(0, Approved), Terminal(0, Rejected)], 0) == [Approved, Rejected]
  {
    EventAdded([], Terminal(0, Approved));
    EventAdded([Terminal(0, Approved)], Terminal(0, Rejected));
    assert [Terminal(0, Approved)] + [Terminal(0, Rejected)] == [Terminal(0, Approved), Terminal(0, Rejected)];
  }

  lemma RaceAnnouncesTwice(lower: string -> string)
    ensures Concurrent(lower, Init(), Race(), 2) && Quiet(Run(lower, Init(), Race()))
    ensures var s := Run(lower, Init(), Race());
            0 in s.requests && s.requests[0].status == Rejected && EventsOf(s.events, 0) == [Approved, Rejected]
  {
    RaceReads(lower);
    RaceWrites(lower);
    RacePublishes(lower);
    RaceEvents();
  }

  ghost predicate AnnouncedOnce(lower: string -> string, k: nat) {
    forall es | Concurrent(lower, Init(), es, k) && Quiet(Run(lower, Init(), es)) :: Announced(Run(lower, Init(), es))
  }

  lemma {:induction false} FewerIsConcurrent(lower: string -> string, s: State, es: seq<Event>, j: nat, k: nat)
    requires j <= k && Concurrent(lower, s, es, j)
    ensures Concurrent(lower, s, es, k)
    decreases es
  {
    if es != [] {
      FewerIsConcurrent(lower, Step(lower, s, es[0]), es[1..], j, k);
    }
  }

  // One matching terminal event per request is guaranteed exactly when operations do not overlap.
  lemma AnnouncedOnceIffSerial(lower: string -> string, k: nat)
    ensures AnnouncedOnce(lower, k) <==> k <= 1
  {
    if k <= 1 {
      forall es | Concurrent(lower, Init(), es, k) && Quiet(Run(lower, Init(), es))
        ensures Announced(Run(lower, Init(), es))
      {
        FewerIsConcurrent(lower, Init(), es, k, 1);
        SerialRunsAnnounceOnce(lower, es);
      }
    } else {
      RaceAnnouncesTwice(lower);
      FewerIsConcurrent(lower, Init(), Race(), 2, k);
      assert !Announced(Run(lower, Init(), Race()));
    }
  }

  // ---------------------------------------------------------------- the manager, used serially

  // The events so far, but for requests that are still owed one.
  ghost predicate Settled(s: State, owed: set<nat>) {
    forall id :: EventsOf(s.events, id) == if id in owed then [] else SoFar(s, id)
  }

  ghost predicate Idle(s: State) {
    Quiet(s) && Settled(s, {})
  }

  // Publishing settles what was owed.
  lemma EventSettles(s: State, owed: set<nat>, id: nat, kind: Status, t: State)
    requires Settled(s, owed) && id in owed && id in s.requests && s.requests[id].status == kind != Pending
    requires t.requests == s.requests && t.events == s.events + [Terminal(id, kind)]
    ensures Settled(t, owed - {id})
  {
    EventAdded(s.events, Terminal(id, kind));
  }

  lemma CreationSettles(s: State, id: nat, r: Request, t: State)
    requires Idle(s) && id !in s.requests && r.status == Pending
    requires t.requests == s.requests[id := r] && t.events == s.events && Quiet(t)
    ensures Idle(t)
  {
  }

  function Decide1(s: State, id: nat, verdict: Status, who: string): State
    requires id in s.requests
  {
    s.(requests := s.requests[id := s.requests[id].(status := verdict, decidedBy := Some(who))],
       events := s.events + [Terminal(id, verdict)])
  }

  lemma DecisionIsSafe(lower: string -> string, s: State, id: nat, verdict: Status, who: string)
    requires Safe(lower, s) && id in s.requests && Decided(verdict) && s.deciders == map[]
    requires s.requests[id].requiresHuman ==> !IsAgentIdentity(lower, who)
    ensures Safe(lower, Decide1(s, id, verdict, who))
  {
  }

  lemma DecisionSettles(lower: string -> string, s: State, id: nat, verdict: Status, who: string)
    requires Safe(lower, s) && Idle(s) && IsPending(s, id) && Decided(verdict)
    requires s.requests[id].requiresHuman ==> !IsAgentIdentity(lower, who)
    ensures Safe(lower, Decide1(s, id, verdict, who)) && Idle(Decide1(s, id, verdict, who))
  {
    DecisionIsSafe(lower, s, id, verdict, who);
    var t := Decide1(s, id, verdict, who);
    assert Settled(t.(events := s.events), {id});
    EventSettles(t.(events := s.events), {id}, id, verdict, t);
  }

  function ExpireAll(s: State, now: int): (t: State)
    ensures t.requests.Keys == s.requests.Keys
    ensures forall id | id in t.requests ::
              t.requests[id] == if Overdue(s, id, now) then s.requests[id].(status := Expired) else s.requests[id]
  {
    s.(requests := map id | id in s.requests :: if Overdue(s, id, now) then s.requests[id].(status := Expired) else s.requests[id],
       clock := now)
  }

  lemma ExpirySettles(lower: string -> string, s: State, now: int)
    requires Safe(lower, s) && Idle(s)
    ensures Safe(lower, ExpireAll(s, now)) && Settled(ExpireAll(s, now), AllOverdue(s, now))
    ensures forall id | id in AllOverdue(s, now) ::
              id in ExpireAll(s, now).requests && ExpireAll(s, now).requests[id].status == Expired
  {
  }

  function Due(requests: map<nat, Request>, now: int): set<nat> {
    set id | id in requests && requests[id].status == Pending && requests[id].expiresAt <= now
  }

  // Exactly the requests that were due have expired; nothing else about any request has changed.
  ghost predicate ExpiredThen(before: map<nat, Request>, after: map<nat, Request>, now: int) {
    && after.Keys == before.Keys
    && forall id | id in before ::
         after[id] == if before[id].status == Pending && before[id].expiresAt <= now
                      then before[id].(status := Expired) else before[id]
  }

  lemma OverdueMeans(s: State, now: int)
    ensures AllOverdue(s, now) == Due(s.requests, now) && ExpiredThen(s.requests, ExpireAll(s, now).requests, now)
  {
  }

  lemma NowIdle(lower: string -> string, s: State, t: State)
    requires Safe(lower, s) && s.deciders == map[] && t == s.(events := t.events) && s.expirers == map[] && Settled(t, {})
    ensures Safe(lower, t) && Idle(t)
  {
  }

  // One expiry event for each of these requests, and nothing else.
  ghost predicate Notices(sent: seq<Terminal>, ids: set<nat>) {
    |sent| == |ids| && forall t :: t in sent <==> t.kind == Expired && t.id in ids
  }

  lemma NoticeAdded(before: seq<Terminal>, sent: seq<Terminal>, found: set<nat>, todo: set<nat>, id: nat)
    requires id in todo && todo <= found && Notices(sent, found - todo)
    ensures (before + sent) + [Terminal(id, Expired)] == before + (sent + [Terminal(id, Expired)])
    ensures Notices(sent + [Terminal(id, Expired)], found - (todo - {id}))
  {
    assert found - (todo - {id}) == (found - todo) + {id};
  }

  class ApprovalManager {
    var requests: map<nat, Request>
    var events: seq<Terminal>
    var clock: int
    const lower: string -> string

    ghost function Abstract(): State
      reads this
    {
      State(requests, map[], map[], events, clock)
    }

    ghost predicate Valid()
      reads this
    {
      Safe(lower, Abstract()) && Idle(Abstract())
    }

    constructor (lower: string -> string)
      ensures Valid() && Abstract() == Init()
    {
      this.lower := lower;
      requests, events, clock := map[], [], 0;
    }

    method CreateRequest(id: nat, requiresHuman: bool, now: int)
      requires Valid() && id !in requests && clock <= now
      modifies this
      ensures Valid() && Abstract() == Step(lower, old(Abstract()), Create(id, requiresHuman, now))
      ensures id in requests && requests[id] == Request(requiresHuman, Pending, None, now + 86_400_000)
      ensures forall other | other in old(requests) :: other in requests && requests[other] == old(requests)[other]
      ensures events == old(events)
    {
      StepIsSafe(lower, Abstract(), Create(id, requiresHuman, now));
      CreationSettles(Abstract(), id, Request(requiresHuman, Pending, None, now + EXPIRY_MS),
                      Step(lower, Abstract(), Create(id, requiresHuman, now)));
      requests := requests[id := Request(requiresHuman, Pending, None, now + EXPIRY_MS)];
      clock := now;
    }

    // An error changes nothing; a decision writes the document and publishes its one event.
    method Decide(id: nat, approve: bool, decidedBy: string) returns (ok: bool)
      requires Valid()
      modifies this
      ensures Valid() && clock == old(clock)
      ensures ok <==> id in old(requests) && old(requests)[id].status == Pending
                      && !(old(requests)[id].requiresHuman
                           && lower(decidedBy) in
                              {"strategist", "reviewer", "ember", "scout", "forge", "architect", "deployer",
                               "sentinel", "signal", "keeper", "treasurer", "guide", "designer", "builder"})
      ensures !ok ==> requests == old(requests) && events == old(events)
      ensures ok ==> var verdict := if approve then Approved else Rejected;
                     requests == old(requests)[id := old(requests)[id].(status := verdict, decidedBy := Some(decidedBy))]
                     && events == old(events) + [Terminal(id, verdict)]
    {
      if id !in requests || requests[id].status != Pending {
        return false;
      }
      if requests[id].requiresHuman && IsAgentIdentity(lower, decidedBy) {
        return false;
      }
      var verdict := if approve then Approved else Rejected;
      DecisionSettles(lower, Abstract(), id, verdict, decidedBy);
      requests := requests[id := requests[id].(status := verdict, decidedBy := Some(decidedBy))];
      events := events + [Terminal(id, verdict)];
      ok := true;
    }

    // Every overdue pending request, and no other, expires and is announced once.
    method ExpirePending(now: int) returns (count: nat)
      requires Valid() && clock <= now
      modifies this
      ensures Valid() && clock == now && ExpiredThen(old(requests), requests, now)
      ensures count == |Due(old(requests), now)|
      ensures old(events) <= events && Notices(events[|old(events)|..], Due(old(requests), now))
    {
      var found := MarkExpired(now);
      ghost var s := Abstract();
      ghost var sent := PublishExpired(found);
      assert events[|old(events)|..] == sent;
      NowIdle(lower, s, Abstract());
      count := |found|;
    }

    // The find and the bulk update.
    method MarkExpired(now: int) returns (found: set<nat>)
      requires Valid() && clock <= now
      modifies this`requests, this`clock
      ensures Safe(lower, Abstract()) && Settled(Abstract(), found) && clock == now
      ensures forall id | id in found :: id in requests && requests[id].status == Expired
      ensures found == Due(old(requests), now) && ExpiredThen(old(requests), requests, now)
    {
      var s := State(requests, map[], map[], events, clock);
      ExpirySettles(lower, s, now);
      OverdueMeans(s, now);
      found := AllOverdue(s, now);
      requests, clock := ExpireAll(s, now).requests, now;
      assert Abstract() == ExpireAll(s, now);
    }

    method PublishExpired(found: set<nat>) returns (ghost sent: seq<Terminal>)
      requires Settled(Abstract(), found)
      requires forall id | id in found :: id in requests && requests[id].status == Expired
      modifies this`events
      ensures Settled(Abstract(), {})
      ensures events == old(events) + sent && Notices(sent, found)
    {
      var todo := found;
      sent := [];
      while todo != {}
        invariant todo <= found && Settled(Abstract(), todo)
        invariant events == old(events) + sent && Notices(sent, found - todo)
        decreases todo
      {
        var id :| id in todo;
        PublishOne(id, todo);
        NoticeAdded(old(events), sent, found, todo, id);
        sent := sent + [Terminal(id, Expired)];
        todo := todo - {id};
      }
      assert found - todo == found;
    }

    method PublishOne(id: nat, ghost owed: set<nat>)
      requires Settled(Abstract(), owed) && id in owed && id in requests && requests[id].status == Expired
      modifies this`events
      ensures Settled(Abstract(), owed - {id}) && events == old(events) + [Terminal(id, Expired)]
    {
      ghost var s := Abstract();
      events := events + [Terminal(id, Expired)];
      EventSettles(s, owed, id, Expired, Abstract());
    }
  }
}
