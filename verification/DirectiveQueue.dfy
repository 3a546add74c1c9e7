/**
  The queue of directives held back while a circuit is open: a Redis list that any number of
  processes push to and drain.  Every Redis command is one atomic step, and an operation's steps
  may interleave with anybody's.  The list does not expire during a run.
 */
module DirectiveQueue {

  const MAX_QUEUE_DEPTH := 50

  type Directive = string

  datatype Popped = Popped(op: nat, directive: Directive)
  // `left` bounds the pops still to come; it is the depth read at the start.
  datatype Drain = Drain(left: nat, output: seq<Directive>)

  // `pending` are the enqueues that have read the depth and not pushed yet; `pushed` and `popped`
  // are bookkeeping.
  datatype State = State(list: seq<Directive>, pending: map<nat, Directive>, drains: map<nat, Drain>,
                         pushed: seq<Directive>, popped: seq<Popped>)

  datatype Event =
    | EnqueueCheck(op: nat, directive: Directive)   // LLEN
    | EnqueuePush(op: nat)                          // RPUSH
    | DrainStart(op: nat)                           // LLEN
    | DrainPop(op: nat)                             // LPOP

  function Init(): State {
    State([], map[], map[], [], [])
  }

  function Step(s: State, e: Event): State {
    match e
    case EnqueueCheck(op, d) =>
      if op in s.pending || |s.list| >= MAX_QUEUE_DEPTH then s else s.(pending := s.pending[op := d])
    case EnqueuePush(op) =>
      if op !in s.pending then s
      else s.(list := s.list + [s.pending[op]], pushed := s.pushed + [s.pending[op]], pending := s.pending - {op})
    case DrainStart(op) =>
      if op in s.drains then s else s.(drains := s.drains[op := Drain(|s.list|, [])])
    case DrainPop(op) =>
      if op !in s.drains || s.drains[op].left == 0 then s
      else if s.list == [] then s.(drains := s.drains[op := s.drains[op].(left := 0)])
      else s.(list := s.list[1..], popped := s.popped + [Popped(op, s.list[0])],
              drains := s.drains[op := Drain(s.drains[op].left - 1, s.drains[op].output + [s.list[0]])])
  }

  function Run(s: State, es: seq<Event>): State
    decreases es
  {
    if es == [] then s else Run(Step(s, es[0]), es[1..])
  }

  // At most k enqueues are between their check and their push at any time.
  predicate Concurrent(s: State, es: seq<Event>, k: nat)
    decreases es
  {
    es == [] || (|Step(s, es[0]).pending| <= k && Concurrent(Step(s, es[0]), es[1..], k))
  }

  function Directives(ps: seq<Popped>): seq<Directive> {
    if ps == [] then [] else Directives(ps[..|ps| - 1]) + [ps[|ps| - 1].directive]
  }

  // What one drain popped, in the order of the pops.
  function PoppedBy(ps: seq<Popped>, op: nat): seq<Directive> {
    if ps == [] then []
    else PoppedBy(ps[..|ps| - 1], op) + if ps[|ps| - 1].op == op then [ps[|ps| - 1].directive] else []
  }

  // ---------------------------------------------------------------- nothing lost, nothing twice

  ghost predicate OutputsMatch(s: State) {
    && (forall op | op in s.drains :: s.drains[op].output == PoppedBy(s.popped, op))
    && (forall op | op !in s.drains :: PoppedBy(s.popped, op) == [])
  }

  ghost predicate Conserved(s: State) {
    s.pushed == Directives(s.popped) + s.list && OutputsMatch(s)
  }

  lemma PoppedAdded(ps: seq<Popped>, p: Popped)
    ensures Directives(ps + [p]) == Directives(ps) + [p.directive]
    ensures forall op :: PoppedBy(ps + [p], op) == PoppedBy(ps, op) + if p.op == op then [p.directive] else []
  {
    assert (ps + [p])[..|ps|] == ps;
  }

  lemma PushConserves(s: State, op: nat)
    requires Conserved(s) && op in s.pending
    ensures Conserved(Step(s, EnqueuePush(op)))
  {
    var d := s.pending[op];
    assert Directives(s.popped) + (s.list + [d]) == (Directives(s.popped) + s.list) + [d];
  }

  lemma PopKeepsOutputs(s: State, op: nat)
    requires OutputsMatch(s) && op in s.drains && s.drains[op].left > 0 && s.list != []
    ensures OutputsMatch(Step(s, DrainPop(op)))
  {
    PoppedAdded(s.popped, Popped(op, s.list[0]));
  }

  lemma PopConserves(s: State, op: nat)
    requires Conserved(s) && op in s.drains && s.drains[op].left > 0 && s.list != []
    ensures Conserved(Step(s, DrainPop(op)))
  {
    PopKeepsOutputs(s, op);
    PoppedAdded(s.popped, Popped(op, s.list[0]));
    SplitHead(Directives(s.popped), s.list);
  }

  lemma SplitHead(a: seq<Directive>, b: seq<Directive>)
    requires b != []
    ensures (a + [b[0]]) + b[1..] == a + b
  {
  }

  lemma StepConserves(s: State, e: Event)
    requires Conserved(s)
    ensures Conserved(Step(s, e))
  {
    match e {
      case EnqueueCheck(_, _) =>
      case EnqueuePush(op) =>
        if op in s.pending {
          PushConserves(s, op);
        }
      case DrainStart(_) =>
      case DrainPop(op) =>
        if op in s.drains && s.drains[op].left > 0 && s.list != [] {
          PopConserves(s, op);
        }
    }
  }

  lemma {:induction false} RunConserves(s: State, es: seq<Event>)
    requires Conserved(s)
    ensures Conserved(Run(s, es))
    decreases es
  {
    if es != [] {
      StepConserves(s, es[0]);
      RunConserves(Step(s, es[0]), es[1..]);
    }
  }

  lemma {:induction false} DirectivesAt(ps: seq<Popped>, i: nat)
    requires i < |ps|
    ensures |Directives(ps)| == |ps| && Directives(ps)[i] == ps[i].directive
    decreases |ps|
  {
    if i < |ps| - 1 {
      DirectivesAt(ps[..|ps| - 1], i);
    } else if |ps| > 1 {
      DirectivesAt(ps[..|ps| - 1], 0);
    }
  }

  // The i-th pop takes the i-th push, for one drain and no other: the pushes in order are the pops in
  // order followed by what is still queued, and a drain returns exactly its own pops in that order.
  lemma EveryPushIsPoppedOnceInOrder(es: seq<Event>)
    ensures var s := Run(Init(), es);
            && |s.popped| + |s.list| == |s.pushed|
            && (forall i | 0 <= i < |s.popped| :: s.popped[i].directive == s.pushed[i])
            && (forall i | 0 <= i < |s.list| :: s.list[i] == s.pushed[|s.popped| + i])
            && (forall op | op in s.drains :: s.drains[op].output == PoppedBy(s.popped, op))
  {
    RunConserves(Init(), es);
    var s := Run(Init(), es);
    if s.popped != [] {
      DirectivesAt(s.popped, 0);
    }
    forall i | 0 <= i < |s.popped|
      ensures s.popped[i].directive == s.pushed[i]
    {
      DirectivesAt(s.popped, i);
    }
  }

  // ---------------------------------------------------------------- the real bound on the depth

  lemma {:induction false} DepthInvariant(s: State, es: seq<Event>, k: nat)
    requires |s.pending| <= k && |s.list| + |s.pending| <= MAX_QUEUE_DEPTH - 1 + k
    requires Concurrent(s, es, k)
    ensures |Run(s, es).list| + |Run(s, es).pending| <= MAX_QUEUE_DEPTH - 1 + k
    decreases es
  {
    if es != [] {
      DepthInvariant(Step(s, es[0]), es[1..], k);
    }
  }

  // With k enqueues at a time the list never exceeds 49 + k.
  lemma DepthNeverExceeds(es: seq<Event>, k: nat)
    requires Concurrent(Init(), es, k)
    ensures |Run(Init(), es).list| <= 49 + k
  {
    DepthInvariant(Init(), es, k);
  }

  // The witness: fill up to 49 one at a time, then k checks before k pushes.
  function Fill(n: nat): seq<Event> {
    if n == 0 then [] else [EnqueueCheck(0, "d"), EnqueuePush(0)] + Fill(n - 1)
  }

  function Checks(k: nat): seq<Event> {
    if k == 0 then [] else [EnqueueCheck(k, "d")] + Checks(k - 1)
  }

  function Pushes(k: nat): seq<Event> {
    if k == 0 then [] else [EnqueuePush(k)] + Pushes(k - 1)
  }

  lemma {:induction false} RunAppend(s: State, es: seq<Event>, fs: seq<Event>, k: nat)
    ensures Run(s, es + fs) == Run(Run(s, es), fs)
    ensures Concurrent(s, es, k) && Concurrent(Run(s, es), fs, k) ==> Concurrent(s, es + fs, k)
    decreases es
  {
    if es == [] {
      assert es + fs == fs;
    } else {
      assert (es + fs)[1..] == es[1..] + fs;
      RunAppend(Step(s, es[0]), es[1..], fs, k);
    }
  }

  lemma {:induction false} FillFills(s: State, n: nat, k: nat)
    requires s.pending == map[] && |s.list| + n <= MAX_QUEUE_DEPTH && k >= 1
    ensures |Run(s, Fill(n)).list| == |s.list| + n && Run(s, Fill(n)).pending == map[]
    ensures Concurrent(s, Fill(n), k)
    decreases n
  {
    if n > 0 {
      var check, push := EnqueueCheck(0, "d"), EnqueuePush(0);
      var t := Step(Step(s, check), push);
      assert Step(s, check).pending == map[0 := "d"];
      assert t.pending == map[];
      FillFills(t, n - 1, k);
      assert Fill(n)[1..][1..] == Fill(n - 1) && Fill(n)[1..][0] == push;
      assert Run(s, Fill(n)) == Run(Step(s, check), Fill(n)[1..]);
      assert Concurrent(Step(s, check), Fill(n)[1..], k);
    }
  }

  lemma OneCheckPasses(s: State, op: nat)
    requires |s.list| < MAX_QUEUE_DEPTH && op !in s.pending
    ensures var t := Step(s, EnqueueCheck(op, "d"));
            t == s.(pending := s.pending[op := "d"]) && |t.pending| == |s.pending| + 1
  {
    assert s.pending[op := "d"].Keys == s.pending.Keys + {op};
  }

  lemma {:induction false} ChecksPass(s: State, n: nat, k: nat)
    requires |s.list| < MAX_QUEUE_DEPTH && |s.pending| + n <= k
    requires forall op | op in s.pending :: op > n
    ensures Run(s, Checks(n)).list == s.list && |Run(s, Checks(n)).pending| == |s.pending| + n
    ensures forall op | op in s.pending || 1 <= op <= n :: op in Run(s, Checks(n)).pending
    ensures Concurrent(s, Checks(n), k)
    decreases n
  {
    if n > 0 {
      var e := EnqueueCheck(n, "d");
      var t := s.(pending := s.pending[n := "d"]);
      OneCheckPasses(s, n);
      ChecksPass(t, n - 1, k);
      assert Checks(n)[0] == e && Checks(n)[1..] == Checks(n - 1);
      assert Run(s, Checks(n)) == Run(t, Checks(n - 1));
      forall op | op in s.pending || 1 <= op <= n
        ensures op in Run(s, Checks(n)).pending
      {
        assert op in t.pending || 1 <= op <= n - 1;
      }
    }
  }

  lemma {:induction false} PushesLand(s: State, n: nat, k: nat)
    requires |s.pending| <= k && forall op | 1 <= op <= n :: op in s.pending
    ensures |Run(s, Pushes(n)).list| == |s.list| + n
    ensures Concurrent(s, Pushes(n), k)
    decreases n
  {
    if n > 0 {
      var t := Step(s, EnqueuePush(n));
      assert t.pending.Keys == s.pending.Keys - {n};
      assert Pushes(n)[1..] == Pushes(n - 1);
      PushesLand(t, n - 1, k);
    }
  }

  function Overfill(k: nat): seq<Event> {
    Fill(MAX_QUEUE_DEPTH - 1) + Checks(k) + Pushes(k)
  }

  lemma DepthBoundIsReached(k: nat)
    requires k >= 1
    ensures Concurrent(Init(), Overfill(k), k) && |Run(Init(), Overfill(k)).list| == 49 + k
  {
    FillFills(Init(), MAX_QUEUE_DEPTH - 1, k);
    var full := Run(Init(), Fill(MAX_QUEUE_DEPTH - 1));
    ChecksPass(full, k, k);
    PushesLand(Run(full, Checks(k)), k, k);
    RunAppend(Init(), Fill(MAX_QUEUE_DEPTH - 1), Checks(k), k);
    RunAppend(Init(), Fill(MAX_QUEUE_DEPTH - 1) + Checks(k), Pushes(k), k);
  }

  ghost predicate DepthLimitHolds(k: nat) {
    forall es | Concurrent(Init(), es, k) :: |Run(Init(), es).list| <= 50
  }

  // The documented maximum of 50 holds exactly when no two enqueues overlap.
  lemma DepthLimitHoldsIffSerial(k: nat)
    ensures DepthLimitHolds(k) <==> k <= 1
  {
    if k <= 1 {
      forall es | Concurrent(Init(), es, k)
        ensures |Run(Init(), es).list| <= MAX_QUEUE_DEPTH
      {
        DepthNeverExceeds(es, k);
      }
    } else {
      DepthBoundIsReached(k);
    }
  }

  // ---------------------------------------------------------------- one client, undisturbed

  function Pops(op: nat, n: nat): seq<Event> {
    if n == 0 then [] else [DrainPop(op)] + Pops(op, n - 1)
  }

  // A drain that nobody interrupts returns the whole queue, oldest first.
  lemma {:induction false} UndisturbedDrainTakesAll(s: State, op: nat)
    requires op in s.drains && s.drains[op].left == |s.list|
    ensures var t := Run(s, Pops(op, |s.list|));
            t.list == [] && t.pushed == s.pushed && op in t.drains
            && t.drains[op].output == s.drains[op].output + s.list
    decreases |s.list|
  {
    if s.list != [] {
      var t := Step(s, DrainPop(op));
      assert Pops(op, |s.list|)[1..] == Pops(op, |t.list|);
      UndisturbedDrainTakesAll(t, op);
      assert s.drains[op].output + [s.list[0]] + s.list[1..] == s.drains[op].output + s.list;
    }
  }

  class Queue {
    var list: seq<Directive>

    constructor ()
      ensures list == []
    {
      list := [];
    }

    method Llen() returns (depth: nat)
      ensures depth == |list|
    {
      depth := |list|;
    }

    method Rpush(d: Directive)
      modifies this
      ensures list == old(list) + [d]
    {
      list := list + [d];
    }

    method Lpop() returns (found: bool, d: Directive)
      modifies this
      ensures found <==> old(list) != []
      ensures found ==> old(list) == [d] + list
      ensures !found ==> list == old(list)
    {
      found, d := list != [], "";
      if found {
        d, list := list[0], list[1..];
      }
    }

    method Enqueue(d: Directive) returns (queued: bool)
      modifies this
      ensures queued <==> |old(list)| < 50
      ensures list == if queued then old(list) + [d] else old(list)
    {
      var depth := Llen();
      if depth >= MAX_QUEUE_DEPTH {
        return false;
      }
      Rpush(d);
      queued := true;
    }

    method DrainAll() returns (directives: seq<Directive>)
      modifies this
      ensures directives == old(list) && list == []
    {
      directives := [];
      var depth := Llen();
      if depth == 0 {
        return;
      }
      for i := 0 to depth
        invariant directives + list == old(list)
        invariant |list| == depth - i
      {
        var found, d := Lpop();
        if !found {
          break;
        }
        directives := directives + [d];
      }
    }
  }
}
