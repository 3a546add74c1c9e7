/**
  The agent's tool loop: at most 25 model calls per execution, a transcript that pairs tool calls
  with tool results, and checkpoints that carry the round number over a SIGTERM.  Model answers,
  tool failures, signals and checkpoint writes are inputs; `turns` gives one for each round.
 */
module ToolLoop {
  import opened Common

  const MAX_TOOL_ROUNDS := 25

  datatype Message =
    | System(content: string)
    | User(content: string)
    | Assistant(content: string, calls: seq<string>)
    | Tool(callId: string, content: string)

  // What happens in a round: an abort before the model is called, a failing model call, or an answer
  // whose tool calls may throw and during which a SIGTERM may arrive.
  datatype Turn =
    | Aborted
    | ChatFails
    | Answer(content: string, calls: seq<string>, results: seq<string>, throwsAt: Option<nat>, sigterm: bool)

  datatype Ending = Completed | Failed | Interrupted

  // ---------------------------------------------------------------- transcripts

  function IsResultOf(m: Message, id: string): bool {
    m.Tool? && m.callId == id
  }

  // Each assistant message with tool calls is followed by exactly one result per call, in order,
  // and there are no other results.
  predicate WellFormed(ms: seq<Message>)
    decreases |ms|
  {
    ms == [] ||
    match ms[0]
    case Tool(_, _) => false
    case Assistant(_, calls) =>
      |calls| < |ms| && (forall i | 0 <= i < |calls| :: IsResultOf(ms[1 + i], calls[i])) && WellFormed(ms[1 + |calls|..])
    case _ => WellFormed(ms[1..])
  }

  // What may be sent to the model.
  type Transcript = ms: seq<Message> | WellFormed(ms) witness []

  // The assistant message of an answer with the results of its first n calls.
  predicate Block(ms: seq<Message>, turn: Turn, n: nat) {
    && turn.Answer? && n <= |turn.calls| && |ms| == 1 + n
    && ms[0] == Assistant(turn.content, turn.calls)
    && forall i | 0 <= i < n :: ms[1 + i] == Tool(turn.calls[i], if i < |turn.results| then turn.results[i] else "")
  }

  lemma {:induction false} CompleteBlockKeepsWellFormed(ms: seq<Message>, block: seq<Message>, turn: Turn)
    requires WellFormed(ms) && turn.Answer? && Block(block, turn, |turn.calls|)
    ensures WellFormed(ms + block)
    decreases |ms|
  {
    if ms == [] {
      assert ms + block == block && block[1 + |turn.calls|..] == [];
    } else {
      var n := if ms[0].Assistant? then 1 + |ms[0].calls| else 1;
      assert (ms + block)[n..] == ms[n..] + block;
      CompleteBlockKeepsWellFormed(ms[n..], block, turn);
    }
  }

  // ---------------------------------------------------------------- one execution

  // The rounds from `round` on: how the execution ends, after which round, and whether the shutdown
  // flag is still up.
  datatype Result = Result(ending: Ending, round: nat, down: bool)

  function Loop(round: nat, turns: nat -> Turn, down: bool): Result
    decreases MAX_TOOL_ROUNDS - round
  {
    if round >= MAX_TOOL_ROUNDS then Result(Completed, round, down)
    else
      match turns(round)
      case Aborted => Result(Failed, round, down)
      case ChatFails => Result(Failed, round + 1, down)
      case Answer(_, calls, results, throwsAt, sigterm) =>
        if calls == [] then Result(Completed, round + 1, down || sigterm)
        else if throwsAt.Some? && throwsAt.value < |calls| then Result(Failed, round + 1, down || sigterm)
        else if down || sigterm then Result(Interrupted, round + 1, false)
        else Loop(round + 1, turns, false)
  }

  lemma {:induction false} LoopIsBounded(round: nat, turns: nat -> Turn, down: bool)
    requires round <= MAX_TOOL_ROUNDS
    ensures round <= Loop(round, turns, down).round <= 25
    ensures Loop(round, turns, down).ending == Interrupted ==> round < Loop(round, turns, down).round
    decreases MAX_TOOL_ROUNDS - round
  {
    if round < MAX_TOOL_ROUNDS {
      var t := turns(round);
      if t.Answer? && t.calls != [] && !(t.throwsAt.Some? && t.throwsAt.value < |t.calls|) && !(down || t.sigterm) {
        LoopIsBounded(round + 1, turns, false);
      }
    }
  }

  // Each of these rounds calls tools, none of which throws, and no signal arrives.
  ghost predicate CallsOn(turns: nat -> Turn, start: nat, k: nat) {
    forall i: nat | start <= i < k ::
      && turns(i).Answer? && turns(i).calls != [] && !turns(i).sigterm
      && !(turns(i).throwsAt.Some? && turns(i).throwsAt.value < |turns(i).calls|)
  }

  lemma {:induction false} LoopCallsOn(start: nat, k: nat, turns: nat -> Turn, down: bool)
    requires start <= k <= MAX_TOOL_ROUNDS && CallsOn(turns, start, k) && (k == start || !down)
    ensures Loop(start, turns, down) == Loop(k, turns, down)
    decreases k - start
  {
    if start < k {
      assert Loop(start, turns, down) == Loop(start + 1, turns, false);
      LoopCallsOn(start + 1, k, turns, down);
    }
  }

  // How an execution ends, by the first round k that does not just call its tools.
  lemma {:induction false} LoopEnds(start: nat, k: nat, turns: nat -> Turn, down: bool)
    requires start <= k <= 25 && CallsOn(turns, start, k) && (k == start || !down)
    ensures k == 25 ==> Loop(start, turns, down) == Result(Completed, 25, down)
    ensures k < 25 ==>
              match turns(k)
              case Aborted => Loop(start, turns, down) == Result(Failed, k, down)
              case ChatFails => Loop(start, turns, down) == Result(Failed, k + 1, down)
              case Answer(_, calls, _, throwsAt, sigterm) =>
                && (calls == [] ==> Loop(start, turns, down) == Result(Completed, k + 1, down || sigterm))
                && (throwsAt.Some? && throwsAt.value < |calls| ==> Loop(start, turns, down) == Result(Failed, k + 1, down || sigterm))
                && (calls != [] && !(throwsAt.Some? && throwsAt.value < |calls|) && (down || sigterm) ==>
                      Loop(start, turns, down) == Result(Interrupted, k + 1, false))
  {
    LoopCallsOn(start, k, turns, down);
  }

  // ---------------------------------------------------------------- a task over many executions

  // What looking for the checkpoint finds: one to resume from, one that is too old and gets deleted,
  // or one that cannot be read and stays.
  datatype Lookup = Readable | Expired | Unreadable

  // `saves` says whether the checkpoint could be written.
  datatype Run = Run(turns: nat -> Turn, saves: bool, lookup: Lookup)

  // `calls` are the model calls of all its executions.
  datatype Task = Task(checkpoint: Option<nat>, down: bool, calls: nat)

  function StartRound(t: Task, r: Run): nat {
    if t.checkpoint.Some? && r.lookup.Readable? then t.checkpoint.value else 0
  }

  function RoundOf(t: Task): nat {
    if t.checkpoint.Some? then t.checkpoint.value else 0
  }

  function After(t: Task, r: Run): Task {
    var start := StartRound(t, r);
    var res := Loop(start, r.turns, t.down);
    var made := if res.round >= start then res.round - start else 0;
    var kept := if r.lookup.Expired? then None else t.checkpoint;
    match res.ending
    case Completed => Task(None, res.down, t.calls + made)
    case Failed => Task(kept, res.down, t.calls + made)
    case Interrupted => Task(if r.saves then Some(res.round) else kept, res.down, t.calls + made)
  }

  // From the resumed round on, every round before k calls its tools, undisturbed, and the loop reaches k.
  ghost predicate ReachesRound(t: Task, r: Run, k: nat) {
    var start := if t.checkpoint.Some? && r.lookup.Readable? then t.checkpoint.value else 0;
    start <= k <= 25 && CallsOn(r.turns, start, k) && (k == start || !t.down)
  }

  // How such an execution ends, from its inputs alone: after round 25, or at the abort, the failed call, the
  // final answer, the throwing tool or the signal of round k.
  ghost predicate EndsAt(was: Option<nat>, wasDown: bool, r: Run, k: nat, ending: Ending, sent: int,
                         checkpoint: Option<nat>, down: bool) {
    var start := if was.Some? && r.lookup.Readable? then was.value else 0;
    var kept := if r.lookup.Expired? then None else was;
    if k == 25 then ending == Completed && sent == 25 - start && checkpoint == None && down == wasDown
    else
      match r.turns(k)
      case Aborted => ending == Failed && sent == k - start && checkpoint == kept && down == wasDown
      case ChatFails => ending == Failed && sent == k + 1 - start && checkpoint == kept && down == wasDown
      case Answer(_, calls, _, throwsAt, sigterm) =>
        && (calls == [] ==>
              ending == Completed && sent == k + 1 - start && checkpoint == None && down == (wasDown || sigterm))
        && (throwsAt.Some? && throwsAt.value < |calls| ==>
              ending == Failed && sent == k + 1 - start && checkpoint == kept && down == (wasDown || sigterm))
        && (calls != [] && !(throwsAt.Some? && throwsAt.value < |calls|) && (wasDown || sigterm) ==>
              ending == Interrupted && sent == k + 1 - start && !down
              && checkpoint == if r.saves then Some(k + 1) else kept)
  }

  lemma {:induction false} ExecutionEndsAt(t: Task, r: Run, k: nat)
    requires ReachesRound(t, r, k)
    ensures var u := After(t, r);
            EndsAt(t.checkpoint, t.down, r, k, Loop(StartRound(t, r), r.turns, t.down).ending, u.calls - t.calls,
                   u.checkpoint, u.down)
  {
    LoopEnds(StartRound(t, r), k, r.turns, t.down);
  }

  // Every execution has such a round, and its turn is one of those EndsAt lists.
  lemma {:induction false} SomeRoundEnds(t: Task, r: Run) returns (k: nat)
    requires RoundOf(t) <= 25
    ensures ReachesRound(t, r, k)
    ensures k == 25 || !r.turns(k).Answer? || r.turns(k).calls == [] || r.turns(k).sigterm || t.down
            || (r.turns(k).throwsAt.Some? && r.turns(k).throwsAt.value < |r.turns(k).calls|)
  {
    k := StartRound(t, r);
    while k < MAX_TOOL_ROUNDS && !t.down && CallsOn(r.turns, k, k + 1)
      invariant ReachesRound(t, r, k)
    {
      k := k + 1;
    }
    if k < MAX_TOOL_ROUNDS && !t.down {
      assert !CallsOn(r.turns, k, k + 1);
    }
  }

  const NEW_TASK := Task(None, false, 0)

  function AfterAll(t: Task, rs: seq<Run>): Task {
    if rs == [] then t else After(AfterAll(t, rs[..|rs| - 1]), rs[|rs| - 1])
  }

  predicate EndsInterrupted(t: Task, r: Run) {
    Loop(StartRound(t, r), r.turns, t.down).ending == Interrupted
  }

  // What an execution loses: the checkpoint it could not resume from, and its own rounds unless they
  // end up in a checkpoint.
  function Losses(t: Task, r: Run): nat {
    (if t.checkpoint.Some? && !r.lookup.Readable? then 1 else 0) + (if EndsInterrupted(t, r) && r.saves then 0 else 1)
  }

  function AllLosses(rs: seq<Run>): nat {
    if rs == [] then 0
    else AllLosses(rs[..|rs| - 1]) + Losses(AfterAll(NEW_TASK, rs[..|rs| - 1]), rs[|rs| - 1])
  }

  lemma {:induction false} OneExecution(t: Task, r: Run, losses: nat)
    requires RoundOf(t) <= MAX_TOOL_ROUNDS && RoundOf(t) <= t.calls <= RoundOf(t) + MAX_TOOL_ROUNDS * losses
    ensures var u := After(t, r);
            RoundOf(u) <= MAX_TOOL_ROUNDS && RoundOf(u) <= u.calls <= RoundOf(u) + MAX_TOOL_ROUNDS * (losses + Losses(t, r))
    ensures After(t, r).calls <= t.calls + MAX_TOOL_ROUNDS - StartRound(t, r)
  {
    LoopIsBounded(StartRound(t, r), r.turns, t.down);
  }

  // Every model call is behind the checkpoint, or it was lost with a checkpoint or an execution: at most
  // 25 calls for each of those.
  lemma {:induction false} CallsAreAccounted(rs: seq<Run>)
    ensures var t := AfterAll(NEW_TASK, rs);
            RoundOf(t) <= 25 && RoundOf(t) <= t.calls <= RoundOf(t) + 25 * AllLosses(rs)
    decreases |rs|
  {
    if rs != [] {
      var init := rs[..|rs| - 1];
      CallsAreAccounted(init);
      OneExecution(AfterAll(NEW_TASK, init), rs[|rs| - 1], AllLosses(init));
    }
  }

  // A task interrupted and resumed any number of times without a loss makes at most 25 model calls in
  // all, however its last execution ends.
  lemma {:induction false} AtMost25CallsAcrossResumes(rs: seq<Run>, last: Run)
    requires AllLosses(rs) == 0
    requires AfterAll(NEW_TASK, rs).checkpoint.Some? ==> last.lookup.Readable?
    ensures After(AfterAll(NEW_TASK, rs), last).calls <= 25
  {
    CallsAreAccounted(rs);
    OneExecution(AfterAll(NEW_TASK, rs), last, 0);
  }

  // ---------------------------------------------------------------- when 25 is guaranteed

  datatype Flags = Flags(saves: bool, lookup: Lookup)

  function FlagsOf(rs: seq<Run>): (fs: seq<Flags>)
    ensures |fs| == |rs| && forall i | 0 <= i < |rs| :: fs[i] == Flags(rs[i].saves, rs[i].lookup)
  {
    seq(|rs|, i requires 0 <= i < |rs| => Flags(rs[i].saves, rs[i].lookup))
  }

  predicate AllInterrupted(rs: seq<Run>) {
    rs == [] ||
    var init, last := rs[..|rs| - 1], rs[|rs| - 1];
    AllInterrupted(init) && EndsInterrupted(AfterAll(NEW_TASK, init), last)
  }

  // Whatever the model and the tools do: as long as every execution but the last is interrupted,
  // the whole task makes at most 25 model calls.
  ghost predicate Guaranteed(fs: seq<Flags>) {
    forall rs: seq<Run> | rs != [] && FlagsOf(rs) <= fs && AllInterrupted(rs[..|rs| - 1]) ::
      AfterAll(NEW_TASK, rs).calls <= 25
  }

  // The first 25 interruptions are saved, and an execution that could find their checkpoint can resume from it.
  predicate KeepsCheckpoints(fs: seq<Flags>) {
    && (forall i | 0 <= i < 25 && i + 1 < |fs| :: fs[i].saves)
    && (forall i | 0 < i <= 25 && i < |fs| :: fs[i].lookup.Readable?)
  }

  // Saved interruptions each move the checkpoint on, so there are 25 of them at most.
  lemma {:induction false} InterruptionsMoveOn(fs: seq<Flags>, rs: seq<Run>)
    requires KeepsCheckpoints(fs) && |rs| < |fs| && FlagsOf(rs) <= fs && AllInterrupted(rs)
    ensures var t := AfterAll(NEW_TASK, rs);
            t.calls == RoundOf(t) && |rs| <= RoundOf(t) <= MAX_TOOL_ROUNDS
    decreases |rs|
  {
    if rs != [] {
      var n := |rs| - 1;
      var init, last := rs[..n], rs[n];
      assert FlagsOf(init) == FlagsOf(rs)[..n] && FlagsOf(rs)[n] == fs[n];
      InterruptionsMoveOn(fs, init);
      var t := AfterAll(NEW_TASK, init);
      LoopIsBounded(StartRound(t, last), last.turns, t.down);
      assert n <= MAX_TOOL_ROUNDS;
      assert n > 0 ==> last.lookup.Readable?;
      assert StartRound(t, last) == RoundOf(t);
      assert n < MAX_TOOL_ROUNDS;
      assert last.saves;
    }
  }

  lemma {:induction false} KeptCheckpointsGuarantee(fs: seq<Flags>, rs: seq<Run>)
    requires KeepsCheckpoints(fs) && rs != [] && FlagsOf(rs) <= fs && AllInterrupted(rs[..|rs| - 1])
    ensures AfterAll(NEW_TASK, rs).calls <= MAX_TOOL_ROUNDS
  {
    var n := |rs| - 1;
    var init, last := rs[..n], rs[n];
    assert FlagsOf(init) == FlagsOf(rs)[..n] && FlagsOf(rs)[n] == fs[n];
    InterruptionsMoveOn(fs, init);
    var t := AfterAll(NEW_TASK, init);
    assert n > 0 ==> last.lookup.Readable?;
    assert StartRound(t, last) == RoundOf(t);
    LoopIsBounded(StartRound(t, last), last.turns, t.down);
  }

  // A model that asks for a tool in every round, with or without a SIGTERM meanwhile.
  ghost predicate AlwaysAsks(turns: nat -> Turn, sigterm: bool) {
    forall round: nat :: turns(round) == Answer("", ["call"], ["result"], None, sigterm)
  }

  lemma {:induction false} FullLoop(full: nat -> Turn, round: nat)
    requires AlwaysAsks(full, false) && round <= MAX_TOOL_ROUNDS
    ensures Loop(round, full, false) == Result(Completed, MAX_TOOL_ROUNDS, false)
    decreases MAX_TOOL_ROUNDS - round
  {
    if round < MAX_TOOL_ROUNDS {
      FullLoop(full, round + 1);
    }
  }

  function WithFlags(turns: nat -> Turn, f: Flags): Run {
    Run(turns, f.saves, f.lookup)
  }

  // One call, then the interruption.
  lemma {:induction false} QuickRun(quick: nat -> Turn, t: Task, f: Flags)
    requires AlwaysAsks(quick, true) && !t.down && StartRound(t, WithFlags(quick, f)) < MAX_TOOL_ROUNDS
    ensures var r := WithFlags(quick, f); var start := StartRound(t, r);
            EndsInterrupted(t, r) && After(t, r).calls == t.calls + 1 && !After(t, r).down
            && After(t, r).checkpoint == if f.saves then Some(start + 1) else if f.lookup.Expired? then None else t.checkpoint
  {
    var start := StartRound(t, WithFlags(quick, f));
    assert Loop(start, quick, false) == Result(Interrupted, start + 1, false);
  }

  // All rounds from where the checkpoint stands.
  lemma {:induction false} FullRun(full: nat -> Turn, t: Task, f: Flags)
    requires AlwaysAsks(full, false) && !t.down && RoundOf(t) <= MAX_TOOL_ROUNDS
    ensures After(t, WithFlags(full, f)).calls == t.calls + MAX_TOOL_ROUNDS - StartRound(t, WithFlags(full, f))
  {
    FullLoop(full, StartRound(t, WithFlags(full, f)));
  }

  function QuickRuns(quick: nat -> Turn, fs: seq<Flags>): seq<Run> {
    if fs == [] then []
    else QuickRuns(quick, fs[..|fs| - 1]) + [WithFlags(quick, fs[|fs| - 1])]
  }

  lemma {:induction false} QuickRunsHaveFlags(quick: nat -> Turn, fs: seq<Flags>)
    ensures FlagsOf(QuickRuns(quick, fs)) == fs
  {
    if fs != [] {
      QuickRunsHaveFlags(quick, fs[..|fs| - 1]);
    }
  }

  predicate NoneLost(fs: seq<Flags>, b: nat)
    requires b <= |fs|
  {
    forall i | 0 <= i < b :: fs[i].saves && (i > 0 ==> fs[i].lookup.Readable?)
  }

  lemma {:induction false} AfterOneMore(rs: seq<Run>, r: Run)
    ensures AfterAll(NEW_TASK, rs + [r]) == After(AfterAll(NEW_TASK, rs), r)
    ensures AllInterrupted(rs + [r]) <==> AllInterrupted(rs) && EndsInterrupted(AfterAll(NEW_TASK, rs), r)
  {
    assert (rs + [r])[..|rs|] == rs;
  }

  lemma {:induction false} FlagsOfOneMore(rs: seq<Run>, r: Run)
    ensures FlagsOf(rs + [r]) == FlagsOf(rs) + [Flags(r.saves, r.lookup)]
  {
  }

  // A quick execution more.
  lemma {:induction false} QuickAgain(quick: nat -> Turn, rs: seq<Run>, f: Flags, n: nat)
    requires AlwaysAsks(quick, true) && AllInterrupted(rs) && QuickState(n, AfterAll(NEW_TASK, rs)) && n < MAX_TOOL_ROUNDS
    requires f.saves && (n > 0 ==> f.lookup.Readable?)
    ensures AllInterrupted(rs + [WithFlags(quick, f)]) && QuickState(n + 1, AfterAll(NEW_TASK, rs + [WithFlags(quick, f)]))
  {
    AfterOneMore(rs, WithFlags(quick, f));
    QuickRun(quick, AfterAll(NEW_TASK, rs), f);
  }

  // What n quick executions leave.
  ghost predicate QuickState(n: nat, t: Task) {
    !t.down && t.calls == n && t.checkpoint == if n == 0 then None else Some(n)
  }

  // One call per execution while all of them are saved and resumed.
  lemma {:induction false} QuickRunsCount(quick: nat -> Turn, fs: seq<Flags>)
    requires AlwaysAsks(quick, true) && |fs| <= MAX_TOOL_ROUNDS && NoneLost(fs, |fs|)
    ensures AllInterrupted(QuickRuns(quick, fs)) && QuickState(|fs|, AfterAll(NEW_TASK, QuickRuns(quick, fs)))
  {
    if fs == [] {
      assert QuickRuns(quick, fs) == [] && AfterAll(NEW_TASK, []) == NEW_TASK;
    } else {
      var n := |fs| - 1;
      QuickRunsCount(quick, fs[..n]);
      assert QuickRuns(quick, fs) == QuickRuns(quick, fs[..n]) + [WithFlags(quick, fs[n])];
      QuickAgain(quick, QuickRuns(quick, fs[..n]), fs[n], n);
    }
  }

  // The first b executions, each interrupted at once.
  lemma {:induction false} QuickHistory(quick: nat -> Turn, fs: seq<Flags>, b: nat) returns (rs: seq<Run>)
    requires AlwaysAsks(quick, true) && b <= |fs| && b <= MAX_TOOL_ROUNDS && NoneLost(fs, b)
    ensures AllInterrupted(rs) && FlagsOf(rs) == fs[..b] && QuickState(b, AfterAll(NEW_TASK, rs))
  {
    rs := QuickRuns(quick, fs[..b]);
    QuickRunsCount(quick, fs[..b]);
    QuickRunsHaveFlags(quick, fs[..b]);
  }

  // A history with these flags, all but its last execution interrupted, that goes over the limit.
  predicate GoesOver(fs: seq<Flags>, rs: seq<Run>) {
    rs != [] && FlagsOf(rs) <= fs && AllInterrupted(rs[..|rs| - 1]) && AfterAll(NEW_TASK, rs).calls > MAX_TOOL_ROUNDS
  }

  lemma {:induction false} LastGoesOver(fs: seq<Flags>, init: seq<Run>, last: Run)
    requires FlagsOf(init) + [Flags(last.saves, last.lookup)] <= fs && AllInterrupted(init)
    requires After(AfterAll(NEW_TASK, init), last).calls > MAX_TOOL_ROUNDS
    ensures GoesOver(fs, init + [last])
  {
    AfterOneMore(init, last);
    FlagsOfOneMore(init, last);
    assert (init + [last])[..|init + [last]| - 1] == init;
  }

  // A full last execution goes over the limit when fewer rounds are behind it than calls were made.
  lemma {:induction false} FullRunGoesOver(full: nat -> Turn, fs: seq<Flags>, init: seq<Run>, f: Flags) returns (rs: seq<Run>)
    requires AlwaysAsks(full, false) && AllInterrupted(init) && FlagsOf(init) + [f] <= fs
    requires var t := AfterAll(NEW_TASK, init);
             !t.down && RoundOf(t) <= MAX_TOOL_ROUNDS && t.calls > if f.lookup.Readable? then RoundOf(t) else 0
    ensures GoesOver(fs, rs)
  {
    FullRun(full, AfterAll(NEW_TASK, init), f);
    LastGoesOver(fs, init, WithFlags(full, f));
    rs := init + [WithFlags(full, f)];
  }

  // An execution that cannot resume runs all 25 rounds again.
  lemma {:induction false} ExpiryCostsCalls(quick: nat -> Turn, full: nat -> Turn, fs: seq<Flags>, b: nat)
    returns (rs: seq<Run>)
    requires AlwaysAsks(quick, true) && AlwaysAsks(full, false)
    requires 0 < b < |fs| && b <= MAX_TOOL_ROUNDS && !fs[b].lookup.Readable? && NoneLost(fs, b)
    ensures GoesOver(fs, rs)
  {
    var init := QuickHistory(quick, fs, b);
    assert fs[..b] + [fs[b]] == fs[..b + 1];
    rs := FullRunGoesOver(full, fs, init, fs[b]);
  }

  // An interruption that is not saved leaves its call behind and no progress.
  lemma {:induction false} QuickUnsaved(quick: nat -> Turn, rs: seq<Run>, f: Flags, n: nat)
    requires AlwaysAsks(quick, true) && AllInterrupted(rs) && QuickState(n, AfterAll(NEW_TASK, rs)) && n < MAX_TOOL_ROUNDS
    requires !f.saves && (n > 0 ==> f.lookup.Readable?)
    ensures AllInterrupted(rs + [WithFlags(quick, f)])
    ensures var t := AfterAll(NEW_TASK, rs + [WithFlags(quick, f)]);
            !t.down && t.calls == n + 1 && RoundOf(t) <= n
  {
    AfterOneMore(rs, WithFlags(quick, f));
    QuickRun(quick, AfterAll(NEW_TASK, rs), f);
  }

  lemma {:induction false} FlagsUpTo(turns: nat -> Turn, init: seq<Run>, fs: seq<Flags>, b: nat)
    requires b < |fs| && FlagsOf(init) == fs[..b]
    ensures FlagsOf(init + [WithFlags(turns, fs[b])]) == fs[..b + 1]
  {
    FlagsOfOneMore(init, WithFlags(turns, fs[b]));
    assert fs[..b] + [fs[b]] == fs[..b + 1];
  }

  // The history up to and including the unsaved interruption.
  lemma {:induction false} HistoryToUnsaved(quick: nat -> Turn, fs: seq<Flags>, b: nat) returns (more: seq<Run>)
    requires AlwaysAsks(quick, true) && b < |fs| && b < MAX_TOOL_ROUNDS
    requires NoneLost(fs, b) && !fs[b].saves && (b > 0 ==> fs[b].lookup.Readable?)
    ensures AllInterrupted(more) && FlagsOf(more) == fs[..b + 1]
    ensures var t := AfterAll(NEW_TASK, more);
            !t.down && t.calls == b + 1 && RoundOf(t) <= b
  {
    var init := QuickHistory(quick, fs, b);
    QuickUnsaved(quick, init, fs[b], b);
    FlagsUpTo(quick, init, fs, b);
    more := init + [WithFlags(quick, fs[b])];
  }

  lemma {:induction false} UnsavedCostsCalls(quick: nat -> Turn, full: nat -> Turn, fs: seq<Flags>, b: nat)
    returns (rs: seq<Run>)
    requires AlwaysAsks(quick, true) && AlwaysAsks(full, false)
    requires b + 1 < |fs| && b < MAX_TOOL_ROUNDS && NoneLost(fs, b) && !fs[b].saves && (b > 0 ==> fs[b].lookup.Readable?)
    ensures GoesOver(fs, rs)
  {
    var more := HistoryToUnsaved(quick, fs, b);
    assert fs[..b + 1] + [fs[b + 1]] == fs[..b + 2];
    rs := FullRunGoesOver(full, fs, more, fs[b + 1]);
  }

  // Whether the execution loses calls if its checkpoint matters.
  predicate Loses(fs: seq<Flags>, i: nat)
    requires i < |fs|
  {
    !fs[i].saves || (i > 0 && !fs[i].lookup.Readable?)
  }

  lemma {:induction false} LeastLoss(fs: seq<Flags>, bad: nat) returns (b: nat)
    requires bad < |fs| && Loses(fs, bad)
    ensures b <= bad && Loses(fs, b) && NoneLost(fs, b)
  {
    b := 0;
    while !Loses(fs, b)
      invariant b <= bad && NoneLost(fs, b)
      decreases bad - b
    {
      b := b + 1;
    }
  }

  // For given saves and lookups, 25 model calls in all are guaranteed for every behaviour of model
  // and tools exactly when the first 25 interruptions are saved and the execution after each of
  // them can resume from its checkpoint.
  lemma {:induction false} GuaranteedIff(fs: seq<Flags>)
    ensures Guaranteed(fs) <==> KeepsCheckpoints(fs)
  {
    if KeepsCheckpoints(fs) {
      forall rs: seq<Run> | rs != [] && FlagsOf(rs) <= fs && AllInterrupted(rs[..|rs| - 1])
        ensures AfterAll(NEW_TASK, rs).calls <= MAX_TOOL_ROUNDS
      {
        KeptCheckpointsGuarantee(fs, rs);
      }
    } else {
      var rs := LostCheckpointGoesOver(fs);
    }
  }

  lemma {:induction false} LostCheckpointGoesOver(fs: seq<Flags>) returns (rs: seq<Run>)
    requires !KeepsCheckpoints(fs)
    ensures GoesOver(fs, rs)
  {
    var bad: nat :|
      bad < |fs| && ((bad < MAX_TOOL_ROUNDS && bad + 1 < |fs| && !fs[bad].saves)
                     || (0 < bad <= MAX_TOOL_ROUNDS && !fs[bad].lookup.Readable?));
    var b := LeastLoss(fs, bad);
    var quick := (round: nat) => Answer("", ["call"], ["result"], None, true);
    var full := (round: nat) => Answer("", ["call"], ["result"], None, false);
    if b > 0 && !fs[b].lookup.Readable? {
      rs := ExpiryCostsCalls(quick, full, fs, b);
    } else {
      rs := UnsavedCostsCalls(quick, full, fs, b);
    }
  }

  // Without a saved checkpoint the count starts over: two executions, fifty calls.
  lemma UnsavedInterruptionStartsOver()
    ensures var busy := (round: nat) => Answer("", ["call"], ["result"], None, round == MAX_TOOL_ROUNDS - 1);
            AfterAll(NEW_TASK, [Run(busy, false, Readable), Run(busy, false, Readable)]).calls == 50
  {
    var busy := (round: nat) => Answer("", ["call"], ["result"], None, round == MAX_TOOL_ROUNDS - 1);
    BusyLoop(0, busy);
    TwoRuns(Run(busy, false, Readable));
  }

  lemma TwoRuns(r: Run)
    requires !r.saves && r.lookup.Readable? && Loop(0, r.turns, false) == Result(Interrupted, MAX_TOOL_ROUNDS, false)
    ensures AfterAll(NEW_TASK, [r, r]).calls == 2 * MAX_TOOL_ROUNDS
  {
    var once := Task(None, false, MAX_TOOL_ROUNDS);
    assert [r, r][..1] == [r] && [r][..0] == [];
    assert AfterAll(NEW_TASK, [r]) == After(AfterAll(NEW_TASK, []), r) == once;
    assert AfterAll(NEW_TASK, [r, r]) == After(AfterAll(NEW_TASK, [r]), r);
    assert After(once, r).calls == 2 * MAX_TOOL_ROUNDS;
  }

  lemma {:induction false} BusyLoop(round: nat, turns: nat -> Turn)
    requires round < MAX_TOOL_ROUNDS
    requires forall i: nat :: turns(i) == Answer("", ["call"], ["result"], None, i == MAX_TOOL_ROUNDS - 1)
    ensures Loop(round, turns, false) == Result(Interrupted, MAX_TOOL_ROUNDS, false)
    decreases MAX_TOOL_ROUNDS - round
  {
    if round < MAX_TOOL_ROUNDS - 1 {
      BusyLoop(round + 1, turns);
    }
  }

  // The later transcript is the earlier one, the answer of the round, and each call's own result.
  predicate AnsweredIn(earlier: seq<Message>, later: seq<Message>, turn: Turn) {
    && turn.Answer? && |later| == |earlier| + 1 + |turn.calls| && earlier <= later
    && later[|earlier|] == Assistant(turn.content, turn.calls)
    && forall i | 0 <= i < |turn.calls| ::
         later[|earlier| + 1 + i] == Tool(turn.calls[i], if i < |turn.results| then turn.results[i] else "")
  }

  lemma {:induction false} BlockAnswers(earlier: seq<Message>, block: seq<Message>, turn: Turn)
    requires turn.Answer? && Block(block, turn, |turn.calls|)
    ensures AnsweredIn(earlier, earlier + block, turn)
  {
    forall i | 0 <= i < |turn.calls|
      ensures (earlier + block)[|earlier| + 1 + i] == Tool(turn.calls[i], if i < |turn.results| then turn.results[i] else "")
    {
      assert (earlier + block)[|earlier| + 1 + i] == block[1 + i];
    }
  }

  // ---------------------------------------------------------------- the executor object

  class AgentExecutor {
    var shuttingDown: bool
    var checkpoint: Option<nat>     // the stored round of this agent and task

    constructor ()
      ensures !shuttingDown && checkpoint == None
    {
      shuttingDown, checkpoint := false, None;
    }

    // `sent` are the transcripts of the model calls, in order: all well formed, one per round.
    method Execute(initial: Transcript, r: Run) returns (ending: Ending, sent: seq<Transcript>)
      requires checkpoint.Some? ==> checkpoint.value <= MAX_TOOL_ROUNDS
      modifies this
      ensures var t := Task(old(checkpoint), old(shuttingDown), 0);
              var res := Loop(StartRound(t, r), r.turns, old(shuttingDown));
              && ending == res.ending && StartRound(t, r) + |sent| == res.round
              && checkpoint == After(t, r).checkpoint && shuttingDown == res.down && |sent| == After(t, r).calls
      ensures forall k: nat | ReachesRound(Task(old(checkpoint), old(shuttingDown), 0), r, k) ::
                EndsAt(old(checkpoint), old(shuttingDown), r, k, ending, |sent|, checkpoint, shuttingDown)
      ensures checkpoint.Some? ==> checkpoint.value <= MAX_TOOL_ROUNDS
    {
      var resumeRound := if checkpoint.Some? && r.lookup.Readable? then checkpoint.value else 0;
      if r.lookup.Expired? {
        checkpoint := None;
      }
      LoopIsBounded(resumeRound, r.turns, shuttingDown);
      var round;
      ending, round, sent := RunRounds(initial, resumeRound, r.turns);
      match ending {
        case Completed => checkpoint := None;
        case Interrupted =>
          if r.saves {
            checkpoint := Some(round);
          }
        case Failed =>
      }
      ghost var t := Task(old(checkpoint), old(shuttingDown), 0);
      forall k: nat | ReachesRound(t, r, k)
        ensures EndsAt(old(checkpoint), old(shuttingDown), r, k, ending, |sent|, checkpoint, shuttingDown)
      {
        ExecutionEndsAt(t, r, k);
      }
    }

    method RunRounds(initial: Transcript, resumeRound: nat, turns: nat -> Turn)
      returns (ending: Ending, round: nat, sent: seq<Transcript>)
      requires resumeRound <= MAX_TOOL_ROUNDS
      modifies this`shuttingDown
      ensures Result(ending, round, shuttingDown) == Loop(resumeRound, turns, old(shuttingDown))
      ensures resumeRound + |sent| == round
      ensures sent != [] ==> sent[0] == initial
      ensures forall i | 0 < i < |sent| :: AnsweredIn(sent[i - 1], sent[i], turns(resumeRound + i - 1))
    {
      var messages: Transcript := initial;
      round, sent := resumeRound, [];
      while round < MAX_TOOL_ROUNDS
        invariant resumeRound <= round <= MAX_TOOL_ROUNDS && resumeRound + |sent| == round
        invariant if sent == [] then messages == initial else sent[0] == initial
        invariant Loop(round, turns, shuttingDown) == Loop(resumeRound, turns, old(shuttingDown))
        invariant forall i | 0 < i < |sent| :: AnsweredIn(sent[i - 1], sent[i], turns(resumeRound + i - 1))
        invariant sent != [] ==> AnsweredIn(sent[|sent| - 1], messages, turns(round - 1))
      {
        var turn := turns(round);
        if turn.Aborted? {
          return Failed, round, sent;
        }
        round := round + 1;
        sent := sent + [messages];
        if turn.ChatFails? {
          return Failed, round, sent;
        }
        shuttingDown := shuttingDown || turn.sigterm;
        if turn.calls == [] {
          return Completed, round, sent;
        }
        var thrown;
        thrown, messages := PushBlock(messages, turn);
        if thrown {
          return Failed, round, sent;
        }
        if shuttingDown {
          shuttingDown := false;
          return Interrupted, round, sent;
        }
      }
      ending := Completed;
    }

    // The assistant message, then one result per tool call until one of them throws.
    method PushBlock(messages: Transcript, turn: Turn) returns (thrown: bool, next: Transcript)
      requires turn.Answer?
      ensures thrown <==> turn.throwsAt.Some? && turn.throwsAt.value < |turn.calls|
      ensures if thrown then next == messages else AnsweredIn(messages, next, turn)
      ensures !thrown ==>
                && next[|messages|] == Assistant(turn.content, turn.calls)
                && forall i | 0 <= i < |turn.calls| && i < |turn.results| ::
                     next[|messages| + 1 + i] == Tool(turn.calls[i], turn.results[i])
    {
      var pushed := messages + [Assistant(turn.content, turn.calls)];
      for i := 0 to |turn.calls|
        invariant messages <= pushed && Block(pushed[|messages|..], turn, i)
        invariant turn.throwsAt.Some? ==> turn.throwsAt.value >= i
      {
        if turn.throwsAt == Some(i) {
          return true, messages;     // the broken transcript is never sent
        }
        var content := if i < |turn.results| then turn.results[i] else "";
        ghost var block := pushed[|messages|..];
        pushed := pushed + [Tool(turn.calls[i], content)];
        assert pushed[|messages|..] == block + [Tool(turn.calls[i], content)];
      }
      CompleteBlockKeepsWellFormed(messages, pushed[|messages|..], turn);
      BlockAnswers(messages, pushed[|messages|..], turn);
      assert messages + pushed[|messages|..] == pushed;
      thrown, next := false, pushed;
    }
  }
}
