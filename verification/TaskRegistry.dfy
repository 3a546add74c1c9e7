/**
  The task registry kept in Redis: one hash per task and one sorted set per agent listing the
  agent's tasks by creation time.  Hash and set expire 72 hours after the last write that touches
  them.  Operations run one at a time; an operation happens at one instant `now`, in milliseconds,
  except where the commands of a store are given their own times.  What Redis leaves open (the
  order of equal scores, how often a scan repeats a key) and the generated ids are inputs.
 */
module TaskRegistry {
  import opened Common

  const TASK_TTL_MS := 72 * 60 * 60 * 1000

  datatype Status = Pending | InProgress | Completed | Failed | Stuck
  datatype Priority = P0 | P1 | P2
  datatype Review = ReviewPending | Approved | ChangesRequested

  datatype TaskRecord = TaskRecord(
    id: string, agent: string, task: string, status: Status, priority: Priority,
    issueNumber: Option<int>, prNumber: Option<int>, reviewStatus: Option<Review>,
    createdAt: int, updatedAt: int, completedAt: Option<int>)

  // ---------------------------------------------------------------- records as hash fields

  datatype Field =
    | IdField | AgentField | TaskField | StatusField | PriorityField | CreatedField | UpdatedField
    | IssueField | PrField | ReviewField | CompletedField

  // A field's value before it is written out as a string (see TaskWire).
  datatype Value = Text(text: string) | Number(number: int) | OfStatus(status: Status)
                 | OfPriority(priority: Priority) | OfReview(review: Review)

  type Fields = map<Field, Value>

  // Whether a store writes the field: an absent option writes nothing.
  predicate Writes(r: TaskRecord, f: Field) {
    match f
    case IssueField => r.issueNumber.Some?
    case PrField => r.prNumber.Some?
    case ReviewField => r.reviewStatus.Some?
    case CompletedField => r.completedAt.Some?
    case _ => true
  }

  function Written(r: TaskRecord, f: Field): Value
    requires Writes(r, f)
  {
    match f
    case IdField => Text(r.id)
    case AgentField => Text(r.agent)
    case TaskField => Text(r.task)
    case StatusField => OfStatus(r.status)
    case PriorityField => OfPriority(r.priority)
    case CreatedField => Number(r.createdAt)
    case UpdatedField => Number(r.updatedAt)
    case IssueField => Number(r.issueNumber.value)
    case PrField => Number(r.prNumber.value)
    case ReviewField => OfReview(r.reviewStatus.value)
    case CompletedField => Number(r.completedAt.value)
  }

  function Encode(r: TaskRecord): Fields {
    map f: Field | Writes(r, f) :: Written(r, f)
  }

  function TextOf(h: Fields, f: Field): string {
    if f in h && h[f].Text? then h[f].text else ""
  }

  function NumberOf(h: Fields, f: Field): Option<int> {
    if f in h && h[f].Number? then Some(h[f].number) else None
  }

  function IntOf(h: Fields, f: Field): int {
    var n := NumberOf(h, f);
    if n.Some? then n.value else 0
  }

  function Decode(h: Fields): TaskRecord {
    TaskRecord(
      TextOf(h, IdField), TextOf(h, AgentField), TextOf(h, TaskField),
      if StatusField in h && h[StatusField].OfStatus? then h[StatusField].status else Pending,
      if PriorityField in h && h[PriorityField].OfPriority? then h[PriorityField].priority else P2,
      NumberOf(h, IssueField), NumberOf(h, PrField),
      if ReviewField in h && h[ReviewField].OfReview? then Some(h[ReviewField].review) else None,
      IntOf(h, CreatedField), IntOf(h, UpdatedField), NumberOf(h, CompletedField))
  }

  // No option that was set is missing.
  predicate KeepsOptions(before: TaskRecord, after: TaskRecord) {
    && (before.issueNumber.Some? ==> after.issueNumber.Some?)
    && (before.prNumber.Some? ==> after.prNumber.Some?)
    && (before.reviewStatus.Some? ==> after.reviewStatus.Some?)
    && (before.completedAt.Some? ==> after.completedAt.Some?)
  }

  lemma DecodeEncode(r: TaskRecord)
    ensures Decode(Encode(r)) == r
  {
  }

  lemma KeptOptionsAreWritten(before: TaskRecord, after: TaskRecord)
    requires KeepsOptions(before, after)
    ensures Encode(before) + Encode(after) == Encode(after)
  {
    assert forall f: Field :: Writes(before, f) ==> Writes(after, f);
  }

  // An option that was cleared comes back from the older record.
  lemma ClearedOptionsComeBack(before: TaskRecord, after: TaskRecord)
    requires !KeepsOptions(before, after)
    ensures Decode(Encode(before) + Encode(after)) != after
  {
    var merged := Encode(before) + Encode(after);
    if before.issueNumber.Some? && after.issueNumber.None? {
      assert merged[IssueField] == Number(before.issueNumber.value);
    } else if before.prNumber.Some? && after.prNumber.None? {
      assert merged[PrField] == Number(before.prNumber.value);
    } else if before.reviewStatus.Some? && after.reviewStatus.None? {
      assert merged[ReviewField] == OfReview(before.reviewStatus.value);
    } else {
      assert merged[CompletedField] == Number(before.completedAt.value);
    }
  }

  /** Writing a record over an older one reads back as the new record exactly when no option was cleared. */
  lemma MergedWriteReadsBackIff(before: TaskRecord, after: TaskRecord)
    ensures Decode(Encode(before) + Encode(after)) == after <==> KeepsOptions(before, after)
  {
    DecodeEncode(after);
    if KeepsOptions(before, after) {
      KeptOptionsAreWritten(before, after);
    } else {
      ClearedOptionsComeBack(before, after);
    }
  }

  // ---------------------------------------------------------------- Redis

  // A key without a deadline does not expire.
  datatype Hash = Hash(fields: Fields, deadline: Option<nat>)
  datatype SortedSet = SortedSet(scores: map<string, int>, deadline: Option<nat>)
  datatype Db = Db(tasks: map<string, Hash>, index: map<string, SortedSet>)

  predicate Before(now: nat, deadline: Option<nat>) {
    deadline.None? || now < deadline.value
  }

  predicate TaskLive(db: Db, id: string, now: nat) {
    id in db.tasks && Before(now, db.tasks[id].deadline)
  }

  predicate IndexLive(db: Db, agent: string, now: nat) {
    agent in db.index && Before(now, db.index[agent].deadline)
  }

  function HSet(db: Db, id: string, fields: Fields, now: nat): Db {
    db.(tasks := db.tasks[id := if TaskLive(db, id, now) then Hash(db.tasks[id].fields + fields, db.tasks[id].deadline)
                                else Hash(fields, None)])
  }

  function ExpireTask(db: Db, id: string, now: nat): Db {
    if TaskLive(db, id, now) then db.(tasks := db.tasks[id := Hash(db.tasks[id].fields, Some(now + TASK_TTL_MS))]) else db
  }

  function ZAdd(db: Db, agent: string, id: string, score: int, now: nat): Db {
    db.(index := db.index[agent := if IndexLive(db, agent, now)
                                   then SortedSet(db.index[agent].scores[id := score], db.index[agent].deadline)
                                   else SortedSet(map[id := score], None)])
  }

  function ExpireIndex(db: Db, agent: string, now: nat): Db {
    if IndexLive(db, agent, now)
    then db.(index := db.index[agent := SortedSet(db.index[agent].scores, Some(now + TASK_TTL_MS))]) else db
  }

  // The four commands of a store, each at its own time.
  function StoreAt(db: Db, r: TaskRecord, t1: nat, t2: nat, t3: nat, t4: nat): Db {
    ExpireIndex(ZAdd(ExpireTask(HSet(db, r.id, Encode(r), t1), r.id, t2), r.agent, r.id, r.createdAt, t3), r.agent, t4)
  }

  function Store(db: Db, r: TaskRecord, now: nat): Db {
    StoreAt(db, r, now, now, now, now)
  }

  function Stored(db: Db, id: string): TaskRecord
    requires id in db.tasks
  {
    Decode(db.tasks[id].fields)
  }

  function Load(db: Db, id: string, now: nat): Option<TaskRecord> {
    if TaskLive(db, id, now) then Some(Stored(db, id)) else None
  }

  // ---------------------------------------------------------------- the index agrees with the tasks

  predicate Terminal(s: Status) {
    s == Completed || s == Failed
  }

  // The task is in its agent's set with its creation time, and the set outlives the task.
  ghost predicate Listed(db: Db, id: string)
    requires id in db.tasks
  {
    var r := Stored(db, id);
    && r.id == id
    && db.tasks[id].fields == Encode(r)
    && r.agent in db.index
    && id in db.index[r.agent].scores
    && db.index[r.agent].scores[id] == r.createdAt
    && db.tasks[id].deadline.Some? && db.index[r.agent].deadline.Some?
    && db.tasks[id].deadline.value <= db.index[r.agent].deadline.value
  }

  ghost predicate AllListed(db: Db, now: nat) {
    forall id | TaskLive(db, id, now) :: Listed(db, id)
  }

  // A set lists no live task of another agent.
  ghost predicate AllBelong(db: Db, now: nat) {
    forall agent, id | IndexLive(db, agent, now) && id in db.index[agent].scores && TaskLive(db, id, now) ::
      Stored(db, id).agent == agent
  }

  ghost predicate AllTerminalDated(db: Db, now: nat) {
    forall id | TaskLive(db, id, now) :: Terminal(Stored(db, id).status) ==> Stored(db, id).completedAt.Some?
  }

  // Nothing lives longer than a write at this instant would make it live.
  ghost predicate WithinTtl(db: Db, id: string, now: nat) {
    id in db.tasks && db.tasks[id].deadline.Some? && db.tasks[id].deadline.value <= now + TASK_TTL_MS
  }

  ghost predicate AllWithinTtl(db: Db, now: nat) {
    forall id | TaskLive(db, id, now) :: WithinTtl(db, id, now)
  }

  ghost predicate Agrees(db: Db, now: nat) {
    AllListed(db, now) && AllBelong(db, now) && AllTerminalDated(db, now) && AllWithinTtl(db, now)
  }

  lemma TimePasses(db: Db, now: nat, later: nat)
    requires Agrees(db, now) && now <= later
    ensures Agrees(db, later)
  {
    assert forall id | TaskLive(db, id, later) :: TaskLive(db, id, now) && WithinTtl(db, id, now);
    assert forall agent | IndexLive(db, agent, later) :: IndexLive(db, agent, now);
  }

  ghost predicate Unused(db: Db, id: string) {
    id !in db.tasks && forall agent | agent in db.index :: id !in db.index[agent].scores
  }

  // What the operations store: a new record, or a change to a loaded one that clears nothing, whose
  // hash may have run out since.  No other agent's set lists it.
  ghost predicate Storable(db: Db, r: TaskRecord, now: nat) {
    && (Terminal(r.status) ==> r.completedAt.Some?)
    && (forall agent | IndexLive(db, agent, now) && r.id in db.index[agent].scores :: agent == r.agent)
    && (TaskLive(db, r.id, now) ==>
          Stored(db, r.id).agent == r.agent && Stored(db, r.id).createdAt == r.createdAt && KeepsOptions(Stored(db, r.id), r))
  }

  // A key alive at `since` that has expired at `later`.
  predicate Lapses(deadline: Option<nat>, since: nat, later: nat) {
    Before(since, deadline) && !Before(later, deadline)
  }

  predicate TaskLapses(db: Db, id: string, since: nat, later: nat) {
    id in db.tasks && Lapses(db.tasks[id].deadline, since, later)
  }

  predicate IndexLapses(db: Db, agent: string, since: nat, later: nat) {
    agent in db.index && Lapses(db.index[agent].deadline, since, later)
  }

  // HSET then EXPIRE: a hash that lapses in between keeps its old deadline.
  lemma TaskCommandsWrite(db: Db, r: TaskRecord, t1: nat, t2: nat)
    requires Agrees(db, t1) && Storable(db, r, t1) && t1 <= t2
    ensures var deadline := if TaskLapses(db, r.id, t1, t2) then db.tasks[r.id].deadline else Some(t2 + TASK_TTL_MS);
            ExpireTask(HSet(db, r.id, Encode(r), t1), r.id, t2) == db.(tasks := db.tasks[r.id := Hash(Encode(r), deadline)])
  {
    if TaskLive(db, r.id, t1) {
      assert Listed(db, r.id);
      KeptOptionsAreWritten(Stored(db, r.id), r);
    }
  }

  // The agent's scores as ZADD finds them.
  function ScoresAt(db: Db, agent: string, now: nat): map<string, int> {
    if IndexLive(db, agent, now) then db.index[agent].scores else map[]
  }

  // ZADD then EXPIRE.
  lemma IndexCommandsWrite(db: Db, agent: string, id: string, score: int, t3: nat, t4: nat)
    requires t3 <= t4
    ensures var deadline := if IndexLapses(db, agent, t3, t4) then db.index[agent].deadline else Some(t4 + TASK_TTL_MS);
            ExpireIndex(ZAdd(db, agent, id, score, t3), agent, t4)
            == db.(index := db.index[agent := SortedSet(ScoresAt(db, agent, t3)[id := score], deadline)])
  {
  }

  // The outcome of a store: the record alone in its hash, the agent's set with the record listed.
  function After(db: Db, r: TaskRecord, now: nat): Db {
    Db(db.tasks[r.id := Hash(Encode(r), Some(now + TASK_TTL_MS))],
       db.index[r.agent := SortedSet(ScoresAt(db, r.agent, now)[r.id := r.createdAt], Some(now + TASK_TTL_MS))])
  }

  lemma StoreWrites(db: Db, r: TaskRecord, now: nat)
    requires Agrees(db, now) && Storable(db, r, now)
    ensures Store(db, r, now) == After(db, r, now)
  {
    TaskCommandsWrite(db, r, now, now);
    IndexCommandsWrite(ExpireTask(HSet(db, r.id, Encode(r), now), r.id, now), r.agent, r.id, r.createdAt, now, now);
  }

  lemma StoredIsListed(db: Db, r: TaskRecord, now: nat)
    ensures Listed(After(db, r, now), r.id)
  {
    DecodeEncode(r);
  }

  lemma OthersStayListed(db: Db, r: TaskRecord, id: string, now: nat)
    requires id != r.id && TaskLive(db, id, now) && Listed(db, id) && WithinTtl(db, id, now)
    ensures Listed(After(db, r, now), id)
  {
    var owner := Stored(db, id).agent;
    assert IndexLive(db, owner, now);
    assert Stored(After(db, r, now), id) == Stored(db, id);
  }

  lemma AfterKeepsListed(db: Db, r: TaskRecord, now: nat)
    requires AllListed(db, now) && AllWithinTtl(db, now)
    ensures AllListed(After(db, r, now), now)
    ensures AllWithinTtl(After(db, r, now), now)
  {
    var after := After(db, r, now);
    forall id | TaskLive(after, id, now)
      ensures Listed(after, id)
    {
      if id == r.id {
        StoredIsListed(db, r, now);
      } else {
        assert TaskLive(db, id, now);
        assert WithinTtl(db, id, now);
        OthersStayListed(db, r, id, now);
      }
    }
    forall id | TaskLive(after, id, now)
      ensures WithinTtl(after, id, now)
    {
      assert id != r.id ==> TaskLive(db, id, now) && WithinTtl(db, id, now);
    }
  }

  lemma AfterKeepsBelong(db: Db, r: TaskRecord, now: nat)
    requires Agrees(db, now) && Storable(db, r, now)
    ensures AllBelong(After(db, r, now), now)
  {
    DecodeEncode(r);
    var after := After(db, r, now);
    forall agent, id | IndexLive(after, agent, now) && id in after.index[agent].scores && TaskLive(after, id, now)
      ensures Stored(after, id).agent == agent
    {
      if id != r.id {
        assert TaskLive(db, id, now);
        assert IndexLive(db, agent, now) && id in db.index[agent].scores;
      }
    }
  }

  lemma AfterLoads(db: Db, r: TaskRecord, now: nat)
    ensures Load(After(db, r, now), r.id, now) == Some(r)
    ensures forall id | id != r.id :: Load(After(db, r, now), id, now) == Load(db, id, now)
  {
    DecodeEncode(r);
  }

  lemma AfterKeepsDated(db: Db, r: TaskRecord, now: nat)
    requires AllTerminalDated(db, now) && (Terminal(r.status) ==> r.completedAt.Some?)
    ensures AllTerminalDated(After(db, r, now), now)
  {
    DecodeEncode(r);
    var after := After(db, r, now);
    forall id | TaskLive(after, id, now)
      ensures Terminal(Stored(after, id).status) ==> Stored(after, id).completedAt.Some?
    {
      assert id != r.id ==> TaskLive(db, id, now);
    }
  }

  /** Storing keeps index and tasks in agreement, is read back, and touches no other task. */
  lemma StoreKeepsAgreement(db: Db, r: TaskRecord, now: nat)
    requires Agrees(db, now) && Storable(db, r, now)
    ensures Agrees(Store(db, r, now), now)
    ensures Load(Store(db, r, now), r.id, now) == Some(r)
    ensures forall id | id != r.id :: Load(Store(db, r, now), id, now) == Load(db, id, now)
  {
    StoreWrites(db, r, now);
    AfterKeepsListed(db, r, now);
    AfterKeepsBelong(db, r, now);
    AfterKeepsDated(db, r, now);
    AfterLoads(db, r, now);
  }

  /** A store gives the task and its agent's set 72 hours from then on, and lists the task by its time of creation. */
  lemma StoreRenews(db: Db, r: TaskRecord, now: nat)
    requires Agrees(db, now) && Storable(db, r, now)
    ensures var end := Store(db, r, now);
            && r.id in end.tasks && end.tasks[r.id].deadline == Some(now + 259_200_000)
            && r.agent in end.index && end.index[r.agent].deadline == Some(now + 259_200_000)
            && r.id in end.index[r.agent].scores && end.index[r.agent].scores[r.id] == r.createdAt
  {
    StoreWrites(db, r, now);
  }

  // ---------------------------------------------------------------- a store whose commands are spread over time

  lemma SpreadStoreWrites(db: Db, r: TaskRecord, t1: nat, t2: nat, t3: nat, t4: nat)
    requires Agrees(db, t1) && Storable(db, r, t1) && t1 <= t2 <= t3 <= t4
    ensures var taskDeadline := if TaskLapses(db, r.id, t1, t2) then db.tasks[r.id].deadline else Some(t2 + TASK_TTL_MS);
            var setDeadline := if IndexLapses(db, r.agent, t3, t4) then db.index[r.agent].deadline else Some(t4 + TASK_TTL_MS);
            StoreAt(db, r, t1, t2, t3, t4)
            == Db(db.tasks[r.id := Hash(Encode(r), taskDeadline)],
                  db.index[r.agent := SortedSet(ScoresAt(db, r.agent, t3)[r.id := r.createdAt], setDeadline)])
  {
    TaskCommandsWrite(db, r, t1, t2);
    IndexCommandsWrite(ExpireTask(HSet(db, r.id, Encode(r), t1), r.id, t2), r.agent, r.id, r.createdAt, t3, t4);
  }

  // Whether the record is gone at the end: its old hash ran out before EXPIRE, or its new one since.
  predicate Gone(db: Db, r: TaskRecord, t1: nat, t2: nat, t4: nat) {
    TaskLapses(db, r.id, t1, t2) || t2 + TASK_TTL_MS <= t4
  }

  // The store's own task, at the end.
  lemma SpreadStoreOwnTask(db: Db, r: TaskRecord, t1: nat, t2: nat, t3: nat, t4: nat)
    requires Agrees(db, t1) && Storable(db, r, t1) && t1 <= t2 <= t3 <= t4
    ensures var end := StoreAt(db, r, t1, t2, t3, t4);
            && Load(end, r.id, t4) == (if Gone(db, r, t1, t2, t4) then None else Some(r))
            && (TaskLive(end, r.id, t4) ==> (Listed(end, r.id) <==> !IndexLapses(db, r.agent, t3, t4)) && WithinTtl(end, r.id, t4))
  {
    SpreadStoreWrites(db, r, t1, t2, t3, t4);
    DecodeEncode(r);
  }

  lemma SpreadStoreOtherTask(db: Db, r: TaskRecord, id: string, t1: nat, t2: nat, t3: nat, t4: nat)
    requires Agrees(db, t1) && Storable(db, r, t1) && t1 <= t2 <= t3 <= t4
    requires id != r.id && TaskLive(StoreAt(db, r, t1, t2, t3, t4), id, t4)
    ensures var end := StoreAt(db, r, t1, t2, t3, t4);
            && TaskLive(db, id, t1) && Stored(end, id) == Stored(db, id)
            && Listed(end, id) && WithinTtl(end, id, t4)
  {
    SpreadStoreWrites(db, r, t1, t2, t3, t4);
    var end := StoreAt(db, r, t1, t2, t3, t4);
    assert TaskLive(db, id, t1) && Listed(db, id) && WithinTtl(db, id, t1);
    assert Stored(end, id) == Stored(db, id);
    assert IndexLive(db, Stored(db, id).agent, t4);
  }

  lemma SpreadStoreKeepsBelong(db: Db, r: TaskRecord, t1: nat, t2: nat, t3: nat, t4: nat)
    requires Agrees(db, t1) && Storable(db, r, t1) && t1 <= t2 <= t3 <= t4
    ensures AllBelong(StoreAt(db, r, t1, t2, t3, t4), t4)
  {
    SpreadStoreWrites(db, r, t1, t2, t3, t4);
    DecodeEncode(r);
    var end := StoreAt(db, r, t1, t2, t3, t4);
    forall agent, id | IndexLive(end, agent, t4) && id in end.index[agent].scores && TaskLive(end, id, t4)
      ensures Stored(end, id).agent == agent
    {
      if agent != r.agent {
        assert IndexLive(db, agent, t1) && id in db.index[agent].scores;
      } else if id != r.id {
        assert IndexLive(db, agent, t1) && id in db.index[agent].scores;
      }
      if id != r.id {
        assert TaskLive(db, id, t1);
      }
    }
  }

  lemma SpreadStoreKeepsDated(db: Db, r: TaskRecord, t1: nat, t2: nat, t3: nat, t4: nat)
    requires Agrees(db, t1) && Storable(db, r, t1) && t1 <= t2 <= t3 <= t4
    ensures AllTerminalDated(StoreAt(db, r, t1, t2, t3, t4), t4)
  {
    var end := StoreAt(db, r, t1, t2, t3, t4);
    SpreadStoreOwnTask(db, r, t1, t2, t3, t4);
    forall id | TaskLive(end, id, t4)
      ensures Terminal(Stored(end, id).status) ==> Stored(end, id).completedAt.Some?
    {
      if id == r.id {
        assert Load(end, id, t4) == Some(r);
      } else {
        SpreadStoreOtherTask(db, r, id, t1, t2, t3, t4);
      }
    }
  }

  /**
    When time passes between the commands of a store, the record is there at the end unless its hash
    ran out; and index and tasks still agree exactly when it did, or the agent's set did not run out
    between ZADD and its EXPIRE.
   */
  lemma SpreadStoreAgreesIff(db: Db, r: TaskRecord, t1: nat, t2: nat, t3: nat, t4: nat)
    requires Agrees(db, t1) && Storable(db, r, t1) && t1 <= t2 <= t3 <= t4
    ensures Load(StoreAt(db, r, t1, t2, t3, t4), r.id, t4) == (if Gone(db, r, t1, t2, t4) then None else Some(r))
    ensures Agrees(StoreAt(db, r, t1, t2, t3, t4), t4) <==> Gone(db, r, t1, t2, t4) || !IndexLapses(db, r.agent, t3, t4)
  {
    SpreadStoreOwnTask(db, r, t1, t2, t3, t4);
    SpreadStoreKeepsBelong(db, r, t1, t2, t3, t4);
    SpreadStoreKeepsDated(db, r, t1, t2, t3, t4);
    var end := StoreAt(db, r, t1, t2, t3, t4);
    forall id | id != r.id && TaskLive(end, id, t4)
      ensures Listed(end, id) && WithinTtl(end, id, t4)
    {
      SpreadStoreOtherTask(db, r, id, t1, t2, t3, t4);
    }
  }

  // Stores one after the other, each with the times of its commands.
  datatype Timed = Timed(r: TaskRecord, t1: nat, t2: nat, t3: nat, t4: nat)

  function Apply(db: Db, w: Timed): Db {
    StoreAt(db, w.r, w.t1, w.t2, w.t3, w.t4)
  }

  // What the program stores, in time.
  ghost predicate Feasible(db: Db, clock: nat, ws: seq<Timed>)
    decreases ws
  {
    ws == [] ||
    (clock <= ws[0].t1 <= ws[0].t2 <= ws[0].t3 <= ws[0].t4 && Storable(db, ws[0].r, ws[0].t1)
     && Feasible(Apply(db, ws[0]), ws[0].t4, ws[1..]))
  }

  ghost predicate AgreesThroughout(db: Db, ws: seq<Timed>)
    decreases ws
  {
    ws == [] || (Agrees(Apply(db, ws[0]), ws[0].t4) && AgreesThroughout(Apply(db, ws[0]), ws[1..]))
  }

  predicate NoSetLapses(db: Db, ws: seq<Timed>)
    decreases ws
  {
    ws == [] ||
    var w := ws[0];
    (Gone(db, w.r, w.t1, w.t2, w.t4) || !IndexLapses(db, w.r.agent, w.t3, w.t4)) && NoSetLapses(Apply(db, w), ws[1..])
  }

  /** Over any run of stores, index and tasks agree after every one of them exactly when no set runs out under a store. */
  lemma {:induction false} TimedStoresAgreeIff(db: Db, clock: nat, ws: seq<Timed>)
    requires Agrees(db, clock) && Feasible(db, clock, ws)
    ensures AgreesThroughout(db, ws) <==> NoSetLapses(db, ws)
    decreases ws
  {
    if ws != [] {
      var w := ws[0];
      TimePasses(db, clock, w.t1);
      SpreadStoreAgreesIff(db, w.r, w.t1, w.t2, w.t3, w.t4);
      if Agrees(Apply(db, w), w.t4) {
        TimedStoresAgreeIff(Apply(db, w), w.t4, ws[1..]);
      }
    }
  }

  function Plain(id: string, agent: string, now: nat): TaskRecord {
    TaskRecord(id, agent, "task", Pending, P2, None, None, None, now, now, None)
  }

  // One task stored at time 0, then another of the same agent whose ZADD meets the set in its last
  // millisecond: the second task is there and its agent's set is not.
  lemma SetLapsesUnderAStore(agent: string)
    ensures var db := Store(Db(map[], map[]), Plain("a", agent, 0), 0);
            var end := StoreAt(db, Plain("b", agent, TASK_TTL_MS - 1), TASK_TTL_MS - 1, TASK_TTL_MS - 1, TASK_TTL_MS - 1, TASK_TTL_MS);
            && Agrees(db, TASK_TTL_MS - 1) && Storable(db, Plain("b", agent, TASK_TTL_MS - 1), TASK_TTL_MS - 1)
            && TaskLive(end, "b", TASK_TTL_MS) && !Agrees(end, TASK_TTL_MS) && !IndexLive(end, agent, TASK_TTL_MS)
  {
    var none, a, b, t := Db(map[], map[]), Plain("a", agent, 0), Plain("b", agent, TASK_TTL_MS - 1), TASK_TTL_MS - 1;
    assert Agrees(none, 0) && Storable(none, a, 0);
    StoreKeepsAgreement(none, a, 0);
    StoreWrites(none, a, 0);
    var db := After(none, a, 0);
    TimePasses(db, 0, t);
    SpreadStoreAgreesIff(db, b, t, t, t, t + 1);
    SpreadStoreWrites(db, b, t, t, t, t + 1);
  }

  // ---------------------------------------------------------------- reading one agent's tasks

  predicate Distinct(ids: seq<string>) {
    forall i, j :: 0 <= i < j < |ids| ==> ids[i] != ids[j]
  }

  ghost predicate Descending(scores: map<string, int>, ids: seq<string>) {
    forall i, j :: 0 <= i < j < |ids| && ids[i] in scores && ids[j] in scores ==> scores[ids[i]] >= scores[ids[j]]
  }

  // What ZREVRANGE may answer: the live members, highest score first.
  ghost predicate RevRange(db: Db, agent: string, now: nat, ids: seq<string>) {
    var scores := ScoresAt(db, agent, now);
    && Distinct(ids)
    && (forall id :: id in ids <==> id in scores)
    && Descending(scores, ids)
  }

  function Loads(db: Db, ids: seq<string>, now: nat): seq<TaskRecord> {
    if ids == [] then []
    else (if TaskLive(db, ids[0], now) then [Stored(db, ids[0])] else []) + Loads(db, ids[1..], now)
  }

  predicate DistinctIds(records: seq<TaskRecord>) {
    forall i, j :: 0 <= i < j < |records| ==> records[i].id != records[j].id
  }

  predicate NewestFirst(records: seq<TaskRecord>) {
    forall i, j :: 0 <= i < j < |records| ==> records[i].createdAt >= records[j].createdAt
  }

  lemma {:induction false} LoadsAreLive(db: Db, ids: seq<string>, now: nat)
    requires AllListed(db, now)
    ensures forall r | r in Loads(db, ids, now) :: r.id in ids && TaskLive(db, r.id, now) && r == Stored(db, r.id)
    ensures forall id | id in ids && TaskLive(db, id, now) :: Stored(db, id) in Loads(db, ids, now)
  {
    if ids != [] {
      LoadsAreLive(db, ids[1..], now);
      assert TaskLive(db, ids[0], now) ==> Listed(db, ids[0]);
    }
  }

  lemma {:induction false} LoadsAreDistinct(db: Db, ids: seq<string>, now: nat)
    requires AllListed(db, now) && Distinct(ids)
    ensures DistinctIds(Loads(db, ids, now))
  {
    if ids != [] {
      LoadsAreDistinct(db, ids[1..], now);
      LoadsAreLive(db, ids[1..], now);
      if TaskLive(db, ids[0], now) {
        assert Listed(db, ids[0]);
        assert forall id | id in ids[1..] :: id != ids[0];
      }
    }
  }

  lemma NewestFirstBefore(first: TaskRecord, rest: seq<TaskRecord>)
    requires NewestFirst(rest) && forall r | r in rest :: first.createdAt >= r.createdAt
    ensures NewestFirst([first] + rest)
  {
  }

  lemma {:induction false} LoadsAreNewestFirst(db: Db, ids: seq<string>, scores: map<string, int>, now: nat)
    requires AllListed(db, now) && Descending(scores, ids)
    requires forall id | id in ids && TaskLive(db, id, now) :: id in scores && scores[id] == Stored(db, id).createdAt
    ensures NewestFirst(Loads(db, ids, now))
  {
    if ids != [] {
      LoadsAreNewestFirst(db, ids[1..], scores, now);
      LoadsAreLive(db, ids[1..], now);
      if TaskLive(db, ids[0], now) {
        var first, rest := Stored(db, ids[0]), Loads(db, ids[1..], now);
        forall r | r in rest
          ensures first.createdAt >= r.createdAt
        {
          var j :| 1 <= j < |ids| && ids[j] == r.id;
        }
        NewestFirstBefore(first, rest);
      }
    }
  }

  // The agent's live tasks, as a plain scan of all hashes finds them.
  ghost predicate IsTaskOf(db: Db, agent: string, now: nat, r: TaskRecord) {
    TaskLive(db, r.id, now) && r == Stored(db, r.id) && r.agent == agent
  }

  /** Reading through the index finds exactly the agent's live tasks, each once, newest first. */
  lemma AgentReadIsScan(db: Db, agent: string, now: nat, ids: seq<string>)
    requires Agrees(db, now) && RevRange(db, agent, now, ids)
    ensures forall r :: r in Loads(db, ids, now) <==> IsTaskOf(db, agent, now, r)
    ensures DistinctIds(Loads(db, ids, now)) && NewestFirst(Loads(db, ids, now))
  {
    LoadsAreLive(db, ids, now);
    LoadsAreDistinct(db, ids, now);
    var scores := ScoresAt(db, agent, now);
    forall id | id in ids && TaskLive(db, id, now)
      ensures id in scores && scores[id] == Stored(db, id).createdAt && Stored(db, id).agent == agent
    {
      assert IndexLive(db, agent, now) && Listed(db, id);
    }
    LoadsAreNewestFirst(db, ids, scores, now);
    forall r | IsTaskOf(db, agent, now, r)
      ensures r in Loads(db, ids, now)
    {
      assert Listed(db, r.id);
      assert IndexLive(db, agent, now);
    }
  }

  // ---------------------------------------------------------------- lazy cleanup of one agent's set

  function DeadIds(db: Db, ids: seq<string>, now: nat): (r: seq<string>)
    ensures forall id :: id in r <==> id in ids && !TaskLive(db, id, now)
  {
    if ids == [] then [] else (if TaskLive(db, ids[0], now) then [] else [ids[0]]) + DeadIds(db, ids[1..], now)
  }

  function Unlist(members: SortedSet, ids: seq<string>): SortedSet {
    SortedSet(members.scores - (set id | id in ids), members.deadline)
  }

  // ZREM of the ids whose hash is gone; DEL of the set when no task was left.
  function Cleaned(db: Db, agent: string, ids: seq<string>, now: nat): Db {
    var dead := DeadIds(db, ids, now);
    if dead == [] || agent !in db.index then db
    else if Loads(db, ids, now) == [] then db.(index := db.index - {agent})
    else db.(index := db.index[agent := Unlist(db.index[agent], dead)])
  }

  lemma {:induction false} LoadsOneMore(db: Db, ids: seq<string>, id: string, now: nat)
    ensures Loads(db, ids + [id], now) == Loads(db, ids, now) + Loads(db, [id], now)
  {
    if ids == [] {
      assert ids + [id] == [id];
    } else {
      assert (ids + [id])[1..] == ids[1..] + [id];
      LoadsOneMore(db, ids[1..], id, now);
    }
  }

  lemma {:induction false} DeadOneMore(db: Db, ids: seq<string>, id: string, now: nat)
    ensures DeadIds(db, ids + [id], now) == DeadIds(db, ids, now) + DeadIds(db, [id], now)
  {
    if ids == [] {
      assert ids + [id] == [id];
    } else {
      assert (ids + [id])[1..] == ids[1..] + [id];
      DeadOneMore(db, ids[1..], id, now);
    }
  }

  lemma ReadOne(db: Db, id: string, now: nat)
    ensures Loads(db, [id], now) == if TaskLive(db, id, now) then [Stored(db, id)] else []
    ensures DeadIds(db, [id], now) == if TaskLive(db, id, now) then [] else [id]
  {
    assert [id][1..] == [];
  }

  // ZREM followed by DEL leaves what DEL alone would.
  lemma RemoveThenDelete(index: map<string, SortedSet>, agent: string, members: SortedSet)
    ensures index[agent := members] - {agent} == index - {agent}
  {
  }

  lemma CleanupKeepsListed(db: Db, agent: string, ids: seq<string>, now: nat)
    requires Agrees(db, now) && RevRange(db, agent, now, ids)
    ensures AllListed(Cleaned(db, agent, ids, now), now)
  {
    var after := Cleaned(db, agent, ids, now);
    LoadsAreLive(db, ids, now);
    forall id | TaskLive(after, id, now)
      ensures Listed(after, id)
    {
      assert Listed(db, id);
      assert Stored(after, id) == Stored(db, id);
      if Stored(db, id).agent == agent {
        assert IndexLive(db, agent, now) && id in ids;
        assert Stored(db, id) in Loads(db, ids, now);
        assert id !in DeadIds(db, ids, now);
      }
    }
  }

  // Every set alive after was alive before, with at least the same members.
  ghost predicate OnlyRemoves(before: Db, after: Db, now: nat) {
    forall a | IndexLive(after, a, now) :: IndexLive(before, a, now) && after.index[a].scores.Keys <= before.index[a].scores.Keys
  }

  lemma CleanupOnlyRemoves(db: Db, agent: string, ids: seq<string>, now: nat)
    requires Agrees(db, now) && RevRange(db, agent, now, ids)
    ensures Cleaned(db, agent, ids, now).tasks == db.tasks
    ensures OnlyRemoves(db, Cleaned(db, agent, ids, now), now)
    ensures forall other | other != agent :: ScoresAt(Cleaned(db, agent, ids, now), other, now) == ScoresAt(db, other, now)
  {
  }

  lemma CleanupKeepsUnused(db: Db, agent: string, ids: seq<string>, now: nat, id: string)
    requires Unused(db, id)
    ensures Unused(Cleaned(db, agent, ids, now), id)
  {
  }

  lemma CleanupKeepsAgreement(db: Db, agent: string, ids: seq<string>, now: nat)
    requires Agrees(db, now) && RevRange(db, agent, now, ids)
    ensures Agrees(Cleaned(db, agent, ids, now), now)
  {
    var after := Cleaned(db, agent, ids, now);
    CleanupKeepsListed(db, agent, ids, now);
    CleanupOnlyRemoves(db, agent, ids, now);
    forall id | TaskLive(after, id, now)
      ensures WithinTtl(after, id, now)
    {
      assert TaskLive(db, id, now) && WithinTtl(db, id, now);
    }
    forall a, id | IndexLive(after, a, now) && id in after.index[a].scores && TaskLive(after, id, now)
      ensures Stored(after, id).agent == a
    {
      assert IndexLive(db, a, now) && id in db.index[a].scores && TaskLive(db, id, now);
    }
    forall id | TaskLive(after, id, now)
      ensures Terminal(Stored(after, id).status) ==> Stored(after, id).completedAt.Some?
    {
      assert TaskLive(db, id, now);
    }
  }

  lemma CleanedSetHasNoDead(db: Db, agent: string, ids: seq<string>, now: nat, id: string)
    requires Agrees(db, now) && RevRange(db, agent, now, ids)
    requires id in ScoresAt(Cleaned(db, agent, ids, now), agent, now)
    ensures TaskLive(db, id, now) && Stored(db, id).agent == agent
  {
    assert id in ids;
    assert id !in DeadIds(db, ids, now);
  }

  /** Cleanup changes no task and no other agent's set, and leaves the set listing exactly the agent's live tasks. */
  lemma CleanupIsInvisible(db: Db, agent: string, ids: seq<string>, now: nat)
    requires Agrees(db, now) && RevRange(db, agent, now, ids)
    ensures Agrees(Cleaned(db, agent, ids, now), now)
    ensures Cleaned(db, agent, ids, now).tasks == db.tasks
    ensures forall other | other != agent :: ScoresAt(Cleaned(db, agent, ids, now), other, now) == ScoresAt(db, other, now)
    ensures forall id :: (id in ScoresAt(Cleaned(db, agent, ids, now), agent, now)
                          <==> TaskLive(db, id, now) && Stored(db, id).agent == agent)
  {
    var after := Cleaned(db, agent, ids, now);
    CleanupKeepsAgreement(db, agent, ids, now);
    CleanupOnlyRemoves(db, agent, ids, now);
    forall id | TaskLive(db, id, now) && Stored(db, id).agent == agent
      ensures id in ScoresAt(after, agent, now)
    {
      assert TaskLive(after, id, now);
      assert Listed(after, id) && Stored(after, id) == Stored(db, id);
    }
    forall id | id in ScoresAt(after, agent, now)
      ensures TaskLive(db, id, now) && Stored(db, id).agent == agent
    {
      CleanedSetHasNoDead(db, agent, ids, now, id);
    }
  }

  // ---------------------------------------------------------------- the record an update falls back to

  function FirstFor(records: seq<TaskRecord>, issue: int, unfinished: bool): Option<TaskRecord> {
    if records == [] then None
    else if records[0].issueNumber == Some(issue) && (unfinished ==> !Terminal(records[0].status)) then Some(records[0])
    else FirstFor(records[1..], issue, unfinished)
  }

  function FindFor(records: seq<TaskRecord>, issue: int): Option<TaskRecord> {
    var unfinished := FirstFor(records, issue, true);
    if unfinished.Some? then unfinished else FirstFor(records, issue, false)
  }

  predicate Fits(r: TaskRecord, issue: int, unfinished: bool) {
    r.issueNumber == Some(issue) && (unfinished ==> !Terminal(r.status))
  }

  ghost predicate IsNewest(best: TaskRecord, records: seq<TaskRecord>, issue: int, unfinished: bool) {
    && best in records && Fits(best, issue, unfinished)
    && forall r | r in records && Fits(r, issue, unfinished) :: r.createdAt <= best.createdAt
  }

  lemma {:induction false} FirstForIsNewest(records: seq<TaskRecord>, issue: int, unfinished: bool)
    requires NewestFirst(records)
    ensures var found := FirstFor(records, issue, unfinished);
            match found
            case None => forall r | r in records :: !Fits(r, issue, unfinished)
            case Some(best) => IsNewest(best, records, issue, unfinished)
  {
    if records != [] {
      var rest := records[1..];
      assert forall r | r in records :: r == records[0] || r in rest;
      assert forall r | r in rest :: r.createdAt <= records[0].createdAt;
      if !Fits(records[0], issue, unfinished) {
        FirstForIsNewest(rest, issue, unfinished);
      }
    }
  }

  // The newest live task of the agent for the issue.
  ghost predicate IsNewestOf(db: Db, agent: string, now: nat, issue: int, unfinished: bool, best: TaskRecord) {
    && IsTaskOf(db, agent, now, best) && Fits(best, issue, unfinished)
    && forall r | IsTaskOf(db, agent, now, r) && Fits(r, issue, unfinished) :: r.createdAt <= best.createdAt
  }

  ghost predicate NoTaskFits(db: Db, agent: string, now: nat, issue: int, unfinished: bool) {
    forall r | IsTaskOf(db, agent, now, r) :: !Fits(r, issue, unfinished)
  }

  /** The fallback picks the agent's newest live task for the issue, an unfinished one (stuck included) before a finished one. */
  lemma FallbackPicksNewest(db: Db, agent: string, now: nat, ids: seq<string>, issue: int)
    requires Agrees(db, now) && RevRange(db, agent, now, ids)
    ensures var found := FindFor(Loads(db, ids, now), issue);
            match found
            case None => NoTaskFits(db, agent, now, issue, false)
            case Some(best) =>
              if Terminal(best.status)
              then IsNewestOf(db, agent, now, issue, false, best) && NoTaskFits(db, agent, now, issue, true)
              else IsNewestOf(db, agent, now, issue, true, best)
  {
    var records := Loads(db, ids, now);
    AgentReadIsScan(db, agent, now, ids);
    FirstForIsNewest(records, issue, true);
    FirstForIsNewest(records, issue, false);
  }

  // Two tasks of one agent, stored one after the other, and how the index reads them.
  lemma OneStored(agent: string, a: TaskRecord) returns (db: Db)
    requires a.id == "a" && a.agent == agent && a.createdAt == 0 && !Terminal(a.status)
    ensures db == Store(Db(map[], map[]), a, 0) && Agrees(db, 1)
    ensures Load(db, "a", 1) == Some(a) && ScoresAt(db, agent, 1) == map["a" := 0]
    ensures db.tasks.Keys == {"a"} && db.index.Keys == {agent} && db.index[agent].scores == map["a" := 0]
  {
    var none := Db(map[], map[]);
    assert Agrees(none, 0) && Storable(none, a, 0);
    StoreKeepsAgreement(none, a, 0);
    StoreWrites(none, a, 0);
    db := After(none, a, 0);
    TimePasses(db, 0, 1);
  }

  lemma SecondStored(one: Db, agent: string, b: TaskRecord) returns (db: Db)
    requires b.id == "b" && b.agent == agent && b.createdAt == 1 && !Terminal(b.status) && Agrees(one, 1)
    requires one.tasks.Keys == {"a"} && one.index.Keys == {agent} && ScoresAt(one, agent, 1) == map["a" := 0]
    requires one.index[agent].scores == map["a" := 0]
    ensures db == Store(one, b, 1) && Agrees(db, 1)
    ensures Load(db, "a", 1) == Load(one, "a", 1) && Load(db, "b", 1) == Some(b)
    ensures ScoresAt(db, agent, 1) == map["a" := 0, "b" := 1]
  {
    assert Storable(one, b, 1);
    StoreKeepsAgreement(one, b, 1);
    StoreWrites(one, b, 1);
    db := After(one, b, 1);
  }

  lemma RevRangeOfTwo(db: Db, agent: string, now: nat)
    requires ScoresAt(db, agent, now) == map["a" := 0, "b" := 1]
    ensures RevRange(db, agent, now, ["b", "a"])
  {
  }

  lemma ReadTwo(db: Db, a: TaskRecord, b: TaskRecord, now: nat)
    requires Load(db, "a", now) == Some(a) && Load(db, "b", now) == Some(b)
    ensures Loads(db, ["b", "a"], now) == [b, a]
  {
    assert ["b", "a"][1..] == ["a"] && ["a"][1..] == [];
    assert Loads(db, ["a"], now) == [a];
  }

  lemma FindsFirst(first: TaskRecord, second: TaskRecord, issue: int)
    requires first.issueNumber == Some(issue) && !Terminal(first.status)
    ensures FindFor([first, second], issue) == Some(first)
  {
  }

  // Of a task in progress and a newer one marked stuck, both for the issue, the fallback picks the stuck one.
  lemma FallbackPicksStuck(agent: string, issue: int) returns (db: Db, stuck: TaskRecord)
    ensures stuck.status == Stuck && stuck.issueNumber == Some(issue) && Agrees(db, 1)
    ensures Load(db, "a", 1).Some? && Load(db, "a", 1).value.status == InProgress && Load(db, "a", 1).value.issueNumber == Some(issue)
    ensures RevRange(db, agent, 1, ["b", "a"]) && FindFor(Loads(db, ["b", "a"], 1), issue) == Some(stuck)
  {
    var working := Plain("a", agent, 0).(status := InProgress, issueNumber := Some(issue));
    stuck := Plain("b", agent, 1).(status := Stuck, issueNumber := Some(issue));
    var one := OneStored(agent, working);
    db := SecondStored(one, agent, stuck);
    RevRangeOfTwo(db, agent, 1);
    ReadTwo(db, working, stuck, 1);
    FindsFirst(stuck, working, issue);
  }

  // ---------------------------------------------------------------- reading every task

  datatype Answer = Answer(agent: string, ids: seq<string>)

  // A scan names every live set at least once, and each set named is read.
  ghost predicate Scanned(db: Db, now: nat, answers: seq<Answer>) {
    && (forall a | a in answers :: RevRange(db, a.agent, now, a.ids))
    && (forall agent | IndexLive(db, agent, now) :: exists a :: a in answers && a.agent == agent)
  }

  function Flatten(answers: seq<Answer>): seq<string> {
    if answers == [] then [] else answers[0].ids + Flatten(answers[1..])
  }

  // The ids met for the first time, in order.
  function FirstTime(ids: seq<string>, seen: set<string>): seq<string>
    decreases ids
  {
    if ids == [] then []
    else if ids[0] in seen then FirstTime(ids[1..], seen)
    else [ids[0]] + FirstTime(ids[1..], seen + {ids[0]})
  }

  lemma {:induction false} FirstTimeMeetsEach(ids: seq<string>, seen: set<string>)
    ensures forall id :: id in FirstTime(ids, seen) <==> id in ids && id !in seen
    ensures Distinct(FirstTime(ids, seen))
    decreases ids
  {
    if ids != [] {
      if ids[0] in seen {
        FirstTimeMeetsEach(ids[1..], seen);
      } else {
        FirstTimeMeetsEach(ids[1..], seen + {ids[0]});
      }
      assert forall id :: id in ids <==> id == ids[0] || id in ids[1..];
    }
  }

  lemma {:induction false} FlattenHolds(answers: seq<Answer>, a: Answer, id: string)
    requires a in answers && id in a.ids
    ensures id in Flatten(answers)
  {
    if a != answers[0] {
      FlattenHolds(answers[1..], a, id);
    }
  }

  function ReadAll(db: Db, answers: seq<Answer>, now: nat): seq<TaskRecord> {
    Loads(db, FirstTime(Flatten(answers), {}), now)
  }

  /** However often the scan repeats a key, every live task is read exactly once. */
  lemma FullReadIsScan(db: Db, answers: seq<Answer>, now: nat)
    requires Agrees(db, now) && Scanned(db, now, answers)
    ensures forall r :: r in ReadAll(db, answers, now) <==> TaskLive(db, r.id, now) && r == Stored(db, r.id)
    ensures DistinctIds(ReadAll(db, answers, now))
  {
    var ids := FirstTime(Flatten(answers), {});
    FirstTimeMeetsEach(Flatten(answers), {});
    LoadsAreLive(db, ids, now);
    LoadsAreDistinct(db, ids, now);
    forall r: TaskRecord | TaskLive(db, r.id, now) && r == Stored(db, r.id)
      ensures r in ReadAll(db, answers, now)
    {
      assert Listed(db, r.id) && IndexLive(db, r.agent, now);
      var a :| a in answers && a.agent == r.agent;
      assert RevRange(db, a.agent, now, a.ids);
      FlattenHolds(answers, a, r.id);
    }
  }

  // ---------------------------------------------------------------- stuck tasks

  const CODEGEN_TASK_NAMES := {
    "implement_issue", "implement_directive", "fix_ci_failure",
    "address_human_review", "address_review_feedback", "bootstrap_repo" }

  // The two thresholds, in milliseconds.
  datatype Limits = Limits(codegen: int, others: int)

  predicate IsStuck(r: TaskRecord, now: nat, limits: Limits) {
    r.status == InProgress && now - r.updatedAt > if r.task in CODEGEN_TASK_NAMES then limits.codegen else limits.others
  }

  function Marked(r: TaskRecord, now: nat, limits: Limits): TaskRecord {
    if IsStuck(r, now, limits) then r.(status := Stuck) else r
  }

  // A task in progress that was last updated longer ago than its threshold is stuck; nothing else changes.
  lemma MarkedMeans(r: TaskRecord, now: nat, limits: Limits)
    ensures var codegen := r.task in {"implement_issue", "implement_directive", "fix_ci_failure",
                                      "address_human_review", "address_review_feedback", "bootstrap_repo"};
            var overdue := r.status == InProgress && now > r.updatedAt + if codegen then limits.codegen else limits.others;
            Marked(r, now, limits) == if overdue then r.(status := Stuck) else r
  {
  }

  function MarkAll(db: Db, records: seq<TaskRecord>, now: nat, limits: Limits): Db {
    if records == [] then db
    else
      var done, last := MarkAll(db, records[..|records| - 1], now, limits), records[|records| - 1];
      if IsStuck(last, now, limits) then After(done, Marked(last, now, limits), now) else done
  }

  function MarkedAll(records: seq<TaskRecord>, now: nat, limits: Limits): (r: seq<TaskRecord>)
    ensures |r| == |records| && forall i | 0 <= i < |r| :: r[i] == Marked(records[i], now, limits)
  {
    if records == [] then []
    else MarkedAll(records[..|records| - 1], now, limits) + [Marked(records[|records| - 1], now, limits)]
  }

  ghost predicate AllLoaded(db: Db, records: seq<TaskRecord>, now: nat) {
    DistinctIds(records) && forall r | r in records :: Load(db, r.id, now) == Some(r)
  }

  lemma MarkOneKeeps(db: Db, r: TaskRecord, now: nat, limits: Limits)
    requires Agrees(db, now) && Load(db, r.id, now) == Some(r) && IsStuck(r, now, limits)
    ensures Storable(db, Marked(r, now, limits), now)
    ensures var next := After(db, Marked(r, now, limits), now);
            && Agrees(next, now)
            && Load(next, r.id, now) == Some(Marked(r, now, limits))
            && forall id | id != r.id :: Load(next, id, now) == Load(db, id, now)
  {
    StoreKeepsAgreement(db, Marked(r, now, limits), now);
    StoreWrites(db, Marked(r, now, limits), now);
  }

  ghost predicate MarksExactly(before: Db, after: Db, records: seq<TaskRecord>, now: nat, limits: Limits) {
    && (forall r | r in records :: Load(after, r.id, now) == Some(Marked(r, now, limits)))
    && (forall id | (forall r | r in records :: r.id != id) :: Load(after, id, now) == Load(before, id, now))
  }

  lemma MarkedOneMore(db: Db, done: Db, next: Db, init: seq<TaskRecord>, last: TaskRecord, now: nat, limits: Limits)
    requires DistinctIds(init + [last]) && MarksExactly(db, done, init, now, limits)
    requires Load(next, last.id, now) == Some(Marked(last, now, limits))
    requires forall id | id != last.id :: Load(next, id, now) == Load(done, id, now)
    ensures MarksExactly(db, next, init + [last], now, limits)
  {
    var records := init + [last];
    forall r | r in init
      ensures r.id != last.id
    {
      var i :| 0 <= i < |init| && init[i] == r;
      assert records[i] == r && records[|init|] == last;
    }
    assert last in records && forall r | r in init :: r in records;
  }

  /** Marking the tasks that were read changes those tasks and no other, and keeps index and tasks in agreement. */
  lemma {:induction false} MarkingKeepsAgreement(db: Db, records: seq<TaskRecord>, now: nat, limits: Limits)
    requires Agrees(db, now) && AllLoaded(db, records, now)
    ensures Agrees(MarkAll(db, records, now, limits), now)
    ensures MarksExactly(db, MarkAll(db, records, now, limits), records, now, limits)
  {
    if records != [] {
      var n := |records| - 1;
      var init, last := records[..n], records[n];
      assert records == init + [last];
      assert forall r | r in init :: r in records;
      MarkingKeepsAgreement(db, init, now, limits);
      var done := MarkAll(db, init, now, limits);
      assert forall r | r in init :: r.id != last.id;
      assert Load(done, last.id, now) == Load(db, last.id, now);
      if IsStuck(last, now, limits) {
        MarkOneKeeps(done, last, now, limits);
      }
      MarkedOneMore(db, done, MarkAll(db, records, now, limits), init, last, now, limits);
    }
  }

  ghost predicate NoneOverdue(db: Db, now: nat, limits: Limits) {
    forall id | TaskLive(db, id, now) :: !IsStuck(Stored(db, id), now, limits)
  }

  /** After a summary no live task is overdue and still in progress. */
  lemma SummaryLeavesNoneOverdue(db: Db, answers: seq<Answer>, now: nat, limits: Limits)
    requires Agrees(db, now) && Scanned(db, now, answers)
    ensures AllLoaded(db, ReadAll(db, answers, now), now)
    ensures NoneOverdue(MarkAll(db, ReadAll(db, answers, now), now, limits), now, limits)
  {
    var records := ReadAll(db, answers, now);
    FullReadIsScan(db, answers, now);
    MarkingKeepsAgreement(db, records, now, limits);
    var after := MarkAll(db, records, now, limits);
    forall id | TaskLive(after, id, now)
      ensures !IsStuck(Stored(after, id), now, limits)
    {
      assert TaskLive(db, id, now) by {
        if forall r | r in records :: r.id != id {
          assert Load(after, id, now) == Load(db, id, now);
        }
      }
      assert Listed(db, id);
      assert Load(after, id, now) == Some(Marked(Stored(db, id), now, limits));
    }
  }

  /** The marked records are exactly the live tasks afterwards. */
  lemma MarkedAreTheTasks(db: Db, answers: seq<Answer>, now: nat, limits: Limits)
    requires Agrees(db, now) && Scanned(db, now, answers)
    ensures var after := MarkAll(db, ReadAll(db, answers, now), now, limits);
            forall r :: (r in MarkedAll(ReadAll(db, answers, now), now, limits) <==> TaskLive(after, r.id, now) && r == Stored(after, r.id))
  {
    var records := ReadAll(db, answers, now);
    FullReadIsScan(db, answers, now);
    MarkingKeepsAgreement(db, records, now, limits);
    var after, marked := MarkAll(db, records, now, limits), MarkedAll(records, now, limits);
    forall r | r in marked
      ensures Load(after, r.id, now) == Some(r)
    {
      var i :| 0 <= i < |marked| && marked[i] == r;
      assert records[i] in records;
    }
    forall id | TaskLive(after, id, now)
      ensures Stored(after, id).id == id && Stored(after, id) in marked
    {
      MarkedTaskWasRead(db, answers, now, limits, id);
    }
  }

  lemma MarkedTaskWasRead(db: Db, answers: seq<Answer>, now: nat, limits: Limits, id: string)
    requires Agrees(db, now) && Scanned(db, now, answers)
    requires TaskLive(MarkAll(db, ReadAll(db, answers, now), now, limits), id, now)
    ensures var after := Stored(MarkAll(db, ReadAll(db, answers, now), now, limits), id);
            after.id == id && after in MarkedAll(ReadAll(db, answers, now), now, limits)
  {
    var records := ReadAll(db, answers, now);
    FullReadIsScan(db, answers, now);
    MarkingKeepsAgreement(db, records, now, limits);
    var after, marked := MarkAll(db, records, now, limits), MarkedAll(records, now, limits);
    assert TaskLive(db, id, now) by {
      if forall r | r in records :: r.id != id {
        assert Load(after, id, now) == Load(db, id, now);
      }
    }
    assert Listed(db, id);
    var i :| 0 <= i < |records| && records[i] == Stored(db, id);
    assert Load(after, id, now) == Some(marked[i]);
  }

  // ---------------------------------------------------------------- the counts of a summary

  // How many tasks each agent has in each status; a count is there once it is positive.
  type Counts = map<(string, Status), nat>

  function Bump(counts: Counts, key: (string, Status)): Counts {
    counts[key := (if key in counts then counts[key] else 0) + 1]
  }

  function KeyOf(r: TaskRecord): (string, Status) {
    (r.agent, r.status)
  }

  function Tally(records: seq<TaskRecord>): Counts {
    if records == [] then map[] else Bump(Tally(records[..|records| - 1]), KeyOf(records[|records| - 1]))
  }

  function CountOf(records: seq<TaskRecord>, key: (string, Status)): nat {
    if records == [] then 0
    else CountOf(records[..|records| - 1], key) + if KeyOf(records[|records| - 1]) == key then 1 else 0
  }

  ghost function Total(counts: Counts): nat
    decreases |counts|
  {
    if counts == map[] then 0
    else
      var key :| key in counts;
      counts[key] + Total(counts - {key})
  }

  lemma {:induction false} TotalSplits(counts: Counts, key: (string, Status))
    requires key in counts
    ensures Total(counts) == counts[key] + Total(counts - {key})
    decreases |counts|
  {
    var first :| first in counts && Total(counts) == counts[first] + Total(counts - {first});
    if first != key {
      TotalSplits(counts - {first}, key);
      TotalSplits(counts - {key}, first);
      assert counts - {first} - {key} == counts - {key} - {first};
    }
  }

  lemma TotalBumped(counts: Counts, key: (string, Status))
    ensures Total(Bump(counts, key)) == Total(counts) + 1
  {
    var after := Bump(counts, key);
    TotalSplits(after, key);
    if key in counts {
      TotalSplits(counts, key);
      assert after - {key} == counts - {key};
    } else {
      assert after - {key} == counts;
    }
  }

  /** Each count is the number of tasks with that agent and status, and the counts add up to the number of tasks. */
  lemma {:induction false} CountsAddUp(records: seq<TaskRecord>)
    ensures forall key :: (if key in Tally(records) then Tally(records)[key] else 0) == CountOf(records, key)
    ensures Total(Tally(records)) == |records|
  {
    if records != [] {
      var init, last := records[..|records| - 1], records[|records| - 1];
      CountsAddUp(init);
      TotalBumped(Tally(init), KeyOf(last));
    }
  }

  function IdsOf(records: seq<TaskRecord>, agent: string, status: Status): set<string> {
    set r | r in records && r.agent == agent && r.status == status :: r.id
  }

  lemma IdsOfOneMore(init: seq<TaskRecord>, last: TaskRecord, agent: string, status: Status)
    requires DistinctIds(init + [last])
    ensures last.id !in IdsOf(init, agent, status)
    ensures IdsOf(init + [last], agent, status)
         == IdsOf(init, agent, status) + if last.agent == agent && last.status == status then {last.id} else {}
  {
    var records := init + [last];
    assert forall r :: r in records <==> r in init || r == last;
    forall r | r in init
      ensures r.id != last.id
    {
      var i :| 0 <= i < |init| && init[i] == r;
      assert records[i] == r && records[|init|] == last;
    }
  }

  /** Among tasks with distinct ids, a count is how many have that agent and that status. */
  lemma {:induction false} CountIsNumberOfTasks(records: seq<TaskRecord>, agent: string, status: Status)
    requires DistinctIds(records)
    ensures CountOf(records, (agent, status)) == |IdsOf(records, agent, status)|
  {
    if records != [] {
      var init, last := records[..|records| - 1], records[|records| - 1];
      assert records == init + [last];
      CountIsNumberOfTasks(init, agent, status);
      IdsOfOneMore(init, last, agent, status);
    }
  }

  // The live tasks of an agent in a status.
  function LiveIds(db: Db, now: nat, agent: string, status: Status): set<string> {
    set id | id in db.tasks && TaskLive(db, id, now) && Stored(db, id).agent == agent && Stored(db, id).status == status
  }

  // The records are the live tasks, each under its own id.
  ghost predicate AreTheTasks(records: seq<TaskRecord>, db: Db, now: nat) {
    && DistinctIds(records)
    && (forall r | r in records :: TaskLive(db, r.id, now) && r == Stored(db, r.id))
    && (forall id | TaskLive(db, id, now) :: Stored(db, id).id == id && Stored(db, id) in records)
  }

  lemma MarkedAreAllTasks(db: Db, answers: seq<Answer>, now: nat, limits: Limits)
    requires Agrees(db, now) && Scanned(db, now, answers)
    ensures var records := ReadAll(db, answers, now);
            AreTheTasks(MarkedAll(records, now, limits), MarkAll(db, records, now, limits), now)
  {
    FullReadIsScan(db, answers, now);
    MarkedAreTheTasks(db, answers, now, limits);
    forall id | TaskLive(MarkAll(db, ReadAll(db, answers, now), now, limits), id, now)
      ensures var after := Stored(MarkAll(db, ReadAll(db, answers, now), now, limits), id);
              after.id == id && after in MarkedAll(ReadAll(db, answers, now), now, limits)
    {
      MarkedTaskWasRead(db, answers, now, limits, id);
    }
  }

  lemma IdsAreLive(records: seq<TaskRecord>, db: Db, now: nat, agent: string, status: Status)
    requires AreTheTasks(records, db, now)
    ensures IdsOf(records, agent, status) == LiveIds(db, now, agent, status)
  {
  }

  lemma TallyAt(records: seq<TaskRecord>, agent: string, status: Status)
    requires DistinctIds(records)
    ensures (if (agent, status) in Tally(records) then Tally(records)[(agent, status)] else 0) == |IdsOf(records, agent, status)|
  {
    CountsAddUp(records);
    CountIsNumberOfTasks(records, agent, status);
  }

  /** What a summary counts for an agent and a status are the agent's live tasks in that status after marking. */
  lemma SummaryCountsTasks(db: Db, answers: seq<Answer>, now: nat, limits: Limits, agent: string, status: Status)
    requires Agrees(db, now) && Scanned(db, now, answers)
    ensures var records := ReadAll(db, answers, now);
            var counts := Tally(MarkedAll(records, now, limits));
            (if (agent, status) in counts then counts[(agent, status)] else 0)
            == |LiveIds(MarkAll(db, records, now, limits), now, agent, status)|
  {
    var records := ReadAll(db, answers, now);
    var marked, after := MarkedAll(records, now, limits), MarkAll(db, records, now, limits);
    MarkedAreAllTasks(db, answers, now, limits);
    IdsAreLive(marked, after, now, agent, status);
    TallyAt(marked, agent, status);
  }

  // ---------------------------------------------------------------- the executor

  function Created(id: string, agent: string, task: string, priority: Option<Priority>,
                   issueNumber: Option<int>, prNumber: Option<int>, now: nat): TaskRecord {
    TaskRecord(id, agent, task, Pending, if priority.Some? then priority.value else P2,
               issueNumber, prNumber, None, now, now, None)
  }

  function Updated(r: TaskRecord, status: Option<Status>, prNumber: Option<int>, review: Option<Review>, now: nat): TaskRecord {
    r.(status := if status.Some? then status.value else r.status,
       prNumber := if prNumber.Some? then prNumber else r.prNumber,
       reviewStatus := if review.Some? then review else r.reviewStatus,
       updatedAt := now,
       completedAt := if status.Some? && Terminal(status.value) then Some(now) else r.completedAt)
  }

  function Upserted(newId: string, id: string, agent: string, taskName: string, status: Status,
                    issueNumber: Option<int>, prNumber: Option<int>, now: nat): TaskRecord {
    TaskRecord(newId, agent, if taskName != "" then taskName else id, status, P2,
               issueNumber, prNumber, None, now, now, Some(now))
  }

  // What an update asks for: the new values where given, the time of update, and the time of
  // completion when the status becomes a final one; the rest stays.
  ghost predicate AsAsked(before: TaskRecord, after: TaskRecord, status: Option<Status>, prNumber: Option<int>,
                          review: Option<Review>, now: nat)
  {
    && after.id == before.id && after.agent == before.agent && after.task == before.task
    && after.priority == before.priority && after.issueNumber == before.issueNumber && after.createdAt == before.createdAt
    && (status.Some? ==> after.status == status.value)
    && (status.None? ==> after.status == before.status)
    && (prNumber.Some? ==> after.prNumber == prNumber)
    && (prNumber.None? ==> after.prNumber == before.prNumber)
    && (review.Some? ==> after.reviewStatus == review)
    && (review.None? ==> after.reviewStatus == before.reviewStatus)
    && after.updatedAt == now
    && (status == Some(Completed) || status == Some(Failed) ==> after.completedAt == Some(now))
    && (status != Some(Completed) && status != Some(Failed) ==> after.completedAt == before.completedAt)
  }

  lemma UpdatedIsAsAsked(r: TaskRecord, status: Option<Status>, prNumber: Option<int>, review: Option<Review>, now: nat)
    ensures AsAsked(r, Updated(r, status, prNumber, review, now), status, prNumber, review, now)
  {
  }

  // The live task of the agent that an update without a live id falls back to.
  ghost predicate FallsBackTo(db: Db, agent: string, now: nat, issue: int, best: TaskRecord) {
    IsNewestOf(db, agent, now, issue, true, best)
    || (NoTaskFits(db, agent, now, issue, true) && IsNewestOf(db, agent, now, issue, false, best))
  }

  // The record an update is about: the one with the id, else the agent's for the issue.
  function Resolve(db: Db, id: string, agent: string, issue: Option<int>, ids: seq<string>, now: nat): Option<TaskRecord> {
    var byId := Load(db, id, now);
    if byId.Some? then byId
    else if agent != "" && issue.Some? then FindFor(Loads(db, ids, now), issue.value)
    else None
  }

  ghost predicate OthersLoadAlike(before: Db, after: Db, id: string, now: nat) {
    forall other | other != id :: Load(after, other, now) == Load(before, other, now)
  }

  /** An update clears no option, moves no record and leaves no finished one undated, even if the hash runs out meanwhile. */
  lemma UpdatedIsStorable(db: Db, r: TaskRecord, status: Option<Status>, prNumber: Option<int>, review: Option<Review>,
                          now: nat, later: nat)
    requires Agrees(db, now) && Load(db, r.id, now) == Some(r) && now <= later
    ensures Storable(db, Updated(r, status, prNumber, review, now), later)
  {
    assert TaskLive(db, r.id, now) && Listed(db, r.id);
    assert forall agent | IndexLive(db, agent, later) :: IndexLive(db, agent, now);
  }

  lemma ResolvedIsLoaded(db: Db, id: string, agent: string, issue: Option<int>, ids: seq<string>, now: nat)
    requires Agrees(db, now) && RevRange(db, agent, now, ids)
    ensures var found := Resolve(db, id, agent, issue, ids, now);
            found.Some? ==> Load(db, found.value.id, now) == found
  {
    if TaskLive(db, id, now) {
      assert Listed(db, id);
    } else if agent != "" && issue.Some? {
      FallbackPicksNewest(db, agent, now, ids, issue.value);
    }
  }

  lemma ResolveMeans(db: Db, id: string, agent: string, issue: Option<int>, ids: seq<string>, now: nat)
    requires Agrees(db, now) && RevRange(db, agent, now, ids)
    ensures var found := Resolve(db, id, agent, issue, ids, now);
            && (TaskLive(db, id, now) ==> found == Some(Stored(db, id)))
            && (!TaskLive(db, id, now) && agent != "" && issue.Some? ==>
                  match found
                  case None => NoTaskFits(db, agent, now, issue.value, false)
                  case Some(best) => FallsBackTo(db, agent, now, issue.value, best))
            && (!TaskLive(db, id, now) && (agent == "" || issue.None?) ==> found.None?)
  {
    if issue.Some? {
      FallbackPicksNewest(db, agent, now, ids, issue.value);
    }
  }

  lemma NothingFitsNobody(db: Db, agent: string, now: nat, issue: Option<int>, best: TaskRecord)
    ensures issue.Some? && FallsBackTo(db, agent, now, issue.value, best) ==> !NoTaskFits(db, agent, now, issue.value, false)
  {
  }

  // ---------------------------------------------------------------- a task's updates in sequence

  datatype Change = Change(status: Option<Status>, prNumber: Option<int>, review: Option<Review>, at: nat)

  // Updates by id, one after the other.
  function AfterChanges(db: Db, id: string, cs: seq<Change>): Db {
    if cs == [] then db
    else
      var before, c := AfterChanges(db, id, cs[..|cs| - 1]), cs[|cs| - 1];
      match Load(before, id, c.at)
      case None => before
      case Some(r) => Store(before, Updated(r, c.status, c.prNumber, c.review, c.at), c.at)
  }

  // Every update comes less than 72 hours after the one before.
  predicate InTime(from: nat, cs: seq<Change>) {
    cs == [] ||
    var init, c := cs[..|cs| - 1], cs[|cs| - 1];
    InTime(from, init) && LastAt(from, init) <= c.at < LastAt(from, init) + 259_200_000
  }

  function LastAt(from: nat, cs: seq<Change>): nat {
    if cs == [] then from else cs[|cs| - 1].at
  }

  // The last value given, or the one there was.
  function LastStatus(first: Status, cs: seq<Change>): Status {
    if cs == [] then first
    else match cs[|cs| - 1].status
      case Some(status) => status
      case None => LastStatus(first, cs[..|cs| - 1])
  }

  function LastPr(first: Option<int>, cs: seq<Change>): Option<int> {
    if cs == [] then first
    else if cs[|cs| - 1].prNumber.Some? then cs[|cs| - 1].prNumber else LastPr(first, cs[..|cs| - 1])
  }

  function LastReview(first: Option<Review>, cs: seq<Change>): Option<Review> {
    if cs == [] then first
    else if cs[|cs| - 1].review.Some? then cs[|cs| - 1].review else LastReview(first, cs[..|cs| - 1])
  }

  // The record stored first, with the values last asked for.
  ghost predicate HasLast(last: TaskRecord, r: TaskRecord, cs: seq<Change>) {
    && last.id == r.id && last.agent == r.agent && last.task == r.task && last.priority == r.priority
    && last.issueNumber == r.issueNumber && last.createdAt == r.createdAt
    && last.status == LastStatus(r.status, cs)
    && last.prNumber == LastPr(r.prNumber, cs) && last.reviewStatus == LastReview(r.reviewStatus, cs)
  }

  // The task is there, for 72 hours from now on.
  ghost predicate JustStored(db: Db, id: string, now: nat) {
    Agrees(db, now) && id in db.tasks && db.tasks[id].deadline == Some(now + 259_200_000) && Stored(db, id).id == id
  }

  lemma ChangeKeepsLast(was: TaskRecord, next: TaskRecord, r: TaskRecord, cs: seq<Change>)
    requires cs != [] && HasLast(was, r, cs[..|cs| - 1])
    requires var c := cs[|cs| - 1]; AsAsked(was, next, c.status, c.prNumber, c.review, c.at)
    ensures HasLast(next, r, cs)
  {
  }

  lemma ChangeIsLoaded(before: Db, id: string, since: nat, c: Change) returns (end: Db)
    requires JustStored(before, id, since) && since <= c.at < since + 259_200_000
    ensures Load(before, id, c.at) == Some(Stored(before, id))
    ensures end == Store(before, Updated(Stored(before, id), c.status, c.prNumber, c.review, c.at), c.at)
    ensures JustStored(end, id, c.at) && AsAsked(Stored(before, id), Stored(end, id), c.status, c.prNumber, c.review, c.at)
  {
    var was := Stored(before, id);
    var next := Updated(was, c.status, c.prNumber, c.review, c.at);
    TimePasses(before, since, c.at);
    UpdatedIsStorable(before, was, c.status, c.prNumber, c.review, c.at, c.at);
    UpdatedIsAsAsked(was, c.status, c.prNumber, c.review, c.at);
    StoreKeepsAgreement(before, next, c.at);
    StoreRenews(before, next, c.at);
    end := Store(before, next, c.at);
  }

  lemma OneMoreChange(db: Db, id: string, cs: seq<Change>)
    requires cs != []
    ensures var before, c := AfterChanges(db, id, cs[..|cs| - 1]), cs[|cs| - 1];
            AfterChanges(db, id, cs) == match Load(before, id, c.at)
                                        case None => before
                                        case Some(r) => Store(before, Updated(r, c.status, c.prNumber, c.review, c.at), c.at)
  {
  }

  /**
    After any sequence of updates of a task that was just stored, none of them 72 hours or more after
    the one before, the task is there with the status, pull request and review last asked for.
   */
  lemma {:induction false} LastAskedIsLoaded(db: Db, r: TaskRecord, from: nat, cs: seq<Change>)
    requires JustStored(db, r.id, from) && Stored(db, r.id) == r && InTime(from, cs)
    ensures var end := AfterChanges(db, r.id, cs);
            JustStored(end, r.id, LastAt(from, cs)) && HasLast(Stored(end, r.id), r, cs)
    decreases |cs|
  {
    if cs != [] {
      var init, c := cs[..|cs| - 1], cs[|cs| - 1];
      LastAskedIsLoaded(db, r, from, init);
      var before := AfterChanges(db, r.id, init);
      OneMoreChange(db, r.id, cs);
      var end := ChangeIsLoaded(before, r.id, LastAt(from, init), c);
      ChangeKeepsLast(Stored(before, r.id), Stored(end, r.id), r, cs);
    }
  }

  // The records with the status asked for.
  function Filtered(records: seq<TaskRecord>, status: Option<Status>): seq<TaskRecord> {
    if records == [] then []
    else
      var last := records[|records| - 1];
      Filtered(records[..|records| - 1], status) + if status.None? || last.status == status.value then [last] else []
  }

  lemma FilteredOne(r: TaskRecord, now: nat, limits: Limits)
    ensures Filtered(MarkedAll([r], now, limits), None) == [Marked(r, now, limits)]
  {
    assert MarkedAll([r], now, limits) == [Marked(r, now, limits)];
    assert [Marked(r, now, limits)][..0] == [];
  }

  lemma {:induction false} FilteredHas(records: seq<TaskRecord>, status: Option<Status>)
    ensures forall x :: x in Filtered(records, status) <==> x in records && (status.Some? ==> x.status == status.value)
  {
    if records != [] {
      var init, last := records[..|records| - 1], records[|records| - 1];
      FilteredHas(init, status);
      assert records == init + [last];
    }
  }

  lemma NewestFirstOneMore(init: seq<TaskRecord>, last: TaskRecord)
    ensures NewestFirst(init + [last]) <==> NewestFirst(init) && forall x | x in init :: x.createdAt >= last.createdAt
  {
    var records := init + [last];
    assert forall i | 0 <= i < |init| :: records[i] == init[i];
    if NewestFirst(records) {
      forall x | x in init
        ensures x.createdAt >= last.createdAt
      {
        var i :| 0 <= i < |init| && init[i] == x;
        assert records[i] == x && records[|init|] == last;
      }
    }
  }

  // A query keeps the records with the status asked for, and their order.
  lemma {:induction false} FilteredMeans(records: seq<TaskRecord>, status: Option<Status>)
    ensures forall x :: x in Filtered(records, status) <==> x in records && (status.Some? ==> x.status == status.value)
    ensures NewestFirst(records) ==> NewestFirst(Filtered(records, status))
  {
    FilteredHas(records, status);
    if records != [] && NewestFirst(records) {
      var init, last := records[..|records| - 1], records[|records| - 1];
      assert records == init + [last];
      NewestFirstOneMore(init, last);
      FilteredMeans(init, status);
      NewestFirstOneMore(Filtered(init, status), last);
      assert Filtered(init, status) + [] == Filtered(init, status);
    }
  }

  // The records of an agent as a query finds them, before the status filter.
  ghost predicate AgentsTasks(marked: seq<TaskRecord>, db: Db, agent: string, now: nat, limits: Limits) {
    && NewestFirst(marked)
    && (forall x | x in marked :: exists r :: IsTaskOf(db, agent, now, r) && x == Marked(r, now, limits))
    && (forall r | IsTaskOf(db, agent, now, r) :: Marked(r, now, limits) in marked)
  }

  lemma MarkedAllMeans(records: seq<TaskRecord>, now: nat, limits: Limits)
    ensures NewestFirst(records) ==> NewestFirst(MarkedAll(records, now, limits))
    ensures forall x | x in MarkedAll(records, now, limits) :: exists r :: r in records && x == Marked(r, now, limits)
    ensures forall r | r in records :: Marked(r, now, limits) in MarkedAll(records, now, limits)
  {
    var marked := MarkedAll(records, now, limits);
    forall x | x in marked
      ensures exists r :: r in records && x == Marked(r, now, limits)
    {
      var i :| 0 <= i < |marked| && marked[i] == x;
      assert records[i] in records;
    }
    forall r | r in records
      ensures Marked(r, now, limits) in marked
    {
      var i :| 0 <= i < |records| && records[i] == r;
      assert marked[i] in marked;
    }
  }

  lemma AgentReadIsMarked(db: Db, agent: string, ids: seq<string>, now: nat, limits: Limits)
    requires Agrees(db, now) && RevRange(db, agent, now, ids)
    ensures AgentsTasks(MarkedAll(Loads(db, ids, now), now, limits), db, agent, now, limits)
  {
    AgentReadIsScan(db, agent, now, ids);
    MarkedAllMeans(Loads(db, ids, now), now, limits);
  }

  // What a query by agent answers.
  lemma AgentQueryMeans(db: Db, agent: string, ids: seq<string>, now: nat, limits: Limits, status: Option<Status>)
    requires Agrees(db, now) && RevRange(db, agent, now, ids)
    ensures var tasks := Filtered(MarkedAll(Loads(db, ids, now), now, limits), status);
            && NewestFirst(tasks)
            && (forall x | x in tasks :: status.Some? ==> x.status == status.value)
            && (forall x | x in tasks :: exists r :: IsTaskOf(db, agent, now, r) && x == Marked(r, now, limits))
            && (forall r | IsTaskOf(db, agent, now, r) ::
                  (status.Some? ==> Marked(r, now, limits).status == status.value) ==> Marked(r, now, limits) in tasks)
  {
    AgentReadIsMarked(db, agent, ids, now, limits);
    FilterKeepsMeaning(MarkedAll(Loads(db, ids, now), now, limits), db, agent, now, limits, status);
  }

  lemma FilterKeepsMeaning(marked: seq<TaskRecord>, db: Db, agent: string, now: nat, limits: Limits, status: Option<Status>)
    requires AgentsTasks(marked, db, agent, now, limits)
    ensures var tasks := Filtered(marked, status);
            && NewestFirst(tasks)
            && (forall x | x in tasks :: status.Some? ==> x.status == status.value)
            && (forall x | x in tasks :: exists r :: IsTaskOf(db, agent, now, r) && x == Marked(r, now, limits))
            && (forall r | IsTaskOf(db, agent, now, r) ::
                  (status.Some? ==> Marked(r, now, limits).status == status.value) ==> Marked(r, now, limits) in tasks)
  {
    FilteredMeans(marked, status);
  }

  lemma LoadedAreLoaded(db: Db, agent: string, ids: seq<string>, now: nat)
    requires Agrees(db, now) && RevRange(db, agent, now, ids)
    ensures AllLoaded(Cleaned(db, agent, ids, now), Loads(db, ids, now), now)
  {
    AgentReadIsScan(db, agent, now, ids);
    CleanupOnlyRemoves(db, agent, ids, now);
  }

  lemma FilteredOneMore(records: seq<TaskRecord>, r: TaskRecord, status: Option<Status>)
    ensures Filtered(records + [r], status)
         == Filtered(records, status) + if status.None? || r.status == status.value then [r] else []
  {
    assert (records + [r])[..|records|] == records;
  }

  lemma TallyOneMore(records: seq<TaskRecord>, r: TaskRecord)
    ensures Tally(records + [r]) == Bump(Tally(records), KeyOf(r))
  {
    assert (records + [r])[..|records|] == records;
  }

  // Before its turn a record is still as it was read.
  lemma NextIsLoaded(db: Db, records: seq<TaskRecord>, i: nat, now: nat, limits: Limits)
    requires Agrees(db, now) && AllLoaded(db, records, now) && i < |records|
    ensures Load(MarkAll(db, records[..i], now, limits), records[i].id, now) == Some(records[i])
  {
    var init := records[..i];
    assert forall r | r in init :: r in records && r.id != records[i].id;
    MarkingKeepsAgreement(db, init, now, limits);
  }

  lemma MarkedOneFurther(db: Db, records: seq<TaskRecord>, i: nat, now: nat, limits: Limits)
    requires i < |records|
    ensures var done, r := MarkAll(db, records[..i], now, limits), records[i];
            && MarkAll(db, records[..i + 1], now, limits)
               == (if IsStuck(r, now, limits) then After(done, Marked(r, now, limits), now) else done)
            && MarkedAll(records[..i + 1], now, limits) == MarkedAll(records[..i], now, limits) + [Marked(r, now, limits)]
  {
    assert records[..i + 1][..i] == records[..i];
  }

  // What is still to be read from the i-th id on.
  ghost function Unread(db: Db, ids: seq<string>, i: nat, rest: seq<string>, seen: set<string>, now: nat): seq<TaskRecord>
    requires i <= |ids|
  {
    Loads(db, FirstTime(ids[i..] + rest, seen), now)
  }

  lemma ReadOneFurther(db: Db, ids: seq<string>, i: nat, rest: seq<string>, seen: set<string>, now: nat, records: seq<TaskRecord>)
    requires i < |ids|
    ensures ids[i] in seen ==> Unread(db, ids, i, rest, seen, now) == Unread(db, ids, i + 1, rest, seen, now)
    ensures ids[i] !in seen ==>
              var one := if TaskLive(db, ids[i], now) then [Stored(db, ids[i])] else [];
              records + Unread(db, ids, i, rest, seen, now) == records + one + Unread(db, ids, i + 1, rest, seen + {ids[i]}, now)
  {
    assert (ids[i..] + rest)[1..] == ids[i + 1..] + rest;
    var one := if TaskLive(db, ids[i], now) then [Stored(db, ids[i])] else [];
    Associates(records, one, Unread(db, ids, i + 1, rest, seen + {ids[i]}, now));
  }

  lemma UnreadEnds(db: Db, ids: seq<string>, rest: seq<string>, seen: set<string>, now: nat)
    ensures Unread(db, ids, 0, rest, seen, now) == Loads(db, FirstTime(ids + rest, seen), now)
    ensures Unread(db, ids, |ids|, rest, seen, now) == Loads(db, FirstTime(rest, seen), now)
  {
    assert ids[0..] == ids && ids[|ids|..] + rest == rest;
  }

  class TaskExecutor {
    var db: Db
    var clock: nat
    const limits: Limits

    ghost predicate Valid()
      reads this
    {
      Agrees(db, clock)
    }

    constructor (limits: Limits, now: nat)
      ensures Valid() && clock == now && this.limits == limits && db == Db(map[], map[])
    {
      db := Db(map[], map[]);
      clock := now;
      this.limits := limits;
    }

    // One write, at the time of the operation.
    method StoreRecord(r: TaskRecord)
      requires Valid() && Storable(db, r, clock)
      modifies this
      ensures Valid() && clock == old(clock) && db == After(old(db), r, clock)
      ensures Load(db, r.id, clock) == Some(r) && OthersLoadAlike(old(db), db, r.id, clock)
    {
      StoreKeepsAgreement(db, r, clock);
      StoreWrites(db, r, clock);
      db := HSet(db, r.id, Encode(r), clock);
      db := ExpireTask(db, r.id, clock);
      db := ZAdd(db, r.agent, r.id, r.createdAt, clock);
      db := ExpireIndex(db, r.agent, clock);
    }

    /** Creating answers with a pending record that is then stored, or refuses and stores nothing. */
    method CreateTask(agent: string, task: string, priority: Option<Priority>, issueNumber: Option<int>,
                      prNumber: Option<int>, newId: string, now: nat) returns (r: Option<TaskRecord>)
      requires Valid() && clock <= now && Unused(db, newId)
      modifies this
      ensures Valid() && clock == now
      ensures r.None? <==> agent == "" || task == ""
      ensures r.None? ==> db == old(db)
      ensures r.Some? ==> r.value == TaskRecord(newId, agent, task, Pending, if priority.Some? then priority.value else P2,
                                                issueNumber, prNumber, None, now, now, None)
      ensures r.Some? ==> Load(db, newId, now) == r && OthersLoadAlike(old(db), db, newId, now)
    {
      TimePasses(db, clock, now);
      clock := now;
      if agent == "" || task == "" {
        return None;
      }
      var record := Created(newId, agent, task, priority, issueNumber, prNumber, now);
      StoreRecord(record);
      r := Some(record);
    }

    // The records behind the ids, and the ids that have none any more.
    method ReadIds(ids: seq<string>) returns (records: seq<TaskRecord>, expiredIds: seq<string>)
      ensures records == Loads(db, ids, clock) && expiredIds == DeadIds(db, ids, clock)
    {
      records := [];
      expiredIds := [];
      for i := 0 to |ids|
        invariant records == Loads(db, ids[..i], clock)
        invariant expiredIds == DeadIds(db, ids[..i], clock)
      {
        assert ids[..i + 1] == ids[..i] + [ids[i]];
        LoadsOneMore(db, ids[..i], ids[i], clock);
        DeadOneMore(db, ids[..i], ids[i], clock);
        ReadOne(db, ids[i], clock);
        if TaskLive(db, ids[i], clock) {
          records := records + [Stored(db, ids[i])];
        } else {
          expiredIds := expiredIds + [ids[i]];
        }
      }
      assert ids[..|ids|] == ids;
    }

    /** Reading through the index: every live task of the agent, newest first; dead entries are removed. */
    method LoadByAgent(agent: string, ids: seq<string>) returns (records: seq<TaskRecord>)
      requires Valid() && RevRange(db, agent, clock, ids)
      modifies this
      ensures Valid() && clock == old(clock) && db == Cleaned(old(db), agent, ids, clock)
      ensures records == Loads(old(db), ids, clock)
    {
      CleanupKeepsAgreement(db, agent, ids, clock);
      var expiredIds;
      records, expiredIds := ReadIds(ids);
      assert |expiredIds| > 0 ==> expiredIds[0] in ids;
      if |expiredIds| > 0 && agent in db.index {
        RemoveThenDelete(db.index, agent, Unlist(db.index[agent], expiredIds));
        db := db.(index := db.index[agent := Unlist(db.index[agent], expiredIds)]);
      }
      if |records| == 0 && |expiredIds| > 0 {
        db := db.(index := db.index - {agent});
      }
    }

    // The record an update is about; looking it up may clean the agent's set.
    method FindRecord(id: string, agent: string, issueNumber: Option<int>, ids: seq<string>, ghost newId: string)
      returns (record: Option<TaskRecord>)
      requires Valid() && RevRange(db, agent, clock, ids) && Unused(db, newId)
      modifies this
      ensures Valid() && clock == old(clock) && db.tasks == old(db).tasks && Unused(db, newId)
      ensures record.Some? ==> Load(db, record.value.id, clock) == record
      ensures TaskLive(old(db), id, clock) ==> record == Some(Stored(old(db), id))
      ensures !TaskLive(old(db), id, clock) && agent != "" && issueNumber.Some? ==>
                match record
                case None => NoTaskFits(old(db), agent, clock, issueNumber.value, false)
                case Some(best) => FallsBackTo(old(db), agent, clock, issueNumber.value, best)
      ensures !TaskLive(old(db), id, clock) && (agent == "" || issueNumber.None?) ==> record.None?
    {
      ResolveMeans(db, id, agent, issueNumber, ids, clock);
      ResolvedIsLoaded(db, id, agent, issueNumber, ids, clock);
      CleanupKeepsUnused(db, agent, ids, clock, newId);
      record := Load(db, id, clock);
      if record.None? && agent != "" && issueNumber.Some? {
        var records := LoadByAgent(agent, ids);
        record := FindFor(records, issueNumber.value);
      }
    }

    /** The updated record is stored; without one, a terminal update leaves a new record, any other leaves nothing. */
    method UpdateTask(id: string, status: Option<Status>, prNumber: Option<int>, review: Option<Review>, agent: string,
                      issueNumber: Option<int>, taskName: string, ids: seq<string>, newId: string, now: nat)
      returns (r: Option<TaskRecord>)
      requires Valid() && clock <= now && Unused(db, newId) && RevRange(db, agent, now, ids)
      modifies this
      ensures Valid() && clock == now
      ensures id == "" ==> r.None?
      ensures id != "" && TaskLive(old(db), id, now) ==>
                r.Some? && AsAsked(Stored(old(db), id), r.value, status, prNumber, review, now)
      ensures id != "" && !TaskLive(old(db), id, now) && agent != "" && issueNumber.Some?
              && !NoTaskFits(old(db), agent, now, issueNumber.value, false) ==>
                r.Some? && exists best :: FallsBackTo(old(db), agent, now, issueNumber.value, best)
                                          && AsAsked(best, r.value, status, prNumber, review, now)
      ensures id != "" && !TaskLive(old(db), id, now)
              && (agent == "" || issueNumber.None? || NoTaskFits(old(db), agent, now, issueNumber.value, false)) ==>
                r == if agent != "" && (status == Some(Completed) || status == Some(Failed))
                     then Some(TaskRecord(newId, agent, if taskName != "" then taskName else id, status.value, P2,
                                          issueNumber, prNumber, None, now, now, Some(now)))
                     else None
      ensures r.Some? ==> Load(db, r.value.id, now) == r && OthersLoadAlike(old(db), db, r.value.id, now)
      ensures r.None? ==> db.tasks == old(db).tasks
    {
      TimePasses(db, clock, now);
      clock := now;
      if id == "" {
        return None;
      }
      var record := FindRecord(id, agent, issueNumber, ids, newId);
      if record.None? && agent != "" && status.Some? && Terminal(status.value) {
        r := Some(Upserted(newId, id, agent, taskName, status.value, issueNumber, prNumber, now));
        StoreRecord(r.value);
        return;
      }
      if record.None? {
        return None;
      }
      UpdatedIsStorable(db, record.value, status, prNumber, review, now, now);
      UpdatedIsAsAsked(record.value, status, prNumber, review, now);
      r := Some(Updated(record.value, status, prNumber, review, now));
      NothingFitsNobody(old(db), agent, now, issueNumber, record.value);
      StoreRecord(r.value);
    }

    // A task that is overdue is stored as stuck; its time of update stays.
    method MarkStuck(record: TaskRecord) returns (r: TaskRecord)
      requires Valid() && Load(db, record.id, clock) == Some(record)
      modifies this
      ensures Valid() && clock == old(clock) && r == Marked(record, clock, limits)
      ensures db == if IsStuck(record, clock, limits) then After(old(db), r, clock) else old(db)
    {
      r := record;
      if IsStuck(record, clock, limits) {
        MarkOneKeeps(db, record, clock, limits);
        r := record.(status := Stuck);
        StoreRecord(r);
      }
    }

    // Marks the records one after the other and keeps those with the status asked for.
    method MarkAndFilter(records: seq<TaskRecord>, status: Option<Status>) returns (results: seq<TaskRecord>)
      requires Valid() && AllLoaded(db, records, clock)
      modifies this
      ensures Valid() && clock == old(clock) && db == MarkAll(old(db), records, clock, limits)
      ensures results == Filtered(MarkedAll(records, clock, limits), status)
    {
      results := [];
      ghost var start := db;
      for i := 0 to |records|
        invariant Valid() && clock == old(clock) && db == MarkAll(start, records[..i], clock, limits)
        invariant results == Filtered(MarkedAll(records[..i], clock, limits), status)
      {
        NextIsLoaded(start, records, i, clock, limits);
        var record := MarkStuck(records[i]);
        MarkedOneFurther(start, records, i, clock, limits);
        FilteredOneMore(MarkedAll(records[..i], clock, limits), record, status);
        if status.None? || record.status == status.value {
          results := results + [record];
        }
      }
      assert records[..|records|] == records;
    }

    /** By id: the task itself; by agent: its live tasks with the status asked for, newest first; overdue ones marked. */
    method QueryTask(id: string, agent: string, status: Option<Status>, ids: seq<string>, now: nat)
      returns (ok: bool, tasks: seq<TaskRecord>)
      requires Valid() && clock <= now && RevRange(db, agent, now, ids)
      modifies this
      ensures Valid() && clock == now
      ensures id != "" ==> ok == TaskLive(old(db), id, now)
      ensures id != "" && ok ==> tasks == [Marked(Stored(old(db), id), now, limits)]
                                 && db == MarkAll(old(db), [Stored(old(db), id)], now, limits)
      ensures id == "" ==> ok == (agent != "")
      ensures id == "" && ok ==>
                var records := Loads(old(db), ids, now);
                && tasks == Filtered(MarkedAll(records, now, limits), status)
                && db == MarkAll(Cleaned(old(db), agent, ids, now), records, now, limits)
      ensures id == "" && ok ==>
                && NewestFirst(tasks)
                && (forall x | x in tasks :: status.Some? ==> x.status == status.value)
                && (forall x | x in tasks :: exists r :: IsTaskOf(old(db), agent, now, r) && x == Marked(r, now, limits))
                && (forall r | IsTaskOf(old(db), agent, now, r) ::
                      (status.Some? ==> Marked(r, now, limits).status == status.value) ==> Marked(r, now, limits) in tasks)
      ensures !ok ==> tasks == [] && db == old(db)
    {
      TimePasses(db, clock, now);
      clock := now;
      if id != "" {
        var record := Load(db, id, now);
        if record.None? {
          return false, [];
        }
        assert Listed(db, id);
        tasks := MarkAndFilter([record.value], None);
        FilteredOne(record.value, now, limits);
        return true, tasks;
      }
      if agent != "" {
        LoadedAreLoaded(db, agent, ids, now);
        AgentQueryMeans(db, agent, ids, now, limits, status);
        var records := LoadByAgent(agent, ids);
        tasks := MarkAndFilter(records, status);
        return true, tasks;
      }
      return false, [];
    }

    // The tasks of one answer whose ids were not met before; `rest` is what is still to be read.
    method LoadNew(ids: seq<string>, met: set<string>, ghost rest: seq<string>)
      returns (records: seq<TaskRecord>, seen: set<string>)
      ensures records + Loads(db, FirstTime(rest, seen), clock) == Loads(db, FirstTime(ids + rest, met), clock)
    {
      records := [];
      seen := met;
      UnreadEnds(db, ids, rest, met, clock);
      for i := 0 to |ids|
        invariant records + Unread(db, ids, i, rest, seen, clock) == Unread(db, ids, 0, rest, met, clock)
      {
        ReadOneFurther(db, ids, i, rest, seen, clock, records);
        if ids[i] !in seen {
          seen := seen + {ids[i]};
          if TaskLive(db, ids[i], clock) {
            records := records + [Stored(db, ids[i])];
          } else {
            assert records + [] == records;
          }
        }
      }
      UnreadEnds(db, ids, rest, seen, clock);
    }

    // Every set named by the scan is read in turn; an id met before is skipped.
    method LoadAll(answers: seq<Answer>) returns (allRecords: seq<TaskRecord>)
      ensures allRecords == ReadAll(db, answers, clock)
    {
      allRecords := [];
      var seen: set<string> := {};
      for k := 0 to |answers|
        invariant allRecords + Loads(db, FirstTime(Flatten(answers[k..]), seen), clock) == ReadAll(db, answers, clock)
      {
        assert answers[k..][1..] == answers[k + 1..];
        var records;
        records, seen := LoadNew(answers[k].ids, seen, Flatten(answers[k + 1..]));
        allRecords := allRecords + records;
      }
      assert answers[|answers|..] == [];
    }

    // Marks the records one after the other and counts them.
    method MarkAndCount(records: seq<TaskRecord>) returns (counts: Counts)
      requires Valid() && AllLoaded(db, records, clock)
      modifies this
      ensures Valid() && clock == old(clock) && db == MarkAll(old(db), records, clock, limits)
      ensures counts == Tally(MarkedAll(records, clock, limits))
    {
      counts := map[];
      ghost var start := db;
      for i := 0 to |records|
        invariant Valid() && clock == old(clock) && db == MarkAll(start, records[..i], clock, limits)
        invariant counts == Tally(MarkedAll(records[..i], clock, limits))
      {
        NextIsLoaded(start, records, i, clock, limits);
        var record := MarkStuck(records[i]);
        MarkedOneFurther(start, records, i, clock, limits);
        TallyOneMore(MarkedAll(records[..i], clock, limits), record);
        counts := Bump(counts, KeyOf(record));
      }
      assert records[..|records|] == records;
    }

    /** Every live task is counted once under its agent and its status after marking. */
    method SummarizeTasks(answers: seq<Answer>, now: nat) returns (counts: Counts, totalTasks: nat)
      requires Valid() && clock <= now && Scanned(db, now, answers)
      modifies this
      ensures Valid() && clock == now
      ensures db == MarkAll(old(db), ReadAll(old(db), answers, now), now, limits)
      ensures counts == Tally(MarkedAll(ReadAll(old(db), answers, now), now, limits))
      ensures totalTasks == Total(counts) && NoneOverdue(db, now, limits)
      ensures forall a, st ::
                (if (a, st) in counts then counts[(a, st)] else 0) == |LiveIds(db, now, a, st)|
    {
      TimePasses(db, clock, now);
      clock := now;
      forall a, st
        ensures var records := ReadAll(db, answers, now);
                var tally := Tally(MarkedAll(records, now, limits));
                (if (a, st) in tally then tally[(a, st)] else 0) == |LiveIds(MarkAll(db, records, now, limits), now, a, st)|
      {
        SummaryCountsTasks(db, answers, now, limits, a, st);
      }
      SummaryLeavesNoneOverdue(db, answers, now, limits);
      var records := LoadAll(answers);
      counts := MarkAndCount(records);
      CountsAddUp(MarkedAll(records, now, limits));
      totalTasks := |records|;
    }
  }
}
