/**
  Versioned category summaries.  A category's number is its id.  The query that finds the category
  to update has no ORDER BY, so which of several matching rows comes first is an input (`pick`).
 */
module Categories {
  import opened Common

  datatype Category = Category(key: string, org: bool, departmentId: Option<string>, agentId: Option<string>,
                               content: string, version: nat, immutable: bool)
  datatype Archive = Archive(category: nat, content: string, version: nat, archivedBy: string)
  datatype Update = Update(key: string, departmentId: string, agentId: string, newContent: string, archivedBy: string, pick: nat)

  datatype Outcome = NotFound | Refused | Updated(category: nat)

  datatype Db = Db(categories: seq<Category>, archives: seq<Archive>)

  predicate Visible(c: Category, u: Update) {
    c.key == u.key && (c.org || c.departmentId == Some(u.departmentId) || c.agentId == Some(u.agentId))
  }

  // The row the query returns first, if it returns any.
  function Target(categories: seq<Category>, u: Update): (r: Option<nat>)
    ensures r.Some? ==> r.value < |categories| && Visible(categories[r.value], u)
    ensures r.None? <==> forall i | 0 <= i < |categories| :: !Visible(categories[i], u)
  {
    if u.pick < |categories| && Visible(categories[u.pick], u) then Some(u.pick)
    else FirstVisible(categories, u, 0)
  }

  function FirstVisible(categories: seq<Category>, u: Update, from: nat): (r: Option<nat>)
    requires from <= |categories|
    ensures r.Some? ==> r.value < |categories| && Visible(categories[r.value], u)
    ensures r.None? <==> forall i | from <= i < |categories| :: !Visible(categories[i], u)
    decreases |categories| - from
  {
    if from == |categories| then None
    else if Visible(categories[from], u) then Some(from) else FirstVisible(categories, u, from + 1)
  }

  function OutcomeOf(db: Db, u: Update): Outcome {
    match Target(db.categories, u)
    case None => NotFound
    case Some(i) => if db.categories[i].immutable then Refused else Updated(i)
  }

  function Apply(db: Db, u: Update): Db {
    match OutcomeOf(db, u)
    case Updated(i) =>
      var c := db.categories[i];
      Db(db.categories[i := c.(content := u.newContent, version := c.version + 1)],
         db.archives + [Archive(i, c.content, c.version, u.archivedBy)])
    case _ => db
  }

  function ApplyAll(db: Db, us: seq<Update>): Db {
    if us == [] then db else Apply(ApplyAll(db, us[..|us| - 1]), us[|us| - 1])
  }

  function ArchivesOf(archives: seq<Archive>, i: nat): seq<Archive> {
    if archives == [] then []
    else ArchivesOf(archives[..|archives| - 1], i)
         + if archives[|archives| - 1].category == i then [archives[|archives| - 1]] else []
  }

  function Contents(archives: seq<Archive>): seq<string> {
    if archives == [] then [] else Contents(archives[..|archives| - 1]) + [archives[|archives| - 1].content]
  }

  // Every content the category has ever held, oldest first: its first one, then each accepted rewrite.
  // What a rewrite hits depends only on columns that never change, so it is read off the first state.
  function EverHeld(db: Db, us: seq<Update>, i: nat): seq<string>
    requires i < |db.categories|
  {
    if us == [] then [db.categories[i].content]
    else EverHeld(db, us[..|us| - 1], i) + if OutcomeOf(db, us[|us| - 1]) == Updated(i) then [us[|us| - 1].newContent] else []
  }

  ghost predicate SameColumns(a: Db, b: Db) {
    |a.categories| == |b.categories| && forall i | 0 <= i < |a.categories| ::
      b.categories[i] == a.categories[i].(content := b.categories[i].content, version := b.categories[i].version)
  }

  lemma {:induction false} SameFirst(a: Db, b: Db, u: Update, from: nat)
    requires SameColumns(a, b) && from <= |a.categories|
    ensures FirstVisible(a.categories, u, from) == FirstVisible(b.categories, u, from)
    decreases |a.categories| - from
  {
    if from < |a.categories| {
      SameFirst(a, b, u, from + 1);
    }
  }

  lemma SameOutcome(a: Db, b: Db, u: Update)
    requires SameColumns(a, b)
    ensures OutcomeOf(a, u) == OutcomeOf(b, u)
  {
    SameFirst(a, b, u, 0);
  }

  lemma ArchiveAdded(archives: seq<Archive>, x: Archive, i: nat)
    ensures ArchivesOf(archives + [x], i) == ArchivesOf(archives, i) + if x.category == i then [x] else []
    ensures Contents(archives + [x]) == Contents(archives) + [x.content]
  {
    assert (archives + [x])[..|archives|] == archives;
  }

  // The archives of one category carry consecutive versions, ending just below the current one.
  ghost predicate VersionsLineUp(c: Category, archived: seq<Archive>) {
    |archived| <= c.version && forall k | 0 <= k < |archived| :: archived[k].version == c.version - |archived| + k
  }

  // From a table without archives: the archived rows in version order followed by the current content
  // are exactly the contents ever held, and there is one archive for each past version.
  lemma {:induction false} ArchivesAreTheHistory(db: Db, us: seq<Update>, i: nat)
    requires i < |db.categories| && db.archives == []
    ensures var t := ApplyAll(db, us); var archived := ArchivesOf(t.archives, i);
            && SameColumns(db, t)
            && Contents(archived) + [t.categories[i].content] == EverHeld(db, us, i)
            && VersionsLineUp(t.categories[i], archived)
            && t.categories[i].version == db.categories[i].version + |archived|
    decreases |us|
  {
    if us != [] {
      var u, s := us[|us| - 1], ApplyAll(db, us[..|us| - 1]);
      ArchivesAreTheHistory(db, us[..|us| - 1], i);
      SameOutcome(db, s, u);
      ApplyKeepsColumns(db, s, u);
      if OutcomeOf(s, u) == Updated(i) {
        HitUpdate(s, u, i);
      } else {
        MissedUpdate(s, u, i);
      }
    }
  }

  lemma ApplyKeepsColumns(db: Db, s: Db, u: Update)
    requires SameColumns(db, s)
    ensures SameColumns(db, Apply(s, u))
  {
  }

  lemma HitUpdate(s: Db, u: Update, i: nat)
    requires OutcomeOf(s, u) == Updated(i) && VersionsLineUp(s.categories[i], ArchivesOf(s.archives, i))
    ensures var t := Apply(s, u); var before, after := ArchivesOf(s.archives, i), ArchivesOf(t.archives, i);
            && Contents(after) == Contents(before) + [s.categories[i].content]
            && t.categories[i].content == u.newContent
            && VersionsLineUp(t.categories[i], after) && |after| == |before| + 1
  {
    var before := ArchivesOf(s.archives, i);
    var x := Archive(i, s.categories[i].content, s.categories[i].version, u.archivedBy);
    ArchiveAdded(s.archives, x, i);
    ArchiveAdded(before, x, i);
  }

  lemma MissedUpdate(s: Db, u: Update, i: nat)
    requires OutcomeOf(s, u) != Updated(i) && i < |s.categories|
    ensures var t := Apply(s, u);
            ArchivesOf(t.archives, i) == ArchivesOf(s.archives, i) && t.categories[i] == s.categories[i]
  {
    if OutcomeOf(s, u).Updated? {
      var j := OutcomeOf(s, u).category;
      ArchiveAdded(s.archives, Archive(j, s.categories[j].content, s.categories[j].version, u.archivedBy), i);
    }
  }

  // An immutable category keeps its row, and is never archived.
  lemma {:induction false} ImmutableNeverChanges(db: Db, us: seq<Update>, i: nat)
    requires i < |db.categories| && db.categories[i].immutable
    ensures i < |ApplyAll(db, us).categories| && ApplyAll(db, us).categories[i] == db.categories[i]
    ensures ArchivesOf(ApplyAll(db, us).archives, i) == ArchivesOf(db.archives, i)
  {
    if us != [] {
      var init := us[..|us| - 1];
      ImmutableNeverChanges(db, init, i);
      MissedUpdate(ApplyAll(db, init), us[|us| - 1], i);
    }
  }

  class CategoryTable {
    var categories: seq<Category>
    var archives: seq<Archive>

    ghost function Abstract(): Db
      reads this
    {
      Db(categories, archives)
    }

    constructor (categories: seq<Category>)
      ensures Abstract() == Db(categories, [])
    {
      this.categories, archives := categories, [];
    }

    // One transaction: refused and unmatched updates leave both tables alone.
    method UpdateSummary(u: Update) returns (outcome: Outcome)
      modifies this
      ensures outcome == OutcomeOf(old(Abstract()), u) && Abstract() == Apply(old(Abstract()), u)
      ensures outcome.NotFound? <==> forall c | c in old(categories) ::
                !(c.key == u.key && (c.org || c.departmentId == Some(u.departmentId) || c.agentId == Some(u.agentId)))
      ensures outcome.Refused? ==> exists c | c in old(categories) ::
                c.immutable && c.key == u.key
                && (c.org || c.departmentId == Some(u.departmentId) || c.agentId == Some(u.agentId))
      ensures outcome.Updated? ==>
                var i := outcome.category;
                i < |old(categories)|
                && var c := old(categories)[i];
                && !c.immutable && c.key == u.key
                && (c.org || c.departmentId == Some(u.departmentId) || c.agentId == Some(u.agentId))
                && categories == old(categories)[i := c.(content := u.newContent, version := c.version + 1)]
      ensures !outcome.Updated? ==> categories == old(categories) && archives == old(archives)
      ensures outcome.Updated? ==> archives == old(archives) + [Archive(outcome.category,
                old(categories)[outcome.category].content, old(categories)[outcome.category].version, u.archivedBy)]
    {
      var current := Target(categories, u);
      if current.None? {
        return NotFound;
      }
      var cat := categories[current.value];
      if cat.immutable {
        return Refused;
      }
      archives := archives + [Archive(current.value, cat.content, cat.version, u.archivedBy)];
      categories := categories[current.value := cat.(content := u.newContent, version := cat.version + 1)];
      outcome := Updated(current.value);
    }
  }
}
