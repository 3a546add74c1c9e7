/**
  The memory pipeline's two tables of truth: facts (`items`) and the knowledge graph
  (`triples`).  A row's number is its id, since rows are never deleted.  The write gate's
  verdict and the similarity match are inputs of each call; the text functions are any that
  agree with each other (see `Normalised`).
 */
module MemoryStore {
  import opened Common

  const CONFIDENCE_BUMP := 5        // hundredths, the column's precision
  const MAX_CONFIDENCE := 100

  datatype Extraction = Extraction(subject: string, pred: string, obj: string)

  // `extract` is the pattern search; `fold` trims and lower-cases; `trim` trims.
  datatype Language = Language(extract: string -> Option<Extraction>, fold: string -> string, trim: string -> string)

  ghost predicate Normalised(lang: Language) {
    && (forall text :: var e := lang.extract(text);
          e.Some? ==> lang.fold(e.value.subject) == e.value.subject
                      && lang.fold(e.value.pred) == e.value.pred
                      && lang.trim(e.value.obj) == e.value.obj)
    && (forall x :: lang.trim(lang.trim(x)) == lang.trim(x))
  }

  datatype Key = Key(subject: string, pred: string)

  // `firstText` is bookkeeping, not a column: the text the item was inserted with.
  datatype Item = Item(agent: string, text: string, confidence: nat, category: Option<string>,
                       key: Option<Key>, active: bool, firstText: string)
  datatype Triple = Triple(agent: string, item: nat, subject: string, pred: string, obj: string,
                           confidence: nat, active: bool)
  datatype Store = Store(items: seq<Item>, triples: seq<Triple>)

  // An accepted verdict carries a confidence and perhaps a category.
  datatype Verdict = Rejected | Accepted(confidence: nat, category: Option<string>)
  // `similar` is the item the similarity search returned, if it ran and found one.
  datatype Fact = Fact(agent: string, text: string, verdict: Verdict, similar: Option<nat>)

  datatype Outcome = Refused | Merged | Inserted

  // The similarity search only looks at the agent's active items, in the category if there is one.
  predicate Plausible(s: Store, f: Fact) {
    f.similar.Some? && f.verdict.Accepted? ==>
      f.similar.value < |s.items| && s.items[f.similar.value].active && s.items[f.similar.value].agent == f.agent
      && (f.verdict.category.Some? ==> s.items[f.similar.value].category == f.verdict.category)
  }

  // ---------------------------------------------------------------- the statements

  function Min(a: nat, b: nat): nat { if a < b then a else b }
  function Max(a: nat, b: nat): nat { if a < b then b else a }

  function Merge(s: Store, id: nat, text: string): Store
    requires id < |s.items|
  {
    s.(items := s.items[id := s.items[id].(text := text,
                                           confidence := Min(s.items[id].confidence + CONFIDENCE_BUMP, MAX_CONFIDENCE))])
  }

  predicate HoldsKey(it: Item, agent: string, key: Key) {
    it.active && it.agent == agent && it.key == Some(key)
  }

  predicate StatesKey(t: Triple, agent: string, key: Key) {
    t.active && t.agent == agent && t.subject == key.subject && t.pred == key.pred
  }

  function FindItem(items: seq<Item>, agent: string, key: Key): (r: Option<nat>)
    ensures r.Some? ==> r.value < |items| && HoldsKey(items[r.value], agent, key)
    ensures r.None? ==> forall i | 0 <= i < |items| :: !HoldsKey(items[i], agent, key)
  {
    if items == [] then None
    else if HoldsKey(items[|items| - 1], agent, key) then Some(|items| - 1)
    else FindItem(items[..|items| - 1], agent, key)
  }

  function FindTriple(triples: seq<Triple>, agent: string, key: Key): (r: Option<nat>)
    ensures r.Some? ==> r.value < |triples| && StatesKey(triples[r.value], agent, key)
    ensures r.None? ==> forall i | 0 <= i < |triples| :: !StatesKey(triples[i], agent, key)
  {
    if triples == [] then None
    else if StatesKey(triples[|triples| - 1], agent, key) then Some(|triples| - 1)
    else FindTriple(triples[..|triples| - 1], agent, key)
  }

  function ResolveConflict(s: Store, agent: string, key: Key): Store {
    match FindItem(s.items, agent, key)
    case None => s
    case Some(prev) => s.(items := s.items[prev := s.items[prev].(active := false)])
  }

  function UpsertTriple(lang: Language, s: Store, agent: string, item: nat, e: Extraction, confidence: nat): Store {
    var key := Key(lang.fold(e.subject), lang.fold(e.pred));
    var obj := lang.trim(e.obj);
    var row := Triple(agent, item, key.subject, key.pred, obj, confidence, true);
    match FindTriple(s.triples, agent, key)
    case None => s.(triples := s.triples + [row])
    case Some(prev) =>
      if lang.trim(s.triples[prev].obj) == obj then
        s.(triples := s.triples[prev := s.triples[prev].(confidence := Max(s.triples[prev].confidence, confidence))])
      else
        s.(triples := s.triples[prev := s.triples[prev].(active := false)] + [row])
  }

  function KeyOf(e: Extraction): Key {
    Key(e.subject, e.pred)
  }

  function Insert(lang: Language, s: Store, f: Fact): Store
    requires f.verdict.Accepted?
  {
    var e := lang.extract(f.text);
    var key := if e.Some? then Some(KeyOf(e.value)) else None;
    var item := Item(f.agent, f.text, f.verdict.confidence, f.verdict.category, key, true, f.text);
    if e.None? then s.(items := s.items + [item])
    else
      var resolved := ResolveConflict(s, f.agent, KeyOf(e.value));
      UpsertTriple(lang, resolved.(items := resolved.items + [item]), f.agent, |s.items|, e.value, f.verdict.confidence)
  }

  function OutcomeOf(f: Fact): Outcome {
    if f.verdict.Rejected? then Refused else if f.similar.Some? then Merged else Inserted
  }

  function AfterStore(lang: Language, s: Store, f: Fact): Store
    requires Plausible(s, f)
  {
    match OutcomeOf(f)
    case Refused => s
    case Merged => Merge(s, f.similar.value, f.text)
    case Inserted => Insert(lang, s, f)
  }

  // Archiving by hand, and the weak items of a maintenance run: any set of ids.
  function ArchiveItems(s: Store, ids: set<nat>): Store {
    s.(items := seq(|s.items|, i requires 0 <= i < |s.items| =>
      if i in ids then s.items[i].(active := false) else s.items[i]))
  }

  // ---------------------------------------------------------------- one active truth

  ghost predicate OneItemPerKey(items: seq<Item>) {
    forall i, j, agent, key | 0 <= i < j < |items| ::
      !(HoldsKey(items[i], agent, key) && HoldsKey(items[j], agent, key))
  }

  ghost predicate OneTriplePerKey(triples: seq<Triple>) {
    forall i, j, agent, key | 0 <= i < j < |triples| ::
      !(StatesKey(triples[i], agent, key) && StatesKey(triples[j], agent, key))
  }

  // Some active triple states the item's key with the object extracted when it was inserted.
  ghost predicate Backed(lang: Language, triples: seq<Triple>, it: Item) {
    it.active && it.key.Some? ==>
      var e := lang.extract(it.firstText);
      e.Some? && it.key == Some(KeyOf(e.value))
      && exists t :: t in triples && StatesKey(t, it.agent, it.key.value) && t.obj == e.value.obj
  }

  ghost predicate OneTruth(lang: Language, s: Store) {
    && OneItemPerKey(s.items)
    && OneTriplePerKey(s.triples)
    && (forall it | it in s.items :: Backed(lang, s.triples, it))
    && (forall t | t in s.triples :: lang.trim(t.obj) == t.obj)
  }

  lemma MergeKeepsTruth(lang: Language, s: Store, id: nat, text: string)
    requires OneTruth(lang, s) && id < |s.items|
    ensures OneTruth(lang, Merge(s, id, text))
    ensures forall i | 0 <= i < |s.items| :: i != id ==> Merge(s, id, text).items[i] == s.items[i]
    ensures Merge(s, id, text).items[id].key == s.items[id].key && Merge(s, id, text).triples == s.triples
    ensures |Merge(s, id, text).items| == |s.items|
    ensures Merge(s, id, text).items[id]
         == s.items[id].(text := text, confidence := if s.items[id].confidence + 5 < 100 then s.items[id].confidence + 5 else 100)
  {
    var t := Merge(s, id, text);
    forall i, j, agent, key | 0 <= i < j < |t.items|
      ensures !(HoldsKey(t.items[i], agent, key) && HoldsKey(t.items[j], agent, key))
    {
      assert !(HoldsKey(s.items[i], agent, key) && HoldsKey(s.items[j], agent, key));
    }
    forall it | it in t.items
      ensures Backed(lang, t.triples, it)
    {
      assert Backed(lang, s.triples, s.items[id]);
    }
  }

  lemma ArchiveKeepsTruth(lang: Language, s: Store, ids: set<nat>)
    requires OneTruth(lang, s)
    ensures OneTruth(lang, ArchiveItems(s, ids))
    ensures ArchiveItems(s, ids).triples == s.triples && |ArchiveItems(s, ids).items| == |s.items|
    ensures forall i | 0 <= i < |s.items| ::
              ArchiveItems(s, ids).items[i] == if i in ids then s.items[i].(active := false) else s.items[i]
  {
    var t := ArchiveItems(s, ids);
    forall i, j, agent, key | 0 <= i < j < |t.items|
      ensures !(HoldsKey(t.items[i], agent, key) && HoldsKey(t.items[j], agent, key))
    {
      assert !(HoldsKey(s.items[i], agent, key) && HoldsKey(s.items[j], agent, key));
    }
    forall it | it in t.items
      ensures Backed(lang, t.triples, it)
    {
      var i :| 0 <= i < |t.items| && t.items[i] == it;
      assert Backed(lang, s.triples, s.items[i]);
    }
  }

  // What becomes of an item when the key is taken over: only its active holder is archived.
  function Yielding(it: Item, agent: string, key: Key): Item {
    if it.active && it.agent == agent && it.key == Some(key) then it.(active := false) else it
  }

  lemma ResolveFreesKey(lang: Language, s: Store, agent: string, key: Key)
    requires OneTruth(lang, s)
    ensures var r := ResolveConflict(s, agent, key);
            OneTruth(lang, r) && r.triples == s.triples && |r.items| == |s.items|
            && (forall it | it in r.items :: !HoldsKey(it, agent, key))
            && forall i | 0 <= i < |s.items| :: r.items[i] == Yielding(s.items[i], agent, key)
  {
    match FindItem(s.items, agent, key) {
      case None =>
      case Some(prev) =>
        var r := ResolveConflict(s, agent, key);
        ArchiveKeepsTruth(lang, s, {prev});
        assert r.items == ArchiveItems(s, {prev}).items;
        forall i | 0 <= i < |r.items|
          ensures !HoldsKey(r.items[i], agent, key)
        {
          if i != prev {
            var lo, hi := if i < prev then i else prev, if i < prev then prev else i;
            assert !(HoldsKey(s.items[lo], agent, key) && HoldsKey(s.items[hi], agent, key));
          }
        }
    }
  }

  // The triples after an upsert, row by row: an active triple of the subject and predicate that states
  // the same keeps its row and the greater confidence; one that states something else is archived; a
  // new row is added unless the same was stated already; every other row stays.
  ghost predicate UpsertedRows(before: seq<Triple>, after: seq<Triple>, agent: string, item: nat, e: Extraction, confidence: nat) {
    var stated := exists t :: t in before && t.active && t.agent == agent && t.subject == e.subject && t.pred == e.pred && t.obj == e.obj;
    && |after| == |before| + (if stated then 0 else 1)
    && (forall i | 0 <= i < |before| ::
          var t := before[i];
          after[i] == if t.active && t.agent == agent && t.subject == e.subject && t.pred == e.pred then
                        if t.obj == e.obj then t.(confidence := if t.confidence < confidence then confidence else t.confidence)
                        else t.(active := false)
                      else t)
    && (!stated ==> after[|before|] == Triple(agent, item, e.subject, e.pred, e.obj, confidence, true))
  }

  lemma NoOtherStates(triples: seq<Triple>, p: nat, i: nat, agent: string, key: Key)
    requires OneTriplePerKey(triples) && p < |triples| && i < |triples| && i != p && StatesKey(triples[p], agent, key)
    ensures !StatesKey(triples[i], agent, key)
  {
    var lo, hi := if i < p then i else p, if i < p then p else i;
    assert !(StatesKey(triples[lo], agent, key) && StatesKey(triples[hi], agent, key));
  }

  lemma UpsertWritesRows(lang: Language, s: Store, agent: string, item: nat, e: Extraction, confidence: nat)
    requires Normalised(lang) && OneTriplePerKey(s.triples)
    requires lang.fold(e.subject) == e.subject && lang.fold(e.pred) == e.pred && lang.trim(e.obj) == e.obj
    requires forall t | t in s.triples :: lang.trim(t.obj) == t.obj
    ensures UpsertTriple(lang, s, agent, item, e, confidence).items == s.items
    ensures UpsertedRows(s.triples, UpsertTriple(lang, s, agent, item, e, confidence).triples, agent, item, e, confidence)
  {
    var key, r := KeyOf(e), UpsertTriple(lang, s, agent, item, e, confidence).triples;
    var found := FindTriple(s.triples, agent, key);
    forall i | 0 <= i < |s.triples| && found.Some? && i != found.value
      ensures !StatesKey(s.triples[i], agent, key)
    {
      NoOtherStates(s.triples, found.value, i, agent, key);
    }
    if found.Some? {
      assert s.triples[found.value] in s.triples;
    }
  }

  // What an upsert does to the triples: the key gets the new obj, every other key keeps its own.
  lemma UpsertStates(lang: Language, s: Store, agent: string, item: nat, e: Extraction, confidence: nat)
    requires Normalised(lang) && OneTriplePerKey(s.triples)
    requires lang.fold(e.subject) == e.subject && lang.fold(e.pred) == e.pred && lang.trim(e.obj) == e.obj
    requires forall t | t in s.triples :: lang.trim(t.obj) == t.obj
    ensures var r := UpsertTriple(lang, s, agent, item, e, confidence).triples;
            && OneTriplePerKey(r)
            && (forall t | t in r :: lang.trim(t.obj) == t.obj)
            && (exists t :: t in r && StatesKey(t, agent, KeyOf(e)) && t.obj == e.obj)
            && (forall t, a, k | t in s.triples && StatesKey(t, a, k) && (a != agent || k != KeyOf(e)) :: t in r)
  {
    var key, r := KeyOf(e), UpsertTriple(lang, s, agent, item, e, confidence).triples;
    match FindTriple(s.triples, agent, key) {
      case None =>
        assert r[|s.triples|] in r && StatesKey(r[|s.triples|], agent, key);
      case Some(prev) =>
        assert s.triples[prev] in s.triples;
        if s.triples[prev].obj == e.obj {
          assert r[prev] in r && StatesKey(r[prev], agent, key);
        } else {
          assert r[|s.triples|] in r && StatesKey(r[|s.triples|], agent, key);
        }
        forall t, a, k | t in s.triples && StatesKey(t, a, k) && (a != agent || k != key)
          ensures t in r
        {
          var i :| 0 <= i < |s.triples| && s.triples[i] == t;
          assert i != prev && r[i] == t;
        }
    }
    forall i, j, a, k | 0 <= i < j < |r|
      ensures !(StatesKey(r[i], a, k) && StatesKey(r[j], a, k))
    {
      UpsertUnique(lang, s, agent, item, e, confidence, i, j, a, k);
    }
  }

  lemma UpsertUnique(lang: Language, s: Store, agent: string, item: nat, e: Extraction, confidence: nat,
                     i: nat, j: nat, a: string, k: Key)
    requires OneTriplePerKey(s.triples)
    requires lang.fold(e.subject) == e.subject && lang.fold(e.pred) == e.pred
    requires i < j < |UpsertTriple(lang, s, agent, item, e, confidence).triples|
    ensures var r := UpsertTriple(lang, s, agent, item, e, confidence).triples;
            !(StatesKey(r[i], a, k) && StatesKey(r[j], a, k))
  {
    if j < |s.triples| {
      assert !(StatesKey(s.triples[i], a, k) && StatesKey(s.triples[j], a, k));
    } else {
      var prev := FindTriple(s.triples, agent, KeyOf(e));
      if prev.Some? && i != prev.value {
        var lo, hi := if i < prev.value then i else prev.value, if i < prev.value then prev.value else i;
        assert !(StatesKey(s.triples[lo], agent, KeyOf(e)) && StatesKey(s.triples[hi], agent, KeyOf(e)));
      }
    }
  }

  lemma InsertKeepsTruth(lang: Language, s: Store, f: Fact)
    requires Normalised(lang) && OneTruth(lang, s) && f.verdict.Accepted?
    ensures OneTruth(lang, Insert(lang, s, f))
  {
    var e, t := lang.extract(f.text), Insert(lang, s, f);
    if e.None? {
      forall i, j, agent, key | 0 <= i < j < |t.items|
        ensures !(HoldsKey(t.items[i], agent, key) && HoldsKey(t.items[j], agent, key))
      {
        if j < |s.items| {
          assert !(HoldsKey(s.items[i], agent, key) && HoldsKey(s.items[j], agent, key));
        }
      }
    } else {
      var key := KeyOf(e.value);
      var r := ResolveConflict(s, f.agent, key);
      ResolveFreesKey(lang, s, f.agent, key);
      var item := Item(f.agent, f.text, f.verdict.confidence, f.verdict.category, Some(key), true, f.text);
      var mid := r.(items := r.items + [item]);
      UpsertStates(lang, mid, f.agent, |s.items|, e.value, f.verdict.confidence);
      forall i, j, a, k | 0 <= i < j < |t.items|
        ensures !(HoldsKey(t.items[i], a, k) && HoldsKey(t.items[j], a, k))
      {
        if j < |r.items| {
          assert !(HoldsKey(r.items[i], a, k) && HoldsKey(r.items[j], a, k));
        } else {
          assert r.items[i] in r.items;
        }
      }
      forall it | it in t.items
        ensures Backed(lang, t.triples, it)
      {
        if it in r.items {
          assert Backed(lang, r.triples, it) && !HoldsKey(it, f.agent, key);
        }
      }
    }
  }

  // What an insert leaves: the key's active holder archived, every other item as it was, the new row
  // with the fact's own columns, and the triples as the upsert writes them.
  ghost predicate InsertedRows(lang: Language, s: Store, t: Store, f: Fact)
    requires f.verdict.Accepted?
  {
    var e, n := lang.extract(f.text), |s.items|;
    && |t.items| == n + 1
    && t.items[n] == Item(f.agent, f.text, f.verdict.confidence, f.verdict.category,
                          if e.Some? then Some(Key(e.value.subject, e.value.pred)) else None, true, f.text)
    && (forall i | 0 <= i < n ::
          t.items[i] == if e.Some? then Yielding(s.items[i], f.agent, Key(e.value.subject, e.value.pred)) else s.items[i])
    && (e.None? ==> t.triples == s.triples)
    && (e.Some? ==> UpsertedRows(s.triples, t.triples, f.agent, n, e.value, f.verdict.confidence))
  }

  lemma InsertWritesRows(lang: Language, s: Store, f: Fact)
    requires Normalised(lang) && OneTruth(lang, s) && f.verdict.Accepted?
    ensures InsertedRows(lang, s, Insert(lang, s, f), f)
  {
    var e := lang.extract(f.text);
    if e.Some? {
      var key := Key(e.value.subject, e.value.pred);
      ResolveFreesKey(lang, s, f.agent, key);
      var r := ResolveConflict(s, f.agent, key);
      var item := Item(f.agent, f.text, f.verdict.confidence, f.verdict.category, Some(key), true, f.text);
      UpsertWritesRows(lang, r.(items := r.items + [item]), f.agent, |s.items|, e.value, f.verdict.confidence);
    }
  }

  ghost predicate MergedRows(s: Store, t: Store, id: nat, text: string) {
    && t.triples == s.triples && |t.items| == |s.items| && id < |s.items|
    && (forall i | 0 <= i < |s.items| && i != id :: t.items[i] == s.items[i])
    && t.items[id] == s.items[id].(text := text, confidence := if s.items[id].confidence + 5 < 100 then s.items[id].confidence + 5 else 100)
  }

  // What each outcome of a store leaves in the tables.
  ghost predicate StoredRows(lang: Language, s: Store, t: Store, f: Fact, outcome: Outcome) {
    match outcome
    case Refused => t == s
    case Merged => f.similar.Some? && MergedRows(s, t, f.similar.value, f.text)
    case Inserted => f.verdict.Accepted? && InsertedRows(lang, s, t, f)
  }

  // ---------------------------------------------------------------- every run

  // Decay, recall and sentiment write none of the columns above.
  datatype Op = StoreOne(fact: Fact) | Archive(ids: set<nat>) | Maintain

  function Apply(lang: Language, s: Store, op: Op): Store {
    match op
    case StoreOne(fact) => if Plausible(s, fact) then AfterStore(lang, s, fact) else s
    case Archive(ids) => ArchiveItems(s, ids)
    case Maintain => s
  }

  function Run(lang: Language, ops: seq<Op>): Store {
    if ops == [] then Store([], []) else Apply(lang, Run(lang, ops[..|ops| - 1]), ops[|ops| - 1])
  }

  lemma {:induction false} EveryRunKeepsOneTruth(lang: Language, ops: seq<Op>)
    requires Normalised(lang)
    ensures OneTruth(lang, Run(lang, ops))
    decreases |ops|
  {
    if ops != [] {
      var s := Run(lang, ops[..|ops| - 1]);
      EveryRunKeepsOneTruth(lang, ops[..|ops| - 1]);
      match ops[|ops| - 1] {
        case StoreOne(f) =>
          if Plausible(s, f) {
            StoreKeepsTruth(lang, s, f);
          }
        case Archive(ids) => ArchiveKeepsTruth(lang, s, ids);
        case Maintain =>
      }
    }
  }

  lemma StoreKeepsTruth(lang: Language, s: Store, f: Fact)
    requires Normalised(lang) && OneTruth(lang, s) && Plausible(s, f)
    ensures OneTruth(lang, AfterStore(lang, s, f))
  {
    match OutcomeOf(f) {
      case Refused =>
      case Merged => MergeKeepsTruth(lang, s, f.similar.value, f.text);
      case Inserted => InsertKeepsTruth(lang, s, f);
    }
  }

  // The one triple of an active item agrees with the item's current text exactly when the text still
  // says what it said at insertion: a merge replaces the text and leaves the triple alone.
  lemma TripleAgreesWithTextIff(lang: Language, ops: seq<Op>, i: nat)
    requires Normalised(lang) && i < |Run(lang, ops).items|
    requires Run(lang, ops).items[i].active && Run(lang, ops).items[i].key.Some?
    ensures var s := Run(lang, ops); var it := s.items[i];
            (exists t :: t in s.triples && StatesKey(t, it.agent, it.key.value)
                         && lang.extract(it.text) == Some(Extraction(t.subject, t.pred, t.obj)))
            <==> lang.extract(it.text) == lang.extract(it.firstText)
  {
    EveryRunKeepsOneTruth(lang, ops);
    var s := Run(lang, ops);
    var it := s.items[i];
    assert it in s.items && Backed(lang, s.triples, it);
    var e := lang.extract(it.firstText).value;
    var t :| t in s.triples && StatesKey(t, it.agent, it.key.value) && t.obj == e.obj;
    assert Some(Extraction(t.subject, t.pred, t.obj)) == lang.extract(it.firstText);
    forall u | u in s.triples && StatesKey(u, it.agent, it.key.value)
      ensures u == t
    {
      var m :| 0 <= m < |s.triples| && s.triples[m] == t;
      var n :| 0 <= n < |s.triples| && s.triples[n] == u;
      assert m == n;
    }
  }

  // What a caller can check before merging a text into item i: the text states what the key's
  // active triple states.
  predicate SaysTheSame(lang: Language, s: Store, i: nat, text: string)
    requires i < |s.items| && s.items[i].key.Some?
  {
    match FindTriple(s.triples, s.items[i].agent, s.items[i].key.value)
    case None => false
    case Some(p) =>
      lang.extract(text) == Some(Extraction(s.triples[p].subject, s.triples[p].pred, s.triples[p].obj))
  }

  // A merge leaves an item's text and its triple in agreement exactly when that check holds.
  lemma MergeAgreesIff(lang: Language, ops: seq<Op>, i: nat, text: string)
    requires Normalised(lang) && i < |Run(lang, ops).items|
    requires Run(lang, ops).items[i].active && Run(lang, ops).items[i].key.Some?
    ensures var s := Run(lang, ops); var m := Merge(s, i, text); var it := m.items[i];
            it.key.Some? &&
            ((exists t :: t in m.triples && StatesKey(t, it.agent, it.key.value)
                          && lang.extract(it.text) == Some(Extraction(t.subject, t.pred, t.obj)))
             <==> SaysTheSame(lang, s, i, text))
  {
    EveryRunKeepsOneTruth(lang, ops);
    var s := Run(lang, ops);
    var it := s.items[i];
    assert it in s.items && Backed(lang, s.triples, it);
    var p := FindTriple(s.triples, it.agent, it.key.value);
    assert p.Some?;
    forall u | u in s.triples && StatesKey(u, it.agent, it.key.value)
      ensures u == s.triples[p.value]
    {
      var n :| 0 <= n < |s.triples| && s.triples[n] == u;
      assert n == p.value;
    }
  }

  // Two facts that differ in their object, the second merged into the first, drift apart.
  lemma MergedTextDrifts(lang: Language, agent: string, a: string, b: string)
    requires Normalised(lang) && lang.extract(a).Some? && lang.extract(b).Some?
    requires lang.extract(a).value.obj != lang.extract(b).value.obj
    ensures var ops := [StoreOne(Fact(agent, a, Accepted(70, None), None)),
                        StoreOne(Fact(agent, b, Accepted(70, None), Some(0)))];
            var s := Run(lang, ops);
            |s.items| == 1 && s.items[0].active && s.items[0].key.Some? && s.items[0].text == b
            && |s.triples| == 1 && s.triples[0].active && s.triples[0].obj == lang.extract(a).value.obj
  {
    var first, second := StoreOne(Fact(agent, a, Accepted(70, None), None)), StoreOne(Fact(agent, b, Accepted(70, None), Some(0)));
    assert [first, second][..1] == [first] && [first][..0] == [];
    assert Run(lang, [first]) == Apply(lang, Store([], []), first);
    assert Run(lang, [first, second]) == Apply(lang, Run(lang, [first]), second);
  }

  // ---------------------------------------------------------------- a flush

  // A similarity search only ever returns what it may return.
  ghost predicate Searches(search: (Store, Fact) -> Option<nat>) {
    forall s, f :: Plausible(s, Matched(search, s, f))
  }

  function Matched(search: (Store, Fact) -> Option<nat>, s: Store, f: Fact): Fact {
    f.(similar := search(s, f))
  }

  ghost function AfterFlush(lang: Language, search: (Store, Fact) -> Option<nat>, s: Store, facts: seq<Fact>): Store
    requires Searches(search)
  {
    if facts == [] then s
    else
      var before := AfterFlush(lang, search, s, facts[..|facts| - 1]);
      AfterStore(lang, before, Matched(search, before, facts[|facts| - 1]))
  }

  // The facts the write gate refuses.
  function RefusedOf(facts: seq<Fact>): seq<Fact> {
    if facts == [] then []
    else RefusedOf(facts[..|facts| - 1]) + if facts[|facts| - 1].verdict.Rejected? then [facts[|facts| - 1]] else []
  }

  // ---------------------------------------------------------------- the memory manager

  class MemoryManager {
    var items: seq<Item>
    var triples: seq<Triple>
    const lang: Language

    ghost function Contents(): Store
      reads this
    {
      Store(items, triples)
    }

    ghost predicate Valid()
      reads this
    {
      Normalised(lang) && OneTruth(lang, Contents())
    }

    constructor (lang: Language)
      requires Normalised(lang)
      ensures Valid() && Contents() == Store([], [])
    {
      this.lang := lang;
      items, triples := [], [];
    }

    method CheckAndDedup(f: Fact) returns (merged: bool)
      requires Valid() && f.verdict.Accepted? && Plausible(Contents(), f)
      modifies this`items
      ensures Valid() && merged == f.similar.Some?
      ensures Contents() == if merged then Merge(old(Contents()), f.similar.value, f.text) else old(Contents())
      ensures |items| == |old(items)|
      ensures forall i | 0 <= i < |items| :: f.similar != Some(i) ==> items[i] == old(items)[i]
      ensures merged ==>
                var id := f.similar.value;
                items[id] == old(items)[id].(text := f.text,
                                             confidence := if old(items)[id].confidence + 5 < 100 then old(items)[id].confidence + 5 else 100)
    {
      merged := f.similar.Some?;
      if merged {
        MergeKeepsTruth(lang, Contents(), f.similar.value, f.text);
        var prev := items[f.similar.value];
        items := items[f.similar.value := prev.(text := f.text, confidence := Min(prev.confidence + CONFIDENCE_BUMP, MAX_CONFIDENCE))];
      }
    }

    method CheckAndResolveConflict(agent: string, key: Key) returns (hasConflict: bool)
      requires Valid()
      modifies this`items
      ensures Valid() && Contents() == ResolveConflict(old(Contents()), agent, key)
      ensures hasConflict <==> exists it :: it in old(items) && it.active && it.agent == agent && it.key == Some(key)
      ensures forall it | it in items :: !HoldsKey(it, agent, key)
      ensures |items| == |old(items)|
      ensures forall i | 0 <= i < |items| ::
                var was := old(items)[i];
                items[i] == if was.active && was.agent == agent && was.key == Some(key) then was.(active := false) else was
    {
      ResolveFreesKey(lang, Contents(), agent, key);
      var existing := FindItem(items, agent, key);
      hasConflict := existing.Some?;
      if hasConflict {
        assert items[existing.value] in items;
        items := items[existing.value := items[existing.value].(active := false)];
      }
    }

    // Each key keeps one active triple between the archive and the insert, as the unique index demands.
    method UpsertTripleRow(agent: string, item: nat, e: Extraction, confidence: nat)
      modifies this`triples
      ensures Contents() == UpsertTriple(lang, old(Contents()), agent, item, e, confidence)
    {
      var key := Key(lang.fold(e.subject), lang.fold(e.pred));
      var obj := lang.trim(e.obj);
      var existing := FindTriple(triples, agent, key);
      if existing.Some? {
        var row := triples[existing.value];
        if lang.trim(row.obj) == obj {
          triples := triples[existing.value := row.(confidence := Max(row.confidence, confidence))];
          return;
        }
        triples := triples[existing.value := row.(active := false)];
      }
      triples := triples + [Triple(agent, item, key.subject, key.pred, obj, confidence, true)];
    }

    method StoreFact(f: Fact) returns (outcome: Outcome)
      requires Valid() && Plausible(Contents(), f)
      modifies this
      ensures Valid() && Contents() == AfterStore(lang, old(Contents()), f)
      ensures outcome == if f.verdict.Rejected? then Refused else if f.similar.Some? then Merged else Inserted
      ensures StoredRows(lang, old(Contents()), Contents(), f, outcome)
      ensures |items| == |old(items)| + if outcome == Inserted then 1 else 0
    {
      StoreKeepsTruth(lang, Contents(), f);
      if f.verdict.Accepted? {
        InsertWritesRows(lang, Contents(), f);
      }
      if f.verdict.Rejected? {
        return Refused;
      }
      var merged := CheckAndDedup(f);
      if merged {
        return Merged;
      }
      var extracted := lang.extract(f.text);
      if extracted.Some? {
        var _ := CheckAndResolveConflict(f.agent, KeyOf(extracted.value));
      }
      var id := |items|;
      items := items + [Item(f.agent, f.text, f.verdict.confidence, f.verdict.category,
                             if extracted.Some? then Some(KeyOf(extracted.value)) else None, true, f.text)];
      if extracted.Some? {
        UpsertTripleRow(f.agent, id, extracted.value, f.verdict.confidence);
      }
      outcome := Inserted;
    }

    // Every flushed fact goes through the pipeline in turn, matched against the tables as they are
    // by then, and is counted once.
    method FlushWorkingMemory(facts: seq<Fact>, search: (Store, Fact) -> Option<nat>)
      returns (flushed: nat, stored: nat, rejected: nat, merged: nat)
      requires Valid() && Searches(search)
      modifies this
      ensures Valid() && Contents() == AfterFlush(lang, search, old(Contents()), facts)
      ensures flushed == |facts| == stored + rejected + merged
      ensures rejected == |RefusedOf(facts)|
      ensures |items| == |old(items)| + stored
    {
      stored, rejected, merged := 0, 0, 0;
      for i := 0 to |facts|
        invariant Valid() && Contents() == AfterFlush(lang, search, old(Contents()), facts[..i])
        invariant i == stored + rejected + merged && rejected == |RefusedOf(facts[..i])|
        invariant |items| == |old(items)| + stored
      {
        assert facts[..i + 1][..i] == facts[..i];
        var outcome := StoreFact(Matched(search, Store(items, triples), facts[i]));
        match outcome
        case Merged => merged := merged + 1;
        case Inserted => stored := stored + 1;
        case Refused => rejected := rejected + 1;
      }
      assert facts[..|facts|] == facts;
      flushed := |facts|;
    }
  }
}
