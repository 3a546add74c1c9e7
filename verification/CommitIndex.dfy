/**
  The AgentHub commit index.  Git is a finite, acyclic first-parent map; the index is the
  `commits` table.  A push hands a list of hashes to one transaction, which inserts the
  missing ones together with missing first parents as rows without an agent ("stubs").
 */
module CommitIndex {
  import opened Common

  type Hash = string
  const NO_PARENT: Hash := ""

  datatype Info = Info(parent: Hash, message: string)
  type Git = map<Hash, Info>
  datatype Row = Row(parent: Hash, agent: Option<string>, message: string)
  type Index = map<Hash, Row>

  // ---------------------------------------------------------------- git and the index

  // Hashes are content hashes, so a parent is always older than its child.
  ghost predicate Acyclic(git: Git, rank: Hash -> nat) {
    NO_PARENT !in git && forall h | h in git && git[h].parent != NO_PARENT :: rank(git[h].parent) < rank(h)
  }

  // What a failed lookup whose error is ignored leaves behind: two empty strings.
  function InfoOf(git: Git, h: Hash): Info {
    if h in git then git[h] else Info(NO_PARENT, "")
  }

  function Stub(git: Git, h: Hash): Row {
    Row(InfoOf(git, h).parent, None, InfoOf(git, h).message)
  }

  // One turn of the indexing loop; None is an error, which rolls the transaction back.
  function IndexOne(git: Git, agent: string, ix: Index, h: Hash): Option<Index> {
    if h in ix then Some(ix)          // a stub counts as existing: its scan error is ignored
    else if h !in git then None
    else
      var p := git[h].parent;
      var tx := if p != NO_PARENT && p !in ix then ix[p := Stub(git, p)] else ix;
      if h in tx then None            // primary-key conflict
      else Some(tx[h := Row(p, Some(agent), git[h].message)])
  }

  function IndexAll(git: Git, agent: string, ix: Index, list: seq<Hash>): Option<Index> {
    if list == [] then Some(ix)
    else match IndexAll(git, agent, ix, list[..|list| - 1])
      case None => None
      case Some(tx) => IndexOne(git, agent, tx, list[|list| - 1])
  }

  // Every row says what git says.
  ghost predicate Faithful(git: Git, ix: Index) {
    NO_PARENT !in ix &&
    forall h | h in ix :: ix[h].parent == InfoOf(git, h).parent && ix[h].message == InfoOf(git, h).message
  }

  ghost predicate Closed(ix: Index) {
    forall h | h in ix && ix[h].parent != NO_PARENT :: ix[h].parent in ix
  }

  // The pushed hashes together with the index are closed under first parent.
  ghost predicate ClosedWith(git: Git, ix: Index, list: seq<Hash>) {
    forall h | h in ix.Keys || h in list ::
      InfoOf(git, h).parent == NO_PARENT || InfoOf(git, h).parent in ix || InfoOf(git, h).parent in list
  }

  ghost predicate StubsHaveChildren(ix: Index) {
    forall h | h in ix && ix[h].agent == None :: exists c :: c in ix && ix[c].parent == h
  }

  function Content(ix: Index): map<Hash, Info> {
    map h | h in ix :: Info(ix[h].parent, ix[h].message)
  }

  // ---------------------------------------------------------------- what one push does

  // A listed hash whose row is new and carries the pushing agent.
  predicate Fresh(ix: Index, tx: Index, h: Hash) {
    h !in ix && h in tx && tx[h].agent.Some?
  }

  ghost predicate KeepsOldRows(git: Git, ix: Index, list: seq<Hash>, tx: Index) {
    && (forall h | h in ix :: h in tx && tx[h] == ix[h])
    && (forall h | h in list :: h in tx)
    && Faithful(git, tx)
  }

  ghost predicate CreditsListed(agent: string, ix: Index, list: seq<Hash>, tx: Index) {
    forall h | Fresh(ix, tx, h) ::
      h in list && tx[h].agent == Some(agent) && (tx[h].parent == NO_PARENT || tx[h].parent in tx)
  }

  ghost predicate StubsExplained(ix: Index, tx: Index) {
    forall h | h in tx && h !in ix && tx[h].agent == None :: exists c :: Fresh(ix, tx, c) && tx[c].parent == h
  }

  // Everything a successful push does to the table, whatever the order of the list.
  ghost predicate PushEffect(git: Git, agent: string, ix: Index, list: seq<Hash>, tx: Index) {
    KeepsOldRows(git, ix, list, tx) && CreditsListed(agent, ix, list, tx) && StubsExplained(ix, tx)
  }

  lemma {:induction false} PushWorks(git: Git, rank: Hash -> nat, agent: string, ix: Index, list: seq<Hash>)
    requires Acyclic(git, rank) && Faithful(git, ix)
    requires forall h | h in list :: h in git
    ensures IndexAll(git, agent, ix, list).Some?
    ensures PushEffect(git, agent, ix, list, IndexAll(git, agent, ix, list).value)
  {
    if list != [] {
      var init, h := list[..|list| - 1], list[|list| - 1];
      assert list == init + [h];
      PushWorks(git, rank, agent, ix, init);
      var mid := IndexAll(git, agent, ix, init).value;
      OneInserts(git, rank, agent, ix, init, mid, h);
      OneCredits(git, agent, ix, init, mid, h);
      OneExplains(git, agent, ix, mid, h);
    }
  }

  // Whatever the list, git unknowing of some of it or not: a push that succeeds has this effect.
  lemma {:induction false} SuccessEffect(git: Git, rank: Hash -> nat, agent: string, ix: Index, list: seq<Hash>)
    requires Acyclic(git, rank) && Faithful(git, ix) && IndexAll(git, agent, ix, list).Some?
    ensures PushEffect(git, agent, ix, list, IndexAll(git, agent, ix, list).value)
  {
    if list != [] {
      var init, h := list[..|list| - 1], list[|list| - 1];
      assert list == init + [h];
      SuccessEffect(git, rank, agent, ix, init);
      var mid := IndexAll(git, agent, ix, init).value;
      if h in git {
        OneInserts(git, rank, agent, ix, init, mid, h);
      }
      OneCredits(git, agent, ix, init, mid, h);
      OneExplains(git, agent, ix, mid, h);
    }
  }

  // No insert ever meets a primary-key conflict.
  lemma OneInserts(git: Git, rank: Hash -> nat, agent: string, ix: Index, init: seq<Hash>, mid: Index, h: Hash)
    requires Acyclic(git, rank) && KeepsOldRows(git, ix, init, mid) && h in git
    ensures IndexOne(git, agent, mid, h).Some?
    ensures KeepsOldRows(git, ix, init + [h], IndexOne(git, agent, mid, h).value)
  {
    assert git[h].parent != h;
  }

  lemma OneCredits(git: Git, agent: string, ix: Index, init: seq<Hash>, mid: Index, h: Hash)
    requires CreditsListed(agent, ix, init, mid) && IndexOne(git, agent, mid, h).Some?
    ensures CreditsListed(agent, ix, init + [h], IndexOne(git, agent, mid, h).value)
  {
    var tx := IndexOne(git, agent, mid, h).value;
    forall k | Fresh(ix, tx, k)
      ensures k in init + [h] && tx[k].agent == Some(agent) && (tx[k].parent == NO_PARENT || tx[k].parent in tx)
    {
      assert k != h ==> Fresh(ix, mid, k);
    }
  }

  lemma OneExplains(git: Git, agent: string, ix: Index, mid: Index, h: Hash)
    requires StubsExplained(ix, mid) && IndexOne(git, agent, mid, h).Some?
    requires forall k | k in ix :: k in mid
    ensures StubsExplained(ix, IndexOne(git, agent, mid, h).value)
  {
    var tx := IndexOne(git, agent, mid, h).value;
    forall k | k in tx && k !in ix && tx[k].agent == None
      ensures exists c :: Fresh(ix, tx, c) && tx[c].parent == k
    {
      if k in mid {
        var c :| Fresh(ix, mid, c) && mid[c].parent == k;
        assert Fresh(ix, tx, c);
      } else {
        assert Fresh(ix, tx, h) && tx[h].parent == k;
      }
    }
  }

  // With the closure that `rev-list` and the bundle prerequisites give, the index stays closed,
  // holds exactly the old rows and the pushed hashes, and keeps git's parents.
  lemma PushKeepsIndexClosed(git: Git, rank: Hash -> nat, agent: string, ix: Index, list: seq<Hash>)
    requires Acyclic(git, rank) && Faithful(git, ix) && ClosedWith(git, ix, list)
    requires forall h | h in list :: h in git
    ensures var r := IndexAll(git, agent, ix, list);
            r.Some? && Closed(r.value) && Faithful(git, r.value)
            && r.value.Keys == ix.Keys + set h | h in list
  {
    PushWorks(git, rank, agent, ix, list);
    var tx := IndexAll(git, agent, ix, list).value;
    forall h | h in tx
      ensures h in ix || h in list
    {
      if h !in ix && tx[h].agent == None {
        var c :| Fresh(ix, tx, c) && tx[c].parent == h;
        assert c in list && InfoOf(git, c).parent == h;
      } else if h !in ix {
        assert Fresh(ix, tx, h);
      }
    }
  }

  lemma SameKeysSameContent(git: Git, a: Index, b: Index)
    requires Faithful(git, a) && Faithful(git, b) && a.Keys == b.Keys
    ensures Content(a) == Content(b)
  {
    assert forall h | h in a :: h in a.Keys && h in b.Keys;
  }

  lemma ClosedPushIgnoresOrder(git: Git, rank: Hash -> nat, agent: string, ix: Index, list: seq<Hash>, other: seq<Hash>)
    requires Acyclic(git, rank) && Faithful(git, ix) && ClosedWith(git, ix, list)
    requires forall h | h in list :: h in git
    requires forall h :: h in list <==> h in other
    ensures var r, q := IndexAll(git, agent, ix, list), IndexAll(git, agent, ix, other);
            r.Some? && q.Some? && Content(r.value) == Content(q.value)
  {
    PushKeepsIndexClosed(git, rank, agent, ix, list);
    PushKeepsIndexClosed(git, rank, agent, ix, other);
    SameKeysSameContent(git, IndexAll(git, agent, ix, list).value, IndexAll(git, agent, ix, other).value);
  }

  lemma {:induction false} NothingNew(git: Git, agent: string, tx: Index, list: seq<Hash>)
    requires forall h | h in list :: h in tx
    ensures IndexAll(git, agent, tx, list) == Some(tx)
  {
    if list != [] {
      var init := list[..|list| - 1];
      assert list == init + [list[|list| - 1]];
      NothingNew(git, agent, tx, init);
    }
  }

  // Pushing the same list again, as any agent, changes nothing.
  lemma RepushChangesNothing(git: Git, rank: Hash -> nat, agent: string, again: string, ix: Index, list: seq<Hash>)
    requires Acyclic(git, rank) && Faithful(git, ix)
    requires forall h | h in list :: h in git
    ensures var r := IndexAll(git, agent, ix, list);
            r.Some? && IndexAll(git, again, r.value, list) == r
  {
    PushWorks(git, rank, agent, ix, list);
    NothingNew(git, again, IndexAll(git, agent, ix, list).value, list);
  }

  // ---------------------------------------------------------------- who gets the credit

  // Each new commit's new listed parent comes earlier in the list.
  ghost predicate ParentsFirst(git: Git, ix: Index, list: seq<Hash>) {
    forall i | 0 <= i < |list| && list[i] !in ix ::
      var p := InfoOf(git, list[i]).parent; p in list && p !in ix ==> p in list[..i]
  }

  ghost predicate AllCredited(agent: string, ix: Index, list: seq<Hash>, tx: Index) {
    forall h | h in list && h !in ix :: h in tx && tx[h].agent == Some(agent)
  }

  lemma PrefixWorks(git: Git, rank: Hash -> nat, agent: string, ix: Index, list: seq<Hash>, n: nat)
    requires Acyclic(git, rank) && Faithful(git, ix) && n <= |list|
    requires forall h | h in list :: h in git
    ensures var r := IndexAll(git, agent, ix, list[..n]);
            r.Some? && forall k | k in ix.Keys || k in list[..n] :: k in r.value
  {
    PushWorks(git, rank, agent, ix, list[..n]);
  }

  lemma {:induction false} ParentsFirstCredits(git: Git, rank: Hash -> nat, agent: string, ix: Index, list: seq<Hash>, n: nat)
    requires Acyclic(git, rank) && Faithful(git, ix) && n <= |list|
    requires forall h | h in list :: h in git
    requires ParentsFirst(git, ix, list)
    ensures var r := IndexAll(git, agent, ix, list[..n]);
            r.Some? && forall h | h in list && h !in ix && h in r.value :: r.value[h].agent == Some(agent)
    decreases n
  {
    PrefixWorks(git, rank, agent, ix, list, n);
    if n == 0 {
      assert list[..n] == [];
    } else {
      var h, before := list[n - 1], list[..n - 1];
      assert h in list && list[..n][..n - 1] == before;
      ParentsFirstCredits(git, rank, agent, ix, list, n - 1);
      PrefixWorks(git, rank, agent, ix, list, n - 1);
      assert IndexAll(git, agent, ix, list[..n]) == IndexOne(git, agent, IndexAll(git, agent, ix, before).value, h);
      CreditStep(git, agent, ix, list, before, IndexAll(git, agent, ix, before).value, h);
    }
  }

  lemma CreditStep(git: Git, agent: string, ix: Index, list: seq<Hash>, before: seq<Hash>, mid: Index, h: Hash)
    requires h in git && IndexOne(git, agent, mid, h).Some?
    requires forall k | k in ix.Keys || k in before :: k in mid
    requires forall k | k in list && k !in ix && k in mid :: mid[k].agent == Some(agent)
    requires h !in ix && git[h].parent in list && git[h].parent !in ix ==> git[h].parent in before
    ensures var tx := IndexOne(git, agent, mid, h).value;
            forall k | k in list && k !in ix && k in tx :: tx[k].agent == Some(agent)
  {
  }

  // Rows are never touched once they are in.
  lemma {:induction false} RowsPersist(git: Git, agent: string, ix: Index, list: seq<Hash>, n: nat)
    requires n <= |list| && IndexAll(git, agent, ix, list).Some?
    ensures var r := IndexAll(git, agent, ix, list[..n]);
            r.Some? && forall h | h in r.value :: h in IndexAll(git, agent, ix, list).value
                                                && IndexAll(git, agent, ix, list).value[h] == r.value[h]
    decreases |list| - n
  {
    if n == |list| {
      assert list[..n] == list;
    } else {
      RowsPersist(git, agent, ix, list, n + 1);
      assert list[..n + 1][..n] == list[..n];
    }
  }

  function FirstAt(list: seq<Hash>, h: Hash): (i: nat)
    requires h in list
    ensures i < |list| && list[i] == h && h !in list[..i]
  {
    if list[0] == h then 0
    else
      var i := 1 + FirstAt(list[1..], h);
      assert list[..i] == [list[0]] + list[1..][..i - 1];
      i
  }

  // A new child handled before its new parent leaves one of the two without an agent.
  lemma ChildBeforeParent(git: Git, agent: string, ix: Index, before: seq<Hash>, mid: Index, c: Hash)
    requires PushEffect(git, agent, ix, before, mid)
    requires c in git && c !in ix && c !in before
    requires git[c].parent !in ix && git[c].parent !in before && git[c].parent != NO_PARENT
    requires IndexOne(git, agent, mid, c).Some?
    ensures var tx := IndexOne(git, agent, mid, c).value;
            (c in tx && tx[c].agent == None) || (git[c].parent in tx && tx[git[c].parent].agent == None)
  {
    assert !Fresh(ix, mid, c) && !Fresh(ix, mid, git[c].parent);
  }

  lemma EarlyChild(git: Git, rank: Hash -> nat, agent: string, ix: Index, list: seq<Hash>, j: nat) returns (k: Hash)
    requires Acyclic(git, rank) && Faithful(git, ix)
    requires forall h | h in list :: h in git
    requires j < |list| && list[j] in git && list[j] !in ix && list[j] !in list[..j]
    requires var p := git[list[j]].parent; p in list && p !in ix && p !in list[..j]
    ensures k in list && k !in ix
    ensures var r := IndexAll(git, agent, ix, list[..j + 1]);
            r.Some? && k in r.value && r.value[k].agent == None
  {
    var c := list[j];
    assert list[..j + 1][..j] == list[..j] && list[..j + 1][j] == c && git[c].parent in git;
    PrefixWorks(git, rank, agent, ix, list, j + 1);
    PushWorks(git, rank, agent, ix, list[..j]);
    var mid := IndexAll(git, agent, ix, list[..j]).value;
    ChildBeforeParent(git, agent, ix, list[..j], mid, c);
    var tx := IndexOne(git, agent, mid, c).value;
    k := if tx[c].agent == None then c else git[c].parent;
  }

  lemma CreditsNeedParentsFirst(git: Git, rank: Hash -> nat, agent: string, ix: Index, list: seq<Hash>, i: nat)
    requires Acyclic(git, rank) && Faithful(git, ix)
    requires forall h | h in list :: h in git
    requires i < |list| && list[i] in git && list[i] !in ix
    requires var p := git[list[i]].parent; p in list && p !in ix && p !in list[..i]
    ensures var r := IndexAll(git, agent, ix, list);
            r.Some? && !AllCredited(agent, ix, list, r.value)
  {
    var j := FirstAt(list, list[i]);
    assert j <= i && list[..j] <= list[..i];
    PrefixWorks(git, rank, agent, ix, list, |list|);
    assert list[..|list|] == list;
    var k := EarlyChild(git, rank, agent, ix, list, j);
    RowsPersist(git, agent, ix, list, j + 1);
  }

  // Every new listed commit is credited to the pushing agent exactly when parents come first.
  // (The default order of `rev-list` is the other way round.)
  lemma CreditIffParentsFirst(git: Git, rank: Hash -> nat, agent: string, ix: Index, list: seq<Hash>)
    requires Acyclic(git, rank) && Faithful(git, ix)
    requires forall h | h in list :: h in git
    ensures var r := IndexAll(git, agent, ix, list);
            r.Some? && (AllCredited(agent, ix, list, r.value) <==> ParentsFirst(git, ix, list))
  {
    PushWorks(git, rank, agent, ix, list);
    if ParentsFirst(git, ix, list) {
      ParentsFirstCredits(git, rank, agent, ix, list, |list|);
      assert list[..|list|] == list;
    } else {
      var i :| 0 <= i < |list| && list[i] !in ix
               && InfoOf(git, list[i]).parent in list && InfoOf(git, list[i]).parent !in ix
               && InfoOf(git, list[i]).parent !in list[..i];
      assert list[i] in list;
      CreditsNeedParentsFirst(git, rank, agent, ix, list, i);
    }
  }

  // ---------------------------------------------------------------- when the order of a push matters

  predicate NewIn(ix: Index, s: set<Hash>, h: Hash) {
    h in s && h !in ix
  }

  ghost predicate Tip(git: Git, ix: Index, s: set<Hash>, h: Hash) {
    NewIn(ix, s, h) && forall c | NewIn(ix, s, c) :: InfoOf(git, c).parent != h
  }

  // Neither indexed nor pushed, yet the parent of a new pushed commit.
  ghost predicate Dangling(git: Git, ix: Index, s: set<Hash>, g: Hash) {
    g != NO_PARENT && g !in ix && g !in s && exists h :: NewIn(ix, s, h) && InfoOf(git, h).parent == g
  }

  ghost predicate DanglingParentsHaveTips(git: Git, ix: Index, s: set<Hash>) {
    forall g | Dangling(git, ix, s, g) :: exists t :: Tip(git, ix, s, t) && InfoOf(git, t).parent == g
  }

  ghost function Elements(list: seq<Hash>): set<Hash> {
    set h | h in list
  }

  ghost predicate OrderIsIrrelevant(git: Git, agent: string, ix: Index, s: set<Hash>) {
    forall a, b | Elements(a) == s && Elements(b) == s ::
      var r, q := IndexAll(git, agent, ix, a), IndexAll(git, agent, ix, b);
      r.Some? && q.Some? && Content(r.value) == Content(q.value)
  }

  lemma PushWithTips(git: Git, rank: Hash -> nat, agent: string, ix: Index, list: seq<Hash>)
    requires Acyclic(git, rank) && Faithful(git, ix)
    requires forall h | h in list :: h in git
    requires DanglingParentsHaveTips(git, ix, Elements(list))
    ensures var r := IndexAll(git, agent, ix, list);
            r.Some? && Faithful(git, r.value)
            && forall h :: h in r.value <==> h in ix || h in list || Dangling(git, ix, Elements(list), h)
  {
    PushWorks(git, rank, agent, ix, list);
    var tx, s := IndexAll(git, agent, ix, list).value, Elements(list);
    forall h
      ensures h in tx <==> h in ix || h in list || Dangling(git, ix, s, h)
    {
      if h in tx && h !in ix && h !in list {
        assert !Fresh(ix, tx, h);
        var c :| Fresh(ix, tx, c) && tx[c].parent == h;
        assert NewIn(ix, s, c) && InfoOf(git, c).parent == h;
      }
      if Dangling(git, ix, s, h) {
        var t :| Tip(git, ix, s, t) && InfoOf(git, t).parent == h;
        forall c | Fresh(ix, tx, c)
          ensures tx[c].parent != t
        {
          assert NewIn(ix, s, c);
        }
        assert Fresh(ix, tx, t);
      }
    }
  }

  ghost function ListOf(s: set<Hash>): (list: seq<Hash>)
    ensures Elements(list) == s
  {
    if s == {} then []
    else
      var h :| h in s;
      var rest := ListOf(s - {h});
      assert forall k :: k in rest <==> k in Elements(rest);
      assert forall k :: k in [h] + rest <==> k == h || k in rest;
      [h] + rest
  }

  // The new listed children of the new listed children of g.
  ghost function Grandchildren(git: Git, ix: Index, s: set<Hash>, g: Hash): set<Hash> {
    set c | c in s && NewIn(ix, s, c) && NewIn(ix, s, InfoOf(git, c).parent)
            && InfoOf(git, InfoOf(git, c).parent).parent == g
  }

  // Pushing the grandchildren first turns every child of g into a stub, which keeps g out.
  lemma {:induction false} GrandchildrenFirst(git: Git, rank: Hash -> nat, agent: string, ix: Index, s: set<Hash>, g: Hash,
                                              first: seq<Hash>, rest: seq<Hash>)
    requires Acyclic(git, rank) && Faithful(git, ix) && Dangling(git, ix, s, g)
    requires forall t | Tip(git, ix, s, t) :: InfoOf(git, t).parent != g
    requires forall h | h in s :: h in git
    requires Elements(first) == Grandchildren(git, ix, s, g) && Elements(rest) <= s
    ensures var r := IndexAll(git, agent, ix, first + rest);
            r.Some? && g !in r.value && (forall k | k in ix :: k in r.value)
            && forall h | NewIn(ix, s, h) && InfoOf(git, h).parent == g :: h in r.value
    decreases |rest|
  {
    assert forall h | h in first :: h in Elements(first);
    assert forall h | h in rest :: h in Elements(rest);
    assert forall h | h in first + rest :: h in first || h in rest;
    if rest == [] {
      assert first + rest == first;
      GrandchildrenOnly(git, rank, agent, ix, s, g, first);
    } else {
      var init, h := rest[..|rest| - 1], rest[|rest| - 1];
      assert (first + rest)[..|first + rest| - 1] == first + init;
      assert forall k | k in init :: k in rest;
      GrandchildrenFirst(git, rank, agent, ix, s, g, first, init);
      assert h in rest;
      StaysOut(git, rank, agent, ix, s, g, IndexAll(git, agent, ix, first + init).value, h);
    }
  }

  lemma StaysOut(git: Git, rank: Hash -> nat, agent: string, ix: Index, s: set<Hash>, g: Hash, mid: Index, h: Hash)
    requires Acyclic(git, rank) && h in s && h in git && g !in s && g != NO_PARENT
    requires g !in mid && (forall k | k in ix :: k in mid)
    requires forall k | NewIn(ix, s, k) && InfoOf(git, k).parent == g :: k in mid
    ensures var r := IndexOne(git, agent, mid, h);
            r.Some? && g !in r.value && (forall k | k in mid :: k in r.value)
  {
    if h !in mid {
      assert NewIn(ix, s, h);
      assert git[h].parent != h;
    }
  }

  lemma GrandchildrenOnly(git: Git, rank: Hash -> nat, agent: string, ix: Index, s: set<Hash>, g: Hash, first: seq<Hash>)
    requires Acyclic(git, rank) && Faithful(git, ix) && Dangling(git, ix, s, g)
    requires forall t | Tip(git, ix, s, t) :: InfoOf(git, t).parent != g
    requires forall h | h in s :: h in git
    requires Elements(first) == Grandchildren(git, ix, s, g)
    ensures var r := IndexAll(git, agent, ix, first);
            r.Some? && g !in r.value && (forall k | k in ix :: k in r.value)
            && forall h | NewIn(ix, s, h) && InfoOf(git, h).parent == g :: h in r.value
  {
    assert forall h | h in first :: h in Elements(first);
    PushWorks(git, rank, agent, ix, first);
    var tx := IndexAll(git, agent, ix, first).value;
    forall c | Fresh(ix, tx, c)
      ensures tx[c].parent != g && c != g
    {
      assert c in first && InfoOf(git, c).parent in s;
    }
    forall h | NewIn(ix, s, h) && InfoOf(git, h).parent == g
      ensures h in tx
    {
      var c :| NewIn(ix, s, c) && InfoOf(git, c).parent == h;
      assert c in Grandchildren(git, ix, s, g);
      assert c in first;
      forall d | Fresh(ix, tx, d)
        ensures tx[d].parent != c
      {
        assert d in first && InfoOf(git, InfoOf(git, d).parent).parent == g;
      }
      assert Fresh(ix, tx, c);
    }
  }

  lemma ListedFirstBringsParent(git: Git, rank: Hash -> nat, agent: string, ix: Index, h: Hash, rest: seq<Hash>)
    requires Acyclic(git, rank) && Faithful(git, ix) && h in git && h !in ix && git[h].parent != NO_PARENT
    requires forall k | k in rest :: k in git
    ensures var r := IndexAll(git, agent, ix, [h] + rest);
            r.Some? && git[h].parent in r.value
  {
    var list := [h] + rest;
    PushWorks(git, rank, agent, ix, list);
    RowsPersist(git, agent, ix, list, 1);
    assert list[..1] == [h] && [h][..0] == [];
    assert IndexAll(git, agent, ix, []) == Some(ix);
    assert IndexAll(git, agent, ix, [h]) == IndexOne(git, agent, ix, h);
  }

  lemma ElementsOfConcat(a: seq<Hash>, b: seq<Hash>)
    ensures Elements(a + b) == Elements(a) + Elements(b)
  {
  }

  lemma TwoOrders(git: Git, rank: Hash -> nat, agent: string, ix: Index, s: set<Hash>, g: Hash)
    returns (out: seq<Hash>, within: seq<Hash>)
    requires Acyclic(git, rank) && Faithful(git, ix) && Dangling(git, ix, s, g)
    requires forall t | Tip(git, ix, s, t) :: InfoOf(git, t).parent != g
    requires forall h | h in s :: h in git
    ensures Elements(out) == s && Elements(within) == s
    ensures IndexAll(git, agent, ix, out).Some? && g !in IndexAll(git, agent, ix, out).value
    ensures IndexAll(git, agent, ix, within).Some? && g in IndexAll(git, agent, ix, within).value
  {
    var h :| NewIn(ix, s, h) && InfoOf(git, h).parent == g;
    var first, rest := ListOf(Grandchildren(git, ix, s, g)), ListOf(s);
    out, within := first + rest, [h] + rest;
    assert forall k | k in rest :: k in Elements(rest);
    ElementsOfConcat(first, rest);
    ElementsOfConcat([h], rest);
    GrandchildrenFirst(git, rank, agent, ix, s, g, first, rest);
    ListedFirstBringsParent(git, rank, agent, ix, h, rest);
  }

  lemma OrderMatters(git: Git, rank: Hash -> nat, agent: string, ix: Index, s: set<Hash>, g: Hash)
    requires Acyclic(git, rank) && Faithful(git, ix) && Dangling(git, ix, s, g)
    requires forall t | Tip(git, ix, s, t) :: InfoOf(git, t).parent != g
    requires forall h | h in s :: h in git
    ensures !OrderIsIrrelevant(git, agent, ix, s)
  {
    var out, within := TwoOrders(git, rank, agent, ix, s, g);
    assert g in Content(IndexAll(git, agent, ix, within).value);
    assert g !in Content(IndexAll(git, agent, ix, out).value);
  }

  lemma TipsMakeOrderIrrelevant(git: Git, rank: Hash -> nat, agent: string, ix: Index, s: set<Hash>, a: seq<Hash>, b: seq<Hash>)
    requires Acyclic(git, rank) && Faithful(git, ix) && DanglingParentsHaveTips(git, ix, s)
    requires forall h | h in s :: h in git
    requires Elements(a) == s && Elements(b) == s
    ensures var r, q := IndexAll(git, agent, ix, a), IndexAll(git, agent, ix, b);
            r.Some? && q.Some? && Content(r.value) == Content(q.value)
  {
    assert forall h :: h in a <==> h in Elements(a);
    assert forall h :: h in b <==> h in Elements(b);
    PushWithTips(git, rank, agent, ix, a);
    PushWithTips(git, rank, agent, ix, b);
    SameKeysSameContent(git, IndexAll(git, agent, ix, a).value, IndexAll(git, agent, ix, b).value);
  }

  // What a push adds to the table is independent of the order of its list exactly when every
  // dangling parent is the parent of a new listed commit that has no new listed child.
  lemma OrderIsIrrelevantIff(git: Git, rank: Hash -> nat, agent: string, ix: Index, s: set<Hash>)
    requires Acyclic(git, rank) && Faithful(git, ix)
    requires forall h | h in s :: h in git
    ensures OrderIsIrrelevant(git, agent, ix, s) <==> DanglingParentsHaveTips(git, ix, s)
  {
    if DanglingParentsHaveTips(git, ix, s) {
      forall a, b | Elements(a) == s && Elements(b) == s
        ensures var r, q := IndexAll(git, agent, ix, a), IndexAll(git, agent, ix, b);
                r.Some? && q.Some? && Content(r.value) == Content(q.value)
      {
        TipsMakeOrderIrrelevant(git, rank, agent, ix, s, a, b);
      }
    } else {
      var g :| Dangling(git, ix, s, g) && !exists t :: Tip(git, ix, s, t) && InfoOf(git, t).parent == g;
      OrderMatters(git, rank, agent, ix, s, g);
    }
  }

  // ---------------------------------------------------------------- three commits in a row

  // a's parent is b, b's parent is the root c.
  const GIT_ABC: Git := map["a" := Info("b", "third"), "b" := Info("c", "second"), "c" := Info(NO_PARENT, "first")]

  function RankAbc(h: Hash): nat {
    if h == "a" then 2 else if h == "b" then 1 else 0
  }

  lemma IndexTwo(git: Git, agent: string, ix: Index, x: Hash, y: Hash)
    ensures IndexAll(git, agent, ix, [x, y]) == match IndexOne(git, agent, ix, x)
                                                case None => None
                                                case Some(tx) => IndexOne(git, agent, tx, y)
  {
    assert [x, y][..1] == [x] && [x][..0] == [];
    assert IndexAll(git, agent, ix, [x]) == IndexOne(git, agent, ix, x);
  }

  // What the two orders of the list of a and b leave in an empty table.
  lemma TwoOrdersOfAbc(agent: string)
    ensures var newest := IndexAll(GIT_ABC, agent, map[], ["a", "b"]);
            newest == Some(map["b" := Stub(GIT_ABC, "b"), "a" := Row("b", Some(agent), "third")])
    ensures var oldest := IndexAll(GIT_ABC, agent, map[], ["b", "a"]);
            oldest == Some(map["c" := Stub(GIT_ABC, "c"), "b" := Row("c", Some(agent), "second"),
                               "a" := Row("b", Some(agent), "third")])
  {
    IndexTwo(GIT_ABC, agent, map[], "a", "b");
    IndexTwo(GIT_ABC, agent, map[], "b", "a");
  }

  // The order decides whether c is in the table at all.
  lemma OrderDecidesContent(agent: string)
    ensures Acyclic(GIT_ABC, RankAbc)
    ensures var newest, oldest := IndexAll(GIT_ABC, agent, map[], ["a", "b"]), IndexAll(GIT_ABC, agent, map[], ["b", "a"]);
            newest.Some? && "c" !in newest.value && oldest.Some? && "c" in oldest.value
    ensures !OrderIsIrrelevant(GIT_ABC, agent, map[], {"a", "b"})
  {
    TwoOrdersOfAbc(agent);
    assert Elements(["a", "b"]) == {"a", "b"} && Elements(["b", "a"]) == {"a", "b"};
    var newest, oldest := IndexAll(GIT_ABC, agent, map[], ["a", "b"]).value, IndexAll(GIT_ABC, agent, map[], ["b", "a"]).value;
    assert "c" !in Content(newest) && "c" in Content(oldest);
  }

  // Newest first, b is indexed as a stub and credited to nobody, although it was pushed.
  lemma NewestFirstLosesCredit(agent: string)
    ensures Acyclic(GIT_ABC, RankAbc)
    ensures var tx := IndexAll(GIT_ABC, agent, map[], ["a", "b"]);
            tx.Some? && "b" in tx.value && tx.value["b"].agent == None && !AllCredited(agent, map[], ["a", "b"], tx.value)
  {
    TwoOrdersOfAbc(agent);
    assert "b" in ["a", "b"];
  }

  // ---------------------------------------------------------------- git may grow

  // A push sees only its own part of git: commits that arrive later change nothing of what it did.
  lemma {:induction false} LaterCommitsChangeNothing(small: Git, big: Git, agent: string, ix: Index, list: seq<Hash>)
    requires forall h | h in small :: h in big && big[h] == small[h]
    requires forall h | h in small :: small[h].parent == NO_PARENT || small[h].parent in small
    requires forall h | h in list :: h in small
    ensures IndexAll(small, agent, ix, list) == IndexAll(big, agent, ix, list)
  {
    if list != [] {
      var init, h := list[..|list| - 1], list[|list| - 1];
      assert list == init + [h];
      LaterCommitsChangeNothing(small, big, agent, ix, init);
    }
  }

  // ---------------------------------------------------------------- pushes that leave no stub

  ghost predicate NoStubs(ix: Index) {
    forall h | h in ix :: ix[h].agent.Some?
  }

  ghost predicate NewParentsKnown(git: Git, ix: Index, list: seq<Hash>) {
    forall h | h in list && h !in ix ::
      var p := InfoOf(git, h).parent; p == NO_PARENT || p in ix || p in list
  }

  // A push leaves a table without stubs exactly when there was none before, parents come first in
  // its list, and no new commit's parent is unknown to both list and table.
  lemma PushLeavesNoStubIff(git: Git, rank: Hash -> nat, agent: string, ix: Index, list: seq<Hash>)
    requires Acyclic(git, rank) && Faithful(git, ix)
    requires forall h | h in list :: h in git
    ensures var r := IndexAll(git, agent, ix, list);
            r.Some? && (NoStubs(r.value) <==> NoStubs(ix) && ParentsFirst(git, ix, list) && NewParentsKnown(git, ix, list))
  {
    PushWorks(git, rank, agent, ix, list);
    CreditIffParentsFirst(git, rank, agent, ix, list);
    var tx := IndexAll(git, agent, ix, list).value;
    if NoStubs(tx) {
      assert forall h | h in list && h !in ix :: Fresh(ix, tx, h);
      forall h | h in list && h !in ix
        ensures var p := InfoOf(git, h).parent; p == NO_PARENT || p in ix || p in list
      {
        var p := tx[h].parent;
        assert p in tx && p !in ix ==> Fresh(ix, tx, p);
      }
    }
    if NewParentsKnown(git, ix, list) {
      NewRowsAreListed(git, agent, ix, list, tx);
    }
  }

  lemma NewRowsAreListed(git: Git, agent: string, ix: Index, list: seq<Hash>, tx: Index)
    requires PushEffect(git, agent, ix, list, tx) && NewParentsKnown(git, ix, list)
    ensures forall h | h in tx && h !in ix :: h in list
  {
    forall h | h in tx && h !in ix
      ensures h in list
    {
      if tx[h].agent == None {
        var c :| Fresh(ix, tx, c) && tx[c].parent == h;
        assert c in list && InfoOf(git, c).parent == h;
      } else {
        assert Fresh(ix, tx, h);
      }
    }
  }

  // ---------------------------------------------------------------- every reachable index

  datatype Push = Push(agent: string, hashes: seq<Hash>)

  // A failed push is rolled back.
  function AfterPushes(git: Git, pushes: seq<Push>): Index {
    if pushes == [] then map[]
    else
      var ix := AfterPushes(git, pushes[..|pushes| - 1]);
      var p := pushes[|pushes| - 1];
      match IndexAll(git, p.agent, ix, p.hashes)
      case None => ix
      case Some(tx) => tx
  }

  // Rows agree with git, and every stub is the parent of an indexed commit.
  ghost predicate Sound(git: Git, ix: Index) {
    Faithful(git, ix) && StubsHaveChildren(ix)
  }

  lemma OneKeepsSound(git: Git, rank: Hash -> nat, agent: string, ix: Index, h: Hash)
    requires Acyclic(git, rank) && Sound(git, ix) && IndexOne(git, agent, ix, h).Some?
    ensures Sound(git, IndexOne(git, agent, ix, h).value)
  {
    var tx := IndexOne(git, agent, ix, h).value;
    forall k | k in tx && tx[k].agent == None
      ensures exists c :: c in tx && tx[c].parent == k
    {
      if k in ix {
        var c :| c in ix && ix[c].parent == k;
        assert c in tx && tx[c].parent == k;
      } else {
        assert h in tx && tx[h].parent == k;
      }
    }
  }

  lemma {:induction false} AllKeepsSound(git: Git, rank: Hash -> nat, agent: string, ix: Index, list: seq<Hash>)
    requires Acyclic(git, rank) && Sound(git, ix) && IndexAll(git, agent, ix, list).Some?
    ensures Sound(git, IndexAll(git, agent, ix, list).value)
    decreases |list|
  {
    if list != [] {
      AllKeepsSound(git, rank, agent, ix, list[..|list| - 1]);
      OneKeepsSound(git, rank, agent, IndexAll(git, agent, ix, list[..|list| - 1]).value, list[|list| - 1]);
    }
  }

  lemma {:induction false} EveryReachableIndexIsSound(git: Git, rank: Hash -> nat, pushes: seq<Push>)
    requires Acyclic(git, rank)
    ensures Sound(git, AfterPushes(git, pushes))
    decreases |pushes|
  {
    if pushes != [] {
      var init, p := pushes[..|pushes| - 1], pushes[|pushes| - 1];
      EveryReachableIndexIsSound(git, rank, init);
      if IndexAll(git, p.agent, AfterPushes(git, init), p.hashes).Some? {
        AllKeepsSound(git, rank, p.agent, AfterPushes(git, init), p.hashes);
      }
    }
  }

  // ---------------------------------------------------------------- the queries

  function Children(ix: Index, h: Hash): set<Hash> {
    set c | c in ix && ix[c].parent == h
  }

  function Leaves(ix: Index): set<Hash> {
    set h | h in ix && Children(ix, h) == {}
  }

  // Rows are scanned into plain strings: one NULL agent among them fails the whole query.
  function Scan(ix: Index, hs: set<Hash>): Option<set<Hash>>
    requires hs <= ix.Keys
  {
    if exists h | h in hs :: ix[h].agent == None then None else Some(hs)
  }

  // The children query: the rows under h, or an error.
  function ChildrenQuery(ix: Index, h: Hash): Option<set<Hash>> {
    Scan(ix, Children(ix, h))
  }

  // It answers exactly when no row under h is without an agent.
  lemma ChildrenAnswerIff(ix: Index, h: Hash)
    ensures ChildrenQuery(ix, h).Some? <==> forall c | c in ix && ix[c].parent == h :: ix[c].agent.Some?
    ensures ChildrenQuery(ix, h).Some? ==> forall c :: c in ChildrenQuery(ix, h).value <==> c in ix && ix[c].parent == h
  {
    assert forall c :: c in Children(ix, h) <==> c in ix && ix[c].parent == h;
  }

  // The rows on the first-parent chain of h, newest first.
  function Chain(git: Git, rank: Hash -> nat, ix: Index, h: Hash): seq<Hash>
    requires Acyclic(git, rank) && Faithful(git, ix)
    decreases rank(h)
  {
    if h !in ix then [] else [h] + if ix[h].parent == NO_PARENT then [] else Chain(git, rank, ix, ix[h].parent)
  }

  function GitChain(git: Git, rank: Hash -> nat, h: Hash): seq<Hash>
    requires Acyclic(git, rank)
    decreases rank(h)
  {
    [h] + if InfoOf(git, h).parent == NO_PARENT then [] else GitChain(git, rank, git[h].parent)
  }

  // In a closed index the chain of a row is git's, down to the root.
  lemma {:induction false} ChainIsGits(git: Git, rank: Hash -> nat, ix: Index, h: Hash)
    requires Acyclic(git, rank) && Faithful(git, ix) && Closed(ix) && h in ix
    ensures Chain(git, rank, ix, h) == GitChain(git, rank, h)
    ensures InfoOf(git, Chain(git, rank, ix, h)[|Chain(git, rank, ix, h)| - 1]).parent == NO_PARENT
    decreases rank(h)
  {
    if ix[h].parent != NO_PARENT {
      ChainIsGits(git, rank, ix, ix[h].parent);
    }
  }

  lemma SoundLeavesAreCredited(git: Git, ix: Index)
    requires Sound(git, ix)
    ensures forall h | h in Leaves(ix) :: ix[h].agent.Some?
  {
    forall h | h in Leaves(ix)
      ensures ix[h].agent.Some?
    {
      forall c | c in ix
        ensures ix[c].parent != h
      {
        assert c !in Children(ix, h);
      }
    }
  }

  lemma LeafMeans(ix: Index, h: Hash)
    ensures h in Leaves(ix) <==> h in ix && forall c | c in ix :: ix[c].parent != h
  {
    assert forall c :: c in Children(ix, h) <==> c in ix && ix[c].parent == h;
    if h in ix && forall c | c in ix :: ix[c].parent != h {
      assert Children(ix, h) == {};
    }
  }

  // The leaves query selects exactly the rows that are nobody's parent.  None of them is a stub, so it
  // never fails.
  lemma LeavesQueryNeverFails(git: Git, rank: Hash -> nat, pushes: seq<Push>)
    requires Acyclic(git, rank)
    ensures var ix := AfterPushes(git, pushes);
            && Scan(ix, Leaves(ix)) == Some(Leaves(ix))
            && forall h :: h in Leaves(ix) <==> h in ix && forall c | c in ix :: ix[c].parent != h
  {
    forall h
      ensures var ix := AfterPushes(git, pushes);
              h in Leaves(ix) <==> h in ix && forall c | c in ix :: ix[c].parent != h
    {
      LeafMeans(AfterPushes(git, pushes), h);
    }
    EveryReachableIndexIsSound(git, rank, pushes);
    SoundLeavesAreCredited(git, AfterPushes(git, pushes));
  }

  lemma ChainStep(git: Git, rank: Hash -> nat, ix: Index, c: Hash, h: Hash)
    requires Acyclic(git, rank) && Faithful(git, ix) && c in ix && ix[c].parent == h && h in ix
    ensures forall k :: k in Chain(git, rank, ix, c) <==> k == c || k in Chain(git, rank, ix, h)
  {
  }

  // Each commit lies on the first-parent chain of some leaf.
  lemma {:induction false} LeafAbove(git: Git, rank: Hash -> nat, ix: Index, h: Hash) returns (leaf: Hash)
    requires Acyclic(git, rank) && Faithful(git, ix) && h in ix
    ensures leaf in Leaves(ix) && h in Chain(git, rank, ix, leaf)
    decreases set k | k in ix && rank(k) > rank(h)
  {
    if Children(ix, h) == {} {
      leaf := h;
    } else {
      var c :| c in Children(ix, h);
      assert rank(c) > rank(h);
      ghost var above, here := set k | k in ix && rank(k) > rank(c), set k | k in ix && rank(k) > rank(h);
      assert above <= here && c in here && c !in above;
      leaf := LeafAbove(git, rank, ix, c);
      ChainTransitive(git, rank, ix, leaf, c, h);
    }
  }

  lemma {:induction false} ChainTransitive(git: Git, rank: Hash -> nat, ix: Index, top: Hash, c: Hash, h: Hash)
    requires Acyclic(git, rank) && Faithful(git, ix) && c in ix && ix[c].parent == h && h in ix
    requires c in Chain(git, rank, ix, top)
    ensures h in Chain(git, rank, ix, top)
    decreases rank(top)
  {
    if top == c {
      ChainStep(git, rank, ix, c, h);
      assert Chain(git, rank, ix, h)[0] == h;
    } else {
      ChainTransitive(git, rank, ix, ix[top].parent, c, h);
    }
  }

  lemma EveryCommitIsUnderALeaf(git: Git, rank: Hash -> nat, pushes: seq<Push>, h: Hash)
    requires Acyclic(git, rank) && h in AfterPushes(git, pushes)
    ensures Faithful(git, AfterPushes(git, pushes))
    ensures exists leaf :: leaf in Leaves(AfterPushes(git, pushes)) && h in Chain(git, rank, AfterPushes(git, pushes), leaf)
  {
    EveryReachableIndexIsSound(git, rank, pushes);
    var leaf := LeafAbove(git, rank, AfterPushes(git, pushes), h);
  }

  // The commits reached from c by asking for children n times.
  function Descendants(ix: Index, c: Hash, n: nat): set<Hash> {
    if n == 0 then {c} else set h | h in ix && ix[h].parent in Descendants(ix, c, n - 1)
  }

  lemma {:induction false} DescendantHasAncestor(git: Git, rank: Hash -> nat, ix: Index, c: Hash, h: Hash, n: nat)
    requires Acyclic(git, rank) && Faithful(git, ix) && c in ix && h in Descendants(ix, c, n)
    ensures c in Chain(git, rank, ix, h)
    decreases n
  {
    if n > 0 {
      DescendantHasAncestor(git, rank, ix, c, ix[h].parent, n - 1);
      if ix[h].parent in ix {
        ChainStep(git, rank, ix, h, ix[h].parent);
      }
    }
  }

  lemma {:induction false} AncestorHasDescendant(git: Git, rank: Hash -> nat, ix: Index, c: Hash, h: Hash) returns (n: nat)
    requires Acyclic(git, rank) && Faithful(git, ix) && c in Chain(git, rank, ix, h)
    ensures h in Descendants(ix, c, n)
    decreases rank(h)
  {
    if c == h {
      n := 0;
    } else {
      n := AncestorHasDescendant(git, rank, ix, c, ix[h].parent);
      n := n + 1;
    }
  }

  // c is an ancestor of h exactly when the parent column leads from h to c, row by row.
  lemma AncestorIffRowsLead(git: Git, rank: Hash -> nat, pushes: seq<Push>, c: Hash, h: Hash)
    requires Acyclic(git, rank) && c in AfterPushes(git, pushes)
    ensures Faithful(git, AfterPushes(git, pushes))
    ensures c in Chain(git, rank, AfterPushes(git, pushes), h) <==> exists n :: h in Descendants(AfterPushes(git, pushes), c, n)
  {
    EveryReachableIndexIsSound(git, rank, pushes);
    var ix := AfterPushes(git, pushes);
    if c in Chain(git, rank, ix, h) {
      var n := AncestorHasDescendant(git, rank, ix, c, h);
    }
    if n: nat :| h in Descendants(ix, c, n) {
      DescendantHasAncestor(git, rank, ix, c, h, n);
    }
  }

  // The commits reached from c by n children queries that answer.
  function Reached(ix: Index, c: Hash, n: nat): set<Hash> {
    if n == 0 then {c}
    else set h | h in ix && ix[h].parent in Reached(ix, c, n - 1) && ChildrenQuery(ix, ix[h].parent).Some?
  }

  // No row on the way from c down to h has a stub child.
  ghost predicate WayIsClear(git: Git, rank: Hash -> nat, ix: Index, c: Hash, h: Hash)
    requires Acyclic(git, rank) && Faithful(git, ix)
  {
    forall q | q in Chain(git, rank, ix, h) && q != h && c in Chain(git, rank, ix, q) :: ChildrenQuery(ix, q).Some?
  }

  lemma {:induction false} ChainIsOlder(git: Git, rank: Hash -> nat, ix: Index, h: Hash, q: Hash)
    requires Acyclic(git, rank) && Faithful(git, ix) && q in Chain(git, rank, ix, h)
    ensures q in ix && (q == h || rank(q) < rank(h))
    decreases rank(h)
  {
    if q != h {
      ChainIsOlder(git, rank, ix, ix[h].parent, q);
    }
  }

  lemma {:induction false} ReachedMeansClear(git: Git, rank: Hash -> nat, ix: Index, c: Hash, h: Hash, n: nat)
    requires Acyclic(git, rank) && Faithful(git, ix) && c in ix && h in Reached(ix, c, n)
    ensures h in ix && c in Chain(git, rank, ix, h) && WayIsClear(git, rank, ix, c, h)
    decreases n
  {
    if n == 0 {
      forall q | q in Chain(git, rank, ix, h) && q != h
        ensures c !in Chain(git, rank, ix, q)
      {
        ChainIsOlder(git, rank, ix, h, q);
        if c in Chain(git, rank, ix, q) {
          ChainIsOlder(git, rank, ix, q, c);
        }
      }
    } else {
      ReachedMeansClear(git, rank, ix, c, ix[h].parent, n - 1);
      ChainStep(git, rank, ix, h, ix[h].parent);
    }
  }

  lemma {:induction false} ClearMeansReached(git: Git, rank: Hash -> nat, ix: Index, c: Hash, h: Hash) returns (n: nat)
    requires Acyclic(git, rank) && Faithful(git, ix) && c in Chain(git, rank, ix, h) && WayIsClear(git, rank, ix, c, h)
    ensures h in Reached(ix, c, n)
    decreases rank(h)
  {
    n := 0;
    if c != h {
      var p := ix[h].parent;
      assert p in Chain(git, rank, ix, p) && p in ix;
      ChainStep(git, rank, ix, h, p);
      forall q | q in Chain(git, rank, ix, p)
        ensures q in Chain(git, rank, ix, h) && q != h
      {
        ChainIsOlder(git, rank, ix, p, q);
      }
      n := ClearMeansReached(git, rank, ix, c, p);
      n := n + 1;
    }
  }

  // Repeated children queries lead from c to h exactly when c is an ancestor of h and no row
  // queried on the way has a stub child, which would fail the query.
  lemma AncestorIffReachedByChildren(git: Git, rank: Hash -> nat, pushes: seq<Push>, c: Hash, h: Hash)
    requires Acyclic(git, rank) && c in AfterPushes(git, pushes)
    ensures Faithful(git, AfterPushes(git, pushes))
    ensures (exists n :: h in Reached(AfterPushes(git, pushes), c, n))
       <==> c in Chain(git, rank, AfterPushes(git, pushes), h) && WayIsClear(git, rank, AfterPushes(git, pushes), c, h)
  {
    EveryReachableIndexIsSound(git, rank, pushes);
    var ix := AfterPushes(git, pushes);
    if c in Chain(git, rank, ix, h) && WayIsClear(git, rank, ix, c, h) {
      var n := ClearMeansReached(git, rank, ix, c, h);
    }
    if n: nat :| h in Reached(ix, c, n) {
      ReachedMeansClear(git, rank, ix, c, h, n);
    }
  }

  // Newest first, two commits on top of an indexed root: the index is closed and every commit is in
  // it, yet asking for the root's children is an error and no descendant is found.
  lemma NewestFirstBreaksChildren(agent: string, h: Hash, n: nat)
    ensures Acyclic(GIT_ABC, RankAbc)
    ensures var ix := AfterPushes(GIT_ABC, [Push(agent, ["c"]), Push(agent, ["a", "b"])]);
            && ix.Keys == {"a", "b", "c"} && Closed(ix) && ChildrenQuery(ix, "c") == None
            && (h in Reached(ix, "c", n) ==> h == "c")
    decreases n
  {
    var first, second := Push(agent, ["c"]), Push(agent, ["a", "b"]);
    assert [first, second][..1] == [first] && [first][..0] == [] && ["c"][..0] == [];
    assert IndexAll(GIT_ABC, agent, map[], ["c"]) == IndexOne(GIT_ABC, agent, map[], "c");
    assert AfterPushes(GIT_ABC, []) == map[];
    var root := AfterPushes(GIT_ABC, [first]);
    assert Some(root) == IndexAll(GIT_ABC, agent, AfterPushes(GIT_ABC, []), ["c"]);
    assert root == map["c" := Row(NO_PARENT, Some(agent), "first")];
    IndexTwo(GIT_ABC, agent, root, "a", "b");
    var ix := AfterPushes(GIT_ABC, [first, second]);
    assert ix == root["b" := Stub(GIT_ABC, "b")]["a" := Row("b", Some(agent), "third")];
    assert "b" in Children(ix, "c");
    if n > 0 && h in Reached(ix, "c", n) {
      NewestFirstBreaksChildren(agent, ix[h].parent, n - 1);
    }
  }

  // ---------------------------------------------------------------- when every query answers

  // Neither the walk from h nor the query for its children meets a stub.
  ghost predicate QueriesAnswer(git: Git, rank: Hash -> nat, ix: Index, h: Hash)
    requires Acyclic(git, rank) && Faithful(git, ix)
  {
    ChildrenQuery(ix, h).Some? && forall q | q in Chain(git, rank, ix, h) && q in ix :: ix[q].agent.Some?
  }

  ghost predicate HasParents(git: Git) {
    forall h | h in git :: git[h].parent == NO_PARENT || git[h].parent in git
  }

  // A push is clean if git does not know one of its hashes, so that it is rolled back, or if it
  // lists parents first and brings all parents that are missing.
  ghost predicate CleanPush(git: Git, ix: Index, list: seq<Hash>) {
    (exists h :: h in list && h !in git) || (ParentsFirst(git, ix, list) && NewParentsKnown(git, ix, list))
  }

  ghost predicate CleanPushes(git: Git, pushes: seq<Push>) {
    pushes == [] ||
    var init, p := pushes[..|pushes| - 1], pushes[|pushes| - 1];
    CleanPushes(git, init) && CleanPush(git, AfterPushes(git, init), p.hashes)
  }

  // A push that succeeds lists only what git knows and indexes only that.
  lemma {:induction false} SuccessStaysInGit(git: Git, agent: string, ix: Index, list: seq<Hash>)
    requires HasParents(git) && ix.Keys <= git.Keys && IndexAll(git, agent, ix, list).Some?
    ensures IndexAll(git, agent, ix, list).value.Keys <= git.Keys
    ensures forall h | h in list :: h in git
  {
    if list != [] {
      var init, h := list[..|list| - 1], list[|list| - 1];
      assert list == init + [h];
      SuccessStaysInGit(git, agent, ix, init);
    }
  }

  lemma {:induction false} NoStubsIffCleanPushes(git: Git, rank: Hash -> nat, pushes: seq<Push>)
    requires Acyclic(git, rank) && HasParents(git)
    ensures AfterPushes(git, pushes).Keys <= git.Keys
    ensures NoStubs(AfterPushes(git, pushes)) <==> CleanPushes(git, pushes)
    decreases |pushes|
  {
    if pushes != [] {
      var init, p := pushes[..|pushes| - 1], pushes[|pushes| - 1];
      var ix := AfterPushes(git, init);
      NoStubsIffCleanPushes(git, rank, init);
      EveryReachableIndexIsSound(git, rank, init);
      if IndexAll(git, p.agent, ix, p.hashes).Some? {
        SuccessStaysInGit(git, p.agent, ix, p.hashes);
        PushLeavesNoStubIff(git, rank, p.agent, ix, p.hashes);
      } else {
        if forall h | h in p.hashes :: h in git {
          PushWorks(git, rank, p.agent, ix, p.hashes);
        }
        assert exists h :: h in p.hashes && h !in git;
      }
    }
  }

  // Lineage, children and leaves all answer, whatever is asked, exactly when every push was clean.
  lemma EveryQueryAnswersIff(git: Git, rank: Hash -> nat, pushes: seq<Push>)
    requires Acyclic(git, rank) && HasParents(git)
    ensures Faithful(git, AfterPushes(git, pushes))
    ensures var ix := AfterPushes(git, pushes);
            (Scan(ix, Leaves(ix)).Some? && forall h :: QueriesAnswer(git, rank, ix, h)) <==> CleanPushes(git, pushes)
  {
    EveryReachableIndexIsSound(git, rank, pushes);
    NoStubsIffCleanPushes(git, rank, pushes);
    var ix := AfterPushes(git, pushes);
    if forall h :: QueriesAnswer(git, rank, ix, h) {
      forall h | h in ix
        ensures ix[h].agent.Some?
      {
        assert QueriesAnswer(git, rank, ix, h) && h in Chain(git, rank, ix, h);
      }
    }
  }

  // ---------------------------------------------------------------- the database object

  ghost predicate Credited(ix: Index, hs: seq<Hash>) {
    forall h | h in hs :: h in ix && ix[h].agent.Some?
  }

  // Each row is the first, or the parent of the one before it.
  ghost predicate WalksUp(ix: Index, start: Hash, hs: seq<Hash>) {
    && (forall h | h in hs :: h in ix)
    && (hs != [] ==> hs[0] == start)
    && forall i, j | 0 <= i < |hs| && j == i + 1 && j < |hs| && hs[i] in ix :: hs[j] == ix[hs[i]].parent
  }

  lemma OneFurtherUp(ix: Index, start: Hash, hs: seq<Hash>, h: Hash)
    requires WalksUp(ix, start, hs) && h in ix && h == NextUp(ix, start, hs)
    ensures WalksUp(ix, start, hs + [h]) && NextUp(ix, start, hs + [h]) == ix[h].parent
  {
    var more := hs + [h];
    assert more[|more| - 1] == h;
  }

  // Where the walk goes from its last row.
  function NextUp(ix: Index, start: Hash, hs: seq<Hash>): Hash {
    if hs == [] then start else if hs[|hs| - 1] in ix then ix[hs[|hs| - 1]].parent else ""
  }

  // The walk stands at `current`, with the rows so far behind it and the rest of the chain ahead.
  ghost predicate Walking(git: Git, rank: Hash -> nat, ix: Index, start: Hash, hs: seq<Hash>, current: Hash)
    requires Acyclic(git, rank) && Faithful(git, ix)
  {
    && WalksUp(ix, start, hs) && Credited(ix, hs) && current == NextUp(ix, start, hs)
    && Chain(git, rank, ix, start) == hs + ChainFrom(git, rank, ix, current)
  }

  lemma WalkStarts(git: Git, rank: Hash -> nat, ix: Index, start: Hash)
    requires Acyclic(git, rank) && Faithful(git, ix)
    ensures Walking(git, rank, ix, start, [], start)
  {
  }

  lemma WalkGoesOn(git: Git, rank: Hash -> nat, ix: Index, start: Hash, hs: seq<Hash>, current: Hash)
    requires Acyclic(git, rank) && Faithful(git, ix) && Walking(git, rank, ix, start, hs, current)
    requires current in ix && ix[current].agent.Some?
    ensures Walking(git, rank, ix, start, hs + [current], ix[current].parent)
    ensures ix[current].parent != NO_PARENT ==> rank(ix[current].parent) < rank(current)
  {
    OneFurtherUp(ix, start, hs, current);
    ChainUnfolds(git, rank, ix, current);
    Associates(hs, [current], ChainFrom(git, rank, ix, ix[current].parent));
  }

  lemma WalkEnds(git: Git, rank: Hash -> nat, ix: Index, start: Hash, hs: seq<Hash>, current: Hash)
    requires Acyclic(git, rank) && Faithful(git, ix) && Walking(git, rank, ix, start, hs, current)
    ensures current == NO_PARENT || current !in ix ==> hs == Chain(git, rank, ix, start)
    ensures current in ix && ix[current].agent == None ==>
              var chain := Chain(git, rank, ix, start);
              hs < chain && chain[|hs|] in ix && ix[chain[|hs|]].agent == None
  {
    if current in ix {
      ChainUnfolds(git, rank, ix, current);
    }
  }

  // The effect of a push, row by row.
  lemma EffectMeans(git: Git, agent: string, ix: Index, list: seq<Hash>, tx: Index)
    requires PushEffect(git, agent, ix, list, tx)
    ensures forall h | h in tx && h !in ix ::
              && tx[h].parent == (if h in git then git[h].parent else "")
              && tx[h].message == (if h in git then git[h].message else "")
              && (tx[h].agent == None || (tx[h].agent == Some(agent) && h in list))
    ensures forall h | h in tx && h !in ix && tx[h].agent == None ::
              exists c :: c in tx && c in list && c !in ix && tx[c].parent == h
  {
    forall h | h in tx && h !in ix
      ensures tx[h].agent == None || (tx[h].agent == Some(agent) && h in list)
      ensures tx[h].agent == None ==> exists c :: c in tx && c in list && c !in ix && tx[c].parent == h
    {
      if tx[h].agent == None {
        var c :| Fresh(ix, tx, c) && tx[c].parent == h;
        assert c in tx && c in list && c !in ix;
      } else {
        assert Fresh(ix, tx, h);
      }
    }
  }

  class CommitTable {
    var commits: Index
    const git: Git
    ghost const rank: Hash -> nat

    ghost predicate Valid()
      reads this
    {
      Acyclic(git, rank) && Sound(git, commits)
    }

    constructor (git: Git, ghost rank: Hash -> nat)
      requires Acyclic(git, rank)
      ensures Valid() && commits == map[] && this.git == git
    {
      this.git, this.rank, commits := git, rank, map[];
    }

    // All of the list or none of it.  On an error the returned hashes are those handled before it,
    // although their rows were rolled back.
    method IndexCommits(hashes: seq<Hash>, agentID: string) returns (indexed: seq<Hash>, failed: bool)
      requires Valid()
      modifies this`commits
      ensures Valid()
      ensures failed <==> IndexAll(git, agentID, old(commits), hashes) == None
      ensures failed ==> commits == old(commits) && indexed < hashes && hashes[|indexed|] !in git
      ensures !failed ==> IndexAll(git, agentID, old(commits), hashes) == Some(commits) && indexed == hashes
      ensures !failed ==>
                && (forall h | h in old(commits) :: h in commits && commits[h] == old(commits)[h])
                && (forall h | h in hashes :: h in commits)
                && (forall h | h in commits && h !in old(commits) ::
                      && commits[h].parent == (if h in git then git[h].parent else "")
                      && commits[h].message == (if h in git then git[h].message else "")
                      && (commits[h].agent == None || (commits[h].agent == Some(agentID) && h in hashes)))
                && (forall h | h in commits && h !in old(commits) && commits[h].agent == None ::
                      exists c :: c in commits && c in hashes && c !in old(commits) && commits[c].parent == h)
    {
      indexed, failed := [], false;
      var tx := commits;
      for i := 0 to |hashes|
        invariant commits == old(commits) && indexed == hashes[..i]
        invariant IndexAll(git, agentID, commits, hashes[..i]) == Some(tx)
      {
        var hash := hashes[i];
        assert hashes[..i + 1][..i] == hashes[..i];
        if hash !in tx {
          if hash !in git {
            NoneIsFinal(git, agentID, commits, hashes, i + 1);
            return indexed, true;
          }
          ghost var before := tx;
          var parentHash := git[hash].parent;
          if parentHash != NO_PARENT && parentHash !in tx {
            tx := tx[parentHash := Stub(git, parentHash)];
          }
          tx := tx[hash := Row(parentHash, Some(agentID), git[hash].message)];
          assert IndexOne(git, agentID, before, hash) == Some(tx);
        }
        indexed := indexed + [hash];
      }
      assert hashes[..|hashes|] == hashes;
      AllKeepsSound(git, rank, agentID, commits, hashes);
      SuccessEffect(git, rank, agentID, commits, hashes);
      EffectMeans(git, agentID, commits, hashes, tx);
      commits := tx;
    }

    // Rows are scanned one by one; the first without an agent ends the scan with an error.
    method ScanCommits(rows: seq<Hash>) returns (found: seq<Hash>, failed: bool)
      requires forall h | h in rows :: h in commits
      ensures failed <==> exists h :: h in rows && commits[h].agent == None
      ensures found == if failed then [] else rows
    {
      found, failed := [], false;
      for i := 0 to |rows|
        invariant found == rows[..i] && Credited(commits, found)
      {
        if commits[rows[i]].agent == None {
          return [], true;
        }
        found := found + [rows[i]];
      }
    }

    // `rows` is the order in which the database returns the matching rows.
    method GetChildren(hash: Hash, rows: seq<Hash>) returns (children: seq<Hash>, failed: bool)
      requires forall h :: h in rows <==> h in commits && commits[h].parent == hash
      ensures failed <==> ChildrenQuery(commits, hash) == None
      ensures failed <==> exists h :: h in commits && commits[h].parent == hash && commits[h].agent == None
      ensures children == if failed then [] else rows
    {
      assert forall h :: h in rows <==> h in Children(commits, hash);
      children, failed := ScanCommits(rows);
    }

    method GetLeaves(rows: seq<Hash>) returns (leaves: seq<Hash>, failed: bool)
      requires Valid() && forall h :: h in rows <==> h in commits && forall c | c in commits :: commits[c].parent != h
      ensures !failed && leaves == rows
      ensures forall h :: h in leaves <==> h in Leaves(commits)
    {
      forall h
        ensures h in rows <==> h in Leaves(commits)
      {
        LeafMeans(commits, h);
      }
      SoundLeavesAreCredited(git, commits);
      leaves, failed := ScanCommits(rows);
    }

    // Follows first parents until the root, an unindexed hash, or a row without an agent, whose
    // scan error ends the walk.
    method GetLineage(hash: Hash) returns (lineage: seq<Hash>, failed: bool)
      requires Valid()
      ensures Credited(commits, lineage) && WalksUp(commits, hash, lineage)
      ensures var next := NextUp(commits, hash, lineage);
              if failed then next in commits && commits[next].agent == None else next == "" || next !in commits
      ensures !failed ==> lineage == Chain(git, rank, commits, hash)
      ensures failed ==>
                var chain := Chain(git, rank, commits, hash);
                lineage < chain && chain[|lineage|] in commits && commits[chain[|lineage|]].agent == None
    {
      lineage, failed := [], false;
      var current := hash;
      WalkStarts(git, rank, commits, hash);
      while current != NO_PARENT
        invariant Walking(git, rank, commits, hash, lineage, current)
        decreases current != NO_PARENT, rank(current)
      {
        WalkEnds(git, rank, commits, hash, lineage, current);
        if current !in commits {
          return lineage, false;
        }
        if commits[current].agent == None {
          return lineage, true;
        }
        WalkGoesOn(git, rank, commits, hash, lineage, current);
        lineage := lineage + [current];
        current := commits[current].parent;
      }
      WalkEnds(git, rank, commits, hash, lineage, current);
    }
  }

  // The chain from where the walk stands; nothing once it has passed the root.
  function ChainFrom(git: Git, rank: Hash -> nat, ix: Index, current: Hash): seq<Hash>
    requires Acyclic(git, rank) && Faithful(git, ix)
  {
    if current == NO_PARENT then [] else Chain(git, rank, ix, current)
  }

  lemma ChainUnfolds(git: Git, rank: Hash -> nat, ix: Index, h: Hash)
    requires Acyclic(git, rank) && Faithful(git, ix) && h in ix
    ensures Chain(git, rank, ix, h) == [h] + ChainFrom(git, rank, ix, ix[h].parent)
    ensures ix[h].parent != NO_PARENT ==> rank(ix[h].parent) < rank(h)
  {
  }

  lemma {:induction false} NoneIsFinal(git: Git, agent: string, ix: Index, list: seq<Hash>, n: nat)
    requires n <= |list| && IndexAll(git, agent, ix, list[..n]) == None
    ensures IndexAll(git, agent, ix, list) == None
    decreases |list| - n
  {
    if n == |list| {
      assert list[..n] == list;
    } else {
      assert list[..n + 1][..n] == list[..n];
      NoneIsFinal(git, agent, ix, list, n + 1);
    }
  }
}
