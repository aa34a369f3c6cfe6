/**
 * The admin dialog for creating and editing a category: the descendant test
 * that keeps a category from being moved under itself, the list of parents
 * offered, the default parent, and the slug generated from the name.
 */
module CategoryDialog {
  import opened Common
  import opened Categories

  // ---------------------------------------------------------------------------
  // isDescendantOf

  /**
   * The recursion of `isDescendantOf(d, a, all)` stops within `n` nested
   * calls: at a parentId equal to `a.id`, at a falsy parentId, or at a
   * parentId that `find` does not locate.  (It recurses forever on a parent
   * cycle that does not pass through `a.id`.)
   */
  predicate DescentStops(d: Category, a: Category, all: seq<Category>, n: nat)
    decreases n
  {
    d.parentId == Some(a.id) || !TruthyStr(d.parentId) || Lookup(all, d.parentId.value).None?
    || (n > 0 && DescentStops(Lookup(all, d.parentId.value).value, a, all, n - 1))
  }

  /** `isDescendantOf`: `all.find` is the first record with the id. */
  function IsDescendantOf(d: Category, a: Category, all: seq<Category>, ghost n: nat): bool
    requires DescentStops(d, a, all, n)
    decreases n
  {
    if d.parentId == Some(a.id) then true
    else if d.parentId.None? || d.parentId.value == "" then false
    else match Lookup(all, d.parentId.value)
      case None => false
      case Some(parent) => IsDescendantOf(parent, a, all, n - 1)
  }

  /**
   * The parent ids met walking up from `key` (at most `n` lookups beyond the
   * first): each id, then the parentId of the record `find` locates for it.
   * The walk stops after an empty id or an id with no record, and includes it.
   */
  function KeyChain(all: seq<Category>, key: Option<string>, n: nat): seq<string>
    decreases n
  {
    if key.None? then []
    else if key.value == "" || Lookup(all, key.value).None? || n == 0 then [key.value]
    else [key.value] + KeyChain(all, Lookup(all, key.value).value.parentId, n - 1)
  }

  /** `isDescendantOf(d, a)` holds exactly when `a.id` is one of the ids on `d`'s ancestor chain. */
  lemma {:induction false} DescendantIffOnChain(d: Category, a: Category, all: seq<Category>, n: nat)
    requires DescentStops(d, a, all, n)
    ensures IsDescendantOf(d, a, all, n) <==> a.id in KeyChain(all, d.parentId, n)
    decreases n
  {
    if d.parentId != Some(a.id) && TruthyStr(d.parentId) && Lookup(all, d.parentId.value).Some? {
      var p := Lookup(all, d.parentId.value).value;
      DescendantIffOnChain(p, a, all, n - 1);
    }
  }

  /** No parent, or a parent that is not in the list, means "not a descendant" (unless it is `a` itself). */
  lemma ChainStopsMeansNotDescendant(d: Category, a: Category, all: seq<Category>, n: nat)
    requires d.parentId != Some(a.id)
    requires !TruthyStr(d.parentId) || Lookup(all, d.parentId.value).None?
    ensures DescentStops(d, a, all, n) && !IsDescendantOf(d, a, all, n)
  {
  }

  // ---------------------------------------------------------------------------
  // Parents offered in the dialog

  /** When editing `category`, the descendant test terminates for every other category. */
  predicate CandidatesComputable(category: Option<Category>, all: seq<Category>, n: nat)
  {
    category.Some? ==> forall c :: c in all && c.id != category.value.id ==> DescentStops(c, category.value, all, n)
  }

  /** Is `c` kept by the filter of the parent list. */
  predicate Offered(category: Option<Category>, all: seq<Category>, ghost n: nat, c: Category)
    requires c in all && CandidatesComputable(category, all, n)
  {
    category.None? || (c.id != category.value.id && !IsDescendantOf(c, category.value, all, n))
  }

  /**
   * The categories offered as parent: all of them when creating, and when
   * editing every category except the edited one and its descendants.
   */
  function ParentCandidates(category: Option<Category>, all: seq<Category>, ghost n: nat): (r: seq<Category>)
    requires CandidatesComputable(category, all, n)
    ensures category.None? ==> r == all
    ensures forall c :: c in r <==> c in all && Offered(category, all, n, c)
  {
    FilterOffered(category, all, all, n)
  }

  function FilterOffered(category: Option<Category>, all: seq<Category>, rest: seq<Category>, ghost n: nat): (r: seq<Category>)
    requires CandidatesComputable(category, all, n)
    requires forall c :: c in rest ==> c in all
    ensures category.None? ==> r == rest
    ensures forall c :: c in r <==> c in rest && Offered(category, all, n, c)
  {
    if |rest| == 0 then []
    else (if Offered(category, all, n, rest[0]) then [rest[0]] else []) + FilterOffered(category, all, rest[1..], n)
  }

  /** When editing, a category is offered iff it is not the edited one and the edited id is not on its ancestor chain. */
  lemma OfferedIffOffChain(c: Category, p: Category, all: seq<Category>, n: nat)
    requires p in all && CandidatesComputable(Some(c), all, n)
    ensures p in ParentCandidates(Some(c), all, n) <==> p.id != c.id && c.id !in KeyChain(all, p.parentId, n)
  {
    if p.id != c.id {
      DescendantIffOnChain(p, c, all, n);
    }
  }

  // ---------------------------------------------------------------------------
  // Loading the parent list, where a parent cycle overflows the stack

  /** The recursion goes on from `d`: its parent is neither `a` nor falsy, and `find` locates it. */
  predicate Continues(d: Category, a: Category, all: seq<Category>)
  {
    d.parentId != Some(a.id) && TruthyStr(d.parentId) && Lookup(all, d.parentId.value).Some?
  }

  /** The category the next nested call examines, or `d` itself once the recursion has returned. */
  function Step(d: Category, a: Category, all: seq<Category>): (r: Category)
    ensures Continues(d, a, all) ==> r in all
  {
    if Continues(d, a, all) then Lookup(all, d.parentId.value).value else d
  }

  /** The category examined `k` nested calls below the first. */
  function Iter(d: Category, a: Category, all: seq<Category>, k: nat): Category
    decreases k
  {
    if k == 0 then d else Iter(Step(d, a, all), a, all, k - 1)
  }

  /** `isDescendantOf(d, a, all)` recurses for ever: no depth of nested calls reaches a `return`. */
  ghost predicate NeverStops(d: Category, a: Category, all: seq<Category>)
  {
    forall n: nat :: !DescentStops(d, a, all, n)
  }

  lemma {:induction false} IterSucc(d: Category, a: Category, all: seq<Category>, k: nat)
    ensures Iter(d, a, all, k + 1) == Step(Iter(d, a, all, k), a, all)
    decreases k
  {
    if k > 0 {
      IterSucc(Step(d, a, all), a, all, k - 1);
    }
  }

  lemma {:induction false} IterAdd(d: Category, a: Category, all: seq<Category>, k: nat, t: nat)
    ensures Iter(d, a, all, k + t) == Iter(Iter(d, a, all, k), a, all, t)
    decreases k
  {
    if k > 0 {
      IterAdd(Step(d, a, all), a, all, k - 1, t);
    }
  }

  /** Not returning within `n` nested calls means that every category examined down to depth `n` continues. */
  lemma {:induction false} NotStoppedContinues(d: Category, a: Category, all: seq<Category>, n: nat, k: nat)
    requires !DescentStops(d, a, all, n) && k <= n
    ensures Continues(Iter(d, a, all, k), a, all)
    decreases k
  {
    if k > 0 {
      NotStoppedContinues(Step(d, a, all), a, all, n - 1, k - 1);
    }
  }

  /** When every examined category continues, no depth is enough. */
  lemma {:induction false} AlwaysContinuesNeverStops(d: Category, a: Category, all: seq<Category>, n: nat)
    requires forall k: nat :: Continues(Iter(d, a, all, k), a, all)
    ensures !DescentStops(d, a, all, n)
    decreases n
  {
    assert Continues(Iter(d, a, all, 0), a, all);
    if n > 0 {
      forall k: nat
        ensures Continues(Iter(Step(d, a, all), a, all, k), a, all)
      {
        assert Iter(d, a, all, k + 1) == Iter(Step(d, a, all), a, all, k);
      }
      AlwaysContinuesNeverStops(Step(d, a, all), a, all, n - 1);
    }
  }

  /** A sequence without repeats has as many distinct elements as entries. */
  lemma {:induction false} DistinctCard<T>(s: seq<T>)
    requires forall i, j :: 0 <= i < j < |s| ==> s[i] != s[j]
    ensures |set x | x in s| == |s|
  {
    if |s| > 0 {
      DistinctCard(s[1..]);
      assert (set x | x in s) == {s[0]} + (set x | x in s[1..]);
      assert s[0] !in (set x | x in s[1..]);
    }
  }

  /** A sequence has at most as many distinct elements as entries. */
  lemma {:induction false} SeqSetCard<T>(s: seq<T>)
    ensures |set x | x in s| <= |s|
  {
    if |s| > 0 {
      SeqSetCard(s[1..]);
      assert (set x | x in s) == {s[0]} + (set x | x in s[1..]);
    }
  }

  lemma SubsetCard<T>(small: set<T>, big: set<T>)
    requires small <= big
    ensures |small| <= |big|
  {
    assert big == small + (big - small);
  }

  /** Of the `|all| + 1` categories examined below the first, all taken from `all`, two coincide. */
  lemma Pigeonhole(d: Category, a: Category, all: seq<Category>)
    requires forall k: nat :: k <= |all| ==> Continues(Iter(d, a, all, k), a, all)
    ensures exists i: nat, j: nat :: 1 <= i < j <= |all| + 1 && Iter(d, a, all, i) == Iter(d, a, all, j)
  {
    var w := seq(|all| + 1, (i: int) requires 0 <= i <= |all| => Iter(d, a, all, i + 1));
    forall x | x in w
      ensures x in all
    {
      var i :| 0 <= i < |w| && w[i] == x;
      IterSucc(d, a, all, i);
    }
    if forall i, j :: 0 <= i < j < |w| ==> w[i] != w[j] {
      DistinctCard(w);
      SeqSetCard(all);
      SubsetCard(set x | x in w, set x | x in all);
      assert false;
    }
    var i, j :| 0 <= i < j < |w| && w[i] == w[j];
    assert Iter(d, a, all, i + 1) == Iter(d, a, all, j + 1);
  }

  lemma {:induction false} ContinuesAt(d: Category, a: Category, all: seq<Category>, i: nat, j: nat, k: nat)
    requires forall k: nat :: k <= |all| ==> Continues(Iter(d, a, all, k), a, all)
    requires 1 <= i < j <= |all| + 1 && Iter(d, a, all, i) == Iter(d, a, all, j)
    ensures Continues(Iter(d, a, all, k), a, all)
    decreases k
  {
    if k > |all| {
      var t := k - j;
      IterAdd(d, a, all, j, t);
      IterAdd(d, a, all, i, t);
      ContinuesAt(d, a, all, i, j, i + t);
    }
  }

  /**
   * The recursion returns within `|all|` nested calls or never: deeper than
   * that it has met some category twice, and from there it repeats itself.
   */
  lemma NotWithinLengthNeverStops(d: Category, a: Category, all: seq<Category>)
    requires !DescentStops(d, a, all, |all|)
    ensures NeverStops(d, a, all)
  {
    forall k: nat | k <= |all|
      ensures Continues(Iter(d, a, all, k), a, all)
    {
      NotStoppedContinues(d, a, all, |all|, k);
    }
    Pigeonhole(d, a, all);
    var i: nat, j: nat :| 1 <= i < j <= |all| + 1 && Iter(d, a, all, i) == Iter(d, a, all, j);
    forall k: nat
      ensures Continues(Iter(d, a, all, k), a, all)
    {
      ContinuesAt(d, a, all, i, j, k);
    }
    forall n: nat
      ensures !DescentStops(d, a, all, n)
    {
      AlwaysContinuesNeverStops(d, a, all, n);
    }
  }

  /** When editing, some category other than the edited one sends `isDescendantOf` into endless recursion. */
  ghost predicate SomeWalkNeverEnds(category: Option<Category>, all: seq<Category>)
  {
    category.Some? && exists c :: c in all && c.id != category.value.id && NeverStops(c, category.value, all)
  }

  /**
   * `loadParentCategories`: the filtered list becomes the offered list. On a
   * parent cycle the recursion of `isDescendantOf` overflows the stack, the
   * `catch` only logs the error, and the offered list keeps its `previous`
   * value.
   */
  function LoadParents(category: Option<Category>, all: seq<Category>, previous: seq<Category>): (r: seq<Category>)
    ensures category.None? ==> r == all
  {
    if CandidatesComputable(category, all, |all|) then ParentCandidates(category, all, |all|) else previous
  }

  /**
   * The offered list is unchanged exactly when some walk never ends;
   * otherwise it holds every category except, when editing, the edited one
   * and those with the edited id on their ancestor chain.
   */
  lemma LoadParentsMeaning(category: Option<Category>, all: seq<Category>, previous: seq<Category>)
    ensures SomeWalkNeverEnds(category, all) ==> LoadParents(category, all, previous) == previous
    ensures !SomeWalkNeverEnds(category, all) ==>
              forall c :: c in LoadParents(category, all, previous) <==>
                c in all && (category.None? || (c.id != category.value.id && category.value.id !in KeyChain(all, c.parentId, |all|)))
  {
    if CandidatesComputable(category, all, |all|) {
      if category.Some? {
        forall c | c in all && c.id != category.value.id
          ensures !NeverStops(c, category.value, all)
        {
          assert DescentStops(c, category.value, all, |all|);
        }
        forall c | c in all
          ensures c in ParentCandidates(category, all, |all|) <==> c.id != category.value.id && category.value.id !in KeyChain(all, c.parentId, |all|)
        {
          OfferedIffOffChain(category.value, c, all, |all|);
        }
      }
    } else {
      var c :| c in all && c.id != category.value.id && !DescentStops(c, category.value, all, |all|);
      NotWithinLengthNeverStops(c, category.value, all);
    }
  }

  lemma {:induction false} TwoCycleNeverStops(x: Category, y: Category, e: Category, all: seq<Category>, n: nat)
    requires x.parentId == Some(y.id) && y.parentId == Some(x.id) && x.id != "" && y.id != ""
    requires e.id != x.id && e.id != y.id
    requires Lookup(all, x.id) == Some(x) && Lookup(all, y.id) == Some(y)
    ensures !DescentStops(x, e, all, n) && !DescentStops(y, e, all, n)
    decreases n
  {
    if n > 0 {
      TwoCycleNeverStops(x, y, e, all, n - 1);
    }
  }

  /**
   * Two categories that name each other as parent: opening the dialog on a
   * third category leaves the offered list as it was.
   */
  lemma TwoCycleKeepsPrevious(x: Category, y: Category, e: Category, previous: seq<Category>)
    requires x.parentId == Some(y.id) && y.parentId == Some(x.id) && x.id != "" && y.id != "" && x.id != y.id
    requires e.id != x.id && e.id != y.id
    ensures LoadParents(Some(e), [x, y, e], previous) == previous
  {
    var all := [x, y, e];
    assert Lookup(all, x.id) == Some(x);
    assert Lookup(all, y.id) == Some(y);
    forall n: nat
      ensures !DescentStops(x, e, all, n)
    {
      TwoCycleNeverStops(x, y, e, all, n);
    }
    assert NeverStops(x, e, all);
    LoadParentsMeaning(Some(e), all, previous);
  }

  /** The parent walk from `key` reaches a falsy id or an unknown id within `n` lookups. */
  predicate EndsWithin(all: seq<Category>, key: Option<string>, n: nat)
    decreases n
  {
    !TruthyStr(key) || Lookup(all, key.value).None?
    || (n > 0 && EndsWithin(all, Lookup(all, key.value).value.parentId, n - 1))
  }

  /** Every category's parent walk ends: the parent relation has no cycle (and no chain longer than `n`). */
  predicate AcyclicWithin(all: seq<Category>, n: nat)
  {
    forall c :: c in all ==> EndsWithin(all, c.parentId, n)
  }

  /** The table after the edited category `id` is saved with parent `pid`. */
  function Reparent(all: seq<Category>, id: string, pid: string): (r: seq<Category>)
    ensures |r| == |all|
    ensures forall i :: 0 <= i < |all| ==> r[i] == if all[i].id == id then all[i].(parentId := Some(pid)) else all[i]
  {
    if |all| == 0 then []
    else [if all[0].id == id then all[0].(parentId := Some(pid)) else all[0]] + Reparent(all[1..], id, pid)
  }

  lemma {:induction false} EndsWithinMonotone(all: seq<Category>, key: Option<string>, n: nat, m: nat)
    requires EndsWithin(all, key, n) && n <= m
    ensures EndsWithin(all, key, m)
    decreases n
  {
    if TruthyStr(key) && Lookup(all, key.value).Some? {
      EndsWithinMonotone(all, Lookup(all, key.value).value.parentId, n - 1, m - 1);
    }
  }

  lemma {:induction false} EndsGivesDescentStops(d: Category, a: Category, all: seq<Category>, n: nat)
    requires EndsWithin(all, d.parentId, n)
    ensures DescentStops(d, a, all, n)
    decreases n
  {
    if d.parentId != Some(a.id) && TruthyStr(d.parentId) && Lookup(all, d.parentId.value).Some? {
      EndsGivesDescentStops(Lookup(all, d.parentId.value).value, a, all, n - 1);
    }
  }

  /** For an acyclic list the parent filter is computable whichever category is edited. */
  lemma AcyclicCandidatesComputable(category: Option<Category>, all: seq<Category>, n: nat)
    requires AcyclicWithin(all, n)
    ensures CandidatesComputable(category, all, n)
  {
    if category.Some? {
      forall c | c in all && c.id != category.value.id
        ensures DescentStops(c, category.value, all, n)
      {
        EndsGivesDescentStops(c, category.value, all, n);
      }
    }
  }

  lemma {:induction false} LookupReparent(all: seq<Category>, id: string, pid: string, k: string)
    ensures Lookup(all, k).None? ==> Lookup(Reparent(all, id, pid), k).None?
    ensures Lookup(all, k).Some? && k != id ==> Lookup(Reparent(all, id, pid), k) == Lookup(all, k)
    ensures Lookup(all, k).Some? && k == id ==>
      Lookup(Reparent(all, id, pid), k) == Some(Lookup(all, k).value.(parentId := Some(pid)))
  {
    if |all| > 0 {
      LookupReparent(all[1..], id, pid, k);
      assert Reparent(all, id, pid)[1..] == Reparent(all[1..], id, pid);
    }
  }

  /** `after` answers every id lookup as `before` does, except that the record `id` now has parent `pid`. */
  ghost predicate ReparentedLookups(before: seq<Category>, after: seq<Category>, id: string, pid: string)
  {
    forall k :: Lookup(after, k) ==
      if Lookup(before, k).Some? && k == id then Some(Lookup(before, k).value.(parentId := Some(pid)))
      else Lookup(before, k)
  }

  lemma ReparentLookups(all: seq<Category>, id: string, pid: string)
    ensures ReparentedLookups(all, Reparent(all, id, pid), id, pid)
  {
    forall k {
      LookupReparent(all, id, pid, k);
    }
  }

  /** A walk that never meets `id` is the same after the reparenting. */
  lemma {:induction false} WalkAvoidingEdited(before: seq<Category>, after: seq<Category>, id: string, pid: string, key: Option<string>, m: nat)
    requires ReparentedLookups(before, after, id, pid)
    requires EndsWithin(before, key, m) && id !in KeyChain(before, key, m)
    ensures EndsWithin(after, key, m)
    decreases m
  {
    if TruthyStr(key) && Lookup(before, key.value).Some? {
      assert Lookup(after, key.value) == Lookup(before, key.value);
      WalkAvoidingEdited(before, after, id, pid, Lookup(before, key.value).value.parentId, m - 1);
    }
  }

  /** A walk that meets `id` continues from the new parent `pid`. */
  lemma {:induction false} WalkThroughEdited(before: seq<Category>, after: seq<Category>, id: string, pid: string, key: Option<string>, m: nat, q: nat)
    requires ReparentedLookups(before, after, id, pid) && Lookup(before, id).Some?
    requires EndsWithin(before, key, m) && EndsWithin(after, Some(pid), q)
    ensures EndsWithin(after, key, m + q + 1)
    decreases m
  {
    if TruthyStr(key) {
      var k := key.value;
      if k == id {
        assert Lookup(after, k) == Some(Lookup(before, k).value.(parentId := Some(pid)));
        EndsWithinMonotone(after, Some(pid), q, m + q);
      } else if Lookup(before, k).Some? {
        assert Lookup(after, k) == Lookup(before, k);
        WalkThroughEdited(before, after, id, pid, Lookup(before, k).value.parentId, m - 1, q);
      }
    }
  }

  /**
   * For an acyclic list with distinct ids, saving the edited category `c`
   * under any parent the dialog offers keeps the parent relation acyclic.
   */
  lemma OfferedParentKeepsAcyclic(all: seq<Category>, c: Category, p: Category, n: nat)
    requires DistinctIds(all) && AcyclicWithin(all, n) && c in all && p in all
    requires CandidatesComputable(Some(c), all, n)
    requires p in ParentCandidates(Some(c), all, n)
    ensures AcyclicWithin(Reparent(all, c.id, p.id), 2 * n + 2)
  {
    var all' := Reparent(all, c.id, p.id);
    NewParentWalkEnds(all, c, p, n);
    ReparentLookups(all, c.id, p.id);
    forall x | x in all'
      ensures EndsWithin(all', x.parentId, 2 * n + 2)
    {
      var i :| 0 <= i < |all'| && all'[i] == x;
      assert all[i] in all;
      ReparentedRecordEnds(all, all', c.id, p.id, all[i], x, n);
    }
  }

  lemma ReparentedRecordEnds(all: seq<Category>, all': seq<Category>, id: string, pid: string, r: Category, x: Category, n: nat)
    requires ReparentedLookups(all, all', id, pid) && Lookup(all, id).Some?
    requires EndsWithin(all', Some(pid), n + 1) && EndsWithin(all, r.parentId, n)
    requires x == if r.id == id then r.(parentId := Some(pid)) else r
    ensures EndsWithin(all', x.parentId, 2 * n + 2)
  {
    if r.id == id {
      EndsWithinMonotone(all', Some(pid), n + 1, 2 * n + 2);
    } else {
      WalkThroughEdited(all, all', id, pid, r.parentId, n, n + 1);
    }
  }

  /** The walk from an offered parent never meets the edited category, so it still ends afterwards. */
  lemma NewParentWalkEnds(all: seq<Category>, c: Category, p: Category, n: nat)
    requires DistinctIds(all) && AcyclicWithin(all, n) && c in all && p in all
    requires CandidatesComputable(Some(c), all, n)
    requires p in ParentCandidates(Some(c), all, n)
    ensures EndsWithin(Reparent(all, c.id, p.id), Some(p.id), n + 1)
  {
    var all' := Reparent(all, c.id, p.id);
    OfferedIffOffChain(c, p, all, n);
    ReparentLookups(all, c.id, p.id);
    WalkAvoidingEdited(all, all', c.id, p.id, p.parentId, n);
    if p.id != "" {
      DistinctIdsAreKeys(all);
      assert Lookup(all, p.id) == Some(p);
      assert Lookup(all', p.id) == Some(p);
    }
  }

  // ---------------------------------------------------------------------------
  // Default parent

  /** `category?.parentId || parentCategory?.id || ""`. */
  function DefaultParentId(category: Option<Category>, parentCategory: Option<Category>): (r: string)
    ensures category.Some? && TruthyStr(category.value.parentId) ==> r == category.value.parentId.value
    ensures !(category.Some? && TruthyStr(category.value.parentId)) && parentCategory.Some? && parentCategory.value.id != ""
      ==> r == parentCategory.value.id
    ensures r == "" || (category.Some? && category.value.parentId == Some(r))
      || (parentCategory.Some? && parentCategory.value.id == r)
  {
    var own := if category.Some? then category.value.parentId else None;
    var given := if parentCategory.Some? then Some(parentCategory.value.id) else None;
    OrStr(own, OrStr(given, ""))
  }

  // ---------------------------------------------------------------------------
  // Slug generation

  predicate IsHyphen(c: char) { c == '-' }

  /** Characters allowed in a slug: `[a-z0-9-]`. */
  predicate IsSlugChar(c: char) { IsAsciiLower(c) || IsDigit(c) || c == '-' }

  /** Characters kept by `.replace(/[^a-z0-9\s-]/g, "")`. */
  predicate KeptBySlugFilter(c: char) { IsSlugChar(c) || IsJsWhitespace(c) }

  function KeepSlugChars(s: string): (r: string)
    ensures forall i :: 0 <= i < |r| ==> KeptBySlugFilter(r[i])
    ensures (forall i :: 0 <= i < |s| ==> KeptBySlugFilter(s[i])) ==> r == s
  {
    if |s| == 0 then ""
    else (if KeptBySlugFilter(s[0]) then [s[0]] else []) + KeepSlugChars(s[1..])
  }

  /**
   * `.replace(/P+/g, "-")`: every maximal run of characters satisfying `P` by
   * one hyphen.  `inRun` says the character before `s` already belonged to a
   * run that has been replaced.
   */
  function ReplaceRuns(s: string, P: char -> bool, inRun: bool): string
  {
    if |s| == 0 then ""
    else if P(s[0]) then (if inRun then ReplaceRuns(s[1..], P, true) else "-" + ReplaceRuns(s[1..], P, true))
    else [s[0]] + ReplaceRuns(s[1..], P, false)
  }

  /** `String.prototype.trim`. */
  function Trim(s: string): string
  {
    TrimEnd(TrimStart(s))
  }

  function TrimStart(s: string): string
  {
    if |s| > 0 && IsJsWhitespace(s[0]) then TrimStart(s[1..]) else s
  }

  function TrimEnd(s: string): string
  {
    if |s| > 0 && IsJsWhitespace(s[|s| - 1]) then TrimEnd(s[..|s| - 1]) else s
  }

  /** The slug generated from a category name. */
  function Slugify(name: string): string
  {
    Trim(ReplaceRuns(ReplaceRuns(KeepSlugChars(ToLower(name)), IsJsWhitespace, false), IsHyphen, false))
  }

  predicate NoDoubleHyphen(s: string)
  {
    forall i :: 0 <= i < |s| - 1 ==> !(s[i] == '-' && s[i + 1] == '-')
  }

  predicate SlugShaped(s: string)
  {
    (forall i :: 0 <= i < |s| ==> IsSlugChar(s[i])) && NoDoubleHyphen(s)
  }

  lemma {:induction false} ReplaceRunsChars(s: string, P: char -> bool, inRun: bool, Q: char -> bool)
    requires forall c :: c in s ==> P(c) || Q(c)
    requires Q('-')
    ensures forall c :: c in ReplaceRuns(s, P, inRun) ==> Q(c) && (P(c) ==> c == '-')
  {
    if |s| > 0 {
      assert s[0] in s;
      assert forall c :: c in s[1..] ==> c in s;
      ReplaceRunsChars(s[1..], P, P(s[0]), Q);
    }
  }

  /** Collapsing hyphen runs leaves no two hyphens in a row. */
  lemma {:induction false} HyphenCollapseNoDouble(s: string, inRun: bool)
    ensures NoDoubleHyphen(ReplaceRuns(s, IsHyphen, inRun))
    ensures inRun ==> |ReplaceRuns(s, IsHyphen, inRun)| == 0 || ReplaceRuns(s, IsHyphen, inRun)[0] != '-'
  {
    if |s| > 0 {
      HyphenCollapseNoDouble(s[1..], IsHyphen(s[0]));
    }
  }

  /** A run replacement changes nothing when no character is in a run. */
  lemma {:induction false} ReplaceRunsNoMatch(s: string, P: char -> bool, inRun: bool)
    requires forall i :: 0 <= i < |s| ==> !P(s[i])
    ensures ReplaceRuns(s, P, inRun) == s
  {
    if |s| > 0 {
      ReplaceRunsNoMatch(s[1..], P, false);
    }
  }

  /** Collapsing hyphen runs changes nothing in a string without a double hyphen. */
  lemma {:induction false} HyphenCollapseFixes(s: string, inRun: bool)
    requires NoDoubleHyphen(s)
    requires inRun ==> |s| == 0 || s[0] != '-'
    ensures ReplaceRuns(s, IsHyphen, inRun) == s
  {
    if |s| > 0 {
      HyphenCollapseFixes(s[1..], s[0] == '-');
    }
  }

  lemma {:induction false} TrimNoWhitespace(s: string)
    requires forall i :: 0 <= i < |s| ==> !IsJsWhitespace(s[i])
    ensures TrimStart(s) == s && TrimEnd(s) == s && Trim(s) == s
  {
  }

  /** A generated slug uses only `[a-z0-9-]` and never two hyphens in a row; `trim` has nothing left to remove. */
  lemma SlugifyShape(name: string)
    ensures SlugShaped(Slugify(name))
    ensures Slugify(name) == ReplaceRuns(ReplaceRuns(KeepSlugChars(ToLower(name)), IsJsWhitespace, false), IsHyphen, false)
  {
    var kept := KeepSlugChars(ToLower(name));
    var dashed := ReplaceRuns(kept, IsJsWhitespace, false);
    ReplaceRunsChars(kept, IsJsWhitespace, false, KeptBySlugFilter);
    assert forall c :: c in dashed ==> IsSlugChar(c);
    var collapsed := ReplaceRuns(dashed, IsHyphen, false);
    ReplaceRunsChars(dashed, IsHyphen, false, IsSlugChar);
    assert forall i :: 0 <= i < |collapsed| ==> collapsed[i] in collapsed;
    HyphenCollapseNoDouble(dashed, false);
    TrimNoWhitespace(collapsed);
  }

  /** Generating a slug from a generated slug gives it back. */
  lemma SlugifyIdempotent(name: string)
    ensures Slugify(Slugify(name)) == Slugify(name)
  {
    var s := Slugify(name);
    SlugifyShape(name);
    assert ToLower(s) == s;
    assert KeepSlugChars(s) == s;
    ReplaceRunsNoMatch(s, IsJsWhitespace, false);
    HyphenCollapseFixes(s, false);
    TrimNoWhitespace(s);
  }

  /** Leading and trailing blanks become hyphens that `trim` no longer removes. */
  lemma SlugKeepsOuterHyphens()
    ensures Slugify(" Ab ") == "-ab-"
  {
    LowerStep();
    FilterStep();
    BlankStep();
    HyphenStep();
    TrimNoWhitespace("-ab-");
  }

  lemma LowerStep() ensures ToLower(" Ab ") == " ab " {}
  lemma FilterStep() ensures KeepSlugChars(" ab ") == " ab " {}

  lemma BlankStep()
    ensures ReplaceRuns(" ab ", IsJsWhitespace, false) == "-ab-"
  {
    assert ReplaceRuns(" ", IsJsWhitespace, false) == "-";
    assert ReplaceRuns("b ", IsJsWhitespace, false) == "b-";
    assert ReplaceRuns("ab ", IsJsWhitespace, true) == "ab-";
  }

  lemma HyphenStep()
    ensures ReplaceRuns("-ab-", IsHyphen, false) == "-ab-"
  {
    assert ReplaceRuns("b-", IsHyphen, false) == "b-";
    assert ReplaceRuns("ab-", IsHyphen, true) == "ab-";
  }

  /**
   * The slug field after the name changes: regenerated from a non-empty name
   * when creating, left as it is when editing or when the name is empty.
   */
  function AutoSlug(name: string, isEditing: bool, currentSlug: string): (r: string)
    ensures isEditing || name == "" ==> r == currentSlug
    ensures !isEditing && name != "" ==> SlugShaped(r) && r == Slugify(name)
  {
    SlugifyShape(name);
    if name != "" && !isEditing then Slugify(name) else currentSlug
  }
}
