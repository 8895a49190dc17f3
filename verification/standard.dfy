/** The standard layout: one block per (user, project, folder, change type)
    group, most active first. */
module Standard {
  import opened Assoc
  import opened Ordering
  import opened Activity
  import opened Blocks
  import opened Links

  type Entry = (GroupKey, nat)

  /** Python's `<` on the tuples (user, project, folder, change_type). */
  predicate KeyLess(a: GroupKey, b: GroupKey): (r: bool)
    ensures r ==> a != b
    ensures a.user != b.user ==> (r <==> StrLess(a.user, b.user))
  {
    if a.user != b.user then StrLess(a.user, b.user)
    else if a.project != b.project then StrLess(a.project, b.project)
    else if a.folder != b.folder then StrLess(a.folder, b.folder)
    else StrLess(a.changeType, b.changeType)
  }

  /** Python's `<` on the sort key `(count, user, project, folder, change_type)`. */
  predicate EntryLess(a: Entry, b: Entry): (r: bool)
    ensures a.1 < b.1 ==> r
    ensures a.1 > b.1 ==> !r
    ensures r ==> a != b
  {
    a.1 < b.1 || (a.1 == b.1 && KeyLess(a.0, b.0))
  }

  lemma KeyLessIrreflexive(a: GroupKey)
    ensures !KeyLess(a, a)
  {
    StrLessIrreflexive(a.changeType);
  }

  lemma KeyLessTransitive(a: GroupKey, b: GroupKey, c: GroupKey)
    requires KeyLess(a, b) && KeyLess(b, c)
    ensures KeyLess(a, c)
  {
    if a.user != b.user || b.user != c.user {
      if a.user == c.user {
        StrLessTransitive(a.user, b.user, a.user);
        StrLessIrreflexive(a.user);
      } else if a.user != b.user && b.user != c.user {
        StrLessTransitive(a.user, b.user, c.user);
      }
    } else if a.project != b.project || b.project != c.project {
      if a.project == c.project {
        StrLessTransitive(a.project, b.project, a.project);
        StrLessIrreflexive(a.project);
      } else if a.project != b.project && b.project != c.project {
        StrLessTransitive(a.project, b.project, c.project);
      }
    } else if a.folder != b.folder || b.folder != c.folder {
      if a.folder == c.folder {
        StrLessTransitive(a.folder, b.folder, a.folder);
        StrLessIrreflexive(a.folder);
      } else if a.folder != b.folder && b.folder != c.folder {
        StrLessTransitive(a.folder, b.folder, c.folder);
      }
    } else {
      StrLessTransitive(a.changeType, b.changeType, c.changeType);
    }
  }

  lemma KeyLessTotal(a: GroupKey, b: GroupKey)
    requires a != b
    ensures KeyLess(a, b) || KeyLess(b, a)
  {
    if a.user != b.user {
      StrLessTotal(a.user, b.user);
    } else if a.project != b.project {
      StrLessTotal(a.project, b.project);
    } else if a.folder != b.folder {
      StrLessTotal(a.folder, b.folder);
    } else {
      StrLessTotal(a.changeType, b.changeType);
    }
  }

  /** `!(a < c)` and `!(c < b)` give `!(a < b)`: the order's complement is transitive. */
  lemma NotEntryLessTransitive(a: Entry, c: Entry, b: Entry)
    requires !EntryLess(a, c) && !EntryLess(c, b)
    ensures !EntryLess(a, b)
  {
    if EntryLess(a, b) {
      if c == b {
      } else if c.1 == b.1 {
        KeyLessTotal(c.0, b.0);
        if a.1 == b.1 {
          KeyLessTransitive(a.0, b.0, c.0);
        }
      }
    }
  }

  lemma EntryLessAsymmetric(a: Entry, b: Entry)
    requires EntryLess(a, b)
    ensures !EntryLess(b, a)
  {
    if EntryLess(b, a) && a.1 == b.1 {
      KeyLessTransitive(a.0, b.0, a.0);
      KeyLessIrreflexive(a.0);
    }
  }

  /** The sequence is in Python's `reverse=True` order of the sort key. */
  ghost predicate StandardOrder(s: seq<Entry>)
  {
    forall i, j :: 0 <= i < j < |s| ==> !EntryLess(s[i], s[j])
  }

  lemma StandardOrderCons(h: Entry, rest: seq<Entry>)
    requires StandardOrder(rest)
    requires rest != [] ==> !EntryLess(h, rest[0])
    ensures StandardOrder([h] + rest)
  {
    var s := [h] + rest;
    forall i, j | 0 <= i < j < |s|
      ensures !EntryLess(s[i], s[j])
    {
      if i == 0 && j > 1 {
        NotEntryLessTransitive(h, rest[0], rest[j - 1]);
      }
    }
  }

  function InsertStandard(t: seq<Entry>, x: Entry): (r: seq<Entry>)
    requires StandardOrder(t)
    ensures multiset(r) == multiset(t) + multiset{x}
    ensures StandardOrder(r)
    ensures |r| == |t| + 1
    ensures t == [] || !EntryLess(x, t[0]) ==> r[0] == x
    ensures t != [] && EntryLess(x, t[0]) ==> r[0] == t[0]
  {
    if t == [] then [x]
    else if EntryLess(x, t[0]) then
      var rest := InsertStandard(t[1..], x);
      assert t == [t[0]] + t[1..];
      EntryLessAsymmetric(x, t[0]);
      StandardOrderCons(t[0], rest);
      [t[0]] + rest
    else
      StandardOrderCons(x, t);
      [x] + t
  }

  /** The source's `sorted(activity.items(), key=lambda x: (x[1], *x[0]),
      reverse=True)`: by count, then by user, project, folder and change
      type, all descending. */
  function SortStandard(s: seq<Entry>): (r: seq<Entry>)
    ensures multiset(r) == multiset(s)
    ensures |r| == |s|
    ensures StandardOrder(r)
    decreases |s|
  {
    if s == [] then []
    else
      assert s == s[..|s| - 1] + [s[|s| - 1]];
      InsertStandard(SortStandard(s[..|s| - 1]), s[|s| - 1])
  }

  /** One standard-layout block. */
  function RenderActivity(t: Tally, e: Entry): (b: Block)
    requires HasIds(t, e.0.user, e.0.project)
    ensures b.Activity? && b.count == e.1
    ensures b.user == Profile(Get(t.userIds, e.0.user).value, e.0.user)
    ensures b.location.project == Synapse(Get(t.projectIds, e.0.project).value, e.0.project)
    ensures b.itemWord == "item" <==> e.1 == 1
    ensures b.itemWord == "item" || b.itemWord == "items"
    ensures b.verb == CreatedVerb <==> e.0.changeType == CreateChangeType
    ensures b.verb == CreatedVerb || b.verb == ModifiedVerb
    ensures b.location.ProjectRoot? <==> e.0.folder == RootFolder
    ensures b.location.InFolder? ==>
              (b.location.folder.Linked? <==> (e.0.project, e.0.folder) in Keys(t.folderIds))
    ensures b.location.InFolder? && b.location.folder.Linked? ==>
              b.location.folder.link == Synapse(Get(t.folderIds, (e.0.project, e.0.folder)).value, e.0.folder)
    ensures b.location.InFolder? && b.location.folder.Unlinked? ==> b.location.folder.name == e.0.folder
  {
    var key := e.0;
    var location :=
      if key.folder == RootFolder then ProjectRoot(ProjectLink(t, key.project))
      else InFolder(FolderRefOf(t, key.project, key.folder), ProjectLink(t, key.project));
    Activity(UserLink(t, key.user), Verb(key.changeType), e.1, ItemWord(e.1), location)
  }

  /** Sorting keeps the groups, so every sorted entry has its ids. */
  lemma SortedHaveIds(t: Tally)
    requires Linkable(t)
    ensures forall e :: e in SortStandard(t.groups) ==> HasIds(t, e.0.user, e.0.project)
  {
    var sorted := SortStandard(t.groups);
    forall e | e in sorted
      ensures HasIds(t, e.0.user, e.0.project)
    {
      assert e in multiset(t.groups);
      var i :| 0 <= i < |t.groups| && t.groups[i] == e;
      assert Keys(t.groups)[i] == e.0;
    }
  }

  /** The standard layout's detail blocks: one per group, in sorted order. */
  function RenderStandard(t: Tally): (blocks: seq<Block>)
    requires Linkable(t)
    ensures |blocks| == |t.groups|
    ensures forall i :: 0 <= i < |blocks| ==> blocks[i].Activity?
    ensures forall i, j :: 0 <= i < j < |blocks| ==> blocks[i].count >= blocks[j].count
  {
    var sorted := SortStandard(t.groups);
    SortedHaveIds(t);
    seq(|sorted|, i requires 0 <= i < |sorted| => RenderActivity(t, sorted[i]))
  }

  /** The i-th block renders the i-th group in the source's sort order. */
  lemma RenderStandardBlocks(t: Tally)
    requires Linkable(t)
    ensures forall e :: e in SortStandard(t.groups) ==> HasIds(t, e.0.user, e.0.project)
    ensures forall i :: 0 <= i < |RenderStandard(t)| ==>
              RenderStandard(t)[i] == RenderActivity(t, SortStandard(t.groups)[i])
  {
    SortedHaveIds(t);
  }

  /** With distinct group keys, as a dict has, the sort leaves no tie: an
      entry comes before another when its count is higher, or when the
      counts are equal and its (user, project, folder, change type) is
      greater in Python's tuple order. */
  lemma SortStandardStrict(groups: seq<Entry>)
    requires Distinct(Keys(groups))
    ensures var sorted := SortStandard(groups);
            forall i, j :: 0 <= i < j < |sorted| ==>
              sorted[i].1 > sorted[j].1 || (sorted[i].1 == sorted[j].1 && KeyLess(sorted[j].0, sorted[i].0))
  {
    var sorted := SortStandard(groups);
    DistinctKeysPermutation(groups, sorted);
    forall i, j | 0 <= i < j < |sorted|
      ensures sorted[i].1 > sorted[j].1 || (sorted[i].1 == sorted[j].1 && KeyLess(sorted[j].0, sorted[i].0))
    {
      assert !EntryLess(sorted[i], sorted[j]);
      if sorted[i].1 == sorted[j].1 {
        assert Keys(sorted)[i] != Keys(sorted)[j];
        KeyLessTotal(sorted[i].0, sorted[j].0);
      }
    }
  }

  /** No group is lost or duplicated: each has its own block. */
  lemma EveryGroupRendered(t: Tally, e: Entry)
    requires Linkable(t)
    requires e in t.groups
    ensures HasIds(t, e.0.user, e.0.project)
    ensures exists i :: 0 <= i < |RenderStandard(t)| && RenderStandard(t)[i] == RenderActivity(t, e)
  {
    var k :| 0 <= k < |t.groups| && t.groups[k] == e;
    assert Keys(t.groups)[k] == e.0;
    var sorted := SortStandard(t.groups);
    SortedHaveIds(t);
    assert e in multiset(sorted);
    var i :| 0 <= i < |sorted| && sorted[i] == e;
    assert RenderStandard(t)[i] == RenderActivity(t, e);
  }

  /** With every folder id known, no standard-layout block names a folder
      without linking it: the plain-name branch is never taken. */
  lemma StandardFoldersLinked(t: Tally)
    requires Linkable(t) && FoldersLinked(t)
    ensures forall i :: 0 <= i < |RenderStandard(t)| && RenderStandard(t)[i].location.InFolder? ==>
              RenderStandard(t)[i].location.folder.Linked?
  {
    var blocks := RenderStandard(t);
    var sorted := SortStandard(t.groups);
    SortedHaveIds(t);
    forall i | 0 <= i < |blocks| && blocks[i].location.InFolder?
      ensures blocks[i].location.folder.Linked?
    {
      var e := sorted[i];
      assert blocks[i] == RenderActivity(t, e);
      assert e in multiset(t.groups);
      var g :| 0 <= g < |t.groups| && t.groups[g] == e;
      assert Keys(t.groups)[g] == e.0;
    }
  }
}
