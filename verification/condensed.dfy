/** The condensed layout, used under high activity: the groups are
    re-aggregated per (user, project) pair, the 15 most active pairs get a
    block each listing at most 5 folders, and one line counts the rest. */
module Condensed {
  import opened Maybe
  import opened Assoc
  import opened Ordering
  import opened Activity
  import opened Blocks
  import opened Links

  const MaxUserProjectCombinations: nat := 15
  const MaxFolderDisplay: nat := 5

  type PairKey = (string, string)

  /** One entry of `user_project_summary`: activity per folder and per
      change type, and the pair's total. */
  datatype PairData = PairData(folders: Assoc<string, nat>, changeTypes: Assoc<string, nat>, total: nat)

  const NewPair: PairData := PairData([], [], 0)

  function PairOf(k: GroupKey): PairKey
  {
    (k.user, k.project)
  }

  /** A pair's entry after adding one group's count to it. */
  function Grow(d: PairData, key: GroupKey, count: nat): (r: PairData)
    ensures r.total == d.total + count
    ensures Balanced(d) ==> Balanced(r)
    ensures Keys(r.folders) == if key.folder in Keys(d.folders) then Keys(d.folders) else Keys(d.folders) + [key.folder]
  {
    PairData(AddTo(d.folders, key.folder, count),
             AddTo(d.changeTypes, key.changeType, count),
             d.total + count)
  }

  /** Growing a pair adds `count` to the group's folder and to its change
      type, and leaves the counts of the other folders and change types as
      they were. */
  lemma GrowCounts(d: PairData, key: GroupKey, count: nat, f: string, c: string)
    ensures var r := Grow(d, key, count);
            && CountOf(r.folders, key.folder) == CountOf(d.folders, key.folder) + count
            && CountOf(r.changeTypes, key.changeType) == CountOf(d.changeTypes, key.changeType) + count
            && Keys(r.changeTypes)
               == if key.changeType in Keys(d.changeTypes) then Keys(d.changeTypes) else Keys(d.changeTypes) + [key.changeType]
    ensures f != key.folder ==> Get(Grow(d, key, count).folders, f) == Get(d.folders, f)
    ensures c != key.changeType ==> Get(Grow(d, key, count).changeTypes, c) == Get(d.changeTypes, c)
  {
  }

  /** One iteration of the re-aggregation loop over the groups. */
  function AddGroup(pairs: Assoc<PairKey, PairData>, e: (GroupKey, nat)): (r: Assoc<PairKey, PairData>)
    ensures Keys(r) == if PairOf(e.0) in Keys(pairs) then Keys(pairs) else Keys(pairs) + [PairOf(e.0)]
    ensures Get(r, PairOf(e.0)) == Some(Grow(ValueOr(Get(pairs, PairOf(e.0)), NewPair), e.0, e.1))
    ensures forall pk :: pk != PairOf(e.0) ==> Get(r, pk) == Get(pairs, pk)
  {
    var pk := PairOf(e.0);
    Put(pairs, pk, Grow(ValueOr(Get(pairs, pk), NewPair), e.0, e.1))
  }

  /** `user_project_summary`: a left fold of `AddGroup` over the groups in
      their first-seen order. */
  function Summarize(groups: Assoc<GroupKey, nat>): (pairs: Assoc<PairKey, PairData>)
    ensures |pairs| <= |groups|
    ensures pairs == [] <==> groups == []
    decreases |groups|
  {
    if groups == [] then []
    else AddGroup(Summarize(groups[..|groups| - 1]), groups[|groups| - 1])
  }

  ghost function PairKeys(groups: Assoc<GroupKey, nat>): seq<PairKey>
    decreases |groups|
  {
    if groups == [] then [] else PairKeys(groups[..|groups| - 1]) + [PairOf(groups[|groups| - 1].0)]
  }

  /** Reference definition: the activity of the groups that belong to `pk`. */
  ghost function GroupTotal(groups: Assoc<GroupKey, nat>, pk: PairKey): nat
    decreases |groups|
  {
    if groups == [] then 0
    else
      var last := groups[|groups| - 1];
      GroupTotal(groups[..|groups| - 1], pk) + (if PairOf(last.0) == pk then last.1 else 0)
  }

  function Total(d: PairData): nat
  {
    d.total
  }

  /** A pair's folder counts and change-type counts both add up to its total. */
  ghost predicate Balanced(d: PairData)
  {
    Sum(d.folders) == d.total && Sum(d.changeTypes) == d.total
  }

  /** The pairs are the distinct (user, project) pairs of the groups, first seen first. */
  lemma {:induction false} SummarizeKeys(groups: Assoc<GroupKey, nat>)
    ensures Keys(Summarize(groups)) == FirstSeen(PairKeys(groups))
    decreases |groups|
  {
    if groups != [] {
      var pre, last := groups[..|groups| - 1], groups[|groups| - 1];
      SummarizeKeys(pre);
      FirstSeenSnoc(PairKeys(pre), PairOf(last.0));
    }
  }

  /** Each pair's total is the sum of its groups' counts, and its folder
      and change-type counts add up to that total. */
  lemma {:induction false} SummarizeTotals(groups: Assoc<GroupKey, nat>, pk: PairKey)
    ensures Get(Summarize(groups), pk).Some? ==>
              Balanced(Get(Summarize(groups), pk).value)
              && Get(Summarize(groups), pk).value.total == GroupTotal(groups, pk)
    ensures Get(Summarize(groups), pk).None? ==> GroupTotal(groups, pk) == 0
    decreases |groups|
  {
    if groups != [] {
      var pre, last := groups[..|groups| - 1], groups[|groups| - 1];
      SummarizeTotals(pre, pk);
      AddGroupTotals(Summarize(pre), last, pk, GroupTotal(pre, pk));
      assert Summarize(groups) == AddGroup(Summarize(pre), last);
      assert GroupTotal(groups, pk) == GroupTotal(pre, pk) + (if PairOf(last.0) == pk then last.1 else 0);
    }
  }

  /** One step of `SummarizeTotals`: adding a group of pair `pk` adds its
      count to the pair's total, and keeps the pair balanced. */
  lemma AddGroupTotals(pairs: Assoc<PairKey, PairData>, e: (GroupKey, nat), pk: PairKey, before: nat)
    requires Get(pairs, pk).Some? ==> Balanced(Get(pairs, pk).value) && Get(pairs, pk).value.total == before
    requires Get(pairs, pk).None? ==> before == 0
    ensures var after := Get(AddGroup(pairs, e), pk);
            var total := before + (if PairOf(e.0) == pk then e.1 else 0);
            && (after.Some? ==> Balanced(after.value) && after.value.total == total)
            && (after.None? ==> total == 0)
  {
  }

  /** Reference definition: the activity of pair `pk`'s groups in folder `f`. */
  ghost function GroupFolderTotal(groups: Assoc<GroupKey, nat>, pk: PairKey, f: string): nat
    decreases |groups|
  {
    if groups == [] then 0
    else
      var last := groups[|groups| - 1];
      GroupFolderTotal(groups[..|groups| - 1], pk, f)
        + (if PairOf(last.0) == pk && last.0.folder == f then last.1 else 0)
  }

  /** Reference definition: the activity of pair `pk`'s groups of change type `c`. */
  ghost function GroupChangeTotal(groups: Assoc<GroupKey, nat>, pk: PairKey, c: string): nat
    decreases |groups|
  {
    if groups == [] then 0
    else
      var last := groups[|groups| - 1];
      GroupChangeTotal(groups[..|groups| - 1], pk, c)
        + (if PairOf(last.0) == pk && last.0.changeType == c then last.1 else 0)
  }

  /** The count a pair shows for a folder is the sum of the counts of the
      pair's groups in that folder. */
  lemma {:induction false} SummarizeFolders(groups: Assoc<GroupKey, nat>, pk: PairKey, f: string)
    ensures CountOf(ValueOr(Get(Summarize(groups), pk), NewPair).folders, f) == GroupFolderTotal(groups, pk, f)
    decreases |groups|
  {
    if groups != [] {
      var pre, last := groups[..|groups| - 1], groups[|groups| - 1];
      SummarizeFolders(pre, pk, f);
      AddGroupFolder(Summarize(pre), last, pk, f);
    }
  }

  /** One step of `SummarizeFolders`. */
  lemma AddGroupFolder(pairs: Assoc<PairKey, PairData>, e: (GroupKey, nat), pk: PairKey, f: string)
    ensures CountOf(ValueOr(Get(AddGroup(pairs, e), pk), NewPair).folders, f)
            == CountOf(ValueOr(Get(pairs, pk), NewPair).folders, f)
               + (if PairOf(e.0) == pk && e.0.folder == f then e.1 else 0)
  {
    if PairOf(e.0) == pk {
      GrowCounts(ValueOr(Get(pairs, pk), NewPair), e.0, e.1, f, "");
    }
  }

  /** The count a pair shows for a change type is the sum of the counts of
      the pair's groups of that change type. */
  lemma {:induction false} SummarizeChangeTypes(groups: Assoc<GroupKey, nat>, pk: PairKey, c: string)
    ensures CountOf(ValueOr(Get(Summarize(groups), pk), NewPair).changeTypes, c) == GroupChangeTotal(groups, pk, c)
    decreases |groups|
  {
    if groups != [] {
      var pre, last := groups[..|groups| - 1], groups[|groups| - 1];
      SummarizeChangeTypes(pre, pk, c);
      AddGroupChangeType(Summarize(pre), last, pk, c);
    }
  }

  /** One step of `SummarizeChangeTypes`. */
  lemma AddGroupChangeType(pairs: Assoc<PairKey, PairData>, e: (GroupKey, nat), pk: PairKey, c: string)
    ensures CountOf(ValueOr(Get(AddGroup(pairs, e), pk), NewPair).changeTypes, c)
            == CountOf(ValueOr(Get(pairs, pk), NewPair).changeTypes, c)
               + (if PairOf(e.0) == pk && e.0.changeType == c then e.1 else 0)
  {
    if PairOf(e.0) == pk {
      GrowCounts(ValueOr(Get(pairs, pk), NewPair), e.0, e.1, "", c);
    }
  }

  /** A pair keeps one counter per folder: its folder keys are distinct. */
  lemma {:induction false} FoldersDistinct(groups: Assoc<GroupKey, nat>, pk: PairKey)
    ensures Distinct(Keys(ValueOr(Get(Summarize(groups), pk), NewPair).folders))
    decreases |groups|
  {
    if groups != [] {
      var pre, last := groups[..|groups| - 1], groups[|groups| - 1];
      FoldersDistinct(pre, pk);
      AddGroupFoldersDistinct(Summarize(pre), last, pk);
    }
  }

  /** One step of `FoldersDistinct`. */
  lemma AddGroupFoldersDistinct(pairs: Assoc<PairKey, PairData>, e: (GroupKey, nat), pk: PairKey)
    requires Distinct(Keys(ValueOr(Get(pairs, pk), NewPair).folders))
    ensures Distinct(Keys(ValueOr(Get(AddGroup(pairs, e), pk), NewPair).folders))
  {
    if PairOf(e.0) == pk {
      AddToDistinct(ValueOr(Get(pairs, pk), NewPair).folders, e.0.folder, e.1);
    }
  }

  /** A pair keeps one counter per change type: its change-type keys are distinct. */
  lemma {:induction false} ChangeTypesDistinct(groups: Assoc<GroupKey, nat>, pk: PairKey)
    ensures Distinct(Keys(ValueOr(Get(Summarize(groups), pk), NewPair).changeTypes))
    decreases |groups|
  {
    if groups != [] {
      var pre, last := groups[..|groups| - 1], groups[|groups| - 1];
      ChangeTypesDistinct(pre, pk);
      AddGroupChangeTypesDistinct(Summarize(pre), last, pk);
    }
  }

  /** One step of `ChangeTypesDistinct`. */
  lemma AddGroupChangeTypesDistinct(pairs: Assoc<PairKey, PairData>, e: (GroupKey, nat), pk: PairKey)
    requires Distinct(Keys(ValueOr(Get(pairs, pk), NewPair).changeTypes))
    ensures Distinct(Keys(ValueOr(Get(AddGroup(pairs, e), pk), NewPair).changeTypes))
  {
    if PairOf(e.0) == pk {
      AddToDistinct(ValueOr(Get(pairs, pk), NewPair).changeTypes, e.0.changeType, e.1);
    }
  }

  /** The pair totals add up to the group counts, hence to the row count. */
  lemma {:induction false} SummarizeSum(groups: Assoc<GroupKey, nat>)
    ensures SumBy(Summarize(groups), Total) == Sum(groups)
    decreases |groups|
  {
    if groups != [] {
      var pre, last := groups[..|groups| - 1], groups[|groups| - 1];
      SummarizeSum(pre);
      AddGroupSum(Summarize(pre), last);
      SumLast(groups);
    }
  }

  /** Adding a group raises the sum of the pair totals by its count. */
  lemma AddGroupSum(pairs: Assoc<PairKey, PairData>, e: (GroupKey, nat))
    ensures SumBy(AddGroup(pairs, e), Total) == SumBy(pairs, Total) + e.1
  {
    var pk := PairOf(e.0);
    var d := ValueOr(Get(pairs, pk), NewPair);
    var d' := Grow(d, e.0, e.1);
    SumByPut(pairs, pk, d', Total);
    assert WeightOf(Get(pairs, pk), Total) == d.total;
  }

  lemma SumLast<K>(m: Assoc<K, nat>)
    requires m != []
    ensures Sum(m) == Sum(m[..|m| - 1]) + m[|m| - 1].1
  {
    assert m == m[..|m| - 1] + [m[|m| - 1]];
    SumSnoc(m[..|m| - 1], m[|m| - 1]);
  }

  lemma SumSnoc<K>(pre: Assoc<K, nat>, last: (K, nat))
    ensures Sum(pre + [last]) == Sum(pre) + last.1
  {
    SumByAppend(pre, [last], NatValue);
    assert [last][1..] == [];
  }

  /** The pairs' keys are the (user, project) parts of the group keys. */
  lemma {:induction false} PairKeysImage(groups: Assoc<GroupKey, nat>)
    ensures Elements(PairKeys(groups)) == set k | k in Keys(groups) :: PairOf(k)
    decreases |groups|
  {
    if groups != [] {
      var pre, last := groups[..|groups| - 1], groups[|groups| - 1];
      PairKeysImage(pre);
      assert Keys(groups) == Keys(pre) + [last.0];
      assert Elements(PairKeys(groups)) == Elements(PairKeys(pre)) + {PairOf(last.0)};
    }
  }

  /** Every pair comes from a group, so a linkable tally has the ids of
      every pair. */
  lemma PairsHaveIds(t: Tally)
    requires Linkable(t)
    ensures forall p :: p in Summarize(t.groups) ==> HasIds(t, p.0.0, p.0.1)
  {
    forall p | p in Summarize(t.groups)
      ensures HasIds(t, p.0.0, p.0.1)
    {
      var pairs := Summarize(t.groups);
      KeyOfMember(pairs, p);
      SummarizeKeys(t.groups);
      assert p.0 in Elements(FirstSeen(PairKeys(t.groups)));
      var j := GroupOfPair(t.groups, p.0);
      assert Keys(t.groups)[j] == t.groups[j].0;
    }
  }

  lemma {:induction false} GroupOfPair(groups: Assoc<GroupKey, nat>, pk: PairKey) returns (j: nat)
    requires pk in PairKeys(groups)
    ensures j < |groups| && PairOf(groups[j].0) == pk
    decreases |groups|
  {
    var pre := groups[..|groups| - 1];
    if pk in PairKeys(pre) {
      j := GroupOfPair(pre, pk);
    } else {
      j := |groups| - 1;
    }
  }

  function CountKey(e: (string, nat)): int
  {
    e.1
  }

  function TotalKey(e: (PairKey, PairData)): int
  {
    e.1.total
  }

  /** "N in root" or "N in <folder>". */
  function PlaceOf(t: Tally, project: string, folder: string): (r: Place)
    ensures r.Root? <==> folder == RootFolder
    ensures r.Folder? ==> r.folder == FolderRefOf(t, project, folder)
  {
    if folder == RootFolder then Root else Folder(FolderRefOf(t, project, folder))
  }

  /** The folder part of a pair's line: the most active folders, at most
      `MaxFolderDisplay` of them, and the " (+N more folders)" count. */
  function FolderSummary(t: Tally, project: string, folders: Assoc<string, nat>)
    : (r: (seq<(Place, nat)>, Option<nat>))
    ensures |r.0| == if |folders| < MaxFolderDisplay then |folders| else MaxFolderDisplay
    ensures r.1.Some? <==> |folders| > MaxFolderDisplay
    ensures r.1.Some? ==> |r.0| + r.1.value == |folders|
    ensures forall i, j :: 0 <= i < j < |r.0| ==> r.0[i].1 >= r.0[j].1
  {
    var top := TopK(folders, CountKey, MaxFolderDisplay);
    var shown := top.0;
    var listed := seq(|shown|, i requires 0 <= i < |shown| => (PlaceOf(t, project, shown[i].0), shown[i].1));
    assert forall i, j :: 0 <= i < j < |listed| ==> listed[i].1 >= listed[j].1 by {
      assert Descending(shown, CountKey);
      forall i, j | 0 <= i < j < |listed|
        ensures listed[i].1 >= listed[j].1
      {
        assert CountKey(shown[i]) >= CountKey(shown[j]);
      }
    }
    var more := if |folders| > MaxFolderDisplay then Some(|folders| - MaxFolderDisplay) else None;
    (listed, more)
  }

  /** Each listed folder is one of the pair's folders with its own count,
      and no folder left out has a higher count than a listed one. */
  lemma FolderSummaryShown(t: Tally, project: string, folders: Assoc<string, nat>, i: nat)
    requires i < |FolderSummary(t, project, folders).0|
    ensures var shown := TopK(folders, CountKey, MaxFolderDisplay).0;
            && shown[i] in folders
            && FolderSummary(t, project, folders).0[i] == (PlaceOf(t, project, shown[i].0), shown[i].1)
            && forall p :: p in folders && p !in shown ==> shown[i].1 >= p.1
  {
    var top := TopK(folders, CountKey, MaxFolderDisplay);
    assert top.0[i] in multiset(top.0);
    assert top.0[i] in multiset(folders);
    forall p | p in folders && p !in top.0
      ensures top.0[i].1 >= p.1
    {
      assert p in multiset(folders);
      assert p !in multiset(top.0);
      assert p in multiset(top.1);
      var j :| 0 <= j < |top.1| && top.1[j] == p;
      assert CountKey(top.0[i]) >= CountKey(top.1[j]);
    }
  }

  /** Among the folders with a given count, the listed ones are the first
      the pair met, in that order: the cut keeps the sort stable. */
  lemma FolderSummaryTies(folders: Assoc<string, nat>, n: nat)
    ensures WithKey(TopK(folders, CountKey, MaxFolderDisplay).0, CountKey, n) <= WithKey(folders, CountKey, n)
  {
    TopKStable(folders, CountKey, MaxFolderDisplay, n);
  }

  /** The change-type part of a pair's line: "created N" / "modified N",
      most frequent first. */
  function ChangeSummary(changeTypes: Assoc<string, nat>): (r: seq<(string, nat)>)
    ensures |r| == |changeTypes|
    ensures forall i, j :: 0 <= i < j < |r| ==> r[i].1 >= r[j].1
    ensures forall i :: 0 <= i < |r| ==> r[i].0 == CreatedVerb || r[i].0 == ModifiedVerb
  {
    var sorted := SortDesc(changeTypes, CountKey);
    var r := seq(|sorted|, i requires 0 <= i < |sorted| => (Verb(sorted[i].0), sorted[i].1));
    assert forall i, j :: 0 <= i < j < |r| ==> r[i].1 >= r[j].1 by {
      forall i, j | 0 <= i < j < |r|
        ensures r[i].1 >= r[j].1
      {
        assert CountKey(sorted[i]) >= CountKey(sorted[j]);
      }
    }
    r
  }

  /** Relabelling and sorting the change types keeps their counts. */
  lemma ChangeSummaryTotal(changeTypes: Assoc<string, nat>)
    ensures Sum(ChangeSummary(changeTypes)) == Sum(changeTypes)
  {
    var sorted := SortDesc(changeTypes, CountKey);
    var r := ChangeSummary(changeTypes);
    assert forall i :: 0 <= i < |r| ==> r[i].1 == sorted[i].1;
    SumSameValues(r, sorted);
    SortDescPerm(changeTypes, CountKey);
    SumByPermutation(sorted, changeTypes, NatValue);
  }

  /** Every change type of the pair is listed with its own count, as
      "created" iff it is `CREATE`. */
  lemma ChangeSummaryCovers(changeTypes: Assoc<string, nat>, c: (string, nat))
    requires c in changeTypes
    ensures (Verb(c.0), c.1) in ChangeSummary(changeTypes)
  {
    var sorted := SortDesc(changeTypes, CountKey);
    SortDescPerm(changeTypes, CountKey);
    assert c in multiset(sorted);
    var i :| 0 <= i < |sorted| && sorted[i] == c;
    assert ChangeSummary(changeTypes)[i] == (Verb(c.0), c.1);
  }

  /** Conversely, every listed entry is a change type of the pair with its
      own count, read "created" iff that change type is `CREATE`. */
  lemma ChangeSummaryFrom(changeTypes: Assoc<string, nat>, i: nat)
    requires i < |ChangeSummary(changeTypes)|
    ensures var c := SortDesc(changeTypes, CountKey)[i];
            && c in changeTypes
            && ChangeSummary(changeTypes)[i] == (Verb(c.0), c.1)
            && (ChangeSummary(changeTypes)[i].0 == CreatedVerb <==> c.0 == CreateChangeType)
  {
    var sorted := SortDesc(changeTypes, CountKey);
    SortDescPerm(changeTypes, CountKey);
    assert sorted[i] in multiset(changeTypes);
  }

  /** Every count a pair's folder list shows is the sum of the counts of
      the pair's groups in that folder. */
  lemma ListedFolderCount(t: Tally, groups: Assoc<GroupKey, nat>, p: (PairKey, PairData), i: nat)
    requires p in Summarize(groups)
    requires i < |FolderSummary(t, p.0.1, p.1.folders).0|
    ensures var f := TopK(p.1.folders, CountKey, MaxFolderDisplay).0[i].0;
            FolderSummary(t, p.0.1, p.1.folders).0[i] == (PlaceOf(t, p.0.1, f), GroupFolderTotal(groups, p.0, f))
  {
    var shown := TopK(p.1.folders, CountKey, MaxFolderDisplay).0;
    SummarizeKeys(groups);
    GetMember(Summarize(groups), p);
    FoldersDistinct(groups, p.0);
    FolderSummaryShown(t, p.0.1, p.1.folders, i);
    GetMember(p.1.folders, shown[i]);
    SummarizeFolders(groups, p.0, shown[i].0);
  }

  /** Every count a pair's change list shows is the sum of the counts of
      the pair's groups of that change type, read "created" iff it is
      `CREATE`. */
  lemma ListedChangeCount(groups: Assoc<GroupKey, nat>, p: (PairKey, PairData), i: nat)
    requires p in Summarize(groups)
    requires i < |ChangeSummary(p.1.changeTypes)|
    ensures var c := SortDesc(p.1.changeTypes, CountKey)[i].0;
            ChangeSummary(p.1.changeTypes)[i] == (Verb(c), GroupChangeTotal(groups, p.0, c))
  {
    var c := SortDesc(p.1.changeTypes, CountKey)[i];
    SummarizeKeys(groups);
    GetMember(Summarize(groups), p);
    ChangeTypesDistinct(groups, p.0);
    ChangeSummaryFrom(p.1.changeTypes, i);
    GetMember(p.1.changeTypes, c);
    SummarizeChangeTypes(groups, p.0, c.0);
  }

  /** One condensed-layout block for a (user, project) pair. */
  function RenderPair(t: Tally, p: (PairKey, PairData)): (b: Block)
    requires HasIds(t, p.0.0, p.0.1)
    ensures b.PairSummary?
    ensures b.user == UserLink(t, p.0.0) && b.project == ProjectLink(t, p.0.1)
    ensures |b.folders| == if |p.1.folders| < MaxFolderDisplay then |p.1.folders| else MaxFolderDisplay
    ensures b.moreFolders.Some? <==> |p.1.folders| > MaxFolderDisplay
    ensures b.moreFolders.Some? ==> |b.folders| + b.moreFolders.value == |p.1.folders|
    ensures Sum(b.changes) == Sum(p.1.changeTypes)
  {
    var folders := FolderSummary(t, p.0.1, p.1.folders);
    ChangeSummaryTotal(p.1.changeTypes);
    PairSummary(UserLink(t, p.0.0), ChangeSummary(p.1.changeTypes), folders.0, folders.1, ProjectLink(t, p.0.1))
  }

  /** A pair block lists exactly the pair's change summary and folder
      summary, so the facts proved about those hold of the block. */
  lemma RenderPairParts(t: Tally, p: (PairKey, PairData))
    requires HasIds(t, p.0.0, p.0.1)
    ensures RenderPair(t, p).changes == ChangeSummary(p.1.changeTypes)
    ensures RenderPair(t, p).folders == FolderSummary(t, p.0.1, p.1.folders).0
    ensures RenderPair(t, p).moreFolders == FolderSummary(t, p.0.1, p.1.folders).1
  {
  }

  /** The `MaxUserProjectCombinations` most active pairs, most active first. */
  function TopPairs(pairs: Assoc<PairKey, PairData>): (shown: Assoc<PairKey, PairData>)
    ensures |shown| == if |pairs| < MaxUserProjectCombinations then |pairs| else MaxUserProjectCombinations
    ensures forall p :: p in shown ==> p in pairs
    ensures multiset(shown) <= multiset(pairs)
    ensures shown == SortDesc(pairs, TotalKey)[..|shown|]
  {
    var top := TopK(pairs, TotalKey, MaxUserProjectCombinations);
    assert forall p :: p in top.0 ==> p in pairs by {
      forall p | p in top.0
        ensures p in pairs
      {
        assert p in multiset(top.0);
        assert multiset(pairs)[p] >= multiset(top.0)[p];
        assert p in multiset(pairs);
      }
    }
    top.0
  }

  /** Among the pairs with a given total, the shown ones are the first seen,
      in that order: the cut keeps the sort stable. */
  lemma TopPairsTies(pairs: Assoc<PairKey, PairData>, v: int)
    ensures WithKey(TopPairs(pairs), TotalKey, v) <= WithKey(pairs, TotalKey, v)
  {
    TopKStable(pairs, TotalKey, MaxUserProjectCombinations, v);
  }

  /** The shown pairs are in non-increasing order of total. */
  lemma TopPairsOrdered(pairs: Assoc<PairKey, PairData>)
    ensures var shown := TopPairs(pairs);
            forall i, j :: 0 <= i < j < |shown| ==> shown[i].1.total >= shown[j].1.total
  {
    var shown := TopPairs(pairs);
    assert Descending(shown, TotalKey);
    forall i, j | 0 <= i < j < |shown|
      ensures shown[i].1.total >= shown[j].1.total
    {
      assert TotalKey(shown[i]) >= TotalKey(shown[j]);
    }
  }

  /** No pair left out is more active than a pair shown. */
  lemma TopPairsMostActive(pairs: Assoc<PairKey, PairData>, i: nat, p: (PairKey, PairData))
    requires i < |TopPairs(pairs)|
    requires p in pairs && p !in TopPairs(pairs)
    ensures TopPairs(pairs)[i].1.total >= p.1.total
  {
    var top := TopK(pairs, TotalKey, MaxUserProjectCombinations);
    assert p in multiset(pairs);
    assert p !in multiset(top.0);
    assert p in multiset(top.1);
    var j :| 0 <= j < |top.1| && top.1[j] == p;
    assert TotalKey(top.0[i]) >= TotalKey(top.1[j]);
  }

  /** The condensed layout's detail blocks for the pairs `pairs`: one block
      for each of the first `MaxUserProjectCombinations` pairs by activity,
      then one line counting the pairs left over. */
  function RenderCondensed(t: Tally, pairs: Assoc<PairKey, PairData>): (blocks: seq<Block>)
    requires forall p :: p in pairs ==> HasIds(t, p.0.0, p.0.1)
    ensures var n := |pairs|;
            |blocks| == (if n < MaxUserProjectCombinations then n else MaxUserProjectCombinations)
                        + (if n > MaxUserProjectCombinations then 1 else 0)
    ensures forall i :: 0 <= i < |blocks| && i != MaxUserProjectCombinations ==> blocks[i].PairSummary?
    ensures |pairs| > MaxUserProjectCombinations ==>
              blocks[MaxUserProjectCombinations] == MorePairs(|pairs| - MaxUserProjectCombinations)
  {
    var top := TopPairs(pairs);
    var shown := RenderPairs(t, top);
    var more := if |pairs| > MaxUserProjectCombinations then [MorePairs(|pairs| - MaxUserProjectCombinations)] else [];
    var blocks := shown + more;
    forall i | 0 <= i < |shown|
      ensures blocks[i].PairSummary?
    {
      RenderPairsAt(t, top, i);
      assert blocks[i] == shown[i];
    }
    assert |pairs| > MaxUserProjectCombinations ==> |shown| == MaxUserProjectCombinations && blocks[|shown|] == more[0];
    blocks
  }

  /** The pair blocks render the pairs `TopPairs` picks, in its order. */
  lemma RenderCondensedPairs(t: Tally, pairs: Assoc<PairKey, PairData>)
    requires forall p :: p in pairs ==> HasIds(t, p.0.0, p.0.1)
    ensures forall i :: 0 <= i < |TopPairs(pairs)| ==> HasIds(t, TopPairs(pairs)[i].0.0, TopPairs(pairs)[i].0.1)
    ensures forall i :: 0 <= i < |TopPairs(pairs)| ==> RenderCondensed(t, pairs)[i] == RenderPair(t, TopPairs(pairs)[i])
  {
    var top := TopPairs(pairs);
    var blocks := RenderCondensed(t, pairs);
    forall i | 0 <= i < |top|
      ensures HasIds(t, top[i].0.0, top[i].0.1) && blocks[i] == RenderPair(t, top[i])
    {
      assert top[i] in pairs;
      RenderPairsAt(t, top, i);
      assert blocks[i] == RenderPairs(t, top)[i];
    }
  }

  /** One block per shown pair, in the order shown. */
  function RenderPairs(t: Tally, shown: Assoc<PairKey, PairData>): (r: seq<Block>)
    requires forall p :: p in shown ==> HasIds(t, p.0.0, p.0.1)
    ensures |r| == |shown|
    decreases |shown|
  {
    if shown == [] then []
    else
      assert forall p :: p in shown[1..] ==> p in shown;
      [RenderPair(t, shown[0])] + RenderPairs(t, shown[1..])
  }

  /** The `i`th block describes the `i`th shown pair. */
  lemma {:induction false} RenderPairsAt(t: Tally, shown: Assoc<PairKey, PairData>, i: nat)
    requires forall p :: p in shown ==> HasIds(t, p.0.0, p.0.1)
    requires i < |shown|
    ensures RenderPairs(t, shown)[i] == RenderPair(t, shown[i])
    decreases i
  {
    if i > 0 {
      InTail(shown);
      RenderPairsAt(t, shown[1..], i - 1);
      assert shown[1..][i - 1] == shown[i];
    }
  }

  /** Beyond `MaxUserProjectCombinations` pairs, the line after the pair
      blocks counts the pairs left out. */
  lemma OverflowLine(t: Tally, pairs: Assoc<PairKey, PairData>)
    requires forall p :: p in pairs ==> HasIds(t, p.0.0, p.0.1)
    requires |pairs| > MaxUserProjectCombinations
    ensures |RenderCondensed(t, pairs)| == MaxUserProjectCombinations + 1
    ensures RenderCondensed(t, pairs)[MaxUserProjectCombinations] == MorePairs(|pairs| - MaxUserProjectCombinations)
  {
  }

  /** Every pair's folder and change-type counts add up to its total. */
  lemma AllBalanced(groups: Assoc<GroupKey, nat>)
    ensures forall p :: p in Summarize(groups) ==> Balanced(p.1)
  {
    var pairs := Summarize(groups);
    SummarizeKeys(groups);
    forall p | p in pairs
      ensures Balanced(p.1)
    {
      GetMember(pairs, p);
      SummarizeTotals(groups, p.0);
    }
  }

  /** The pair blocks come most active first: a pair's change counts add up
      to its total, and the shown pairs are in non-increasing total order. */
  lemma CondensedOrder(t: Tally, pairs: Assoc<PairKey, PairData>)
    requires forall p :: p in pairs ==> HasIds(t, p.0.0, p.0.1)
    requires forall p :: p in pairs ==> Balanced(p.1)
    ensures var blocks := RenderCondensed(t, pairs);
            forall i, j :: 0 <= i < j < |blocks| && blocks[i].PairSummary? && blocks[j].PairSummary? ==>
              Sum(blocks[i].changes) >= Sum(blocks[j].changes)
  {
    var shown := TopPairs(pairs);
    var blocks := RenderCondensed(t, pairs);
    RenderCondensedPairs(t, pairs);
    forall i | 0 <= i < |shown|
      ensures Sum(blocks[i].changes) == shown[i].1.total
    {
      assert shown[i] in pairs;
    }
    TopPairsOrdered(pairs);
  }
}
