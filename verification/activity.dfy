/** The first half of `format_simple_slack_message`: the loop over the
    query's rows that counts activity per (user, project, folder, change
    type) and remembers the ids used later for links. */
module Activity {
  import opened Maybe
  import opened Assoc

  /** The folder name used for files whose parent is not a folder. */
  const RootFolder: string := "root"

  /** The `parent_type` value of a row whose parent is a folder. */
  const FolderParentType: string := "folder"

  /** One query row, with the twelve columns in the source's unpacking
      order. Synapse ids are numbers; names and types are text. */
  datatype Row = Row(
    fileId: int,
    fileName: string,
    changeType: string,
    modifiedById: int,
    username: string,
    annotationCount: int,
    projectId: int,
    projectName: string,
    benefactorId: int,
    parentId: int,
    parentName: string,
    parentType: string)

  /** The grouping key `(username, project_name, folder, change_type)`. */
  datatype GroupKey = GroupKey(user: string, project: string, folder: string, changeType: string)

  /** A row's folder: its parent's name when the parent is a folder, else
      "root". A folder that is itself named "root" is not told apart from
      the project root. */
  function FolderOf(row: Row): (f: string)
    ensures row.parentType == FolderParentType ==> f == row.parentName
    ensures f == RootFolder <==> row.parentType != FolderParentType || row.parentName == RootFolder
  {
    if row.parentType == FolderParentType then row.parentName else RootFolder
  }

  /** The row's group: its user, project, folder and change type. */
  function KeyOf(row: Row): (k: GroupKey)
    ensures k.user == row.username && k.project == row.projectName && k.changeType == row.changeType
    ensures k.folder == FolderOf(row)
    ensures k.folder != RootFolder ==> row.parentType == FolderParentType && k.folder == row.parentName
  {
    GroupKey(row.username, row.projectName, FolderOf(row), row.changeType)
  }

  /** The four dicts the loop fills: activity counts per group, and the
      user, project and folder ids kept for links. */
  datatype Tally = Tally(
    groups: Assoc<GroupKey, nat>,
    userIds: Assoc<string, int>,
    projectIds: Assoc<string, int>,
    folderIds: Assoc<(string, string), int>)

  const EmptyTally: Tally := Tally([], [], [], [])

  /** One iteration of the loop over the rows. */
  function Step(t: Tally, row: Row): (r: Tally)
    ensures Get(r.userIds, row.username) == Some(row.modifiedById)
    ensures Get(r.projectIds, row.projectName) == Some(row.projectId)
    ensures row.parentType == FolderParentType ==>
              Get(r.folderIds, (row.projectName, row.parentName)) == Some(row.parentId)
    ensures row.parentType != FolderParentType ==> r.folderIds == t.folderIds
    ensures CountOf(r.groups, KeyOf(row)) == CountOf(t.groups, KeyOf(row)) + 1
    ensures forall k :: k != KeyOf(row) ==> Get(r.groups, k) == Get(t.groups, k)
    ensures Sum(r.groups) == Sum(t.groups) + 1
  {
    var folderIds :=
      if row.parentType == FolderParentType
      then Put(t.folderIds, (row.projectName, FolderOf(row)), row.parentId)
      else t.folderIds;
    Tally(
      AddTo(t.groups, KeyOf(row), 1),
      Put(t.userIds, row.username, row.modifiedById),
      Put(t.projectIds, row.projectName, row.projectId),
      folderIds)
  }

  /** A row leaves the ids of every other user name, project name and
      (project, folder) pair as they were. */
  lemma StepKeepsOtherIds(t: Tally, row: Row, u: string, p: string, f: (string, string))
    ensures u != row.username ==> Get(Step(t, row).userIds, u) == Get(t.userIds, u)
    ensures p != row.projectName ==> Get(Step(t, row).projectIds, p) == Get(t.projectIds, p)
    ensures f != (row.projectName, row.parentName) ==> Get(Step(t, row).folderIds, f) == Get(t.folderIds, f)
  {
  }

  /** The whole loop: a left fold of `Step` over the rows. */
  function Aggregate(rows: seq<Row>): (t: Tally)
    ensures rows == [] ==> t == EmptyTally
    ensures rows != [] ==>
              var last := rows[|rows| - 1];
              && Get(t.userIds, last.username) == Some(last.modifiedById)
              && Get(t.projectIds, last.projectName) == Some(last.projectId)
              && CountOf(t.groups, KeyOf(last)) > 0
    decreases |rows|
  {
    if rows == [] then EmptyTally
    else Step(Aggregate(rows[..|rows| - 1]), rows[|rows| - 1])
  }

  // Views of the input used as reference definitions.

  ghost function RowKeys(rows: seq<Row>): seq<GroupKey>
    decreases |rows|
  {
    if rows == [] then [] else RowKeys(rows[..|rows| - 1]) + [KeyOf(rows[|rows| - 1])]
  }

  ghost function Usernames(rows: seq<Row>): seq<string>
    decreases |rows|
  {
    if rows == [] then [] else Usernames(rows[..|rows| - 1]) + [rows[|rows| - 1].username]
  }

  ghost function ProjectNames(rows: seq<Row>): seq<string>
    decreases |rows|
  {
    if rows == [] then [] else ProjectNames(rows[..|rows| - 1]) + [rows[|rows| - 1].projectName]
  }

  /** The (project, folder) pairs of the rows whose parent is a folder. */
  ghost function FolderRefs(rows: seq<Row>): seq<(string, string)>
    decreases |rows|
  {
    if rows == [] then []
    else
      var last := rows[|rows| - 1];
      FolderRefs(rows[..|rows| - 1])
        + (if last.parentType == FolderParentType then [(last.projectName, last.parentName)] else [])
  }

  /** The counters add up to the number of rows. */
  lemma {:induction false} AggregateSum(rows: seq<Row>)
    ensures Sum(Aggregate(rows).groups) == |rows|
    decreases |rows|
  {
    if rows != [] {
      AggregateSum(rows[..|rows| - 1]);
    }
  }

  /** The groups are keyed by the distinct row keys in first-seen order. */
  lemma {:induction false} AggregateKeys(rows: seq<Row>)
    ensures Keys(Aggregate(rows).groups) == FirstSeen(RowKeys(rows))
    decreases |rows|
  {
    if rows != [] {
      var pre, last := rows[..|rows| - 1], rows[|rows| - 1];
      AggregateKeys(pre);
      FirstSeenSnoc(RowKeys(pre), KeyOf(last));
    }
  }

  /** The counter of a key is the number of rows with that key. */
  lemma {:induction false} AggregateCounts(rows: seq<Row>, k: GroupKey)
    ensures CountOf(Aggregate(rows).groups, k) == multiset(RowKeys(rows))[k]
    decreases |rows|
  {
    if rows != [] {
      var pre, last := rows[..|rows| - 1], rows[|rows| - 1];
      AggregateCounts(pre, k);
      if k != KeyOf(last) {
        assert Get(Aggregate(rows).groups, k) == Get(Aggregate(pre).groups, k);
      }
    }
  }

  /** The user id dict is keyed by the distinct user names, first seen first. */
  lemma {:induction false} AggregateUserIds(rows: seq<Row>)
    ensures Keys(Aggregate(rows).userIds) == FirstSeen(Usernames(rows))
    decreases |rows|
  {
    if rows != [] {
      var pre, last := rows[..|rows| - 1], rows[|rows| - 1];
      AggregateUserIds(pre);
      FirstSeenSnoc(Usernames(pre), last.username);
    }
  }

  /** The project id dict is keyed by the distinct project names, first seen first. */
  lemma {:induction false} AggregateProjectIds(rows: seq<Row>)
    ensures Keys(Aggregate(rows).projectIds) == FirstSeen(ProjectNames(rows))
    decreases |rows|
  {
    if rows != [] {
      var pre, last := rows[..|rows| - 1], rows[|rows| - 1];
      AggregateProjectIds(pre);
      FirstSeenSnoc(ProjectNames(pre), last.projectName);
    }
  }

  /** Only rows whose parent is a folder populate the folder id dict. */
  lemma {:induction false} AggregateFolderIds(rows: seq<Row>)
    ensures Keys(Aggregate(rows).folderIds) == FirstSeen(FolderRefs(rows))
    decreases |rows|
  {
    if rows != [] {
      var pre, last := rows[..|rows| - 1], rows[|rows| - 1];
      AggregateFolderIds(pre);
      var t := Aggregate(pre);
      assert Aggregate(rows) == Step(t, last);
      if last.parentType == FolderParentType {
        var ref := (last.projectName, last.parentName);
        assert FolderRefs(rows) == FolderRefs(pre) + [ref];
        assert Step(t, last).folderIds == Put(t.folderIds, ref, last.parentId);
        FirstSeenSnoc(FolderRefs(pre), ref);
      } else {
        assert FolderRefs(rows) == FolderRefs(pre) + [];
        assert FolderRefs(pre) + [] == FolderRefs(pre);
      }
    }
  }

  // Reference definitions of the ids the links use: the dicts are
  // overwritten on every row, so the last row with a name wins.

  /** The `modified_by_id` of the last row by user `u`. */
  ghost function LastUserId(rows: seq<Row>, u: string): Option<int>
    decreases |rows|
  {
    if rows == [] then None
    else if rows[|rows| - 1].username == u then Some(rows[|rows| - 1].modifiedById)
    else LastUserId(rows[..|rows| - 1], u)
  }

  /** The `project_id` of the last row in project `p`. */
  ghost function LastProjectId(rows: seq<Row>, p: string): Option<int>
    decreases |rows|
  {
    if rows == [] then None
    else if rows[|rows| - 1].projectName == p then Some(rows[|rows| - 1].projectId)
    else LastProjectId(rows[..|rows| - 1], p)
  }

  /** The `parent_id` of the last folder row whose (project, parent name) is `f`. */
  ghost function LastFolderId(rows: seq<Row>, f: (string, string)): Option<int>
    decreases |rows|
  {
    if rows == [] then None
    else
      var last := rows[|rows| - 1];
      if last.parentType == FolderParentType && (last.projectName, last.parentName) == f
      then Some(last.parentId)
      else LastFolderId(rows[..|rows| - 1], f)
  }

  /** A user link carries the id of the user's last row. */
  lemma {:induction false} AggregateUserIdLast(rows: seq<Row>, u: string)
    ensures Get(Aggregate(rows).userIds, u) == LastUserId(rows, u)
    decreases |rows|
  {
    if rows != [] {
      AggregateUserIdLast(rows[..|rows| - 1], u);
      StepKeepsOtherIds(Aggregate(rows[..|rows| - 1]), rows[|rows| - 1], u, "", ("", ""));
    }
  }

  /** A project link carries the id of the project's last row. */
  lemma {:induction false} AggregateProjectIdLast(rows: seq<Row>, p: string)
    ensures Get(Aggregate(rows).projectIds, p) == LastProjectId(rows, p)
    decreases |rows|
  {
    if rows != [] {
      AggregateProjectIdLast(rows[..|rows| - 1], p);
      StepKeepsOtherIds(Aggregate(rows[..|rows| - 1]), rows[|rows| - 1], "", p, ("", ""));
    }
  }

  /** A folder link carries the parent id of the folder's last row. */
  lemma {:induction false} AggregateFolderIdLast(rows: seq<Row>, f: (string, string))
    ensures Get(Aggregate(rows).folderIds, f) == LastFolderId(rows, f)
    decreases |rows|
  {
    if rows != [] {
      AggregateFolderIdLast(rows[..|rows| - 1], f);
      StepKeepsOtherIds(Aggregate(rows[..|rows| - 1]), rows[|rows| - 1], "", "", f);
    }
  }

  /** Every group can be rendered: its user and project have ids, so the
      source's `user_ids[username]` and `project_ids[project_name]` never
      raise. */
  ghost predicate Linkable(t: Tally)
  {
    forall k :: k in Keys(t.groups) ==> k.user in Keys(t.userIds) && k.project in Keys(t.projectIds)
  }

  /** Every group whose folder is not "root" has a folder id. */
  ghost predicate FoldersLinked(t: Tally)
  {
    forall k :: k in Keys(t.groups) && k.folder != RootFolder ==> (k.project, k.folder) in Keys(t.folderIds)
  }

  /** The counters' keys are exactly the rows' keys. */
  lemma AggregateKeySet(rows: seq<Row>)
    ensures forall k :: k in Keys(Aggregate(rows).groups) <==> k in RowKeys(rows)
  {
    var keys := Keys(Aggregate(rows).groups);
    AggregateKeys(rows);
    assert Elements(keys) == Elements(RowKeys(rows));
    forall k
      ensures k in keys <==> k in RowKeys(rows)
    {
      assert k in keys <==> k in Elements(keys);
      assert k in RowKeys(rows) <==> k in Elements(RowKeys(rows));
    }
  }

  /** Each distinct key's entry holds the number of rows with that key. */
  lemma AggregateEntry(rows: seq<Row>, k: GroupKey)
    requires k in RowKeys(rows)
    ensures (k, multiset(RowKeys(rows))[k]) in Aggregate(rows).groups
  {
    var groups := Aggregate(rows).groups;
    AggregateKeySet(rows);
    var g := KeyIndex(groups, k);
    AggregateKeys(rows);
    GetAt(groups, g);
    AggregateCounts(rows, k);
  }

  /** A row with key `k` exists for every key in `RowKeys`. */
  lemma {:induction false} RowOfKey(rows: seq<Row>, k: GroupKey) returns (i: nat)
    requires k in RowKeys(rows)
    ensures i < |rows| && KeyOf(rows[i]) == k
    decreases |rows|
  {
    var pre := rows[..|rows| - 1];
    if k in RowKeys(pre) {
      i := RowOfKey(pre, k);
    } else {
      i := |rows| - 1;
    }
  }

  /** Each row contributes its user name, project name and, for a folder
      parent, its (project, folder) pair to the views above. */
  lemma {:induction false} RowInViews(rows: seq<Row>, i: nat)
    requires i < |rows|
    ensures rows[i].username in Usernames(rows)
    ensures rows[i].projectName in ProjectNames(rows)
    ensures rows[i].parentType == FolderParentType ==> (rows[i].projectName, rows[i].parentName) in FolderRefs(rows)
    decreases |rows|
  {
    if i < |rows| - 1 {
      RowInViews(rows[..|rows| - 1], i);
    }
  }

  lemma AggregateLinkable(rows: seq<Row>)
    ensures Linkable(Aggregate(rows))
    ensures FoldersLinked(Aggregate(rows))
  {
    var t := Aggregate(rows);
    AggregateKeys(rows);
    AggregateUserIds(rows);
    AggregateProjectIds(rows);
    AggregateFolderIds(rows);
    forall k | k in Keys(t.groups)
      ensures k.user in Keys(t.userIds) && k.project in Keys(t.projectIds)
      ensures k.folder != RootFolder ==> (k.project, k.folder) in Keys(t.folderIds)
    {
      assert k in Elements(FirstSeen(RowKeys(rows)));
      var i := RowOfKey(rows, k);
      RowInViews(rows, i);
      assert rows[i].username in Elements(FirstSeen(Usernames(rows)));
      assert rows[i].projectName in Elements(FirstSeen(ProjectNames(rows)));
      if k.folder != RootFolder {
        assert (k.project, k.folder) in Elements(FirstSeen(FolderRefs(rows)));
      }
    }
  }
}
