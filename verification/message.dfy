/** `format_simple_slack_message`: the rows become either a one-line
    "nothing happened" message or a report made of a header, a divider and
    the blocks of the layout the number of groups selects. */
module SlackMessage {
  import opened Maybe
  import opened Assoc
  import opened Activity
  import opened Blocks
  import opened Links
  import opened Standard
  import opened Condensed

  /** More groups than this switch the report to the condensed layout. */
  const CondensedFormatThreshold: nat := 20

  datatype Message =
      /** "No entities were modified in the last <daysBack> <dayWord>". */
    | NoActivity(daysBack: int, dayWord: string)
    | Report(blocks: seq<Block>)

  function DayWord(daysBack: int): (w: string)
    ensures w == "day" <==> daysBack == 1
    ensures w == "day" || w == "days"
  {
    if daysBack == 1 then "day" else "days"
  }

  /** The layout is chosen on the number of distinct group keys: strictly
      more than the threshold, so exactly 20 still gets the standard layout. */
  predicate UseCondensed(t: Tally): (b: bool)
    ensures b <==> |t.groups| >= CondensedFormatThreshold + 1
    ensures |t.groups| == CondensedFormatThreshold ==> !b
  {
    |t.groups| > CondensedFormatThreshold
  }

  /** The summary header: files, users, projects, and the high-activity
      note carrying the number of combinations. */
  function HeaderOf(t: Tally): (b: Block)
    ensures b.Header?
    ensures b.totalFiles == Sum(t.groups)
    ensures b.uniqueUsers == |Keys(t.userIds)| && b.uniqueProjects == |Keys(t.projectIds)|
    ensures b.highActivity.Some? <==> UseCondensed(t)
    ensures b.highActivity.Some? ==> b.highActivity.value == |Keys(t.groups)|
  {
    Header(Sum(t.groups), |t.userIds|, |t.projectIds|,
           if UseCondensed(t) then Some(|t.groups|) else None)
  }

  /** The detail blocks under the divider. */
  function Body(t: Tally): (blocks: seq<Block>)
    requires Linkable(t)
    ensures !UseCondensed(t) ==> |blocks| == |t.groups|
    ensures UseCondensed(t) ==> 1 <= |blocks| <= MaxUserProjectCombinations + 1
  {
    if UseCondensed(t) then
      var pairs := Summarize(t.groups);
      PairsHaveIds(t);
      assert pairs != [];
      var blocks := RenderCondensed(t, pairs);
      CondensedSize(|pairs|, |blocks|);
      blocks
    else
      RenderStandard(t)
  }

  /** The condensed layout's block count for `n >= 1` pairs lies between 1
      and one more than the pair limit. */
  lemma CondensedSize(n: nat, len: nat)
    requires n >= 1
    requires len == (if n < MaxUserProjectCombinations then n else MaxUserProjectCombinations)
                    + (if n > MaxUserProjectCombinations then 1 else 0)
    ensures 1 <= len <= MaxUserProjectCombinations + 1
  {
  }

  /** The report for the rows of the last `daysBack` days, one day unless
      the caller says otherwise. */
  function FormatMessage(rows: seq<Row>, daysBack: int := 1): (m: Message)
    ensures m.NoActivity? <==> rows == []
    ensures m.NoActivity? ==> m.daysBack == daysBack && (m.dayWord == "day" <==> daysBack == 1)
    ensures m.Report? ==> |m.blocks| >= 2 && m.blocks[0].Header? && m.blocks[1] == Divider
  {
    if rows == [] then
      NoActivity(daysBack, DayWord(daysBack))
    else
      var t := Aggregate(rows);
      AggregateLinkable(rows);
      Report([HeaderOf(t), Divider] + Body(t))
  }

  /** The set of distinct values in a sequence, counted. */
  ghost function CountDistinct<T>(s: seq<T>): nat
  {
    |Elements(s)|
  }

  /** Distinct keys of an association list built in first-seen order. */
  lemma KeysCard<K, V>(m: Assoc<K, V>, s: seq<K>)
    requires Keys(m) == FirstSeen(s)
    ensures |m| == CountDistinct(s)
  {
    FirstSeenCard(s);
    assert |Keys(m)| == |m|;
  }

  /** The header counts the rows (not distinct files), the distinct user
      names and project names, and carries the high-activity note exactly
      when there are more than 20 distinct group keys. */
  lemma HeaderCounts(rows: seq<Row>, daysBack: int)
    requires rows != []
    ensures var b := FormatMessage(rows, daysBack).blocks[0];
            && b.totalFiles == |rows|
            && b.uniqueUsers == CountDistinct(Usernames(rows))
            && b.uniqueProjects == CountDistinct(ProjectNames(rows))
            && (b.highActivity.Some? <==> CountDistinct(RowKeys(rows)) > CondensedFormatThreshold)
            && (b.highActivity.Some? ==> b.highActivity.value == CountDistinct(RowKeys(rows)))
  {
    var t := Aggregate(rows);
    assert FormatMessage(rows, daysBack).blocks[0] == HeaderOf(t);
    AggregateSum(rows);
    AggregateUserIds(rows);
    KeysCard(t.userIds, Usernames(rows));
    AggregateProjectIds(rows);
    KeysCard(t.projectIds, ProjectNames(rows));
    AggregateKeys(rows);
    KeysCard(t.groups, RowKeys(rows));
  }

  /** Which layout follows the header and divider. */
  lemma ReportBody(rows: seq<Row>, daysBack: int)
    requires rows != []
    ensures Linkable(Aggregate(rows)) && FoldersLinked(Aggregate(rows))
    ensures UseCondensed(Aggregate(rows)) <==> CountDistinct(RowKeys(rows)) > CondensedFormatThreshold
    ensures FormatMessage(rows, daysBack).blocks
            == [HeaderOf(Aggregate(rows)), Divider] + Body(Aggregate(rows))
  {
    AggregateLinkable(rows);
    AggregateKeys(rows);
    KeysCard(Aggregate(rows).groups, RowKeys(rows));
  }

  /** Standard layout: with at most 20 distinct group keys the report is
      the header, the divider and one block per key, in non-increasing
      count order. */
  lemma StandardLayout(rows: seq<Row>, daysBack: int)
    requires rows != [] && CountDistinct(RowKeys(rows)) <= CondensedFormatThreshold
    ensures var blocks := FormatMessage(rows, daysBack).blocks;
            && |blocks| == 2 + CountDistinct(RowKeys(rows))
            && (forall i :: 2 <= i < |blocks| ==> blocks[i].Activity?)
            && (forall i, j :: 2 <= i < j < |blocks| ==> blocks[i].count >= blocks[j].count)
  {
    ReportBody(rows, daysBack);
    AggregateKeys(rows);
    KeysCard(Aggregate(rows).groups, RowKeys(rows));
  }

  /** Standard layout: the i-th block after the divider renders the i-th
      group in the source's sort order, which puts a higher count first and
      breaks ties by (user, project, folder, change type), all descending. */
  lemma StandardBlockOrder(rows: seq<Row>, daysBack: int)
    requires rows != [] && CountDistinct(RowKeys(rows)) <= CondensedFormatThreshold
    ensures var t := Aggregate(rows);
            var sorted := SortStandard(t.groups);
            var body := FormatMessage(rows, daysBack).blocks[2..];
            && |body| == |sorted|
            && (forall e :: e in sorted ==> HasIds(t, e.0.user, e.0.project))
            && (forall i :: 0 <= i < |sorted| ==> body[i] == RenderActivity(t, sorted[i]))
            && (forall i, j :: 0 <= i < j < |sorted| ==>
                  sorted[i].1 > sorted[j].1 || (sorted[i].1 == sorted[j].1 && KeyLess(sorted[j].0, sorted[i].0)))
  {
    var t := Aggregate(rows);
    ReportBody(rows, daysBack);
    RenderStandardBlocks(t);
    AggregateKeys(rows);
    SortStandardStrict(t.groups);
  }

  /** Standard layout: every distinct group key has a block, and that
      block counts the rows that have the key. */
  lemma StandardBlockOfKey(rows: seq<Row>, daysBack: int, k: GroupKey)
    requires rows != [] && CountDistinct(RowKeys(rows)) <= CondensedFormatThreshold
    requires k in RowKeys(rows)
    ensures HasIds(Aggregate(rows), k.user, k.project)
    ensures exists i :: 2 <= i < |FormatMessage(rows, daysBack).blocks|
                        && FormatMessage(rows, daysBack).blocks[i]
                           == RenderActivity(Aggregate(rows), (k, multiset(RowKeys(rows))[k]))
  {
    var t := Aggregate(rows);
    var e := (k, multiset(RowKeys(rows))[k]);
    var blocks := FormatMessage(rows, daysBack).blocks;
    assert blocks[2..] == RenderStandard(t) by {
      ReportBody(rows, daysBack);
    }
    AggregateEntry(rows, k);
    EveryGroupRendered(t, e);
    var i :| 0 <= i < |blocks[2..]| && blocks[2..][i] == RenderActivity(t, e);
    assert blocks[i + 2] == blocks[2..][i];
  }

  /** The (user name, project name) pair of each row. */
  ghost function RowPairs(rows: seq<Row>): seq<PairKey>
    decreases |rows|
  {
    if rows == [] then [] else RowPairs(rows[..|rows| - 1]) + [(rows[|rows| - 1].username, rows[|rows| - 1].projectName)]
  }

  lemma {:induction false} RowPairsImage(rows: seq<Row>)
    ensures Elements(RowPairs(rows)) == set k | k in RowKeys(rows) :: PairOf(k)
    decreases |rows|
  {
    if rows != [] {
      var pre, last := rows[..|rows| - 1], rows[|rows| - 1];
      RowPairsImage(pre);
      assert Elements(RowPairs(rows)) == Elements(RowPairs(pre)) + {PairOf(KeyOf(last))};
      assert Elements(RowKeys(rows)) == Elements(RowKeys(pre)) + {KeyOf(last)};
    }
  }

  /** The condensed layout has one pair per distinct (user, project) of the rows. */
  lemma PairCount(rows: seq<Row>)
    ensures |Summarize(Aggregate(rows).groups)| == CountDistinct(RowPairs(rows))
  {
    var groups := Aggregate(rows).groups;
    assert |Summarize(groups)| == CountDistinct(PairKeys(groups)) by {
      SummarizeKeys(groups);
      KeysCard(Summarize(groups), PairKeys(groups));
    }
    assert Elements(PairKeys(groups)) == Elements(RowPairs(rows)) by {
      PairImagesAgree(rows);
      PairKeysImage(groups);
      RowPairsImage(rows);
    }
  }

  lemma PairImagesAgree(rows: seq<Row>)
    ensures (set k | k in Keys(Aggregate(rows).groups) :: PairOf(k))
         == (set k | k in RowKeys(rows) :: PairOf(k))
  {
    AggregateKeySet(rows);
    SamePairImage(Keys(Aggregate(rows).groups), RowKeys(rows));
  }

  /** Two sequences with the same elements have the same (user, project) pairs. */
  lemma SamePairImage(xs: seq<GroupKey>, ys: seq<GroupKey>)
    requires forall k :: k in xs <==> k in ys
    ensures (set k | k in xs :: PairOf(k)) == (set k | k in ys :: PairOf(k))
  {
    var fromXs := set k | k in xs :: PairOf(k);
    var fromYs := set k | k in ys :: PairOf(k);
    forall pk | pk in fromXs
      ensures pk in fromYs
    {
      var k :| k in xs && PairOf(k) == pk;
      assert k in ys;
    }
    forall pk | pk in fromYs
      ensures pk in fromXs
    {
      var k :| k in ys && PairOf(k) == pk;
      assert k in xs;
    }
  }

  /** Standard layout: every folder named in a block after the divider
      is linked. */
  lemma StandardFolderLinks(rows: seq<Row>, daysBack: int)
    requires rows != [] && CountDistinct(RowKeys(rows)) <= CondensedFormatThreshold
    ensures var body := FormatMessage(rows, daysBack).blocks[2..];
            forall i :: 0 <= i < |body| && body[i].Activity? && body[i].location.InFolder? ==>
              body[i].location.folder.Linked?
  {
    ReportBody(rows, daysBack);
    StandardFoldersLinked(Aggregate(rows));
  }

  /** Condensed layout: with more than 20 distinct group keys the report is
      the header, the divider, one block for each of the first 15 pairs by
      activity, and one more line when there are more than 15 distinct
      (user, project) pairs. */
  lemma CondensedBlockCount(rows: seq<Row>, daysBack: int)
    requires rows != [] && CountDistinct(RowKeys(rows)) > CondensedFormatThreshold
    ensures var n := CountDistinct(RowPairs(rows));
            |FormatMessage(rows, daysBack).blocks|
            == 2 + (if n < MaxUserProjectCombinations then n else MaxUserProjectCombinations)
                 + (if n > MaxUserProjectCombinations then 1 else 0)
  {
    CondensedBody(rows, daysBack);
  }

  /** Condensed layout: every block after the divider describes one pair,
      except the 16th, which is the overflow line. */
  lemma CondensedBlockKinds(rows: seq<Row>, daysBack: int)
    requires rows != [] && CountDistinct(RowKeys(rows)) > CondensedFormatThreshold
    ensures var blocks := FormatMessage(rows, daysBack).blocks;
            forall i :: 2 <= i < |blocks| && i != 2 + MaxUserProjectCombinations ==> blocks[i].PairSummary?
  {
    CondensedBody(rows, daysBack);
    PairSummariesAfterDivider(FormatMessage(rows, daysBack).blocks);
  }

  /** Shifts a fact about the blocks after the divider to report positions. */
  lemma PairSummariesAfterDivider(blocks: seq<Block>)
    requires |blocks| >= 2
    requires forall k :: 0 <= k < |blocks[2..]| && k != MaxUserProjectCombinations ==> blocks[2..][k].PairSummary?
    ensures forall i :: 2 <= i < |blocks| && i != 2 + MaxUserProjectCombinations ==> blocks[i].PairSummary?
  {
    forall i | 2 <= i < |blocks| && i != 2 + MaxUserProjectCombinations
      ensures blocks[i].PairSummary?
    {
      assert blocks[i] == blocks[2..][i - 2];
    }
  }

  /** Condensed layout: with more than 15 distinct (user, project) pairs,
      the overflow line counts the pairs left out (not their items). */
  lemma CondensedOverflow(rows: seq<Row>, daysBack: int)
    requires rows != [] && CountDistinct(RowKeys(rows)) > CondensedFormatThreshold
    requires CountDistinct(RowPairs(rows)) > MaxUserProjectCombinations
    ensures |FormatMessage(rows, daysBack).blocks| > 2 + MaxUserProjectCombinations
    ensures FormatMessage(rows, daysBack).blocks[2 + MaxUserProjectCombinations].MorePairs?
    ensures FormatMessage(rows, daysBack).blocks[2 + MaxUserProjectCombinations].remaining
            == CountDistinct(RowPairs(rows)) - MaxUserProjectCombinations
  {
    var pairs := Summarize(Aggregate(rows).groups);
    CondensedBody(rows, daysBack);
    OverflowLine(Aggregate(rows), pairs);
    BodyAt(FormatMessage(rows, daysBack).blocks, RenderCondensed(Aggregate(rows), pairs), MaxUserProjectCombinations);
  }

  /** Block `k` after the divider is block `2 + k` of the report. */
  lemma BodyAt(blocks: seq<Block>, body: seq<Block>, k: nat)
    requires |blocks| >= 2 && blocks[2..] == body
    requires k < |body|
    ensures 2 + k < |blocks| && blocks[2 + k] == body[k]
  {
  }

  /** In the condensed layout the blocks after the divider are the
      condensed rendering of the rows' pairs. */
  lemma CondensedBody(rows: seq<Row>, daysBack: int)
    requires rows != [] && CountDistinct(RowKeys(rows)) > CondensedFormatThreshold
    ensures forall p :: p in Summarize(Aggregate(rows).groups) ==> HasIds(Aggregate(rows), p.0.0, p.0.1)
    ensures FormatMessage(rows, daysBack).blocks[2..]
            == RenderCondensed(Aggregate(rows), Summarize(Aggregate(rows).groups))
    ensures |Summarize(Aggregate(rows).groups)| == CountDistinct(RowPairs(rows))
  {
    AggregateLinkable(rows);
    PairsHaveIds(Aggregate(rows));
    ReportBody(rows, daysBack);
    PairCount(rows);
  }

  /** Condensed layout: the i-th block after the divider describes the
      i-th of the pairs `TopPairs` picks, the most active ones. */
  lemma CondensedPairBlocks(rows: seq<Row>, daysBack: int)
    requires rows != [] && CountDistinct(RowKeys(rows)) > CondensedFormatThreshold
    ensures var t := Aggregate(rows);
            var shown := TopPairs(Summarize(t.groups));
            var body := FormatMessage(rows, daysBack).blocks[2..];
            && |shown| <= |body|
            && (forall i :: 0 <= i < |shown| ==> HasIds(t, shown[i].0.0, shown[i].0.1))
            && (forall i :: 0 <= i < |shown| ==> body[i] == RenderPair(t, shown[i]))
  {
    CondensedBody(rows, daysBack);
    RenderCondensedPairs(Aggregate(rows), Summarize(Aggregate(rows).groups));
  }

  /** Condensed layout: the pair blocks after the divider come in
      non-increasing order of activity, measured by the change counts each
      block lists. */
  lemma CondensedPairOrder(rows: seq<Row>, daysBack: int)
    requires rows != [] && CountDistinct(RowKeys(rows)) > CondensedFormatThreshold
    ensures var body := FormatMessage(rows, daysBack).blocks[2..];
            forall i, j :: 0 <= i < j < |body| && body[i].PairSummary? && body[j].PairSummary? ==>
              Sum(body[i].changes) >= Sum(body[j].changes)
  {
    CondensedBody(rows, daysBack);
    AllBalanced(Aggregate(rows).groups);
    CondensedOrder(Aggregate(rows), Summarize(Aggregate(rows).groups));
  }

  /** Condensed layout: the pair totals add up to the number of rows. */
  lemma CondensedTotals(rows: seq<Row>)
    ensures SumBy(Summarize(Aggregate(rows).groups), Total) == |rows|
  {
    SummarizeSum(Aggregate(rows).groups);
    AggregateSum(rows);
  }
}
