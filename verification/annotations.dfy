/** `transform_annotations`: an annotations object, possibly still JSON
    text, becomes the list of `{key, type, value}` records the warehouse
    table expects. */
module Annotations {
  import opened Maybe
  import opened Assoc

  /** A parsed JSON value. Objects keep their members in document order,
      as the Python dicts `json.loads` returns do. */
  datatype Json =
    | JNull
    | JBool(b: bool)
    | JNum(n: int)
    | JStr(s: string)
    | JArr(items: seq<Json>)
    | JObj(fields: Assoc<string, Json>)

  /** The `type` written when an annotation does not name one. */
  const DefaultType: Json := JStr("STRING")

  /** One output record: `{"key": k, "type": t, "value": [...]}`. */
  datatype AnnotationRecord = AnnotationRecord(key: string, typ: Json, value: seq<Json>)

  /** `obj.get(name)` on a JSON object. */
  function Member(fields: Assoc<string, Json>, name: string): (r: Option<Json>)
    ensures r.Some? <==> name in Keys(fields)
    ensures r.Some? ==> (name, r.value) in fields
  {
    Get(fields, name)
  }

  /** The entry's `value` member is a JSON array, so the entry is kept. */
  predicate HasListValue(v: Json): (b: bool)
    ensures b ==> v.JObj?
    ensures v.JObj? ==> (b <==> Member(v.fields, "value").Some? && Member(v.fields, "value").value.JArr?)
  {
    v.JObj? && Member(v.fields, "value").Some? && Member(v.fields, "value").value.JArr?
  }

  /** The record written for a kept entry: the key, the entry's `type` or
      "STRING", and the list value itself. */
  function RecordOf(k: string, v: Json): (r: AnnotationRecord)
    requires HasListValue(v)
    ensures r.key == k
    ensures r.value == Member(v.fields, "value").value.items
    ensures Member(v.fields, "type").Some? ==> r.typ == Member(v.fields, "type").value
    ensures Member(v.fields, "type").None? ==> r.typ == DefaultType
  {
    AnnotationRecord(k, ValueOr(Member(v.fields, "type"), DefaultType), Member(v.fields, "value").value.items)
  }

  /** The loop over the entries. `None` stands for the exception `.get`
      raises on an entry that is not an object: the caller turns it into
      an empty result, so no partial list escapes. */
  function Collect(entries: Assoc<string, Json>): (r: Option<seq<AnnotationRecord>>)
    ensures r.Some? ==> |r.value| <= |entries|
    decreases |entries|
  {
    if entries == [] then Some([])
    else
      var last := entries[|entries| - 1];
      match Collect(entries[..|entries| - 1])
      case None => None
      case Some(records) =>
        if !last.1.JObj? then None
        else if HasListValue(last.1) then Some(records + [RecordOf(last.0, last.1)])
        else Some(records)
  }

  /** Every entry is an object, so `.get` never raises. */
  ghost predicate AllObjects(entries: Assoc<string, Json>)
  {
    forall j :: 0 <= j < |entries| ==> entries[j].1.JObj?
  }

  /** Reference definition: the positions of the entries that are kept. */
  ghost function ListIndices(entries: Assoc<string, Json>): seq<nat>
    decreases |entries|
  {
    if entries == [] then []
    else
      ListIndices(entries[..|entries| - 1])
        + (if HasListValue(entries[|entries| - 1].1) then [|entries| - 1] else [])
  }

  /** The kept positions are increasing, and a position is kept exactly
      when its entry has a list value. */
  lemma {:induction false} ListIndicesSpec(entries: Assoc<string, Json>)
    ensures forall i :: 0 <= i < |ListIndices(entries)| ==> ListIndices(entries)[i] < |entries|
    ensures forall i, j :: 0 <= i < j < |ListIndices(entries)| ==> ListIndices(entries)[i] < ListIndices(entries)[j]
    ensures forall j :: 0 <= j < |entries| ==> (j in ListIndices(entries) <==> HasListValue(entries[j].1))
    decreases |entries|
  {
    if entries != [] {
      var init := entries[..|entries| - 1];
      ListIndicesSpec(init);
      forall j | 0 <= j < |init|
        ensures entries[j] == init[j]
      {
      }
    }
  }

  /** The loop fails exactly when some entry is not an object. */
  lemma {:induction false} CollectFails(entries: Assoc<string, Json>)
    ensures Collect(entries).None? <==> !AllObjects(entries)
    decreases |entries|
  {
    if entries != [] {
      var init := entries[..|entries| - 1];
      CollectFails(init);
      if !AllObjects(init) {
        var j :| 0 <= j < |init| && !init[j].1.JObj?;
        assert entries[j] == init[j];
      }
      if AllObjects(entries) {
        forall j | 0 <= j < |init|
          ensures init[j].1.JObj?
        {
          assert init[j] == entries[j];
        }
      }
    }
  }

  /** When every entry is an object, the output is the record of each kept
      entry, in the entries' order. */
  lemma {:induction false} CollectKeepsListEntries(entries: Assoc<string, Json>)
    requires AllObjects(entries)
    ensures Collect(entries).Some?
    ensures var idx := ListIndices(entries);
            |Collect(entries).value| == |idx|
            && forall i :: 0 <= i < |idx| ==>
                 idx[i] < |entries| && HasListValue(entries[idx[i]].1)
                 && Collect(entries).value[i] == RecordOf(entries[idx[i]].0, entries[idx[i]].1)
    decreases |entries|
  {
    CollectFails(entries);
    ListIndicesSpec(entries);
    if entries != [] {
      var init := entries[..|entries| - 1];
      assert AllObjects(init) by {
        forall j | 0 <= j < |init|
          ensures init[j].1.JObj?
        {
          assert init[j] == entries[j];
        }
      }
      CollectKeepsListEntries(init);
      ListIndicesSpec(init);
      var idx := ListIndices(entries);
      var pre := ListIndices(init);
      forall i | 0 <= i < |pre|
        ensures idx[i] == pre[i] && entries[pre[i]] == init[pre[i]]
      {
      }
    }
  }

  /** The annotations object the loop iterates: the input, parsed first
      when it is a string (`parse` returns `None` where `json.loads`
      raises), must be an object, and its `annotations` member, absent
      meaning `{}`, must be an object too; otherwise `None`, which
      `Transform` turns into `[]`. */
  function AnnotationsOf(input: Json, parse: string -> Option<Json>): (r: Option<Assoc<string, Json>>)
    ensures input.JStr? && parse(input.s).None? ==> r.None?
    ensures var obj := if input.JStr? then parse(input.s) else Some(input);
            r.Some? <==> obj.Some? && obj.value.JObj?
                         && (Member(obj.value.fields, "annotations").None?
                             || Member(obj.value.fields, "annotations").value.JObj?)
    ensures var obj := if input.JStr? then parse(input.s) else Some(input);
            r.Some? && Member(obj.value.fields, "annotations").None? ==> r.value == []
    ensures var obj := if input.JStr? then parse(input.s) else Some(input);
            r.Some? && Member(obj.value.fields, "annotations").Some? ==>
              Member(obj.value.fields, "annotations").value == JObj(r.value)
  {
    var obj := if input.JStr? then parse(input.s) else Some(input);
    if obj.None? || !obj.value.JObj? then None
    else
      match Member(obj.value.fields, "annotations")
      case None => Some([])
      case Some(JObj(fields)) => Some(fields)
      case Some(_) => None
  }

  /** The whole function: any failure before or inside the loop gives `[]`. */
  function Transform(input: Json, parse: string -> Option<Json>): (r: seq<AnnotationRecord>)
    ensures AnnotationsOf(input, parse).None? ==> r == []
    ensures input.JStr? && parse(input.s).None? ==> r == []
    ensures var obj := if input.JStr? then parse(input.s) else Some(input);
            obj.Some? && !obj.value.JObj? ==> r == []
    ensures var obj := if input.JStr? then parse(input.s) else Some(input);
            (obj.Some? && obj.value.JObj? && Member(obj.value.fields, "annotations").None?) ==> r == []
    ensures var obj := if input.JStr? then parse(input.s) else Some(input);
            (obj.Some? && obj.value.JObj? && Member(obj.value.fields, "annotations").Some?
             && !Member(obj.value.fields, "annotations").value.JObj?) ==> r == []
  {
    match AnnotationsOf(input, parse)
    case None => []
    case Some(entries) => ValueOr(Collect(entries), [])
  }

  /** A single entry that is not an object empties the whole result. */
  lemma TransformAllOrNothing(input: Json, parse: string -> Option<Json>, j: nat)
    requires AnnotationsOf(input, parse).Some?
    requires j < |AnnotationsOf(input, parse).value|
    requires !AnnotationsOf(input, parse).value[j].1.JObj?
    ensures Transform(input, parse) == []
  {
    CollectFails(AnnotationsOf(input, parse).value);
  }

  /** Otherwise the result holds one record per entry with a list value,
      in the entries' order, with the entry's key, its type or "STRING",
      and its value unchanged. */
  lemma TransformRecords(input: Json, parse: string -> Option<Json>)
    requires AnnotationsOf(input, parse).Some?
    requires AllObjects(AnnotationsOf(input, parse).value)
    ensures var entries := AnnotationsOf(input, parse).value;
            var idx := ListIndices(entries);
            var r := Transform(input, parse);
            |r| == |idx| <= |entries|
            && (forall i :: 0 <= i < |idx| ==> idx[i] < |entries|)
            && (forall i, j :: 0 <= i < j < |idx| ==> idx[i] < idx[j])
            && (forall j :: 0 <= j < |entries| ==> (j in idx <==> HasListValue(entries[j].1)))
            && (forall i :: 0 <= i < |idx| ==> r[i] == RecordOf(entries[idx[i]].0, entries[idx[i]].1))
  {
    var entries := AnnotationsOf(input, parse).value;
    CollectKeepsListEntries(entries);
    ListIndicesSpec(entries);
  }
}
