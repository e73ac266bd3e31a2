/** `extract_changes`: the attribute delta comparator. Given one resource's change
    record it returns the attributes whose `before` and `after` values differ, or
    `None` when there is nothing to report. */
module Extract {
  import opened PyJson

  /** One attribute's `{before, after}` pair. */
  datatype Delta = Delta(before: Json, after: Json)

  /** The attribute records and the action list read from a change record, each
      defaulting when its key is missing: `{}`, `{}` and `[]`. A key that is
      present but null stays null. */
  function BeforeOf(change: map<string, Json>): Json { GetOr(change, "before", JObj(map[])) }
  function AfterOf(change: map<string, Json>): Json { GetOr(change, "after", JObj(map[])) }
  function ActionsOf(change: map<string, Json>): Json { GetOr(change, "actions", JArr([])) }

  /** The reference delta of two attribute records: every key of either record
      whose looked-up values differ, a missing key reading as null, mapped to the
      two looked-up values. */
  function DeltaMap(before: map<string, Json>, after: map<string, Json>): map<string, Delta> {
    map k | k in before.Keys + after.Keys && Get(before, k) != Get(after, k)
      :: Delta(Get(before, k), Get(after, k))
  }

  /** The whole of `extract_changes` as a value: falsy input gives `None`; a truthy
      non-dict fails on `.get`; the `no-op` test may fail when `actions` is not a
      container; a declared no-op gives `None`; a null `before` or `after` gives
      `None`; any other non-dict fails on `.keys()`; an empty delta gives `None`. */
  function ExtractedChanges(change: Json): (r: Result<Option<map<string, Delta>>>)
    ensures !Truthy(change) ==> r == Ok(None)
    ensures r.Ok? && r.value.Some? ==> r.value.value != map[]
    ensures r.Err? ==> Truthy(change)
    ensures r.Err? && r.error == TypeError ==>
              change.JObj? && var a := ActionsOf(change.fields); a.JNull? || a.JBool? || a.JInt?
  {
    if !Truthy(change) then Ok(None)
    else if !change.JObj? then Err(AttributeError)
    else
      var before, after := BeforeOf(change.fields), AfterOf(change.fields);
      match In("no-op", ActionsOf(change.fields))
      case Err(e) => Err(e)
      case Ok(noOp) =>
        if noOp || before.JNull? || after.JNull? then Ok(None)
        else if !before.JObj? || !after.JObj? then Err(AttributeError)
        else
          var d := DeltaMap(before.fields, after.fields);
          Ok(if d == map[] then None else Some(d))
  }

  /** `extract_changes` as the source runs it: the guards in order, then one pass
      over the union of the two key sets that adds each differing key. */
  method ExtractChanges(change: Json) returns (r: Result<Option<map<string, Delta>>>)
    ensures r == ExtractedChanges(change)
  {
    if !Truthy(change) {
      return Ok(None);
    }
    if !change.JObj? {
      return Err(AttributeError);
    }
    var before, after := BeforeOf(change.fields), AfterOf(change.fields);
    var noOp := In("no-op", ActionsOf(change.fields));
    if noOp.Err? {
      return Err(noOp.error);
    }
    if noOp.value {
      return Ok(None);
    }
    var changes: map<string, Delta> := map[];
    if !before.JNull? && !after.JNull? {
      if !before.JObj? || !after.JObj? {
        return Err(AttributeError);
      }
      var b, a := before.fields, after.fields;
      var allKeys := b.Keys + a.Keys;
      var todo := allKeys;
      while todo != {}
        invariant todo <= allKeys
        invariant changes.Keys <= allKeys - todo
        invariant forall k :: k in allKeys - todo && Get(b, k) != Get(a, k) ==> k in changes
        invariant forall k :: k in changes ==> Get(b, k) != Get(a, k) && changes[k] == Delta(Get(b, k), Get(a, k))
        decreases todo
      {
        var key :| key in todo;
        var beforeValue, afterValue := Get(b, key), Get(a, key);
        if beforeValue != afterValue {
          changes := changes[key := Delta(beforeValue, afterValue)];
        }
        todo := todo - {key};
      }
      assert changes == DeltaMap(b, a);
    }
    r := Ok(if changes == map[] then None else Some(changes));
  }

  /** A change record whose actions contain `no-op` (as `in` reads them: an
      element of a list, a substring of a string, a key of a dict) yields `None`,
      whatever `before` and `after` hold. */
  lemma NoOpYieldsNone(change: map<string, Json>)
    requires In("no-op", ActionsOf(change)) == Ok(true)
    ensures ExtractedChanges(JObj(change)) == Ok(None)
  {
  }

  /** A present-but-null `before` or `after` (how Terraform encodes a creation or
      a deletion) yields `None`, never an error, whenever the `no-op` test itself
      does not raise. */
  lemma NullSideYieldsNone(change: map<string, Json>)
    requires In("no-op", ActionsOf(change)).Ok?
    requires BeforeOf(change) == JNull || AfterOf(change) == JNull
    ensures ExtractedChanges(JObj(change)) == Ok(None)
  {
  }

  /** Soundness: every reported attribute belongs to one of the two records, and
      its delta is the two looked-up values, which differ. */
  lemma Sound(change: Json, d: map<string, Delta>, k: string)
    requires ExtractedChanges(change) == Ok(Some(d))
    requires k in d
    ensures change.JObj?
    ensures BeforeOf(change.fields).JObj? && AfterOf(change.fields).JObj?
    ensures var b, a := BeforeOf(change.fields).fields, AfterOf(change.fields).fields;
            && k in b.Keys + a.Keys
            && d[k] == Delta(Get(b, k), Get(a, k))
            && d[k].before != d[k].after
  {
  }

  /** Completeness: whenever the diff runs (the actions do not contain `no-op`
      and both records are dicts), the result is exactly the reference delta, so
      every key whose looked-up values differ is reported. */
  lemma Complete(change: map<string, Json>, k: string)
    requires In("no-op", ActionsOf(change)) == Ok(false)
    requires BeforeOf(change).JObj? && AfterOf(change).JObj?
    requires var b, a := BeforeOf(change).fields, AfterOf(change).fields;
             Get(b, k) != Get(a, k)
    ensures var b, a := BeforeOf(change).fields, AfterOf(change).fields;
            ExtractedChanges(JObj(change)) == Ok(Some(DeltaMap(b, a)))
    ensures var r := ExtractedChanges(JObj(change));
            r.Ok? && r.value.Some? && k in r.value.value
  {
    var b, a := BeforeOf(change).fields, AfterOf(change).fields;
    assert k in DeltaMap(b, a);
  }

  /** A key absent from one record and explicitly null in the other is not
      reported: a missing key reads as null. */
  lemma AbsentMatchesNull(change: Json, d: map<string, Delta>, k: string)
    requires ExtractedChanges(change) == Ok(Some(d))
    requires change.JObj? && BeforeOf(change.fields).JObj? && AfterOf(change.fields).JObj?
    requires var b, a := BeforeOf(change.fields).fields, AfterOf(change.fields).fields;
             (k !in b && k in a && a[k] == JNull) || (k in b && b[k] == JNull && k !in a)
    ensures k !in d
  {
    if k in d {
      Sound(change, d, k);
    }
  }

  /** Structurally equal `before` and `after` never produce a delta. */
  lemma EqualRecordsYieldNoDelta(change: map<string, Json>)
    requires BeforeOf(change) == AfterOf(change)
    ensures ExtractedChanges(JObj(change)).Ok? ==> ExtractedChanges(JObj(change)).value == None
  {
    var r := ExtractedChanges(JObj(change));
    if r.Ok? && r.value.Some? {
      var k :| k in r.value.value;
      Sound(JObj(change), r.value.value, k);
    }
  }
}
