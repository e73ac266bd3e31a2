/** `create_resource_changes_dict`: runs the comparator over every entry of a
    plan's `resource_changes` and keys each resource that has a non-empty delta
    by its address. */
module ResourceChanges {
  import opened PyJson
  import opened Extract

  /** One emitted resource: `{type, name, action, changes}`. Type, name and action
      are copied verbatim from the plan entry, so they are JSON values. */
  datatype ResourceRecord = ResourceRecord(
    rtype: Json,
    name: Json,
    action: Json,
    changes: map<string, Delta>)

  /** The change record of a plan entry, `{}` when the entry has none. */
  function ChangeOf(resource: map<string, Json>): Json {
    GetOr(resource, "change", JObj(map[]))
  }

  /** What one plan entry contributes: an exception, nothing, or an address and
      its record. A non-dict entry fails on `.get`; the comparator's own failures
      propagate; an entry with a delta but no `address` raises KeyError, and one
      whose address is a list or dict raises TypeError (unhashable key). */
  function Entry(resource: Json): (r: Result<Option<(Json, ResourceRecord)>>)
    ensures r == Ok(None) <==> resource.JObj? && ExtractedChanges(ChangeOf(resource.fields)) == Ok(None)
    ensures r.Ok? && r.value.Some? ==>
              && resource.JObj?
              && var fields, (address, rec) := resource.fields, r.value.value;
              && rec.changes != map[]
              && ExtractedChanges(ChangeOf(fields)) == Ok(Some(rec.changes))
              && "address" in fields && address == fields["address"] && Hashable(address)
              && rec.rtype == GetOr(fields, "type", JStr(""))
              && rec.name == GetOr(fields, "name", JStr(""))
              && ChangeOf(fields).JObj?
              && rec.action == ActionsOf(ChangeOf(fields).fields)
  {
    if !resource.JObj? then Err(AttributeError)
    else
      var fields := resource.fields;
      var change := ChangeOf(fields);
      match ExtractedChanges(change)
      case Err(e) => Err(e)
      case Ok(None) => Ok(None)
      case Ok(Some(d)) =>
        if "address" !in fields then Err(KeyError)
        else if !Hashable(fields["address"]) then Err(TypeError)
        else
          Ok(Some((fields["address"],
                   ResourceRecord(GetOr(fields, "type", JStr("")), GetOr(fields, "name", JStr("")),
                                  ActionsOf(change.fields), d))))
  }

  /** Adds one entry's contribution to the mapping built so far; a later entry
      with the same address replaces the earlier one. */
  function Step(acc: map<Json, ResourceRecord>, resource: Json): Result<map<Json, ResourceRecord>> {
    match Entry(resource)
    case Err(e) => Err(e)
    case Ok(None) => Ok(acc)
    case Ok(Some((address, rec))) => Ok(acc[address := rec])
  }

  /** The reference fold over the entries in order; the first exception ends it. */
  function Aggregate(resources: seq<Json>): Result<map<Json, ResourceRecord>>
    decreases |resources|
  {
    if resources == [] then Ok(map[])
    else
      match Aggregate(resources[..|resources| - 1])
      case Err(e) => Err(e)
      case Ok(acc) => Step(acc, resources[|resources| - 1])
  }

  /** `create_resource_changes_dict` as a value: the fold over what iterating
      `resource_changes` (default `[]`) yields. */
  function ResourceChangesOf(plan: map<string, Json>): (r: Result<map<Json, ResourceRecord>>)
    ensures "resource_changes" !in plan ==> r == Ok(map[])
    ensures r.Ok? ==> forall address :: address in r.value ==> r.value[address].changes != map[]
  {
    match Iterate(GetOr(plan, "resource_changes", JArr([])))
    case Err(e) => Err(e)
    case Ok(resources) =>
      AggregateNonEmpty(resources);
      Aggregate(resources)
  }

  /** `create_resource_changes_dict` as the source runs it: one pass over the
      entries, inserting each emitted record under its address. */
  method CreateResourceChangesDict(plan: map<string, Json>) returns (r: Result<map<Json, ResourceRecord>>)
    ensures r == ResourceChangesOf(plan)
  {
    var iterated := Iterate(GetOr(plan, "resource_changes", JArr([])));
    if iterated.Err? {
      return Err(iterated.error);
    }
    var resources := iterated.value;
    var changes: map<Json, ResourceRecord> := map[];
    for i := 0 to |resources|
      invariant Aggregate(resources[..i]) == Ok(changes)
    {
      AggregatePrefixStep(resources, i);
      var resource := resources[i];
      if !resource.JObj? {
        AggregateErrPropagates(resources, i + 1);
        return Err(AttributeError);
      }
      var change := ChangeOf(resource.fields);
      var delta := ExtractChanges(change);
      if delta.Err? {
        AggregateErrPropagates(resources, i + 1);
        return Err(delta.error);
      }
      if delta.value.Some? && delta.value.value != map[] {
        if "address" !in resource.fields {
          AggregateErrPropagates(resources, i + 1);
          return Err(KeyError);
        }
        var address := resource.fields["address"];
        if !Hashable(address) {
          AggregateErrPropagates(resources, i + 1);
          return Err(TypeError);
        }
        var rec := ResourceRecord(GetOr(resource.fields, "type", JStr("")),
                                  GetOr(resource.fields, "name", JStr("")),
                                  ActionsOf(change.fields), delta.value.value);
        assert Entry(resource) == Ok(Some((address, rec)));
        changes := changes[address := rec];
      } else {
        assert Entry(resource) == Ok(None);
      }
    }
    assert resources[..|resources|] == resources;
    r := Ok(changes);
  }

  /** Extending the prefix by one entry applies one step to the fold so far. */
  lemma AggregatePrefixStep(resources: seq<Json>, i: nat)
    requires i < |resources| && Aggregate(resources[..i]).Ok?
    ensures Aggregate(resources[..i + 1]) == Step(Aggregate(resources[..i]).value, resources[i])
  {
    assert resources[..i + 1][..i] == resources[..i];
  }

  /** An exception raised within a prefix of the entries ends the whole fold
      with that exception. */
  lemma {:induction false} AggregateErrPropagates(resources: seq<Json>, k: nat)
    requires k <= |resources| && Aggregate(resources[..k]).Err?
    ensures Aggregate(resources) == Aggregate(resources[..k])
    decreases |resources| - k
  {
    if k < |resources| {
      var n := |resources| - 1;
      assert resources[..n][..k] == resources[..k];
      AggregateErrPropagates(resources[..n], k);
    } else {
      assert resources[..k] == resources;
    }
  }

  /** Every record in a successful fold has a non-empty delta. */
  lemma {:induction false} AggregateNonEmpty(resources: seq<Json>)
    ensures Aggregate(resources).Ok? ==>
              forall address :: address in Aggregate(resources).value ==>
                Aggregate(resources).value[address].changes != map[]
    decreases |resources|
  {
    if resources != [] {
      AggregateNonEmpty(resources[..|resources| - 1]);
    }
  }

  /** The fold succeeds exactly when no entry raises. */
  lemma {:induction false} AggregateOk(resources: seq<Json>)
    ensures Aggregate(resources).Ok? <==> forall i :: 0 <= i < |resources| ==> Entry(resources[i]).Ok?
    decreases |resources|
  {
    if resources != [] {
      var init := resources[..|resources| - 1];
      AggregateOk(init);
      assert forall i :: 0 <= i < |init| ==> init[i] == resources[i];
    }
  }

  /** Entry `i` of `resources` emits a record under `address`. */
  ghost predicate EmitsAt(resources: seq<Json>, i: int, address: Json) {
    && 0 <= i < |resources|
    && Entry(resources[i]).Ok? && Entry(resources[i]).value.Some?
    && Entry(resources[i]).value.value.0 == address
  }

  /** Omission: an address is in a successful result exactly when some entry with
      that address has a non-empty delta. */
  lemma {:induction false} AggregateKeys(resources: seq<Json>, address: Json)
    requires Aggregate(resources).Ok?
    ensures address in Aggregate(resources).value <==> exists i :: EmitsAt(resources, i, address)
    decreases |resources|
  {
    if resources != [] {
      var n := |resources| - 1;
      var init := resources[..n];
      AggregateLastStep(resources, address);
      AggregateKeys(init, address);
      forall i | 0 <= i < n ensures EmitsAt(init, i, address) <==> EmitsAt(resources, i, address) {
        EmitsInPrefix(resources, n, i, address);
      }
    }
  }

  /** After the last entry, an address is stored exactly when that entry emits
      under it or it was stored before. */
  lemma AggregateLastStep(resources: seq<Json>, address: Json)
    requires resources != [] && Aggregate(resources).Ok?
    ensures var n := |resources| - 1;
            && Aggregate(resources[..n]).Ok?
            && (address in Aggregate(resources).value
                <==> EmitsAt(resources, n, address) || address in Aggregate(resources[..n]).value)
  {
    var n := |resources| - 1;
    var last := Entry(resources[n]);
    assert Aggregate(resources[..n]).Ok? && last.Ok?;
    assert EmitsAt(resources, n, address) == (last.value.Some? && last.value.value.0 == address);
  }

  /** Below `n`, an entry emits alike in `resources` and in its first `n` entries. */
  lemma EmitsInPrefix(resources: seq<Json>, n: nat, i: int, address: Json)
    requires 0 <= i < n <= |resources|
    ensures EmitsAt(resources[..n], i, address) <==> EmitsAt(resources, i, address)
  {
    assert resources[..n][i] == resources[i];
  }

  /** Last write wins: when entry `i` is the last one emitting under `address`,
      the result holds exactly its record. */
  lemma {:induction false} AggregateLastWins(resources: seq<Json>, i: int, address: Json)
    requires Aggregate(resources).Ok?
    requires EmitsAt(resources, i, address)
    requires forall j :: i < j < |resources| ==> !EmitsAt(resources, j, address)
    ensures address in Aggregate(resources).value
    ensures Aggregate(resources).value[address] == Entry(resources[i]).value.value.1
    decreases |resources|
  {
    var n := |resources| - 1;
    var init := resources[..n];
    if i < n {
      assert EmitsAt(init, i, address);
      forall j | i < j < |init| ensures !EmitsAt(init, j, address) {
        assert !EmitsAt(resources, j, address);
      }
      AggregateLastWins(init, i, address);
      assert !EmitsAt(resources, n, address);
    }
  }

  /** An entry whose actions contain `no-op` is never emitted, whatever its
      attribute records hold. */
  lemma NoOpEntryOmitted(resources: seq<Json>, i: int)
    requires 0 <= i < |resources| && resources[i].JObj?
    requires var change := ChangeOf(resources[i].fields);
             change.JObj? && In("no-op", ActionsOf(change.fields)) == Ok(true)
    ensures forall address :: !EmitsAt(resources, i, address)
  {
    NoOpYieldsNone(ChangeOf(resources[i].fields).fields);
  }

  /** The emitted record in the shape the source builds it:
      `{"type", "name", "action", "changes": {attr: {"before", "after"}}}`. */
  function RecordJson(rec: ResourceRecord): (j: Json)
    ensures j.JObj? && j.fields.Keys == {"type", "name", "action", "changes"}
  {
    JObj(map["type" := rec.rtype, "name" := rec.name, "action" := rec.action,
             "changes" := JObj(map k | k in rec.changes :: DeltaJson(rec.changes[k]))])
  }

  /** One attribute's delta as the dictionary `{"before", "after"}`. */
  function DeltaJson(d: Delta): Json {
    JObj(map["before" := d.before, "after" := d.after])
  }

  /** A dictionary that holds a `before` and an `after` entry. */
  predicate IsDeltaJson(v: Json) {
    v.JObj? && "before" in v.fields && "after" in v.fields
  }

  /** Reads a record back from its dictionary form; `None` when a key is missing
      or an attribute's delta is not a `{before, after}` dictionary. */
  function RecordOf(j: Json): Option<ResourceRecord> {
    if !j.JObj? || !({"type", "name", "action", "changes"} <= j.fields.Keys) then None
    else
      var changes := j.fields["changes"];
      if !changes.JObj? || !(forall k :: k in changes.fields ==> IsDeltaJson(changes.fields[k])) then None
      else
        Some(ResourceRecord(j.fields["type"], j.fields["name"], j.fields["action"],
                            map k | k in changes.fields
                              :: Delta(changes.fields[k].fields["before"], changes.fields[k].fields["after"])))
  }

  /** The dictionary form loses nothing: type, name, action and every
      attribute's before and after value are read back as they were. */
  lemma RecordJsonRoundTrip(rec: ResourceRecord)
    ensures RecordOf(RecordJson(rec)) == Some(rec)
  {
    var j := RecordJson(rec);
    var changes := j.fields["changes"];
    assert changes.fields == map k | k in rec.changes :: DeltaJson(rec.changes[k]);
    assert forall k :: k in changes.fields ==> IsDeltaJson(changes.fields[k]);
    var decoded := map k | k in changes.fields
                     :: Delta(changes.fields[k].fields["before"], changes.fields[k].fields["after"]);
    assert decoded.Keys == rec.changes.Keys;
    assert forall k :: k in decoded ==> decoded[k] == rec.changes[k];
    assert decoded == rec.changes;
  }
}
