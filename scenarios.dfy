/** Concrete plans and what the engine makes of them. */
module Scenarios {
  import opened PyJson
  import opened Extract
  import opened ResourceChanges

  const Address: Json := JStr("google_compute_firewall.allow-http-https")
  const Narrow: Json := JArr([JStr("10.0.0.0/8")])
  const Open: Json := JArr([JStr("0.0.0.0/0")])

  /** A change record built from its three parts. */
  function Change(before: Json, after: Json, action: string): Json {
    JObj(map["before" := before, "after" := after, "actions" := JArr([JStr(action)])])
  }

  /** A change record with two attribute records and an action other than
      `no-op` yields their delta, or `None` when it is empty. */
  lemma DiffRuns(before: map<string, Json>, after: map<string, Json>, action: string)
    requires action != "no-op"
    ensures ExtractedChanges(Change(JObj(before), JObj(after), action))
         == var d := DeltaMap(before, after); Ok(if d == map[] then None else Some(d))
  {
    var change := Change(JObj(before), JObj(after), action);
    assert "before" in change.fields;
    assert BeforeOf(change.fields) == JObj(before);
    assert AfterOf(change.fields) == JObj(after);
    assert ActionsOf(change.fields) == JArr([JStr(action)]);
  }

  /** The firewall entry of the analyzer's test: its source range widens. */
  const FirewallChange: Json :=
    Change(JObj(map["source_ranges" := Narrow]), JObj(map["source_ranges" := Open]), "update")
  const FirewallEntry: Json :=
    JObj(map["address" := Address, "type" := JStr("google_compute_firewall"),
             "name" := JStr("allow-http-https"), "change" := FirewallChange])

  /** The record expected for it: type, name and action copied, and only the
      widened attribute in the delta. */
  const FirewallRecord: ResourceRecord :=
    ResourceRecord(JStr("google_compute_firewall"), JStr("allow-http-https"),
                   JArr([JStr("update")]), map["source_ranges" := Delta(Narrow, Open)])

  /** A plan holding the firewall entry yields exactly one record, under its
      address. */
  lemma FirewallPlan()
    ensures ResourceChangesOf(map["resource_changes" := JArr([FirewallEntry])])
         == Ok(map[Address := FirewallRecord])
  {
    var d := map["source_ranges" := Delta(Narrow, Open)];
    DiffRuns(map["source_ranges" := Narrow], map["source_ranges" := Open], "update");
    assert DeltaMap(map["source_ranges" := Narrow], map["source_ranges" := Open]) == d;
    assert "source_ranges" in d;
    assert ExtractedChanges(FirewallChange) == Ok(Some(d));
    assert ChangeOf(FirewallEntry.fields) == FirewallChange;
    assert ActionsOf(FirewallChange.fields) == JArr([JStr("update")]);
    assert Entry(FirewallEntry) == Ok(Some((Address, FirewallRecord)));
    assert [FirewallEntry][..0] == [];
    assert Aggregate([FirewallEntry]) == Step(map[], FirewallEntry);
  }

  /** The firewall record rendered as a dictionary has the shape the analyzer's
      test feeds to the analysis. */
  lemma FirewallRecordShape()
    ensures RecordJson(FirewallRecord)
         == JObj(map["type" := JStr("google_compute_firewall"),
                     "name" := JStr("allow-http-https"),
                     "action" := JArr([JStr("update")]),
                     "changes" := JObj(map["source_ranges" :=
                                    JObj(map["before" := Narrow, "after" := Open])])])
  {
    var changes := map k | k in FirewallRecord.changes :: DeltaJson(FirewallRecord.changes[k]);
    assert changes == map["source_ranges" := JObj(map["before" := Narrow, "after" := Open])];
  }

  /** Pure addition from an empty record: the new attribute is reported with a
      null `before`. */
  lemma PureAddition()
    ensures ExtractedChanges(Change(JObj(map[]), JObj(map["source_ranges" := Open]), "create"))
         == Ok(Some(map["source_ranges" := Delta(JNull, Open)]))
  {
    DiffRuns(map[], map["source_ranges" := Open], "create");
    var d := map["source_ranges" := Delta(JNull, Open)];
    assert DeltaMap(map[], map["source_ranges" := Open]) == d;
    assert "source_ranges" in d;
  }

  /** A creation as Terraform encodes it, with a null `before`, is not reported. */
  lemma CreationFromNullOmitted()
    ensures ExtractedChanges(Change(JNull, JObj(map["source_ranges" := Open]), "create")) == Ok(None)
  {
    assert JStr("create") != JStr("no-op");
  }

  /** Widening a range reports that attribute only; an unchanged attribute beside
      it is absent from the delta. */
  lemma WideningOnly()
    ensures ExtractedChanges(Change(JObj(map["source_ranges" := Narrow, "priority" := JInt(1000)]),
                                    JObj(map["source_ranges" := Open, "priority" := JInt(1000)]),
                                    "update"))
         == Ok(Some(map["source_ranges" := Delta(Narrow, Open)]))
  {
    var b := map["source_ranges" := Narrow, "priority" := JInt(1000)];
    var a := map["source_ranges" := Open, "priority" := JInt(1000)];
    DiffRuns(b, a, "update");
    assert Narrow != Open by { assert Narrow.items[0].s[0] != Open.items[0].s[0]; }
    var d := map["source_ranges" := Delta(Narrow, Open)];
    assert b.Keys + a.Keys == {"source_ranges", "priority"};
    assert Get(b, "priority") == Get(a, "priority");
    assert DeltaMap(b, a).Keys == d.Keys;
    assert DeltaMap(b, a) == d;
    assert "source_ranges" in d;
  }

  /** A declared no-op hides drifted values. */
  lemma DeclaredNoOpHidesDrift()
    ensures ExtractedChanges(Change(JObj(map["name" := JStr("a")]), JObj(map["name" := JStr("b")]), "no-op"))
         == Ok(None)
  {
  }

  /** A nested record that gains a key is reported under the top-level attribute,
      with both whole sub-records. */
  lemma NestedRecordChange()
    ensures var before, after := JObj(map["env" := JStr("prod")]),
                                 JObj(map["env" := JStr("prod"), "team" := JStr("net")]);
            (ExtractedChanges(Change(JObj(map["tags" := before]), JObj(map["tags" := after]), "update"))
             == Ok(Some(map["tags" := Delta(before, after)])))
  {
    var before, after := JObj(map["env" := JStr("prod")]), JObj(map["env" := JStr("prod"), "team" := JStr("net")]);
    DiffRuns(map["tags" := before], map["tags" := after], "update");
    assert before != after by { assert "team" !in before.fields; }
    var d := map["tags" := Delta(before, after)];
    assert DeltaMap(map["tags" := before], map["tags" := after]) == d;
    assert "tags" in d;
  }

  /** An empty plan gives an empty result. */
  lemma EmptyPlan()
    ensures ResourceChangesOf(map["resource_changes" := JArr([])]) == Ok(map[])
  {
  }
}
