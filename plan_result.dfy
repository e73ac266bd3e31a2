/** `TerraformPlanResult` and its conversion to and from a plain dictionary, the
    form in which a plan result is saved and loaded. The dataclass annotates its
    fields (str, str, optional dict, int, optional str) but Python does not enforce
    annotations: `from_dict` stores whatever the dictionary holds. The fields are
    therefore JSON values, `None` is JSON null, and `WellTyped` states the
    annotations separately. */
module PlanResult {
  import opened PyJson

  datatype TerraformPlanResult = TerraformPlanResult(
    stdout: Json,
    stderr: Json,
    jsonPlan: Json,
    returnCode: Json,
    error: Json)
  {
    /** The field annotations: stdout and stderr are strings, json_plan is a dict
        or None, return_code is an int and error is a string or None. */
    predicate WellTyped() {
      && stdout.JStr? && stderr.JStr?
      && (jsonPlan.JObj? || jsonPlan.JNull?)
      && returnCode.JInt?
      && (error.JStr? || error.JNull?)
    }
  }

  /** The keys `to_dict` writes. */
  const Keys: set<string> := {"stdout", "stderr", "json_plan", "return_code", "error"}

  /** The keys `from_dict` reads with a subscript and so requires. */
  const RequiredKeys: set<string> := {"stdout", "stderr", "json_plan", "return_code"}

  /** `to_dict`: the result as a dictionary with exactly the five field keys. */
  function ToDict(r: TerraformPlanResult): (d: map<string, Json>)
    ensures d.Keys == Keys
  {
    map["stdout" := r.stdout, "stderr" := r.stderr, "json_plan" := r.jsonPlan,
        "return_code" := r.returnCode, "error" := r.error]
  }

  /** `from_dict`: a KeyError when one of the four required keys is missing;
      otherwise the record, with `error` null when the dictionary has none. */
  function FromDict(data: map<string, Json>): (r: Result<TerraformPlanResult>)
    ensures r.Ok? <==> RequiredKeys <= data.Keys
    ensures r.Err? ==> r.error == KeyError
    ensures r.Ok? && "error" !in data ==> r.value.error == JNull
  {
    if "stdout" !in data || "stderr" !in data || "json_plan" !in data || "return_code" !in data
    then Err(KeyError)
    else Ok(TerraformPlanResult(data["stdout"], data["stderr"], data["json_plan"],
                                data["return_code"], Get(data, "error")))
  }

  /** Loading what was saved gives back the same result, for every result. */
  lemma FromToDict(r: TerraformPlanResult)
    ensures FromDict(ToDict(r)) == Ok(r)
  {
  }

  /** Saving what was loaded gives back the dictionary's five field entries, with
      a null error added when the dictionary had none; other keys are dropped. */
  lemma ToFromDict(data: map<string, Json>)
    requires RequiredKeys <= data.Keys
    ensures FromDict(data).Ok?
    ensures ToDict(FromDict(data).value)
         == (map k | k in data && k in Keys :: data[k])
            + (if "error" in data then map[] else map["error" := JNull])
  {
    var d := ToDict(FromDict(data).value);
    var e := (map k | k in data && k in Keys :: data[k])
             + (if "error" in data then map[] else map["error" := JNull]);
    assert d.Keys == e.Keys;
  }

  /** A loaded result honours the annotations exactly when the dictionary's
      values have the annotated types (an absent error counts as None). */
  lemma FromDictWellTyped(data: map<string, Json>)
    requires RequiredKeys <= data.Keys
    ensures FromDict(data).value.WellTyped()
        <==> (&& data["stdout"].JStr? && data["stderr"].JStr?
              && (data["json_plan"].JObj? || data["json_plan"].JNull?)
              && data["return_code"].JInt?
              && ("error" in data ==> data["error"].JStr? || data["error"].JNull?))
  {
  }
}
