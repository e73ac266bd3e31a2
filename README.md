# Terraform plan change extraction, in Dafny

This project models the change-extraction engine of `tfsec`'s plan parser. The engine
takes the parsed JSON of a `terraform show -json` plan. For every entry of its
`resource_changes` list, it compares the resource's `before` and `after` attribute
records. It keeps only the attributes whose values differ, and it keys each resource
with a non-empty delta by its address as `{type, name, action, changes}`. The model
also covers the `TerraformPlanResult` record and its conversion to and from a
dictionary.

Files:

- `json.dfy` (module `PyJson`): JSON values with structural equality. It also holds
  the parts of Python's dynamic semantics the engine relies on: `dict.get` with a
  default, truthiness, `in`, hashable keys and iteration. Every Python exception the
  source can raise on an ill-shaped document is an `Err(AttributeError | TypeError |
  KeyError)` value, not a precondition.
- `plan_result.dfy` (module `PlanResult`): `TerraformPlanResult`, `to_dict` and
  `from_dict`.
- `extract.dfy` (module `Extract`): `extract_changes`. `ExtractedChanges` is the
  reference function. `ExtractChanges` is the source's step-by-step loop over the
  union of the key sets, proved equal to it.
- `resource_changes.dfy` (module `ResourceChanges`): `create_resource_changes_dict`.
  `Entry` is one entry's contribution and `Aggregate` is the reference left fold.
  `CreateResourceChangesDict` is the source's loop, proved equal to the fold.
- `scenarios.dfy` (module `Scenarios`): concrete plans, including the firewall plan
  from the analyzer's tests.

Behaviour worth knowing, modelled as the code has it:

- A `before` or `after` that is present but `null` is not read as `{}`. Terraform
  encodes creations and deletions this way, and such a resource yields `None` and is
  omitted. Only a missing key defaults to `{}` (`Extract.NullSideYieldsNone`,
  `Scenarios.CreationFromNullOmitted`).
- A declared `no-op` suppresses the resource even when values drifted.
- The `no-op` test is Python's `in`. On a list it compares elements. On a string it
  is a substring test, and on a dict it tests the keys. On null, a boolean or a
  number it raises TypeError.
- `resource["address"]` is read without a guard. An entry with a delta and no
  address raises KeyError, and an unhashable (list or dict) address raises TypeError.
  Entries without a delta never read it.
- The output is keyed by the address value, so a later entry with the same address
  replaces an earlier one.
- Determinism and idempotence hold by construction: every operation is a function
  of its input.

## Model

| member | source | states |
|---|---|---|
| `PyJson.In` | src/tfsec/parse.py:199 | `"no-op" in actions` raises exactly on null, booleans and numbers; on a list it is element membership, on a dict key membership |
| `PyJson.Iterate` | src/tfsec/parse.py:228 | iterating `resource_changes` yields a list's items; only a list, `""` or `{}` iterate without an exception, and a non-empty string or dict fails with AttributeError |
| `PlanResult.ToDict` | src/tfsec/parse.py:83-91 | the dictionary has exactly the five field keys |
| `PlanResult.FromDict` | src/tfsec/parse.py:93-102 | succeeds exactly when stdout, stderr, json_plan and return_code are present, otherwise KeyError; a missing error key gives a null error |
| `PlanResult.FromToDict` | src/tfsec/parse.py:83-102 | `from_dict(to_dict(r)) == r` for every result |
| `PlanResult.ToFromDict` | src/tfsec/parse.py:83-102 | `to_dict(from_dict(d))` is d restricted to the five field keys, with a null error added when d had none |
| `PlanResult.FromDictWellTyped` | src/tfsec/parse.py:75-102 | a loaded result honours the dataclass annotations exactly when the dictionary's values have the annotated types |
| `Extract.ExtractedChanges` | src/tfsec/parse.py:189-215 | a falsy change record gives `None`; a reported delta is never empty; only a truthy record can raise, and TypeError only for a non-container `actions` |
| `Extract.ExtractChanges` | src/tfsec/parse.py:189-215 | the loop over the union of the key sets computes exactly the reference result, including every error and `None` case |
| `Extract.NoOpYieldsNone` | src/tfsec/parse.py:196-200 | actions containing `no-op` (as Python's `in` reads a list, string or dict) give `None` whatever before and after hold |
| `Extract.NullSideYieldsNone` | src/tfsec/parse.py:194-204 | a present-but-null before or after gives `None`, not an error, whenever the `no-op` test does not raise |
| `Extract.Sound` | src/tfsec/parse.py:205-213 | every reported key is in one of the two records, its delta is the two looked-up values (missing as null), and they differ |
| `Extract.Complete` | src/tfsec/parse.py:205-213 | when the diff runs (actions without `no-op` under Python's `in`, both records dicts) the result is exactly the reference delta, so every key whose looked-up values differ is reported |
| `Extract.AbsentMatchesNull` | src/tfsec/parse.py:207-209 | a key absent on one side and explicitly null on the other is not reported |
| `Extract.EqualRecordsYieldNoDelta` | src/tfsec/parse.py:209-215 | structurally equal before and after never produce a delta |
| `ResourceChanges.Entry` | src/tfsec/parse.py:229-236 | an entry is skipped exactly when its change record yields `None`; an emitted record has a non-empty delta equal to the comparator's and is keyed by the entry's address, which must be present and hashable; its type and name default to `""`, and its action is the change's actions verbatim, defaulting to `[]` |
| `ResourceChanges.ResourceChangesOf` | src/tfsec/parse.py:217-237 | a plan without `resource_changes` gives `{}`; every emitted record has a non-empty delta |
| `ResourceChanges.CreateResourceChangesDict` | src/tfsec/parse.py:217-237 | the loop over the entries computes exactly the reference fold, stopping at the first exception |
| `ResourceChanges.AggregateErrPropagates` | src/tfsec/parse.py:228-236 | an exception raised by an entry ends the whole call with that exception |
| `ResourceChanges.AggregateNonEmpty` | src/tfsec/parse.py:230-236 | only resources with a non-empty delta are stored |
| `ResourceChanges.AggregateOk` | src/tfsec/parse.py:228-236 | the call succeeds exactly when no entry raises |
| `ResourceChanges.AggregateKeys` | src/tfsec/parse.py:228-236 | an address is in the result exactly when some entry with that address has a non-empty delta |
| `ResourceChanges.AggregateLastWins` | src/tfsec/parse.py:231-236 | the stored record is that of the last entry emitting under the address |
| `ResourceChanges.NoOpEntryOmitted` | src/tfsec/parse.py:229-230 | an entry whose actions contain `no-op` is never emitted |
| `ResourceChanges.RecordJson` | src/tfsec/parse.py:231-236 | an emitted record renders as a dictionary with exactly the keys type, name, action and changes |
| `ResourceChanges.RecordJsonRoundTrip` | src/tfsec/parse.py:231-236 | the dictionary form loses nothing: reading it back gives the same type, name, action and every attribute's before and after value |
| `Scenarios.FirewallPlan` | tests/tfsec/test_analyze.py:69-83 | the firewall plan of the tests yields one record, under its address, holding only the widened `source_ranges` |
| `Scenarios.FirewallRecordShape` | tests/tfsec/test_analyze.py:12-25 | that record renders as the dictionary the tests hand to the analysis |
| `Scenarios.PureAddition` | src/tfsec/parse.py:194-213 | from `before = {}` a new attribute is reported with a null before |
| `Scenarios.CreationFromNullOmitted` | src/tfsec/parse.py:204 | a creation with `before: null` is not reported |
| `Scenarios.WideningOnly` | src/tfsec/parse.py:205-213 | a widened range is reported and an unchanged attribute beside it is not |
| `Scenarios.DeclaredNoOpHidesDrift` | src/tfsec/parse.py:199-200 | a `no-op` with drifted values yields `None` |
| `Scenarios.NestedRecordChange` | src/tfsec/parse.py:209-213 | a nested record gaining a key is reported under the top-level attribute with both whole sub-records |
| `Scenarios.EmptyPlan` | src/tfsec/parse.py:227-237 | an empty `resource_changes` list gives `{}` |

## Left out

- `run_terraform_plan` and `_run_terraform_plan`: they launch the `terraform` binary and copy and delete a state file. This is process and filesystem I/O.
- `save_plan_result` and `load_plan_result`: file I/O and JSON text encoding. Only the dictionary conversion they use is modelled.
- Both `main` functions (argument parsing, console output) and all of `src/tfsec/analyze.py`: `analyze_changes` wraps a language-model call, and `SecurityIssue`/`SecurityAnalysis` are schemas without logic.
- Python's cross-type equality (`1 == 1.0 == True`) and floating-point JSON numbers: numbers are integers and equality is structural. For the same reason, addresses `1` and `true` are distinct keys here, while Python would merge them.
- Order: the order in which `all_keys` is walked and the insertion order of the output dictionary are not modelled, because the results are maps.
- `PyJson.Iterate`: a non-empty string or dict under `resource_changes` is modelled as one AttributeError. It does not model the walk over its characters or keys, each of which would raise that same error on `.get`.
- A `json_plan` argument that is not a dictionary: the annotation requires one, and the model takes a map.
