/** What a whole execution of the node does, stated over `Steps` and
    `ExecuteSpec`, which `GetResponseNode.Execute` is proved to compute. */
module ExecutionProperties {
  import opened Json
  import opened ContactBody
  import opened ContactQuery
  import opened GetResponseNode

  /** `n` copies of `{ success: true }`. */
  function Markers(n: nat): (ms: seq<Value>)
    ensures |ms| == n && forall i :: 0 <= i < n ==> ms[i] == SuccessMarker
  {
    seq(n, _ => SuccessMarker)
  }

  /** Independent statement of the output rule: the responses one after
      another, an array contributing its elements and `undefined` nothing. */
  function Flatten(responses: seq<Value>): seq<Value> {
    if responses == [] then []
    else
      (match responses[0]
       case Arr(es) => es
       case Undefined => []
       case r => [r])
      + Flatten(responses[1..])
  }

  /** What the request for an item looks like under each operation. */
  ghost predicate Shaped(r: Request, operation: string, p: Params, tz: string, fmt: (Value, string) -> string) {
    if operation == "create" then
      r.verb == POST && r.path == "/contacts" && r.query == [] && !r.allItems
      && CreateBody(p.email, p.campaignId, p.additionalFields) == Success(r.body)
    else if operation == "delete" then
      r.verb == DELETE && r.path == ContactPath(p.contactId) && r.body == [] && !r.allItems
      && OptionsSent(r.query, p.options)
    else if operation == "get" then
      r.verb == GET && r.path == ContactPath(p.contactId) && r.body == [] && !r.allItems
      && OptionsSent(r.query, p.options)
    else if operation == "getAll" then
      r.verb == GET && r.path == "/contacts" && r.body == [] && r.allItems == p.returnAll
      && (!p.returnAll ==> Lookup(r.query, "perPage") == Num(p.limit))
      && ListOptionsSent(r.query, p.options, tz, fmt)
    else
      r.verb == POST && r.path == ContactPath(p.contactId) && r.query == [] && !r.allItems
      && r.body == UpdateBody(p.updateFields)
  }

  /** In a `getAll` call every option of the item (with bracket-free names) is
      sent in the form the API expects: the allowlisted `sortBy`, `sortOrder`
      and `fields` as given, any other option but the page size only under its
      `query[...]` key, a date formatted. */
  ghost predicate ListOptionsSent(query: Fields, options: Fields, tz: string, fmt: (Value, string) -> string) {
    Distinct(options) && (forall j :: Has(options, j) ==> Plain(j)) ==>
      forall k :: Has(options, k) ==>
        && (k in NotQuery && k != "exactMatch" && k != "additionalFlags" ==> Lookup(query, k) == Lookup(options, k))
        && (k !in NotQuery && k != "perPage" ==>
              Lookup(query, Target(k)) == NewValue(options, k, tz, fmt) && !Has(query, k))
  }

  /** What every state of a run keeps: `qs` is an object, and under `getAll`
      it holds no raw filter left over from an earlier item. */
  ghost predicate Reachable(operation: string, s: ExecState) {
    Distinct(s.qs) && (operation == "getAll" ==> FiltersRewritten(s.qs))
  }

  /** Every option of the item is in the query, with its own value. */
  ghost predicate OptionsSent(query: Fields, options: Fields) {
    Distinct(options) ==> forall x :: Has(options, x) ==> Lookup(query, x) == Lookup(options, x)
  }

  /** An unknown resource or operation calls nothing and emits nothing. */
  lemma {:induction false} UnsupportedStepsSilent(st: ExecState, resource: string, operation: string,
      items: seq<Params>, responses: seq<Value>, tz: string, fmt: (Value, string) -> string)
    requires |responses| == |items|
    requires resource != "contact" || operation !in Operations
    requires st.responseData == Undefined
    ensures Steps(st, resource, operation, items, responses, tz, fmt) == Completed(st.returnData, st.requests)
    decreases |items|
  {
    if items != [] {
      var st' := Step(st, resource, operation, items[0], responses[0], tz, fmt);
      assert Emitted(st.responseData) == [];
      assert st.returnData + [] == st.returnData;
      assert st' == Success(st);
      UnsupportedStepsSilent(st, resource, operation, items[1..], responses[1..], tz, fmt);
    }
  }

  lemma UnsupportedOperationIsSilent(resource: string, operation: string,
      items: seq<Params>, responses: seq<Value>, tz: string, fmt: (Value, string) -> string)
    requires |responses| == |items|
    requires resource != "contact" || operation !in Operations
    ensures ExecuteSpec(resource, operation, items, responses, tz, fmt) == Completed([], [])
  {
    UnsupportedStepsSilent(Initial, resource, operation, items, responses, tz, fmt);
  }

  /** `create` and `delete` emit one success marker per item, whatever the API answered. */
  lemma {:induction false} MarkerSteps(st: ExecState, operation: string,
      items: seq<Params>, responses: seq<Value>, tz: string, fmt: (Value, string) -> string)
    requires |responses| == |items|
    requires operation == "create" || operation == "delete"
    ensures var run := Steps(st, "contact", operation, items, responses, tz, fmt);
      && (operation == "delete" ==> run.Completed?)
      && (run.Completed? ==> run.output == st.returnData + Markers(|items|))
    decreases |items|
  {
    if items == [] {
      assert Markers(0) == [];
      AppendEmpty(st.returnData);
    } else {
      var r := Step(st, "contact", operation, items[0], responses[0], tz, fmt);
      if r.Success? {
        assert r.value.returnData == st.returnData + [SuccessMarker];
        MarkerSteps(r.value, operation, items[1..], responses[1..], tz, fmt);
        assert [SuccessMarker] + Markers(|items| - 1) == Markers(|items|);
        AppendAssoc(st.returnData, [SuccessMarker], Markers(|items| - 1));
      }
    }
  }

  /** The responses do not enter the result of `create` or `delete` at all. */
  lemma {:induction false} MarkerStepsIgnoreResponses(st: ExecState, operation: string,
      items: seq<Params>, responses: seq<Value>, others: seq<Value>, tz: string, fmt: (Value, string) -> string)
    requires |responses| == |items| && |others| == |items|
    requires operation == "create" || operation == "delete"
    ensures Steps(st, "contact", operation, items, responses, tz, fmt)
         == Steps(st, "contact", operation, items, others, tz, fmt)
    decreases |items|
  {
    if items != [] {
      var r := Step(st, "contact", operation, items[0], responses[0], tz, fmt);
      assert r == Step(st, "contact", operation, items[0], others[0], tz, fmt);
      if r.Success? {
        MarkerStepsIgnoreResponses(r.value, operation, items[1..], responses[1..], others[1..], tz, fmt);
      }
    }
  }

  lemma CreateAndDeleteReportSuccess(operation: string, items: seq<Params>, responses: seq<Value>,
      others: seq<Value>, tz: string, fmt: (Value, string) -> string)
    requires |responses| == |items| && |others| == |items|
    requires operation == "create" || operation == "delete"
    ensures var run := ExecuteSpec("contact", operation, items, responses, tz, fmt);
      && (operation == "delete" ==> run.Completed?)
      && (run.Completed? ==> run.output == Markers(|items|))
      && run == ExecuteSpec("contact", operation, items, others, tz, fmt)
  {
    MarkerSteps(Initial, operation, items, responses, tz, fmt);
    MarkerStepsIgnoreResponses(Initial, operation, items, responses, others, tz, fmt);
  }

  /** Steps that each emit their response and never fail emit the responses
      one after another: arrays spliced in order, other defined values as one
      item, `undefined` as nothing. */
  lemma {:induction false} StepsEmitEach(st: ExecState, operation: string,
      items: seq<Params>, responses: seq<Value>, tz: string, fmt: (Value, string) -> string)
    requires |responses| == |items|
    requires forall s: ExecState, p: Params, resp: Value ::
      var r := Step(s, "contact", operation, p, resp, tz, fmt);
      r.Success? && r.value.returnData == s.returnData + Emitted(resp)
    ensures var run := Steps(st, "contact", operation, items, responses, tz, fmt);
      run.Completed? && run.output == st.returnData + Flatten(responses)
    decreases |items|
  {
    if items == [] {
      assert st.returnData + Flatten(responses) == st.returnData + [];
      AppendEmpty(st.returnData);
    } else {
      var r := Step(st, "contact", operation, items[0], responses[0], tz, fmt);
      var st' := r.value;
      StepsEmitEach(st', operation, items[1..], responses[1..], tz, fmt);
      FlattenCons(responses);
      AppendAssoc(st.returnData, Emitted(responses[0]), Flatten(responses[1..]));
    }
  }

  lemma AppendAssoc(a: seq<Value>, b: seq<Value>, c: seq<Value>)
    ensures (a + b) + c == a + (b + c)
  {
  }

  lemma AppendEmpty(a: seq<Value>)
    ensures a + [] == a
  {
  }

  lemma FlattenCons(responses: seq<Value>)
    requires responses != []
    ensures Flatten(responses) == Emitted(responses[0]) + Flatten(responses[1..])
  {
  }

  /** One `get`, `getAll` or `update` step appends the response to the output. */
  lemma RawStep(st: ExecState, operation: string, p: Params, response: Value,
      tz: string, fmt: (Value, string) -> string)
    requires operation == "get" || operation == "getAll" || operation == "update"
    ensures var r := Step(st, "contact", operation, p, response, tz, fmt);
      r.Success? && r.value.returnData == st.returnData + Emitted(response)
  {
  }

  /** `get`, `getAll` and `update` never fail and emit the raw responses. */
  lemma GetUpdateGetAllEmitResponses(operation: string, items: seq<Params>, responses: seq<Value>,
      tz: string, fmt: (Value, string) -> string)
    requires |responses| == |items|
    requires operation == "get" || operation == "getAll" || operation == "update"
    ensures ExecuteSpec("contact", operation, items, responses, tz, fmt).Completed?
    ensures ExecuteSpec("contact", operation, items, responses, tz, fmt).output == Flatten(responses)
  {
    forall s: ExecState, p: Params, resp: Value
      ensures var r := Step(s, "contact", operation, p, resp, tz, fmt);
        r.Success? && r.value.returnData == s.returnData + Emitted(resp)
    {
      RawStep(s, operation, p, resp, tz, fmt);
    }
    StepsEmitEach(Initial, operation, items, responses, tz, fmt);
  }

  /** From a reachable state, a `getAll` item sends its options as the API
      expects, and the `qs` it leaves is reachable again. */
  lemma GetAllSends(st: ExecState, p: Params, tz: string, fmt: (Value, string) -> string)
    requires Reachable("getAll", st)
    ensures var q := ListQuery(st.qs, p.options, p.returnAll, p.limit, tz, fmt);
      && ListOptionsSent(q, p.options, tz, fmt)
      && (!p.returnAll ==> Lookup(q, "perPage") == Num(p.limit))
      && Reachable("getAll", st.(qs := q))
  {
    var q := ListQuery(st.qs, p.options, p.returnAll, p.limit, tz, fmt);
    var merged := Assign(st.qs, p.options);
    PageSize(ExactMatchStep(SortStep(RewriteFold(merged, Keys(merged), tz, fmt))), p.returnAll, p.limit);
    ListQueryRewritten(st.qs, p.options, p.returnAll, p.limit, tz, fmt);
    if Distinct(p.options) && (forall j :: Has(p.options, j) ==> Plain(j)) {
      forall k | Has(p.options, k)
        ensures && (k in NotQuery && k != "exactMatch" && k != "additionalFlags" ==> Lookup(q, k) == Lookup(p.options, k))
                && (k !in NotQuery && k != "perPage" ==>
                      Lookup(q, Target(k)) == NewValue(p.options, k, tz, fmt) && !Has(q, k))
      {
        ListQuerySent(st.qs, p.options, p.returnAll, p.limit, tz, fmt, k);
      }
    }
  }

  /** From a reachable state, a successful step records exactly one call,
      shaped by the item, and reaches a reachable state. */
  lemma StepRecordsOneRequest(st: ExecState, operation: string, p: Params, response: Value,
      tz: string, fmt: (Value, string) -> string)
    requires operation in Operations && Reachable(operation, st)
    ensures var r := Step(st, "contact", operation, p, response, tz, fmt);
      r.Success? ==>
        && Appended(st.requests, r.value.requests)
        && Shaped(r.value.requests[|st.requests|], operation, p, tz, fmt)
        && Reachable(operation, r.value)
  {
    if operation == "getAll" {
      GetAllSends(st, p, tz, fmt);
      GetAllStep(st, p, response, tz, fmt);
    }
  }

  /** One pass of the item loop for a fixed resource and operation, as a value. */
  function StepOf(resource: string, operation: string, tz: string, fmt: (Value, string) -> string)
    : (step: (ExecState, Params, Value) -> Result<ExecState>)
    ensures forall s, p, v :: step(s, p, v) == Step(s, resource, operation, p, v, tz, fmt)
  {
    (s: ExecState, p: Params, v: Value) => Step(s, resource, operation, p, v, tz, fmt)
  }

  /** The item loop over any step function; `Steps` is this loop over `StepOf`. */
  function Fold(step: (ExecState, Params, Value) -> Result<ExecState>, st: ExecState,
                items: seq<Params>, responses: seq<Value>): Run
    requires |responses| == |items|
    decreases |items|
  {
    if items == [] then Completed(st.returnData, st.requests)
    else
      match step(st, items[0], responses[0])
      case Failure(e) => Failed(e, st.requests)
      case Success(st') => Fold(step, st', items[1..], responses[1..])
  }

  lemma {:induction false} StepsAreFold(st: ExecState, resource: string, operation: string,
      items: seq<Params>, responses: seq<Value>, tz: string, fmt: (Value, string) -> string)
    requires |responses| == |items|
    ensures Steps(st, resource, operation, items, responses, tz, fmt)
         == Fold(StepOf(resource, operation, tz, fmt), st, items, responses)
    decreases |items|
  {
    if items != [] {
      var r := Step(st, resource, operation, items[0], responses[0], tz, fmt);
      assert StepOf(resource, operation, tz, fmt)(st, items[0], responses[0]) == r;
      if r.Success? {
        StepsAreFold(r.value, resource, operation, items[1..], responses[1..], tz, fmt);
      }
    }
  }

  /** A step that, from a state satisfying `Inv`, records one call whose shape
      `P` judges and keeps `Inv`, step after step: the calls of a whole run
      line up with the items. */
  lemma {:induction false} FoldRecordsEach(step: (ExecState, Params, Value) -> Result<ExecState>,
      st: ExecState, items: seq<Params>, responses: seq<Value>, P: (Request, Params) -> bool,
      Inv: ExecState -> bool)
    requires |responses| == |items|
    requires Inv(st)
    requires forall s: ExecState, p: Params, resp: Value :: Inv(s) ==>
      var r := step(s, p, resp);
      r.Success? ==> Appended(s.requests, r.value.requests) && P(r.value.requests[|s.requests|], p) && Inv(r.value)
    ensures var run := Fold(step, st, items, responses);
      run.Completed? ==>
        && |run.requests| == |st.requests| + |items|
        && (forall i :: 0 <= i < |st.requests| ==> run.requests[i] == st.requests[i])
        && (forall j :: 0 <= j < |items| ==> P(run.requests[|st.requests| + j], items[j]))
    decreases |items|
  {
    var run := Fold(step, st, items, responses);
    if items != [] && run.Completed? {
      var st' := step(st, items[0], responses[0]).value;
      var n := |st.requests|;
      assert run == Fold(step, st', items[1..], responses[1..]);
      FoldRecordsEach(step, st', items[1..], responses[1..], P, Inv);
      PrefixThrough(st.requests, st'.requests, run.requests);
      assert run.requests[n] == st'.requests[n];
      ShiftEach(run.requests, n, |st'.requests|, items, P);
    }
  }

  lemma PrefixThrough(a: seq<Request>, b: seq<Request>, c: seq<Request>)
    requires |a| <= |b| <= |c|
    requires forall i :: 0 <= i < |a| ==> b[i] == a[i]
    requires forall i :: 0 <= i < |b| ==> c[i] == b[i]
    ensures forall i :: 0 <= i < |a| ==> c[i] == a[i]
  {
  }

  /** Re-indexing of the per-item judgements after the first item. */
  lemma ShiftEach(rs: seq<Request>, n: nat, m: nat, items: seq<Params>, P: (Request, Params) -> bool)
    requires m == n + 1 && items != [] && |rs| == n + |items|
    requires P(rs[n], items[0])
    requires forall k :: 0 <= k < |items[1..]| ==> P(rs[m + k], items[1..][k])
    ensures forall j :: 0 <= j < |items| ==> P(rs[n + j], items[j])
  {
    forall j | 0 < j < |items| ensures P(rs[n + j], items[j]) {
      var k := j - 1;
      assert items[j] == items[1..][k];
      assert n + j == m + k;
    }
  }

  /** `after` is `before` with one call added at the end. */
  predicate Appended(before: seq<Request>, after: seq<Request>) {
    |after| == |before| + 1 && forall i :: 0 <= i < |before| ==> after[i] == before[i]
  }

  /** `Shaped` for one operation, as a value `FoldRecordsEach` can take. */
  ghost function ShapeOf(operation: string, tz: string, fmt: (Value, string) -> string): (Request, Params) -> bool {
    (r: Request, p: Params) => Shaped(r, operation, p, tz, fmt)
  }

  /** `Reachable` for one operation, as a value `FoldRecordsEach` can take. */
  ghost function InvOf(operation: string): ExecState -> bool {
    (s: ExecState) => Reachable(operation, s)
  }

  /** From a reachable state, every successful step of a supported operation
      appends one shaped call and stays reachable. */
  lemma EveryStepShaped(operation: string, tz: string, fmt: (Value, string) -> string)
    requires operation in Operations
    ensures forall s: ExecState, p: Params, resp: Value :: InvOf(operation)(s) ==>
      var r := StepOf("contact", operation, tz, fmt)(s, p, resp);
      r.Success? ==>
        && Appended(s.requests, r.value.requests)
        && ShapeOf(operation, tz, fmt)(r.value.requests[|s.requests|], p)
        && InvOf(operation)(r.value)
  {
    forall s: ExecState, p: Params, resp: Value | InvOf(operation)(s)
      ensures var r := StepOf("contact", operation, tz, fmt)(s, p, resp);
        r.Success? ==>
          && Appended(s.requests, r.value.requests)
          && ShapeOf(operation, tz, fmt)(r.value.requests[|s.requests|], p)
          && InvOf(operation)(r.value)
    {
      StepRecordsOneRequest(s, operation, p, resp, tz, fmt);
    }
  }

  lemma ShapesFrom(rs: seq<Request>, operation: string, items: seq<Params>, tz: string, fmt: (Value, string) -> string)
    requires |rs| == |items|
    requires forall j :: 0 <= j < |items| ==> ShapeOf(operation, tz, fmt)(rs[j], items[j])
    ensures forall j :: 0 <= j < |items| ==> Shaped(rs[j], operation, items[j], tz, fmt)
  {
    forall j | 0 <= j < |items| ensures Shaped(rs[j], operation, items[j], tz, fmt) {
      assert ShapeOf(operation, tz, fmt)(rs[j], items[j]);
    }
  }

  lemma FoldShaped(step: (ExecState, Params, Value) -> Result<ExecState>, operation: string,
      items: seq<Params>, responses: seq<Value>, tz: string, fmt: (Value, string) -> string)
    requires |responses| == |items|
    requires forall s: ExecState, p: Params, resp: Value :: InvOf(operation)(s) ==>
      var r := step(s, p, resp);
      r.Success? ==>
        && Appended(s.requests, r.value.requests)
        && ShapeOf(operation, tz, fmt)(r.value.requests[|s.requests|], p)
        && InvOf(operation)(r.value)
    ensures var run := Fold(step, Initial, items, responses);
      run.Completed? ==>
        |run.requests| == |items| && forall j :: 0 <= j < |items| ==> Shaped(run.requests[j], operation, items[j], tz, fmt)
  {
    assert InvOf(operation)(Initial);
    FoldRecordsEach(step, Initial, items, responses, ShapeOf(operation, tz, fmt), InvOf(operation));
    var run := Fold(step, Initial, items, responses);
    if run.Completed? {
      assert |Initial.requests| == 0;
      ShapesFrom(run.requests, operation, items, tz, fmt);
    }
  }

  /** Each supported operation makes exactly one call per item, in item order,
      each shaped by its own item. */
  lemma OneRequestPerItem(operation: string, items: seq<Params>, responses: seq<Value>,
      tz: string, fmt: (Value, string) -> string)
    requires |responses| == |items|
    requires operation in Operations
    ensures var run := ExecuteSpec("contact", operation, items, responses, tz, fmt);
      run.Completed? ==>
        |run.requests| == |items| && forall j :: 0 <= j < |items| ==> Shaped(run.requests[j], operation, items[j], tz, fmt)
  {
    EveryStepShaped(operation, tz, fmt);
    FoldShaped(StepOf("contact", operation, tz, fmt), operation, items, responses, tz, fmt);
    StepsAreFold(Initial, "contact", operation, items, responses, tz, fmt);
  }

  /** `create` aborts exactly when the body of some item cannot be built. */
  lemma {:induction false} CreateStepsFail(st: ExecState, items: seq<Params>, responses: seq<Value>,
      tz: string, fmt: (Value, string) -> string)
    requires |responses| == |items|
    ensures Steps(st, "contact", "create", items, responses, tz, fmt).Failed? <==>
      exists j :: 0 <= j < |items| && CreateBody(items[j].email, items[j].campaignId, items[j].additionalFields).Failure?
    decreases |items|
  {
    if items != [] {
      var r := Step(st, "contact", "create", items[0], responses[0], tz, fmt);
      if r.Success? {
        CreateStepsFail(r.value, items[1..], responses[1..], tz, fmt);
        if exists j :: 0 <= j < |items| && CreateBody(items[j].email, items[j].campaignId, items[j].additionalFields).Failure? {
          var j :| 0 <= j < |items| && CreateBody(items[j].email, items[j].campaignId, items[j].additionalFields).Failure?;
          assert j != 0;
          assert items[1..][j - 1] == items[j];
        }
        if exists j :: 0 <= j < |items| - 1 && CreateBody(items[1..][j].email, items[1..][j].campaignId, items[1..][j].additionalFields).Failure? {
          var j :| 0 <= j < |items| - 1 && CreateBody(items[1..][j].email, items[1..][j].campaignId, items[1..][j].additionalFields).Failure?;
          assert items[1..][j] == items[j + 1];
        }
      }
    }
  }

  /** The first `getAll` item with no options and a limit of 10 sends `perPage=10` only. */
  lemma FirstPageQuery(tz: string, fmt: (Value, string) -> string)
    ensures ListQuery([], [], false, 10, tz, fmt) == [("perPage", Num(10))]
  {
    assert Keys([]) == [];
  }

  /** The rewrite loop turns the `perPage` the first item left into `query[perPage]`. */
  lemma PerPageRewritten(tz: string, fmt: (Value, string) -> string)
    ensures RewriteFold([("perPage", Num(10))], ["perPage"], tz, fmt) == [("query[perPage]", Num(10))]
  {
    var first := [("perPage", Num(10))];
    var rewritten := [("query[perPage]", Num(10))];
    assert "perPage" !in NotQuery && "perPage" !in DateKeys;
    assert Target("perPage") == "query[perPage]";
    assert Put(first, "query[perPage]", Num(10)) == first + rewritten;
    assert Remove(first + rewritten, "perPage") == rewritten by {
      assert (first + rewritten)[1..] == rewritten;
    }
    assert RewriteKey(first, "perPage", tz, fmt) == rewritten;
  }

  /** Run again on what the first item left, the rewrite loop turns `perPage` into a filter. */
  lemma SecondPageQuery(tz: string, fmt: (Value, string) -> string)
    ensures ListQuery([("perPage", Num(10))], [], false, 10, tz, fmt)
         == [("query[perPage]", Num(10)), ("perPage", Num(10))]
  {
    var first := [("perPage", Num(10))];
    var rewritten := [("query[perPage]", Num(10))];
    assert Assign(first, []) == first;
    KeysCons(first[0], []);
    KeysCons(rewritten[0], []);
    PerPageRewritten(tz, fmt);
    PlainTail(rewritten, false, 10);
  }

  /** The rewrite loop on what a first item filtering by `name` left behind,
      with `name` asked for again: each key in turn moves to the end under its
      `query[...]` form. */
  lemma FilterRewrappedLoop(v: Value, tz: string, fmt: (Value, string) -> string)
    ensures var merged := [("query[name]", v), ("perPage", Num(10)), ("name", v)];
      RewriteFold(merged, ["query[name]", "perPage", "name"], tz, fmt)
        == [("query[query[name]]", v), ("query[perPage]", Num(10)), ("query[name]", v)]
  {
    var qq, qp, qn := ("query[query[name]]", v), ("query[perPage]", Num(10)), ("query[name]", v);
    var pp, nm := ("perPage", Num(10)), ("name", v);
    FilterFirstPass(v, tz, fmt);
    FilterSecondPass(v, tz, fmt);
    FilterThirdPass(v, tz, fmt);
    FoldFront([qn, pp, nm], "query[name]", ["perPage", "name"], tz, fmt);
    FoldFront([pp, nm, qq], "perPage", ["name"], tz, fmt);
    FoldFront([nm, qq, qp], "name", [], tz, fmt);
  }

  lemma FoldFront(q: Fields, k: string, ks: seq<string>, tz: string, fmt: (Value, string) -> string)
    ensures RewriteFold(q, [k] + ks, tz, fmt) == RewriteFold(RewriteKey(q, k, tz, fmt), ks, tz, fmt)
  {
    assert ([k] + ks)[1..] == ks;
  }

  lemma FilterFirstPass(v: Value, tz: string, fmt: (Value, string) -> string)
    ensures RewriteKey([("query[name]", v), ("perPage", Num(10)), ("name", v)], "query[name]", tz, fmt)
         == [("perPage", Num(10)), ("name", v), ("query[query[name]]", v)]
  {
    var rest := [("perPage", Num(10)), ("name", v)];
    assert Keys(rest) == ["perPage", "name"];
    assert Target("query[name]") == "query[query[name]]";
    RewriteFront("query[name]", v, rest, tz, fmt);
    assert [("query[name]", v)] + rest == [("query[name]", v), ("perPage", Num(10)), ("name", v)];
  }

  lemma FilterSecondPass(v: Value, tz: string, fmt: (Value, string) -> string)
    ensures RewriteKey([("perPage", Num(10)), ("name", v), ("query[query[name]]", v)], "perPage", tz, fmt)
         == [("name", v), ("query[query[name]]", v), ("query[perPage]", Num(10))]
  {
    var rest := [("name", v), ("query[query[name]]", v)];
    assert Keys(rest) == ["name", "query[query[name]]"];
    assert Target("perPage") == "query[perPage]";
    RewriteFront("perPage", Num(10), rest, tz, fmt);
    assert [("perPage", Num(10))] + rest == [("perPage", Num(10)), ("name", v), ("query[query[name]]", v)];
  }

  lemma FilterThirdPass(v: Value, tz: string, fmt: (Value, string) -> string)
    ensures RewriteKey([("name", v), ("query[query[name]]", v), ("query[perPage]", Num(10))], "name", tz, fmt)
         == [("query[query[name]]", v), ("query[perPage]", Num(10)), ("query[name]", v)]
  {
    var rest := [("query[query[name]]", v), ("query[perPage]", Num(10))];
    assert Keys(rest) == ["query[query[name]]", "query[perPage]"];
    assert Target("name") == "query[name]";
    RewriteFront("name", v, rest, tz, fmt);
    assert [("name", v)] + rest == [("name", v), ("query[query[name]]", v), ("query[perPage]", Num(10))];
  }

  /** The option `name` is new to what the first item left, so it goes last. */
  lemma FilterMerged(v: Value)
    ensures var merged := Assign([("query[name]", v), ("perPage", Num(10))], [("name", v)]);
      && merged == [("query[name]", v), ("perPage", Num(10)), ("name", v)]
      && Keys(merged) == ["query[name]", "perPage", "name"]
  {
    var left := [("query[name]", v), ("perPage", Num(10))];
    assert Keys(left) == ["query[name]", "perPage"];
    PutNew(left, "name", v);
    assert left + [("name", v)] == [("query[name]", v), ("perPage", Num(10)), ("name", v)];
  }

  /** No sort, no flag; the page size goes last. */
  lemma FilterTail(v: Value)
    ensures var rewritten := [("query[query[name]]", v), ("query[perPage]", Num(10)), ("query[name]", v)];
      PageSizeStep(ExactMatchStep(SortStep(rewritten)), false, 10) == rewritten + [("perPage", Num(10))]
  {
    var a, b, c := ("query[query[name]]", v), ("query[perPage]", Num(10)), ("query[name]", v);
    KeysCons(c, []);
    assert [c] == [c] + [];
    KeysCons(b, [c]);
    KeysCons(a, [b, c]);
    assert [a] + ([b] + [c]) == [a, b, c];
    PlainTail([a, b, c], false, 10);
  }

  /** `qs` is never cleared, so a second `getAll` item filtering by `name`
      sends the filter the first item left once more, as `query[query[name]]`,
      and the first item's page size as the filter `query[perPage]`, beside
      its own `query[name]` and `perPage`. */
  lemma EarlierFilterRewrapped(v: Value, tz: string, fmt: (Value, string) -> string)
    ensures ListQuery([("query[name]", v), ("perPage", Num(10))], [("name", v)], false, 10, tz, fmt)
         == [("query[query[name]]", v), ("query[perPage]", Num(10)), ("query[name]", v), ("perPage", Num(10))]
  {
    FilterMerged(v);
    FilterRewrappedLoop(v, tz, fmt);
    FilterTail(v);
  }

  /** A `getAll` step sends the query `ListQuery` builds from the shared `qs`
      and leaves that query behind as the new `qs`. */
  lemma GetAllStep(st: ExecState, p: Params, response: Value, tz: string, fmt: (Value, string) -> string)
    ensures var q := ListQuery(st.qs, p.options, p.returnAll, p.limit, tz, fmt);
      var r := Step(st, "contact", "getAll", p, response, tz, fmt);
      && r.Success?
      && r.value.qs == q
      && r.value.requests == st.requests + [Request(GET, "/contacts", [], q, p.returnAll)]
  {
  }

  /** `qs` is created once and never cleared: a second `getAll` item rewrites
      the `perPage` the first one left behind into a filter `query[perPage]`. */
  lemma QueryIsNeverReset(tz: string, fmt: (Value, string) -> string)
    ensures var p := Params("", "", [], "", [], false, 10, []);
      var run := ExecuteSpec("contact", "getAll", [p, p], [Arr([]), Arr([])], tz, fmt);
      && run.Completed?
      && |run.requests| == 2
      && run.requests[0].query == [("perPage", Num(10))]
      && run.requests[1].query == [("query[perPage]", Num(10)), ("perPage", Num(10))]
  {
    var p := Params("", "", [], "", [], false, 10, []);
    var q1 := [("perPage", Num(10))];
    var q2 := [("query[perPage]", Num(10)), ("perPage", Num(10))];
    FirstPageQuery(tz, fmt);
    SecondPageQuery(tz, fmt);
    GetAllStep(Initial, p, Arr([]), tz, fmt);
    var s1 := Step(Initial, "contact", "getAll", p, Arr([]), tz, fmt).value;
    assert s1.qs == q1;
    GetAllStep(s1, p, Arr([]), tz, fmt);
    var s2 := Step(s1, "contact", "getAll", p, Arr([]), tz, fmt).value;
    assert s2.requests == [Request(GET, "/contacts", [], q1, false), Request(GET, "/contacts", [], q2, false)];
    assert [p, p][1..] == [p] && [Arr([]), Arr([])][1..] == [Arr([])];
    assert ExecuteSpec("contact", "getAll", [p, p], [Arr([]), Arr([])], tz, fmt)
        == Steps(s1, "contact", "getAll", [p], [Arr([])], tz, fmt);
    assert Steps(s1, "contact", "getAll", [p], [Arr([])], tz, fmt)
        == Steps(s2, "contact", "getAll", [], [], tz, fmt);
  }
}
