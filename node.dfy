/** `GetResponse.execute` (GetResponse.node.ts, lines 163-319): one execution
    of the node over its input items. The API is not called; each call is
    recorded as a request descriptor and its response is supplied by the
    caller, one per item. */
module GetResponseNode {
  import opened Json
  import opened ContactBody
  import opened ContactQuery

  datatype Verb = GET | POST | DELETE

  /** One outbound call: `allItems` tells a call of the all-items helper from a
      call of the single-request helper. */
  datatype Request = Request(verb: Verb, path: string, body: Fields, query: Fields, allItems: bool)

  /** The node parameters of one item, as `getNodeParameter(name, i)` returns them. */
  datatype Params = Params(
    email: string,
    campaignId: string,
    additionalFields: Fields,
    contactId: string,
    options: Fields,
    returnAll: bool,
    limit: int,
    updateFields: Fields)

  /** `{ success: true }`, what `create` and `delete` report. */
  const SuccessMarker: Value := Obj([("success", Bool(true))])

  const Operations: seq<string> := ["create", "delete", "get", "getAll", "update"]

  /** The variables of `execute` that outlive one item. */
  datatype ExecState = ExecState(qs: Fields, returnData: seq<Value>, responseData: Value, requests: seq<Request>)

  const Initial: ExecState := ExecState([], [], Undefined, [])

  /** What one response adds to `returnData` (lines 311-316). */
  function Emitted(response: Value): (out: seq<Value>)
    ensures response.Arr? ==> out == response.elems
    ensures response.Undefined? ==> out == []
    ensures !response.Arr? && !response.Undefined? ==> out == [response]
  {
    match response
    case Arr(es) => es
    case Undefined => []
    case _ => [response]
  }

  function ContactPath(id: string): string {
    "/contacts/" + id
  }

  /** The branch for the item (lines 173-310): the new state before the response is emitted. */
  function Operate(st: ExecState, resource: string, operation: string, p: Params, response: Value,
                   tz: string, fmt: (Value, string) -> string): Result<ExecState> {
    if resource != "contact" then Success(st)
    else if operation == "create" then
      match CreateBody(p.email, p.campaignId, p.additionalFields)
      case Failure(e) => Failure(e)
      case Success(body) =>
        Success(st.(requests := st.requests + [Request(POST, "/contacts", body, [], false)],
                    responseData := SuccessMarker))
    else if operation == "delete" then
      var q := Assign(st.qs, p.options);
      Success(st.(qs := q, requests := st.requests + [Request(DELETE, ContactPath(p.contactId), [], q, false)],
                  responseData := SuccessMarker))
    else if operation == "get" then
      var q := Assign(st.qs, p.options);
      Success(st.(qs := q, requests := st.requests + [Request(GET, ContactPath(p.contactId), [], q, false)],
                  responseData := response))
    else if operation == "getAll" then
      var q := ListQuery(st.qs, p.options, p.returnAll, p.limit, tz, fmt);
      Success(st.(qs := q, requests := st.requests + [Request(GET, "/contacts", [], q, p.returnAll)],
                  responseData := response))
    else if operation == "update" then
      Success(st.(requests := st.requests + [Request(POST, ContactPath(p.contactId), UpdateBody(p.updateFields), [], false)],
                  responseData := response))
    else Success(st)
  }

  /** One pass of the item loop. */
  function Step(st: ExecState, resource: string, operation: string, p: Params, response: Value,
                tz: string, fmt: (Value, string) -> string): Result<ExecState> {
    match Operate(st, resource, operation, p, response, tz, fmt)
    case Failure(e) => Failure(e)
    case Success(s) => Success(s.(returnData := s.returnData + Emitted(s.responseData)))
  }

  /** The end of an execution: the output items and the calls made, or the
      error that aborted it and the calls made before it. */
  datatype Run = Completed(output: seq<Value>, requests: seq<Request>) | Failed(error: Error, requests: seq<Request>)

  function Steps(st: ExecState, resource: string, operation: string, items: seq<Params>, responses: seq<Value>,
                 tz: string, fmt: (Value, string) -> string): Run
    requires |responses| == |items|
    decreases |items|
  {
    if items == [] then Completed(st.returnData, st.requests)
    else
      match Step(st, resource, operation, items[0], responses[0], tz, fmt)
      case Failure(e) => Failed(e, st.requests)
      case Success(st') => Steps(st', resource, operation, items[1..], responses[1..], tz, fmt)
  }

  /** The whole execution, from empty `qs` and `returnData`. */
  function ExecuteSpec(resource: string, operation: string, items: seq<Params>, responses: seq<Value>,
                       tz: string, fmt: (Value, string) -> string): Run
    requires |responses| == |items|
  {
    Steps(Initial, resource, operation, items, responses, tz, fmt)
  }

  /** The loop of lines 195-199, in place on the custom-field array. */
  method WrapCustomFieldValues(a: array<Value>) returns (ok: bool)
    modifies a
    ensures ok == AllWrappable(old(a[..]))
    ensures ok ==> a[..] == WrapAll(old(a[..]))
  {
    var i := 0;
    while i < a.Length
      invariant 0 <= i <= a.Length
      invariant forall k :: 0 <= k < i ==> Wrappable(old(a[k])) && a[k] == WrapEntry(old(a[k]))
      invariant forall k :: i <= k < a.Length ==> a[k] == old(a[k])
    {
      if !Wrappable(a[i]) {
        return false;
      }
      a[i] := WrapEntry(a[i]);
      i := i + 1;
    }
    return true;
  }

  /** Lines 176-202: the body of `create`, built step by step, with the
      custom-field loop run in place on the array. */
  method BuildCreateBody(email: string, campaignId: string, additionalFields: Fields)
    returns (r: Result<Fields>)
    ensures r == CreateBody(email, campaignId, additionalFields)
  {
    var body := CreateSeed(email, campaignId);
    body := Assign(body, additionalFields);
    ghost var merged := body;
    if Truthy(Lookup(additionalFields, UiKey)) {
      var cfv := CustomFieldValues(additionalFields);
      if Truthy(cfv) {
        body := Put(body, ValuesKey, cfv);
        match cfv {
          case Arr(es) =>
            var a := new Value[|es|](i requires 0 <= i < |es| => es[i]);
            assert a[..] == es;
            var written := WrapCustomFieldValues(a);
            if !written {
              return Failure(TypeError);
            }
            // body.customFieldValues is the array the loop rewrote
            PutTwice(merged, ValuesKey, cfv, Arr(a[..]));
            body := Put(body, ValuesKey, Arr(a[..]));
            assert body == Put(merged, ValuesKey, Arr(WrapAll(es)));
          case Str(s) =>
            if s != "" {
              return Failure(TypeError);
            }
          case _ =>
        }
        body := Remove(body, UiKey);
      }
    }
    return Success(body);
  }

  /** The state of one execution: the shared query object, the output, the
      last response and the calls recorded so far. */
  class Execution {
    const resource: string
    const operation: string
    var qs: Fields
    var returnData: seq<Value>
    var responseData: Value
    var requests: seq<Request>

    ghost function Current(): ExecState
      reads this
    {
      ExecState(qs, returnData, responseData, requests)
    }

    /** `qs` is a JavaScript object: no key twice. */
    ghost predicate Valid()
      reads this
    {
      Distinct(qs)
    }

    /** Lines 164-170: resource and operation are read once, from item 0. */
    constructor (resource: string, operation: string)
      ensures this.resource == resource && this.operation == operation
      ensures Valid() && Current() == Initial
    {
      this.resource := resource;
      this.operation := operation;
      qs := [];
      returnData := [];
      responseData := Undefined;
      requests := [];
    }

    /** Lines 176-206. */
    method Create(p: Params) returns (ok: bool)
      requires Valid()
      modifies this
      ensures Valid()
      ensures var body := CreateBody(p.email, p.campaignId, p.additionalFields);
        && ok == body.Success?
        && (ok ==> requests == old(requests) + [Request(POST, "/contacts", body.value, [], false)]
                   && responseData == SuccessMarker)
        && (!ok ==> requests == old(requests) && responseData == old(responseData))
      ensures qs == old(qs) && returnData == old(returnData)
    {
      var body := BuildCreateBody(p.email, p.campaignId, p.additionalFields);
      if body.Failure? {
        return false;
      }
      requests := requests + [Request(POST, "/contacts", body.value, [], false)];
      responseData := SuccessMarker;
      ok := true;
    }

    /** Lines 210-218: the options are merged into the shared `qs`. */
    method Delete(p: Params)
      requires Valid()
      modifies this
      ensures Valid()
      ensures qs == Assign(old(qs), p.options)
      ensures requests == old(requests) + [Request(DELETE, ContactPath(p.contactId), [], qs, false)]
      ensures responseData == SuccessMarker && returnData == old(returnData)
    {
      qs := Assign(qs, p.options);
      requests := requests + [Request(DELETE, ContactPath(p.contactId), [], qs, false)];
      responseData := SuccessMarker;
    }

    /** Lines 222-228. */
    method Get(p: Params, response: Value)
      requires Valid()
      modifies this
      ensures Valid()
      ensures qs == Assign(old(qs), p.options)
      ensures requests == old(requests) + [Request(GET, ContactPath(p.contactId), [], qs, false)]
      ensures responseData == response && returnData == old(returnData)
    {
      qs := Assign(qs, p.options);
      requests := requests + [Request(GET, ContactPath(p.contactId), [], qs, false)];
      responseData := response;
    }

    /** Lines 262-271: the loop over a snapshot of the keys of `qs`. */
    method RewriteQueryKeys(tz: string, fmt: (Value, string) -> string)
      requires Valid()
      modifies this
      ensures Valid()
      ensures qs == RewriteFold(old(qs), Keys(old(qs)), tz, fmt)
      ensures returnData == old(returnData) && responseData == old(responseData) && requests == old(requests)
    {
      // the keys still to visit of the snapshot `Object.keys(qs)`
      var rest := Keys(qs);
      while rest != []
        invariant Valid()
        invariant RewriteFold(qs, rest, tz, fmt) == RewriteFold(old(qs), Keys(old(qs)), tz, fmt)
        invariant returnData == old(returnData) && responseData == old(responseData) && requests == old(requests)
        decreases |rest|
      {
        RewriteQueryKey(rest[0], tz, fmt);
        rest := rest[1..];
      }
    }

    /** One pass of that loop: an option outside the allowlist moves to its
        `query[...]` key, a date formatted on the way. */
    method RewriteQueryKey(key: string, tz: string, fmt: (Value, string) -> string)
      requires Valid()
      modifies this
      ensures Valid()
      ensures qs == RewriteKey(old(qs), key, tz, fmt)
      ensures returnData == old(returnData) && responseData == old(responseData) && requests == old(requests)
    {
      if key !in NotQuery {
        if key in DateKeys {
          qs := Put(qs, "query" + DateMapToKey[key], Str(fmt(Lookup(qs, key), tz)));
        } else {
          qs := Put(qs, "query[" + key + "]", Lookup(qs, key));
        }
        qs := Remove(qs, key);
      }
    }

    /** Lines 273-280: the sort entry and the `exactMatch` flag. */
    method DeriveSortAndFlags()
      requires Valid()
      modifies this
      ensures Valid()
      ensures qs == ExactMatchStep(SortStep(old(qs)))
      ensures returnData == old(returnData) && responseData == old(responseData) && requests == old(requests)
    {
      if Truthy(Lookup(qs, "sortBy")) {
        qs := Put(qs, SortKey(Lookup(qs, "sortBy")), SortDirection(Lookup(qs, "sortOrder")));
      }
      if Lookup(qs, "exactMatch") == Bool(true) {
        qs := Put(qs, "additionalFlags", Str("exactMatch"));
        qs := Remove(qs, "exactMatch");
      }
    }

    /** Lines 232-287. */
    method GetAll(p: Params, response: Value, tz: string, fmt: (Value, string) -> string)
      requires Valid()
      modifies this
      ensures Valid()
      ensures qs == ListQuery(old(qs), p.options, p.returnAll, p.limit, tz, fmt)
      ensures requests == old(requests) + [Request(GET, "/contacts", [], qs, p.returnAll)]
      ensures responseData == response && returnData == old(returnData)
    {
      qs := Assign(qs, p.options);
      RewriteQueryKeys(tz, fmt);
      DeriveSortAndFlags();
      if p.returnAll {
        requests := requests + [Request(GET, "/contacts", [], qs, true)];
      } else {
        qs := Put(qs, "perPage", Num(p.limit));
        requests := requests + [Request(GET, "/contacts", [], qs, false)];
      }
      responseData := response;
    }

    /** Lines 292-308. */
    method Update(p: Params, response: Value)
      requires Valid()
      modifies this
      ensures Valid()
      ensures requests == old(requests) + [Request(POST, ContactPath(p.contactId), UpdateBody(p.updateFields), [], false)]
      ensures responseData == response && qs == old(qs) && returnData == old(returnData)
    {
      var body: Fields := [];
      body := Assign(body, p.updateFields);
      if Truthy(Lookup(p.updateFields, UiKey)) {
        var cfv := CustomFieldValues(p.updateFields);
        if Truthy(cfv) {
          body := Put(body, ValuesKey, cfv);
          body := Remove(body, UiKey);
        }
      }
      requests := requests + [Request(POST, ContactPath(p.contactId), body, [], false)];
      responseData := response;
    }

    /** Lines 311-316. */
    method EmitResponse()
      modifies this
      ensures returnData == old(returnData) + Emitted(responseData)
      ensures qs == old(qs) && responseData == old(responseData) && requests == old(requests)
    {
      if responseData.Arr? {
        returnData := returnData + responseData.elems;
      } else if responseData != Undefined {
        returnData := returnData + [responseData];
      }
    }

    /** One pass of the item loop (lines 172-316); `false` when it threw. */
    method RunItem(p: Params, response: Value, tz: string, fmt: (Value, string) -> string) returns (ok: bool)
      requires Valid()
      modifies this
      ensures Valid()
      ensures var r := Step(old(Current()), resource, operation, p, response, tz, fmt);
        ok == r.Success? && (ok ==> Current() == r.value) && (!ok ==> requests == old(requests))
    {
      ok := true;
      if resource == "contact" {
        if operation == "create" {
          ok := Create(p);
          if !ok {
            return;
          }
        } else if operation == "delete" {
          Delete(p);
        } else if operation == "get" {
          Get(p, response);
        } else if operation == "getAll" {
          GetAll(p, response, tz, fmt);
        } else if operation == "update" {
          Update(p, response);
        }
      }
      EmitResponse();
    }
  }

  /** The whole of `execute`: the items one after another on one `Execution`. */
  method Execute(resource: string, operation: string, items: seq<Params>, responses: seq<Value>,
                 tz: string, fmt: (Value, string) -> string) returns (run: Run)
    requires |responses| == |items|
    ensures run == ExecuteSpec(resource, operation, items, responses, tz, fmt)
  {
    var ex := new Execution(resource, operation);
    var i := 0;
    while i < |items|
      invariant 0 <= i <= |items|
      invariant ex.resource == resource && ex.operation == operation && ex.Valid()
      invariant Steps(ex.Current(), resource, operation, items[i..], responses[i..], tz, fmt)
             == ExecuteSpec(resource, operation, items, responses, tz, fmt)
    {
      assert items[i..][1..] == items[i + 1..] && responses[i..][1..] == responses[i + 1..];
      var ok := ex.RunItem(items[i], responses[i], tz, fmt);
      if !ok {
        return Failed(TypeError, ex.requests);
      }
      i := i + 1;
    }
    return Completed(ex.returnData, ex.requests);
  }
}
