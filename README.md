# GetResponse node: a Dafny model of `execute` and the option loaders

This project models the core of the n8n GetResponse node
(`packages/nodes-base/nodes/GetResponse/GetResponse.node.ts`). It covers two parts.

- **`execute`.** The node runs over its input items. For the `contact` resource it handles the
  operations `create`, `delete`, `get`, `getAll` and `update`:
  - it builds the request body or query for each item;
  - it records exactly one API call per item;
  - it appends each response to the output. An array response is spliced in, `undefined` is
    dropped, and `create`/`delete` report `{ success: true }`.
- **The editor's option loaders.** `getCampaigns`, `getTags` and `getCustomFields` each make one
  GET call and turn every entry of the answer into a `{ name, value }` option.

The modules:

- `Json` (`json.dfy`) holds JavaScript values. Objects are association lists in insertion order,
  because `Object.keys` hands out keys in that order. The module also has the object operations
  the node uses: read, write, `delete` and `Object.assign`.
- `ContactBody` (`body.dfy`) builds the request bodies of `create` and `update`. This includes the
  renaming of `customFieldsUi` to `customFieldValues`, and the wrapping of scalar custom-field
  values into one-element arrays, which only `create` does.
- `ContactQuery` (`query.dfy`) builds the `getAll` query, step by step:
  - the options are merged into the shared `qs`;
  - the rewrite loop moves every key outside the allowlist to its `query[...]` key, and formats
    dates;
  - the sort entry is added and `exactMatch` is turned into a flag;
  - the page size is set.
- `GetResponseNode` (`node.dfy`):
  - `Execution` is a class with the mutable state of one run: `qs`, `returnData`, `responseData`
    and the calls made. Its methods are proved against the pure functions `Step` and `Steps`.
  - `Execute` runs the item loop and is proved to compute `ExecuteSpec`.
  - The custom-field loop runs in place on an `array`.
- `ExecutionProperties` (`properties.dfy`) states what whole runs do:
  - silent unsupported operations;
  - success markers;
  - the output rule;
  - one well-formed call per item;
  - when `create` aborts;
  - `qs` never being reset between items.
- `LoadOptions` (`load_options.dfy`) holds the three option loaders.

The API is never called. Each call is recorded as a `Request` value, and the response to each
item's call is an input of the model. An exception aborts the whole run. Such a run ends as
`Failed` and keeps the calls made before it.

Lines 273-275 add `sort[<sortBy>]` but never delete `sortBy` or `sortOrder`, so all three are
sent (`ContactQuery.SortByEmailDescending`).

Two other behaviours of the code are kept as written:

- `create` wraps custom-field values and `update` does not.
- `qs` is created once per execution and shared by all items, and the rewrite loop runs over
  every key of it. So later `getAll` items send the earlier items' keys again:
  - the first item's `perPage` comes back as the filter `query[perPage]`
    (`ExecutionProperties.QueryIsNeverReset`);
  - an earlier filter `query[name]` is rewrapped and sent as `query[query[name]]`
    (`ExecutionProperties.EarlierFilterRewrapped`).

## Model

| member | source | states |
|---|---|---|
| Json.Keys | packages/nodes-base/nodes/GetResponse/GetResponse.node.ts:262 | `Object.keys`: one name per property, in insertion order |
| Json.Truthy | packages/nodes-base/nodes/GetResponse/GetResponse.node.ts:191-193 | JavaScript truthiness, which the guards at lines 191, 193, 273 and 274 test: `undefined`, `null`, `false`, `0` and `""` are falsy |
| Json.JsString | packages/nodes-base/nodes/GetResponse/GetResponse.node.ts:274 | `String(v)` as a template literal writes it: decimal numbers, `undefined`, `null`, `[object Object]`, arrays joined by commas |
| Json.Field | packages/nodes-base/nodes/GetResponse/GetResponse.node.ts:192-196 | a property read `v.k` on a value that is not null or undefined: an object gives its property, any other value gives `undefined`; this is how `.customFieldValues` and an entry's `.value` are read |
| Json.Lookup | packages/nodes-base/nodes/GetResponse/GetResponse.node.ts:191-192 | reading a property an object does not have gives `undefined` |
| Json.Put | packages/nodes-base/nodes/GetResponse/GetResponse.node.ts:194 | after a property write, the key reads back the new value and every other key reads as before; an existing key keeps its place and a new key goes last; no key appears twice |
| Json.PutTwice | packages/nodes-base/nodes/GetResponse/GetResponse.node.ts:194-199 | writing a property twice is the same as writing only the second value, so the body sees the array the loop rewrote |
| Json.Remove | packages/nodes-base/nodes/GetResponse/GetResponse.node.ts:200 | after `delete`, the key is absent and reads `undefined`; every other key keeps its presence and value |
| Json.Assign | packages/nodes-base/nodes/GetResponse/GetResponse.node.ts:189 | after `Object.assign`, the target holds the keys of both objects; a source key reads the source value; any other key reads the old target value |
| Json.PutNew | packages/nodes-base/nodes/GetResponse/GetResponse.node.ts:194 | writing a property the object lacks appends it last |
| Json.RemoveAbsent | packages/nodes-base/nodes/GetResponse/GetResponse.node.ts:200 | deleting a property the object lacks changes nothing |
| Json.AssignExtends | packages/nodes-base/nodes/GetResponse/GetResponse.node.ts:189 | `Object.assign` keeps the target's keys in their places and adds only source keys after them |
| Json.DistinctApart | packages/nodes-base/nodes/GetResponse/GetResponse.node.ts:262 | two positions of an object hold two different property names |
| ContactBody.CreateSeed | packages/nodes-base/nodes/GetResponse/GetResponse.node.ts:182-187 | the body `create` starts from: `{ email, campaign: { campaignId } }` |
| ContactBody.CustomFieldValues | packages/nodes-base/nodes/GetResponse/GetResponse.node.ts:192 | `customFieldsUi.customFieldValues`, read once `customFieldsUi` is truthy; `update` reads it the same way at line 301 |
| ContactBody.RenamesCustomFields | packages/nodes-base/nodes/GetResponse/GetResponse.node.ts:191-193 | both guards before the renaming hold: `customFieldsUi` and its `customFieldValues` are truthy; `update` tests the same pair at lines 300 and 302. This is the "renamed" in the rows below |
| ContactBody.Wrappable | packages/nodes-base/nodes/GetResponse/GetResponse.node.ts:195-199 | an entry the wrapping statement can run on without a TypeError: an object or an array (strict mode) |
| ContactBody.WrapAll | packages/nodes-base/nodes/GetResponse/GetResponse.node.ts:195-199 | the array the loop leaves: the same number of entries, each one `WrapEntry` of the entry at that position |
| ContactBody.WrapCollection | packages/nodes-base/nodes/GetResponse/GetResponse.node.ts:195-199 | the `for` loop over `customFieldValues`: an array is wrapped entry by entry and fails on an unwritable entry; a non-empty string fails; anything else has no `length` and is kept |
| ContactBody.CreateBody | packages/nodes-base/nodes/GetResponse/GetResponse.node.ts:182-202 | the `create` body: the seed `{ email, campaign }` overwritten by the additional fields, with `customFieldsUi` renamed and wrapped when it has values |
| ContactBody.UpdateBody | packages/nodes-base/nodes/GetResponse/GetResponse.node.ts:296-306 | the `update` body: the update fields, with `customFieldsUi` renamed to unwrapped `customFieldValues` when it has values |
| ContactBody.WrapEntry | packages/nodes-base/nodes/GetResponse/GetResponse.node.ts:196-197 | a custom-field object ends with an array `value`: a scalar `v` becomes `[v]` and an array is kept; no other property changes; a non-object entry is unchanged |
| ContactBody.WrapEntryIdempotent | packages/nodes-base/nodes/GetResponse/GetResponse.node.ts:195-198 | wrapping an entry a second time changes nothing |
| ContactBody.CreateFailsOnlyOnUnwritableEntry | packages/nodes-base/nodes/GetResponse/GetResponse.node.ts:191-199 | building the `create` body throws if and only if the custom fields are renamed and either the array holds an entry that is not an object or array, or the values are a non-empty string |
| ContactBody.CreateWrapsCustomFields | packages/nodes-base/nodes/GetResponse/GetResponse.node.ts:182-202 | with an array of writable custom-field entries, the `create` body has no `customFieldsUi`; its `customFieldValues` is the wrapped array, entry by entry; every other key is the additional field if given, else the seed `{ email, campaign }` |
| ContactBody.CreateKeepsUiWithoutValues | packages/nodes-base/nodes/GetResponse/GetResponse.node.ts:189-193 | without custom-field values, `create` succeeds; its body is the seed overwritten by the additional fields, with `customFieldsUi` kept |
| ContactBody.UpdatePassesThrough | packages/nodes-base/nodes/GetResponse/GetResponse.node.ts:296-306 | the `update` body is the update fields, except that a renamed `customFieldsUi` is replaced by its unwrapped `customFieldValues`; both directions of key presence are stated |
| ContactBody.WrapScalarEntry | packages/nodes-base/nodes/GetResponse/GetResponse.node.ts:196-197 | an entry `{ customFieldId, value: v }` with a scalar `v` becomes `{ customFieldId, value: [v] }` |
| ContactBody.CreateWrapsScalar | packages/nodes-base/nodes/GetResponse/GetResponse.node.ts:191-201 | `create` sends that entry with `value: [v]` |
| ContactBody.UpdateKeepsScalar | packages/nodes-base/nodes/GetResponse/GetResponse.node.ts:300-305 | `update` sends that entry with `value: v` |
| ContactBody.CreateWrapsWhereUpdateDoesNot | packages/nodes-base/nodes/GetResponse/GetResponse.node.ts:191-305 | for the same scalar custom field, `create` sends `[v]` and `update` sends `v` |
| ContactQuery.NewValue | packages/nodes-base/nodes/GetResponse/GetResponse.node.ts:264-267 | the value a rewritten key carries: a date range key's value formatted by `fmt` in the time zone, any other value as is |
| ContactQuery.RewriteKey | packages/nodes-base/nodes/GetResponse/GetResponse.node.ts:263-270 | one pass of the loop: an allowlisted key is kept; any other key moves to its `query[...]` key, and is deleted |
| ContactQuery.Target | packages/nodes-base/nodes/GetResponse/GetResponse.node.ts:264-268 | a rewritten key always starts with `query[` |
| ContactQuery.RewriteFold | packages/nodes-base/nodes/GetResponse/GetResponse.node.ts:262-271 | the rewrite loop keeps `qs` free of repeated keys |
| ContactQuery.SortKey | packages/nodes-base/nodes/GetResponse/GetResponse.node.ts:274 | the sort key always starts with `sort[` |
| ContactQuery.SortDirection | packages/nodes-base/nodes/GetResponse/GetResponse.node.ts:274 | the direction is always truthy: it is `sortOrder` when that is truthy |
| ContactQuery.TargetNotPlain | packages/nodes-base/nodes/GetResponse/GetResponse.node.ts:264-268 | a rewritten key always carries a bracket |
| ContactQuery.TargetNotAllowlisted | packages/nodes-base/nodes/GetResponse/GetResponse.node.ts:240-268 | a rewritten key is never one of the allowlisted keys |
| ContactQuery.TargetInjective | packages/nodes-base/nodes/GetResponse/GetResponse.node.ts:255-268 | two different bracket-free keys never rewrite to the same key, date keys included |
| ContactQuery.PlainTargetIsNotDate | packages/nodes-base/nodes/GetResponse/GetResponse.node.ts:255-268 | `query[k]` for a bracket-free non-date `k` differs from every date range key |
| ContactQuery.RewriteUntouched | packages/nodes-base/nodes/GetResponse/GetResponse.node.ts:262-271 | a key that no pass deletes or writes keeps its presence and value through the loop |
| ContactQuery.RewriteKeepsAllowlisted | packages/nodes-base/nodes/GetResponse/GetResponse.node.ts:263 | the allowlisted keys leave the loop exactly as they entered |
| ContactQuery.RewriteRemoves | packages/nodes-base/nodes/GetResponse/GetResponse.node.ts:269 | every bracket-free key in the snapshot outside the allowlist is gone after the loop |
| ContactQuery.RewriteAbsentStaysAbsent | packages/nodes-base/nodes/GetResponse/GetResponse.node.ts:262-271 | the loop never adds a bracket-free key outside the allowlist |
| ContactQuery.RewriteOrigin | packages/nodes-base/nodes/GetResponse/GetResponse.node.ts:262-271 | a key present after the loop was there before and was either allowlisted or outside the snapshot, or it is the target of a rewritten key |
| ContactQuery.RewriteFront | packages/nodes-base/nodes/GetResponse/GetResponse.node.ts:263-270 | a pass over a non-date key at the front of `qs`, whose target is absent, moves it to the end under `query[k]` |
| ContactQuery.RewriteTargetsAt | packages/nodes-base/nodes/GetResponse/GetResponse.node.ts:262-271 | a bracket-free key outside the allowlist leaves its formatted value under its `query[...]` key, when no other snapshot key before or after it is the same and every later key is bracket-free |
| ContactQuery.SortStep | packages/nodes-base/nodes/GetResponse/GetResponse.node.ts:273-275 | a truthy `sortBy` adds `sort[<sortBy>]` with the direction; otherwise `qs` is unchanged |
| ContactQuery.ExactMatchStep | packages/nodes-base/nodes/GetResponse/GetResponse.node.ts:277-280 | `exactMatch === true` becomes `additionalFlags=exactMatch`; otherwise `qs` is unchanged |
| ContactQuery.PageSizeStep | packages/nodes-base/nodes/GetResponse/GetResponse.node.ts:282-285 | a single page sets `perPage=limit`; return-all leaves `qs` alone |
| ContactQuery.ListQuery | packages/nodes-base/nodes/GetResponse/GetResponse.node.ts:238-287 | the query `getAll` sends and leaves, from the shared `qs` it found: no key appears twice |
| ContactQuery.SortEntry | packages/nodes-base/nodes/GetResponse/GetResponse.node.ts:273-275 | with a truthy `sortBy`, `sort[<sortBy>]` holds `sortOrder`, or `ASC` when that is falsy; `sortBy` and `sortOrder` stay in place; with a falsy `sortBy`, nothing changes |
| ContactQuery.ExactMatchFlag | packages/nodes-base/nodes/GetResponse/GetResponse.node.ts:277-280 | only `exactMatch === true` becomes `additionalFlags=exactMatch`, and then `exactMatch` is removed; otherwise nothing changes |
| ContactQuery.PageSize | packages/nodes-base/nodes/GetResponse/GetResponse.node.ts:282-285 | a single page carries `perPage=limit`; with return-all, the query is left alone |
| ContactQuery.TailUntouched | packages/nodes-base/nodes/GetResponse/GetResponse.node.ts:273-287 | after the loop, only the sort key, `additionalFlags`, `exactMatch` and, for a single page, `perPage` change |
| ContactQuery.PlainTail | packages/nodes-base/nodes/GetResponse/GetResponse.node.ts:273-287 | with no `sortBy`, `exactMatch` or `perPage`, the steps after the loop only append `perPage=limit` on a single page |
| ContactQuery.FiltersRewritten | packages/nodes-base/nodes/GetResponse/GetResponse.node.ts:262-271 | no bracket-free key outside the allowlist, other than `perPage`, is left in `qs` |
| ContactQuery.ListQueryRewritten | packages/nodes-base/nodes/GetResponse/GetResponse.node.ts:238-287 | from any `qs`, `getAll` leaves no such key behind |
| ContactQuery.NewOptionAt | packages/nodes-base/nodes/GetResponse/GetResponse.node.ts:238 | an option not yet in `qs` appears once in the snapshot, and every key after it is an option name |
| ContactQuery.ListQueryRewrites | packages/nodes-base/nodes/GetResponse/GetResponse.node.ts:238-287 | an option outside the allowlist that `qs` did not already hold is sent under its `query[...]` key, with its value (a date is formatted) |
| ContactQuery.ListQueryRemoves | packages/nodes-base/nodes/GetResponse/GetResponse.node.ts:238-287 | such an option is not sent under its own name, except `perPage` on a single page |
| ContactQuery.SortKeyNotAllowlisted | packages/nodes-base/nodes/GetResponse/GetResponse.node.ts:274 | the sort key is never an allowlisted key |
| ContactQuery.ListQueryKeeps | packages/nodes-base/nodes/GetResponse/GetResponse.node.ts:238-287 | an allowlisted option other than `exactMatch` and `additionalFlags` is sent as given, whatever `qs` held |
| ContactQuery.ListQuerySent | packages/nodes-base/nodes/GetResponse/GetResponse.node.ts:238-287 | all three facts together, for any option of any item |
| ContactQuery.EmailDescMerged | packages/nodes-base/nodes/GetResponse/GetResponse.node.ts:238 | the two sort options reach the rewrite loop as given, in that order |
| ContactQuery.EmailDescKept | packages/nodes-base/nodes/GetResponse/GetResponse.node.ts:262-271 | the loop leaves both sort options alone |
| ContactQuery.EmailDescSorted | packages/nodes-base/nodes/GetResponse/GetResponse.node.ts:273-275 | `sort[email]=DESC` is added after both options |
| ContactQuery.SortByEmailDescending | packages/nodes-base/nodes/GetResponse/GetResponse.node.ts:238-287 | with return-all, sorting by email descending sends exactly `sortBy=email`, `sortOrder=DESC` and `sort[email]=DESC`, in that order |
| GetResponseNode.Emitted | packages/nodes-base/nodes/GetResponse/GetResponse.node.ts:311-316 | an array response contributes its elements, `undefined` contributes nothing, any other value contributes itself |
| GetResponseNode.WrapCustomFieldValues | packages/nodes-base/nodes/GetResponse/GetResponse.node.ts:195-199 | the in-place loop completes if and only if every entry is writable; when it completes, the array holds the wrapped entries |
| GetResponseNode.BuildCreateBody | packages/nodes-base/nodes/GetResponse/GetResponse.node.ts:176-202 | building the body step by step, with the loop in place on the array, gives `ContactBody.CreateBody` (including its failure) |
| GetResponseNode.ContactPath | packages/nodes-base/nodes/GetResponse/GetResponse.node.ts:216 | the path `/contacts/${contactId}` of one contact; `get` and `update` build the same path at lines 228 and 308 |
| GetResponseNode.Operate | packages/nodes-base/nodes/GetResponse/GetResponse.node.ts:173-310 | the branch for one item: the new state before the response is emitted, or the error that aborts the run; an unknown resource or operation leaves the state alone |
| GetResponseNode.Step | packages/nodes-base/nodes/GetResponse/GetResponse.node.ts:171-317 | one pass of the item loop: the branch, then the output step |
| GetResponseNode.Steps | packages/nodes-base/nodes/GetResponse/GetResponse.node.ts:171-317 | the item loop from a given state: the items in order, stopping at the first error |
| GetResponseNode.ExecuteSpec | packages/nodes-base/nodes/GetResponse/GetResponse.node.ts:163-319 | the whole execution from empty `qs` and output |
| GetResponseNode.Execution.constructor | packages/nodes-base/nodes/GetResponse/GetResponse.node.ts:164-170 | a run starts with an empty `qs`, no output, no response and no calls |
| GetResponseNode.Execution.Create | packages/nodes-base/nodes/GetResponse/GetResponse.node.ts:176-206 | records `POST /contacts` with the `create` body and sets the response to the success marker, and reports success exactly when the body can be built; on failure, nothing changes |
| GetResponseNode.Execution.Delete | packages/nodes-base/nodes/GetResponse/GetResponse.node.ts:210-218 | merges the options into `qs`, records `DELETE /contacts/{id}` with that query, and sets the success marker |
| GetResponseNode.Execution.Get | packages/nodes-base/nodes/GetResponse/GetResponse.node.ts:222-228 | merges the options into `qs`, records `GET /contacts/{id}` with that query, and keeps the response |
| GetResponseNode.Execution.RewriteQueryKeys | packages/nodes-base/nodes/GetResponse/GetResponse.node.ts:262-271 | the loop over a key snapshot leaves `RewriteFold` of the old `qs` and keeps `qs` free of repeated keys |
| GetResponseNode.Execution.RewriteQueryKey | packages/nodes-base/nodes/GetResponse/GetResponse.node.ts:263-270 | one pass of that loop is `RewriteKey` |
| GetResponseNode.Execution.DeriveSortAndFlags | packages/nodes-base/nodes/GetResponse/GetResponse.node.ts:273-280 | adds the sort entry, then the flag |
| GetResponseNode.Execution.GetAll | packages/nodes-base/nodes/GetResponse/GetResponse.node.ts:232-287 | leaves `ListQuery` of the old `qs` as the new `qs` and records `GET /contacts` with it, marked all-items when return-all is set |
| GetResponseNode.Execution.Update | packages/nodes-base/nodes/GetResponse/GetResponse.node.ts:292-308 | records `POST /contacts/{id}` with the `update` body and keeps the response; `qs` is untouched |
| GetResponseNode.Execution.EmitResponse | packages/nodes-base/nodes/GetResponse/GetResponse.node.ts:311-316 | appends `Emitted(responseData)` to the output |
| GetResponseNode.Execution.RunItem | packages/nodes-base/nodes/GetResponse/GetResponse.node.ts:172-316 | one item moves the state exactly as `Step` does, and reports whether it threw |
| GetResponseNode.Execute | packages/nodes-base/nodes/GetResponse/GetResponse.node.ts:163-319 | the item loop over one `Execution` computes `ExecuteSpec`: the output and calls, or the error and the calls made before it |
| ExecutionProperties.Markers | packages/nodes-base/nodes/GetResponse/GetResponse.node.ts:206 | `n` success markers |
| ExecutionProperties.UnsupportedStepsSilent | packages/nodes-base/nodes/GetResponse/GetResponse.node.ts:171-317 | with no response pending, an unknown resource or operation leaves output and calls as they were |
| ExecutionProperties.UnsupportedOperationIsSilent | packages/nodes-base/nodes/GetResponse/GetResponse.node.ts:163-319 | an unknown resource or operation completes with no output and no calls |
| ExecutionProperties.MarkerSteps | packages/nodes-base/nodes/GetResponse/GetResponse.node.ts:204-218 | `create` and `delete` add one success marker per item; `delete` never aborts |
| ExecutionProperties.MarkerStepsIgnoreResponses | packages/nodes-base/nodes/GetResponse/GetResponse.node.ts:204-218 | what `create` and `delete` do does not depend on the API's answers |
| ExecutionProperties.CreateAndDeleteReportSuccess | packages/nodes-base/nodes/GetResponse/GetResponse.node.ts:204-218 | a whole `create` or `delete` run outputs exactly one marker per item, whatever the answers |
| ExecutionProperties.StepsEmitEach | packages/nodes-base/nodes/GetResponse/GetResponse.node.ts:311-316 | steps that never fail and emit their response produce the responses in order: arrays spliced in, `undefined` dropped |
| ExecutionProperties.RawStep | packages/nodes-base/nodes/GetResponse/GetResponse.node.ts:221-316 | a `get`, `getAll` or `update` step never fails and emits its response |
| ExecutionProperties.GetUpdateGetAllEmitResponses | packages/nodes-base/nodes/GetResponse/GetResponse.node.ts:221-316 | a `get`, `getAll` or `update` run completes, and outputs exactly the flattened responses |
| ExecutionProperties.Shaped | packages/nodes-base/nodes/GetResponse/GetResponse.node.ts:173-310 | the call an item's operation makes. For `getAll` it is `GET /contacts` with the all-items flag. When the item's option names are distinct and bracket-free, every allowlisted option other than `exactMatch` and `additionalFlags` is sent as given, every other option except `perPage` is sent under its `query[...]` key and not under its own name, and a single page carries `perPage=limit` |
| ExecutionProperties.ListOptionsSent | packages/nodes-base/nodes/GetResponse/GetResponse.node.ts:238-287 | for distinct bracket-free option names: what `Shaped` says for `getAll` about each option |
| ExecutionProperties.Reachable | packages/nodes-base/nodes/GetResponse/GetResponse.node.ts:167-287 | the state a run can reach: `qs` holds no key twice and, for `getAll`, holds no bracket-free filter outside the allowlist other than `perPage` |
| ExecutionProperties.GetAllSends | packages/nodes-base/nodes/GetResponse/GetResponse.node.ts:238-287 | from a reachable state, `getAll` sends every option as `ListOptionsSent` says, a single page carries `perPage=limit`, and the state it leaves is reachable |
| ExecutionProperties.StepRecordsOneRequest | packages/nodes-base/nodes/GetResponse/GetResponse.node.ts:173-310 | from a reachable state, a successful step appends exactly one call, shaped by its item's operation, and leaves a reachable state |
| ExecutionProperties.StepsAreFold | packages/nodes-base/nodes/GetResponse/GetResponse.node.ts:171-317 | the item loop is a fold of that step |
| ExecutionProperties.FoldRecordsEach | packages/nodes-base/nodes/GetResponse/GetResponse.node.ts:171-317 | when each step from a state meeting the invariant appends one call judged by its item and keeps the invariant, a completed run keeps earlier calls and adds one judged call per item, in order |
| ExecutionProperties.EveryStepShaped | packages/nodes-base/nodes/GetResponse/GetResponse.node.ts:173-310 | every supported operation's step from a reachable state appends one shaped call and keeps the state reachable |
| ExecutionProperties.FoldShaped | packages/nodes-base/nodes/GetResponse/GetResponse.node.ts:171-317 | a completed run has one shaped call per item |
| ExecutionProperties.OneRequestPerItem | packages/nodes-base/nodes/GetResponse/GetResponse.node.ts:171-317 | a completed run of a supported operation makes exactly one call per item, in item order. Each call has the verb, path, body, query and all-items flag its item asks for; `delete`/`get` send every option with its value, and `getAll` sends each option of its own item as `Shaped` says |
| ExecutionProperties.CreateStepsFail | packages/nodes-base/nodes/GetResponse/GetResponse.node.ts:191-206 | a `create` run aborts if and only if some item's body cannot be built |
| ExecutionProperties.FirstPageQuery | packages/nodes-base/nodes/GetResponse/GetResponse.node.ts:282-287 | with no options and limit 10, the first `getAll` sends `perPage=10` only |
| ExecutionProperties.PerPageRewritten | packages/nodes-base/nodes/GetResponse/GetResponse.node.ts:262-271 | the rewrite loop turns a `perPage` left in `qs` into `query[perPage]` |
| ExecutionProperties.SecondPageQuery | packages/nodes-base/nodes/GetResponse/GetResponse.node.ts:238-287 | from that `qs`, the next query is `query[perPage]=10&perPage=10` |
| ExecutionProperties.GetAllStep | packages/nodes-base/nodes/GetResponse/GetResponse.node.ts:231-288 | a `getAll` step sends `ListQuery` of the shared `qs` and leaves it as the new `qs` |
| ExecutionProperties.QueryIsNeverReset | packages/nodes-base/nodes/GetResponse/GetResponse.node.ts:167-287 | two identical `getAll` items send different queries: the second carries the first's page size as the filter `query[perPage]` |
| ExecutionProperties.FoldFront | packages/nodes-base/nodes/GetResponse/GetResponse.node.ts:262-271 | the rewrite loop over `[k] + ks` is one pass for `k`, then the loop over `ks` |
| ExecutionProperties.FilterFirstPass | packages/nodes-base/nodes/GetResponse/GetResponse.node.ts:263-270 | in `qs = { query[name], perPage, name }`, the pass for `query[name]` moves it to `query[query[name]]` at the end |
| ExecutionProperties.FilterSecondPass | packages/nodes-base/nodes/GetResponse/GetResponse.node.ts:263-270 | the pass for `perPage` then moves it to `query[perPage]` |
| ExecutionProperties.FilterThirdPass | packages/nodes-base/nodes/GetResponse/GetResponse.node.ts:263-270 | the pass for `name` then moves it to `query[name]` |
| ExecutionProperties.FilterRewrappedLoop | packages/nodes-base/nodes/GetResponse/GetResponse.node.ts:262-271 | the whole loop turns `{ query[name], perPage, name }` into `{ query[query[name]], query[perPage], query[name] }` |
| ExecutionProperties.FilterMerged | packages/nodes-base/nodes/GetResponse/GetResponse.node.ts:238 | the option `name` merged into the `qs` an earlier item left goes last |
| ExecutionProperties.FilterTail | packages/nodes-base/nodes/GetResponse/GetResponse.node.ts:273-287 | with none of the sort, flag or page keys present, a single page only appends `perPage=10` |
| ExecutionProperties.EarlierFilterRewrapped | packages/nodes-base/nodes/GetResponse/GetResponse.node.ts:167-287 | after an item that filtered on `name`, the next `getAll` item with the same filter sends `query[query[name]]`, `query[perPage]`, `query[name]` and `perPage`, in that order |
| LoadOptions.Iterated | packages/nodes-base/nodes/GetResponse/GetResponse.node.ts:114 | `for ... of` visits an array's elements, or one string per character of a string; any other answer throws |
| LoadOptions.Loaded | packages/nodes-base/nodes/GetResponse/GetResponse.node.ts:108-120 | what the loop may leave: a TypeError exactly when the answer is not iterable or an entry is null or undefined, and otherwise one `{ name, value }` per entry, in order |
| LoadOptions.MapOptions | packages/nodes-base/nodes/GetResponse/GetResponse.node.ts:108-120 | the loop ends as `Loaded` says: it throws if and only if the answer is not iterable or an entry is null or undefined; otherwise the options are the entries' names and ids, in order |
| LoadOptions.GetCampaigns | packages/nodes-base/nodes/GetResponse/GetResponse.node.ts:105-121 | one `GET /campaigns`, and options from `name` and `campaignId` |
| LoadOptions.GetTags | packages/nodes-base/nodes/GetResponse/GetResponse.node.ts:124-140 | one `GET /tags`, and options from `name` and `tagId` |
| LoadOptions.GetCustomFields | packages/nodes-base/nodes/GetResponse/GetResponse.node.ts:143-159 | one `GET /custom-fields`, and options from `name` and `customFieldId` |
| LoadOptions.ObjectsAlwaysLoad | packages/nodes-base/nodes/GetResponse/GetResponse.node.ts:114-119 | an array of objects always loads, one option per entry, with that entry's name and id |
| LoadOptions.StringAnswerLoadsBlanks | packages/nodes-base/nodes/GetResponse/GetResponse.node.ts:114-119 | a string answer loads one option per character, each with neither name nor value |

## Left out

- **HTTP and the API.** The request helpers are not part of this model:
  - the single-request helper and the all-items helper (`GenericFunctions.ts`);
  - authentication, base URL and headers;
  - pagination and HTTP errors.

  Each call is recorded as a `Request`, and its response is an input. An error the API raises
  would abort the run before the output step; the model has no such errors.
- **What the all-items helper does to `qs`.** It is not part of this model. The model takes `qs`
  to be the query the node itself left.
- **Date formatting.** `moment.tz(...).format(...)` is the parameter `fmt`, applied to the value
  and the workflow time zone. The time zone is a parameter too, in place of `getTimezone()`.
- **The host.** `getInputData`, `getNodeParameter` and `returnJsonArray` are host calls. The
  items' parameters arrive as `Params` values, and the output is the list of returned objects.
  Defaults and type coercions that `getNodeParameter` applies are not modelled.
- **Node metadata.** The description (properties, credentials, display options) is data for the
  editor, not behaviour.
- **`async`/`await`.** The calls are taken to run one after another, in order.
- **Numbers.** Numbers are unbounded integers. Floating-point numbers, `NaN` and their string
  forms are not modelled.
- LoadOptions.MapOptions: the `as string` cast of `name` is a compile-time annotation; the model keeps
  the raw value. A JavaScript string is UTF-16 and may hold lone surrogates, which a Dafny
  string cannot. The model's string is the string's sequence of code points, which `for ... of`
  visits one at a time.
- ContactBody.WrapCollection: an array-like object with a numeric `length` would be looped
  over by index. The model takes every object, number and boolean to have no `length`, so the
  loop does not run.
- ContactBody.Wrappable: the model assumes strict mode, as in the compiled module. Assigning
  `.value` onto a primitive entry throws a TypeError; in sloppy mode it would be silently ignored.
- ContactBody.WrapEntry: the `value` property the loop sets on an array entry is not an
  index, so a JSON body does not carry it. The entry is left unchanged.
- **Aliasing.** The loop rewrites the custom-field entries in place, and these objects are shared
  with the caller's parameters. The model builds a new value, so the change seen through the
  caller's object is not captured. Only the body sent is modelled. An entry that appears twice in
  the array is wrapped once, which `ContactBody.WrapEntryIdempotent` shows gives the same body.
- ExecutionProperties.OneRequestPerItem: for `getAll`, the facts about each option hold when
  the item's option names are distinct and free of brackets, as every option the editor offers
  is. They leave out the `exactMatch` and `additionalFlags` options, which
  `ContactQuery.ExactMatchFlag` covers, and an option named `perPage`. The keys that earlier
  items left in `qs` are described only by `ExecutionProperties.EarlierFilterRewrapped` and
  `ExecutionProperties.QueryIsNeverReset`.
- Json.Keys: `Object.keys` lists integer-like keys first, in numeric order. The model keeps
  plain insertion order.
- **Missing error path in option loaders.** A failing API call in the option loaders is not
  modelled. The answer is an input.

