/** The option lists the editor offers for campaigns, tags and custom fields
    (GetResponse.node.ts, lines 105-159): one GET call, then one
    `{ name, value }` pair per entry of the answer, in order. */
module LoadOptions {
  import opened Json
  import opened GetResponseNode

  /** An `INodePropertyOptions` entry. */
  datatype PropertyOption = PropertyOption(name: Value, value: Value)

  /** What `for (const x of answer)` visits: the elements of an array, the
      one-character strings of a string; any other value is not iterable and
      the loop throws before its first pass. */
  function Iterated(answer: Value): (r: Result<seq<Value>>)
    ensures answer.Arr? ==> r == Success(answer.elems)
    ensures answer.Str? ==> r.Success? && |r.value| == |answer.s|
    ensures !answer.Arr? && !answer.Str? ==> r == Failure(TypeError)
  {
    match answer
    case Arr(es) => Success(es)
    case Str(s) => Success(seq(|s|, i requires 0 <= i < |s| => Str([s[i]])))
    case _ => Failure(TypeError)
  }

  /** `opts` holds, entry by entry and in order, the `name` and the id field
      of `entries`. */
  predicate Maps(entries: seq<Value>, idField: string, opts: seq<PropertyOption>) {
    |opts| == |entries| &&
    forall i :: 0 <= i < |entries| ==> opts[i] == PropertyOption(Field(entries[i], "name"), Field(entries[i], idField))
  }

  /** What the loop leaves: a TypeError when the answer is not iterable or an
      entry is null or undefined (reading `.name` of it throws), otherwise the
      mapped entries. */
  predicate Loaded(answer: Value, idField: string, r: Result<seq<PropertyOption>>) {
    match Iterated(answer)
    case Failure(_) => r == Failure(TypeError)
    case Success(es) =>
      && (r.Success? <==> forall i :: 0 <= i < |es| ==> !Nullish(es[i]))
      && (r.Failure? ==> r.error == TypeError)
      && (r.Success? ==> Maps(es, idField, r.value))
  }

  /** The `for ... of` loop shared by the three option loaders. */
  method MapOptions(answer: Value, idField: string) returns (r: Result<seq<PropertyOption>>)
    ensures Loaded(answer, idField, r)
  {
    var entries := Iterated(answer);
    if entries.Failure? {
      return Failure(TypeError);
    }
    var es := entries.value;
    var returnData: seq<PropertyOption> := [];
    var i := 0;
    while i < |es|
      invariant 0 <= i <= |es|
      invariant forall k :: 0 <= k < i ==> !Nullish(es[k])
      invariant Maps(es[..i], idField, returnData)
    {
      if Nullish(es[i]) {
        return Failure(TypeError);
      }
      returnData := returnData + [PropertyOption(Field(es[i], "name"), Field(es[i], idField))];
      i := i + 1;
    }
    assert es[..i] == es;
    return Success(returnData);
  }

  /** Lines 105-121. */
  method GetCampaigns(answer: Value) returns (request: Request, r: Result<seq<PropertyOption>>)
    ensures request == Request(GET, "/campaigns", [], [], false)
    ensures Loaded(answer, "campaignId", r)
  {
    request := Request(GET, "/campaigns", [], [], false);
    r := MapOptions(answer, "campaignId");
  }

  /** Lines 124-140. */
  method GetTags(answer: Value) returns (request: Request, r: Result<seq<PropertyOption>>)
    ensures request == Request(GET, "/tags", [], [], false)
    ensures Loaded(answer, "tagId", r)
  {
    request := Request(GET, "/tags", [], [], false);
    r := MapOptions(answer, "tagId");
  }

  /** Lines 143-159. */
  method GetCustomFields(answer: Value) returns (request: Request, r: Result<seq<PropertyOption>>)
    ensures request == Request(GET, "/custom-fields", [], [], false)
    ensures Loaded(answer, "customFieldId", r)
  {
    request := Request(GET, "/custom-fields", [], [], false);
    r := MapOptions(answer, "customFieldId");
  }

  /** A well-formed answer, an array of objects, always loads, and the offered
      options are exactly its entries' names and ids. */
  lemma ObjectsAlwaysLoad(es: seq<Value>, idField: string, r: Result<seq<PropertyOption>>)
    requires forall i :: 0 <= i < |es| ==> es[i].Obj?
    requires Loaded(Arr(es), idField, r)
    ensures r.Success? && |r.value| == |es|
    ensures forall i :: 0 <= i < |es| ==>
      r.value[i].name == Lookup(es[i].fields, "name") && r.value[i].value == Lookup(es[i].fields, idField)
  {
  }

  /** A string answer is iterated character by character: it loads one option
      per character, with neither a name nor a value. */
  lemma StringAnswerLoadsBlanks(s: string, idField: string, r: Result<seq<PropertyOption>>)
    requires Loaded(Str(s), idField, r)
    ensures r == Success(seq(|s|, _ => PropertyOption(Undefined, Undefined)))
  {
    var es := Iterated(Str(s)).value;
    assert forall i :: 0 <= i < |es| ==> es[i] == Str([s[i]]);
    assert r.Success?;
    assert r.value == seq(|s|, _ => PropertyOption(Undefined, Undefined));
  }
}
