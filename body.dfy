/** Request bodies of the contact `create` and `update` operations
    (GetResponse.node.ts, lines 176-202 and 292-306). */
module ContactBody {
  import opened Json

  /** The property of the user's field collections that holds the custom fields. */
  const UiKey := "customFieldsUi"
  /** The body property the API expects the custom fields under. */
  const ValuesKey := "customFieldValues"

  /** The body `create` starts from: `{ email, campaign: { campaignId } }`. */
  function CreateSeed(email: string, campaignId: string): Fields {
    [("email", Str(email)), ("campaign", Obj([("campaignId", Str(campaignId))]))]
  }

  /** `(fields.customFieldsUi as IDataObject).customFieldValues`, read once
      `fields.customFieldsUi` is known to be truthy (so the read cannot throw). */
  function CustomFieldValues(fields: Fields): Value {
    Field(Lookup(fields, UiKey), ValuesKey)
  }

  /** Both guards in front of the renaming hold: `fields.customFieldsUi` is
      truthy and so is the `customFieldValues` inside it. */
  predicate RenamesCustomFields(fields: Fields) {
    Truthy(Lookup(fields, UiKey)) && Truthy(CustomFieldValues(fields))
  }

  /** A custom-field entry on which the wrapping statement can run without a
      TypeError: reading `.value` of null or undefined throws, and in strict
      mode so does assigning `.value` onto a boolean, number or string. */
  predicate Wrappable(e: Value) {
    e.Obj? || e.Arr?
  }

  predicate AllWrappable(es: seq<Value>) {
    forall i :: 0 <= i < |es| ==> Wrappable(es[i])
  }

  /** One step of the loop: a `value` that is not an array becomes `[value]`.
      On an array entry the assignment adds a non-index property, which the
      JSON body does not carry, so the entry is unchanged. */
  function WrapEntry(e: Value): (r: Value)
    ensures e.Obj? ==> r.Obj? && Field(r, "value").Arr?
    ensures e.Obj? && Field(e, "value").Arr? ==> r == e
    ensures e.Obj? && !Field(e, "value").Arr? ==> Field(r, "value") == Arr([Field(e, "value")])
    ensures e.Obj? ==> forall x :: x != "value" ==> Field(r, x) == Field(e, x)
    ensures e.Obj? ==> forall x :: Has(r.fields, x) <==> x == "value" || Has(e.fields, x)
    ensures !e.Obj? ==> r == e
  {
    match e
    case Obj(f) =>
      var v := Lookup(f, "value");
      if v.Arr? then e else Obj(Put(f, "value", Arr([v])))
    case _ => e
  }

  /** What the loop leaves in the custom-field array, entry by entry. */
  function WrapAll(es: seq<Value>): (ws: seq<Value>)
    ensures |ws| == |es|
  {
    seq(|es|, i requires 0 <= i < |es| => WrapEntry(es[i]))
  }

  /** The loop of lines 195-199 over `customFieldValues`, which is truthy here.
      An array is rewritten entry by entry; a non-empty string has a length and
      one-character string entries, so its first step throws; any other value
      has no `length` and the loop does not run. */
  function WrapCollection(cfv: Value): Result<Value> {
    match cfv
    case Arr(es) => if AllWrappable(es) then Success(Arr(WrapAll(es))) else Failure(TypeError)
    case Str(s) => if s == "" then Success(cfv) else Failure(TypeError)
    case _ => Success(cfv)
  }

  /** The body `create` posts to `/contacts`. */
  function CreateBody(email: string, campaignId: string, additionalFields: Fields): Result<Fields> {
    var body := Assign(CreateSeed(email, campaignId), additionalFields);
    if !RenamesCustomFields(additionalFields) then Success(body)
    else
      match WrapCollection(CustomFieldValues(additionalFields))
      case Failure(e) => Failure(e)
      case Success(w) => Success(Remove(Put(body, ValuesKey, w), UiKey))
  }

  /** The body `update` posts to `/contacts/{id}`. */
  function UpdateBody(updateFields: Fields): Fields {
    var body := Assign([], updateFields);
    if RenamesCustomFields(updateFields) then
      Remove(Put(body, ValuesKey, CustomFieldValues(updateFields)), UiKey)
    else body
  }

  /** Wrapping twice is wrapping once: every entry it touches ends with an array `value`. */
  lemma WrapEntryIdempotent(e: Value)
    ensures WrapEntry(WrapEntry(e)) == WrapEntry(e)
  {
    if e.Obj? {
      var r := WrapEntry(e);
      assert Field(r, "value").Arr?;
    }
  }

  /** `create` fails exactly when the custom fields are renamed and the loop
      meets an entry it cannot write to. */
  lemma CreateFailsOnlyOnUnwritableEntry(email: string, campaignId: string, additionalFields: Fields)
    ensures CreateBody(email, campaignId, additionalFields).Failure? <==>
      RenamesCustomFields(additionalFields) &&
      match CustomFieldValues(additionalFields)
      case Arr(es) => exists i :: 0 <= i < |es| && !Wrappable(es[i])
      case Str(_) => true
      case _ => false
  {
  }

  /** With custom-field values present, `create` sends every additional field,
      moves the custom fields to `customFieldValues` with each scalar `value`
      put into a one-element array and each array `value` kept, and drops
      `customFieldsUi`. */
  lemma {:induction false} CreateWrapsCustomFields(email: string, campaignId: string, additionalFields: Fields, es: seq<Value>)
    requires Distinct(additionalFields)
    requires Truthy(Lookup(additionalFields, UiKey))
    requires CustomFieldValues(additionalFields) == Arr(es) && AllWrappable(es)
    ensures CreateBody(email, campaignId, additionalFields).Success?
    ensures var body := CreateBody(email, campaignId, additionalFields).value;
      && !Has(body, UiKey)
      && Lookup(body, ValuesKey).Arr? && |Lookup(body, ValuesKey).elems| == |es|
      && (forall i :: 0 <= i < |es| ==> Lookup(body, ValuesKey).elems[i] == WrapEntry(es[i]))
      && (forall i :: 0 <= i < |es| && es[i].Obj? ==>
            Field(Lookup(body, ValuesKey).elems[i], "value") ==
              if Field(es[i], "value").Arr? then Field(es[i], "value") else Arr([Field(es[i], "value")]))
      && (forall x :: x != UiKey && x != ValuesKey ==>
            Lookup(body, x) == if Has(additionalFields, x) then Lookup(additionalFields, x)
                               else Lookup(CreateSeed(email, campaignId), x))
  {
    var merged := Assign(CreateSeed(email, campaignId), additionalFields);
    var ws := WrapAll(es);
    var b := Remove(Put(merged, ValuesKey, Arr(ws)), UiKey);
    assert CreateBody(email, campaignId, additionalFields) == Success(b);
    assert Lookup(b, ValuesKey) == Arr(ws);
    forall i | 0 <= i < |es| && es[i].Obj?
      ensures Field(ws[i], "value") ==
        if Field(es[i], "value").Arr? then Field(es[i], "value") else Arr([Field(es[i], "value")])
    {
      assert ws[i] == WrapEntry(es[i]);
    }
    forall x | x != UiKey && x != ValuesKey
      ensures Lookup(b, x) == if Has(additionalFields, x) then Lookup(additionalFields, x)
                              else Lookup(CreateSeed(email, campaignId), x)
    {
      assert Lookup(b, x) == Lookup(merged, x);
    }
  }

  /** Without custom-field values `create` renames nothing: the body is the seed
      overwritten by the additional fields, `customFieldsUi` included. */
  lemma CreateKeepsUiWithoutValues(email: string, campaignId: string, additionalFields: Fields)
    requires Distinct(additionalFields)
    requires !Truthy(CustomFieldValues(additionalFields))
    ensures CreateBody(email, campaignId, additionalFields).Success?
    ensures var body := CreateBody(email, campaignId, additionalFields).value;
      && (Has(body, UiKey) <==> Has(additionalFields, UiKey))
      && (forall x :: Lookup(body, x) == if Has(additionalFields, x) then Lookup(additionalFields, x)
                                         else Lookup(CreateSeed(email, campaignId), x))
  {
  }

  /** `update` sends the update fields as they are, except that
      `customFieldsUi` gives way to its `customFieldValues`, with no value wrapped. */
  lemma UpdatePassesThrough(updateFields: Fields)
    requires Distinct(updateFields)
    ensures var body := UpdateBody(updateFields);
      var renamed := RenamesCustomFields(updateFields);
      && Distinct(body)
      && (forall x :: Has(body, x) <==>
            if renamed then x == ValuesKey || (x != UiKey && Has(updateFields, x))
            else Has(updateFields, x))
      && (forall x :: Lookup(body, x) ==
            if renamed && x == ValuesKey then Field(Lookup(updateFields, UiKey), ValuesKey)
            else if renamed && x == UiKey then Undefined
            else Lookup(updateFields, x))
  {
  }

  /** The custom-field collections of the example below: one entry whose `value` is a scalar. */
  function OneFieldUi(id: string, v: Value): Fields {
    [(UiKey, Obj([(ValuesKey, Arr([Obj([("customFieldId", Str(id)), ("value", v)])]))]))]
  }

  lemma WrapScalarEntry(id: string, v: Value)
    requires !v.Arr?
    ensures WrapEntry(Obj([("customFieldId", Str(id)), ("value", v)]))
         == Obj([("customFieldId", Str(id)), ("value", Arr([v]))])
  {
    var f := [("customFieldId", Str(id)), ("value", v)];
    assert Lookup(f, "value") == v;
    assert Put(f, "value", Arr([v])) == [("customFieldId", Str(id)), ("value", Arr([v]))] by {
      assert f[1..] == [("value", v)];
    }
  }

  lemma CreateWrapsScalar(email: string, campaignId: string, id: string, v: Value)
    requires !v.Arr?
    ensures var body := CreateBody(email, campaignId, OneFieldUi(id, v));
      body.Success? &&
      Lookup(body.value, ValuesKey) == Arr([Obj([("customFieldId", Str(id)), ("value", Arr([v]))])])
  {
    var entry := Obj([("customFieldId", Str(id)), ("value", v)]);
    var fields := OneFieldUi(id, v);
    WrapScalarEntry(id, v);
    assert CustomFieldValues(fields) == Arr([entry]);
    assert Distinct(fields);
    CreateWrapsCustomFields(email, campaignId, fields, [entry]);
    var ws := Lookup(CreateBody(email, campaignId, fields).value, ValuesKey).elems;
    assert ws == [WrapEntry(entry)];
  }

  lemma UpdateKeepsScalar(id: string, v: Value)
    ensures Lookup(UpdateBody(OneFieldUi(id, v)), ValuesKey) == Arr([Obj([("customFieldId", Str(id)), ("value", v)])])
  {
    var fields := OneFieldUi(id, v);
    assert Distinct(fields);
    assert CustomFieldValues(fields) == Arr([Obj([("customFieldId", Str(id)), ("value", v)])]);
    UpdatePassesThrough(fields);
  }

  /** The same scalar custom field is wrapped by `create` and sent as given by `update`. */
  lemma CreateWrapsWhereUpdateDoesNot(email: string, campaignId: string, id: string, v: Value)
    requires !v.Arr?
    ensures var entry := Obj([("customFieldId", Str(id)), ("value", v)]);
      var fields := [(UiKey, Obj([(ValuesKey, Arr([entry]))]))];
      && CreateBody(email, campaignId, fields).Success?
      && Lookup(CreateBody(email, campaignId, fields).value, ValuesKey) ==
           Arr([Obj([("customFieldId", Str(id)), ("value", Arr([v]))])])
      && Lookup(UpdateBody(fields), ValuesKey) == Arr([entry])
  {
    CreateWrapsScalar(email, campaignId, id, v);
    UpdateKeepsScalar(id, v);
  }
}
