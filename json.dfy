/** JavaScript values as the node sees them, and the handful of object
    operations the node uses: property read, property write, `delete` and
    `Object.assign`. An object is an association list in insertion order,
    because `Object.keys` hands out its keys in that order. */
module Json {

  datatype Value =
    | Undefined
    | Null
    | Bool(b: bool)
    | Num(n: int)
    | Str(s: string)
    | Arr(elems: seq<Value>)
    | Obj(fields: seq<(string, Value)>)

  /** The own properties of an object, oldest first. */
  type Fields = seq<(string, Value)>

  /** The errors JavaScript raises on the paths the model follows. */
  datatype Error = TypeError

  datatype Result<T> = Success(value: T) | Failure(error: Error)

  /** `Object.keys`: the property names in insertion order. */
  function Keys(f: Fields): (ks: seq<string>)
    ensures |ks| == |f|
  {
    if f == [] then [] else [f[0].0] + Keys(f[1..])
  }

  predicate Has(f: Fields, k: string) {
    k in Keys(f)
  }

  /** A JavaScript object never holds the same property twice. */
  predicate Distinct(f: Fields) {
    f == [] || (!Has(f[1..], f[0].0) && Distinct(f[1..]))
  }

  /** Reading `o[k]`: the stored value, `undefined` when there is none. */
  function Lookup(f: Fields, k: string): (v: Value)
    ensures !Has(f, k) ==> v == Undefined
  {
    if f == [] then Undefined
    else if f[0].0 == k then f[0].1
    else Lookup(f[1..], k)
  }

  /** Writing `o[k] = v`: an existing property keeps its place, a new one goes last. */
  function Put(f: Fields, k: string, v: Value): (r: Fields)
    ensures Lookup(r, k) == v
    ensures forall x :: x != k ==> Lookup(r, x) == Lookup(f, x)
    ensures forall x :: Has(r, x) <==> x == k || Has(f, x)
    ensures Has(f, k) ==> Keys(r) == Keys(f)
    ensures !Has(f, k) ==> Keys(r) == Keys(f) + [k]
    ensures Distinct(f) ==> Distinct(r)
  {
    if f == [] then [(k, v)]
    else if f[0].0 == k then [(k, v)] + f[1..]
    else [f[0]] + Put(f[1..], k, v)
  }

  /** Writing a property twice leaves the second value in the first one's place. */
  lemma {:induction false} PutTwice(f: Fields, k: string, v: Value, w: Value)
    ensures Put(Put(f, k, v), k, w) == Put(f, k, w)
  {
    if f != [] && f[0].0 != k {
      PutTwice(f[1..], k, v, w);
      assert Put(f, k, v)[1..] == Put(f[1..], k, v);
    }
  }

  /** `delete o[k]`. */
  function Remove(f: Fields, k: string): (r: Fields)
    ensures forall x :: Has(r, x) <==> x != k && Has(f, x)
    ensures forall x :: x != k ==> Lookup(r, x) == Lookup(f, x)
    ensures Lookup(r, k) == Undefined
    ensures Distinct(f) ==> Distinct(r)
  {
    if f == [] then []
    else if f[0].0 == k then Remove(f[1..], k)
    else
      var rest := Remove(f[1..], k);
      assert ([f[0]] + rest)[1..] == rest;
      assert Keys([f[0]] + rest) == [f[0].0] + Keys(rest);
      assert forall x :: Has([f[0]] + rest, x) <==> x == f[0].0 || Has(rest, x);
      [f[0]] + rest
  }

  /** `Object.assign(target, src)`: every property of `src`, in order, written onto `target`. */
  function Assign(target: Fields, src: Fields): (r: Fields)
    ensures forall x :: Has(r, x) <==> Has(target, x) || Has(src, x)
    ensures forall x :: !Has(src, x) ==> Lookup(r, x) == Lookup(target, x)
    ensures Distinct(src) ==> forall x :: Has(src, x) ==> Lookup(r, x) == Lookup(src, x)
    ensures Distinct(target) ==> Distinct(r)
    decreases |src|
  {
    if src == [] then target
    else Assign(Put(target, src[0].0, src[0].1), src[1..])
  }

  /** A new property goes after all the others. */
  lemma {:induction false} PutNew(f: Fields, k: string, v: Value)
    requires !Has(f, k)
    ensures Put(f, k, v) == f + [(k, v)]
  {
    if f != [] {
      assert Keys(f) == [f[0].0] + Keys(f[1..]);
      PutNew(f[1..], k, v);
      assert [f[0]] + (f[1..] + [(k, v)]) == f + [(k, v)];
    }
  }

  /** Deleting a property the object does not have changes nothing. */
  lemma {:induction false} RemoveAbsent(f: Fields, k: string)
    requires !Has(f, k)
    ensures Remove(f, k) == f
  {
    if f != [] {
      assert Keys(f) == [f[0].0] + Keys(f[1..]);
      RemoveAbsent(f[1..], k);
      assert [f[0]] + f[1..] == f;
    }
  }

  /** `Object.assign` keeps the target's properties where they are and adds
      only properties of the source after them. */
  lemma {:induction false} AssignExtends(target: Fields, src: Fields)
    ensures |Assign(target, src)| >= |target|
    ensures Keys(Assign(target, src))[..|target|] == Keys(target)
    ensures forall m :: |target| <= m < |Assign(target, src)| ==> Has(src, Keys(Assign(target, src))[m])
    decreases |src|
  {
    if src != [] {
      var t := Put(target, src[0].0, src[0].1);
      AssignExtends(t, src[1..]);
      var ks := Keys(Assign(target, src));
      assert ks == Keys(Assign(t, src[1..]));
      assert Keys(t)[..|target|] == Keys(target);
      assert ks[..|target|] == ks[..|t|][..|target|];
      forall m | |target| <= m < |ks| ensures Has(src, ks[m]) {
        KeysHas(src, 0);
        assert Keys(src) == [src[0].0] + Keys(src[1..]);
        if m < |t| {
          assert ks[m] == Keys(t)[m] == src[0].0;
        } else {
          assert Has(src[1..], ks[m]);
        }
      }
    }
  }

  lemma KeysCons(e: (string, Value), f: Fields)
    ensures Keys([e] + f) == [e.0] + Keys(f)
  {
    assert ([e] + f)[1..] == f;
  }

  lemma {:induction false} KeysAt(f: Fields, i: nat)
    requires i < |f|
    ensures Keys(f)[i] == f[i].0
  {
    if i > 0 { KeysAt(f[1..], i - 1); }
  }

  lemma KeysHas(f: Fields, i: nat)
    requires i < |f|
    ensures Has(f, f[i].0)
  {
    KeysAt(f, i);
  }

  /** In an object, the property at position `i` is what a read of its name returns. */
  lemma {:induction false} LookupAt(f: Fields, i: nat)
    requires Distinct(f) && i < |f|
    ensures Lookup(f, f[i].0) == f[i].1
  {
    if i > 0 {
      assert f[i].0 != f[0].0 by { KeysHas(f[1..], i - 1); }
      LookupAt(f[1..], i - 1);
    }
  }

  /** In an object, two positions hold two different names. */
  lemma {:induction false} DistinctApart(f: Fields, a: nat, b: nat)
    requires Distinct(f) && a < b < |f|
    ensures f[a].0 != f[b].0
  {
    if a == 0 {
      KeysHas(f[1..], b - 1);
    } else {
      DistinctApart(f[1..], a - 1, b - 1);
    }
  }

  /** JavaScript truthiness. */
  predicate Truthy(v: Value) {
    match v
    case Undefined => false
    case Null => false
    case Bool(b) => b
    case Num(n) => n != 0
    case Str(s) => s != ""
    case Arr(_) => true
    case Obj(_) => true
  }

  predicate Nullish(v: Value) {
    v.Undefined? || v.Null?
  }

  /** `v.k` on a value that is not null or undefined: only objects carry the
      properties the node asks for. */
  function Field(v: Value, k: string): (r: Value)
    ensures !v.Obj? ==> r == Undefined
  {
    if v.Obj? then Lookup(v.fields, k) else Undefined
  }

  /** Decimal notation of an integer, as `String(n)` writes it. */
  function IntString(n: int): (s: string)
    ensures s != []
  {
    if n < 0 then "-" + NatString(-n) else NatString(n)
  }

  function NatString(n: nat): (s: string)
    ensures s != [] && forall i :: 0 <= i < |s| ==> '0' <= s[i] <= '9'
  {
    if n < 10 then [Digit(n)] else NatString(n / 10) + [Digit(n % 10)]
  }

  function Digit(d: nat): (c: char)
    requires d < 10
    ensures '0' <= c <= '9'
  {
    ['0', '1', '2', '3', '4', '5', '6', '7', '8', '9'][d]
  }

  /** `String(v)`, as a template literal `${v}` converts a value. */
  function JsString(v: Value): string
    decreases v
  {
    match v
    case Undefined => "undefined"
    case Null => "null"
    case Bool(b) => if b then "true" else "false"
    case Num(n) => IntString(n)
    case Str(s) => s
    case Arr(es) => JoinElements(es)
    case Obj(_) => "[object Object]"
  }

  /** `Array.prototype.join(",")`, where null and undefined elements print as "". */
  function JoinElements(es: seq<Value>): string
    decreases es
  {
    if es == [] then ""
    else
      var head := if Nullish(es[0]) then "" else JsString(es[0]);
      if |es| == 1 then head else head + "," + JoinElements(es[1..])
  }
}
