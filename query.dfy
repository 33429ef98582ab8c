/** The query string of the contact `getAll` operation
    (GetResponse.node.ts, lines 238-287): the options are merged into the
    shared `qs` object, every key outside an allowlist is rewritten into the
    API's `query[...]` filter syntax, a sort entry and the `exactMatch` flag
    are derived, and a page size is set when not everything is wanted. */
module ContactQuery {
  import opened Json

  /** Keys that stay top-level transport parameters (`isNotQuery`). */
  const NotQuery: seq<string> := ["sortBy", "sortOrder", "additionalFlags", "fields", "exactMatch"]

  /** Keys holding dates (`isDate`). */
  const DateKeys: seq<string> := ["createdOnFrom", "createdOnTo", "changeOnFrom", "changeOnTo"]

  /** Where each date key goes after `query` (`dateMapToKey`). */
  const DateMapToKey: map<string, string> := map[
    "createdOnFrom" := "[createdOn][from]",
    "createdOnTo" := "[createdOn][to]",
    "changeOnFrom" := "[changeOn][from]",
    "changeOnTo" := "[changeOn][to]"
  ]

  /** A key with no square brackets, such as every option name the node offers. */
  predicate Plain(k: string) {
    forall i :: 0 <= i < |k| ==> k[i] != '[' && k[i] != ']'
  }

  /** The key a rewritten option is stored under. */
  function Target(k: string): (t: string)
    ensures |t| > 6 && t[..6] == "query["
  {
    if k in DateKeys then "query" + DateMapToKey[k] else "query[" + k + "]"
  }

  /** The value stored under `Target(k)`: a date is formatted in the workflow's
      time zone by `fmt`, which stands for `moment.tz(v, tz).format(...)`;
      anything else is copied. */
  function NewValue(q: Fields, k: string, tz: string, fmt: (Value, string) -> string): Value {
    if k in DateKeys then Str(fmt(Lookup(q, k), tz)) else Lookup(q, k)
  }

  /** One pass of the `for (const key of Object.keys(qs))` loop. */
  function RewriteKey(q: Fields, k: string, tz: string, fmt: (Value, string) -> string): Fields {
    if k in NotQuery then q else Remove(Put(q, Target(k), NewValue(q, k, tz, fmt)), k)
  }

  /** The whole loop over a snapshot `ks` of the keys. */
  function RewriteFold(q: Fields, ks: seq<string>, tz: string, fmt: (Value, string) -> string): (r: Fields)
    ensures Distinct(q) ==> Distinct(r)
    decreases |ks|
  {
    if ks == [] then q else RewriteFold(RewriteKey(q, ks[0], tz, fmt), ks[1..], tz, fmt)
  }

  /** The key of the sort entry, `sort[${qs.sortBy}]`. */
  function SortKey(sortBy: Value): (k: string)
    ensures |k| > 5 && k[..5] == "sort["
  {
    "sort[" + JsString(sortBy) + "]"
  }

  /** `qs.sortOrder || 'ASC'`. */
  function SortDirection(sortOrder: Value): (d: Value)
    ensures Truthy(d)
    ensures Truthy(sortOrder) ==> d == sortOrder
  {
    if Truthy(sortOrder) then sortOrder else Str("ASC")
  }

  /** Lines 273-275. */
  function SortStep(q: Fields): Fields {
    if Truthy(Lookup(q, "sortBy"))
    then Put(q, SortKey(Lookup(q, "sortBy")), SortDirection(Lookup(q, "sortOrder")))
    else q
  }

  /** Lines 277-280. */
  function ExactMatchStep(q: Fields): Fields {
    if Lookup(q, "exactMatch") == Bool(true)
    then Remove(Put(q, "additionalFlags", Str("exactMatch")), "exactMatch")
    else q
  }

  /** Line 285: the page size is only set for a single-page request. */
  function PageSizeStep(q: Fields, returnAll: bool, limit: int): Fields {
    if returnAll then q else Put(q, "perPage", Num(limit))
  }

  /** The `qs` object `getAll` leaves behind and sends, from the `qs` it found. */
  function ListQuery(qs: Fields, options: Fields, returnAll: bool, limit: int,
                     tz: string, fmt: (Value, string) -> string): (sent: Fields)
    ensures Distinct(qs) ==> Distinct(sent)
  {
    var merged := Assign(qs, options);
    PageSizeStep(ExactMatchStep(SortStep(RewriteFold(merged, Keys(merged), tz, fmt))), returnAll, limit)
  }

  lemma TargetNotPlain(k: string)
    ensures !Plain(Target(k))
  {
    assert Target(k)[5] == '[';
  }

  lemma TargetNotAllowlisted(k: string)
    ensures Target(k) !in NotQuery
  {
    assert Target(k)[0] == 'q';
  }

  /** Different plain keys are rewritten to different keys. */
  lemma TargetInjective(k1: string, k2: string)
    requires Plain(k1) && Plain(k2) && Target(k1) == Target(k2)
    ensures k1 == k2
  {
    var t := Target(k1);
    if k1 in DateKeys && k2 !in DateKeys {
      PlainTargetIsNotDate(k2, k1);
    } else if k2 in DateKeys && k1 !in DateKeys {
      PlainTargetIsNotDate(k1, k2);
    } else if k1 !in DateKeys {
      assert k1 == t[6..|t| - 1] == k2;
    }
  }

  /** `query[k]` for a plain `k` is never the key of a date. */
  lemma PlainTargetIsNotDate(k: string, d: string)
    requires Plain(k) && k !in DateKeys && d in DateKeys
    ensures Target(k) != Target(d)
  {
    var t, td := Target(k), Target(d);
    var i := if d == "createdOnFrom" || d == "createdOnTo" then 9 else 8;
    assert td[6 + i] == ']';
    assert |t| == |k| + 7;
    if |t| == |td| {
      assert t[6 + i] == k[i];
    }
  }

  /** A key neither rewritten nor produced by any pass keeps its presence and its value. */
  lemma {:induction false} RewriteUntouched(q: Fields, ks: seq<string>, tz: string, fmt: (Value, string) -> string, x: string)
    requires forall k :: k in ks && k !in NotQuery ==> k != x && Target(k) != x
    ensures Has(RewriteFold(q, ks, tz, fmt), x) == Has(q, x)
    ensures Lookup(RewriteFold(q, ks, tz, fmt), x) == Lookup(q, x)
    decreases |ks|
  {
    if ks != [] {
      assert forall k :: k in ks[1..] ==> k in ks;
      RewriteUntouched(RewriteKey(q, ks[0], tz, fmt), ks[1..], tz, fmt, x);
    }
  }

  /** The allowlisted keys come out of the loop exactly as they went in. */
  lemma RewriteKeepsAllowlisted(q: Fields, ks: seq<string>, tz: string, fmt: (Value, string) -> string, x: string)
    requires x in NotQuery
    ensures Has(RewriteFold(q, ks, tz, fmt), x) == Has(q, x)
    ensures Lookup(RewriteFold(q, ks, tz, fmt), x) == Lookup(q, x)
  {
    forall k | k in ks && k !in NotQuery ensures k != x && Target(k) != x {
      TargetNotAllowlisted(k);
    }
    RewriteUntouched(q, ks, tz, fmt, x);
  }

  /** Every plain key of the snapshot outside the allowlist is deleted. */
  lemma {:induction false} RewriteRemoves(q: Fields, ks: seq<string>, tz: string, fmt: (Value, string) -> string, x: string)
    requires x in ks && x !in NotQuery && Plain(x)
    ensures !Has(RewriteFold(q, ks, tz, fmt), x)
    decreases |ks|
  {
    var q' := RewriteKey(q, ks[0], tz, fmt);
    if ks[0] == x {
      RewriteAbsentStaysAbsent(q', ks[1..], tz, fmt, x);
    } else {
      RewriteRemoves(q', ks[1..], tz, fmt, x);
    }
  }

  /** A plain key outside the allowlist that is absent stays absent: passes only
      add bracketed keys. */
  lemma {:induction false} RewriteAbsentStaysAbsent(q: Fields, ks: seq<string>, tz: string, fmt: (Value, string) -> string, x: string)
    requires !Has(q, x) && x !in NotQuery && Plain(x)
    ensures !Has(RewriteFold(q, ks, tz, fmt), x)
    decreases |ks|
  {
    if ks != [] {
      var q' := RewriteKey(q, ks[0], tz, fmt);
      if ks[0] !in NotQuery { TargetNotPlain(ks[0]); }
      RewriteAbsentStaysAbsent(q', ks[1..], tz, fmt, x);
    }
  }

  /** A bracket-free key `k` outside the allowlist, visited at position `i` of
      the snapshot, leaves its value (formatted if it is a date) under
      `Target(k)`, provided `k` occurs nowhere else and every later key is
      bracket-free: earlier keys may be anything, because `k` overwrites them. */
  lemma {:induction false} RewriteTargetsAt(q: Fields, ks: seq<string>, tz: string, fmt: (Value, string) -> string,
                                            k: string, i: nat)
    requires Plain(k) && k !in NotQuery
    requires i < |ks| && ks[i] == k
    requires forall m :: 0 <= m < i ==> ks[m] != k
    requires forall m :: i < m < |ks| ==> Plain(ks[m]) && ks[m] != k
    ensures Has(RewriteFold(q, ks, tz, fmt), Target(k))
    ensures Lookup(RewriteFold(q, ks, tz, fmt), Target(k)) == NewValue(q, k, tz, fmt)
    decreases i
  {
    var q' := RewriteKey(q, ks[0], tz, fmt);
    var rest := ks[1..];
    if i == 0 {
      TargetNotPlain(k);
      forall j | j in rest && j !in NotQuery ensures j != Target(k) && Target(j) != Target(k) {
        var m :| 0 <= m < |rest| && rest[m] == j;
        assert ks[m + 1] == j;
        if Target(j) == Target(k) { TargetInjective(j, k); }
      }
      RewriteUntouched(q', rest, tz, fmt, Target(k));
    } else {
      if ks[0] !in NotQuery { TargetNotPlain(ks[0]); }
      assert Lookup(q', k) == Lookup(q, k);
      assert rest[i - 1] == k;
      forall m | 0 <= m < i - 1 ensures rest[m] != k { assert rest[m] == ks[m + 1]; }
      forall m | i - 1 < m < |rest| ensures Plain(rest[m]) && rest[m] != k { assert rest[m] == ks[m + 1]; }
      RewriteTargetsAt(q', rest, tz, fmt, k, i - 1);
    }
  }

  /** Nothing else appears: a key present after the loop was allowlisted or
      outside the snapshot beforehand, or is the target of a rewritten key. */
  lemma {:induction false} RewriteOrigin(q: Fields, ks: seq<string>, tz: string, fmt: (Value, string) -> string, x: string)
    requires Has(RewriteFold(q, ks, tz, fmt), x)
    ensures (Has(q, x) && (x in NotQuery || x !in ks)) || exists k :: k in ks && k !in NotQuery && Target(k) == x
    decreases |ks|
  {
    if ks != [] {
      var q' := RewriteKey(q, ks[0], tz, fmt);
      RewriteOrigin(q', ks[1..], tz, fmt, x);
      if exists k :: k in ks[1..] && k !in NotQuery && Target(k) == x {
        var k :| k in ks[1..] && k !in NotQuery && Target(k) == x;
        assert k in ks;
      } else if ks[0] !in NotQuery && x == Target(ks[0]) {
        assert ks[0] in ks;
      }
    }
  }

  /** Rewriting the oldest key of `qs` moves its value to the end, under its
      `query[...]` key, when that key is new. */
  lemma RewriteFront(k: string, w: Value, rest: Fields, tz: string, fmt: (Value, string) -> string)
    requires k !in NotQuery && k !in DateKeys && !Has(rest, k) && !Has(rest, Target(k))
    ensures RewriteKey([(k, w)] + rest, k, tz, fmt) == rest + [(Target(k), w)]
  {
    var f := [(k, w)] + rest;
    var t := Target(k);
    assert f[1..] == rest;
    assert |t| == |k| + 7;
    PutNew(f, t, w);
    PutNew(rest, t, w);
    var x := rest + [(t, w)];
    assert f + [(t, w)] == [(k, w)] + x;
    assert ([(k, w)] + x)[1..] == x;
    RemoveAbsent(x, k);
  }

  /** The sort entry: with a truthy `sortBy`, `sort[<sortBy>]` holds `sortOrder`,
      or "ASC" when that is falsy; `sortBy` and `sortOrder` themselves stay. */
  lemma SortEntry(q: Fields)
    ensures Lookup(SortStep(q), "sortBy") == Lookup(q, "sortBy")
    ensures Lookup(SortStep(q), "sortOrder") == Lookup(q, "sortOrder")
    ensures Has(SortStep(q), "sortBy") == Has(q, "sortBy")
    ensures Has(SortStep(q), "sortOrder") == Has(q, "sortOrder")
    ensures Truthy(Lookup(q, "sortBy")) ==>
      Lookup(SortStep(q), SortKey(Lookup(q, "sortBy"))) ==
        (if Truthy(Lookup(q, "sortOrder")) then Lookup(q, "sortOrder") else Str("ASC"))
    ensures !Truthy(Lookup(q, "sortBy")) ==> SortStep(q) == q
  {
    var k := SortKey(Lookup(q, "sortBy"));
    assert k[4] == '[';
    assert k != "sortBy" && k != "sortOrder";
  }

  /** Only `exactMatch === true` becomes `additionalFlags=exactMatch`; any other
      `exactMatch` is left in place. */
  lemma ExactMatchFlag(q: Fields)
    ensures Lookup(q, "exactMatch") == Bool(true) ==>
      Lookup(ExactMatchStep(q), "additionalFlags") == Str("exactMatch") && !Has(ExactMatchStep(q), "exactMatch")
    ensures Lookup(q, "exactMatch") != Bool(true) ==> ExactMatchStep(q) == q
  {
  }

  /** A single page carries `perPage=limit`; `returnAll` leaves `perPage` as it was. */
  lemma PageSize(q: Fields, returnAll: bool, limit: int)
    ensures !returnAll ==> Lookup(PageSizeStep(q, returnAll, limit), "perPage") == Num(limit)
    ensures returnAll ==> PageSizeStep(q, returnAll, limit) == q
  {
  }

  /** With no sort, no exact match and no page size yet, the steps after the
      loop only append the page size of a single-page request. */
  lemma PlainTail(r: Fields, returnAll: bool, limit: int)
    requires !Has(r, "sortBy") && !Has(r, "exactMatch") && !Has(r, "perPage")
    ensures PageSizeStep(ExactMatchStep(SortStep(r)), returnAll, limit)
         == if returnAll then r else r + [("perPage", Num(limit))]
  {
    if !returnAll { PutNew(r, "perPage", Num(limit)); }
  }

  /** The steps after the loop touch only the sort key, `additionalFlags`,
      `exactMatch` and, for a single page, `perPage`. */
  lemma TailUntouched(r: Fields, returnAll: bool, limit: int, x: string)
    requires x != SortKey(Lookup(r, "sortBy")) && x != "additionalFlags" && x != "exactMatch"
    requires returnAll || x != "perPage"
    ensures var t := PageSizeStep(ExactMatchStep(SortStep(r)), returnAll, limit);
      Lookup(t, x) == Lookup(r, x) && Has(t, x) == Has(r, x)
  {
  }

  /** No bracket-free key outside the allowlist is left in `q`, apart from the
      page size: what every `getAll` item leaves for the next one. */
  ghost predicate FiltersRewritten(q: Fields) {
    forall x :: Plain(x) && x !in NotQuery && x != "perPage" ==> !Has(q, x)
  }

  /** Whatever `qs` it starts from, `getAll` leaves every such key rewritten. */
  lemma ListQueryRewritten(qs: Fields, options: Fields, returnAll: bool, limit: int,
                           tz: string, fmt: (Value, string) -> string)
    ensures FiltersRewritten(ListQuery(qs, options, returnAll, limit, tz, fmt))
  {
    var merged := Assign(qs, options);
    var ks := Keys(merged);
    var r := RewriteFold(merged, ks, tz, fmt);
    var sortKey := SortKey(Lookup(r, "sortBy"));
    assert !Plain(sortKey) by { assert sortKey[4] == '['; }
    forall x | Plain(x) && x !in NotQuery && x != "perPage"
      ensures !Has(ListQuery(qs, options, returnAll, limit, tz, fmt), x)
    {
      if x in ks {
        RewriteRemoves(merged, ks, tz, fmt, x);
      } else {
        RewriteAbsentStaysAbsent(merged, ks, tz, fmt, x);
      }
      TailUntouched(r, returnAll, limit, x);
    }
  }

  /** An option absent from `qs` is merged after every property of `qs`, once,
      and only bracket-free option names follow it. */
  lemma NewOptionAt(qs: Fields, options: Fields, k: string) returns (i: nat)
    requires Distinct(qs) && Distinct(options) && forall j :: Has(options, j) ==> Plain(j)
    requires Has(options, k) && !Has(qs, k)
    ensures var ks := Keys(Assign(qs, options));
      && i < |ks| && ks[i] == k
      && (forall m :: 0 <= m < i ==> ks[m] != k)
      && (forall m :: i < m < |ks| ==> Plain(ks[m]) && ks[m] != k)
  {
    var merged := Assign(qs, options);
    var ks := Keys(merged);
    AssignExtends(qs, options);
    assert Has(merged, k);
    i :| 0 <= i < |ks| && ks[i] == k;
    forall m | 0 <= m < |ks| && m != i ensures ks[m] != k {
      KeysAt(merged, m);
      KeysAt(merged, i);
      if m < i { DistinctApart(merged, m, i); } else { DistinctApart(merged, i, m); }
    }
  }

  /** An option absent from the incoming `qs` is sent under its `query[...]`
      key, with its value (a date formatted). */
  lemma ListQueryRewrites(qs: Fields, options: Fields, returnAll: bool, limit: int,
                          tz: string, fmt: (Value, string) -> string, k: string)
    requires Distinct(qs) && Distinct(options) && forall j :: Has(options, j) ==> Plain(j)
    requires Has(options, k) && k !in NotQuery && !Has(qs, k)
    ensures Lookup(ListQuery(qs, options, returnAll, limit, tz, fmt), Target(k)) == NewValue(options, k, tz, fmt)
  {
    var merged := Assign(qs, options);
    var ks := Keys(merged);
    var i := NewOptionAt(qs, options, k);
    RewriteTargetsAt(merged, ks, tz, fmt, k, i);
    var r := RewriteFold(merged, ks, tz, fmt);
    assert NewValue(merged, k, tz, fmt) == NewValue(options, k, tz, fmt);
    assert SortKey(Lookup(r, "sortBy"))[0] == 's' && Target(k)[0] == 'q';
    TailUntouched(r, returnAll, limit, Target(k));
  }

  /** ... and not under its own name, unless it is the page size of a single page. */
  lemma ListQueryRemoves(qs: Fields, options: Fields, returnAll: bool, limit: int,
                         tz: string, fmt: (Value, string) -> string, k: string)
    requires Plain(k) && Has(options, k) && k !in NotQuery && (returnAll || k != "perPage")
    ensures !Has(ListQuery(qs, options, returnAll, limit, tz, fmt), k)
  {
    var merged := Assign(qs, options);
    var ks := Keys(merged);
    var r := RewriteFold(merged, ks, tz, fmt);
    var sortKey := SortKey(Lookup(r, "sortBy"));
    RewriteRemoves(merged, ks, tz, fmt, k);
    assert !Plain(sortKey) by { assert sortKey[4] == '['; }
    TailUntouched(r, returnAll, limit, k);
  }

  /** The sort entry never lands on an allowlisted key. */
  lemma SortKeyNotAllowlisted(sortBy: Value, k: string)
    requires k in NotQuery
    ensures SortKey(sortBy) != k
  {
    assert SortKey(sortBy)[4] == '[' && (|k| <= 4 || k[4] != '[');
  }

  /** An allowlisted option other than the flags is sent as given. */
  lemma ListQueryKeeps(qs: Fields, options: Fields, returnAll: bool, limit: int,
                       tz: string, fmt: (Value, string) -> string, k: string)
    requires Distinct(options) && Has(options, k)
    requires k in NotQuery && k != "exactMatch" && k != "additionalFlags"
    ensures Lookup(ListQuery(qs, options, returnAll, limit, tz, fmt), k) == Lookup(options, k)
  {
    var merged := Assign(qs, options);
    assert Lookup(merged, k) == Lookup(options, k);
    var ks := Keys(merged);
    var r := RewriteFold(merged, ks, tz, fmt);
    RewriteKeepsAllowlisted(merged, ks, tz, fmt, k);
    SortKeyNotAllowlisted(Lookup(r, "sortBy"), k);
    TailUntouched(r, returnAll, limit, k);
  }

  /** What `getAll` sends for each option of its item, whatever the shared `qs`
      held: an option outside the allowlist that `qs` did not hold goes under
      its `query[...]` form, dates formatted; no such option is sent under its
      own name, apart from a single page's `perPage`; and the allowlisted
      `sortBy`, `sortOrder` and `fields` are sent unchanged (`exactMatch` and
      `additionalFlags` are the subject of `ExactMatchFlag`). */
  lemma ListQuerySent(qs: Fields, options: Fields, returnAll: bool, limit: int,
                      tz: string, fmt: (Value, string) -> string, k: string)
    requires Distinct(qs) && Distinct(options) && forall j :: Has(options, j) ==> Plain(j)
    requires Has(options, k)
    ensures var sent := ListQuery(qs, options, returnAll, limit, tz, fmt);
      && (k !in NotQuery && !Has(qs, k) ==> Lookup(sent, Target(k)) == NewValue(options, k, tz, fmt))
      && (k !in NotQuery && (returnAll || k != "perPage") ==> !Has(sent, k))
      && (k in NotQuery && k != "exactMatch" && k != "additionalFlags" ==> Lookup(sent, k) == Lookup(options, k))
  {
    if k !in NotQuery {
      if !Has(qs, k) {
        ListQueryRewrites(qs, options, returnAll, limit, tz, fmt, k);
      }
      if returnAll || k != "perPage" {
        ListQueryRemoves(qs, options, returnAll, limit, tz, fmt, k);
      }
    } else if k != "exactMatch" && k != "additionalFlags" {
      ListQueryKeeps(qs, options, returnAll, limit, tz, fmt, k);
    }
  }

  /** The sort options reach the loop as they were given. */
  lemma EmailDescMerged()
    ensures var options := [("sortBy", Str("email")), ("sortOrder", Str("DESC"))];
      Assign([], options) == options && Keys(options) == ["sortBy", "sortOrder"]
  {
    var options := [("sortBy", Str("email")), ("sortOrder", Str("DESC"))];
    assert Put([], "sortBy", Str("email")) == [("sortBy", Str("email"))];
    assert Put([("sortBy", Str("email"))], "sortOrder", Str("DESC")) == options;
  }

  /** Both sort options are allowlisted, so the loop leaves them alone. */
  lemma EmailDescKept(tz: string, fmt: (Value, string) -> string)
    ensures var options := [("sortBy", Str("email")), ("sortOrder", Str("DESC"))];
      RewriteFold(options, ["sortBy", "sortOrder"], tz, fmt) == options
  {
    assert ["sortBy", "sortOrder"][1..] == ["sortOrder"];
  }

  /** The sort entry goes after both options. */
  lemma EmailDescSorted()
    ensures var options := [("sortBy", Str("email")), ("sortOrder", Str("DESC"))];
      SortStep(options) == options + [("sort[email]", Str("DESC"))]
  {
    var options := [("sortBy", Str("email")), ("sortOrder", Str("DESC"))];
    assert Lookup(options, "sortBy") == Str("email");
    assert Lookup(options, "sortOrder") == Str("DESC");
    assert SortKey(Str("email")) == "sort[email]";
    assert Put(options, "sort[email]", Str("DESC")) == options + [("sort[email]", Str("DESC"))] by {
      assert options[1..] == [("sortOrder", Str("DESC"))];
      assert options[1..][1..] == [];
    }
  }

  /** The example of sorting by email descending: the sort entry is added and
      the raw `sortBy` and `sortOrder` keys are still sent next to it. */
  lemma SortByEmailDescending(tz: string, fmt: (Value, string) -> string)
    ensures ListQuery([], [("sortBy", Str("email")), ("sortOrder", Str("DESC"))], true, 0, tz, fmt)
         == [("sortBy", Str("email")), ("sortOrder", Str("DESC")), ("sort[email]", Str("DESC"))]
  {
    var options := [("sortBy", Str("email")), ("sortOrder", Str("DESC"))];
    var sorted := options + [("sort[email]", Str("DESC"))];
    EmailDescMerged();
    EmailDescKept(tz, fmt);
    EmailDescSorted();
    assert Lookup(sorted, "exactMatch") == Undefined;
  }
}
