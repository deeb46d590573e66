/**
 * The generic list middleware (`advancedResults`): it turns the query string
 * of a list request into a document-store query and a paginated envelope.
 *
 * In order, it copies the query and deletes the control keys `select`, `sort`,
 * `page` and `limit` from the copy; serialises the rest and puts a `$` in front
 * of every whole word `gt`, `gte`, `lt`, `lte` or `in`; turns the comma lists of
 * `select` and `sort` into space lists (sorting by `-createdAt` by default);
 * reads `page` and `limit` with `parseInt(...) || default` (1 and 4); skips
 * `(page - 1) * limit` matching records and keeps at most `limit`; and links
 * the next page when `page * limit` is below the size of the whole collection
 * and the previous page when the skip is positive.
 *
 * The document store itself is not modelled: what it answers for the filter
 * and the sort order is the parameter `matching`, and the whole collection
 * whose size `countDocuments` returns is the parameter `collection`.
 */
module AdvancedResults {
  import opened Options
  import opened Text
  import opened OperatorRewrite
  import opened ParseInt

  /** A query-string value: a string, or one level of bracket nesting such as `age[gt]=18`. */
  datatype Value = Str(s: string) | Nested(fields: seq<(string, string)>)

  /** One entry of `req.query`, in the order the query string gave it. */
  datatype Param = Param(key: string, value: Value)

  type Query = seq<Param>

  /** The keys the middleware reads itself and removes from the filter. */
  const ControlKeys: seq<string> := ["select", "sort", "page", "limit"]

  const DefaultSort := "-createdAt"
  const DefaultPage := 1
  const DefaultLimit := 4

  /** The entries of `q` whose key is not among `keys`, in their order. */
  function KeepUnlisted(q: Query, keys: seq<string>): (r: Query)
    ensures |r| <= |q|
  {
    if q == [] then []
    else (if q[0].key in keys then [] else [q[0]]) + KeepUnlisted(q[1..], keys)
  }

  /** A parameter survives the deletion exactly when it was there and its key is not deleted. */
  lemma {:induction false} KeepUnlistedMembers(q: Query, keys: seq<string>, p: Param)
    ensures p in KeepUnlisted(q, keys) <==> p in q && p.key !in keys
  {
    if q != [] {
      KeepUnlistedMembers(q[1..], keys, p);
      assert p in q <==> p == q[0] || p in q[1..];
    }
  }

  /** Deleting one key after others is deleting them all at once. */
  lemma {:induction false} KeepUnlistedAgain(q: Query, keys: seq<string>, k: string)
    ensures KeepUnlisted(KeepUnlisted(q, keys), [k]) == KeepUnlisted(q, keys + [k])
  {
    if q != [] {
      KeepUnlistedAgain(q[1..], keys, k);
      var head := if q[0].key in keys then [] else [q[0]];
      KeepUnlistedConcat(head, KeepUnlisted(q[1..], keys), [k]);
      assert q[0].key in keys + [k] <==> q[0].key in keys || q[0].key == k;
    }
  }

  /** Deleting keys from a concatenation deletes them from each part. */
  lemma {:induction false} KeepUnlistedConcat(a: Query, b: Query, keys: seq<string>)
    ensures KeepUnlisted(a + b, keys) == KeepUnlisted(a, keys) + KeepUnlisted(b, keys)
  {
    if a != [] {
      KeepUnlistedConcat(a[1..], b, keys);
      KeepUnlistedConsConcat(a[0], a[1..], b, keys);
      HeadTail(a);
    } else {
      assert a + b == b;
    }
  }

  /** One step of `KeepUnlistedConcat`, for a query made of a first parameter and the rest. */
  lemma KeepUnlistedConsConcat(p: Param, r: Query, b: Query, keys: seq<string>)
    requires KeepUnlisted(r + b, keys) == KeepUnlisted(r, keys) + KeepUnlisted(b, keys)
    ensures KeepUnlisted([p] + r + b, keys) == KeepUnlisted([p] + r, keys) + KeepUnlisted(b, keys)
  {
    var head := if p.key in keys then [] else [p];
    calc {
      KeepUnlisted([p] + r + b, keys);
      { Reassociate([p], r, b); }
      KeepUnlisted([p] + (r + b), keys);
      { KeepUnlistedCons(p, r + b, keys); }
      head + KeepUnlisted(r + b, keys);
      { KeepUnlistedCons(p, r, keys); }
      KeepUnlisted([p] + r, keys) + KeepUnlisted(b, keys);
    }
  }

  lemma KeepUnlistedCons(p: Param, r: Query, keys: seq<string>)
    ensures KeepUnlisted([p] + r, keys) == (if p.key in keys then [] else [p]) + KeepUnlisted(r, keys)
  {
    ConcatParts([p], r);
  }

  /** `const reqQuery = { ...req.query }; removeField.forEach((param) => delete reqQuery[param])`. */
  method StripControlKeys(query: Query) returns (filter: Query)
    ensures filter == KeepUnlisted(query, ControlKeys)
  {
    filter := query;
    KeepUnlistedNone(query);
    var i := 0;
    while i < |ControlKeys|
      invariant 0 <= i <= |ControlKeys|
      invariant filter == KeepUnlisted(query, ControlKeys[..i])
    {
      KeepUnlistedAgain(query, ControlKeys[..i], ControlKeys[i]);
      assert ControlKeys[..i] + [ControlKeys[i]] == ControlKeys[..i + 1];
      filter := KeepUnlisted(filter, [ControlKeys[i]]);
      i := i + 1;
    }
    assert ControlKeys[..i] == ControlKeys;
  }

  /** Deleting no key keeps the query as it is. */
  lemma {:induction false} KeepUnlistedNone(q: Query)
    ensures KeepUnlisted(q, []) == q
  {
    if q != [] {
      KeepUnlistedNone(q[1..]);
    }
  }

  /** The value of the first entry with that key, as `req.query[key]` reads it. */
  function Lookup(q: Query, key: string): (v: Option<Value>)
    ensures v.Some? <==> exists p :: p in q && p.key == key
    ensures v.Some? ==> Param(key, v.value) in q
  {
    if q == [] then None
    else if q[0].key == key then Some(q[0].value)
    else Lookup(q[1..], key)
  }

  /** A JSON string literal; the escaping of quotes and control characters is not modelled. */
  function Quote(s: string): string {
    "\"" + s + "\""
  }

  function SerializeFields(fields: seq<(string, string)>): string {
    if fields == [] then ""
    else
      var member := Quote(fields[0].0) + ":" + Quote(fields[0].1);
      if |fields| == 1 then member else member + "," + SerializeFields(fields[1..])
  }

  function SerializeValue(v: Value): string {
    match v
    case Str(s) => Quote(s)
    case Nested(fields) => "{" + SerializeFields(fields) + "}"
  }

  function SerializeParams(q: Query): string {
    if q == [] then ""
    else
      var member := Quote(q[0].key) + ":" + SerializeValue(q[0].value);
      if |q| == 1 then member else member + "," + SerializeParams(q[1..])
  }

  /** `JSON.stringify(reqQuery)`. */
  function Serialize(q: Query): (r: string)
    ensures |r| >= 2 && r[0] == '{' && r[|r| - 1] == '}'
    ensures r == "{}" <==> q == []
  {
    "{" + SerializeParams(q) + "}"
  }

  /** The filter string handed to the document store. */
  function FilterText(query: Query): string {
    Rewrite(Serialize(KeepUnlisted(query, ControlKeys)))
  }

  /** `value.split(',').join(' ')`. */
  function SpaceList(value: string): (r: string)
    ensures r == ReplaceChar(value, ',', ' ')
  {
    JoinSplit(value, ',', ' ');
    Join(Split(value, ','), ' ')
  }

  /** The space list holds the same tokens, in the same order, as the comma list. */
  lemma SpaceListTokens(value: string)
    requires ' ' !in value
    ensures Split(SpaceList(value), ' ') == Split(value, ',')
  {
    SplitJoin(Split(value, ','), ' ');
  }

  /** `if (req.query.x)`: present and not the empty string. */
  predicate Truthy(v: Option<Value>) {
    v.Some? && (v.value.Nested? || v.value.s != "")
  }

  /** `String(req.query.x)`, what `parseInt` reads. */
  function JsString(v: Option<Value>): string {
    match v
    case None => "undefined"
    case Some(Str(s)) => s
    case Some(Nested(_)) => "[object Object]"
  }

  /** `parseInt(req.query.page, 10) || 1`. */
  function PageOf(query: Query): (page: int)
    ensures page != 0
    ensures Lookup(query, "page").None? ==> page == DefaultPage
  {
    ParseOr(JsString(Lookup(query, "page")), DefaultPage)
  }

  /** `parseInt(req.query.limit, 10) || 4`. */
  function LimitOf(query: Query): (limit: int)
    ensures limit != 0
    ensures Lookup(query, "limit").None? ==> limit == DefaultLimit
  {
    ParseOr(JsString(Lookup(query, "limit")), DefaultLimit)
  }

  /** A page or limit written as a non-zero number is read back as that number. */
  lemma PageAndLimitRead(query: Query, page: int, limit: int)
    requires page != 0 && limit != 0
    requires Lookup(query, "page") == Some(Str(Show(page)))
    requires Lookup(query, "limit") == Some(Str(Show(limit)))
    ensures PageOf(query) == page && LimitOf(query) == limit
  {
    ParseOrShow(page, DefaultPage);
    ParseOrShow(limit, DefaultLimit);
  }

  /** `(page - 1) * limit`: how many matching records come before the page. */
  function StartIndex(page: int, limit: int): int {
    (page - 1) * limit
  }

  /** `page * limit`. */
  function EndIndex(page: int, limit: int): int {
    page * limit
  }

  /** The page ends `limit` records after it starts. */
  lemma EndIsStartPlusLimit(page: int, limit: int)
    ensures EndIndex(page, limit) == StartIndex(page, limit) + limit
  {
  }

  function Abs(x: int): nat {
    if x < 0 then -x else x
  }

  function Min(x: int, y: int): int {
    if x <= y then x else y
  }

  /** `.skip(start).limit(count)` on the matching records. */
  function Window<T>(rows: seq<T>, start: nat, count: nat): (w: seq<T>)
    ensures |w| <= count
    ensures |w| == Min(count, if start <= |rows| then |rows| - start else 0)
    ensures forall i :: 0 <= i < |w| ==> start + i < |rows| && w[i] == rows[start + i]
  {
    var from := Min(start, |rows|);
    rows[from..Min(start + count, |rows|)]
  }

  /** Consecutive windows read the matching records without gap or overlap. */
  lemma WindowsAdjoin<T>(rows: seq<T>, start: nat, first: nat, second: nat)
    ensures Window(rows, start, first) + Window(rows, start + first, second) == Window(rows, start, first + second)
  {
    var a, b := Window(rows, start, first), Window(rows, start + first, second);
    var c := Window(rows, start, first + second);
    assert |a + b| == |c|;
    forall i | 0 <= i < |c|
      ensures (a + b)[i] == c[i]
    {
      if i >= |a| {
        assert |a| == first;
        assert (a + b)[i] == b[i - |a|];
      }
    }
  }

  datatype Link = Link(page: int, limit: int)

  datatype Pagination = Pagination(next: Option<Link>, prev: Option<Link>)

  /** `res.advancedResults`. */
  datatype Envelope<T> = Envelope(success: bool, count: nat, pagination: Pagination, data: seq<T>)

  /** What the middleware asks of the document store. */
  datatype QueryPlan = QueryPlan(filter: string, fields: Option<string>, sortBy: string, skip: int, limit: int)

  /**
   * `Rejected` is a run whose promise rejects before any response: `split` on a
   * nested `select` or `sort`, or the store refusing a negative skip.
   */
  datatype Listing<T> = Listed(plan: QueryPlan, results: Envelope<T>) | Rejected

  predicate IsNested(v: Option<Value>) {
    v.Some? && v.value.Nested?
  }

  /** The whole middleware, step by step as the handler runs. */
  method ListResults<T>(query: Query, collection: seq<T>, matching: seq<T>) returns (out: Listing<T>)
    ensures out.Rejected? <==>
      IsNested(Lookup(query, "select")) || IsNested(Lookup(query, "sort"))
      || StartIndex(PageOf(query), LimitOf(query)) < 0
    ensures out.Listed? ==>
      var page, limit := PageOf(query), LimitOf(query);
      var start := StartIndex(page, limit);
      var select, sort := Lookup(query, "select"), Lookup(query, "sort");
      && out.plan.filter == Rewrite(Serialize(KeepUnlisted(query, ControlKeys)))
      && out.plan.fields == (if Truthy(select) then Some(ReplaceChar(select.value.s, ',', ' ')) else None)
      && out.plan.sortBy == (if Truthy(sort) then ReplaceChar(sort.value.s, ',', ' ') else DefaultSort)
      && out.plan.skip == start && out.plan.limit == limit
      && out.results.success
      && out.results.count == |out.results.data|
      && out.results.data == Window(matching, start, Abs(limit))
      && out.results.pagination.next == (if EndIndex(page, limit) < |collection| then Some(Link(page + 1, limit)) else None)
      && out.results.pagination.prev == (if start > 0 then Some(Link(page - 1, limit)) else None)
  {
    var filter := StripControlKeys(query);
    var queryStr := Serialize(filter);
    queryStr := Rewrite(queryStr);

    var select := Lookup(query, "select");
    var fields: Option<string> := None;
    if Truthy(select) {
      if select.value.Nested? {
        return Rejected;
      }
      fields := Some(SpaceList(select.value.s));
    }
    var sort := Lookup(query, "sort");
    var sortBy := DefaultSort;
    if Truthy(sort) {
      if sort.value.Nested? {
        return Rejected;
      }
      sortBy := SpaceList(sort.value.s);
    }

    var page := PageOf(query);
    var limit := LimitOf(query);
    var startIndex := StartIndex(page, limit);
    var endIndex := EndIndex(page, limit);
    var total := |collection|;
    if startIndex < 0 {
      return Rejected;
    }
    var results := Window(matching, startIndex, Abs(limit));

    var pagination := Pagination(None, None);
    if endIndex < total {
      pagination := pagination.(next := Some(Link(page + 1, limit)));
    }
    if startIndex > 0 {
      pagination := pagination.(prev := Some(Link(page - 1, limit)));
    }

    var plan := QueryPlan(queryStr, fields, sortBy, startIndex, limit);
    out := Listed(plan, Envelope(true, |results|, pagination, results));
  }

  /**
   * The previous-page link follows the skip, not the page number: with
   * `page=-1&limit=-2` the skip is 4, so a previous page (-2) is linked from
   * a page that is not after the first.
   */
  lemma PrevLinkWithoutEarlierPage()
    ensures var q := [Param("page", Str("-1")), Param("limit", Str("-2"))];
      && PageOf(q) == -1 && LimitOf(q) == -2
      && StartIndex(PageOf(q), LimitOf(q)) == 4
      && StartIndex(PageOf(q), LimitOf(q)) > 0 && PageOf(q) - 1 == -2
  {
    var q := [Param("page", Str("-1")), Param("limit", Str("-2"))];
    assert Show(-1) == "-1" && Show(-2) == "-2";
    assert Lookup(q, "limit") == Some(Str("-2")) by {
      assert q[1..] == [Param("limit", Str("-2"))];
    }
    PageAndLimitRead(q, -1, -2);
  }

  /** A bracketed operator of the query string (`averageCost[lte]=10000`) becomes a store operator. */
  lemma OperatorInKey()
    ensures FilterText([Param("averageCost", Nested([("lte", "10000")])), Param("page", Str("2"))])
         == "{\"averageCost\":{\"$lte\":\"10000\"}}"
  {
    var member := "{\"" + ("averageCost" + ("\":{\"" + ("lte" + "\":\"")));
    var tail := "10000" + "\"}}";
    calc {
      FilterText([Param("averageCost", Nested([("lte", "10000")])), Param("page", Str("2"))]);
      { InKeySerialized(); }
      MarkWords(member + tail, Alternatives);
      { MarkWordsConcat(member, tail, Alternatives); }
      MarkWords(member, Alternatives) + MarkWords(tail, Alternatives);
      { InKeyMemberRewritten(); InKeyAmountRewritten(); }
      "{\"" + ("" + "averageCost" + ("\":{\"" + ("$" + "lte" + "\":\""))) + ("" + "10000" + "\"}}");
      { InKeyText(); }
      "{\"averageCost\":{\"$lte\":\"10000\"}}";
    }
  }

  lemma InKeyMemberRewritten()
    ensures MarkWords("{\"" + ("averageCost" + ("\":{\"" + ("lte" + "\":\""))), Alternatives)
         == "{\"" + ("" + "averageCost" + ("\":{\"" + ("$" + "lte" + "\":\"")))
  {
    MarkWordsOfMember("{\"", "averageCost", "\":{\"", "lte", "\":\"", Alternatives);
    assert Marker("averageCost", Alternatives) == "" && Marker("lte", Alternatives) == "$";
  }

  lemma InKeyAmountRewritten()
    ensures MarkWords("10000" + "\"}}", Alternatives) == "" + "10000" + "\"}}"
  {
    MarkWordsOfWord("10000", Alternatives);
    MarkWordsOfNonWord("\"}}", Alternatives);
    MarkWordsConcat("10000", "\"}}", Alternatives);
    assert Marker("10000", Alternatives) == "";
  }

  /** The pieces of the rewritten filter, put together; kept apart so the concatenation is proved in a small context. */
  lemma InKeyText()
    ensures "{\"" + ("" + "averageCost" + ("\":{\"" + ("$" + "lte" + "\":\""))) + ("" + "10000" + "\"}}")
         == "{\"averageCost\":{\"$lte\":\"10000\"}}"
  {
  }

  lemma InKeySerialized()
    ensures Serialize(KeepUnlisted([Param("averageCost", Nested([("lte", "10000")])), Param("page", Str("2"))], ControlKeys))
         == "{\"" + ("averageCost" + ("\":{\"" + ("lte" + "\":\""))) + ("10000" + "\"}}")
  {
    var q := [Param("averageCost", Nested([("lte", "10000")])), Param("page", Str("2"))];
    var kept := [Param("averageCost", Nested([("lte", "10000")]))];
    assert KeepUnlisted(q, ControlKeys) == kept by {
      assert "averageCost" !in ControlKeys && "page" in ControlKeys;
      assert q[1..][1..] == [];
    }
  }

  /** The rewrite is textual: a value that spells an operator gets a `$` too. */
  lemma OperatorInValue()
    ensures FilterText([Param("location", Str("in"))]) == "{\"location\":\"$in\"}"
  {
    var open, key, colon, value, close := "{\"", "location", "\":\"", "in", "\"}";
    InValueSerialized();
    MarkWordsOfMember(open, key, colon, value, close, Alternatives);
    assert Marker(key, Alternatives) == "" && Marker(value, Alternatives) == "$";
    InValueText();
  }

  /** One `"key":"value"` member between punctuation is rewritten word by word. */
  lemma MarkWordsOfMember(open: string, key: string, colon: string, value: string, close: string, words: seq<string>)
    requires open != [] && colon != [] && close != []
    requires forall k :: 0 <= k < |open| ==> !IsWordChar(open[k])
    requires forall k :: 0 <= k < |colon| ==> !IsWordChar(colon[k])
    requires forall k :: 0 <= k < |close| ==> !IsWordChar(close[k])
    requires key != [] && forall k :: 0 <= k < |key| ==> IsWordChar(key[k])
    requires value != [] && forall k :: 0 <= k < |value| ==> IsWordChar(value[k])
    ensures MarkWords(open + (key + (colon + (value + close))), words)
         == open + (Marker(key, words) + key + (colon + (Marker(value, words) + value + close)))
  {
    MarkWordsOfNonWord(open, words);
    MarkWordsOfNonWord(colon, words);
    MarkWordsOfNonWord(close, words);
    MarkWordsOfWord(key, words);
    MarkWordsOfWord(value, words);
    MarkWordsConcat(value, close, words);
    MarkWordsConcat(colon, value + close, words);
    MarkWordsConcat(key, colon + (value + close), words);
    MarkWordsConcat(open, key + (colon + (value + close)), words);
  }

  lemma InValueSerialized()
    ensures Serialize(KeepUnlisted([Param("location", Str("in"))], ControlKeys))
         == "{\"" + ("location" + ("\":\"" + ("in" + "\"}")))
  {
    var q := [Param("location", Str("in"))];
    assert KeepUnlisted(q, ControlKeys) == q by {
      assert "location" !in ControlKeys;
    }
  }

  /** The pieces of the rewritten value, put together; kept apart so the concatenation is proved in a small context. */
  lemma InValueText()
    ensures "{\"" + ("" + "location" + ("\":\"" + ("$" + "in" + "\"}"))) == "{\"location\":\"$in\"}"
  {
  }
}
