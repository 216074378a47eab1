/**
 * Navigation of a decoded reply (`SurrealResponseData`). A query reply's `result` is an
 * array with one entry per statement of the query; each entry is an object whose
 * `"result"` key (or an alias chosen in the query) holds the statement's rows.
 */
module Response {
  import opened Wrappers
  import opened Json
  import opened Message

  /** The key a statement's rows are stored under when the query gives no alias. */
  const DefaultAlias: string := "result"

  function AliasKey(alias: Option<string>): string
  {
    match alias
    case None => DefaultAlias
    case Some(a) => a
  }

  /** The path from a reply's `result` to the rows of statement `n` under `key`. */
  function RowsPath(n: nat, key: string): seq<PathStep>
  {
    [Index(n), Key(key)]
  }

  /** Reference lookup: the array found at the end of `path`, if there is one. */
  function ArrayAt(v: Value, path: seq<PathStep>): Option<seq<Value>>
  {
    match Navigate(v, path)
    case Some(Arr(items)) => Some(items)
    case _ => None
  }

  /** `get_nth_aliased_results`: the rows statement `n` stores under `alias` (default `"result"`). */
  function GetNthAliasedResults(resp: ResponseData, n: nat, alias: Option<string>): (r: Option<seq<Value>>)
    ensures r == ArrayAt(resp.result, RowsPath(n, AliasKey(alias)))
  {
    NavigateIndexKey(resp.result, n, AliasKey(alias));
    match AsArray(resp.result)
    case Some(statements) =>
      (match if n < |statements| then Some(statements[n]) else None
       case Some(first) =>
         (match Get(first, AliasKey(alias))
          case Some(arrayOfResults) =>
            (match AsArray(arrayOfResults)
             case Some(rows) => Some(rows)
             case None => None)
          case None => None)
       case None => None)
    case None => None
  }

  /** `get_aliased_results`: the rows of the first statement under `alias`. */
  function GetAliasedResults(resp: ResponseData, alias: Option<string>): (r: Option<seq<Value>>)
    ensures r == ArrayAt(resp.result, RowsPath(0, AliasKey(alias)))
  {
    GetNthAliasedResults(resp, 0, alias)
  }

  /** `get_results`: the rows of the first statement under the default key. */
  function GetResults(resp: ResponseData): (r: Option<seq<Value>>)
    ensures r == ArrayAt(resp.result, RowsPath(0, DefaultAlias))
  {
    GetAliasedResults(resp, None)
  }

  lemma NotArrayGivesNone(resp: ResponseData, n: nat, alias: Option<string>)
    requires !resp.result.Arr?
    ensures GetNthAliasedResults(resp, n, alias) == None
  {
  }

  lemma OutOfRangeGivesNone(resp: ResponseData, n: nat, alias: Option<string>)
    requires resp.result.Arr? && n >= |resp.result.items|
    ensures GetNthAliasedResults(resp, n, alias) == None
  {
  }

  /** The nth entry lacks the key (or is not an object), or the key holds something other than an array. */
  lemma NoRowsUnderKeyGivesNone(resp: ResponseData, n: nat, alias: Option<string>)
    requires resp.result.Arr? && n < |resp.result.items|
    requires Get(resp.result.items[n], AliasKey(alias)).None? || !Get(resp.result.items[n], AliasKey(alias)).value.Arr?
    ensures GetNthAliasedResults(resp, n, alias) == None
  {
  }

  /** Otherwise the result is exactly the array stored under the key; no alias means `"result"`. */
  lemma RowsUnderKeyAreReturned(resp: ResponseData, n: nat, key: string, rows: seq<Value>)
    requires resp.result.Arr? && n < |resp.result.items|
    requires Get(resp.result.items[n], key) == Some(Arr(rows))
    ensures GetNthAliasedResults(resp, n, Some(key)) == Some(rows)
    ensures key == DefaultAlias ==> GetNthAliasedResults(resp, n, None) == Some(rows)
  {
  }

  /** With no alias the lookup is the one made with the alias `"result"`. */
  lemma DefaultAliasIsResult(resp: ResponseData, n: nat)
    ensures GetNthAliasedResults(resp, n, None) == GetNthAliasedResults(resp, n, Some("result"))
  {
  }

  /** The worked example in the documentation of `get_nth_aliased_results`. */
  lemma DocExample(x: Value, y: Value)
    ensures var resp := ResponseData("0", Arr([Obj(map["result" := Arr([x])]), Obj(map["friends" := Arr([y])])]));
      && GetNthAliasedResults(resp, 0, None) == Some([x])
      && GetNthAliasedResults(resp, 1, Some("friends")) == Some([y])
      && GetNthAliasedResults(resp, 1, None) == None
  {
    var resp := ResponseData("0", Arr([Obj(map["result" := Arr([x])]), Obj(map["friends" := Arr([y])])]));
    assert "result" != "friends";
    assert resp.result.items[1] == Obj(map["friends" := Arr([y])]);
  }

  /**
   * One statement's entry in a query reply, decoded: `{"time", "status", "result"}`.
   * `Results` gives its rows.
   */
  datatype QueryResult = QueryResult(time: string, status: string, rows: seq<Value>)
  {
    /** The entry as it appears on the wire. */
    function ToValue(): Value
    {
      Obj(map["time" := Str(time), "status" := Str(status), DefaultAlias := Arr(rows)])
    }

    /** `results()`: the rows, which on the wire sit under `result`. */
    function Results(): (r: seq<Value>)
      ensures Get(ToValue(), DefaultAlias) == Some(Arr(r))
    {
      rows
    }
  }

  /**
   * Typed decoding of one statement entry: `time` and `status` must be strings and
   * `result` an array; extra fields are ignored, a missing or mistyped one fails.
   */
  function DecodeQueryResult(v: Value): (r: Option<QueryResult>)
    ensures r.Some? <==>
      && Get(v, "time").Some? && Get(v, "time").value.Str?
      && Get(v, "status").Some? && Get(v, "status").value.Str?
      && Get(v, DefaultAlias).Some? && Get(v, DefaultAlias).value.Arr?
    ensures r.Some? ==>
      && Get(v, "time") == Some(Str(r.value.time))
      && Get(v, "status") == Some(Str(r.value.status))
      && Get(v, DefaultAlias) == Some(Arr(r.value.Results()))
  {
    match (Get(v, "time"), Get(v, "status"), Get(v, DefaultAlias))
    case (Some(Str(t)), Some(Str(s)), Some(Arr(rows))) => Some(QueryResult(t, s, rows))
    case _ => None
  }

  /** Decoding a statement entry's wire form gives the statement back. */
  lemma DecodeQueryResultRoundTrip(q: QueryResult)
    ensures DecodeQueryResult(q.ToValue()) == Some(q)
  {
    var v := q.ToValue();
    assert "time" != DefaultAlias && "status" != DefaultAlias && "time" != "status";
    assert Get(v, "time") == Some(Str(q.time));
    assert Get(v, "status") == Some(Str(q.status));
    assert Get(v, DefaultAlias) == Some(Arr(q.rows));
  }

  /** `get_nth_query_result`: statement `n` of the reply, decoded. */
  function GetNthQueryResult(resp: ResponseData, n: nat): (r: Option<QueryResult>)
    ensures r.Some? ==> GetNthAliasedResults(resp, n, None) == Some(r.value.Results())
    ensures GetNthAliasedResults(resp, n, None).None? ==> r.None?
    ensures r.Some? <==> At(resp.result, n).Some? && DecodeQueryResult(At(resp.result, n).value).Some?
    ensures forall q: QueryResult :: At(resp.result, n) == Some(q.ToValue()) ==> r == Some(q)
  {
    assert forall q: QueryResult :: DecodeQueryResult(q.ToValue()) == Some(q) by {
      forall q: QueryResult ensures DecodeQueryResult(q.ToValue()) == Some(q) {
        DecodeQueryResultRoundTrip(q);
      }
    }
    match At(resp.result, n)
    case Some(entry) => DecodeQueryResult(entry)
    case None => None
  }

  /**
   * `results_key`: the value under `key` of every row that has it, in row order;
   * rows without the key (and rows that are not objects) are dropped.
   */
  function ResultsKey(rows: seq<Value>, key: string): (r: seq<Value>)
    ensures |r| <= |rows|
    ensures forall j :: 0 <= j < |r| ==> exists i :: 0 <= i < |rows| && Get(rows[i], key) == Some(r[j])
    decreases |rows|
  {
    if rows == [] then []
    else
      var head := match Get(rows[0], key) case Some(v) => [v] case None => [];
      var tail := ResultsKey(rows[1..], key);
      assert forall j :: 0 <= j < |tail| ==> exists i :: 0 <= i < |rows| && Get(rows[i], key) == Some(tail[j]) by {
        forall j | 0 <= j < |tail|
          ensures exists i :: 0 <= i < |rows| && Get(rows[i], key) == Some(tail[j])
        {
          var i :| 0 <= i < |rows[1..]| && Get(rows[1..][i], key) == Some(tail[j]);
          assert rows[1..][i] == rows[i + 1];
        }
      }
      head + tail
  }

  /** Filtering distributes over concatenation: the kept values stay in row order. */
  lemma {:induction false} ResultsKeyConcat(a: seq<Value>, b: seq<Value>, key: string)
    ensures ResultsKey(a + b, key) == ResultsKey(a, key) + ResultsKey(b, key)
    decreases |a|
  {
    if a == [] {
      assert a + b == b;
    } else {
      assert (a + b)[0] == a[0];
      assert (a + b)[1..] == a[1..] + b;
      ResultsKeyConcat(a[1..], b, key);
    }
  }

  /** Every value under `key` in some row is kept. */
  lemma {:induction false} ResultsKeyKeepsEveryMatch(rows: seq<Value>, key: string, i: nat)
    requires i < |rows| && Get(rows[i], key).Some?
    ensures Get(rows[i], key).value in ResultsKey(rows, key)
    decreases i
  {
    if i > 0 {
      ResultsKeyKeepsEveryMatch(rows[1..], key, i - 1);
      assert rows[1..][i - 1] == rows[i];
    }
  }

  /** When every row has the key, nothing is dropped and the values line up with the rows. */
  lemma {:induction false} ResultsKeyAllRows(rows: seq<Value>, key: string)
    requires forall i :: 0 <= i < |rows| ==> Get(rows[i], key).Some?
    ensures |ResultsKey(rows, key)| == |rows|
    ensures forall i :: 0 <= i < |rows| ==> Some(ResultsKey(rows, key)[i]) == Get(rows[i], key)
    decreases |rows|
  {
    if rows != [] {
      assert forall i :: 0 <= i < |rows[1..]| ==> rows[1..][i] == rows[i + 1];
      ResultsKeyAllRows(rows[1..], key);
    }
  }

  /** Rows that all lack the key give nothing. */
  lemma {:induction false} ResultsKeyNoRows(rows: seq<Value>, key: string)
    requires forall i :: 0 <= i < |rows| ==> Get(rows[i], key).None?
    ensures ResultsKey(rows, key) == []
    decreases |rows|
  {
    if rows != [] {
      assert forall i :: 0 <= i < |rows[1..]| ==> rows[1..][i] == rows[i + 1];
      ResultsKeyNoRows(rows[1..], key);
    }
  }
}
