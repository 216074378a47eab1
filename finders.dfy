/**
 * The selection logic of `find_one_value`, `find_many_values`, `find_one_key` and
 * `find_many_key`, applied to the reply once it has been delivered. All four read
 * statement 0 only.
 */
module Finders {
  import opened Wrappers
  import opened Json
  import opened Message
  import opened Response

  /** `find_many_values`: every row of statement 0, or nothing when statement 0 is absent. */
  function FindManyValues(resp: ResponseData): (r: seq<Value>)
    ensures GetNthQueryResult(resp, 0).None? ==> r == []
    ensures GetNthQueryResult(resp, 0).Some? ==> GetResults(resp) == Some(r)
  {
    match GetNthQueryResult(resp, 0)
    case Some(statement) => statement.Results()
    case None => []
  }

  /** `find_one_value`: the first row of statement 0. */
  function FindOneValue(resp: ResponseData): (r: Option<Value>)
    ensures r.Some? <==> FindManyValues(resp) != []
    ensures r.Some? ==> r.value == FindManyValues(resp)[0]
  {
    match GetNthQueryResult(resp, 0)
    case Some(statement) =>
      if statement.Results() == [] then None else Some(statement.Results()[0])
    case None => None
  }

  /** `find_many_key`: the value under `key` of every row of statement 0 that has it. */
  function FindManyKey(resp: ResponseData, key: string): (r: seq<Value>)
    ensures GetNthQueryResult(resp, 0).None? ==> r == []
    ensures r == ResultsKey(FindManyValues(resp), key)
    ensures |r| <= |FindManyValues(resp)|
    ensures forall j :: 0 <= j < |r| ==>
      exists i :: 0 <= i < |FindManyValues(resp)| && Get(FindManyValues(resp)[i], key) == Some(r[j])
  {
    match GetNthQueryResult(resp, 0)
    case Some(statement) => ResultsKey(statement.Results(), key)
    case None => []
  }

  /** `find_one_key`: the value under `key` of the first row of statement 0 that has it. */
  function FindOneKey(resp: ResponseData, key: string): (r: Option<Value>)
    ensures r.Some? <==> FindManyKey(resp, key) != []
    ensures r.Some? ==> r.value == FindManyKey(resp, key)[0]
  {
    match GetNthQueryResult(resp, 0)
    case Some(statement) =>
      var found := ResultsKey(statement.Results(), key);
      if found == [] then None else Some(found[0])
    case None => None
  }

  /**
   * `find_one_key` looks no further than the first row that has the key: rows before it
   * are skipped and rows after it are ignored.
   */
  lemma FindOneKeyUsesFirstMatch(resp: ResponseData, key: string, i: nat)
    requires i < |FindManyValues(resp)|
    requires Get(FindManyValues(resp)[i], key).Some?
    requires forall j :: 0 <= j < i ==> Get(FindManyValues(resp)[j], key).None?
    ensures FindOneKey(resp, key) == Get(FindManyValues(resp)[i], key)
  {
    var rows := FindManyValues(resp);
    assert rows == rows[..i] + rows[i..];
    ResultsKeyConcat(rows[..i], rows[i..], key);
    ResultsKeyNoRows(rows[..i], key);
    assert rows[i..] == [rows[i]] + rows[i + 1..];
    ResultsKeyConcat([rows[i]], rows[i + 1..], key);
    assert ResultsKey([rows[i]], key) == [Get(rows[i], key).value] by {
      assert [rows[i]][1..] == [];
    }
  }

  /**
   * `find_one_key` does not stop at the first row: when the first row lacks the key and
   * the second has it, the second row's value comes back rather than `None`.
   */
  lemma FindOneKeySkipsRowsWithoutKey(other: Value, v: Value)
    ensures var first := Obj(map["id" := other]);
      var second := Obj(map["k" := v]);
      var statement := Obj(map["time" := Str("1ms"), "status" := Str("OK"), "result" := Arr([first, second])]);
      var resp := ResponseData("r3", Arr([statement]));
      Get(FindManyValues(resp)[0], "k") == None && FindOneKey(resp, "k") == Some(v)
  {
    var first := Obj(map["id" := other]);
    var second := Obj(map["k" := v]);
    var statement := Obj(map["time" := Str("1ms"), "status" := Str("OK"), "result" := Arr([first, second])]);
    var resp := ResponseData("r3", Arr([statement]));
    assert Get(statement, "time") == Some(Str("1ms"));
    assert Get(statement, "status") == Some(Str("OK"));
    assert Get(statement, "result") == Some(Arr([first, second]));
    assert "id" != "k";
    assert GetNthQueryResult(resp, 0) == Some(QueryResult("1ms", "OK", [first, second]));
    assert Get(first, "k") == None && Get(second, "k") == Some(v);
    FindOneKeyUsesFirstMatch(resp, "k", 1);
  }

  /** The reply of the query `create stuff set name = 'x'`: its first row is the created record. */
  lemma CreatedRecordIsFirstValue()
    ensures var row := Obj(map["name" := Str("x"), "id" := Str("stuff:abc")]);
      var statement := Obj(map["time" := Str("1ms"), "status" := Str("OK"), "result" := Arr([row])]);
      FindOneValue(ResponseData("r1", Arr([statement]))) == Some(row)
  {
    var row := Obj(map["name" := Str("x"), "id" := Str("stuff:abc")]);
    var statement := Obj(map["time" := Str("1ms"), "status" := Str("OK"), "result" := Arr([row])]);
    assert Get(statement, "time") == Some(Str("1ms"));
    assert Get(statement, "status") == Some(Str("OK"));
    assert Get(statement, "result") == Some(Arr([row]));
  }

  /**
   * Two rows, only the first with `written_files`: `find_many_key` keeps one row, and that
   * row's value is the one-file array.
   */
  lemma RowWithoutKeyIsDropped(file: Value)
    ensures var withKey := Obj(map["written_files" := Arr([file])]);
      var withoutKey := Obj(map["id" := Str("account:two")]);
      var statement := Obj(map["time" := Str("1ms"), "status" := Str("OK"), "result" := Arr([withKey, withoutKey])]);
      FindManyKey(ResponseData("r2", Arr([statement])), "written_files") == [Arr([file])]
  {
    var withKey := Obj(map["written_files" := Arr([file])]);
    var withoutKey := Obj(map["id" := Str("account:two")]);
    var statement := Obj(map["time" := Str("1ms"), "status" := Str("OK"), "result" := Arr([withKey, withoutKey])]);
    assert Get(statement, "time") == Some(Str("1ms"));
    assert Get(statement, "status") == Some(Str("OK"));
    assert Get(statement, "result") == Some(Arr([withKey, withoutKey]));
    assert "id" != "written_files";
    var rows := [withKey, withoutKey];
    var resp := ResponseData("r2", Arr([statement]));
    assert GetNthQueryResult(resp, 0) == Some(QueryResult("1ms", "OK", rows));
    assert rows[1..] == [withoutKey] && [withoutKey][1..] == [];
    assert Get(withKey, "written_files") == Some(Arr([file]));
    assert Get(withoutKey, "written_files") == None;
    assert ResultsKey([withoutKey], "written_files") == [];
    assert ResultsKey(rows, "written_files") == [Arr([file])];
  }
}
