/** The `search_files` and `test_connection` commands (src-tauri/src/commands.rs). The database
    session is a parameter: `connection` is the outcome of connecting, and `query` gives the rows
    (or the driver's error text) a statement returns. Matching itself happens in the database. */
module SearchFiles {
  import opened Wrappers
  import opened Records
  import opened SearchQuery
  import opened MergeById

  /** A stored timestamp; its text form comes from the date library, passed in as `format`. */
  datatype DateTime = DateTime(year: int, month: nat, day: nat, hour: nat, minute: nat, second: nat, nanosecond: nat)

  /** One row of `SELECT id, filename, directory, last_modified FROM files`. */
  datatype Row = Row(id: int32, filename: string, directory: string, lastModified: Option<DateTime>)

  /** The record for a row: its id, file name and directory, and its timestamp as text when it
      has one. */
  function ToFileResult(row: Row, format: DateTime -> string): (f: FileResult)
    ensures f.id == row.id && f.filename == row.filename && f.directory == row.directory
    ensures f.lastModified.Some? <==> row.lastModified.Some?
    ensures row.lastModified.Some? ==> f.lastModified.value == format(row.lastModified.value)
  {
    FileResult(row.id, row.filename, row.directory,
               match row.lastModified
               case None => None
               case Some(dt) => Some(format(dt)))
  }

  function ToFileResults(rows: seq<Row>, format: DateTime -> string): seq<FileResult> {
    seq(|rows|, i requires 0 <= i < |rows| => ToFileResult(rows[i], format))
  }

  /** The records OR mode gathers, in term order and row order, or the first query error. It
      succeeds exactly when every term's query succeeds. */
  function CollectOr(column: string, terms: seq<string>, query: Statement -> Result<seq<Row>, string>,
                     format: DateTime -> string): (r: Result<seq<FileResult>, string>)
    ensures r.Ok? <==> forall i :: 0 <= i < |terms| ==> query(OrStatement(column, terms[i])).Ok?
    decreases |terms|
  {
    if terms == [] then Ok([])
    else
      assert forall i :: 0 <= i < |terms| - 1 ==> terms[..|terms| - 1][i] == terms[i];
      match CollectOr(column, terms[..|terms| - 1], query, format)
      case Err(e) => Err(e)
      case Ok(acc) =>
        match query(OrStatement(column, terms[|terms| - 1]))
        case Err(e) => Err("Query error: " + e)
        case Ok(rows) => Ok(acc + ToFileResults(rows, format))
  }

  /** What `search_files` returns. It fails exactly when connecting fails or one of the queries
      it runs fails; nothing gathered before the failure is returned. */
  function Search(searchTerms: seq<string>, useAndLogic: bool, searchInFilenames: bool,
                  connection: Result<(), string>, query: Statement -> Result<seq<Row>, string>,
                  format: DateTime -> string): (r: Result<seq<FileResult>, string>)
    ensures var column := ColumnName(searchInFilenames);
      r.Err? <==>
        connection.Err? ||
        (useAndLogic && query(AndStatement(column, searchTerms)).Err?) ||
        (!useAndLogic && exists i :: 0 <= i < |searchTerms| && query(OrStatement(column, searchTerms[i])).Err?)
  {
    var column := ColumnName(searchInFilenames);
    if connection.Err? then Err("Failed to connect to database: " + connection.error)
    else if useAndLogic then
      match query(AndStatement(column, searchTerms))
      case Err(e) => Err("Query error: " + e)
      case Ok(rows) => Ok(ToFileResults(rows, format))
    else
      match CollectOr(column, searchTerms, query, format)
      case Err(e) => Err(e)
      case Ok(collected) => Ok(Merge(collected))
  }

  /** The ids a term's query returned; none when it failed. */
  function TermIds(column: string, term: string, query: Statement -> Result<seq<Row>, string>): set<int32> {
    match query(OrStatement(column, term))
    case Err(_) => {}
    case Ok(rows) => set i | 0 <= i < |rows| :: rows[i].id
  }

  lemma {:induction false} CollectOrErrorSticks(column: string, terms: seq<string>, n: nat,
                                                query: Statement -> Result<seq<Row>, string>, format: DateTime -> string)
    requires n <= |terms| && CollectOr(column, terms[..n], query, format).Err?
    ensures CollectOr(column, terms, query, format) == CollectOr(column, terms[..n], query, format)
    decreases |terms|
  {
    if n < |terms| {
      var init := terms[..|terms| - 1];
      assert init[..n] == terms[..n];
      CollectOrErrorSticks(column, init, n, query, format);
    } else {
      assert terms[..n] == terms;
    }
  }

  /** The loop that turns each returned row into a record and pushes it (commands.rs:120-129 and 150-159). */
  method PushRows(results: seq<FileResult>, rows: seq<Row>, format: DateTime -> string) returns (out: seq<FileResult>)
    ensures out == results + ToFileResults(rows, format)
  {
    out := results;
    var k := 0;
    while k < |rows|
      invariant 0 <= k <= |rows|
      invariant out == results + ToFileResults(rows[..k], format)
    {
      out := out + [ToFileResult(rows[k], format)];
      k := k + 1;
    }
    assert rows[..k] == rows;
  }

  method SearchFiles(searchTerms: seq<string>, useAndLogic: bool, searchInFilenames: bool,
                     connection: Result<(), string>, query: Statement -> Result<seq<Row>, string>,
                     format: DateTime -> string) returns (r: Result<seq<FileResult>, string>)
    ensures r == Search(searchTerms, useAndLogic, searchInFilenames, connection, query, format)
  {
    if connection.Err? {
      return Err("Failed to connect to database: " + connection.error);
    }
    if useAndLogic {
      var statement := BuildAndStatement(searchTerms, searchInFilenames);
      var rows;
      match query(statement) {
        case Err(e) => return Err("Query error: " + e);
        case Ok(rs) => rows := rs;
      }
      var results := PushRows([], rows, format);
      assert results == ToFileResults(rows, format);
      return Ok(results);
    } else {
      var results: seq<FileResult> := [];
      var fieldName := if searchInFilenames then "filename" else "directory";
      var sql := "SELECT id, filename, directory, last_modified FROM files WHERE " + fieldName + " ILIKE $1 LIMIT 100";
      var i := 0;
      while i < |searchTerms|
        invariant 0 <= i <= |searchTerms|
        invariant CollectOr(fieldName, searchTerms[..i], query, format) == Ok(results)
      {
        var term := searchTerms[i];
        var pattern := "%" + term + "%";
        assert searchTerms[..i + 1][..i] == searchTerms[..i];
        assert Statement(sql, [pattern]) == OrStatement(fieldName, term);
        var rows;
        match query(Statement(sql, [pattern])) {
          case Err(e) =>
            CollectOrErrorSticks(fieldName, searchTerms, i + 1, query, format);
            return Err("Query error: " + e);
          case Ok(rs) => rows := rs;
        }
        results := PushRows(results, rows, format);
        i := i + 1;
      }
      assert searchTerms[..i] == searchTerms;
      results := SortById(results);
      results := DedupById(results);
      return Ok(results);
    }
  }

  /** AND mode returns one record per returned row, in the order received, with the row's fields. */
  lemma AndModeKeepsRows(searchTerms: seq<string>, searchInFilenames: bool, query: Statement -> Result<seq<Row>, string>,
                         format: DateTime -> string, rows: seq<Row>)
    requires query(AndStatement(ColumnName(searchInFilenames), searchTerms)) == Ok(rows)
    ensures Search(searchTerms, true, searchInFilenames, Ok(()), query, format).Ok?
    ensures var out := Search(searchTerms, true, searchInFilenames, Ok(()), query, format).value;
      |out| == |rows| &&
      forall i :: 0 <= i < |rows| ==>
        out[i].id == rows[i].id && out[i].filename == rows[i].filename && out[i].directory == rows[i].directory &&
        (out[i].lastModified.Some? <==> rows[i].lastModified.Some?)
  {
  }

  /** When terms before `f` succeed and term `f` fails, the result is term `f`'s error. */
  lemma {:induction false} CollectOrFirstError(column: string, terms: seq<string>, f: nat, e: string,
                                               query: Statement -> Result<seq<Row>, string>, format: DateTime -> string)
    requires f < |terms|
    requires forall i :: 0 <= i < f ==> query(OrStatement(column, terms[i])).Ok?
    requires query(OrStatement(column, terms[f])) == Err(e)
    ensures CollectOr(column, terms, query, format) == Err("Query error: " + e)
  {
    var prefix := terms[..f + 1];
    assert forall i :: 0 <= i < f ==> prefix[..f][i] == terms[i];
    assert prefix[..f] == prefix[..|prefix| - 1];
    assert prefix[|prefix| - 1] == terms[f];
    CollectOrErrorSticks(column, terms, f + 1, query, format);
  }

  /** The ids gathered by OR mode are exactly those returned by some term's query. */
  lemma {:induction false} CollectOrIds(column: string, terms: seq<string>, collected: seq<FileResult>,
                                        query: Statement -> Result<seq<Row>, string>, format: DateTime -> string)
    requires CollectOr(column, terms, query, format) == Ok(collected)
    ensures forall id :: id in Ids(collected) <==> exists i :: 0 <= i < |terms| && id in TermIds(column, terms[i], query)
    decreases |terms|
  {
    if terms != [] {
      var init := terms[..|terms| - 1];
      var last := terms[|terms| - 1];
      var acc := CollectOr(column, init, query, format).value;
      var rows := query(OrStatement(column, last)).value;
      var block := ToFileResults(rows, format);
      assert collected == acc + block;
      CollectOrIds(column, init, acc, query, format);
      assert Ids(block) == TermIds(column, last, query) by {
        forall id | id in Ids(block) ensures id in TermIds(column, last, query) {
          var k :| 0 <= k < |block| && block[k].id == id;
          assert rows[k].id == id;
        }
        forall id | id in TermIds(column, last, query) ensures id in Ids(block) {
          var k :| 0 <= k < |rows| && rows[k].id == id;
          assert block[k].id == id;
        }
      }
      assert Ids(collected) == Ids(acc) + Ids(block) by {
        forall id | id in Ids(collected) ensures id in Ids(acc) + Ids(block) {
          var k :| 0 <= k < |collected| && collected[k].id == id;
          if k < |acc| { assert acc[k] == collected[k]; } else { assert block[k - |acc|] == collected[k]; }
        }
        forall id | id in Ids(acc) ensures id in Ids(collected) {
          var k :| 0 <= k < |acc| && acc[k].id == id;
          assert collected[k] == acc[k];
        }
        forall id | id in Ids(block) ensures id in Ids(collected) {
          var k :| 0 <= k < |block| && block[k].id == id;
          assert collected[|acc| + k] == block[k];
        }
      }
      forall id ensures id in Ids(collected) <==> exists i :: 0 <= i < |terms| && id in TermIds(column, terms[i], query) {
        if id in Ids(acc) {
          var i :| 0 <= i < |init| && id in TermIds(column, init[i], query);
          assert terms[i] == init[i];
        }
        if exists i :: 0 <= i < |terms| && id in TermIds(column, terms[i], query) {
          var i :| 0 <= i < |terms| && id in TermIds(column, terms[i], query);
          if i < |init| { assert init[i] == terms[i]; }
        }
      }
    }
  }

  /** OR mode: ascending ids, no id twice, exactly the ids some term's query returned, and for each
      id the first record collected in term order. */
  lemma OrModeResult(searchTerms: seq<string>, searchInFilenames: bool, query: Statement -> Result<seq<Row>, string>,
                     format: DateTime -> string)
    requires Search(searchTerms, false, searchInFilenames, Ok(()), query, format).Ok?
    ensures var out := Search(searchTerms, false, searchInFilenames, Ok(()), query, format).value;
      var collected := CollectOr(ColumnName(searchInFilenames), searchTerms, query, format).value;
      StrictlyIncreasingIds(out) &&
      (forall id :: id in Ids(out) <==>
         exists i :: 0 <= i < |searchTerms| && id in TermIds(ColumnName(searchInFilenames), searchTerms[i], query)) &&
      (forall r :: r in out ==> HasId(collected, r.id) && r == FirstWithId(collected, r.id))
  {
    var column := ColumnName(searchInFilenames);
    var collected := CollectOr(column, searchTerms, query, format).value;
    CollectOrIds(column, searchTerms, collected, query, format);
  }

  /** OR mode with no terms runs no query and returns an empty list. */
  lemma OrModeWithoutTerms(searchInFilenames: bool, query: Statement -> Result<seq<Row>, string>, format: DateTime -> string)
    ensures Search([], false, searchInFilenames, Ok(()), query, format) == Ok([])
  {
  }

  /** What `test_connection` returns: `Ok(true)` when both connecting and `SELECT 1` succeed, and
      otherwise an error naming the step that failed. It never returns `Ok(false)`. */
  function TestConnection(connection: Result<(), string>, selectOne: Result<(), string>): (r: Result<bool, string>)
    ensures r.Ok? ==> r.value
    ensures r.Ok? <==> connection.Ok? && selectOne.Ok?
    ensures connection.Err? ==> r == Err("Connection failed: " + connection.error)
    ensures connection.Ok? && selectOne.Err? ==> r == Err("Query test failed: " + selectOne.error)
  {
    match connection
    case Err(e) => Err("Connection failed: " + e)
    case Ok(_) =>
      match selectOne
      case Ok(_) => Ok(true)
      case Err(e) => Err("Query test failed: " + e)
  }
}
