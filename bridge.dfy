/** What the front end observes once its `invoke` calls are answered by the backend commands. */
module Bridge {
  import opened Wrappers
  import opened SearchQuery
  import opened SearchFiles
  import opened SearchTerms
  import opened FrontendState

  /** After a connection test against `test_connection`, the status is `Connected` exactly when
      both connecting and `SELECT 1` succeeded. */
  lemma ProbeThroughBackend(connection: Result<(), string>, selectOne: Result<(), string>)
    ensures StatusAfterTest(TestConnection(connection, selectOne)) == Connected <==> connection.Ok? && selectOne.Ok?
    ensures StatusAfterTest(TestConnection(connection, selectOne)) != Connected ==>
            StatusAfterTest(TestConnection(connection, selectOne)) == Disconnected
  {
  }

  /** A search box holding only a comma passes the front end's guard and sends no terms: in AND
      mode the backend then issues a statement with nothing between `WHERE` and `LIMIT`, and in
      OR mode it answers with an empty list. */
  lemma CommaOnlySearch(searchInFilenames: bool, query: Statement -> Result<seq<Row>, string>, format: DateTime -> string)
    ensures HasSearchTerms(",")
    ensures AndStatement(ColumnName(searchInFilenames), SearchTermsArray(",")).sql ==
            "SELECT id, filename, directory, last_modified FROM files WHERE  LIMIT 100"
    ensures Search(SearchTermsArray(","), false, searchInFilenames, Ok(()), query, format) == Ok([])
  {
    GuardWithoutTerms();
    var terms := SearchTermsArray(",");
    assert terms == [];
    AndStatementWithoutTerms(ColumnName(searchInFilenames));
    OrModeWithoutTerms(searchInFilenames, query, format);
  }

  /** Whatever is typed, every value the AND statement binds is a non-empty term free of
      whitespace and commas, wrapped in `%`. */
  lemma BoundValuesAreCleanTerms(text: string, searchInFilenames: bool)
    ensures var terms := SearchTermsArray(text);
      forall i :: 0 <= i < |terms| ==>
        AndStatement(ColumnName(searchInFilenames), terms).params[i] == "%" + terms[i] + "%" &&
        terms[i] != "" && SeparatorFree(terms[i])
  {
    var terms := SearchTermsArray(text);
    assert forall i :: 0 <= i < |terms| ==> terms[i] in terms;
  }
}
