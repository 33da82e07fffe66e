/** Statement construction in `search_files` (src-tauri/src/commands.rs): the column a search
    targets, the one AND statement with a placeholder per term, and the fixed one-parameter OR
    statement. Search terms only ever appear among the bound parameters, never in the text. */
module SearchQuery {
  import opened Text

  /** A parameterised statement: its text and the values bound to `$1`, `$2`, ... in order. */
  datatype Statement = Statement(sql: string, params: seq<string>)

  const SelectFiles := "SELECT id, filename, directory, last_modified FROM files WHERE "
  const Limit := " LIMIT 100"

  /** The column searched: the file name, or else the directory path. */
  function ColumnName(searchInFilenames: bool): (column: string)
    ensures column == "filename" <==> searchInFilenames
    ensures column == "directory" <==> !searchInFilenames
  {
    if searchInFilenames then "filename" else "directory"
  }

  /** The condition for the term at 0-based position `i`; it names placeholder `$(i+1)`. */
  function Condition(column: string, i: nat): string {
    column + " ILIKE $" + Decimal(i + 1)
  }

  function Conditions(column: string, n: nat): (cs: seq<string>) {
    seq(n, i requires 0 <= i < n => Condition(column, i))
  }

  /** The value bound for a term: a substring pattern. */
  function Pattern(term: string): string {
    "%" + term + "%"
  }

  function Patterns(terms: seq<string>): seq<string> {
    seq(|terms|, i requires 0 <= i < |terms| => Pattern(terms[i]))
  }

  /** The single statement of AND mode: it binds one value per term, in term order, each the
      term wrapped in `%`. */
  function AndStatement(column: string, terms: seq<string>): (st: Statement)
    ensures |st.params| == |terms|
    ensures forall i :: 0 <= i < |terms| ==> st.params[i] == "%" + terms[i] + "%"
  {
    Statement(SelectFiles + Join(Conditions(column, |terms|), " AND ") + Limit, Patterns(terms))
  }

  /** The statement OR mode runs once for `term`: it binds exactly one value, the term wrapped
      in `%`. */
  function OrStatement(column: string, term: string): (st: Statement)
    ensures st.params == ["%" + term + "%"]
  {
    Statement(SelectFiles + column + " ILIKE $1" + Limit, [Pattern(term)])
  }

  /** The loop at commands.rs:92-106: one condition and one parameter pushed per term. */
  method BuildAndStatement(searchTerms: seq<string>, searchInFilenames: bool) returns (st: Statement)
    ensures st == AndStatement(ColumnName(searchInFilenames), searchTerms)
  {
    var whereConditions: seq<string> := [];
    var params: seq<string> := [];
    var fieldName := if searchInFilenames then "filename" else "directory";
    var i := 0;
    while i < |searchTerms|
      invariant 0 <= i <= |searchTerms|
      invariant whereConditions == Conditions(fieldName, i)
      invariant params == Patterns(searchTerms[..i])
    {
      whereConditions := whereConditions + [fieldName + " ILIKE $" + Decimal(i + 1)];
      params := params + ["%" + searchTerms[i] + "%"];
      i := i + 1;
    }
    assert searchTerms[..i] == searchTerms;
    var whereClause := Join(whereConditions, " AND ");
    st := Statement("SELECT id, filename, directory, last_modified FROM files WHERE " + whereClause + " LIMIT 100", params);
  }

  /** The i-th condition of the AND statement tests the chosen column against placeholder `$(i+1)`.
      The AND text is `SelectFiles + Join(Conditions(column, |terms|), " AND ") + Limit` (the
      definition of `AndStatement`), so these are the conditions between `WHERE` and `LIMIT`. */
  lemma AndStatementShape(column: string, terms: seq<string>)
    ensures |Conditions(column, |terms|)| == |terms|
    ensures forall i :: 0 <= i < |terms| ==> Conditions(column, |terms|)[i] == column + " ILIKE $" + Decimal(i + 1)
  {
  }

  /** No two conditions of one AND statement share a placeholder. */
  lemma PlaceholdersDistinct(column: string, n: nat)
    ensures forall i, j :: 0 <= i < n && 0 <= j < n && i != j ==> Conditions(column, n)[i] != Conditions(column, n)[j]
  {
    forall i, j | 0 <= i < n && 0 <= j < n && Conditions(column, n)[i] == Conditions(column, n)[j]
      ensures i == j
    {
      var prefix := column + " ILIKE $";
      assert Condition(column, i) == prefix + Decimal(i + 1);
      assert Condition(column, j) == prefix + Decimal(j + 1);
      assert Decimal(i + 1) == Condition(column, i)[|prefix|..];
      assert Decimal(j + 1) == Condition(column, j)[|prefix|..];
      DecimalInjective(i + 1, j + 1);
    }
  }

  /** The statement text depends only on the column and the number of terms, never on what the
      terms say; and the bound parameters determine the terms exactly. */
  lemma AndTextIgnoresTermContents(column: string, terms1: seq<string>, terms2: seq<string>)
    ensures |terms1| == |terms2| ==> AndStatement(column, terms1).sql == AndStatement(column, terms2).sql
    ensures AndStatement(column, terms1).params == AndStatement(column, terms2).params <==> terms1 == terms2
  {
    if AndStatement(column, terms1).params == AndStatement(column, terms2).params {
      var p1, p2 := Patterns(terms1), Patterns(terms2);
      assert |terms1| == |p1| == |p2| == |terms2|;
      forall i | 0 <= i < |terms1| ensures terms1[i] == terms2[i] {
        assert p1[i] == p2[i];
        PatternInjective(terms1[i], terms2[i]);
      }
    }
  }

  lemma PatternInjective(a: string, b: string)
    requires Pattern(a) == Pattern(b)
    ensures a == b
  {
    assert a == Pattern(a)[1..|Pattern(a)| - 1];
    assert b == Pattern(b)[1..|Pattern(b)| - 1];
  }

  lemma JoinSnoc(parts: seq<string>, last: string, sep: string)
    requires parts != []
    ensures Join(parts + [last], sep) == Join(parts, sep) + sep + last
    decreases |parts|
  {
    if |parts| == 1 {
      assert (parts + [last])[1..] == [last];
    } else {
      assert (parts + [last])[1..] == parts[1..] + [last];
      JoinSnoc(parts[1..], last, sep);
    }
  }

  /** Each extra term makes the AND text strictly longer ... */
  lemma {:induction false} AndTextGrows(column: string, n: nat)
    ensures |Join(Conditions(column, n), " AND ")| < |Join(Conditions(column, n + 1), " AND ")|
  {
    if n == 0 {
      assert Conditions(column, 1) == [Condition(column, 0)];
    } else {
      assert Conditions(column, n + 1) == Conditions(column, n) + [Condition(column, n)];
      JoinSnoc(Conditions(column, n), Condition(column, n), " AND ");
    }
  }

  lemma {:induction false} AndTextLengthMonotone(column: string, m: nat, n: nat)
    requires m < n
    ensures |Join(Conditions(column, m), " AND ")| < |Join(Conditions(column, n), " AND ")|
    decreases n - m
  {
    AndTextGrows(column, m);
    if m + 1 < n {
      AndTextLengthMonotone(column, m + 1, n);
    }
  }

  /** ... so the text also determines how many terms there were. */
  lemma AndTextDeterminesTermCount(column: string, terms1: seq<string>, terms2: seq<string>)
    requires AndStatement(column, terms1).sql == AndStatement(column, terms2).sql
    ensures |terms1| == |terms2|
  {
    if |terms1| < |terms2| {
      AndTextLengthMonotone(column, |terms1|, |terms2|);
    } else if |terms2| < |terms1| {
      AndTextLengthMonotone(column, |terms2|, |terms1|);
    }
  }

  /** The OR text is the same for every term, and the bound value determines the term. */
  lemma OrTextIgnoresTerm(column: string, term1: string, term2: string)
    ensures OrStatement(column, term1).sql == OrStatement(column, term2).sql
    ensures OrStatement(column, term1).params == OrStatement(column, term2).params <==> term1 == term2
  {
    if OrStatement(column, term1).params == OrStatement(column, term2).params {
      PatternInjective(term1, term2);
    }
  }

  /** With a single term the two modes issue the very same statement. */
  lemma SingleTermModesAgree(column: string, term: string)
    ensures AndStatement(column, [term]) == OrStatement(column, term)
  {
  }

  /** With no terms AND mode still issues a statement, with nothing between `WHERE` and `LIMIT`. */
  lemma AndStatementWithoutTerms(column: string)
    ensures AndStatement(column, []) == Statement("SELECT id, filename, directory, last_modified FROM files WHERE  LIMIT 100", [])
  {
  }
}
