/** How the search box text becomes search terms (`SearchState.searchTermsArray` and
    `hasSearchTerms` in src/lib/commands.svelte.ts): split on runs of whitespace or commas, trim,
    drop empty pieces. Whitespace here is the ASCII set space, tab, line feed, vertical tab, form
    feed and carriage return. */
module SearchTerms {

  predicate IsWhitespace(c: char) {
    c == ' ' || c == '\t' || c == '\n' || c == '\U{000B}' || c == '\U{000C}' || c == '\r'
  }

  /** The character class `[\s,]`. */
  predicate IsSeparator(c: char) {
    IsWhitespace(c) || c == ','
  }

  predicate SeparatorFree(s: string) {
    forall i :: 0 <= i < |s| ==> !IsSeparator(s[i])
  }

  /** Position of the first separator, or `|s|` when there is none. */
  function FirstSeparator(s: string): (k: nat)
    ensures k <= |s|
    ensures SeparatorFree(s[..k])
    ensures k < |s| ==> IsSeparator(s[k])
  {
    if s == [] || IsSeparator(s[0]) then 0
    else
      var k := 1 + FirstSeparator(s[1..]);
      assert s[..k] == [s[0]] + s[1..][..k - 1];
      k
  }

  /** Length of the run of separators at the front of `s`. */
  function SeparatorRun(s: string): (k: nat)
    ensures k <= |s|
    ensures forall i :: 0 <= i < k ==> IsSeparator(s[i])
    ensures k < |s| ==> !IsSeparator(s[k])
  {
    if s == [] || !IsSeparator(s[0]) then 0 else 1 + SeparatorRun(s[1..])
  }

  /** `s.split(/[\s,]+/)`: the pieces between maximal runs of separators, including an empty
      piece before a leading run and after a trailing one. */
  function Split(s: string): seq<string>
    decreases |s|
  {
    var k := FirstSeparator(s);
    if k == |s| then [s]
    else
      var rest := s[k..];
      [s[..k]] + Split(rest[SeparatorRun(rest)..])
  }

  function TrimStart(s: string): string
    decreases |s|
  {
    if s != [] && IsWhitespace(s[0]) then TrimStart(s[1..]) else s
  }

  function TrimEnd(s: string): string
    decreases |s|
  {
    if s != [] && IsWhitespace(s[|s| - 1]) then TrimEnd(s[..|s| - 1]) else s
  }

  /** `String.prototype.trim`. */
  function Trim(s: string): string {
    TrimEnd(TrimStart(s))
  }

  function TrimAll(pieces: seq<string>): seq<string> {
    seq(|pieces|, i requires 0 <= i < |pieces| => Trim(pieces[i]))
  }

  /** `filter(term => term.length > 0)`. */
  function NonEmpty(pieces: seq<string>): seq<string>
    decreases |pieces|
  {
    if pieces == [] then []
    else if pieces[0] == "" then NonEmpty(pieces[1..])
    else [pieces[0]] + NonEmpty(pieces[1..])
  }

  /** The terms of the search box text: every term is non-empty and free of whitespace and
      commas, and the terms, concatenated, are the input's other characters in their order. */
  function SearchTermsArray(searchTerms: string): (terms: seq<string>)
    ensures forall t :: t in terms ==> t != "" && SeparatorFree(t)
    ensures Concat(terms) == RemoveSeparators(searchTerms)
  {
    SplitConcat(searchTerms);
    TrimAllOfFree(Split(searchTerms));
    NonEmptyKeeps(Split(searchTerms));
    NonEmpty(TrimAll(Split(searchTerms)))
  }

  /** The guard `searchTerms.trim().length > 0`: some character is not whitespace. */
  function HasSearchTerms(searchTerms: string): (has: bool)
    ensures has <==> exists i :: 0 <= i < |searchTerms| && !IsWhitespace(searchTerms[i])
  {
    TrimEmptyIff(searchTerms);
    |Trim(searchTerms)| > 0
  }

  /** The characters of `s` that are not separators, in order. */
  function RemoveSeparators(s: string): string
    decreases |s|
  {
    if s == [] then "" else (if IsSeparator(s[0]) then "" else [s[0]]) + RemoveSeparators(s[1..])
  }

  function Concat(pieces: seq<string>): string
    decreases |pieces|
  {
    if pieces == [] then "" else pieces[0] + Concat(pieces[1..])
  }

  lemma {:induction false} RemoveSeparatorsOfFree(s: string)
    requires SeparatorFree(s)
    ensures RemoveSeparators(s) == s
    decreases |s|
  {
    if s != [] {
      RemoveSeparatorsOfFree(s[1..]);
    }
  }

  lemma {:induction false} RemoveSeparatorsAppend(a: string, b: string)
    ensures RemoveSeparators(a + b) == RemoveSeparators(a) + RemoveSeparators(b)
    decreases |a|
  {
    if a != [] {
      assert (a + b)[1..] == a[1..] + b;
      RemoveSeparatorsAppend(a[1..], b);
    } else {
      assert a + b == b;
    }
  }

  lemma {:induction false} RemoveSeparatorsOfRun(s: string, k: nat)
    requires k <= |s| && forall i :: 0 <= i < k ==> IsSeparator(s[i])
    ensures RemoveSeparators(s) == RemoveSeparators(s[k..])
    decreases k
  {
    if k > 0 {
      RemoveSeparatorsOfRun(s[1..], k - 1);
      assert s[1..][k - 1..] == s[k..];
    }
  }

  /** Splitting loses exactly the separators and keeps every other character in order. */
  lemma {:induction false} SplitConcat(s: string)
    ensures Concat(Split(s)) == RemoveSeparators(s)
    ensures forall p :: p in Split(s) ==> SeparatorFree(p)
    decreases |s|
  {
    var k := FirstSeparator(s);
    if k == |s| {
      assert s[..k] == s;
      RemoveSeparatorsOfFree(s);
      assert Concat([s]) == s + Concat([]);
    } else {
      var rest := s[k..];
      var j := SeparatorRun(rest);
      var tail := rest[j..];
      SplitConcat(tail);
      assert Split(s) == [s[..k]] + Split(tail);
      assert (([s[..k]] + Split(tail))[1..]) == Split(tail);
      assert s == s[..k] + rest;
      RemoveSeparatorsAppend(s[..k], rest);
      RemoveSeparatorsOfFree(s[..k]);
      RemoveSeparatorsOfRun(rest, j);
    }
  }

  lemma {:induction false} TrimStartOfFree(s: string)
    requires SeparatorFree(s)
    ensures TrimStart(s) == s
  {
  }

  lemma {:induction false} TrimEndOfFree(s: string)
    requires SeparatorFree(s)
    ensures TrimEnd(s) == s
  {
  }

  /** Trimming a piece that has no separator in it changes nothing. */
  lemma TrimAllOfFree(pieces: seq<string>)
    requires forall p :: p in pieces ==> SeparatorFree(p)
    ensures TrimAll(pieces) == pieces
  {
    forall i | 0 <= i < |pieces| ensures Trim(pieces[i]) == pieces[i] {
      assert pieces[i] in pieces;
      TrimStartOfFree(pieces[i]);
      TrimEndOfFree(pieces[i]);
    }
  }

  lemma {:induction false} NonEmptyKeeps(pieces: seq<string>)
    ensures forall t :: t in NonEmpty(pieces) ==> t != "" && t in pieces
    ensures Concat(NonEmpty(pieces)) == Concat(pieces)
    decreases |pieces|
  {
    if pieces != [] {
      NonEmptyKeeps(pieces[1..]);
      if pieces[0] != "" {
        assert ([pieces[0]] + NonEmpty(pieces[1..]))[1..] == NonEmpty(pieces[1..]);
      }
    }
  }

  /** Every character of `s` is whitespace or a comma; `s` may be empty. */
  predicate AllSeparators(s: string) {
    forall i :: 0 <= i < |s| ==> IsSeparator(s[i])
  }

  /** A non-empty run made only of whitespace and commas, such as `" "`, `","` or `", "`. */
  predicate IsSeparatorText(sep: string) {
    |sep| > 0 && AllSeparators(sep)
  }

  /** The shape of any search box text: `terms[0]`, then the run `seps[0]`, then `terms[1]`,
      and so on, with one separator run between each two consecutive terms. */
  function JoinSeps(terms: seq<string>, seps: seq<string>): (s: string)
    requires |seps| + 1 == |terms| || (terms == [] && seps == [])
    ensures terms != [] && terms[0] != "" ==> s != [] && s[0] == terms[0][0]
    decreases |terms|
  {
    if terms == [] then ""
    else if |terms| == 1 then terms[0]
    else terms[0] + seps[0] + JoinSeps(terms[1..], seps[1..])
  }

  lemma {:induction false} FirstSeparatorOfJoin(t: string, sep: string, rest: string)
    requires SeparatorFree(t) && IsSeparatorText(sep)
    ensures FirstSeparator(t + sep + rest) == |t|
    decreases |t|
  {
    if t != [] {
      assert (t + sep + rest)[1..] == t[1..] + sep + rest;
      FirstSeparatorOfJoin(t[1..], sep, rest);
    } else {
      assert (t + sep + rest)[0] == sep[0];
    }
  }

  lemma {:induction false} SeparatorRunOf(sep: string, tail: string)
    requires AllSeparators(sep)
    requires tail != [] && !IsSeparator(tail[0])
    ensures SeparatorRun(sep + tail) == |sep|
    decreases |sep|
  {
    if sep == [] {
      assert sep + tail == tail;
    } else {
      assert (sep + tail)[0] == sep[0];
      assert (sep + tail)[1..] == sep[1..] + tail;
      SeparatorRunOf(sep[1..], tail);
    }
  }

  lemma {:induction false} SeparatorRunOfAll(s: string)
    requires AllSeparators(s)
    ensures SeparatorRun(s) == |s|
    decreases |s|
  {
    if s != [] {
      SeparatorRunOfAll(s[1..]);
    }
  }

  lemma SplitOfFree(t: string)
    requires SeparatorFree(t)
    ensures Split(t) == [t]
  {
  }

  /** A leading separator run yields one empty piece in front of the rest. */
  lemma SplitAfterRun(pre: string, body: string)
    requires IsSeparatorText(pre)
    requires body != [] && !IsSeparator(body[0])
    ensures Split(pre + body) == [""] + Split(body)
  {
    var s := pre + body;
    assert s[0] == pre[0];
    SeparatorRunOf(pre, body);
    assert s[0..] == s;
    assert s[..0] == "";
    assert s[|pre|..] == body;
  }

  lemma SplitAfterWord(t: string, sep: string, tail: string)
    requires SeparatorFree(t) && IsSeparatorText(sep)
    requires tail != [] && !IsSeparator(tail[0])
    ensures Split(t + sep + tail) == [t] + Split(tail)
  {
    var s := t + sep + tail;
    FirstSeparatorOfJoin(t, sep, tail);
    var rest := s[|t|..];
    assert rest == sep + tail;
    assert s[..|t|] == t;
    SeparatorRunOf(sep, tail);
    assert rest[|sep|..] == tail;
  }

  /** The last term followed by a trailing separator run, possibly empty, is one term. */
  lemma SplitBeforeEnd(t: string, post: string)
    requires t != "" && SeparatorFree(t) && AllSeparators(post)
    ensures NonEmpty(Split(t + post)) == [t]
  {
    if post == "" {
      assert t + post == t;
      SplitOfFree(t);
    } else {
      var s := t + post;
      FirstSeparatorOfJoin(t, post, "");
      assert t + post + "" == s;
      assert s[..|t|] == t;
      assert s[|t|..] == post;
      SeparatorRunOfAll(post);
      assert post[|post|..] == "";
      assert Split("") == [""];
      assert Split(s) == [t, ""];
      assert [t, ""][1..] == [""] && [""][1..] == [];
      assert NonEmpty([""]) == [];
    }
  }

  lemma NonEmptyCons(head: string, pieces: seq<string>)
    requires head != ""
    ensures NonEmpty([head] + pieces) == [head] + NonEmpty(pieces)
  {
    assert ([head] + pieces)[1..] == pieces;
  }

  lemma AppendAssoc(a: string, b: string, c: string)
    ensures (a + b) + c == a + (b + c)
  {
  }

  lemma {:induction false} TermsThenPost(terms: seq<string>, seps: seq<string>, post: string)
    requires terms != [] && |seps| + 1 == |terms|
    requires forall t :: t in terms ==> t != "" && SeparatorFree(t)
    requires forall sep :: sep in seps ==> IsSeparatorText(sep)
    requires AllSeparators(post)
    ensures NonEmpty(Split(JoinSeps(terms, seps) + post)) == terms
    decreases |terms|
  {
    var head := terms[0];
    assert head in terms;
    if |terms| == 1 {
      SplitBeforeEnd(head, post);
    } else {
      var next, sep := terms[1], seps[0];
      assert next in terms && sep in seps;
      assert !IsSeparator(next[0]);
      var rest := JoinSeps(terms[1..], seps[1..]);
      assert rest[0] == next[0];
      var tail := rest + post;
      assert tail[0] == next[0];
      assert forall t :: t in terms[1..] ==> t in terms;
      assert forall s :: s in seps[1..] ==> s in seps;
      TermsThenPost(terms[1..], seps[1..], post);
      assert JoinSeps(terms, seps) == head + sep + rest;
      AppendAssoc(head + sep, rest, post);
      SplitAfterWord(head, sep, tail);
      NonEmptyCons(head, Split(tail));
      assert [head] + terms[1..] == terms;
    }
  }

  /** With every piece separator-free, trimming is the identity and only the filter remains. */
  lemma TermsOfSplit(s: string)
    ensures SearchTermsArray(s) == NonEmpty(Split(s))
  {
    SplitConcat(s);
    TrimAllOfFree(Split(s));
  }

  lemma AllSeparatorsAppend(a: string, b: string)
    requires AllSeparators(a) && AllSeparators(b)
    ensures AllSeparators(a + b)
  {
    forall i | 0 <= i < |a + b| ensures IsSeparator((a + b)[i]) {
      if i < |a| {
        assert (a + b)[i] == a[i];
      } else {
        assert (a + b)[i] == b[i - |a|];
      }
    }
  }

  lemma NoTermsInSeparators(s: string)
    requires AllSeparators(s)
    ensures SearchTermsArray(s) == []
  {
    TermsNonEmptyIff(s);
  }

  lemma SkipLeadingRun(pre: string, body: string)
    requires AllSeparators(pre)
    requires body != [] && !IsSeparator(body[0])
    ensures NonEmpty(Split(pre + body)) == NonEmpty(Split(body))
  {
    if pre != "" {
      SplitAfterRun(pre, body);
      assert ([""] + Split(body))[1..] == Split(body);
    } else {
      assert pre + body == body;
    }
  }

  lemma LayoutPieces(pre: string, terms: seq<string>, seps: seq<string>, post: string)
    requires terms != [] && |seps| + 1 == |terms|
    requires forall t :: t in terms ==> t != "" && SeparatorFree(t)
    requires forall sep :: sep in seps ==> IsSeparatorText(sep)
    requires AllSeparators(pre) && AllSeparators(post)
    ensures NonEmpty(Split(pre + JoinSeps(terms, seps) + post)) == terms
  {
    var mid := JoinSeps(terms, seps);
    var body := mid + post;
    assert terms[0] in terms;
    assert body[0] == mid[0] == terms[0][0];
    AppendAssoc(pre, mid, post);
    SkipLeadingRun(pre, body);
    TermsThenPost(terms, seps, post);
  }

  lemma RoundTripWithoutTerms(pre: string, post: string)
    requires AllSeparators(pre) && AllSeparators(post)
    ensures SearchTermsArray(pre + JoinSeps([], []) + post) == []
  {
    assert pre + JoinSeps([], []) + post == pre + post;
    AllSeparatorsAppend(pre, post);
    NoTermsInSeparators(pre + post);
  }

  lemma RoundTripWithTerms(pre: string, terms: seq<string>, seps: seq<string>, post: string)
    requires terms != [] && |seps| + 1 == |terms|
    requires forall t :: t in terms ==> t != "" && SeparatorFree(t)
    requires forall sep :: sep in seps ==> IsSeparatorText(sep)
    requires AllSeparators(pre) && AllSeparators(post)
    ensures SearchTermsArray(pre + JoinSeps(terms, seps) + post) == terms
  {
    TermsOfSplit(pre + JoinSeps(terms, seps) + post);
    LayoutPieces(pre, terms, seps, post);
  }

  /** Tokenizing inverts the layout: whatever runs of whitespace and commas sit before, between
      and after the terms, the tokenizer gives back exactly the terms, in order. */
  lemma TermsRoundTrip(pre: string, terms: seq<string>, seps: seq<string>, post: string)
    requires forall t :: t in terms ==> t != "" && SeparatorFree(t)
    requires |seps| + 1 == |terms| || (terms == [] && seps == [])
    requires forall sep :: sep in seps ==> IsSeparatorText(sep)
    requires AllSeparators(pre) && AllSeparators(post)
    ensures SearchTermsArray(pre + JoinSeps(terms, seps) + post) == terms
  {
    if terms == [] {
      RoundTripWithoutTerms(pre, post);
    } else {
      RoundTripWithTerms(pre, terms, seps, post);
    }
  }

  lemma JoinSepsCons(first: string, more: seq<string>, seps: seq<string>)
    requires |seps| == |more|
    ensures more == [] ==> JoinSeps([first] + more, seps) == first
    ensures more != [] ==> JoinSeps([first] + more, seps) == first + (seps[0] + JoinSeps(more, seps[1..]))
  {
    var terms := [first] + more;
    assert terms[0] == first && terms[1..] == more;
    if more != [] {
      AppendAssoc(first, seps[0], JoinSeps(more, seps[1..]));
    }
  }

  lemma JoinSepsExtendFirst(c: char, first: string, more: seq<string>, seps: seq<string>)
    requires |seps| == |more|
    ensures JoinSeps([[c] + first] + more, seps) == [c] + JoinSeps([first] + more, seps)
  {
    JoinSepsCons([c] + first, more, seps);
    JoinSepsCons(first, more, seps);
    if more != [] {
      AppendAssoc([c], first, seps[0] + JoinSeps(more, seps[1..]));
    }
  }

  lemma JoinSepsPrependTerm(c: char, sep: string, terms: seq<string>, seps: seq<string>)
    requires terms != [] && |seps| + 1 == |terms|
    ensures JoinSeps([[c]] + terms, [sep] + seps) == [c] + sep + JoinSeps(terms, seps)
  {
    assert ([[c]] + terms)[1..] == terms;
    assert ([sep] + seps)[1..] == seps;
  }

  /** Every text splits into a leading separator run, terms with one separator run between each
      two, and a trailing separator run. */
  lemma {:induction false} Layout(s: string) returns (pre: string, terms: seq<string>, seps: seq<string>, post: string)
    ensures forall t :: t in terms ==> t != "" && SeparatorFree(t)
    ensures |seps| + 1 == |terms| || (terms == [] && seps == [])
    ensures forall sep :: sep in seps ==> IsSeparatorText(sep)
    ensures AllSeparators(pre) && AllSeparators(post)
    ensures s == pre + JoinSeps(terms, seps) + post
    decreases |s|
  {
    if s == "" {
      return "", [], [], "";
    }
    var c := s[0];
    var pre', terms', seps', post' := Layout(s[1..]);
    var mid' := JoinSeps(terms', seps');
    assert s == [c] + pre' + mid' + post';
    if IsSeparator(c) {
      pre, terms, seps, post := [c] + pre', terms', seps', post';
    } else if terms' == [] {
      pre, terms, seps, post := "", [[c]], [], pre' + post';
      assert JoinSeps(terms, seps) == [c];
    } else if pre' == "" {
      pre, terms, seps, post := "", [[c] + terms'[0]] + terms'[1..], seps', post';
      assert terms'[0] in terms';
      assert forall t :: t in terms'[1..] ==> t in terms';
      assert [terms'[0]] + terms'[1..] == terms';
      JoinSepsExtendFirst(c, terms'[0], terms'[1..], seps');
    } else {
      pre, terms, seps, post := "", [[c]] + terms', [pre'] + seps', post';
      JoinSepsPrependTerm(c, pre', terms', seps');
    }
  }

  /** Every text has that layout, so the round trip pins down the tokenizer on every input: the
      terms are the maximal stretches of characters that are neither whitespace nor commas. */
  lemma TextLayout(s: string) returns (pre: string, terms: seq<string>, seps: seq<string>, post: string)
    ensures forall t :: t in terms ==> t != "" && SeparatorFree(t)
    ensures |seps| + 1 == |terms| || (terms == [] && seps == [])
    ensures forall sep :: sep in seps ==> IsSeparatorText(sep)
    ensures AllSeparators(pre) && AllSeparators(post)
    ensures s == pre + JoinSeps(terms, seps) + post
    ensures SearchTermsArray(s) == terms
  {
    pre, terms, seps, post := Layout(s);
    TermsRoundTrip(pre, terms, seps, post);
  }

  /** For instance a comma alone separates `"a,b"`, and leading blanks and a comma followed by a
      blank do not produce extra terms. */
  lemma CommaSeparatesTerms()
    ensures SearchTermsArray("a,b") == ["a", "b"]
    ensures SearchTermsArray(" a, b") == ["a", "b"]
  {
    SeparatedPair("", ",");
    assert "" + "a" + "," + "b" == "a,b";
    SeparatedPair(" ", ", ");
    assert " " + "a" + ", " + "b" == " a, b";
  }

  lemma SeparatedPair(pre: string, sep: string)
    requires AllSeparators(pre) && IsSeparatorText(sep)
    ensures SearchTermsArray(pre + "a" + sep + "b") == ["a", "b"]
  {
    JoinSepsCons("a", ["b"], [sep]);
    assert ["a"] + ["b"] == ["a", "b"];
    assert JoinSeps(["b"], []) == "b";
    AppendAssoc(pre + "a", sep, "b");
    assert pre + JoinSeps(["a", "b"], [sep]) + "" == pre + "a" + sep + "b";
    TermsRoundTrip(pre, ["a", "b"], [sep], "");
  }

  lemma {:induction false} NonEmptyOfNonEmpty(pieces: seq<string>)
    requires forall t :: t in pieces ==> t != ""
    ensures NonEmpty(pieces) == pieces
    decreases |pieces|
  {
    if pieces != [] {
      assert pieces[0] in pieces;
      assert forall t :: t in pieces[1..] ==> t in pieces;
      NonEmptyOfNonEmpty(pieces[1..]);
    }
  }

  lemma {:induction false} RemoveSeparatorsEmptyIff(s: string)
    ensures RemoveSeparators(s) == "" <==> forall i :: 0 <= i < |s| ==> IsSeparator(s[i])
    decreases |s|
  {
    if s != [] {
      RemoveSeparatorsEmptyIff(s[1..]);
      assert forall i :: 1 <= i < |s| ==> s[i] == s[1..][i - 1];
    }
  }

  lemma {:induction false} ConcatEmptyIff(pieces: seq<string>)
    requires forall t :: t in pieces ==> t != ""
    ensures Concat(pieces) == "" <==> pieces == []
  {
    if pieces != [] {
      assert pieces[0] in pieces;
    }
  }

  /** The term list is non-empty exactly when the input has a character that is neither
      whitespace nor a comma. */
  lemma TermsNonEmptyIff(searchTerms: string)
    ensures SearchTermsArray(searchTerms) != [] <==> exists i :: 0 <= i < |searchTerms| && !IsSeparator(searchTerms[i])
  {
    ConcatEmptyIff(SearchTermsArray(searchTerms));
    RemoveSeparatorsEmptyIff(searchTerms);
  }

  lemma {:induction false} TrimStartShape(s: string)
    ensures TrimStart(s) == "" <==> forall i :: 0 <= i < |s| ==> IsWhitespace(s[i])
    ensures TrimStart(s) != "" ==> !IsWhitespace(TrimStart(s)[0])
    decreases |s|
  {
    if s != [] && IsWhitespace(s[0]) {
      TrimStartShape(s[1..]);
      assert forall i :: 1 <= i < |s| ==> s[i] == s[1..][i - 1];
    }
  }

  lemma {:induction false} TrimEndKeepsFirst(s: string)
    requires s != [] && !IsWhitespace(s[0])
    ensures TrimEnd(s) != ""
    decreases |s|
  {
    if IsWhitespace(s[|s| - 1]) {
      TrimEndKeepsFirst(s[..|s| - 1]);
    }
  }

  lemma TrimEmptyIff(s: string)
    ensures Trim(s) == "" <==> forall i :: 0 <= i < |s| ==> IsWhitespace(s[i])
  {
    TrimStartShape(s);
    if TrimStart(s) != "" {
      TrimEndKeepsFirst(TrimStart(s));
    }
  }

  /** Whenever there are terms, the guard lets the search through ... */
  lemma TermsImplyGuard(searchTerms: string)
    ensures SearchTermsArray(searchTerms) != [] ==> HasSearchTerms(searchTerms)
  {
    TermsNonEmptyIff(searchTerms);
  }

  /** ... but not conversely: a lone comma passes the guard and yields no terms. */
  lemma GuardWithoutTerms()
    ensures HasSearchTerms(",") && SearchTermsArray(",") == []
  {
  }
}
