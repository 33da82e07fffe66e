# nas_file_finder search core in Dafny

This project models the search core of a small desktop file finder. The Rust backend command
`search_files` searches a PostgreSQL catalogue of files, either by file name or by directory
path. It has two modes:

- AND mode issues one parameterised statement: one `ILIKE $i` condition per term.
- OR mode issues one fixed one-parameter statement per term. It gathers every row, then sorts by
  `id` and keeps the first record of each id.

The TypeScript front end turns the search box text into terms and keeps the search, settings and
configuration state. All of it is modelled below.

Layout (one module per file):

- `wrappers.dfy`: `Option` and `Result`.
- `records.dfy`: `FileResult`, `Configuration`, `DatabaseConfig`, and the `i32`/`u16` ranges.
- `text.dfy`: decimal rendering of a placeholder number and its inverse, and `join`.
- `search_query.dfy`: column choice, the AND statement (built by a loop) and the OR statement.
- `merge.dfy`: the stable sort by id and the dedup by id, with their proofs.
- `search_files.dfy`: `search_files` as a method, proved against the function `Search`, and
  `test_connection`.
- `search_terms.dfy`: `searchTermsArray` and `hasSearchTerms`.
- `frontend_state.dfy`: the classes `SearchState`, `SettingsState` and `ConfigurationState`.
- `bridge.dfy`: what the front end sees once the backend answers its calls.

How the outside world is represented:

- The database is two parameters. `connection` is the outcome of connecting. `query` maps a
  `Statement` (text plus bound values) to the rows it returns, or to the driver's error text.
- Timestamp formatting by the date library is the parameter `format`.
- Each front-end `invoke` is a parameter giving the backend's answer for the arguments sent.

Two behaviours of the code are worth knowing, plus two notes on the record types:

- An empty term list is not rejected. With no terms, AND mode still builds its statement,
  with nothing between `WHERE` and `LIMIT` (`SearchQuery.AndStatementWithoutTerms`). OR mode
  returns an empty list.
- The front-end guard `hasSearchTerms` accepts a lone comma, which yields no terms
  (`SearchTerms.GuardWithoutTerms`, `Bridge.CommaOnlySearch`).
- The TypeScript `FileResult` interface omits `id`, but the objects it receives carry it. The
  model uses the one record type on both sides.
- Likewise the model uses the Rust `DatabaseConfig`, whose `port` is a `u16`, on both sides.
  The TypeScript `DatabaseConfig` types `port` as `number`, so the front end can hold a port
  that the backend's deserialization would reject. The model does not represent such a port.

## Model

| member | source | states |
|---|---|---|
| `SearchQuery.ColumnName` | src-tauri/src/commands.rs:95 | the searched column is `filename` exactly when searching file names and `directory` exactly when not |
| `SearchQuery.BuildAndStatement` | src-tauri/src/commands.rs:92-106 | the push loop over the enumerated terms, then the join, yields the AND statement `AndStatement(column, terms)` |
| `SearchQuery.AndStatement` | src-tauri/src/commands.rs:97-106 | the AND statement binds one value per term, in term order, each `%term%`; its text is covered by `AndTextIgnoresTermContents` and `AndTextDeterminesTermCount` |
| `SearchQuery.AndStatementShape` | src-tauri/src/commands.rs:97-98 | one condition per term; the i-th condition is `column ILIKE $(i+1)`; these are the conditions the AND text joins with `" AND "` between `WHERE` and `LIMIT` |
| `SearchQuery.OrStatement` | src-tauri/src/commands.rs:137-146 | the OR statement binds exactly one value, `%term%` |
| `SearchQuery.OrTextIgnoresTerm` | src-tauri/src/commands.rs:137-143 | the OR text is the same for every term, and the bound value determines the term |
| `SearchQuery.PlaceholdersDistinct` | src-tauri/src/commands.rs:98 | no two conditions of one AND statement name the same placeholder |
| `SearchQuery.AndTextIgnoresTermContents` | src-tauri/src/commands.rs:97-106 | the statement text depends only on the column and the number of terms; the bound values determine the terms exactly |
| `SearchQuery.AndTextDeterminesTermCount` | src-tauri/src/commands.rs:102-106 | two AND statements with the same text were built from the same number of terms |
| `SearchQuery.SingleTermModesAgree` | src-tauri/src/commands.rs:97-143 | for one term, AND mode and OR mode issue the identical statement, text and value |
| `SearchQuery.AndStatementWithoutTerms` | src-tauri/src/commands.rs:102-106 | with no terms the AND text is `... WHERE  LIMIT 100` and nothing is bound |
| `MergeById.SortById` | src-tauri/src/commands.rs:163 | the sorted list is ordered by id and is a permutation of its input |
| `MergeById.SortKeepsFirst` | src-tauri/src/commands.rs:163 | the sort is stable: the first record with a given id is the same before and after |
| `MergeById.DedupById` | src-tauri/src/commands.rs:164 | dedup keeps the first record and only records of its input; `DedupStrictlyIncreasing`, `DedupKeepsIds` and `DedupKeepsFirst` say the rest |
| `MergeById.DedupStrictlyIncreasing` | src-tauri/src/commands.rs:164 | on sorted input, dedup leaves strictly increasing ids |
| `MergeById.DedupKeepsIds` | src-tauri/src/commands.rs:164 | dedup removes records but never an id |
| `MergeById.DedupKeepsFirst` | src-tauri/src/commands.rs:164 | on sorted input, each record dedup keeps is the first of its id |
| `MergeById.Merge` | src-tauri/src/commands.rs:162-164 | sort then dedup gives ascending ids, no id twice, exactly the collected ids, and per id the record collected first |
| `SearchFiles.ToFileResult` | src-tauri/src/commands.rs:121-127 | the record copies the row's id, file name and directory, and has the formatted timestamp exactly when the row has one |
| `SearchFiles.CollectOr` | src-tauri/src/commands.rs:142-160 | OR collection, term by term then row by row, succeeds exactly when every term's query succeeds |
| `SearchFiles.Search` | src-tauri/src/commands.rs:79-166 | a search fails exactly when connecting fails or one of the queries it runs fails; `OrModeResult`, `AndModeKeepsRows` and `CollectOrFirstError` describe its results |
| `SearchFiles.PushRows` | src-tauri/src/commands.rs:150-159 | the row loop appends, in order, one record per row carrying the row's fields (the same loop as lines 120-129) |
| `SearchFiles.SearchFiles` | src-tauri/src/commands.rs:67-168 | the command's loops return `Search(...)`: connect error, AND rows in order, or OR records gathered term by term then merged; a query error aborts |
| `SearchFiles.AndModeKeepsRows` | src-tauri/src/commands.rs:119-131 | AND mode returns one record per row, in the order received, with the row's id, filename and directory, and a timestamp exactly when the row has one |
| `SearchFiles.CollectOrFirstError` | src-tauri/src/commands.rs:145-148 | when the first failing term is `f`, the result is `Query error: ` plus term `f`'s error, and nothing collected before it is returned |
| `SearchFiles.CollectOrIds` | src-tauri/src/commands.rs:134-160 | the collected ids are exactly those returned by some term's query |
| `SearchFiles.OrModeResult` | src-tauri/src/commands.rs:134-166 | a successful OR search has ascending, distinct ids, exactly the union of the per-term ids, and for each id the record collected first in term order |
| `SearchFiles.OrModeWithoutTerms` | src-tauri/src/commands.rs:134-166 | OR mode with no terms returns an empty list, not an error |
| `SearchFiles.TestConnection` | src-tauri/src/commands.rs:37-64 | `Ok(true)` exactly when connecting and `SELECT 1` both succeed; otherwise an error naming the failed step; never `Ok(false)` |
| `SearchTerms.SplitConcat` | src/lib/commands.svelte.ts:119 | splitting on runs of separators loses exactly the separators; no piece contains one |
| `SearchTerms.SearchTermsArray` | src/lib/commands.svelte.ts:117-122 | every term is non-empty, with no whitespace or comma; the terms concatenated are the input's other characters, in order |
| `SearchTerms.HasSearchTerms` | src/lib/commands.svelte.ts:113-115 | `hasSearchTerms` holds exactly when the input holds a non-whitespace character |
| `SearchTerms.TermsRoundTrip` | src/lib/commands.svelte.ts:117-122 | for non-empty, separator-free terms laid out with an optional leading run of whitespace and commas, a non-empty run (each possibly different) between each two consecutive terms, and an optional trailing run, the tokenizer gives back exactly those terms in order |
| `SearchTerms.TextLayout` | src/lib/commands.svelte.ts:117-122 | every input text has that layout, and its terms are the tokenizer's output, so the round trip fixes the output on every input |
| `SearchTerms.CommaSeparatesTerms` | src/lib/commands.svelte.ts:119 | a comma alone separates terms, and a leading blank or a blank after a comma adds none: `"a,b"` and `" a, b"` both give `["a", "b"]` |
| `SearchTerms.TermsNonEmptyIff` | src/lib/commands.svelte.ts:117-122 | there are terms exactly when the input holds a character that is neither whitespace nor a comma |
| `SearchTerms.TermsImplyGuard` | src/lib/commands.svelte.ts:113-122 | whenever there are terms, `hasSearchTerms` holds |
| `SearchTerms.GuardWithoutTerms` | src/lib/commands.svelte.ts:113-122 | the converse fails: `","` passes `hasSearchTerms` yet gives no terms |
| `FrontendState.SearchState.constructor` | src/lib/commands.svelte.ts:62-69 | empty text, results and error; not loading; AND mode over file names |
| `FrontendState.SearchState.Search` | src/lib/commands.svelte.ts:124-144 | without search terms nothing changes; otherwise the backend gets the tokenized terms and options, and the state ends not loading, with the returned list and no error, or with no results and the message |
| `FrontendState.SearchState.Reset` | src/lib/commands.svelte.ts:146-151 | clears text, results and error, stops loading, keeps both search options |
| `FrontendState.StatusAfterTest` | src/lib/commands.svelte.ts:236-241 | the status is `Connected` exactly when the answer is `true`, and `Disconnected` otherwise, a thrown error included |
| `FrontendState.SettingsState.constructor` | src/lib/commands.svelte.ts:165-170 | starts with the loaded settings, closed, not saving, status unknown |
| `FrontendState.SettingsState.Open` | src/lib/commands.svelte.ts:224-226 | the dialog is open |
| `FrontendState.SettingsState.Close` | src/lib/commands.svelte.ts:228-230 | the dialog is closed |
| `FrontendState.SettingsState.TestConnection` | src/lib/commands.svelte.ts:232-243 | ends `Connected` exactly when it returns true, otherwise `Disconnected` and false |
| `FrontendState.SettingsState.Save` | src/lib/commands.svelte.ts:245-253 | ends not saving, closed, settings unchanged, status from a fresh connection test |
| `FrontendState.SettingsState.Reset` | src/lib/commands.svelte.ts:255-259 | settings back to the defaults, status unknown |
| `FrontendState.FindByKey` | src/lib/commands.svelte.ts:326 | returns the position of the first configuration with the key, or nothing when no key matches |
| `FrontendState.ConfigurationState.constructor` | src/lib/commands.svelte.ts:263-268 | no configurations, not loading, not saving, no error |
| `FrontendState.ConfigurationState.LoadConfigurations` | src/lib/commands.svelte.ts:298-309 | ends not loading; on success holds the returned list with no error, on failure keeps the old list and shows the message |
| `FrontendState.ConfigurationState.UpdateConfiguration` | src/lib/commands.svelte.ts:311-323 | ends not saving; a failed update shows its message and reloads nothing; a successful one reloads, and a failed reload shows the reload's message |
| `FrontendState.ConfigurationState.GetConfigurationValue` | src/lib/commands.svelte.ts:325-328 | the value of the first configuration with the key, `''` when none has it |
| `FrontendState.ConfigurationState.GetConfigurationDescription` | src/lib/commands.svelte.ts:330-333 | the description of the first configuration with the key, `''` when none has it or it is null |
| `Bridge.ProbeThroughBackend` | src/lib/commands.svelte.ts:232-243 | against the backend probe, the status ends `Connected` exactly when connecting and `SELECT 1` succeed |
| `Bridge.CommaOnlySearch` | src/lib/commands.svelte.ts:124-137 | a lone comma passes the guard and sends no terms: AND mode then issues `... WHERE  LIMIT 100`, OR mode returns an empty list |
| `Bridge.BoundValuesAreCleanTerms` | src-tauri/src/commands.rs:97-100 | for any typed text, each value bound by the AND statement is `%term%` for a non-empty term without whitespace or commas |

## Left out

- Database access is out of scope: the driver, the spawned connection task and `ILIKE` matching. The connection outcome and each statement's rows are parameters.
- The connection string `format!` and `greet` are not modelled. They are plain text plumbing.
- Timestamp formatting by the date library is not modelled. It is the parameter `format` of `ToFileResult`.
- `get_configurations` and `update_configuration` in the backend are left out. Each is one fixed statement plus row copying, and `ORDER BY key` and `CURRENT_TIMESTAMP` are done by the database.
- `open_directory` is left out: it only starts an operating-system process chosen per platform.
- `GlobalState` (the greeting demo) and `preventDefault` are left out. They are UI wiring.
- `sort_by_key` and `dedup_by_key` are modelled on values, not in place. They are standard-library calls; the model is a stable insertion sort and a dedup of runs.
- Unicode whitespace is not modelled. JavaScript's `\s` and `trim` also cover non-ASCII spaces; here whitespace is space, tab, line feed, vertical tab, form feed and carriage return.
- Asynchronous interleaving is not modelled. Each front-end method runs as one step, so the loading and `testing` states are set and cleared but never seen by another caller.
- Svelte reactivity is not modelled. The getters and setters are the class fields.
- FrontendState.SettingsState.Save: does not model the 300 ms delay or the write of the settings to browser storage.
- FrontendState.SettingsState.Reset: does not model the write of the defaults to browser storage.
- FrontendState.SettingsState.constructor: takes the loaded settings as a parameter; reading and merging the stored JSON is not modelled.
