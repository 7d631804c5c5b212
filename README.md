# Invoice chatbot core (app3.py), modelled in Dafny

`app3.py` is a Streamlit app. It loads two CSV files of Brazilian invoices (notas
fiscais) from a Google Drive folder: a header table with one row per invoice, and
an items table with one row per invoice line. Users ask questions about the data,
and a hosted language model answers them. Most of the script is glue code. What
this project models is the deterministic logic inside it:

- **Column discovery** (module `Columns`). `find_supplier_column` and
  `find_chave_acesso_column` search the column names, in column order, for
  keywords in the lower-cased name. The supplier search also rejects any name that
  mentions `chave`, `cnpj` or `cpf`. Both searches are nested loops with an early
  return, modelled as methods proved against a first-match function.
- **Intent trigger** (module `Intent`). The pre-computed path is taken when the
  lower-cased question contains `10 nomes de fornecedores com mais notas fiscais`
  or `top 10 fornecedores`.
- **Top-suppliers ranking** (module `Ranking`). Header rows are reduced to
  (supplier, access key) pairs of optional cells. They are grouped by supplier,
  with missing suppliers dropped. Each group counts its distinct non-missing keys.
  The groups are sorted by count, largest first, and the first ten are kept. The
  ranking's contract is the predicate `IsRanking`, and it leaves the order of tied
  counts open.
- **Result text** (module `Report`). This is the `formatted_result` string: the
  fixed header line followed by one `- name: count Notas Fiscais` line per entry. It
  is built with `+=` in a loop. When no row has a supplier, the header is followed
  by a fixed "no data" sentence. A fixed message replaces it when either column is
  missing.
- **Prompt context** (module `Context`). A non-empty pre-computed result replaces
  the table summaries. Otherwise each table gets a digest: its row count, its
  columns and at most its first five rows.
- **Loading** (module `Loader`). The loop of `load_data_from_drive` assigns each
  downloaded file to the header or items slot by exact name. It skips files whose
  download failed. The load returns both tables or nothing.
- **Chat history** (module `Chat`). `st.session_state.messages` is a class field.
  It is created empty, only appended to, and cleared by the "clear" button or when
  loading failed.

Shared pieces: `Basics` (Option, Min, Python truthiness of an optional string),
`Text` (`str.lower()`, the substring test, decimal rendering of a count) and
`Tables` (a table as column names plus rows of optional cells).

Verify with `dafny verify *.dfy`.

## Model

| member | source | states |
|---|---|---|
| Text.Lower | app3.py:128 | `col.lower()` keeps the length and lower-cases each character; the result has no capitals |
| Text.LowerIdempotent | app3.py:145 | lower-casing an already lower-cased string changes nothing |
| Text.ContainsIffOccurs | app3.py:128 | the substring test holds exactly when the needle is written at some position of the haystack |
| Text.DecimalRoundTrip | app3.py:168 | the count printed in a bullet line reads back as the same number |
| Columns.FirstWhere | app3.py:126-132 | the result is None exactly when no column qualifies; otherwise it is a qualifying column with no qualifying column before it |
| Columns.FirstWhereAt | app3.py:126-131 | the first qualifying column in column order is the one returned |
| Columns.FindSupplierColumn | app3.py:123-132 | returns the first column whose lower-cased name mentions a supplier keyword and no exclusion word; None iff no column qualifies; a returned name never contains `chave`, `cnpj` or `cpf` and is non-empty |
| Columns.FindAccessKeyColumn | app3.py:135-142 | returns the first column whose lower-cased name mentions an access-key keyword, with no exclusions; None iff none does; a returned name is non-empty |
| Intent.TriggerIgnoresCase | app3.py:145-149 | the trigger gives the same answer for a question and its lower-cased form |
| Intent.TriggerIffPhraseOccurs | app3.py:145-149 | the path is taken iff one of the two phrases occurs in the lower-cased question |
| Intent.TriggeredInAnyCase | app3.py:145-149 | a question containing either phrase in any capitalisation takes the path |
| Tables.ColumnIndex | app3.py:159 | selecting a column by name picks its first position, or none when the name is absent |
| Ranking.KeyedRowsGroups | app3.py:159 | the groups of the projected rows are exactly the present cells of the supplier column, and a supplier's keys are exactly the present access-key cells on that supplier's rows |
| Ranking.GroupOrder | app3.py:159 | the groups are exactly the present supplier values, each listed once |
| Ranking.GroupCounts | app3.py:159 | each group appears once, with the number of distinct present access keys among its rows |
| Ranking.InsertByCount | app3.py:162 | inserting into the sorted list adds exactly that entry |
| Ranking.SortByCount | app3.py:162 | the sort is a permutation of its input |
| Ranking.InsertKeepsSorted | app3.py:162 | insertion keeps counts non-increasing |
| Ranking.InsertKeepsDistinct | app3.py:162 | insertion of a new supplier keeps suppliers distinct |
| Ranking.SortIsOrderedAndDistinct | app3.py:162 | the sorted counts are non-increasing and no supplier appears twice |
| Ranking.RankingFromSorted | app3.py:161-162 | the first n entries of any sorted permutation of the group counts form a ranking |
| Ranking.TopSuppliers | app3.py:156-162 | at most n entries; each is a group with its distinct-key count; no supplier twice; counts non-increasing; a supplier left out means the list is full and every included count is at least the left-out supplier's count |
| Ranking.EmptyRankingIffNoGroups | app3.py:166 | the ranking is empty exactly when no row names a supplier |
| Ranking.DuplicateRowKeepsKeys | app3.py:157-159 | inserting a copy of a header row at any position adds no supplier and leaves every supplier's set of keys unchanged |
| Ranking.DuplicateRowSameRankings | app3.py:156-162 | inserting a copy of a header row at any position leaves the set of valid rankings unchanged |
| Ranking.DuplicateRowCountsOnce | app3.py:156-162 | appending a copy of a header row leaves the computed ranking unchanged, tie order included |
| Ranking.AllGroupsRankedWhenFew | app3.py:162 | with at most n groups, the ranking names every group and only the groups |
| Ranking.ExampleGroups | app3.py:159 | rows (A,k1), (A,k1), (B,k2) give the groups A and B with one distinct key each |
| Ranking.TwoSuppliersExample | app3.py:156-162 | every top-2 ranking of those rows is A:1 and B:1 in either order |
| Report.FormatRanking | app3.py:164-170 | the loop builds the header line, then one bullet per entry in rank order; with no entries it builds the header line and the no-data sentence |
| Report.BulletsConcat | app3.py:167-168 | the bullets of two rankings written one after the other are the bullets of their concatenation |
| Report.OneLinePerEntry | app3.py:167-168 | when no supplier name contains a line break, the bullets hold exactly one line per ranked entry |
| Report.RankingTextIsNotColumnsNotFound | app3.py:165-180 | a ranking text is never the missing-columns message |
| Report.AnalyseTopSuppliers | app3.py:150-181 | finds both columns; if both are present it ranks the top 10 and formats them, otherwise it returns the missing-columns message without aggregating; the text is never empty |
| Report.MissingColumnsIff | app3.py:154-181 | the result is the missing-columns message exactly when the supplier column or the key column was not found |
| Report.RankingTextCases | app3.py:164-170 | with both columns found: no groups gives the header line plus the no-data sentence; otherwise the header line plus 1 to 10 bullets |
| Context.Summarize | app3.py:186-198 | a digest keeps the table's name, columns and total row count, and a sample that is the first min(5, rows) rows; an absent table gets the "none available" summary |
| Context.BuildContext | app3.py:145-216 | the context is the pre-computed analysis iff the question triggers it; otherwise it is both digests, built from the header and the items tables |
| Loader.LoadTables | app3.py:44-113 | the loop returns the outcome `Load` defines; no listing and an empty listing both give no tables |
| Loader.AbortedSticks | app3.py:95-113 | once a parse has raised, the load ends with no tables whatever files follow |
| Loader.SlotsAfterStep | app3.py:93-100 | one iteration keeps each slot filled from the last downloaded file of its name |
| Loader.DispatchMeaning | app3.py:75-100 | the loop aborts iff some downloaded header or items file fails to parse; otherwise each slot is filled from the last downloaded file of its name, or stays empty when there is none |
| Loader.LoadMeaning | app3.py:69-108 | both tables come back iff the listing is non-empty, a file of each name was downloaded, and no such file failed to parse; each table comes from the last such file |
| Loader.DispatchSkipsFailedDownload | app3.py:80-90 | a file whose download failed leaves the slots as if it had not been listed |
| Loader.FailedDownloadIsSkipped | app3.py:80-90 | deleting a failed download from a listing does not change the load result |
| Chat.AfterRun | app3.py:264-320 | with the data loaded the history exists afterwards; "clear" empties it; any other action keeps the old history as a prefix and appends exactly its own turns; a failed load empties an existing history and leaves a missing one missing |
| Chat.ReplayAppendsInOrder | app3.py:274-312 | with no clear, the history after a series of runs is the old history followed by every appended turn in order |
| Chat.ClearForgetsHistory | app3.py:289-292 | after a clear, the history depends only on the runs that follow it |
| Chat.Session.InitHistory | app3.py:265-266 | creates an empty history only when none exists |
| Chat.Session.Append | app3.py:276 | the history becomes the old history plus the new turn |
| Chat.Session.Clear | app3.py:290-291 | the history becomes empty |
| Chat.Session.Run | app3.py:248-320 | one run changes the history exactly as `AfterRun` says: a non-empty question appends the user turn, then the reply |

## Left out

- Google Drive authentication, the folder query and the media download (app3.py:23-40, 62-67, 83-85) are network calls. A failed authentication or query is the `None` listing. A failed download or UTF-8 decode is a file with no content.
- `pd.read_csv` (app3.py:95, 99) is the `parse` parameter. Pandas type inference is not modelled: a cell is its text or missing.
- The OpenAI call, its parameters and its exception handler (app3.py:116-120, 232-241) are a remote service. The reply is a parameter of `Chat.Action.Ask`.
- The prompt template text (app3.py:223-230) and the `RESULTADO DA ANÁLISE PRÉVIA` prefix (app3.py:209) are fixed string assembly around the context, so they are not modelled.
- In `create_data_summary`, the `df.describe()` statistics and the `json.dumps` rendering (app3.py:195-198) are floating-point library output. Its exception handler (app3.py:199-200) is left out for the same reason.
- The exception handler around the aggregation (app3.py:173-176) is left out. The model's aggregation cannot fail, since cells are plain text.
- `st.warning`, `st.error` and `print` messages are output only.
- `@st.cache_data` is left out. `Chat.Replay` takes the load result as fixed for a session.
- Sidebar, expanders, chat rendering and `st.rerun()` (app3.py:249-262, 268-272, 277-284, 292, 305, 308, 313) are UI framework behaviour.
- Ranking.TopSuppliers: the order of suppliers with equal counts is not specified. `sort_values` with its default sort is not stable, so ties need not keep the order of first appearance. The function picks one admissible order: insertion sort over groups in order of first appearance. Its contract `IsRanking` does not depend on that choice.
- Text.Lower: only ASCII capitals and the Latin-1 capitals U+00C0-U+00DE (except U+00D7) are lower-cased. Other Unicode case mappings of `str.lower()` are not modelled.
- Columns.FindSupplierColumn: column names are taken to be strings. A non-string column label would make `col.lower()` raise, and that case is not modelled.
