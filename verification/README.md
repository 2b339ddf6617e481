# FlockMTL core, modelled in Dafny

FlockMTL is a DuckDB extension that calls large language models from SQL:
scalar functions that complete or filter a batch of rows, and aggregates
(`llm_max`/`llm_min`, `llm_reduce`, `llm_rerank`, `string_concat`) that
combine a group of rows. This project models the deterministic core of the
extension and proves what it does:

- **Token-budgeted orchestration** (`ScalarBatching`, `Tournament`,
  `Reduce`, `WindowRerank`, `CoreRerank`, sharing `Packing`): how rows are
  packed into batches under a token budget, and how the per-batch answers are
  combined: the adaptive scalar batcher, the MIN/MAX tournament, the
  back-to-front reduce fold, and the two generations of sliding-window
  reranking. Rows are an opaque type parameter; the model call, row
  rendering and the token counter of a rendered row are function parameters.
- **Token counter** (`Tiktoken`): the count of matches of `\w+|[^\w\s]`.
- **DDL lexer and parsers** (`Lexer`, `Grammar`, `Statements`,
  `ModelParser`, `SecretParser`): the `CREATE/DELETE/UPDATE/GET MODEL` and
  `... SECRET` statements, and the SQL text each parsed statement becomes.
- **SQL text builder** (`QueryBuilder`): the fluent `Query` class whose
  setters overwrite or append fields and whose `build_*` methods assemble text.
- **Prompt placeholder substitution** (`PromptTemplates`): the replace-all
  loops of the scalar and min/max prompt templates.
- **Provider and model classification** (`Supported`).
- **Aggregate states** (`AggregateState`, `StringConcat`): the row-list state
  of the selector, max and rerank aggregates, and the `string_concat` state.

`Wrappers`, `Text` and `JsonText` hold the shared result types, string
helpers (ASCII case mapping, joining, decimal text) and the JSON array text
a list of rows dumps to.

Code that updates state in place is modelled as classes and methods:
`Lexer.Tokenizer` (the cursor), `QueryBuilder.Query` (the builder's
fields), `AggregateState.RowListState` and `StringConcat.StringConcatState`.
Each loop of the source is a method with its invariants, proved against a
specification function (`Lex`, `Match`, `ReplaceAll`, `Admits`, `Trace`)
about which the lemmas state what the source promises.

`src/core/functions/aggregate/llm_max.cpp` carries a second copy of the
selector of `src/core/functions/aggregate/llm_selector.cpp` (its constructor
at lines 40-55, its selection at lines 70-104, its state at lines 22-28);
`Tournament` and `AggregateState` model both, and the table cites the
selector file. `src/core/model_manager/tiktoken.cpp` is the same counter as
`src/model_manager/tiktoken.cpp`. The rerank state
(`src/core/functions/aggregate/llm_rerank.cpp:22-28`) is the same row-list
state as the selector's.

### Behaviour of the code that the model keeps

Where the code and its documentation differ, the model follows the code:

- The scalar batcher's overflow handler writes `1 ? new_batch_size == 0 :
  new_batch_size`, so after an overflow the cap becomes 1 when a tenth of
  the old cap rounds to 0 and 0 otherwise (`ScalarBatching.ShrunkCap`). The
  batcher then restarts at row 0 and keeps the answers it already has; a
  cap of 0 admits nothing, so a large batch that overflowed is followed by a
  pass with no rows (`ScalarBatching.OverflowOfLargeBatchStalls`).
- The tournament plans batches of different sizes but slices every batch
  with the counter's last value, which is 0 when the last row closed a batch
  (`Tournament.ClosingOnLastRowShowsNothing`). Reads past the candidates
  yield JSON null, and the model's answer is a position in the batch, not an
  id.
- The reduce fold and the first-generation reranker test the unsigned
  difference `available - accumulated > 0`, which is false only on equality;
  the fit test does the bounding (`Packing.TakeBackward`).
- The first-generation reranker returns only the last window's better half
  (`WindowRerank.AtMostHalfReturned`); the second-generation one returns
  only the lower halves and drops the last window
  (`CoreRerank.CompletedRerankDropsRows`).
- The model DDL accepts a statement only when its closing parenthesis is
  followed by the end of input, so a trailing `;` is refused, although the
  error message says a semicolon is allowed. The secret DDL needs a symbol or
  `;` after the statement and ignores anything that follows it; `GET SECRET ;`
  is refused because it is not `SECRETS` and `;` is not a key. `MODEL` and
  `MODELS` are not told apart.
- The builder emits `SELECT  FROM t` when no columns were chosen (the `*`
  fallback is assigned to the boolean), `VALUES;` for an insert without
  values, and `,);` for a table without a primary key.
- The min/max template replaces only ten of the eleven characters of
  `{relevance}`, leaving the `}` after the word
  (`PromptTemplates.RelevanceKeepsBrace`).

## Model

| member | source | states |
|---|---|---|
| Packing.RowBudget | src/core/functions/aggregate/llm_selector.cpp:22-28 | the budget is an error with the message "Fixed tokens exceed model context size" exactly when the fixed tokens exceed the context; otherwise it is context minus fixed, never negative |
| Packing.DivIsIntegerDivision | src/functions/scalar/scalar.cpp:62 | the unsigned division of token counts rounds down: q*b <= a < (q+1)*b |
| Packing.AdmitsUnique | src/functions/scalar/scalar.cpp:36-46 | the admission rule determines the batch length: two lengths it admits are equal |
| Packing.AdmittedRowWasAdmissible | src/functions/scalar/scalar.cpp:36-44 | every admitted row was taken while the running total was below the budget, and it fit |
| Packing.AdmittedWithinBudget | src/functions/scalar/scalar.cpp:40-44 | a non-empty batch never overdraws: base charge plus row costs stays within the budget |
| Packing.ExhaustedBaseAdmitsNothing | src/functions/scalar/scalar.cpp:34-37 | a header charge that already reaches the budget admits no row |
| Packing.Backward | src/core/functions/aggregate/llm_reduce.cpp:58-69 | the rows visited from index hi-1 down to 0: element i is tuples[hi-1-i] |
| Packing.TakeForward | src/functions/scalar/scalar.cpp:36-46 | the forward loop takes a contiguous slice from the cursor, the one the admission rule admits (cap, end of input, budget reached, first misfit), and reports its total |
| Packing.TakeBackward | src/core/functions/aggregate/llm_reduce.cpp:62-70 | the backward loop under the unsigned guard takes the admitted rows from hi downwards, moves the signed cursor by exactly that many, and reports the total |
| ScalarBatching.ShrunkCap | src/functions/scalar/scalar.cpp:54-55 | the cap after an overflow is at most 1, and it is 0 exactly when the old cap was at least 10 |
| ScalarBatching.RunPass | src/functions/scalar/scalar.cpp:34-50 | one pass charges the header of the cursor row, admits rows forwards and calls the model on exactly that batch |
| ScalarBatching.BatchAndComplete | src/functions/scalar/scalar.cpp:13-74 | "prompt exceeds limit" exactly when the budget is negative, with no model call; otherwise the passes form a trace (first at row 0 with every row allowed, each later one at the cursor and cap its predecessor left); on success the answers are the successful passes' answers in order and the last pass ends at the last row; an empty batch or a zero per-tuple count ends the run with `DivisionByZero`; the run succeeds exactly when its last pass answered a non-empty batch reaching the last row, and a failed run (running out of passes included) has no such pass |
| ScalarBatching.TraceWellFormed | src/functions/scalar/scalar.cpp:34-50 | every pass of a run is an admission from its cursor under its cap, answered by the model on that batch |
| ScalarBatching.TraceLinked | src/functions/scalar/scalar.cpp:51-64 | after an overflow the next pass starts at row 0 under the shrunk cap; after a success it starts where the batch ended, under max_output_tokens divided by the per-tuple cost |
| ScalarBatching.OverflowOfLargeBatchStalls | src/functions/scalar/scalar.cpp:51-58 | after an overflow of a batch with cap at least 10 the next pass restarts at row 0 with an empty batch and yields no answers |
| ScalarBatching.LastRestart | src/functions/scalar/scalar.cpp:57 | the index after the last overflowing pass; every pass from there on succeeded |
| ScalarBatching.TraceIsChained | src/functions/scalar/scalar.cpp:43-45 | each pass after a success starts where the previous batch ended, and every batch is the slice of rows at its cursor |
| ScalarBatching.CoveredSinceRestart | src/functions/scalar/scalar.cpp:57-68 | the batches since the last restart concatenate to the rows from 0 up to the end of the last batch |
| ScalarBatching.RowsCoveredOnceInOrder | src/functions/scalar/scalar.cpp:33-70 | when the loop exits after a success, the batches since the last restart hold every row exactly once, in arrival order |
| AggregateState.RowListState.constructor | src/core/functions/aggregate/llm_selector.cpp:6-7 | a fresh state holds no rows |
| AggregateState.RowListState.Update | src/core/functions/aggregate/llm_selector.cpp:9-11 | Update appends the input to the rows |
| AggregateState.RowListState.Combine | src/core/functions/aggregate/llm_selector.cpp:13-15 | Combine replaces the target's rows by the source's and leaves the source unchanged |
| AggregateState.UpdateAll | src/core/functions/aggregate/llm_max.cpp:22-24 | updating with a sequence of rows appends them in order |
| Tournament.NewSelector | src/core/functions/aggregate/llm_selector.cpp:17-36 | the constructor fails with "Fixed tokens exceed model context size" exactly when prompt plus template tokens exceed the context; otherwise the budget is context minus those tokens |
| Tournament.PlanBatches | src/core/functions/aggregate/llm_selector.cpp:56-70 | the planning loop computes `Plan`: a batch closes right after the row whose cost brings the running total to the budget, and at the last row; the batches cover every row, and the counter ends at 0 exactly when the last batch closed on the budget, at that batch's size otherwise |
| Tournament.PlanIsWellFormed | src/core/functions/aggregate/llm_selector.cpp:56-70 | the plan of every run consists of well-closed batches laid end to end from row 0, covering every row, with the counter's final value as above |
| Tournament.PlanEntriesPositive | src/core/functions/aggregate/llm_selector.cpp:60-70 | every planned batch has at least one row and the plan covers at most all rows |
| Tournament.ReadOfSlice | src/core/functions/aggregate/llm_selector.cpp:74-81 | whatever non-negative position the model picks in a slice, it reads null or one of the candidates |
| Tournament.CollectWinners | src/core/functions/aggregate/llm_selector.cpp:72-82 | the round's model calls compute `Winners`: one winner per plan entry, in batch order, each the element at the model's position in its slice; fails exactly when some answer is negative; every winner is null or a candidate |
| Tournament.BatchesAreOnePrefix | src/core/functions/aggregate/llm_selector.cpp:72-79 | the batches together are one prefix of the candidates of length m*b |
| Tournament.ClosingOnLastRowShowsNothing | src/core/functions/aggregate/llm_selector.cpp:63-75 | when the last row closes a batch the counter is 0, so every batch the model is shown is empty |
| Tournament.BatchEndsAtBudgetRow | src/core/functions/aggregate/llm_selector.cpp:60-69 | every batch of a plan ends with the row that brought its total to the budget (that row included) or at the last row, and the rows before that one stayed below the budget |
| Tournament.SelectorCall | src/core/functions/aggregate/llm_selector.cpp:50-84 | the recursion computes `Play`, round by round: one candidate gives its content with no model call; otherwise the candidates are planned, the model picks from slice i*b..i*b+b of each planned batch (b the counter's final value), a negative pick is an error, and the winners play the next round; an answer is null or the content of one of the candidates; no candidates run out of rounds |
| Tournament.WinnersFromCandidates | src/core/functions/aggregate/llm_selector.cpp:76-81 | every winner of a round is null or one of that round's candidates |
| Tournament.PlayAnswersSomeCandidate | src/core/functions/aggregate/llm_selector.cpp:50-84 | an answer of the whole tournament is null or the content of one of the first round's candidates |
| Tournament.PlayOfNothingRunsOut | src/core/functions/aggregate/llm_selector.cpp:56-83 | an empty candidate list plans no batch and passes an empty list on, so every round recurses and the rounds run out |
| Tournament.WrapWithIds | src/core/functions/aggregate/llm_max.cpp:181-187 | row i becomes the candidate with id i and that row as content, in arrival order |
| Tournament.MaxOfOneRow | src/core/functions/aggregate/llm_max.cpp:181-189 | a group of one row yields that row |
| JsonText.ArrayDump | src/core/functions/aggregate/llm_reduce.cpp:61 | the dump of a list is bracketed; an empty list dumps to "[]" |
| Reduce.NewReducer | src/core/functions/aggregate/llm_reduce.cpp:22-41 | construction fails exactly when the reduce query and template tokens exceed the context; otherwise the budget is what is left |
| Reduce.CarryAfter | src/core/functions/aggregate/llm_reduce.cpp:71-73 | after any window the carry is at most one element |
| Reduce.WindowStep | src/core/functions/aggregate/llm_reduce.cpp:60-73 | one pass re-charges the dump of the carry, admits rows backwards and leaves exactly the model's answer as the carry |
| Reduce.ReduceLoop | src/core/functions/aggregate/llm_reduce.cpp:55-77 | the model is called at least once, rows are taken from last to first, a window after the first is sent only while rows remain, and on success every row was taken exactly once and the result is the answer to the window that took the first row |
| Reduce.NoWindowAfterLastRow | src/core/functions/aggregate/llm_reduce.cpp:60-74 | every window after the first starts with some row still untaken, so the loop stops with the window that takes the first row |
| Reduce.FirstWindowChargesEmptyArray | src/core/functions/aggregate/llm_reduce.cpp:57-61 | the first window starts from an empty carry charged as "[]", two tokens |
| Reduce.LaterWindowCarriesAnswer | src/core/functions/aggregate/llm_reduce.cpp:71-73 | every later window sends the previous answer followed by its own rows |
| Reduce.WindowWithinBudget | src/core/functions/aggregate/llm_reduce.cpp:62-70 | a window that took rows stays within the budget |
| WindowRerank.NewReranker | src/functions/aggregate/llm_rerank.cpp:15-28 | construction fails exactly when search query and template tokens exceed the context window; otherwise the budget is what is left |
| WindowRerank.IndexedWindow | src/functions/aggregate/llm_rerank.cpp:58-63 | the copy of window row i carries local id i |
| WindowRerank.IndexWindow | src/functions/aggregate/llm_rerank.cpp:58-63 | the indexing loop builds the indexed copy |
| WindowRerank.RankedHalf | src/functions/aggregate/llm_rerank.cpp:67-71 | the next carry is the window rows at the first |window|/2 ranking positions, in ranking order; it fails exactly when a needed ranking entry is missing or negative |
| WindowRerank.SelectRanked | src/functions/aggregate/llm_rerank.cpp:67-71 | the selection loop computes that half |
| WindowRerank.PassStep | src/functions/aggregate/llm_rerank.cpp:41-71 | one pass keeps the trace: the carry, then rows taken backwards under the budget, ranked; the cursor moves by the rows taken |
| WindowRerank.WindowPass | src/functions/aggregate/llm_rerank.cpp:41-71 | the pass body starts from the carry, takes rows backwards and selects the ranked half as the next carry |
| WindowRerank.SlidingWindowRerank | src/functions/aggregate/llm_rerank.cpp:30-75 | rows are taken from last to first; on success every row was taken and the result is the last window's ranked half, at most half the rows; a ranking error is reported |
| WindowRerank.WindowBoundedByRowsTaken | src/functions/aggregate/llm_rerank.cpp:44-71 | a window never holds more rows than have been taken so far |
| WindowRerank.AtMostHalfReturned | src/functions/aggregate/llm_rerank.cpp:74 | the returned carry holds at most half of the rows |
| WindowRerank.PassWithinBudget | src/functions/aggregate/llm_rerank.cpp:45-56 | a pass that took rows charged the carry dump plus the cursor row's header plus the rows within the budget |
| CoreRerank.NewCoreReranker | src/core/functions/aggregate/llm_rerank.cpp:40-60 | construction fails when fixed tokens exceed the context, divides by zero when the longest row has no tokens, and otherwise sizes the window as min(budget / longest-row tokens, rows) |
| CoreRerank.Tagged | src/core/functions/aggregate/llm_rerank.cpp:86-90 | rows lo..lo+len tagged with their global index; nothing when lo is negative |
| CoreRerank.TagRows | src/core/functions/aggregate/llm_rerank.cpp:111-117 | the tagging loop adds those rows, none when the guard fails at once |
| CoreRerank.Bottom | src/core/functions/aggregate/llm_rerank.cpp:98-101 | the rows at ranking positions b-half..b, read as global indices |
| CoreRerank.Top | src/core/functions/aggregate/llm_rerank.cpp:104-109 | the candidates at the first half ranking positions, with their global ids |
| CoreRerank.BottomRows | src/core/functions/aggregate/llm_rerank.cpp:98-101 | the output loop appends exactly half rows, the bottom of the ranking; fails exactly when an entry is missing or out of range |
| CoreRerank.TopRows | src/core/functions/aggregate/llm_rerank.cpp:104-109 | the carry loop keeps the top half of the ranking; fails exactly when an entry is out of range |
| CoreRerank.OutputLength | src/core/functions/aggregate/llm_rerank.cpp:98-101 | each pass adds exactly b/2 rows to the output |
| CoreRerank.PassStep | src/core/functions/aggregate/llm_rerank.cpp:93-122 | a pass with a usable ranking appends its bottom half and moves the window down by half |
| CoreRerank.FailedPass | src/core/functions/aggregate/llm_rerank.cpp:95-101 | a pass with an unusable ranking still extends the trace |
| CoreRerank.SlidingWindowRerank | src/core/functions/aggregate/llm_rerank.cpp:76-125 | the first window is the last b rows; each next window is the previous top half plus the next half rows below; on success the output is the passes' bottom halves in order and the last pass started below b/2; an unusable ranking is reported |
| CoreRerank.PassStart | src/core/functions/aggregate/llm_rerank.cpp:78-121 | pass k starts at n - b - k*(b/2) and never below 0 |
| CoreRerank.LastWindowShape | src/core/functions/aggregate/llm_rerank.cpp:84-117 | the latest window holds b rows first and 2*(b/2) later, all tagged with their global index |
| CoreRerank.WindowShape | src/core/functions/aggregate/llm_rerank.cpp:84-117 | the same holds for every pass of a run |
| CoreRerank.OutputFromRows | src/core/functions/aggregate/llm_rerank.cpp:99-100 | every output row is one of the input rows |
| CoreRerank.CompletedRerankDropsRows | src/core/functions/aggregate/llm_rerank.cpp:124 | the output plus the last window's top half plus the rows above the last start add up to n, so the output is always shorter than the input |
| Tiktoken.CountTokens | src/model_manager/tiktoken.cpp:7-12 | the count is at most the length, and at least 1 when the text starts with a non-space |
| Tiktoken.CountTokensIsMatchStarts | src/model_manager/tiktoken.cpp:8-11 | the count equals the number of matches of \w+ or [^\w\s], counted independently as match starts |
| Tiktoken.CountTokensAdditive | src/model_manager/tiktoken.cpp:8-11 | count(a + " " + b) = count(a) + count(b) |
| Tiktoken.CountTokensOfSpaces | src/model_manager/tiktoken.cpp:8-11 | an empty or whitespace-only text counts 0 |
| Tiktoken.WordRunIsOneToken | src/model_manager/tiktoken.cpp:8 | a non-empty run of word characters counts 1 |
| Tiktoken.PunctuationCountsEach | src/core/model_manager/tiktoken.cpp:9 | each character that is neither word nor space counts 1 |
| Tiktoken.EmptyArrayIsTwoTokens | src/model_manager/tiktoken.cpp:8 | "[]" counts 2 |
| Lexer.TokenTypeToString | src/custom_parser/tokenizer.cpp:126-146 | every token type has a non-empty name |
| Lexer.TokenTypeNamesDistinct | src/custom_parser/tokenizer.cpp:126-146 | different token types have different names |
| Lexer.RunEnd | src/custom_parser/tokenizer.cpp:13-17 | the end of the maximal run of a character class from a position |
| Lexer.JsonEnd | src/custom_parser/tokenizer.cpp:43-52 | the brace-counting scan ends after the brace that closes the object, if any |
| Lexer.JsonEndBalances | src/custom_parser/tokenizer.cpp:39-58 | the scan ends exactly where the braces first balance, and finds nothing exactly when they never do |
| Lexer.Lex | src/custom_parser/tokenizer.cpp:96-120 | the next token after whitespace, and the position after it, within the input |
| Lexer.LexErrors | src/custom_parser/tokenizer.cpp:31-55 | the only errors are "Unterminated string literal." and "Unterminated JSON." |
| Lexer.EndOfFileIsSticky | src/custom_parser/tokenizer.cpp:96-100 | end of file exactly when only whitespace remains, with an empty value and at the end, on every call |
| Lexer.UnknownRepeats | src/custom_parser/tokenizer.cpp:117-118 | an unknown character is returned again by the next call |
| Lexer.TokensAdvance | src/custom_parser/tokenizer.cpp:26-91 | every token other than end of file and unknown moves the position forward |
| Lexer.StringLiteralShape | src/custom_parser/tokenizer.cpp:22-37 | a string literal's value is the text strictly between the quotes, with no quote inside |
| Lexer.JsonShape | src/custom_parser/tokenizer.cpp:39-58 | a JSON token runs from '{' to the matching '}' inclusive |
| Lexer.JsonTextBalances | src/custom_parser/tokenizer.cpp:39-58 | its braces balance, and no proper prefix does |
| Lexer.KeywordShape | src/custom_parser/tokenizer.cpp:61-69 | a keyword starts with a letter and is the maximal run of letters and '_' |
| Lexer.NumberShape | src/custom_parser/tokenizer.cpp:79-86 | a number is the maximal run of digits |
| Lexer.PunctuationShape | src/custom_parser/tokenizer.cpp:107-116 | ';' ',' '=' give a one-character symbol, '(' ')' a parenthesis |
| Lexer.Tokens | src/custom_parser/tokenizer.cpp:96-120 | the first k tokens from a position, in order |
| Lexer.LiteralsHaveNoQuote | src/custom_parser/tokenizer.cpp:22-69 | no string literal or keyword value contains a single quote |
| Lexer.Tokenizer.constructor | src/custom_parser/tokenizer.cpp:10 | a tokenizer starts at position 0 of its query |
| Lexer.Tokenizer.SkipWhitespace | src/custom_parser/tokenizer.cpp:13-17 | moves past the maximal run of whitespace |
| Lexer.Tokenizer.ParseStringLiteral | src/custom_parser/tokenizer.cpp:22-37 | errors without a leading quote or a closing one; otherwise returns the text between and moves past the closing quote |
| Lexer.Tokenizer.ParseJson | src/custom_parser/tokenizer.cpp:39-58 | errors without a leading brace or a balancing one; otherwise returns the object text and moves past it |
| Lexer.Tokenizer.ParseKeyword | src/custom_parser/tokenizer.cpp:61-69 | returns the run of letters and '_' and moves past it |
| Lexer.Tokenizer.ParseSymbol | src/custom_parser/tokenizer.cpp:72-76 | returns the one character as a symbol and moves by one |
| Lexer.Tokenizer.ParseNumber | src/custom_parser/tokenizer.cpp:79-86 | returns the run of digits and moves past it |
| Lexer.Tokenizer.ParseParenthesis | src/custom_parser/tokenizer.cpp:89-93 | returns the parenthesis and moves by one |
| Lexer.Tokenizer.GetNextToken | src/custom_parser/tokenizer.cpp:96-120 | returns exactly the token, position and error of Lex |
| Grammar.Match | src/core/parser/query/model_parser.cpp:34-87 | reading tokens against expectations yields one token per expectation, within the input |
| Grammar.MatchIsTokens | src/core/parser/query/model_parser.cpp:34-87 | a sequence of expectations is met exactly when the next tokens exist and each meets its expectation, and then they are those tokens |
| Grammar.ExpectAll | src/core/parser/query/model_parser.cpp:34-87 | the tokenizer loop returns exactly the result of Match and its first failure message |
| Grammar.StoIOfNatToString | src/core/parser/query/model_parser.cpp:82 | stoi reads back every non-negative number up to INT_MAX |
| Grammar.StoIRefusesOverflow | src/core/parser/query/model_parser.cpp:82 | stoi fails for a number above INT_MAX |
| ModelParser.CreateModelAt | src/core/parser/query/model_parser.cpp:33-100 | a successful CREATE reading gives a create-model statement |
| ModelParser.DeleteModelAt | src/core/parser/query/model_parser.cpp:102-145 | a successful DELETE reading gives a delete-model statement |
| ModelParser.UpdateModelAt | src/core/parser/query/model_parser.cpp:147-214 | a successful UPDATE reading gives an update-model statement |
| ModelParser.GetModelAt | src/core/parser/query/model_parser.cpp:216-242 | a successful GET reading gives a get-model or get-all-models statement |
| ModelParser.ParseCreateModel | src/core/parser/query/model_parser.cpp:33-100 | the tokenizer-driven parse equals the CREATE reading |
| ModelParser.ParseDeleteModel | src/core/parser/query/model_parser.cpp:102-145 | the tokenizer-driven parse equals the DELETE reading |
| ModelParser.ParseUpdateModel | src/core/parser/query/model_parser.cpp:147-214 | the tokenizer-driven parse equals the UPDATE reading |
| ModelParser.ParseGetModel | src/core/parser/query/model_parser.cpp:216-242 | the tokenizer-driven parse equals the GET reading |
| ModelParser.Parse | src/core/parser/query/model_parser.cpp:11-31 | the parser returns exactly the statement or error of the query reading |
| ModelParser.Dispatch | src/core/parser/query/model_parser.cpp:11-31 | each statement kind is produced exactly when the first token is its keyword (any case) and the rest parses as that kind |
| ModelParser.AcceptsCreate | src/core/parser/query/model_parser.cpp:33-100 | CREATE MODEL('n','m','p', N) followed by end of input, with non-empty literals and N within int, is accepted, and only that, giving those fields |
| ModelParser.AcceptsDelete | src/core/parser/query/model_parser.cpp:102-145 | DELETE MODEL('n','p') followed by end of input is accepted, and only that |
| ModelParser.AcceptsUpdate | src/core/parser/query/model_parser.cpp:147-214 | UPDATE MODEL('n','m','p', N) followed by end of input is accepted, and only that, with new max tokens N |
| ModelParser.AcceptsGetAll | src/core/parser/query/model_parser.cpp:216-226 | GET MODEL or MODELS followed by a symbol is a get-all |
| ModelParser.AcceptsGet | src/core/parser/query/model_parser.cpp:216-241 | GET MODEL or MODELS, a non-empty literal and end of input is a get of that name |
| ModelParser.ParsedFieldsQuoteFree | src/core/parser/query/model_parser.cpp:45-71 | no field of a parsed statement contains a single quote |
| ModelParser.ModelToSQL | src/core/parser/query/model_parser.cpp:244-294 | rendering fails with "Unknown statement type." exactly for secret statements |
| ModelParser.ModelToSQLInjective | src/core/parser/query/model_parser.cpp:248-281 | quote-free statements of one kind with the same SQL text are equal |
| ModelParser.ParsedRendering | src/core/parser/query/model_parser.cpp:244-294 | every parsed statement renders, and two parsed queries rendering alike parsed alike |
| SecretParser.CreateSecretAt | src/custom_parser/query/secret_parser.cpp:33-71 | a successful CREATE reading gives a create-secret statement |
| SecretParser.DeleteSecretAt | src/custom_parser/query/secret_parser.cpp:73-98 | a successful DELETE reading gives a delete-secret statement |
| SecretParser.UpdateSecretAt | src/custom_parser/query/secret_parser.cpp:100-136 | a successful UPDATE reading gives an update-secret statement |
| SecretParser.GetSecretAt | src/custom_parser/query/secret_parser.cpp:138-167 | a successful GET reading gives a get-secret or get-all-secrets statement |
| SecretParser.ParseCreateSecret | src/custom_parser/query/secret_parser.cpp:33-71 | the tokenizer-driven parse equals the CREATE reading |
| SecretParser.ParseDeleteSecret | src/custom_parser/query/secret_parser.cpp:73-98 | the tokenizer-driven parse equals the DELETE reading |
| SecretParser.ParseUpdateSecret | src/custom_parser/query/secret_parser.cpp:100-136 | the tokenizer-driven parse equals the UPDATE reading |
| SecretParser.ParseGetSecret | src/custom_parser/query/secret_parser.cpp:138-167 | the tokenizer-driven parse equals the GET reading |
| SecretParser.Parse | src/custom_parser/query/secret_parser.cpp:11-31 | the parser returns exactly the statement or error of the query reading |
| SecretParser.Dispatch | src/custom_parser/query/secret_parser.cpp:11-31 | each statement kind is produced exactly when the first token is its keyword and the rest parses as that kind |
| SecretParser.AcceptsCreate | src/custom_parser/query/secret_parser.cpp:33-71 | CREATE SECRET key = 'value' followed by a symbol is accepted, and only that, with the key upper-cased |
| SecretParser.AcceptsDelete | src/custom_parser/query/secret_parser.cpp:73-98 | DELETE SECRET key followed by a symbol is accepted, and only that |
| SecretParser.AcceptsUpdate | src/custom_parser/query/secret_parser.cpp:100-136 | UPDATE SECRET key = 'value' followed by a symbol is accepted, and only that |
| SecretParser.AcceptsGetAll | src/custom_parser/query/secret_parser.cpp:138-148 | GET SECRETS followed by a symbol is a get-all |
| SecretParser.AcceptsGet | src/custom_parser/query/secret_parser.cpp:138-167 | GET SECRET or SECRETS, a key and a symbol is a get of that key |
| SecretParser.ParsedSecretKey | src/custom_parser/query/secret_parser.cpp:41-49 | every parsed key is one of the five supported names, upper-cased |
| SecretParser.ParsedFieldsQuoteFree | src/custom_parser/query/secret_parser.cpp:51-60 | no field of a parsed statement contains a single quote |
| SecretParser.SecretToSQL | src/custom_parser/query/secret_parser.cpp:169-230 | CREATE fails with "... already exists." exactly when the key has rows, UPDATE fails with "does not exist" exactly when it has none, the other secret kinds render, and model statements fail |
| SecretParser.SecretToSQLInjective | src/custom_parser/query/secret_parser.cpp:173-224 | quote-free statements of one kind with the same SQL text are equal |
| SecretParser.ParsedRendering | src/custom_parser/query/secret_parser.cpp:169-230 | two parsed queries of one kind that render to the same text parsed to the same statement |
| QueryBuilder.TableNameInjective | src/query_manager/select_query.cpp:16-32 | the four internal tables have four different names |
| QueryBuilder.WhereSnoc | src/query_manager/select_query.cpp:54-62 | a further condition is appended after " AND ", with no trailing separator |
| QueryBuilder.DeleteHasNoSemicolon | src/query_manager/delete_query.cpp:13-25 | a delete built from semicolon-free parts has no semicolon |
| QueryBuilder.InsertSnoc | src/query_manager/insert_query.cpp:21-29 | each further value adds ",(v)" before the closing ";" |
| QueryBuilder.InsertWithoutValues | src/query_manager/insert_query.cpp:22-27 | with no values the text ends "VALUES;" |
| QueryBuilder.UpdateSnoc | src/query_manager/update_query.cpp:28-33 | each further column adds ", c = v" in order |
| QueryBuilder.CreateWithoutKeys | src/query_manager/create_query.cpp:42-51 | a table without keys ends ",);" |
| QueryBuilder.SelectWithoutColumns | src/query_manager/select_query.cpp:49-53 | with no columns the text is "SELECT  FROM t" |
| QueryBuilder.AppendJoined | src/query_manager/update_query.cpp:28-33 | the join loop appends the parts separated by the separator, none trailing |
| QueryBuilder.AppendWhere | src/query_manager/delete_query.cpp:15-23 | the where loop appends " WHERE " and the conditions joined by " AND ", or nothing |
| QueryBuilder.Query.constructor | src/include/flockmtl/query_manager/query.hpp:62-94 | a new builder has every clause flag off and every field empty |
| QueryBuilder.Query.Create | src/query_manager/create_query.cpp:5-9 | sets the create flag and kind, nothing else |
| QueryBuilder.Query.SetTable | src/query_manager/create_query.cpp:11-14 | overwrites the table name, nothing else |
| QueryBuilder.Query.SetSchema | src/query_manager/create_query.cpp:16-19 | overwrites the schema name, nothing else |
| QueryBuilder.Query.Column | src/query_manager/create_query.cpp:21-24 | appends a column, nothing else |
| QueryBuilder.Query.PrimaryKey | src/query_manager/create_query.cpp:26-29 | overwrites the primary key, nothing else |
| QueryBuilder.Query.ForeignKey | src/query_manager/create_query.cpp:31-34 | overwrites the foreign key, nothing else |
| QueryBuilder.Query.BuildCreate | src/query_manager/create_query.cpp:36-60 | CREATE TABLE with each column followed by ',', the optional keys and ");", or CREATE SCHEMA s; |
| QueryBuilder.Query.Update | src/query_manager/update_query.cpp:7-11 | sets the update flag and table, nothing else |
| QueryBuilder.Query.Set | src/query_manager/update_query.cpp:13-16 | overwrites the columns, nothing else |
| QueryBuilder.Query.Values | src/query_manager/update_query.cpp:18-21 | overwrites the values, nothing else |
| QueryBuilder.Query.BuildUpdate | src/query_manager/update_query.cpp:23-44 | fails with "Invalid number of columns and values" exactly on a count mismatch; otherwise the pairs in order and the where clause |
| QueryBuilder.Query.DeleteFrom | src/query_manager/delete_query.cpp:7-11 | sets the delete flag and table, nothing else |
| QueryBuilder.Query.BuildDelete | src/query_manager/delete_query.cpp:13-25 | "DELETE FROM t" and the where clause, no semicolon |
| QueryBuilder.Query.Insert | src/query_manager/insert_query.cpp:5-9 | sets the insert flag and table, nothing else |
| QueryBuilder.Query.Columns | src/query_manager/insert_query.cpp:11-14 | overwrites the columns, nothing else |
| QueryBuilder.Query.Value | src/query_manager/insert_query.cpp:16-19 | appends a value, in call order, nothing else |
| QueryBuilder.Query.BuildInsert | src/query_manager/insert_query.cpp:21-29 | INSERT INTO t (cols) VALUES (v1),(v2),...; |
| QueryBuilder.Query.Select | src/query_manager/select_query.cpp:5-9 | sets the select flag and columns, nothing else |
| QueryBuilder.Query.From | src/query_manager/select_query.cpp:11-14 | overwrites the table name, nothing else |
| QueryBuilder.Query.FromTable | src/query_manager/select_query.cpp:16-32 | sets the table name to the internal table's qualified name |
| QueryBuilder.Query.OrderBy | src/query_manager/select_query.cpp:34-37 | overwrites the order-by clause, nothing else |
| QueryBuilder.Query.Limit | src/query_manager/select_query.cpp:39-42 | overwrites the limit clause, nothing else |
| QueryBuilder.Query.BuildSelect | src/query_manager/select_query.cpp:44-70 | "Table name is required" exactly when the table is empty; otherwise SELECT, the where clause, then ORDER BY and LIMIT when non-empty |
| PromptTemplates.FindIn | src/templates/llm_scalar_prompt_templates.cpp:59 | a found position leaves room for the pattern |
| PromptTemplates.FindInFirst | src/templates/llm_scalar_prompt_templates.cpp:59 | find returns the first occurrence, and nothing exactly when there is none |
| PromptTemplates.ReplaceAllSplits | src/templates/llm_scalar_prompt_templates.cpp:59-64 | the text is its pieces joined by the pattern, and the result is the same pieces joined by the replacement, so all other text is unchanged |
| PromptTemplates.SegmentsFree | src/templates/llm_scalar_prompt_templates.cpp:61-64 | no piece contains the pattern, so every occurrence is replaced |
| PromptTemplates.SegmentsKeepRest | src/include/templates/llm_min_or_max_prompt_template.hpp:35-39 | when only part of the pattern is replaced, every later piece starts with the part left over |
| PromptTemplates.ReplaceEach | src/templates/llm_scalar_prompt_templates.cpp:59-64 | the find-and-replace loop, resuming after the inserted text, computes the replace-all |
| PromptTemplates.SectionOnlyIfListed | src/templates/llm_scalar_prompt_templates.cpp:3-52 | exactly the three scalar functions get a non-empty section |
| PromptTemplates.GetScalarPromptTemplate | src/templates/llm_scalar_prompt_templates.cpp:54-66 | the prompt is the template with every {{RESPONSE_FORMAT}} replaced by the section |
| PromptTemplates.Relevance | src/include/templates/llm_min_or_max_prompt_template.hpp:32 | "most" exactly when N = 1, "least" otherwise |
| PromptTemplates.GetMinOrMaxPromptTemplate | src/include/templates/llm_min_or_max_prompt_template.hpp:30-42 | the prompt is the template with ten characters of each {relevance} replaced by the word |
| PromptTemplates.RelevanceKeepsBrace | src/include/templates/llm_min_or_max_prompt_template.hpp:35-39 | each occurrence becomes the word followed by '}', and the text between occurrences is unchanged |
| Supported.ProviderLookup | src/include/flockmtl/core/model_manager/supported_providers.hpp:12-24 | a name gives a provider exactly when its lower-cased form is one of that provider's names; the count value is never given |
| Supported.UnknownProvider | src/include/flockmtl/core/model_manager/supported_providers.hpp:23 | a name no provider accepts gives unsupported |
| Supported.CaseInsensitive | src/include/flockmtl/core/model_manager/supported_providers.hpp:13 | names equal up to ASCII case classify alike, for providers, models and embedding models |
| Supported.UpperCaseProvider | src/include/flockmtl/core/model_manager/supported_providers.hpp:13-21 | for every provider and every name it accepts, the upper-case spelling of that name finds the provider |
| Supported.ModelLookup | src/include/flockmtl/core/model_manager/supported_models.hpp:12-23 | provider ollama gives the Ollama model whatever the model; any other provider is ignored and only gpt-4o and gpt-4o-mini are known; the count is never given |
| Supported.EmbeddingModelLookup | src/include/flockmtl/core/model_manager/supported_embedding_models.hpp:11-23 | the same order for text-embedding-3-small and -large |
| StringConcat.NonEmptyAppend | src/core/functions/aggregate/string_concat.cpp:24-34 | aggregating two halves of a group keeps every non-empty string, in order |
| StringConcat.NonEmptyRepeat | src/core/functions/aggregate/string_concat.cpp:43-49 | repeating an input absorbs it once per repetition, or never when it is empty |
| StringConcat.StringConcatState.constructor | src/core/functions/aggregate/string_concat.cpp:19-22 | a new state is uninitialised with an empty value |
| StringConcat.StringConcatState.Initialize | src/core/functions/aggregate/string_concat.cpp:19-22 | uninitialised, empty value, nothing absorbed |
| StringConcat.StringConcatState.Operation | src/core/functions/aggregate/string_concat.cpp:51-66 | an empty input is ignored; the first non-empty one is kept as is; later ones follow a space; the value stays the absorbed strings joined by spaces |
| StringConcat.StringConcatState.ConstantOperation | src/core/functions/aggregate/string_concat.cpp:43-49 | equals count repeated Operations on the input |
| StringConcat.StringConcatState.Combine | src/core/functions/aggregate/string_concat.cpp:24-34 | an uninitialised source changes nothing; into an uninitialised target it copies; otherwise target + " " + source; the absorbed strings are concatenated |
| StringConcat.StringConcatState.Finalize | src/core/functions/aggregate/string_concat.cpp:73-81 | the value when initialised, otherwise "", which is the absorbed strings joined by spaces |

## Left out

- Model calls, HTTP clients, the DuckDB catalog and connection, and the engine's parallel scheduling of aggregate states are not modelled: model answers are function parameters (`complete`, `getElement`, `reduce`, `rank`), and each state has a single owner.
- The DuckDB `*Operation` structs (the pointer-keyed static state maps, vector access, result writes) are glue and are not modelled; `Finalize` writing its string into the result vector is modelled only as the string returned.
- Row rendering (JSON dumps of rows, the markdown header and row of the prompt manager, inja) is a function parameter. For the second-generation reranker, the longest row found by `GetMaxLengthValues` is a parameter too (`longestRow`).
- Floating point (`fusion_relative.cpp`, embeddings, temperature) is not part of this model.
- ScalarBatching.BatchAndComplete: the source loops forever when a cap of 0 or a row that never fits stops progress; the model takes `fuel`, the number of passes allowed, and reports `OutOfFuel` when it runs out.
- ScalarBatching.BatchAndComplete: the source divides by the batch's size (`scalar.cpp:60`) and by the per-tuple output count (`scalar.cpp:62`). Both can be 0: a batch is empty after a cap of 0 or when the first row does not fit, and a short answer over many rows gives a per-tuple count of 0. Integer division by zero is undefined behaviour in the source; the model ends the run with `DivisionByZero`.
- ScalarBatching.BatchAndComplete: requires at least one row, because the source reads the header of `tuples[0]` without checking that there is a row.
- Reduce.ReduceLoop: takes `fuel`, the number of windows allowed, for the case where a row never fits and the loop makes no progress.
- Tournament.SelectorCall: takes `fuel`, the number of rounds allowed; an empty candidate list, which recurses without end in the source, gives `OutOfFuel`.
- WindowRerank.SlidingWindowRerank: takes `fuel` for passes that take no row, and requires at least one row because the source reads `tuples[num_tuples - 1]` before any check.
- CoreRerank.SlidingWindowRerank: requires 2 <= batch size <= number of rows; with a smaller window the source makes no progress and with a larger one it reads before the first row.
- WindowRerank.RankedHalf: a ranking entry beyond the window reads JSON null in the source, and the model reads a null cell. The model folds two other cases into one `InvalidRanking` error:
  - A ranking shorter than half the window makes the source read past the end of the `std::vector<int>` of indices, which is undefined behaviour.
  - A negative entry becomes a huge unsigned index for the non-const JSON `operator[]`, which tries to resize the window to that size. That throws, except for -1, where the size wraps to 0 and the read is out of range, which is undefined behaviour.
- Tiktoken.CountTokens: a `string` here is a sequence of characters, while the source runs `std::regex` over the bytes of a `std::string` holding UTF-8. The model agrees with the source on ASCII text; a non-ASCII character counts as one token here, but each of its UTF-8 bytes is a separate `[^\w\s]` match in the source (`é` is two tokens there). Every token budget inherits this difference.
- Lexer.Lex: the character classes (`Text.IsSpace`, `IsAlpha`, `IsDigit`) are ASCII. The source calls `std::isspace`, `std::isalpha` and `std::isdigit` on a plain `char` (`tokenizer.cpp:14`, 64, 81, 107, 115). A non-ASCII byte outside a string literal is then a negative argument, which is undefined behaviour; the model gives an `Unknown` token for a non-ASCII character.
- CoreRerank.BottomRows: a ranking that is too short, or has a negative entry or an entry past the last row, gives the one `InvalidRanking` error. In the source, `int idx = ranked_indices[i]` on a missing entry reads null and throws nlohmann's `type_error`, and `tuples[idx]` out of range or with a negative index is undefined behaviour on a `std::vector`.
- CoreRerank.TopRows: the same folding: a missing, negative or out-of-range entry is `InvalidRanking`, where the source throws (null read as an index) or reads a `std::vector` out of range, which is undefined behaviour.
- Tournament.Pick: a negative position is the `NegativeSelection` error. In the source `batch[ranked_indices.get<int>()]` with a negative index is not a defined error, and a `selected` that is not a number throws; the model takes the model's answer as an integer.
- Tournament.CollectWinners: stops at the first `NegativeSelection`, standing for the undefined behaviour or exception above; a position at or past the end of a batch reads JSON null, as the source's non-const `operator[]` does.
- Token counts, batch sizes and cursors are unbounded integers; 32-bit wrap-around of `int` and `size_t` is not modelled (the one unsigned comparison that matters, the guard of the backward admission loop, is modelled as written).
- Grammar.StoIOfNatToString: `stoi` is modelled only for text that starts with a digit, which is all the lexer produces as a number.
- Grammar.ExpectAll: the parsers' straight-line sequences of token checks are modelled as one table-driven loop over a list of expectations, proved equal to the reading function.
- Lexer.TokenTypeToString: the `default` branch is unreachable for the enum's values and is not modelled.
- PromptTemplates.GetScalarPromptTemplate: that the scalar template holds exactly one `{{RESPONSE_FORMAT}}`, and so equals prefix + section + suffix, is not proved from the literal text.
- PromptTemplates.RelevanceKeepsBrace: that no `{relevance}` remains in the output, and that the template holds exactly two, are not proved from the literal text; what is proved is the shape of every occurrence.
- PromptTemplates.ReplaceEach: the two find-and-replace loops (scalar and min/max) are one method, with the number of replaced characters as a parameter.
- PromptTemplates.CustomizedSection: a value outside the three enumerators is the `Unlisted` value; that the three sections differ from each other is not proved.
- QueryBuilder.Query: the setters return the builder for chaining in the source; the methods here return nothing. There is no `where` setter in the modelled files (`where` lives only in `query.cpp`), so the where list is only ever empty; `query.cpp` (its constructor, `build`, `where`, `reset`, `execute`) is not part of this model because it does not compile against the header.
- QueryBuilder.Query.constructor: the source leaves the clause flags uninitialised; the model starts them false.
- QueryBuilder.Query.BuildCreate: the `default` branch is unreachable for the two kinds and is not modelled.
- SecretParser.SecretToSQL: whether a key already has rows is a function parameter (`rowCount`), standing for the database lookup.
- The state of `llm_reduce.cpp` is not part of this model; the row-list state of the selector, max and rerank aggregates is.
- WindowRerank.WindowPass: part of the first-generation reranker's loop body is a helper method, so the loop in `SlidingWindowRerank` calls it once per pass.
