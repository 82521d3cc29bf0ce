# EasyQA pipeline model

EasyQA answers natural-language questions about tabular datasets. For each question it
asks a language model for pandas code, cleans the answer, points the code's file reads
at the dataset folder, runs it, and retries with the history of failures when the run
fails. This project models that pipeline in Dafny and proves what it promises, together
with the helpers next to it:

- the retry loop `process_question_async` (module `Orchestrator`);
- the dataset listing and the schema summary given to the model (`Schema`);
- the path rewriter `modify_dataset_paths` / `_find_dataset_file` and the sanitiser
  `clean_pandas_code` (`CodeProcessing`); the rewriter's behaviour on code made of
  read calls is proved in `RewriteProperties`;
- prompt assembly and request shaping for the code generators `get_pandas_code`
  (`Agents`) and `get_mysql_pandas_code` (`MysqlAgents`);
- the MySQL answer sanitiser `clean_mysql_pandas_code` (`MysqlCleaning`, with worked
  inputs in `MysqlCleaningExamples`);
- the column-name normaliser `normalize_spanish_letters` / `rename_columns_for_sql`
  (`DataPreprocessing`);
- the SQL generator `generate_sql_query`: its schema context, prompt, request and
  clean-up of the answer (`SqlAgents`).

`Text` holds the Python string operations the code uses (`strip`, `split`, `join`,
`replace`, `in`, `startswith`, `lower`, `str(n)`, `sorted(set(...))`), each with its
defining properties, and `Wrappers` holds `Option` and the `Outcome` of a call that may
raise.

The language-model call, code execution and file reading are parameters of the model.
The generator and the executor are functions from the attempt number (and the request)
to an `Outcome`, which is a returned string or the message of a raised exception. The
file system is the set of paths that exist, and a folder listing is an optional
sequence of names. A column read by pandas is its name, its dtype label and its values
as optional strings.

Each imperative function of the source is a Dafny `method` with the source's loop and
its invariants, and it is proved equal to a specification function. The properties are
proved about those functions.

Some behaviours of the code are worth stating up front:

- Path rewriting is not idempotent in general. It is idempotent when every
  `read_parquet` dataset is found and its name has a character other than '.'
  (`RewriteProperties.RewriteIdempotent`). In the not-found fallback a second rewrite
  puts the folder in front once more (`RewriteProperties.NotFoundRewritesAgain`).
- `clean_mysql_pandas_code` is not idempotent: "```\nx\n```" cleans to "x", and "x"
  cleans to "" because a lone name is dropped as prose
  (`MysqlCleaningExamples.CleanMysqlNotIdempotent`). Comments and blank lines are
  removed on every path, after whichever selection was made.
- The first MySQL prompt refers to "the instructions above", but it does not contain the
  instructions. Only the repair prompts carry them
  (`MysqlAgents.FirstPromptOmitsInstructions`).
- `rename_columns_for_sql` promises unique names but does not always give them (see
  Findings).

## Model

| member | source | states |
|---|---|---|
| CodeProcessing.FindDatasetFile | utilities/code_processing.py:14-20 | The search loop returns the first of name+`.parquet`, `.csv`, `.json`, `.xlsx` (joined to the folder) that exists, with its reader, and returns `None` when none exists. |
| CodeProcessing.ProbeIsFirstHit | utilities/code_processing.py:6-20 | The probe's answer is the first existing candidate in the fixed extension order, or nothing when no candidate exists. |
| CodeProcessing.ProbeFromFindsFirst | utilities/code_processing.py:16-19 | When the candidate at position i is the first existing one, the probe returns that path with the format at position i. |
| CodeProcessing.CandidateInFolder | utilities/code_processing.py:17 | `os.path.join` of a folder ending in '/' with name+ext is the plain concatenation. |
| CodeProcessing.StripTrailingSeparators | utilities/code_processing.py:25 | `rstrip("/\\")` gives the longest prefix that does not end in '/' or '\', and only separators were removed. |
| CodeProcessing.NormalizeFolder | utilities/code_processing.py:25 | The normalised folder ends in exactly one '/', and it is the argument without its trailing run of '/' and '\'. |
| CodeProcessing.NormalizeFolderIdempotent | utilities/code_processing.py:25 | Normalising a normalised folder changes nothing. |
| CodeProcessing.DatasetNameOfPath | utilities/code_processing.py:30-32 | For dir/name.ext, the probed dataset name is name: the directory and the extension are dropped. |
| CodeProcessing.BaseNameAfterSeparator | utilities/code_processing.py:32 | `basename` of dir/base is base when base has no '/'. |
| CodeProcessing.StemOfName | utilities/code_processing.py:32 | `splitext` of name.ext splits at the dot before ext, so its root is name. |
| CodeProcessing.LazyGroupFrom | utilities/code_processing.py:45-51 | The lazy group `(.*?sfx)['"]\)` closes at the shortest length that ends with the suffix and is followed by a quote and ')'; the group has no line break; nothing is returned when no such length exists before a line break. |
| CodeProcessing.MatchAt | utilities/code_processing.py:45-51 | A match starts with the reader's `pd.read_X(` and a quote, and fits in the text. |
| CodeProcessing.ModifyDatasetPaths | utilities/code_processing.py:23-57 | The method (the parquet pass, then the loop over the csv, json and Excel passes) computes `RewritePaths`, the function the rewriting properties are proved about. |
| CodeProcessing.CleanPandasCode | utilities/code_processing.py:60-77 | The cleaned code never contains a fence and has no whitespace at either end; which text it is is stated by the four lemmas below. |
| CodeProcessing.CleanPandasCodeTaggedBlock | utilities/code_processing.py:70-73 | With the first "```python" of the stripped response at p and the first fence after it at c, the result is the stripped text between the two. |
| CodeProcessing.CleanPandasCodeUnclosedBlock | utilities/code_processing.py:70-73 | When no fence follows the first "```python", the result is the stripped rest of the response after it. |
| CodeProcessing.CleanPandasCodeBeforeFence | utilities/code_processing.py:70-76 | Without "```python", and with the first fence at c, the result is the stripped text before that fence. |
| CodeProcessing.CleanPandasCodeNoFence | utilities/code_processing.py:70-76 | Without any fence the result is the stripped response. |
| Text.Before | utilities/code_processing.py:73 | `split(sep, 1)[0]` is the prefix up to the first occurrence of the separator: no occurrence starts inside it, the separator occurs right after it when there is one, and it is all of the text exactly when there is none. |
| Text.After | utilities/code_processing.py:73 | `split(sep, 1)[1]` is what follows that first occurrence: the text is the part before it, the separator and this. |
| CodeProcessing.CleanPandasCodeOfClean | utilities/code_processing.py:70-76 | Text without a fence and without surrounding whitespace comes back unchanged. |
| CodeProcessing.CleanPandasCodeIdempotent | utilities/code_processing.py:60-77 | Cleaning twice is cleaning once. |
| CodeProcessing.LeadingUntaggedFenceGivesEmpty | utilities/code_processing.py:74-76 | A response that opens with an untagged fence and holds no python-tagged fence cleans to "". |
| RewriteProperties.MatchOwnCall | utilities/code_processing.py:45-51 | The pass for a call's own reader matches the whole call, with the call's path as the group. |
| RewriteProperties.NoMatchEngineCall | utilities/code_processing.py:51 | A `read_excel` call that already carries `engine='openpyxl'` is not matched again by the Excel pass. |
| RewriteProperties.PassPiecesText | utilities/code_processing.py:45-55 | One `re.sub` pass over well-formed code rewrites each call of its format in place and copies every other character. |
| RewriteProperties.PassCodeText | utilities/code_processing.py:45-55 | The same for code with text before its first call: that text is kept. |
| RewriteProperties.RewriteCode | utilities/code_processing.py:45-57 | Rewriting code keeps the text before the first call and after each call, and replaces each call by its rewritten form, in order. |
| RewriteProperties.RewriteCodeText | utilities/code_processing.py:23-57 | On well-formed code, `modify_dataset_paths` on the text equals rewriting each call in place, and the result is well-formed again. |
| RewriteProperties.SingleCallRewrite | utilities/code_processing.py:23-57 | A single call is rewritten into a single call. |
| RewriteProperties.ParquetFoundCall | utilities/code_processing.py:34-40 | A parquet call whose dataset is found becomes a call of the found format's reader on folder+name+ext, with the engine argument exactly for Excel. |
| RewriteProperties.ParquetCallFound | utilities/code_processing.py:27-45 | The same on the text: `pd.read_parquet('p')` becomes the reader and path of the first existing file for p's base name, so it becomes `read_csv` when only name.csv exists. |
| RewriteProperties.ParquetNotFoundCall | utilities/code_processing.py:41-42 | A parquet call whose dataset is not found keeps `read_parquet` on the folder followed by the original path. |
| RewriteProperties.ParquetCallNotFound | utilities/code_processing.py:41-45 | The same on the text: the result is exactly `pd.read_parquet('<folder><original path>')`. |
| RewriteProperties.ExplicitRewriteCall | utilities/code_processing.py:48-51 | An explicit csv, json or Excel call keeps its path when it starts with the folder, and gets the folder in front otherwise; Excel calls get the engine argument. |
| RewriteProperties.ExplicitCall | utilities/code_processing.py:48-55 | The same on the text of one call. |
| RewriteProperties.ExplicitPassesKeep | utilities/code_processing.py:48-55 | A call already in rewritten form is kept by all three explicit passes. |
| RewriteProperties.FolderCallFixed | utilities/code_processing.py:45-55 | A rewritten csv, json or Excel call whose path starts with the folder is kept by a second rewrite. |
| RewriteProperties.BaseNameInFolder | utilities/code_processing.py:32 | Putting the folder in front of a path does not change its base name. |
| RewriteProperties.FoundPathNamesSameDataset | utilities/code_processing.py:32-34 | The path written for a found dataset names the same dataset again. |
| RewriteProperties.FoundCallKept | utilities/code_processing.py:34-55 | The call written for a found dataset is kept by a second rewrite. |
| RewriteProperties.ParquetCallIdempotent | utilities/code_processing.py:32-55 | Rewriting a found parquet call twice is rewriting it once. |
| RewriteProperties.RewriteCallIdempotent | utilities/code_processing.py:23-57 | On one call: rewriting twice is rewriting once, provided a parquet call's dataset is found. |
| RewriteProperties.RewriteIdempotent | utilities/code_processing.py:23-57 | Rewriting twice equals rewriting once on well-formed code whose parquet datasets all exist and have a name with a character other than '.'. |
| RewriteProperties.NotFoundRewritesAgain | utilities/code_processing.py:41-45 | When no file is found, the first rewrite gives folder+path and the second gives folder+folder+path, so idempotence fails there. |
| Schema.SupportedExtensionsAreFormats | app.py:37 | The listing's extensions are those of the rewriter's formats, in the same order. |
| Schema.SplitExt | app.py:41-43 | `splitext` splits a name into root and extension, and the extension is empty or starts with '.'. |
| Schema.ListedDataset | app.py:41-43 | A file is listed exactly when the lower-cased extension that `os.path.splitext` gives is supported, and then under the root `os.path.splitext` gives, which is a prefix of the file name followed by that extension. |
| Schema.ListedDatasetOfName | app.py:41-43 | The file name+ext of a supported format is listed under name. |
| Schema.ListedDatasets | app.py:39-44 | A name is among the listed datasets exactly when some file of the listing is listed under it. |
| Schema.GetAvailableDatasets | app.py:33-45 | The result is strictly sorted (so it has no duplicates) and holds exactly the roots of listed files with a supported extension; it is empty when the folder is missing. |
| Schema.Present | app.py:72 | `dropna()` keeps the present values, in order, and only them. |
| Schema.Distinct | app.py:72 | `unique()` has no duplicates, holds the same values, and keeps their order of first occurrence. |
| Schema.UniqueCount | app.py:72-86 | The unique count is the number of different present values, not the number shown. |
| Schema.Limited | app.py:73 | At most five values are taken, from the start; fewer only when there are fewer. |
| Schema.Truncate | app.py:80-81 | A value is kept when it has at most 100 characters; otherwise it becomes its first 97 characters and "...". |
| Schema.SelectExamples | app.py:74-83 | The loop over the limited values computes `Examples`. |
| Schema.ExamplesFromTruncated | app.py:77-83 | Each example is the truncated value at its position. |
| Schema.ExamplesFromWithinBudget | app.py:77-83 | Each example was added while the running total was at most 50. |
| Schema.ExamplesFromStopsPastBudget | app.py:77-83 | The loop stops early only when the running total is past 50. |
| Schema.ExamplesFromFacts | app.py:77-83 | The three facts above together. |
| Schema.ExamplesBounds | app.py:72-83 | At most five examples, each the truncated first distinct value at its position and at most 100 characters long; together at most 150 characters; fewer than the limited values only past the budget. |
| Schema.ColumnLines | app.py:70-89 | One summary line per column, in column order. |
| Schema.DescribeColumn | app.py:71-88 | The loop body builds the column's summary line. |
| Schema.SummarizeColumns | app.py:67-91 | The column loop builds the intro followed by the joined column lines. |
| Schema.ExamplesNoNewline | app.py:77-83 | Examples of single-line values are single-line. |
| Schema.LineNoNewline | app.py:87-88 | A column line of single-line parts holds no line break. |
| Schema.ColumnLineNoNewline | app.py:70-88 | The line of a column with single-line name, dtype and values holds no line break. |
| Schema.SummaryLines | app.py:68-91 | The summary is the intro naming the dataset, then exactly one line per column, in column order. |
| Schema.SummaryOfNoColumns | app.py:68-91 | A dataset without columns summarises to its intro alone. |
| Schema.SchemaFileFrom | app.py:55-59 | The file found is the first `datasets/<name><ext>` that exists, in extension order, and nothing is found only when none exists. |
| Schema.FindSchemaFile | app.py:55-59 | The probing loop computes `SchemaFile`. |
| Schema.GenerateSchema | app.py:47-93 | The method (probe, read, summarise, or the error text) computes `Schema`. |
| Schema.ErrorTextPrefix | app.py:92-93 | The text for an exception starts with "Error generating schema for". |
| Schema.SummaryNotError | app.py:68-91 | A summary never starts with that prefix. |
| Schema.SchemaErrorIff | app.py:47-93 | The summariser never raises: its text starts with "Error generating schema for" exactly when no file is found or reading the file raises. |
| Schema.SchemaNotFound | app.py:55-62 | With no file under any of the four extensions, the text is exactly the error for "No dataset file found for <name>". |
| Orchestrator.ErrorCodeOf | app.py:106-111 | The error code is set exactly when the history is not empty. |
| Orchestrator.ErrorCodeCarriesHistory | app.py:106-111 | The error code carries the whole history, oldest first: a single tuple for one entry and the list for two or more. |
| Orchestrator.StepGrowsHistory | app.py:130-155 | An attempt that does not answer is not the last one, and it hands on the history extended by exactly one entry. |
| Orchestrator.StepDone | app.py:130-163 | An attempt that answers reports the dataset; on success there is no error message and the output does not start with "Error :"; on failure the answer is empty and the message starts "Failed after <max_retries+1> attempts. Last error: ". |
| Orchestrator.SentinelStep | app.py:130-141 | Output starting with "Error :" is a failure: the cleaned code and the text after the sentinel are recorded, and the last attempt answers with the "Failed after" message for that text. |
| Orchestrator.SuccessStep | app.py:143-149 | Any other output answers with success, that output, and the rewritten code. |
| Orchestrator.GeneratorRaisedKeepsEarlierCode | app.py:151-163 | When the generator raises, the code variables keep their values from earlier attempts: a retry records the earlier generated text or "", and the last attempt reports the earlier rewritten code, else the generated one, else "". |
| Orchestrator.ExecutionRaisedRecordsRawCode | app.py:151-155 | When the run raises before the last attempt, the raw generated text (not the cleaned code) is recorded with the message. |
| Orchestrator.AttemptsShape | app.py:103-163 | From attempt k on, at most max_retries+1-k attempts are made; the i-th starts with a history of k+i entries that extends the one before; there is a response exactly when k <= max_retries. |
| Orchestrator.LoopAttempts | app.py:101-163 | The generator is asked at most max_retries+1 times; at attempt k the history holds exactly k entries and the error code carries them all; a response exists exactly when max_retries is not negative. |
| Orchestrator.ResponseKinds | app.py:103-163 | Every response of the loop reports the dataset and is either a success without an error message or a failure with an empty answer and the "Failed after" message. |
| Orchestrator.ProcessQuestionAsync | app.py:95-172 | The method (the loop with its early returns and never-reset code variables) computes the response of `ProcessQuestion`. |
| Orchestrator.ProcessQuestionResponses | app.py:95-172 | An exception before the loop gives "Unexpected error: <msg>" with an empty answer and empty code; otherwise at most max_retries+1 requests are made, and every failure carries the "Failed after" message. |
| Orchestrator.FailedMessageShape | app.py:139 | The failure message opens with the attempt count, and the error text follows it unchanged. |
| Orchestrator.FailureKindsDiffer | app.py:139-171 | A "Failed after" message is never an "Unexpected error" message. |
| Agents.CurrentModel | utilities/agents.py:141 | `ERROR_LLM` is used exactly when the error code is truthy (when the two models differ). |
| Agents.ShapeArgs | utilities/agents.py:145-159 | A model whose name starts with "o" gets `max_completion_tokens` and a reasoning effort, any other gets `max_tokens` and the temperature; model, prompt and token limit are passed through. |
| Agents.RequestShape | utilities/agents.py:141-159 | The request of either code generator (the same code again at lines 319-336) goes to the error model exactly when there is an error to fix, carries the prompt and a limit of 5000 tokens, and has `max_completion_tokens` with `reasoning_effort="high"` exactly when its model starts with "o", and `max_tokens` with the temperature otherwise. |
| Agents.BuildPandasInstructions | utilities/agents.py:52-82 | The instruction-building steps compute `PandasInstructions`. |
| Agents.UniqueHintIff | utilities/agents.py:56-59 | The hint against `unique()`/`drop_duplicates()` follows the fixed head exactly when the lower-cased question holds none of "unique", "different", "distinct". |
| Agents.BuildPandasPrompt | utilities/agents.py:84-137 | The prompt-assembly steps compute `PandasPrompt`. |
| Agents.AppendAttempts | utilities/agents.py:130-132 | The loop appends the earlier failures, numbered from 1. |
| Agents.AttemptsSectionAppend | utilities/agents.py:131-132 | The numbered list of a concatenation is the list of the first part followed by the second part numbered on from where the first stopped. |
| Agents.AttemptsNumbered | utilities/agents.py:131-132 | The k-th earlier failure appears as "Attempt k+1", between the ones before and after it. |
| Agents.SingleRepairEmbeds | utilities/agents.py:94-111 | A single failure's prompt embeds its code in a python block, followed by its error. |
| Agents.SeveralTargetsLatest | utilities/agents.py:114-137 | With a list of failures, the prompt opens with the repair framing around the latest, and every earlier failure k appears as "Attempt k+1", oldest first. |
| Agents.EarlierAttemptsListed | utilities/agents.py:130-132 | Every earlier failure appears, numbered, in a prompt that holds the list. |
| MysqlAgents.EntryLines | utilities/agents.py:271-272 | One line per snapshot, in mapping order. |
| MysqlAgents.BuildFileContext | utilities/agents.py:270-272 | The loop computes `FileContext`. |
| MysqlAgents.FileContextLines | utilities/agents.py:270-272 | Without line breaks in the names, the file context splits into the header, then exactly one "- table: path" line per snapshot in order, then nothing. |
| MysqlAgents.BuildMysqlInstructions | utilities/agents.py:186-267 | The instruction-building steps compute `MysqlInstructions`. |
| MysqlAgents.MysqlInstructionsHint | utilities/agents.py:264-267 | The fixed instructions are extended exactly for "o" main models, and then by the "simplest possible" hint. |
| MysqlAgents.BuildMysqlPrompt | utilities/agents.py:274-317 | The prompt-assembly steps compute `MysqlPrompt`. |
| MysqlAgents.PromptListsFiles | utilities/agents.py:274-317 | Every prompt, first or repair, contains the file list. |
| MysqlAgents.FirstPromptOmitsInstructions | utilities/agents.py:274-281 | The first prompt is the same whatever the instructions. |
| MysqlAgents.MysqlSingleRepairEmbeds | utilities/agents.py:284-298 | A single failure's prompt embeds its code in a python block, followed by its error. |
| MysqlAgents.MysqlSeveralTargetsLatest | utilities/agents.py:300-317 | With a list of failures, the prompt opens with the repair framing around the latest, and every earlier failure k appears as "Attempt k+1". |
| MysqlAgents.GetMysqlPandasCode | utilities/agents.py:165-344 | The returned code has no '#', and it is empty or made of non-blank stripped lines. |
| MysqlAgents.RequestMysqlPandasCode | utilities/agents.py:165-344 | The steps (instructions, file list, prompt, arguments, call, cleaning) compute `GetMysqlPandasCode`. |
| MysqlCleaning.FencedBlock | utilities/agents.py:355-363 | A block found after an opening has no fence in it and is stripped. |
| MysqlCleaning.FirstBlockUnique | utilities/agents.py:355-363 | The first opening and the first fence after it are unique, so "the first block" names one block. |
| MysqlCleaning.FencedBlockIsFirst | utilities/agents.py:355-363 | The block found is the stripped text between the first occurrence of the opening and the first fence after it, which is the first match `re.findall` returns; there is no block exactly when no opening is followed by a fence. |
| MysqlCleaning.DigitRun | utilities/agents.py:378 | The leading run of ASCII digits: all digits, and the next character is not one. |
| MysqlCleaning.KeptLines | utilities/agents.py:366-385 | At most one output line per input line, each passing the filter. |
| MysqlCleaning.KeptLinesMembers | utilities/agents.py:366-385 | A line is kept exactly when it is the mapped form of an input line and passes the filter. |
| MysqlCleaning.CodeLines | utilities/agents.py:366-385 | Every kept line is stripped and passes the prose filter. |
| MysqlCleaning.CodeLinesKeepAll | utilities/agents.py:367-384 | A stripped input line is kept exactly when it passes the filter: not empty, no prose or list prefix, not a numbered item, and holds `import`, `pd.`, `print(` or `=`. |
| MysqlCleaning.PythonLookingLines | utilities/agents.py:365-385 | The loop computes the joined python-looking lines. |
| MysqlCleaning.CutComment | utilities/agents.py:388 | A line is cut at its first '#': the result has no '#', is a prefix of the line, and equals the line when it has no '#'. |
| MysqlCleaning.RemoveComments | utilities/agents.py:388 | After comment removal no '#' is left. |
| MysqlCleaning.NonBlank | utilities/agents.py:389 | The kept lines are non-blank and stripped. |
| MysqlCleaning.NonBlankKeepsChar | utilities/agents.py:389 | Dropping and stripping lines brings in no character. |
| MysqlCleaning.CleanupShape | utilities/agents.py:388-389 | The final cleanup leaves no '#', and its result is empty or made of non-blank stripped lines. |
| MysqlCleaning.CleanMysql | utilities/agents.py:346-391 | Empty input gives ""; the output has no '#' and is empty or made of non-blank stripped lines. |
| MysqlCleaning.CleanMysqlChoice | utilities/agents.py:355-391 | The order of choice: a python-tagged block wins whenever there is one, even if an untagged block comes before it; without one the first untagged block is used; without either the python-looking lines are kept. The chosen text then goes through the comment and blank-line cleanup. |
| MysqlCleaning.CleanMysqlPandasCode | utilities/agents.py:346-391 | The branches (tagged block, untagged block, line filter, cleanup) compute `CleanMysql`. |
| MysqlCleaningExamples.BareName | utilities/agents.py:364-389 | A lone name outside any block is dropped as prose. |
| MysqlCleaningExamples.FencedBareName | utilities/agents.py:360-389 | A lone name inside an untagged block is kept. |
| MysqlCleaningExamples.CleanMysqlNotIdempotent | utilities/agents.py:346-391 | Cleaning a cleaned answer can change it. |
| DataPreprocessing.ReplacementsAreLookup | utilities/data_preprocessing.py:13-16 | The 14 replaced letters are distinct, no replacement produces a replaced letter, and all are non-ASCII. |
| DataPreprocessing.AppliedIsLookup | utilities/data_preprocessing.py:17-18 | Under those conditions, running the replacements one after another on a character is a table lookup. |
| DataPreprocessing.ReplaceOneChar | utilities/data_preprocessing.py:18 | `str.replace` of one character by one character replaces it at every position and keeps the length. |
| DataPreprocessing.Normalized | utilities/data_preprocessing.py:9-19 | Normalisation keeps the length. |
| DataPreprocessing.NormalizeTable | utilities/data_preprocessing.py:9-19 | Each of the 14 accented letters becomes its plain counterpart, and every other character is unchanged. |
| DataPreprocessing.NormalizedPlain | utilities/data_preprocessing.py:9-19 | No accented letter survives. |
| DataPreprocessing.NormalizeSpanishLetters | utilities/data_preprocessing.py:9-19 | The loop of `replace` calls computes `Normalized`. |
| DataPreprocessing.NonWordRun | utilities/data_preprocessing.py:43 | The leading run of non-word characters, followed by a word character or the end. |
| DataPreprocessing.DropTrailingRun | utilities/data_preprocessing.py:45 | The trailing run of non-word characters is removed: the result is a prefix ending in a word character (or empty) and only non-word characters were cut. |
| DataPreprocessing.RunBecomesUnderscore | utilities/data_preprocessing.py:43 | A run of non-word characters followed by a word character becomes one '_'. |
| DataPreprocessing.TrailingRunDropped | utilities/data_preprocessing.py:43-45 | A trailing run of non-word characters is dropped. |
| DataPreprocessing.UnderscoreRunsShape | utilities/data_preprocessing.py:43 | After the first substitution only word characters remain, apart from a final run. |
| DataPreprocessing.CollapsedIsWords | utilities/data_preprocessing.py:43-45 | After both substitutions only word characters remain. |
| DataPreprocessing.CollapsedOfWords | utilities/data_preprocessing.py:43-45 | A name of word characters passes both substitutions unchanged. |
| DataPreprocessing.CollapsedIdempotent | utilities/data_preprocessing.py:43-45 | Running both substitutions twice is running them once. |
| DataPreprocessing.BaseName | utilities/data_preprocessing.py:41-50 | Every normalised name starts with an ASCII letter and has no upper-case ASCII letter. |
| DataPreprocessing.BaseNameIsWords | utilities/data_preprocessing.py:41-50 | A normalised name is made of word characters. |
| DataPreprocessing.SqlBaseName | utilities/data_preprocessing.py:41-50 | The rebinding steps of the loop body compute `BaseName`. |
| DataPreprocessing.BaseNameOfCleanName | utilities/data_preprocessing.py:41-50 | A name of lower-case ASCII letters, digits and '_' that starts with a letter is kept. |
| DataPreprocessing.Suffixed | utilities/data_preprocessing.py:52-57 | One name per input name. |
| DataPreprocessing.SuffixedShape | utilities/data_preprocessing.py:52-56 | A first occurrence keeps its name; a repeated name gets "_k", where k counts its occurrences so far. |
| DataPreprocessing.SuffixedStep | utilities/data_preprocessing.py:52-57 | Each step appends the next name, suffixed by its count among the names so far. |
| DataPreprocessing.SuffixedKeepsShape | utilities/data_preprocessing.py:47-56 | Suffixing keeps names starting with a letter and free of upper-case letters. |
| DataPreprocessing.BaseNames | utilities/data_preprocessing.py:39-50 | One normalised name per column, each starting with a letter and without upper case. |
| DataPreprocessing.RenamedColumns | utilities/data_preprocessing.py:36-61 | Exactly one name per input column. |
| DataPreprocessing.RenamedColumnsShape | utilities/data_preprocessing.py:36-61 | One name per column, in input order, each starting with an ASCII letter and lower-case. |
| DataPreprocessing.CountMapCounts | utilities/data_preprocessing.py:52-56 | The `column_count` dictionary holds exactly the names seen, each with its number of occurrences. |
| DataPreprocessing.CountName | utilities/data_preprocessing.py:52-56 | One update of the dictionary counts the name once more and gives it the suffix for its occurrence. |
| DataPreprocessing.RenameColumnsForSql | utilities/data_preprocessing.py:36-61 | The loop with the dictionary and the list computes `RenamedColumns`. |
| DataPreprocessing.SuffixedRepeats | utilities/data_preprocessing.py:52-56 | The suffixing of a, a, a_2 gives a, a_2, a_2. |
| DataPreprocessing.DuplicateAfterSuffix | utilities/data_preprocessing.py:27-56 | Columns a, a, a_2 are renamed a, a_2, a_2: a name is given twice. |
| DataPreprocessing.FreeIndex | utilities/data_preprocessing.py:27 | The first suffix index from k on whose name is not taken. |
| DataPreprocessing.UniqueName | utilities/data_preprocessing.py:27 | The name is kept when free, and otherwise gets the first free suffix from "_2" on; it is never a name already taken. |
| DataPreprocessing.UniqueNames | utilities/data_preprocessing.py:27 | The corrected counter gives pairwise different names, each the normalised name or a suffixed form of it. |
| DataPreprocessing.UniqueColumns | utilities/data_preprocessing.py:27 | The corrected renaming gives one name per column, pairwise different. |
| DataPreprocessing.UniqueColumnsExample | utilities/data_preprocessing.py:27-56 | On a, a, a_2 the corrected renaming gives a, a_2, a_2_2. |
| SqlAgents.ColumnTexts | utilities/sql_agents.py:48-55 | One column text per column, in order. |
| SqlAgents.BuildSchemaContext | utilities/sql_agents.py:45-55 | The `+=` loop computes `SchemaContext`. |
| SqlAgents.SchemaContextLines | utilities/sql_agents.py:45-55 | The context is the Database, Table and Row Count lines ("Unknown" when the count is missing), a blank line, "Columns:", then exactly one line per column in order. |
| SqlAgents.ColumnKeyMark | utilities/sql_agents.py:49-51 | After "- name (type) " comes "PRIMARY KEY " exactly for a primary key. |
| SqlAgents.ColumnNullability | utilities/sql_agents.py:52 | Then "NULL" exactly for a nullable column and "NOT NULL" for any other. |
| SqlAgents.ColumnDefault | utilities/sql_agents.py:53-54 | The line ends with " DEFAULT d" when a default is given, and with the nullability otherwise. |
| SqlAgents.SqlPromptEmbeds | utilities/sql_agents.py:78-86 | The prompt opens with the schema intro and the context, contains the question and the instructions, and ends asking for the query. |
| SqlAgents.SqlRequest | utilities/sql_agents.py:89-102 | The request goes to the main model with a limit of 2000; "o" models get `max_completion_tokens` and `reasoning_effort="medium"`, the others `max_tokens` and the temperature. |
| SqlAgents.RemovedFencesLeaveNone | utilities/sql_agents.py:113-115 | Removing every fence in one left-to-right pass leaves none. |
| SqlAgents.UnfencedShape | utilities/sql_agents.py:109-115 | The answer is stripped; when it opens with a fence no fence is left, and otherwise it is just stripped. |
| SqlAgents.Terminated | utilities/sql_agents.py:117-119 | The query ends with ';' and starts with the query it was given; it is one character longer exactly when the query did not already end with ';', and otherwise unchanged in length. |
| SqlAgents.CleanSql | utilities/sql_agents.py:108-119 | A cleaned query ends with ';'. |
| SqlAgents.CleanSqlQuery | utilities/sql_agents.py:108-119 | The reassignment steps compute `CleanSql`. |
| SqlAgents.CleanSqlShape | utilities/sql_agents.py:108-119 | A cleaned query is stripped and does not open with a fence. |
| SqlAgents.CleanSqlIdempotent | utilities/sql_agents.py:108-119 | Cleaning a cleaned query changes nothing. |
| SqlAgents.SqlQuery | utilities/sql_agents.py:104-125 | The query always ends with ';', and any exception gives exactly the fallback query: SELECT every column of the table, its name in backquotes, LIMIT 10. |
| SqlAgents.GenerateSqlQuery | utilities/sql_agents.py:44-125 | The steps of `generate_sql_query` compute `SqlQuery`. |

## Left out

- The language-model client (`chat.completions.create`) and `get_text_after_last_think_tag` (utilities/utils.py, which is not part of this model): the completion text is a parameter.
- `capture_exec_output` (utilities/code_execution.py, which is not part of this model): it runs arbitrary code, so it is a parameter that returns a string or raises.
- `os.path.exists`, `os.listdir` and `read_dataset`: they are parameters (the set of existing paths, the optional listing, and a reader that returns columns or raises). A load failure also stands for an exception raised by the per-column pandas calls of app.py:70-89 (`dtype`, `dropna`, `astype`, `unique`); all of them reach the same `except` and are folded into `LoadFailed`.
- The providers, `load_dotenv` and the environment: `MAIN_LLM` and `ERROR_LLM` are parameters.
- The temperature is a `real`. It is passed through and never computed with, so floating point plays no part.
- pandas: a dtype is the label it prints as, and a column is a sequence of optional strings after `astype(str)`.
- Unicode: `.lower()` is modelled on ASCII letters only, and `\d` as ASCII digits. `\w` in `rename_columns_for_sql` is an abstract predicate `isWord` that is only required to hold for ASCII letters, digits and '_'. `\s` and `strip()` use the exact `str.isspace` character set.
- The general regular-expression engine: each pattern the core uses is modelled by hand as a scanner.
- The outer `except` of `process_question_async` catches an exception before the loop. Since `generate_schema_for_dataset` never raises, the model takes the schema step as an `Outcome` so that this path can be reached.
- `sql_agents.py`: every column is taken to carry a `name` and a `type`. `col['name']` and `col['type']` are read outside the `try` (utilities/sql_agents.py:48-49), so a column missing either key raises `KeyError` out of `generate_sql_query` instead of giving the fallback query; that error path is not modelled.
- `sql_agents.py`: a `default` that is present but falsy (0, "", False) is modelled as absent, which is what the truthiness test does with it. Its text is the string the f-string prints.
- A `row_count` that is present is its printed text, whatever its value (a present `None` prints as "None"); only a missing key reads "Unknown".
- Schema.SummaryLines, SqlAgents.SchemaContextLines, MysqlAgents.FileContextLines: the split into lines is proved only when names and values hold no line break, since a line break inside a name splits the text differently.
- RewriteProperties.RewriteIdempotent: proved for code made of well-formed read calls (plain paths, at most one call per line, no stray quotes) whose `read_parquet` datasets are all found and have a name with a character other than '.'. The last condition is the source's own: `pd.read_parquet('')` or a base name made only of dots gives an empty dataset name, a file such as `datasets/.parquet` is found on the first rewrite and not on the second, and the source is not idempotent there. It says nothing about text whose `.*?` groups would span several calls. Here a "plain" path has no quote, no line break and no '('. The source rewrites a path such as `data(1).parquet` like any other, but the proofs use the absence of '(' to show that the only '(' in a call is the one that ends its prefix.
- RewriteProperties.ParquetCallFound, RewriteProperties.ParquetCallNotFound, RewriteProperties.SingleCallRewrite: stated for plain paths and a plain folder only, for the reason given on the line above.
- RewriteProperties.MatchOwnCall, RewriteProperties.NoMatchEngineCall, RewriteProperties.PassPiecesText, RewriteProperties.PassCodeText, RewriteProperties.RewriteCodeText, RewriteProperties.ExplicitCall: stated for plain paths only, for the same reason.
- RewriteProperties.RewriteCallIdempotent, RewriteProperties.ParquetCallIdempotent, RewriteProperties.FoundCallKept, RewriteProperties.FoundPathNamesSameDataset, RewriteProperties.NotFoundRewritesAgain: stated for plain paths and a plain folder only, for the same reason.
- utilities/mysql_handler.py, utilities/data_loading.py, `serialize_value`, `save_preprocessed_dataset`, `preprocess_dataset`, the FastAPI routes, run.py and the browser scripts: they are database, disk, HTTP and UI plumbing, outside the modelled core.
- The async plumbing of `process_question_async`: it runs sequentially, so concurrency plays no part.

## Findings

| source | as written | input that shows it | evidently intended | confidence | as-written member | corrected member |
|---|---|---|---|---|---|---|
| utilities/data_preprocessing.py:52-56 | The counter suffixes a repeated name with its occurrence count, but it never checks the suffixed name against names already given. | columns `['a', 'a', 'a_2']` are renamed `a`, `a_2`, `a_2` | The column names are unique, as the docstring at line 27 promises. | not executed | DataPreprocessing.DuplicateAfterSuffix | DataPreprocessing.UniqueColumns |
