/** Prompt assembly and request shaping for the code-generating language model
  * (`get_pandas_code` and `get_mysql_pandas_code` in utilities/agents.py). */
module Agents {
  import opened Wrappers
  import opened Text

  // ---------------------------------------------------------------------------
  // Requests

  /** A failed attempt: the code that was run and the error it raised. */
  datatype Attempt = Attempt(code: string, error: string)

  /** The `error_code` argument: `None`, one `(code, error)` tuple, or a list of them
    * ordered oldest to newest. */
  datatype ErrorCode = NoError | Single(attempt: Attempt) | Several(attempts: seq<Attempt>) {
    /** Python truthiness: a tuple is true, a list only when it is not empty. */
    predicate IsSet() { Single? || (Several? && |attempts| > 0) }
  }

  /** `MAIN_LLM` and `ERROR_LLM`, read from the environment. */
  datatype Models = Models(main: string, error: string)

  /** The sampling argument: a temperature, or a reasoning effort for "o" models. */
  datatype Setting = Temperature(temperature: real) | ReasoningEffort(effort: string)

  /** The arguments of a chat completion request with one user message. */
  datatype CompletionArgs = CompletionArgs(model: string, prompt: string, tokenParam: string, maxTokens: nat, setting: Setting)

  /** Models whose name starts with "o" take other parameters. */
  predicate IsOModel(model: string) { StartsWith(model, "o") }

  /** The model a request goes to: `ERROR_LLM` when there is an error to fix. */
  function CurrentModel(errorCode: ErrorCode, models: Models): (r: string)
    ensures r == models.error || r == models.main
    ensures models.main != models.error ==> (r == models.error <==> errorCode.IsSet())
  {
    if errorCode.IsSet() then models.error else models.main
  }

  /** `completion_args`: the token limit under `max_completion_tokens` and a reasoning
    * effort for "o" models, under `max_tokens` with the temperature for the others. */
  function ShapeArgs(model: string, prompt: string, temperature: real, effort: string, maxTokens: nat): (r: CompletionArgs)
    ensures r.model == model && r.prompt == prompt && r.maxTokens == maxTokens
    ensures IsOModel(model) <==> r.tokenParam == "max_completion_tokens"
    ensures !IsOModel(model) <==> r.tokenParam == "max_tokens"
    ensures IsOModel(model) <==> r.setting == ReasoningEffort(effort)
    ensures !IsOModel(model) <==> r.setting == Temperature(temperature)
  {
    if IsOModel(model) then CompletionArgs(model, prompt, "max_completion_tokens", maxTokens, ReasoningEffort(effort))
    else CompletionArgs(model, prompt, "max_tokens", maxTokens, Temperature(temperature))
  }

  const CodeTokenLimit: nat := 5000
  const CodeReasoningEffort: string := "high"

  /** The arguments both code generators send for `prompt`: the current model, a limit of
    * 5000 tokens, and a "high" reasoning effort for "o" models. */
  function CodeRequest(prompt: string, temperature: real, errorCode: ErrorCode, models: Models): CompletionArgs {
    ShapeArgs(CurrentModel(errorCode, models), prompt, temperature, CodeReasoningEffort, CodeTokenLimit)
  }

  /** A code request goes to the error model exactly when there is an error to fix, carries
    * the prompt and a limit of 5000 tokens, and has the "o"-model parameters exactly when
    * the model it goes to is an "o" model. */
  lemma RequestShape(prompt: string, temperature: real, errorCode: ErrorCode, models: Models)
    ensures var r := CodeRequest(prompt, temperature, errorCode, models);
      && (r.model == models.error || r.model == models.main)
      && (models.main != models.error ==> (r.model == models.error <==> errorCode.IsSet()))
      && r.prompt == prompt && r.maxTokens == CodeTokenLimit
      && (IsOModel(r.model) <==> r.tokenParam == "max_completion_tokens" && r.setting == ReasoningEffort(CodeReasoningEffort))
      && (!IsOModel(r.model) <==> r.tokenParam == "max_tokens" && r.setting == Temperature(temperature))
  {
    assert |"max_tokens"| != |"max_completion_tokens"|;
  }

  // ---------------------------------------------------------------------------
  // Prompt wording

  const InstructionsHead: string :=
    "The code should return a print statement with the answer to the question.\n"
      + "    The code should leave the answer be and not print anything other than the variable that holds the answer.\n"
      + "    Please write a single Python code block that answers the following question and prints the result in one line at the end."

  const UniqueHint: string :=
    "\n        "
      + "If the question doesn't specifically ask for it, don't use unique() or drop_duplicates() functions."

  const InstructionsTail: string :=
    "\n    If it is a Yes or No question, "
      + "the answer should be a boolean.\n"
      + ("    Do not include any explanations, comments, or additional code blocks.\n"
      + "    Do not print intermediate steps just the answer.\n"
      + "    Do not interact with the user.\n"
      + "    Never display any sort of dataframes or tables.\n"
      + "    Your output can never take more than a single line after printing and it can never be any sort of objects such as pandas or numpy objects, series etc. \n"
      + "    Your output must be one of the following:\n"
      + "\n"
      + "    Boolean: True/False\n"
      + "    Category/String: A value\n"
      + "    Number: A numerical value\n"
      + "    List[category/string]: ['cat', 'dog']\n"
      + "    List[number]: [1, 2, 3]\n"
      + "    So the outputs have to be native python\n"
      + "\n"
      + "    ")

  const SimplestHint: string :=
    "\n"
      + "    Generate the *simplest possible* pandas code that correctly answers the question. Avoid unnecessary complexity, helper functions, or overly defensive programming unless strictly required by the question's logic. Prefer direct pandas operations.\n"
      + "    "

  /** The fixed instructions of the MySQL prompt, line by line. */
  const MysqlInstructionLines: seq<string> := [
    "The code should return a print " + "statement with the answer to the " + "question.",
    "    ",
    "    APPROACH - Column Renaming Method:",
    "    1. Load each table and immediately " + "rename conflicting columns",
    "    2. Use simple merges without " + "suffixes (since columns are unique)",
    "    3. Reference renamed columns " + "consistently",
    "    4. Handle edge cases carefully",
    "    ",
    "    MANDATORY RENAMING PATTERN:",
    "    ```python",
    "    import pandas as pd",
    "    ",
    "    # Load and rename columns to be " + "unique",
    "    artists = " + "pd.read_parquet('datasets/music_artist.parquet')",
    "    artists = " + "artists.rename(columns={'Name': " + "'ArtistName'})",
    "    ",
    "    albums = " + "pd.read_parquet('datasets/music_album.parquet') ",
    "    albums = " + "albums.rename(columns={'Title': " + "'AlbumTitle'})",
    "    ",
    "    tracks = " + "pd.read_parquet('datasets/music_track.parquet')",
    "    tracks = " + "tracks.rename(columns={'Name': " + "'TrackName'})",
    "    ",
    "    genres = " + "pd.read_parquet('datasets/music_genre.parquet')",
    "    genres = " + "genres.rename(columns={'Name': " + "'GenreName'})",
    "    ",
    "    mediatypes = " + "pd.read_parquet('datasets/music_mediatype.parquet')",
    "    mediatypes = " + "mediatypes.rename(columns={'Name': " + "'MediaTypeName'})",
    "    ",
    "    sales = " + "pd.read_parquet('datasets/music_sales.parquet')",
    "    ",
    "    customers = " + "pd.read_parquet('datasets/music_customers.parquet')",
    "    customers = " + "customers.rename(columns={'Name': " + "'CustomerName'})",
    "    ",
    "    # Merge step by step",
    "    data = artists.merge(albums, " + "on='ArtistId')",
    "    data = data.merge(tracks, " + "on='AlbumId')  ",
    "    data = data.merge(genres, " + "on='GenreId')",
    "    # etc...",
    "    ",
    "    # Use renamed column names",
    "    result = data[data['Country'] == " + "'USA']['ArtistName'].tolist()",
    "    print(result)",
    "    ```",
    "    ",
    "    CRITICAL FIXES FOR COMMON ISSUES:",
    "    - When filtering by customer " + "Country, use customers table: " + "customers[customers['Country'].isin(['Germany', " + "'Spain', 'UK'])]",
    "    - When calculating revenue, " + "multiply: sales['Quantity'] * " + "tracks['UnitPrice']",
    "    - All Country information is in the " + "customers table, NOT the artists table",
    "    - For date filtering: " + "sales[sales['SaleDate'].str.contains('2023-02')]",
    "    - Time conversions: " + "Milliseconds/1000 for seconds, " + "Milliseconds/60000 for minutes",
    "    ",
    "    COLUMN NAMING AFTER RENAME:",
    "    - ArtistName (was Name in artists)",
    "    - AlbumTitle (was Title in albums)  ",
    "    - TrackName (was Name in tracks)",
    "    - GenreName (was Name in genres)",
    "    - MediaTypeName (was Name in " + "mediatypes)",
    "    - CustomerName (was Name in " + "customers)",
    "    - All other columns keep original " + "names",
    "    ",
    "    Return only: boolean, string, " + "number, or list.",
    "    The code should leave the answer be " + "and not print anything other than the " + "variable that holds the answer.",
    "    Do not include any explanations, " + "comments, or additional code blocks.",
    "    Do not print intermediate steps " + "just the answer.",
    "    Do not interact with the user.",
    "    Never display any sort of " + "dataframes or tables.",
    "    Your output can never take more " + "than a single line after printing and " + "it can never be any sort of objects " + "such as pandas or numpy objects, series " + "etc. ",
    "    Your output must be one of the " + "following:",
    "",
    "    Boolean: True/False",
    "    Category/String: A value",
    "    Number: A numerical value",
    "    List[category/string]: ['cat', " + "'dog']",
    "    List[number]: [1, 2, 3]",
    "    So the outputs have to be native " + "python",
    "    "
  ]

  /** The lines joined by line breaks; the last line has none after it. */
  const MysqlInstructionsText: string := Join(MysqlInstructionLines, "\n")

  const UniqueKeywords: seq<string> := ["unique", "different", "distinct"]

  const EarlierHeader: string := "\n\nHere are earlier attempts that also failed:\n"

  // ---------------------------------------------------------------------------
  // The pandas prompt

  /** The hint against `unique()` is given when the lower-cased question holds none of the
    * keywords. */
  predicate NeedsUniqueHint(question: string) {
    forall i :: 0 <= i < |UniqueKeywords| ==> !Contains(Lower(question), UniqueKeywords[i])
  }

  /** The instructions of the pandas prompt: the fixed head, the hint against `unique()`
    * when it is needed, the fixed tail, and the "simplest possible" hint when the main
    * model is an "o" model. */
  function PandasInstructions(question: string, mainModel: string): string {
    (if NeedsUniqueHint(question) then InstructionsHead + UniqueHint else InstructionsHead)
      + InstructionsTail + (if IsOModel(mainModel) then SimplestHint else "")
  }

  // The fixed wording around the interpolated values, one constant per fragment.
  const SentenceHead: string := "The following python code made for pandas for the parquet file "
  const SentenceMiddle: string :=
    ".parquet reads the parquet file and running it returns the answer that is enough to answer the question `"
  const FirstClose: string := "`"
  const FixedClose: string := "` with the error fixed"

  /** The closing sentence naming the dataset's parquet file; `close` ends it. */
  function DatasetSentence(dataset: string, question: string, close: string): string {
    SentenceHead + dataset + SentenceMiddle + question + close
  }

  const SchemaHead: string := "Given the dataset schema "
  const QuestionHead: string := "\n                Generate a python code to answer this question: `"
  const InstructionsLead: string := "` that strictly follows the instructions below:\n                "
  const InstructionsClose: string := "`:"

  /** The first-attempt prompt before its closing sentence. */
  function FirstPromptHead(question: string, schema: string, instructions: string): string {
    SchemaHead + schema + QuestionHead + question + InstructionsLead + instructions + InstructionsClose
  }

  /** The prompt of a first attempt. */
  function FirstPrompt(dataset: string, question: string, schema: string, instructions: string): string {
    FirstPromptHead(question, schema, instructions) + DatasetSentence(dataset, question, FirstClose)
  }

  const FixHead: string := "\n                    Please fix the code to properly answer the question: `"
  const SchemaLabel: string := "`\n                    Dataset schema: "
  const FollowLabel: string := "\n                    Follow these instructions:\n                    "
  const FailedLabel: string := "\n                    The following code generated an error when executed:\n                    "

  /** The repair framing up to the failing code. */
  function RepairIntro(question: string, schema: string, instructions: string): string {
    FixHead + question + SchemaLabel + schema + FollowLabel + instructions + FailedLabel
  }

  const CodeOpen: string := "```python\n                    "
  const CodeClose: string := "\n                    ```\n                    Error: "

  /** The failing code in a python block, then its error. */
  function FailureBlock(a: Attempt): string {
    CodeOpen + a.code + CodeClose + a.error
  }

  const RepairRequest: string := " Solve the error and provide the corrected code"

  /** The repair framing around the failure to fix. */
  function RepairPrompt(question: string, schema: string, instructions: string, a: Attempt): string {
    RepairIntro(question, schema, instructions) + FailureBlock(a) + RepairRequest
  }

  const AttemptHead: string := "\nAttempt "
  const AttemptCode: string := ":\n"
  const AttemptError: string := "\n```\nError: "
  const AttemptEnd: string := "\n"

  /** One earlier failure, numbered. */
  function AttemptText(index: nat, a: Attempt): string {
    AttemptHead + NatToString(index) + AttemptCode + a.code + AttemptError + a.error + AttemptEnd
  }

  /** Earlier failures numbered from `first` on, oldest first. */
  function AttemptsSection(attempts: seq<Attempt>, first: nat): string
    decreases |attempts|
  {
    if attempts == [] then "" else AttemptText(first, attempts[0]) + AttemptsSection(attempts[1..], first + 1)
  }

  /** The repair prompt for one failure. */
  function SinglePrompt(dataset: string, question: string, schema: string, instructions: string, a: Attempt): string {
    RepairPrompt(question, schema, instructions, a) + " " + DatasetSentence(dataset, question, FixedClose)
  }

  /** The repair prompt for a list of failures: the latest is the one to fix, the earlier
    * ones are listed after it. */
  function SeveralPrompt(dataset: string, question: string, schema: string, instructions: string, attempts: seq<Attempt>): string
    requires |attempts| > 0
  {
    var n := |attempts|;
    RepairPrompt(question, schema, instructions, attempts[n - 1]) + EarlierHeader
      + AttemptsSection(attempts[..n - 1], 1) + DatasetSentence(dataset, question, FixedClose)
  }

  /** The user prompt of `get_pandas_code`, around the given instructions. */
  function PandasPrompt(dataset: string, question: string, schema: string, errorCode: ErrorCode, instructions: string): string {
    if !errorCode.IsSet() then FirstPrompt(dataset, question, schema, instructions)
    else if errorCode.Single? then SinglePrompt(dataset, question, schema, instructions, errorCode.attempt)
    else SeveralPrompt(dataset, question, schema, instructions, errorCode.attempts)
  }

  /** The request `get_pandas_code` sends. */
  function PandasRequest(dataset: string, question: string, schema: string, temperature: real,
                         errorCode: ErrorCode, models: Models): CompletionArgs
  {
    CodeRequest(PandasPrompt(dataset, question, schema, errorCode, PandasInstructions(question, models.main)),
                temperature, errorCode, models)
  }

  /** `get_pandas_code`: the completion text of the request, as `complete` answers it. */
  function GetPandasCode(dataset: string, question: string, schema: string, temperature: real,
                         errorCode: ErrorCode, models: Models, complete: CompletionArgs -> string): string
  {
    complete(PandasRequest(dataset, question, schema, temperature, errorCode, models))
  }

  /** The earlier-attempts loop. */
  method AppendAttempts(prompt: string, earlier: seq<Attempt>) returns (r: string)
    ensures r == prompt + AttemptsSection(earlier, 1)
  {
    r := prompt;
    for idx := 0 to |earlier|
      invariant r == prompt + AttemptsSection(earlier[..idx], 1)
    {
      AttemptsSectionAppend(earlier[..idx], [earlier[idx]], 1);
      TakeNext(earlier, idx);
      r := r + AttemptText(idx + 1, earlier[idx]);
    }
    TakeAll(earlier);
  }

  /** The instruction-building steps of `get_pandas_code`. */
  method BuildPandasInstructions(question: string, mainModel: string) returns (instructions: string)
    ensures instructions == PandasInstructions(question, mainModel)
  {
    instructions := InstructionsHead;
    if NeedsUniqueHint(question) {
      instructions := instructions + UniqueHint;
    }
    instructions := instructions + InstructionsTail;
    if IsOModel(mainModel) {
      instructions := instructions + SimplestHint;
    } else {
      AppendEmpty(instructions);
    }
  }

  /** `get_pandas_code`'s prompt assembly, step by step. */
  method BuildPandasPrompt(dataset: string, question: string, schema: string, errorCode: ErrorCode, instructions: string)
    returns (userPrompt: string)
    ensures userPrompt == PandasPrompt(dataset, question, schema, errorCode, instructions)
  {
    userPrompt := FirstPromptHead(question, schema, instructions);
    userPrompt := userPrompt + DatasetSentence(dataset, question, FirstClose);
    if errorCode.IsSet() {
      if errorCode.Single? {
        userPrompt := RepairPrompt(question, schema, instructions, errorCode.attempt) + " ";
        userPrompt := userPrompt + DatasetSentence(dataset, question, FixedClose);
      } else {
        var attempts := errorCode.attempts;
        userPrompt := RepairPrompt(question, schema, instructions, attempts[|attempts| - 1]);
        userPrompt := userPrompt + EarlierHeader;
        userPrompt := AppendAttempts(userPrompt, attempts[..|attempts| - 1]);
        userPrompt := userPrompt + DatasetSentence(dataset, question, FixedClose);
      }
    }
  }

  // ---------------------------------------------------------------------------
  // Properties of the pandas prompt

  lemma {:induction false} AttemptsSectionAppend(a: seq<Attempt>, b: seq<Attempt>, first: nat)
    ensures AttemptsSection(a + b, first) == AttemptsSection(a, first) + AttemptsSection(b, first + |a|)
    decreases |a|
  {
    if a == [] {
      assert a + b == b;
    } else {
      var ab := a + b;
      assert ab[0] == a[0] && ab[1..] == a[1..] + b;
      AttemptsSectionAppend(a[1..], b, first + 1);
      var head := AttemptText(first, a[0]);
      var x := AttemptsSection(a[1..], first + 1);
      var y := AttemptsSection(b, first + |a|);
      assert AttemptsSection(ab, first) == AttemptText(first, ab[0]) + AttemptsSection(ab[1..], first + 1);
      assert AttemptsSection(ab[1..], first + 1) == x + y;
      assert AttemptsSection(a, first) == head + x;
      AppendAssoc(head, x, y);
    }
  }

  /** The earlier failures are listed oldest first: the `k`-th of them is "Attempt k+1",
    * between the ones before it and the ones after it. */
  lemma AttemptsNumbered(attempts: seq<Attempt>, k: nat)
    requires k < |attempts|
    ensures AttemptsSection(attempts, 1)
      == AttemptsSection(attempts[..k], 1) + AttemptText(k + 1, attempts[k]) + AttemptsSection(attempts[k + 1..], k + 2)
  {
    var rest := attempts[k..];
    SplitAt(attempts, k);
    AttemptsSectionAppend(attempts[..k], rest, 1);
    assert rest[0] == attempts[k] && rest[1..] == attempts[k + 1..];
    assert AttemptsSection(rest, k + 1) == AttemptText(k + 1, attempts[k]) + AttemptsSection(attempts[k + 1..], k + 2);
    AppendAssoc(AttemptsSection(attempts[..k], 1), AttemptText(k + 1, attempts[k]), AttemptsSection(attempts[k + 1..], k + 2));
  }

  /** The hint and the tail differ at their sixth character (a space against the "I" of
    * "If it is a Yes or No question"). */
  lemma HintAndTailDiffer()
    ensures |UniqueHint| > 5 && |InstructionsTail| > 5 && UniqueHint[5] != InstructionsTail[5]
  {
  }

  lemma AppendAssoc<T>(a: seq<T>, b: seq<T>, c: seq<T>)
    ensures a + b + c == a + (b + c)
  {
  }

  lemma SplitAt<T>(s: seq<T>, k: nat)
    requires k <= |s|
    ensures s == s[..k] + s[k..]
  {
  }

  lemma AppendEmpty<T>(s: seq<T>)
    ensures s + [] == s
  {
  }

  lemma DropPrefix<T>(a: seq<T>, b: seq<T>)
    ensures (a + b)[|a|..] == b
  {
  }

  /** The hint against `unique()` follows the head of the instructions exactly when the
    * question holds none of "unique", "different", "distinct" (lower-cased). */
  lemma UniqueHintIff(question: string, mainModel: string)
    ensures StartsWith(PandasInstructions(question, mainModel)[|InstructionsHead|..], UniqueHint)
      <==> NeedsUniqueHint(question)
  {
    HintAndTailDiffer();
    OptionalPartFollows(InstructionsHead, UniqueHint, InstructionsTail,
                        if IsOModel(mainModel) then SimplestHint else "", NeedsUniqueHint(question));
  }

  /** An optional part `u` that differs from `t` in its sixth character is found right
    * after `h` exactly when it is there. */
  lemma OptionalPartFollows(h: string, u: string, t: string, s: string, present: bool)
    requires |u| > 5 && |t| > 5 && u[5] != t[5]
    ensures StartsWith(((if present then h + u else h) + t + s)[|h|..], u) <==> present
  {
    var whole := (if present then h + u else h) + t + s;
    if present {
      assert whole[|h|..][..|u|] == u;
    } else {
      assert whole[|h|..][5] == t[5];
    }
  }

  /** A single failure's prompt embeds its code in a python block, then its error. */
  lemma SingleRepairEmbeds(dataset: string, question: string, schema: string, a: Attempt, instructions: string)
    ensures Contains(PandasPrompt(dataset, question, schema, Single(a), instructions), FailureBlock(a))
  {
    assert Single(a).IsSet();
    ContainsAfter(RepairIntro(question, schema, instructions), FailureBlock(a), RepairRequest, " ",
                  DatasetSentence(dataset, question, FixedClose));
  }

  lemma ContainsAfter(a: string, p: string, b: string, c: string, d: string)
    ensures Contains(a + p + b + c + d, p)
  {
    ContainsEnd(a, p);
    ContainsExtend(a + p, p, b);
    ContainsExtend(a + p + b, p, c);
    ContainsExtend(a + p + b + c, p, d);
  }

  /** `p + h + a + c` starts with `p`. */
  lemma StartsWithOpening(p: string, h: string, a: string, c: string)
    ensures StartsWith(p + h + a + c, p)
  {
    assert (p + h + a + c)[..|p|] == p;
  }

  /** `a + (x + t + y) + d` contains `t`. */
  lemma ContainsInside(a: string, x: string, t: string, y: string, d: string)
    ensures Contains(a + (x + t + y) + d, t)
  {
    assert a + (x + t + y) + d == (a + x) + t + (y + d);
    ContainsMiddle(a + x, t, y + d);
  }

  /** With several failures, the prompt opens with the repair framing around the latest
    * one, and lists every earlier one `k` as "Attempt k+1". */
  lemma SeveralTargetsLatest(dataset: string, question: string, schema: string, attempts: seq<Attempt>, instructions: string)
    requires |attempts| > 0
    ensures StartsWith(PandasPrompt(dataset, question, schema, Several(attempts), instructions),
                       RepairPrompt(question, schema, instructions, attempts[|attempts| - 1]))
    ensures forall k :: 0 <= k < |attempts| - 1 ==>
      Contains(PandasPrompt(dataset, question, schema, Several(attempts), instructions), AttemptText(k + 1, attempts[k]))
  {
    assert Several(attempts).IsSet();
    var n := |attempts|;
    var primary := RepairPrompt(question, schema, instructions, attempts[n - 1]);
    var earlier := attempts[..n - 1];
    var closing := DatasetSentence(dataset, question, FixedClose);
    var p := PandasPrompt(dataset, question, schema, Several(attempts), instructions);
    StartsWithOpening(primary, EarlierHeader, AttemptsSection(earlier, 1), closing);
    EarlierAttemptsListed(primary, earlier, closing);
    forall k | 0 <= k < n - 1
      ensures Contains(p, AttemptText(k + 1, attempts[k]))
    {
      assert earlier[k] == attempts[k];
    }
  }

  /** Every earlier attempt `k` appears as "Attempt k+1" in a prompt that carries the
    * section of earlier attempts, whatever comes before and after it. */
  lemma EarlierAttemptsListed(primary: string, earlier: seq<Attempt>, closing: string)
    ensures forall k :: 0 <= k < |earlier| ==>
      Contains(primary + EarlierHeader + AttemptsSection(earlier, 1) + closing, AttemptText(k + 1, earlier[k]))
  {
    forall k | 0 <= k < |earlier|
      ensures Contains(primary + EarlierHeader + AttemptsSection(earlier, 1) + closing, AttemptText(k + 1, earlier[k]))
    {
      AttemptsNumbered(earlier, k);
      ContainsInside(primary + EarlierHeader, AttemptsSection(earlier[..k], 1), AttemptText(k + 1, earlier[k]),
                     AttemptsSection(earlier[k + 1..], k + 2), closing);
    }
  }
}
