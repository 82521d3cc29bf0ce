/** Prompt assembly for MySQL questions answered with pandas over parquet snapshots of the
  * tables (`get_mysql_pandas_code` in utilities/agents.py). */
module MysqlAgents {
  import opened Wrappers
  import opened Text
  import opened Agents
  import opened MysqlCleaning

  // ---------------------------------------------------------------------------
  // The list of snapshot files

  /** One entry of `table_snapshots`: a table and the parquet file holding its snapshot.
    * The mapping is a sequence of entries in the dictionary's insertion order. */
  datatype Snapshot = Snapshot(table: string, path: string)

  const FilesHeader: string := "Available parquet files:"
  const EntryDash: string := "- "
  const EntrySep: string := ": "

  /** The line listing one snapshot. */
  function EntryLine(s: Snapshot): string { EntryDash + s.table + EntrySep + s.path }

  /** The lines listing the snapshots, one per entry, in order. */
  function EntryLines(snapshots: seq<Snapshot>): (r: seq<string>)
    ensures |r| == |snapshots|
    ensures forall i :: 0 <= i < |r| ==> r[i] == EntryLine(snapshots[i])
    decreases |snapshots|
  {
    if snapshots == [] then []
    else EntryLines(snapshots[..|snapshots| - 1]) + [EntryLine(snapshots[|snapshots| - 1])]
  }

  /** `file_context`: the header line and one line per snapshot, each ended by a newline. */
  function FileContext(snapshots: seq<Snapshot>): string {
    Lines([FilesHeader] + EntryLines(snapshots))
  }

  /** The loop building `file_context`. */
  method BuildFileContext(snapshots: seq<Snapshot>) returns (fileContext: string)
    ensures fileContext == FileContext(snapshots)
  {
    fileContext := FilesHeader + "\n";
    assert fileContext == Lines([FilesHeader] + EntryLines(snapshots[..0]));
    for i := 0 to |snapshots|
      invariant fileContext == Lines([FilesHeader] + EntryLines(snapshots[..i]))
    {
      assert snapshots[..i + 1][..i] == snapshots[..i];
      assert [FilesHeader] + EntryLines(snapshots[..i + 1])
        == ([FilesHeader] + EntryLines(snapshots[..i])) + [EntryLine(snapshots[i])];
      LinesSnoc([FilesHeader] + EntryLines(snapshots[..i]), EntryLine(snapshots[i]));
      fileContext := fileContext + EntryLine(snapshots[i]) + "\n";
    }
    TakeAll(snapshots);
  }

  /** With no line breaks in the names and paths, `file_context` splits into the header,
    * then "- table: path" for every snapshot in mapping order, then the empty remainder
    * after the last newline. */
  lemma FileContextLines(snapshots: seq<Snapshot>)
    requires forall i :: 0 <= i < |snapshots| ==> '\n' !in snapshots[i].table && '\n' !in snapshots[i].path
    ensures var lines := Split(FileContext(snapshots), '\n');
      && |lines| == |snapshots| + 2
      && lines[0] == FilesHeader
      && (forall i :: 0 <= i < |snapshots| ==> lines[i + 1] == EntryDash + snapshots[i].table + EntrySep + snapshots[i].path)
      && lines[|snapshots| + 1] == []
  {
    var lines := [FilesHeader] + EntryLines(snapshots);
    forall i | 0 <= i < |lines|
      ensures '\n' !in lines[i]
    {
      if i > 0 {
        var s := snapshots[i - 1];
        assert lines[i] == EntryDash + s.table + EntrySep + s.path;
      }
    }
    LinesSplit(lines);
  }

  // ---------------------------------------------------------------------------
  // Instructions

  /** The instructions: the fixed text, and the "simplest possible" hint when the main
    * model is an "o" model. */
  function MysqlInstructions(mainModel: string): string {
    MysqlInstructionsText + (if IsOModel(mainModel) then SimplestHint else "")
  }

  /** The instruction-building steps of `get_mysql_pandas_code`. */
  method BuildMysqlInstructions(mainModel: string) returns (instructions: string)
    ensures instructions == MysqlInstructions(mainModel)
  {
    instructions := MysqlInstructionsText;
    if IsOModel(mainModel) {
      instructions := instructions + SimplestHint;
    } else {
      AppendEmpty(instructions);
    }
  }

  /** The fixed text is extended exactly for "o" main models, and then by the "simplest
    * possible" hint. */
  lemma MysqlInstructionsHint(mainModel: string)
    ensures MysqlInstructions(mainModel) != MysqlInstructionsText <==> IsOModel(mainModel)
    ensures IsOModel(mainModel) ==> MysqlInstructions(mainModel) == MysqlInstructionsText + SimplestHint
  {
    assert SimplestHint != [];
    OptionalSuffix(MysqlInstructionsText, SimplestHint, IsOModel(mainModel));
  }

  /** `t` followed by `h` when `present`, by nothing otherwise, differs from `t` exactly
    * when `present` and `h` is not empty. */
  lemma OptionalSuffix<T>(t: seq<T>, h: seq<T>, present: bool)
    requires h != []
    ensures t + (if present then h else []) != t <==> present
  {
    if present {
      assert |t + h| > |t|;
    } else {
      AppendEmpty(t);
    }
  }

  // ---------------------------------------------------------------------------
  // The prompt

  const MysqlSchemaHead: string := "Given the MySQL database schema converted to parquet files:\n"
  const MysqlFilesGap: string := "\n\n"
  const MysqlQuestionHead: string := "\n\nGenerate pandas code to answer this question: `"
  const MysqlFirstClose: string :=
    "` that strictly follows the instructions above.\n\n"
      + "The code should load the appropriate parquet files using pd.read_parquet() and perform the necessary operations to answer the question."

  /** The prompt of a first attempt. It refers to "the instructions above" but does not
    * carry them. */
  function MysqlFirstPrompt(question: string, schema: string, fileContext: string): string {
    MysqlSchemaHead + schema + MysqlFilesGap + fileContext + MysqlQuestionHead + question + MysqlFirstClose
  }

  const MysqlFixHead: string := "\nPlease fix the code to properly answer the question: `"
  const MysqlSchemaLabel: string := "`\nDataset schema: "
  const MysqlFilesLabel: string := "\nAvailable files: "
  const MysqlFollowLabel: string := "\nFollow these instructions:\n"
  const MysqlFailedLabel: string := "\nThe following code generated an error when executed:\n"

  /** The repair framing up to the failing code. */
  function MysqlRepairIntro(question: string, schema: string, fileContext: string, instructions: string): string {
    MysqlFixHead + question + MysqlSchemaLabel + schema + MysqlFilesLabel + fileContext
      + MysqlFollowLabel + instructions + MysqlFailedLabel
  }

  const MysqlCodeOpen: string := "```python\n"
  const MysqlCodeClose: string := "\n```\nError: "

  /** The failing code in a python block, then its error. */
  function MysqlFailureBlock(a: Attempt): string {
    MysqlCodeOpen + a.code + MysqlCodeClose + a.error
  }

  const MysqlSingleRequest: string :=
    " \nSolve the error and provide the corrected code that reads from parquet files and answers the question."
  const MysqlListRequest: string := "\nSolve the error and provide the corrected code"

  /** The repair prompt for one failure. */
  function MysqlSinglePrompt(question: string, schema: string, fileContext: string, instructions: string, a: Attempt): string {
    MysqlRepairIntro(question, schema, fileContext, instructions) + MysqlFailureBlock(a) + MysqlSingleRequest
  }

  /** The repair framing around the latest failure of a list. */
  function MysqlLatestRepair(question: string, schema: string, fileContext: string, instructions: string, a: Attempt): string {
    MysqlRepairIntro(question, schema, fileContext, instructions) + MysqlFailureBlock(a) + MysqlListRequest
  }

  /** The repair prompt for a list of failures: the latest is the one to fix, the earlier
    * ones are listed after it. */
  function MysqlSeveralPrompt(question: string, schema: string, fileContext: string, instructions: string, attempts: seq<Attempt>): string
    requires |attempts| > 0
  {
    var n := |attempts|;
    MysqlLatestRepair(question, schema, fileContext, instructions, attempts[n - 1]) + EarlierHeader
      + AttemptsSection(attempts[..n - 1], 1)
  }

  /** The user prompt of `get_mysql_pandas_code`, around the given file list and instructions. */
  function MysqlPrompt(question: string, schema: string, fileContext: string, errorCode: ErrorCode, instructions: string): string {
    if !errorCode.IsSet() then MysqlFirstPrompt(question, schema, fileContext)
    else if errorCode.Single? then MysqlSinglePrompt(question, schema, fileContext, instructions, errorCode.attempt)
    else MysqlSeveralPrompt(question, schema, fileContext, instructions, errorCode.attempts)
  }

  /** `get_mysql_pandas_code`'s prompt assembly, step by step. */
  method BuildMysqlPrompt(question: string, schema: string, fileContext: string, errorCode: ErrorCode, instructions: string)
    returns (userPrompt: string)
    ensures userPrompt == MysqlPrompt(question, schema, fileContext, errorCode, instructions)
  {
    userPrompt := MysqlFirstPrompt(question, schema, fileContext);
    if errorCode.IsSet() {
      if errorCode.Single? {
        userPrompt := MysqlRepairIntro(question, schema, fileContext, instructions) + MysqlFailureBlock(errorCode.attempt);
        userPrompt := userPrompt + MysqlSingleRequest;
      } else {
        var attempts := errorCode.attempts;
        userPrompt := MysqlLatestRepair(question, schema, fileContext, instructions, attempts[|attempts| - 1]);
        userPrompt := userPrompt + EarlierHeader;
        userPrompt := AppendAttempts(userPrompt, attempts[..|attempts| - 1]);
      }
    }
  }

  // ---------------------------------------------------------------------------
  // The request

  /** The request `get_mysql_pandas_code` sends. */
  function MysqlRequest(question: string, schema: string, snapshots: seq<Snapshot>, temperature: real,
                        errorCode: ErrorCode, models: Models): CompletionArgs
  {
    CodeRequest(MysqlPrompt(question, schema, FileContext(snapshots), errorCode, MysqlInstructions(models.main)),
                temperature, errorCode, models)
  }

  /** `get_mysql_pandas_code`: the completion text of the request, as `complete` answers
    * it, cleaned. The code returned has no '#' and no blank or unstripped line. */
  function GetMysqlPandasCode(question: string, schema: string, snapshots: seq<Snapshot>, temperature: real,
                              errorCode: ErrorCode, models: Models, complete: CompletionArgs -> string): (r: string)
    ensures '#' !in r
    ensures r == [] || forall i :: 0 <= i < |Split(r, '\n')| ==> Split(r, '\n')[i] != [] && IsStripped(Split(r, '\n')[i])
  {
    CleanMysql(complete(MysqlRequest(question, schema, snapshots, temperature, errorCode, models)))
  }

  /** `get_mysql_pandas_code` step by step: instructions, file list, prompt, arguments, the
    * call, and the cleaning. */
  method RequestMysqlPandasCode(question: string, schema: string, snapshots: seq<Snapshot>, temperature: real,
                                errorCode: ErrorCode, models: Models, complete: CompletionArgs -> string)
    returns (code: string)
    ensures code == GetMysqlPandasCode(question, schema, snapshots, temperature, errorCode, models, complete)
  {
    var instructions := BuildMysqlInstructions(models.main);
    var fileContext := BuildFileContext(snapshots);
    var userPrompt := BuildMysqlPrompt(question, schema, fileContext, errorCode, instructions);
    var args := CodeRequest(userPrompt, temperature, errorCode, models);
    assert args == MysqlRequest(question, schema, snapshots, temperature, errorCode, models);
    var rawResponse := complete(args);
    code := CleanMysqlPandasCode(rawResponse);
  }

  // ---------------------------------------------------------------------------
  // Properties of the prompt

  /** Every prompt carries the list of snapshot files. */
  lemma PromptListsFiles(question: string, schema: string, fileContext: string, errorCode: ErrorCode, instructions: string)
    ensures Contains(MysqlPrompt(question, schema, fileContext, errorCode, instructions), fileContext)
  {
    if !errorCode.IsSet() {
      ContainsFourth(MysqlSchemaHead, schema, MysqlFilesGap, fileContext, MysqlQuestionHead, question, MysqlFirstClose);
    } else {
      var intro := MysqlRepairIntro(question, schema, fileContext, instructions);
      ContainsSixth(MysqlFixHead, question, MysqlSchemaLabel, schema, MysqlFilesLabel, fileContext,
                    MysqlFollowLabel, instructions, MysqlFailedLabel);
      if errorCode.Single? {
        ContainsExtend(intro, fileContext, MysqlFailureBlock(errorCode.attempt));
        ContainsExtend(intro + MysqlFailureBlock(errorCode.attempt), fileContext, MysqlSingleRequest);
      } else {
        var attempts := errorCode.attempts;
        var latest := MysqlFailureBlock(attempts[|attempts| - 1]);
        ContainsExtend(intro, fileContext, latest);
        ContainsExtend(intro + latest, fileContext, MysqlListRequest);
        ContainsExtend(intro + latest + MysqlListRequest, fileContext, EarlierHeader);
        ContainsExtend(intro + latest + MysqlListRequest + EarlierHeader, fileContext,
                       AttemptsSection(attempts[..|attempts| - 1], 1));
      }
    }
  }

  lemma ContainsFourth(a: string, b: string, c: string, p: string, d: string, e: string, f: string)
    ensures Contains(a + b + c + p + d + e + f, p)
  {
    ContainsEnd(a + b + c, p);
    ContainsExtend(a + b + c + p, p, d);
    ContainsExtend(a + b + c + p + d, p, e);
    ContainsExtend(a + b + c + p + d + e, p, f);
  }

  lemma ContainsSixth(a: string, b: string, c: string, d: string, e: string, p: string, f: string, g: string, h: string)
    ensures Contains(a + b + c + d + e + p + f + g + h, p)
  {
    ContainsEnd(a + b + c + d + e, p);
    ContainsExtend(a + b + c + d + e + p, p, f);
    ContainsExtend(a + b + c + d + e + p + f, p, g);
    ContainsExtend(a + b + c + d + e + p + f + g, p, h);
  }

  /** The first prompt is the same whatever the instructions: only the repair prompts
    * carry them. */
  lemma FirstPromptOmitsInstructions(question: string, schema: string, fileContext: string, errorCode: ErrorCode,
                                     instructions: string, others: string)
    requires !errorCode.IsSet()
    ensures MysqlPrompt(question, schema, fileContext, errorCode, instructions)
      == MysqlPrompt(question, schema, fileContext, errorCode, others)
  {
  }

  /** A single failure's prompt embeds its code in a python block, then its error. */
  lemma MysqlSingleRepairEmbeds(question: string, schema: string, fileContext: string, a: Attempt, instructions: string)
    ensures Contains(MysqlPrompt(question, schema, fileContext, Single(a), instructions), MysqlFailureBlock(a))
  {
    assert Single(a).IsSet();
    ContainsMiddle(MysqlRepairIntro(question, schema, fileContext, instructions), MysqlFailureBlock(a), MysqlSingleRequest);
  }

  /** With several failures, the prompt opens with the repair framing around the latest
    * one, and lists every earlier one `k` as "Attempt k+1". */
  lemma MysqlSeveralTargetsLatest(question: string, schema: string, fileContext: string, attempts: seq<Attempt>, instructions: string)
    requires |attempts| > 0
    ensures StartsWith(MysqlPrompt(question, schema, fileContext, Several(attempts), instructions),
                       MysqlLatestRepair(question, schema, fileContext, instructions, attempts[|attempts| - 1]))
    ensures forall k :: 0 <= k < |attempts| - 1 ==>
      Contains(MysqlPrompt(question, schema, fileContext, Several(attempts), instructions), AttemptText(k + 1, attempts[k]))
  {
    assert Several(attempts).IsSet();
    var n := |attempts|;
    var primary := MysqlLatestRepair(question, schema, fileContext, instructions, attempts[n - 1]);
    var earlier := attempts[..n - 1];
    var p := MysqlPrompt(question, schema, fileContext, Several(attempts), instructions);
    StartsWithOpening(primary, EarlierHeader, AttemptsSection(earlier, 1), []);
    AppendEmpty(primary + EarlierHeader + AttemptsSection(earlier, 1));
    assert p == primary + EarlierHeader + AttemptsSection(earlier, 1) + [];
    EarlierAttemptsListed(primary, earlier, []);
    forall k | 0 <= k < n - 1
      ensures Contains(p, AttemptText(k + 1, attempts[k]))
    {
      assert earlier[k] == attempts[k];
    }
  }
}
