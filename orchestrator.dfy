/** The retry loop that turns a question into an answer (`process_question_async` in
  * app.py): generate code, clean it, rewrite its dataset paths, run it, and on failure
  * ask again with the history of failed attempts. */
module Orchestrator {
  import opened Wrappers
  import opened Text
  import opened CodeProcessing
  import opened Agents

  // ---------------------------------------------------------------------------
  // Inputs and results

  /** `QuestionResponse`. */
  datatype QuestionResponse = QuestionResponse(answer: string, generatedCode: string, datasetUsed: string,
                                               success: bool, errorMessage: Option<string>)

  /** `get_pandas_code` for the question and the dataset at temperature 0, called for the
    * `k`-th time with a schema and an error code (the request it sends is
    * `Agents.PandasRequest`). It may raise. */
  type Generator = (string, nat, ErrorCode) -> Outcome

  /** `capture_exec_output` running the code of the `k`-th attempt. It may raise. */
  type Executor = (nat, string) -> Outcome

  /** What an attempt does to the generated text before running it: the cleaned code, and
    * the code to run. */
  type Sanitizer = string -> (string, string)

  /** `clean_pandas_code`, then `modify_dataset_paths` into the datasets folder, where
    * `existing` is the set of files the rewriter finds. */
  function Sanitized(existing: set<string>, g: string): (string, string) {
    (CleanPandasCode(g), RewritePaths(CleanPandasCode(g), CodeFolder, existing))
  }
  /** The sanitiser of the web application. */
  function Sanitize(existing: set<string>): Sanitizer {
    g => Sanitized(existing, g)
  }

  /** Everything an attempt depends on. */
  datatype Context = Context(dataset: string, schema: string, maxRetries: int, sanitize: Sanitizer,
                             generate: Generator, execute: Executor)

  /** Execution output starting with this marks a failed run. */
  const ErrorSentinel: string := "Error :"

  /** The folder passed to the path rewriter. */
  const CodeFolder: string := "datasets/"

  const FailedHead: string := "Failed after "
  const FailedMiddle: string := " attempts. Last error: "
  const UnexpectedHead: string := "Unexpected error: "

  /** The error message once every attempt has failed. */
  function FailedMessage(attempts: nat, msg: string): string {
    FailedHead + NatToString(attempts) + FailedMiddle + msg
  }

  /** The response when an exception escapes the retry loop. */
  function UnexpectedResponse(dataset: string, msg: string): QuestionResponse {
    QuestionResponse("", "", dataset, false, Some(UnexpectedHead + msg))
  }

  // ---------------------------------------------------------------------------
  // The error history handed to the generator

  /** `error_code` for a history: nothing while it is empty, the one attempt alone, or
    * the whole list oldest first. */
  function ErrorCodeOf(history: seq<Attempt>): (r: ErrorCode)
    ensures r.IsSet() <==> history != []
  {
    if history == [] then NoError
    else if |history| == 1 then Single(history[0])
    else Several(history)
  }

  /** The attempts an error code carries. */
  function Carried(e: ErrorCode): seq<Attempt> {
    match e
    case NoError => []
    case Single(a) => [a]
    case Several(attempts) => attempts
  }

  /** The error code carries the whole history, and only a history of two or more is sent
    * as a list. */
  lemma ErrorCodeCarriesHistory(history: seq<Attempt>)
    ensures Carried(ErrorCodeOf(history)) == history
    ensures ErrorCodeOf(history).Several? <==> |history| >= 2
    ensures ErrorCodeOf(history).Single? <==> |history| == 1
  {
    if |history| == 1 {
      assert [history[0]] == history;
    }
  }

  // ---------------------------------------------------------------------------
  // One attempt

  /** How an attempt ends: with a response, or with the state the next attempt starts
    * from (the history, and the last values bound to `generated_code` and
    * `modified_code`, which are never reset). */
  datatype StepResult =
    | Done(response: QuestionResponse)
    | Next(history: seq<Attempt>, generated: Option<string>, modified: Option<string>)

  /** The `except` branch of an attempt: record the last generated code, or retry with
    * "" when there is none, unless this was the last attempt. */
  function RaisedStep(k: nat, c: Context, history: seq<Attempt>, generated: Option<string>, modified: Option<string>,
                      msg: string): StepResult
    requires k <= c.maxRetries
  {
    if k < c.maxRetries then Next(history + [Attempt(generated.GetOr(""), msg)], generated, modified)
    else Done(QuestionResponse("", modified.GetOr(generated.GetOr("")), c.dataset, false,
                               Some(FailedMessage(c.maxRetries + 1, msg))))
  }

  /** Attempt `k`. */
  function AttemptStep(k: nat, c: Context, history: seq<Attempt>, generated: Option<string>, modified: Option<string>): StepResult
    requires k <= c.maxRetries
  {
    match c.generate(c.schema, k, ErrorCodeOf(history))
    case Raised(msg) => RaisedStep(k, c, history, generated, modified, msg)
    case Returned(g) =>
      var cleaned := c.sanitize(g).0;
      var code := c.sanitize(g).1;
      match c.execute(k, code)
      case Raised(msg) => RaisedStep(k, c, history, Some(g), Some(code), msg)
      case Returned(result) =>
        if StartsWith(result, ErrorSentinel) then
          var msg := result[|ErrorSentinel|..];
          if k == c.maxRetries then Done(QuestionResponse("", code, c.dataset, false, Some(FailedMessage(c.maxRetries + 1, msg))))
          else Next(history + [Attempt(cleaned, msg)], Some(g), Some(code))
        else Done(QuestionResponse(result, code, c.dataset, true, None))
  }

  /** An attempt either answers or hands on a history one entry longer; only attempts
    * before the last hand on. */
  lemma StepGrowsHistory(k: nat, c: Context, history: seq<Attempt>, generated: Option<string>, modified: Option<string>)
    requires k <= c.maxRetries
    ensures var s := AttemptStep(k, c, history, generated, modified);
      s.Next? ==> k < c.maxRetries && |s.history| == |history| + 1 && s.history[..|history|] == history
  {
    var s := AttemptStep(k, c, history, generated, modified);
    if s.Next? {
      var entry := s.history[|history|];
      match c.generate(c.schema, k, ErrorCodeOf(history))
      case Raised(msg) =>
        assert s.history == history + [Attempt(generated.GetOr(""), msg)];
        Extends(history, Attempt(generated.GetOr(""), msg));
      case Returned(g) =>
        var cleaned := c.sanitize(g).0;
        var code := c.sanitize(g).1;
        match c.execute(k, code)
        case Raised(msg) =>
          assert s.history == history + [Attempt(g, msg)];
          Extends(history, Attempt(g, msg));
        case Returned(result) =>
          var msg := result[|ErrorSentinel|..];
          assert s.history == history + [Attempt(cleaned, msg)];
          Extends(history, Attempt(cleaned, msg));
    }
  }

  lemma Extends<T>(s: seq<T>, x: T)
    ensures |s + [x]| == |s| + 1 && (s + [x])[..|s|] == s
  {
  }

  /** An attempt that answers reports the dataset, and either succeeds with an output that
    * is not the sentinel and no error message, or fails with no answer and the message
    * that all `maxRetries + 1` attempts failed. */
  lemma StepDone(k: nat, c: Context, history: seq<Attempt>, generated: Option<string>, modified: Option<string>)
    requires k <= c.maxRetries
    ensures var s := AttemptStep(k, c, history, generated, modified);
      s.Done? ==>
        && s.response.datasetUsed == c.dataset
        && (s.response.success ==> s.response.errorMessage == None && !StartsWith(s.response.answer, ErrorSentinel))
        && (!s.response.success ==>
              s.response.answer == [] && s.response.errorMessage.Some?
              && StartsWith(s.response.errorMessage.value, FailedHead + NatToString(c.maxRetries + 1) + FailedMiddle))
  {
    var s := AttemptStep(k, c, history, generated, modified);
    if s.Done? {
      match c.generate(c.schema, k, ErrorCodeOf(history))
      case Raised(msg) =>
        FailedMessageShape(c.maxRetries + 1, msg);
      case Returned(g) =>
        var code := c.sanitize(g).1;
        match c.execute(k, code)
        case Raised(msg) =>
          FailedMessageShape(c.maxRetries + 1, msg);
        case Returned(result) =>
          if StartsWith(result, ErrorSentinel) {
            FailedMessageShape(c.maxRetries + 1, result[|ErrorSentinel|..]);
          }
    }
  }

  /** When the generator raises, nothing new is bound: a retry records the generated text
    * left from an earlier attempt (or "" before any), and the last attempt reports the
    * code left from an earlier attempt. */
  lemma GeneratorRaisedKeepsEarlierCode(k: nat, c: Context, history: seq<Attempt>, generated: Option<string>,
                                        modified: Option<string>, msg: string)
    requires k <= c.maxRetries
    requires c.generate(c.schema, k, ErrorCodeOf(history)) == Raised(msg)
    ensures var s := AttemptStep(k, c, history, generated, modified);
      && (k < c.maxRetries ==> s.Next? && s.history == history + [Attempt(generated.GetOr(""), msg)]
                               && s.generated == generated && s.modified == modified)
      && (k == c.maxRetries ==> s.Done? && s.response.generatedCode == modified.GetOr(generated.GetOr(""))
                                && s.response.errorMessage == Some(FailedMessage(c.maxRetries + 1, msg)))
  {
  }

  /** When the run raises, the retry records the raw generated text, not the cleaned one. */
  lemma ExecutionRaisedRecordsRawCode(k: nat, c: Context, history: seq<Attempt>, generated: Option<string>,
                                      modified: Option<string>, g: string, msg: string)
    requires k < c.maxRetries
    requires c.generate(c.schema, k, ErrorCodeOf(history)) == Returned(g)
    requires c.execute(k, c.sanitize(g).1) == Raised(msg)
    ensures AttemptStep(k, c, history, generated, modified)
      == Next(history + [Attempt(g, msg)], Some(g), Some(c.sanitize(g).1))
  {
  }

  /** A run that prints the sentinel is a failure carrying the text after the sentinel:
    * recorded with the cleaned code before the last attempt, reported on it. */
  lemma SentinelStep(k: nat, c: Context, history: seq<Attempt>, generated: Option<string>, modified: Option<string>,
                     g: string, msg: string)
    requires k <= c.maxRetries
    requires c.generate(c.schema, k, ErrorCodeOf(history)) == Returned(g)
    requires c.execute(k, c.sanitize(g).1) == Returned(ErrorSentinel + msg)
    ensures var s := AttemptStep(k, c, history, generated, modified);
      && (k < c.maxRetries ==> s.Next? && s.history == history + [Attempt(c.sanitize(g).0, msg)])
      && (k == c.maxRetries ==> s.Done? && !s.response.success
                                && s.response.errorMessage == Some(FailedMessage(c.maxRetries + 1, msg)))
  {
    var result := ErrorSentinel + msg;
    assert StartsWith(result, ErrorSentinel) by { assert result[..|ErrorSentinel|] == ErrorSentinel; }
    DropPrefix(ErrorSentinel, msg);
  }

  /** A run whose output does not start with the sentinel answers with that output and
    * the rewritten code. */
  lemma SuccessStep(k: nat, c: Context, history: seq<Attempt>, generated: Option<string>, modified: Option<string>,
                    g: string, result: string)
    requires k <= c.maxRetries
    requires c.generate(c.schema, k, ErrorCodeOf(history)) == Returned(g)
    requires c.execute(k, c.sanitize(g).1) == Returned(result)
    requires !StartsWith(result, ErrorSentinel)
    ensures AttemptStep(k, c, history, generated, modified)
      == Done(QuestionResponse(result, c.sanitize(g).1, c.dataset, true, None))
  {
  }

  // ---------------------------------------------------------------------------
  // The loop

  /** The outcome of the attempts from `k` on, and the history each of them started with,
    * in order. */
  datatype Run = Run(response: Option<QuestionResponse>, histories: seq<seq<Attempt>>)

  /** Attempts `k`..`maxRetries`. Past the last attempt the loop ends with nothing to
    * return, which happens only when `maxRetries` is negative. */
  function Attempts(k: nat, c: Context, history: seq<Attempt>, generated: Option<string>, modified: Option<string>): Run
    decreases c.maxRetries + 1 - k
  {
    if k > c.maxRetries then Run(None, [])
    else
      match AttemptStep(k, c, history, generated, modified)
      case Done(response) => Run(Some(response), [history])
      case Next(h, g, m) =>
        var rest := Attempts(k + 1, c, h, g, m);
        Run(rest.response, [history] + rest.histories)
  }

  /** `process_question_async`. `schemaStep` is the schema text, or an exception raised
    * before the loop starts. */
  function ProcessQuestion(dataset: string, maxRetries: int, schemaStep: Outcome, existing: set<string>,
                           generate: Generator, execute: Executor): Run
  {
    match schemaStep
    case Raised(msg) => Run(Some(UnexpectedResponse(dataset, msg)), [])
    case Returned(schema) =>
      Attempts(0, Context(dataset, schema, maxRetries, Sanitize(existing), generate, execute), [], None, None)
  }

  /** The loop of `process_question_async`, step by step. */
  method ProcessQuestionAsync(dataset: string, maxRetries: int, schemaStep: Outcome, existing: set<string>,
                              generate: Generator, execute: Executor)
    returns (response: Option<QuestionResponse>)
    ensures response == ProcessQuestion(dataset, maxRetries, schemaStep, existing, generate, execute).response
  {
    response := None;
    if schemaStep.Raised? {
      return Some(UnexpectedResponse(dataset, schemaStep.message));
    }
    var schema := schemaStep.value;
    var c := Context(dataset, schema, maxRetries, Sanitize(existing), generate, execute);
    var history: seq<Attempt> := [];
    var generated: Option<string> := None;
    var modified: Option<string> := None;
    var attempt: nat := 0;
    while attempt <= maxRetries
      invariant |history| == attempt
      invariant Attempts(0, c, [], None, None).response == Attempts(attempt, c, history, generated, modified).response
      decreases maxRetries + 1 - attempt
    {
      var errorCode := NoError;
      if history != [] {
        if |history| == 1 {
          errorCode := Single(history[0]);
        } else {
          errorCode := Several(history);
        }
      }
      assert errorCode == ErrorCodeOf(history);
      var failure: Option<string> := None;
      var produced := generate(schema, attempt, errorCode);
      if produced.Raised? {
        failure := Some(produced.message);
      } else {
        generated := Some(produced.value);
        var cleaned := CleanPandasCode(produced.value);
        var code := ModifyDatasetPaths(cleaned, CodeFolder, existing);
        modified := Some(code);
        assert c.sanitize(produced.value) == Sanitized(existing, produced.value);
        assert Sanitized(existing, produced.value) == (cleaned, code);
        var result := execute(attempt, code);
        if result.Raised? {
          failure := Some(result.message);
        } else if StartsWith(result.value, ErrorSentinel) {
          var errorMsg := result.value[|ErrorSentinel|..];
          history := history + [Attempt(cleaned, errorMsg)];
          if attempt == maxRetries {
            return Some(QuestionResponse("", code, dataset, false, Some(FailedMessage(maxRetries + 1, errorMsg))));
          }
        } else {
          return Some(QuestionResponse(result.value, code, dataset, true, None));
        }
      }
      if failure.Some? {
        if attempt < maxRetries {
          history := history + [Attempt(generated.GetOr(""), failure.value)];
        } else {
          return Some(QuestionResponse("", modified.GetOr(generated.GetOr("")), dataset, false,
                                       Some(FailedMessage(maxRetries + 1, failure.value))));
        }
      }
      attempt := attempt + 1;
    }
  }

  // ---------------------------------------------------------------------------
  // Properties of the loop

  /** From attempt `k` on: at most `maxRetries + 1 - k` attempts are made, the `i`-th of
    * them starts with a history of `k + i` entries that extends the one before it, and
    * there is a response exactly when an attempt is made at all. */
  lemma {:induction false} AttemptsShape(k: nat, c: Context, history: seq<Attempt>, generated: Option<string>,
                                          modified: Option<string>)
    requires |history| == k
    ensures var r := Attempts(k, c, history, generated, modified);
      && (k <= c.maxRetries + 1 ==> |r.histories| <= c.maxRetries + 1 - k)
      && (r.response.Some? <==> k <= c.maxRetries)
      && (r.histories == [] <==> k > c.maxRetries)
      && (r.histories != [] ==> r.histories[0] == history)
      && (forall i :: 0 <= i < |r.histories| ==> |r.histories[i]| == k + i)
      && (forall i :: 0 <= i < |r.histories| - 1 ==> r.histories[i + 1][..k + i] == r.histories[i])
    decreases c.maxRetries + 1 - k
  {
    if k <= c.maxRetries {
      var s := AttemptStep(k, c, history, generated, modified);
      StepGrowsHistory(k, c, history, generated, modified);
      if s.Next? {
        AttemptsShape(k + 1, c, s.history, s.generated, s.modified);
        var rest := Attempts(k + 1, c, s.history, s.generated, s.modified);
        var r := Attempts(k, c, history, generated, modified);
        assert r.histories == [history] + rest.histories;
        forall i | 0 <= i < |r.histories|
          ensures |r.histories[i]| == k + i
        {
          if i > 0 {
            assert r.histories[i] == rest.histories[i - 1];
          }
        }
        forall i | 0 <= i < |r.histories| - 1
          ensures r.histories[i + 1][..k + i] == r.histories[i]
        {
          if i > 0 {
            assert r.histories[i + 1] == rest.histories[i] && r.histories[i] == rest.histories[i - 1];
          }
        }
      }
    }
  }

  /** The loop asks the generator at most `maxRetries + 1` times; the `k`-th request goes
    * out with an error code carrying the `k` failures before it, oldest first, and
    * extending the history of the request before; there is a response exactly when
    * `maxRetries` is not negative. */
  lemma LoopAttempts(c: Context)
    ensures var r := Attempts(0, c, [], None, None);
      var maxRetries := c.maxRetries;
      && |r.histories| <= (if maxRetries < 0 then 0 else maxRetries + 1)
      && (r.response.Some? <==> maxRetries >= 0)
      && (forall k :: 0 <= k < |r.histories| ==> |r.histories[k]| == k && Carried(ErrorCodeOf(r.histories[k])) == r.histories[k])
      && (forall k :: 0 <= k < |r.histories| - 1 ==> r.histories[k + 1][..k] == r.histories[k])
  {
    AttemptsShape(0, c, [], None, None);
    var r := Attempts(0, c, [], None, None);
    forall k | 0 <= k < |r.histories|
      ensures Carried(ErrorCodeOf(r.histories[k])) == r.histories[k]
    {
      ErrorCodeCarriesHistory(r.histories[k]);
    }
  }

  /** Every response of the loop says how it ended: a success carries no error message
    * and an output that is not the sentinel; a failure carries no answer and the message
    * that all `maxRetries + 1` attempts failed. */
  lemma {:induction false} ResponseKinds(k: nat, c: Context, history: seq<Attempt>, generated: Option<string>,
                                          modified: Option<string>)
    ensures var r := Attempts(k, c, history, generated, modified);
      r.response.Some? ==>
        && r.response.value.datasetUsed == c.dataset
        && (r.response.value.success ==> r.response.value.errorMessage == None
                                          && !StartsWith(r.response.value.answer, ErrorSentinel))
        && (!r.response.value.success ==>
              r.response.value.answer == [] && r.response.value.errorMessage.Some?
              && StartsWith(r.response.value.errorMessage.value, FailedHead + NatToString(c.maxRetries + 1) + FailedMiddle))
    decreases c.maxRetries + 1 - k
  {
    if k <= c.maxRetries {
      var s := AttemptStep(k, c, history, generated, modified);
      StepDone(k, c, history, generated, modified);
      if s.Next? {
        ResponseKinds(k + 1, c, s.history, s.generated, s.modified);
      }
    }
  }

  /** The whole of `process_question_async`: an exception before the loop gives the
    * "Unexpected error" response with no answer and no code; otherwise the loop makes at
    * most `maxRetries + 1` requests, and its response, when there is one, reports the
    * dataset and is a success or the "Failed after" failure. */
  lemma ProcessQuestionResponses(dataset: string, maxRetries: int, schemaStep: Outcome, existing: set<string>,
                                 generate: Generator, execute: Executor)
    ensures var r := ProcessQuestion(dataset, maxRetries, schemaStep, existing, generate, execute);
      && (r.response.None? <==> schemaStep.Returned? && maxRetries < 0)
      && (r.response.Some? ==> r.response.value.datasetUsed == dataset)
      && (schemaStep.Raised? ==> r.histories == [] && r.response.Some? && !r.response.value.success
                                 && r.response.value.answer == [] && r.response.value.generatedCode == []
                                 && r.response.value.errorMessage == Some(UnexpectedHead + schemaStep.message))
      && (schemaStep.Returned? ==> |r.histories| <= (if maxRetries < 0 then 0 else maxRetries + 1))
      && (schemaStep.Returned? && maxRetries >= 0 && r.response.Some? && !r.response.value.success ==>
            r.response.value.answer == [] && r.response.value.errorMessage.Some?
            && StartsWith(r.response.value.errorMessage.value, FailedHead + NatToString(maxRetries + 1) + FailedMiddle))
  {
    match schemaStep
    case Raised(_) =>
    case Returned(schema) =>
      var c := Context(dataset, schema, maxRetries, Sanitize(existing), generate, execute);
      LoopAttempts(c);
      ResponseKinds(0, c, [], None, None);
  }

  /** The failure message opens with the attempt count, and the error follows it intact. */
  lemma FailedMessageShape(attempts: nat, msg: string)
    ensures var head := FailedHead + NatToString(attempts) + FailedMiddle;
      StartsWith(FailedMessage(attempts, msg), head) && FailedMessage(attempts, msg)[|head|..] == msg
  {
    var head := FailedHead + NatToString(attempts) + FailedMiddle;
    assert FailedMessage(attempts, msg) == head + msg;
    assert (head + msg)[..|head|] == head;
    DropPrefix(head, msg);
  }

  /** "Failed after" and "Unexpected error" messages are told apart by their first letter. */
  lemma FailureKindsDiffer(attempts: nat, msg: string, other: string)
    ensures FailedMessage(attempts, msg) != UnexpectedHead + other
  {
    assert FailedMessage(attempts, msg)[0] == 'F';
    assert (UnexpectedHead + other)[0] == 'U';
  }
}
