/** SQL generation for a MySQL table (`generate_sql_query` in utilities/sql_agents.py):
  * the schema context, the prompt, the request, and the clean-up of the answer. */
module SqlAgents {
  import opened Wrappers
  import opened Text
  import opened CodeProcessing
  import opened Agents

  // ---------------------------------------------------------------------------
  // Schema context

  /**
   * One entry of `table_schema['columns']`. `default` holds the text of a
   * default value that is truthy, and is `None` when the key is missing or
   * its value is falsy.
   */
  datatype ColumnInfo = ColumnInfo(name: string, typ: string, primaryKey: bool, nullable: bool, default: Option<string>)

  /** `table_schema`: the row count when the key is present, and the columns. */
  datatype TableSchema = TableSchema(rowCount: Option<string>, columns: seq<ColumnInfo>)

  const DatabaseLabel: string := "Database: "
  const TableLabel: string := "Table: "
  const RowCountLabel: string := "Row Count: "
  const UnknownRowCount: string := "Unknown"
  const ColumnsLabel: string := "Columns:"
  const ColumnDash: string := "- "
  const TypeOpen: string := " ("
  const TypeClose: string := ") "
  const PrimaryKeyMark: string := "PRIMARY KEY "
  const NullMark: string := "NULL"
  const NotNullMark: string := "NOT NULL"
  const DefaultMark: string := " DEFAULT "

  /** The lines before the columns: database, table, row count, a blank line, "Columns:". */
  function HeaderLines(database: string, table: string, schema: TableSchema): seq<string>
  {
    [DatabaseLabel + database, TableLabel + table, RowCountLabel + schema.rowCount.GetOr(UnknownRowCount), "", ColumnsLabel]
  }

  /** `"- name (type) "`, the key mark, the nullability, and the default, without the newline. */
  function ColumnText(c: ColumnInfo): string
  {
    ColumnHead(c)
      + (if c.primaryKey then PrimaryKeyMark else "")
      + (if c.nullable then NullMark else NotNullMark)
      + (if c.default.Some? then DefaultMark + c.default.value else "")
  }

  function ColumnTexts(columns: seq<ColumnInfo>): (r: seq<string>)
    ensures |r| == |columns|
    ensures forall i :: 0 <= i < |columns| ==> r[i] == ColumnText(columns[i])
  {
    seq(|columns|, i requires 0 <= i < |columns| => ColumnText(columns[i]))
  }

  /** `schema_context`. */
  function SchemaContext(database: string, table: string, schema: TableSchema): string
  {
    Lines(HeaderLines(database, table, schema) + ColumnTexts(schema.columns))
  }

  lemma {:induction false} LinesOfFive(a: string, b: string, c: string, d: string, e: string)
    ensures Lines([a, b, c, d, e]) == a + "\n" + b + "\n" + c + "\n" + d + "\n" + e + "\n"
  {
    assert [e][1..] == [];
    assert Lines([e]) == e + "\n";
    assert [d, e][1..] == [e];
    assert Lines([d, e]) == d + "\n" + e + "\n";
    assert [c, d, e][1..] == [d, e];
    assert Lines([c, d, e]) == c + "\n" + d + "\n" + e + "\n";
    assert [b, c, d, e][1..] == [c, d, e];
    assert Lines([b, c, d, e]) == b + "\n" + c + "\n" + d + "\n" + e + "\n";
    assert [a, b, c, d, e][1..] == [b, c, d, e];
  }

  lemma ColumnTextsSnoc(columns: seq<ColumnInfo>, i: nat)
    requires i < |columns|
    ensures ColumnTexts(columns[..i + 1]) == ColumnTexts(columns[..i]) + [ColumnText(columns[i])]
  {
  }

  /** The loop that grows `schema_context`, one `+=` at a time. */
  method BuildSchemaContext(database: string, table: string, schema: TableSchema) returns (schemaContext: string)
    ensures schemaContext == SchemaContext(database, table, schema)
  {
    var rowCount := schema.rowCount.GetOr(UnknownRowCount);
    schemaContext := DatabaseLabel + database + "\n" + TableLabel + table + "\n";
    schemaContext := schemaContext + RowCountLabel + rowCount + "\n\n" + ColumnsLabel + "\n";
    ghost var header := HeaderLines(database, table, schema);
    LinesOfFive(DatabaseLabel + database, TableLabel + table, RowCountLabel + rowCount, "", ColumnsLabel);
    assert header + ColumnTexts(schema.columns[..0]) == header;
    var columns := schema.columns;
    for i := 0 to |columns|
      invariant schemaContext == Lines(header + ColumnTexts(columns[..i]))
    {
      var c := columns[i];
      var line := ColumnDash + c.name + TypeOpen + c.typ + TypeClose;
      if c.primaryKey {
        line := line + PrimaryKeyMark;
      }
      line := line + (if c.nullable then NullMark else NotNullMark);
      if c.default.Some? {
        line := line + DefaultMark + c.default.value;
      }
      assert line == ColumnText(c);
      LinesSnoc(header + ColumnTexts(columns[..i]), line);
      ColumnTextsSnoc(columns, i);
      assert header + ColumnTexts(columns[..i + 1]) == header + ColumnTexts(columns[..i]) + [line];
      schemaContext := schemaContext + line + "\n";
    }
    assert columns[..|columns|] == columns;
  }

  /** No name or value of the table holds a line break. */
  predicate SingleLineSchema(database: string, table: string, schema: TableSchema)
  {
    && '\n' !in database && '\n' !in table
    && (schema.rowCount.Some? ==> '\n' !in schema.rowCount.value)
    && forall c :: c in schema.columns ==> SingleLineColumn(c)
  }

  predicate SingleLineColumn(c: ColumnInfo)
  {
    '\n' !in c.name && '\n' !in c.typ && (c.default.Some? ==> '\n' !in c.default.value)
  }

  lemma {:induction false} NoBreakInConcat(x: string, y: string)
    requires '\n' !in x && '\n' !in y
    ensures '\n' !in x + y
  {
  }

  lemma ColumnTextSingleLine(c: ColumnInfo)
    requires SingleLineColumn(c)
    ensures '\n' !in ColumnText(c)
  {
    var head := ColumnHead(c);
    NoBreakInConcat(ColumnDash, c.name);
    NoBreakInConcat(ColumnDash + c.name, TypeOpen);
    NoBreakInConcat(ColumnDash + c.name + TypeOpen, c.typ);
    NoBreakInConcat(ColumnDash + c.name + TypeOpen + c.typ, TypeClose);
    var key := if c.primaryKey then PrimaryKeyMark else "";
    var nullity := if c.nullable then NullMark else NotNullMark;
    var dflt := if c.default.Some? then DefaultMark + c.default.value else "";
    NoBreakInConcat(head, key);
    NoBreakInConcat(head + key, nullity);
    if c.default.Some? {
      NoBreakInConcat(DefaultMark, c.default.value);
    }
    NoBreakInConcat(head + key + nullity, dflt);
  }

  lemma HeaderSingleLine(database: string, table: string, schema: TableSchema)
    requires SingleLineSchema(database, table, schema)
    ensures forall l :: l in HeaderLines(database, table, schema) ==> '\n' !in l
  {
    NoBreakInConcat(DatabaseLabel, database);
    NoBreakInConcat(TableLabel, table);
    NoBreakInConcat(RowCountLabel, schema.rowCount.GetOr(UnknownRowCount));
  }

  /**
   * The context opens with the database, table and row-count lines; a
   * missing row count reads "Unknown". With no line break inside the names,
   * it then has exactly one line per column, in column order.
   */
  lemma SchemaContextLines(database: string, table: string, schema: TableSchema)
    requires SingleLineSchema(database, table, schema)
    ensures var lines := Split(SchemaContext(database, table, schema), '\n');
      && |lines| == |schema.columns| + 6
      && lines[0] == DatabaseLabel + database
      && lines[1] == TableLabel + table
      && lines[2] == RowCountLabel + (if schema.rowCount.Some? then schema.rowCount.value else UnknownRowCount)
      && lines[3] == [] && lines[4] == ColumnsLabel
      && (forall i :: 0 <= i < |schema.columns| ==> lines[i + 5] == ColumnText(schema.columns[i]))
      && lines[|schema.columns| + 5] == []
  {
    var header := HeaderLines(database, table, schema);
    var lines := header + ColumnTexts(schema.columns);
    HeaderSingleLine(database, table, schema);
    forall i | 0 <= i < |lines|
      ensures '\n' !in lines[i]
    {
      if i < 5 {
        assert lines[i] == header[i] && header[i] in header;
      } else {
        var c := schema.columns[i - 5];
        assert c in schema.columns;
        ColumnTextSingleLine(c);
      }
    }
    LinesSplit(lines);
  }

  /** The head of a column line: dash, name and type. */
  function ColumnHead(c: ColumnInfo): string
  {
    ColumnDash + c.name + TypeOpen + c.typ + TypeClose
  }

  lemma {:induction false} FirstCharsDiffer(x: string, y: string, p: string, k: nat)
    requires k < |x| && k < |p| && x[k] != p[k]
    ensures !StartsWith(x + y, p)
  {
    if |p| <= |x + y| {
      assert (x + y)[..|p|][k] == x[k];
    }
  }

  lemma {:induction false} StartsWithLeft(x: string, y: string)
    ensures StartsWith(x + y, x)
  {
    assert (x + y)[..|x|] == x;
  }

  lemma {:induction false} EndsWithRight(x: string, y: string)
    ensures EndsWith(x + y, y)
  {
    assert (x + y)[|x|..] == y;
  }

  /** After the head comes "PRIMARY KEY " exactly for a primary key. */
  lemma ColumnKeyMark(c: ColumnInfo)
    ensures StartsWith(ColumnText(c), ColumnHead(c))
    ensures StartsWith(ColumnText(c)[|ColumnHead(c)|..], PrimaryKeyMark) <==> c.primaryKey
  {
    var key := if c.primaryKey then PrimaryKeyMark else "";
    var nullity := if c.nullable then NullMark else NotNullMark;
    var dflt := if c.default.Some? then DefaultMark + c.default.value else "";
    var line := ColumnText(c);
    assert line == ColumnHead(c) + (key + nullity + dflt);
    StartsWithLeft(ColumnHead(c), key + nullity + dflt);
    assert line[|ColumnHead(c)|..] == key + nullity + dflt;
    if c.primaryKey {
      assert key + nullity + dflt == PrimaryKeyMark + (nullity + dflt);
      StartsWithLeft(PrimaryKeyMark, nullity + dflt);
    } else {
      assert key + nullity + dflt == nullity + dflt;
      FirstCharsDiffer(nullity, dflt, PrimaryKeyMark, 0);
    }
  }

  /** Then "NULL" for a nullable column and "NOT NULL" for any other. */
  lemma ColumnNullability(c: ColumnInfo)
    ensures var rest := ColumnText(c)[|ColumnHead(c)| + (if c.primaryKey then |PrimaryKeyMark| else 0)..];
      && (StartsWith(rest, NotNullMark) <==> !c.nullable)
      && (StartsWith(rest, NullMark) <==> c.nullable)
  {
    var key := if c.primaryKey then PrimaryKeyMark else "";
    var nullity := if c.nullable then NullMark else NotNullMark;
    var dflt := if c.default.Some? then DefaultMark + c.default.value else "";
    var line := ColumnText(c);
    assert line == (ColumnHead(c) + key) + (nullity + dflt);
    assert line[|ColumnHead(c)| + |key|..] == nullity + dflt;
    StartsWithLeft(nullity, dflt);
    if c.nullable {
      FirstCharsDiffer(nullity, dflt, NotNullMark, 1);
    } else {
      FirstCharsDiffer(nullity, dflt, NullMark, 1);
    }
  }

  /** And " DEFAULT d" at the end exactly when a default is given. */
  lemma ColumnDefault(c: ColumnInfo)
    ensures c.default.Some? ==> EndsWith(ColumnText(c), DefaultMark + c.default.value)
    ensures c.default.None? ==> EndsWith(ColumnText(c), if c.nullable then NullMark else NotNullMark)
  {
    var key := if c.primaryKey then PrimaryKeyMark else "";
    var nullity := if c.nullable then NullMark else NotNullMark;
    var front := ColumnHead(c) + key;
    if c.default.Some? {
      var tail := DefaultMark + c.default.value;
      assert ColumnText(c) == (front + nullity) + tail;
      EndsWithRight(front + nullity, tail);
    } else {
      assert ColumnText(c) == front + nullity;
      EndsWithRight(front, nullity);
    }
  }

  // ---------------------------------------------------------------------------
  // Prompt and request

  /** The instructions, a line at a time; the text opens and closes with a line break. */
  const SqlInstructionLines: seq<string> := [
    "",
    "Generate a MySQL SQL query to answer the " + "given question. Follow these rules:",
    "",
    "1. Use only SELECT statements (no " + "INSERT, UPDATE, DELETE, etc.)",
    "2. Use proper MySQL syntax",
    "3. Include LIMIT clause (max 100 rows " + "unless specifically asked for more)",
    "4. Use backticks around table/column " + "names if they contain special " + "characters or spaces",
    "5. Handle NULL values appropriately",
    "6. Use proper aggregation functions " + "when needed (COUNT, SUM, AVG, etc.)",
    "7. Use proper WHERE clauses for filtering",
    "8. Use ORDER BY when showing top/bottom " + "results",
    "9. Return only the SQL query, no " + "explanations or comments",
    "10. Do not include ```sql``` markdown " + "formatting",
    "",
    "Example formats:",
    "- For counting: SELECT COUNT(*) FROM " + "`table_name` WHERE condition;",
    "- For listing: SELECT column1, column2 " + "FROM `table_name` WHERE condition " + "LIMIT 10;",
    "- For aggregation: SELECT column, " + "COUNT(*) FROM `table_name` GROUP BY " + "column ORDER BY COUNT(*) DESC LIMIT 10;",
    ""
  ]

  const SqlInstructions: string := Join(SqlInstructionLines, "\n")

  const SchemaIntro: string := "\nGiven this MySQL table schema:\n"
  const QuestionIntro: string := "\n\nGenerate a SQL query to answer this question: "
  const Gap: string := "\n\n"
  const AnswerCue: string := "\n\nSQL Query:"

  /** `user_prompt`. */
  function SqlPrompt(question: string, schemaContext: string): string
  {
    SchemaIntro + schemaContext + QuestionIntro + question + Gap + SqlInstructions + AnswerCue
  }

  lemma {:induction false} SevenParts(a: string, b: string, c: string, d: string, e: string, f: string, g: string)
    ensures var p := a + b + c + d + e + f + g;
      && Contains(p, b) && Contains(p, d) && Contains(p, f)
      && StartsWith(p, a + b) && EndsWith(p, g)
  {
    var p := a + b + c + d + e + f + g;
    ContainsEnd(a, b);
    assert p == (a + b) + (c + d + e + f + g);
    ContainsExtend(a + b, b, c + d + e + f + g);
    StartsWithLeft(a + b, c + d + e + f + g);
    ContainsEnd(a + b + c, d);
    assert p == (a + b + c + d) + (e + f + g);
    ContainsExtend(a + b + c + d, d, e + f + g);
    ContainsEnd(a + b + c + d + e, f);
    ContainsExtend(a + b + c + d + e + f, f, g);
    EndsWithRight(a + b + c + d + e + f, g);
  }

  /** The prompt carries the schema context, the question and the instructions, and ends asking for the query. */
  lemma SqlPromptEmbeds(question: string, schemaContext: string)
    ensures Contains(SqlPrompt(question, schemaContext), schemaContext)
    ensures Contains(SqlPrompt(question, schemaContext), question)
    ensures Contains(SqlPrompt(question, schemaContext), SqlInstructions)
    ensures StartsWith(SqlPrompt(question, schemaContext), SchemaIntro + schemaContext)
    ensures EndsWith(SqlPrompt(question, schemaContext), AnswerCue)
  {
    SevenParts(SchemaIntro, schemaContext, QuestionIntro, question, Gap, SqlInstructions, AnswerCue);
  }

  const SqlTokenLimit: nat := 2000
  const SqlReasoningEffort: string := "medium"

  /**
   * `completion_args`: the main model with a budget of 2000 tokens; an "o"
   * model gets `max_completion_tokens` and a "medium" reasoning effort, any
   * other `max_tokens` and the temperature.
   */
  function SqlRequest(question: string, database: string, table: string, schema: TableSchema,
                      temperature: real, mainModel: string): (r: CompletionArgs)
    ensures r.model == mainModel && r.maxTokens == SqlTokenLimit
    ensures r.prompt == SqlPrompt(question, SchemaContext(database, table, schema))
    ensures IsOModel(mainModel) <==> r.tokenParam == "max_completion_tokens"
    ensures IsOModel(mainModel) <==> r.setting == ReasoningEffort(SqlReasoningEffort)
    ensures !IsOModel(mainModel) <==> r.tokenParam == "max_tokens"
    ensures !IsOModel(mainModel) <==> r.setting == Temperature(temperature)
  {
    ShapeArgs(mainModel, SqlPrompt(question, SchemaContext(database, table, schema)), temperature,
              SqlReasoningEffort, SqlTokenLimit)
  }

  // ---------------------------------------------------------------------------
  // Clean-up of the answer

  const SqlFence: string := "```sql"

  /** Dropping every fence in one left-to-right pass leaves none: each run of backticks shrinks below three. */
  lemma {:induction false} RemovedFencesLeaveNone(s: string)
    ensures !Contains(ReplaceAll(s, Fence, ""), Fence)
    ensures !StartsWith(s, "`") ==> !StartsWith(ReplaceAll(s, Fence, ""), "`")
    ensures !StartsWith(s, "``") ==> !StartsWith(ReplaceAll(s, Fence, ""), "``")
    decreases |s|
  {
    if s != [] {
      if StartsWith(s, Fence) {
        RemovedFencesLeaveNone(s[|Fence|..]);
        assert ReplaceAll(s, Fence, "") == "" + ReplaceAll(s[|Fence|..], Fence, "");
        assert "" + ReplaceAll(s[|Fence|..], Fence, "") == ReplaceAll(s[|Fence|..], Fence, "");
        assert s[..1] == "`" && s[..2] == "``";
      } else {
        RemovedFencesLeaveNone(s[1..]);
        assert ReplaceAll(s, Fence, "") == [s[0]] + ReplaceAll(s[1..], Fence, "");
        PrependKeepsNoFence(s, ReplaceAll(s[1..], Fence, ""));
      }
    }
  }

  /** Putting back a first character that does not open a fence creates no fence. */
  lemma PrependKeepsNoFence(s: string, x: string)
    requires s != [] && !StartsWith(s, Fence)
    requires !Contains(x, Fence)
    requires !StartsWith(s[1..], "`") ==> !StartsWith(x, "`")
    requires !StartsWith(s[1..], "``") ==> !StartsWith(x, "``")
    ensures !Contains([s[0]] + x, Fence)
    ensures !StartsWith(s, "`") ==> !StartsWith([s[0]] + x, "`")
    ensures !StartsWith(s, "``") ==> !StartsWith([s[0]] + x, "``")
  {
    var r := [s[0]] + x;
    FenceAtChars(s, 0);
    TickPrefixChars(s);
    TickPrefixChars(s[1..]);
    TickPrefixChars(x);
    TickPrefixChars(r);
    forall i: nat | i <= |r|
      ensures !OccursAt(r, Fence, i)
    {
      FenceAtChars(r, i);
      if i > 0 {
        FenceAtChars(x, i - 1);
      }
    }
  }

  /** A fence at `i`, character by character. */
  lemma FenceAtChars(s: string, i: nat)
    ensures OccursAt(s, Fence, i) <==> i + 3 <= |s| && s[i] == '`' && s[i + 1] == '`' && s[i + 2] == '`'
  {
    if i + 3 <= |s| && s[i] == '`' && s[i + 1] == '`' && s[i + 2] == '`' {
      assert s[i..i + 3] == Fence;
    }
  }

  /** One or two leading backticks, character by character. */
  lemma TickPrefixChars(s: string)
    ensures StartsWith(s, "`") <==> |s| >= 1 && s[0] == '`'
    ensures StartsWith(s, "``") <==> |s| >= 2 && s[0] == '`' && s[1] == '`'
  {
    if |s| >= 1 && s[0] == '`' {
      assert s[..1] == "`";
    }
    if |s| >= 2 && s[0] == '`' && s[1] == '`' {
      assert s[..2] == "``";
    }
  }


  /** The stripping and fence removal steps. */
  function Unfenced(response: string): string
  {
    var q := Strip(response);
    if StartsWith(q, SqlFence) then Strip(ReplaceAll(ReplaceAll(q, SqlFence, ""), Fence, ""))
    else if StartsWith(q, Fence) then Strip(ReplaceAll(q, Fence, ""))
    else q
  }

  lemma StrippedWithoutFences(s: string)
    ensures IsStripped(Strip(ReplaceAll(s, Fence, "")))
    ensures !Contains(Strip(ReplaceAll(s, Fence, "")), Fence)
  {
    RemovedFencesLeaveNone(s);
    StripIsStripped(ReplaceAll(s, Fence, ""));
    StripKeepsAbsence(ReplaceAll(s, Fence, ""), Fence);
  }

  /**
   * The result is stripped; when the stripped answer opens with a fence no
   * fence is left, and otherwise the stripped answer is kept as it is.
   */
  lemma UnfencedShape(response: string)
    ensures IsStripped(Unfenced(response))
    ensures StartsWith(Strip(response), Fence) ==> !Contains(Unfenced(response), Fence)
    ensures !StartsWith(Strip(response), Fence) ==> Unfenced(response) == Strip(response)
  {
    if StartsWith(Strip(response), SqlFence) {
      UnfencedSqlCase(response);
    } else if StartsWith(Strip(response), Fence) {
      UnfencedFenceCase(response);
    } else {
      StripIsStripped(response);
    }
  }

  lemma UnfencedSqlCase(response: string)
    requires StartsWith(Strip(response), SqlFence)
    ensures StartsWith(Strip(response), Fence)
    ensures IsStripped(Unfenced(response)) && !Contains(Unfenced(response), Fence)
  {
    SqlFenceOpensFence(Strip(response));
    StrippedWithoutFences(ReplaceAll(Strip(response), SqlFence, ""));
  }

  lemma SqlFenceOpensFence(q: string)
    requires StartsWith(q, SqlFence)
    ensures StartsWith(q, Fence)
  {
    assert q[..|SqlFence|][..3] == q[..3];
  }

  lemma UnfencedFenceCase(response: string)
    requires !StartsWith(Strip(response), SqlFence) && StartsWith(Strip(response), Fence)
    ensures IsStripped(Unfenced(response)) && !Contains(Unfenced(response), Fence)
  {
    StrippedWithoutFences(Strip(response));
  }

  /** The `;` is appended only when missing, so the query always ends with one. */
  function Terminated(query: string): (r: string)
    ensures EndsWith(r, ";") && StartsWith(r, query)
    ensures |r| == |query| <==> EndsWith(query, ";")
    ensures |r| <= |query| + 1
  {
    if EndsWith(query, ";") then query else query + ";"
  }

  /** The answer after the clean-up steps. */
  function CleanSql(response: string): (r: string)
    ensures EndsWith(r, ";")
  {
    Terminated(Unfenced(response))
  }

  /** The clean-up steps, `sql_query` reassigned at each one. */
  method CleanSqlQuery(response: string) returns (sqlQuery: string)
    ensures sqlQuery == CleanSql(response)
  {
    sqlQuery := Strip(response);
    if StartsWith(sqlQuery, SqlFence) {
      sqlQuery := Strip(ReplaceAll(ReplaceAll(sqlQuery, SqlFence, ""), Fence, ""));
    } else if StartsWith(sqlQuery, Fence) {
      sqlQuery := Strip(ReplaceAll(sqlQuery, Fence, ""));
    }
    if !EndsWith(sqlQuery, ";") {
      sqlQuery := sqlQuery + ";";
    }
  }

  lemma NoFenceWithSemicolon(q: string)
    requires !Contains(q, Fence)
    ensures !Contains(q + ";", Fence)
  {
    var s := q + ";";
    forall i: nat | i <= |s|
      ensures !OccursAt(s, Fence, i)
    {
      if i + 3 <= |s| {
        if i + 3 <= |q| {
          assert s[i..i + 3] == q[i..i + 3];
          assert !OccursAt(q, Fence, i);
        } else {
          assert s[i + 2] == ';';
        }
      }
    }
  }

  lemma StrippedWithSemicolon(q: string)
    requires IsStripped(q)
    ensures IsStripped(q + ";")
  {
    var s := q + ";";
    if q == [] {
      assert s == ";";
    } else {
      assert s[0] == q[0] && s[|s| - 1] == ';';
    }
  }

  /** A cleaned query is stripped and does not open with a fence. */
  lemma CleanSqlShape(response: string)
    ensures IsStripped(CleanSql(response)) && !StartsWith(CleanSql(response), Fence)
  {
    UnfencedShape(response);
    if StartsWith(Strip(response), Fence) {
      TerminatedWithoutFence(Unfenced(response));
    } else {
      TerminatedWithoutOpening(Unfenced(response));
    }
  }

  lemma TerminatedWithoutFence(q: string)
    requires IsStripped(q) && !Contains(q, Fence)
    ensures IsStripped(Terminated(q)) && !StartsWith(Terminated(q), Fence)
  {
    var r := Terminated(q);
    StrippedWithSemicolon(q);
    if !EndsWith(q, ";") {
      NoFenceWithSemicolon(q);
    }
    if |r| >= 3 {
      assert !OccursAt(r, Fence, 0);
      assert r[0..3] == r[..3];
    }
  }

  lemma TerminatedWithoutOpening(q: string)
    requires IsStripped(q) && !StartsWith(q, Fence)
    ensures IsStripped(Terminated(q)) && !StartsWith(Terminated(q), Fence)
  {
    var r := Terminated(q);
    StrippedWithSemicolon(q);
    if !EndsWith(q, ";") {
      if |q| >= 3 {
        assert r[..3] == q[..3];
      } else {
        assert r[|q|] == ';';
      }
    }
  }


  /** Cleaning a cleaned query changes nothing. */
  lemma CleanSqlIdempotent(response: string)
    ensures CleanSql(CleanSql(response)) == CleanSql(response)
  {
    var r := CleanSql(response);
    CleanSqlShape(response);
    StrippedFixpoint(r);
    UnfencedShape(r);
  }

  // ---------------------------------------------------------------------------
  // generate_sql_query

  /** The query any exception falls back to. */
  function Fallback(table: string): string
  {
    "SELECT * FROM `" + table + "` LIMIT 10;"
  }

  /**
   * `generate_sql_query`: the cleaned completion text, or the fallback query
   * when the completion raises. `complete` stands for the model call followed
   * by taking the text after the last think tag.
   */
  function SqlQuery(question: string, database: string, table: string, schema: TableSchema,
                    temperature: real, mainModel: string, complete: CompletionArgs -> Outcome): (r: string)
    ensures EndsWith(r, ";")
    ensures complete(SqlRequest(question, database, table, schema, temperature, mainModel)).Raised? ==>
      r == Fallback(table)
  {
    match complete(SqlRequest(question, database, table, schema, temperature, mainModel))
    case Raised(_) =>
      var f := Fallback(table);
      assert f == ("SELECT * FROM `" + table + "` LIMIT 10") + ";";
      f
    case Returned(text) => CleanSql(text)
  }

  /** The steps of `generate_sql_query`. */
  method GenerateSqlQuery(question: string, database: string, table: string, schema: TableSchema,
                          temperature: real, mainModel: string, complete: CompletionArgs -> Outcome)
    returns (sqlQuery: string)
    ensures sqlQuery == SqlQuery(question, database, table, schema, temperature, mainModel, complete)
  {
    var schemaContext := BuildSchemaContext(database, table, schema);
    var userPrompt := SqlPrompt(question, schemaContext);
    var args := ShapeArgs(mainModel, userPrompt, temperature, SqlReasoningEffort, SqlTokenLimit);
    assert args == SqlRequest(question, database, table, schema, temperature, mainModel);
    var outcome := complete(args);
    match outcome
    case Raised(_) =>
      sqlQuery := Fallback(table);
    case Returned(text) =>
      sqlQuery := CleanSqlQuery(text);
  }
}
