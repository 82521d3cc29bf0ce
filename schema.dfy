/** The dataset listing and the schema summary handed to the language model
  * (`get_available_datasets` and `generate_schema_for_dataset` in app.py). */
module Schema {
  import opened Wrappers
  import opened Text
  import opened CodeProcessing

  /** The folder the web application reads datasets from. */
  const DatasetsFolder: string := "datasets"

  // ---------------------------------------------------------------------------
  // Listing the datasets

  /** The extensions a dataset file may have, in probing order. */
  const SupportedExtensions: seq<string> := [".parquet", ".csv", ".json", ".xlsx"]

  lemma SupportedExtensionsAreFormats()
    ensures forall i :: 0 <= i < |SupportedFormats| ==> SupportedExtensions[i] == SupportedFormats[i].Ext()
  {
  }

  /** `os.path.splitext`: the root and the extension, which starts at the last '.' of the
    * last path component that has a character other than '.' before it. */
  function SplitExt(p: string): (r: (string, string))
    ensures r.0 + r.1 == p
    ensures r.1 == [] || r.1[0] == '.'
  {
    match ExtensionDot(p)
    case None => (p, [])
    case Some(d) =>
      assert p[..d] + p[d..] == p;
      (p[..d], p[d..])
  }

  /** The dataset a listed file stands for: its root, when its lower-cased extension is a
    * supported one. */
  function ListedDataset(file: string): (r: Option<string>)
    ensures r.Some? <==> Lower(SplitExt(file).1) in SupportedExtensions
    ensures r.Some? ==> r.value == SplitExt(file).0
    ensures r.Some? ==> StartsWith(file, r.value) && Lower(file[|r.value|..]) in SupportedExtensions
  {
    var (root, ext) := SplitExt(file);
    if Lower(ext) in SupportedExtensions then Some(root) else None
  }

  /** The datasets of the listed files, in listing order, repeats included. */
  function ListedDatasets(files: seq<string>): (r: seq<string>)
    ensures forall n :: n in r <==> exists i :: 0 <= i < |files| && ListedDataset(files[i]) == Some(n)
  {
    if files == [] then []
    else
      var init := files[..|files| - 1];
      var rest := ListedDatasets(init);
      assert forall i :: 0 <= i < |init| ==> init[i] == files[i];
      match ListedDataset(files[|files| - 1])
      case Some(n) => rest + [n]
      case None => rest
  }

  /** `get_available_datasets`: `listing` is the folder's listing, or `None` when the folder
    * does not exist. The result is sorted, has no duplicates, and holds exactly the
    * datasets of the listed files. */
  method GetAvailableDatasets(listing: Option<seq<string>>) returns (names: seq<string>)
    ensures StrictlySorted(names)
    ensures forall n :: n in names <==>
      listing.Some? && exists i :: 0 <= i < |listing.value| && ListedDataset(listing.value[i]) == Some(n)
  {
    var datasets: seq<string> := [];
    if listing.Some? {
      var files := listing.value;
      for i := 0 to |files|
        invariant datasets == ListedDatasets(files[..i])
      {
        assert files[..i + 1][..i] == files[..i];
        var listed := ListedDataset(files[i]);
        if listed.Some? {
          datasets := datasets + [listed.value];
        }
      }
      assert files[..|files|] == files;
    }
    names := SortedSet(datasets);
  }

  lemma LowerOfExtension(f: Format)
    ensures Lower(f.Ext()) == f.Ext()
  {
    var e := f.Ext();
    assert forall i :: 0 <= i < |e| ==> !IsAsciiUpper(e[i]);
  }

  lemma ExtensionSupported(f: Format)
    ensures f.Ext() in SupportedExtensions
  {
    match f
    case Parquet => assert SupportedExtensions[0] == f.Ext();
    case Csv => assert SupportedExtensions[1] == f.Ext();
    case Json => assert SupportedExtensions[2] == f.Ext();
    case Excel => assert SupportedExtensions[3] == f.Ext();
  }

  /** A file named by a dataset and a supported extension is listed under that dataset. */
  lemma ListedDatasetOfName(name: string, f: Format)
    requires '/' !in name && exists k :: 0 <= k < |name| && name[k] != '.'
    ensures ListedDataset(name + f.Ext()) == Some(name)
  {
    var x := f.Ext()[1..];
    assert f.Ext() == "." + x;
    assert '.' !in x && '/' !in x;
    assert name + f.Ext() == name + "." + x;
    StemOfName(name, x);
    LowerOfExtension(f);
    assert SplitExt(name + f.Ext()).1 == f.Ext();
    ExtensionSupported(f);
  }

  // ---------------------------------------------------------------------------
  // Column values

  /** A column as the summary sees it: its name, its dtype label and its values as
    * strings, `None` for a missing value. */
  datatype Column = Column(name: string, dtype: string, values: seq<Option<string>>)

  /** The outcome of reading a dataset file: its columns, or the message of the exception
    * the reader raised. */
  datatype Loaded = Loaded(columns: seq<Column>) | LoadFailed(message: string)

  /** `dropna()`: the values that are present, in order. */
  function Present(values: seq<Option<string>>): (r: seq<string>)
    ensures |r| <= |values|
    ensures forall s :: s in r <==> Some(s) in values
  {
    if values == [] then []
    else
      var rest := Present(values[1..]);
      assert forall s :: Some(s) in values <==> Some(s) == values[0] || Some(s) in values[1..] by {
        assert values == [values[0]] + values[1..];
      }
      match values[0]
      case Some(v) => [v] + rest
      case None => rest
  }

  predicate NoDuplicates(s: seq<string>) {
    forall i, j :: 0 <= i < j < |s| ==> s[i] != s[j]
  }

  /** Where `y` first occurs in `s`. */
  function FirstIndex(s: seq<string>, y: string): (r: nat)
    requires y in s
    ensures r < |s| && s[r] == y && y !in s[..r]
  {
    if s[0] == y then 0 else 1 + FirstIndex(s[1..], y)
  }

  lemma {:induction false} FirstIndexUnique(s: seq<string>, y: string, r: nat)
    requires r < |s| && s[r] == y && y !in s[..r]
    ensures FirstIndex(s, y) == r
    decreases r
  {
    if r > 0 {
      assert s[0] == s[..r][0];
      assert s[1..][..r - 1] == s[..r][1..];
      FirstIndexUnique(s[1..], y, r - 1);
    }
  }

  lemma FirstIndexSnoc(s: seq<string>, z: string, y: string)
    requires y in s + [z]
    ensures y in s ==> FirstIndex(s + [z], y) == FirstIndex(s, y)
    ensures y !in s ==> FirstIndex(s + [z], y) == |s|
  {
    if y in s {
      var j := FirstIndex(s, y);
      assert (s + [z])[..j] == s[..j];
      FirstIndexUnique(s + [z], y, j);
    } else {
      assert (s + [z])[..|s|] == s;
      FirstIndexUnique(s + [z], y, |s|);
    }
  }

  /** `unique()`: each value once, in order of first occurrence. */
  function Distinct(s: seq<string>): (r: seq<string>)
    ensures NoDuplicates(r)
    ensures forall y :: y in r <==> y in s
    ensures forall i, j :: 0 <= i < j < |r| ==> FirstIndex(s, r[i]) < FirstIndex(s, r[j])
    decreases |s|
  {
    if s == [] then []
    else
      var init, z := s[..|s| - 1], s[|s| - 1];
      assert s == init + [z];
      var d := Distinct(init);
      forall y | y in d ensures FirstIndex(s, y) == FirstIndex(init, y) {
        FirstIndexSnoc(init, z, y);
      }
      if z in d then d
      else
        FirstIndexSnoc(init, z, z);
        d + [z]
  }

  /** The distinct non-null values of a column, as strings. */
  function Unique(values: seq<Option<string>>): seq<string> { Distinct(Present(values)) }

  lemma {:induction false} NoDuplicatesCount(s: seq<string>)
    requires NoDuplicates(s)
    ensures |set y | y in s| == |s|
    decreases |s|
  {
    if s != [] {
      var init := s[..|s| - 1];
      NoDuplicatesCount(init);
      assert s == init + [s[|s| - 1]];
      assert (set y | y in s) == (set y | y in init) + {s[|s| - 1]};
      assert s[|s| - 1] !in init;
    }
  }

  /** The unique count of a column is the number of different values present in it, not
    * only of those shown. */
  lemma UniqueCount(values: seq<Option<string>>)
    ensures |Unique(values)| == |set o | o in values && o.Some? :: o.value|
  {
    var u := Unique(values);
    NoDuplicatesCount(u);
    assert (set y | y in u) == (set o | o in values && o.Some? :: o.value) by {
      forall s ensures s in u <==> Some(s) in values { }
    }
  }

  // ---------------------------------------------------------------------------
  // Example values

  /** At most five values are considered. */
  const MaxExamples: nat := 5
  /** Values are added while the running total of their lengths is at most this. */
  const ExampleBudget: nat := 50
  /** Longer values are cut to `TruncatedLength` characters and "...". */
  const MaxValueLength: nat := 100
  const TruncatedLength: nat := 97

  /** `unique_values[:5]`. */
  function Limited(u: seq<string>): (r: seq<string>)
    ensures |r| <= MaxExamples && |r| <= |u| && r == u[..|r|]
    ensures |r| == MaxExamples || r == u
  {
    if |u| <= MaxExamples then u else u[..MaxExamples]
  }

  /** A value as shown: itself, or its first 97 characters and "..." when it is longer than
    * 100 characters. */
  function Truncate(v: string): (r: string)
    ensures |r| <= MaxValueLength
    ensures r == v <==> |v| <= MaxValueLength
    ensures r != v ==> r == v[..TruncatedLength] + "..."
  {
    if |v| > MaxValueLength then v[..TruncatedLength] + "..." else v
  }

  function TotalLength(s: seq<string>): nat {
    if s == [] then 0 else |s[0]| + TotalLength(s[1..])
  }

  /** The example values chosen from `vals` when `total` characters are already taken. */
  function ExamplesFrom(vals: seq<string>, total: nat): seq<string>
    decreases |vals|
  {
    if vals == [] || total > ExampleBudget then []
    else
      var v := Truncate(vals[0]);
      [v] + ExamplesFrom(vals[1..], total + |v|)
  }

  /** The example values shown for a column's first distinct values. */
  function Examples(limited: seq<string>): seq<string> { ExamplesFrom(limited, 0) }

  /** The loop that picks a column's example values. */
  method SelectExamples(limited: seq<string>) returns (processed: seq<string>)
    ensures processed == Examples(limited)
  {
    processed := [];
    var total: nat := 0;
    var i := 0;
    while i < |limited|
      invariant 0 <= i <= |limited|
      invariant processed + ExamplesFrom(limited[i..], total) == Examples(limited)
    {
      if total > ExampleBudget {
        break;
      }
      var value := limited[i];
      if |value| > MaxValueLength {
        value := value[..TruncatedLength] + "...";
      }
      assert limited[i..][1..] == limited[i + 1..];
      processed := processed + [value];
      total := total + |value|;
      i := i + 1;
    }
    assert ExamplesFrom(limited[i..], total) == [];
  }

  /** The examples are the truncated values of a prefix; each was added while the running
    * total was within the budget, and the selection stops early only once the total is
    * past it. */
  lemma ExamplesFromFacts(vals: seq<string>, total: nat)
    ensures var r := ExamplesFrom(vals, total);
      |r| <= |vals|
      && (forall i :: 0 <= i < |r| ==> r[i] == Truncate(vals[i]))
      && (forall k :: 0 <= k < |r| ==> total + TotalLength(r[..k]) <= ExampleBudget)
      && (|r| < |vals| ==> total + TotalLength(r) > ExampleBudget)
  {
    ExamplesFromTruncated(vals, total);
    ExamplesFromWithinBudget(vals, total);
    ExamplesFromStopsPastBudget(vals, total);
  }

  lemma {:induction false} ExamplesFromTruncated(vals: seq<string>, total: nat)
    ensures var r := ExamplesFrom(vals, total);
      |r| <= |vals| && forall i :: 0 <= i < |r| ==> r[i] == Truncate(vals[i])
    decreases |vals|
  {
    if vals != [] && total <= ExampleBudget {
      var v := Truncate(vals[0]);
      ExamplesFromTruncated(vals[1..], total + |v|);
    }
  }

  lemma {:induction false} ExamplesFromWithinBudget(vals: seq<string>, total: nat)
    ensures var r := ExamplesFrom(vals, total);
      forall k :: 0 <= k < |r| ==> total + TotalLength(r[..k]) <= ExampleBudget
    decreases |vals|
  {
    var r := ExamplesFrom(vals, total);
    if vals != [] && total <= ExampleBudget {
      var v := Truncate(vals[0]);
      var rest := ExamplesFrom(vals[1..], total + |v|);
      ExamplesFromWithinBudget(vals[1..], total + |v|);
      assert forall j :: 0 <= j < |rest| ==> total + |v| + TotalLength(rest[..j]) <= ExampleBudget by {
        assert var r' := ExamplesFrom(vals[1..], total + |v|);
          forall k :: 0 <= k < |r'| ==> total + |v| + TotalLength(r'[..k]) <= ExampleBudget;
      }
      assert r == [v] + rest;
      forall k | 0 <= k < |r| ensures total + TotalLength(r[..k]) <= ExampleBudget {
        if k > 0 {
          var x := r[..k];
          assert x == [v] + rest[..k - 1];
          assert x[1..] == rest[..k - 1];
          assert TotalLength(x) == |v| + TotalLength(rest[..k - 1]);
          assert k - 1 < |rest|;
        } else {
          assert r[..k] == [];
        }
      }
    }
  }

  lemma {:induction false} ExamplesFromStopsPastBudget(vals: seq<string>, total: nat)
    ensures var r := ExamplesFrom(vals, total);
      |r| < |vals| ==> total + TotalLength(r) > ExampleBudget
    decreases |vals|
  {
    var r := ExamplesFrom(vals, total);
    if vals != [] && total <= ExampleBudget {
      var v := Truncate(vals[0]);
      var rest := ExamplesFrom(vals[1..], total + |v|);
      ExamplesFromTruncated(vals[1..], total + |v|);
      ExamplesFromStopsPastBudget(vals[1..], total + |v|);
      assert r == [v] + rest;
      assert r[1..] == rest;
    }
  }

  lemma {:induction false} TotalLengthSnoc(s: seq<string>, x: string)
    ensures TotalLength(s + [x]) == TotalLength(s) + |x|
    decreases |s|
  {
    if s != [] {
      assert (s + [x])[1..] == s[1..] + [x];
      TotalLengthSnoc(s[1..], x);
    }
  }

  /** At most five examples, each the truncated value at its position; the examples add up
    * to at most 150 characters; fewer than the candidates only once the budget is spent. */
  lemma ExamplesBounds(u: seq<string>)
    ensures var r := Examples(Limited(u));
      |r| <= MaxExamples && |r| <= |u|
      && (forall i :: 0 <= i < |r| ==> r[i] == Truncate(u[i]) && |r[i]| <= MaxValueLength)
      && TotalLength(r) <= ExampleBudget + MaxValueLength
      && (|r| < |Limited(u)| ==> TotalLength(r) > ExampleBudget)
  {
    var l := Limited(u);
    var r := ExamplesFrom(l, 0);
    ExamplesFromFacts(l, 0);
    assert forall i :: 0 <= i < |r| ==> l[i] == u[i];
    if r != [] {
      var n := |r| - 1;
      assert r == r[..n] + [r[n]];
      TotalLengthSnoc(r[..n], r[n]);
      assert TotalLength(r[..n]) <= ExampleBudget;
      assert |r[n]| <= MaxValueLength;
    }
  }

  // ---------------------------------------------------------------------------
  // The summary text

  function Intro(dataset: string): string {
    "Here are the columns for the " + dataset + " dataset:\n"
  }

  function Line(name: string, dtype: string, examples: string, uniqueCount: nat): string {
    "Column Name: " + name + ", Data type -- " + dtype + ", -- Example values: " + examples
      + ", Total unique elements: " + NatToString(uniqueCount)
  }

  /** The summary line of one column. */
  function ColumnLine(c: Column): string {
    var u := Unique(c.values);
    Line(c.name, c.dtype, Join(Examples(Limited(u)), ", "), |u|)
  }

  function ColumnLines(cols: seq<Column>): (r: seq<string>)
    ensures |r| == |cols| && forall i :: 0 <= i < |cols| ==> r[i] == ColumnLine(cols[i])
  {
    seq(|cols|, i requires 0 <= i < |cols| => ColumnLine(cols[i]))
  }

  function SummaryText(dataset: string, cols: seq<Column>): string {
    Intro(dataset) + Join(ColumnLines(cols), "\n")
  }

  const ErrorPrefix: string := "Error generating schema for "

  /** The text returned for an exception raised while summarising. */
  function ErrorText(dataset: string, message: string): string {
    ErrorPrefix + dataset + ": " + message
  }

  function NotFoundMessage(dataset: string): string { "No dataset file found for " + dataset }

  /** Where the summariser looks for a dataset's file: the f-string, not a path join. */
  function SchemaPath(dataset: string, i: nat): string
    requires i < |SupportedFormats|
  {
    DatasetsFolder + "/" + dataset + SupportedFormats[i].Ext()
  }

  function SchemaFileFrom(dataset: string, existing: set<string>, i: nat): (r: Option<string>)
    requires i <= |SupportedFormats|
    ensures r.Some? ==> exists k :: (i <= k < |SupportedFormats| && r.value == SchemaPath(dataset, k)
      && r.value in existing && forall j :: i <= j < k ==> SchemaPath(dataset, j) !in existing)
    ensures r.None? ==> forall j :: i <= j < |SupportedFormats| ==> SchemaPath(dataset, j) !in existing
    decreases |SupportedFormats| - i
  {
    if i == |SupportedFormats| then None
    else if SchemaPath(dataset, i) in existing then Some(SchemaPath(dataset, i))
    else SchemaFileFrom(dataset, existing, i + 1)
  }

  /** The first of `datasets/<name>.parquet`, `.csv`, `.json`, `.xlsx` that exists. */
  function SchemaFile(dataset: string, existing: set<string>): Option<string> {
    SchemaFileFrom(dataset, existing, 0)
  }

  /** `generate_schema_for_dataset`, with the file system as `existing` and the dataset
    * reader as `read`. */
  function Schema(dataset: string, existing: set<string>, read: string -> Loaded): string {
    match SchemaFile(dataset, existing)
    case None => ErrorText(dataset, NotFoundMessage(dataset))
    case Some(file) =>
      match read(file)
      case LoadFailed(message) => ErrorText(dataset, message)
      case Loaded(cols) => SummaryText(dataset, cols)
  }

  /** The probing loop of `generate_schema_for_dataset`. */
  method FindSchemaFile(dataset: string, existing: set<string>) returns (file: Option<string>)
    ensures file == SchemaFile(dataset, existing)
  {
    for i := 0 to |SupportedFormats|
      invariant SchemaFile(dataset, existing) == SchemaFileFrom(dataset, existing, i)
    {
      var potential := DatasetsFolder + "/" + dataset + SupportedFormats[i].Ext();
      if potential in existing {
        return Some(potential);
      }
    }
    return None;
  }

  /** The body of the column loop: the summary line of one column. */
  method DescribeColumn(c: Column) returns (line: string)
    ensures line == ColumnLine(c)
  {
    var unique := Unique(c.values);
    var examples := SelectExamples(Limited(unique));
    line := Line(c.name, c.dtype, Join(examples, ", "), |unique|);
  }

  /** The column loop of `generate_schema_for_dataset`: the intro, then one line per column. */
  method SummarizeColumns(dataset: string, cols: seq<Column>) returns (text: string)
    ensures text == SummaryText(dataset, cols)
  {
    var lines: seq<string> := [];
    for i := 0 to |cols|
      invariant lines == ColumnLines(cols)[..i]
    {
      var line := DescribeColumn(cols[i]);
      TakeNext(ColumnLines(cols), i);
      lines := lines + [line];
    }
    TakeAll(ColumnLines(cols));
    text := Intro(dataset) + Join(lines, "\n");
  }

  /** `generate_schema_for_dataset` step by step: find the file, read it, then summarise
    * its columns; any failure becomes the error text. */
  method GenerateSchema(dataset: string, existing: set<string>, read: string -> Loaded) returns (schema: string)
    ensures schema == Schema(dataset, existing, read)
  {
    var file := FindSchemaFile(dataset, existing);
    if file.None? {
      return ErrorText(dataset, NotFoundMessage(dataset));
    }
    var loaded := read(file.value);
    if loaded.LoadFailed? {
      return ErrorText(dataset, loaded.message);
    }
    schema := SummarizeColumns(dataset, loaded.columns);
  }

  // ---------------------------------------------------------------------------
  // Properties of the summary

  predicate NoNewline(s: string) { '\n' !in s }

  /** A column whose name, dtype label and values hold no newline. */
  predicate SingleLineColumn(c: Column) {
    NoNewline(c.name) && NoNewline(c.dtype)
    && forall i :: 0 <= i < |c.values| && c.values[i].Some? ==> NoNewline(c.values[i].value)
  }

  lemma {:induction false} ExamplesNoNewline(vals: seq<string>, total: nat)
    requires forall s :: s in vals ==> NoNewline(s)
    ensures forall i :: 0 <= i < |ExamplesFrom(vals, total)| ==> NoNewline(ExamplesFrom(vals, total)[i])
    decreases |vals|
  {
    if vals != [] && total <= ExampleBudget {
      var v := Truncate(vals[0]);
      assert vals[0] in vals;
      assert NoNewline(v) by {
        if v != vals[0] {
          assert vals[0][..TruncatedLength] == vals[0][..TruncatedLength];
          assert forall k :: 0 <= k < TruncatedLength ==> v[k] == vals[0][k];
        }
      }
      ExamplesNoNewline(vals[1..], total + |v|);
    }
  }

  lemma LineNoNewline(name: string, dtype: string, examples: string, uniqueCount: nat)
    requires NoNewline(name) && NoNewline(dtype) && NoNewline(examples)
    ensures NoNewline(Line(name, dtype, examples, uniqueCount))
  {
    var count := NatToString(uniqueCount);
    assert NoNewline(count) by {
      forall k | 0 <= k < |count| ensures count[k] != '\n' { assert IsAsciiDigit(count[k]); }
    }
  }

  lemma ColumnLineNoNewline(c: Column)
    requires SingleLineColumn(c)
    ensures NoNewline(ColumnLine(c))
  {
    var u := Unique(c.values);
    var l := Limited(u);
    forall s | s in l ensures NoNewline(s) {
      assert s in u;
      var i :| 0 <= i < |c.values| && c.values[i] == Some(s);
    }
    ExamplesNoNewline(l, 0);
    JoinWithoutChar(Examples(l), ", ", '\n');
    LineNoNewline(c.name, c.dtype, Join(Examples(l), ", "), |u|);
  }

  /** The summary is the intro naming the dataset, then exactly one line per column, in
    * column order, when no name, dtype or value holds a newline. */
  lemma SummaryLines(dataset: string, cols: seq<Column>)
    requires |cols| > 0 && forall i :: 0 <= i < |cols| ==> SingleLineColumn(cols[i])
    ensures var t := SummaryText(dataset, cols);
      StartsWith(t, Intro(dataset)) && Split(t[|Intro(dataset)|..], '\n') == ColumnLines(cols)
  {
    var lines := ColumnLines(cols);
    forall i | 0 <= i < |lines| ensures '\n' !in lines[i] {
      ColumnLineNoNewline(cols[i]);
    }
    SplitJoin(lines, '\n');
    var t := SummaryText(dataset, cols);
    assert t[|Intro(dataset)|..] == Join(lines, "\n");
    assert t[..|Intro(dataset)|] == Intro(dataset);
  }

  /** The summary of a dataset without columns is its intro line alone. */
  lemma SummaryOfNoColumns(dataset: string)
    ensures SummaryText(dataset, []) == Intro(dataset)
  {
  }

  /** The summary never fails: it is the error text exactly when no file is found or the
    * reader raises, and the summary of the first existing file's columns otherwise. */
  lemma SchemaErrorIff(dataset: string, existing: set<string>, read: string -> Loaded)
    ensures StartsWith(Schema(dataset, existing, read), ErrorPrefix) <==>
      SchemaFile(dataset, existing).None? || read(SchemaFile(dataset, existing).value).LoadFailed?
  {
    var t := Schema(dataset, existing, read);
    match SchemaFile(dataset, existing)
    case None =>
      ErrorTextPrefix(dataset, NotFoundMessage(dataset));
    case Some(file) =>
      match read(file)
      case LoadFailed(m) =>
        ErrorTextPrefix(dataset, m);
      case Loaded(cols) =>
        SummaryNotError(dataset, cols);
  }

  lemma ErrorTextPrefix(dataset: string, message: string)
    ensures StartsWith(ErrorText(dataset, message), ErrorPrefix)
  {
    assert ErrorText(dataset, message) == ErrorPrefix + (dataset + ": " + message);
  }

  lemma SummaryNotError(dataset: string, cols: seq<Column>)
    ensures !StartsWith(SummaryText(dataset, cols), ErrorPrefix)
  {
    var t := SummaryText(dataset, cols);
    assert t[0] == Intro(dataset)[0] == 'H';
    assert ErrorPrefix[0] == 'E';
    if |t| >= |ErrorPrefix| {
      assert t[..|ErrorPrefix|][0] == 'H';
    }
  }

  /** A missing file under all four extensions gives the not-found error text. */
  lemma SchemaNotFound(dataset: string, existing: set<string>, read: string -> Loaded)
    requires forall i :: 0 <= i < |SupportedFormats| ==> SchemaPath(dataset, i) !in existing
    ensures Schema(dataset, existing, read)
      == ErrorPrefix + dataset + ": " + "No dataset file found for " + dataset
  {
    assert SchemaFile(dataset, existing) == None;
  }
}
