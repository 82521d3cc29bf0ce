/** Dataset-path rewriting and fence stripping for generated pandas code
  * (utilities/code_processing.py).
  *
  * `re.sub` over the four `pd.read_*` patterns is modelled by a scanner, `Pass`, that
  * tries the pattern at every position from left to right, as Python's regular-expression
  * engine does; the file system is the set `existing` of paths that exist. */
module CodeProcessing {
  import opened Wrappers
  import opened Text

  /** A supported dataset format: its file extension and its pandas reader. */
  datatype Format = Parquet | Csv | Json | Excel {
    function Ext(): string {
      match this
      case Parquet => ".parquet"
      case Csv => ".csv"
      case Json => ".json"
      case Excel => ".xlsx"
    }

    function Reader(): string {
      match this
      case Parquet => "read_parquet"
      case Csv => "read_csv"
      case Json => "read_json"
      case Excel => "read_excel"
    }
  }

  /** `SUPPORTED_EXTENSIONS`, in probing order. */
  const SupportedFormats: seq<Format> := [Parquet, Csv, Json, Excel]

  /** The explicit-format passes of `modify_dataset_paths`, in the order they run. */
  const ExplicitFormats: seq<Format> := [Csv, Json, Excel]

  // ---------------------------------------------------------------------------
  // Paths (POSIX `os.path`)

  /** `os.path.join(a, b)`. */
  function PathJoin(a: string, b: string): string {
    if StartsWith(b, "/") then b
    else if a == [] || EndsWith(a, "/") then a + b
    else a + "/" + b
  }

  /** `s.rfind(c)` when it is not -1. */
  function LastIndex(s: string, c: char): (r: Option<nat>)
    ensures r.Some? ==> r.value < |s| && s[r.value] == c && c !in s[r.value + 1..]
    ensures r.None? ==> c !in s
    decreases |s|
  {
    if s == [] then None
    else if s[|s| - 1] == c then Some(|s| - 1)
    else
      var r := LastIndex(s[..|s| - 1], c);
      assert s == s[..|s| - 1] + [s[|s| - 1]];
      r
  }

  /** `os.path.basename(p)`: the text after the last '/'. */
  function BaseName(p: string): string {
    match LastIndex(p, '/')
    case None => p
    case Some(i) => p[i + 1..]
  }

  /** Where `os.path.splitext(p)` splits: the last '.', provided it lies in the last
    * path component after at least one character that is not a '.'. */
  function ExtensionDot(p: string): (r: Option<nat>)
    ensures r.Some? ==> r.value < |p|
  {
    match LastIndex(p, '.')
    case None => None
    case Some(d) =>
      var start := match LastIndex(p, '/') case None => 0 case Some(k) => k + 1;
      if start <= d && exists k :: start <= k < d && p[k] != '.' then Some(d) else None
  }

  /** `os.path.splitext(p)[0]`. */
  function Stem(p: string): string {
    match ExtensionDot(p)
    case None => p
    case Some(d) => p[..d]
  }

  /** The dataset name `replace_parquet` probes for: the base name without its extension. */
  function DatasetName(path: string): string { Stem(BaseName(path)) }

  /** With no other '/' after it, the separator `c` appended to `a` is the last one. */
  lemma {:induction false} LastIndexAfter(a: string, c: char, b: string)
    requires c !in b
    ensures LastIndex(a + [c] + b, c) == Some(|a|)
    decreases |b|
  {
    if b != [] {
      var s := a + [c] + b;
      assert s[|s| - 1] == b[|b| - 1];
      assert s[..|s| - 1] == a + [c] + b[..|b| - 1];
      LastIndexAfter(a, c, b[..|b| - 1]);
    }
  }

  /** Only the base name, without directory or extension, of a path names the dataset:
    * `dir/name.ext` names `name` whatever the directory and the extension. */
  lemma DatasetNameOfPath(dir: string, name: string, ext: string)
    requires '/' !in name && '/' !in ext && '.' !in ext
    requires exists k :: 0 <= k < |name| && name[k] != '.'
    ensures DatasetName(dir + "/" + name + "." + ext) == name
  {
    var base := name + "." + ext;
    assert dir + "/" + name + "." + ext == dir + "/" + base;
    BaseNameAfterSeparator(dir, base);
    StemOfName(name, ext);
  }

  lemma BaseNameAfterSeparator(dir: string, base: string)
    requires '/' !in base
    ensures BaseName(dir + "/" + base) == base
  {
    var p := dir + "/" + base;
    assert p == dir + ['/'] + base;
    LastIndexAfter(dir, '/', base);
  }

  lemma StemOfName(name: string, ext: string)
    requires '/' !in name && '/' !in ext && '.' !in ext
    requires exists k :: 0 <= k < |name| && name[k] != '.'
    ensures ExtensionDot(name + "." + ext) == Some(|name|)
    ensures Stem(name + "." + ext) == name
  {
    var base := name + "." + ext;
    assert base == name + ['.'] + ext;
    LastIndexAfter(name, '.', ext);
    assert '/' !in base;
    var k :| 0 <= k < |name| && name[k] != '.';
    assert base[k] == name[k];
    assert ExtensionDot(base) == Some(|name|);
    assert base[..|name|] == name;
  }

  // ---------------------------------------------------------------------------
  // The dataset folder

  predicate IsSeparator(c: char) { c == '/' || c == '\\' }

  /** `s.rstrip("/\\")`. */
  function StripTrailingSeparators(s: string): (r: string)
    ensures |r| <= |s| && r == s[..|r|]
    ensures r == [] || !IsSeparator(r[|r| - 1])
    ensures forall i :: |r| <= i < |s| ==> IsSeparator(s[i])
    decreases |s|
  {
    if s != [] && IsSeparator(s[|s| - 1]) then StripTrailingSeparators(s[..|s| - 1]) else s
  }

  /** `dataset_folder_path.rstrip("/\\") + "/"`: the folder with its trailing '/' and '\'
    * replaced by exactly one '/'. */
  function NormalizeFolder(folder: string): (r: string)
    ensures EndsWith(r, "/")
    ensures |r| == 1 || !IsSeparator(r[|r| - 2])
    ensures StartsWith(folder, r[..|r| - 1])
    ensures forall i :: |r| - 1 <= i < |folder| ==> IsSeparator(folder[i])
  {
    var stem := StripTrailingSeparators(folder);
    assert (stem + "/")[..|stem|] == stem;
    stem + "/"
  }

  /** Normalising a normalised folder changes nothing. */
  lemma NormalizeFolderIdempotent(folder: string)
    ensures NormalizeFolder(NormalizeFolder(folder)) == NormalizeFolder(folder)
  {
    var r := NormalizeFolder(folder);
    var stem := r[..|r| - 1];
    assert r == stem + "/";
    assert StripTrailingSeparators(r) == StripTrailingSeparators(stem);
    assert StripTrailingSeparators(stem) == stem;
  }

  // ---------------------------------------------------------------------------
  // _find_dataset_file

  /** The path probed for `name` in the format at position `i` of the probing order. */
  function Candidate(name: string, folder: string, i: nat): string
    requires i < |SupportedFormats|
  {
    PathJoin(folder, name + SupportedFormats[i].Ext())
  }

  /** The first format, from position `i` of the probing order on, whose file exists. */
  function ProbeFrom(name: string, folder: string, existing: set<string>, i: nat): Option<(string, Format)>
    requires i <= |SupportedFormats|
    decreases |SupportedFormats| - i
  {
    if i == |SupportedFormats| then None
    else if Candidate(name, folder, i) in existing then Some((Candidate(name, folder, i), SupportedFormats[i]))
    else ProbeFrom(name, folder, existing, i + 1)
  }

  /** What `_find_dataset_file(name, folder)` returns, `None` standing for `(None, None)`. */
  function Probe(name: string, folder: string, existing: set<string>): Option<(string, Format)> {
    ProbeFrom(name, folder, existing, 0)
  }

  /** The probe finds the first format in the order .parquet, .csv, .json, .xlsx whose
    * file exists, with that format's reader; it finds nothing only when none exists. */
  predicate IsFirstHit(name: string, folder: string, existing: set<string>, found: Option<(string, Format)>) {
    match found
    case None => forall i :: 0 <= i < |SupportedFormats| ==> Candidate(name, folder, i) !in existing
    case Some((path, format)) =>
      exists i :: 0 <= i < |SupportedFormats|
        && path == Candidate(name, folder, i) && format == SupportedFormats[i]
        && path in existing
        && forall j :: 0 <= j < i ==> Candidate(name, folder, j) !in existing
  }

  lemma {:induction false} ProbeFromFirstHit(name: string, folder: string, existing: set<string>, i: nat)
    requires i <= |SupportedFormats|
    requires forall j :: 0 <= j < i ==> Candidate(name, folder, j) !in existing
    ensures IsFirstHit(name, folder, existing, ProbeFrom(name, folder, existing, i))
    decreases |SupportedFormats| - i
  {
    if i < |SupportedFormats| && Candidate(name, folder, i) !in existing {
      ProbeFromFirstHit(name, folder, existing, i + 1);
    }
  }

  /** `Probe` is the first-hit search over the probing order. */
  lemma ProbeIsFirstHit(name: string, folder: string, existing: set<string>)
    ensures IsFirstHit(name, folder, existing, Probe(name, folder, existing))
  {
    ProbeFromFirstHit(name, folder, existing, 0);
  }

  /** When the file at position `i` of the probing order is the first one that exists,
    * the probe returns it with its format. */
  lemma {:induction false} ProbeFromFindsFirst(name: string, folder: string, existing: set<string>, from: nat, i: nat)
    requires from <= i < |SupportedFormats|
    requires Candidate(name, folder, i) in existing
    requires forall j :: from <= j < i ==> Candidate(name, folder, j) !in existing
    ensures ProbeFrom(name, folder, existing, from) == Some((Candidate(name, folder, i), SupportedFormats[i]))
    decreases i - from
  {
    if from < i {
      ProbeFromFindsFirst(name, folder, existing, from + 1, i);
    }
  }

  /** `_find_dataset_file`: the search loop over `SUPPORTED_EXTENSIONS` with its early return. */
  method FindDatasetFile(name: string, folder: string, existing: set<string>) returns (found: Option<(string, Format)>)
    ensures IsFirstHit(name, folder, existing, found)
    ensures found == Probe(name, folder, existing)
  {
    for i := 0 to |SupportedFormats|
      invariant forall j :: 0 <= j < i ==> Candidate(name, folder, j) !in existing
      invariant Probe(name, folder, existing) == ProbeFrom(name, folder, existing, i)
    {
      var format := SupportedFormats[i];
      var potentialFile := PathJoin(folder, name + format.Ext());
      if potentialFile in existing {
        ProbeIsFirstHit(name, folder, existing);
        return Some((potentialFile, format));
      }
    }
    ProbeIsFirstHit(name, folder, existing);
    return None;
  }

  /** In a folder that ends in '/', the probed path is the folder, the name and the extension. */
  lemma CandidateInFolder(name: string, folder: string, i: nat)
    requires i < |SupportedFormats|
    requires EndsWith(folder, "/") && !StartsWith(name + SupportedFormats[i].Ext(), "/")
    ensures Candidate(name, folder, i) == folder + name + SupportedFormats[i].Ext()
  {
  }

  // ---------------------------------------------------------------------------
  // The re.sub passes

  predicate IsQuote(c: char) { c == '\'' || c == '"' }

  /** The literal text a read call starts with, `pd.read_X(`. */
  function CallPrefix(f: Format): string { "pd." + f.Reader() + "(" }

  const EngineArgument: string := ", engine='openpyxl'"

  /** A `pd.read_X(...)` call as text: the reader of `format`, the path between two
    * `quote` characters and, when `engine` is set, the `engine='openpyxl'` argument. */
  datatype ReadCall = ReadCall(format: Format, quote: char, path: string, engine: bool) {
    function Text(): string {
      CallPrefix(format) + [quote] + path + [quote] + (if engine then EngineArgument else "") + ")"
    }
  }

  /** `pd.<reader>('<path>')`, with `engine='openpyxl'` for Excel files: the text every
    * replacement produces. */
  function RenderCall(f: Format, path: string): string {
    ReadCall(f, '\'', path, f == Excel).Text()
  }

  /** What the captured group of the pass for `f` must end with: anything for the
    * parquet pattern `(.*?)`, the extension for the explicit patterns `(.*?\.ext)`. */
  function GroupSuffix(f: Format): string {
    if f == Parquet then "" else f.Ext()
  }

  /** A group of length `n` at the head of `t` can close there: it ends with `sfx` and is
    * followed by a quote and ')'. */
  predicate ClosesAt(t: string, sfx: string, n: nat) {
    n + 1 < |t| && IsQuote(t[n]) && t[n + 1] == ')' && EndsWith(t[..n], sfx)
  }

  /** The lazy group `(.*?sfx)['"]\)` at the head of `t`, tried from length `n` up: the
    * shortest group that closes, provided it holds no newline (`.` does not match one). */
  function LazyGroupFrom(t: string, sfx: string, n: nat): (r: Option<nat>)
    requires n <= |t|
    ensures r.Some? ==> n <= r.value && ClosesAt(t, sfx, r.value) && '\n' !in t[n..r.value]
    ensures r.Some? ==> forall m :: n <= m < r.value ==> !ClosesAt(t, sfx, m)
    ensures r.None? ==> forall m :: n <= m <= |t| && '\n' !in t[n..m] ==> !ClosesAt(t, sfx, m)
    decreases |t| - n
  {
    if ClosesAt(t, sfx, n) then Some(n)
    else if n == |t| || t[n] == '\n' then
      BreakOpensSlices(t, n);
      None
    else
      var r := LazyGroupFrom(t, sfx, n + 1);
      PlainHeadOfSlices(t, n);
      r
  }

  /** Every non-empty slice from a line break holds one. */
  lemma BreakOpensSlices(t: string, n: nat)
    requires n <= |t| && (n == |t| || t[n] == '\n')
    ensures forall m :: n < m <= |t| ==> '\n' in t[n..m]
  {
    forall m | n < m <= |t| ensures '\n' in t[n..m] {
      assert t[n..m][0] == t[n];
    }
  }

  /** A slice from a character other than a line break holds one exactly when the rest
    * of it does. */
  lemma PlainHeadOfSlices(t: string, n: nat)
    requires n < |t| && t[n] != '\n'
    ensures forall m :: n < m <= |t| ==> ('\n' in t[n..m] <==> '\n' in t[n + 1..m])
  {
    forall m | n < m <= |t| ensures '\n' in t[n..m] <==> '\n' in t[n + 1..m] {
      assert t[n..m] == [t[n]] + t[n + 1..m];
    }
  }

  /** The group length when the pattern of the pass for `f` matches at the very start of `s`. */
  function MatchAt(s: string, f: Format): (r: Option<nat>)
    ensures r.Some? ==> |CallPrefix(f)| + r.value + 3 <= |s|
    ensures r.Some? ==> StartsWith(s, CallPrefix(f)) && IsQuote(s[|CallPrefix(f)|])
  {
    var pre := CallPrefix(f);
    if StartsWith(s, pre) && |pre| < |s| && IsQuote(s[|pre|]) then
      LazyGroupFrom(s[|pre| + 1..], GroupSuffix(f), 0)
    else None
  }

  /** The text a match of the pass for `f` is replaced with, given its group `g`: the
    * `replace_parquet` result for the parquet pass; for an explicit format the group
    * itself when it already starts with the folder, and the folder and the group otherwise. */
  function Replacement(f: Format, g: string, folder: string, existing: set<string>): string {
    if f == Parquet then ReplaceParquet(g, folder, existing)
    else if StartsWith(g, folder) then RenderCall(f, g)
    else RenderCall(f, folder + g)
  }

  /** `replace_parquet`: the reader and path of the file found for the group's dataset
    * name, or else the original path behind the folder. */
  function ReplaceParquet(g: string, folder: string, existing: set<string>): string {
    match Probe(DatasetName(g), folder, existing)
    case Some((path, format)) => RenderCall(format, path)
    case None => "pd.read_parquet('" + folder + g + "')"
  }

  /** `re.sub(pattern, replacement, s)` for the pass for `f`: scan left to right, replace
    * each match and resume after it, otherwise keep the character and move on. */
  function Pass(s: string, f: Format, folder: string, existing: set<string>): string
    decreases |s|
  {
    if s == [] then []
    else
      match MatchAt(s, f)
      case Some(n) =>
        var start := |CallPrefix(f)| + 1;
        Replacement(f, s[start..start + n], folder, existing) + Pass(s[start + n + 2..], f, folder, existing)
      case None => [s[0]] + Pass(s[1..], f, folder, existing)
  }

  /** The explicit passes for `formats`, applied in order. */
  function ApplyPasses(code: string, formats: seq<Format>, folder: string, existing: set<string>): string
    decreases |formats|
  {
    if formats == [] then code
    else Pass(ApplyPasses(code, formats[..|formats| - 1], folder, existing), formats[|formats| - 1], folder, existing)
  }

  /** What `modify_dataset_paths(code, folder)` returns. */
  function RewritePaths(code: string, folderArg: string, existing: set<string>): string {
    var folder := NormalizeFolder(folderArg);
    ApplyPasses(Pass(code, Parquet, folder, existing), ExplicitFormats, folder, existing)
  }

  /** `modify_dataset_paths`: the parquet pass, then the explicit passes in a loop that
    * rebinds `code`. */
  method ModifyDatasetPaths(code: string, folderArg: string, existing: set<string>) returns (result: string)
    ensures result == RewritePaths(code, folderArg, existing)
  {
    var folder := NormalizeFolder(folderArg);
    var parquetDone := Pass(code, Parquet, folder, existing);
    result := parquetDone;
    for i := 0 to |ExplicitFormats|
      invariant result == ApplyPasses(parquetDone, ExplicitFormats[..i], folder, existing)
    {
      assert ExplicitFormats[..i + 1][..i] == ExplicitFormats[..i];
      result := Pass(result, ExplicitFormats[i], folder, existing);
    }
    assert ExplicitFormats[..|ExplicitFormats|] == ExplicitFormats;
  }

  // ---------------------------------------------------------------------------
  // clean_pandas_code

  const Fence: string := "```"
  const PythonFence: string := "```python"

  /** `clean_pandas_code`: the stripped text of the first ```python block, or else the
    * stripped text before the first fence. */
  function CleanPandasCode(raw: string): (r: string)
    ensures !Contains(r, Fence)
    ensures IsStripped(r)
  {
    var s := Strip(raw);
    var inner := if Contains(s, PythonFence) then Before(After(s, PythonFence), Fence) else Before(s, Fence);
    StripKeepsAbsence(inner, Fence);
    StripIsSlice(inner);
    Strip(inner)
  }

  /** A text holding ```python holds a fence. */
  lemma PythonFenceHasFence(s: string)
    requires Contains(s, PythonFence)
    ensures Contains(s, Fence)
  {
    var i: nat :| i <= |s| && OccursAt(s, PythonFence, i);
    assert s[i..i + 3] == s[i..i + 9][..3];
    assert OccursAt(s, Fence, i);
  }

  /** Text with neither a fence nor whitespace at its ends comes back unchanged. */
  lemma CleanPandasCodeOfClean(s: string)
    requires !Contains(s, Fence) && IsStripped(s)
    ensures CleanPandasCode(s) == s
  {
    StrippedFixpoint(s);
    if Contains(s, PythonFence) {
      PythonFenceHasFence(s);
    }
    IndexOfContains(s, Fence);
  }

  /** Cleaning is idempotent. */
  lemma CleanPandasCodeIdempotent(raw: string)
    ensures CleanPandasCode(CleanPandasCode(raw)) == CleanPandasCode(raw)
  {
    CleanPandasCodeOfClean(CleanPandasCode(raw));
  }

  /** The text before the first `sep` is the text up to `i` when `i` is that first
    * occurrence. */
  lemma BeforeFirst(s: string, sep: string, i: nat)
    requires |sep| > 0 && OccursAt(s, sep, i)
    requires forall j: nat :: j < i ==> !OccursAt(s, sep, j)
    ensures Before(s, sep) == s[..i]
  {
    ContainsAt(s, sep, i);
    assert |Before(s, sep)| == i by {
      assert !(|Before(s, sep)| < i);
      assert !(i < |Before(s, sep)|);
    }
  }

  /** With the first ```python at `p`, the text the tagged branch searches is what
    * follows it. */
  lemma AfterFirstTag(s: string, p: nat)
    requires OccursAt(s, PythonFence, p)
    requires forall j: nat :: j < p ==> !OccursAt(s, PythonFence, j)
    ensures Contains(s, PythonFence)
    ensures After(s, PythonFence) == s[p + |PythonFence|..]
  {
    ContainsAt(s, PythonFence, p);
    BeforeFirst(s, PythonFence, p);
  }

  /** With ```python in the stripped response, the tagged branch is taken. */
  lemma CleanPandasCodeTagged(raw: string)
    requires Contains(Strip(raw), PythonFence)
    ensures CleanPandasCode(raw) == Strip(Before(After(Strip(raw), PythonFence), Fence))
  {
  }

  /** The text between the first ```python at `p` and the first fence after it at `c`. */
  lemma TaggedBlockText(s: string, p: nat, c: nat)
    requires OccursAt(s, PythonFence, p)
    requires forall j: nat :: j < p ==> !OccursAt(s, PythonFence, j)
    requires p + |PythonFence| <= c && OccursAt(s, Fence, c)
    requires forall j: nat :: p + |PythonFence| <= j < c ==> !OccursAt(s, Fence, j)
    ensures Contains(s, PythonFence)
    ensures Before(After(s, PythonFence), Fence) == s[p + |PythonFence|..c]
  {
    var k := p + |PythonFence|;
    AfterFirstTag(s, p);
    var t := s[k..];
    OccursInSuffix(s, Fence, k, c - k);
    forall j: nat | j < c - k
      ensures !OccursAt(t, Fence, j)
    {
      OccursInSuffix(s, Fence, k, j);
    }
    BeforeFirst(t, Fence, c - k);
    assert t[..c - k] == s[k..c];
  }

  /** The text after the first ```python at `p` when no fence follows it. */
  lemma UnclosedBlockText(s: string, p: nat)
    requires OccursAt(s, PythonFence, p)
    requires forall j: nat :: j < p ==> !OccursAt(s, PythonFence, j)
    requires forall j: nat :: p + |PythonFence| <= j ==> !OccursAt(s, Fence, j)
    ensures Contains(s, PythonFence)
    ensures Before(After(s, PythonFence), Fence) == s[p + |PythonFence|..]
  {
    var k := p + |PythonFence|;
    AfterFirstTag(s, p);
    var t := s[k..];
    forall j: nat | j <= |t|
      ensures !OccursAt(t, Fence, j)
    {
      OccursInSuffix(s, Fence, k, j);
    }
    assert !Contains(t, Fence);
  }

  /** With the first ```python of the stripped response at `p`, and the first fence
    * after it at `c`, the cleaned code is the stripped text between the two. */
  lemma CleanPandasCodeTaggedBlock(raw: string, p: nat, c: nat)
    requires OccursAt(Strip(raw), PythonFence, p)
    requires forall j: nat :: j < p ==> !OccursAt(Strip(raw), PythonFence, j)
    requires p + |PythonFence| <= c && OccursAt(Strip(raw), Fence, c)
    requires forall j: nat :: p + |PythonFence| <= j < c ==> !OccursAt(Strip(raw), Fence, j)
    ensures CleanPandasCode(raw) == Strip(Strip(raw)[p + |PythonFence|..c])
  {
    TaggedBlockText(Strip(raw), p, c);
    CleanPandasCodeTagged(raw);
  }

  /** A ```python block that is never closed: the cleaned code is the stripped rest. */
  lemma CleanPandasCodeUnclosedBlock(raw: string, p: nat)
    requires OccursAt(Strip(raw), PythonFence, p)
    requires forall j: nat :: j < p ==> !OccursAt(Strip(raw), PythonFence, j)
    requires forall j: nat :: p + |PythonFence| <= j ==> !OccursAt(Strip(raw), Fence, j)
    ensures CleanPandasCode(raw) == Strip(Strip(raw)[p + |PythonFence|..])
  {
    UnclosedBlockText(Strip(raw), p);
    CleanPandasCodeTagged(raw);
  }

  /** Without ```python, and with the first fence at `c`: the cleaned code is the
    * stripped text before that fence. */
  lemma CleanPandasCodeBeforeFence(raw: string, c: nat)
    requires !Contains(Strip(raw), PythonFence)
    requires OccursAt(Strip(raw), Fence, c)
    requires forall j: nat :: j < c ==> !OccursAt(Strip(raw), Fence, j)
    ensures CleanPandasCode(raw) == Strip(Strip(raw)[..c])
  {
    BeforeFirst(Strip(raw), Fence, c);
  }

  /** Without any fence the cleaned code is the stripped response. */
  lemma CleanPandasCodeNoFence(raw: string)
    requires !Contains(Strip(raw), Fence)
    ensures CleanPandasCode(raw) == Strip(raw)
  {
    if Contains(Strip(raw), PythonFence) {
      PythonFenceHasFence(Strip(raw));
    }
    StripIsStripped(raw);
    StrippedFixpoint(Strip(raw));
  }

  /** A response that opens with an untagged fence and has no ```python yields "". */
  lemma LeadingUntaggedFenceGivesEmpty(raw: string)
    requires StartsWith(Strip(raw), Fence) && !Contains(Strip(raw), PythonFence)
    ensures CleanPandasCode(raw) == ""
  {
    var s := Strip(raw);
    assert OccursAt(s, Fence, 0);
  }
}
