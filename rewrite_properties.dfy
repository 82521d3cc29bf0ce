/** What `modify_dataset_paths` does to code made of read calls and the text between
  * them (utilities/code_processing.py:23-57): each pass rewrites exactly the calls of its
  * own reader, leaves all other text alone, and rewriting twice equals rewriting once when
  * every parquet dataset is found. */
module RewriteProperties {
  import opened Wrappers
  import opened Text
  import opened CodeProcessing

  // ---------------------------------------------------------------------------
  // Code as read calls and the text between them

  /** A read call and the text after it, up to the next call. */
  datatype Piece = Piece(call: ReadCall, after: string)

  /** Code: the text before the first read call, then the pieces. */
  datatype Code = Code(head: string, pieces: seq<Piece>)

  function PiecesText(ps: seq<Piece>): string
    decreases |ps|
  {
    if ps == [] then [] else ps[0].call.Text() + (ps[0].after + PiecesText(ps[1..]))
  }

  function CodeText(code: Code): string { code.head + PiecesText(code.pieces) }

  predicate QuoteFree(s: string) { forall i :: 0 <= i < |s| ==> !IsQuote(s[i]) }

  /** A path the rewriter carries around whole: no quote, newline or '('. */
  predicate PlainPath(p: string) {
    forall i :: 0 <= i < |p| ==> !IsQuote(p[i]) && p[i] != '\n' && p[i] != '('
  }

  /** A read call whose path is plain; the engine argument only on Excel calls; and an
    * explicit call without it names a file with its reader's extension. */
  predicate WellFormedCall(c: ReadCall) {
    IsQuote(c.quote) && PlainPath(c.path)
    && (c.engine ==> c.format == Excel)
    && (!c.engine && c.format != Parquet ==> EndsWith(c.path, c.format.Ext()))
  }

  /** Well-formed calls, no quote outside them, and at most one call per line. */
  predicate WellFormedPieces(ps: seq<Piece>) {
    forall i :: 0 <= i < |ps| ==>
      WellFormedCall(ps[i].call) && QuoteFree(ps[i].after) && (i + 1 < |ps| ==> '\n' in ps[i].after)
  }

  predicate WellFormedCode(code: Code) { QuoteFree(code.head) && WellFormedPieces(code.pieces) }

  /** A normalised dataset folder that is a plain path. */
  predicate FolderOk(folder: string) { PlainPath(folder) && EndsWith(folder, "/") }

  // ---------------------------------------------------------------------------
  // The literal call prefixes

  lemma ReaderFacts(f: Format)
    ensures '.' !in f.Reader() && '(' !in f.Reader() && ')' !in f.Reader()
    ensures '\'' !in f.Reader() && '"' !in f.Reader() && '\n' !in f.Reader()
  {
    match f
    case Parquet =>
    case Csv =>
    case Json =>
    case Excel =>
  }

  lemma PrefixShape(f: Format)
    ensures |CallPrefix(f)| >= 4
    ensures CallPrefix(f)[..3] == "pd." && CallPrefix(f)[2] == '.'
    ensures CallPrefix(f)[|CallPrefix(f)| - 1] == '('
  {
    assert f.Reader()[0] == 'r';
  }

  lemma PrefixReaderPart(f: Format, i: nat)
    requires 3 <= i < |CallPrefix(f)| - 1
    ensures CallPrefix(f)[i] in f.Reader()
  {
    assert CallPrefix(f)[i] == f.Reader()[i - 3];
  }

  lemma PrefixNoDot(f: Format)
    ensures forall i :: 3 <= i < |CallPrefix(f)| ==> CallPrefix(f)[i] != '.'
  {
    ReaderFacts(f);
    forall i | 3 <= i < |CallPrefix(f)| - 1 ensures CallPrefix(f)[i] != '.' {
      PrefixReaderPart(f, i);
    }
  }

  lemma PrefixParenLast(f: Format)
    ensures forall i :: 0 <= i < |CallPrefix(f)| - 1 ==> CallPrefix(f)[i] != '('
  {
    ReaderFacts(f);
    forall i | 3 <= i < |CallPrefix(f)| - 1 ensures CallPrefix(f)[i] != '(' {
      PrefixReaderPart(f, i);
    }
  }

  lemma PrefixPlain(f: Format)
    ensures forall i :: 0 <= i < |CallPrefix(f)| ==>
      !IsQuote(CallPrefix(f)[i]) && CallPrefix(f)[i] != ')' && CallPrefix(f)[i] != '\n'
  {
    ReaderFacts(f);
    forall i | 3 <= i < |CallPrefix(f)| - 1
      ensures !IsQuote(CallPrefix(f)[i]) && CallPrefix(f)[i] != ')' && CallPrefix(f)[i] != '\n'
    {
      PrefixReaderPart(f, i);
    }
  }

  /** The four prefixes have four different lengths. */
  lemma PrefixLengthInjective(f: Format, g: Format)
    requires |CallPrefix(f)| == |CallPrefix(g)|
    ensures f == g
  {
  }

  const Engine1: string := ", engine="
  const Engine2: string := "openpyxl"

  lemma EngineArgumentParts()
    ensures EngineArgument == Engine1 + "'" + Engine2 + "'"
    ensures QuoteFree(Engine1) && QuoteFree(Engine2)
    ensures '(' !in EngineArgument && '\n' !in EngineArgument
    ensures |Engine1| == 9 && |Engine2| == 8 && Engine1[0] == ',' && Engine2[0] == 'o' && Engine2[7] == 'l'
  {
    assert '\'' !in Engine1 && '"' !in Engine1 && '\'' !in Engine2 && '"' !in Engine2;
  }

  /** The layout of a call's text: its prefix, the quoted path, and a closing ')'. */
  lemma CallTextLayout(c: ReadCall)
    ensures var T, Q := c.Text(), CallPrefix(c.format);
      |T| == |Q| + |c.path| + 3 + (if c.engine then |EngineArgument| else 0)
      && T[..|Q|] == Q && T[|Q|] == c.quote
      && T[|Q| + 1..|Q| + 1 + |c.path|] == c.path && T[|Q| + 1 + |c.path|] == c.quote
      && T[|T| - 1] == ')'
  {
    var T, Q := c.Text(), CallPrefix(c.format);
    var e := if c.engine then EngineArgument else "";
    assert T == Q + [c.quote] + c.path + [c.quote] + e + ")";
  }

  /** The only '(' in a well-formed call's text ends its prefix. */
  lemma CallParenOnlyInPrefix(c: ReadCall)
    requires WellFormedCall(c)
    ensures var T, Q := c.Text(), CallPrefix(c.format);
      forall j :: 0 <= j < |T| && T[j] == '(' ==> j == |Q| - 1
  {
    var Q := CallPrefix(c.format);
    var mid := CallAfterPrefix(c);
    assert c.Text() == Q + mid;
    PrefixParenLast(c.format);
    ParenOnlyInHead(Q, mid);
  }

  /** What follows the prefix in a call's text: the quoted path and the closing part. */
  function CallAfterPrefix(c: ReadCall): (r: string)
    requires WellFormedCall(c)
    ensures '(' !in r
  {
    EngineArgumentParts();
    assert '(' !in c.path by {
      forall i | 0 <= i < |c.path| ensures c.path[i] != '(' { }
    }
    [c.quote] + c.path + [c.quote] + (if c.engine then EngineArgument else "") + ")"
  }

  lemma ParenOnlyInHead(q: string, mid: string)
    requires forall i :: 0 <= i < |q| - 1 ==> q[i] != '('
    requires '(' !in mid
    ensures forall j :: 0 <= j < |q + mid| && (q + mid)[j] == '(' ==> j == |q| - 1
  {
    forall j | |q| <= j < |q + mid| ensures (q + mid)[j] != '(' {
      assert (q + mid)[j] == mid[j - |q|];
    }
  }

  lemma CallTextStart(c: ReadCall)
    ensures StartsWith(c.Text(), "pd.")
  {
    PrefixShape(c.format);
    assert c.Text()[..|CallPrefix(c.format)|] == CallPrefix(c.format);
  }

  lemma PiecesTextStart(ps: seq<Piece>)
    ensures ps == [] || StartsWith(PiecesText(ps), "pd.")
  {
    if ps != [] {
      CallTextStart(ps[0].call);
    }
  }

  // ---------------------------------------------------------------------------
  // Where a pass can match

  /** The pass for `f` finds no match starting at position `k` of `s`. */
  predicate NoMatchAt(s: string, f: Format, k: nat)
    requires k <= |s|
  {
    MatchAt(s[k..], f) == None
  }

  /** What a match at position `k` needs: the call prefix there, then a quote. */
  predicate CouldMatchAt(s: string, f: Format, k: nat) {
    var P := CallPrefix(f);
    k + |P| < |s| && s[k..k + |P|] == P && IsQuote(s[k + |P|])
  }

  lemma NoMatchUnlessCould(s: string, f: Format, k: nat)
    requires k <= |s| && !CouldMatchAt(s, f, k)
    ensures NoMatchAt(s, f, k)
  {
    var P := CallPrefix(f);
    if k + |P| < |s| {
      assert s[k..][..|P|] == s[k..k + |P|];
      assert s[k..][|P|] == s[k + |P|];
    }
  }

  lemma NoMatchShift(a: string, b: string, f: Format)
    requires a != []
    requires forall k :: 0 <= k < |a| ==> NoMatchAt(a + b, f, k)
    ensures forall k :: 0 <= k < |a| - 1 ==> NoMatchAt(a[1..] + b, f, k)
  {
    forall k | 0 <= k < |a| - 1 ensures NoMatchAt(a[1..] + b, f, k) {
      assert NoMatchAt(a + b, f, k + 1);
      assert (a[1..] + b)[k..] == (a + b)[k + 1..];
    }
  }

  lemma PassKeepsFirst(a: string, b: string, f: Format, folder: string, existing: set<string>)
    requires a != [] && NoMatchAt(a + b, f, 0)
    ensures Pass(a + b, f, folder, existing) == [a[0]] + Pass(a[1..] + b, f, folder, existing)
  {
    assert (a + b)[0..] == a + b;
    assert (a + b)[1..] == a[1..] + b;
  }

  lemma ConsSlice(a: string, p: string)
    requires a != []
    ensures [a[0]] + (a[1..] + p) == a + p
  {
  }

  /** Text no match starts in is copied through unchanged. */
  lemma {:induction false} PassSkip(a: string, b: string, f: Format, folder: string, existing: set<string>)
    requires forall k :: 0 <= k < |a| ==> NoMatchAt(a + b, f, k)
    ensures Pass(a + b, f, folder, existing) == a + Pass(b, f, folder, existing)
    decreases |a|
  {
    if a != [] {
      NoMatchShift(a, b, f);
      PassKeepsFirst(a, b, f, folder, existing);
      PassSkip(a[1..], b, f, folder, existing);
      ConsSlice(a, Pass(b, f, folder, existing));
    }
  }

  /** No match starts in quote-free text that runs up to the next call (or the end): the
    * quote a match needs after its prefix would have to lie in the next call's prefix. */
  lemma NoMatchInPlain(t: string, rest: string, f: Format, k: nat)
    requires QuoteFree(t) && k < |t|
    requires rest == [] || StartsWith(rest, "pd.")
    ensures NoMatchAt(t + rest, f, k)
  {
    var s := t + rest;
    var P := CallPrefix(f);
    PrefixShape(f);
    PrefixNoDot(f);
    if k + |P| < |s| {
      if k + |P| < |t| {
        assert s[k + |P|] == t[k + |P|];
      } else {
        var j := k + |P| - |t|;
        if j < 3 {
          assert s[k + |P|] == rest[..3][j];
        } else {
          assert s[k..k + |P|][|t| + 2 - k] == rest[..3][2];
          assert P[|t| + 2 - k] != '.';
        }
      }
    }
    NoMatchUnlessCould(s, f, k);
  }

  lemma WindowDiffers(s: string, k: nat, P: string, idx: nat, ch: char)
    requires k + |P| <= |s| && idx < |P| && s[k + idx] == ch && P[idx] != ch
    ensures s[k..k + |P|] != P
  {
    assert s[k..k + |P|][idx] == s[k + idx];
  }

  /** A window over a call's closing ')' is not a prefix: prefixes have no ')'. */
  lemma WindowOverClose(c: ReadCall, rest: string, f: Format, k: nat)
    requires k < |c.Text()| <= k + |CallPrefix(f)| < |c.Text() + rest|
    ensures (c.Text() + rest)[k..k + |CallPrefix(f)|] != CallPrefix(f)
  {
    var T := c.Text();
    assert T[|T| - 1] == ')' by { CallTextLayout(c); }
    PrefixPlain(f);
    WindowDiffers(T + rest, k, CallPrefix(f), |T| - 1 - k, ')');
  }

  /** A window inside a call that does not end where the call's prefix ends does not end
    * in '('. */
  lemma WindowMissesParen(c: ReadCall, rest: string, f: Format, k: nat)
    requires WellFormedCall(c)
    requires k + |CallPrefix(f)| < |c.Text()| && k + |CallPrefix(f)| != |CallPrefix(c.format)|
    ensures (c.Text() + rest)[k..k + |CallPrefix(f)|] != CallPrefix(f)
  {
    var T, P := c.Text(), CallPrefix(f);
    PrefixShape(f);
    CallParenOnlyInPrefix(c);
    WindowDiffers(T + rest, k, P, |P| - 1, T[k + |P| - 1]);
  }

  /** A window that starts inside a call's prefix and ends where it ends has no '.' where
    * a prefix has "pd.". */
  lemma WindowInsidePrefix(c: ReadCall, rest: string, f: Format, k: nat)
    requires 0 < k && k + |CallPrefix(f)| == |CallPrefix(c.format)|
    ensures (c.Text() + rest)[k..k + |CallPrefix(f)|] != CallPrefix(f)
  {
    var T, P, Q := c.Text(), CallPrefix(f), CallPrefix(c.format);
    PrefixShape(f);
    PrefixNoDot(c.format);
    assert T[..|Q|] == Q;
    assert T[k + 2] == Q[k + 2];
    WindowDiffers(T + rest, k, P, 2, T[k + 2]);
  }

  /** No match of the pass for `f` starts inside a call, nor at its start when the call is
    * not one of `f`'s. */
  lemma NoMatchInCall(c: ReadCall, rest: string, f: Format, k: nat)
    requires WellFormedCall(c) && k < |c.Text()|
    requires k > 0 || f != c.format
    ensures NoMatchAt(c.Text() + rest, f, k)
  {
    var T := c.Text();
    var P, Q := CallPrefix(f), CallPrefix(c.format);
    if k + |P| < |T + rest| {
      if k + |P| >= |T| {
        WindowOverClose(c, rest, f, k);
      } else if k + |P| != |Q| {
        WindowMissesParen(c, rest, f, k);
      } else {
        assert k > 0 by {
          if k == 0 { PrefixLengthInjective(f, c.format); }
        }
        WindowInsidePrefix(c, rest, f, k);
      }
    }
    NoMatchUnlessCould(T + rest, f, k);
  }

  /** The lazy group after a call's opening quote closes at the end of a plain path. */
  lemma LazyGroupOfPath(path: string, q: char, rest: string, sfx: string)
    requires IsQuote(q) && PlainPath(path) && EndsWith(path, sfx)
    ensures LazyGroupFrom(path + [q] + ")" + rest, sfx, 0) == Some(|path|)
  {
    var t := path + [q] + ")" + rest;
    var n := |path|;
    assert t[..n] == path;
    assert ClosesAt(t, sfx, n);
    assert t[0..n] == path;
    forall m | 0 <= m < n ensures !ClosesAt(t, sfx, m) {
      assert t[m] == path[m];
    }
  }

  /** The pass for a call's own reader matches the call whole, its path as the group. */
  lemma MatchOwnCall(c: ReadCall, rest: string)
    requires WellFormedCall(c) && !c.engine
    ensures MatchAt(c.Text() + rest, c.format) == Some(|c.path|)
  {
    var Q := CallPrefix(c.format);
    var s := c.Text() + rest;
    assert s == Q + [c.quote] + (c.path + [c.quote] + ")" + rest);
    assert s[..|Q|] == Q && s[|Q|] == c.quote;
    assert s[|Q| + 1..] == c.path + [c.quote] + ")" + rest;
    LazyGroupOfPath(c.path, c.quote, rest, GroupSuffix(c.format));
  }

  /** Past an engine argument the lazy `.xlsx` group finds no close before the newline
    * that ends the line (or the end of the text). */
  lemma LazyGroupPastEngine(path: string, q: char, after: string, more: string)
    requires PlainPath(path) && IsQuote(q)
    requires QuoteFree(after) && ('\n' in after || more == [])
    ensures LazyGroupFrom(path + [q] + EngineArgument + ")" + after + more, Excel.Ext(), 0) == None
  {
    EngineArgumentParts();
    var t := path + [q] + EngineArgument + ")" + after + more;
    var L := |path|;
    var sfx := Excel.Ext();
    assert t == path + [q] + Engine1 + "'" + Engine2 + "'" + ")" + after + more;
    forall m | 0 <= m <= |t| ensures !ClosesAt(t, sfx, m) || '\n' in t[0..m] {
      if m < L {
        assert t[m] == path[m];
      } else if m == L {
        assert t[m + 1] == Engine1[0];
      } else if m < L + 10 {
        assert t[m] == Engine1[m - L - 1];
      } else if m == L + 10 {
        assert t[m + 1] == Engine2[0];
      } else if m < L + 19 {
        assert t[m] == Engine2[m - L - 11];
      } else if m == L + 19 {
        assert t[..m][m - 1] == Engine2[7];
      } else if m == L + 20 {
        assert t[m] == ')';
      } else if m < L + 21 + |after| {
        assert t[m] == after[m - L - 21];
      } else if more != [] {
        var i :| 0 <= i < |after| && after[i] == '\n';
        assert t[0..m][L + 21 + i] == after[i];
      }
    }
  }

  /** A call that already has the engine argument is not matched by the Excel pass: the
    * only quote followed by ')' in it closes `openpyxl`, and the rest of its line has no
    * quote. */
  lemma NoMatchEngineCall(c: ReadCall, after: string, more: string)
    requires WellFormedCall(c) && c.engine
    requires QuoteFree(after) && ('\n' in after || more == [])
    ensures NoMatchAt(c.Text() + (after + more), Excel, 0)
  {
    var Q := CallPrefix(Excel);
    var s := c.Text() + (after + more);
    assert s[0..] == s;
    assert s == Q + [c.quote] + (c.path + [c.quote] + EngineArgument + ")" + after + more);
    assert s[|Q| + 1..] == c.path + [c.quote] + EngineArgument + ")" + after + more;
    LazyGroupPastEngine(c.path, c.quote, after, more);
  }

  // ---------------------------------------------------------------------------
  // One pass over code

  /** The call a match of the pass for `f` on group `g` is replaced by. */
  function ReplacedCall(f: Format, g: string, folder: string, existing: set<string>): ReadCall {
    if f == Parquet then
      match Probe(DatasetName(g), folder, existing)
      case Some((path, format)) => ReadCall(format, '\'', path, format == Excel)
      case None => ReadCall(Parquet, '\'', folder + g, false)
    else ReadCall(f, '\'', if StartsWith(g, folder) then g else folder + g, f == Excel)
  }

  lemma NotFoundText(x: string)
    ensures "pd.read_parquet('" + x + "')" == ReadCall(Parquet, '\'', x, false).Text()
  {
  }

  lemma NotFoundInFolderText(folder: string, g: string)
    ensures "pd.read_parquet('" + folder + g + "')" == ReadCall(Parquet, '\'', folder + g, false).Text()
  {
    NotFoundText(folder + g);
    assert "pd.read_parquet('" + folder + g == "pd.read_parquet('" + (folder + g);
  }

  lemma ReplacementIsCall(f: Format, g: string, folder: string, existing: set<string>)
    ensures Replacement(f, g, folder, existing) == ReplacedCall(f, g, folder, existing).Text()
  {
    if f == Parquet && Probe(DatasetName(g), folder, existing).None? {
      NotFoundText(folder + g);
    }
  }

  /** The pass for `f` on one call: calls of `f` without the engine argument are replaced,
    * all others kept. */
  function PassCall(c: ReadCall, f: Format, folder: string, existing: set<string>): ReadCall {
    if c.format == f && !c.engine then ReplacedCall(f, c.path, folder, existing) else c
  }

  function PassPieces(ps: seq<Piece>, f: Format, folder: string, existing: set<string>): (r: seq<Piece>)
    ensures |r| == |ps|
    ensures forall i :: 0 <= i < |ps| ==> r[i] == Piece(PassCall(ps[i].call, f, folder, existing), ps[i].after)
  {
    seq(|ps|, i requires 0 <= i < |ps| => Piece(PassCall(ps[i].call, f, folder, existing), ps[i].after))
  }

  lemma PassOverPlain(a: string, r: string, f: Format, folder: string, existing: set<string>)
    requires QuoteFree(a) && (r == [] || StartsWith(r, "pd."))
    ensures Pass(a + r, f, folder, existing) == a + Pass(r, f, folder, existing)
  {
    forall k | 0 <= k < |a| ensures NoMatchAt(a + r, f, k) {
      NoMatchInPlain(a, r, f, k);
    }
    PassSkip(a, r, f, folder, existing);
  }

  lemma PassOverMatchedCall(c: ReadCall, tail: string, folder: string, existing: set<string>)
    requires WellFormedCall(c) && !c.engine
    ensures Pass(c.Text() + tail, c.format, folder, existing)
      == Replacement(c.format, c.path, folder, existing) + Pass(tail, c.format, folder, existing)
  {
    MatchOwnCall(c, tail);
    CallTextLayout(c);
    var s := c.Text() + tail;
    var start := |CallPrefix(c.format)| + 1;
    assert s[start..start + |c.path|] == c.path;
    assert s[start + |c.path| + 2..] == tail;
    PassAtMatch(s, c.format, folder, existing, c.path, tail);
  }

  /** Where the pattern matches at the start with group `g`, followed by `rest`, the pass
    * replaces the match and goes on with `rest`. */
  lemma PassAtMatch(s: string, f: Format, folder: string, existing: set<string>, g: string, rest: string)
    requires MatchAt(s, f) == Some(|g|)
    requires var start := |CallPrefix(f)| + 1; s[start..start + |g|] == g && s[start + |g| + 2..] == rest
    ensures Pass(s, f, folder, existing) == Replacement(f, g, folder, existing) + Pass(rest, f, folder, existing)
  {
    match f
    case Parquet => PassAtParquetMatch(s, f, folder, existing, g, rest);
    case Csv => PassAtCsvMatch(s, f, folder, existing, g, rest);
    case Json => PassAtJsonMatch(s, f, folder, existing, g, rest);
    case Excel => PassAtExcelMatch(s, f, folder, existing, g, rest);
  }

  // The same step for each format on its own: with the format fixed, the proof sees a
  // single reader name and extension instead of all four.

  lemma PassAtParquetMatch(s: string, f: Format, folder: string, existing: set<string>, g: string, rest: string)
    requires f == Parquet
    requires MatchAt(s, f) == Some(|g|)
    requires var start := |CallPrefix(f)| + 1; s[start..start + |g|] == g && s[start + |g| + 2..] == rest
    ensures Pass(s, f, folder, existing) == Replacement(f, g, folder, existing) + Pass(rest, f, folder, existing)
  {
    assert s != [];
  }
  lemma PassAtCsvMatch(s: string, f: Format, folder: string, existing: set<string>, g: string, rest: string)
    requires f == Csv
    requires MatchAt(s, f) == Some(|g|)
    requires var start := |CallPrefix(f)| + 1; s[start..start + |g|] == g && s[start + |g| + 2..] == rest
    ensures Pass(s, f, folder, existing) == Replacement(f, g, folder, existing) + Pass(rest, f, folder, existing)
  {
    assert s != [];
  }
  lemma PassAtJsonMatch(s: string, f: Format, folder: string, existing: set<string>, g: string, rest: string)
    requires f == Json
    requires MatchAt(s, f) == Some(|g|)
    requires var start := |CallPrefix(f)| + 1; s[start..start + |g|] == g && s[start + |g| + 2..] == rest
    ensures Pass(s, f, folder, existing) == Replacement(f, g, folder, existing) + Pass(rest, f, folder, existing)
  {
    assert s != [];
  }
  lemma PassAtExcelMatch(s: string, f: Format, folder: string, existing: set<string>, g: string, rest: string)
    requires f == Excel
    requires MatchAt(s, f) == Some(|g|)
    requires var start := |CallPrefix(f)| + 1; s[start..start + |g|] == g && s[start + |g| + 2..] == rest
    ensures Pass(s, f, folder, existing) == Replacement(f, g, folder, existing) + Pass(rest, f, folder, existing)
  {
    assert s != [];
  }

  lemma PassOverKeptCall(c: ReadCall, after: string, more: string, f: Format, folder: string, existing: set<string>)
    requires WellFormedCall(c) && !(c.format == f && !c.engine)
    requires QuoteFree(after) && ('\n' in after || more == [])
    ensures Pass(c.Text() + (after + more), f, folder, existing) == c.Text() + Pass(after + more, f, folder, existing)
  {
    forall k | 0 <= k < |c.Text()| ensures NoMatchAt(c.Text() + (after + more), f, k) {
      if k > 0 || f != c.format {
        NoMatchInCall(c, after + more, f, k);
      } else {
        NoMatchEngineCall(c, after, more);
      }
    }
    PassSkip(c.Text(), after + more, f, folder, existing);
  }

  lemma WellFormedTail(ps: seq<Piece>)
    requires ps != [] && WellFormedPieces(ps)
    ensures WellFormedPieces(ps[1..])
    ensures WellFormedCall(ps[0].call) && QuoteFree(ps[0].after)
    ensures '\n' in ps[0].after || ps[1..] == []
  {
    assert WellFormedCall(ps[0].call) && QuoteFree(ps[0].after) && (1 < |ps| ==> '\n' in ps[0].after);
  }

  /** The pass for `f` over well-formed pieces rewrites each call of `f` and copies every
    * other character. */
  lemma {:induction false} PassPiecesText(ps: seq<Piece>, f: Format, folder: string, existing: set<string>)
    requires WellFormedPieces(ps)
    ensures Pass(PiecesText(ps), f, folder, existing) == PiecesText(PassPieces(ps, f, folder, existing))
    decreases |ps|
  {
    if ps != [] {
      var c, a, rest := ps[0].call, ps[0].after, ps[1..];
      var r := PiecesText(rest);
      WellFormedTail(ps);
      PassPiecesText(rest, f, folder, existing);
      var out := PassPieces(ps, f, folder, existing);
      assert out[1..] == PassPieces(rest, f, folder, existing);
      PiecesTextStart(rest);
      PassOverPlain(a, r, f, folder, existing);
      if c.format == f && !c.engine {
        PassOverMatchedCall(c, a + r, folder, existing);
        ReplacementIsCall(f, c.path, folder, existing);
      } else {
        PassOverKeptCall(c, a, r, f, folder, existing);
      }
    }
  }

  /** The pass for `f` over well-formed code keeps the text before the first call and after
    * each call, and rewrites each call of `f`. */
  lemma PassCodeText(code: Code, f: Format, folder: string, existing: set<string>)
    requires WellFormedCode(code)
    ensures Pass(CodeText(code), f, folder, existing)
      == CodeText(Code(code.head, PassPieces(code.pieces, f, folder, existing)))
  {
    PiecesTextStart(code.pieces);
    PassOverPlain(code.head, PiecesText(code.pieces), f, folder, existing);
    PassPiecesText(code.pieces, f, folder, existing);
  }

  // ---------------------------------------------------------------------------
  // Well-formedness is kept

  lemma PlainPathConcat(a: string, b: string)
    requires PlainPath(a) && PlainPath(b)
    ensures PlainPath(a + b)
  {
    forall i | 0 <= i < |a + b| ensures !IsQuote((a + b)[i]) && (a + b)[i] != '\n' && (a + b)[i] != '(' {
      if i >= |a| { assert (a + b)[i] == b[i - |a|]; }
    }
  }

  lemma PlainPathSlice(p: string, lo: nat, hi: nat)
    requires PlainPath(p) && lo <= hi <= |p|
    ensures PlainPath(p[lo..hi])
  {
    forall i | 0 <= i < hi - lo ensures !IsQuote(p[lo..hi][i]) && p[lo..hi][i] != '\n' && p[lo..hi][i] != '(' {
      assert p[lo..hi][i] == p[lo + i];
    }
  }

  lemma DatasetNameSlice(g: string)
    ensures exists lo: nat, hi: nat :: lo <= hi <= |g| && DatasetName(g) == g[lo..hi]
  {
    var b := BaseName(g);
    var lo: nat := match LastIndex(g, '/') case None => 0 case Some(i) => i + 1;
    assert b == g[lo..];
    var hi: nat := match ExtensionDot(b) case None => |b| case Some(d) => d;
    assert DatasetName(g) == b[..hi] == g[lo..lo + hi];
  }

  lemma DatasetNamePlain(g: string)
    requires PlainPath(g)
    ensures PlainPath(DatasetName(g))
  {
    DatasetNameSlice(g);
    var lo: nat, hi: nat :| lo <= hi <= |g| && DatasetName(g) == g[lo..hi];
    PlainPathSlice(g, lo, hi);
  }

  lemma ExtensionPlain(f: Format)
    ensures PlainPath(f.Ext()) && '/' !in f.Ext() && f.Ext()[0] == '.'
  {
    assert '\'' !in f.Ext() && '"' !in f.Ext() && '\n' !in f.Ext() && '(' !in f.Ext();
  }

  /** A probed path, in a folder that ends in '/', ends with the probed extension and is
    * plain when the name is. */
  lemma CandidateShape(name: string, folder: string, i: nat)
    requires i < |SupportedFormats| && FolderOk(folder) && PlainPath(name)
    ensures PlainPath(Candidate(name, folder, i))
    ensures EndsWith(Candidate(name, folder, i), SupportedFormats[i].Ext())
  {
    var ext := SupportedFormats[i].Ext();
    ExtensionPlain(SupportedFormats[i]);
    PlainPathConcat(name, ext);
    PlainPathConcat(folder, name + ext);
    var p := Candidate(name, folder, i);
    assert p == name + ext || p == folder + (name + ext);
    assert p[|p| - |ext|..] == ext;
  }

  lemma PassCallWellFormed(c: ReadCall, f: Format, folder: string, existing: set<string>)
    requires WellFormedCall(c) && FolderOk(folder)
    ensures WellFormedCall(PassCall(c, f, folder, existing))
  {
    if c.format == f && !c.engine {
      var g := c.path;
      if f == Parquet {
        var name := DatasetName(g);
        DatasetNamePlain(g);
        ProbeIsFirstHit(name, folder, existing);
        match Probe(name, folder, existing)
        case Some((path, format)) =>
          var i :| 0 <= i < |SupportedFormats| && path == Candidate(name, folder, i) && format == SupportedFormats[i];
          CandidateShape(name, folder, i);
        case None =>
          PlainPathConcat(folder, g);
      } else {
        PlainPathConcat(folder, g);
        assert EndsWith(folder + g, f.Ext()) by {
          assert (folder + g)[|folder + g| - |f.Ext()|..] == g[|g| - |f.Ext()|..];
        }
      }
    }
  }

  lemma PassPiecesWellFormed(ps: seq<Piece>, f: Format, folder: string, existing: set<string>)
    requires WellFormedPieces(ps) && FolderOk(folder)
    ensures WellFormedPieces(PassPieces(ps, f, folder, existing))
  {
    forall i | 0 <= i < |ps| ensures WellFormedCall(PassCall(ps[i].call, f, folder, existing)) {
      PassCallWellFormed(ps[i].call, f, folder, existing);
    }
  }

  // ---------------------------------------------------------------------------
  // The whole rewrite

  /** `modify_dataset_paths` on one call: the parquet pass, then the explicit ones. */
  function RewriteCall(c: ReadCall, folder: string, existing: set<string>): ReadCall {
    PassCall(PassCall(PassCall(PassCall(c, Parquet, folder, existing), Csv, folder, existing), Json, folder, existing), Excel, folder, existing)
  }

  /** `modify_dataset_paths` on code: every call rewritten, every other character kept. */
  function RewriteCode(code: Code, folderArg: string, existing: set<string>): (r: Code)
    ensures r.head == code.head && |r.pieces| == |code.pieces|
    ensures forall i :: 0 <= i < |code.pieces| ==>
      r.pieces[i] == Piece(RewriteCall(code.pieces[i].call, NormalizeFolder(folderArg), existing), code.pieces[i].after)
  {
    var folder := NormalizeFolder(folderArg);
    Code(code.head, seq(|code.pieces|, i requires 0 <= i < |code.pieces| =>
      Piece(RewriteCall(code.pieces[i].call, folder, existing), code.pieces[i].after)))
  }

  lemma NormalizeFolderOk(folderArg: string)
    requires PlainPath(folderArg)
    ensures FolderOk(NormalizeFolder(folderArg))
  {
    var r := NormalizeFolder(folderArg);
    var stem := r[..|r| - 1];
    assert stem == folderArg[..|stem|];
    PlainPathSlice(folderArg, 0, |stem|);
    assert PlainPath("/");
    PlainPathConcat(stem, "/");
    assert r == stem + "/";
  }

  lemma ApplyExplicitPasses(code: string, folder: string, existing: set<string>)
    ensures ApplyPasses(code, ExplicitFormats, folder, existing)
      == Pass(Pass(Pass(code, Csv, folder, existing), Json, folder, existing), Excel, folder, existing)
  {
    assert ExplicitFormats[..2] == [Csv, Json];
    assert [Csv, Json][..1] == [Csv];
    assert [Csv][..0] == [];
  }

  /** On well-formed code, rewriting the text is rewriting each call in place. */
  lemma RewriteCodeText(code: Code, folderArg: string, existing: set<string>)
    requires WellFormedCode(code) && PlainPath(folderArg)
    ensures RewritePaths(CodeText(code), folderArg, existing) == CodeText(RewriteCode(code, folderArg, existing))
    ensures WellFormedCode(RewriteCode(code, folderArg, existing))
  {
    var F := NormalizeFolder(folderArg);
    NormalizeFolderOk(folderArg);
    var c0 := code;
    PassCodeText(c0, Parquet, F, existing);
    PassPiecesWellFormed(c0.pieces, Parquet, F, existing);
    var c1 := Code(c0.head, PassPieces(c0.pieces, Parquet, F, existing));
    PassCodeText(c1, Csv, F, existing);
    PassPiecesWellFormed(c1.pieces, Csv, F, existing);
    var c2 := Code(c0.head, PassPieces(c1.pieces, Csv, F, existing));
    PassCodeText(c2, Json, F, existing);
    PassPiecesWellFormed(c2.pieces, Json, F, existing);
    var c3 := Code(c0.head, PassPieces(c2.pieces, Json, F, existing));
    PassCodeText(c3, Excel, F, existing);
    PassPiecesWellFormed(c3.pieces, Excel, F, existing);
    var c4 := Code(c0.head, PassPieces(c3.pieces, Excel, F, existing));
    ApplyExplicitPasses(Pass(CodeText(code), Parquet, F, existing), F, existing);
    assert c4 == RewriteCode(code, folderArg, existing);
  }

  // ---------------------------------------------------------------------------
  // Single calls

  /** A single well-formed call is rewritten as one call. */
  lemma SingleCallRewrite(c: ReadCall, folderArg: string, existing: set<string>)
    requires WellFormedCall(c) && PlainPath(folderArg)
    ensures RewritePaths(c.Text(), folderArg, existing) == RewriteCall(c, NormalizeFolder(folderArg), existing).Text()
  {
    var code := Code("", [Piece(c, "")]);
    assert [Piece(c, "")][1..] == [];
    assert PiecesText([]) == [];
    assert c.Text() + ("" + []) == c.Text();
    assert CodeText(code) == c.Text();
    RewriteCodeText(code, folderArg, existing);
    var out := RewriteCode(code, folderArg, existing);
    assert out.pieces[1..] == [];
    assert CodeText(out) == out.pieces[0].call.Text();
  }

  lemma DatasetNameHasNoSlash(g: string)
    ensures '/' !in DatasetName(g)
  {
    var b := BaseName(g);
    assert '/' !in b;
    var hi: nat := match ExtensionDot(b) case None => |b| case Some(d) => d;
    assert DatasetName(g) == b[..hi];
  }

  /** In a folder that ends in '/', a probed path is the folder, the name and the extension. */
  lemma CandidateOfName(name: string, folder: string, j: nat)
    requires j < |SupportedFormats| && EndsWith(folder, "/") && '/' !in name
    ensures Candidate(name, folder, j) == folder + name + SupportedFormats[j].Ext()
    ensures StartsWith(Candidate(name, folder, j), folder)
  {
    var x := name + SupportedFormats[j].Ext();
    ExtensionPlain(SupportedFormats[j]);
    assert !StartsWith(x, "/") by {
      if name != [] { assert x[0] == name[0] && name[0] in name; } else { assert x[0] == '.'; }
    }
    CandidateInFolder(name, folder, j);
    assert (folder + x)[..|folder|] == folder;
  }

  /** Passes for other formats, and passes over a call already in the rewritten form, keep
    * the call. */
  lemma ExplicitPassesKeep(c: ReadCall, folder: string, existing: set<string>)
    requires c.quote == '\'' && c.engine == (c.format == Excel)
    requires c.format != Parquet ==> StartsWith(c.path, folder)
    ensures PassCall(PassCall(PassCall(c, Csv, folder, existing), Json, folder, existing), Excel, folder, existing) == c
  {
  }

  /** The call a found parquet call becomes. */
  lemma ParquetFoundCall(c: ReadCall, folder: string, existing: set<string>, i: nat)
    requires c.format == Parquet && !c.engine && EndsWith(folder, "/")
    requires i < |SupportedFormats|
    requires Probe(DatasetName(c.path), folder, existing)
      == Some((Candidate(DatasetName(c.path), folder, i), SupportedFormats[i]))
    ensures var name, f := DatasetName(c.path), SupportedFormats[i];
      RewriteCall(c, folder, existing) == ReadCall(f, '\'', folder + name + f.Ext(), f == Excel)
  {
    var name, f := DatasetName(c.path), SupportedFormats[i];
    DatasetNameHasNoSlash(c.path);
    CandidateOfName(name, folder, i);
    var once := ReadCall(f, '\'', folder + name + f.Ext(), f == Excel);
    assert PassCall(c, Parquet, folder, existing) == once;
    ExplicitPassesKeep(once, folder, existing);
  }

  /** A parquet call whose dataset is found becomes the reader of the first existing
    * extension, on the folder, the name and that extension; so a parquet call becomes
    * `read_csv` when only the `.csv` file exists. */
  lemma ParquetCallFound(q: char, g: string, folderArg: string, existing: set<string>, i: nat)
    requires IsQuote(q) && PlainPath(g) && PlainPath(folderArg)
    requires i < |SupportedFormats|
    requires var F, name := NormalizeFolder(folderArg), DatasetName(g);
      F + name + SupportedFormats[i].Ext() in existing
      && forall j :: 0 <= j < i ==> F + name + SupportedFormats[j].Ext() !in existing
    ensures var F, name := NormalizeFolder(folderArg), DatasetName(g);
      RewritePaths(ReadCall(Parquet, q, g, false).Text(), folderArg, existing)
        == RenderCall(SupportedFormats[i], F + name + SupportedFormats[i].Ext())
  {
    var F, name := NormalizeFolder(folderArg), DatasetName(g);
    var c := ReadCall(Parquet, q, g, false);
    NormalizeFolderOk(folderArg);
    DatasetNameHasNoSlash(g);
    forall j | 0 <= j <= i ensures Candidate(name, F, j) == F + name + SupportedFormats[j].Ext() {
      CandidateOfName(name, F, j);
    }
    ProbeFromFindsFirst(name, F, existing, 0, i);
    SingleCallRewrite(c, folderArg, existing);
    ParquetFoundCall(c, F, existing, i);
  }

  /** The call a parquet call whose dataset is not found becomes. */
  lemma ParquetNotFoundCall(c: ReadCall, folder: string, existing: set<string>)
    requires c.format == Parquet && !c.engine
    requires Probe(DatasetName(c.path), folder, existing) == None
    ensures RewriteCall(c, folder, existing) == ReadCall(Parquet, '\'', folder + c.path, false)
  {
    var once := ReadCall(Parquet, '\'', folder + c.path, false);
    assert PassCall(c, Parquet, folder, existing) == once;
    ExplicitPassesKeep(once, folder, existing);
  }

  lemma ParquetCallNotFoundText(q: char, g: string, folderArg: string, existing: set<string>)
    requires IsQuote(q) && PlainPath(g) && PlainPath(folderArg)
    requires Probe(DatasetName(g), NormalizeFolder(folderArg), existing) == None
    ensures RewritePaths(ReadCall(Parquet, q, g, false).Text(), folderArg, existing)
      == ReadCall(Parquet, '\'', NormalizeFolder(folderArg) + g, false).Text()
  {
    var c := ReadCall(Parquet, q, g, false);
    SingleCallRewrite(c, folderArg, existing);
    ParquetNotFoundCall(c, NormalizeFolder(folderArg), existing);
  }

  /** A parquet call whose dataset is not found keeps `read_parquet` on the folder followed
    * by the original path. */
  lemma ParquetCallNotFound(q: char, g: string, folderArg: string, existing: set<string>)
    requires IsQuote(q) && PlainPath(g) && PlainPath(folderArg)
    requires Probe(DatasetName(g), NormalizeFolder(folderArg), existing) == None
    ensures RewritePaths(ReadCall(Parquet, q, g, false).Text(), folderArg, existing)
      == "pd.read_parquet('" + NormalizeFolder(folderArg) + g + "')"
  {
    ParquetCallNotFoundText(q, g, folderArg, existing);
    NotFoundInFolderText(NormalizeFolder(folderArg), g);
  }

  /** The call an explicit csv, json or Excel call becomes. */
  lemma ExplicitRewriteCall(c: ReadCall, folder: string, existing: set<string>)
    requires c.format != Parquet && !c.engine
    ensures RewriteCall(c, folder, existing)
      == ReadCall(c.format, '\'', if StartsWith(c.path, folder) then c.path else folder + c.path, c.format == Excel)
  {
  }

  /** An explicit csv, json or Excel call keeps a path that starts with the folder and gets
    * the folder in front of any other; Excel calls gain `engine='openpyxl'`. */
  lemma ExplicitCall(f: Format, q: char, g: string, folderArg: string, existing: set<string>)
    requires f != Parquet && IsQuote(q) && PlainPath(g) && PlainPath(folderArg) && EndsWith(g, f.Ext())
    ensures var F := NormalizeFolder(folderArg);
      RewritePaths(ReadCall(f, q, g, false).Text(), folderArg, existing)
        == RenderCall(f, if StartsWith(g, F) then g else F + g)
  {
    var c := ReadCall(f, q, g, false);
    SingleCallRewrite(c, folderArg, existing);
    ExplicitRewriteCall(c, NormalizeFolder(folderArg), existing);
  }

  // ---------------------------------------------------------------------------
  // Rewriting twice

  predicate HasNonDot(s: string) { exists k :: 0 <= k < |s| && s[k] != '.' }

  /** Every parquet call names a dataset (a base name with a character other than '.')
    * whose file is found in the folder. */
  predicate ParquetDatasetsFound(code: Code, folder: string, existing: set<string>) {
    forall i :: 0 <= i < |code.pieces| && code.pieces[i].call.format == Parquet ==>
      var name := DatasetName(code.pieces[i].call.path);
      HasNonDot(name) && Probe(name, folder, existing).Some?
  }

  /** A found parquet dataset's path names the same dataset again. */
  lemma FoundPathNamesSameDataset(name: string, folder: string, i: nat)
    requires i < |SupportedFormats| && FolderOk(folder)
    requires HasNonDot(name) && '/' !in name
    ensures DatasetName(folder + name + SupportedFormats[i].Ext()) == name
  {
    var ext := SupportedFormats[i].Ext();
    ExtensionPlain(SupportedFormats[i]);
    var dir := folder[..|folder| - 1];
    assert folder == dir + "/";
    var x := ext[1..];
    assert ext == "." + x;
    assert '.' !in x && '/' !in x by {
      assert '.' !in SupportedFormats[i].Ext()[1..];
    }
    assert folder + name + ext == dir + "/" + name + "." + x;
    DatasetNameOfPath(dir, name, x);
  }

  /** A call in the rewritten form, with a path in the folder, is kept by every pass. */
  lemma FolderCallFixed(c: ReadCall, folder: string, existing: set<string>)
    requires c.format != Parquet && c.quote == '\'' && c.engine == (c.format == Excel)
    requires StartsWith(c.path, folder)
    ensures RewriteCall(c, folder, existing) == c
  {
    assert PassCall(c, Parquet, folder, existing) == c;
    ExplicitPassesKeep(c, folder, existing);
  }

  /** A found parquet call, once rewritten, is kept by a second rewrite. */
  lemma ParquetCallIdempotent(c: ReadCall, folder: string, existing: set<string>)
    requires c.format == Parquet && !c.engine && FolderOk(folder)
    requires HasNonDot(DatasetName(c.path)) && Probe(DatasetName(c.path), folder, existing).Some?
    ensures RewriteCall(RewriteCall(c, folder, existing), folder, existing) == RewriteCall(c, folder, existing)
  {
    var name := DatasetName(c.path);
    DatasetNameHasNoSlash(c.path);
    ProbeIsFirstHit(name, folder, existing);
    var i :| 0 <= i < |SupportedFormats| && Probe(name, folder, existing)
      == Some((Candidate(name, folder, i), SupportedFormats[i]));
    ParquetFoundCall(c, folder, existing, i);
    FoundCallKept(name, folder, existing, i);
  }

  /** The call written for a found dataset is kept by a second rewrite. */
  lemma FoundCallKept(name: string, folder: string, existing: set<string>, i: nat)
    requires FolderOk(folder) && i < |SupportedFormats| && HasNonDot(name) && '/' !in name
    requires Probe(name, folder, existing) == Some((Candidate(name, folder, i), SupportedFormats[i]))
    ensures var f := SupportedFormats[i];
      var once := ReadCall(f, '\'', folder + name + f.Ext(), f == Excel);
      RewriteCall(once, folder, existing) == once
  {
    var f := SupportedFormats[i];
    var once := ReadCall(f, '\'', folder + name + f.Ext(), f == Excel);
    if f == Parquet {
      FoundPathNamesSameDataset(name, folder, i);
      ParquetFoundCall(once, folder, existing, i);
    } else {
      assert StartsWith(once.path, folder) by { assert (folder + (name + f.Ext()))[..|folder|] == folder; }
      FolderCallFixed(once, folder, existing);
    }
  }

  /** On one call: rewriting the rewritten call changes nothing, provided a parquet call's
    * dataset is found. */
  lemma RewriteCallIdempotent(c: ReadCall, folder: string, existing: set<string>)
    requires WellFormedCall(c) && FolderOk(folder)
    requires c.format == Parquet ==> HasNonDot(DatasetName(c.path)) && Probe(DatasetName(c.path), folder, existing).Some?
    ensures RewriteCall(RewriteCall(c, folder, existing), folder, existing) == RewriteCall(c, folder, existing)
  {
    if c.engine {
      assert RewriteCall(c, folder, existing) == c;
    } else if c.format == Parquet {
      ParquetCallIdempotent(c, folder, existing);
    } else {
      ExplicitRewriteCall(c, folder, existing);
      var once := RewriteCall(c, folder, existing);
      assert StartsWith(once.path, folder) by {
        if !StartsWith(c.path, folder) { assert (folder + c.path)[..|folder|] == folder; }
      }
      FolderCallFixed(once, folder, existing);
    }
  }

  /** Rewriting twice equals rewriting once on well-formed code whose parquet datasets are
    * all found. */
  lemma RewriteIdempotent(code: Code, folderArg: string, existing: set<string>)
    requires WellFormedCode(code) && PlainPath(folderArg)
    requires ParquetDatasetsFound(code, NormalizeFolder(folderArg), existing)
    ensures var once := RewritePaths(CodeText(code), folderArg, existing);
      RewritePaths(once, folderArg, existing) == once
  {
    var F := NormalizeFolder(folderArg);
    NormalizeFolderOk(folderArg);
    RewriteCodeText(code, folderArg, existing);
    var code1 := RewriteCode(code, folderArg, existing);
    RewriteCodeText(code1, folderArg, existing);
    forall i | 0 <= i < |code.pieces|
      ensures RewriteCall(code1.pieces[i].call, F, existing) == code1.pieces[i].call
    {
      RewriteCallIdempotent(code.pieces[i].call, F, existing);
    }
    assert RewriteCode(code1, folderArg, existing) == code1;
  }

  lemma BaseNameInFolderSlash(folder: string, g: string, i: nat)
    requires EndsWith(folder, "/") && LastIndex(g, '/') == Some(i)
    ensures BaseName(folder + g) == BaseName(g)
  {
    var post := g[i + 1..];
    SplitAtSlash(folder, g, i);
    BaseNameAfterSlash(folder + g[..i], post);
  }

  lemma SplitAtSlash(folder: string, g: string, i: nat)
    requires i < |g| && g[i] == '/'
    ensures folder + g == folder + g[..i] + ['/'] + g[i + 1..]
  {
    assert g == g[..i] + ['/'] + g[i + 1..];
  }

  lemma BaseNameAfterSlash(a: string, b: string)
    requires '/' !in b
    ensures BaseName(a + ['/'] + b) == b
  {
    LastIndexAfter(a, '/', b);
    assert (a + ['/'] + b)[|a| + 1..] == b;
  }

  lemma BaseNameInFolderNoSlash(folder: string, g: string)
    requires EndsWith(folder, "/") && LastIndex(g, '/') == None
    ensures BaseName(folder + g) == BaseName(g)
  {
    var dir := folder[..|folder| - 1];
    assert folder + g == dir + ['/'] + g;
    LastIndexAfter(dir, '/', g);
  }

  lemma BaseNameInFolder(folder: string, g: string)
    requires EndsWith(folder, "/")
    ensures BaseName(folder + g) == BaseName(g)
  {
    match LastIndex(g, '/')
    case Some(i) => BaseNameInFolderSlash(folder, g, i);
    case None => BaseNameInFolderNoSlash(folder, g);
  }

  lemma NotFoundTwiceText(folder: string, g: string)
    ensures "pd.read_parquet('" + folder + folder + g + "')" == ReadCall(Parquet, '\'', folder + (folder + g), false).Text()
  {
    NotFoundText(folder + (folder + g));
    assert "pd.read_parquet('" + folder + folder + g == "pd.read_parquet('" + (folder + (folder + g));
  }

  /** Where no file is found, a second rewrite puts the folder in front once more. */
  lemma NotFoundRewritesAgain(q: char, g: string, folderArg: string, existing: set<string>)
    requires IsQuote(q) && PlainPath(g) && PlainPath(folderArg)
    requires Probe(DatasetName(g), NormalizeFolder(folderArg), existing) == None
    ensures var F := NormalizeFolder(folderArg);
      var once := RewritePaths(ReadCall(Parquet, q, g, false).Text(), folderArg, existing);
      once == "pd.read_parquet('" + F + g + "')"
      && RewritePaths(once, folderArg, existing) == "pd.read_parquet('" + F + F + g + "')"
      && RewritePaths(once, folderArg, existing) != once
  {
    var F := NormalizeFolder(folderArg);
    NormalizeFolderOk(folderArg);
    var c1 := ReadCall(Parquet, '\'', F + g, false);
    var c2 := ReadCall(Parquet, '\'', F + (F + g), false);
    ParquetCallNotFoundText(q, g, folderArg, existing);
    NotFoundInFolderText(F, g);
    PlainPathConcat(F, g);
    BaseNameInFolder(F, g);
    assert DatasetName(F + g) == DatasetName(g);
    ParquetCallNotFoundText('\'', F + g, folderArg, existing);
    NotFoundTwiceText(F, g);
    CallTextLayout(c1);
    CallTextLayout(c2);
  }
}
