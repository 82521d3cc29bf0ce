/** `clean_mysql_pandas_code` (utilities/agents.py): the code kept from a model answer to a
  * MySQL question. The first python-tagged fenced block is preferred, then the first
  * untagged one, and with no block at all the python-looking lines are kept; comments and
  * blank lines are then removed. */
module MysqlCleaning {
  import opened Wrappers
  import opened Text
  import opened CodeProcessing

  // ---------------------------------------------------------------------------
  // Fenced blocks

  /** The first block opened by `open` and closed by a later fence, stripped:
    * `re.findall(open + r'\s*(.*?)\s*```', raw, re.DOTALL)[0].strip()` when there is a match.
    * The regex match starts at the first occurrence of `open` (an opening with no fence after
    * it leaves none for a later opening either), its lazy group ends at the first fence after
    * the opening, and the surrounding `\s*` only move whitespace that `strip()` removes anyway. */
  function FencedBlock(raw: string, open: string): (r: Option<string>)
    requires |open| >= |Fence|
    ensures r.Some? ==> !Contains(r.value, Fence) && IsStripped(r.value)
  {
    match IndexOf(raw, open)
    case None => None
    case Some(p) =>
      match IndexOfFrom(raw, Fence, p + |open|)
      case None => None
      case Some(c) =>
        var inner := raw[p + |open|..c];
        assert !Contains(inner, Fence) by {
          forall j: nat | OccursAt(inner, Fence, j) ensures false {
            OccursInSlice(raw, Fence, p + |open|, c, j);
          }
        }
        StripKeepsAbsence(inner, Fence);
        StripIsSlice(inner);
        Some(Strip(inner))
  }

  /** The match `re.findall` returns first: `open` at p, its first occurrence, and the
    * first fence at c after it. */
  predicate FirstBlockAt(raw: string, open: string, p: nat, c: nat) {
    && OccursAt(raw, open, p) && p + |open| <= c && OccursAt(raw, Fence, c)
    && (forall j: nat :: j < p ==> !OccursAt(raw, open, j))
    && (forall j: nat :: p + |open| <= j < c ==> !OccursAt(raw, Fence, j))
  }

  /** There is at most one first block. */
  lemma FirstBlockUnique(raw: string, open: string, p: nat, c: nat, p': nat, c': nat)
    requires FirstBlockAt(raw, open, p, c) && FirstBlockAt(raw, open, p', c')
    ensures p == p' && c == c'
  {
    assert p < p' ==> !OccursAt(raw, open, p);
    assert p' < p ==> !OccursAt(raw, open, p');
    assert p == p' && c < c' ==> !OccursAt(raw, Fence, c);
    assert p == p' && c' < c ==> !OccursAt(raw, Fence, c');
  }

  /** `b` is the stripped text of the first block, at p and c. */
  predicate IsFirstBlock(raw: string, open: string, b: string, p: nat, c: nat) {
    FirstBlockAt(raw, open, p, c) && b == Strip(raw[p + |open|..c])
  }

  /** The block found is the one at the first opening and the first fence after it. */
  lemma FencedBlockUnfold(raw: string, open: string, b: string)
    requires |open| >= |Fence| && FencedBlock(raw, open) == Some(b)
    ensures IndexOf(raw, open).Some? && IndexOf(raw, open).value + |open| <= |raw|
    ensures IndexOfFrom(raw, Fence, IndexOf(raw, open).value + |open|).Some?
    ensures IsFirstBlock(raw, open, b, IndexOf(raw, open).value, IndexOfFrom(raw, Fence, IndexOf(raw, open).value + |open|).value)
  {
    var p := IndexOf(raw, open).value;
    assert FirstBlockAt(raw, open, p, IndexOfFrom(raw, Fence, p + |open|).value);
  }

  /** A block found is the stripped text of the first block. */
  lemma FencedBlockSome(raw: string, open: string, b: string)
    requires |open| >= |Fence| && FencedBlock(raw, open) == Some(b)
    ensures exists p: nat, c: nat :: IsFirstBlock(raw, open, b, p, c)
  {
    FencedBlockUnfold(raw, open, b);
  }

  /** There is no block exactly when no opening is followed by a fence. */
  lemma FencedBlockNone(raw: string, open: string)
    requires |open| >= |Fence|
    ensures FencedBlock(raw, open).None? <==>
      forall p: nat, c: nat :: OccursAt(raw, open, p) && p + |open| <= c ==> !OccursAt(raw, Fence, c)
  {
    var first := IndexOf(raw, open);
    if first.None? {
      assert forall p: nat :: !OccursAt(raw, open, p);
    } else {
      var p := first.value;
      var close := IndexOfFrom(raw, Fence, p + |open|);
      if close.None? {
        forall p': nat, c: nat | OccursAt(raw, open, p') && p' + |open| <= c
          ensures !OccursAt(raw, Fence, c)
        {
          assert p <= p';
        }
      } else {
        assert OccursAt(raw, open, p) && p + |open| <= close.value && OccursAt(raw, Fence, close.value);
      }
    }
  }

  /** The block is the stripped text between the first opening and the first fence after
    * it, and there is none exactly when no opening is followed by a fence. */
  lemma FencedBlockIsFirst(raw: string, open: string)
    requires |open| >= |Fence|
    ensures forall b :: FencedBlock(raw, open) == Some(b) ==> exists p: nat, c: nat :: IsFirstBlock(raw, open, b, p, c)
    ensures FencedBlock(raw, open).None? <==>
      forall p: nat, c: nat :: OccursAt(raw, open, p) && p + |open| <= c ==> !OccursAt(raw, Fence, c)
  {
    forall b | FencedBlock(raw, open) == Some(b)
      ensures exists p: nat, c: nat :: IsFirstBlock(raw, open, b, p, c)
    {
      FencedBlockSome(raw, open, b);
    }
    FencedBlockNone(raw, open);
  }

  /** The first python-tagged block. */
  function TaggedBlock(raw: string): Option<string> { FencedBlock(raw, PythonFence) }

  /** The first untagged block. */
  function UntaggedBlock(raw: string): Option<string> { FencedBlock(raw, Fence) }

  // ---------------------------------------------------------------------------
  // Python-looking lines

  /** Lines starting with one of these are prose or markup. */
  const ProsePrefixes: seq<string> := ["#", "*", "-", "Here", "To answer", "This code", "Explanation", "###"]

  /** A kept line holds one of these. */
  const CodeMarkers: seq<string> := ["import", "pd.", "print(", "="]

  /** The number of leading ASCII digits. */
  function DigitRun(s: string): (r: nat)
    ensures r <= |s|
    ensures forall i :: 0 <= i < r ==> IsAsciiDigit(s[i])
    ensures r == |s| || !IsAsciiDigit(s[r])
    decreases |s|
  {
    if s != [] && IsAsciiDigit(s[0]) then 1 + DigitRun(s[1..]) else 0
  }

  /** `re.match(r'^\d+\.', line)`: digits, then a dot. */
  predicate NumberedItem(line: string) {
    var k := DigitRun(line);
    0 < k < |line| && line[k] == '.'
  }

  /** The filter on a stripped line. */
  predicate KeepLine(line: string) {
    && line != []
    && (forall i :: 0 <= i < |ProsePrefixes| ==> !StartsWith(line, ProsePrefixes[i]))
    && !NumberedItem(line)
    && (exists i :: 0 <= i < |CodeMarkers| && Contains(line, CodeMarkers[i]))
  }

  /** The lines, each mapped by `f`, that then pass `keep`, in order. */
  function KeptLines(lines: seq<string>, f: string -> string, keep: string -> bool): (r: seq<string>)
    ensures |r| <= |lines|
    ensures forall i :: 0 <= i < |r| ==> keep(r[i])
    decreases |lines|
  {
    if lines == [] then []
    else
      var line := f(lines[|lines| - 1]);
      KeptLines(lines[..|lines| - 1], f, keep) + (if keep(line) then [line] else [])
  }

  /** A line is kept exactly when it is the mapped form of an input line that passes
    * the filter. */
  lemma {:induction false} KeptLinesMembers(lines: seq<string>, f: string -> string, keep: string -> bool, x: string)
    ensures x in KeptLines(lines, f, keep) <==> exists i :: 0 <= i < |lines| && x == f(lines[i]) && keep(x)
    decreases |lines|
  {
    if lines != [] {
      var n := |lines| - 1;
      var init := lines[..n];
      var line := f(lines[n]);
      var front := KeptLines(init, f, keep);
      assert KeptLines(lines, f, keep) == front + (if keep(line) then [line] else []);
      KeptLinesMembers(init, f, keep, x);
      if x in KeptLines(lines, f, keep) {
        if x in front {
          var i :| 0 <= i < n && x == f(init[i]) && keep(x);
          assert init[i] == lines[i];
        } else {
          assert x == f(lines[n]) && keep(x);
        }
      }
      if exists i :: 0 <= i < |lines| && x == f(lines[i]) && keep(x) {
        var i :| 0 <= i < |lines| && x == f(lines[i]) && keep(x);
        if i < n {
          assert init[i] == lines[i];
          assert x in front;
        }
      }
    }
  }

  /** The python-looking lines: stripped, and passing the filter. */
  function CodeLines(lines: seq<string>): (r: seq<string>)
    ensures forall i :: 0 <= i < |r| ==> KeepLine(r[i]) && IsStripped(r[i])
  {
    var r := KeptLines(lines, Strip, KeepLine);
    forall i | 0 <= i < |r| ensures IsStripped(r[i]) {
      KeptLinesMembers(lines, Strip, KeepLine, r[i]);
      var j :| 0 <= j < |lines| && r[i] == Strip(lines[j]) && KeepLine(r[i]);
      StripIsSlice(lines[j]);
    }
    r
  }

  /** A stripped input line is among the python-looking lines exactly when it passes the filter. */
  lemma CodeLinesKeepAll(lines: seq<string>, i: nat)
    requires i < |lines|
    ensures Strip(lines[i]) in CodeLines(lines) <==> KeepLine(Strip(lines[i]))
  {
    KeptLinesMembers(lines, Strip, KeepLine, Strip(lines[i]));
  }

  /** The no-block branch: strip every line and keep the python-looking ones. */
  method PythonLookingLines(raw: string) returns (code: string)
    ensures code == Join(CodeLines(Split(raw, '\n')), "\n")
  {
    var lines := Split(raw, '\n');
    var pythonLines: seq<string> := [];
    for i := 0 to |lines|
      invariant pythonLines == KeptLines(lines[..i], Strip, KeepLine)
    {
      var line := Strip(lines[i]);
      assert KeptLines(lines[..i + 1], Strip, KeepLine)
          == KeptLines(lines[..i], Strip, KeepLine) + (if KeepLine(line) then [line] else []) by {
        assert lines[..i + 1][..i] == lines[..i];
        assert lines[..i + 1][i] == lines[i];
      }
      if KeepLine(line) {
        pythonLines := pythonLines + [line];
      }
    }
    assert lines[..|lines|] == lines;
    code := Join(pythonLines, "\n");
  }

  // ---------------------------------------------------------------------------
  // Final cleanup

  lemma CharNotContained(s: string, c: char)
    requires !Contains(s, [c])
    ensures c !in s
  {
    if c in s {
      var i :| 0 <= i < |s| && s[i] == c;
      assert s[i..i + 1] == [c];
      assert OccursAt(s, [c], i);
    }
  }

  /** `re.sub(r'#.*$', '', line)` on one line: everything from the first `#` on is cut. */
  function CutComment(line: string): (r: string)
    ensures '#' !in r
    ensures StartsWith(line, r)
    ensures '#' !in line ==> r == line
  {
    var r := Before(line, "#");
    CharNotContained(r, '#');
    if '#' !in line then
      NotContainsWithoutChar(line, "#", '#');
      IndexOfContains(line, "#");
      r
    else r
  }

  /** `re.sub(r'#.*$', '', code, flags=re.MULTILINE)`: every line cut at its first `#`. */
  function RemoveComments(code: string): (r: string)
    ensures '#' !in r
  {
    var parts := Split(code, '\n');
    var cut := seq(|parts|, i requires 0 <= i < |parts| => CutComment(parts[i]));
    JoinWithoutChar(cut, "\n", '#');
    Join(cut, "\n")
  }

  /** The stripped non-blank lines, in order. */
  function NonBlank(lines: seq<string>): (r: seq<string>)
    ensures forall i :: 0 <= i < |r| ==> r[i] != [] && IsStripped(r[i])
    decreases |lines|
  {
    if lines == [] then []
    else
      var line := Strip(lines[0]);
      StripIsStripped(lines[0]);
      var rest := NonBlank(lines[1..]);
      if line != [] then [line] + rest else rest
  }

  /** Stripping and dropping lines brings in no character. */
  lemma {:induction false} NonBlankKeepsChar(lines: seq<string>, c: char)
    requires forall i :: 0 <= i < |lines| ==> c !in lines[i]
    ensures forall i :: 0 <= i < |NonBlank(lines)| ==> c !in NonBlank(lines)[i]
    decreases |lines|
  {
    if lines != [] {
      var rest := lines[1..];
      assert forall i :: 0 <= i < |rest| ==> c !in rest[i] by {
        forall i | 0 <= i < |rest| ensures c !in rest[i] {
          assert rest[i] == lines[i + 1];
        }
      }
      NonBlankKeepsChar(rest, c);
      StripKeepsCharAbsence(lines[0], c);
      assert NonBlank(lines) == if Strip(lines[0]) != [] then [Strip(lines[0])] + NonBlank(rest) else NonBlank(rest);
    }
  }

  /** `'\n'.join(line.strip() for line in code.split('\n') if line.strip())`. */
  function DropBlankLines(code: string): string {
    Join(NonBlank(Split(code, '\n')), "\n")
  }

  /** The comment and blank-line removal that ends every branch. */
  function Cleanup(code: string): string { DropBlankLines(RemoveComments(code)) }

  /** The cleaned text has no `#`, and it is empty or made of non-blank stripped lines. */
  lemma CleanupShape(code: string)
    ensures var r := Cleanup(code);
      && '#' !in r
      && (r == [] || forall i :: 0 <= i < |Split(r, '\n')| ==> Split(r, '\n')[i] != [] && IsStripped(Split(r, '\n')[i]))
  {
    var parts := Split(RemoveComments(code), '\n');
    var kept := NonBlank(parts);
    assert forall i :: 0 <= i < |parts| ==> '#' !in parts[i] by {
      forall i | 0 <= i < |parts| ensures '#' !in parts[i] {
        SplitKeepsChar(RemoveComments(code), '\n', '#', i);
      }
    }
    NonBlankKeepsChar(parts, '#');
    JoinWithoutChar(kept, "\n", '#');
    NonBlankKeepsChar(parts, '\n');
    if kept != [] {
      SplitJoin(kept, '\n');
    }
  }

  /** A part of a split holds no character that the whole does not hold. */
  lemma {:induction false} SplitKeepsChar(s: string, sep: char, c: char, i: nat)
    requires c !in s
    requires i < |Split(s, sep)|
    ensures c !in Split(s, sep)[i]
    decreases |s|
  {
    if s != [] {
      var rest := Split(s[1..], sep);
      if s[0] == sep {
        if i > 0 {
          SplitKeepsChar(s[1..], sep, c, i - 1);
        }
      } else if i == 0 {
        SplitKeepsChar(s[1..], sep, c, 0);
      } else {
        SplitKeepsChar(s[1..], sep, c, i);
      }
    }
  }

  // ---------------------------------------------------------------------------
  // The whole cleaner

  /** The code chosen before the final cleanup. */
  function Selected(raw: string): string {
    match TaggedBlock(raw)
    case Some(block) => block
    case None =>
      match UntaggedBlock(raw)
      case Some(block) => block
      case None => Join(CodeLines(Split(raw, '\n')), "\n")
  }

  /** `clean_mysql_pandas_code`. */
  function CleanMysql(raw: string): (r: string)
    ensures raw == [] ==> r == []
    ensures '#' !in r
    ensures r == [] || forall i :: 0 <= i < |Split(r, '\n')| ==> Split(r, '\n')[i] != [] && IsStripped(Split(r, '\n')[i])
  {
    if raw == [] then []
    else
      CleanupShape(Selected(raw));
      Cleanup(Selected(raw))
  }

  /** The order of choice: the first python-tagged block whenever there is one, even after
    * an untagged block; otherwise the first untagged block; otherwise the python-looking
    * lines. The chosen text then goes through the comment and blank-line cleanup. */
  lemma CleanMysqlChoice(raw: string)
    ensures TaggedBlock(raw).Some? ==> CleanMysql(raw) == Cleanup(TaggedBlock(raw).value)
    ensures TaggedBlock(raw).None? && UntaggedBlock(raw).Some? ==> CleanMysql(raw) == Cleanup(UntaggedBlock(raw).value)
    ensures raw != [] && TaggedBlock(raw).None? && UntaggedBlock(raw).None? ==>
      CleanMysql(raw) == Cleanup(Join(CodeLines(Split(raw, '\n')), "\n"))
  {
    if raw == [] {
      assert IndexOf(raw, PythonFence).None? && IndexOf(raw, Fence).None?;
    }
  }

  /** `clean_mysql_pandas_code`, branch by branch. */
  method CleanMysqlPandasCode(raw: string) returns (code: string)
    ensures code == CleanMysql(raw)
  {
    if raw == [] {
      return "";
    }
    var tagged := TaggedBlock(raw);
    if tagged.Some? {
      code := tagged.value;
    } else {
      var untagged := UntaggedBlock(raw);
      if untagged.Some? {
        code := untagged.value;
      } else {
        code := PythonLookingLines(raw);
      }
    }
    code := RemoveComments(code);
    code := DropBlankLines(code);
  }
}
module MysqlCleaningExamples {
  import opened Wrappers
  import opened Text
  import opened CodeProcessing
  import opened MysqlCleaning

  lemma BareName()
    ensures CleanMysql("x") == ""
  {
    BareNameHasNoBlock();
    BareNameIsProse();
    CleanupOfEmpty();
  }

  lemma BareNameHasNoBlock()
    ensures TaggedBlock("x") == None && UntaggedBlock("x") == None
  {
    assert IndexOf("x", PythonFence) == None;
    assert IndexOf("x", Fence) == None;
  }

  lemma BareNameIsProse()
    ensures CodeLines(Split("x", '\n')) == []
  {
    SplitOfPlain("x", '\n');
    StrippedFixpoint("x");
    OneCharLineDropped('x');
    assert ["x"][..0] == [];
    assert KeptLines(["x"], Strip, KeepLine) == KeptLines([], Strip, KeepLine);
  }

  /** A line of one character other than `=` holds none of the code markers. */
  lemma OneCharLineDropped(x: char)
    requires x != '='
    ensures !KeepLine([x])
  {
    forall i | 0 <= i < |CodeMarkers| ensures !Contains([x], CodeMarkers[i]) {
      var m := CodeMarkers[i];
      forall j: nat | j <= 1 ensures !OccursAt([x], m, j) {
        if i == 3 && j == 0 {
          assert [x][0..1][0] == x;
        }
      }
    }
  }

  lemma CleanupOfEmpty()
    ensures Cleanup("") == ""
  {
    SplitOfPlain("", '\n');
    assert RemoveComments("") == "";
    assert Strip("") == "";
  }

  const FencedName: string := "```\nx\n```"

  lemma FencedNameUntagged()
    ensures IndexOf(FencedName, PythonFence) == None
  {
    assert !OccursAt(FencedName, PythonFence, 0) by { assert FencedName[3] != PythonFence[3]; }
  }

  lemma FencedNameFences()
    ensures IndexOf(FencedName, Fence) == Some(0)
    ensures IndexOfFrom(FencedName, Fence, 3) == Some(6)
  {
    assert OccursAt(FencedName, Fence, 0);
    assert !OccursAt(FencedName, Fence, 3) by { assert FencedName[3] == '\n'; }
    assert !OccursAt(FencedName, Fence, 4) by { assert FencedName[4] == 'x'; }
    assert !OccursAt(FencedName, Fence, 5) by { assert FencedName[5] == '\n'; }
    assert OccursAt(FencedName, Fence, 6);
  }

  lemma FencedBareBlocks()
    ensures TaggedBlock(FencedName) == None
    ensures UntaggedBlock(FencedName) == Some("x")
  {
    FencedNameUntagged();
    FencedNameBlock();
  }

  lemma FencedNameBlock()
    ensures UntaggedBlock(FencedName) == Some("x")
  {
    FencedNameFences();
    InnerOfFencedName();
    var inner := FencedName[3..6];
    assert UntaggedBlock(FencedName) == Some(Strip(inner));
  }

  lemma InnerOfFencedName()
    ensures Strip(FencedName[3..6]) == "x"
  {
    assert FencedName[3..6] == ['\n', 'x', '\n'];
    StripOfPadded('x');
  }

  /** A character between two line breaks is what `strip()` leaves. */
  lemma StripOfPadded(x: char)
    requires !IsSpace(x)
    ensures Strip(['\n', x, '\n']) == [x]
  {
    var t := [x, '\n'];
    assert ['\n', x, '\n'][1..] == t;
    assert LStrip(['\n', x, '\n']) == LStrip(t) == t;
    assert t[..1] == [x];
    assert RStrip(t) == RStrip([x]) == [x];
  }

  lemma CleanupOfName()
    ensures Cleanup("x") == "x"
  {
    SplitOfPlain("x", '\n');
    assert CutComment("x") == "x";
    assert RemoveComments("x") == "x";
    assert Strip("x") == "x";
    assert NonBlank(["x"]) == ["x"];
  }

  lemma FencedBareName()
    ensures CleanMysql(FencedName) == "x"
  {
    FencedBareBlocks();
    CleanupOfName();
  }

  /** Cleaning is not idempotent: a bare name in an untagged block comes out as the name,
    * which a second cleaning drops as prose. */
  lemma CleanMysqlNotIdempotent()
    ensures CleanMysql(CleanMysql(FencedName)) != CleanMysql(FencedName)
  {
    FencedBareName();
    BareName();
  }
}
