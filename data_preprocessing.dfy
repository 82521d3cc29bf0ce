/**
 * Column-name clean-up applied to a table before it is stored for SQL use
 * (utilities/data_preprocessing.py): Spanish accent folding, then the
 * per-column renaming pipeline with its duplicate counter.
 */
module DataPreprocessing {
  import opened Text

  // ---------------------------------------------------------------------------
  // normalize_spanish_letters

  /** The replacement table, in the dictionary's insertion order. */
  const Replacements: seq<(char, char)> := [
    ('á', 'a'), ('é', 'e'), ('í', 'i'), ('ó', 'o'), ('ú', 'u'), ('ü', 'u'), ('ñ', 'n'),
    ('Á', 'A'), ('É', 'E'), ('Í', 'I'), ('Ó', 'O'), ('Ú', 'U'), ('Ü', 'U'), ('Ñ', 'N')
  ]

  /** One of the 14 letters the table replaces. */
  predicate Accented(c: char)
  {
    exists i :: 0 <= i < |Replacements| && Replacements[i].0 == c
  }

  /** What a character becomes once the replacements `ps` have run over it, one after the other. */
  function Applied(c: char, ps: seq<(char, char)>): char
    decreases |ps|
  {
    if ps == [] then c
    else
      var d := Applied(c, ps[..|ps| - 1]);
      if d == ps[|ps| - 1].0 then ps[|ps| - 1].1 else d
  }

  /** The replaced letters are pairwise different. */
  predicate DistinctSources(ps: seq<(char, char)>)
  {
    forall i, j :: 0 <= i < j < |ps| ==> ps[i].0 != ps[j].0
  }

  /** No replacement produces a letter that another one replaces. */
  predicate Unchained(ps: seq<(char, char)>)
  {
    forall i, j :: 0 <= i < |ps| && 0 <= j < |ps| ==> ps[i].1 != ps[j].0
  }

  /**
   * Under those two conditions running the replacements in sequence is a
   * table lookup: a replaced letter gets its own counterpart, anything else
   * stays.
   */
  lemma {:induction false} AppliedIsLookup(c: char, ps: seq<(char, char)>)
    requires DistinctSources(ps) && Unchained(ps)
    ensures forall i :: 0 <= i < |ps| && ps[i].0 == c ==> Applied(c, ps) == ps[i].1
    ensures (forall i :: 0 <= i < |ps| ==> ps[i].0 != c) ==> Applied(c, ps) == c
    decreases |ps|
  {
    if ps != [] {
      var n := |ps| - 1;
      var prior := ps[..n];
      assert DistinctSources(prior) && Unchained(prior);
      AppliedIsLookup(c, prior);
      forall i | 0 <= i < |ps| && ps[i].0 == c
        ensures Applied(c, ps) == ps[i].1
      {
        if i < n {
          assert prior[i] == ps[i];
          assert Applied(c, prior) == ps[i].1;
        } else {
          assert forall j :: 0 <= j < n ==> prior[j].0 != c;
        }
      }
    }
  }

  lemma ReplacementsAreLookup()
    ensures DistinctSources(Replacements) && Unchained(Replacements)
    ensures forall c :: Accented(c) ==> c as int >= 128
  {
    assert forall i :: 0 <= i < |Replacements| ==> Replacements[i].0 as int >= 128;
    assert forall i :: 0 <= i < |Replacements| ==> Replacements[i].1 as int < 128;
  }

  /** `normalize_spanish_letters(text)`, character by character. */
  function Normalized(text: string): (r: string)
    ensures |r| == |text|
  {
    seq(|text|, j requires 0 <= j < |text| => Applied(text[j], Replacements))
  }

  /**
   * The 14 accented letters become their plain counterparts and every other
   * character is kept, so the length does not change.
   */
  lemma NormalizeTable(text: string)
    ensures |Normalized(text)| == |text|
    ensures forall j, i :: 0 <= j < |text| && 0 <= i < |Replacements| && text[j] == Replacements[i].0 ==>
      Normalized(text)[j] == Replacements[i].1
    ensures forall j :: 0 <= j < |text| && !Accented(text[j]) ==> Normalized(text)[j] == text[j]
  {
    ReplacementsAreLookup();
    forall j | 0 <= j < |text|
      ensures Applied(text[j], Replacements) == text[j] || Accented(text[j])
      ensures forall i :: 0 <= i < |Replacements| && text[j] == Replacements[i].0 ==>
        Applied(text[j], Replacements) == Replacements[i].1
    {
      AppliedIsLookup(text[j], Replacements);
    }
  }

  /** No accented letter survives normalisation. */
  lemma NormalizedPlain(text: string)
    ensures forall j :: 0 <= j < |text| ==> !Accented(Normalized(text)[j])
  {
    ReplacementsAreLookup();
    forall j | 0 <= j < |text|
      ensures !Accented(Normalized(text)[j])
    {
      AppliedIsLookup(text[j], Replacements);
      if Accented(text[j]) {
        var i :| 0 <= i < |Replacements| && Replacements[i].0 == text[j];
        assert Normalized(text)[j] == Replacements[i].1;
      }
    }
  }

  /** `s.replace(a, b)` with one-character `a` and `b` replaces that character wherever it occurs. */
  lemma {:induction false} ReplaceOneChar(s: string, a: char, b: char)
    ensures |ReplaceAll(s, [a], [b])| == |s|
    ensures forall i :: 0 <= i < |s| ==> ReplaceAll(s, [a], [b])[i] == if s[i] == a then b else s[i]
    decreases |s|
  {
    if s != [] {
      ReplaceOneChar(s[1..], a, b);
      if s[0] == a {
        assert StartsWith(s, [a]);
      } else {
        assert !StartsWith(s, [a]);
      }
    }
  }

  /** The loop over the table, each step a `str.replace`. */
  method NormalizeSpanishLetters(text: string) returns (r: string)
    ensures r == Normalized(text)
  {
    r := text;
    for k := 0 to |Replacements|
      invariant |r| == |text|
      invariant forall j :: 0 <= j < |text| ==> r[j] == Applied(text[j], Replacements[..k])
    {
      var (from, to) := Replacements[k];
      ReplaceOneChar(r, from, to);
      r := ReplaceAll(r, [from], [to]);
      assert Replacements[..k + 1][..k] == Replacements[..k];
    }
    assert Replacements[..|Replacements|] == Replacements;
  }

  // ---------------------------------------------------------------------------
  // The two regular-expression passes

  /**
   * Regex `\w`. Python's notion covers all Unicode letters and digits; the
   * model takes it as a parameter that agrees with Python on ASCII: letters,
   * digits and '_' are word characters, every other ASCII character is not.
   */
  predicate WordLike(isWord: char -> bool)
  {
    forall c: char :: (c as int) < 128 ==>
      (isWord(c) <==> IsAsciiLetter(c) || IsAsciiDigit(c) || c == '_')
  }

  predicate AllWord(s: string, isWord: char -> bool)
  {
    forall i :: 0 <= i < |s| ==> isWord(s[i])
  }

  predicate NoneWord(s: string, isWord: char -> bool)
  {
    forall i :: 0 <= i < |s| ==> !isWord(s[i])
  }

  /** Length of the run of non-word characters `s` starts with. */
  function NonWordRun(s: string, isWord: char -> bool): (n: nat)
    ensures n <= |s|
    ensures NoneWord(s[..n], isWord)
    ensures n < |s| ==> isWord(s[n])
    decreases |s|
  {
    if s == [] || isWord(s[0]) then 0
    else
      var m := NonWordRun(s[1..], isWord);
      assert s[..m + 1] == [s[0]] + s[1..][..m];
      1 + m
  }

  /**
   * `re.sub(r'\W+(?=\w)', '_', s)`: a run of non-word characters that a word
   * character follows becomes one '_'; a run that reaches the end of the
   * text has no word character after it and is left in place.
   */
  function UnderscoreRuns(s: string, isWord: char -> bool): string
    decreases |s|
  {
    if s == [] then []
    else if isWord(s[0]) then [s[0]] + UnderscoreRuns(s[1..], isWord)
    else
      var n := NonWordRun(s, isWord);
      if n == |s| then s else "_" + UnderscoreRuns(s[n..], isWord)
  }

  /** `re.sub(r'\W+$', '', s)`: the run of non-word characters at the end is dropped. */
  function DropTrailingRun(s: string, isWord: char -> bool): (r: string)
    ensures r <= s
    ensures r == [] || isWord(r[|r| - 1])
    ensures NoneWord(s[|r|..], isWord)
    decreases |s|
  {
    if s != [] && !isWord(s[|s| - 1]) then
      var r := DropTrailingRun(s[..|s| - 1], isWord);
      assert s[|r|..] == s[..|s| - 1][|r|..] + [s[|s| - 1]];
      r
    else s
  }

  /** Both passes, in the order the source applies them. */
  function Collapsed(s: string, isWord: char -> bool): string
  {
    DropTrailingRun(UnderscoreRuns(s, isWord), isWord)
  }

  lemma {:induction false} UnderscoreRunsOfWords(s: string, isWord: char -> bool)
    requires AllWord(s, isWord)
    ensures UnderscoreRuns(s, isWord) == s
    decreases |s|
  {
    if s != [] {
      UnderscoreRunsOfWords(s[1..], isWord);
    }
  }

  lemma {:induction false} UnderscoreRunsOfNonWords(s: string, isWord: char -> bool)
    requires NoneWord(s, isWord)
    ensures UnderscoreRuns(s, isWord) == s
  {
    if s != [] {
      var n := NonWordRun(s, isWord);
      assert n == |s|;
    }
  }

  lemma {:induction false} UnderscoreRunsAfterWords(u: string, v: string, isWord: char -> bool)
    requires AllWord(u, isWord)
    ensures UnderscoreRuns(u + v, isWord) == u + UnderscoreRuns(v, isWord)
    decreases |u|
  {
    if u != [] {
      assert (u + v)[0] == u[0] && isWord(u[0]);
      assert (u + v)[1..] == u[1..] + v;
      assert AllWord(u[1..], isWord);
      UnderscoreRunsAfterWords(u[1..], v, isWord);
      calc {
        UnderscoreRuns(u + v, isWord);
        [u[0]] + UnderscoreRuns(u[1..] + v, isWord);
        [u[0]] + (u[1..] + UnderscoreRuns(v, isWord));
        { assert [u[0]] + u[1..] == u; }
        u + UnderscoreRuns(v, isWord);
      }
    } else {
      assert u + v == v;
    }
  }

  /** A run of non-word characters with a word character after it becomes one '_'. */
  lemma RunBecomesUnderscore(u: string, t: string, v: string, isWord: char -> bool)
    requires AllWord(u, isWord) && t != [] && NoneWord(t, isWord)
    requires v != [] && isWord(v[0])
    ensures UnderscoreRuns(u + t + v, isWord) == u + "_" + UnderscoreRuns(v, isWord)
  {
    assert u + t + v == u + (t + v);
    UnderscoreRunsAfterWords(u, t + v, isWord);
    var n := NonWordRun(t + v, isWord);
    assert (t + v)[..|t|] == t;
    assert n == |t|;
    assert (t + v)[n..] == v;
  }

  /** A run of non-word characters at the end is dropped, whatever precedes it. */
  lemma TrailingRunDropped(u: string, t: string, isWord: char -> bool)
    requires AllWord(u, isWord) && NoneWord(t, isWord)
    ensures Collapsed(u + t, isWord) == u
  {
    UnderscoreRunsAfterWords(u, t, isWord);
    UnderscoreRunsOfNonWords(t, isWord);
    DropTrailingAfterWords(u, t, isWord);
  }

  lemma {:induction false} DropTrailingAfterWords(u: string, t: string, isWord: char -> bool)
    requires AllWord(u, isWord) && NoneWord(t, isWord)
    ensures DropTrailingRun(u + t, isWord) == u
    decreases |t|
  {
    if t == [] {
      assert u + t == u;
    } else {
      var n := |u + t| - 1;
      assert (u + t)[n] == t[|t| - 1];
      assert (u + t)[..n] == u + t[..|t| - 1];
      DropTrailingAfterWords(u, t[..|t| - 1], isWord);
    }
  }

  /** Apart from a final run, the first pass leaves only word characters. */
  lemma {:induction false} UnderscoreRunsShape(s: string, isWord: char -> bool) returns (w: string, t: string)
    requires WordLike(isWord)
    ensures UnderscoreRuns(s, isWord) == w + t
    ensures AllWord(w, isWord) && NoneWord(t, isWord)
    decreases |s|
  {
    if s == [] {
      w, t := [], [];
    } else if isWord(s[0]) {
      var w', t' := UnderscoreRunsShape(s[1..], isWord);
      w, t := [s[0]] + w', t';
    } else {
      var n := NonWordRun(s, isWord);
      if n == |s| {
        assert s[..n] == s;
        w, t := [], s;
      } else {
        var w', t' := UnderscoreRunsShape(s[n..], isWord);
        assert isWord('_');
        w, t := "_" + w', t';
      }
    }
  }

  /** After both passes only word characters are left. */
  lemma CollapsedIsWords(s: string, isWord: char -> bool)
    requires WordLike(isWord)
    ensures AllWord(Collapsed(s, isWord), isWord)
  {
    var w, t := UnderscoreRunsShape(s, isWord);
    TrailingRunDropped(w, t, isWord);
  }

  /** A name made of word characters only passes both regular expressions unchanged. */
  lemma CollapsedOfWords(s: string, isWord: char -> bool)
    requires AllWord(s, isWord)
    ensures Collapsed(s, isWord) == s
  {
    UnderscoreRunsOfWords(s, isWord);
    assert s + [] == s;
    TrailingRunDropped(s, [], isWord);
  }

  /** Running both passes twice is running them once. */
  lemma CollapsedIdempotent(s: string, isWord: char -> bool)
    requires WordLike(isWord)
    ensures Collapsed(Collapsed(s, isWord), isWord) == Collapsed(s, isWord)
  {
    CollapsedIsWords(s, isWord);
    CollapsedOfWords(Collapsed(s, isWord), isWord);
  }

  // ---------------------------------------------------------------------------
  // One column's name

  /** `re.match(r'^[a-zA-Z]', s)`. */
  predicate StartsWithLetter(s: string)
  {
    |s| > 0 && IsAsciiLetter(s[0])
  }

  predicate NoUpper(s: string)
  {
    forall i :: 0 <= i < |s| ==> !IsAsciiUpper(s[i])
  }

  const ColumnPrefix: string := "col_"

  /**
   * The name one column gets before the duplicate counter: normalised,
   * collapsed, lower-cased, and prefixed with "col_" when it does not
   * start with an ASCII letter.
   */
  function BaseName(col: string, isWord: char -> bool): (r: string)
    ensures StartsWithLetter(r) && NoUpper(r)
  {
    var collapsed := Collapsed(Normalized(col), isWord);
    var name := Lower(collapsed);
    assert forall i :: 0 <= i < |name| ==> name[i] == LowerChar(collapsed[i]);
    if StartsWithLetter(name) then name else ColumnPrefix + name
  }

  /** A base name is made of word characters only. */
  lemma BaseNameIsWords(col: string, isWord: char -> bool)
    requires WordLike(isWord)
    ensures AllWord(BaseName(col, isWord), isWord)
  {
    var collapsed := Collapsed(Normalized(col), isWord);
    CollapsedIsWords(Normalized(col), isWord);
    var name := Lower(collapsed);
    assert forall i :: 0 <= i < |name| ==> name[i] == LowerChar(collapsed[i]);
    assert AllWord(ColumnPrefix, isWord);
  }

  /** The body of the renaming loop up to the counter, one rebinding of `new_col` per step. */
  method SqlBaseName(col: string, isWord: char -> bool) returns (newCol: string)
    ensures newCol == BaseName(col, isWord)
  {
    newCol := NormalizeSpanishLetters(col);
    newCol := UnderscoreRuns(newCol, isWord);
    newCol := DropTrailingRun(newCol, isWord);
    newCol := Lower(newCol);
    if !StartsWithLetter(newCol) {
      newCol := ColumnPrefix + newCol;
    }
  }

  /** A column whose name is already lower-case ASCII letters, digits and '_' and starts with a letter keeps it. */
  lemma BaseNameOfCleanName(col: string, isWord: char -> bool)
    requires WordLike(isWord)
    requires StartsWithLetter(col)
    requires forall i :: 0 <= i < |col| ==> IsAsciiLower(col[i]) || IsAsciiDigit(col[i]) || col[i] == '_'
    ensures BaseName(col, isWord) == col
  {
    NormalizeTable(col);
    ReplacementsAreLookup();
    assert forall j :: 0 <= j < |col| ==> col[j] as int < 128;
    assert Normalized(col) == col;
    assert AllWord(col, isWord);
    CollapsedOfWords(col, isWord);
    assert Lower(col) == col;
  }

  // ---------------------------------------------------------------------------
  // The duplicate counter, as written

  /** The name given to the `k`-th occurrence of a normalised name: unsuffixed the first time, `_k` after that. */
  function Occurrence(base: string, k: nat): string
  {
    if k <= 1 then base else base + "_" + NatToString(k)
  }

  /** Every name suffixed by how often it has occurred so far. */
  function Suffixed(bases: seq<string>): (r: seq<string>)
    ensures |r| == |bases|
  {
    seq(|bases|, i requires 0 <= i < |bases| => Occurrence(bases[i], multiset(bases[..i + 1])[bases[i]]))
  }

  /**
   * A name's first occurrence is kept as is, and its `k`-th occurrence
   * (k >= 2) gets `_k`.
   */
  lemma SuffixedShape(bases: seq<string>)
    ensures forall i :: 0 <= i < |bases| && bases[i] !in bases[..i] ==> Suffixed(bases)[i] == bases[i]
    ensures forall i :: 0 <= i < |bases| && bases[i] in bases[..i] ==>
      multiset(bases[..i + 1])[bases[i]] >= 2 &&
      Suffixed(bases)[i] == bases[i] + "_" + NatToString(multiset(bases[..i + 1])[bases[i]])
  {
    forall i | 0 <= i < |bases|
      ensures multiset(bases[..i + 1])[bases[i]] == multiset(bases[..i])[bases[i]] + 1
    {
      assert bases[..i + 1] == bases[..i] + [bases[i]];
    }
  }

  /** One more name: its suffix counts its occurrences so far. */
  lemma SuffixedStep(bases: seq<string>, k: nat)
    requires k < |bases|
    ensures multiset(bases[..k + 1]) == multiset(bases[..k]) + multiset{bases[k]}
    ensures Suffixed(bases)[..k + 1] ==
      Suffixed(bases)[..k] + [Occurrence(bases[k], multiset(bases[..k])[bases[k]] + 1)]
  {
    assert bases[..k + 1] == bases[..k] + [bases[k]];
    var names := Suffixed(bases);
    var m := multiset(bases[..k])[bases[k]] + 1;
    assert multiset(bases[..k + 1])[bases[k]] == m;
    assert names[k] == Occurrence(bases[k], m);
    assert names[..k + 1] == names[..k] + [names[k]];
  }

  /** Suffixes keep the start of a name, and add no upper-case letter. */
  lemma SuffixedKeepsShape(bases: seq<string>)
    requires forall i :: 0 <= i < |bases| ==> StartsWithLetter(bases[i]) && NoUpper(bases[i])
    ensures forall i :: 0 <= i < |bases| ==> StartsWithLetter(Suffixed(bases)[i]) && NoUpper(Suffixed(bases)[i])
  {
    forall i | 0 <= i < |bases|
      ensures StartsWithLetter(Suffixed(bases)[i]) && NoUpper(Suffixed(bases)[i])
    {
      var k := multiset(bases[..i + 1])[bases[i]];
      var digits := NatToString(k);
      assert forall j :: 0 <= j < |digits| ==> !IsAsciiUpper(digits[j]);
      assert Suffixed(bases)[i] == Occurrence(bases[i], k);
    }
  }

  function BaseNames(columns: seq<string>, isWord: char -> bool): (r: seq<string>)
    ensures |r| == |columns|
    ensures forall i :: 0 <= i < |r| ==> StartsWithLetter(r[i]) && NoUpper(r[i])
  {
    seq(|columns|, i requires 0 <= i < |columns| => BaseName(columns[i], isWord))
  }

  /** `rename_columns_for_sql`: the new column names. */
  function RenamedColumns(columns: seq<string>, isWord: char -> bool): (r: seq<string>)
    ensures |r| == |columns|
  {
    Suffixed(BaseNames(columns, isWord))
  }

  /**
   * One name per column, in column order; every name starts with an ASCII
   * letter and has no upper-case ASCII letter.
   */
  lemma RenamedColumnsShape(columns: seq<string>, isWord: char -> bool)
    ensures |RenamedColumns(columns, isWord)| == |columns|
    ensures forall i :: 0 <= i < |columns| ==>
      StartsWithLetter(RenamedColumns(columns, isWord)[i]) && NoUpper(RenamedColumns(columns, isWord)[i])
  {
    SuffixedKeepsShape(BaseNames(columns, isWord));
  }

  /** The `column_count` dictionary after the names `seen`. */
  function CountMap(seen: seq<string>): map<string, nat>
  {
    if seen == [] then map[]
    else
      var m := CountMap(seen[..|seen| - 1]);
      var b := seen[|seen| - 1];
      m[b := (if b in m then m[b] else 0) + 1]
  }

  /** The dictionary holds exactly the names seen, each with its number of occurrences. */
  lemma {:induction false} CountMapCounts(seen: seq<string>, b: string)
    ensures (b in CountMap(seen)) == (b in seen)
    ensures b in CountMap(seen) ==> CountMap(seen)[b] == multiset(seen)[b]
    decreases |seen|
  {
    if seen != [] {
      var n := |seen| - 1;
      assert seen == seen[..n] + [seen[n]];
      CountMapCounts(seen[..n], b);
    }
  }

  lemma CountMapStep(seen: seq<string>, k: nat)
    requires k < |seen|
    ensures CountMap(seen[..k + 1]) == CountMap(seen[..k] + [seen[k]])
  {
    assert seen[..k + 1] == seen[..k] + [seen[k]];
  }

  /** One update of `column_count` for the name `newCol`, and the name the column gets. */
  method CountName(columnCount: map<string, nat>, newCol: string, ghost seen: seq<string>)
    returns (counted: map<string, nat>, name: string)
    requires columnCount == CountMap(seen)
    ensures counted == CountMap(seen + [newCol])
    ensures name == Occurrence(newCol, multiset(seen)[newCol] + 1)
  {
    CountMapCounts(seen, newCol);
    assert (seen + [newCol])[..|seen|] == seen;
    name := newCol;
    counted := columnCount;
    if name in counted {
      counted := counted[name := counted[name] + 1];
      name := name + "_" + NatToString(counted[name]);
    } else {
      counted := counted[name := 1];
    }
  }

  /** The loop with the `column_count` dictionary and the `new_columns` list. */
  method RenameColumnsForSql(columns: seq<string>, isWord: char -> bool) returns (newColumns: seq<string>)
    ensures newColumns == RenamedColumns(columns, isWord)
  {
    ghost var bases := BaseNames(columns, isWord);
    var columnCount: map<string, nat> := map[];
    newColumns := [];
    for k := 0 to |columns|
      invariant newColumns == Suffixed(bases)[..k]
      invariant columnCount == CountMap(bases[..k])
    {
      var newCol := SqlBaseName(columns[k], isWord);
      SuffixedStep(bases, k);
      CountMapStep(bases, k);
      columnCount, newCol := CountName(columnCount, newCol, bases[..k]);
      newColumns := newColumns + [newCol];
    }
  }

  // ---------------------------------------------------------------------------
  // The uniqueness claim

  lemma SuffixedRepeats()
    ensures Suffixed(["a", "a", "a_2"]) == ["a", "a_2", "a_2"]
  {
    var b := ["a", "a", "a_2"];
    assert b[..1] == ["a"];
    assert b[..2] == ["a", "a"];
    assert b[..3] == b;
    assert multiset(b[..2])["a"] == 2;
    assert "a" != "a_2";
    assert multiset(b)["a_2"] == 1;
    assert NatToString(2) == "2";
    assert Suffixed(b)[1] == Occurrence("a", 2) == "a_2";
    assert Suffixed(b)[2] == Occurrence("a_2", 1);
  }

  lemma CleanBaseNames(isWord: char -> bool)
    requires WordLike(isWord)
    ensures BaseNames(["a", "a", "a_2"], isWord) == ["a", "a", "a_2"]
  {
    BaseNameOfCleanName("a", isWord);
    BaseNameOfCleanName("a_2", isWord);
  }

  /**
   * The counter is keyed by the unsuffixed name only, so a generated name can
   * meet a later column that already carries it: the columns `a`, `a`, `a_2`
   * are renamed `a`, `a_2`, `a_2`.
   */
  lemma DuplicateAfterSuffix(isWord: char -> bool)
    requires WordLike(isWord)
    ensures RenamedColumns(["a", "a", "a_2"], isWord) == ["a", "a_2", "a_2"]
  {
    CleanBaseNames(isWord);
    SuffixedRepeats();
  }

  /** A suffixed candidate `base_k`. */
  function Candidate(base: string, k: nat): string
  {
    base + "_" + NatToString(k)
  }

  lemma CandidateInjective(base: string, j: nat, k: nat)
    requires Candidate(base, j) == Candidate(base, k)
    ensures j == k
  {
    var n := |base| + 1;
    assert NatToString(j) == Candidate(base, j)[n..];
    assert NatToString(k) == Candidate(base, k)[n..];
    NatToStringInjective(j, k);
  }

  /**
   * The least index from `k` on whose candidate is not in `pending`; each
   * candidate that is taken leaves `pending`, which bounds the search.
   */
  function FreeIndex(base: string, k: nat, pending: set<string>): (j: nat)
    ensures k <= j
    ensures Candidate(base, j) !in pending
    ensures forall i :: k <= i < j ==> Candidate(base, i) in pending
    decreases |pending|
  {
    if Candidate(base, k) !in pending then k
    else
      var j := FreeIndex(base, k + 1, pending - {Candidate(base, k)});
      if Candidate(base, j) == Candidate(base, k) then
        CandidateInjective(base, j, k);
        j
      else j
  }

  /** The name is kept when free, otherwise it gets the first free suffix from `_2` on. */
  function UniqueName(base: string, taken: set<string>): (r: string)
    ensures r !in taken
    ensures base !in taken ==> r == base
    ensures base in taken ==> exists k: nat :: 2 <= k && r == Candidate(base, k)
  {
    if base !in taken then base else Candidate(base, FreeIndex(base, 2, taken))
  }

  /** The names a renaming may give a column with normalised name `base`. */
  ghost predicate NameFor(name: string, base: string)
  {
    name == base || exists k: nat :: 2 <= k && name == Candidate(base, k)
  }

  /** The counter as the docstring intends it: every name is checked against all names given so far. */
  function UniqueNames(bases: seq<string>): (r: seq<string>)
    ensures |r| == |bases|
    ensures forall i, j :: 0 <= i < j < |r| ==> r[i] != r[j]
    ensures forall i :: 0 <= i < |r| ==> NameFor(r[i], bases[i])
  {
    if bases == [] then []
    else
      var n := |bases| - 1;
      var prior := UniqueNames(bases[..n]);
      var name := UniqueName(bases[n], set x | x in prior);
      var r := prior + [name];
      assert forall i :: 0 <= i < n ==> r[i] == prior[i] && prior[i] in (set x | x in prior);
      r
  }

  /** `rename_columns_for_sql` with the uniqueness the docstring promises. */
  function UniqueColumns(columns: seq<string>, isWord: char -> bool): (r: seq<string>)
    ensures |r| == |columns|
    ensures forall i, j :: 0 <= i < j < |r| ==> r[i] != r[j]
  {
    UniqueNames(BaseNames(columns, isWord))
  }

  /** On the columns that break the counter as written, the corrected one moves the third name on. */
  lemma UniqueColumnsExample(isWord: char -> bool)
    requires WordLike(isWord)
    ensures UniqueColumns(["a", "a", "a_2"], isWord) == ["a", "a_2", "a_2_2"]
  {
    CleanBaseNames(isWord);
    var b := ["a", "a", "a_2"];
    assert NatToString(2) == "2";
    assert b[..2][..1] == b[..1] == ["a"];
    assert Candidate("a", 2) == "a_2";
    assert FreeIndex("a", 2, {"a"}) == 2;
    assert UniqueNames(b[..2]) == ["a", "a_2"];
    assert (set x | x in ["a", "a_2"]) == {"a", "a_2"};
    assert Candidate("a_2", 2) == "a_2_2";
    assert FreeIndex("a_2", 2, {"a", "a_2"}) == 2;
    assert b[..3] == b;
  }
}
