/** `countWords` (src/utility/countWords.js): a two-state scan over the code
    units of a string that counts maximal runs of ASCII letters and digits,
    where a backslash or a hyphen swallows the code unit after it. */
module WordCounting {
  import opened Common

  const Backslash: CodeUnit := 0x5C
  const Hyphen: CodeUnit := 0x2D

  predicate IsSkipMark(c: CodeUnit) { c == Backslash || c == Hyphen }

  /** Words the scan still counts in `s`, entered with the given state
      (`inWord` is the source's `state === 1`). */
  function Words(s: Utf16, inWord: bool): (n: nat)
    ensures 2 * n <= if inWord then |s| else |s| + 1
  {
    if s == [] then 0
    else if IsSkipMark(s[0]) then (if |s| < 2 then 0 else Words(s[2..], inWord))
    else if IsAsciiAlnum(s[0]) then (if inWord then 0 else 1) + Words(s[1..], true)
    else Words(s[1..], false)
  }

  /** What `countWords(str)` returns. */
  function WordCount(s: Utf16): (n: nat)
    ensures 2 * n <= |s| + 1
  {
    if Trim(s) == [] then 0 else Words(s, false)
  }

  /** The scan from index `i` on; past the end nothing is left to count. */
  function WordsFrom(s: Utf16, i: nat, inWord: bool): (r: nat)
    ensures i <= |s| ==> r == Words(s[i..], inWord)
  {
    if i >= |s| then 0 else Words(s[i..], inWord)
  }

  /** The loop of `countWords`, which advances `index` a second time after a
      backslash or hyphen. */
  method CountWords(str: Utf16) returns (wordCount: nat)
    ensures wordCount == WordCount(str)
  {
    if Trim(str) == [] {
      return 0;
    }
    wordCount := 0;
    var inWord := false;
    var index := 0;
    while index < |str|
      invariant 0 <= index <= |str| + 1
      invariant wordCount + WordsFrom(str, index, inWord) == Words(str, false)
      decreases |str| + 1 - index
    {
      assert str[index..][0] == str[index];
      if IsSkipMark(str[index]) {
        assert index + 2 <= |str| ==> str[index..][2..] == str[index + 2..];
        index := index + 2;
        continue;
      }
      assert str[index..][1..] == str[index + 1..];
      if IsAsciiAlnum(str[index]) {
        if !inWord {
          wordCount := wordCount + 1;
          inWord := true;
        }
      } else {
        inWord := false;
      }
      index := index + 1;
    }
  }

  // ---------------------------------------------------------------------------
  // What the scan means

  /** A whitespace-only string has no words, whichever way the scan is entered. */
  lemma {:induction false} WhitespaceHasNoWords(s: Utf16, inWord: bool)
    requires AllWhitespace(s)
    ensures Words(s, inWord) == 0
  {
    if s != [] {
      assert AllWhitespace(s[1..]) by {
        forall i | 0 <= i < |s[1..]| ensures IsJsWhitespace(s[1..][i]) { assert s[1..][i] == s[i + 1]; }
      }
      WhitespaceHasNoWords(s[1..], false);
    }
  }

  /** The `trim()` guard of `countWords` never changes the answer. */
  lemma WordCountIsScan(s: Utf16)
    ensures WordCount(s) == Words(s, false)
  {
    if Trim(s) == [] { WhitespaceHasNoWords(s, false); }
  }

  /** An empty or whitespace-only string counts 0 words. */
  lemma BlankCountsZero(s: Utf16)
    requires AllWhitespace(s)
    ensures WordCount(s) == 0
  {
  }

  predicate HasSkipMark(s: Utf16) { exists i :: 0 <= i < |s| && IsSkipMark(s[i]) }

  /** A run of ASCII letters and digits starts at `i`. */
  predicate IsRunStart(s: Utf16, i: int)
    requires 0 <= i < |s|
  {
    IsAsciiAlnum(s[i]) && (i == 0 || !IsAsciiAlnum(s[i - 1]))
  }

  /** Number of maximal alphanumeric runs that start at index `j` or later. */
  function RunsFrom(s: Utf16, j: nat): nat
    decreases |s| - j
  {
    if j >= |s| then 0 else (if IsRunStart(s, j) then 1 else 0) + RunsFrom(s, j + 1)
  }

  /** Number of maximal runs of ASCII `[a-zA-Z0-9]` in `s`. */
  function Runs(s: Utf16): nat { RunsFrom(s, 0) }

  lemma {:induction false} ScanCountsRunsFrom(s: Utf16, j: nat)
    requires j <= |s|
    requires !HasSkipMark(s)
    ensures Words(s[j..], j > 0 && IsAsciiAlnum(s[j - 1])) == RunsFrom(s, j)
    decreases |s| - j
  {
    if j < |s| {
      assert s[j..][0] == s[j];
      assert s[j..][1..] == s[j + 1..];
      assert !IsSkipMark(s[j]);
      ScanCountsRunsFrom(s, j + 1);
    }
  }

  /** Without backslashes and hyphens, `countWords` counts exactly the maximal
      runs of ASCII letters and digits. */
  lemma CountsRunsWithoutMarks(s: Utf16)
    requires !HasSkipMark(s)
    ensures WordCount(s) == Runs(s)
  {
    WordCountIsScan(s);
    ScanCountsRunsFrom(s, 0);
    assert s[0..] == s;
  }

  /** A code unit that is neither alphanumeric nor a skip mark ends the
      current word, whatever it is (accented letters and punctuation alike). */
  lemma SeparatorEndsWord(c: CodeUnit, t: Utf16, inWord: bool)
    requires !IsAsciiAlnum(c) && !IsSkipMark(c)
    ensures Words([c] + t, inWord) == Words(t, false)
  {
    assert ([c] + t)[1..] == t;
  }

  /** A backslash or hyphen drops the next code unit and keeps the state, so a
      word continues across it. */
  lemma MarkSkipsNext(m: CodeUnit, c: CodeUnit, t: Utf16, inWord: bool)
    requires IsSkipMark(m)
    ensures Words([m, c] + t, inWord) == Words(t, inWord)
  {
    assert ([m, c] + t)[2..] == t;
  }

  /** Number of ASCII alphanumeric code units in `s`. */
  function AlnumCount(s: Utf16): nat
  {
    if s == [] then 0 else (if IsAsciiAlnum(s[0]) then 1 else 0) + AlnumCount(s[1..])
  }

  lemma {:induction false} WordsAtMostAlnum(s: Utf16, inWord: bool)
    ensures Words(s, inWord) <= AlnumCount(s)
  {
    if s != [] {
      if IsSkipMark(s[0]) {
        if |s| >= 2 {
          WordsAtMostAlnum(s[2..], inWord);
          assert s[1..][1..] == s[2..];
        }
      } else {
        WordsAtMostAlnum(s[1..], IsAsciiAlnum(s[0]));
      }
    }
  }

  /** The count never exceeds the number of ASCII letters and digits. */
  lemma CountAtMostAlnum(s: Utf16)
    ensures WordCount(s) <= AlnumCount(s)
  {
    WordsAtMostAlnum(s, false);
  }

  /** An ASCII letter or digit opens a word unless one is already open. */
  lemma AlnumStep(c: CodeUnit, t: Utf16, inWord: bool)
    requires IsAsciiAlnum(c)
    ensures Words([c] + t, inWord) == (if inWord then 0 else 1) + Words(t, true)
  {
    assert ([c] + t)[1..] == t;
  }

  /** Inside a word, "nown" adds nothing. */
  lemma NownContinuesWord()
    ensures Words([0x6E, 0x6F, 0x77, 0x6E], true) == 0
  {
    var n3: Utf16 := [0x6E];
    var n2: Utf16 := [0x77] + n3;
    var n1: Utf16 := [0x6F] + n2;
    assert [0x6E, 0x6F, 0x77, 0x6E] == [0x6E] + n1;
    AlnumStep(0x6E, [], true);
    AlnumStep(0x77, n3, true);
    AlnumStep(0x6F, n2, true);
    AlnumStep(0x6E, n1, true);
  }

  /** The scan of the code units of "well-known" finds one word. */
  lemma WellKnownScan()
    ensures Words([0x77, 0x65, 0x6C, 0x6C, 0x2D, 0x6B, 0x6E, 0x6F, 0x77, 0x6E], false) == 1
  {
    var known: Utf16 := [0x6E, 0x6F, 0x77, 0x6E];
    NownContinuesWord();
    var w4: Utf16 := [0x2D, 0x6B] + known;
    MarkSkipsNext(0x2D, 0x6B, known, true);
    var w3: Utf16 := [0x6C] + w4;
    var w2: Utf16 := [0x6C] + w3;
    var w1: Utf16 := [0x65] + w2;
    var u: Utf16 := [0x77] + w1;
    AlnumStep(0x6C, w4, true);
    AlnumStep(0x6C, w3, true);
    AlnumStep(0x65, w2, true);
    AlnumStep(0x77, w1, false);
    assert u == [0x77, 0x65, 0x6C, 0x6C, 0x2D, 0x6B, 0x6E, 0x6F, 0x77, 0x6E];
  }

  /** "well-known" is one word: the hyphen swallows the `k`. */
  lemma HyphenatedWordIsOne()
    ensures WordCount(Units("well-known")) == 1
  {
    WellKnownUnits();
    WellKnownScan();
    WordCountIsScan(Units("well-known"));
  }

  lemma WellKnownUnits()
    ensures Units("well-known") == [0x77, 0x65, 0x6C, 0x6C, 0x2D, 0x6B, 0x6E, 0x6F, 0x77, 0x6E]
  {
    UnitsAre("well-known", [0x77, 0x65, 0x6C, 0x6C, 0x2D, 0x6B, 0x6E, 0x6F, 0x77, 0x6E]);
  }

  /** In "a -b" the `b` is swallowed by the hyphen and never counted. */
  lemma HyphenSwallowsWord()
    ensures WordCount(Units("a -b")) == 1
  {
    var t: Utf16 := [0x2D, 0x62];
    MarkSkipsNext(0x2D, 0x62, [], false);
    assert t == [0x2D, 0x62] + [];
    SeparatorEndsWord(0x20, t, true);
    var u: Utf16 := [0x61] + ([0x20] + t);
    AlnumStep(0x61, [0x20] + t, false);
    assert u == [0x61, 0x20, 0x2D, 0x62];
    UnitsAre("a -b", u);
    WordCountIsScan(u);
  }
}
