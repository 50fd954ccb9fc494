/** `validateReview` (src/utility/validateReview.js): four checks in a fixed
    order over a review's title, star rating and rich-text content. The first
    failing check supplies the message given to `setErrorMessage`; modelled
    here as the returned `Some(message)`, `None` meaning the review passes. */
module ReviewValidation {
  import opened Common
  import opened WordCounting

  const Lt: CodeUnit := 0x3C
  const Gt: CodeUnit := 0x3E

  /** The code units `(.|\n)` refuses: `.` without the `s` flag matches
      anything but a line terminator, and the alternative adds back only `\n`. */
  predicate IsUnmatched(c: CodeUnit) { c == 0x0D || c == 0x2028 || c == 0x2029 }

  /** Where the lazy `(.|\n)*?>` that follows a `<` stops in `t`: at the first
      `>`, unless a code unit it refuses comes first (then there is no match). */
  function CloseAt(t: Utf16): (r: Option<nat>)
    ensures r.Some? ==> r.value < |t| && t[r.value] == Gt
    ensures r.Some? ==> forall j :: 0 <= j < r.value ==> t[j] != Gt && !IsUnmatched(t[j])
  {
    if t == [] then None
    else if t[0] == Gt then Some(0)
    else if IsUnmatched(t[0]) then None
    else match CloseAt(t[1..])
      case Some(j) => Some(j + 1)
      case None => None
  }

  /** `content.replace(/<(.|\n)*?>/g, "")`: each `<` that can be closed is
      removed together with everything up to its `>`, and the scan resumes
      after that `>`; a `<` that cannot be closed is kept and the scan moves
      on by one. */
  function StripTags(s: Utf16): (r: Utf16)
    ensures |r| <= |s|
  {
    if s == [] then []
    else if s[0] == Lt && CloseAt(s[1..]).Some? then StripTags(s[CloseAt(s[1..]).value + 2..])
    else [s[0]] + StripTags(s[1..])
  }

  /** The text whose emptiness and length are checked. */
  function Visible(content: Utf16): (r: Utf16)
    ensures r == [] <==> AllWhitespace(StripTags(content))
    ensures |r| <= |content|
  {
    Trim(StripTags(content))
  }

  const MaxWords := 100

  const TitleEmpty := "A title cannot be empty."
  const RatingMissing := "Please select a star rating."
  const ReviewEmpty := "A review cannot be empty."

  function TooManyWords(count: nat): string
  {
    "The review cannot exceed 100 words. Current word count: " + NatToString(count)
  }

  /** `validateReview(title, content, rating)`: the message of the first
      failing check, or `None` when all pass. */
  function ValidateReview(title: Utf16, content: Utf16, rating: int): Option<string>
  {
    if Trim(title) == [] then Some(TitleEmpty)
    else if rating == 0 then Some(RatingMissing)
    else if Trim(StripTags(content)) == [] then Some(ReviewEmpty)
    else
      var wordCount := WordCount(Trim(StripTags(content)));
      if wordCount > MaxWords then Some(TooManyWords(wordCount))
      else None
  }

  /** The checks and their order: a review passes exactly when the title is
      not blank, a rating is chosen, something visible is left once tags are
      stripped and at most 100 words remain; otherwise the first failing
      check gives the message. */
  lemma ValidateReviewCases(title: Utf16, content: Utf16, rating: int)
    ensures ValidateReview(title, content, rating).None? <==>
      !AllWhitespace(title) && rating != 0 && !AllWhitespace(StripTags(content))
      && WordCount(Visible(content)) <= MaxWords
    ensures AllWhitespace(title) ==> ValidateReview(title, content, rating) == Some(TitleEmpty)
    ensures !AllWhitespace(title) && rating == 0 ==> ValidateReview(title, content, rating) == Some(RatingMissing)
    ensures !AllWhitespace(title) && rating != 0 && AllWhitespace(StripTags(content))
            ==> ValidateReview(title, content, rating) == Some(ReviewEmpty)
    ensures !AllWhitespace(title) && rating != 0 && !AllWhitespace(StripTags(content))
            && WordCount(Visible(content)) > MaxWords
            ==> ValidateReview(title, content, rating) == Some(TooManyWords(WordCount(Visible(content))))
  {
  }

  // ---------------------------------------------------------------------------
  // The tag stripper

  predicate NoLt(s: Utf16) { forall i :: 0 <= i < |s| ==> s[i] != Lt }

  /** Text without `<` comes through untouched. */
  lemma {:induction false} StripTagsKeepsPlainText(s: Utf16)
    requires NoLt(s)
    ensures StripTags(s) == s
  {
    if s != [] {
      assert s[0] != Lt;
      assert NoLt(s[1..]) by {
        forall i | 0 <= i < |s[1..]| ensures s[1..][i] != Lt { assert s[1..][i] == s[i + 1]; }
      }
      StripTagsKeepsPlainText(s[1..]);
    }
  }

  /** Removing tags never creates a closable `<` at the front: if `t` cannot
      close a tag, neither can what is left of it. */
  lemma {:induction false} StripKeepsUnclosed(t: Utf16)
    requires CloseAt(t).None?
    ensures CloseAt(StripTags(t)).None?
  {
    if t != [] && !IsUnmatched(t[0]) {
      assert t[0] != Gt;
      assert CloseAt(t[1..]).None?;
      StripKeepsUnclosed(t[1..]);
      var r := StripTags(t);
      assert r == [t[0]] + StripTags(t[1..]);
      assert r[1..] == StripTags(t[1..]);
    }
  }

  /** No tag survives stripping: every `<` left in the result is one that the
      pattern cannot close. */
  lemma {:induction false} NoTagSurvives(s: Utf16)
    ensures forall i :: 0 <= i < |StripTags(s)| && StripTags(s)[i] == Lt
              ==> CloseAt(StripTags(s)[i + 1..]).None?
  {
    if s != [] {
      if s[0] == Lt && CloseAt(s[1..]).Some? {
        NoTagSurvives(s[CloseAt(s[1..]).value + 2..]);
      } else {
        var r' := StripTags(s[1..]);
        var r := [s[0]] + r';
        assert StripTags(s) == r;
        NoTagSurvives(s[1..]);
        forall i | 0 <= i < |r| && r[i] == Lt ensures CloseAt(r[i + 1..]).None? {
          if i == 0 {
            assert r[1..] == r';
            StripKeepsUnclosed(s[1..]);
          } else {
            assert r[i + 1..] == r'[i..];
            assert r'[i - 1] == Lt;
          }
        }
      }
    }
  }

  /** Code units a tag body may hold: anything but `>` and what `(.|\n)` refuses. */
  predicate IsTagBody(b: Utf16) { forall j :: 0 <= j < |b| ==> b[j] != Gt && !IsUnmatched(b[j]) }

  lemma {:induction false} CloseAtFirstGt(b: Utf16, rest: Utf16)
    requires IsTagBody(b)
    ensures CloseAt(b + [Gt] + rest) == Some(|b|)
  {
    if b != [] {
      assert (b + [Gt] + rest)[1..] == b[1..] + [Gt] + rest;
      CloseAtFirstGt(b[1..], rest);
    }
  }

  /** A complete tag `<...>` is removed and stripping carries on after it. */
  lemma StripsWholeTag(b: Utf16, rest: Utf16)
    requires IsTagBody(b)
    ensures StripTags([Lt] + b + [Gt] + rest) == StripTags(rest)
  {
    var s := [Lt] + b + [Gt] + rest;
    assert s[1..] == b + [Gt] + rest;
    CloseAtFirstGt(b, rest);
    assert s[|b| + 2..] == rest;
  }

  /** The tag `<b>` around a body. */
  function Tag(b: Utf16): Utf16 { [Lt] + b + [Gt] }

  /** Quill's empty editor, "<p><br></p>", as code units. */
  lemma EmptyParagraphUnits()
    ensures Units("<p><br></p>") == [Lt, 0x70, Gt, Lt, 0x62, 0x72, Gt, Lt, 0x2F, 0x70, Gt]
  {
    UnitsAre("<p><br></p>", [Lt, 0x70, Gt, Lt, 0x62, 0x72, Gt, Lt, 0x2F, 0x70, Gt]);
  }

  /** Those code units are the three tags `<p>`, `<br>` and `</p>`. */
  lemma EmptyParagraphTags()
    ensures [Lt, 0x70, Gt, Lt, 0x62, 0x72, Gt, Lt, 0x2F, 0x70, Gt]
            == Tag([0x70]) + Tag([0x62, 0x72]) + Tag([0x2F, 0x70])
  {
    var p, br, endP := Tag([0x70]), Tag([0x62, 0x72]), Tag([0x2F, 0x70]);
    assert p == [Lt, 0x70, Gt] && br == [Lt, 0x62, 0x72, Gt] && endP == [Lt, 0x2F, 0x70, Gt];
  }

  /** The bodies of `<p>`, `<br>` and `</p>` hold no `>` and nothing the
      pattern refuses. */
  lemma QuillTagBodies()
    ensures IsTagBody([0x70]) && IsTagBody([0x62, 0x72]) && IsTagBody([0x2F, 0x70])
  {
  }

  /** Three complete tags in a row strip to nothing. */
  lemma StripsThreeTags(a: Utf16, b: Utf16, c: Utf16)
    requires IsTagBody(a) && IsTagBody(b) && IsTagBody(c)
    ensures StripTags(Tag(a) + Tag(b) + Tag(c)) == []
  {
    StripsWholeTag(c, []);
    assert Tag(c) == [Lt] + c + [Gt] + [];
    StripsWholeTag(b, Tag(c));
    assert Tag(b) + Tag(c) == [Lt] + b + [Gt] + Tag(c);
    StripsWholeTag(a, Tag(b) + Tag(c));
    assert Tag(a) + Tag(b) + Tag(c) == [Lt] + a + [Gt] + (Tag(b) + Tag(c));
  }

  /** Quill's empty editor, "<p><br></p>", strips to nothing. */
  lemma EmptyParagraphStripsToNothing()
    ensures StripTags(Units("<p><br></p>")) == []
  {
    EmptyParagraphUnits();
    EmptyParagraphTags();
    QuillTagBodies();
    StripsThreeTags([0x70], [0x62, 0x72], [0x2F, 0x70]);
  }

  /** A carriage return before the `>` keeps a span from being stripped. */
  lemma CarriageReturnBlocksTag()
    ensures StripTags(Units("<b\r>")) == Units("<b\r>")
  {
    var u: Utf16 := [0x3C, 0x62, 0x0D, 0x3E];
    UnitsAre("<b\r>", u);
    assert CloseAt(u[1..]) == None;
    StripTagsKeepsPlainText(u[1..]);
  }

  // ---------------------------------------------------------------------------
  // The checks

  /** "<p><br></p>" is rejected as an empty review once title and rating pass. */
  lemma EmptyParagraphRejected(title: Utf16, rating: int)
    requires !AllWhitespace(title) && rating != 0
    ensures ValidateReview(title, Units("<p><br></p>"), rating) == Some(ReviewEmpty)
  {
    EmptyParagraphStripsToNothing();
  }

  /** `n` words "a." written back to back. */
  function Dotted(n: nat): (s: Utf16)
    ensures |s| == 2 * n
  {
    if n == 0 then [] else [0x61 as CodeUnit, 0x2E as CodeUnit] + Dotted(n - 1)
  }

  lemma {:induction false} DottedShape(n: nat)
    ensures NoLt(Dotted(n))
    ensures forall i :: 0 <= i < |Dotted(n)| ==> Dotted(n)[i] == (if i % 2 == 0 then 0x61 else 0x2E)
  {
    if n > 0 {
      DottedShape(n - 1);
      var d := Dotted(n);
      forall i | 0 <= i < |d| ensures d[i] == (if i % 2 == 0 then 0x61 else 0x2E) {
        if i >= 2 { assert d[i] == Dotted(n - 1)[i - 2]; }
      }
    }
  }

  lemma {:induction false} DottedWords(n: nat)
    ensures Words(Dotted(n), false) == n
  {
    if n > 0 {
      var d := Dotted(n);
      assert d[1..][1..] == Dotted(n - 1);
      DottedWords(n - 1);
    }
  }

  /** The 100-word cap is inclusive: n words pass for n up to 100, and from 101
      on the message reports the count. */
  lemma WordCapIsInclusive(title: Utf16, rating: int, n: nat)
    requires !AllWhitespace(title) && rating != 0 && n >= 1
    ensures ValidateReview(title, Dotted(n), rating)
            == if n <= MaxWords then None else Some(TooManyWords(n))
  {
    var d := Dotted(n);
    DottedShape(n);
    StripTagsKeepsPlainText(d);
    TrimUnchanged(d);
    assert !AllWhitespace(d) by { assert !IsJsWhitespace(d[0]); }
    DottedWords(n);
    WordCountIsScan(d);
  }
}
