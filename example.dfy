/** A small parameter file, worked through line by line. */
module Example {
  import opened Values
  import opened Grammar
  import opened Builder
  import opened TokenFacts
  import opened FileFacts

  // As in FileFacts, the composite rules are hidden in each proof and reached through lemmas.

  /** In `dt = 900`, `! step` and `dt = 1800` (the last line without its end of line), the
      comment changes nothing and the second assignment overwrites the first. */
  lemma LastAssignmentWins()
    ensures Run("dt = 900\n! step\ndt = 1800") == Ok(map["dt" := Real("1800")])
  {
    hide ValueRule, Comment, OptComment, AfterEquals, Assignment, LineBody, NormalLine, Lines;
    var middle := "! step\ndt = 1800";
    CommentThenLast();
    FirstLine(middle);
    assert "dt = 900\n" + middle == "dt = 900\n! step\ndt = 1800";
  }

  // `dt = 900` in front of any file that parses and sets `dt` changes nothing.
  lemma FirstLine(middle: string)
    requires Run(middle).Ok? && "dt" in Run(middle).data
    ensures Run("dt = 900\n" + middle) == Run(middle)
  {
    hide ValueRule, Comment, OptComment, AfterEquals, Assignment, LineBody, NormalLine, Lines;
    var none: string := [];
    var t := "\n" + middle;
    FirstValue(t);
    assert "900" + none + none + t == "900" + t;
    var line := "dt" + " " + "=" + " " + "900" + none + none + "\n";
    assert line == "dt = 900\n";
    AssignmentLine("dt", " ", " ", "900", Real("900"), none, none, "\n", middle);
  }

  // The comment line changes nothing in front of the last line.
  lemma CommentThenLast()
    ensures Run("! step\ndt = 1800") == Ok(map["dt" := Real("1800")])
  {
    hide ValueRule, Comment, OptComment, AfterEquals, Assignment, LineBody, NormalLine, Lines;
    var none: string := [];
    var last := "dt = 1800";
    LastLine();
    assert "! step\ndt = 1800" == none + "!" + " step" + "\n" + last;
    LineCommentLine(none, "!", " step", "\n", last);
  }

  // The value of the first line stops at the end of line after it.
  lemma FirstValue(t: string)
    requires t != [] && t[0] == '\n'
    ensures ValueRule("900" + t) == Hit(3, Real("900"))
  {
    hide ValueRule, Comment, OptComment, AfterEquals, Assignment, LineBody, NormalLine, Lines;
    NumberOfDigits("900", t);
    ValueNumberStops("900", t);
  }

  // The last line on its own.
  lemma LastLine()
    ensures Run("dt = 1800") == Ok(map["dt" := Real("1800")])
  {
    hide ValueRule, Comment, OptComment, AfterEquals, Assignment, LineBody, NormalLine, Lines;
    var none: string := [];
    assert "dt = 1800" == "dt" + " " + "=" + " " + "1800" + none + none;
    NumberOfDigits("1800", none);
    assert "1800" + none == "1800";
    ValueNumberStops("1800", none);
    AssignmentLast("dt", " ", " ", "1800", Real("1800"), none, none);
  }

  /** `x = 5.` is rejected at the dot, offset 5. */
  lemma TrailingDotExample()
    ensures Run("x = 5.\n") == Err(5)
  {
    hide ValueRule, Comment, OptComment, AfterEquals, Assignment, LineBody, NormalLine, Lines;
    assert "x = 5.\n" == "x" + " " + "=" + " " + "5" + "." + "\n";
    TrailingDotRejected("x", " ", " ", "5", "\n");
  }

  /** An indented assignment is rejected at its first character. */
  lemma IndentedExample()
    ensures Run("  x = 1\n") == Err(0)
  {
    hide ValueRule, Comment, OptComment, AfterEquals, Assignment, LineBody, NormalLine, Lines;
    assert "  x = 1\n" == "  " + "x = 1\n";
    IndentedLineRejected("  ", "x = 1\n");
  }

  /** A quote that is never closed is rejected at the end of the input, offset 9. */
  lemma UnterminatedExample()
    ensures Run("s = \"abc\n") == Err(9)
  {
    hide ValueRule, Comment, OptComment, AfterEquals, Assignment, LineBody, NormalLine, Lines;
    assert "s = \"abc\n" == "s" + " " + "=" + " " + "\"" + "abc\n";
    UnterminatedQuoteRejected("s", " ", " ", "abc\n");
  }
}
