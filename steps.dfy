/** One unfolding of each composite rule, stated for whatever the rules it calls return.
    Proofs about particular inputs go through these, one rule at a time, instead of
    unfolding a whole line of the grammar at once. */
module RuleSteps {
  import opened Values
  import opened Grammar

  // ---------------------------------------------------------------- sequences

  /** Regrouping a concatenation. */
  lemma Regroup(a: string, b: string, c: string)
    ensures a + (b + c) == a + b + c
  {
  }

  /** Regrouping a concatenation of four. */
  lemma Regroup3(a: string, b: string, c: string, d: string)
    ensures a + (b + c + d) == a + b + c + d
  {
  }

  /** Dropping twice is dropping once. */
  lemma DropDrop(w: string, i: nat, j: nat)
    requires i + j <= |w|
    ensures w[i..][j..] == w[i + j..]
  {
  }

  /** The two halves of a concatenation. */
  lemma Halves(a: string, b: string)
    ensures (a + b)[..|a|] == a && (a + b)[|a|..] == b
  {
  }

  // ---------------------------------------------------------------- comments

  /** comment by its first alternative: a comment start and the rest of the line. */
  lemma CommentByStart(w: string, b: nat, c: nat, m: nat)
    requires Ws(w) == b && CommentStart(w[b..]) == Some(c)
    requires b + c <= |w| && Munch(w[b + c..], NotEolChar) == m
    ensures Comment(w) == Some(b + c + m)
  {
    hide Ws, CommentStart, Munch, CComment;
  }

  /** comment by its second alternative, a c_comment. */
  lemma CommentByBlockStep(w: string, b: nat, c: nat)
    requires Ws(w) == b && CommentStart(w[b..]) == None && CComment(w[b..]) == Some(c)
    ensures Comment(w) == Some(b + c)
  {
    hide Ws, CommentStart, Munch, CComment;
  }

  /** Neither alternative of comment starts. */
  lemma CommentNone(w: string, b: nat)
    requires Ws(w) == b && CommentStart(w[b..]) == None && CComment(w[b..]) == None
    ensures Comment(w) == None && OptComment(w) == 0
  {
    hide Ws, CommentStart, Munch, CComment;
  }

  /** opt<comment> on a comment. */
  lemma OptCommentSome(w: string, c: nat)
    requires Comment(w) == Some(c)
    ensures OptComment(w) == c
  {
    hide Comment;
  }

  /** Neither kind of comment opens on anything but `!`, `#` or `/`. */
  lemma NoOpening(x: string)
    requires x == [] || (x[0] != '!' && x[0] != '#' && x[0] != '/')
    ensures CommentStart(x) == None && CComment(x) == None
  {
    hide UntilClose;
  }

  // The opening of a c_comment does not start a line comment.
  lemma BlockIsNoLineStart(x: string)
    requires |x| >= 2 && x[0] == '/' && x[1] == '*'
    ensures CommentStart(x) == None
  {
  }

  // ---------------------------------------------------------------- values

  /** value by its number alternative. */
  lemma ValueByNumber(w: string, n: nat)
    requires QuotedString(w).Miss? && Number(w) == Some(n)
    ensures ValueRule(w) == Hit(n, Real(w[..n]))
  {
    hide QuotedString, Number, Path, Boolean;
  }

  /** value by its quoted_string alternative raising. */
  lemma ValueByFatalQuote(w: string)
    requires QuotedString(w).Fatal?
    ensures ValueRule(w) == Fatal(|w|)
  {
    hide QuotedString, Number, Path, Boolean;
  }

  // ---------------------------------------------------------------- assignments

  /** One unfolding of AfterEquals on a value that matches. */
  lemma AfterEqualsStep(x: string, y: string, n: nat, v: Value, z: string)
    requires y == x[Ws(x)..] && ValueRule(y) == Hit(n, v)
    requires z == y[n..][Ws(y[n..])..]
    ensures AfterEquals(x) == Hit(|x| - |z| + OptComment(z), v)
  {
    hide Ws, ValueRule, OptComment;
  }

  /** One unfolding of AfterEquals on a value that raises. */
  lemma AfterEqualsFatalStep(x: string)
    requires ValueRule(x[Ws(x)..]).Fatal?
    ensures AfterEquals(x).Fatal?
  {
    hide Ws, ValueRule, OptComment;
  }

  /** One unfolding of Assignment once the identifier and the `=` are found. */
  lemma AssignmentStep(w: string, key: string, x: string, y: string)
    requires Identifier(w) == Some(|key|) && w[..|key|] == key
    requires x == w[|key|..][Ws(w[|key|..])..] && x != [] && x[0] == '=' && y == x[1..]
    ensures AfterEquals(y).Miss? ==> Assignment(w).Miss?
    ensures AfterEquals(y).Fatal? ==> Assignment(w).Fatal?
    ensures AfterEquals(y).Hit? ==>
      Assignment(w) == Hit(|w| - |y| + AfterEquals(y).len, Binding(key, AfterEquals(y).result))
  {
    hide Identifier, Ws, AfterEquals;
  }

  /** An assignment starts with an identifier. */
  lemma NoIdentifierNoAssignment(w: string)
    requires Identifier(w).None?
    ensures Assignment(w).Miss?
  {
    hide Identifier, Ws, AfterEquals;
  }

  // ---------------------------------------------------------------- lines

  /** A line body by its assignment alternative. */
  lemma BodyByAssignment(w: string, n: nat, b: Binding)
    requires Assignment(w) == Hit(n, b)
    ensures LineBody(w) == Hit(n, Some(b))
  {
    hide Assignment, Comment, CComment;
  }

  /** A line body by its comment alternative. */
  lemma BodyByComment(w: string, n: nat)
    requires Assignment(w).Miss? && Comment(w) == Some(n)
    ensures LineBody(w) == Hit(n, None)
  {
    hide Assignment, Comment, CComment;
  }

  /** A line body that raises with its assignment. */
  lemma BodyFatal(w: string)
    requires Assignment(w).Fatal?
    ensures LineBody(w).Fatal?
  {
    hide Assignment, Comment, CComment;
  }

  /** A line body is missing when none of its three alternatives starts. */
  lemma BodyMiss(w: string)
    requires Assignment(w).Miss? && Comment(w).None? && CComment(w).None?
    ensures LineBody(w) == Miss
  {
    hide Assignment, Comment, CComment;
  }

  /** content_line: a line body followed by an end of line. */
  lemma ContentLine(w: string, n: nat, b: Option<Binding>, e: nat)
    requires LineBody(w) == Hit(n, b) && Eol(w[n..]) == Some(e)
    ensures NormalLine(w) == Hit(n + e, b)
  {
    hide LineBody, Eol;
  }

  /** blank_line: an end of line alone, once no line body starts. */
  lemma BlankStep(w: string, e: nat)
    requires LineBody(w) == Miss && Eol(w) == Some(e)
    ensures NormalLine(w) == Hit(e, None)
  {
    hide LineBody, Eol;
  }

  /** No normal line: a body not followed by an end of line, and no end of line either. */
  lemma NormalMiss(w: string, n: nat, b: Option<Binding>)
    requires LineBody(w) == Hit(n, b) && Eol(w[n..]) == None && Eol(w) == None
    ensures NormalLine(w) == Miss
  {
    hide LineBody, Eol;
  }

  /** No normal line: no body and no end of line. */
  lemma NormalMissNoBody(w: string)
    requires LineBody(w) == Miss && Eol(w) == None
    ensures NormalLine(w) == Miss
  {
    hide LineBody, Eol;
  }

  /** A normal line that raises. */
  lemma NormalFatal(w: string)
    requires LineBody(w).Fatal?
    ensures NormalLine(w).Fatal?
  {
    hide LineBody, Eol;
  }
}
