/** What whole files do: which lines leave the map alone, which overwrite an entry, and where a
    file that breaks the line structure is rejected. */
module FileFacts {
  import opened Values
  import opened Grammar
  import opened Builder
  import opened TokenFacts
  import opened RuleSteps

  // Most proofs below begin by hiding the composite rules (value, the comment rules,
  // assignment, the line rules and grammar), so that each proof unfolds only the rule it
  // names and reaches the others through the step lemmas and the lemmas before it.

  predicate AllBlank(x: string)
  {
    forall k :: 0 <= k < |x| ==> IsBlank(x[k])
  }

  predicate NoEolChar(x: string)
  {
    forall k :: 0 <= k < |x| ==> NotEolChar(x[k])
  }

  /** The two ends of line the grammar knows: a line feed, or a carriage return and a line feed. */
  predicate IsEol(x: string)
  {
    x == "\n" || x == "\r\n"
  }

  /** ws stops at the first character that is not a blank. */
  lemma WsPrefix(blanks: string, x: string)
    requires AllBlank(blanks) && (x == [] || !IsBlank(x[0]))
    ensures Ws(blanks + x) == |blanks| && (blanks + x)[|blanks|..] == x
  {
    hide ValueRule, Comment, OptComment, AfterEquals, Assignment, LineBody, NormalLine, Lines;
    var w := blanks + x;
    assert forall k :: 0 <= k < |blanks| ==> w[k] == blanks[k];
    assert x != [] ==> w[|blanks|] == x[0];
    MunchExact(w, IsBlank, |blanks|);
  }

  // ---------------------------------------------------------------- the map

  /** Last write wins: the entry under a key is the value of the last assignment to that key,
      whatever was assigned to it before. */
  lemma {:induction false} BuildLastWins(bs: seq<Binding>, j: nat)
    requires j < |bs|
    requires forall l :: j < l < |bs| ==> bs[l].key != bs[j].key
    ensures bs[j].key in Build(bs) && Build(bs)[bs[j].key] == bs[j].value
    decreases |bs|
  {
    if j < |bs| - 1 {
      var init := bs[..|bs| - 1];
      assert forall l :: j < l < |init| ==> init[l] == bs[l];
      BuildLastWins(init, j);
    }
  }

  // ---------------------------------------------------------------- one line in front

  /** A recognised normal line in front of the rest of a file puts its binding, if any, in
      front of the rest's bindings, and moves every error of the rest back by its length. */
  lemma PrependLine(line: string, t: string, b: Option<Binding>)
    requires NormalLine(line + t) == Hit(|line|, b)
    ensures Lines(line + t) == Resume(|line|, Contributes(b), Lines(t))
  {
    hide ValueRule, Comment, OptComment, AfterEquals, Assignment, LineBody, NormalLine, Lines;
    LinesAfterLine(line + t, |line|, b);
    assert (line + t)[|line|..] == t;
    ResumeNothing(After(|line|, b, Lines(t)));
    ResumeAfter(0, [], |line|, b, Lines(t));
    assert [] + Contributes(b) == Contributes(b);
  }

  /** An end of line at the head of w is recognised as one. */
  lemma EolAtHead(eol: string, t: string)
    requires IsEol(eol)
    ensures Eol(eol + t) == Some(|eol|)
  {
    hide ValueRule, Comment, OptComment, AfterEquals, Assignment, LineBody, NormalLine, Lines;
    assert (eol + t)[0] == eol[0];
    assert |eol| == 2 ==> (eol + t)[1] == '\n';
  }

  /** No comment starts at an end of line or at the end of the input. */
  lemma NoCommentHere(w: string)
    requires w == [] || IsEolChar(w[0])
    ensures Comment(w) == None && OptComment(w) == 0
  {
    hide ValueRule, Comment, OptComment, AfterEquals, Assignment, LineBody, NormalLine, Lines;
    assert Ws(w) == 0;
    assert w[0..] == w;
    NoOpening(w);
    CommentNone(w, 0);
  }

  /** Nothing that starts with an end of line character is a line body. */
  lemma NoBodyAtEol(w: string)
    requires w != [] && IsEolChar(w[0])
    ensures LineBody(w) == Miss
  {
    hide ValueRule, Comment, OptComment, AfterEquals, Assignment, LineBody, NormalLine, Lines;
    NoCommentHere(w);
    NoIdentifierNoAssignment(w);
    NoOpening(w);
    BodyMiss(w);
  }

  /** A blank line is a normal line with no binding. */
  lemma BlankNormal(eol: string, t: string)
    requires IsEol(eol)
    ensures NormalLine(eol + t) == Hit(|eol|, None)
  {
    hide ValueRule, Comment, OptComment, AfterEquals, Assignment, LineBody, NormalLine, Lines;
    EolAtHead(eol, t);
    assert (eol + t)[0] == eol[0];
    NoBodyAtEol(eol + t);
    BlankStep(eol + t, |eol|);
  }

  /** A blank line changes nothing: the file's map is the map of the rest, and an error in
      the rest moves back by the line's length. */
  lemma BlankLine(eol: string, t: string)
    requires IsEol(eol)
    ensures Run(t).Ok? ==> Run(eol + t) == Run(t)
    ensures Run(t).Err? ==> Run(eol + t) == Err(|eol| + Run(t).at)
  {
    hide ValueRule, Comment, OptComment, AfterEquals, Assignment, LineBody, NormalLine, Lines;
    BlankNormal(eol, t);
    RunPrepend(eol, t, None);
  }

  // ---------------------------------------------------------------- line comments

  /** A `!`, `#` or `//` comment, possibly indented, runs up to the end of line that follows
      its text. */
  lemma LineComment(blanks: string, start: string, text: string, rest: string)
    requires AllBlank(blanks) && (start == "!" || start == "#" || start == "//")
    requires NoEolChar(text) && (rest == [] || IsEolChar(rest[0]))
    ensures Comment(blanks + start + text + rest) == Some(|blanks| + |start| + |text|)
  {
    hide ValueRule, Comment, OptComment, AfterEquals, Assignment, LineBody, NormalLine, Lines;
    hide Ws, Munch, CommentStart, CComment;
    var w := blanks + start + text + rest;
    LineCommentParts(blanks, start, text, rest);
    MunchText(text, rest);
    CommentByStart(w, |blanks|, |start|, |text|);
  }

  /** Where the blanks, the comment start and the text of such a line begin. */
  lemma LineCommentParts(blanks: string, start: string, text: string, rest: string)
    requires AllBlank(blanks) && (start == "!" || start == "#" || start == "//")
    ensures var w := blanks + start + text + rest;
      && Ws(w) == |blanks| && CommentStart(w[|blanks|..]) == Some(|start|)
      && w[|blanks| + |start|..] == text + rest
  {
    hide Ws, Munch, CommentStart, CComment;
    var x := start + text + rest;
    var w := blanks + start + text + rest;
    Regroup(blanks, start + text, rest);
    Regroup(blanks, start, text);
    assert x[0] == start[0];
    WsPrefix(blanks, x);
    Regroup(start, text, rest);
    CommentStartOf(start, text + rest);
    Halves(start, text + rest);
    DropDrop(w, |blanks|, |start|);
  }

  /** comment_start recognises each of its three spellings. */
  lemma CommentStartOf(start: string, t: string)
    requires start == "!" || start == "#" || start == "//"
    ensures CommentStart(start + t) == Some(|start|)
  {
    assert (start + t)[0] == start[0];
    assert |start| == 2 ==> (start + t)[1] == '/';
  }

  /** The text of a line comment runs up to the end of line. */
  lemma MunchText(text: string, rest: string)
    requires NoEolChar(text) && (rest == [] || IsEolChar(rest[0]))
    ensures Munch(text + rest, NotEolChar) == |text|
  {
    assert forall k :: 0 <= k < |text| ==> (text + rest)[k] == text[k];
    MunchExact(text + rest, NotEolChar, |text|);
  }

  /** Such a comment is a whole line body, with no binding. */
  lemma LineCommentBody(blanks: string, start: string, text: string, rest: string)
    requires AllBlank(blanks) && (start == "!" || start == "#" || start == "//")
    requires NoEolChar(text) && (rest == [] || IsEolChar(rest[0]))
    ensures LineBody(blanks + start + text + rest) == Hit(|blanks| + |start| + |text|, None)
  {
    hide ValueRule, Comment, OptComment, AfterEquals, Assignment, LineBody, NormalLine, Lines;
    var w := blanks + start + text + rest;
    LineComment(blanks, start, text, rest);
    assert w[0] == if blanks == [] then start[0] else blanks[0];
    NoIdentifierNoAssignment(w);
    BodyByComment(w, |blanks| + |start| + |text|);
  }

  /** A line holding only a `!`, `#` or `//` comment, possibly indented, is a normal line
      with no binding. */
  lemma LineCommentNormal(blanks: string, start: string, text: string, eol: string, t: string)
    requires AllBlank(blanks) && (start == "!" || start == "#" || start == "//")
    requires NoEolChar(text) && IsEol(eol)
    ensures NormalLine(blanks + start + text + eol + t) == Hit(|blanks + start + text + eol|, None)
  {
    hide ValueRule, Comment, OptComment, AfterEquals, Assignment, LineBody, NormalLine, Lines;
    var line := blanks + start + text;
    Regroup(line, eol, t);
    assert (eol + t)[0] == eol[0];
    LineCommentBody(blanks, start, text, eol + t);
    Halves(line, eol + t);
    EolAtHead(eol, t);
    ContentLine(line + (eol + t), |line|, None, |eol|);
  }

  /** A line holding only a `!`, `#` or `//` comment, possibly indented, changes nothing. */
  lemma LineCommentLine(blanks: string, start: string, text: string, eol: string, t: string)
    requires AllBlank(blanks) && (start == "!" || start == "#" || start == "//")
    requires NoEolChar(text) && IsEol(eol)
    ensures var line := blanks + start + text + eol;
      && (Run(t).Ok? ==> Run(line + t) == Run(t))
      && (Run(t).Err? ==> Run(line + t) == Err(|line| + Run(t).at))
  {
    hide ValueRule, Comment, OptComment, AfterEquals, Assignment, LineBody, NormalLine, Lines;
    LineCommentNormal(blanks, start, text, eol, t);
    RunPrepend(blanks + start + text + eol, t, None);
  }

  /** A file whose last line, without an end of line, holds only a `!`, `#` or `//` comment
      is accepted: that line adds nothing to the map. */
  lemma LineCommentLast(blanks: string, start: string, text: string)
    requires AllBlank(blanks) && (start == "!" || start == "#" || start == "//")
    requires NoEolChar(text)
    ensures Run(blanks + start + text) == Ok(map[])
  {
    hide ValueRule, Comment, OptComment, AfterEquals, Assignment, LineBody, NormalLine, Lines;
    var w := blanks + start + text;
    var none: string := [];
    assert w + none == w;
    LineCommentBody(blanks, start, text, none);
    assert w[|w|..] == none;
    assert w[0] == if blanks == [] then start[0] else blanks[0];
    NormalMiss(w, |w|, None);
    LinesLast(w);
  }

  // ---------------------------------------------------------------- block comments

  // The until after the opening of a block comment stops at the first closing, which ends
  // the body when the body holds none.
  lemma CloseAfterBody(body: string, rest: string)
    requires forall k :: !CloseAt(body, k)
    ensures UntilClose(body + "*/" + rest) == Some(|body| + 2)
  {
    hide ValueRule, Comment, OptComment, AfterEquals, Assignment, LineBody, NormalLine, Lines;
    var x := body + "*/" + rest;
    assert CloseAt(x, |body|);
    forall k | 0 <= k < |body|
      ensures !CloseAt(x, k)
    {
      if k + 1 < |body| {
        assert !CloseAt(body, k);
      }
    }
  }

  /** c_comment on a block comment whose body holds no closing. */
  lemma CCommentOf(body: string, rest: string)
    requires forall k :: !CloseAt(body, k)
    ensures CComment("/*" + body + "*/" + rest) == Some(|body| + 4)
  {
    hide ValueRule, Comment, OptComment, AfterEquals, Assignment, LineBody, NormalLine, Lines;
    var x := "/*" + body + "*/" + rest;
    assert x[0] == '/' && x[1] == '*';
    assert x[2..] == body + "*/" + rest;
    CloseAfterBody(body, rest);
  }

  /** A block comment, possibly indented and possibly spanning lines, runs to its first
      closing. */
  lemma BlockComment(blanks: string, body: string, rest: string)
    requires AllBlank(blanks) && forall k :: !CloseAt(body, k)
    ensures Comment(blanks + "/*" + body + "*/" + rest) == Some(|blanks| + |body| + 4)
  {
    hide ValueRule, Comment, OptComment, AfterEquals, Assignment, LineBody, NormalLine, Lines, Ws, Munch, CommentStart, CComment, UntilClose;
    var x := "/*" + body + "*/" + rest;
    assert x[0] == '/' && x[1] == '*';
    Regroup(blanks, "/*" + body + "*/", rest);
    Regroup(blanks, "/*" + body, "*/");
    Regroup(blanks, "/*", body);
    WsPrefix(blanks, x);
    CCommentOf(body, rest);
    BlockIsNoLineStart(x);
    CommentByBlockStep(blanks + x, |blanks|, |body| + 4);
  }

  /** Such a comment is a whole line body, with no binding. */
  lemma BlockCommentBody(blanks: string, body: string, rest: string)
    requires AllBlank(blanks) && forall k :: !CloseAt(body, k)
    ensures LineBody(blanks + "/*" + body + "*/" + rest) == Hit(|blanks| + |body| + 4, None)
  {
    hide ValueRule, Comment, OptComment, AfterEquals, Assignment, LineBody, NormalLine, Lines;
    var w := blanks + "/*" + body + "*/" + rest;
    BlockComment(blanks, body, rest);
    assert w[0] == if blanks == [] then '/' else blanks[0];
    NoIdentifierNoAssignment(w);
    BodyByComment(w, |blanks| + |body| + 4);
  }

  /** A line holding only a block comment is a normal line with no binding. */
  lemma BlockCommentNormal(blanks: string, body: string, eol: string, t: string)
    requires AllBlank(blanks) && (forall k :: !CloseAt(body, k)) && IsEol(eol)
    ensures NormalLine(blanks + "/*" + body + "*/" + eol + t)
      == Hit(|blanks + "/*" + body + "*/" + eol|, None)
  {
    hide ValueRule, Comment, OptComment, AfterEquals, Assignment, LineBody, NormalLine, Lines;
    var line := blanks + "/*" + body + "*/";
    Regroup(line, eol, t);
    BlockCommentBody(blanks, body, eol + t);
    Halves(line, eol + t);
    EolAtHead(eol, t);
    ContentLine(line + (eol + t), |line|, None, |eol|);
  }

  /** A line holding only a block comment changes nothing, however many lines the comment
      spans. */
  lemma BlockCommentLine(blanks: string, body: string, eol: string, t: string)
    requires AllBlank(blanks) && (forall k :: !CloseAt(body, k)) && IsEol(eol)
    ensures var line := blanks + "/*" + body + "*/" + eol;
      && (Run(t).Ok? ==> Run(line + t) == Run(t))
      && (Run(t).Err? ==> Run(line + t) == Err(|line| + Run(t).at))
  {
    hide ValueRule, Comment, OptComment, AfterEquals, Assignment, LineBody, NormalLine, Lines;
    BlockCommentNormal(blanks, body, eol, t);
    RunPrepend(blanks + "/*" + body + "*/" + eol, t, None);
  }

  /** A file whose last line, without an end of line, holds only a block comment is
      accepted: that line adds nothing to the map. */
  lemma BlockCommentLast(blanks: string, body: string)
    requires AllBlank(blanks) && forall k :: !CloseAt(body, k)
    ensures Run(blanks + "/*" + body + "*/") == Ok(map[])
  {
    hide ValueRule, Comment, OptComment, AfterEquals, Assignment, LineBody, NormalLine, Lines;
    var w := blanks + "/*" + body + "*/";
    var none: string := [];
    assert w + none == w;
    BlockCommentBody(blanks, body, none);
    assert w[|w|..] == none;
    assert w[0] == if blanks == [] then '/' else blanks[0];
    NormalMiss(w, |w|, None);
    LinesLast(w);
  }

  // ---------------------------------------------------------------- assignments

  /** A `!`, `#` or `//` comment with its text, without an end of line character. */
  predicate IsLineComment(c: string)
  {
    && c != []
    && (c[0] == '!' || c[0] == '#' || (|c| >= 2 && c[0] == '/' && c[1] == '/'))
    && NoEolChar(c)
  }

  // No closing star-slash starts anywhere in body.
  predicate NoClose(body: string)
  {
    forall k :: 0 <= k < |body| ==> !CloseAt(body, k)
  }

  // A block comment, slash-star to star-slash, whose body holds no closing; it may span lines.
  predicate IsBlockComment(c: string)
  {
    && |c| >= 4 && c[0] == '/' && c[1] == '*' && c[|c| - 2] == '*' && c[|c| - 1] == '/'
    && NoClose(c[2..|c| - 2])
  }

  /** An inline comment after a value: a line comment, a block comment, or nothing. */
  predicate IsInlineComment(c: string)
  {
    c == [] || IsLineComment(c) || IsBlockComment(c)
  }

  /** A block comment is recognised whole, whatever follows it. */
  lemma BlockCommentWhole(c: string, rest: string)
    requires IsBlockComment(c)
    ensures Comment(c + rest) == Some(|c|)
  {
    hide ValueRule, Comment, OptComment, AfterEquals, Assignment, LineBody, NormalLine, Lines;
    var body := c[2..|c| - 2];
    var none: string := [];
    assert c == none + "/*" + body + "*/";
    BlockComment(none, body, rest);
  }

  /** A line comment placed before an end of line is recognised whole. */
  lemma LineCommentWhole(c: string, rest: string)
    requires IsLineComment(c) && (rest == [] || IsEolChar(rest[0]))
    ensures Comment(c + rest) == Some(|c|)
  {
    hide ValueRule, Comment, OptComment, AfterEquals, Assignment, LineBody, NormalLine, Lines;
    var start := if c[0] == '!' || c[0] == '#' then c[..1] else c[..2];
    var text := c[|start|..];
    var none: string := [];
    assert c == none + start + text;
    assert forall k :: 0 <= k < |text| ==> text[k] == c[k + |start|];
    LineComment(none, start, text, rest);
  }

  /** What follows a value on an assignment line, up to the end of line: blanks, then an
      optional inline comment. */
  lemma ValueTail(b3: string, c: string, rest: string)
    requires AllBlank(b3) && IsInlineComment(c) && (rest == [] || IsEolChar(rest[0]))
    ensures Ws(b3 + c + rest) == |b3|
    ensures (b3 + c + rest)[|b3|..] == c + rest
    ensures OptComment(c + rest) == |c|
  {
    hide ValueRule, Comment, OptComment, AfterEquals, Assignment, LineBody, NormalLine, Lines;
    Regroup(b3, c, rest);
    assert c != [] ==> (c + rest)[0] == c[0];
    WsPrefix(b3, c + rest);
    if c == [] {
      assert c + rest == rest;
      NoCommentHere(rest);
    } else if IsLineComment(c) {
      LineCommentWhole(c, rest);
      OptCommentSome(c + rest, |c|);
    } else {
      BlockCommentWhole(c, rest);
      OptCommentSome(c + rest, |c|);
    }
  }

  /** A value never starts with a blank. */
  lemma ValueSolid(w: string)
    requires ValueRule(w).Hit?
    ensures w != [] && !IsBlank(w[0])
  {
    hide ValueRule, Comment, OptComment, AfterEquals, Assignment, LineBody, NormalLine, Lines;
    ValueMiss(w);
  }

  /** After the `=`: whatever value the value rule recognises is the one stored, and an
      inline comment after it changes nothing. */
  lemma AfterEqualsValue(b2: string, x: string, v: Value, b3: string, c: string, rest: string)
    requires AllBlank(b2) && AllBlank(b3) && IsInlineComment(c)
    requires rest == [] || IsEolChar(rest[0])
    requires ValueRule(x + b3 + c + rest) == Hit(|x|, v)
    ensures AfterEquals(b2 + x + b3 + c + rest) == Hit(|b2 + x + b3 + c|, v)
  {
    hide ValueRule, Comment, OptComment, AfterEquals, Assignment, LineBody, NormalLine, Lines;
    var u := b3 + c + rest;
    var tail := x + b3 + c + rest;
    Regroup(x, b3 + c, rest);
    Regroup(x, b3, c);
    Halves(x, u);
    ValueSolid(tail);
    WsPrefix(b2, tail);
    ValueTail(b3, c, rest);
    AfterEqualsStep(b2 + tail, tail, |x|, v, c + rest);
    Regroup(b2, x + b3 + c, rest);
    Regroup(b2, x + b3, c);
    Regroup(b2, x, b3);
  }

  /** identifier takes a whole identifier and stops where it ends. */
  lemma IdentifierOf(key: string, t: string)
    requires IsIdentifier(key) && (t == [] || !IsIdentChar(t[0]))
    ensures Identifier(key + t) == Some(|key|)
    ensures (key + t)[..|key|] == key && (key + t)[|key|..] == t
  {
    hide ValueRule, Comment, OptComment, AfterEquals, Assignment, LineBody, NormalLine, Lines;
    var w := key + t;
    assert forall k :: 1 <= k < |key| ==> w[1..][k - 1] == key[k];
    assert t != [] ==> w[1..][|key| - 1] == t[0];
    MunchExact(w[1..], IsIdentChar, |key| - 1);
  }

  /** The key, blanks and `=` at the head of an assignment line are found where they are. */
  lemma AssignmentHead(key: string, b1: string, y: string)
    requires IsIdentifier(key) && AllBlank(b1)
    ensures var w := key + b1 + "=" + y;
      && Identifier(w) == Some(|key|) && w[..|key|] == key
      && w[|key|..][Ws(w[|key|..])..] == "=" + y
  {
    hide ValueRule, Comment, OptComment, AfterEquals, Assignment, LineBody, NormalLine, Lines;
    var x := "=" + y;
    var t := b1 + x;
    Regroup(key, b1, x);
    Regroup(key + b1, "=", y);
    assert t[0] == if b1 == [] then '=' else b1[0];
    IdentifierOf(key, t);
    WsPrefix(b1, x);
  }

  /** The fixed part of an assignment line: the key, blanks and `=`. */
  lemma AssignmentOf(key: string, b1: string, y: string)
    requires IsIdentifier(key) && AllBlank(b1)
    ensures AfterEquals(y).Miss? ==> Assignment(key + b1 + "=" + y).Miss?
    ensures AfterEquals(y).Fatal? ==> Assignment(key + b1 + "=" + y).Fatal?
    ensures AfterEquals(y).Hit? ==>
      Assignment(key + b1 + "=" + y)
        == Hit(|key| + |b1| + 1 + AfterEquals(y).len, Binding(key, AfterEquals(y).result))
  {
    hide ValueRule, Comment, OptComment, AfterEquals, Assignment, LineBody, NormalLine, Lines;
    AssignmentHead(key, b1, y);
    var x := "=" + y;
    assert x[1..] == y;
    AssignmentStep(key + b1 + "=" + y, key, x, y);
  }

  /** A line body made of the key, blanks, `=` and whatever AfterEquals recognises. */
  lemma AssignmentBodyAt(key: string, b1: string, y: string, w: string, n: nat, v: Value)
    requires IsIdentifier(key) && AllBlank(b1)
    requires w == key + b1 + "=" + y && AfterEquals(y) == Hit(n, v)
    ensures LineBody(w) == Hit(|key| + |b1| + 1 + n, Some(Binding(key, v)))
  {
    hide ValueRule, Comment, OptComment, AfterEquals, Assignment, LineBody, NormalLine, Lines;
    AssignmentOf(key, b1, y);
    BodyByAssignment(w, |key| + |b1| + 1 + n, Binding(key, v));
  }

  /** An assignment line body binds the key to the value the value rule recognises. */
  lemma AssignmentBody(key: string, b1: string, b2: string, x: string, v: Value, b3: string,
                       c: string, rest: string)
    requires IsIdentifier(key) && AllBlank(b1) && AllBlank(b2) && AllBlank(b3)
    requires IsInlineComment(c) && (rest == [] || IsEolChar(rest[0]))
    requires ValueRule(x + b3 + c + rest) == Hit(|x|, v)
    ensures LineBody(key + b1 + "=" + b2 + x + b3 + c + rest)
      == Hit(|key + b1 + "=" + b2 + x + b3 + c|, Some(Binding(key, v)))
  {
    hide ValueRule, Comment, OptComment, AfterEquals, Assignment, LineBody, NormalLine, Lines;
    var y := b2 + x + b3 + c + rest;
    var head := key + b1 + "=";
    Regroup(head, b2 + x + b3 + c, rest);
    Regroup(head, b2 + x + b3, c);
    Regroup(head, b2 + x, b3);
    Regroup(head, b2, x);
    AfterEqualsValue(b2, x, v, b3, c, rest);
    AssignmentOf(key, b1, y);
    BodyByAssignment(head + y, |key + b1 + "=" + b2 + x + b3 + c|, Binding(key, v));
  }

  /** The body of an assignment line that ends in an end of line. */
  lemma AssignmentBodyEol(key: string, b1: string, b2: string, x: string, v: Value, b3: string,
                          c: string, eol: string, t: string)
    requires IsIdentifier(key) && AllBlank(b1) && AllBlank(b2) && AllBlank(b3)
    requires IsInlineComment(c) && IsEol(eol)
    requires ValueRule(x + b3 + c + (eol + t)) == Hit(|x|, v)
    ensures var line := key + b1 + "=" + b2 + x + b3 + c;
      LineBody(line + eol + t) == Hit(|line|, Some(Binding(key, v)))
  {
    hide ValueRule, Comment, OptComment, AfterEquals, Assignment, LineBody, NormalLine, Lines;
    assert (eol + t)[0] == eol[0];
    AssignmentBody(key, b1, b2, x, v, b3, c, eol + t);
    Regroup(key + b1 + "=" + b2 + x + b3 + c, eol, t);
  }

  /** An assignment line ending in an end of line is a normal line binding the key. */
  lemma AssignmentNormal(key: string, b1: string, b2: string, x: string, v: Value, b3: string,
                         c: string, eol: string, t: string)
    requires IsIdentifier(key) && AllBlank(b1) && AllBlank(b2) && AllBlank(b3)
    requires IsInlineComment(c) && IsEol(eol)
    requires ValueRule(x + b3 + c + (eol + t)) == Hit(|x|, v)
    ensures var line := key + b1 + "=" + b2 + x + b3 + c;
      NormalLine(line + eol + t) == Hit(|line| + |eol|, Some(Binding(key, v)))
  {
    hide ValueRule, Comment, OptComment, AfterEquals, Assignment, LineBody, NormalLine, Lines;
    var line := key + b1 + "=" + b2 + x + b3 + c;
    var w := line + eol + t;
    AssignmentBodyEol(key, b1, b2, x, v, b3, c, eol, t);
    EolAfter(line, eol, t);
    ContentLine(w, |line|, Some(Binding(key, v)), |eol|);
  }

  /** What follows a line's text is its end of line. */
  lemma EolAfter(line: string, eol: string, t: string)
    requires IsEol(eol)
    ensures Eol((line + eol + t)[|line|..]) == Some(|eol|)
  {
    hide ValueRule, Comment, OptComment, AfterEquals, Assignment, LineBody, NormalLine, Lines;
    Regroup(line, eol, t);
    Halves(line, eol + t);
    EolAtHead(eol, t);
  }

  /** An assignment line in front of the rest of a file binds its key to the value the value
      rule recognises, unless a later line assigns the key again; an inline comment after
      the value changes nothing. */
  lemma AssignmentLine(key: string, b1: string, b2: string, x: string, v: Value, b3: string,
                       c: string, eol: string, t: string)
    requires IsIdentifier(key) && AllBlank(b1) && AllBlank(b2) && AllBlank(b3)
    requires IsInlineComment(c) && IsEol(eol)
    requires ValueRule(x + b3 + c + (eol + t)) == Hit(|x|, v)
    ensures var line := key + b1 + "=" + b2 + x + b3 + c + eol;
      && (Run(t).Ok? && key in Run(t).data ==> Run(line + t) == Run(t))
      && (Run(t).Ok? && key !in Run(t).data ==> Run(line + t) == Ok(Run(t).data[key := v]))
      && (Run(t).Err? ==> Run(line + t) == Err(|line| + Run(t).at))
  {
    hide ValueRule, Comment, OptComment, AfterEquals, Assignment, LineBody, NormalLine, Lines;
    AssignmentNormal(key, b1, b2, x, v, b3, c, eol, t);
    RunPrepend(key + b1 + "=" + b2 + x + b3 + c + eol, t, Some(Binding(key, v)));
  }

  /** The last line may lack its end of line: an assignment there still binds its key. */
  lemma AssignmentLast(key: string, b1: string, b2: string, x: string, v: Value, b3: string,
                       c: string)
    requires IsIdentifier(key) && AllBlank(b1) && AllBlank(b2) && AllBlank(b3)
    requires IsInlineComment(c) && ValueRule(x + b3 + c) == Hit(|x|, v)
    ensures Run(key + b1 + "=" + b2 + x + b3 + c) == Ok(map[key := v])
  {
    hide ValueRule, Comment, OptComment, AfterEquals, Assignment, LineBody, NormalLine, Lines;
    var line := key + b1 + "=" + b2 + x + b3 + c;
    var none: string := [];
    assert x + b3 + c + none == x + b3 + c;
    AssignmentBody(key, b1, b2, x, v, b3, c, none);
    assert line + none == line;
    assert line[|line|..] == none;
    assert line[0] == key[0];
    NormalMiss(line, |line|, Some(Binding(key, v)));
    LinesLast(line);
    assert Build([Binding(key, v)]) == map[key := v];
  }

  // ---------------------------------------------------------------- rejected files

  /** A line body never starts with an end of line character. */
  lemma BodyNotAtEol(w: string)
    requires LineBody(w).Hit?
    ensures Eol(w) == None
  {
    hide ValueRule, Comment, OptComment, AfterEquals, Assignment, LineBody, NormalLine, Lines;
    if w != [] && IsEolChar(w[0]) {
      NoBodyAtEol(w);
    }
  }

  /** must<eof>: a line body that is followed neither by an end of line nor by the end of
      the input rejects the file where the body stops. */
  lemma BodyOverrun(w: string, n: nat, b: Option<Binding>)
    requires LineBody(w) == Hit(n, b) && n < |w| && Eol(w[n..]) == None
    ensures Lines(w) == Rejected(n)
  {
    hide ValueRule, Comment, OptComment, AfterEquals, Assignment, LineBody, NormalLine, Lines;
    BodyNotAtEol(w);
    NormalMiss(w, n, b);
    LinesLast(w);
  }

  /** A line that starts with a blank is rejected at its start unless its first non-blank
      character opens a comment: an indented assignment, and a line of blanks alone, are
      errors. */
  lemma IndentedLineRejected(blanks: string, x: string)
    requires blanks != [] && AllBlank(blanks)
    requires x == [] || (!IsBlank(x[0]) && !OpensComment(x))
    ensures Lines(blanks + x) == Rejected(0)
  {
    hide ValueRule, Comment, OptComment, AfterEquals, Assignment, LineBody, NormalLine, Lines;
    IndentedBodyMiss(blanks, x);
    NormalMissNoBody(blanks + x);
    LinesLast(blanks + x);
  }

  /** Text that opens a comment: `!`, `#`, `//`, or a slash-star that is closed later. */
  predicate OpensComment(x: string)
  {
    || (x != [] && (x[0] == '!' || x[0] == '#'))
    || (|x| >= 2 && x[0] == '/' && x[1] == '/')
    || (|x| >= 2 && x[0] == '/' && x[1] == '*' && !NoClose(x[2..]))
  }

  /** Text that opens no comment is recognised by neither comment rule. */
  lemma NotOpened(x: string)
    requires !OpensComment(x)
    ensures CommentStart(x) == None && CComment(x) == None
  {
    hide Munch;
  }

  /** The body of such a line is not recognised, and no end of line starts it. */
  lemma IndentedBodyMiss(blanks: string, x: string)
    requires blanks != [] && AllBlank(blanks)
    requires x == [] || (!IsBlank(x[0]) && !OpensComment(x))
    ensures LineBody(blanks + x) == Miss && Eol(blanks + x) == None
  {
    hide ValueRule, Comment, OptComment, AfterEquals, Assignment, LineBody, NormalLine, Lines;
    var w := blanks + x;
    assert x != [] ==> !IsBlank(x[0]);
    WsPrefix(blanks, x);
    assert w[0] == blanks[0];
    NoIdentifierNoAssignment(w);
    NotOpened(x);
    CommentNone(w, |blanks|);
    NoOpening(w);
    BodyMiss(w);
  }

  /** An assignment that raises raises for the whole file, at its end. */
  lemma FatalAssignment(w: string)
    requires Assignment(w).Fatal?
    ensures Lines(w) == Rejected(|w|)
  {
    hide ValueRule, Comment, OptComment, AfterEquals, Assignment, LineBody;
    BodyFatal(w);
    NormalFatal(w);
  }

  /** A value that starts with a quote that is never closed raises. */
  lemma AfterEqualsUnterminated(b2: string, q: string)
    requires AllBlank(b2) && '"' !in q
    ensures AfterEquals(b2 + "\"" + q).Fatal?
  {
    hide ValueRule, Comment, OptComment, AfterEquals, Assignment, LineBody, NormalLine, Lines;
    var x := "\"" + q;
    Halves("\"", q);
    WsPrefix(b2, x);
    ValueUnterminated(x);
    Regroup(b2, "\"", q);
    AfterEqualsFatalStep(b2 + x);
  }

  /** if_must: a quote that is never closed makes the whole file an error at its end. */
  lemma UnterminatedQuoteRejected(key: string, b1: string, b2: string, q: string)
    requires IsIdentifier(key) && AllBlank(b1) && AllBlank(b2) && '"' !in q
    ensures var w := key + b1 + "=" + b2 + "\"" + q;
      Lines(w) == Rejected(|w|)
  {
    hide ValueRule, Comment, OptComment, AfterEquals, Assignment, LineBody, NormalLine, Lines;
    var y := b2 + "\"" + q;
    AfterEqualsUnterminated(b2, q);
    AssignmentOf(key, b1, y);
    Regroup(key + b1 + "=", b2 + "\"", q);
    Regroup(key + b1 + "=", b2, "\"");
    FatalAssignment(key + b1 + "=" + y);
  }

  /** A path character that does not open a comment ends nothing: no blanks, no comment and
      no end of line start there. */
  lemma PathCharStops(t: string)
    requires t != [] && IsPathChar(t[0])
    requires !(t[0] == '/' && |t| > 1 && (t[1] == '/' || t[1] == '*'))
    ensures Ws(t) == 0 && OptComment(t) == 0 && Eol(t) == None
  {
    hide ValueRule, Comment, OptComment, AfterEquals, Assignment, LineBody, NormalLine, Lines;
    assert Ws(t) == 0;
    assert t[0..] == t;
    assert CommentStart(t) == None;
    assert CComment(t) == None;
    CommentNone(t, 0);
  }

  /** A number whose text goes on with other characters is stored as the number alone. */
  lemma ValueNumberStops(d: string, t: string)
    requires d != [] && Number(d + t) == Some(|d|)
    ensures ValueRule(d + t) == Hit(|d|, Real(d))
    ensures !IsBlank((d + t)[0]) && (d + t)[|d|..] == t
  {
    hide ValueRule, Comment, OptComment, AfterEquals, Assignment, LineBody, NormalLine, Lines;
    var y := d + t;
    NumberStart(y);
    assert y[0] == d[0];
    Halves(d, t);
    assert QuotedString(y).Miss?;
    ValueByNumber(y, |d|);
  }

  /** A number whose text goes on with a path character stops short of it, and the value
      after the `=` stops there too. */
  lemma AfterEqualsNumberStops(b2: string, d: string, t: string)
    requires AllBlank(b2) && d != [] && Number(d + t) == Some(|d|)
    requires t != [] && IsPathChar(t[0])
    requires !(t[0] == '/' && |t| > 1 && (t[1] == '/' || t[1] == '*'))
    ensures AfterEquals(b2 + d + t) == Hit(|b2| + |d|, Real(d))
  {
    hide ValueRule, Comment, OptComment, AfterEquals, Assignment, LineBody, NormalLine, Lines, Ws, Munch, Number, QuotedString, Path, CommentStart, CComment, Eol;
    var y := d + t;
    ValueNumberStops(d, t);
    WsPrefix(b2, y);
    PathCharStops(t);
    assert t[Ws(t)..] == t;
    Regroup(b2, d, t);
    AfterEqualsStep(b2 + y, y, |d|, Real(d), t);
  }

  /** A value that starts as a number and goes on with other path characters (`1.2.3`,
      `2023/run`, `5.`): value has already chosen number, so the line cannot end there and
      the file is rejected where the number stops. */
  lemma NumberOverrunRejected(key: string, b1: string, b2: string, d: string, t: string)
    requires IsIdentifier(key) && AllBlank(b1) && AllBlank(b2)
    requires d != [] && Number(d + t) == Some(|d|)
    requires t != [] && IsPathChar(t[0])
    requires !(t[0] == '/' && |t| > 1 && (t[1] == '/' || t[1] == '*'))
    ensures var head := key + b1 + "=" + b2 + d;
      Lines(head + t) == Rejected(|head|)
  {
    hide ValueRule, Comment, OptComment, AfterEquals, Assignment, LineBody, NormalLine, Lines;
    var head := key + b1 + "=" + b2 + d;
    var w := head + t;
    NumberOverrunBody(key, b1, b2, d, t);
    Halves(head, t);
    PathCharStops(t);
    BodyOverrun(w, |head|, Some(Binding(key, Real(d))));
  }

  /** The body of such a line stops where the number stops. */
  lemma NumberOverrunBody(key: string, b1: string, b2: string, d: string, t: string)
    requires IsIdentifier(key) && AllBlank(b1) && AllBlank(b2)
    requires d != [] && Number(d + t) == Some(|d|)
    requires t != [] && IsPathChar(t[0])
    requires !(t[0] == '/' && |t| > 1 && (t[1] == '/' || t[1] == '*'))
    ensures var head := key + b1 + "=" + b2 + d;
      LineBody(head + t) == Hit(|head|, Some(Binding(key, Real(d))))
  {
    hide ValueRule, Comment, OptComment, AfterEquals, Assignment, LineBody, NormalLine, Lines, Ws, Munch, Number, QuotedString, Path, CommentStart, CComment, Eol;
    var y := b2 + d + t;
    var w := key + b1 + "=" + b2 + d + t;
    AfterEqualsNumberStops(b2, d, t);
    Regroup3(key + b1 + "=", b2, d, t);
    AssignmentBodyAt(key, b1, y, w, |b2| + |d|, Real(d));
  }

  /** `x = 5.`: the dot after the digits is not part of the number, so the line is rejected
      at the dot, whatever follows it. */
  lemma TrailingDotRejected(key: string, b1: string, b2: string, d: string, rest: string)
    requires IsIdentifier(key) && AllBlank(b1) && AllBlank(b2)
    requires d != [] && AllDigits(d) && (rest == [] || !IsDigit(rest[0]))
    ensures var head := key + b1 + "=" + b2 + d;
      Lines(head + "." + rest) == Rejected(|head|)
  {
    hide ValueRule, Comment, OptComment, AfterEquals, Assignment, LineBody, NormalLine, Lines;
    NumberKeepsTrailingDot(d, rest);
    Regroup(d, ".", rest);
    NumberOverrunRejected(key, b1, b2, d, "." + rest);
    Regroup(key + b1 + "=" + b2 + d, ".", rest);
  }

  // ---------------------------------------------------------------- a whole file

  /** An assignment in front of others survives only if none of them assigns its key. */
  lemma {:induction false} BuildPrepend(b: Binding, bs: seq<Binding>)
    ensures b.key in Build(bs) ==> Build([b] + bs) == Build(bs)
    ensures b.key !in Build(bs) ==> Build([b] + bs) == Build(bs)[b.key := b.value]
    decreases |bs|
  {
    if bs == [] {
      assert [b] + bs == [b];
      assert [b][..0] == [];
    } else {
      var init := bs[..|bs| - 1];
      var last := bs[|bs| - 1];
      var whole := [b] + bs;
      assert whole[..|whole| - 1] == [b] + init;
      assert whole[|whole| - 1] == last;
      assert Build(whole) == Build([b] + init)[last.key := last.value];
      assert Build(bs) == Build(init)[last.key := last.value];
      BuildPrepend(b, init);
      if b.key == last.key {
      } else if b.key in Build(init) {
      } else {
        MapUpdatesCommute(Build(init), b.key, b.value, last.key, last.value);
      }
    }
  }

  /** Updates of two different keys can be made in either order. */
  lemma MapUpdatesCommute(m: map<string, Value>, k1: string, v1: Value, k2: string, v2: Value)
    requires k1 != k2
    ensures m[k1 := v1][k2 := v2] == m[k2 := v2][k1 := v1]
  {
  }

  /** What a line contributing b and n characters long makes of the result of the rest of the
      file: an error moves back by n; a binding is added only where no later line assigned
      its key. */
  function Prepended(n: nat, b: Option<Binding>, r: Result): Result
  {
    match r
    case Err(p) => Err(n + p)
    case Ok(m) =>
      if b.Some? && b.value.key !in m then Ok(m[b.value.key := b.value.value]) else Ok(m)
  }

  /** A normal line in front of a file: the rest's error moves back by the line's length, and
      on success the line's binding is kept exactly when no later line assigns its key. */
  lemma RunPrepend(line: string, t: string, b: Option<Binding>)
    requires NormalLine(line + t) == Hit(|line|, b)
    ensures Run(line + t) == Prepended(|line|, b, Run(t))
  {
    hide ValueRule, Comment, OptComment, AfterEquals, Assignment, LineBody, NormalLine, Lines;
    PrependLine(line, t, b);
    VerdictPrepend(|line|, b, Lines(t));
  }

  /** The same, on outcomes. */
  lemma VerdictPrepend(n: nat, b: Option<Binding>, o: Outcome)
    ensures Verdict(Resume(n, Contributes(b), o)) == Prepended(n, b, Verdict(o))
  {
    match o
    case Accepted(bs) =>
      if b.Some? {
        BuildPrepend(b.value, bs);
      } else {
        assert [] + bs == bs;
      }
    case Rejected(p) =>
  }
}
