/** The PEG that recognises a MOM6-style parameter file, one rule per function.

    Every rule looks at the input that remains, `w`, and says how many characters it
    consumes. A rule that can only succeed or fail returns `Option<nat>`; the rules that
    contain the `if_must` of a quoted string can also raise, and return a `Step`. The value
    rules also return what their semantic action stores (module Values), so that `Lines`
    yields, in order, the binding of every assignment line of an accepted file. */
module Grammar {
  import opened Values

  datatype Option<+T> = None | Some(value: T)

  /** Outcome of a rule that can raise: no match (the caller may try something else), a match
      of `len` characters, or an unrecoverable parse error at offset `at`. */
  datatype Step<+T> = Miss | Hit(len: nat, result: T) | Fatal(at: nat)

  /** Outcome of the whole file: the bindings of its assignment lines, or the error offset. */
  datatype Outcome = Accepted(bindings: seq<Binding>) | Rejected(at: nat)

  // ---------------------------------------------------------------- character classes

  predicate IsDigit(c: char) { '0' <= c <= '9' }
  predicate IsAlpha(c: char) { 'a' <= c <= 'z' || 'A' <= c <= 'Z' }
  predicate IsAlnum(c: char) { IsAlpha(c) || IsDigit(c) }
  predicate IsBlank(c: char) { c == ' ' || c == '\t' }
  predicate IsIdentStart(c: char) { IsAlpha(c) || c == '_' }
  predicate IsIdentChar(c: char) { IsAlnum(c) || c == '_' }
  predicate IsPathChar(c: char) { IsAlnum(c) || c == '/' || c == '_' || c == '-' || c == '.' }
  predicate IsSign(c: char) { c == '+' || c == '-' }
  predicate IsEolChar(c: char) { c == '\n' || c == '\r' }
  predicate NotEolChar(c: char) { !IsEolChar(c) }

  /** An identifier: a letter or `_`, then letters, digits and `_`. */
  predicate IsIdentifier(x: string)
  {
    x != [] && IsIdentStart(x[0]) && forall k :: 1 <= k < |x| ==> IsIdentChar(x[k])
  }

  // A closing `*/` starts at offset k of w.
  predicate CloseAt(w: string, k: int)
  {
    0 <= k && k + 1 < |w| && w[k] == '*' && w[k + 1] == '/'
  }

  // ---------------------------------------------------------------- generic repetition

  /** star<one of a class>: the length of the longest prefix of w whose characters are all
      in the class. */
  function Munch(w: string, p: char -> bool): (n: nat)
    ensures n <= |w|
    ensures forall k :: 0 <= k < n ==> p(w[k])
    ensures n == |w| || !p(w[n])
    decreases |w|
  {
    if w != [] && p(w[0]) then 1 + Munch(w[1..], p) else 0
  }

  /** until<one<c>>: the length up to and including the first c, or None when w has none. */
  function UntilChar(w: string, c: char): (r: Option<nat>)
    ensures r.None? <==> c !in w
    ensures r.Some? ==> 0 < r.value <= |w| && w[r.value - 1] == c && c !in w[..r.value - 1]
    decreases |w|
  {
    if w == [] then None
    else if w[0] == c then Some(1)
    else match UntilChar(w[1..], c)
      case Some(n) => Some(1 + n)
      case None => None
  }

  // until<string<'*','/'>>: the length up to and including the first `*/`, or None when w
  // has none.
  function UntilClose(w: string): (r: Option<nat>)
    ensures r.None? <==> forall k :: 0 <= k < |w| ==> !CloseAt(w, k)
    ensures r.Some? ==> 2 <= r.value <= |w| && CloseAt(w, r.value - 2)
    ensures r.Some? ==> forall k :: 0 <= k < r.value - 2 ==> !CloseAt(w, k)
    decreases |w|
  {
    if CloseAt(w, 0) then Some(2)
    else if w == [] then None
    else match UntilClose(w[1..])
      case Some(n) =>
        assert forall k :: 1 <= k < 1 + n - 2 ==> (CloseAt(w, k) <==> CloseAt(w[1..], k - 1));
        assert CloseAt(w, n - 1);
        Some(1 + n)
      case None =>
        assert forall k :: 1 <= k < |w| ==> (CloseAt(w, k) <==> CloseAt(w[1..], k - 1));
        None
  }

  // ---------------------------------------------------------------- tokens

  /** ws: spaces and tabs, never an end of line. */
  function Ws(w: string): (n: nat)
    ensures n <= |w|
    ensures forall k :: 0 <= k < n ==> IsBlank(w[k])
    ensures n == |w| || !IsBlank(w[n])
  {
    Munch(w, IsBlank)
  }

  /** identifier: a letter or `_` followed by letters, digits and `_`, as many as there are. */
  function Identifier(w: string): (r: Option<nat>)
    ensures r.Some? <==> w != [] && IsIdentStart(w[0])
    ensures r.Some? ==> 0 < r.value <= |w| && IsIdentifier(w[..r.value])
    ensures r.Some? ==> r.value == |w| || !IsIdentChar(w[r.value])
  {
    if w != [] && IsIdentStart(w[0]) then Some(1 + Munch(w[1..], IsIdentChar)) else None
  }

  /** true_kw: `true` in any mix of cases. */
  predicate TrueKw(w: string)
  {
    |w| >= 4 && w[0] in "Tt" && w[1] in "Rr" && w[2] in "Uu" && w[3] in "Ee"
  }

  /** false_kw: `false` in any mix of cases. */
  predicate FalseKw(w: string)
  {
    |w| >= 5 && w[0] in "Ff" && w[1] in "Aa" && w[2] in "Ll" && w[3] in "Ss" && w[4] in "Ee"
  }

  /** boolean: the matched text. The six alternatives are tried in the order written. */
  function Boolean(w: string): (r: Option<string>)
    ensures r.Some? ==> r.value != [] && r.value <= w
    ensures r.Some? ==> forall k :: 0 <= k < |r.value| ==> IsPathChar(r.value[k])
  {
    if TrueKw(w) then Some(w[..4])
    else if FalseKw(w) then Some(w[..5])
    else if w != [] && w[0] in "Tt" then Some(w[..1])
    else if w != [] && w[0] in "Ff" then Some(w[..1])
    else if |w| >= 6 && w[0] == '.' && TrueKw(w[1..]) && w[5] == '.' then Some(w[..6])
    else if |w| >= 7 && w[0] == '.' && FalseKw(w[1..]) && w[6] == '.' then Some(w[..7])
    else None
  }

  /** digits: one or more decimal digits, as many as there are. */
  function Digits(w: string): (r: Option<nat>)
    ensures r.Some? <==> w != [] && IsDigit(w[0])
    ensures r.Some? ==> 0 < r.value <= |w| && (forall k :: 0 <= k < r.value ==> IsDigit(w[k]))
    ensures r.Some? ==> r.value == |w| || !IsDigit(w[r.value])
  {
    var n := Munch(w, IsDigit);
    if n > 0 then Some(n) else None
  }

  /** decimal: optional digits, a dot, then at least one digit. */
  function Decimal(w: string): (r: Option<nat>)
    ensures r.Some? ==> 0 < r.value <= |w|
  {
    var j := Munch(w, IsDigit);
    if j < |w| && w[j] == '.' then
      match Digits(w[j + 1..])
      case Some(d) => Some(j + 1 + d)
      case None => None
    else None
  }

  /** exponent: `e` or `E`, an optional sign, then at least one digit. */
  function Exponent(w: string): (r: Option<nat>)
    ensures r.Some? ==> 1 < r.value <= |w|
  {
    if w != [] && w[0] in "eE" then
      var j := if |w| > 1 && IsSign(w[1]) then 2 else 1;
      match Digits(w[j..])
      case Some(d) => Some(j + d)
      case None => None
    else None
  }

  /** sor<decimal, digits>: the part of a number before its exponent. */
  function Mantissa(w: string): (r: Option<nat>)
    ensures r.Some? ==> 0 < r.value <= |w|
  {
    match Decimal(w)
    case Some(d) => Some(d)
    case None => Digits(w)
  }

  /** number: a decimal or else plain digits, then an optional exponent. No sign. */
  function Number(w: string): (r: Option<nat>)
    ensures r.Some? ==> 0 < r.value <= |w|
  {
    match Mantissa(w)
    case None => None
    case Some(m) =>
      match Exponent(w[m..])
      case Some(e) => Some(m + e)
      case None => Some(m)
  }

  /** quoted_string: `"` then everything up to and including the next `"`, across lines if
      need be; once the opening quote is seen a missing closing quote is a parse error,
      raised where the search for it ran out of input. */
  function QuotedString(w: string): (r: Step<()>)
    ensures r.Miss? <==> w == [] || w[0] != '"'
    ensures r.Hit? ==> 2 <= r.len <= |w| && w[r.len - 1] == '"' && '"' !in w[1..r.len - 1]
    ensures r.Fatal? ==> r.at == |w| && '"' !in w[1..]
  {
    if w == [] || w[0] != '"' then Miss
    else match UntilChar(w[1..], '"')
      case Some(n) =>
        assert w[1..][..n - 1] == w[1..1 + n - 1];
        Hit(1 + n, ())
      case None => Fatal(|w|)
  }

  /** path: one or more letters, digits, `/`, `_`, `-` or `.`, as many as there are. */
  function Path(w: string): (r: Option<nat>)
    ensures r.Some? <==> w != [] && IsPathChar(w[0])
    ensures r.Some? ==> 0 < r.value <= |w| && (forall k :: 0 <= k < r.value ==> IsPathChar(w[k]))
    ensures r.Some? ==> r.value == |w| || !IsPathChar(w[r.value])
  {
    var n := Munch(w, IsPathChar);
    if n > 0 then Some(n) else None
  }

  /** value: quoted_string, number, path, boolean, tried in that order; the first that
      matches wins and its action gives the stored value. */
  function ValueRule(w: string): (r: Step<Value>)
    ensures r.Hit? ==> 0 < r.len <= |w|
    ensures r.Fatal? ==> r.at == |w|
  {
    match QuotedString(w)
    case Fatal(p) => Fatal(p)
    case Hit(n, _) => Hit(n, QuotedAction(w[..n]))
    case Miss =>
      match Number(w)
      case Some(n) => Hit(n, NumberAction(w[..n]))
      case None =>
        match Path(w)
        case Some(n) => Hit(n, PathAction(w[..n]))
        case None =>
          match Boolean(w)
          case Some(lexeme) => Hit(|lexeme|, BoolAction(lexeme))
          case None => Miss
  }

  // ---------------------------------------------------------------- comments

  /** comment_start: `!`, `#` or `//`. */
  function CommentStart(w: string): (r: Option<nat>)
    ensures r.Some? ==> 0 < r.value <= |w|
  {
    if w != [] && w[0] in "!#" then Some(1)
    else if |w| >= 2 && w[0] == '/' && w[1] == '/' then Some(2)
    else None
  }

  // c_comment: `/*` then everything up to and including the first `*/`.
  function CComment(w: string): (r: Option<nat>)
    ensures r.Some? ==> 4 <= r.value <= |w|
  {
    if |w| >= 2 && w[0] == '/' && w[1] == '*' then
      match UntilClose(w[2..])
      case Some(n) => Some(2 + n)
      case None => None
    else None
  }

  /** comment: blanks, then either a comment start and the rest of the line (never an end of
      line character), or a c_comment. */
  function Comment(w: string): (r: Option<nat>)
    ensures r.Some? ==> 0 < r.value <= |w|
  {
    var b := Ws(w);
    match CommentStart(w[b..])
    case Some(c) => Some(b + c + Munch(w[b + c..], NotEolChar))
    case None =>
      match CComment(w[b..])
      case Some(c) => Some(b + c)
      case None => None
  }

  /** opt<comment>. */
  function OptComment(w: string): (n: nat)
    ensures n <= |w|
  {
    match Comment(w) case Some(c) => c case None => 0
  }

  // ---------------------------------------------------------------- lines

  /** The part of an assignment after its `=`: blanks, value, blanks, optional comment. The
      result is what the value's action stores. */
  function AfterEquals(x: string): (r: Step<Value>)
    ensures r.Hit? ==> 0 < r.len <= |x|
    ensures r.Fatal? ==> r.at == |x|
  {
    var y := x[Ws(x)..];
    match ValueRule(y)
    case Miss => Miss
    case Fatal(p) => Fatal(|x| - |y| + p)
    case Hit(n, v) =>
      var z := y[n..][Ws(y[n..])..];
      Hit(|x| - |z| + OptComment(z), v)
  }

  /** assignment: identifier, blanks, `=`, then the rest as above. The binding is the
      identifier and the stored value. */
  function Assignment(w: string): (r: Step<Binding>)
    ensures r.Hit? ==> 0 < r.len <= |w|
    ensures r.Fatal? ==> r.at == |w|
  {
    match Identifier(w)
    case None => Miss
    case Some(k) =>
      var x := w[k..][Ws(w[k..])..];
      if x != [] && x[0] == '=' then
        match AfterEquals(x[1..])
        case Miss => Miss
        case Fatal(p) => Fatal(|w| - |x| + 1 + p)
        case Hit(n, v) => Hit(|w| - |x| + 1 + n, Binding(w[..k], v))
      else Miss
  }

  /** eol: `\n` or `\r\n`. */
  function Eol(w: string): (r: Option<nat>)
    ensures r.Some? ==> 0 < r.value <= |w|
  {
    if w != [] && w[0] == '\n' then Some(1)
    else if |w| >= 2 && w[0] == '\r' && w[1] == '\n' then Some(2)
    else None
  }

  /** sor<assignment, comment, c_comment>, the body of a content line and of the last line;
      the result is the binding of an assignment and None for a comment. */
  function LineBody(w: string): (r: Step<Option<Binding>>)
    ensures r.Hit? ==> 0 < r.len <= |w|
    ensures r.Fatal? ==> r.at == |w|
  {
    match Assignment(w)
    case Fatal(p) => Fatal(p)
    case Hit(n, b) => Hit(n, Some(b))
    case Miss =>
      match Comment(w)
      case Some(n) => Hit(n, None)
      case None =>
        match CComment(w)
        case Some(n) => Hit(n, None)
        case None => Miss
  }

  /** normal_line: a line body followed by an end of line, or else a blank line (an end of
      line alone). */
  function NormalLine(w: string): (r: Step<Option<Binding>>)
    ensures r.Hit? ==> 0 < r.len <= |w|
    ensures r.Fatal? ==> r.at == |w|
  {
    var content :=
      match LineBody(w)
      case Hit(n, b) =>
        (match Eol(w[n..]) case Some(e) => Hit(n + e, b) case None => Miss)
      case other => other;
    match content
    case Miss =>
      (match Eol(w) case Some(e) => Hit(e, None) case None => Miss)
    case other => other
  }

  /** The bindings a line contributes: one for an assignment, none for a comment or blank. */
  function Contributes(b: Option<Binding>): seq<Binding>
  {
    match b case Some(x) => [x] case None => []
  }

  /** A line of n characters contributing b, followed by the outcome of the rest of the file. */
  function After(n: nat, b: Option<Binding>, rest: Outcome): Outcome
  {
    match rest
    case Accepted(bs) => Accepted(Contributes(b) + bs)
    case Rejected(p) => Rejected(n + p)
  }

  /** grammar: must<star<normal_line>, opt<last_line>, eof>. Every failure to reach the end
      of the input is an error, at the offset where the end of input was expected. */
  function Lines(w: string): (r: Outcome)
    ensures r.Rejected? ==> r.at <= |w|
    decreases |w|
  {
    match NormalLine(w)
    case Fatal(p) => Rejected(p)
    case Hit(n, b) => After(n, b, Lines(w[n..]))
    case Miss =>
      match LineBody(w)
      case Fatal(p) => Rejected(p)
      case Hit(n, b) => if n == |w| then Accepted(Contributes(b)) else Rejected(n)
      case Miss => if w == [] then Accepted([]) else Rejected(0)
  }
}
