/** What the token rules accept, and which alternative of `value` wins. */
module TokenFacts {
  import opened Values
  import opened Grammar
  import opened RuleSteps

  predicate AllDigits(x: string)
  {
    forall k :: 0 <= k < |x| ==> IsDigit(x[k])
  }

  /** The two shapes of a number before its exponent: digits, or optional digits, one dot
      and at least one digit. */
  predicate IsMantissa(x: string)
  {
    && x != []
    && IsDigit(x[|x| - 1])
    && (forall k :: 0 <= k < |x| ==> IsDigit(x[k]) || x[k] == '.')
    && (forall k, l :: 0 <= k < l < |x| && x[k] == '.' ==> x[l] != '.')
  }

  /** `e` or `E`, an optional sign, at least one digit. */
  predicate IsExponent(x: string)
  {
    && |x| >= 2
    && x[0] in "eE"
    && IsDigit(x[|x| - 1])
    && (forall k :: 1 <= k < |x| ==> IsDigit(x[k]) || (k == 1 && IsSign(x[k])))
  }

  /** A number: a mantissa, optionally followed by an exponent. */
  predicate IsNumberText(x: string)
  {
    exists m :: 0 < m <= |x| && IsMantissa(x[..m]) && (m == |x| || IsExponent(x[m..]))
  }

  /** Munch is determined by where the run of class characters stops. */
  lemma MunchExact(w: string, p: char -> bool, n: nat)
    requires n <= |w|
    requires forall k :: 0 <= k < n ==> p(w[k])
    requires n == |w| || !p(w[n])
    ensures Munch(w, p) == n
  {
  }

  // ---------------------------------------------------------------- number

  /** decimal matches only text of the dotted mantissa shape, and always one with a dot. */
  lemma DecimalShape(w: string)
    ensures Decimal(w).Some? ==> IsMantissa(w[..Decimal(w).value])
    ensures Decimal(w).Some? ==> '.' in w[..Decimal(w).value]
  {
    if Decimal(w).Some? {
      var j := Munch(w, IsDigit);
      var d := Decimal(w).value;
      var x := w[..d];
      assert j < |w| && w[j] == '.';
      forall k | j < k < d
        ensures IsDigit(w[k])
      {
        assert w[k] == w[j + 1..][k - j - 1];
      }
      forall k, l | 0 <= k < l < |x| && x[k] == '.'
        ensures x[l] != '.'
      {
        assert k == j;
      }
      assert x[j] == '.';
    }
  }

  lemma MantissaShape(w: string)
    ensures Mantissa(w).Some? ==> IsMantissa(w[..Mantissa(w).value])
  {
    DecimalShape(w);
  }

  lemma ExponentShape(w: string)
    ensures Exponent(w).Some? ==> IsExponent(w[..Exponent(w).value])
  {
    if Exponent(w).Some? {
      var j := if |w| > 1 && IsSign(w[1]) then 2 else 1;
      var e := Exponent(w).value;
      forall k | j <= k < e
        ensures IsDigit(w[k])
      {
        assert w[k] == w[j..][k - j];
      }
    }
  }

  /** number: a mantissa of one of the two shapes, then an optional exponent. */
  lemma NumberShape(w: string)
    ensures Number(w).Some? ==> IsNumberText(w[..Number(w).value])
  {
    if Number(w).Some? {
      var n := Number(w).value;
      var x := w[..n];
      var m := Mantissa(w).value;
      MantissaShape(w);
      assert x[..m] == w[..m];
      if m < n {
        ExponentShape(w[m..]);
        assert x[m..] == w[m..][..Exponent(w[m..]).value];
      }
      assert IsMantissa(x[..m]) && (m == |x| || IsExponent(x[m..]));
    }
  }

  /** A mantissa followed by neither a digit nor a dot is taken whole. */
  lemma MantissaWhole(x: string, u: string)
    requires IsMantissa(x)
    requires u == [] || (!IsDigit(u[0]) && u[0] != '.')
    ensures Mantissa(x + u) == Some(|x|)
  {
    hide Munch;
    var w := x + u;
    if j :| 0 <= j < |x| && x[j] == '.' {
      assert forall k :: 0 <= k < j ==> IsDigit(x[k]);
      MunchExact(w, IsDigit, j);
      var y := w[j + 1..];
      assert y == x[j + 1..] + u;
      MunchExact(y, IsDigit, |x| - j - 1);
      assert Digits(y) == Some(|x| - j - 1);
    } else {
      MunchExact(w, IsDigit, |x|);
      assert Decimal(w) == None;
    }
  }

  /** An exponent followed by anything but a digit is taken whole. */
  lemma ExponentWhole(e: string, t: string)
    requires IsExponent(e)
    requires t == [] || !IsDigit(t[0])
    ensures Exponent(e + t) == Some(|e|)
  {
    var w := e + t;
    var j := if IsSign(e[1]) then 2 else 1;
    assert IsSign(w[1]) <==> IsSign(e[1]);
    MunchExact(w[j..], IsDigit, |e| - j);
  }

  /** Conversely to NumberShape: a number text followed by neither a digit, a dot nor an
      exponent mark is taken whole by number, e.g. `1.5e3` in `1.5e3\n`. */
  lemma NumberWhole(x: string, t: string)
    requires IsNumberText(x)
    requires t == [] || (!IsDigit(t[0]) && t[0] != '.' && t[0] != 'e' && t[0] != 'E')
    ensures Number(x + t) == Some(|x|)
  {
    hide Mantissa, Decimal, Digits, Munch, IsMantissa;
    var w := x + t;
    var m :| 0 < m <= |x| && IsMantissa(x[..m]) && (m == |x| || IsExponent(x[m..]));
    if m == |x| {
      assert x[..m] == x;
      MantissaWhole(x, t);
      assert w[|x|..] == t;
    } else {
      assert w == x[..m] + (x[m..] + t);
      MantissaWhole(x[..m], x[m..] + t);
      assert w[m..] == x[m..] + t;
      ExponentWhole(x[m..], t);
    }
  }

  /** number matches exactly when the input starts with a digit, or with a dot followed by a
      digit: never with a sign. */
  lemma NumberStart(w: string)
    ensures Number(w).Some? <==> w != [] && (IsDigit(w[0]) || (w[0] == '.' && |w| > 1 && IsDigit(w[1])))
  {
    if w != [] && w[0] == '.' && |w| > 1 && IsDigit(w[1]) {
      assert Munch(w, IsDigit) == 0;
      assert w[1..][0] == w[1];
    }
    if Decimal(w).Some? && Munch(w, IsDigit) == 0 {
      assert w[1..][0] == w[1];
    }
  }

  /** An integer followed by anything but a digit, a dot or an exponent mark is a number
      of exactly its digits. */
  lemma NumberOfDigits(d: string, t: string)
    requires d != [] && AllDigits(d)
    requires t == [] || (!IsDigit(t[0]) && t[0] != '.' && t[0] != 'e' && t[0] != 'E')
    ensures Number(d + t) == Some(|d|)
  {
    var w := d + t;
    MunchExact(w, IsDigit, |d|);
    assert Decimal(w) == None;
    assert w[|d|..] == t;
  }

  /** In `5.` followed by anything but a digit the dot is not part of the number. */
  lemma NumberKeepsTrailingDot(d: string, t: string)
    requires d != [] && AllDigits(d)
    requires t == [] || !IsDigit(t[0])
    ensures Number(d + "." + t) == Some(|d|)
  {
    var w := d + "." + t;
    MunchExact(w, IsDigit, |d|);
    assert w[|d| + 1..] == t;
    assert Decimal(w) == None;
    assert w[|d|..][0] == '.';
  }

  /** In `1e` followed by neither a digit nor a sign and a digit, the `e` is not part of the
      number. */
  lemma NumberKeepsBareExponent(d: string, e: char, t: string)
    requires d != [] && AllDigits(d)
    requires e in "eE"
    requires t == [] || !IsDigit(t[0])
    requires |t| < 2 || !IsSign(t[0]) || !IsDigit(t[1])
    ensures Number(d + [e] + t) == Some(|d|)
  {
    var w := d + [e] + t;
    MunchExact(w, IsDigit, |d|);
    assert Decimal(w) == None;
    var x := w[|d|..];
    assert x == [e] + t;
    if |x| > 1 && IsSign(x[1]) {
      assert x[2..] == t[1..];
    } else {
      assert x[1..] == t;
    }
    assert Exponent(x) == None;
  }

  // ---------------------------------------------------------------- boolean and path

  /** Every text that boolean matches is also matched, at least as far, by path. */
  lemma BooleanWithinPath(w: string)
    ensures Boolean(w).Some? ==> Path(w).Some? && |Boolean(w).value| <= Path(w).value
  {
    if Boolean(w).Some? {
      var x := Boolean(w).value;
      assert x == w[..|x|];
      assert forall k :: 0 <= k < |x| ==> IsPathChar(w[k]);
    }
  }

  // ---------------------------------------------------------------- value

  /** A value is missing exactly when the input is exhausted or starts with a character that
      is neither a quote nor a path character. */
  lemma ValueMiss(w: string)
    ensures ValueRule(w).Miss? <==> w == [] || (w[0] != '"' && !IsPathChar(w[0]))
  {
    NumberStart(w);
    BooleanWithinPath(w);
  }

  /** The boolean alternative of value never succeeds: path always succeeds first. */
  lemma ValueNeverBool(w: string)
    ensures ValueRule(w).Hit? ==> !ValueRule(w).result.Bool?
  {
    BooleanWithinPath(w);
  }

  /** A quote opens a string that runs to the next quote, across lines if need be, and is
      stored without its two quotes. */
  lemma ValueQuoted(w: string, j: nat)
    requires 0 < j < |w| && w[0] == '"' && w[j] == '"'
    requires '"' !in w[1..j]
    ensures ValueRule(w) == Hit(j + 1, Text(w[1..j]))
  {
    var q := QuotedString(w);
    assert q.Hit?;
    var n := q.len;
    assert forall k :: 1 <= k < j ==> w[k] == w[1..j][k - 1];
    assert forall k :: 1 <= k < n - 1 ==> w[k] == w[1..n - 1][k - 1];
    assert n - 1 == j;
    assert w[..n][1..n - 1] == w[1..j];
  }

  /** A quote that is never closed is an unrecoverable error at the end of the input. */
  lemma ValueUnterminated(w: string)
    requires w != [] && w[0] == '"' && '"' !in w[1..]
    ensures ValueRule(w) == Fatal(|w|)
  {
  }

  /** Anything number accepts is stored as a number, with its exact text. */
  lemma ValueNumber(w: string)
    requires w != [] && w[0] != '"' && Number(w).Some?
    ensures ValueRule(w) == Hit(Number(w).value, Real(w[..Number(w).value]))
  {
  }

  /** What number rejects but starts with a path character is stored verbatim as a string:
      the longest run of path characters. */
  lemma ValuePath(w: string)
    requires w != [] && w[0] != '"' && IsPathChar(w[0])
    requires !IsDigit(w[0]) && !(w[0] == '.' && |w| > 1 && IsDigit(w[1]))
    ensures ValueRule(w).Hit? && ValueRule(w).result == Text(w[..ValueRule(w).len])
    ensures forall k :: 0 <= k < ValueRule(w).len ==> IsPathChar(w[k])
    ensures ValueRule(w).len == |w| || !IsPathChar(w[ValueRule(w).len])
  {
    NumberStart(w);
  }

  /** Every spelling the boolean rule was written for (`T`, `true`, `.FALSE.`, ...) is stored
      as a string when it stands alone. */
  lemma BooleanSpellingIsText(x: string)
    requires Boolean(x) == Some(x)
    ensures ValueRule(x) == Hit(|x|, Text(x))
  {
    assert x[0] == '.' ==> x[1] in "TtFf";
    TextWhole(x);
  }

  /** A negative number and a relative path are strings; a leading `+` is not a value at all. */
  lemma SignedAndPathsAreText()
    ensures ValueRule("-4.5") == Hit(4, Text("-4.5"))
    ensures ValueRule("./in/file.nc") == Hit(12, Text("./in/file.nc"))
    ensures ValueRule("+1") == Miss
  {
    hide ValueRule, QuotedString, Number, Mantissa, Decimal, Digits, Exponent, Path, Boolean, Munch;
    TextWhole("-4.5");
    TextWhole("./in/file.nc");
    ValueMiss("+1");
  }

  /** A text made only of path characters that number does not start on is stored whole. */
  lemma TextWhole(x: string)
    requires x != [] && x[0] != '"'
    requires forall k :: 0 <= k < |x| ==> IsPathChar(x[k])
    requires !IsDigit(x[0]) && !(x[0] == '.' && |x| > 1 && IsDigit(x[1]))
    ensures ValueRule(x) == Hit(|x|, Text(x))
  {
    ValuePath(x);
    assert x[..|x|] == x;
  }

  // ---------------------------------------------------------------- comments

  /** A comment opened by `!`, `#` or `//` runs to the end of the line and never consumes an
      end of line character. */
  lemma LineCommentStopsAtEol(w: string)
    requires CommentStart(w[Ws(w)..]).Some?
    ensures Comment(w).Some?
    ensures forall k :: 0 <= k < Comment(w).value ==> !IsEolChar(w[k])
    ensures Comment(w).value == |w| || IsEolChar(w[Comment(w).value])
  {
    hide Comment, OptComment, Ws, Munch, CComment;
    var b := Ws(w);
    var c := CommentStart(w[b..]).value;
    var n := Munch(w[b + c..], NotEolChar);
    CommentByStart(w, b, c, n);
    assert forall k :: b <= k < b + c ==> w[k] == w[b..][k - b];
    assert w[b..][0] != '\n' && w[b..][0] != '\r';
    assert c == 2 ==> w[b..][1] == '/';
    assert forall k :: b + c <= k < b + c + n ==> w[k] == w[b + c..][k - b - c];
  }

  /** The separate c_comment alternative of a line adds nothing: comment already takes it. */
  lemma CCommentWithinComment(w: string)
    ensures CComment(w).Some? ==> Comment(w) == CComment(w)
  {
    if CComment(w).Some? {
      assert Ws(w) == 0;
      assert w[0..] == w;
    }
  }
}
