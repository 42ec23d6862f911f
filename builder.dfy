/** The semantic actions: a two-field configuration that the actions update in place while
    the grammar recognises the file line by line. */
module Builder {
  import opened Values
  import opened Grammar

  /** What a parse hands back: the final map, or the offset of the parse error. A failed parse
      hands back no map at all. */
  datatype Result = Ok(data: map<string, Value>) | Err(at: nat)

  /** The map left behind by the actions of the given assignment lines, run in order: each
      line's identifier action sets the current key and its value action then overwrites the
      entry under that key. */
  function Build(bs: seq<Binding>): (m: map<string, Value>)
    ensures m.Keys == set j | 0 <= j < |bs| :: bs[j].key
    decreases |bs|
  {
    if bs == [] then map[]
    else
      var last := bs[|bs| - 1];
      var m := Build(bs[..|bs| - 1])[last.key := last.value];
      assert forall j :: 0 <= j < |bs| - 1 ==> bs[..|bs| - 1][j] == bs[j];
      m
  }

  /** The whole run on one input: the grammar's verdict, and on success the map built from
      the assignment lines it recognised. */
  function Run(s: string): Result
  {
    Verdict(Lines(s))
  }

  /** The map of an accepted file, the error offset of a rejected one. */
  function Verdict(o: Outcome): Result
  {
    match o
    case Accepted(bs) => Ok(Build(bs))
    case Rejected(p) => Err(p)
  }

  /** The outcome of a file whose first `consumed` characters were lines contributing `seen`,
      given the outcome of the rest. */
  function Resume(consumed: nat, seen: seq<Binding>, rest: Outcome): Outcome
  {
    match rest
    case Accepted(bs) => Accepted(seen + bs)
    case Rejected(p) => Rejected(consumed + p)
  }

  /** The state the actions share: the map being built and the key of the identifier the
      grammar matched last. */
  class Config {
    var data: map<string, Value>
    var currentKey: string

    constructor ()
      ensures data == map[] && currentKey == ""
    {
      data := map[];
      currentKey := "";
    }

    /** action<identifier>: remember the key. */
    method SetKey(key: string)
      modifies this
      ensures currentKey == key && data == old(data)
    {
      currentKey := key;
    }

    /** The action of any value rule: overwrite the entry under the current key. */
    method Store(v: Value)
      modifies this
      ensures currentKey == old(currentKey)
      ensures data == old(data)[currentKey := v]
    {
      data := data[currentKey := v];
    }

    /** Both actions of one assignment line. */
    method Apply(b: Binding)
      modifies this
      ensures currentKey == b.key
      ensures data == old(data)[b.key := b.value]
    {
      SetKey(b.key);
      Store(b.value);
    }
  }

  /** A Resume that has consumed nothing is the outcome itself. */
  lemma ResumeNothing(o: Outcome)
    ensures Resume(0, [], o) == o
  {
    match o
    case Accepted(bs) => assert [] + bs == bs;
    case Rejected(p) =>
  }

  /** Lines after a normal line of n characters. */
  lemma LinesAfterLine(w: string, n: nat, b: Option<Binding>)
    requires NormalLine(w) == Hit(n, b)
    ensures n <= |w| && Lines(w) == After(n, b, Lines(w[n..]))
  {
    hide NormalLine, LineBody;
  }

  /** One more line in front of the rest: how Resume absorbs After. */
  lemma ResumeAfter(i: nat, seen: seq<Binding>, n: nat, b: Option<Binding>, rest: Outcome)
    ensures Resume(i, seen, After(n, b, rest)) == Resume(i + n, seen + Contributes(b), rest)
  {
    match rest
    case Accepted(bs) =>
      assert seen + (Contributes(b) + bs) == seen + Contributes(b) + bs;
    case Rejected(p) =>
  }

  /** A normal line that raises ends the parse with that error. */
  lemma ResumeFatal(i: nat, seen: seq<Binding>, rest: string)
    requires NormalLine(rest).Fatal?
    ensures Resume(i, seen, Lines(rest)) == Rejected(i + NormalLine(rest).at)
  {
    hide NormalLine, LineBody;
  }

  /** What opt<last_line> and eof make of a last line body `last` of a rest of `size`
      characters. */
  function Ending(size: nat, last: Step<Option<Binding>>): Outcome
  {
    match last
    case Hit(n, b) => if n == size then Accepted(Contributes(b)) else Rejected(n)
    case Fatal(p) => Rejected(p)
    case Miss => if size == 0 then Accepted([]) else Rejected(0)
  }

  /** Once no normal line matches, the outcome is decided by the last line alone, and that line
      cannot raise: a raising body would already have raised as a normal line. */
  lemma LinesLast(rest: string)
    requires NormalLine(rest).Miss?
    ensures !LineBody(rest).Fatal?
    ensures Lines(rest) == Ending(|rest|, LineBody(rest))
  {
    hide LineBody, Eol;
  }

  /** The outcome of the whole file once the last line is known. */
  lemma ResumeEnding(i: nat, seen: seq<Binding>, size: nat, last: Step<Option<Binding>>)
    requires !last.Fatal?
    ensures last.Hit? && last.len == size ==>
      Resume(i, seen, Ending(size, last)) == Accepted(seen + Contributes(last.result))
    ensures last.Hit? && last.len != size ==>
      Resume(i, seen, Ending(size, last)) == Rejected(i + last.len)
    ensures last.Miss? && size == 0 ==> Resume(i, seen, Ending(size, last)) == Accepted(seen)
    ensures last.Miss? && size != 0 ==> Resume(i, seen, Ending(size, last)) == Rejected(i)
  {
    assert seen + [] == seen;
  }

  /** The last step of Build: one more binding overwrites one entry. */
  lemma BuildSnoc(seen: seq<Binding>, b: Option<Binding>)
    ensures b.Some? ==> Build(seen + Contributes(b)) == Build(seen)[b.value.key := b.value.value]
    ensures b.None? ==> Build(seen + Contributes(b)) == Build(seen)
  {
    var t := seen + Contributes(b);
    if b.Some? {
      assert t[..|t| - 1] == seen;
    } else {
      assert t == seen;
    }
  }

  /** parse<grammar, action>: star<normal_line> drives the actions line by line; then
      opt<last_line> and the final eof. The result is what Run specifies. */
  method Parse(s: string) returns (r: Result)
    ensures r == Run(s)
  {
    var cfg := new Config();
    var i := 0;
    var rest := s;
    ghost var seen: seq<Binding> := [];
    ResumeNothing(Lines(s));
    while true
      invariant i + |rest| == |s|
      invariant cfg.data == Build(seen)
      invariant Lines(s) == Resume(i, seen, Lines(rest))
      decreases |rest|
    {
      match NormalLine(rest)
      case Fatal(p) =>
        ResumeFatal(i, seen, rest);
        return Err(i + p);
      case Hit(n, b) =>
        if b.Some? {
          cfg.Apply(b.value);
        }
        BuildSnoc(seen, b);
        LinesAfterLine(rest, n, b);
        ResumeAfter(i, seen, n, b, Lines(rest[n..]));
        seen := seen + Contributes(b);
        i := i + n;
        rest := rest[n..];
      case Miss =>
        break;
    }
    var last := LineBody(rest);
    LinesLast(rest);
    ResumeEnding(i, seen, |rest|, last);
    if last.Hit? {
      if last.result.Some? {
        cfg.Apply(last.result.value);
      }
      BuildSnoc(seen, last.result);
      r := if last.len == |rest| then Ok(cfg.data) else Err(i + last.len);
    } else {
      r := if |rest| == 0 then Ok(cfg.data) else Err(i);
    }
  }
}
