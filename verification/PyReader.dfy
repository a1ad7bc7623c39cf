/**
 Python's reading of a rule, character by character: parentheses, and, or (which binds looser), and the comparisons
 toPython prints, spaced as it spaces them.  A string that is not compared is as true as it is long.  What the reader
 does not know it does not read.
 */
module PyReader {
  import opened Wrappers
  import opened PyStrings
  import opened PyLiterals
  import opened LikePatterns

  datatype Py = PyConst(truth: bool) | PyAtom(field: string, test: PyTest) | PyAnd(l: Py, r: Py) | PyOr(l: Py, r: Py)

  datatype PyParsed = Bad | Read(e: Py, rest: string)

  // ----- words -----

  predicate WordChar(c: char) {
    'a' <= c <= 'z' || 'A' <= c <= 'Z' || IsDigit(c) || c == '_' || c == '.'
  }

  const KEYWORDS := [
    "and", "as", "assert", "break", "class", "continue", "def", "del", "elif", "else", "except", "exec", "finally",
    "for", "from", "global", "if", "import", "in", "is", "lambda", "not", "or", "pass", "print", "raise", "return",
    "try", "while", "with", "yield", "None", "True", "False"]

  predicate Identifier(w: string) {
    w != "" && !IsDigit(w[0]) && w !in KEYWORDS
  }

  /** A name, or names joined by dots. */
  predicate PyName(w: string) {
    (forall k :: 0 <= k < |w| ==> WordChar(w[k])) && forall p :: p in Split(w, ".") ==> Identifier(p)
  }

  function WordOf(s: string): (w: string)
    ensures |w| <= |s|
  {
    if s == "" || !WordChar(s[0]) then "" else [s[0]] + WordOf(s[1..])
  }

  function SignOf(s: string): (w: string)
    ensures |w| <= |s|
  {
    if s == "" || s[0] !in "<>=!" then "" else [s[0]] + SignOf(s[1..])
  }

  predicate PyOperator(op: string) {
    op in [">=", "<=", "==", "<", ">", "!=", "<>"]
  }

  // ----- comparisons -----

  /** A number of Python 2, without a leading nought. */
  function ReadNumber(s: string): (r: Option<(Literal, string)>)
    ensures r.Some? ==> |r.value.1| <= |s|
  {
    var digits := if StartsWith(s, "-") then s[1..] else s;
    var w := WordOf(digits);
    if w == "" || (|w| > 1 && w[0] == '0') then None else
    match Digits(w)
    case None => None
    case Some(n) => var value: int := n; Some((Int(if StartsWith(s, "-") then -value else value), digits[|w|..]))
  }

  function ReadValue(s: string): (r: Option<(Literal, string)>)
    ensures r.Some? ==> |r.value.1| <= |s|
  {
    if !StartsWith(s, "\"") then ReadNumber(s) else
    match ReadLit(s[1..])
    case None => None
    case Some((v, rest)) => Some((Str(v), rest))
  }

  /** A comparison, behind the name it begins with. */
  function ReadComparison(w: string, s: string): (r: PyParsed)
    ensures r.Read? ==> |r.rest| <= |s|
  {
    if !StartsWith(s, " ") then Bad else
    var op := SignOf(s[1..]);
    var after := s[1 + |op|..];
    if !PyOperator(op) || !StartsWith(after, " ") then Bad else
    match ReadValue(after[1..])
    case None => Bad
    case Some((v, rest)) => Read(PyAtom(w, FieldCompares(op, v)), rest)
  }

  /** A call of a string method with a string, behind the opening quote. */
  function ReadCall(w: string, s: string): (r: PyParsed)
    ensures r.Read? ==> |r.rest| <= |s|
  {
    match ReadLit(s)
    case None => Bad
    case Some((v, rest)) =>
      if !StartsWith(rest, ")") then Bad
      else if EndsWith(w, ".endswith") && PyName(w[..|w| - 9]) then
        Read(PyAtom(w[..|w| - 9], FieldEndsWith(v)), rest[1..])
      else if EndsWith(w, ".startswith") && PyName(w[..|w| - 11]) then
        Read(PyAtom(w[..|w| - 11], FieldStartsWith(v)), rest[1..])
      else Bad
  }

  function ReadField(s: string, test: PyTest): (r: PyParsed)
    ensures r.Read? ==> |r.rest| <= |s|
  {
    var w := WordOf(s);
    if PyName(w) then Read(PyAtom(w, test), s[|w|..]) else Bad
  }

  /** What begins with a string, behind its opening quote. */
  function ReadQuoted(s: string): (r: PyParsed)
    ensures r.Read? ==> |r.rest| <= |s|
  {
    match ReadLit(s)
    case None => Bad
    case Some((v, rest)) =>
      if StartsWith(rest, " in ") then ReadField(rest[4..], FieldContains(v))
      else if StartsWith(rest, " not in ") then ReadField(rest[8..], FieldLacks(v))
      else Read(PyConst(v != ""), rest)
  }

  function ReadTest(s: string): (r: PyParsed)
    ensures r.Read? ==> |r.rest| < |s|
  {
    if StartsWith(s, "\"") then ReadQuoted(s[1..]) else
    var w := WordOf(s);
    var rest := s[|w|..];
    if w == "None" then Read(PyConst(false), rest)
    else if w == "" then Bad
    else if StartsWith(rest, "(\"") then ReadCall(w, rest[2..])
    else if PyName(w) then ReadComparison(w, rest)
    else Bad
  }

  // ----- and, or, parentheses -----

  /** or_test: and_test ('or' and_test)* */
  function ReadOr(s: string): (r: PyParsed)
    ensures r.Read? ==> |r.rest| < |s|
    decreases |s|, 5
  {
    var r := ReadAnd(s);
    if r.Bad? then Bad else ReadOrLoop(r.e, r.rest)
  }

  function ReadOrLoop(acc: Py, s: string): (r: PyParsed)
    ensures r.Read? ==> |r.rest| <= |s|
    decreases |s|, 4
  {
    if !StartsWith(s, " or ") then Read(acc, s) else
    var r := ReadAnd(s[4..]);
    if r.Bad? then Bad else ReadOrLoop(PyOr(acc, r.e), r.rest)
  }

  /** and_test: atom ('and' atom)* */
  function ReadAnd(s: string): (r: PyParsed)
    ensures r.Read? ==> |r.rest| < |s|
    decreases |s|, 3
  {
    var r := ReadAtom(s);
    if r.Bad? then Bad else ReadAndLoop(r.e, r.rest)
  }

  function ReadAndLoop(acc: Py, s: string): (r: PyParsed)
    ensures r.Read? ==> |r.rest| <= |s|
    decreases |s|, 2
  {
    if !StartsWith(s, " and ") then Read(acc, s) else
    var r := ReadAtom(s[5..]);
    if r.Bad? then Bad else ReadAndLoop(PyAnd(acc, r.e), r.rest)
  }

  function ReadAtom(s: string): (r: PyParsed)
    ensures r.Read? ==> |r.rest| < |s|
    decreases |s|, 1
  {
    if !StartsWith(s, "(") then ReadTest(s) else
    var r := ReadOr(s[1..]);
    if r.Bad? || !StartsWith(r.rest, ")") then Bad else Read(r.e, r.rest[1..])
  }

  /** The whole rule. */
  function ReadRule(s: string): Option<Py> {
    var r := ReadOr(s);
    if r.Read? && r.rest == "" then Some(r.e) else None
  }

  // ----- meaning -----

  /** An assignment of truth to every field test. */
  type Assignment = (string, PyTest) -> bool

  predicate PyTrue(e: Py, env: Assignment) {
    match e
    case PyConst(truth) => truth
    case PyAtom(field, test) => env(field, test)
    case PyAnd(l, r) => PyTrue(l, env) && PyTrue(r, env)
    case PyOr(l, r) => PyTrue(l, env) || PyTrue(r, env)
  }

  // ----- what was read -----

  /** The comparisons of an expression, in order. */
  function Comparisons(e: Py): (r: seq<Py>)
    ensures r != []
  {
    match e
    case PyAnd(l, r) => Comparisons(l) + Comparisons(r)
    case PyOr(l, r) => Comparisons(l) + Comparisons(r)
    case _ => [e]
  }

  lemma {:induction false} AndLoopExtends(acc: Py, s: string)
    ensures var r := ReadAndLoop(acc, s); r.Read? ==> Comparisons(acc) <= Comparisons(r.e)
    decreases |s|
  {
    if StartsWith(s, " and ") {
      var r := ReadAtom(s[5..]);
      if r.Read? { AndLoopExtends(PyAnd(acc, r.e), r.rest); }
    }
  }

  lemma {:induction false} OrLoopExtends(acc: Py, s: string)
    ensures var r := ReadOrLoop(acc, s); r.Read? ==> Comparisons(acc) <= Comparisons(r.e)
    decreases |s|
  {
    if StartsWith(s, " or ") {
      var r := ReadAnd(s[4..]);
      if r.Read? { OrLoopExtends(PyOr(acc, r.e), r.rest); }
    }
  }

  // ----- reading words -----

  lemma {:induction false} WordReads(w: string, rest: string)
    requires (forall k :: 0 <= k < |w| ==> WordChar(w[k])) && (rest == "" || !WordChar(rest[0]))
    ensures WordOf(w + rest) == w && (w + rest)[|w|..] == rest
  {
    if w == "" {
      assert w + rest == rest;
    } else {
      assert (w + rest)[1..] == w[1..] + rest;
      WordReads(w[1..], rest);
      assert [w[0]] + w[1..] == w;
    }
  }

  lemma {:induction false} SignReads(w: string, rest: string)
    requires (forall k :: 0 <= k < |w| ==> w[k] in "<>=!") && (rest == "" || rest[0] !in "<>=!")
    ensures SignOf(w + rest) == w && (w + rest)[|w|..] == rest
  {
    if w == "" {
      assert w + rest == rest;
    } else {
      assert (w + rest)[1..] == w[1..] + rest;
      SignReads(w[1..], rest);
      assert [w[0]] + w[1..] == w;
    }
  }
}
