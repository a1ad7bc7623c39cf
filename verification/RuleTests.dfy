/** The Python text of one compiled comparison, and what Python makes of it. */
module RuleTests {
  import opened Wrappers
  import opened PyStrings
  import opened PyLiterals
  import opened LikePatterns
  import opened PyReader

  function Signed(n: int): string {
    if n < 0 then "-" + Decimal(-n) else Decimal(n)
  }

  /** getValue; replacing a double quote by itself leaves the value as it is. */
  function GetValue(v: Literal): string {
    match v
    case Str(s) => "\"" + s + "\""
    case Int(n) => Signed(n)
  }

  /** getEndsWith, getStartsWith, getIn, getNotIn and getEquality, and the None of a comparison that falls through. */
  function TestText(field: string, test: PyTest): string {
    match test
    case FieldEndsWith(v) => field + ".endswith(" + GetValue(Str(v)) + ")"
    case FieldStartsWith(v) => field + ".startswith(" + GetValue(Str(v)) + ")"
    case FieldContains(v) => GetValue(Str(v)) + " in " + field
    case FieldLacks(v) => GetValue(Str(v)) + " not in " + field
    case FieldCompares(op, v) => field + " " + op + " " + GetValue(v)
    case NotPython(op, v) => field + " " + op + " " + GetValue(v)
    case Missing => "None"
  }

  /** The Python a test is meant to be. */
  function Meant(field: string, test: PyTest): Py {
    if test.Missing? then PyConst(false) else PyAtom(field, test)
  }

  predicate PlainValue(v: Literal) {
    v.Int? || Plain(v.s)
  }

  /** The value the test is printed with can stand between double quotes as it is. */
  predicate PlainTest(test: PyTest) {
    match test
    case FieldEndsWith(v) => Plain(v)
    case FieldStartsWith(v) => Plain(v)
    case FieldContains(v) => Plain(v)
    case FieldLacks(v) => Plain(v)
    case FieldCompares(_, v) => PlainValue(v)
    case NotPython(_, v) => PlainValue(v)
    case Missing => true
  }

  /** The operators of a test are those of a clause. */
  predicate FromClause(test: PyTest) {
    (test.FieldCompares? ==> PyOperator(test.op)) && (test.NotPython? ==> test.op == "like" || test.op == "not like")
  }

  /** What Python reads is the test that was meant, or it is another comparison, or nothing. */
  ghost predicate ReadBack(field: string, test: PyTest, r: PyParsed, rest: string) {
    && (!test.NotPython? && PlainTest(test) ==> r == Read(Meant(field, test), rest))
    && (!PlainTest(test) && r.Read? ==> Comparisons(r.e) == [r.e] && r.e != Meant(field, test))
    && (test.NotPython? ==> r.Bad?)
  }

  predicate Closes(rest: string) {
    StartsWith(rest, ")")
  }

  lemma NameReads(field: string, rest: string)
    requires PyName(field) && (rest == "" || !WordChar(rest[0]))
    ensures forall k :: 0 <= k < |field| ==> WordChar(field[k])
    ensures field != "" && field != "None" && WordOf(field + rest) == field && (field + rest)[|field|..] == rest
    ensures !StartsWith(field + rest, "(") && !StartsWith(field + rest, "\"")
  {
    WordReads(field, rest);
    NameIsProper(field);
    assert WordChar(field[0]) && (field + rest)[..1] == [field[0]];
  }

  lemma NameIsProper(w: string)
    requires PyName(w)
    ensures w != "" && w != "None"
  {
    if '.' !in w {
      assert [w] + [] == [w];
      SplitUndoesJoin(w, [], ".");
      assert w in Split(w, ".") && Identifier(w);
    }
  }

  lemma NamedReads(field: string, rest: string)
    requires PyName(field) && StartsWith(rest, " ")
    ensures ReadTest(field + rest) == ReadComparison(field, rest)
  {
    hide PyName, ReadComparison, WordOf;
    assert rest[..1] == " " && rest[0] == ' ';
    NameReads(field, rest);
    assert !StartsWith(rest, "(\"");
  }

  lemma OperatorReads(field: string, op: string, value: string)
    requires PyOperator(op)
    ensures ReadComparison(field, " " + (op + (" " + value))) ==
            match ReadValue(value)
            case None => Bad
            case Some((v, rest)) => Read(PyAtom(field, FieldCompares(op, v)), rest)
  {
    hide ReadValue, SignOf;
    var s := " " + (op + (" " + value));
    Begins(" ", op + (" " + value));
    SignReads(op, " " + value);
    assert s[1 + |op|..] == s[1..][|op|..];
    Begins(" ", value);
  }

  lemma ComparisonParts(field: string, op: string, value: string, rest: string)
    ensures field + " " + op + " " + value + rest == field + (" " + (op + (" " + (value + rest))))
  {
  }

  lemma ComparisonReads(field: string, op: string, v: Literal, rest: string)
    requires PyName(field) && PyOperator(op) && Closes(rest)
    ensures ReadBack(field, FieldCompares(op, v), ReadTest(field + " " + op + " " + GetValue(v) + rest), rest)
  {
    hide PyName, PyOperator, ReadComparison, ReadValue, ReadTest, GetValue, Plain;
    var value := GetValue(v) + rest;
    ComparisonParts(field, op, GetValue(v), rest);
    Begins(" ", op + (" " + value));
    NamedReads(field, " " + (op + (" " + value)));
    OperatorReads(field, op, value);
    ValueReads(v, rest);
  }

  /** A value is read back exactly when it is plain. */
  lemma ValueReads(v: Literal, rest: string)
    requires Closes(rest)
    ensures var r := ReadValue(GetValue(v) + rest); (r.Some? && r.value.0 == v) <==> PlainValue(v)
    ensures PlainValue(v) ==> ReadValue(GetValue(v) + rest) == Some((v, rest))
  {
    match v
    case Str(s) =>
      assert GetValue(v) + rest == "\"" + (s + "\"" + rest);
      Begins("\"", s + "\"" + rest);
      LiteralIsReadBack(s, rest);
    case Int(n) =>
      NumberReads(n, rest);
  }

  lemma NumberReads(n: int, rest: string)
    requires Closes(rest)
    ensures ReadValue(Signed(n) + rest) == Some((Int(n), rest))
  {
    if n < 0 {
      NegativeReads(n, rest);
    } else {
      PositiveReads(n, rest);
    }
  }

  lemma PositiveReads(k: nat, rest: string)
    requires Closes(rest)
    ensures ReadValue(Decimal(k) + rest) == Some((Int(k), rest))
  {
    hide Decimal, Digits, WordOf, StartsWith, Closes;
    NaturalReads(k, rest);
  }

  lemma NegativeReads(n: int, rest: string)
    requires n < 0 && Closes(rest)
    ensures ReadValue("-" + Decimal(-n) + rest) == Some((Int(n), rest))
  {
    var digits := Decimal(-n) + rest;
    assert "-" + Decimal(-n) + rest == "-" + digits;
    Begins("-", digits);
    assert !StartsWith("-" + digits, "\"");
    hide Decimal, Digits, WordOf, StartsWith, Closes;
    NaturalReads(-n, rest);
  }

  lemma NaturalReads(k: nat, rest: string)
    requires Closes(rest)
    ensures var w := Decimal(k);
            WordOf(w + rest) == w && (w + rest)[|w|..] == rest && Digits(w) == Some(k) && w != ""
            && !(|w| > 1 && w[0] == '0') && !StartsWith(w + rest, "-") && !StartsWith(w + rest, "\"")
  {
    hide Decimal, Digits, WordOf;
    var w := Decimal(k);
    DecimalDigits(k);
    DigitsOfDecimal(k);
    DecimalLength(k);
    WordReads(w, rest);
    assert w[0] in "0123456789" && (w + rest)[..1] == [w[0]];
  }

  lemma DecimalLength(k: nat)
    ensures |Decimal(k)| > 1 ==> k > 0
  {
  }

  /** like and not like are no operators of Python. */
  lemma LikeIsNoOperator(field: string, op: string, value: string)
    requires PyName(field) && (op == "like" || op == "not like")
    ensures ReadTest(field + " " + op + " " + value).Bad?
  {
    hide PyName, ReadValue;
    var after := op + (" " + value);
    assert field + " " + op + " " + value == field + (" " + after);
    Begins(" ", after);
    NamedReads(field, " " + after);
    assert after[0] == op[0];
    assert SignOf(after) == "";
  }

  lemma InReads(field: string, v: string, rest: string)
    requires PyName(field) && Closes(rest)
    ensures ReadBack(field, FieldContains(v), ReadTest(GetValue(Str(v)) + " in " + field + rest), rest)
  {
    hide PyName, ReadLit, WordOf;
    var tail := " in " + (field + rest);
    assert GetValue(Str(v)) + " in " + field + rest == "\"" + (v + "\"" + tail);
    Begins("\"", v + "\"" + tail);
    LiteralIsReadBack(v, tail);
    Begins(" in ", field + rest);
    NameReads(field, rest);
  }

  lemma NotInReads(field: string, v: string, rest: string)
    requires PyName(field) && Closes(rest)
    ensures ReadBack(field, FieldLacks(v), ReadTest(GetValue(Str(v)) + " not in " + field + rest), rest)
  {
    hide PyName, ReadLit, WordOf;
    var tail := " not in " + (field + rest);
    assert GetValue(Str(v)) + " not in " + field + rest == "\"" + (v + "\"" + tail);
    Begins("\"", v + "\"" + tail);
    LiteralIsReadBack(v, tail);
    Begins(" not in ", field + rest);
    assert !StartsWith(tail, " in ") by { assert tail[1] == 'n'; }
    NameReads(field, rest);
  }

  lemma CallParts(w: string, v: string, rest: string)
    ensures w + "(" + GetValue(Str(v)) + ")" + rest == w + ("(\"" + (v + "\"" + (")" + rest)))
  {
  }

  lemma CalledReads(w: string, tail: string)
    requires w != "" && w != "None" && forall k :: 0 <= k < |w| ==> WordChar(w[k])
    ensures ReadTest(w + ("(\"" + tail)) == ReadCall(w, tail)
  {
    hide PyName, ReadCall, WordOf;
    Begins("(\"", tail);
    WordReads(w, "(\"" + tail);
    assert (w + ("(\"" + tail))[..1] == [w[0]];
  }

  lemma CallReads(field: string, dotted: string, v: string, rest: string)
    requires PyName(field) && (dotted == ".endswith" || dotted == ".startswith")
    ensures ReadTest(field + dotted + "(" + GetValue(Str(v)) + ")" + rest)
            == ReadCall(field + dotted, v + "\"" + (")" + rest))
  {
    hide PyName, ReadTest, ReadCall, GetValue;
    var w := field + dotted;
    CallParts(w, v, rest);
    NameReads(field, "");
    assert forall k :: 0 <= k < |dotted| ==> WordChar(dotted[k]);
    assert w[|w| - 1] == 'h';
    CalledReads(w, v + "\"" + (")" + rest));
  }

  lemma EndsWithReads(field: string, v: string, rest: string)
    requires PyName(field)
    ensures ReadBack(field, FieldEndsWith(v), ReadTest(field + ".endswith(" + GetValue(Str(v)) + ")" + rest), rest)
  {
    hide PyName, ReadLit, ReadTest;
    var w := field + ".endswith";
    assert field + ".endswith(" + GetValue(Str(v)) + ")" + rest == w + "(" + GetValue(Str(v)) + ")" + rest;
    CallReads(field, ".endswith", v, rest);
    LiteralIsReadBack(v, ")" + rest);
    Begins(")", rest);
    assert w[..|w| - 9] == field && w[|w| - 9..] == ".endswith";
  }

  lemma StartsWithReads(field: string, v: string, rest: string)
    requires PyName(field)
    ensures ReadBack(field, FieldStartsWith(v), ReadTest(field + ".startswith(" + GetValue(Str(v)) + ")" + rest), rest)
  {
    hide PyName, ReadLit, ReadTest;
    var w := field + ".startswith";
    assert field + ".startswith(" + GetValue(Str(v)) + ")" + rest == w + "(" + GetValue(Str(v)) + ")" + rest;
    CallReads(field, ".startswith", v, rest);
    LiteralIsReadBack(v, ")" + rest);
    Begins(")", rest);
    assert w[..|w| - 11] == field && w[|w| - 11..] == ".startswith";
    assert !EndsWith(w, ".endswith") by { assert w[|w| - 9] == 't'; }
  }

  lemma NoneReads(rest: string)
    requires Closes(rest)
    ensures ReadTest("None" + rest) == Read(PyConst(false), rest)
  {
    hide PyName;
    WordReads("None", rest);
    assert ("None" + rest)[..1] == "N";
  }

  lemma ParenStarts(field: string, test: PyTest, rest: string)
    requires PyName(field)
    ensures !StartsWith(TestText(field, test) + rest, "(")
  {
    hide PyName;
    NameReads(field, "");
    var s := TestText(field, test) + rest;
    match test
    case FieldContains(v) => assert GetValue(Str(v))[0] == '"' && s[0] == '"';
    case FieldLacks(v) => assert GetValue(Str(v))[0] == '"' && s[0] == '"';
    case Missing => assert s[0] == 'N';
    case _ => assert s[0] == field[0];
  }

  lemma NotPythonReads(field: string, op: string, v: Literal, rest: string)
    requires PyName(field) && (op == "like" || op == "not like")
    ensures ReadTest(field + " " + op + " " + GetValue(v) + rest).Bad?
  {
    hide PyName, ReadTest, GetValue;
    assert field + " " + op + " " + GetValue(v) + rest == field + " " + op + " " + (GetValue(v) + rest);
    LikeIsNoOperator(field, op, GetValue(v) + rest);
  }

  lemma AtomIsTest(s: string)
    requires !StartsWith(s, "(")
    ensures ReadAtom(s) == ReadTest(s)
  {
  }

  /** A printed comparison is read as it was meant exactly when its operator is Python's and its value is plain. */
  lemma TestIsReadBack(field: string, test: PyTest, rest: string)
    requires PyName(field) && FromClause(test) && Closes(rest)
    ensures ReadBack(field, test, ReadAtom(TestText(field, test) + rest), rest)
  {
    ParenStarts(field, test, rest);
    AtomIsTest(TestText(field, test) + rest);
    hide PyName, ReadTest, ReadAtom, PyOperator, GetValue, Plain, StartsWith;
    match test
    case FieldEndsWith(v) => EndsWithReads(field, v, rest);
    case FieldStartsWith(v) => StartsWithReads(field, v, rest);
    case FieldContains(v) => InReads(field, v, rest);
    case FieldLacks(v) => NotInReads(field, v, rest);
    case FieldCompares(op, v) => ComparisonReads(field, op, v, rest);
    case NotPython(op, v) => NotPythonReads(field, op, v, rest);
    case Missing => NoneReads(rest);
  }
}
