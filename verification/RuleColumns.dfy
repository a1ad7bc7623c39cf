/** The columns of a rule: what a comparison on each kind of column compiles to, and when that is what it says. */
module RuleColumns {
  import opened Wrappers
  import opened PyStrings
  import opened WhereGrammar
  import opened FormClauses
  import opened LikePatterns
  import opened GroupPatterns

  /** Text and EventClass compile alike, and so do Select, Compare and Enumerated. */
  datatype Kind = TextColumn | ClassColumn | ChoiceColumn | GroupColumn

  /** The columns, their kinds, what they are called today, and today's number of an old syslog priority. */
  datatype Meta = Meta(
    names: seq<string>, kinds: map<string, Kind>, renames: map<string, string>, priorities: map<int, int>)

  function KindOf(m: Meta, name: string): Kind {
    if name in m.kinds then m.kinds[name] else TextColumn
  }

  /** getName: the event field a column is called today. */
  function GetName(renames: map<string, string>, n: string): string {
    if n in renames then renames[n] else n
  }

  // ----- int() -----

  /** int(value), None for a ValueError. */
  function IntOf(v: Literal): Option<int> {
    match v
    case Int(n) => Some(n)
    case Str(s) =>
      var t := Strip(s);
      var digits := if t != "" && (t[0] == '-' || t[0] == '+') then t[1..] else t;
      if digits == "" then None else
      match Digits(digits)
      case None => None
      case Some(n) => var value: int := n; Some(if t[0] == '-' then -value else value)
  }

  // ----- buildPython -----

  predicate Comparator(op: string) {
    op in [">=", "<=", "==", "=", "<", ">", "!=", "<>"]
  }

  predicate ClauseOperator(op: string) {
    Comparator(op) || op == "like" || op == "not like"
  }

  /** Text.buildPython and EventClass.buildPython. */
  function BuildText(op: string, v: Literal): Result<PyTest> {
    match v
    case Str(s) => Ok(BuildPython(op, s))
    case Int(_) =>
      if op == "like" then Err(AttributeError)
      else if op == "not like" then Err(TypeError)
      else if op == "=" then Ok(FieldCompares("==", v))
      else if op == "!=" then Ok(FieldCompares("!=", v))
      else Ok(Missing)
  }

  /** Select.buildPython, Compare.buildPython and Enumerated.buildPython: the operator is printed as it is. */
  function BuildChoice(op: string, v: Literal): PyTest {
    if op == "=" then FieldCompares("==", v)
    else if Comparator(op) then FieldCompares(op, v)
    else NotPython(op, v)
  }

  /** DeviceGroup.buildPython */
  function BuildGroup(op: string, v: Literal): Result<PyTest> {
    match v
    case Int(_) => Err(AttributeError)
    case Str(s) =>
      if op == "like" then Ok(FieldContains(StripMarks(s)))
      else if op == "not like" then Ok(FieldLacks(StripMarks(s)))
      else Ok(Missing)
  }

  function BuildKind(kind: Kind, op: string, v: Literal): Result<PyTest> {
    match kind
    case TextColumn => BuildText(op, v)
    case ClassColumn => BuildText(op, v)
    case ChoiceColumn => Ok(BuildChoice(op, v))
    case GroupColumn => BuildGroup(op, v)
  }

  /** The comparison of column name with a value, with the two columns that toPython treats apart. */
  function Build(m: Meta, name: string, op: string, v: Literal): Result<PyTest> {
    var key, kind := Lower(name), KindOf(m, name);
    if key == "ntevid" then
      if op != "=" && op != "!=" then Err(ConversionError) else
      match IntOf(v)
      case None => Err(ConversionError)
      case Some(n) => BuildKind(kind, op, Int(n))
    else if key == "priority" then
      if v.Int? && v.n in m.priorities then BuildKind(kind, op, Int(m.priorities[v.n])) else Err(KeyError)
    else BuildKind(kind, op, v)
  }

  // ----- when the test is what the comparison says -----

  /** The truth of a comparison on a field's value of the same sort. */
  predicate Says(op: string, v: Literal, field: Literal) {
    if op == "like" then v.Str? && field.Str? && Like(v.s, field.s)
    else if op == "not like" then v.Str? && field.Str? && !Like(v.s, field.s)
    else Compares(op, field, v)
  }

  /** The test and the comparison agree on every field value of the value's sort. */
  ghost predicate Faithful(t: PyTest, op: string, v: Literal) {
    forall x: Literal :: x.Str? == v.Str? ==> (Passes(t, x) <==> Says(op, v, x))
  }

  /** Every comparison of a choice column, strings and numbers alike, is faithful; like is no Python there. */
  lemma ChoicesCompile(op: string, v: Literal)
    ensures !BuildChoice(op, v).NotPython? ==> Faithful(BuildChoice(op, v), op, v)
    ensures !BuildChoice(op, v).NotPython? <==> Comparator(op)
  {
  }

  /** The comparisons of text and class columns that compile to what they say. */
  ghost predicate CompilesOnText(op: string, v: Literal) {
    || op == "=" || op == "!="
    || (op == "<" && v == Str(""))
    || (op == "like" && v.Str? && (StartsWith(v.s, "%") || EndsWith(v.s, "%")) && WildFree(Bare(v.s)))
    || (op == "not like" && v.Str? && StartsWith(v.s, "%") && EndsWith(v.s, "%") && WildFree(Inner(v.s)))
  }

  /** A comparison of a text or class column, whatever its operator, is faithful exactly when it is one of these. */
  lemma TextsCompile(op: string, v: Literal)
    requires ClauseOperator(op) && BuildText(op, v).Ok?
    ensures Faithful(BuildText(op, v).value, op, v) <==> CompilesOnText(op, v)
  {
    if op == "like" || op == "not like" {
      PatternsCompile(op, v.s);
      LikeCompiles(v.s);
      NotLikeCompiles(v.s);
    } else if op != "=" && op != "!=" && !(op == "<" && v == Str("")) {
      var x := SaidButMissed(op, v);
      assert BuildText(op, v).value == Missing && !Passes(Missing, x);
    }
  }

  /** A pattern compiles to a faithful test exactly when the test agrees with LIKE. */
  lemma PatternsCompile(op: string, s: string)
    requires op == "like" || op == "not like"
    ensures Faithful(BuildText(op, Str(s)).value, op, Str(s)) <==> Agrees(op, s)
  {
    var t := BuildText(op, Str(s)).value;
    assert forall x: string :: Holds(op, s, x) <==> Says(op, Str(s), Str(x));
    if Faithful(t, op, Str(s)) {
      forall x: string ensures Passes(t, Str(x)) <==> Holds(op, s, x) {
        assert Passes(t, Str(x)) <==> Says(op, Str(s), Str(x));
      }
    }
  }

  /** A value of which any other comparison is true. */
  lemma SaidButMissed(op: string, v: Literal) returns (x: Literal)
    requires Comparator(op) && op != "=" && op != "!=" && !(op == "<" && v == Str(""))
    ensures x.Str? == v.Str? && Says(op, v, x)
  {
    x := if op in [">=", "<=", "=="] then v
      else if op == "<" then if v.Str? then Str("") else Int(v.n - 1)
      else if v.Str? then Str(v.s + "a") else Int(v.n + 1);
    if v.Str? {
      LessIsStrict(v.s);
      LessThanMore(v.s);
    }
  }

  lemma {:induction false} LessIsStrict(s: string)
    ensures !LessText(s, s)
  {
    if s != "" { LessIsStrict(s[1..]); }
  }

  lemma {:induction false} LessThanMore(s: string)
    ensures LessText(s, s + "a") && s != s + "a"
  {
    if s != "" {
      assert (s + "a")[1..] == s[1..] + "a";
      LessThanMore(s[1..]);
    }
  }

  /** Any other comparison of a text column compiles to None, so that it is never true, whatever the field holds. */
  lemma OrderOnTextIsMissing(op: string, v: Literal, field: Literal)
    requires op !in ["like", "not like", "=", "!="]
    ensures BuildText(op, v).Ok? && !Passes(BuildText(op, v).value, field)
  {
  }

  /** The comparisons of group columns that compile to what they say. */
  ghost predicate CompilesOnGroup(op: string, v: Literal) {
    v.Str? && ((op == "<" && v.s == "") || ((op == "like" || op == "not like") && GroupPattern(v.s)))
  }

  /** A comparison of a group column is faithful exactly when it is one of these. */
  lemma GroupsCompile(op: string, v: Literal)
    requires ClauseOperator(op) && BuildGroup(op, v).Ok?
    ensures Faithful(BuildGroup(op, v).value, op, v) <==> CompilesOnGroup(op, v)
  {
    var t := BuildGroup(op, v).value;
    if op == "like" || op == "not like" {
      StrippingIsRight(v.s);
      if Faithful(t, op, v) {
        forall x ensures Contains(x, StripMarks(v.s)) <==> Like(v.s, x) {
          assert Passes(t, Str(x)) <==> Says(op, v, Str(x));
        }
      }
    } else if op == "=" || op == "!=" {
      assert Says("=", v, v) && Says("!=", v, Str(v.s + "a"));
    } else if !(op == "<" && v == Str("")) {
      var x := SaidButMissed(op, v);
    }
  }

  // ----- by column -----

  /** The comparisons of each kind of column that compile to what they say. */
  ghost predicate CompilesOn(kind: Kind, op: string, v: Literal) {
    match kind
    case TextColumn => CompilesOnText(op, v)
    case ClassColumn => CompilesOnText(op, v)
    case ChoiceColumn => Comparator(op)
    case GroupColumn => CompilesOnGroup(op, v)
  }

  /**
   The value a comparison is about today: for ntevid the number its text stands for, for priority today's number of the
   old one; None when there is none.
   */
  function Today(m: Meta, name: string, v: Literal): Option<Literal> {
    if Lower(name) == "ntevid" then match IntOf(v) case Some(n) => Some(Int(n)) case None => None
    else if Lower(name) == "priority" then
      if v.Int? && v.n in m.priorities then Some(Int(m.priorities[v.n])) else None
    else Some(v)
  }

  /** A comparison that compiles to what it says of today's value; ntevid only for equality. */
  ghost predicate Compilable(m: Meta, name: string, op: string, v: Literal) {
    && Today(m, name, v).Some? && (Lower(name) == "ntevid" ==> op == "=" || op == "!=")
    && CompilesOn(if name in m.kinds then m.kinds[name] else TextColumn, op, Today(m, name, v).value)
  }

  lemma KindsCompile(kind: Kind, op: string, v: Literal)
    requires ClauseOperator(op)
    ensures var r := BuildKind(kind, op, v);
            (r.Ok? && !r.value.NotPython? && Faithful(r.value, op, v)) <==> CompilesOn(kind, op, v)
  {
    match kind
    case TextColumn => if BuildText(op, v).Ok? { TextsCompile(op, v); }
    case ClassColumn => if BuildText(op, v).Ok? { TextsCompile(op, v); }
    case ChoiceColumn => ChoicesCompile(op, v);
    case GroupColumn => if BuildGroup(op, v).Ok? { GroupsCompile(op, v); }
  }

  /** By column: a comparison has an operator of Python and a faithful test exactly when it is compilable. */
  lemma ColumnsCompile(m: Meta, name: string, op: string, v: Literal)
    requires ClauseOperator(op)
    ensures var r, today := Build(m, name, op, v), Today(m, name, v);
            (r.Ok? && !r.value.NotPython? && today.Some? && Faithful(r.value, op, today.value))
            <==> Compilable(m, name, op, v)
  {
    hide Faithful, BuildKind, CompilesOn, IntOf;
    if Today(m, name, v).Some? { KindsCompile(KindOf(m, name), op, Today(m, name, v).value); }
  }

  /** When a comparison raises, and what: for each kind of column and the two columns that are treated apart. */
  lemma ColumnsRaise(m: Meta, name: string, op: string, v: Literal)
    requires ClauseOperator(op)
    ensures var r, key, pattern := Build(m, name, op, v), Lower(name), op == "like" || op == "not like";
            var kind := if name in m.kinds then m.kinds[name] else TextColumn;
            var number := key == "ntevid" || v.Int?;
            if key == "ntevid" && (!(op == "=" || op == "!=") || IntOf(v).None?) then r == Err(ConversionError)
            else if key == "priority" && (v.Str? || v.n !in m.priorities) then r == Err(KeyError)
            else if number && kind == GroupColumn then r == Err(AttributeError)
            else if number && pattern && kind != ChoiceColumn
            then r == Err(if op == "like" then AttributeError else TypeError)
            else r.Ok?
  {
  }

  /** The text of a number is that number, blanks and a plus sign aside. */
  lemma NumbersAreRead(n: nat, s: string)
    ensures IntOf(Int(n)) == Some(n)
    ensures Strip(s) == Decimal(n) || Strip(s) == "+" + Decimal(n) ==> IntOf(Str(s)) == Some(n)
    ensures Strip(s) == "-" + Decimal(n) ==> IntOf(Str(s)).Some? && IntOf(Str(s)).value + n == 0
  {
    DigitsOfDecimal(n);
    DecimalDigits(n);
    assert Decimal(n)[0] in "0123456789";
    assert ("+" + Decimal(n))[1..] == Decimal(n) && ("-" + Decimal(n))[1..] == Decimal(n);
  }

  /** A group pattern loses its bar: the bare name of a group passes the test and is not like the pattern. */
  lemma GroupPatternIsLoose(v: string)
    requires v != "" && WildFree(v) && v[0] != '|' && v[|v| - 1] != '|'
    ensures BuildGroup("like", Str("%|" + v + "%")) == Ok(FieldContains(v))
    ensures !Faithful(FieldContains(v), "like", Str("%|" + v + "%"))
  {
    var p, w := "%|" + v + "%", "|" + v;
    assert !Mark(v[0]) && !Mark(v[|v| - 1]) by { assert !Wild(v[0]) && !Wild(v[|v| - 1]); }
    StripsToBare(v);
    assert p == "%" + w + "%";
    assert WildFree(w);
    LikeInfix(w, v);
    assert v[0..] == v && StartsWith(v, v);
    assert Passes(FieldContains(v), Str(v)) && !Says("like", Str(p), Str(v));
  }

  lemma StripsToBare(v: string)
    requires v != "" && !Mark(v[0]) && !Mark(v[|v| - 1])
    ensures StripMarks("%|" + v + "%") == v
  {
    var p := "%|" + v + "%";
    assert p[1..] == "|" + v + "%" && p[1..][1..] == v + "%";
    assert Mark(p[0]) && Mark(p[1..][0]);
    assert (v + "%")[0] == v[0] && (v + "%")[|v|] == '%';
    assert (v + "%")[..|v|] == v;
    assert StripMarks(v + "%") == StripMarks(v) == v;
  }
}
