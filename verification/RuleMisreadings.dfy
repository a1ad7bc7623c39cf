/** Rules over values that need escaping: no Python, true of every event, or a test for another value. */
module RuleMisreadings {
  import opened Wrappers
  import opened PyStrings
  import opened WhereGrammar
  import opened FormClauses
  import opened LikePatterns
  import opened PyLiterals
  import opened PyReader
  import opened RuleColumns
  import opened RuleTests
  import opened RuleCompiler
  import opened RuleReading

  /** A clause that compares a text column with a string for equality. */
  predicate Equality(m: Meta, t: Tree) {
    && KnownLeaf(m, t) && t.op == "=" && t.right.Text? && PyName(FieldOf(m, t))
    && KindOf(m, ColumnOf(m, t)) == TextColumn && Lower(ColumnOf(m, t)) !in ["ntevid", "priority"]
  }

  function EqualityText(f: string, v: string): string {
    "(" + (f + " == \"" + v + "\"") + ")"
  }

  lemma EqualityPrints(m: Meta, t: Tree)
    requires Equality(m, t)
    ensures ToPython(m, t) == Ok(EqualityText(FieldOf(m, t), t.right.s))
  {
    var f, v := FieldOf(m, t), t.right.s;
    var fs := Collapsed(t, None);
    assert fs == [Leaf(t)] && fs[1..] == [];
    assert TestOf(m, t) == Ok(FieldCompares("==", Str(v)));
    assert f + " " + "==" + " " + ("\"" + v + "\"") == f + " == \"" + v + "\"";
    assert [t][1..] == [] && FlatLeaves(fs[0]) == [t] && AllLeaves(fs) == [t];
    assert FirstError(m, [t]) == FirstError(m, []) == None;
    assert PrintedAll(m, fs) == Printed(m, fs[0]) + [] == ["(" + LeafText(m, t) + ")"];
  }

  /** What stands in the parentheses, when the literal is read as x. */
  lemma LiteralReads(f: string, v: string, x: string, after: string)
    requires PyName(f) && ReadLit(v + "\"" + ")") == Some((x, after))
    ensures var e := Read(PyAtom(f, FieldCompares("==", Str(x))), after);
            ReadOr(f + " == \"" + v + "\"" + ")") == OrLoopAfter(AndLoopAfter(e))
  {
    hide PyName, ReadTest, ReadComparison, ReadLit, ReadOrLoop, ReadAndLoop;
    var value := "\"" + (v + "\"" + ")");
    var s := f + " == \"" + v + "\"" + ")";
    assert s == f + (" " + ("==" + (" " + value)));
    Begins(" ", "==" + (" " + value));
    NamedReads(f, " " + ("==" + (" " + value)));
    NameReads(f, " " + ("==" + (" " + value)));
    OperatorReads(f, "==", value);
    Begins("\"", v + "\"" + ")");
    LoopsAfter(s);
  }

  /** What the parentheses hold and what follows it is all of the text. */
  lemma ParenthesesClose(inner: string, r: PyParsed)
    requires ReadOr(inner + ")") == r
    ensures var s := "(" + inner + ")";
            ReadRule(s) == if r.Read? && StartsWith(r.rest, ")")
                           then var q := OrLoopAfter(AndLoopAfter(Read(r.e, r.rest[1..])));
                                if q.Read? && q.rest == "" then Some(q.e) else None
                           else None
  {
    hide ReadTest;
    var s := "(" + inner + ")";
    assert s == "(" + (inner + ")");
    Begins("(", inner + ")");
    LoopsAfter(s);
  }

  lemma WholeRule(inner: string, e: Py)
    requires ReadOr(inner + ")") == Read(e, ")")
    ensures ReadRule("(" + inner + ")") == Some(e)
  {
    ParenthesesClose(inner, Read(e, ")"));
    assert ")"[1..] == "";
  }

  // ----- a quote that ends the literal -----

  lemma SayHiReads(f: string)
    requires PyName(f)
    ensures ReadRule(EqualityText(f, "say \"hi\"")).None?
  {
    hide PyName, Plain, ReadLit, ReadOr;
    var v, after := "say \"hi\"", "hi\"\")";
    OrdinaryIsPlain("say ");
    assert v + "\"" + ")" == "say " + "\"" + after;
    PlainIsReadBack("say ", after);
    LiteralReads(f, v, "say ", after);
    ParenthesesClose(f + " == \"" + v + "\"", ReadOr(f + " == \"" + v + "\"" + ")"));
    assert after[..1] == "h" && after[0] == 'h' && after[..4][0] == 'h' && after[..5][0] == 'h';
  }

  /** A quoted word: what follows the quote is no Python. */
  lemma SayHiIsNoPython(m: Meta, t: Tree)
    requires Equality(m, t) && t.right.s == "say \"hi\""
    ensures ToPython(m, t).Ok? && ReadRule(ToPython(m, t).value).None?
  {
    EqualityPrints(m, t);
    hide ReadRule, EqualityText;
    SayHiReads(FieldOf(m, t));
  }

  lemma ConstantReads(b: string)
    requires Plain(b)
    ensures ReadAnd("\"" + (b + "\"" + ")")) == Read(PyConst(b != ""), ")")
  {
    var s := "\"" + (b + "\"" + ")");
    Begins("\"", b + "\"" + ")");
    PlainIsReadBack(b, ")");
    LoopsAfter(s);
    NothingMore(PyConst(b != ""), ")");
  }

  lemma OrReads(acc: Py, b: string)
    requires Plain(b)
    ensures OrLoopAfter(AndLoopAfter(Read(acc, " or " + ("\"" + (b + "\"" + ")")))))
            == Read(PyOr(acc, PyConst(b != "")), ")")
  {
    hide Plain, ReadAnd;
    var s := "\"" + (b + "\"" + ")");
    ConstantReads(b);
    OrStep(acc, s);
    assert (" or " + s)[1] == 'o';
    NothingMore(PyOr(acc, PyConst(b != "")), ")");
  }

  lemma OrTextReads(f: string, a: string, b: string)
    requires PyName(f) && Plain(a) && Plain(b)
    ensures ReadRule(EqualityText(f, a + "\" or \"" + b))
            == Some(PyOr(PyAtom(f, FieldCompares("==", Str(a))), PyConst(b != "")))
  {
    hide PyName, Plain, ReadOr, ReadLit, ReadRule, OrLoopAfter, AndLoopAfter;
    var v, after := a + "\" or \"" + b, " or " + ("\"" + (b + "\"" + ")"));
    assert v + "\"" + ")" == a + "\"" + after;
    PlainIsReadBack(a, after);
    LiteralReads(f, v, a, after);
    OrReads(PyAtom(f, FieldCompares("==", Str(a))), b);
    WholeRule(f + " == \"" + v + "\"", PyOr(PyAtom(f, FieldCompares("==", Str(a))), PyConst(b != "")));
  }

  /** A value that ends the literal and goes on with or and a string: the rule is true of every event. */
  lemma OrInAValue(m: Meta, t: Tree, a: string, b: string) returns (e: Py)
    requires Equality(m, t) && t.right.s == a + "\" or \"" + b && Plain(a) && Plain(b) && b != ""
    ensures ToPython(m, t).Ok? && ReadRule(ToPython(m, t).value) == Some(e)
    ensures forall env :: PyTrue(e, env)
  {
    EqualityPrints(m, t);
    hide ReadRule, EqualityText;
    OrTextReads(FieldOf(m, t), a, b);
    e := PyOr(PyAtom(FieldOf(m, t), FieldCompares("==", Str(a))), PyConst(true));
  }

  lemma XOrYSelectsEverything(m: Meta, t: Tree) returns (e: Py)
    requires Equality(m, t) && t.right.s == "x\" or \"y"
    ensures ToPython(m, t).Ok? && ReadRule(ToPython(m, t).value) == Some(e)
    ensures forall env :: PyTrue(e, env)
  {
    OrdinaryIsPlain("x");
    OrdinaryIsPlain("y");
    e := OrInAValue(m, t, "x", "y");
  }

  // ----- a backslash that is an escape -----

  lemma TabStarts(s: string)
    ensures ReadLit("\\t" + s) == After("\t", ReadLit(s))
  {
    var e := "\\t" + s;
    assert e[1..] == "t" + s && e[2..] == s && Escape(e[1..]) == Some(("\t", 1));
  }

  lemma TabReads(a: string, b: string, rest: string)
    requires Plain(a) && Plain(b)
    ensures ReadLit(a + ("\\t" + (b + "\"" + rest))) == Some((a + "\t" + b, rest))
  {
    hide ReadLit, Plain;
    PlainReads(a, "\\t" + (b + "\"" + rest));
    TabStarts(b + "\"" + rest);
    PlainIsReadBack(b, rest);
    assert a + ("\t" + b) == a + "\t" + b;
  }

  lemma TabTextReads(f: string, a: string, b: string)
    requires PyName(f) && Plain(a) && Plain(b)
    ensures ReadRule(EqualityText(f, a + "\\t" + b)) == Some(PyAtom(f, FieldCompares("==", Str(a + "\t" + b))))
  {
    hide PyName, Plain, ReadOr, ReadLit, ReadRule, OrLoopAfter, AndLoopAfter;
    var v := a + "\\t" + b;
    var e := PyAtom(f, FieldCompares("==", Str(a + "\t" + b)));
    assert v + "\"" + ")" == a + ("\\t" + (b + "\"" + ")"));
    TabReads(a, b, ")");
    LiteralReads(f, v, a + "\t" + b, ")");
    ClosedLoops(e);
    WholeRule(f + " == \"" + v + "\"", e);
  }

  lemma ClosedLoops(e: Py)
    ensures OrLoopAfter(AndLoopAfter(Read(e, ")"))) == Read(e, ")")
  {
    NothingMore(e, ")");
  }

  /** A backslash before a t is read as a tab: the rule tests another value, and misses what the clause selects. */
  lemma TabInAValue(m: Meta, t: Tree, a: string, b: string, event: Fields) returns (e: Py)
    requires Equality(m, t) && t.right.s == a + "\\t" + b && Plain(a) && Plain(b)
    ensures ToPython(m, t).Ok? && ReadRule(ToPython(m, t).value) == Some(e)
    ensures PyTrue(e, On(event)) <==> event(FieldOf(m, t)) == Str(a + "\t" + b)
    ensures ClauseHolds(m, t, event) <==> event(FieldOf(m, t)) == Str(t.right.s)
    ensures a + "\t" + b != t.right.s
  {
    EqualityPrints(m, t);
    hide ReadRule, EqualityText, Plain, PyName;
    TabTextReads(FieldOf(m, t), a, b);
    e := PyAtom(FieldOf(m, t), FieldCompares("==", Str(a + "\t" + b)));
  }

  lemma CTempIsReadWithATab(m: Meta, t: Tree, event: Fields) returns (e: Py)
    requires Equality(m, t) && t.right.s == "C:\\temp" && event(FieldOf(m, t)) == Str("C:\\temp")
    ensures ToPython(m, t).Ok? && ReadRule(ToPython(m, t).value) == Some(e)
    ensures ClauseHolds(m, t, event) && !PyTrue(e, On(event))
  {
    OrdinaryIsPlain("C:");
    OrdinaryIsPlain("emp");
    assert "C:\\temp" == "C:" + "\\t" + "emp";
    e := TabInAValue(m, t, "C:", "emp", event);
  }
}
