/**
 Python's reading of a printed rule: exactly the rules whose values need no escaping and whose operators are Python's
 are read as the comparisons that were printed, and those have the meaning the clause had.
 */
module RuleReading {
  import opened Wrappers
  import opened PyStrings
  import opened Sequences
  import opened WhereGrammar
  import opened FormClauses
  import opened LikePatterns
  import opened PyLiterals
  import opened PyReader
  import opened RuleColumns
  import opened RuleTests
  import opened RuleCompiler

  /** Today's names of the columns are names of Python. */
  ghost predicate Named(m: Meta) {
    forall n :: n in m.names ==> PyName(GetName(m.renames, n))
  }

  /** The comparisons a rule is meant to consist of. */
  function AllMeant(m: Meta, leaves: seq<Tree>): seq<Py> {
    if leaves == [] then [] else [MeantBy(m, leaves[0])] + AllMeant(m, leaves[1..])
  }

  lemma {:induction false} AllMeantAdds(m: Meta, a: seq<Tree>, b: seq<Tree>)
    ensures AllMeant(m, a + b) == AllMeant(m, a) + AllMeant(m, b)
  {
    if a == [] {
      assert a + b == b;
    } else {
      assert (a + b)[1..] == a[1..] + b;
      AllMeantAdds(m, a[1..], b);
    }
  }

  // ----- the operators of a rule -----

  lemma {:induction false} ColumnIsAName(names: seq<string>, key: string)
    ensures var c := Column(names, key); c.Some? ==> c.value in names
  {
    if names != [] { ColumnIsAName(names[..|names| - 1], key); }
  }

  lemma FieldIsNamed(m: Meta, t: Tree)
    requires Named(m) && KnownLeaf(m, t)
    ensures PyName(FieldOf(m, t))
  {
    ColumnIsAName(m.names, Lower(t.left.s));
  }

  lemma LeafIsFromClause(m: Meta, t: Tree)
    requires IsComparison(t) && Prints(m, t)
    ensures FromClause(TestOf(m, t).value)
  {
  }

  // ----- what reading comes to -----

  ghost predicate Sound(m: Meta, leaves: seq<Tree>) {
    forall t :: t in leaves ==> IsComparison(t) && Prints(m, t)
  }

  ghost predicate Good(m: Meta, leaves: seq<Tree>) {
    forall t :: t in leaves ==> Compiles(m, t)
  }

  /** A comparison that is printed has a plain value. */
  predicate PlainLeaf(m: Meta, t: Tree) {
    Prints(m, t) ==> PlainTest(TestOf(m, t).value)
  }

  ghost predicate PlainLeaves(m: Meta, leaves: seq<Tree>) {
    forall t :: t in leaves ==> PlainLeaf(m, t)
  }

  ghost predicate Differs(own: seq<Py>, got: seq<Py>) {
    exists k :: 0 <= k < |own| && k < |got| && own[k] != got[k]
  }

  /**
   Good comparisons are read as they are meant, up to rest.  Otherwise nothing is read, or some value is not plain and
   another comparison is read in the place of one that was meant.
   */
  ghost predicate Outcome(m: Meta, before: seq<Py>, leaves: seq<Tree>, r: PyParsed, rest: string, truth: bool,
      env: Assignment)
  {
    var own := before + AllMeant(m, leaves);
    if Good(m, leaves) then r.Read? && r.rest == rest && Comparisons(r.e) == own && (PyTrue(r.e, env) <==> truth)
    else r.Read? ==> !PlainLeaves(m, leaves) && Differs(own, Comparisons(r.e))
  }

  /** More comparisons after the good ones. */
  lemma OutcomeJoins(m: Meta, before: seq<Py>, a: seq<Tree>, b: seq<Tree>, r: PyParsed, rest: string, truth: bool,
      env: Assignment)
    requires Good(m, a) && Outcome(m, before + AllMeant(m, a), b, r, rest, truth, env)
    ensures Outcome(m, before, a + b, r, rest, truth, env)
  {
    hide Compiles, AllMeant, PlainLeaf, Prints;
    AllMeantAdds(m, a, b);
    Regroup(before, AllMeant(m, a), AllMeant(m, b));
    assert Good(m, a + b) <==> Good(m, b);
    if PlainLeaves(m, a + b) {
      forall t | t in b ensures PlainLeaf(m, t) { assert t in a + b; }
    }
  }

  /** What was misread stays misread. */
  lemma OutcomeSpoils(m: Meta, before: seq<Py>, a: seq<Tree>, b: seq<Tree>, first: PyParsed, r: PyParsed,
      rest0: string, rest: string, truth0: bool, truth: bool, env: Assignment)
    requires !Good(m, a) && Outcome(m, [], a, first, rest0, truth0, env)
    requires r.Read? ==> first.Read? && before + Comparisons(first.e) <= Comparisons(r.e)
    ensures Outcome(m, before, a + b, r, rest, truth, env)
  {
    hide Compiles, AllMeant, PlainLeaf, Prints;
    assert !Good(m, a + b) by {
      var t :| t in a && !Compiles(m, t);
      assert t in a + b;
    }
    if r.Read? {
      assert [] + AllMeant(m, a) == AllMeant(m, a);
      AllMeantAdds(m, a, b);
      DiffersWithin(before, AllMeant(m, a), AllMeant(m, b), Comparisons(first.e), Comparisons(r.e));
      assert !PlainLeaves(m, a + b) by {
        var t :| t in a && !PlainLeaf(m, t);
        assert t in a + b;
      }
    }
  }

  lemma DiffersWithin(before: seq<Py>, own: seq<Py>, more: seq<Py>, got: seq<Py>, all: seq<Py>)
    requires Differs(own, got) && before + got <= all
    ensures Differs(before + (own + more), all)
  {
    var k :| 0 <= k < |own| && k < |got| && own[k] != got[k];
    var whole := before + (own + more);
    assert whole[|before| + k] == own[k] && all[|before| + k] == (before + got)[|before| + k] == got[k];
  }

  function AndLoopAfter(r: PyParsed): PyParsed {
    if r.Bad? then Bad else ReadAndLoop(r.e, r.rest)
  }

  function OrLoopAfter(r: PyParsed): PyParsed {
    if r.Bad? then Bad else ReadOrLoop(r.e, r.rest)
  }

  lemma LoopsAfter(s: string)
    ensures ReadAnd(s) == AndLoopAfter(ReadAtom(s)) && ReadOr(s) == OrLoopAfter(ReadAnd(s))
  {
  }

  lemma AndLoopKeeps(m: Meta, leaves: seq<Tree>, r: PyParsed, rest: string, truth: bool, env: Assignment)
    requires Outcome(m, [], leaves, r, rest, truth, env) && !StartsWith(rest, " and ")
    ensures Outcome(m, [], leaves, AndLoopAfter(r), rest, truth, env)
  {
    if r.Read? && !Good(m, leaves) {
      AndLoopExtends(r.e, r.rest);
      assert [] + Comparisons(r.e) == Comparisons(r.e) && leaves + [] == leaves;
      OutcomeSpoils(m, [], leaves, [], r, AndLoopAfter(r), rest, rest, truth, truth, env);
    }
  }

  lemma OrLoopKeeps(m: Meta, leaves: seq<Tree>, r: PyParsed, rest: string, truth: bool, env: Assignment)
    requires Outcome(m, [], leaves, r, rest, truth, env) && !StartsWith(rest, " or ")
    ensures Outcome(m, [], leaves, OrLoopAfter(r), rest, truth, env)
  {
    if r.Read? && !Good(m, leaves) {
      OrLoopExtends(r.e, r.rest);
      assert [] + Comparisons(r.e) == Comparisons(r.e) && leaves + [] == leaves;
      OutcomeSpoils(m, [], leaves, [], r, OrLoopAfter(r), rest, rest, truth, truth, env);
    }
  }

  // ----- parts -----

  /** A printed part. */
  function Part(m: Meta, f: Flat): string {
    if Printed(m, f) == [] then "" else Printed(m, f)[0]
  }

  /** The separators and parts after the first. */
  function PartsTail(m: Meta, fs: seq<Flat>, op: string): string {
    if fs == [] then "" else Separator(op) + (Part(m, fs[0]) + PartsTail(m, fs[1..], op))
  }

  ghost predicate SoundFlats(m: Meta, fs: seq<Flat>) {
    Sound(m, AllLeaves(fs)) && forall f :: f in fs ==> Flattened(f)
  }

  lemma SoundHead(m: Meta, fs: seq<Flat>)
    requires fs != [] && SoundFlats(m, fs)
    ensures Sound(m, FlatLeaves(fs[0])) && Flattened(fs[0]) && SoundFlats(m, fs[1..])
    ensures AllLeaves(fs) == FlatLeaves(fs[0]) + AllLeaves(fs[1..])
  {
    hide Prints, Flattened;
    assert fs[0] in fs;
    forall t | t in FlatLeaves(fs[0]) ensures t in AllLeaves(fs) {}
    forall t | t in AllLeaves(fs[1..]) ensures t in AllLeaves(fs) {}
    forall f | f in fs[1..] ensures f in fs {}
  }

  lemma PrintsOnePart(m: Meta, f: Flat)
    requires Sound(m, FlatLeaves(f))
    ensures Printed(m, f) == [Part(m, f)]
  {
    if f.Leaf? { assert f.t in FlatLeaves(f); }
  }

  lemma {:induction false} BodyIsPartAndTail(m: Meta, fs: seq<Flat>, op: string)
    requires fs != [] && SoundFlats(m, fs)
    ensures Join(PrintedAll(m, fs), Separator(op)) == Part(m, fs[0]) + PartsTail(m, fs[1..], op)
    ensures |PrintedAll(m, fs)| == |fs|
    decreases |fs|
  {
    hide Prints, Printed, Part;
    SoundHead(m, fs);
    PrintsOnePart(m, fs[0]);
    if |fs| > 1 {
      BodyIsPartAndTail(m, fs[1..], op);
      assert PrintedAll(m, fs)[1..] == PrintedAll(m, fs[1..]);
      Regroup(Part(m, fs[0]), Separator(op), Join(PrintedAll(m, fs[1..]), Separator(op)));
    } else {
      assert PrintedAll(m, fs) == [Part(m, fs[0])];
      assert PartsTail(m, fs[1..], op) == "" && Part(m, fs[0]) + "" == Part(m, fs[0]);
    }
  }

  lemma TailStart(m: Meta, fs: seq<Flat>, op: string, rest: string)
    ensures fs == [] ==> PartsTail(m, fs, op) + rest == rest
    ensures fs != [] ==> PartsTail(m, fs, op) + rest
                         == Separator(op) + (Part(m, fs[0]) + (PartsTail(m, fs[1..], op) + rest))
  {
    if fs == [] {
      assert PartsTail(m, fs, op) == "" && "" + rest == rest;
    } else {
      var tail := PartsTail(m, fs[1..], op);
      Regroup(Part(m, fs[0]), tail, rest);
      Regroup(Separator(op), Part(m, fs[0]) + tail, rest);
    }
  }

  // ----- reading them -----

  /** What stands in parentheses. */
  lemma InParentheses(m: Meta, leaves: seq<Tree>, text: string, rest: string, truth: bool, env: Assignment)
    requires Outcome(m, [], leaves, ReadOr(text + (")" + rest)), ")" + rest, truth, env)
    ensures Outcome(m, [], leaves, ReadAtom("(" + text + ")" + rest), rest, truth, env)
  {
    hide ReadOr, Good, PlainLeaves, AllMeant, Comparisons;
    assert "(" + text + ")" + rest == "(" + (text + (")" + rest));
    Begins("(", text + (")" + rest));
    Begins(")", rest);
  }

  predicate EndsOr(rest: string) {
    !StartsWith(rest, " and ") && !StartsWith(rest, " or ")
  }

  lemma CloseEndsOr(rest: string)
    ensures EndsOr(")" + rest)
  {
    var s := ")" + rest;
    assert s[0] == ')' && (|s| >= 5 ==> s[..5][0] == ')') && (|s| >= 4 ==> s[..4][0] == ')');
  }

  lemma LeafReads(m: Meta, t: Tree, rest: string, env: Assignment)
    requires Named(m) && IsComparison(t) && Prints(m, t)
    ensures Outcome(m, [], [t], ReadOr(LeafText(m, t) + (")" + rest)), ")" + rest, LeafTrue(m, t, env), env)
  {
    hide Build, Column, PyName, TestText;
    FieldIsNamed(m, t);
    LeafIsFromClause(m, t);
    CloseEndsOr(rest);
    Begins(")", rest);
    var test, after := TestOf(m, t).value, ")" + rest;
    TestIsReadBack(FieldOf(m, t), test, after);
    var r := ReadAtom(LeafText(m, t) + after);
    assert [t][1..] == [] && [] + AllMeant(m, [t]) == [MeantBy(m, t)];
    assert Outcome(m, [], [t], r, after, LeafTrue(m, t, env), env) by {
      assert t in [t];
      if r.Read? && !Compiles(m, t) {
        assert [MeantBy(m, t)][0] != Comparisons(r.e)[0];
      }
    }
    AndLoopKeeps(m, [t], r, after, LeafTrue(m, t, env), env);
    OrLoopKeeps(m, [t], AndLoopAfter(r), after, LeafTrue(m, t, env), env);
  }

  /** A printed part reads as an atom with the part's truth. */
  lemma {:induction false} ReadsPart(m: Meta, f: Flat, rest: string, env: Assignment)
    requires Named(m) && Sound(m, FlatLeaves(f)) && Flattened(f)
    ensures Outcome(m, [], FlatLeaves(f), ReadAtom(Part(m, f) + rest), rest, FlatTrue(m, f, env), env)
    decreases f, 0
  {
    hide Prints, Outcome, Sound, PartsTail, LeafTrue, LeafText;
    PrintsOnePart(m, f);
    if f.Leaf? {
      assert Sound(m, [f.t]) && f.t in [f.t];
      SoundOne(m, f.t);
      LeafReads(m, f.t, rest, env);
      InParentheses(m, [f.t], LeafText(m, f.t), rest, LeafTrue(m, f.t, env), env);
    } else {
      var body := Join(PrintedAll(m, f.parts), Separator(f.op));
      PartsAreSound(m, f);
      CloseEndsOr(rest);
      ReadsBody(m, f.parts, f.op, ")" + rest, env);
      InParentheses(m, FlatLeaves(f), body, rest, FlatTrue(m, f, env), env);
    }
  }

  lemma SoundOne(m: Meta, t: Tree)
    requires Sound(m, [t])
    ensures IsComparison(t) && Prints(m, t)
  {
    assert t in [t];
  }

  lemma PartsAreSound(m: Meta, f: Flat)
    requires Sound(m, FlatLeaves(f)) && Flattened(f) && f.Group?
    ensures SoundFlats(m, f.parts) && f.parts != [] && Connective(f.op)
  {
    hide Prints;
    assert AllFlattened(f.parts, f.op);
  }

  /** The body of a list reads as the conjunction or disjunction of its parts. */
  lemma {:induction false} ReadsBody(m: Meta, fs: seq<Flat>, op: string, rest: string, env: Assignment)
    requires Named(m) && fs != [] && SoundFlats(m, fs) && Connective(op) && EndsOr(rest)
    ensures Outcome(m, [], AllLeaves(fs), ReadOr(Join(PrintedAll(m, fs), Separator(op)) + rest), rest,
                    AllTrue(m, fs, op, env), env)
    decreases fs, 1
  {
    hide Prints, Part, PartsTail, SoundFlats, Sound;
    var tail := PartsTail(m, fs[1..], op);
    BodyIsPartAndTail(m, fs, op);
    Regroup(Part(m, fs[0]), tail, rest);
    SoundHead(m, fs);
    ReadsPart(m, fs[0], tail + rest, env);
    var first := ReadAtom(Part(m, fs[0]) + (tail + rest));
    if op == "and" {
      AndAfterFirst(m, fs, first, rest, env);
      OrLoopKeeps(m, AllLeaves(fs), AndLoopAfter(first), rest, AllTrue(m, fs, op, env), env);
    } else {
      TailIsNoAnd(m, fs[1..], rest);
      AndLoopKeeps(m, FlatLeaves(fs[0]), first, tail + rest, FlatTrue(m, fs[0], env), env);
      OrAfterFirst(m, fs, AndLoopAfter(first), rest, env);
    }
  }

  lemma TailIsNoAnd(m: Meta, fs: seq<Flat>, rest: string)
    requires EndsOr(rest)
    ensures !StartsWith(PartsTail(m, fs, "or") + rest, " and ")
  {
    TailStart(m, fs, "or", rest);
    if fs != [] {
      var s := PartsTail(m, fs, "or") + rest;
      assert s[1] == 'o';
    }
  }

  /** The rest of a conjunction, behind what its first part was read as. */
  lemma {:induction false} AndAfterFirst(m: Meta, fs: seq<Flat>, first: PyParsed, rest: string, env: Assignment)
    requires Named(m) && fs != [] && SoundFlats(m, fs) && EndsOr(rest)
    requires Outcome(m, [], FlatLeaves(fs[0]), first, PartsTail(m, fs[1..], "and") + rest, FlatTrue(m, fs[0], env), env)
    ensures Outcome(m, [], AllLeaves(fs), AndLoopAfter(first), rest, AllTrue(m, fs, "and", env), env)
    decreases fs, 0
  {
    hide Prints, Compiles, PartsTail, FlatTrue, FlatLeaves, AllLeaves;
    SoundHead(m, fs);
    var a, b := FlatLeaves(fs[0]), AllLeaves(fs[1..]);
    var tail := PartsTail(m, fs[1..], "and") + rest;
    if Good(m, a) {
      ReadsAndTail(m, first.e, fs[1..], rest, env);
      OutcomeJoins(m, [], a, b, AndLoopAfter(first), rest, AllTrue(m, fs, "and", env), env);
    } else {
      if first.Read? { AndLoopExtends(first.e, first.rest); }
      assert first.Read? ==> [] + Comparisons(first.e) == Comparisons(first.e);
      OutcomeSpoils(m, [], a, b, first, AndLoopAfter(first), tail, rest, FlatTrue(m, fs[0], env),
        AllTrue(m, fs, "and", env), env);
    }
  }

  /** One more part of a conjunction, and the rest. */
  lemma AndStep(acc: Py, s: string)
    ensures var first := ReadAtom(s);
            ReadAndLoop(acc, Separator("and") + s)
            == if first.Bad? then Bad else ReadAndLoop(PyAnd(acc, first.e), first.rest)
  {
    Begins(" and ", s);
  }

  /** One more part of a disjunction, and the rest. */
  lemma OrStep(acc: Py, s: string)
    ensures var first := ReadAnd(s);
            ReadOrLoop(acc, Separator("or") + s)
            == if first.Bad? then Bad else ReadOrLoop(PyOr(acc, first.e), first.rest)
  {
    Begins(" or ", s);
  }

  lemma NothingMore(acc: Py, rest: string)
    requires EndsOr(rest)
    ensures ReadAndLoop(acc, rest) == ReadOrLoop(acc, rest) == Read(acc, rest)
  {
  }

  lemma {:induction false} ReadsAndTail(m: Meta, acc: Py, fs: seq<Flat>, rest: string, env: Assignment)
    requires Named(m) && SoundFlats(m, fs) && EndsOr(rest)
    ensures Outcome(m, Comparisons(acc), AllLeaves(fs), ReadAndLoop(acc, PartsTail(m, fs, "and") + rest), rest,
                    PyTrue(acc, env) && AllTrue(m, fs, "and", env), env)
    decreases fs
  {
    hide Prints, Compiles, PartsTail, Part, FlatTrue, FlatLeaves, ReadAtom, ReadAnd, ReadAndLoop, ReadOrLoop;
    TailStart(m, fs, "and", rest);
    if fs == [] {
      NothingMore(acc, rest);
      assert Comparisons(acc) + AllMeant(m, []) == Comparisons(acc);
    } else {
      SoundHead(m, fs);
      var after := PartsTail(m, fs[1..], "and") + rest;
      AndStep(acc, Part(m, fs[0]) + after);
      ReadsPart(m, fs[0], after, env);
      var first := ReadAtom(Part(m, fs[0]) + after);
      var r := if first.Bad? then Bad else ReadAndLoop(PyAnd(acc, first.e), first.rest);
      var a, b := FlatLeaves(fs[0]), AllLeaves(fs[1..]);
      var truth := PyTrue(acc, env) && AllTrue(m, fs, "and", env);
      if Good(m, a) {
        ReadsAndTail(m, PyAnd(acc, first.e), fs[1..], rest, env);
        assert [] + AllMeant(m, a) == AllMeant(m, a);
        OutcomeJoins(m, Comparisons(acc), a, b, r, rest, truth, env);
      } else {
        if first.Read? { AndLoopExtends(PyAnd(acc, first.e), first.rest); }
        OutcomeSpoils(m, Comparisons(acc), a, b, first, r, after, rest, FlatTrue(m, fs[0], env), truth, env);
      }
    }
  }

  /** The rest of a disjunction, behind what its first part was read as. */
  lemma {:induction false} OrAfterFirst(m: Meta, fs: seq<Flat>, first: PyParsed, rest: string, env: Assignment)
    requires Named(m) && fs != [] && SoundFlats(m, fs) && EndsOr(rest)
    requires Outcome(m, [], FlatLeaves(fs[0]), first, PartsTail(m, fs[1..], "or") + rest, FlatTrue(m, fs[0], env), env)
    ensures Outcome(m, [], AllLeaves(fs), OrLoopAfter(first), rest, AllTrue(m, fs, "or", env), env)
    decreases fs, 0
  {
    hide Prints, Compiles, PartsTail, FlatTrue, FlatLeaves, AllLeaves;
    SoundHead(m, fs);
    var a, b := FlatLeaves(fs[0]), AllLeaves(fs[1..]);
    var tail := PartsTail(m, fs[1..], "or") + rest;
    if Good(m, a) {
      ReadsOrTail(m, first.e, fs[1..], rest, env);
      OutcomeJoins(m, [], a, b, OrLoopAfter(first), rest, AllTrue(m, fs, "or", env), env);
    } else {
      if first.Read? { OrLoopExtends(first.e, first.rest); }
      assert first.Read? ==> [] + Comparisons(first.e) == Comparisons(first.e);
      OutcomeSpoils(m, [], a, b, first, OrLoopAfter(first), tail, rest, FlatTrue(m, fs[0], env),
        AllTrue(m, fs, "or", env), env);
    }
  }

  lemma {:induction false} ReadsOrTail(m: Meta, acc: Py, fs: seq<Flat>, rest: string, env: Assignment)
    requires Named(m) && SoundFlats(m, fs) && EndsOr(rest)
    ensures Outcome(m, Comparisons(acc), AllLeaves(fs), ReadOrLoop(acc, PartsTail(m, fs, "or") + rest), rest,
                    PyTrue(acc, env) || AllTrue(m, fs, "or", env), env)
    decreases fs
  {
    hide Prints, Compiles, PartsTail, Part, FlatTrue, FlatLeaves, ReadAtom, ReadAnd, ReadAndLoop, ReadOrLoop;
    TailStart(m, fs, "or", rest);
    if fs == [] {
      NothingMore(acc, rest);
      assert Comparisons(acc) + AllMeant(m, []) == Comparisons(acc);
    } else {
      SoundHead(m, fs);
      var after := PartsTail(m, fs[1..], "or") + rest;
      OrStep(acc, Part(m, fs[0]) + after);
      ReadsPart(m, fs[0], after, env);
      LoopsAfter(Part(m, fs[0]) + after);
      TailIsNoAnd(m, fs[1..], rest);
      AndLoopKeeps(m, FlatLeaves(fs[0]), ReadAtom(Part(m, fs[0]) + after), after, FlatTrue(m, fs[0], env), env);
      var first := ReadAnd(Part(m, fs[0]) + after);
      var r := if first.Bad? then Bad else ReadOrLoop(PyOr(acc, first.e), first.rest);
      var a, b := FlatLeaves(fs[0]), AllLeaves(fs[1..]);
      var truth := PyTrue(acc, env) || AllTrue(m, fs, "or", env);
      if Good(m, a) {
        ReadsOrTail(m, PyOr(acc, first.e), fs[1..], rest, env);
        assert [] + AllMeant(m, a) == AllMeant(m, a);
        OutcomeJoins(m, Comparisons(acc), a, b, r, rest, truth, env);
      } else {
        if first.Read? { OrLoopExtends(PyOr(acc, first.e), first.rest); }
        OutcomeSpoils(m, Comparisons(acc), a, b, first, r, after, rest, FlatTrue(m, fs[0], env), truth, env);
      }
    }
  }

  // ----- the compiled rule -----

  ghost predicate AllCompile(m: Meta, t: Tree) {
    Good(m, Leaves(t))
  }

  ghost predicate AllPlain(m: Meta, t: Tree) {
    PlainLeaves(m, Leaves(t))
  }

  /** No comparison is printed with an operator Python does not have. */
  ghost predicate AllOperators(m: Meta, t: Tree) {
    forall leaf :: leaf in Leaves(t) && Prints(m, leaf) ==> !TestOf(m, leaf).value.NotPython?
  }

  lemma {:induction false} LeavesAreComparisons(t: Tree)
    requires IsRule(t)
    ensures forall leaf :: leaf in Leaves(t) ==> IsComparison(leaf)
  {
    if Connective(t.op) {
      LeavesAreComparisons(t.left);
      LeavesAreComparisons(t.right);
    }
  }

  lemma PrintedIsKnown(m: Meta, t: Tree)
    requires AllPrint(m, t)
    ensures AllKnown(m, t)
  {
  }

  /** The text of a rule without the outer parentheses of a list. */
  function TextOf(m: Meta, f: Flat): string {
    if f.Leaf? then Part(m, f) else Join(PrintedAll(m, f.parts), Separator(f.op))
  }

  lemma RuleIsText(m: Meta, t: Tree)
    requires IsRule(t) && AllPrint(m, t)
    ensures ToPython(m, t) == Ok(TextOf(m, Collapsed(t, None)[0]))
  {
    hide Prints;
    RulePrintsOne(m, t);
    LeavesAreComparisons(t);
    PrintedIsKnown(m, t);
    FirstErrorIs(m, Leaves(t));
    var f := Collapsed(t, None)[0];
    PrintsOnePart(m, f);
    if f.Group? {
      var body := Join(PrintedAll(m, f.parts), Separator(f.op));
      assert Inner("(" + body + ")") == body;
    }
  }

  lemma TextReads(m: Meta, f: Flat, env: Assignment)
    requires Named(m) && Sound(m, FlatLeaves(f)) && Flattened(f)
    ensures Outcome(m, [], FlatLeaves(f), ReadOr(TextOf(m, f)), "", FlatTrue(m, f, env), env)
  {
    hide Outcome, Prints, Part, Sound;
    if f.Leaf? {
      ReadsPart(m, f, "", env);
      assert Part(m, f) + "" == Part(m, f);
      LoopsAfter(Part(m, f));
      AndLoopKeeps(m, FlatLeaves(f), ReadAtom(Part(m, f)), "", FlatTrue(m, f, env), env);
      OrLoopKeeps(m, FlatLeaves(f), ReadAnd(Part(m, f)), "", FlatTrue(m, f, env), env);
    } else {
      PartsAreSound(m, f);
      ReadsBody(m, f.parts, f.op, "", env);
      assert TextOf(m, f) + "" == TextOf(m, f);
    }
  }

  /** What the whole text of a rule is read as. */
  lemma RuleReads(m: Meta, t: Tree, env: Assignment)
    requires Named(m) && IsRule(t) && AllPrint(m, t)
    ensures ToPython(m, t).Ok?
    ensures Outcome(m, [], Leaves(t), ReadOr(ToPython(m, t).value), "", TreeTrue(m, t, env), env)
  {
    hide Outcome, Prints, TreeTrue, FlatTrue, ReadOr, TextOf, ToPython, PrintedAll;
    RulePrintsOne(m, t);
    RuleIsText(m, t);
    LeavesAreComparisons(t);
    CollapseKeepsMeaning(m, t, None, env);
    var f := Collapsed(t, None)[0];
    assert Collapsed(t, None) == [f];
    AllTrueOne(m, f, "and", env);
    TextReads(m, f, env);
  }

  /** Under every assignment the printed rule, read by Python, has the truth of the parsed clause. */
  lemma RuleKeepsMeaning(m: Meta, t: Tree, env: Assignment) returns (e: Py)
    requires Named(m) && IsRule(t) && AllCompile(m, t)
    ensures ToPython(m, t).Ok? && ReadRule(ToPython(m, t).value) == Some(e)
    ensures Comparisons(e) == AllMeant(m, Leaves(t))
    ensures PyTrue(e, env) <==> TreeTrue(m, t, env)
  {
    RuleReads(m, t, env);
    e := ReadOr(ToPython(m, t).value).e;
  }

  /** A rule is read as the comparisons it was printed for exactly when all have Python's operators and plain values. */
  lemma RuleIsReadBack(m: Meta, t: Tree)
    requires Named(m) && IsRule(t) && AllPrint(m, t)
    ensures ToPython(m, t).Ok?
    ensures (exists e :: ReadRule(ToPython(m, t).value) == Some(e) && Comparisons(e) == AllMeant(m, Leaves(t)))
            <==> AllOperators(m, t) && AllPlain(m, t)
  {
    RuleReads(m, t, (field, test) => true);
    GoodMeans(m, t);
    assert [] + AllMeant(m, Leaves(t)) == AllMeant(m, Leaves(t));
    if AllCompile(m, t) {
      var e := RuleKeepsMeaning(m, t, (field, test) => true);
    }
  }

  lemma GoodMeans(m: Meta, t: Tree)
    requires AllPrint(m, t)
    ensures AllCompile(m, t) <==> AllOperators(m, t) && AllPlain(m, t)
  {
  }

  /** With plain values a rule is Python exactly when no comparison is printed with an operator Python does not have. */
  lemma RuleIsPython(m: Meta, t: Tree)
    requires Named(m) && IsRule(t) && AllPrint(m, t) && AllPlain(m, t)
    ensures ToPython(m, t).Ok?
    ensures ReadRule(ToPython(m, t).value).Some? <==> AllOperators(m, t)
  {
    RuleReads(m, t, (field, test) => true);
    GoodMeans(m, t);
  }

  // ----- and selects the events the clause selects -----

  /** An event: the value of each field, by today's field name. */
  type Fields = string -> Literal

  /** What an event makes of the tests. */
  function On(event: Fields): Assignment {
    (field, test) => Passes(test, event(field))
  }

  /** The column a name in a clause stands for, in any case, and what its field is called today. */
  ghost predicate IsField(m: Meta, n: string, c: string, field: string) {
    && c in m.names && Lower(c) == Lower(n) && (exists k :: Lasts(m.names, c, k))
    && field == if c in m.renames then m.renames[c] else c
  }

  ghost predicate Lasts(names: seq<string>, c: string, k: nat) {
    k < |names| && names[k] == c && forall j :: k < j < |names| ==> Lower(names[j]) != Lower(c)
  }

  /** A comparison tests today's field of the column it names. */
  lemma LeafTestsItsField(m: Meta, t: Tree)
    requires KnownLeaf(m, t)
    ensures IsField(m, t.left.s, ColumnOf(m, t), FieldOf(m, t))
    ensures Prints(m, t) ==> MeantBy(m, t) == PyConst(false) || MeantBy(m, t).field == FieldOf(m, t)
  {
    hide Build;
    var k := LastColumn(m.names, Lower(t.left.s));
    assert Lasts(m.names, ColumnOf(m, t), k);
  }

  lemma {:induction false} LastColumn(names: seq<string>, key: string) returns (k: nat)
    requires Column(names, key).Some?
    ensures Lower(Column(names, key).value) == key && Lasts(names, Column(names, key).value, k)
  {
    var n := |names| - 1;
    if Lower(names[n]) == key {
      k := n;
    } else {
      k := LastColumn(names[..n], key);
    }
  }

  /** A comparison on no known column prints nothing, so that a rule of it alone is an IndexError. */
  lemma UnknownRaises(m: Meta, t: Tree)
    requires IsComparison(t) && forall c :: c in m.names ==> Lower(c) != Lower(t.left.s)
    ensures ToPython(m, t) == Err(IndexError)
  {
    if Column(m.names, Lower(t.left.s)).Some? {
      var k := LastColumn(m.names, Lower(t.left.s));
      ColumnIsAName(m.names, Lower(t.left.s));
    }
    var fs := Collapsed(t, None);
    assert fs == [Leaf(t)] && fs[1..] == [] && FlatLeaves(fs[0]) == [t] && AllLeaves(fs) == [t] + [];
    assert [t][1..] == [] && FirstError(m, [t]) == FirstError(m, []) == None;
    assert PrintedAll(m, fs) == Printed(m, fs[0]) + [];
  }

  /** The value on the right of a comparison. */
  function Said(t: Tree): Literal
    requires !t.Node?
  {
    match t case Number(n) => Int(n) case Text(s) => Str(s)
  }

  /** The value a comparison is about today. */
  function TodaysValue(m: Meta, t: Tree): Option<Literal>
    requires KnownLeaf(m, t)
  {
    Today(m, ColumnOf(m, t), Said(t.right))
  }

  predicate ClauseHolds(m: Meta, t: Tree, event: Fields) {
    if t.Node? && t.op == "and" then ClauseHolds(m, t.left, event) && ClauseHolds(m, t.right, event)
    else if t.Node? && t.op == "or" then ClauseHolds(m, t.left, event) || ClauseHolds(m, t.right, event)
    else
      KnownLeaf(m, t) && TodaysValue(m, t).Some? && Says(t.op, TodaysValue(m, t).value, event(FieldOf(m, t)))
  }

  /**
   A comparison a rule can take over: on a known column that compiles it to what it says, with a plain value, and on a
   field that holds values of the sort it is compared with.
   */
  ghost predicate Selectable(m: Meta, t: Tree, event: Fields) {
    && KnownLeaf(m, t) && Compilable(m, ColumnOf(m, t), t.op, Said(t.right)) && PlainLeaf(m, t)
    && event(FieldOf(m, t)).Str? == TodaysValue(m, t).value.Str?
  }

  ghost predicate AllSelectable(m: Meta, t: Tree, event: Fields) {
    forall leaf :: leaf in Leaves(t) ==> Selectable(m, leaf, event)
  }

  lemma SelectableCompiles(m: Meta, t: Tree, event: Fields)
    requires IsComparison(t) && Selectable(m, t, event)
    ensures Compiles(m, t) && TodaysValue(m, t).Some? && Faithful(TestOf(m, t).value, t.op, TodaysValue(m, t).value)
    ensures !TestOf(m, t).value.Missing? || !Says(t.op, TodaysValue(m, t).value, event(FieldOf(m, t)))
  {
    hide Build, Column, Compilable, Says;
    ColumnsCompile(m, ColumnOf(m, t), t.op, ValueOf(m, t));
    CompilableToday(m, ColumnOf(m, t), t.op, ValueOf(m, t));
  }

  lemma CompilableToday(m: Meta, name: string, op: string, v: Literal)
    requires Compilable(m, name, op, v)
    ensures Today(m, name, v).Some?
  {
  }

  lemma {:induction false} ClauseIsItsTests(m: Meta, t: Tree, event: Fields)
    requires IsRule(t) && AllSelectable(m, t, event)
    ensures ClauseHolds(m, t, event) <==> TreeTrue(m, t, On(event))
  {
    hide Selectable, Says, Build, Today;
    if Connective(t.op) {
      assert Leaves(t) == Leaves(t.left) + Leaves(t.right);
      forall leaf | leaf in Leaves(t.left) ensures leaf in Leaves(t) {}
      forall leaf | leaf in Leaves(t.right) ensures leaf in Leaves(t) {}
      ClauseIsItsTests(m, t.left, event);
      ClauseIsItsTests(m, t.right, event);
    } else {
      assert t in Leaves(t);
      LeafIsItsTest(m, t, event);
    }
  }

  lemma LeafIsItsTest(m: Meta, t: Tree, event: Fields)
    requires IsComparison(t) && Selectable(m, t, event)
    ensures KnownLeaf(m, t) && TodaysValue(m, t).Some?
    ensures Says(t.op, TodaysValue(m, t).value, event(FieldOf(m, t))) <==> LeafTrue(m, t, On(event))
  {
    SelectableCompiles(m, t, event);
    hide Says, Build, Today, Column;
  }

  lemma SelectableRuleCompiles(m: Meta, t: Tree, event: Fields)
    requires IsRule(t) && AllSelectable(m, t, event)
    ensures AllCompile(m, t)
  {
    LeavesAreComparisons(t);
    forall leaf | leaf in Leaves(t) ensures Compiles(m, leaf) { SelectableCompiles(m, leaf, event); }
  }

  /** A rule of such comparisons selects exactly the events its clause selects. */
  lemma RuleSelectsTheSameEvents(m: Meta, t: Tree, event: Fields) returns (e: Py)
    requires Named(m) && IsRule(t) && AllSelectable(m, t, event)
    ensures ToPython(m, t).Ok? && ReadRule(ToPython(m, t).value) == Some(e)
    ensures PyTrue(e, On(event)) <==> ClauseHolds(m, t, event)
  {
    SelectableRuleCompiles(m, t, event);
    ClauseIsItsTests(m, t, event);
    e := RuleKeepsMeaning(m, t, On(event));
  }
}
