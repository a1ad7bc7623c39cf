/**
 A where clause compiled to a Python rule: collapse flattens the tree, toPython prints it fully parenthesised, character
 by character.
 */
module RuleCompiler {
  import opened Wrappers
  import opened PyStrings
  import opened Sequences
  import opened Quoting
  import opened WhereGrammar
  import opened FormClauses
  import opened LikePatterns
  import opened RuleColumns
  import opened PyReader
  import opened RuleTests

  // ----- collapse -----

  /** A comparison as parsed, or one list that starts with its operator. */
  datatype Flat = Leaf(t: Tree) | Group(op: string, parts: seq<Flat>)

  predicate Connective(op: string) {
    op == "and" || op == "or"
  }

  /** A tree of comparisons of a column with a string or a number, joined by and and or. */
  predicate IsRule(t: Tree) {
    t.Node? && if Connective(t.op) then IsRule(t.left) && IsRule(t.right) else IsComparison(t)
  }

  /** The operators are those of the grammar. */
  predicate IsComparison(t: Tree) {
    t.Node? && t.left.Text? && !t.right.Node? && ClauseOperator(t.op)
  }

  /** _collapse, as what it appends for a term below operator cur. */
  function Collapsed(t: Tree, cur: Option<string>): seq<Flat> {
    if !t.Node? then [Leaf(t)]
    else if Some(t.op) == cur then Collapsed(t.left, cur) + Collapsed(t.right, cur)
    else if Connective(t.op) then [Group(t.op, Collapsed(t.left, Some(t.op)) + Collapsed(t.right, Some(t.op)))]
    else [Leaf(t)]
  }

  function Leaves(t: Tree): seq<Tree> {
    if t.Node? && Connective(t.op) then Leaves(t.left) + Leaves(t.right) else [t]
  }

  function FlatLeaves(f: Flat): seq<Tree>
    decreases f, 0
  {
    if f.Leaf? then [f.t] else AllLeaves(f.parts)
  }

  function AllLeaves(fs: seq<Flat>): seq<Tree>
    decreases fs, 1
  {
    if fs == [] then [] else FlatLeaves(fs[0]) + AllLeaves(fs[1..])
  }

  /** No list has a member that starts with its own operator, and none is shorter than two. */
  ghost predicate Flattened(f: Flat)
    decreases f
  {
    f.Group? ==> Connective(f.op) && |f.parts| >= 2 && AllFlattened(f.parts, f.op)
  }

  ghost predicate AllFlattened(fs: seq<Flat>, op: string)
    decreases fs
  {
    forall k :: 0 <= k < |fs| ==> Flattened(fs[k]) && !(fs[k].Group? && fs[k].op == op)
  }

  lemma {:induction false} AllLeavesAdd(a: seq<Flat>, b: seq<Flat>)
    ensures AllLeaves(a + b) == AllLeaves(a) + AllLeaves(b)
  {
    if a == [] {
      assert a + b == b;
    } else {
      assert (a + b)[1..] == a[1..] + b;
      AllLeavesAdd(a[1..], b);
    }
  }

  /** Flattening keeps the comparisons in order and leaves no operator under itself. */
  lemma {:induction false} CollapseFlattens(t: Tree, cur: Option<string>)
    requires IsRule(t) && (cur.Some? ==> Connective(cur.value))
    ensures AllLeaves(Collapsed(t, cur)) == Leaves(t)
    ensures |Collapsed(t, cur)| >= if Some(t.op) == cur then 2 else 1
    ensures Some(t.op) != cur ==> |Collapsed(t, cur)| == 1 && Flattened(Collapsed(t, cur)[0])
    ensures cur.Some? ==> AllFlattened(Collapsed(t, cur), cur.value)
  {
    var fs := Collapsed(t, cur);
    if Connective(t.op) {
      var l, r := Collapsed(t.left, Some(t.op)), Collapsed(t.right, Some(t.op));
      CollapseFlattens(t.left, Some(t.op));
      CollapseFlattens(t.right, Some(t.op));
      AllLeavesAdd(l, r);
      assert AllFlattened(l + r, t.op);
      if Some(t.op) != cur {
        assert fs == [Group(t.op, l + r)] && fs[1..] == [];
        assert AllLeaves(fs) == AllLeaves(l + r) + [];
      }
    } else {
      assert fs == [Leaf(t)] && fs[1..] == [];
      assert AllLeaves(fs) == [t] + [];
    }
  }

  // ----- toPython -----

  predicate KnownLeaf(m: Meta, t: Tree) {
    t.Node? && t.left.Text? && !t.right.Node? && Column(m.names, Lower(t.left.s)).Some?
  }

  /** The column a comparison is about, by its own name. */
  function ColumnOf(m: Meta, t: Tree): string
    requires KnownLeaf(m, t)
  {
    Column(m.names, Lower(t.left.s)).value
  }

  function ValueOf(m: Meta, t: Tree): Literal
    requires KnownLeaf(m, t)
  {
    if t.right.Text? then Str(t.right.s) else Int(t.right.n)
  }

  function TestOf(m: Meta, t: Tree): Result<PyTest>
    requires KnownLeaf(m, t)
  {
    Build(m, ColumnOf(m, t), t.op, ValueOf(m, t))
  }

  function FieldOf(m: Meta, t: Tree): string
    requires KnownLeaf(m, t)
  {
    GetName(m.renames, ColumnOf(m, t))
  }

  /** A comparison that is printed: on a known column, and buildPython does not raise. */
  predicate Prints(m: Meta, t: Tree) {
    KnownLeaf(m, t) && TestOf(m, t).Ok?
  }

  /** And Python reads it: it has an operator of Python and a value that stands between double quotes as it is. */
  predicate Compiles(m: Meta, t: Tree) {
    Prints(m, t) && !TestOf(m, t).value.NotPython? && PlainTest(TestOf(m, t).value)
  }

  function LeafText(m: Meta, t: Tree): string
    requires Prints(m, t)
  {
    TestText(FieldOf(m, t), TestOf(m, t).value)
  }

  /** What the first comparison that raises raises. */
  function FirstError(m: Meta, leaves: seq<Tree>): Option<Error> {
    if leaves == [] then None
    else if KnownLeaf(m, leaves[0]) && TestOf(m, leaves[0]).Err? then Some(TestOf(m, leaves[0]).error)
    else FirstError(m, leaves[1..])
  }

  function Separator(op: string): string {
    " " + op + " "
  }

  /** recurse, as what it appends when nothing raises: nothing for a comparison on an unknown column. */
  function Printed(m: Meta, f: Flat): seq<string>
    decreases f, 0
  {
    if f.Leaf? then if Prints(m, f.t) then ["(" + LeafText(m, f.t) + ")"] else []
    else ["(" + Join(PrintedAll(m, f.parts), Separator(f.op)) + ")"]
  }

  function PrintedAll(m: Meta, fs: seq<Flat>): seq<string>
    decreases fs, 1
  {
    if fs == [] then [] else Printed(m, fs[0]) + PrintedAll(m, fs[1..])
  }

  /** recurse as the loop it is: the sub-results of each member are collected, then joined. */
  method PrintInto(m: Meta, f: Flat, result: seq<string>) returns (r: Result<seq<string>>)
    ensures r == match FirstError(m, FlatLeaves(f)) case Some(e) => Err(e) case None => Ok(result + Printed(m, f))
    decreases f
  {
    if f.Leaf? {
      assert [f.t][1..] == [] && FlatLeaves(f) == [f.t] && FirstError(m, []) == None;
      assert result + [] == result;
      r := Ok(result);
      if KnownLeaf(m, f.t) {
        var test := TestOf(m, f.t);
        if test.Err? { return Err(test.error); }
        r := Ok(result + ["(" + LeafText(m, f.t) + ")"]);
      }
    } else {
      var all := PrintParts(m, f.parts);
      if all.Err? { return all; }
      r := Ok(result + ["(" + Join(all.value, Separator(f.op)) + ")"]);
    }
  }

  /** The loop over the operands of a list. */
  method PrintParts(m: Meta, fs: seq<Flat>) returns (r: Result<seq<string>>)
    ensures r == match FirstError(m, AllLeaves(fs)) case Some(e) => Err(e) case None => Ok(PrintedAll(m, fs))
    decreases fs
  {
    NoParts(m);
    hide FirstError, AllLeaves, FlatLeaves, PrintedAll, Printed;
    var all, k := [], 0;
    assert fs[0..] == fs;
    while k < |fs|
      invariant 0 <= k <= |fs|
      invariant all + PrintedAll(m, fs[k..]) == PrintedAll(m, fs)
      invariant FirstError(m, AllLeaves(fs)) == FirstError(m, AllLeaves(fs[k..]))
    {
      PartsFrom(m, fs, k);
      FirstErrorJoins(m, FlatLeaves(fs[k]), AllLeaves(fs[k + 1..]));
      var sub := PrintInto(m, fs[k], []);
      if sub.Err? { return sub; }
      assert [] + Printed(m, fs[k]) == Printed(m, fs[k]);
      Regroup(all, sub.value, PrintedAll(m, fs[k + 1..]));
      all, k := all + sub.value, k + 1;
    }
    assert fs[k..] == [] && all + [] == all;
    r := Ok(all);
  }

  lemma NoParts(m: Meta)
    ensures PrintedAll(m, []) == [] && AllLeaves([]) == [] && FirstError(m, []) == None
  {
  }

  lemma PartsFrom(m: Meta, fs: seq<Flat>, k: nat)
    requires k < |fs|
    ensures PrintedAll(m, fs[k..]) == Printed(m, fs[k]) + PrintedAll(m, fs[k + 1..])
    ensures AllLeaves(fs[k..]) == FlatLeaves(fs[k]) + AllLeaves(fs[k + 1..])
  {
    assert fs[k..][0] == fs[k] && fs[k..][1..] == fs[k + 1..];
  }

  lemma {:induction false} FirstErrorJoins(m: Meta, a: seq<Tree>, b: seq<Tree>)
    ensures FirstError(m, a + b) == if FirstError(m, a).Some? then FirstError(m, a) else FirstError(m, b)
  {
    if a == [] {
      assert a + b == b;
    } else {
      assert (a + b)[1..] == a[1..] + b;
      FirstErrorJoins(m, a[1..], b);
    }
  }

  /** _collapse as it appends to a list of terms. */
  method CollapseInto(t: Tree, cur: Option<string>, terms: seq<Flat>) returns (out: seq<Flat>)
    ensures out == terms + Collapsed(t, cur)
    decreases t
  {
    if t.Node? && Some(t.op) == cur {
      out := CollapseInto(t.left, cur, terms);
      out := CollapseInto(t.right, cur, out);
      assert out == terms + (Collapsed(t.left, cur) + Collapsed(t.right, cur));
    } else if t.Node? && Connective(t.op) {
      var s1 := CollapseInto(t.left, Some(t.op), []);
      var s2 := CollapseInto(t.right, Some(t.op), []);
      assert s1 == Collapsed(t.left, Some(t.op)) && s2 == Collapsed(t.right, Some(t.op));
      out := terms + [Group(t.op, s1 + s2)];
    } else {
      out := terms + [Leaf(t)];
    }
  }

  /** toPython on a parsed tree; the outer parentheses of a list are stripped. */
  function ToPython(m: Meta, t: Tree): Result<string> {
    var fs := Collapsed(t, None);
    match FirstError(m, AllLeaves(fs))
    case Some(e) => Err(e)
    case None =>
      var out := PrintedAll(m, fs);
      if out == [] then Err(IndexError) else Ok(if fs[0].Group? then Inner(out[0]) else out[0])
  }

  // ----- meaning -----

  ghost predicate AllKnown(m: Meta, t: Tree) {
    forall leaf :: leaf in Leaves(t) ==> KnownLeaf(m, leaf)
  }

  ghost predicate AllPrint(m: Meta, t: Tree) {
    forall leaf :: leaf in Leaves(t) ==> Prints(m, leaf)
  }

  /** The Python a comparison is meant to be; one that is not printed is never true. */
  function MeantBy(m: Meta, t: Tree): Py {
    if Prints(m, t) then Meant(FieldOf(m, t), TestOf(m, t).value) else PyConst(false)
  }

  predicate LeafTrue(m: Meta, t: Tree, env: Assignment) {
    PyTrue(MeantBy(m, t), env)
  }

  /** The truth of the parsed clause when each comparison has the truth of its compiled test. */
  predicate TreeTrue(m: Meta, t: Tree, env: Assignment) {
    if t.Node? && t.op == "and" then TreeTrue(m, t.left, env) && TreeTrue(m, t.right, env)
    else if t.Node? && t.op == "or" then TreeTrue(m, t.left, env) || TreeTrue(m, t.right, env)
    else LeafTrue(m, t, env)
  }

  predicate FlatTrue(m: Meta, f: Flat, env: Assignment)
    decreases f, 0
  {
    if f.Leaf? then LeafTrue(m, f.t, env) else AllTrue(m, f.parts, f.op, env)
  }

  /** The conjunction or disjunction of a list. */
  predicate AllTrue(m: Meta, fs: seq<Flat>, op: string, env: Assignment)
    decreases fs, 1
  {
    if fs == [] then op == "and"
    else if op == "and" then FlatTrue(m, fs[0], env) && AllTrue(m, fs[1..], op, env)
    else FlatTrue(m, fs[0], env) || AllTrue(m, fs[1..], op, env)
  }

  lemma {:induction false} AllTrueAdds(m: Meta, a: seq<Flat>, b: seq<Flat>, op: string, env: Assignment)
    ensures AllTrue(m, a + b, op, env)
            <==> if op == "and" then AllTrue(m, a, op, env) && AllTrue(m, b, op, env)
                 else AllTrue(m, a, op, env) || AllTrue(m, b, op, env)
  {
    if a == [] {
      assert a + b == b;
    } else {
      assert (a + b)[1..] == a[1..] + b;
      AllTrueAdds(m, a[1..], b, op, env);
    }
  }

  lemma AllTrueOne(m: Meta, f: Flat, op: string, env: Assignment)
    ensures AllTrue(m, [f], op, env) <==> FlatTrue(m, f, env)
  {
    assert [f][1..] == [];
  }

  /** Flattening does not change the truth. */
  lemma {:induction false} CollapseKeepsMeaning(m: Meta, t: Tree, cur: Option<string>, env: Assignment)
    requires IsRule(t) && (cur.Some? ==> Connective(cur.value))
    ensures AllTrue(m, Collapsed(t, cur), if cur.Some? then cur.value else "and", env) <==> TreeTrue(m, t, env)
  {
    var op := if cur.Some? then cur.value else "and";
    if Connective(t.op) {
      var l, r := Collapsed(t.left, Some(t.op)), Collapsed(t.right, Some(t.op));
      CollapseKeepsMeaning(m, t.left, Some(t.op), env);
      CollapseKeepsMeaning(m, t.right, Some(t.op), env);
      AllTrueAdds(m, l, r, t.op, env);
      if Some(t.op) != cur {
        AllTrueOne(m, Group(t.op, l + r), op, env);
      }
    } else {
      AllTrueOne(m, Leaf(t), op, env);
    }
  }

  // ----- what is compiled -----

  lemma RulePrintsOne(m: Meta, t: Tree)
    requires IsRule(t)
    ensures var fs := Collapsed(t, None);
            |fs| == 1 && Flattened(fs[0]) && AllLeaves(fs) == Leaves(t) && FlatLeaves(fs[0]) == Leaves(t)
            && PrintedAll(m, fs) == Printed(m, fs[0])
  {
    CollapseFlattens(t, None);
    var fs := Collapsed(t, None);
    assert fs == [fs[0]] && fs[1..] == [];
    assert FlatLeaves(fs[0]) + [] == FlatLeaves(fs[0]);
    assert Printed(m, fs[0]) + [] == Printed(m, fs[0]);
  }

  lemma {:induction false} FirstErrorIs(m: Meta, leaves: seq<Tree>)
    requires forall leaf :: leaf in leaves ==> KnownLeaf(m, leaf)
    ensures FirstError(m, leaves).None? <==> forall leaf :: leaf in leaves ==> Prints(m, leaf)
  {
    if leaves != [] {
      assert leaves[0] in leaves && forall leaf :: leaf in leaves <==> leaf == leaves[0] || leaf in leaves[1..];
      FirstErrorIs(m, leaves[1..]);
    }
  }

  /** A rule over known columns is compiled exactly when none of its comparisons raises. */
  lemma RuleCompiles(m: Meta, t: Tree)
    requires IsRule(t) && AllKnown(m, t)
    ensures ToPython(m, t).Ok? <==> AllPrint(m, t)
  {
    RulePrintsOne(m, t);
    FirstErrorIs(m, Leaves(t));
    var f := Collapsed(t, None)[0];
    if f.Leaf? { assert FlatLeaves(f)[0] == f.t; }
  }
}
