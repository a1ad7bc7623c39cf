/** Forms over text columns: printed as a where clause, and read back as triples for the form. */
module FormClauses {
  import opened Wrappers
  import opened PyStrings
  import opened Quoting
  import opened WhereGrammar

  /** One dictionary in the source: the values under a column's name, the mode under name_mode. */
  datatype Form = Form(values: map<string, seq<string>>, modes: map<string, string>)

  datatype Triple = Triple(name: string, mode: string, value: Tree)

  // ----- printing -----

  predicate KnownMode(mode: string) {
    mode in ["~", "^", "$", "!~", "", "!"]
  }

  predicate NegativeMode(mode: string) {
    mode in ["!", "!~", "!^"]
  }

  /** The quoted value of Text.buildClause1. */
  function Pattern(mode: string, v: string): string {
    if mode == "~" || mode == "!~" then "%" + v + "%"
    else if mode == "^" then v + "%"
    else if mode == "$" then "%" + v
    else v
  }

  function Operator(mode: string): CmpOp {
    if mode == "!~" then NotLikeOp
    else if mode == "" then BinOp("=")
    else if mode == "!" then BinOp("!=")
    else LikeOp
  }

  /** Text.buildClause1, None for a mode it does not know. */
  function BuildClause1(name: string, v: string, mode: string): Option<seq<Token>> {
    if !KnownMode(mode) then None
    else Some([VarT(name)] + OpTokens(Operator(mode)) + [StrT(Q(Pattern(mode, v)))])
  }

  function JoinTokens(parts: seq<seq<Token>>, sep: Token): seq<Token> {
    if parts == [] then [] else if |parts| == 1 then parts[0] else parts[0] + ([sep] + JoinTokens(parts[1..], sep))
  }

  function Clauses(name: string, values: seq<string>, mode: string): seq<seq<Token>>
    requires KnownMode(mode)
  {
    seq(|values|, k requires 0 <= k < |values| => BuildClause1(name, values[k], mode).value)
  }

  /** buildClause: no clause for an empty value list or an empty value; a mode nobody knows raises TypeError. */
  function BuildClause(name: string, values: seq<string>, mode: Option<string>): Result<Option<seq<Token>>> {
    if values == [] || "" in values then Ok(None)
    else if mode.None? || !KnownMode(mode.value) then Err(TypeError)
    else Ok(Some(JoinTokens(Clauses(name, values, mode.value), if NegativeMode(mode.value) then AndT else OrT)))
  }

  function ModeOf(form: Form, name: string): Option<string> {
    if name in form.modes then Some(form.modes[name]) else None
  }

  /** The parenthesised clauses of the columns, in the order the columns come. */
  function ColumnClauses(names: seq<string>, form: Form): Result<seq<seq<Token>>> {
    if names == [] then Ok([]) else
    var n := names[|names| - 1];
    var before := ColumnClauses(names[..|names| - 1], form);
    if before.Err? || n !in form.values then before else
    var c := BuildClause(n, form.values[n], ModeOf(form, n));
    if c.Err? then Err(c.error)
    else if c.value.None? then before
    else Ok(before.value + [[OpenT] + (c.value.value + [CloseT])])
  }

  function FromForm(names: seq<string>, form: Form): Result<seq<Token>> {
    var cs := ColumnClauses(names, form);
    if cs.Err? then Err(cs.error) else Ok(JoinTokens(cs.value, AndT))
  }

  /** The loop of buildClause. */
  method BuildClauseLoop(name: string, values: seq<string>,
      mode: Option<string>) returns (r: Result<Option<seq<Token>>>)
    ensures r == BuildClause(name, values, mode)
  {
    var foundNegativeMatch := false;
    var result: seq<Option<seq<Token>>> := [];
    var k := 0;
    while k < |values|
      invariant k <= |values| && |result| == k
      invariant forall j :: 0 <= j < k ==> values[j] != ""
      invariant forall j :: 0 <= j < k
                   ==> result[j] == if mode.None? then None else BuildClause1(name, values[j], mode.value)
      invariant foundNegativeMatch <==> k > 0 && mode.Some? && NegativeMode(mode.value)
    {
      if values[k] == "" { return Ok(None); }
      if mode.Some? && NegativeMode(mode.value) { foundNegativeMatch := true; }
      result := result + [if mode.None? then None else BuildClause1(name, values[k], mode.value)];
      k := k + 1;
    }
    if result == [] { return Ok(None); }
    if exists j | 0 <= j < |result| :: result[j].None? {
      return Err(TypeError);
    }
    assert result[0].Some?;
    var parts := seq(|result|, j requires 0 <= j < |result| => if result[j].Some? then result[j].value else []);
    assert parts == Clauses(name, values, mode.value);
    r := Ok(Some(JoinTokens(parts, if foundNegativeMatch then AndT else OrT)));
  }

  /** The loop of fromFormVariables. */
  method FromFormVariables(names: seq<string>, form: Form) returns (r: Result<seq<Token>>)
    ensures r == FromForm(names, form)
  {
    var result: seq<seq<Token>> := [];
    var k := 0;
    while k < |names|
      invariant k <= |names| && ColumnClauses(names[..k], form) == Ok(result)
    {
      var n := names[k];
      assert names[..k + 1][..k] == names[..k];
      if n in form.values {
        var clause := BuildClauseLoop(n, form.values[n], ModeOf(form, n));
        if clause.Err? {
          LaterErrorsDoNotHide(names, form, k + 1);
          return Err(clause.error);
        }
        if clause.value.Some? {
          result := result + [[OpenT] + (clause.value.value + [CloseT])];
        }
      }
      k := k + 1;
    }
    assert names[..k] == names;
    r := Ok(JoinTokens(result, AndT));
  }

  lemma {:induction false} LaterErrorsDoNotHide(names: seq<string>, form: Form, k: nat)
    requires k <= |names| && ColumnClauses(names[..k], form).Err?
    ensures ColumnClauses(names, form) == ColumnClauses(names[..k], form)
    decreases |names| - k
  {
    if k == |names| {
      assert names[..k] == names;
    } else {
      assert names[..k + 1][..k] == names[..k];
      LaterErrorsDoNotHide(names, form, k + 1);
    }
  }

  // ----- reading back -----

  /** Text.toJS on a string value; None when it falls through, which raises where the result is unpacked. */
  function ToJS(op: string, value: string): Option<(string, string)> {
    if op == "like" then
      if StartsWith(value, "%") && !EndsWith(value, "%") then Some(("$", Tail(value)))
      else if !StartsWith(value, "%") && EndsWith(value, "%") then Some(("^", Init(value)))
      else if StartsWith(value, "%") && EndsWith(value, "%") then Some(("~", Inner(value)))
      else None
    else if op == "not like" then Some(("!~", Inner(value)))
    else if op == "=" then Some(("", value))
    else if op == "!=" then Some(("!", value))
    else None
  }

  /** lmeta: the column whose lower-case name is key. */
  function Column(names: seq<string>, key: string): Option<string> {
    if names == [] then None
    else if Lower(names[|names| - 1]) == key then Some(names[|names| - 1])
    else Column(names[..|names| - 1], key)
  }

  /** The walk of toJavaScript; a comparison on an unknown column is dropped. */
  function ReadTree(names: seq<string>, t: Tree): Result<seq<Triple>> {
    if !t.Node? then Ok([])
    else if t.op == "and" || t.op == "or" then
      var l := ReadTree(names, t.left);
      if l.Err? then l else
      var r := ReadTree(names, t.right);
      if r.Err? then r else Ok(l.value + r.value)
    else if !t.left.Text? then Err(AttributeError)
    else
      var n := Column(names, Lower(t.left.s));
      if n.None? then Ok([])
      else if t.right.Text? then
        var js := ToJS(t.op, t.right.s);
        if js.None? then Err(TypeError) else Ok([Triple(n.value, js.value.0, Text(js.value.1))])
      else if t.op == "=" || t.op == "!=" then Ok([Triple(n.value, if t.op == "=" then "" else "!", t.right)])
      else if t.op == "like" then Err(AttributeError)
      else Err(TypeError)
  }

  function ToJavaScript(names: seq<string>, clause: seq<Token>): Result<seq<Triple>> {
    var t := Parse(clause);
    if t.Err? then Err(t.error)
    else if t.value.None? then Ok([])
    else
      var r := ReadTree(names, t.value.value);
      if r.Err? then r else Ok(Sort(r.value))
  }

  // ----- list.sort on triples -----

  function StringKey(s: string): seq<int> {
    seq(|s|, k requires 0 <= k < |s| => s[k] as int + 1) + [0]
  }

  /** A key whose lexicographic order is Python's order on the values: numbers, then strings, then tuples. */
  function TreeKey(t: Tree): seq<int> {
    match t
    case Number(n) => [0, n]
    case Text(s) => [1] + StringKey(s)
    case Node(op, l, r) => [2] + StringKey(op) + TreeKey(l) + TreeKey(r)
  }

  function Key(t: Triple): seq<int> {
    StringKey(t.name) + StringKey(t.mode) + TreeKey(t.value)
  }

  predicate LexLe(a: seq<int>, b: seq<int>) {
    a == [] || (b != [] && (a[0] < b[0] || (a[0] == b[0] && LexLe(a[1..], b[1..]))))
  }

  function Insert(t: Triple, ts: seq<Triple>): seq<Triple> {
    if ts == [] || LexLe(Key(t), Key(ts[0])) then [t] + ts else [ts[0]] + Insert(t, ts[1..])
  }

  function Sort(ts: seq<Triple>): seq<Triple> {
    if ts == [] then [] else Insert(ts[0], Sort(ts[1..]))
  }

  ghost predicate Sorted(ts: seq<Triple>) {
    forall j, k :: 0 <= j < k < |ts| ==> LexLe(Key(ts[j]), Key(ts[k]))
  }

  lemma {:induction false} LexTotal(a: seq<int>, b: seq<int>)
    ensures LexLe(a, b) || LexLe(b, a)
  {
    if a != [] && b != [] { LexTotal(a[1..], b[1..]); }
  }

  lemma {:induction false} LexTransitive(a: seq<int>, b: seq<int>, c: seq<int>)
    requires LexLe(a, b) && LexLe(b, c)
    ensures LexLe(a, c)
  {
    if a != [] && a[0] == b[0] && b[0] == c[0] { LexTransitive(a[1..], b[1..], c[1..]); }
  }

  lemma {:induction false} InsertSorts(t: Triple, ts: seq<Triple>)
    requires Sorted(ts)
    ensures Sorted(Insert(t, ts)) && multiset(Insert(t, ts)) == multiset(ts) + multiset{t}
  {
    if ts == [] {
    } else if LexLe(Key(t), Key(ts[0])) {
      forall k | 0 <= k < |ts| ensures LexLe(Key(t), Key(ts[k])) {
        if k > 0 { LexTransitive(Key(t), Key(ts[0]), Key(ts[k])); }
      }
    } else {
      LexTotal(Key(t), Key(ts[0]));
      assert ts == [ts[0]] + ts[1..];
      var r := Insert(t, ts[1..]);
      InsertSorts(t, ts[1..]);
      forall k | 0 <= k < |r| ensures LexLe(Key(ts[0]), Key(r[k])) {
        assert r[k] in multiset(r);
        if r[k] != t {
          assert r[k] in ts[1..];
          var j :| 0 <= j < |ts[1..]| && ts[1..][j] == r[k];
          assert ts[j + 1] == r[k];
        }
      }
    }
  }

  /** Sorting sorts and permutes. */
  lemma {:induction false} SortSorts(ts: seq<Triple>)
    ensures Sorted(Sort(ts)) && multiset(Sort(ts)) == multiset(ts)
  {
    if ts != [] {
      SortSorts(ts[1..]);
      InsertSorts(ts[0], Sort(ts[1..]));
      assert ts == [ts[0]] + ts[1..];
    }
  }
}
