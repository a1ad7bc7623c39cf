/** A printed form reads back as itself: which triples come back, and for which forms they are the form's own. */
module FormRoundTrip {
  import opened Wrappers
  import opened PyStrings
  import opened Sequences
  import opened Quoting
  import opened WhereGrammar
  import opened FormClauses

  /** A column that prints a clause. */
  datatype Col = Col(name: string, mode: string, values: seq<string>)

  predicate ColOk(c: Col) {
    KnownMode(c.mode) && c.values != [] && "" !in c.values
  }

  /** The columns of a form that print a clause, in the order the columns come. */
  function Active(names: seq<string>, form: Form): seq<Col> {
    if names == [] then [] else
    var n := names[|names| - 1];
    var before := Active(names[..|names| - 1], form);
    if n !in form.values || form.values[n] == [] || "" in form.values[n] || n !in form.modes then before
    else before + [Col(n, form.modes[n], form.values[n])]
  }

  // ----- one value: what toJS makes of what buildClause1 printed -----

  /** Reading back one printed value. */
  function ReadBack(mode: string, v: string): Option<(string, string)> {
    ToJS(OpName(Operator(mode)), U(Q(Pattern(mode, v))))
  }

  /**
   The values a mode can carry: quotable ones for the comparisons, no percent sign next to the pattern's own
   for ^ and $.
   */
  predicate Carries(mode: string, v: string) {
    if mode == "" || mode == "!" then Quotable(v)
    else if mode == "^" then !StartsWith(v, "%")
    else if mode == "$" then !EndsWith(v, "%")
    else true
  }

  lemma PatternEnds(v: string)
    ensures StartsWith("%" + v, "%") && Tail("%" + v) == v
    ensures EndsWith(v + "%", "%") && Init(v + "%") == v
    ensures StartsWith("%" + v + "%", "%") && EndsWith("%" + v + "%", "%") && Inner("%" + v + "%") == v
    ensures v != ""
            ==> (StartsWith(v + "%", "%") <==> StartsWith(v, "%")) && (EndsWith("%" + v, "%") <==> EndsWith(v, "%"))
    ensures v != "" ==> |Inner("%" + v)| == |v| - 1 && |Inner(v + "%")| == |v| - 1
  {
    assert ("%" + v)[..1] == "%" && ("%" + v + "%")[..1] == "%";
    if v != "" {
      assert (v + "%")[..1] == v[..1];
      assert ("%" + v)[|v|..] == v[|v| - 1..];
    }
  }

  /** The patterns as toJS reads them. */
  lemma PatternRoundTrip(mode: string, v: string)
    requires mode in ["~", "!~", "^", "$"] && v != ""
    ensures var r := ToJS(OpName(Operator(mode)), Pattern(mode, v));
            && r.Some? && (r == Some((mode, v)) <==> Carries(mode, v))
            && (!Carries(mode, v) ==> |r.value.1| == |v| - 1)
  {
    PatternEnds(v);
    hide StartsWith, EndsWith, Inner, Init, Tail;
  }

  /** A value comes back under its mode exactly when the mode can carry it; otherwise one character is lost. */
  lemma ValueRoundTrip(mode: string, v: string)
    requires KnownMode(mode) && v != ""
    ensures ReadBack(mode, v).Some?
    ensures ReadBack(mode, v) == Some((mode, v)) <==> Carries(mode, v)
    ensures !Carries(mode, v) ==> |ReadBack(mode, v).value.1| == |v| - 1
  {
    var p := Pattern(mode, v);
    UnquoteUndoesQuote(p);
    hide Q, U, StartsWith, EndsWith, Inner, Init, Tail;
    if mode != "" && mode != "!" {
      assert p[0] == '%' || p[|p| - 1] == '%';
      assert Quotable(p);
      PatternRoundTrip(mode, v);
      assert ReadBack(mode, v) == ToJS(OpName(Operator(mode)), p);
    }
  }

  // ----- the derivation a form prints -----

  function BinOf(name: string, mode: string, v: string): BinE {
    BinE(VarE(name), MoreBin(Operator(mode), StrE(Q(Pattern(mode, v))), NoBin))
  }

  function OrTailOf(name: string, mode: string, vs: seq<string>): OrTail {
    if vs == [] then NoOr else MoreOr(BinOf(name, mode, vs[0]), OrTailOf(name, mode, vs[1..]))
  }

  function AndTailOf(name: string, mode: string, vs: seq<string>): AndTail {
    if vs == [] then NoAnd else MoreAnd(OrE(BinOf(name, mode, vs[0]), NoOr), AndTailOf(name, mode, vs[1..]))
  }

  function ColE(c: Col): AndE
    requires c.values != []
  {
    var first := BinOf(c.name, c.mode, c.values[0]);
    if NegativeMode(c.mode) then AndE(OrE(first, NoOr), AndTailOf(c.name, c.mode, c.values[1..]))
    else AndE(OrE(first, OrTailOf(c.name, c.mode, c.values[1..])), NoAnd)
  }

  function Paren(c: Col): OrE
    requires c.values != []
  {
    OrE(BinE(ParenE(ColE(c)), NoBin), NoOr)
  }

  ghost predicate AllOk(cols: seq<Col>) {
    forall k :: 0 <= k < |cols| ==> ColOk(cols[k])
  }

  function FormTail(cols: seq<Col>): AndTail
    requires forall k :: 0 <= k < |cols| ==> cols[k].values != []
  {
    if cols == [] then NoAnd else MoreAnd(Paren(cols[0]), FormTail(cols[1..]))
  }

  function FormE(cols: seq<Col>): AndE
    requires cols != [] && forall k :: 0 <= k < |cols| ==> cols[k].values != []
  {
    AndE(Paren(cols[0]), FormTail(cols[1..]))
  }

  function ColClause(c: Col): seq<Token>
    requires KnownMode(c.mode)
  {
    [OpenT] + (JoinTokens(Clauses(c.name, c.values, c.mode), if NegativeMode(c.mode) then AndT else OrT) + [CloseT])
  }

  function ColParts(cols: seq<Col>): seq<seq<Token>>
    requires AllOk(cols)
  {
    seq(|cols|, k requires 0 <= k < |cols| => ColClause(cols[k]))
  }

  lemma BinTokensAre(name: string, v: string, mode: string)
    requires KnownMode(mode)
    ensures BinTokens(BinOf(name, mode, v)) == BuildClause1(name, v, mode).value
  {
    var m := MoreBin(Operator(mode), StrE(Q(Pattern(mode, v))), NoBin);
    assert BinTailTokens(m) == OpTokens(Operator(mode)) + [StrT(Q(Pattern(mode, v)))];
    assert BinTokens(BinOf(name, mode, v)) == [VarT(name)] + BinTailTokens(m);
  }

  lemma {:induction false} OrJoinTokens(name: string, mode: string, vs: seq<string>)
    requires KnownMode(mode) && vs != []
    ensures OrTokens(OrE(BinOf(name, mode, vs[0]), OrTailOf(name, mode, vs[1..])))
            == JoinTokens(Clauses(name, vs, mode), OrT)
    decreases |vs|
  {
    BinTokensAre(name, vs[0], mode);
    var parts := Clauses(name, vs, mode);
    if |vs| > 1 {
      OrJoinTokens(name, mode, vs[1..]);
      assert parts[1..] == Clauses(name, vs[1..], mode);
    } else {
      assert OrTailOf(name, mode, vs[1..]) == NoOr;
    }
  }

  lemma {:induction false} AndJoinTokens(name: string, mode: string, vs: seq<string>)
    requires KnownMode(mode) && vs != []
    ensures AndTokens(AndE(OrE(BinOf(name, mode, vs[0]), NoOr), AndTailOf(name, mode, vs[1..])))
            == JoinTokens(Clauses(name, vs, mode), AndT)
    decreases |vs|
  {
    BinTokensAre(name, vs[0], mode);
    var parts := Clauses(name, vs, mode);
    assert OrTokens(OrE(BinOf(name, mode, vs[0]), NoOr)) == parts[0];
    if |vs| > 1 {
      AndJoinTokens(name, mode, vs[1..]);
      assert parts[1..] == Clauses(name, vs[1..], mode);
    } else {
      assert AndTailOf(name, mode, vs[1..]) == NoAnd;
    }
  }

  lemma ParenTokens(c: Col)
    requires ColOk(c)
    ensures OrTokens(Paren(c)) == ColClause(c)
  {
    if NegativeMode(c.mode) {
      AndJoinTokens(c.name, c.mode, c.values);
    } else {
      OrJoinTokens(c.name, c.mode, c.values);
      assert AndTokens(ColE(c)) == OrTokens(ColE(c).first);
    }
    var bin := BinE(ParenE(ColE(c)), NoBin);
    assert BinTokens(bin) == TermTokens(bin.first) && OrTokens(Paren(c)) == BinTokens(bin);
  }

  lemma {:induction false} FormTokens(cols: seq<Col>)
    requires cols != [] && AllOk(cols)
    ensures AndTokens(FormE(cols)) == JoinTokens(ColParts(cols), AndT)
    decreases |cols|
  {
    ParenTokens(cols[0]);
    if |cols| > 1 {
      FormTokens(cols[1..]);
      assert ColParts(cols)[1..] == ColParts(cols[1..]);
    } else {
      assert FormTail(cols[1..]) == NoAnd;
    }
  }

  // ----- what the walk over that tree collects -----

  function Received1(name: string, mode: string, v: string): Triple
    requires ReadBack(mode, v).Some?
  {
    Triple(name, ReadBack(mode, v).value.0, Text(ReadBack(mode, v).value.1))
  }

  ghost predicate Readable(mode: string, vs: seq<string>) {
    forall k :: 0 <= k < |vs| ==> ReadBack(mode, vs[k]).Some?
  }

  function ReceivedValues(name: string, mode: string, vs: seq<string>): seq<Triple>
    requires Readable(mode, vs)
  {
    if vs == [] then [] else [Received1(name, mode, vs[0])] + ReceivedValues(name, mode, vs[1..])
  }

  ghost predicate AllReadable(cols: seq<Col>) {
    forall k :: 0 <= k < |cols| ==> Readable(cols[k].mode, cols[k].values)
  }

  function Received(cols: seq<Col>): seq<Triple>
    requires AllReadable(cols)
  {
    if cols == [] then [] else ReceivedValues(cols[0].name, cols[0].mode, cols[0].values) + Received(cols[1..])
  }

  lemma OkIsReadable(c: Col)
    requires ColOk(c)
    ensures Readable(c.mode, c.values)
  {
    forall k | 0 <= k < |c.values| ensures ReadBack(c.mode, c.values[k]).Some? {
      assert c.values[k] in c.values;
      ValueRoundTrip(c.mode, c.values[k]);
    }
  }

  lemma ReadValue(names: seq<string>, name: string, mode: string, v: string)
    requires Column(names, Lower(name)) == Some(name) && KnownMode(mode) && ReadBack(mode, v).Some?
    ensures ReadTree(names, BinTree(BinOf(name, mode, v))) == Ok([Received1(name, mode, v)])
  {
    var p := Q(Pattern(mode, v));
    var bin := BinOf(name, mode, v);
    UnquoteUndoesQuote(Pattern(mode, v));
    assert FoldBin(Text(name), bin.more) == Node(OpName(Operator(mode)), Text(name), Text(U(p)));
    assert OpName(Operator(mode)) != "and" && OpName(Operator(mode)) != "or" by {
      var op := OpName(Operator(mode));
      assert op == "not like" || op == "=" || op == "!=" || op == "like";
      assert |"not like"| == 8 && |"!="| == 2 && |"like"| == 4 && |"="| == 1 && |"and"| == 3 && |"or"| == 2;
      assert "!="[0] == '!' && "or"[0] == 'o';
    }
  }

  lemma ReadNode(names: seq<string>, op: string, l: Tree, r: Tree)
    requires (op == "and" || op == "or") && ReadTree(names, l).Ok? && ReadTree(names, r).Ok?
    ensures ReadTree(names, Node(op, l, r)) == Ok(ReadTree(names, l).value + ReadTree(names, r).value)
  {
  }

  lemma {:induction false} ReadOrTail(names: seq<string>, name: string, mode: string, acc: Tree, vs: seq<string>)
    requires Column(names, Lower(name)) == Some(name) && KnownMode(mode) && Readable(mode, vs)
    requires ReadTree(names, acc).Ok?
    ensures ReadTree(names, FoldOr(acc, OrTailOf(name, mode, vs)))
            == Ok(ReadTree(names, acc).value + ReceivedValues(name, mode, vs))
    decreases |vs|
  {
    var a := ReadTree(names, acc).value;
    if vs == [] {
      assert a + [] == a;
    } else {
      var t := BinTree(BinOf(name, mode, vs[0]));
      ReadValue(names, name, mode, vs[0]);
      ReadNode(names, "or", acc, t);
      ReadOrTail(names, name, mode, Node("or", acc, t), vs[1..]);
      Regroup(a, [Received1(name, mode, vs[0])], ReceivedValues(name, mode, vs[1..]));
      assert FoldOr(acc, OrTailOf(name, mode, vs)) == FoldOr(Node("or", acc, t), OrTailOf(name, mode, vs[1..]));
    }
  }

  lemma {:induction false} ReadAndTail(names: seq<string>, name: string, mode: string, acc: Tree, vs: seq<string>)
    requires Column(names, Lower(name)) == Some(name) && KnownMode(mode) && Readable(mode, vs)
    requires ReadTree(names, acc).Ok?
    ensures ReadTree(names, FoldAnd(acc, AndTailOf(name, mode, vs)))
            == Ok(ReadTree(names, acc).value + ReceivedValues(name, mode, vs))
    decreases |vs|
  {
    var a := ReadTree(names, acc).value;
    if vs == [] {
      assert a + [] == a;
    } else {
      var t := BinTree(BinOf(name, mode, vs[0]));
      assert OrTree(OrE(BinOf(name, mode, vs[0]), NoOr)) == t;
      ReadValue(names, name, mode, vs[0]);
      ReadNode(names, "and", acc, t);
      ReadAndTail(names, name, mode, Node("and", acc, t), vs[1..]);
      Regroup(a, [Received1(name, mode, vs[0])], ReceivedValues(name, mode, vs[1..]));
      assert FoldAnd(acc, AndTailOf(name, mode, vs)) == FoldAnd(Node("and", acc, t), AndTailOf(name, mode, vs[1..]));
    }
  }

  lemma ParenTree(c: Col)
    requires c.values != []
    ensures OrTree(Paren(c)) == AndTree(ColE(c))
  {
    var bin := BinE(ParenE(ColE(c)), NoBin);
    assert BinTree(bin) == TermTree(bin.first);
    assert FoldOr(BinTree(bin), NoOr) == BinTree(bin);
  }

  lemma ReadColumn(names: seq<string>, c: Col)
    requires ColOk(c) && Readable(c.mode, c.values) && Column(names, Lower(c.name)) == Some(c.name)
    ensures ReadTree(names, OrTree(Paren(c))) == Ok(ReceivedValues(c.name, c.mode, c.values))
  {
    var first := BinOf(c.name, c.mode, c.values[0]);
    ReadValue(names, c.name, c.mode, c.values[0]);
    ParenTree(c);
    if NegativeMode(c.mode) {
      ReadAndTail(names, c.name, c.mode, BinTree(first), c.values[1..]);
      assert OrTree(OrE(first, NoOr)) == BinTree(first);
    } else {
      ReadOrTail(names, c.name, c.mode, BinTree(first), c.values[1..]);
      assert FoldAnd(OrTree(ColE(c).first), NoAnd) == OrTree(ColE(c).first);
    }
  }

  lemma {:induction false} ReadFormTail(names: seq<string>, acc: Tree, cols: seq<Col>)
    requires AllOk(cols) && AllReadable(cols) && ReadTree(names, acc).Ok?
    requires forall k :: 0 <= k < |cols| ==> Column(names, Lower(cols[k].name)) == Some(cols[k].name)
    ensures ReadTree(names, FoldAnd(acc, FormTail(cols))) == Ok(ReadTree(names, acc).value + Received(cols))
    decreases |cols|
  {
    var a := ReadTree(names, acc).value;
    if cols == [] {
      assert a + [] == a;
    } else {
      var t := OrTree(Paren(cols[0]));
      ReadColumn(names, cols[0]);
      ReadNode(names, "and", acc, t);
      ReadFormTail(names, Node("and", acc, t), cols[1..]);
      Regroup(a, ReadTree(names, t).value, Received(cols[1..]));
      assert FoldAnd(acc, FormTail(cols)) == FoldAnd(Node("and", acc, t), FormTail(cols[1..]));
    }
  }

  // ----- whole forms -----

  predicate DistinctIgnoringCase(names: seq<string>) {
    forall j, k :: 0 <= j < k < |names| ==> Lower(names[j]) != Lower(names[k])
  }

  lemma {:induction false} ColumnFindsName(names: seq<string>, k: nat)
    requires DistinctIgnoringCase(names) && k < |names|
    ensures Column(names, Lower(names[k])) == Some(names[k])
  {
    if k < |names| - 1 {
      ColumnFindsName(names[..|names| - 1], k);
    }
  }

  /** The columns that print are columns of the form, and printing succeeds exactly on them. */
  lemma {:induction false} ActivePrints(names: seq<string>, form: Form)
    requires ColumnClauses(names, form).Ok?
    ensures AllOk(Active(names, form)) && ColumnClauses(names, form) == Ok(ColParts(Active(names, form)))
    ensures forall j :: 0 <= j < |Active(names, form)| ==> Active(names, form)[j].name in names
  {
    if names == [] {
      assert ColParts([]) == [];
    } else {
      var n, init := names[|names| - 1], names[..|names| - 1];
      ActivePrints(init, form);
      var cols := Active(names, form);
      if n in form.values && form.values[n] != [] && "" !in form.values[n] {
        assert BuildClause(n, form.values[n], ModeOf(form, n)).Ok?;
        var c := Col(n, form.modes[n], form.values[n]);
        assert ColOk(c) && cols == Active(init, form) + [c];
        assert ColParts(cols) == ColParts(Active(init, form)) + [ColClause(c)];
      } else {
        assert cols == Active(init, form) && ColumnClauses(names, form) == ColumnClauses(init, form);
      }
    }
  }

  /** Whatever form prints, its clause parses, and reading it gives one triple a value, sorted. */
  lemma FormReadsBack(names: seq<string>, form: Form)
    requires FromForm(names, form).Ok? && DistinctIgnoringCase(names)
    ensures AllReadable(Active(names, form))
    ensures ToJavaScript(names, FromForm(names, form).value) == Ok(Sort(Received(Active(names, form))))
  {
    ActivePrints(names, form);
    var cols := Active(names, form);
    forall k | 0 <= k < |cols|
      ensures Readable(cols[k].mode, cols[k].values) && Column(names, Lower(cols[k].name)) == Some(cols[k].name) {
      OkIsReadable(cols[k]);
      var j :| 0 <= j < |names| && names[j] == cols[k].name;
      ColumnFindsName(names, j);
    }
    if cols != [] { PrintedIsRead(names, form, cols); }
  }

  /** The printed clause is parsed as the form's tree. */
  lemma FormParses(cols: seq<Col>)
    requires cols != [] && AllOk(cols)
    ensures Parse(JoinTokens(ColParts(cols), AndT)) == Ok(Some(AndTree(FormE(cols))))
  {
    hide ColParts, JoinTokens;
    var ts := JoinTokens(ColParts(cols), AndT);
    FormTokens(cols);
    ParsesAnd(FormE(cols), []);
    assert AndTokens(FormE(cols)) + [] == ts;
    NotEmpty(FormE(cols).first.first.first);
  }

  lemma PrintedIsRead(names: seq<string>, form: Form, cols: seq<Col>)
    requires cols != [] && AllOk(cols) && AllReadable(cols)
    requires FromForm(names, form) == Ok(JoinTokens(ColParts(cols), AndT))
    requires forall k :: 0 <= k < |cols| ==> Column(names, Lower(cols[k].name)) == Some(cols[k].name)
    ensures ToJavaScript(names, FromForm(names, form).value) == Ok(Sort(Received(cols)))
  {
    hide FromForm, Column, Readable, ReceivedValues, Parse, ColParts, JoinTokens, Sort;
    FormParses(cols);
    ReadColumn(names, cols[0]);
    ReadFormTail(names, OrTree(Paren(cols[0])), cols[1..]);
  }

  // ----- when they are the form's own triples -----

  function ExpectedValues(name: string, mode: string, vs: seq<string>): seq<Triple> {
    if vs == [] then [] else [Triple(name, mode, Text(vs[0]))] + ExpectedValues(name, mode, vs[1..])
  }

  /** One triple for each value of each printing column. */
  function Expected(cols: seq<Col>): seq<Triple> {
    if cols == [] then [] else ExpectedValues(cols[0].name, cols[0].mode, cols[0].values) + Expected(cols[1..])
  }

  ghost predicate AllCarried(cols: seq<Col>) {
    forall j, k :: 0 <= j < |cols| && 0 <= k < |cols[j].values| ==> Carries(cols[j].mode, cols[j].values[k])
  }

  /** The number of value characters in a list of triples. */
  function TextLength(ts: seq<Triple>): nat {
    if ts == [] then 0 else (if ts[0].value.Text? then |ts[0].value.s| else 0) + TextLength(ts[1..])
  }

  lemma {:induction false} TextLengthAdds(a: seq<Triple>, b: seq<Triple>)
    ensures TextLength(a + b) == TextLength(a) + TextLength(b)
  {
    if a == [] {
      assert a + b == b;
    } else {
      assert (a + b)[1..] == a[1..] + b;
      TextLengthAdds(a[1..], b);
    }
  }

  lemma {:induction false} InsertTextLength(t: Triple, ts: seq<Triple>)
    ensures TextLength(Insert(t, ts)) == TextLength([t]) + TextLength(ts)
  {
    assert [t][1..] == [] && ([t] + ts)[1..] == ts;
    if ts != [] && !LexLe(Key(t), Key(ts[0])) {
      InsertTextLength(t, ts[1..]);
      assert ([ts[0]] + Insert(t, ts[1..]))[1..] == Insert(t, ts[1..]);
    }
  }

  lemma {:induction false} SortTextLength(ts: seq<Triple>)
    ensures TextLength(Sort(ts)) == TextLength(ts)
  {
    if ts != [] {
      SortTextLength(ts[1..]);
      InsertTextLength(ts[0], Sort(ts[1..]));
      assert [ts[0]][1..] == [];
    }
  }

  lemma {:induction false} ValuesCompare(name: string, mode: string, vs: seq<string>)
    requires KnownMode(mode) && "" !in vs && Readable(mode, vs)
    ensures var r, e := ReceivedValues(name, mode, vs), ExpectedValues(name, mode, vs);
            if forall k :: 0 <= k < |vs| ==> Carries(mode, vs[k]) then r == e else TextLength(r) < TextLength(e)
  {
    if vs != [] {
      assert vs[0] in vs;
      ValueRoundTrip(mode, vs[0]);
      assert forall x :: x in vs[1..] ==> x in vs;
      ValuesCompare(name, mode, vs[1..]);
      var r, e := ReceivedValues(name, mode, vs), ExpectedValues(name, mode, vs);
      assert r[1..] == ReceivedValues(name, mode, vs[1..]) && e[1..] == ExpectedValues(name, mode, vs[1..]);
      assert (forall k :: 0 <= k < |vs| ==> Carries(mode, vs[k]))
             <==> Carries(mode, vs[0]) && forall k :: 0 <= k < |vs[1..]| ==> Carries(mode, vs[1..][k]) by {
        if Carries(mode, vs[0]) && forall k :: 0 <= k < |vs[1..]| ==> Carries(mode, vs[1..][k]) {
          forall k | 0 <= k < |vs| ensures Carries(mode, vs[k]) { if k > 0 { assert vs[k] == vs[1..][k - 1]; } }
        }
      }
    }
  }

  lemma {:induction false} FormsCompare(cols: seq<Col>)
    requires AllOk(cols) && AllReadable(cols)
    ensures if AllCarried(cols) then Received(cols)
            == Expected(cols) else TextLength(Received(cols)) < TextLength(Expected(cols))
  {
    if cols != [] {
      var c := cols[0];
      ValuesCompare(c.name, c.mode, c.values);
      FormsCompare(cols[1..]);
      TextLengthAdds(ReceivedValues(c.name, c.mode, c.values), Received(cols[1..]));
      TextLengthAdds(ExpectedValues(c.name, c.mode, c.values), Expected(cols[1..]));
      assert AllCarried(cols) <==> AllCarried([c]) && AllCarried(cols[1..]) by {
        if AllCarried([c]) && AllCarried(cols[1..]) {
          forall j, k | 0 <= j < |cols| && 0 <= k < |cols[j].values| ensures Carries(cols[j].mode, cols[j].values[k]) {
            if j == 0 { assert [c][0] == cols[0]; } else { assert cols[1..][j - 1] == cols[j]; }
          }
        }
      }
      assert AllCarried([c]) <==> forall k :: 0 <= k < |c.values| ==> Carries(c.mode, c.values[k]) by {
        assert [c][0] == c;
      }
    }
  }

  /**
   The form round trip: the triples read back are the form's own, sorted, exactly when every mode can carry
   its values.
   */
  lemma FormRoundTrips(names: seq<string>, form: Form)
    requires FromForm(names, form).Ok? && DistinctIgnoringCase(names)
    ensures ToJavaScript(names, FromForm(names, form).value) == Ok(Sort(Expected(Active(names, form))))
            <==> AllCarried(Active(names, form))
  {
    FormReadsBack(names, form);
    ActivePrints(names, form);
    var cols := Active(names, form);
    FormsCompare(cols);
    SortTextLength(Received(cols));
    SortTextLength(Expected(cols));
  }
}
