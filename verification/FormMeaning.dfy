/** What a printed form selects: positive modes ask for one of the values, negative modes for none of them. */
module FormMeaning {
  import opened Wrappers
  import opened PyStrings
  import opened Quoting
  import opened LikePatterns
  import opened WhereGrammar
  import opened FormClauses
  import opened FormRoundTrip

  /** A row of the event table: the text in each column. */
  type Row = string -> string

  /** Whether a where clause over text columns is true of a row. */
  predicate Selects(t: Tree, row: Row) {
    if t.Node? && t.op == "and" then Selects(t.left, row) && Selects(t.right, row)
    else if t.Node? && t.op == "or" then Selects(t.left, row) || Selects(t.right, row)
    else t.Node? && t.left.Text? && t.right.Text? && Holds(t.op, t.right.s, row(t.left.s))
  }

  /** An empty clause selects everything. */
  predicate ClauseSelects(clause: seq<Token>, row: Row) {
    match Parse(clause)
    case Ok(None) => true
    case Ok(Some(t)) => Selects(t, row)
    case Err(_) => false
  }

  /** What a form's mode says of a value and the text in the column. */
  predicate Matches(mode: string, v: string, x: string) {
    if mode in ["~", "!~"] then Contains(x, v)
    else if mode == "^" then StartsWith(x, v)
    else if mode == "$" then EndsWith(x, v)
    else x == v
  }

  predicate Asks(form: Form, n: string) {
    n in form.values && form.values[n] != [] && "" !in form.values[n]
  }

  /** Is, contains, begins with or ends with some of the values; for the two negated modes, none of them. */
  predicate Fits(mode: string, values: seq<string>, x: string) {
    if mode in ["!", "!~"] then forall v :: v in values ==> !Matches(mode, v, x)
    else exists v :: v in values && Matches(mode, v, x)
  }

  /** A value the clause says under its mode: quotable for = and !=, without wildcards for the patterns. */
  ghost predicate Sayable(mode: string, v: string) {
    if mode in ["", "!"] then Quotable(v) else WildFree(v)
  }

  // ----- one value -----

  /** The comparison printed for one value, as it is parsed. */
  predicate Says(mode: string, v: string, x: string) {
    Holds(OpName(Operator(mode)), U(Q(Pattern(mode, v))), x)
  }

  lemma PatternIsRead(mode: string, v: string)
    requires mode in ["~", "!~", "^", "$"]
    ensures U(Q(Pattern(mode, v))) == Pattern(mode, v)
  {
    var p := Pattern(mode, v);
    UnquoteUndoesQuote(p);
    assert p[0] == '%' || p[|p| - 1] == '%';
  }

  lemma SayableSays(mode: string, v: string, x: string)
    requires KnownMode(mode) && Sayable(mode, v)
    ensures Says(mode, v, x) <==> (Matches(mode, v, x) != (mode in ["!", "!~"]))
  {
    hide Q, U, Like;
    if mode in ["~", "!~", "^", "$"] {
      PatternIsRead(mode, v);
      LikeInfix(v, x);
      LikePrefix(v, x);
      LikeSuffix(v, x);
    } else {
      UnquoteUndoesQuote(v);
    }
  }

  /** The printed comparison says what the form's mode says, of every text, exactly for the sayable values. */
  lemma SayableIsExact(mode: string, v: string)
    requires KnownMode(mode) && v != ""
    ensures (forall x :: Says(mode, v, x) <==> (Matches(mode, v, x) != (mode in ["!", "!~"]))) <==> Sayable(mode, v)
  {
    if Sayable(mode, v) {
      forall x ensures Says(mode, v, x) <==> (Matches(mode, v, x) != (mode in ["!", "!~"])) { SayableSays(mode, v, x); }
    } else if mode in ["", "!"] {
      UnquoteUndoesQuote(v);
      assert Says(mode, v, v) == (mode == "!") && Matches(mode, v, v);
    } else {
      PatternIsRead(mode, v);
      var x := Filled(Pattern(mode, v));
      FilledMatches(Pattern(mode, v));
      if Matches(mode, v, x) { OccurrenceIsWildFree(v, x); }
      assert Says(mode, v, x) == (mode != "!~") && !Matches(mode, v, x);
    }
  }

  // ----- one column -----

  ghost predicate AllSayable(mode: string, vs: seq<string>) {
    forall v :: v in vs ==> Sayable(mode, v)
  }

  lemma BinSelects(name: string, mode: string, v: string, row: Row)
    requires KnownMode(mode) && Sayable(mode, v)
    ensures Selects(BinTree(BinOf(name, mode, v)), row) <==> (Matches(mode, v, row(name)) != (mode in ["!", "!~"]))
  {
    hide Q, U, Holds;
    SayableSays(mode, v, row(name));
    var bin := BinOf(name, mode, v);
    QuotedIsText(Pattern(mode, v));
    assert FoldBin(Text(name), bin.more) == Node(OpName(Operator(mode)), Text(name), Text(U(Q(Pattern(mode, v)))));
    OperatorIsNoConnective(mode);
  }

  lemma QuotedIsText(p: string)
    ensures Q(p) != "" && Unquoted(Q(p)) == U(Q(p))
  {
  }

  lemma OperatorIsNoConnective(mode: string)
    requires KnownMode(mode)
    ensures OpName(Operator(mode)) != "and" && OpName(Operator(mode)) != "or"
  {
    var op := OpName(Operator(mode));
    assert op == "not like" || op == "=" || op == "!=" || op == "like";
    assert |"not like"| == 8 && |"!="| == 2 && |"like"| == 4 && |"="| == 1 && |"and"| == 3 && |"or"| == 2;
    assert "!="[0] == '!' && "or"[0] == 'o';
  }

  lemma {:induction false} OrTailSelects(name: string, mode: string, acc: Tree, vs: seq<string>, row: Row)
    requires KnownMode(mode) && AllSayable(mode, vs) && mode !in ["!", "!~"]
    ensures Selects(FoldOr(acc, OrTailOf(name, mode, vs)), row) <==> Selects(acc, row) || Fits(mode, vs, row(name))
    decreases |vs|
  {
    hide Matches, Sayable;
    if vs != [] {
      var t := BinTree(BinOf(name, mode, vs[0]));
      assert vs[0] in vs && forall v :: v in vs <==> v == vs[0] || v in vs[1..];
      BinSelects(name, mode, vs[0], row);
      OrTailSelects(name, mode, Node("or", acc, t), vs[1..], row);
      assert Fits(mode, vs, row(name)) <==> Matches(mode, vs[0], row(name)) || Fits(mode, vs[1..], row(name));
    }
  }

  lemma {:induction false} AndTailSelects(name: string, mode: string, acc: Tree, vs: seq<string>, row: Row)
    requires KnownMode(mode) && AllSayable(mode, vs) && mode in ["!", "!~"]
    ensures Selects(FoldAnd(acc, AndTailOf(name, mode, vs)), row) <==> Selects(acc, row) && Fits(mode, vs, row(name))
    decreases |vs|
  {
    hide Matches, Sayable;
    if vs != [] {
      var t := BinTree(BinOf(name, mode, vs[0]));
      assert OrTree(OrE(BinOf(name, mode, vs[0]), NoOr)) == t;
      assert vs[0] in vs && forall v :: v in vs <==> v == vs[0] || v in vs[1..];
      BinSelects(name, mode, vs[0], row);
      AndTailSelects(name, mode, Node("and", acc, t), vs[1..], row);
      assert Fits(mode, vs, row(name)) <==> !Matches(mode, vs[0], row(name)) && Fits(mode, vs[1..], row(name));
    }
  }

  /** A column's clause is true exactly of the rows its mode and values fit. */
  lemma ColumnSelects(c: Col, row: Row)
    requires ColOk(c) && AllSayable(c.mode, c.values)
    ensures Selects(OrTree(Paren(c)), row) <==> Fits(c.mode, c.values, row(c.name))
  {
    hide Matches, Sayable, Selects;
    var first, more := BinOf(c.name, c.mode, c.values[0]), c.values[1..];
    assert c.values[0] in c.values && forall v :: v in c.values <==> v == c.values[0] || v in more;
    BinSelects(c.name, c.mode, c.values[0], row);
    ParenTree(c);
    if c.mode in ["!", "!~"] {
      AndTailSelects(c.name, c.mode, BinTree(first), more, row);
      assert OrTree(OrE(first, NoOr)) == BinTree(first);
    } else {
      OrTailSelects(c.name, c.mode, BinTree(first), more, row);
      assert FoldAnd(OrTree(ColE(c).first), NoAnd) == OrTree(ColE(c).first);
    }
  }

  // ----- whole forms -----

  ghost predicate AllFit(cols: seq<Col>, row: Row) {
    forall c :: c in cols ==> Fits(c.mode, c.values, row(c.name))
  }

  ghost predicate ColsSayable(cols: seq<Col>) {
    forall c :: c in cols ==> AllSayable(c.mode, c.values)
  }

  lemma {:induction false} FormTailSelects(acc: Tree, cols: seq<Col>, row: Row)
    requires AllOk(cols) && ColsSayable(cols)
    ensures Selects(FoldAnd(acc, FormTail(cols)), row) <==> Selects(acc, row) && AllFit(cols, row)
    decreases |cols|
  {
    hide Fits, AllSayable;
    if cols != [] {
      assert cols[0] in cols && forall c :: c in cols <==> c == cols[0] || c in cols[1..];
      ColumnSelects(cols[0], row);
      FormTailSelects(Node("and", acc, OrTree(Paren(cols[0]))), cols[1..], row);
    }
  }

  /** The active columns are those the form asks about, each with its mode and values. */
  lemma {:induction false} ActiveAre(names: seq<string>, form: Form, c: Col)
    requires FromForm(names, form).Ok?
    ensures c in Active(names, form)
            <==> c.name in names && Asks(form, c.name) && c.name in form.modes
                 && c.mode == form.modes[c.name] && c.values == form.values[c.name]
  {
    if names != [] {
      var init, n := names[..|names| - 1], names[|names| - 1];
      assert forall m :: m in names <==> m == n || m in init;
      ActiveAre(init, form, c);
    }
  }

  /** A form prints exactly when each column it asks about has one of the six modes; otherwise joining None raises. */
  lemma {:induction false} FormPrints(names: seq<string>, form: Form)
    ensures FromForm(names, form).Ok?
            <==> forall n :: n in names && Asks(form, n)
                             ==> n in form.modes && form.modes[n] in ["", "!", "~", "!~", "^", "$"]
    ensures FromForm(names, form).Err? ==> FromForm(names, form) == Err(TypeError)
  {
    if names != [] {
      var init, n := names[..|names| - 1], names[|names| - 1];
      assert forall m :: m in names <==> m == n || m in init;
      FormPrints(init, form);
    }
  }

  /**
   A printed form, parsed as a where clause, selects exactly the rows in which each column the form asks about fits its
   mode and values.
   */
  lemma FormSelects(names: seq<string>, form: Form, row: Row)
    requires FromForm(names, form).Ok?
    requires forall n, v :: n in names && Asks(form, n) && n in form.modes && v in form.values[n]
                            ==> Sayable(form.modes[n], v)
    ensures ClauseSelects(FromForm(names, form).value, row)
            <==> forall n :: n in names && Asks(form, n)
                             ==> n in form.modes && Fits(form.modes[n], form.values[n], row(n))
  {
    hide Fits, Sayable, FromForm;
    var cols := Active(names, form);
    FormPrints(names, form);
    forall c | c in cols ensures AllSayable(c.mode, c.values) { ActiveAre(names, form, c); }
    PrintedSelects(names, form, row);
    if AllFit(cols, row) {
      forall n | n in names && Asks(form, n) ensures n in form.modes && Fits(form.modes[n], form.values[n], row(n)) {
        ActiveAre(names, form, Col(n, form.modes[n], form.values[n]));
      }
    } else {
      var c :| c in cols && !Fits(c.mode, c.values, row(c.name));
      ActiveAre(names, form, c);
    }
  }

  lemma PrintedSelects(names: seq<string>, form: Form, row: Row)
    requires FromForm(names, form).Ok? && ColsSayable(Active(names, form))
    ensures ClauseSelects(FromForm(names, form).value, row) <==> AllFit(Active(names, form), row)
  {
    hide Fits, AllSayable, Selects;
    ActivePrints(names, form);
    var cols := Active(names, form);
    if cols != [] {
      FormParses(cols);
      assert cols[0] in cols && forall c :: c in cols <==> c == cols[0] || c in cols[1..];
      ColumnSelects(cols[0], row);
      FormTailSelects(OrTree(Paren(cols[0])), cols[1..], row);
    }
  }

  // ----- the order of the triples -----

  lemma {:induction false} KeysCompare(a: string, b: string, x: seq<int>, y: seq<int>)
    ensures LexLe(StringKey(a) + x, StringKey(b) + y) <==> LessText(a, b) || (a == b && LexLe(x, y))
  {
    var k, l := StringKey(a) + x, StringKey(b) + y;
    if a == "" {
      assert k == [0] + x && k[1..] == x;
      if b == "" { assert l == [0] + y && l[1..] == y; } else { assert l[0] == b[0] as int + 1; }
    } else if b == "" {
      assert k[0] == a[0] as int + 1 && l[0] == 0;
    } else {
      assert k[0] == a[0] as int + 1 && l[0] == b[0] as int + 1;
      assert k[1..] == StringKey(a[1..]) + x && l[1..] == StringKey(b[1..]) + y;
      KeysCompare(a[1..], b[1..], x, y);
      assert a == b <==> a[0] == b[0] && a[1..] == b[1..] by {
        assert a == [a[0]] + a[1..] && b == [b[0]] + b[1..];
      }
    }
  }

  /** Python's order on the values: numbers before strings. */
  predicate ValueLe(a: Tree, b: Tree)
    requires !a.Node? && !b.Node?
  {
    if a.Number? then b.Text? || a.n <= b.n else b.Text? && (LessText(a.s, b.s) || a.s == b.s)
  }

  lemma ValuesCompare(a: Tree, b: Tree)
    requires !a.Node? && !b.Node?
    ensures LexLe(TreeKey(a), TreeKey(b)) <==> ValueLe(a, b)
  {
    if a.Text? && b.Text? {
      KeysCompare(a.s, b.s, [], []);
      assert StringKey(a.s) + [] == StringKey(a.s) && StringKey(b.s) + [] == StringKey(b.s);
    }
    if a.Number? && b.Number? {
      assert [a.n][1..] == [] && [b.n][1..] == [] && (LexLe([a.n], [b.n]) <==> a.n <= b.n);
      assert [0, a.n][1..] == [a.n] && [0, b.n][1..] == [b.n];
    }
  }

  /** Triples are sorted by column name, then by mode, then by value. */
  lemma TriplesInOrder(t: Triple, u: Triple)
    requires !t.value.Node? && !u.value.Node?
    ensures LexLe(Key(t), Key(u))
            <==> || LessText(t.name, u.name)
                 || (t.name == u.name && LessText(t.mode, u.mode))
                 || (t.name == u.name && t.mode == u.mode && ValueLe(t.value, u.value))
  {
    KeysCompare(t.name, u.name, StringKey(t.mode) + TreeKey(t.value), StringKey(u.mode) + TreeKey(u.value));
    KeysCompare(t.mode, u.mode, TreeKey(t.value), TreeKey(u.value));
    ValuesCompare(t.value, u.value);
    KeyParts(t);
    KeyParts(u);
  }

  lemma KeyParts(t: Triple)
    ensures Key(t) == StringKey(t.name) + (StringKey(t.mode) + TreeKey(t.value))
  {
  }

  // ----- reading clauses that were not printed for a form -----

  /** What the walk makes of one comparison: nothing on an unknown column, a number only under = and !=. */
  lemma ComparisonIsRead(names: seq<string>, op: string, n: string, v: Tree)
    requires op != "and" && op != "or"
    ensures var r, c := ReadTree(names, Node(op, Text(n), v)), Column(names, Lower(n));
            && (c.None? ==> r == Ok([]))
            && (c.Some? && !v.Text? && op == "=" ==> r == Ok([Triple(c.value, "", v)]))
            && (c.Some? && !v.Text? && op == "!=" ==> r == Ok([Triple(c.value, "!", v)]))
            && (c.Some? && !v.Text? && op != "=" && op != "!=" ==> r.Err?)
            && (c.Some? && v.Text? && op in ["=", "!="]
                ==> r == Ok([Triple(c.value, if op == "=" then "" else "!", v)]))
  {
  }

  /** A column is found under its name in any case; of names that differ in case only the last. */
  lemma {:induction false} ColumnIsFound(names: seq<string>, n: string)
    ensures Column(names, Lower(n)).None? <==> forall c :: c in names ==> Lower(c) != Lower(n)
    ensures Column(names, Lower(n)).Some? ==> Lower(Column(names, Lower(n)).value) == Lower(n)
    ensures forall k :: 0 <= k < |names| && Lower(names[k]) == Lower(n)
                        && (forall j :: k < j < |names| ==> Lower(names[j]) != Lower(n))
                        ==> Column(names, Lower(n)) == Some(names[k])
  {
    if names != [] {
      var init := names[..|names| - 1];
      assert forall c :: c in names <==> c == names[|names| - 1] || c in init;
      assert forall k :: 0 <= k < |init| ==> init[k] == names[k];
      ColumnIsFound(init, n);
    }
  }
}
