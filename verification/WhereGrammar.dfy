/**
 The where-clause grammar on tokens: and binds looser than or, every level is
 left-associative.  The recursive descent parser is proved to accept exactly
 the token lists the grammar derives, and to build the derived tree.
 */
module WhereGrammar {
  import opened Wrappers
  import opened PyStrings
  import opened Quoting

  datatype Token =
    | AndT | OrT | NotT | LikeT
    | BinT(op: string)     // >= <= == = < > != <>
    | NumT(n: int)
    | VarT(name: string)
    | StrT(text: string)   // with its quotes
    | OpenT | CloseT

  /** The nested tuples of the parser; a column name and a quoted string both come out as text. */
  datatype Tree = Number(n: int) | Text(s: string) | Node(op: string, left: Tree, right: Tree)

  datatype Parsed = Fail | Got(tree: Tree, rest: seq<Token>)

  function Unquoted(text: string): string {
    if text == "" then "" else U(text)
  }

  // ----- the parser -----

  function ParseAnd(ts: seq<Token>): (r: Parsed)
    ensures r.Got? ==> |r.rest| < |ts|
    decreases |ts|, 8
  {
    var r := ParseOr(ts);
    if r.Fail? then Fail else AndLoop(r.tree, r.rest)
  }

  function AndLoop(acc: Tree, ts: seq<Token>): (r: Parsed)
    ensures r.Got? ==> |r.rest| <= |ts|
    decreases |ts|, 7
  {
    if ts == [] || ts[0] != AndT then Got(acc, ts) else
    var r := ParseOr(ts[1..]);
    if r.Fail? then Fail else AndLoop(Node("and", acc, r.tree), r.rest)
  }

  function ParseOr(ts: seq<Token>): (r: Parsed)
    ensures r.Got? ==> |r.rest| < |ts|
    decreases |ts|, 6
  {
    var r := ParseBinary(ts);
    if r.Fail? then Fail else OrLoop(r.tree, r.rest)
  }

  function OrLoop(acc: Tree, ts: seq<Token>): (r: Parsed)
    ensures r.Got? ==> |r.rest| <= |ts|
    decreases |ts|, 5
  {
    if ts == [] || ts[0] != OrT then Got(acc, ts) else
    var r := ParseBinary(ts[1..]);
    if r.Fail? then Fail else OrLoop(Node("or", acc, r.tree), r.rest)
  }

  function ParseBinary(ts: seq<Token>): (r: Parsed)
    ensures r.Got? ==> |r.rest| < |ts|
    decreases |ts|, 4
  {
    var r := ParseTerm(ts);
    if r.Fail? then Fail else BinaryLoop(r.tree, r.rest)
  }

  function BinaryLoop(acc: Tree, ts: seq<Token>): (r: Parsed)
    ensures r.Got? ==> |r.rest| <= |ts|
    decreases |ts|, 3
  {
    if ts != [] && ts[0].BinT? then
      var r := ParseTerm(ts[1..]);
      if r.Fail? then Fail else BinaryLoop(Node(ts[0].op, acc, r.tree), r.rest)
    else if ts != [] && ts[0].LikeT? then
      var r := ParseTerm(ts[1..]);
      if r.Fail? then Fail else BinaryLoop(Node("like", acc, r.tree), r.rest)
    else if ts != [] && ts[0].NotT? then
      if |ts| < 2 || !ts[1].LikeT? then Fail else
      var r := ParseTerm(ts[2..]);
      if r.Fail? then Fail else BinaryLoop(Node("not like", acc, r.tree), r.rest)
    else Got(acc, ts)
  }

  function ParseTerm(ts: seq<Token>): (r: Parsed)
    ensures r.Got? ==> |r.rest| < |ts|
    decreases |ts|, 2
  {
    if ts == [] then Fail else
    match ts[0]
    case NumT(n) => Got(Number(n), ts[1..])
    case VarT(name) => Got(Text(name), ts[1..])
    case StrT(text) => Got(Text(Unquoted(text)), ts[1..])
    case OpenT =>
      var r := ParseAnd(ts[1..]);
      if r.Fail? || r.rest == [] || !r.rest[0].CloseT? then Fail else Got(r.tree, r.rest[1..])
    case _ => Fail
  }

  /** The rule goal: an optional expression, then the end. */
  function Parse(ts: seq<Token>): Result<Option<Tree>> {
    if ts == [] then Ok(None) else
    var r := ParseAnd(ts);
    if r.Got? && r.rest == [] then Ok(Some(r.tree)) else Err(SyntaxError)
  }

  // ----- the grammar: derivations, what they derive, the tree they stand for -----

  datatype AndE = AndE(first: OrE, more: AndTail)
  datatype AndTail = NoAnd | MoreAnd(e: OrE, more: AndTail)
  datatype OrE = OrE(first: BinE, more: OrTail)
  datatype OrTail = NoOr | MoreOr(e: BinE, more: OrTail)
  datatype BinE = BinE(first: TermE, more: BinTail)
  datatype BinTail = NoBin | MoreBin(op: CmpOp, t: TermE, more: BinTail)
  datatype CmpOp = BinOp(op: string) | LikeOp | NotLikeOp
  datatype TermE = NumE(n: int) | VarE(name: string) | StrE(text: string) | ParenE(e: AndE)

  function AndTokens(e: AndE): seq<Token> { OrTokens(e.first) + AndTailTokens(e.more) }
  function AndTailTokens(m: AndTail): seq<Token> {
    if m.NoAnd? then [] else [AndT] + (OrTokens(m.e) + AndTailTokens(m.more))
  }
  function OrTokens(e: OrE): seq<Token> { BinTokens(e.first) + OrTailTokens(e.more) }
  function OrTailTokens(m: OrTail): seq<Token> {
    if m.NoOr? then [] else [OrT] + (BinTokens(m.e) + OrTailTokens(m.more))
  }
  function BinTokens(e: BinE): seq<Token> { TermTokens(e.first) + BinTailTokens(e.more) }
  function BinTailTokens(m: BinTail): seq<Token> {
    if m.NoBin? then [] else OpTokens(m.op) + (TermTokens(m.t) + BinTailTokens(m.more))
  }
  function OpTokens(op: CmpOp): seq<Token> {
    match op case BinOp(s) => [BinT(s)] case LikeOp => [LikeT] case NotLikeOp => [NotT, LikeT]
  }
  function TermTokens(t: TermE): seq<Token> {
    match t
    case NumE(n) => [NumT(n)]
    case VarE(name) => [VarT(name)]
    case StrE(text) => [StrT(text)]
    case ParenE(e) => [OpenT] + (AndTokens(e) + [CloseT])
  }

  function AndTree(e: AndE): Tree { FoldAnd(OrTree(e.first), e.more) }
  function FoldAnd(acc: Tree, m: AndTail): Tree
    decreases m
  {
    if m.NoAnd? then acc else FoldAnd(Node("and", acc, OrTree(m.e)), m.more)
  }
  function OrTree(e: OrE): Tree { FoldOr(BinTree(e.first), e.more) }
  function FoldOr(acc: Tree, m: OrTail): Tree
    decreases m
  {
    if m.NoOr? then acc else FoldOr(Node("or", acc, BinTree(m.e)), m.more)
  }
  function BinTree(e: BinE): Tree { FoldBin(TermTree(e.first), e.more) }
  function FoldBin(acc: Tree, m: BinTail): Tree
    decreases m
  {
    if m.NoBin? then acc else FoldBin(Node(OpName(m.op), acc, TermTree(m.t)), m.more)
  }
  function OpName(op: CmpOp): string {
    match op case BinOp(s) => s case LikeOp => "like" case NotLikeOp => "not like"
  }
  function TermTree(t: TermE): Tree {
    match t
    case NumE(n) => Number(n)
    case VarE(name) => Text(name)
    case StrE(text) => Text(Unquoted(text))
    case ParenE(e) => AndTree(e)
  }

  /** What may follow a derivation of each level without being taken into it. */
  predicate EndsBin(rest: seq<Token>) { rest == [] || !(rest[0].BinT? || rest[0].LikeT? || rest[0].NotT?) }
  predicate EndsOr(rest: seq<Token>) { EndsBin(rest) && (rest == [] || !rest[0].OrT?) }
  predicate EndsAnd(rest: seq<Token>) { EndsOr(rest) && (rest == [] || !rest[0].AndT?) }

  // ----- the parser follows every derivation -----

  lemma TokensRegroup(a: seq<Token>, b: seq<Token>, c: seq<Token>, d: seq<Token>)
    ensures (a + (b + c)) + d == a + (b + (c + d))
  {
  }

  lemma SplitHeadToken(ts: seq<Token>, n: nat)
    requires n <= |ts|
    ensures ts == ts[..n] + ts[n..]
  {
  }

  lemma {:induction false} ParsesAnd(e: AndE, rest: seq<Token>)
    requires EndsAnd(rest)
    ensures ParseAnd(AndTokens(e) + rest) == Got(AndTree(e), rest)
    decreases e, 1
  {
    assert AndTokens(e) + rest == OrTokens(e.first) + (AndTailTokens(e.more) + rest);
    ParsesOr(e.first, AndTailTokens(e.more) + rest);
    LoopsAnd(OrTree(e.first), e.more, rest);
  }

  lemma {:induction false} LoopsAnd(acc: Tree, m: AndTail, rest: seq<Token>)
    requires EndsAnd(rest)
    ensures EndsOr(AndTailTokens(m) + rest)
    ensures AndLoop(acc, AndTailTokens(m) + rest) == Got(FoldAnd(acc, m), rest)
    decreases m, 0
  {
    var ts := AndTailTokens(m) + rest;
    if m.NoAnd? {
      assert ts == rest;
    } else {
      assert ts[0] == AndT && ts[1..] == OrTokens(m.e) + (AndTailTokens(m.more) + rest);
      LoopsAnd(Node("and", acc, OrTree(m.e)), m.more, rest);
      ParsesOr(m.e, AndTailTokens(m.more) + rest);
    }
  }

  lemma {:induction false} ParsesOr(e: OrE, rest: seq<Token>)
    requires EndsOr(rest)
    ensures ParseOr(OrTokens(e) + rest) == Got(OrTree(e), rest)
    decreases e, 1
  {
    assert OrTokens(e) + rest == BinTokens(e.first) + (OrTailTokens(e.more) + rest);
    LoopsOr(BinTree(e.first), e.more, rest);
    ParsesBinary(e.first, OrTailTokens(e.more) + rest);
  }

  lemma {:induction false} LoopsOr(acc: Tree, m: OrTail, rest: seq<Token>)
    requires EndsOr(rest)
    ensures EndsBin(OrTailTokens(m) + rest)
    ensures OrLoop(acc, OrTailTokens(m) + rest) == Got(FoldOr(acc, m), rest)
    decreases m, 0
  {
    var ts := OrTailTokens(m) + rest;
    if m.NoOr? {
      assert ts == rest;
    } else {
      assert ts[0] == OrT && ts[1..] == BinTokens(m.e) + (OrTailTokens(m.more) + rest);
      LoopsOr(Node("or", acc, BinTree(m.e)), m.more, rest);
      ParsesBinary(m.e, OrTailTokens(m.more) + rest);
    }
  }

  lemma {:induction false} ParsesBinary(e: BinE, rest: seq<Token>)
    requires EndsBin(rest)
    ensures ParseBinary(BinTokens(e) + rest) == Got(BinTree(e), rest)
    decreases e, 1
  {
    assert BinTokens(e) + rest == TermTokens(e.first) + (BinTailTokens(e.more) + rest);
    ParsesTerm(e.first, BinTailTokens(e.more) + rest);
    LoopsBinary(TermTree(e.first), e.more, rest);
  }

  lemma AfterOp(op: CmpOp, after: seq<Token>)
    ensures var ts := OpTokens(op) + after; var n := |OpTokens(op)|;
            ts[..n] == OpTokens(op) && ts[n..] == after
    ensures op.BinOp? ==> (OpTokens(op) + after)[0] == BinT(op.op)
    ensures op.LikeOp? ==> (OpTokens(op) + after)[0] == LikeT
    ensures op.NotLikeOp? ==> (OpTokens(op) + after)[0] == NotT && (OpTokens(op) + after)[1] == LikeT
  {
  }

  lemma {:induction false} LoopsBinary(acc: Tree, m: BinTail, rest: seq<Token>)
    requires EndsBin(rest)
    ensures BinaryLoop(acc, BinTailTokens(m) + rest) == Got(FoldBin(acc, m), rest)
    decreases m, 0
  {
    var ts := BinTailTokens(m) + rest;
    if m.NoBin? {
      assert ts == rest;
    } else {
      var after := TermTokens(m.t) + (BinTailTokens(m.more) + rest);
      TokensRegroup(OpTokens(m.op), TermTokens(m.t), BinTailTokens(m.more), rest);
      ParsesTerm(m.t, BinTailTokens(m.more) + rest);
      LoopsBinary(Node(OpName(m.op), acc, TermTree(m.t)), m.more, rest);
      AfterOp(m.op, after);
    }
  }

  lemma {:induction false} ParsesTerm(t: TermE, rest: seq<Token>)
    ensures ParseTerm(TermTokens(t) + rest) == Got(TermTree(t), rest)
    decreases t, 0
  {
    var ts := TermTokens(t) + rest;
    if t.ParenE? {
      assert ts[0] == OpenT && ts[1..] == AndTokens(t.e) + ([CloseT] + rest);
      ParsesAnd(t.e, [CloseT] + rest);
      assert ([CloseT] + rest)[1..] == rest;
    } else {
      assert ts[1..] == rest;
    }
  }

  // ----- and accepts nothing else -----

  lemma {:induction false} AndIsDerived(ts: seq<Token>) returns (e: AndE)
    requires ParseAnd(ts).Got?
    ensures ts == AndTokens(e) + ParseAnd(ts).rest && ParseAnd(ts).tree == AndTree(e)
    decreases |ts|, 8
  {
    var r := ParseOr(ts);
    var first := OrIsDerived(ts);
    var more := AndLoopIsDerived(r.tree, r.rest);
    e := AndE(first, more);
  }

  lemma {:induction false} AndLoopIsDerived(acc: Tree, ts: seq<Token>) returns (m: AndTail)
    requires AndLoop(acc, ts).Got?
    ensures ts == AndTailTokens(m) + AndLoop(acc, ts).rest && AndLoop(acc, ts).tree == FoldAnd(acc, m)
    decreases |ts|, 7
  {
    if ts == [] || ts[0] != AndT {
      m := NoAnd;
    } else {
      var r := ParseOr(ts[1..]);
      var e := OrIsDerived(ts[1..]);
      var more := AndLoopIsDerived(Node("and", acc, r.tree), r.rest);
      m := MoreAnd(e, more);
      TokensRegroup([AndT], OrTokens(e), AndTailTokens(more), AndLoop(acc, ts).rest);
      SplitHeadToken(ts, 1);
    }
  }

  lemma {:induction false} OrIsDerived(ts: seq<Token>) returns (e: OrE)
    requires ParseOr(ts).Got?
    ensures ts == OrTokens(e) + ParseOr(ts).rest && ParseOr(ts).tree == OrTree(e)
    decreases |ts|, 6
  {
    hide OrLoop, ParseBinary, BinTokens, BinTree, OrTailTokens, FoldOr;
    var r := ParseBinary(ts);
    var first := BinaryIsDerived(ts);
    var more := OrLoopIsDerived(r.tree, r.rest);
    e := OrE(first, more);
  }

  lemma {:induction false} OrLoopIsDerived(acc: Tree, ts: seq<Token>) returns (m: OrTail)
    requires OrLoop(acc, ts).Got?
    ensures ts == OrTailTokens(m) + OrLoop(acc, ts).rest && OrLoop(acc, ts).tree == FoldOr(acc, m)
    decreases |ts|, 5
  {
    if ts == [] || ts[0] != OrT {
      m := NoOr;
    } else {
      var r := ParseBinary(ts[1..]);
      var e := BinaryIsDerived(ts[1..]);
      var more := OrLoopIsDerived(Node("or", acc, r.tree), r.rest);
      m := MoreOr(e, more);
      TokensRegroup([OrT], BinTokens(e), OrTailTokens(more), OrLoop(acc, ts).rest);
      SplitHeadToken(ts, 1);
    }
  }

  lemma {:induction false} BinaryIsDerived(ts: seq<Token>) returns (e: BinE)
    requires ParseBinary(ts).Got?
    ensures ts == BinTokens(e) + ParseBinary(ts).rest && ParseBinary(ts).tree == BinTree(e)
    decreases |ts|, 4
  {
    var r := ParseTerm(ts);
    var first := TermIsDerived(ts);
    var more := BinaryLoopIsDerived(r.tree, r.rest);
    e := BinE(first, more);
  }

  lemma {:induction false} BinaryLoopIsDerived(acc: Tree, ts: seq<Token>) returns (m: BinTail)
    requires BinaryLoop(acc, ts).Got?
    ensures ts == BinTailTokens(m) + BinaryLoop(acc, ts).rest && BinaryLoop(acc, ts).tree == FoldBin(acc, m)
    decreases |ts|, 3
  {
    if EndsBin(ts) {
      m := NoBin;
    } else {
      var op := if ts[0].BinT? then BinOp(ts[0].op) else if ts[0].LikeT? then LikeOp else NotLikeOp;
      var n := |OpTokens(op)|;
      var r := ParseTerm(ts[n..]);
      var t := TermIsDerived(ts[n..]);
      var more := BinaryLoopIsDerived(Node(OpName(op), acc, r.tree), r.rest);
      m := MoreBin(op, t, more);
      TokensRegroup(OpTokens(op), TermTokens(t), BinTailTokens(more), BinaryLoop(acc, ts).rest);
      SplitHeadToken(ts, n);
      assert ts[..n] == OpTokens(op);
    }
  }

  lemma {:induction false} TermIsDerived(ts: seq<Token>) returns (t: TermE)
    requires ParseTerm(ts).Got?
    ensures ts == TermTokens(t) + ParseTerm(ts).rest && ParseTerm(ts).tree == TermTree(t)
    decreases |ts|, 2
  {
    match ts[0]
    case NumT(n) => t := NumE(n);
    case VarT(name) => t := VarE(name);
    case StrT(text) => t := StrE(text);
    case OpenT =>
      var e := AndIsDerived(ts[1..]);
      t := ParenE(e);
      var r := ParseAnd(ts[1..]);
      assert ts == [OpenT] + (AndTokens(e) + ([r.rest[0]] + r.rest[1..]));
  }

  /** The parser accepts exactly what the grammar derives, and yields exactly the derived tree. */
  lemma ParserIsTheGrammar(ts: seq<Token>, t: Tree)
    ensures Parse(ts) == Ok(Some(t)) <==> exists e: AndE :: AndTokens(e) == ts && AndTree(e) == t
    ensures Parse(ts) == Err(SyntaxError) <==> ts != [] && forall e: AndE :: AndTokens(e) != ts
    ensures Parse(ts) == Ok(None) <==> ts == []
  {
    if Parse(ts) == Ok(Some(t)) {
      var e := AndIsDerived(ts);
      assert AndTokens(e) == ts;
    }
    forall e: AndE | AndTokens(e) == ts ensures Parse(ts) == Ok(Some(AndTree(e))) {
      ParsesAnd(e, []);
      assert AndTokens(e) + [] == ts;
      NotEmpty(e.first.first.first);
    }
    if ts != [] && Parse(ts).Ok? {
      var e := AndIsDerived(ts);
      assert AndTokens(e) == ts;
    }
  }

  lemma NotEmpty(t: TermE)
    ensures TermTokens(t) != []
  {
  }

  /** A token list has at most one meaning. */
  lemma GrammarIsUnambiguous(e: AndE, f: AndE)
    requires AndTokens(e) == AndTokens(f)
    ensures AndTree(e) == AndTree(f)
  {
    ParsesAnd(e, []);
    ParsesAnd(f, []);
  }
}
