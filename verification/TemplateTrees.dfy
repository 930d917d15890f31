/** Templates as trees, how they are printed, and when the nodes a parser has built are a tree. */
module TemplateTrees {
  import opened Space
  import opened ExpressionParser
  import opened StatementParser

  datatype Tree =
    | TText(s: string)
    | TExpr(e: Expr)
    | TIf(cond: Expr, body: seq<Tree>, els: Else)
    | TFor(key: Option<string>, value: string, cond: Expr, body: seq<Tree>)
    | TBlock(name: string, body: seq<Tree>)

  datatype Else = NoElse | ElseBody(body: seq<Tree>) | ElseIf(cond: Expr, body: seq<Tree>, els: Else)

  // ---------- Printing ----------

  function Stmt(body: seq<Token>): (r: seq<Token>)
    ensures |r| == |body| + 2
  {
    [Other(StatementOpen)] + body + [Other(StatementClose)]
  }

  function PrintTree(t: Tree): (r: seq<Token>)
    ensures |r| > 0
    decreases t, 1
  {
    match t
    case TText(s) => [Other(Text(s))]
    case TExpr(e) => [Other(ExpressionOpen)] + Print(e) + [Other(ExpressionClose)]
    case TIf(c, b, els) => Stmt([Id("if")] + Print(c)) + PrintAll(b) + PrintElse(els) + Stmt([Id("endif")])
    case TFor(k, v, c, b) => Stmt(ForHead(k, v) + Print(c)) + PrintAll(b) + Stmt([Id("endfor")])
    case TBlock(n, b) => Stmt([Id("block"), Id(n)]) + PrintAll(b) + Stmt([Id("endblock")])
  }

  function ForHead(key: Option<string>, value: string): seq<Token> {
    if key.None? then [Id("for"), Id(value), Operator(Bin(In))]
    else [Id("for"), Id(key.value), Comma, Id(value), Operator(Bin(In))]
  }

  function PrintElse(els: Else): seq<Token>
    decreases els, 1
  {
    match els
    case NoElse => []
    case ElseBody(b) => Stmt([Id("else")]) + PrintAll(b)
    case ElseIf(c, b, e) => Stmt([Id("else"), Id("if")] + Print(c)) + PrintAll(b) + PrintElse(e)
  }

  function PrintAll(ts: seq<Tree>): seq<Token>
    decreases ts, 0
  {
    if ts == [] then [] else PrintTree(ts[0]) + PrintAll(ts[1..])
  }

  // ---------- The state a parser reaches on a printed tree ----------

  /** Names are not reserved, functions that are called can be found, block names are new and used once. */
  function Names(t: Tree): set<string>
    decreases t, 1
  {
    match t
    case TIf(_, b, els) => NamesAll(b) + NamesElse(els)
    case TFor(_, _, _, b) => NamesAll(b)
    case TBlock(n, b) => {n} + NamesAll(b)
    case _ => {}
  }

  function NamesElse(els: Else): set<string>
    decreases els, 1
  {
    match els
    case NoElse => {}
    case ElseBody(b) => NamesAll(b)
    case ElseIf(_, b, e) => NamesAll(b) + NamesElse(e)
  }

  function NamesAll(ts: seq<Tree>): set<string>
    decreases ts, 0
  {
    if ts == [] then {} else Names(ts[0]) + NamesAll(ts[1..])
  }

  predicate Good(t: Tree, known: (string, nat) -> bool)
    decreases t, 1
  {
    match t
    case TText(_) => true
    case TExpr(e) => Known(e, known)
    case TIf(c, b, els) => Known(c, known) && GoodAll(b, known) && GoodElse(els, known) && NamesAll(b) !! NamesElse(els)
    case TFor(k, v, c, b) =>
      !Reserved(v) && (k.Some? ==> !Reserved(k.value)) && Known(c, known) && GoodAll(b, known)
    case TBlock(n, b) => !Reserved(n) && GoodAll(b, known) && n !in NamesAll(b)
  }

  predicate GoodElse(els: Else, known: (string, nat) -> bool)
    decreases els, 1
  {
    match els
    case NoElse => true
    case ElseBody(b) => GoodAll(b, known)
    case ElseIf(c, b, e) => Known(c, known) && GoodAll(b, known) && GoodElse(e, known) && NamesAll(b) !! NamesElse(e)
  }

  predicate GoodAll(ts: seq<Tree>, known: (string, nat) -> bool)
    decreases ts, 0
  {
    ts == [] || (Good(ts[0], known) && GoodAll(ts[1..], known) && Names(ts[0]) !! NamesAll(ts[1..]))
  }

  // ---------- When a part of the arena is a tree ----------

  /** How much had been allocated at some moment. */
  datatype Marks = Marks(blocks: nat, ifs: nat, fors: nat, named: nat)

  function MarksOf(a: Arena): Marks {
    Marks(|a.blocks|, |a.ifs|, |a.fors|, |a.named|)
  }

  predicate Le(m: Marks, n: Marks) {
    m.blocks <= n.blocks && m.ifs <= n.ifs && m.fors <= n.fors && m.named <= n.named
  }

  /** The nodes are these trees, and all they point to was allocated after `lo`. */
  predicate Rep(a: Arena, lo: Marks, nodes: seq<Node>, ts: seq<Tree>)
    decreases ts, 0
  {
    && |nodes| == |ts|
    && (ts != [] ==> RepNode(a, lo, nodes[0], ts[0]) && Rep(a, lo, nodes[1..], ts[1..]))
  }

  predicate RepNode(a: Arena, lo: Marks, n: Node, t: Tree)
    decreases t, 1
  {
    match t
    case TText(s) => n == TextNode(s)
    case TExpr(e) => n == ExpressionNode(Some(e))
    case TIf(c, b, els) =>
      n.IfNode? && lo.ifs <= n.id < |a.ifs| && !a.ifs[n.id].nested
      && RepCond(a, lo, n.id, c) && Rep(a, lo, a.blocks[a.ifs[n.id].whenTrue], b) && RepElse(a, lo, a.ifs[n.id], els)
    case TFor(k, v, c, b) =>
      n.ForNode? && lo.fors <= n.id < |a.fors|
      && var d := a.fors[n.id];
         d.key == k && d.value == v && d.cond == Some(c)
         && lo.blocks <= d.body < |a.blocks| && Rep(a, lo, a.blocks[d.body], b)
    case TBlock(name, b) =>
      n.BlockStatement? && lo.named <= n.id < |a.named|
      && var d := a.named[n.id];
         d.name == name && lo.blocks <= d.body < |a.blocks| && Rep(a, lo, a.blocks[d.body], b)
  }

  predicate RepCond(a: Arena, lo: Marks, i: nat, c: Expr) {
    && lo.ifs <= i < |a.ifs| && a.ifs[i].cond == Some(c)
    && lo.blocks <= a.ifs[i].whenTrue < |a.blocks| && lo.blocks <= a.ifs[i].whenFalse < |a.blocks|
  }

  predicate RepElse(a: Arena, lo: Marks, d: IfData, els: Else)
    decreases els, 1
  {
    d.whenFalse < |a.blocks| &&
    match els
    case NoElse => !d.hasFalse && a.blocks[d.whenFalse] == []
    case ElseBody(b) => d.hasFalse && Rep(a, lo, a.blocks[d.whenFalse], b)
    case ElseIf(c, b, e) =>
      var nodes := a.blocks[d.whenFalse];
      d.hasFalse && |nodes| == 1 && nodes[0].IfNode? && nodes[0].id < |a.ifs| && a.ifs[nodes[0].id].nested
      && RepCond(a, lo, nodes[0].id, c)
      && Rep(a, lo, a.blocks[a.ifs[nodes[0].id].whenTrue], b) && RepElse(a, lo, a.ifs[nodes[0].id], e)
  }

  /** What was allocated after `lo` is the same in both arenas. */
  ghost predicate AgreeFrom(a: Arena, b: Arena, lo: Marks) {
    && Le(MarksOf(a), MarksOf(b))
    && (forall i :: lo.blocks <= i < |a.blocks| ==> b.blocks[i] == a.blocks[i])
    && (forall i :: lo.ifs <= i < |a.ifs| ==> b.ifs[i] == a.ifs[i])
    && (forall i :: lo.fors <= i < |a.fors| ==> b.fors[i] == a.fors[i])
    && (forall i :: lo.named <= i < |a.named| ==> b.named[i] == a.named[i])
  }

  lemma {:induction false} RepFrame(a: Arena, b: Arena, lo: Marks, lo': Marks, nodes: seq<Node>, ts: seq<Tree>)
    requires AgreeFrom(a, b, lo) && Le(lo', lo) && Rep(a, lo, nodes, ts)
    ensures Rep(b, lo', nodes, ts)
    decreases ts, 0
  {
    if ts != [] {
      RepNodeFrame(a, b, lo, lo', nodes[0], ts[0]);
      RepFrame(a, b, lo, lo', nodes[1..], ts[1..]);
    }
  }

  lemma {:induction false} RepNodeFrame(a: Arena, b: Arena, lo: Marks, lo': Marks, n: Node, t: Tree)
    requires AgreeFrom(a, b, lo) && Le(lo', lo) && RepNode(a, lo, n, t)
    ensures RepNode(b, lo', n, t)
    decreases t, 1
  {
    match t
    case TIf(c, body, els) =>
      RepFrame(a, b, lo, lo', a.blocks[a.ifs[n.id].whenTrue], body);
      RepElseFrame(a, b, lo, lo', a.ifs[n.id], els);
    case TFor(k, v, c, body) =>
      RepFrame(a, b, lo, lo', a.blocks[a.fors[n.id].body], body);
    case TBlock(name, body) =>
      RepFrame(a, b, lo, lo', a.blocks[a.named[n.id].body], body);
    case _ =>
  }

  lemma {:induction false} RepElseFrame(a: Arena, b: Arena, lo: Marks, lo': Marks, d: IfData, els: Else)
    requires AgreeFrom(a, b, lo) && Le(lo', lo) && RepElse(a, lo, d, els) && lo.blocks <= d.whenFalse
    ensures RepElse(b, lo', d, els)
    decreases els, 1
  {
    match els
    case NoElse =>
    case ElseBody(body) =>
      RepFrame(a, b, lo, lo', a.blocks[d.whenFalse], body);
    case ElseIf(c, body, e) =>
      var j := a.blocks[d.whenFalse][0].id;
      RepFrame(a, b, lo, lo', a.blocks[a.ifs[j].whenTrue], body);
      RepElseFrame(a, b, lo, lo', a.ifs[j], e);
  }

  /** An arena is one list of trees at most: nothing of a tree is lost in it. */
  lemma {:induction false} RepDetermines(a: Arena, lo: Marks, nodes: seq<Node>, ts: seq<Tree>, us: seq<Tree>)
    requires Rep(a, lo, nodes, ts) && Rep(a, lo, nodes, us)
    ensures ts == us
    decreases ts, 0
  {
    if ts != [] {
      RepNodeDetermines(a, lo, nodes[0], ts[0], us[0]);
      RepDetermines(a, lo, nodes[1..], ts[1..], us[1..]);
      assert ts == [ts[0]] + ts[1..] && us == [us[0]] + us[1..];
    }
  }

  lemma {:induction false} RepNodeDetermines(a: Arena, lo: Marks, n: Node, t: Tree, u: Tree)
    requires RepNode(a, lo, n, t) && RepNode(a, lo, n, u)
    ensures t == u
    decreases t, 1
  {
    match t
    case TIf(c, b, els) =>
      RepDetermines(a, lo, a.blocks[a.ifs[n.id].whenTrue], b, u.body);
      RepElseDetermines(a, lo, a.ifs[n.id], els, u.els);
    case TFor(k, v, c, b) =>
      RepDetermines(a, lo, a.blocks[a.fors[n.id].body], b, u.body);
    case TBlock(name, b) =>
      RepDetermines(a, lo, a.blocks[a.named[n.id].body], b, u.body);
    case _ =>
  }

  lemma {:induction false} RepElseDetermines(a: Arena, lo: Marks, d: IfData, e: Else, f: Else)
    requires RepElse(a, lo, d, e) && RepElse(a, lo, d, f)
    ensures e == f
    decreases e, 1
  {
    var nodes := a.blocks[d.whenFalse];
    if e.ElseBody? && nodes != [] {
      FirstIsNotNested(a, lo, nodes, e.body);
    }
    if f.ElseBody? && nodes != [] {
      FirstIsNotNested(a, lo, nodes, f.body);
    }
    match (e, f)
    case (ElseBody(b), ElseBody(c)) =>
      RepDetermines(a, lo, a.blocks[d.whenFalse], b, c);
    case (ElseIf(c, b, e'), ElseIf(c', b', f')) =>
      var j := a.blocks[d.whenFalse][0].id;
      RepDetermines(a, lo, a.blocks[a.ifs[j].whenTrue], b, b');
      RepElseDetermines(a, lo, a.ifs[j], e', f');
    case _ =>
  }

  lemma FirstIsNotNested(a: Arena, lo: Marks, nodes: seq<Node>, ts: seq<Tree>)
    requires Rep(a, lo, nodes, ts) && nodes != []
    ensures nodes[0].IfNode? ==> nodes[0].id < |a.ifs| && !a.ifs[nodes[0].id].nested
  {
    assert RepNode(a, lo, nodes[0], ts[0]);
  }

  // ---------- The state a parser reaches on a printed tree ----------

  /** Pointers and stacks are as before, and nothing that was there changed but for the current block. */
  ghost predicate Settled(st: State, r: State) {
    && Ok(r) && r.current == st.current && r.ifStack == st.ifStack
    && r.forStack == st.forStack && r.blockStack == st.blockStack
    && Le(MarksOf(st.arena), MarksOf(r.arena))
    && st.arena.ifs <= r.arena.ifs && st.arena.fors <= r.arena.fors && st.arena.named <= r.arena.named
    && forall b :: 0 <= b < |st.arena.blocks| && b != st.current ==> r.arena.blocks[b] == st.arena.blocks[b]
  }

  /** The number of the innermost open `if`. */
  function Top(st: State): nat
    requires st.ifStack != []
  {
    st.ifStack[|st.ifStack| - 1]
  }

  /** After an `else` part: `else if`s are left on the stack, and the `if` it belongs to may have got its
      mark and the contents of its second block. */
  ghost predicate ElseSettled(st: State, r: State)
    requires Ok(st) && st.ifStack != []
  {
    && Ok(r) && r.forStack == st.forStack && r.blockStack == st.blockStack
    && st.ifStack <= r.ifStack
    && (forall k :: |st.ifStack| <= k < |r.ifStack| ==> r.arena.ifs[r.ifStack[k]].nested)
    && Le(MarksOf(st.arena), MarksOf(r.arena))
    && (forall i :: 0 <= i < |st.arena.ifs| && i != Top(st) ==> r.arena.ifs[i] == st.arena.ifs[i])
    && r.arena.ifs[Top(st)] == st.arena.ifs[Top(st)].(hasFalse := r.arena.ifs[Top(st)].hasFalse)
    && st.arena.fors <= r.arena.fors && st.arena.named <= r.arena.named
    && forall b :: 0 <= b < |st.arena.blocks| && b != st.arena.ifs[Top(st)].whenFalse ==>
         r.arena.blocks[b] == st.arena.blocks[b]
  }

  lemma {:induction false} DropNestedTo(ifs: seq<IfData>, stack: seq<nat>, n: nat)
    requires forall k :: 0 <= k < |stack| ==> stack[k] < |ifs|
    requires 0 < n <= |stack| && !ifs[stack[0]].nested && !ifs[stack[n - 1]].nested
    requires forall k :: n <= k < |stack| ==> ifs[stack[k]].nested
    ensures DropNested(ifs, stack) == stack[..n]
    decreases |stack|
  {
    if |stack| > n {
      DropNestedTo(ifs, stack[..|stack| - 1], n);
      assert stack[..|stack| - 1][..n] == stack[..n];
    } else {
      assert stack[..n] == stack;
    }
  }

  function Build(st: State, t: Tree): (r: State)
    requires Ok(st)
    ensures Settled(st, r) && r.names == st.names + Names(t)
    decreases t, 1
  {
    match t
    case TText(s) => NodeSettles(st, TextNode(s)); AddNode(st, TextNode(s))
    case TExpr(e) => NodeSettles(st, ExpressionNode(Some(e))); AddNode(st, ExpressionNode(Some(e)))
    case TIf(c, b, els) => BuildIf(st, t)
    case TFor(k, v, c, b) => BuildFor(st, t)
    case TBlock(n, b) => BuildBlock(st, t)
  }

  function BuildIf(st: State, t: Tree): (r: State)
    requires Ok(st) && t.TIf?
    ensures Settled(st, r) && r.names == st.names + Names(t)
    decreases t, 0
  {
    hide Settled, ElseSettled;
    IfsKeepOk(st, Some(t.cond));
    var s1 := OpenIf(st, false, Some(t.cond));
    var s2 := BuildAll(s1, t.body);
    StillOpen(st, false, t.cond, s1, s2);
    var s3 := BuildElse(s2, t.els);
    EndIfSettles(st, t.cond, s1, s2, s3);
    EndIf(s3)
  }

  function BuildFor(st: State, t: Tree): (r: State)
    requires Ok(st) && t.TFor?
    ensures Settled(st, r) && r.names == st.names + Names(t)
    decreases t, 0
  {
    hide Settled;
    ForsKeepOk(st, t.key, t.value, Some(t.cond));
    var s1 := OpenFor(st, t.key, t.value, Some(t.cond));
    var s2 := BuildAll(s1, t.body);
    EndForSettles(st, t.key, t.value, t.cond, s1, s2);
    EndFor(s2)
  }

  function BuildBlock(st: State, t: Tree): (r: State)
    requires Ok(st) && t.TBlock?
    ensures Settled(st, r) && r.names == st.names + Names(t)
    decreases t, 0
  {
    hide Settled, DropNested, Push;
    BlocksKeepOk(st, TextNode(""), t.name);
    var s1 := OpenBlock(st, t.name);
    var s2 := BuildAll(s1, t.body);
    EndBlockSettles(st, t.name, s1, s2);
    EndBlock(s2)
  }

  function BuildElse(st: State, els: Else): (r: State)
    requires Ok(st) && st.ifStack != []
    ensures ElseSettled(st, r) && r.names == st.names + NamesElse(els)
    decreases els, 1
  {
    match els
    case NoElse => st
    case ElseBody(b) =>
      ElseKeepsOk(st);
      var s1 := BuildAll(OpenElse(st), b);
      ElseBodySettles(st, s1);
      s1
    case ElseIf(c, b, e) =>
      ElseKeepsOk(st);
      IfsKeepOk(OpenElse(st), Some(c));
      var s1 := OpenIf(OpenElse(st), true, Some(c));
      var s2 := BuildAll(s1, b);
      StillOpen(OpenElse(st), true, c, s1, s2);
      var s3 := BuildElse(s2, e);
      ElseIfSettles(st, c, s1, s2, s3);
      s3
  }

  function BuildAll(st: State, ts: seq<Tree>): (r: State)
    requires Ok(st)
    ensures Settled(st, r) && r.names == st.names + NamesAll(ts)
    decreases ts, 0
  {
    if ts == [] then st else BuildAll(Build(st, ts[0]), ts[1..])
  }

  lemma NodeSettles(st: State, n: Node)
    requires Ok(st)
    ensures Settled(st, AddNode(st, n))
  {
  }

  lemma StillOpen(st: State, nested: bool, c: Expr, s1: State, s2: State)
    requires Ok(st) && s1 == OpenIf(st, nested, Some(c)) && Settled(s1, s2)
    ensures Ok(s2) && s2.ifStack != []
  {
  }

  lemma EndIfSettles(st: State, c: Expr, s1: State, s2: State, s3: State)
    requires Ok(st) && s1 == OpenIf(st, false, Some(c)) && Settled(s1, s2) && s2.ifStack != [] && ElseSettled(s2, s3)
    ensures s3.ifStack != [] && Ok(s3) && Settled(st, EndIf(s3)) && EndIf(s3).names == s3.names
  {
    DropNestedTo(s3.arena.ifs, s3.ifStack, |s2.ifStack|);
  }

  lemma EndForSettles(st: State, k: Option<string>, v: string, c: Expr, s1: State, s2: State)
    requires Ok(st) && s1 == OpenFor(st, k, v, Some(c)) && Settled(s1, s2)
    ensures Ok(s2) && s2.forStack != [] && Settled(st, EndFor(s2)) && EndFor(s2).names == s2.names
  {
  }

  lemma EndBlockSettles(st: State, n: string, s1: State, s2: State)
    requires Ok(st) && s1 == OpenBlock(st, n) && Settled(s1, s2)
    ensures Ok(s2) && s2.blockStack != [] && Settled(st, EndBlock(s2)) && EndBlock(s2).names == s2.names
  {
  }

  lemma ElseBodySettles(st: State, s1: State)
    requires Ok(st) && st.ifStack != [] && Settled(OpenElse(st), s1)
    ensures ElseSettled(st, s1)
  {
  }

  lemma ElseIfSettles(st: State, c: Expr, s1: State, s2: State, s3: State)
    requires Ok(st) && st.ifStack != [] && s1 == OpenIf(OpenElse(st), true, Some(c))
    requires Settled(s1, s2) && s2.ifStack != [] && ElseSettled(s2, s3)
    ensures ElseSettled(st, s3)
  {
  }

  // ---------- That state holds the tree ----------

  /** What `r` has put into the block that was current in `st`. */
  function Added(st: State, r: State): seq<Node>
    requires st.current < |st.arena.blocks| && st.current < |r.arena.blocks|
    requires |st.arena.blocks[st.current]| <= |r.arena.blocks[st.current]|
  {
    r.arena.blocks[st.current][|st.arena.blocks[st.current]|..]
  }

  ghost predicate Extends(st: State, r: State) {
    st.current < |st.arena.blocks| <= |r.arena.blocks| && st.arena.blocks[st.current] <= r.arena.blocks[st.current]
  }

  lemma {:induction false} BuildRep(st: State, t: Tree)
    requires Ok(st)
    ensures Extends(st, Build(st, t)) && |Added(st, Build(st, t))| == 1
    ensures RepNode(Build(st, t).arena, MarksOf(st.arena), Added(st, Build(st, t))[0], t)
    decreases t, 1
  {
    match t
    case TIf(c, b, els) => BuildIfRep(st, t);
    case TFor(k, v, c, b) => BuildForRep(st, t);
    case TBlock(n, b) => BuildBlockRep(st, t);
    case _ =>
  }

  lemma {:induction false} BuildAllRep(st: State, ts: seq<Tree>)
    requires Ok(st)
    ensures Extends(st, BuildAll(st, ts))
    ensures Rep(BuildAll(st, ts).arena, MarksOf(st.arena), Added(st, BuildAll(st, ts)), ts)
    decreases ts, 0
  {
    if ts != [] {
      var s1 := Build(st, ts[0]);
      var s2 := BuildAll(s1, ts[1..]);
      BuildRep(st, ts[0]);
      BuildAllRep(s1, ts[1..]);
      RepJoin(st, s1, s2, ts);
    }
  }

  lemma RepJoin(st: State, s1: State, s2: State, ts: seq<Tree>)
    requires Ok(st) && ts != [] && Settled(st, s1) && Settled(s1, s2) && Extends(st, s1) && Extends(s1, s2)
    requires |Added(st, s1)| == 1 && RepNode(s1.arena, MarksOf(st.arena), Added(st, s1)[0], ts[0])
    requires Rep(s2.arena, MarksOf(s1.arena), Added(s1, s2), ts[1..])
    ensures Extends(st, s2) && Rep(s2.arena, MarksOf(st.arena), Added(st, s2), ts)
  {
    var lo, lo1 := MarksOf(st.arena), MarksOf(s1.arena);
    RepNodeFrame(s1.arena, s2.arena, lo, lo, Added(st, s1)[0], ts[0]);
    RepFrame(s2.arena, s2.arena, lo1, lo, Added(s1, s2), ts[1..]);
    assert Added(st, s2) == Added(st, s1) + Added(s1, s2);
    assert Added(st, s2)[1..] == Added(s1, s2);
  }

  /** The body of a loop or a named block, in a block of its own, behind the node `n` that leads there. */
  lemma BodyHolds(st: State, s1: State, s2: State, n: Node, b: seq<Tree>)
    requires Ok(st) && Ok(s1) && s1.current == |st.arena.blocks| && Le(MarksOf(st.arena), MarksOf(s1.arena))
    requires s1.arena.blocks == st.arena.blocks[st.current := st.arena.blocks[st.current] + [n]] + [[]]
    requires Settled(s1, s2) && Extends(s1, s2) && Rep(s2.arena, MarksOf(s1.arena), Added(s1, s2), b)
    ensures s1.current < |s2.arena.blocks| && Rep(s2.arena, MarksOf(st.arena), s2.arena.blocks[s1.current], b)
    ensures s2.arena.blocks[st.current] == st.arena.blocks[st.current] + [n]
  {
    hide Rep;
    RepFrame(s2.arena, s2.arena, MarksOf(s1.arena), MarksOf(st.arena), Added(s1, s2), b);
    assert s2.arena.blocks[s1.current] == Added(s1, s2);
  }

  lemma {:induction false} BuildForRep(st: State, t: Tree)
    requires Ok(st) && t.TFor?
    ensures Extends(st, BuildFor(st, t)) && |Added(st, BuildFor(st, t))| == 1
    ensures RepNode(BuildFor(st, t).arena, MarksOf(st.arena), Added(st, BuildFor(st, t))[0], t)
    decreases t, 0
  {
    hide Names, NamesAll, Rep;
    ForsKeepOk(st, t.key, t.value, Some(t.cond));
    var s1 := OpenFor(st, t.key, t.value, Some(t.cond));
    var s2 := BuildAll(s1, t.body);
    BuildAllRep(s1, t.body);
    BodyHolds(st, s1, s2, ForNode(|st.arena.fors|), t.body);
  }

  lemma {:induction false} BuildBlockRep(st: State, t: Tree)
    requires Ok(st) && t.TBlock?
    ensures Extends(st, BuildBlock(st, t)) && |Added(st, BuildBlock(st, t))| == 1
    ensures RepNode(BuildBlock(st, t).arena, MarksOf(st.arena), Added(st, BuildBlock(st, t))[0], t)
    decreases t, 0
  {
    hide Names, NamesAll, Rep;
    BlocksKeepOk(st, TextNode(""), t.name);
    var s1 := OpenBlock(st, t.name);
    var s2 := BuildAll(s1, t.body);
    BuildAllRep(s1, t.body);
    BodyHolds(st, s1, s2, BlockStatement(|st.arena.named|), t.body);
  }

  lemma {:induction false} BuildIfRep(st: State, t: Tree)
    requires Ok(st) && t.TIf?
    ensures Extends(st, BuildIf(st, t)) && |Added(st, BuildIf(st, t))| == 1
    ensures RepNode(BuildIf(st, t).arena, MarksOf(st.arena), Added(st, BuildIf(st, t))[0], t)
    decreases t, 0
  {
    IfsKeepOk(st, Some(t.cond));
    var s1 := OpenIf(st, false, Some(t.cond));
    var s2 := BuildAll(s1, t.body);
    StillOpen(st, false, t.cond, s1, s2);
    NewIfIsBlank(st, false, t.cond, s1, s2);
    var s3 := BuildElse(s2, t.els);
    BuildAllRep(s1, t.body);
    BuildElseRep(s2, t.els);
    BranchesHold(st, false, t.cond, t.body, t.els, s1, s2, s3);
    EndIfSettles(st, t.cond, s1, s2, s3);
  }

  /** Both branches of an `if`, once its `else` part is there. */
  lemma BranchesHold(st: State, nested: bool, c: Expr, b: seq<Tree>, els: Else, s1: State, s2: State, s3: State)
    requires Ok(st) && s1 == OpenIf(st, nested, Some(c)) && Settled(s1, s2) && s2.ifStack != [] && ElseSettled(s2, s3)
    requires Extends(s1, s2) && Rep(s2.arena, MarksOf(s1.arena), Added(s1, s2), b)
    requires RepElse(s3.arena, MarksOf(s2.arena), s3.arena.ifs[Top(s2)], els)
    ensures var i, lo := |st.arena.ifs|, MarksOf(st.arena);
            && Top(s2) == i < |s3.arena.ifs| && s3.arena.ifs[i].nested == nested && RepCond(s3.arena, lo, i, c)
            && Rep(s3.arena, lo, s3.arena.blocks[s3.arena.ifs[i].whenTrue], b)
            && RepElse(s3.arena, lo, s3.arena.ifs[i], els)
    ensures s3.arena.blocks[st.current] == st.arena.blocks[st.current] + [IfNode(|st.arena.ifs|)]
  {
    var lo, lo1, lo2 := MarksOf(st.arena), MarksOf(s1.arena), MarksOf(s2.arena);
    assert s2.arena.blocks[s1.current] == Added(s1, s2) == s3.arena.blocks[s1.current];
    RepFrame(s2.arena, s3.arena, lo1, lo, Added(s1, s2), b);
    RepElseLower(s3.arena, lo2, lo, s3.arena.ifs[Top(s2)], els);
  }

  lemma {:induction false} RepElseLower(a: Arena, lo: Marks, lo': Marks, d: IfData, els: Else)
    requires Le(lo', lo) && RepElse(a, lo, d, els)
    ensures RepElse(a, lo', d, els)
    decreases els
  {
    match els
    case NoElse =>
    case ElseBody(body) =>
      RepFrame(a, a, lo, lo', a.blocks[d.whenFalse], body);
    case ElseIf(c, body, e) =>
      var j := a.blocks[d.whenFalse][0].id;
      RepFrame(a, a, lo, lo', a.blocks[a.ifs[j].whenTrue], body);
      RepElseLower(a, lo, lo', a.ifs[j], e);
  }

  lemma {:induction false} BuildElseRep(st: State, els: Else)
    requires Ok(st) && st.ifStack != []
    requires !st.arena.ifs[Top(st)].hasFalse && st.arena.blocks[st.arena.ifs[Top(st)].whenFalse] == []
    ensures RepElse(BuildElse(st, els).arena, MarksOf(st.arena), BuildElse(st, els).arena.ifs[Top(st)], els)
    decreases els, 1
  {
    match els
    case NoElse =>
    case ElseBody(b) =>
      ElseKeepsOk(st);
      BuildAllRep(OpenElse(st), b);
      assert BuildElse(st, els).arena.blocks[OpenElse(st).current] == Added(OpenElse(st), BuildElse(st, els));
    case ElseIf(c, b, e) =>
      BuildElseIfRep(st, els);
  }

  lemma {:induction false} BuildElseIfRep(st: State, els: Else)
    requires Ok(st) && st.ifStack != [] && els.ElseIf?
    requires !st.arena.ifs[Top(st)].hasFalse && st.arena.blocks[st.arena.ifs[Top(st)].whenFalse] == []
    ensures RepElse(BuildElse(st, els).arena, MarksOf(st.arena), BuildElse(st, els).arena.ifs[Top(st)], els)
    decreases els, 0
  {
    hide Settled, ElseSettled;
    ElseKeepsOk(st);
    var s0 := OpenElse(st);
    IfsKeepOk(s0, Some(els.cond));
    var s1 := OpenIf(s0, true, Some(els.cond));
    var s2 := BuildAll(s1, els.body);
    StillOpen(s0, true, els.cond, s1, s2);
    NewIfIsBlank(s0, true, els.cond, s1, s2);
    var s3 := BuildElse(s2, els.els);
    BuildAllRep(s1, els.body);
    BuildElseRep(s2, els.els);
    BranchesHold(s0, true, els.cond, els.body, els.els, s1, s2, s3);
    HangsOnElse(st, s0, s2, s3);
  }

  lemma NewIfIsBlank(st: State, nested: bool, c: Expr, s1: State, s2: State)
    requires Ok(st) && s1 == OpenIf(st, nested, Some(c)) && Settled(s1, s2) && s2.ifStack != []
    ensures Ok(s2) && Top(s2) == |st.arena.ifs| && st.arena.ifs <= s2.arena.ifs
    ensures !s2.arena.ifs[Top(s2)].hasFalse && s2.arena.blocks[s2.arena.ifs[Top(s2)].whenFalse] == []
  {
  }

  /** The `if` an `else if` belongs to has its mark, and its second block is still the one it had. */
  lemma HangsOnElse(st: State, s0: State, s2: State, s3: State)
    requires Ok(st) && st.ifStack != [] && s0 == OpenElse(st)
    requires s0.arena.ifs <= s2.arena.ifs && Ok(s2) && s2.ifStack != [] && Top(s2) >= |s0.arena.ifs|
    requires ElseSettled(s2, s3)
    ensures s3.arena.ifs[Top(st)] == s0.arena.ifs[Top(st)]
  {
  }
}
