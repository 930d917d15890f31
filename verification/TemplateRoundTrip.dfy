/** Printing a template and parsing it builds the same tree again, with every stack empty. */
module TemplateRoundTrip {
  import opened Space
  import opened ExpressionParser
  import opened StatementParser
  import opened TemplateTrees

  // ---------- One tag ----------

  /** A printed expression and its closing tag. */
  lemma ConditionPrint(ts: seq<Token>, known: (string, nat) -> bool, e: Expr, pos: nat, closing: Kind)
    requires Holds(ts, pos, Print(e) + [Other(closing)]) && Known(e, known)
    ensures Condition(ts, known, pos, closing) == Done(Some(e), pos + |Print(e)|)
  {
    hide Run, Print, Known;
    HoldsSplit(ts, pos, Print(e), [Other(closing)]);
    HoldsOne(ts, pos + |Print(e)|, Other(closing));
    RunWhole(ts, known, e, pos);
  }

  lemma StepStatement(ts: seq<Token>, known: (string, nat) -> bool, pos: nat, st: State, body: seq<Token>, st': State)
    requires Ok(st) && Holds(ts, pos, Stmt(body))
    requires Statement(ts, known, pos + 1, st, StatementClose) == Done(st', pos + 1 + |body|)
    ensures Ok(st') && Loop(ts, known, pos, st) == Loop(ts, known, pos + |Stmt(body)|, st')
  {
    hide Ok, Statement, Condition, Holds;
    HoldsSplit(ts, pos, [Other(StatementOpen)] + body, [Other(StatementClose)]);
    HoldsSplit(ts, pos, [Other(StatementOpen)], body);
    HoldsOne(ts, pos, Other(StatementOpen));
    HoldsOne(ts, pos + 1 + |body|, Other(StatementClose));
  }

  /** The words of a tag, and the rest of it with the closing token. */
  lemma TagWords(ts: seq<Token>, pos: nat, words: seq<Token>, rest: seq<Token>)
    requires Holds(ts, pos, Stmt(words + rest))
    ensures pos + 1 + |words| < |ts| && Holds(ts, pos + 1 + |words|, rest + [Other(StatementClose)])
    ensures forall i :: 0 <= i < |words| ==> ts[pos + 1 + i] == words[i]
    ensures (words != [] ==> ts[pos + 1] == words[0]) && (|words| > 1 ==> ts[pos + 2] == words[1])
    ensures ts[pos + 1 + |words| + |rest|] == Other(StatementClose)
  {
    assert Stmt(words + rest) == [Other(StatementOpen)] + words + (rest + [Other(StatementClose)]);
    HoldsSplit(ts, pos, [Other(StatementOpen)] + words, rest + [Other(StatementClose)]);
    HoldsSplit(ts, pos, [Other(StatementOpen)], words);
    HoldsSplit(ts, pos + 1 + |words|, rest, [Other(StatementClose)]);
    HoldsOne(ts, pos + 1 + |words| + |rest|, Other(StatementClose));
    forall i | 0 <= i < |words|
      ensures ts[pos + 1 + i] == words[i]
    {
      assert ts[pos + 1..pos + 1 + |words|][i] == words[i];
    }
    assert words != [] ==> ts[pos + 1 + 0] == words[0];
    assert |words| > 1 ==> ts[pos + 1 + 1] == words[1];
  }

  lemma IfTag(ts: seq<Token>, known: (string, nat) -> bool, pos: nat, st: State, c: Expr)
    requires Ok(st) && Known(c, known) && Holds(ts, pos, Stmt([Id("if")] + Print(c)))
    ensures Ok(OpenIf(st, false, Some(c)))
    ensures Loop(ts, known, pos, st) == Loop(ts, known, pos + |Stmt([Id("if")] + Print(c))|, OpenIf(st, false, Some(c)))
  {
    hide Loop, Holds, Condition;
    TagWords(ts, pos, [Id("if")], Print(c));
    ConditionPrint(ts, known, c, pos + 2, StatementClose);
    IfsKeepOk(st, Some(c));
    StepStatement(ts, known, pos, st, [Id("if")] + Print(c), OpenIf(st, false, Some(c)));
  }

  lemma ElseTag(ts: seq<Token>, known: (string, nat) -> bool, pos: nat, st: State)
    requires Ok(st) && st.ifStack != [] && Holds(ts, pos, Stmt([Id("else")]))
    ensures Ok(OpenElse(st)) && Loop(ts, known, pos, st) == Loop(ts, known, pos + |Stmt([Id("else")])|, OpenElse(st))
  {
    hide Loop, Ok, Holds, Condition;
    assert [Id("else")] + [] == [Id("else")];
    TagWords(ts, pos, [Id("else")], []);
    ElseKeepsOk(st);
    assert Word(ts, pos + 1) == Some("else") && Word(ts, pos + 2) == None;
    StepStatement(ts, known, pos, st, [Id("else")], OpenElse(st));
  }

  lemma ElseIfStatement(ts: seq<Token>, known: (string, nat) -> bool, p: nat, st: State, c: Expr, end: nat)
    requires Ok(st) && st.ifStack != [] && Word(ts, p) == Some("else") && Word(ts, p + 1) == Some("if")
    requires Condition(ts, known, p + 2, StatementClose) == Done(Some(c), end)
    ensures Ok(OpenElse(st)) && Ok(OpenIf(OpenElse(st), true, Some(c)))
    ensures Statement(ts, known, p, st, StatementClose) == Done(OpenIf(OpenElse(st), true, Some(c)), end)
  {
    ElseKeepsOk(st);
    IfsKeepOk(OpenElse(st), Some(c));
    var st' := OpenIf(OpenElse(st), true, Some(c));
    hide Ok, Word, Condition, OpenIf, OpenElse;
  }

  lemma ElseIfTag(ts: seq<Token>, known: (string, nat) -> bool, pos: nat, st: State, c: Expr)
    requires Ok(st) && st.ifStack != [] && Known(c, known) && Holds(ts, pos, Stmt([Id("else"), Id("if")] + Print(c)))
    ensures Ok(OpenElse(st)) && Ok(OpenIf(OpenElse(st), true, Some(c)))
    ensures Loop(ts, known, pos, st)
         == Loop(ts, known, pos + |Stmt([Id("else"), Id("if")] + Print(c))|, OpenIf(OpenElse(st), true, Some(c)))
  {
    hide Loop, Holds, Condition, Statement, Known, Print, OpenIf, OpenElse;
    TagWords(ts, pos, [Id("else"), Id("if")], Print(c));
    ConditionPrint(ts, known, c, pos + 3, StatementClose);
    ElseIfStatement(ts, known, pos + 1, st, c, pos + 3 + |Print(c)|);
    var st' := OpenIf(OpenElse(st), true, Some(c));
    StepStatement(ts, known, pos, st, [Id("else"), Id("if")] + Print(c), st');
  }

  lemma EndIfTag(ts: seq<Token>, known: (string, nat) -> bool, pos: nat, st: State)
    requires Ok(st) && st.ifStack != [] && Holds(ts, pos, Stmt([Id("endif")]))
    ensures Ok(EndIf(st)) && Loop(ts, known, pos, st) == Loop(ts, known, pos + |Stmt([Id("endif")])|, EndIf(st))
  {
    hide Loop, Ok, Holds, Condition;
    assert [Id("endif")] + [] == [Id("endif")];
    TagWords(ts, pos, [Id("endif")], []);
    ElseKeepsOk(st);
    assert Word(ts, pos + 1) == Some("endif");
    StepStatement(ts, known, pos, st, [Id("endif")], EndIf(st));
  }

  /** The words `for value in` and `for key, value in`. */
  lemma ForWords(ts: seq<Token>, pos: nat, k: Option<string>, v: string)
    requires pos + |ForHead(k, v)| <= |ts|
    requires forall i :: 0 <= i < |ForHead(k, v)| ==> ts[pos + i] == ForHead(k, v)[i]
    ensures Word(ts, pos) == Some("for") && Word(ts, pos + 1) == Some(if k.Some? then k.value else v)
    ensures At(ts, pos + 2, Comma) <==> k.Some?
    ensures k.Some? ==> Word(ts, pos + 3) == Some(v)
    ensures Word(ts, pos + |ForHead(k, v)| - 1) == Some("in")
  {
    var head := ForHead(k, v);
    assert ts[pos + 0] == head[0] && ts[pos + 1] == head[1] && ts[pos + 2] == head[2];
    assert ts[pos + (|head| - 1)] == head[|head| - 1];
    if k.Some? {
      assert ts[pos + 3] == head[3];
    }
  }

  lemma ForTag(ts: seq<Token>, known: (string, nat) -> bool, pos: nat, st: State, k: Option<string>, v: string, c: Expr)
    requires Ok(st) && Known(c, known) && Holds(ts, pos, Stmt(ForHead(k, v) + Print(c)))
    ensures Ok(OpenFor(st, k, v, Some(c)))
    ensures Loop(ts, known, pos, st)
         == Loop(ts, known, pos + |Stmt(ForHead(k, v) + Print(c))|, OpenFor(st, k, v, Some(c)))
  {
    hide Loop, Word, Holds, Condition;
    var head := ForHead(k, v);
    TagWords(ts, pos, head, Print(c));
    ForWords(ts, pos + 1, k, v);
    ConditionPrint(ts, known, c, pos + 1 + |head|, StatementClose);
    ForsKeepOk(st, k, v, Some(c));
    assert ForStatement(ts, known, pos + 1, st, StatementClose)
        == Done(OpenFor(st, k, v, Some(c)), pos + 1 + |head| + |Print(c)|);
    StepStatement(ts, known, pos, st, head + Print(c), OpenFor(st, k, v, Some(c)));
  }

  lemma EndForTag(ts: seq<Token>, known: (string, nat) -> bool, pos: nat, st: State)
    requires Ok(st) && st.forStack != [] && Holds(ts, pos, Stmt([Id("endfor")]))
    ensures Ok(EndFor(st)) && Loop(ts, known, pos, st) == Loop(ts, known, pos + |Stmt([Id("endfor")])|, EndFor(st))
  {
    hide Loop, Ok, Holds, Condition;
    assert [Id("endfor")] + [] == [Id("endfor")];
    TagWords(ts, pos, [Id("endfor")], []);
    ForsKeepOk(st, None, "", None);
    assert Word(ts, pos + 1) == Some("endfor");
    StepStatement(ts, known, pos, st, [Id("endfor")], EndFor(st));
  }

  lemma BlockTag(ts: seq<Token>, known: (string, nat) -> bool, pos: nat, st: State, n: string)
    requires Ok(st) && n !in st.names && Holds(ts, pos, Stmt([Id("block"), Id(n)]))
    ensures Ok(OpenBlock(st, n))
    ensures Loop(ts, known, pos, st) == Loop(ts, known, pos + |Stmt([Id("block"), Id(n)])|, OpenBlock(st, n))
  {
    hide Loop, Holds, Condition;
    assert [Id("block"), Id(n)] + [] == [Id("block"), Id(n)];
    TagWords(ts, pos, [Id("block"), Id(n)], []);
    BlocksKeepOk(st, TextNode(""), n);
    assert Word(ts, pos + 1) == Some("block") && Word(ts, pos + 2) == Some(n);
    StepStatement(ts, known, pos, st, [Id("block"), Id(n)], OpenBlock(st, n));
  }

  lemma EndBlockTag(ts: seq<Token>, known: (string, nat) -> bool, pos: nat, st: State)
    requires Ok(st) && st.blockStack != [] && Holds(ts, pos, Stmt([Id("endblock")]))
    ensures Ok(EndBlock(st))
    ensures Loop(ts, known, pos, st) == Loop(ts, known, pos + |Stmt([Id("endblock")])|, EndBlock(st))
  {
    hide Loop, Ok, Holds, Condition;
    assert [Id("endblock")] + [] == [Id("endblock")];
    TagWords(ts, pos, [Id("endblock")], []);
    BlocksKeepOk(st, TextNode(""), "");
    assert Word(ts, pos + 1) == Some("endblock");
    StepStatement(ts, known, pos, st, [Id("endblock")], EndBlock(st));
  }

  // ---------- Whole trees ----------

  lemma SettledIsOk(st: State, r: State)
    requires Settled(st, r)
    ensures Ok(r)
  {
  }

  /** The parts of the four compound nodes, for the printed tokens and for the names of blocks. */
  lemma IfParts(ts: seq<Token>, known: (string, nat) -> bool, t: Tree, pos: nat, names: set<string>)
    requires t.TIf? && Good(t, known) && Names(t) !! names && Holds(ts, pos, PrintTree(t))
    ensures Known(t.cond, known) && GoodAll(t.body, known) && GoodElse(t.els, known)
    ensures NamesAll(t.body) !! names && NamesElse(t.els) !! names + NamesAll(t.body)
    ensures var tag := Stmt([Id("if")] + Print(t.cond));
            var p1 := pos + |tag|;
            var p2 := p1 + |PrintAll(t.body)|;
            var p3 := p2 + |PrintElse(t.els)|;
            && Holds(ts, pos, tag) && Holds(ts, p1, PrintAll(t.body)) && Holds(ts, p2, PrintElse(t.els))
            && Holds(ts, p3, Stmt([Id("endif")])) && pos + |PrintTree(t)| == p3 + |Stmt([Id("endif")])|
  {
    hide Holds, Print;
    var tag, end := Stmt([Id("if")] + Print(t.cond)), Stmt([Id("endif")]);
    HoldsSplit(ts, pos, tag + PrintAll(t.body) + PrintElse(t.els), end);
    HoldsSplit(ts, pos, tag + PrintAll(t.body), PrintElse(t.els));
    HoldsSplit(ts, pos, tag, PrintAll(t.body));
  }

  lemma ElseIfParts(ts: seq<Token>, known: (string, nat) -> bool, els: Else, pos: nat, names: set<string>)
    requires els.ElseIf? && GoodElse(els, known) && NamesElse(els) !! names && Holds(ts, pos, PrintElse(els))
    ensures Known(els.cond, known) && GoodAll(els.body, known) && GoodElse(els.els, known)
    ensures NamesAll(els.body) !! names && NamesElse(els.els) !! names + NamesAll(els.body)
    ensures var tag := Stmt([Id("else"), Id("if")] + Print(els.cond));
            var p1 := pos + |tag|;
            var p2 := p1 + |PrintAll(els.body)|;
            && Holds(ts, pos, tag) && Holds(ts, p1, PrintAll(els.body)) && Holds(ts, p2, PrintElse(els.els))
            && pos + |PrintElse(els)| == p2 + |PrintElse(els.els)|
  {
    hide Holds, Print;
    var tag := Stmt([Id("else"), Id("if")] + Print(els.cond));
    HoldsSplit(ts, pos, tag + PrintAll(els.body), PrintElse(els.els));
    HoldsSplit(ts, pos, tag, PrintAll(els.body));
  }

  lemma ForParts(ts: seq<Token>, known: (string, nat) -> bool, t: Tree, pos: nat, names: set<string>)
    requires t.TFor? && Good(t, known) && Names(t) !! names && Holds(ts, pos, PrintTree(t))
    ensures Known(t.cond, known) && GoodAll(t.body, known) && NamesAll(t.body) !! names
    ensures var tag := Stmt(ForHead(t.key, t.value) + Print(t.cond));
            var p1 := pos + |tag|;
            var p2 := p1 + |PrintAll(t.body)|;
            && Holds(ts, pos, tag) && Holds(ts, p1, PrintAll(t.body)) && Holds(ts, p2, Stmt([Id("endfor")]))
            && pos + |PrintTree(t)| == p2 + |Stmt([Id("endfor")])|
  {
    hide Holds, Print;
    var tag, end := Stmt(ForHead(t.key, t.value) + Print(t.cond)), Stmt([Id("endfor")]);
    HoldsSplit(ts, pos, tag + PrintAll(t.body), end);
    HoldsSplit(ts, pos, tag, PrintAll(t.body));
  }

  lemma BlockParts(ts: seq<Token>, known: (string, nat) -> bool, t: Tree, pos: nat, names: set<string>)
    requires t.TBlock? && Good(t, known) && Names(t) !! names && Holds(ts, pos, PrintTree(t))
    ensures GoodAll(t.body, known) && NamesAll(t.body) !! names + {t.name} && t.name !in names
    ensures var tag := Stmt([Id("block"), Id(t.name)]);
            var p1 := pos + |tag|;
            var p2 := p1 + |PrintAll(t.body)|;
            && Holds(ts, pos, tag) && Holds(ts, p1, PrintAll(t.body)) && Holds(ts, p2, Stmt([Id("endblock")]))
            && pos + |PrintTree(t)| == p2 + |Stmt([Id("endblock")])|
  {
    hide Holds, Print;
    var tag, end := Stmt([Id("block"), Id(t.name)]), Stmt([Id("endblock")]);
    HoldsSplit(ts, pos, tag + PrintAll(t.body), end);
    HoldsSplit(ts, pos, tag, PrintAll(t.body));
  }

  lemma LoopPrintText(ts: seq<Token>, known: (string, nat) -> bool, t: string, pos: nat, st: State)
    requires Ok(st) && Holds(ts, pos, [Other(Text(t))])
    ensures Ok(AddNode(st, TextNode(t)))
    ensures Loop(ts, known, pos, st) == Loop(ts, known, pos + 1, AddNode(st, TextNode(t)))
  {
    BlocksKeepOk(st, TextNode(t), "");
    HoldsOne(ts, pos, Other(Text(t)));
    hide Ok, Statement, Condition, AddNode, Holds;
  }

  lemma LoopPrintExpr(ts: seq<Token>, known: (string, nat) -> bool, e: Expr, pos: nat, st: State)
    requires Ok(st) && Known(e, known) && Holds(ts, pos, [Other(ExpressionOpen)] + Print(e) + [Other(ExpressionClose)])
    ensures Ok(AddNode(st, ExpressionNode(Some(e))))
    ensures Loop(ts, known, pos, st) == Loop(ts, known, pos + |Print(e)| + 2, AddNode(st, ExpressionNode(Some(e))))
  {
    BlocksKeepOk(st, ExpressionNode(Some(e)), "");
    hide Ok, Statement, AddNode, Holds, Condition, Print, Known;
    assert [Other(ExpressionOpen)] + Print(e) + [Other(ExpressionClose)]
        == [Other(ExpressionOpen)] + (Print(e) + [Other(ExpressionClose)]);
    HoldsSplit(ts, pos, [Other(ExpressionOpen)], Print(e) + [Other(ExpressionClose)]);
    HoldsOne(ts, pos, Other(ExpressionOpen));
    ConditionPrint(ts, known, e, pos + 1, ExpressionClose);
  }

  lemma {:induction false} LoopPrint(ts: seq<Token>, known: (string, nat) -> bool, t: Tree, pos: nat, st: State)
    requires Ok(st) && Good(t, known) && Names(t) !! st.names && Holds(ts, pos, PrintTree(t))
    ensures Loop(ts, known, pos, st) == Loop(ts, known, pos + |PrintTree(t)|, Build(st, t))
    decreases t, 1
  {
    hide Loop, Settled, ElseSettled, Ok, Holds, Names, GoodAll, Print, PrintAll, AddNode, Known;
    match t
    case TText(s) => LoopPrintText(ts, known, s, pos, st);
    case TExpr(e) => LoopPrintExpr(ts, known, e, pos, st);
    case TIf(_, _, _) => LoopPrintIf(ts, known, t, pos, st);
    case TFor(_, _, _, _) => LoopPrintFor(ts, known, t, pos, st);
    case TBlock(_, _) => LoopPrintBlock(ts, known, t, pos, st);
  }

  lemma {:induction false} LoopPrintAll(ts: seq<Token>, known: (string, nat) -> bool, trees: seq<Tree>, pos: nat,
                                        st: State)
    requires Ok(st) && GoodAll(trees, known) && NamesAll(trees) !! st.names && Holds(ts, pos, PrintAll(trees))
    ensures Loop(ts, known, pos, st) == Loop(ts, known, pos + |PrintAll(trees)|, BuildAll(st, trees))
    decreases trees, 0
  {
    hide Loop, Settled, ElseSettled, Ok, Holds, Print;
    if trees != [] {
      HoldsSplit(ts, pos, PrintTree(trees[0]), PrintAll(trees[1..]));
      LoopPrint(ts, known, trees[0], pos, st);
      SettledIsOk(st, Build(st, trees[0]));
      LoopPrintAll(ts, known, trees[1..], pos + |PrintTree(trees[0])|, Build(st, trees[0]));
    }
  }

  lemma {:induction false} LoopPrintElse(ts: seq<Token>, known: (string, nat) -> bool, els: Else, pos: nat, st: State)
    requires Ok(st) && st.ifStack != [] && GoodElse(els, known) && NamesElse(els) !! st.names
    requires Holds(ts, pos, PrintElse(els))
    ensures Loop(ts, known, pos, st) == Loop(ts, known, pos + |PrintElse(els)|, BuildElse(st, els))
    decreases els, 1
  {
    hide Loop, Settled, ElseSettled, Ok, Holds, Print;
    match els
    case NoElse =>
    case ElseBody(b) =>
      HoldsSplit(ts, pos, Stmt([Id("else")]), PrintAll(b));
      ElseTag(ts, known, pos, st);
      LoopPrintAll(ts, known, b, pos + 3, OpenElse(st));
    case ElseIf(c, b, e) =>
      LoopPrintElseIf(ts, known, els, pos, st);
  }

  lemma {:induction false} LoopPrintElseIf(ts: seq<Token>, known: (string, nat) -> bool, els: Else, pos: nat, st: State)
    requires Ok(st) && st.ifStack != [] && els.ElseIf? && GoodElse(els, known) && NamesElse(els) !! st.names
    requires Holds(ts, pos, PrintElse(els))
    ensures Loop(ts, known, pos, st) == Loop(ts, known, pos + |PrintElse(els)|, BuildElse(st, els))
    decreases els, 0
  {
    hide Loop, Settled, ElseSettled, Good, GoodAll, GoodElse, Names, NamesAll, NamesElse, Print, PrintTree, PrintAll;
    hide PrintElse, Build, BuildAll, Holds, Known;
    ElseIfParts(ts, known, els, pos, st.names);
    ElseIfTag(ts, known, pos, st, els.cond);
    var s1 := OpenIf(OpenElse(st), true, Some(els.cond));
    assert s1.names == st.names;
    hide Ok, OpenIf, OpenElse;
    var p1 := pos + |Stmt([Id("else"), Id("if")] + Print(els.cond))|;
    LoopPrintAll(ts, known, els.body, p1, s1);
    var s2 := BuildAll(s1, els.body);
    StillOpen(OpenElse(st), true, els.cond, s1, s2);
    LoopPrintElse(ts, known, els.els, p1 + |PrintAll(els.body)|, s2);
  }

  lemma {:induction false} LoopPrintIf(ts: seq<Token>, known: (string, nat) -> bool, t: Tree, pos: nat, st: State)
    requires Ok(st) && t.TIf? && Good(t, known) && Names(t) !! st.names && Holds(ts, pos, PrintTree(t))
    ensures Loop(ts, known, pos, st) == Loop(ts, known, pos + |PrintTree(t)|, BuildIf(st, t))
    decreases t, 0
  {
    hide Loop, Settled, ElseSettled, Good, GoodAll, GoodElse, Names, NamesAll, NamesElse, Print, PrintTree, PrintAll;
    hide PrintElse, Build, BuildAll, BuildElse, Holds, Known;
    IfParts(ts, known, t, pos, st.names);
    IfTag(ts, known, pos, st, t.cond);
    var s1 := OpenIf(st, false, Some(t.cond));
    assert s1.names == st.names;
    hide Ok, OpenIf, EndIf;
    var p1 := pos + |Stmt([Id("if")] + Print(t.cond))|;
    LoopPrintAll(ts, known, t.body, p1, s1);
    var s2 := BuildAll(s1, t.body);
    StillOpen(st, false, t.cond, s1, s2);
    LoopPrintElse(ts, known, t.els, p1 + |PrintAll(t.body)|, s2);
    var s3 := BuildElse(s2, t.els);
    EndIfSettles(st, t.cond, s1, s2, s3);
    EndIfTag(ts, known, p1 + |PrintAll(t.body)| + |PrintElse(t.els)|, s3);
  }

  lemma {:induction false} LoopPrintFor(ts: seq<Token>, known: (string, nat) -> bool, t: Tree, pos: nat, st: State)
    requires Ok(st) && t.TFor? && Good(t, known) && Names(t) !! st.names && Holds(ts, pos, PrintTree(t))
    ensures Loop(ts, known, pos, st) == Loop(ts, known, pos + |PrintTree(t)|, BuildFor(st, t))
    decreases t, 0
  {
    hide Loop, Settled, ElseSettled, Good, GoodAll, GoodElse, Names, NamesAll, NamesElse, Print, PrintTree, PrintAll;
    hide PrintElse, Build, BuildAll, BuildElse, Holds, Known;
    ForParts(ts, known, t, pos, st.names);
    ForTag(ts, known, pos, st, t.key, t.value, t.cond);
    var s1 := OpenFor(st, t.key, t.value, Some(t.cond));
    assert s1.names == st.names;
    hide Ok, OpenFor, EndFor;
    var p1 := pos + |Stmt(ForHead(t.key, t.value) + Print(t.cond))|;
    LoopPrintAll(ts, known, t.body, p1, s1);
    var s2 := BuildAll(s1, t.body);
    EndForSettles(st, t.key, t.value, t.cond, s1, s2);
    EndForTag(ts, known, p1 + |PrintAll(t.body)|, s2);
  }

  lemma {:induction false} LoopPrintBlock(ts: seq<Token>, known: (string, nat) -> bool, t: Tree, pos: nat, st: State)
    requires Ok(st) && t.TBlock? && Good(t, known) && Names(t) !! st.names && Holds(ts, pos, PrintTree(t))
    ensures Loop(ts, known, pos, st) == Loop(ts, known, pos + |PrintTree(t)|, BuildBlock(st, t))
    decreases t, 0
  {
    hide Loop, Settled, ElseSettled, Good, GoodAll, GoodElse, Names, NamesAll, NamesElse, Print, PrintTree, PrintAll;
    hide PrintElse, Build, BuildAll, BuildElse, Holds, Known;
    BlockParts(ts, known, t, pos, st.names);
    BlockTag(ts, known, pos, st, t.name);
    var s1 := OpenBlock(st, t.name);
    assert s1.names == st.names + {t.name};
    hide Ok, OpenBlock, EndBlock;
    var p1 := pos + |Stmt([Id("block"), Id(t.name)])|;
    LoopPrintAll(ts, known, t.body, p1, s1);
    var s2 := BuildAll(s1, t.body);
    EndBlockSettles(st, t.name, s1, s2);
    EndBlockTag(ts, known, p1 + |PrintAll(t.body)|, s2);
  }

  /** Parsing the printed template ends with the pointer at the root, all three stacks empty, and a root block
      that is the template, and no other. */
  lemma ParseTemplate(trees: seq<Tree>, known: (string, nat) -> bool)
    requires GoodAll(trees, known)
    ensures Ok(START)
    ensures var r := Loop(PrintAll(trees), known, 0, START);
            && r.Done? && r.value.current == 0
            && r.value.ifStack == [] && r.value.forStack == [] && r.value.blockStack == []
            && r.value.names == NamesAll(trees)
            && Rep(r.value.arena, Marks(0, 0, 0, 0), r.value.arena.blocks[0], trees)
            && forall others :: Rep(r.value.arena, Marks(0, 0, 0, 0), r.value.arena.blocks[0], others) ==>
                 others == trees
  {
    hide Loop, PrintAll, GoodAll, NamesAll, BuildAll, Rep, Settled;
    var ts, lo := PrintAll(trees), Marks(0, 0, 0, 0);
    BuiltFromStart(trees);
    var st := BuildAll(START, trees);
    LoopPrintAll(ts, known, trees, 0, START);
    LoopEnds(ts, known, st);
    forall others | Rep(st.arena, lo, st.arena.blocks[0], others)
      ensures others == trees
    {
      RepDetermines(st.arena, lo, st.arena.blocks[0], trees, others);
    }
  }

  /** What the parser has built at the end is the template. */
  lemma BuiltFromStart(trees: seq<Tree>)
    ensures Ok(START)
    ensures var st := BuildAll(START, trees);
            && Ok(st) && st.current == 0 && st.ifStack == [] && st.forStack == [] && st.blockStack == []
            && st.names == NamesAll(trees) && Rep(st.arena, Marks(0, 0, 0, 0), st.arena.blocks[0], trees)
  {
    hide Rep, BuildAll, NamesAll;
    var st := BuildAll(START, trees);
    BuildAllRep(START, trees);
    assert Added(START, st) == st.arena.blocks[0];
    RepFrame(st.arena, st.arena, MarksOf(START.arena), Marks(0, 0, 0, 0), st.arena.blocks[0], trees);
  }

  // ---------- The parser accepts more than printed templates ----------

  /** No end of a block is asked for: the template ends inside it. */
  lemma UnclosedBlockIsAccepted(n: string, known: (string, nat) -> bool)
    requires !Reserved(n)
    ensures Ok(START)
    ensures Loop(Stmt([Id("block"), Id(n)]), known, 0, START) == Done(OpenBlock(START, n), 4)
    ensures OpenBlock(START, n).blockStack == [0] && OpenBlock(START, n).current == 1
  {
    BlockTag(Stmt([Id("block"), Id(n)]), known, 0, START, n);
  }

  /** The pointer follows the statement that is closed, not the one that was opened last. */
  lemma OverlapStates(st: State, c: Expr, v: string)
    requires Ok(st)
    ensures var s1 := OpenIf(st, false, Some(c));
            && Ok(s1) && Ok(OpenFor(s1, None, v, Some(c)))
            && var s2 := OpenFor(s1, None, v, Some(c));
            && s2.ifStack != [] && Ok(EndIf(s2)) && EndIf(s2).forStack != []
            && var s4 := EndFor(EndIf(s2));
            && Ok(s4) && s4.current == |st.arena.blocks| == s1.current
            && s4.ifStack == st.ifStack && s4.forStack == st.forStack
            && s4.blockStack == st.blockStack
  {
    IfsKeepOk(st, Some(c));
    var s1 := OpenIf(st, false, Some(c));
    ForsKeepOk(s1, None, v, Some(c));
    var s2 := OpenFor(s1, None, v, Some(c));
    ElseKeepsOk(s2);
    assert !s2.arena.ifs[|st.arena.ifs|].nested;
    assert DropNested(s2.arena.ifs, s2.ifStack) == s2.ifStack;
    assert s2.forStack == st.forStack + [|st.arena.fors|] && s2.ifStack == st.ifStack + [|st.arena.ifs|];
    assert s2.arena.fors[|st.arena.fors|].parent == s1.current;
    hide Ok, OpenIf, OpenFor;
    ForsKeepOk(EndIf(s2), None, "", None);
  }

  /** Loops and conditions may overlap, as in `{% if c %}{% for v in c %}{% endif %}{% endfor %}`: all four tags
      are read and the stacks are as before, but the pointer is left inside the condition that was closed. */
  lemma OverlapIsAccepted(ts: seq<Token>, known: (string, nat) -> bool, pos: nat, st: State, c: Expr, v: string)
    requires Ok(st) && Known(c, known) && !Reserved(v)
    requires var p1 := pos + |Stmt([Id("if")] + Print(c))|;
             var p2 := p1 + |Stmt(ForHead(None, v) + Print(c))|;
             && Holds(ts, pos, Stmt([Id("if")] + Print(c))) && Holds(ts, p1, Stmt(ForHead(None, v) + Print(c)))
             && Holds(ts, p2, Stmt([Id("endif")])) && Holds(ts, p2 + 3, Stmt([Id("endfor")]))
    ensures var end := pos + |Stmt([Id("if")] + Print(c))| + |Stmt(ForHead(None, v) + Print(c))| + 6;
            end <= |ts| && Ok(Overlapped(st, c, v))
            && Loop(ts, known, pos, st) == Loop(ts, known, end, Overlapped(st, c, v))
    ensures var r := Overlapped(st, c, v);
            r.current == |st.arena.blocks| && r.ifStack == st.ifStack && r.forStack == st.forStack
            && r.blockStack == st.blockStack
  {
    hide Holds, Print, Loop, Known, ForHead, DropNested, EndIf, EndFor;
    OverlapStates(st, c, v);
    var p1 := pos + |Stmt([Id("if")] + Print(c))|;
    var p2 := p1 + |Stmt(ForHead(None, v) + Print(c))|;
    HoldsEnds(ts, p2 + 3, Stmt([Id("endfor")]));
    IfTag(ts, known, pos, st, c);
    var s1 := OpenIf(st, false, Some(c));
    ForTag(ts, known, p1, s1, None, v, c);
    var s2 := OpenFor(s1, None, v, Some(c));
    EndIfTag(ts, known, p2, s2);
    EndForTag(ts, known, p2 + 3, EndIf(s2));
  }

  /** What the four tags make of a state. */
  function Overlapped(st: State, c: Expr, v: string): State
    requires Ok(st)
  {
    OverlapStates(st, c, v);
    EndFor(EndIf(OpenFor(OpenIf(st, false, Some(c)), None, v, Some(c))))
  }

  lemma HoldsEnds(ts: seq<Token>, pos: nat, xs: seq<Token>)
    requires Holds(ts, pos, xs)
    ensures pos + |xs| <= |ts|
  {
  }

  lemma LoopEnds(ts: seq<Token>, known: (string, nat) -> bool, st: State)
    requires Ok(st) && st.ifStack == [] && st.forStack == []
    ensures Loop(ts, known, |ts|, st) == Done(st, |ts|)
  {
  }

  /** As a whole template the four tags are accepted, and what would follow them would become part of the
      condition. */
  lemma OverlapIsATemplate(c: Expr, v: string, known: (string, nat) -> bool)
    requires Known(c, known) && !Reserved(v)
    ensures var ts := Stmt([Id("if")] + Print(c)) + Stmt(ForHead(None, v) + Print(c)) + Stmt([Id("endif")])
                      + Stmt([Id("endfor")]);
            Ok(START) && Loop(ts, known, 0, START) == Done(Overlapped(START, c, v), |ts|)
            && Overlapped(START, c, v).current == 1
  {
    hide Loop, Print, ForHead, Known, Overlapped, Stmt;
    var a, b := Stmt([Id("if")] + Print(c)), Stmt(ForHead(None, v) + Print(c));
    var ts := a + b + Stmt([Id("endif")]) + Stmt([Id("endfor")]);
    assert Holds(ts, 0, ts);
    HoldsSplit(ts, 0, a + b + Stmt([Id("endif")]), Stmt([Id("endfor")]));
    HoldsSplit(ts, 0, a + b, Stmt([Id("endif")]));
    HoldsSplit(ts, 0, a, b);
    OverlapIsAccepted(ts, known, 0, START, c, v);
    LoopEnds(ts, known, Overlapped(START, c, v));
  }
}
