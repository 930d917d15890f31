/**
 The statement parser as the object it is: it moves its token pointer and its pointer to the current block,
 and appends to the nodes in place. `StatementParser` has the same parser as functions of the state.
 */
module TemplateParser {
  import opened Space
  import opened ExpressionParser
  import opened StatementParser

  class Parser {
    const ts: seq<Token>
    const known: (string, nat) -> bool
    var pos: nat
    var blocks: seq<seq<Node>>
    var ifs: seq<IfData>
    var fors: seq<ForData>
    var named: seq<NamedData>
    var current: nat
    var ifStack: seq<nat>
    var forStack: seq<nat>
    var blockStack: seq<nat>
    var names: set<string>

    constructor (ts: seq<Token>, known: (string, nat) -> bool)
      ensures this.ts == ts && this.known == known && pos == 0 && St() == START
    {
      this.ts, this.known := ts, known;
      pos, blocks, ifs, fors, named := 0, [[]], [], [], [];
      current, ifStack, forStack, blockStack, names := 0, [], [], [], {};
    }

    ghost function St(): State
      reads this
    {
      State(Arena(blocks, ifs, fors, named), current, ifStack, forStack, blockStack, names)
    }

    ghost predicate Valid()
      reads this
    {
      pos <= |ts| && Ok(St())
    }

    // Nothing is said of the state after an exception: the template is then given up.

    method ParseCondition(closing: Kind) returns (ok: bool, e: Option<Expr>)
      requires pos <= |ts|
      modifies this`pos
      ensures (if ok then Done(e, pos) else Fail) == Condition(ts, known, old(pos), closing)
    {
      var r := ParseExpression(ts, known, pos);
      if r.Fail? || !At(ts, r.pos, Other(closing)) {
        return false, None;
      }
      ok, e, pos := true, r.value, r.pos;
    }

    method Emplace(n: Node)
      requires Valid()
      modifies this`blocks
      ensures St() == AddNode(old(St()), n) && Valid()
    {
      BlocksKeepOk(St(), n, "");
      blocks := blocks[current := blocks[current] + [n]];
    }

    method EnterIf(nested: bool, cond: Option<Expr>)
      requires Valid() && (nested ==> ifStack != [])
      modifies this`blocks, this`ifs, this`ifStack, this`current
      ensures St() == OpenIf(old(St()), nested, cond) && Valid()
    {
      IfsKeepOk(St(), cond);
      var nb, ni := |blocks|, |ifs|;
      blocks := blocks[current := blocks[current] + [IfNode(ni)]];
      ifs := ifs + [IfData(cond, nb, nb + 1, false, nested, current)];
      blocks := blocks + [[], []];
      ifStack := ifStack + [ni];
      current := nb;
    }

    method EnterElse()
      requires Valid() && ifStack != []
      modifies this`ifs, this`current
      ensures St() == OpenElse(old(St())) && Valid()
    {
      ElseKeepsOk(St());
      var i := ifStack[|ifStack| - 1];
      ifs := ifs[i := ifs[i].(hasFalse := true)];
      current := ifs[i].whenFalse;
    }

    method LeaveIf()
      requires Valid() && ifStack != []
      modifies this`ifStack, this`current
      ensures St() == EndIf(old(St())) && Valid()
    {
      ElseKeepsOk(St());
      DropElseIfs();
      current := ifs[ifStack[|ifStack| - 1]].parent;
      ifStack := ifStack[..|ifStack| - 1];
    }

    method DropElseIfs()
      requires ifStack != [] && (forall k :: 0 <= k < |ifStack| ==> ifStack[k] < |ifs|) && !ifs[ifStack[0]].nested
      modifies this`ifStack
      ensures ifStack == DropNested(ifs, old(ifStack))
    {
      ghost var stack := ifStack;
      while ifs[ifStack[|ifStack| - 1]].nested
        invariant ifStack != [] && ifStack <= stack && DropNested(ifs, ifStack) == DropNested(ifs, stack)
        decreases |ifStack|
      {
        // the stack never runs empty here: the oldest `if` is not an `else if`
        assert |ifStack| > 1;
        ifStack := ifStack[..|ifStack| - 1];
      }
    }

    method EnterFor(key: Option<string>, value: string, cond: Option<Expr>)
      requires Valid()
      modifies this`blocks, this`fors, this`forStack, this`current
      ensures St() == OpenFor(old(St()), key, value, cond) && Valid()
    {
      ForsKeepOk(St(), key, value, cond);
      var nb, nf := |blocks|, |fors|;
      blocks := blocks[current := blocks[current] + [ForNode(nf)]];
      fors := fors + [ForData(key, value, cond, nb, current)];
      blocks := blocks + [[]];
      forStack := forStack + [nf];
      current := nb;
    }

    method LeaveFor()
      requires Valid() && forStack != []
      modifies this`forStack, this`current
      ensures St() == EndFor(old(St())) && Valid()
    {
      ForsKeepOk(St(), None, "", None);
      current := fors[forStack[|forStack| - 1]].parent;
      forStack := forStack[..|forStack| - 1];
    }

    method EnterBlock(name: string)
      requires Valid()
      modifies this`blocks, this`named, this`blockStack, this`current, this`names
      ensures St() == OpenBlock(old(St()), name) && Valid()
    {
      BlocksKeepOk(St(), TextNode(""), name);
      var nb, nn := |blocks|, |named|;
      blocks := blocks[current := blocks[current] + [BlockStatement(nn)]];
      named := named + [NamedData(name, nb, current)];
      blocks := blocks + [[]];
      blockStack := blockStack + [nn];
      current := nb;
      names := names + {name};
    }

    method LeaveBlock()
      requires Valid() && blockStack != []
      modifies this`blockStack, this`current
      ensures St() == EndBlock(old(St())) && Valid()
    {
      BlocksKeepOk(St(), TextNode(""), "");
      current := named[blockStack[|blockStack| - 1]].parent;
      blockStack := blockStack[..|blockStack| - 1];
    }

    method ParseIf(nested: bool, closing: Kind) returns (ok: bool)
      requires Valid() && pos < |ts| && (nested ==> ifStack != [])
      modifies this
      ensures ok == Condition(ts, known, old(pos) + 1, closing).Done?
      ensures ok ==> var c := Condition(ts, known, old(pos) + 1, closing);
                     pos == c.pos && St() == OpenIf(old(St()), nested, c.value) && Valid()
    {
      pos := pos + 1;
      var e;
      ok, e := ParseCondition(closing);
      if ok {
        EnterIf(nested, e);
      }
    }

    method ParseFor(closing: Kind) returns (ok: bool)
      requires Valid()
      modifies this
      ensures ok == ForStatement(ts, known, old(pos), old(St()), closing).Done?
      ensures ok ==> Valid() && ForStatement(ts, known, old(pos), old(St()), closing) == Done(St(), pos)
    {
      hide Ok, Word, Condition, OpenFor;
      var first, at := Word(ts, pos + 1), pos + 2;
      if first.None? {
        return false;
      }
      var key: Option<string>, value := None, first.value;
      if At(ts, at, Comma) {
        var second := Word(ts, at + 1);
        if second.None? {
          return false;
        }
        key, value, at := first, second.value, at + 2;
      }
      if Word(ts, at) != Some("in") {
        return false;
      }
      pos := at + 1;
      var e;
      ok, e := ParseCondition(closing);
      if ok {
        EnterFor(key, value, e);
      }
    }

    /** `parse_statement`; what it returns and what it throws both end the parse when it is no statement. */
    method ParseStatement(closing: Kind) returns (ok: bool)
      requires Valid()
      modifies this
      ensures ok == Statement(ts, known, old(pos), old(St()), closing).Done?
      ensures ok ==> Valid() && Statement(ts, known, old(pos), old(St()), closing) == Done(St(), pos)
    {
      var w := Word(ts, pos);
      if w == Some("if") {
        ok := ParseIf(false, closing);
      } else if w == Some("else") {
        ok := ParseElse(closing);
      } else if w == Some("for") {
        ok := ParseFor(closing);
      } else if w == Some("block") {
        var name := Word(ts, pos + 1);
        ok := name.Some? && name.value !in names;
        if ok {
          EnterBlock(name.value);
          pos := pos + 2;
        }
      } else {
        ok := ParseEnd(w);
      }
    }

    method ParseElse(closing: Kind) returns (ok: bool)
      requires Valid() && Word(ts, pos) == Some("else")
      modifies this
      ensures ok == Statement(ts, known, old(pos), old(St()), closing).Done?
      ensures ok ==> Valid() && Statement(ts, known, old(pos), old(St()), closing) == Done(St(), pos)
    {
      if ifStack == [] {
        return false;
      }
      EnterElse();
      pos := pos + 1;
      ok := true;
      if Word(ts, pos) == Some("if") {
        ok := ParseIf(true, closing);
      }
    }

    method ParseEnd(w: Option<string>) returns (ok: bool)
      requires Valid() && w == Word(ts, pos)
      requires w !in {Some("if"), Some("else"), Some("for"), Some("block")}
      modifies this
      ensures forall closing :: ok == Statement(ts, known, old(pos), old(St()), closing).Done?
      ensures ok ==> Valid()
      ensures ok ==> forall closing :: Statement(ts, known, old(pos), old(St()), closing) == Done(St(), pos)
    {
      ok := true;
      if w == Some("endif") && ifStack != [] {
        LeaveIf();
      } else if w == Some("endfor") && forStack != [] {
        LeaveFor();
      } else if w == Some("endblock") && blockStack != [] {
        LeaveBlock();
      } else {
        return false;
      }
      pos := pos + 1;
    }

    /** `parse_into` on a parser that was just created. */
    method ParseInto() returns (ok: bool)
      requires Valid()
      modifies this
      ensures ok == Loop(ts, known, old(pos), old(St())).Done?
      ensures ok ==> Valid() && Loop(ts, known, old(pos), old(St())) == Done(St(), |ts|)
    {
      ghost var all := Loop(ts, known, pos, St());
      ok := true;
      while ok && pos < |ts|
        invariant ok ==> Valid() && Loop(ts, known, pos, St()) == all
        invariant !ok ==> all == Fail
        decreases ok, |ts| - pos
      {
        ok := ParseNode();
      }
      ok := ok && ifStack == [] && forStack == [];
    }

    /** One turn of the loop of `parse_into`. */
    method ParseNode() returns (ok: bool)
      requires Valid() && pos < |ts|
      modifies this
      ensures ok ==> Valid() && pos > old(pos) && Loop(ts, known, pos, St()) == Loop(ts, known, old(pos), old(St()))
      ensures !ok ==> Loop(ts, known, old(pos), old(St())) == Fail
    {
      hide Ok, Statement, Condition, OpenIf, OpenElse, Word;
      match ts[pos]
      case Other(Text(s)) =>
        Emplace(TextNode(s));
        pos, ok := pos + 1, true;
      case Other(StatementOpen) =>
        pos := pos + 1;
        ok := ParseStatement(StatementClose);
        ok := ok && At(ts, pos, Other(StatementClose));
        if ok {
          pos := pos + 1;
        }
      case Other(LineStatementOpen) =>
        pos := pos + 1;
        ok := ParseStatement(LineStatementClose);
        ok := ok && (pos == |ts| || ts[pos] == Other(LineStatementClose));
        if ok && pos < |ts| {
          pos := pos + 1;
        }
      case Other(ExpressionOpen) =>
        pos := pos + 1;
        var e;
        ok, e := ParseCondition(ExpressionClose);
        if ok {
          Emplace(ExpressionNode(e));
          pos := pos + 1;
        }
      case Other(CommentOpen) =>
        ok := At(ts, pos + 1, Other(CommentClose));
        if ok {
          pos := pos + 2;
        }
      case _ =>
        ok := false;
    }
  }
}
