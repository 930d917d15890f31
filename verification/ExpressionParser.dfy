/**
 The expression parser of the template engine: one pass over the tokens with a stack of arguments and a
 stack of operators, calling itself for parentheses and for the arguments of functions.
 */
module ExpressionParser {
  import opened Space

  datatype BinOp =
    | And | Or
    | In | Equal | NotEqual | Greater | GreaterEqual | Less | LessEqual
    | Add | Subtract
    | Multiplication | Division | Modulo
    | Power

  /** What the operator stack holds: a `FunctionNode` without its arguments. */
  datatype Op = Not | Bin(op: BinOp)

  datatype Expr =
    | Literal(text: string)
    | Data(name: string)
    | Negation(arg: Expr)
    | Binary(op: BinOp, left: Expr, right: Expr)
    | Call(name: string, args: seq<Expr>)

  /** The kinds of token at which an expression ends, besides `)` and `,`. */
  datatype Kind =
    | Text(s: string)
    | StatementOpen | StatementClose
    | LineStatementOpen | LineStatementClose
    | ExpressionOpen | ExpressionClose
    | CommentOpen | CommentClose
    | Unknown

  /** `Lit` is a literal with its extent, `Id` a word that is not reserved; the words `and`, `or`, `in` and
      `not` are operators. The end of the sequence is the end of the input. */
  datatype Token =
    | Lit(text: string) | Id(text: string) | Operator(op: Op)
    | LeftParen | RightParen | Comma | Other(kind: Kind)

  predicate Reserved(w: string) {
    w in {"true", "false", "null", "and", "or", "in", "not"}
  }

  // ---------- The precedence table ----------

  function OpPrec(o: Op): (p: nat)
    ensures 1 <= p <= 5
  {
    match o
    case Not => 4
    case Bin(b) =>
      match b
      case And => 1 case Or => 1
      case In => 2 case Equal => 2 case NotEqual => 2
      case Greater => 2 case GreaterEqual => 2 case Less => 2 case LessEqual => 2
      case Add => 3 case Subtract => 3
      case Multiplication => 4 case Division => 4 case Modulo => 4
      case Power => 5
  }

  predicate LeftAssoc(o: Op) {
    o != Bin(Power)
  }

  /** Whether an operator `t` on the stack is applied before `s` is pushed; at the end (`None`) all are. */
  predicate Pops(t: Op, s: Option<Op>) {
    match s
    case None => true
    case Some(o) => OpPrec(t) > OpPrec(o) || (OpPrec(t) == OpPrec(o) && LeftAssoc(o))
  }

  // ---------- The parser, as a function ----------

  /** `add_operator`: takes the arguments of `o` off the argument stack; `None` is "too few arguments". */
  function Apply(args: seq<Expr>, o: Op): Option<seq<Expr>> {
    var n := |args|;
    match o
    case Not => if n < 1 then None else Some(args[..n - 1] + [Negation(args[n - 1])])
    case Bin(b) => if n < 2 then None else Some(args[..n - 2] + [Binary(b, args[n - 2], args[n - 1])])
  }

  function PopWhile(args: seq<Expr>, ops: seq<Op>, s: Option<Op>): Option<(seq<Expr>, seq<Op>)>
    decreases |ops|
  {
    if ops == [] || !Pops(ops[|ops| - 1], s) then Some((args, ops))
    else match Apply(args, ops[|ops| - 1])
      case None => None
      case Some(a) => PopWhile(a, ops[..|ops| - 1], s)
  }

  /** The outcome at token `pos`; `expr` is `None` for an empty expression. */
  datatype Parsed<T> = Fail | Done(value: T, pos: nat)

  function Finish(args: seq<Expr>, ops: seq<Op>, pos: nat): Parsed<Option<Expr>> {
    match PopWhile(args, ops, None)
    case None => Fail
    case Some((a, _)) =>
      if |a| == 0 then Done(None, pos) else if |a| == 1 then Done(Some(a[0]), pos) else Fail
  }

  predicate At(ts: seq<Token>, pos: nat, t: Token) {
    pos < |ts| && ts[pos] == t
  }

  function Run(ts: seq<Token>, known: (string, nat) -> bool, pos: nat, args: seq<Expr>,
               ops: seq<Op>): (r: Parsed<Option<Expr>>)
    requires pos <= |ts|
    ensures r.Done? ==> pos <= r.pos <= |ts|
    decreases |ts| - pos, 0
  {
    if pos == |ts| then Finish(args, ops, pos)
    else match ts[pos]
      case Lit(a) => Run(ts, known, pos + 1, args + [Literal(a)], ops)
      case Id(n) =>
        if At(ts, pos + 1, LeftParen) then
          match RunArgs(ts, known, pos + 2, [])
          case Fail => Fail
          case Done(a, p) =>
            if At(ts, p, RightParen) && known(n, |a|) then Run(ts, known, p + 1, args + [Call(n, a)], ops) else Fail
        else Run(ts, known, pos + 1, args + [Data(n)], ops)
      case Operator(o) =>
        (match PopWhile(args, ops, Some(o))
         case None => Fail
         case Some((a, os)) => Run(ts, known, pos + 1, a, os + [o]))
      case LeftParen =>
        (match Run(ts, known, pos + 1, [], [])
         case Done(Some(e), p) => if At(ts, p, RightParen) then Run(ts, known, p + 1, args + [e], ops) else Fail
         case _ => Fail)
      case _ => Finish(args, ops, pos)
  }

  /** The arguments of a function, from the token after the parenthesis or comma. */
  function RunArgs(ts: seq<Token>, known: (string, nat) -> bool, pos: nat, args: seq<Expr>): (r: Parsed<seq<Expr>>)
    requires pos <= |ts|
    ensures r.Done? ==> pos <= r.pos <= |ts|
    decreases |ts| - pos, 1
  {
    match Run(ts, known, pos, [], [])
    case Fail => Fail
    case Done(None, p) => Done(args, p)
    case Done(Some(e), p) => if At(ts, p, Comma) then RunArgs(ts, known, p + 1, args + [e]) else Done(args + [e], p)
  }

  function Parse(ts: seq<Token>, known: (string, nat) -> bool, pos: nat): Parsed<Option<Expr>>
    requires pos <= |ts|
  {
    Run(ts, known, pos, [], [])
  }

  // ---------- The parser, as the loop it is ----------

  method PopOperators(args: seq<Expr>, ops: seq<Op>, s: Option<Op>) returns (ok: bool, a: seq<Expr>, os: seq<Op>)
    ensures (if ok then Some((a, os)) else None) == PopWhile(args, ops, s)
  {
    a, os, ok := args, ops, true;
    while os != [] && Pops(os[|os| - 1], s)
      invariant PopWhile(a, os, s) == PopWhile(args, ops, s)
      decreases |os|
    {
      match Apply(a, os[|os| - 1])
      case None => return false, a, os;
      case Some(b) => a, os := b, os[..|os| - 1];
    }
  }

  method ParseExpression(ts: seq<Token>, known: (string, nat) -> bool, start: nat) returns (r: Parsed<Option<Expr>>)
    requires start <= |ts|
    ensures r == Parse(ts, known, start)
    decreases |ts| - start, 0
  {
    var args: seq<Expr>, ops: seq<Op>, pos := [], [], start;
    while pos < |ts| && !(ts[pos].RightParen? || ts[pos].Comma? || ts[pos].Other?)
      invariant start <= pos <= |ts|
      invariant Run(ts, known, pos, args, ops) == Parse(ts, known, start)
      decreases |ts| - pos
    {
      match ts[pos]
      case Lit(a) =>
        args, pos := args + [Literal(a)], pos + 1;
      case Id(n) =>
        if At(ts, pos + 1, LeftParen) {
          var q := ParseArguments(ts, known, pos + 2);
          if q.Fail? || !At(ts, q.pos, RightParen) || !known(n, |q.value|) {
            return Fail;
          }
          args, pos := args + [Call(n, q.value)], q.pos + 1;
        } else {
          args, pos := args + [Data(n)], pos + 1;
        }
      case Operator(o) =>
        var ok;
        ok, args, ops := PopOperators(args, ops, Some(o));
        if !ok {
          return Fail;
        }
        ops, pos := ops + [o], pos + 1;
      case LeftParen =>
        var q := ParseExpression(ts, known, pos + 1);
        if q.Fail? || q.value.None? || !At(ts, q.pos, RightParen) {
          return Fail;
        }
        args, pos := args + [q.value.value], q.pos + 1;
    }
    var ok;
    ok, args, ops := PopOperators(args, ops, None);
    if !ok || |args| > 1 {
      return Fail;
    }
    r := Done(if |args| == 1 then Some(args[0]) else None, pos);
  }

  method ParseArguments(ts: seq<Token>, known: (string, nat) -> bool, start: nat) returns (r: Parsed<seq<Expr>>)
    requires start <= |ts|
    ensures r == RunArgs(ts, known, start, [])
    decreases |ts| - start, 1
  {
    var args: seq<Expr>, pos := [], start;
    while true
      invariant start <= pos <= |ts|
      invariant RunArgs(ts, known, pos, args) == RunArgs(ts, known, start, [])
      decreases |ts| - pos
    {
      var q := ParseExpression(ts, known, pos);
      if q.Fail? {
        return Fail;
      }
      if q.value.None? {
        return Done(args, q.pos);
      }
      args := args + [q.value.value];
      if !At(ts, q.pos, Comma) {
        return Done(args, q.pos);
      }
      pos := q.pos + 1;
    }
  }

  // ---------- Printing with the parentheses that are needed ----------

  function Prec(e: Expr): nat {
    match e
    case Negation(_) => OpPrec(Not)
    case Binary(op, _, _) => OpPrec(Bin(op))
    case _ => 9
  }

  /** `e` may stand without parentheses as the left operand of `op`. */
  predicate LeftBare(op: BinOp, e: Expr) {
    Prec(e) > OpPrec(Bin(op)) || (Prec(e) == OpPrec(Bin(op)) && LeftAssoc(Bin(op)))
  }

  /** `e` may stand without parentheses as the right operand of `o`. */
  predicate RightBare(o: Op, e: Expr) {
    Prec(e) > OpPrec(o) || (Prec(e) == OpPrec(o) && !LeftAssoc(o))
  }

  function Print(e: Expr): (r: seq<Token>)
    ensures |r| > 0
    decreases e, 1
  {
    match e
    case Literal(a) => [Lit(a)]
    case Data(n) => [Id(n)]
    case Negation(x) => [Operator(Not)] + PrintOperand(x, RightBare(Not, x))
    case Binary(op, l, r) =>
      PrintOperand(l, LeftBare(op, l)) + [Operator(Bin(op))] + PrintOperand(r, RightBare(Bin(op), r))
    case Call(n, args) => [Id(n), LeftParen] + PrintArgs(args) + [RightParen]
  }

  function PrintOperand(e: Expr, bare: bool): (r: seq<Token>)
    ensures |r| > 0
    decreases e, 2
  {
    if bare then Print(e) else [LeftParen] + Print(e) + [RightParen]
  }

  function PrintArgs(args: seq<Expr>): seq<Token>
    decreases args, 0
  {
    if args == [] then []
    else if |args| == 1 then Print(args[0])
    else Print(args[0]) + [Comma] + PrintArgs(args[1..])
  }

  /** Names are not reserved, and every function that is called can be found. */
  predicate Known(e: Expr, known: (string, nat) -> bool) {
    match e
    case Negation(x) => Known(x, known)
    case Binary(_, l, r) => Known(l, known) && Known(r, known)
    case Call(n, args) => !Reserved(n) && known(n, |args|) && forall a :: a in args ==> Known(a, known)
    case Data(n) => !Reserved(n)
    case Literal(_) => true
  }

  // ---------- What the stacks hold after a printed expression ----------

  /** The operators of the right edge of `e` are still waiting, with their left operands. */
  function Pending(e: Expr): (seq<Expr>, seq<Op>)
    decreases e, 0
  {
    match e
    case Negation(x) =>
      var (a, o) := OperandPending(x, RightBare(Not, x));
      (a, [Not] + o)
    case Binary(op, l, r) =>
      var (a, o) := OperandPending(r, RightBare(Bin(op), r));
      ([l] + a, [Bin(op)] + o)
    case _ => ([e], [])
  }

  function OperandPending(e: Expr, bare: bool): (seq<Expr>, seq<Op>)
    decreases e, 1
  {
    if bare then Pending(e) else ([e], [])
  }

  lemma PopOne(args: seq<Expr>, ops: seq<Op>, o: Op, s: Option<Op>)
    requires Pops(o, s) && Apply(args, o).Some?
    ensures PopWhile(args, ops + [o], s) == PopWhile(Apply(args, o).value, ops, s)
  {
    assert (ops + [o])[..|ops|] == ops;
  }

  lemma ApplyToTop(args: seq<Expr>, l: Expr, r: Expr, op: BinOp)
    ensures Apply(args + [r], Not) == Some(args + [Negation(r)])
    ensures Apply(args + [l] + [r], Bin(op)) == Some(args + [Binary(op, l, r)])
  {
    assert (args + [r])[..|args|] == args;
    assert (args + [l] + [r])[..|args|] == args;
  }

  /** An operator or the end that applies all that is waiting leaves `e`. */
  lemma {:induction false} PopPending(e: Expr, args: seq<Expr>, ops: seq<Op>, s: Option<Op>)
    requires forall o :: o in Pending(e).1 ==> Pops(o, s)
    ensures PopWhile(args + Pending(e).0, ops + Pending(e).1, s) == PopWhile(args + [e], ops, s)
    decreases e, 0
  {
    match e
    case Negation(x) =>
      var (a, o) := OperandPending(x, RightBare(Not, x));
      assert Not in Pending(e).1;
      assert ops + Pending(e).1 == ops + [Not] + o;
      PopOperand(x, RightBare(Not, x), args, ops + [Not], s);
      ApplyToTop(args, x, x, And);
      PopOne(args + [x], ops, Not, s);
    case Binary(op, l, r) =>
      var (a, o) := OperandPending(r, RightBare(Bin(op), r));
      assert Bin(op) in Pending(e).1;
      assert ops + Pending(e).1 == ops + [Bin(op)] + o && args + Pending(e).0 == args + [l] + a;
      PopOperand(r, RightBare(Bin(op), r), args + [l], ops + [Bin(op)], s);
      ApplyToTop(args, l, r, op);
      PopOne(args + [l] + [r], ops, Bin(op), s);
    case _ =>
      assert ops + [] == ops;
  }

  lemma {:induction false} PopOperand(e: Expr, bare: bool, args: seq<Expr>, ops: seq<Op>, s: Option<Op>)
    requires forall o :: o in OperandPending(e, bare).1 ==> Pops(o, s)
    ensures PopWhile(args + OperandPending(e, bare).0, ops + OperandPending(e, bare).1, s)
         == PopWhile(args + [e], ops, s)
    decreases e, 1
  {
    if bare {
      PopPending(e, args, ops, s);
    } else {
      assert ops + [] == ops;
    }
  }

  /** What waits binds at least as tightly as the expression itself. */
  lemma {:induction false} PendingIsTight(e: Expr)
    ensures forall o :: o in Pending(e).1 ==> OpPrec(o) >= Prec(e)
    decreases e
  {
    match e
    case Negation(x) =>
      if RightBare(Not, x) {
        PendingIsTight(x);
      }
    case Binary(op, l, r) =>
      if RightBare(Bin(op), r) {
        PendingIsTight(r);
      }
    case _ =>
  }

  // ---------- Reading a printed expression ----------

  predicate Holds(ts: seq<Token>, pos: nat, xs: seq<Token>) {
    pos + |xs| <= |ts| && ts[pos..pos + |xs|] == xs
  }

  lemma HoldsSplit(ts: seq<Token>, pos: nat, xs: seq<Token>, ys: seq<Token>)
    requires Holds(ts, pos, xs + ys)
    ensures Holds(ts, pos, xs) && Holds(ts, pos + |xs|, ys)
  {
    assert ts[pos..pos + |xs|] == (xs + ys)[..|xs|];
    assert ts[pos + |xs|..pos + |xs| + |ys|] == (xs + ys)[|xs|..];
  }

  lemma HoldsOne(ts: seq<Token>, pos: nat, t: Token)
    requires Holds(ts, pos, [t])
    ensures At(ts, pos, t)
  {
    assert ts[pos..pos + 1][0] == t;
  }

  lemma StepOperator(ts: seq<Token>, known: (string, nat) -> bool, pos: nat, args: seq<Expr>, ops: seq<Op>, o: Op,
                     a: seq<Expr>, os: seq<Op>)
    requires At(ts, pos, Operator(o)) && PopWhile(args, ops, Some(o)) == Some((a, os))
    ensures Run(ts, known, pos, args, ops) == Run(ts, known, pos + 1, a, os + [o])
  {
  }

  lemma StepParens(ts: seq<Token>, known: (string, nat) -> bool, pos: nat, args: seq<Expr>, ops: seq<Op>, e: Expr,
                   end: nat)
    requires At(ts, pos, LeftParen) && Run(ts, known, pos + 1, [], []) == Done(Some(e), end) && At(ts, end, RightParen)
    ensures Run(ts, known, pos, args, ops) == Run(ts, known, end + 1, args + [e], ops)
  {
  }

  predicate AtEnd(ts: seq<Token>, pos: nat) {
    pos == |ts| || (pos < |ts| && (ts[pos].RightParen? || ts[pos].Comma? || ts[pos].Other?))
  }

  lemma StepEnd(ts: seq<Token>, known: (string, nat) -> bool, pos: nat, args: seq<Expr>, ops: seq<Op>)
    requires AtEnd(ts, pos)
    ensures Run(ts, known, pos, args, ops) == Finish(args, ops, pos)
  {
  }

  lemma StepArgument(ts: seq<Token>, known: (string, nat) -> bool, pos: nat, acc: seq<Expr>, e: Expr, end: nat)
    requires pos <= |ts| && Run(ts, known, pos, [], []) == Done(Some(e), end)
    ensures RunArgs(ts, known, pos, acc)
         == if At(ts, end, Comma) then RunArgs(ts, known, end + 1, acc + [e]) else Done(acc + [e], end)
  {
  }

  lemma StepNoArgument(ts: seq<Token>, known: (string, nat) -> bool, pos: nat, acc: seq<Expr>)
    requires AtEnd(ts, pos)
    ensures RunArgs(ts, known, pos, acc) == Done(acc, pos)
  {
    StepEnd(ts, known, pos, [], []);
  }

  /** Where `e` is read, nothing on the stack is applied by the operators of `e`. */
  predicate Admits(ops: seq<Op>, e: Expr) {
    ops == [] || RightBare(ops[|ops| - 1], e)
  }

  lemma {:induction false} RunPrint(ts: seq<Token>, known: (string, nat) -> bool, e: Expr, pos: nat, args: seq<Expr>,
                                    ops: seq<Op>)
    requires Holds(ts, pos, Print(e)) && !At(ts, pos + |Print(e)|, LeftParen)
    requires Known(e, known) && Admits(ops, e)
    ensures Run(ts, known, pos, args, ops)
         == Run(ts, known, pos + |Print(e)|, args + Pending(e).0, ops + Pending(e).1)
    decreases e, 1
  {
    hide Run, Holds, RightBare, LeftBare, Admits, PrintArgs;
    assert ops + [] == ops;
    match e
    case Literal(a) => RunLiteral(ts, known, pos, args, ops, a);
    case Data(n) => RunData(ts, known, pos, args, ops, n);
    case Negation(_) => RunNegation(ts, known, e, pos, args, ops);
    case Binary(_, _, _) => RunBinary(ts, known, e, pos, args, ops);
    case Call(_, _) => RunCall(ts, known, e, pos, args, ops);
  }

  lemma RunLiteral(ts: seq<Token>, known: (string, nat) -> bool, pos: nat, args: seq<Expr>, ops: seq<Op>, a: string)
    requires Holds(ts, pos, [Lit(a)])
    ensures Run(ts, known, pos, args, ops) == Run(ts, known, pos + 1, args + [Literal(a)], ops)
  {
    HoldsOne(ts, pos, Lit(a));
  }

  lemma RunData(ts: seq<Token>, known: (string, nat) -> bool, pos: nat, args: seq<Expr>, ops: seq<Op>, n: string)
    requires Holds(ts, pos, [Id(n)]) && !At(ts, pos + 1, LeftParen)
    ensures Run(ts, known, pos, args, ops) == Run(ts, known, pos + 1, args + [Data(n)], ops)
  {
    HoldsOne(ts, pos, Id(n));
  }

  lemma {:induction false} RunOperand(ts: seq<Token>, known: (string, nat) -> bool, e: Expr, bare: bool, pos: nat,
                                      args: seq<Expr>, ops: seq<Op>)
    requires Holds(ts, pos, PrintOperand(e, bare)) && !At(ts, pos + |PrintOperand(e, bare)|, LeftParen)
    requires Known(e, known) && (bare ==> Admits(ops, e))
    ensures Run(ts, known, pos, args, ops)
         == Run(ts, known, pos + |PrintOperand(e, bare)|,
                args + OperandPending(e, bare).0, ops + OperandPending(e, bare).1)
    decreases e, 3
  {
    hide Run;
    if bare {
      RunPrint(ts, known, e, pos, args, ops);
    } else {
      HoldsSplit(ts, pos, [LeftParen] + Print(e), [RightParen]);
      HoldsSplit(ts, pos, [LeftParen], Print(e));
      HoldsOne(ts, pos, LeftParen);
      HoldsOne(ts, pos + 1 + |Print(e)|, RightParen);
      RunWhole(ts, known, e, pos + 1);
      StepParens(ts, known, pos, args, ops, e, pos + 1 + |Print(e)|);
      assert ops + [] == ops;
    }
  }

  /** A printed expression before a token that ends expressions is parsed to itself. */
  lemma {:induction false} RunWhole(ts: seq<Token>, known: (string, nat) -> bool, e: Expr, pos: nat)
    requires Holds(ts, pos, Print(e)) && Known(e, known)
    requires AtEnd(ts, pos + |Print(e)|)
    ensures Run(ts, known, pos, [], []) == Done(Some(e), pos + |Print(e)|)
    decreases e, 2
  {
    hide Run;
    RunPrint(ts, known, e, pos, [], []);
    StepEnd(ts, known, pos + |Print(e)|, [] + Pending(e).0, [] + Pending(e).1);
    PopPending(e, [], [], None);
    assert [] + [e] == [e];
  }

  lemma NothingPops(args: seq<Expr>, ops: seq<Op>, e: Expr, o: Op)
    requires Admits(ops, e) && OpPrec(o) == Prec(e)
    ensures PopWhile(args, ops, Some(o)) == Some((args, ops))
  {
    // an operator of equal precedence on the stack is `^`, and then so is `o`
    assert ops != [] && Prec(e) == OpPrec(ops[|ops| - 1]) ==> ops[|ops| - 1] == Bin(Power);
  }

  lemma {:induction false} RunNegation(ts: seq<Token>, known: (string, nat) -> bool, e: Expr, pos: nat,
                                       args: seq<Expr>, ops: seq<Op>)
    requires e.Negation? && Holds(ts, pos, Print(e)) && !At(ts, pos + |Print(e)|, LeftParen)
    requires Known(e, known) && Admits(ops, e)
    ensures Run(ts, known, pos, args, ops)
         == Run(ts, known, pos + |Print(e)|, args + Pending(e).0, ops + Pending(e).1)
    decreases e, 0
  {
    hide Run, PopWhile, Holds;
    var bare := RightBare(Not, e.arg);
    HoldsSplit(ts, pos, [Operator(Not)], PrintOperand(e.arg, bare));
    HoldsOne(ts, pos, Operator(Not));
    NothingPops(args, ops, e, Not);
    StepOperator(ts, known, pos, args, ops, Not, args, ops);
    RunOperand(ts, known, e.arg, bare, pos + 1, args, ops + [Not]);
    assert ops + [Not] + OperandPending(e.arg, bare).1 == ops + Pending(e).1;
  }

  lemma {:induction false} RunBinary(ts: seq<Token>, known: (string, nat) -> bool, e: Expr, pos: nat,
                                     args: seq<Expr>, ops: seq<Op>)
    requires e.Binary? && Holds(ts, pos, Print(e)) && !At(ts, pos + |Print(e)|, LeftParen)
    requires Known(e, known) && Admits(ops, e)
    ensures Run(ts, known, pos, args, ops)
         == Run(ts, known, pos + |Print(e)|, args + Pending(e).0, ops + Pending(e).1)
    decreases e, 0
  {
    hide Run, PopWhile, Holds, LeftAssoc;
    var o := Bin(e.op);
    var lbare, rbare := LeftBare(e.op, e.left), RightBare(o, e.right);
    var left, right := PrintOperand(e.left, lbare), PrintOperand(e.right, rbare);
    HoldsSplit(ts, pos, left + [Operator(o)], right);
    HoldsSplit(ts, pos, left, [Operator(o)]);
    HoldsOne(ts, pos + |left|, Operator(o));
    RunOperand(ts, known, e.left, lbare, pos, args, ops);
    if lbare {
      PendingIsTight(e.left);
    }
    PopOperand(e.left, lbare, args, ops, Some(o));
    NothingPops(args + [e.left], ops, e, o);
    StepOperator(ts, known, pos + |left|,
                 args + OperandPending(e.left, lbare).0, ops + OperandPending(e.left, lbare).1, o,
                 args + [e.left], ops);
    RunOperand(ts, known, e.right, rbare, pos + |left| + 1, args + [e.left], ops + [o]);
    assert ops + [o] + OperandPending(e.right, rbare).1 == ops + Pending(e).1;
    assert args + [e.left] + OperandPending(e.right, rbare).0 == args + Pending(e).0;
  }

  lemma CallTokens(ts: seq<Token>, pos: nat, n: string, inner: seq<Token>)
    requires Holds(ts, pos, [Id(n), LeftParen] + inner + [RightParen])
    ensures At(ts, pos, Id(n)) && At(ts, pos + 1, LeftParen) && At(ts, pos + 2 + |inner|, RightParen)
    ensures Holds(ts, pos + 2, inner)
  {
    HoldsSplit(ts, pos, [Id(n), LeftParen] + inner, [RightParen]);
    HoldsSplit(ts, pos, [Id(n), LeftParen], inner);
    assert [Id(n), LeftParen] == [Id(n)] + [LeftParen];
    HoldsSplit(ts, pos, [Id(n)], [LeftParen]);
    HoldsOne(ts, pos, Id(n));
    HoldsOne(ts, pos + 1, LeftParen);
    HoldsOne(ts, pos + 2 + |inner|, RightParen);
  }

  lemma StepCall(ts: seq<Token>, known: (string, nat) -> bool, pos: nat, args: seq<Expr>, ops: seq<Op>, n: string,
                 a: seq<Expr>, end: nat)
    requires At(ts, pos, Id(n)) && At(ts, pos + 1, LeftParen) && At(ts, end, RightParen) && known(n, |a|)
    requires RunArgs(ts, known, pos + 2, []) == Done(a, end)
    ensures Run(ts, known, pos, args, ops) == Run(ts, known, end + 1, args + [Call(n, a)], ops)
  {
  }

  lemma {:induction false} RunCall(ts: seq<Token>, known: (string, nat) -> bool, e: Expr, pos: nat, args: seq<Expr>,
                                   ops: seq<Op>)
    requires e.Call? && Holds(ts, pos, Print(e)) && Known(e, known)
    ensures Run(ts, known, pos, args, ops) == Run(ts, known, pos + |Print(e)|, args + [e], ops)
    decreases e, 0
  {
    hide Run, Holds, PrintArgs;
    CallTokens(ts, pos, e.name, PrintArgs(e.args));
    RunPrintArgs(ts, known, e.args, pos + 2, []);
    assert [] + e.args == e.args;
    StepCall(ts, known, pos, args, ops, e.name, e.args, pos + 2 + |PrintArgs(e.args)|);
  }

  lemma {:induction false} RunPrintArgs(ts: seq<Token>, known: (string, nat) -> bool, xs: seq<Expr>, pos: nat,
                                        acc: seq<Expr>)
    requires Holds(ts, pos, PrintArgs(xs)) && At(ts, pos + |PrintArgs(xs)|, RightParen)
    requires forall a :: a in xs ==> Known(a, known)
    ensures RunArgs(ts, known, pos, acc) == Done(acc + xs, pos + |PrintArgs(xs)|)
    decreases xs, 0
  {
    hide Run, RunArgs;
    if xs == [] {
      StepNoArgument(ts, known, pos, acc);
      assert acc + xs == acc;
    } else if |xs| == 1 {
      RunWhole(ts, known, xs[0], pos);
      StepArgument(ts, known, pos, acc, xs[0], pos + |Print(xs[0])|);
      assert acc + xs == acc + [xs[0]];
    } else {
      var next := pos + |Print(xs[0])|;
      HoldsSplit(ts, pos, Print(xs[0]) + [Comma], PrintArgs(xs[1..]));
      HoldsSplit(ts, pos, Print(xs[0]), [Comma]);
      HoldsOne(ts, next, Comma);
      RunWhole(ts, known, xs[0], pos);
      StepArgument(ts, known, pos, acc, xs[0], next);
      RunPrintArgs(ts, known, xs[1..], next + 1, acc + [xs[0]]);
      assert acc + [xs[0]] + xs[1..] == acc + xs;
    }
  }

  /** Printing and then parsing gives the expression back, and stops at what follows it. */
  lemma ParsePrint(e: Expr, rest: seq<Token>, known: (string, nat) -> bool)
    requires Known(e, known)
    requires rest == [] || rest[0].RightParen? || rest[0].Comma? || rest[0].Other?
    ensures Parse(Print(e) + rest, known, 0) == Done(Some(e), |Print(e)|)
  {
    RunWhole(Print(e) + rest, known, e, 0);
  }

  /** So no two expressions are printed alike: the parentheses that are left out are never missed. */
  lemma PrintIsInjective(a: Expr, b: Expr, known: (string, nat) -> bool)
    requires Known(a, known) && Known(b, known) && Print(a) == Print(b)
    ensures a == b
  {
    ParsePrint(a, [], known);
    ParsePrint(b, [], known);
  }

  // ---------- The parentheses that are printed are needed ----------

  /** What `l op r` is without the parentheses around `l`: operators that bind less tightly stay on top. */
  function WithoutLeftPair(l: Expr, op: BinOp, r: Expr): (t: Expr)
    ensures Prec(t) == if LeftBare(op, l) then OpPrec(Bin(op)) else Prec(l)
  {
    if LeftBare(op, l) then Binary(op, l, r)
    else match l
      case Binary(o, a, b) =>
        Binary(o, a, if RightBare(Bin(o), b) then WithoutLeftPair(b, op, r) else Binary(op, b, r))
      case Negation(x) => Negation(if RightBare(Not, x) then WithoutLeftPair(x, op, r) else Binary(op, x, r))
      case _ => Binary(op, l, r)
  }

  lemma Regroup(a: seq<Token>, b: seq<Token>, c: seq<Token>, d: seq<Token>)
    ensures a + (b + c + d) == a + b + c + d
  {
  }

  lemma {:induction false} WithoutLeftPairPrints(l: Expr, op: BinOp, r: Expr, known: (string, nat) -> bool)
    requires Known(l, known) && Known(r, known)
    ensures Known(WithoutLeftPair(l, op, r), known)
    ensures Print(WithoutLeftPair(l, op, r)) == Print(l) + [Operator(Bin(op))] + PrintOperand(r, RightBare(Bin(op), r))
  {
    if !LeftBare(op, l) {
      var right := PrintOperand(r, RightBare(Bin(op), r));
      match l
      case Binary(o, a, b) =>
        if RightBare(Bin(o), b) {
          WithoutLeftPairPrints(b, op, r, known);
        }
        var left := PrintOperand(a, LeftBare(o, a)) + [Operator(Bin(o))];
        Regroup(left, PrintOperand(b, RightBare(Bin(o), b)), [Operator(Bin(op))], right);
        var t := if RightBare(Bin(o), b) then WithoutLeftPair(b, op, r) else Binary(op, b, r);
        assert Print(t) == PrintOperand(b, RightBare(Bin(o), b)) + [Operator(Bin(op))] + right;
        assert Print(Binary(o, a, t)) == left + Print(t);
      case Negation(x) =>
        assert OpPrec(Bin(op)) > OpPrec(Not);
        if RightBare(Not, x) {
          WithoutLeftPairPrints(x, op, r, known);
          assert RightBare(Not, WithoutLeftPair(x, op, r));
        } else {
          assert RightBare(Not, Binary(op, x, r)) && !LeftBare(op, x);
        }
        Regroup([Operator(Not)], PrintOperand(x, RightBare(Not, x)), [Operator(Bin(op))], right);
        var t := if RightBare(Not, x) then WithoutLeftPair(x, op, r) else Binary(op, x, r);
        assert Print(t) == PrintOperand(x, RightBare(Not, x)) + [Operator(Bin(op))] + right;
        assert Print(Negation(t)) == [Operator(Not)] + Print(t);
      case _ =>
    }
  }

  /** A pair around a left operand: without it another expression is read. */
  lemma LeftPairIsNeeded(l: Expr, op: BinOp, r: Expr, known: (string, nat) -> bool)
    requires Known(l, known) && Known(r, known) && !LeftBare(op, l)
    ensures var ts := Print(l) + [Operator(Bin(op))] + PrintOperand(r, RightBare(Bin(op), r));
            Parse(ts, known, 0) == Done(Some(WithoutLeftPair(l, op, r)), |ts|)
    ensures WithoutLeftPair(l, op, r) != Binary(op, l, r)
  {
    var t := WithoutLeftPair(l, op, r);
    WithoutLeftPairPrints(l, op, r, known);
    ParsePrint(t, [], known);
    assert Print(t) + [] == Print(t);
    if l.Binary? {
      assert l.left < l;
    }
  }

  /** An operator with its right operand, `not` among them; it has no left one. */
  function Applied(o: Op, l: Expr, x: Expr): Expr {
    match o
    case Not => Negation(x)
    case Bin(op) => Binary(op, l, x)
  }

  /** The tokens up to the right operand. */
  function Lead(o: Op, l: Expr): (ts: seq<Token>)
    ensures |ts| > 0 && ts[|ts| - 1] == Operator(o)
  {
    match o
    case Not => [Operator(Not)]
    case Bin(op) => PrintOperand(l, LeftBare(op, l)) + [Operator(o)]
  }

  /** What `l o r` is without the parentheses around `r`; nothing, if `r` then starts with a `not` that comes too
      early. */
  function WithoutRightPair(o: Op, l: Expr, r: Expr): (t: Option<Expr>)
    ensures t.Some? ==> Prec(t.value) == if RightBare(o, r) then OpPrec(o) else Prec(r)
    decreases r
  {
    if RightBare(o, r) then Some(Applied(o, l, r))
    else match r
      case Binary(op, a, b) =>
        if LeftBare(op, a) then
          match WithoutRightPair(o, l, a)
          case None => None
          case Some(t) => Some(Binary(op, t, b))
        else Some(Binary(op, Applied(o, l, a), b))
      case _ => None
  }

  lemma {:induction false} WithoutRightPairPrints(o: Op, l: Expr, r: Expr, known: (string, nat) -> bool)
    requires Known(l, known) && Known(r, known) && WithoutRightPair(o, l, r).Some?
    ensures Known(WithoutRightPair(o, l, r).value, known)
    ensures Print(WithoutRightPair(o, l, r).value) == Lead(o, l) + Print(r)
    decreases r
  {
    if !RightBare(o, r) {
      var bare := LeftBare(r.op, r.left);
      if bare {
        WithoutRightPairPrints(o, l, r.left, known);
      } else {
        assert !RightBare(o, r.left);
      }
      var t := if bare then WithoutRightPair(o, l, r.left).value else Applied(o, l, r.left);
      var right := PrintOperand(r.right, RightBare(Bin(r.op), r.right));
      assert LeftBare(r.op, t) && Print(t) == Lead(o, l) + PrintOperand(r.left, bare);
      Regroup(Lead(o, l), PrintOperand(r.left, bare), [Operator(Bin(r.op))], right);
    }
  }

  lemma {:induction false} NotComesTooEarly(o: Op, l: Expr, r: Expr)
    requires WithoutRightPair(o, l, r) == None
    ensures Print(r)[0] == Operator(Not) && Pops(o, Some(Not))
    decreases r
  {
    assert Prec(r) == 9 ==> RightBare(o, r);
    if r.Binary? {
      NotComesTooEarly(o, l, r.left);
    } else {
      assert OpPrec(o) >= OpPrec(Not) && LeftAssoc(Not);
      assert Pops(o, Some(Not));
    }
  }

  /** A pair around a right operand, or around the operand of `not`: without it another expression is read, or
      none. */
  lemma RightPairIsNeeded(o: Op, l: Expr, r: Expr, known: (string, nat) -> bool)
    requires Known(l, known) && Known(r, known) && !RightBare(o, r)
    ensures Parse(Lead(o, l) + Print(r), known, 0)
         == match WithoutRightPair(o, l, r)
            case None => Fail
            case Some(t) => Done(Some(t), |Lead(o, l) + Print(r)|)
    ensures WithoutRightPair(o, l, r) != Some(Applied(o, l, r))
  {
    var ts := Lead(o, l) + Print(r);
    match WithoutRightPair(o, l, r)
    case Some(t) =>
      WithoutRightPairPrints(o, l, r, known);
      ParsePrint(t, [], known);
      assert Print(t) + [] == Print(t);
      if r.Binary? {
        assert r.right < r;
      }
    case None =>
      NotComesTooEarly(o, l, r);
      RunLead(ts, known, o, l);
  }

  /** Where the right operand is due, only its operator waits; a `not` there applies it too early. */
  lemma RunLead(ts: seq<Token>, known: (string, nat) -> bool, o: Op, l: Expr)
    requires Known(l, known) && Holds(ts, 0, Lead(o, l)) && At(ts, |Lead(o, l)|, Operator(Not)) && Pops(o, Some(Not))
    ensures Parse(ts, known, 0) == Fail
  {
    hide Run, PopWhile, Pending, Print, Holds;
    assert [] + [o] == [o] && [] + [l] == [l];
    NothingWaits([], o);
    NothingWaits([l], o);
    match o
    case Not =>
      HoldsOne(ts, 0, Operator(Not));
      StepOperator(ts, known, 0, [], [], Not, [], []);
      StepFails(ts, known, 1, [], [Not], Not);
    case Bin(op) =>
      RunToOperator(ts, known, op, l);
      StepFails(ts, known, |Lead(o, l)|, [l], [o], Not);
  }

  /** A left operand and its operator: then the operand is complete, and the operator waits. */
  lemma RunToOperator(ts: seq<Token>, known: (string, nat) -> bool, op: BinOp, l: Expr)
    requires Known(l, known) && Holds(ts, 0, Lead(Bin(op), l))
    ensures |Lead(Bin(op), l)| <= |ts|
    ensures Run(ts, known, 0, [], []) == Run(ts, known, |Lead(Bin(op), l)|, [l], [Bin(op)])
  {
    hide Run, PopWhile, Pending, Print;
    var o, bare := Bin(op), LeftBare(op, l);
    var left := PrintOperand(l, bare);
    NothingWaits([l], o);
    assert [] + [o] == [o] && [] + [l] == [l];
    HoldsSplit(ts, 0, left, [Operator(o)]);
    HoldsOne(ts, |left|, Operator(o));
    RunOperand(ts, known, l, bare, 0, [], []);
    if bare {
      PendingIsTight(l);
    }
    PopOperand(l, bare, [], [], Some(o));
    StepOperator(ts, known, |left|, [] + OperandPending(l, bare).0, [] + OperandPending(l, bare).1, o, [l], []);
  }

  lemma NothingWaits(args: seq<Expr>, o: Op)
    ensures PopWhile(args, [], Some(o)) == Some((args, []))
  {
  }

  lemma StepFails(ts: seq<Token>, known: (string, nat) -> bool, pos: nat, args: seq<Expr>, ops: seq<Op>, o: Op)
    requires At(ts, pos, Operator(o)) && ops != [] && Pops(ops[|ops| - 1], Some(o))
    requires Apply(args, ops[|ops| - 1]) == None
    ensures Run(ts, known, pos, args, ops) == Fail
  {
  }

  /** The parser is not picky the other way round: operators may also stand after their arguments. */
  lemma AcceptsMisplacedOperators(known: (string, nat) -> bool)
    ensures Parse([Id("a"), Id("b"), Operator(Bin(Add))], known, 0) == Done(Some(Binary(Add, Data("a"), Data("b"))), 3)
  {
    hide Run, PopWhile, Finish;
    var ts := [Id("a"), Id("b"), Operator(Bin(Add))];
    var a, b: Expr := Data("a"), Data("b");
    assert [] + [a] == [a] && [a] + [b] == [a, b] && [] + [Bin(Add)] == [Bin(Add)];
    StepName(ts, known, 0, [], [], "a");
    StepName(ts, known, 1, [a], [], "b");
    NothingWaits([a, b], Bin(Add));
    StepOperator(ts, known, 2, [a, b], [], Bin(Add), [a, b], []);
    StepEnd(ts, known, 3, [a, b], [Bin(Add)]);
    FinishOne(Add, a, b, 3);
  }

  lemma StepName(ts: seq<Token>, known: (string, nat) -> bool, pos: nat, args: seq<Expr>, ops: seq<Op>, n: string)
    requires At(ts, pos, Id(n)) && !At(ts, pos + 1, LeftParen)
    ensures Run(ts, known, pos, args, ops) == Run(ts, known, pos + 1, args + [Data(n)], ops)
  {
  }

  lemma FinishOne(op: BinOp, a: Expr, b: Expr, pos: nat)
    ensures Finish([a, b], [Bin(op)], pos) == Done(Some(Binary(op, a, b)), pos)
  {
    ApplyToTop([], a, b, op);
    assert [] + [a] + [b] == [a, b] && [] + [Binary(op, a, b)] == [Binary(op, a, b)];
    PopOne([a, b], [], Bin(op), None);
    assert [] + [Bin(op)] == [Bin(op)];
  }

  // ---------- The precedence of the operators ----------

  /** The binary operators by how tightly they bind; `not` binds as those of the fourth group. */
  const LEVELS: seq<set<BinOp>> := [
    {And, Or},
    {In, Equal, NotEqual, Greater, GreaterEqual, Less, LessEqual},
    {Add, Subtract},
    {Multiplication, Division, Modulo},
    {Power}
  ]

  /** Every operator has its place. */
  lemma LevelOf(o: BinOp) returns (i: nat)
    ensures i < |LEVELS| && forall j :: 0 <= j < |LEVELS| ==> (o in LEVELS[j] <==> j == i)
  {
    i := OpPrec(Bin(o)) - 1;
  }

  lemma LevelIsPrec(i: nat, o: BinOp)
    requires i < |LEVELS| && o in LEVELS[i]
    ensures OpPrec(Bin(o)) == i + 1 && (o == Power <==> i == 4)
  {
  }

  /** `a o b p c`. */
  function Three(a: string, o: BinOp, b: string, p: BinOp, c: string): seq<Token> {
    [Id(a), Operator(Bin(o)), Id(b), Operator(Bin(p)), Id(c)]
  }

  lemma PrintNames(op: BinOp, a: string, b: string)
    ensures Print(Data(a)) == [Id(a)] && Print(Data(b)) == [Id(b)]
    ensures Print(Binary(op, Data(a), Data(b))) == [Id(a), Operator(Bin(op)), Id(b)]
  {
    assert Print(Binary(op, Data(a), Data(b))) == Print(Data(a)) + [Operator(Bin(op))] + Print(Data(b));
  }

  lemma ReadRight(known: (string, nat) -> bool, o: BinOp, p: BinOp, a: string, b: string, c: string)
    requires !Reserved(a) && !Reserved(b) && !Reserved(c)
    requires OpPrec(Bin(p)) > OpPrec(Bin(o)) || (OpPrec(Bin(p)) == OpPrec(Bin(o)) && o == Power)
    ensures Parse(Three(a, o, b, p, c), known, 0) == Done(Some(Binary(o, Data(a), Binary(p, Data(b), Data(c)))), 5)
  {
    hide Run;
    PrintNames(o, a, b);
    PrintNames(p, b, c);
    var r := Binary(p, Data(b), Data(c));
    assert Print(Binary(o, Data(a), r)) == [Id(a)] + [Operator(Bin(o))] + Print(r);
    Whole(known, Binary(o, Data(a), r), Three(a, o, b, p, c));
  }

  lemma ReadLeft(known: (string, nat) -> bool, o: BinOp, p: BinOp, a: string, b: string, c: string)
    requires !Reserved(a) && !Reserved(b) && !Reserved(c)
    requires OpPrec(Bin(o)) > OpPrec(Bin(p)) || (OpPrec(Bin(o)) == OpPrec(Bin(p)) && p != Power)
    ensures Parse(Three(a, o, b, p, c), known, 0) == Done(Some(Binary(p, Binary(o, Data(a), Data(b)), Data(c))), 5)
  {
    hide Run;
    PrintNames(o, a, b);
    PrintNames(p, b, c);
    var l := Binary(o, Data(a), Data(b));
    assert Print(Binary(p, l, Data(c))) == Print(l) + [Operator(Bin(p))] + [Id(c)];
    Whole(known, Binary(p, l, Data(c)), Three(a, o, b, p, c));
  }

  /** The operator of the higher group takes the operand between the two, on whichever side it stands. */
  lemma TighterTakesOperand(known: (string, nat) -> bool, i: nat, j: nat, o: BinOp, p: BinOp, a: string, b: string,
                            c: string)
    requires i < j < |LEVELS| && o in LEVELS[i] && p in LEVELS[j] && !Reserved(a) && !Reserved(b) && !Reserved(c)
    ensures Parse(Three(a, o, b, p, c), known, 0) == Done(Some(Binary(o, Data(a), Binary(p, Data(b), Data(c)))), 5)
    ensures Parse(Three(a, p, b, o, c), known, 0) == Done(Some(Binary(o, Binary(p, Data(a), Data(b)), Data(c))), 5)
  {
    hide Run, Parse, OpPrec;
    LevelIsPrec(i, o);
    LevelIsPrec(j, p);
    ReadRight(known, o, p, a, b, c);
    ReadLeft(known, p, o, a, b, c);
  }

  /** Within a group the operand belongs to the left operator; only powers are taken from the right. */
  lemma SameLevelTakesOperand(known: (string, nat) -> bool, i: nat, o: BinOp, p: BinOp, a: string, b: string, c: string)
    requires i < |LEVELS| && o in LEVELS[i] && p in LEVELS[i] && !Reserved(a) && !Reserved(b) && !Reserved(c)
    ensures Parse(Three(a, o, b, p, c), known, 0)
         == Done(Some(if i == 4 then Binary(o, Data(a), Binary(p, Data(b), Data(c)))
                      else Binary(p, Binary(o, Data(a), Data(b)), Data(c))), 5)
  {
    hide Run, Parse, OpPrec;
    LevelIsPrec(i, o);
    LevelIsPrec(i, p);
    if i == 4 {
      ReadRight(known, o, p, a, b, c);
    } else {
      ReadLeft(known, o, p, a, b, c);
    }
  }

  /** `not` takes a whole power, but only the first operand of any other operator. */
  lemma NotTakesOperand(known: (string, nat) -> bool, i: nat, p: BinOp, a: string, b: string)
    requires i < |LEVELS| && p in LEVELS[i] && !Reserved(a) && !Reserved(b)
    ensures Parse([Operator(Not), Id(a), Operator(Bin(p)), Id(b)], known, 0)
         == Done(Some(if i == 4 then Negation(Binary(p, Data(a), Data(b)))
                      else Binary(p, Negation(Data(a)), Data(b))), 4)
  {
    hide Run;
    var ts := [Operator(Not), Id(a), Operator(Bin(p)), Id(b)];
    LevelIsPrec(i, p);
    PrintNames(p, a, b);
    if i == 4 {
      Whole(known, Negation(Binary(p, Data(a), Data(b))), ts);
    } else {
      assert Print(Negation(Data(a))) == [Operator(Not), Id(a)];
      PrintNames(p, b, b);
      Whole(known, Binary(p, Negation(Data(a)), Data(b)), ts);
    }
  }

  lemma Whole(known: (string, nat) -> bool, e: Expr, ts: seq<Token>)
    requires Known(e, known) && Print(e) == ts
    ensures Parse(ts, known, 0) == Done(Some(e), |ts|)
  {
    assert ts + [] == ts;
    ParsePrint(e, [], known);
  }

  /** An operator that binds no weaker than `not` is applied when `not` is read, before its operand is there.
      So `a * not b` is refused, and the parentheses that `Print` puts around such a `not` are needed. */
  lemma RefusesNotAfterTighter(known: (string, nat) -> bool, op: BinOp)
    ensures Parse([Id("a"), Operator(Bin(op)), Operator(Not), Id("b")], known, 0)
         == if op in LEVELS[0] + LEVELS[1] + LEVELS[2] then Done(Some(Binary(op, Data("a"), Negation(Data("b")))), 4)
            else Fail
  {
    hide Run, PopWhile, Print;
    var ts := [Id("a"), Operator(Bin(op)), Operator(Not), Id("b")];
    BindsLess(op);
    if OpPrec(Bin(op)) < OpPrec(Not) {
      PrintNegated(op, "a", "b");
      Whole(known, Binary(op, Data("a"), Negation(Data("b"))), ts);
    } else {
      assert [] + [Data("a")] == [Data("a")] && [] + [Bin(op)] == [Bin(op)];
      StepName(ts, known, 0, [], [], "a");
      NothingWaits([Data("a")], Bin(op));
      StepOperator(ts, known, 1, [Data("a")], [], Bin(op), [Data("a")], []);
      StepFails(ts, known, 2, [Data("a")], [Bin(op)], Not);
    }
  }

  lemma BindsLess(op: BinOp)
    ensures OpPrec(Bin(op)) < OpPrec(Not) <==> op in LEVELS[0] + LEVELS[1] + LEVELS[2]
  {
  }

  lemma PrintNegated(op: BinOp, a: string, b: string)
    requires OpPrec(Bin(op)) < OpPrec(Not)
    ensures Print(Binary(op, Data(a), Negation(Data(b)))) == [Id(a), Operator(Bin(op)), Operator(Not), Id(b)]
  {
    assert Print(Data(a)) == [Id(a)] && Print(Data(b)) == [Id(b)];
    assert Print(Negation(Data(b))) == [Operator(Not)] + [Id(b)];
  }
}
