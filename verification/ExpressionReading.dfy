/**
 Which expressions the two stacks read as they are written. One level of an expression, between parentheses, commas
 or ends, is a sequence of operands and operators, where what stands in parentheses and a call are one operand.
 */
module ExpressionReading {
  import opened Space
  import opened ExpressionParser

  datatype Item = Operand(e: Expr) | Sign(op: Op)

  // ---------- One level ----------

  /** The items from `pos` to the end of the level. */
  function Level(ts: seq<Token>, known: (string, nat) -> bool, pos: nat): (r: Parsed<seq<Item>>)
    requires pos <= |ts|
    ensures r.Done? ==> pos <= r.pos <= |ts|
    decreases |ts| - pos
  {
    if pos == |ts| then Done([], pos)
    else match ts[pos]
      case Lit(a) => Before(Operand(Literal(a)), Level(ts, known, pos + 1))
      case Id(n) =>
        if At(ts, pos + 1, LeftParen) then
          match RunArgs(ts, known, pos + 2, [])
          case Fail => Fail
          case Done(a, p) =>
            if At(ts, p, RightParen) && known(n, |a|) then Before(Operand(Call(n, a)), Level(ts, known, p + 1))
            else Fail
        else Before(Operand(Data(n)), Level(ts, known, pos + 1))
      case Operator(o) => Before(Sign(o), Level(ts, known, pos + 1))
      case LeftParen =>
        (match Parse(ts, known, pos + 1)
         case Done(Some(e), p) =>
           if At(ts, p, RightParen) then Before(Operand(e), Level(ts, known, p + 1)) else Fail
         case _ => Fail)
      case _ => Done([], pos)
  }

  function Before(x: Item, r: Parsed<seq<Item>>): Parsed<seq<Item>> {
    if r.Fail? then Fail else Done([x] + r.value, r.pos)
  }

  /** The stacks after one more item. */
  function After(args: seq<Expr>, ops: seq<Op>, x: Item): Option<(seq<Expr>, seq<Op>)> {
    match x
    case Operand(e) => Some((args + [e], ops))
    case Sign(o) =>
      match PopWhile(args, ops, Some(o))
      case None => None
      case Some((a, os)) => Some((a, os + [o]))
  }

  /** What the two stacks make of the items. */
  function Execute(args: seq<Expr>, ops: seq<Op>, xs: seq<Item>, end: nat): Parsed<Option<Expr>>
    decreases |xs|
  {
    if xs == [] then Finish(args, ops, end)
    else match After(args, ops, xs[0])
      case None => Fail
      case Some((a, os)) => Execute(a, os, xs[1..], end)
  }

  lemma ExecuteFirst(args: seq<Expr>, ops: seq<Op>, x: Item, xs: seq<Item>, end: nat)
    ensures var r := After(args, ops, x);
            Execute(args, ops, [x] + xs, end) == if r.None? then Fail else Execute(r.value.0, r.value.1, xs, end)
  {
    assert ([x] + xs)[1..] == xs;
  }

  function ExecuteLevel(args: seq<Expr>, ops: seq<Op>, level: Parsed<seq<Item>>): Parsed<Option<Expr>> {
    if level.Fail? then Fail else Execute(args, ops, level.value, level.pos)
  }

  /** The parser works on the items of the level alone. */
  lemma {:induction false} RunIsExecute(ts: seq<Token>, known: (string, nat) -> bool, pos: nat, args: seq<Expr>,
                                        ops: seq<Op>)
    requires pos <= |ts|
    ensures Run(ts, known, pos, args, ops) == ExecuteLevel(args, ops, Level(ts, known, pos))
    decreases |ts| - pos, 0
  {
    hide Execute, PopWhile, Finish, RunArgs;
    if pos == |ts| {
      ExecuteNone(args, ops, pos);
    } else {
      match ts[pos]
      case Lit(a) => RunStep(ts, known, args, ops, Operand(Literal(a)), pos + 1);
      case Id(n) =>
        if At(ts, pos + 1, LeftParen) {
          var r := RunArgs(ts, known, pos + 2, []);
          if r.Done? && At(ts, r.pos, RightParen) && known(n, |r.value|) {
            RunStep(ts, known, args, ops, Operand(Call(n, r.value)), r.pos + 1);
          }
        } else {
          RunStep(ts, known, args, ops, Operand(Data(n)), pos + 1);
        }
      case Operator(o) => RunStep(ts, known, args, ops, Sign(o), pos + 1);
      case LeftParen =>
        var r := Parse(ts, known, pos + 1);
        if r.Done? && r.value.Some? && At(ts, r.pos, RightParen) {
          RunStep(ts, known, args, ops, Operand(r.value.value), r.pos + 1);
        }
      case _ => ExecuteNone(args, ops, pos);
    }
  }

  lemma ExecuteNone(args: seq<Expr>, ops: seq<Op>, end: nat)
    ensures Execute(args, ops, [], end) == Finish(args, ops, end)
  {
  }

  lemma {:induction false} RunStep(ts: seq<Token>, known: (string, nat) -> bool, args: seq<Expr>, ops: seq<Op>,
                                   x: Item, pos: nat)
    requires pos <= |ts|
    ensures ExecuteLevel(args, ops, Before(x, Level(ts, known, pos)))
         == if After(args, ops, x).None? then Fail
            else Run(ts, known, pos, After(args, ops, x).value.0, After(args, ops, x).value.1)
    decreases |ts| - pos, 1
  {
    hide Execute, PopWhile, Run, Level, After;
    var level, r := Level(ts, known, pos), After(args, ops, x);
    if level.Done? {
      ExecuteFirst(args, ops, x, level.value, level.pos);
    }
    if r.Some? {
      RunIsExecute(ts, known, pos, r.value.0, r.value.1);
    }
  }

  // ---------- Readings ----------

  /** An expression over the operands of a level; none of them is opened. */
  datatype Shape = Atom(e: Expr) | Prefix(arg: Shape) | Infix(op: BinOp, left: Shape, right: Shape)

  function Value(t: Shape): Expr {
    match t
    case Atom(e) => e
    case Prefix(x) => Negation(Value(x))
    case Infix(op, l, r) => Binary(op, Value(l), Value(r))
  }

  /** The items as they are written. */
  function Flat(t: Shape): (r: seq<Item>)
    ensures |r| > 0
  {
    match t
    case Atom(e) => [Operand(e)]
    case Prefix(x) => [Sign(Not)] + Flat(x)
    case Infix(op, l, r) => Flat(l) + [Sign(Bin(op))] + Flat(r)
  }

  function Top(t: Shape): nat {
    match t
    case Atom(_) => 9
    case Prefix(_) => OpPrec(Not)
    case Infix(op, _, _) => OpPrec(Bin(op))
  }

  predicate FitsLeft(op: BinOp, p: nat) {
    p > OpPrec(Bin(op)) || (p == OpPrec(Bin(op)) && LeftAssoc(Bin(op)))
  }

  predicate FitsRight(o: Op, p: nat) {
    p > OpPrec(o) || (p == OpPrec(o) && !LeftAssoc(o))
  }

  /** No parentheses are missing: the operands of each operator bind as tightly as the precedence table asks. */
  predicate Tight(t: Shape) {
    match t
    case Atom(_) => true
    case Prefix(x) => Tight(x) && FitsRight(Not, Top(x))
    case Infix(op, l, r) => Tight(l) && Tight(r) && FitsLeft(op, Top(l)) && FitsRight(Bin(op), Top(r))
  }

  /** Operands and operators take turns, and `not` may come before an operand. */
  predicate Alternates(xs: seq<Item>, operandIsDue: bool)
    decreases |xs|
  {
    if xs == [] then !operandIsDue
    else match xs[0]
      case Operand(_) => operandIsDue && Alternates(xs[1..], false)
      case Sign(Not) => operandIsDue && Alternates(xs[1..], true)
      case Sign(Bin(_)) => !operandIsDue && Alternates(xs[1..], true)
  }

  /** No `not` stands behind an operator that binds no less tightly. */
  predicate Clean(xs: seq<Item>) {
    forall k :: 0 < k < |xs| && xs[k] == Sign(Not) && xs[k - 1].Sign? ==> OpPrec(xs[k - 1].op) < OpPrec(Not)
  }

  // ---------- What is clean is read as it is written ----------

  /** An operator that waits for its right operand, with its left one. */
  datatype Frame = NotFrame | BinFrame(op: BinOp, left: Shape)

  function OpOf(f: Frame): Op {
    if f.NotFrame? then Not else Bin(f.op)
  }

  function Lefts(fs: seq<Frame>): seq<Expr> {
    if fs == [] then []
    else
      var f := fs[|fs| - 1];
      Lefts(fs[..|fs| - 1]) + (if f.NotFrame? then [] else [Value(f.left)])
  }

  function Ops(fs: seq<Frame>): seq<Op> {
    seq(|fs|, i requires 0 <= i < |fs| => OpOf(fs[i]))
  }

  function Written(fs: seq<Frame>): seq<Item> {
    if fs == [] then []
    else
      var f := fs[|fs| - 1];
      Written(fs[..|fs| - 1]) + (if f.NotFrame? then [] else Flat(f.left)) + [Sign(OpOf(f))]
  }

  predicate Waiting(fs: seq<Frame>) {
    && (forall i :: 0 <= i < |fs| && fs[i].BinFrame? ==> Tight(fs[i].left) && FitsLeft(fs[i].op, Top(fs[i].left)))
    && (forall i :: 0 < i < |fs| ==> FitsRight(OpOf(fs[i - 1]), OpPrec(OpOf(fs[i]))))
  }

  predicate Admits(fs: seq<Frame>, t: Shape) {
    Tight(t) && (fs != [] ==> FitsRight(OpOf(fs[|fs| - 1]), Top(t)))
  }

  function Wrap(f: Frame, t: Shape): Shape {
    if f.NotFrame? then Prefix(t) else Infix(f.op, f.left, t)
  }

  lemma Push(fs: seq<Frame>, f: Frame)
    requires Waiting(fs) && (fs != [] ==> FitsRight(OpOf(fs[|fs| - 1]), OpPrec(OpOf(f))))
    requires f.BinFrame? ==> Tight(f.left) && FitsLeft(f.op, Top(f.left))
    ensures Waiting(fs + [f])
  {
    hide OpPrec, OpOf, Tight, Top, FitsLeft, FitsRight;
  }

  lemma LastFrame(fs: seq<Frame>, f: Frame)
    ensures Ops(fs + [f]) == Ops(fs) + [OpOf(f)]
    ensures Lefts(fs + [f]) == if f.NotFrame? then Lefts(fs) else Lefts(fs) + [Value(f.left)]
    ensures Written(fs + [f]) == (if f.NotFrame? then Written(fs) else Written(fs) + Flat(f.left)) + [Sign(OpOf(f))]
  {
    assert (fs + [f])[..|fs|] == fs;
  }

  lemma WrapFlat(f: Frame, t: Shape)
    ensures Value(Wrap(f, t)) == if f.NotFrame? then Negation(Value(t)) else Binary(f.op, Value(f.left), Value(t))
    ensures Flat(Wrap(f, t)) == (if f.NotFrame? then [] else Flat(f.left)) + [Sign(OpOf(f))] + Flat(t)
  {
  }

  lemma ApplyFrame(fs: seq<Frame>, f: Frame, t: Shape)
    ensures Apply(Lefts(fs + [f]) + [Value(t)], OpOf(f)) == Some(Lefts(fs) + [Value(Wrap(f, t))])
    ensures Written(fs + [f]) + Flat(t) == Written(fs) + Flat(Wrap(f, t))
  {
    hide Lefts, Written, Flat, Value, Wrap, Apply;
    LastFrame(fs, f);
    WrapFlat(f, t);
    if f.NotFrame? {
      ApplyToTop(Lefts(fs), Value(t), Value(t), And);
    } else {
      ApplyToTop(Lefts(fs), Value(f.left), Value(t), f.op);
    }
  }

  lemma WrapFits(fs: seq<Frame>, f: Frame, t: Shape, s: Option<Op>)
    requires Waiting(fs + [f]) && Admits(fs + [f], t) && Pops(OpOf(f), s)
    ensures Waiting(fs) && Admits(fs, Wrap(f, t))
    ensures s.Some? && s.value.Bin? ==> FitsLeft(s.value.op, Top(Wrap(f, t)))
  {
    assert (fs + [f])[|fs|] == f && (fs != [] ==> (fs + [f])[|fs| - 1] == fs[|fs| - 1]);
    forall i | 0 <= i < |fs|
      ensures (fs + [f])[i] == fs[i]
    {
    }
  }

  /** Popping wraps operators around the last operand, and loses nothing. */
  lemma {:induction false} Unwind(fs: seq<Frame>, t: Shape, s: Option<Op>) returns (gs: seq<Frame>, u: Shape)
    requires Waiting(fs) && Admits(fs, t)
    requires s.Some? && s.value.Bin? ==> FitsLeft(s.value.op, Top(t))
    ensures PopWhile(Lefts(fs) + [Value(t)], Ops(fs), s) == Some((Lefts(gs) + [Value(u)], Ops(gs)))
    ensures Waiting(gs) && Admits(gs, u) && Written(gs) + Flat(u) == Written(fs) + Flat(t)
    ensures gs != [] ==> !Pops(OpOf(gs[|gs| - 1]), s)
    ensures s.Some? && s.value.Bin? ==> FitsLeft(s.value.op, Top(u))
    decreases |fs|
  {
    hide Written, Lefts, Apply, Flat, Value, Wrap, FitsLeft, Waiting, Top;
    if fs == [] || !Pops(OpOf(fs[|fs| - 1]), s) {
      return fs, t;
    }
    var front, f := fs[..|fs| - 1], fs[|fs| - 1];
    assert fs == front + [f];
    LastFrame(front, f);
    ApplyFrame(front, f, t);
    WrapFits(front, f, t, s);
    PopOne(Lefts(fs) + [Value(t)], Ops(front), OpOf(f), s);
    gs, u := Unwind(front, Wrap(f, t), s);
  }

  lemma CleanRest(xs: seq<Item>, n: nat)
    requires Clean(xs) && n <= |xs|
    ensures Clean(xs[n..])
    ensures 0 < n < |xs| && xs[n] == Sign(Not) && xs[n - 1].Sign? ==> OpPrec(xs[n - 1].op) < OpPrec(Not)
  {
  }

  /** With operators waiting, an operand is due. */
  lemma {:induction false} ReadsOn(fs: seq<Frame>, xs: seq<Item>, end: nat) returns (t: Shape)
    requires Waiting(fs) && Alternates(xs, true) && Clean(xs)
    requires fs != [] && xs[0] == Sign(Not) ==> OpPrec(OpOf(fs[|fs| - 1])) < OpPrec(Not)
    ensures Tight(t) && Flat(t) == Written(fs) + xs
    ensures Execute(Lefts(fs), Ops(fs), xs, end) == Done(Some(Value(t)), end)
    decreases |xs|
  {
    hide Written, Lefts, Ops, Flat, PopWhile, Tight;
    CleanRest(xs, 1);
    assert xs == [xs[0]] + xs[1..];
    ExecuteFirst(Lefts(fs), Ops(fs), xs[0], xs[1..], end);
    match xs[0]
    case Sign(o) =>
      Push(fs, NotFrame);
      LastFrame(fs, NotFrame);
      NotIsPushed(fs);
      t := ReadsOn(fs + [NotFrame], xs[1..], end);
      assert Written(fs) + [Sign(Not)] + xs[1..] == Written(fs) + xs;
    case Operand(e) => t := ReadsOperand(fs, e, xs[1..], end);
  }

  lemma NotIsPushed(fs: seq<Frame>)
    requires fs != [] ==> OpPrec(OpOf(fs[|fs| - 1])) < OpPrec(Not)
    ensures PopWhile(Lefts(fs), Ops(fs), Some(Not)) == Some((Lefts(fs), Ops(fs)))
  {
  }

  lemma {:induction false} ReadsOperand(fs: seq<Frame>, e: Expr, xs: seq<Item>, end: nat) returns (t: Shape)
    requires Waiting(fs) && Alternates(xs, false) && Clean(xs)
    ensures Tight(t) && Flat(t) == Written(fs) + [Operand(e)] + xs
    ensures Execute(Lefts(fs) + [e], Ops(fs), xs, end) == Done(Some(Value(t)), end)
    decreases |xs|
  {
    hide Written, Lefts, Ops, Flat, PopWhile, Tight, Waiting, Top, OpPrec, Clean;
    AtomFits(e);
    if xs == [] {
      t := ReadsLast(fs, e, end);
      assert Written(fs) + [Operand(e)] + xs == Written(fs) + [Operand(e)];
    } else {
      var op, rest := xs[0].op.op, xs[1..];
      var gs, u := Unwind(fs, Atom(e), Some(Bin(op)));
      assert xs == [xs[0]] + rest;
      ExecuteFirst(Lefts(fs) + [e], Ops(fs), xs[0], rest, end);
      PushBinary(gs, op, u);
      CleanRest(xs, 1);
      t := ReadsOn(gs + [BinFrame(op, u)], rest, end);
      assert Written(fs) + [Operand(e)] + [xs[0]] + rest == Written(fs) + [Operand(e)] + xs;
    }
  }

  lemma PushBinary(gs: seq<Frame>, op: BinOp, u: Shape)
    requires Waiting(gs) && Tight(u) && FitsLeft(op, Top(u))
    requires gs != [] ==> !Pops(OpOf(gs[|gs| - 1]), Some(Bin(op)))
    ensures Waiting(gs + [BinFrame(op, u)]) && Ops(gs + [BinFrame(op, u)]) == Ops(gs) + [Bin(op)]
    ensures Lefts(gs + [BinFrame(op, u)]) == Lefts(gs) + [Value(u)]
    ensures Written(gs + [BinFrame(op, u)]) == Written(gs) + Flat(u) + [Sign(Bin(op))]
  {
    hide Waiting, Tight, Written, Lefts, Ops, Flat;
    Push(gs, BinFrame(op, u));
    LastFrame(gs, BinFrame(op, u));
  }

  lemma ReadsLast(fs: seq<Frame>, e: Expr, end: nat) returns (t: Shape)
    requires Waiting(fs)
    ensures Tight(t) && Flat(t) == Written(fs) + [Operand(e)]
    ensures Execute(Lefts(fs) + [e], Ops(fs), [], end) == Done(Some(Value(t)), end)
  {
    hide Flat, PopWhile, Tight, Waiting, Top, OpPrec;
    AtomFits(e);
    var gs;
    gs, t := Unwind(fs, Atom(e), None);
    assert gs == [];
    assert [] + Flat(t) == Flat(t) && [] + [Value(t)] == [Value(t)];
  }

  lemma AtomFits(e: Expr)
    ensures Tight(Atom(e)) && Flat(Atom(e)) == [Operand(e)] && Value(Atom(e)) == e
    ensures forall o :: FitsRight(o, Top(Atom(e)))
    ensures forall op :: FitsLeft(op, Top(Atom(e)))
  {
  }

  // ---------- What is read as it is written is clean ----------

  lemma {:induction false} FlatAlternates(t: Shape, rest: seq<Item>)
    requires Alternates(rest, false)
    ensures Alternates(Flat(t) + rest, true)
    decreases t
  {
    match t
    case Atom(e) => assert (Flat(t) + rest)[1..] == rest;
    case Prefix(x) =>
      FlatAlternates(x, rest);
      assert (Flat(t) + rest)[1..] == Flat(x) + rest;
    case Infix(op, l, r) =>
      FlatAlternates(r, rest);
      var tail := [Sign(Bin(op))] + (Flat(r) + rest);
      assert tail[1..] == Flat(r) + rest;
      FlatAlternates(l, tail);
      assert Flat(t) + rest == Flat(l) + tail;
  }

  /** An expression that starts with `not` binds no tighter than `not`. */
  lemma {:induction false} StartsWithNot(t: Shape)
    requires Tight(t) && Flat(t)[0] == Sign(Not)
    ensures Top(t) <= OpPrec(Not)
  {
    if t.Infix? {
      StartsWithNot(t.left);
    }
  }

  lemma CleanConcat(xs: seq<Item>, ys: seq<Item>)
    requires Clean(xs) && Clean(ys) && xs != [] && ys != []
    requires ys[0] == Sign(Not) && xs[|xs| - 1].Sign? ==> OpPrec(xs[|xs| - 1].op) < OpPrec(Not)
    ensures Clean(xs + ys)
  {
  }

  lemma {:induction false} TightIsClean(t: Shape)
    requires Tight(t)
    ensures Clean(Flat(t))
  {
    match t
    case Atom(_) =>
    case Prefix(x) =>
      TightIsClean(x);
      if Flat(x)[0] == Sign(Not) {
        StartsWithNot(x);
        assert false;
      }
      CleanConcat([Sign(Not)], Flat(x));
    case Infix(op, l, r) =>
      TightIsClean(l);
      TightIsClean(r);
      if Flat(r)[0] == Sign(Not) {
        StartsWithNot(r);
        assert OpPrec(Bin(op)) == OpPrec(Not) ==> LeftAssoc(Bin(op));
      }
      CleanConcat(Flat(l), [Sign(Bin(op))]);
      CleanConcat(Flat(l) + [Sign(Bin(op))], Flat(r));
  }

  // ---------- There is one such reading ----------

  function Skeleton(t: Shape): Expr {
    match t
    case Atom(_) => Data("x")
    case Prefix(x) => Negation(Skeleton(x))
    case Infix(op, l, r) => Binary(op, Skeleton(l), Skeleton(r))
  }

  function Marks(xs: seq<Item>): seq<Token> {
    seq(|xs|, i requires 0 <= i < |xs| => if xs[i].Operand? then Id("x") else Operator(xs[i].op))
  }

  lemma MarksConcat(xs: seq<Item>, op: BinOp, ys: seq<Item>)
    ensures Marks(xs + [Sign(Bin(op))] + ys) == Marks(xs) + [Operator(Bin(op))] + Marks(ys)
    ensures Marks([Sign(Not)] + ys) == [Operator(Not)] + Marks(ys)
  {
  }

  lemma PrintBare(op: BinOp, l: Expr, r: Expr)
    ensures Print(Data("x")) == [Id("x")]
    ensures FitsLeft(op, Prec(l)) && FitsRight(Bin(op), Prec(r)) ==>
              Print(Binary(op, l, r)) == Print(l) + [Operator(Bin(op))] + Print(r)
    ensures FitsRight(Not, Prec(r)) ==> Print(Negation(r)) == [Operator(Not)] + Print(r)
  {
  }

  lemma {:induction false} KnownSkeleton(t: Shape, known: (string, nat) -> bool)
    ensures Known(Skeleton(t), known) && Prec(Skeleton(t)) == Top(t)
  {
    match t
    case Atom(_) =>
    case Prefix(x) => KnownSkeleton(x, known);
    case Infix(_, l, r) => KnownSkeleton(l, known); KnownSkeleton(r, known);
  }

  lemma {:induction false} PrintSkeleton(t: Shape, known: (string, nat) -> bool)
    requires Tight(t)
    ensures Print(Skeleton(t)) == Marks(Flat(t))
  {
    hide Print, Prec, Top, FitsLeft, FitsRight, Known;
    match t
    case Atom(_) => PrintBare(And, Skeleton(t), Skeleton(t));
    case Prefix(x) =>
      PrintSkeleton(x, known);
      KnownSkeleton(x, known);
      PrintBare(And, Skeleton(x), Skeleton(x));
      MarksConcat([], And, Flat(x));
    case Infix(op, l, r) =>
      PrintSkeleton(l, known);
      PrintSkeleton(r, known);
      KnownSkeleton(l, known);
      KnownSkeleton(r, known);
      PrintBare(op, Skeleton(l), Skeleton(r));
      MarksConcat(Flat(l), op, Flat(r));
  }

  lemma {:induction false} SameLength(t: Shape, u: Shape)
    requires Skeleton(t) == Skeleton(u)
    ensures |Flat(t)| == |Flat(u)|
  {
    match t
    case Atom(_) =>
    case Prefix(x) => SameLength(x, u.arg);
    case Infix(_, l, r) => SameLength(l, u.left); SameLength(r, u.right);
  }

  lemma {:induction false} SkeletonDetermines(t: Shape, u: Shape)
    requires Skeleton(t) == Skeleton(u) && Flat(t) == Flat(u)
    ensures t == u
  {
    match t
    case Atom(_) =>
    case Prefix(x) =>
      assert Flat(t)[1..] == Flat(x) && Flat(u)[1..] == Flat(u.arg);
      SkeletonDetermines(x, u.arg);
    case Infix(_, l, r) =>
      SameLength(l, u.left);
      assert Flat(t)[..|Flat(l)|] == Flat(l) && Flat(u)[..|Flat(l)|] == Flat(u.left);
      assert Flat(t)[|Flat(l)| + 1..] == Flat(r) && Flat(u)[|Flat(l)| + 1..] == Flat(u.right);
      SkeletonDetermines(l, u.left);
      SkeletonDetermines(r, u.right);
  }

  /** No two readings without missing parentheses are written alike. */
  lemma ReadingIsUnique(t: Shape, u: Shape)
    requires Tight(t) && Tight(u) && Flat(t) == Flat(u)
    ensures t == u
  {
    var known := (n: string, k: nat) => true;
    PrintSkeleton(t, known);
    PrintSkeleton(u, known);
    KnownSkeleton(t, known);
    KnownSkeleton(u, known);
    PrintIsInjective(Skeleton(t), Skeleton(u), known);
    SkeletonDetermines(t, u);
  }

  // ---------- Main results ----------

  /** A level is read as the one expression that is written there, all parentheses it needs being there, if and
      only if operands and operators take turns and no `not` stands behind an operator that binds no less
      tightly. */
  lemma ReadAsWritten(ts: seq<Token>, known: (string, nat) -> bool, pos: nat, xs: seq<Item>, end: nat)
    requires pos <= |ts| && Level(ts, known, pos) == Done(xs, end)
    ensures (exists t :: Tight(t) && Flat(t) == xs && Parse(ts, known, pos) == Done(Some(Value(t)), end)) <==>
              Alternates(xs, true) && Clean(xs)
  {
    hide Execute, Level;
    RunIsExecute(ts, known, pos, [], []);
    if Alternates(xs, true) && Clean(xs) {
      var t := ReadsOn([], xs, end);
      assert Lefts([]) == [] && Ops([]) == [] && [] + xs == xs;
      assert Tight(t) && Flat(t) == xs;
    }
    if t :| Tight(t) && Flat(t) == xs {
      TightIsClean(t);
      FlatAlternates(t, []);
      assert Flat(t) + [] == xs;
    }
  }

  /** A `not` behind an operator that binds no less tightly takes away its right operand: what was to be
      `a + (b * (not c))` is read as `(a * b) + (not c)`. */
  lemma MisreadsNotAfterTighter(known: (string, nat) -> bool, o: BinOp, p: BinOp)
    requires OpPrec(Bin(o)) < OpPrec(Not) <= OpPrec(Bin(p))
    ensures Parse([Id("a"), Operator(Bin(o)), Id("b"), Operator(Bin(p)), Operator(Not), Id("c")], known, 0)
         == Done(Some(Binary(o, Binary(p, Data("a"), Data("b")), Negation(Data("c")))), 6)
  {
    hide Run, PopWhile, OpPrec, Finish, Apply;
    var ts := [Id("a"), Operator(Bin(o)), Id("b"), Operator(Bin(p)), Operator(Not), Id("c")];
    var a, b: Expr := Data("a"), Data("b");
    assert [] + [a] == [a] && [a] + [b] == [a, b];
    assert [] + [Bin(o)] == [Bin(o)] && [Bin(o)] + [Bin(p)] == [Bin(o), Bin(p)];
    StepName(ts, known, 0, [], [], "a");
    NothingWaits([a], Bin(o));
    StepOperator(ts, known, 1, [a], [], Bin(o), [a], []);
    StepName(ts, known, 2, [a], [Bin(o)], "b");
    LeavesWaiting([a, b], o, Bin(p));
    StepOperator(ts, known, 3, [a, b], [Bin(o)], Bin(p), [a, b], [Bin(o)]);
    var ab := Binary(p, a, b);
    ApplyToTop([], a, b, p);
    assert [] + [a] + [b] == [a, b] && [] + [ab] == [ab];
    PopOne([a, b], [Bin(o)], Bin(p), Some(Not));
    LeavesWaiting([ab], o, Not);
    StepOperator(ts, known, 4, [a, b], [Bin(o), Bin(p)], Not, [ab], [Bin(o)]);
    assert [Bin(o)] + [Not] == [Bin(o), Not];
    NegationIsLast(ts, known, 5, o, ab, "c");
  }

  lemma NegationIsLast(ts: seq<Token>, known: (string, nat) -> bool, pos: nat, o: BinOp, l: Expr, n: string)
    requires At(ts, pos, Id(n)) && pos + 1 == |ts|
    ensures Run(ts, known, pos, [l], [Bin(o), Not]) == Done(Some(Binary(o, l, Negation(Data(n)))), |ts|)
  {
    hide Run, PopWhile, OpPrec;
    var c := Data(n);
    assert [l] + [c] == [l, c] && [l] + [Negation(c)] == [l, Negation(c)] && [Bin(o)] + [Not] == [Bin(o), Not];
    StepName(ts, known, pos, [l], [Bin(o), Not], n);
    StepEnd(ts, known, |ts|, [l, c], [Bin(o), Not]);
    ApplyToTop([l], c, c, o);
    PopOne([l, c], [Bin(o)], Not, None);
    FinishOne(o, l, Negation(c), |ts|);
  }

  lemma LeavesWaiting(args: seq<Expr>, o: BinOp, s: Op)
    requires OpPrec(Bin(o)) < OpPrec(s)
    ensures PopWhile(args, [Bin(o)], Some(s)) == Some((args, [Bin(o)]))
  {
  }

  // ---------- What every accepted level has in common ----------

  function Operands(xs: seq<Item>): seq<Expr> {
    if xs == [] then []
    else (if xs[0].Operand? then [xs[0].e] else []) + Operands(xs[1..])
  }

  function Signs(xs: seq<Item>): multiset<Op> {
    if xs == [] then multiset{}
    else (if xs[0].Sign? then multiset{xs[0].op} else multiset{}) + Signs(xs[1..])
  }

  function Values(us: seq<Shape>): (r: seq<Expr>)
    ensures |r| == |us|
  {
    seq(|us|, i requires 0 <= i < |us| => Value(us[i]))
  }

  function FlatAll(us: seq<Shape>): seq<Item> {
    if us == [] then [] else FlatAll(us[..|us| - 1]) + Flat(us[|us| - 1])
  }

  function Own(x: Item): (r: (seq<Expr>, multiset<Op>)) {
    match x
    case Operand(e) => ([e], multiset{})
    case Sign(o) => ([], multiset{o})
  }

  lemma FirstItem(x: Item, xs: seq<Item>)
    ensures Operands([x] + xs) == Own(x).0 + Operands(xs) && Signs([x] + xs) == Own(x).1 + Signs(xs)
  {
    assert ([x] + xs)[1..] == xs;
  }

  lemma NoItems()
    ensures Operands([]) == [] && Signs([]) == multiset{} && FlatAll([]) == [] && Values([]) == []
  {
  }

  lemma OneItem(x: Item)
    ensures Operands([x]) == Own(x).0 && Signs([x]) == Own(x).1
  {
    FirstItem(x, []);
    assert [x] + [] == [x];
  }

  lemma {:induction false} ItemsOfBoth(xs: seq<Item>, ys: seq<Item>)
    ensures Operands(xs + ys) == Operands(xs) + Operands(ys) && Signs(xs + ys) == Signs(xs) + Signs(ys)
  {
    hide Operands, Signs, Own;
    if xs == [] {
      NoItems();
      assert xs + ys == ys;
    } else {
      FirstItem(xs[0], xs[1..]);
      ItemsOfBoth(xs[1..], ys);
      FirstItem(xs[0], xs[1..] + ys);
      assert [xs[0]] + xs[1..] == xs && [xs[0]] + (xs[1..] + ys) == xs + ys;
    }
  }

  lemma FlatLast(us: seq<Shape>, u: Shape)
    ensures FlatAll(us + [u]) == FlatAll(us) + Flat(u) && Values(us + [u]) == Values(us) + [Value(u)]
  {
    assert (us + [u])[..|us|] == us;
  }

  lemma FlatItems(us: seq<Shape>, u: Shape)
    ensures Operands(FlatAll(us + [u])) == Operands(FlatAll(us)) + Operands(Flat(u))
    ensures Signs(FlatAll(us + [u])) == Signs(FlatAll(us)) + Signs(Flat(u))
  {
    FlatLast(us, u);
    ItemsOfBoth(FlatAll(us), Flat(u));
  }

  lemma ItemsOfInfix(op: BinOp, l: Shape, r: Shape)
    ensures Operands(Flat(Infix(op, l, r))) == Operands(Flat(l)) + Operands(Flat(r))
    ensures Signs(Flat(Infix(op, l, r))) == Signs(Flat(l)) + Signs(Flat(r)) + multiset{Bin(op)}
    ensures Operands(Flat(Prefix(r))) == Operands(Flat(r)) && Signs(Flat(Prefix(r))) == Signs(Flat(r)) + multiset{Not}
  {
    hide Operands, Signs;
    OneItem(Sign(Bin(op)));
    OneItem(Sign(Not));
    ItemsOfBoth(Flat(l) + [Sign(Bin(op))], Flat(r));
    ItemsOfBoth(Flat(l), [Sign(Bin(op))]);
    ItemsOfBoth([Sign(Not)], Flat(r));
  }

  /** Applying an operator keeps the operands in order. */
  lemma ApplyShapes(us: seq<Shape>, o: Op) returns (vs: seq<Shape>)
    requires Apply(Values(us), o).Some?
    ensures Apply(Values(us), o) == Some(Values(vs))
    ensures Operands(FlatAll(vs)) == Operands(FlatAll(us)) && Signs(FlatAll(vs)) == Signs(FlatAll(us)) + multiset{o}
  {
    hide Operands, Signs, Flat, FlatAll, Value;
    var n := |us|;
    var r, front := us[n - 1], us[..n - 1];
    assert us == front + [r];
    FlatItems(front, r);
    match o
    case Not =>
      vs := front + [Prefix(r)];
      ItemsOfInfix(And, r, r);
      FlatItems(front, Prefix(r));
      NegationIs(r);
      assert Values(us)[..n - 1] == Values(front);
      FlatLast(front, Prefix(r));
    case Bin(op) =>
      var l, rest := us[n - 2], us[..n - 2];
      assert front == rest + [l];
      vs := rest + [Infix(op, l, r)];
      ItemsOfInfix(op, l, r);
      FlatItems(rest, l);
      FlatItems(rest, Infix(op, l, r));
      BinaryIs(op, l, r);
      assert Values(us)[..n - 2] == Values(rest);
      FlatLast(rest, Infix(op, l, r));
  }

  lemma NegationIs(t: Shape)
    ensures Value(Prefix(t)) == Negation(Value(t))
  {
  }

  lemma BinaryIs(op: BinOp, l: Shape, r: Shape)
    ensures Value(Infix(op, l, r)) == Binary(op, Value(l), Value(r))
  {
  }

  lemma FlatOfAtom(e: Expr)
    ensures Operands(Flat(Atom(e))) == [e] && Signs(Flat(Atom(e))) == multiset{} && Value(Atom(e)) == e
  {
  }

  lemma {:induction false} PopShapes(us: seq<Shape>, ops: seq<Op>, s: Option<Op>) returns (vs: seq<Shape>, os: seq<Op>)
    requires PopWhile(Values(us), ops, s).Some?
    ensures PopWhile(Values(us), ops, s) == Some((Values(vs), os))
    ensures Operands(FlatAll(vs)) == Operands(FlatAll(us))
    ensures Signs(FlatAll(vs)) + multiset(os) == Signs(FlatAll(us)) + multiset(ops)
    ensures s == None ==> os == []
    decreases |ops|
  {
    hide Operands, Signs, FlatAll, Values, Apply;
    vs, os := us, ops;
    if ops != [] && Pops(ops[|ops| - 1], s) {
      assert ops == ops[..|ops| - 1] + [ops[|ops| - 1]];
      vs := ApplyShapes(us, ops[|ops| - 1]);
      vs, os := PopShapes(vs, ops[..|ops| - 1], s);
    }
  }

  lemma {:induction false} ExecuteKeeps(us: seq<Shape>, ops: seq<Op>, xs: seq<Item>, end: nat) returns (t: Shape)
    requires Execute(Values(us), ops, xs, end).Done? && Execute(Values(us), ops, xs, end).value.Some?
    ensures Execute(Values(us), ops, xs, end) == Done(Some(Value(t)), end)
    ensures Operands(Flat(t)) == Operands(FlatAll(us)) + Operands(xs)
    ensures Signs(Flat(t)) == Signs(FlatAll(us)) + multiset(ops) + Signs(xs)
    decreases |xs|
  {
    hide Value, Flat, FlatAll, Values, PopWhile, Operands, Signs;
    NoItems();
    if xs == [] {
      var vs, os := PopShapes(us, ops, None);
      t := vs[0];
      assert vs == [] + [t];
      FlatItems([], t);
      FlatLast([], t);
    } else {
      FirstItem(xs[0], xs[1..]);
      assert xs == [xs[0]] + xs[1..];
      match xs[0]
      case Operand(e) =>
        FlatOfAtom(e);
        FlatItems(us, Atom(e));
        FlatLast(us, Atom(e));
        t := ExecuteKeeps(us + [Atom(e)], ops, xs[1..], end);
      case Sign(o) =>
        var vs, os := PopShapes(us, ops, Some(o));
        t := ExecuteKeeps(vs, os + [o], xs[1..], end);
    }
  }

  /** However operators are misplaced: an expression that is accepted consists of all the operands in their order,
      and of all the operators. */
  lemma AcceptedKeepsItems(ts: seq<Token>, known: (string, nat) -> bool, pos: nat, e: Expr, end: nat)
    returns (xs: seq<Item>, t: Shape)
    requires pos <= |ts| && Parse(ts, known, pos) == Done(Some(e), end)
    ensures Level(ts, known, pos) == Done(xs, end) && Value(t) == e
    ensures Operands(Flat(t)) == Operands(xs) && Signs(Flat(t)) == Signs(xs)
  {
    hide Level, Execute, Value, Flat, Operands, Signs;
    NoItems();
    RunIsExecute(ts, known, pos, [], []);
    xs := Level(ts, known, pos).value;
    t := ExecuteKeeps([], [], xs, Level(ts, known, pos).pos);
  }
}
