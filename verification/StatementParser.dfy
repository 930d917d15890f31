/**
 The statement parser of the template engine. It builds the tree through a pointer to the block that is
 being filled and three separate stacks of open statements. The heap of nodes is an arena here: a pointer
 to a block or to a statement is its number, given out in the order of allocation.
 */
module StatementParser {
  import opened Space
  import opened ExpressionParser

  datatype Node =
    | TextNode(s: string) | ExpressionNode(root: Option<Expr>)
    | IfNode(id: nat) | ForNode(id: nat) | BlockStatement(id: nat)

  /** `IfStatementNode`, with its two blocks, the block it stands in, and whether it is an `else if`. */
  datatype IfData = IfData(cond: Option<Expr>, whenTrue: nat, whenFalse: nat, hasFalse: bool, nested: bool, parent: nat)

  /** Both kinds of `ForStatementNode`; a loop over an object also names its key. */
  datatype ForData = ForData(key: Option<string>, value: string, cond: Option<Expr>, body: nat, parent: nat)

  datatype NamedData = NamedData(name: string, body: nat, parent: nat)

  datatype Arena = Arena(blocks: seq<seq<Node>>, ifs: seq<IfData>, fors: seq<ForData>, named: seq<NamedData>)

  datatype State = State(arena: Arena, current: nat, ifStack: seq<nat>, forStack: seq<nat>, blockStack: seq<nat>,
                         names: set<string>)

  /** Every pointer is in range, and the oldest open `if` is not an `else if`. */
  predicate Ok(st: State) {
    && st.current < |st.arena.blocks|
    && (forall k :: 0 <= k < |st.ifStack| ==> st.ifStack[k] < |st.arena.ifs|)
    && (forall k :: 0 <= k < |st.forStack| ==> st.forStack[k] < |st.arena.fors|)
    && (forall k :: 0 <= k < |st.blockStack| ==> st.blockStack[k] < |st.arena.named|)
    && (forall i :: 0 <= i < |st.arena.ifs| ==>
          var d := st.arena.ifs[i];
          d.whenTrue < |st.arena.blocks| && d.whenFalse < |st.arena.blocks| && d.parent < |st.arena.blocks|)
    && (forall i :: 0 <= i < |st.arena.fors| ==>
          st.arena.fors[i].body < |st.arena.blocks| && st.arena.fors[i].parent < |st.arena.blocks|)
    && (forall i :: 0 <= i < |st.arena.named| ==>
          st.arena.named[i].body < |st.arena.blocks| && st.arena.named[i].parent < |st.arena.blocks|)
    && (st.ifStack != [] ==> !st.arena.ifs[st.ifStack[0]].nested)
  }

  const START := State(Arena([[]], [], [], []), 0, [], [], [], {})

  // ---------- The effect of each kind of node and statement ----------

  function Push(a: Arena, b: nat, n: Node): Arena
    requires b < |a.blocks|
  {
    a.(blocks := a.blocks[b := a.blocks[b] + [n]])
  }

  function AddNode(st: State, n: Node): State
    requires st.current < |st.arena.blocks|
  {
    st.(arena := Push(st.arena, st.current, n))
  }

  function OpenIf(st: State, nested: bool, cond: Option<Expr>): State
    requires st.current < |st.arena.blocks|
  {
    var nb, ni := |st.arena.blocks|, |st.arena.ifs|;
    var a := Push(st.arena, st.current, IfNode(ni));
    st.(arena := a.(blocks := a.blocks + [[], []],
                    ifs := a.ifs + [IfData(cond, nb, nb + 1, false, nested, st.current)]),
        current := nb, ifStack := st.ifStack + [ni])
  }

  function OpenElse(st: State): State
    requires Ok(st) && st.ifStack != []
  {
    var i := st.ifStack[|st.ifStack| - 1];
    st.(arena := st.arena.(ifs := st.arena.ifs[i := st.arena.ifs[i].(hasFalse := true)]),
        current := st.arena.ifs[i].whenFalse)
  }

  /** The loop that takes the `else if`s off the stack. It does not look whether the stack runs empty. */
  function DropNested(ifs: seq<IfData>, stack: seq<nat>): (r: seq<nat>)
    requires forall k :: 0 <= k < |stack| ==> stack[k] < |ifs|
    requires stack != [] ==> !ifs[stack[0]].nested
    ensures r <= stack && (stack != [] ==> r != [] && !ifs[r[|r| - 1]].nested)
  {
    if stack == [] then []
    else
      var i := stack[|stack| - 1];
      if ifs[i].nested then DropNested(ifs, stack[..|stack| - 1]) else stack
  }

  function EndIf(st: State): State
    requires Ok(st) && st.ifStack != []
  {
    var stack := DropNested(st.arena.ifs, st.ifStack);
    st.(current := st.arena.ifs[stack[|stack| - 1]].parent, ifStack := stack[..|stack| - 1])
  }

  function OpenFor(st: State, key: Option<string>, value: string, cond: Option<Expr>): State
    requires st.current < |st.arena.blocks|
  {
    var nb, nf := |st.arena.blocks|, |st.arena.fors|;
    var a := Push(st.arena, st.current, ForNode(nf));
    st.(arena := a.(blocks := a.blocks + [[]], fors := a.fors + [ForData(key, value, cond, nb, st.current)]),
        current := nb, forStack := st.forStack + [nf])
  }

  function EndFor(st: State): State
    requires Ok(st) && st.forStack != []
  {
    var i := st.forStack[|st.forStack| - 1];
    st.(current := st.arena.fors[i].parent, forStack := st.forStack[..|st.forStack| - 1])
  }

  function OpenBlock(st: State, name: string): State
    requires st.current < |st.arena.blocks|
  {
    var nb, nn := |st.arena.blocks|, |st.arena.named|;
    var a := Push(st.arena, st.current, BlockStatement(nn));
    st.(arena := a.(blocks := a.blocks + [[]], named := a.named + [NamedData(name, nb, st.current)]),
        current := nb, blockStack := st.blockStack + [nn], names := st.names + {name})
  }

  function EndBlock(st: State): State
    requires Ok(st) && st.blockStack != []
  {
    var i := st.blockStack[|st.blockStack| - 1];
    st.(current := st.arena.named[i].parent, blockStack := st.blockStack[..|st.blockStack| - 1])
  }

  // No statement leaves a dangling pointer, or an `else if` at the bottom of the stack.

  lemma IfsKeepOk(st: State, cond: Option<Expr>)
    requires Ok(st)
    ensures Ok(OpenIf(st, false, cond))
    ensures st.ifStack != [] ==> Ok(OpenIf(st, true, cond))
  {
  }

  lemma ElseKeepsOk(st: State)
    requires Ok(st) && st.ifStack != []
    ensures Ok(OpenElse(st)) && OpenElse(st).ifStack == st.ifStack && Ok(EndIf(st))
  {
  }

  lemma ForsKeepOk(st: State, key: Option<string>, value: string, cond: Option<Expr>)
    requires Ok(st)
    ensures Ok(OpenFor(st, key, value, cond)) && (st.forStack != [] ==> Ok(EndFor(st)))
  {
  }

  lemma BlocksKeepOk(st: State, n: Node, name: string)
    requires Ok(st)
    ensures Ok(AddNode(st, n)) && Ok(OpenBlock(st, name)) && (st.blockStack != [] ==> Ok(EndBlock(st)))
  {
  }

  // ---------- The parser, as functions ----------

  /** The text of a token of kind Id: reserved words are of that kind too. */
  function Word(ts: seq<Token>, pos: nat): (r: Option<string>)
    ensures r.Some? ==> pos < |ts|
  {
    if pos >= |ts| then None
    else match ts[pos]
      case Id(w) => Some(w)
      case Lit(w) => if w == "true" || w == "false" || w == "null" then Some(w) else None
      case Operator(Not) => Some("not")
      case Operator(Bin(And)) => Some("and")
      case Operator(Bin(Or)) => Some("or")
      case Operator(Bin(In)) => Some("in")
      case _ => None
  }

  /** The token that a word is. */
  function OfWord(w: string): Token {
    if w in {"true", "false", "null"} then Lit(w)
    else if w == "not" then Operator(Not)
    else if w == "and" then Operator(Bin(And))
    else if w == "or" then Operator(Bin(Or))
    else if w == "in" then Operator(Bin(In))
    else Id(w)
  }

  /** Every word can be a name in a statement, the reserved ones too, and nothing else can. */
  lemma WordsAreNames(ts: seq<Token>, pos: nat, w: string)
    ensures At(ts, pos, OfWord(w)) ==> Word(ts, pos) == Some(w)
    ensures Word(ts, pos) == Some(w) ==> At(ts, pos, OfWord(w)) || At(ts, pos, Id(w))
  {
  }

  /** The condition of a statement, which must be followed by `closing`. */
  function Condition(ts: seq<Token>, known: (string, nat) -> bool, pos: nat, closing: Kind): (r: Parsed<Option<Expr>>)
    ensures r.Done? ==> pos <= r.pos < |ts|
  {
    if pos > |ts| then Fail else
    match Parse(ts, known, pos)
    case Fail => Fail
    case Done(e, p) => if At(ts, p, Other(closing)) then Done(e, p) else Fail
  }

  function Statement(ts: seq<Token>, known: (string, nat) -> bool, pos: nat, st: State,
                     closing: Kind): (r: Parsed<State>)
    requires pos <= |ts| && Ok(st)
    ensures r.Done? ==> pos < r.pos <= |ts| && Ok(r.value)
  {
    match Word(ts, pos)
    case None => Fail
    case Some(w) =>
      if w == "if" then
        match Condition(ts, known, pos + 1, closing)
        case Fail => Fail
        case Done(e, p) => IfsKeepOk(st, e); Done(OpenIf(st, false, e), p)
      else if w == "else" then
        if st.ifStack == [] then Fail else
        ElseKeepsOk(st);
        if Word(ts, pos + 1) == Some("if") then
          match Condition(ts, known, pos + 2, closing)
          case Fail => Fail
          case Done(e, p) => IfsKeepOk(OpenElse(st), e); Done(OpenIf(OpenElse(st), true, e), p)
        else Done(OpenElse(st), pos + 1)
      else if w == "endif" then
        if st.ifStack == [] then Fail else
        ElseKeepsOk(st); Done(EndIf(st), pos + 1)
      else if w == "for" then ForStatement(ts, known, pos, st, closing)
      else if w == "endfor" then
        if st.forStack == [] then Fail else
        ForsKeepOk(st, None, "", None); Done(EndFor(st), pos + 1)
      else if w == "block" then
        match Word(ts, pos + 1)
        case None => Fail
        case Some(name) =>
          if name in st.names then Fail else
          BlocksKeepOk(st, TextNode(""), name); Done(OpenBlock(st, name), pos + 2)
      else if w == "endblock" then
        if st.blockStack == [] then Fail else
        BlocksKeepOk(st, TextNode(""), ""); Done(EndBlock(st), pos + 1)
      else Fail
  }

  /** `for value in array` and `for key, value in object`. */
  function ForStatement(ts: seq<Token>, known: (string, nat) -> bool, pos: nat, st: State,
                        closing: Kind): (r: Parsed<State>)
    requires pos <= |ts| && Ok(st)
    ensures r.Done? ==> pos < r.pos <= |ts| && Ok(r.value)
  {
    match Word(ts, pos + 1)
    case None => Fail
    case Some(first) =>
      var isObject := At(ts, pos + 2, Comma);
      var second := if isObject then Word(ts, pos + 3) else None;
      if isObject && second.None? then Fail else
      var at := if isObject then pos + 4 else pos + 2;
      if Word(ts, at) != Some("in") then Fail else
      match Condition(ts, known, at + 1, closing)
      case Fail => Fail
      case Done(e, p) =>
        var key, value := if isObject then Some(first) else None, if isObject then second.value else first;
        ForsKeepOk(st, key, value, e);
        Done(OpenFor(st, key, value, e), p)
  }

  /** `parse_into` from the token at `pos`. An open block is not noticed at the end of the input. */
  function Loop(ts: seq<Token>, known: (string, nat) -> bool, pos: nat, st: State): (r: Parsed<State>)
    requires pos <= |ts| && Ok(st)
    ensures r.Done? ==> Ok(r.value) && r.value.ifStack == [] && r.value.forStack == []
    decreases |ts| - pos
  {
    if pos == |ts| then
      if st.ifStack == [] && st.forStack == [] then Done(st, pos) else Fail
    else match ts[pos]
      case Other(Text(s)) =>
        BlocksKeepOk(st, TextNode(s), "");
        Loop(ts, known, pos + 1, AddNode(st, TextNode(s)))
      case Other(StatementOpen) =>
        (match Statement(ts, known, pos + 1, st, StatementClose)
         case Fail => Fail
         case Done(st', p) => if At(ts, p, Other(StatementClose)) then Loop(ts, known, p + 1, st') else Fail)
      case Other(LineStatementOpen) =>
        (match Statement(ts, known, pos + 1, st, LineStatementClose)
         case Fail => Fail
         case Done(st', p) =>
           if p == |ts| then Loop(ts, known, p, st')
           else if ts[p] == Other(LineStatementClose) then Loop(ts, known, p + 1, st') else Fail)
      case Other(ExpressionOpen) =>
        (match Condition(ts, known, pos + 1, ExpressionClose)
         case Fail => Fail
         case Done(e, p) =>
           BlocksKeepOk(st, ExpressionNode(e), "");
           Loop(ts, known, p + 1, AddNode(st, ExpressionNode(e))))
      case Other(CommentOpen) =>
        if At(ts, pos + 1, Other(CommentClose)) then Loop(ts, known, pos + 2, st) else Fail
      case _ => Fail
  }
}
