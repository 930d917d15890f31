/**
 Which inputs the statement parser accepts, and where its pointer goes, said of the tags alone. Three questions are
 asked: is each tag well formed on its own; do the tags of each kind of statement fit; and do the tags fit a single
 stack, which the parser does not have.
 */
module TemplateAcceptance {
  import opened Space
  import opened ExpressionParser
  import opened StatementParser

  // ---------- The tags of an input ----------

  /** `Piece` is a text or an expression. */
  datatype Tag =
    | Piece(n: Node) | CommentTag
    | IfTag(cond: Option<Expr>) | ElseTag | ElseIfTag(cond: Option<Expr>) | EndIfTag
    | ForTag(key: Option<string>, value: string, cond: Option<Expr>) | EndForTag
    | BlockTag(name: string) | EndBlockTag

  function ReadFor(ts: seq<Token>, known: (string, nat) -> bool, pos: nat, closing: Kind): (r: Parsed<Tag>)
    requires pos <= |ts|
    ensures r.Done? ==> pos < r.pos <= |ts|
  {
    var isObject := At(ts, pos + 2, Comma);
    var at := if isObject then pos + 4 else pos + 2;
    if Word(ts, pos + 1).None? || (isObject && Word(ts, pos + 3).None?) || Word(ts, at) != Some("in") then Fail
    else
      var first := Word(ts, pos + 1).value;
      match Condition(ts, known, at + 1, closing)
      case Fail => Fail
      case Done(e, p) =>
        Done(if isObject then ForTag(Some(first), Word(ts, pos + 3).value, e) else ForTag(None, first, e), p)
  }

  /** A statement between its delimiters. */
  function ReadStatement(ts: seq<Token>, known: (string, nat) -> bool, pos: nat, closing: Kind): (r: Parsed<Tag>)
    requires pos <= |ts|
    ensures r.Done? ==> pos < r.pos <= |ts|
  {
    match Word(ts, pos)
    case None => Fail
    case Some(w) =>
      if w == "if" then
        match Condition(ts, known, pos + 1, closing)
        case Fail => Fail
        case Done(e, p) => Done(IfTag(e), p)
      else if w == "else" then
        if Word(ts, pos + 1) == Some("if") then
          match Condition(ts, known, pos + 2, closing)
          case Fail => Fail
          case Done(e, p) => Done(ElseIfTag(e), p)
        else Done(ElseTag, pos + 1)
      else if w == "endif" then Done(EndIfTag, pos + 1)
      else if w == "for" then ReadFor(ts, known, pos, closing)
      else if w == "endfor" then Done(EndForTag, pos + 1)
      else if w == "block" then
        match Word(ts, pos + 1)
        case None => Fail
        case Some(name) => Done(BlockTag(name), pos + 2)
      else if w == "endblock" then Done(EndBlockTag, pos + 1)
      else Fail
  }

  function ReadTag(ts: seq<Token>, known: (string, nat) -> bool, pos: nat): (r: Parsed<Tag>)
    requires pos < |ts|
    ensures r.Done? ==> pos < r.pos <= |ts|
  {
    match ts[pos]
    case Other(Text(s)) => Done(Piece(TextNode(s)), pos + 1)
    case Other(StatementOpen) =>
      (match ReadStatement(ts, known, pos + 1, StatementClose)
       case Fail => Fail
       case Done(t, p) => if At(ts, p, Other(StatementClose)) then Done(t, p + 1) else Fail)
    case Other(LineStatementOpen) =>
      (match ReadStatement(ts, known, pos + 1, LineStatementClose)
       case Fail => Fail
       case Done(t, p) =>
         if p == |ts| then Done(t, p) else if ts[p] == Other(LineStatementClose) then Done(t, p + 1) else Fail)
    case Other(ExpressionOpen) =>
      (match Condition(ts, known, pos + 1, ExpressionClose)
       case Fail => Fail
       case Done(e, p) => Done(Piece(ExpressionNode(e)), p + 1))
    case Other(CommentOpen) =>
      if At(ts, pos + 1, Other(CommentClose)) then Done(CommentTag, pos + 2) else Fail
    case _ => Fail
  }

  /** All tags, if each is well formed on its own. */
  function Tags(ts: seq<Token>, known: (string, nat) -> bool, pos: nat): Option<seq<Tag>>
    requires pos <= |ts|
    decreases |ts| - pos
  {
    if pos == |ts| then Some([])
    else match ReadTag(ts, known, pos)
      case Fail => None
      case Done(t, p) =>
        match Tags(ts, known, p)
        case None => None
        case Some(rest) => Some([t] + rest)
  }

  /** What the parser does at a tag, or `None` when it refuses it. */
  function Effect(st: State, t: Tag): (r: Option<State>)
    requires Ok(st)
    ensures r.Some? ==> Ok(r.value)
  {
    match t
    case Piece(n) => BlocksKeepOk(st, n, ""); Some(AddNode(st, n))
    case CommentTag => Some(st)
    case IfTag(e) => IfsKeepOk(st, e); Some(OpenIf(st, false, e))
    case ElseTag => if st.ifStack == [] then None else ElseKeepsOk(st); Some(OpenElse(st))
    case ElseIfTag(e) =>
      if st.ifStack == [] then None
      else ElseKeepsOk(st); IfsKeepOk(OpenElse(st), e); Some(OpenIf(OpenElse(st), true, e))
    case EndIfTag => if st.ifStack == [] then None else ElseKeepsOk(st); Some(EndIf(st))
    case ForTag(k, v, e) => ForsKeepOk(st, k, v, e); Some(OpenFor(st, k, v, e))
    case EndForTag => if st.forStack == [] then None else ForsKeepOk(st, None, "", None); Some(EndFor(st))
    case BlockTag(n) => if n in st.names then None else BlocksKeepOk(st, TextNode(""), n); Some(OpenBlock(st, n))
    case EndBlockTag =>
      if st.blockStack == [] then None else BlocksKeepOk(st, TextNode(""), ""); Some(EndBlock(st))
  }

  function Read(st: State, tag: Parsed<Tag>): (r: Parsed<State>)
    requires Ok(st)
    ensures r.Done? ==> tag.Done? && r.pos == tag.pos && Ok(r.value)
  {
    if tag.Fail? || Effect(st, tag.value).None? then Fail else Done(Effect(st, tag.value).value, tag.pos)
  }

  function Play(st: State, tags: seq<Tag>): (r: Option<State>)
    requires Ok(st)
    ensures r.Some? ==> Ok(r.value)
  {
    if tags == [] then Some(st)
    else match Play(st, tags[..|tags| - 1])
      case None => None
      case Some(s) => Effect(s, tags[|tags| - 1])
  }

  lemma {:induction false} PlayFirst(st: State, t: Tag, rest: seq<Tag>)
    requires Ok(st)
    ensures Play(st, [t] + rest) == if Effect(st, t).None? then None else Play(Effect(st, t).value, rest)
  {
    hide Ok, Effect;
    var tags := [t] + rest;
    if rest == [] {
      assert tags[..0] == [] && tags[0] == t;
      assert Play(st, tags[..0]) == Some(st);
    } else {
      PlayFirst(st, t, rest[..|rest| - 1]);
      assert tags[..|tags| - 1] == [t] + rest[..|rest| - 1];
    }
  }

  lemma ForIs(ts: seq<Token>, known: (string, nat) -> bool, pos: nat, st: State, closing: Kind)
    requires pos <= |ts| && Ok(st)
    ensures ForStatement(ts, known, pos, st, closing) == Read(st, ReadFor(ts, known, pos, closing))
  {
    hide Ok, Condition, Word;
  }

  lemma StatementIs(ts: seq<Token>, known: (string, nat) -> bool, pos: nat, st: State, closing: Kind)
    requires pos <= |ts| && Ok(st)
    ensures Statement(ts, known, pos, st, closing) == Read(st, ReadStatement(ts, known, pos, closing))
  {
    hide Condition, Word, ForStatement, ReadFor, OpenIf, OpenElse, EndIf, OpenFor, EndFor, OpenBlock, EndBlock;
    ForIs(ts, known, pos, st, closing);
  }

  lemma LoopStep(ts: seq<Token>, known: (string, nat) -> bool, pos: nat, st: State)
    requires pos < |ts| && Ok(st)
    ensures var r := Read(st, ReadTag(ts, known, pos));
            Loop(ts, known, pos, st) == if r.Fail? then Fail else Loop(ts, known, r.pos, r.value)
  {
    hide Condition, Statement, ReadStatement, Ok, Word;
    hide AddNode, OpenIf, OpenElse, EndIf, OpenFor, EndFor, OpenBlock, EndBlock;
    StatementIs(ts, known, pos + 1, st, StatementClose);
    StatementIs(ts, known, pos + 1, st, LineStatementClose);
  }

  /** What playing the tags comes to: no condition and no loop may be left open. */
  function Result(st: State, tags: Option<seq<Tag>>, end: nat): Parsed<State>
    requires Ok(st)
  {
    if tags.None? || Play(st, tags.value).None? then Fail
    else
      var r := Play(st, tags.value).value;
      if r.ifStack == [] && r.forStack == [] then Done(r, end) else Fail
  }

  /** The parser reads the tags one by one, and their effects are all it does. */
  lemma {:induction false} LoopPlays(ts: seq<Token>, known: (string, nat) -> bool, pos: nat, st: State)
    requires pos <= |ts| && Ok(st)
    ensures Loop(ts, known, pos, st) == Result(st, Tags(ts, known, pos), |ts|)
    decreases |ts| - pos
  {
    hide Ok, ReadTag, Effect;
    if pos == |ts| {
      assert Tags(ts, known, pos) == Some([]) && Play(st, []) == Some(st);
    } else {
      LoopStep(ts, known, pos, st);
      match ReadTag(ts, known, pos)
      case Fail =>
      case Done(t, p) =>
        if Effect(st, t).Some? {
          LoopPlays(ts, known, p, Effect(st, t).value);
        }
        if Tags(ts, known, p).Some? {
          PlayFirst(st, t, Tags(ts, known, p).value);
        }
    }
  }

  // ---------- What is accepted ----------

  datatype Which = Cond | ForLoop | Named

  function Opens(t: Tag): Option<Which> {
    match t
    case IfTag(_) => Some(Cond)
    case ForTag(_, _, _) => Some(ForLoop)
    case BlockTag(_) => Some(Named)
    case _ => None
  }

  function Closes(t: Tag): Option<Which> {
    match t
    case EndIfTag => Some(Cond)
    case EndForTag => Some(ForLoop)
    case EndBlockTag => Some(Named)
    case _ => None
  }

  /** What a tag needs to be open: the statement it closes, or the condition it continues. */
  function Needs(t: Tag): Option<Which> {
    if t.ElseTag? || t.ElseIfTag? then Some(Cond) else Closes(t)
  }

  /** How many statements of a kind are opened more often than closed. */
  function Balance(tags: seq<Tag>, k: Which): int {
    if tags == [] then 0
    else
      var t := tags[|tags| - 1];
      Balance(tags[..|tags| - 1], k) + (if Opens(t) == Some(k) then 1 else 0) - (if Closes(t) == Some(k) then 1 else 0)
  }

  /** After `done`, there is something open for the tag, and the name of a block is new. */
  predicate Fits(done: seq<Tag>, t: Tag) {
    && (Needs(t).Some? ==> Balance(done, Needs(t).value) > 0)
    && (t.BlockTag? ==> t !in done)
  }

  predicate FitUpTo(tags: seq<Tag>, n: nat)
    requires n <= |tags|
  {
    forall j :: 0 <= j < n ==> Fits(tags[..j], tags[j])
  }

  predicate Accepts(tags: seq<Tag>) {
    FitUpTo(tags, |tags|) && Balance(tags, Cond) == 0 && Balance(tags, ForLoop) == 0
  }

  // The statements that are open, in the order in which they were opened.

  /** Its first block, and the block the pointer was at. */
  datatype Opening = Opening(kind: Which, body: nat, parent: nat)

  function Of(open: seq<Opening>, k: Which): seq<Opening> {
    if open == [] then []
    else
      var o := open[|open| - 1];
      Of(open[..|open| - 1], k) + (if o.kind == k then [o] else [])
  }

  /** Without the last one of its kind. */
  function Drop(open: seq<Opening>, k: Which): (r: seq<Opening>)
    ensures |r| <= |open| && forall o :: o in r ==> o in open
  {
    if open == [] then []
    else if open[|open| - 1].kind == k then open[..|open| - 1]
    else Drop(open[..|open| - 1], k) + [open[|open| - 1]]
  }

  function Update(open: seq<Opening>, st: State, t: Tag): seq<Opening> {
    if Opens(t).Some? then open + [Opening(Opens(t).value, |st.arena.blocks|, st.current)]
    else if Closes(t).Some? then Drop(open, Closes(t).value)
    else open
  }

  /** The conditions on the stack, those from an `else if` left out. */
  function IfsOf(ifs: seq<IfData>, stack: seq<nat>): seq<Opening>
    requires forall k :: 0 <= k < |stack| ==> stack[k] < |ifs|
  {
    if stack == [] then []
    else
      var d := ifs[stack[|stack| - 1]];
      IfsOf(ifs, stack[..|stack| - 1]) + (if d.nested then [] else [Opening(Cond, d.whenTrue, d.parent)])
  }

  function ForsOf(st: State): seq<Opening>
    requires Ok(st)
  {
    seq(|st.forStack|, k requires 0 <= k < |st.forStack| =>
      Opening(ForLoop, st.arena.fors[st.forStack[k]].body, st.arena.fors[st.forStack[k]].parent))
  }

  function NamedOf(st: State): seq<Opening>
    requires Ok(st)
  {
    seq(|st.blockStack|, k requires 0 <= k < |st.blockStack| =>
      Opening(Named, st.arena.named[st.blockStack[k]].body, st.arena.named[st.blockStack[k]].parent))
  }

  function StackOf(st: State, k: Which): seq<Opening>
    requires Ok(st)
  {
    match k
    case Cond => IfsOf(st.arena.ifs, st.ifStack)
    case ForLoop => ForsOf(st)
    case Named => NamedOf(st)
  }

  predicate Sorted(open: seq<Opening>, bound: nat) {
    && (forall i, j :: 0 <= i < j < |open| ==> open[i].body < open[j].body)
    && forall i :: 0 <= i < |open| ==> open[i].body < bound
  }

  /** The three stacks hold these statements. */
  predicate Tracks(st: State, open: seq<Opening>) {
    && Ok(st) && Sorted(open, |st.arena.blocks|)
    && forall k :: Of(open, k) == StackOf(st, k)
  }

  lemma OfLast(open: seq<Opening>, o: Opening, k: Which)
    ensures Of(open + [o], k) == if o.kind == k then Of(open, k) + [o] else Of(open, k)
  {
    assert (open + [o])[..|open|] == open;
  }

  lemma {:induction false} OfDrop(open: seq<Opening>, k: Which, j: Which)
    requires Of(open, k) != []
    ensures Of(Drop(open, k), j) == if j == k then Of(open, k)[..|Of(open, k)| - 1] else Of(open, j)
  {
    var front, o := open[..|open| - 1], open[|open| - 1];
    if o.kind != k {
      OfDrop(front, k, j);
      OfLast(Drop(front, k), o, j);
    }
  }

  lemma {:induction false} DropSorted(open: seq<Opening>, k: Which, bound: nat)
    requires Sorted(open, bound)
    ensures Sorted(Drop(open, k), bound)
  {
    if open != [] && open[|open| - 1].kind != k {
      DropSorted(open[..|open| - 1], k, open[|open| - 1].body);
    }
  }

  /** The conditions are not moved by what else happens to the arena. */
  lemma {:induction false} IfsFrame(ifs: seq<IfData>, ifs': seq<IfData>, stack: seq<nat>)
    requires |ifs| <= |ifs'| && forall k :: 0 <= k < |stack| ==> stack[k] < |ifs|
    requires forall i :: 0 <= i < |ifs| ==> ifs'[i] == ifs[i] || ifs'[i] == ifs[i].(hasFalse := true)
    ensures IfsOf(ifs', stack) == IfsOf(ifs, stack)
  {
    if stack != [] {
      IfsFrame(ifs, ifs', stack[..|stack| - 1]);
    }
  }

  lemma {:induction false} IfsDrop(ifs: seq<IfData>, stack: seq<nat>)
    requires forall k :: 0 <= k < |stack| ==> stack[k] < |ifs|
    requires stack != [] ==> !ifs[stack[0]].nested
    ensures IfsOf(ifs, DropNested(ifs, stack)) == IfsOf(ifs, stack)
    ensures stack != [] <==> IfsOf(ifs, stack) != []
  {
    if stack != [] && ifs[stack[|stack| - 1]].nested {
      IfsDrop(ifs, stack[..|stack| - 1]);
    }
  }

  lemma IfsPush(ifs: seq<IfData>, stack: seq<nat>, i: nat)
    requires i < |ifs| && forall k :: 0 <= k < |stack| ==> stack[k] < |ifs|
    ensures IfsOf(ifs, stack + [i])
         == IfsOf(ifs, stack) + if ifs[i].nested then [] else [Opening(Cond, ifs[i].whenTrue, ifs[i].parent)]
  {
    assert (stack + [i])[..|stack|] == stack;
  }

  /** Every tag changes the stacks as `Update` says. */
  lemma EffectTracks(st: State, open: seq<Opening>, t: Tag)
    requires Tracks(st, open) && Effect(st, t).Some?
    ensures Tracks(Effect(st, t).value, Update(open, st, t))
  {
    hide Ok;
    var st' := Effect(st, t).value;
    var open' := Update(open, st, t);
    EffectSorts(st, open, t);
    forall k
      ensures Of(open', k) == StackOf(st', k)
    {
      match k
      case Cond => EffectOnIfs(st, open, t);
      case ForLoop => EffectOnFors(st, open, t);
      case Named => EffectOnNamed(st, open, t);
    }
  }

  lemma EffectSorts(st: State, open: seq<Opening>, t: Tag)
    requires Tracks(st, open) && Effect(st, t).Some?
    ensures Sorted(Update(open, st, t), |Effect(st, t).value.arena.blocks|)
  {
    if Closes(t).Some? {
      DropSorted(open, Closes(t).value, |st.arena.blocks|);
    }
  }

  lemma OthersKeepIfs(st: State, t: Tag)
    requires Ok(st) && Effect(st, t).Some? && !t.IfTag? && Needs(t) != Some(Cond)
    ensures Effect(st, t).value.arena.ifs == st.arena.ifs && Effect(st, t).value.ifStack == st.ifStack
  {
    hide Ok;
  }

  lemma IfOnStack(st: State, nested: bool, e: Option<Expr>)
    requires Ok(st) && Ok(OpenIf(st, nested, e))
    ensures StackOf(OpenIf(st, nested, e), Cond)
         == StackOf(st, Cond) + if nested then [] else [Opening(Cond, |st.arena.blocks|, st.current)]
  {
    var ifs := OpenIf(st, nested, e).arena.ifs;
    IfsFrame(st.arena.ifs, ifs, st.ifStack);
    IfsPush(ifs, st.ifStack, |st.arena.ifs|);
  }

  lemma ElseOnStack(st: State)
    requires Ok(st) && st.ifStack != [] && Ok(OpenElse(st))
    ensures StackOf(OpenElse(st), Cond) == StackOf(st, Cond)
  {
    IfsFrame(st.arena.ifs, OpenElse(st).arena.ifs, st.ifStack);
  }

  lemma EndIfOnStack(st: State)
    requires Ok(st) && st.ifStack != [] && Ok(EndIf(st))
    ensures StackOf(st, Cond) != []
    ensures StackOf(EndIf(st), Cond) == StackOf(st, Cond)[..|StackOf(st, Cond)| - 1]
  {
    IfsDrop(st.arena.ifs, st.ifStack);
  }

  lemma IfsStep(st: State, t: Tag)
    requires Ok(st) && Effect(st, t).Some?
    ensures t.EndIfTag? ==> StackOf(st, Cond) != []
    ensures StackOf(Effect(st, t).value, Cond)
         == if t.IfTag? then StackOf(st, Cond) + [Opening(Cond, |st.arena.blocks|, st.current)]
            else if t.EndIfTag? then StackOf(st, Cond)[..|StackOf(st, Cond)| - 1]
            else StackOf(st, Cond)
  {
    hide AddNode, OpenIf, EndIf, OpenFor, EndFor, OpenBlock, EndBlock, IfsOf, Play;
    match t
    case IfTag(e) => IfOnStack(st, false, e);
    case ElseTag => ElseOnStack(st);
    case ElseIfTag(e) => ElseOnStack(st); IfOnStack(OpenElse(st), true, e);
    case EndIfTag => EndIfOnStack(st);
    case _ => OthersKeepIfs(st, t);
  }

  lemma EffectOnIfs(st: State, open: seq<Opening>, t: Tag)
    requires Tracks(st, open) && Effect(st, t).Some?
    ensures Of(Update(open, st, t), Cond) == StackOf(Effect(st, t).value, Cond)
  {
    hide Sorted, Play, Of, IfsOf, DropNested, OpenIf, OpenElse, EndIf;
    IfsStep(st, t);
    if Opens(t).Some? {
      OfLast(open, Opening(Opens(t).value, |st.arena.blocks|, st.current), Cond);
    }
    assert Of(open, Cond) == StackOf(st, Cond);
    if Closes(t).Some? {
      var k := Closes(t).value;
      assert Of(open, k) == StackOf(st, k);
      OfDrop(open, k, Cond);
    }
  }

  lemma EffectOnFors(st: State, open: seq<Opening>, t: Tag)
    requires Tracks(st, open) && Effect(st, t).Some?
    ensures Of(Update(open, st, t), ForLoop) == StackOf(Effect(st, t).value, ForLoop)
  {
    hide Sorted, Play, Of, IfsOf, DropNested;
    IfsDrop(st.arena.ifs, st.ifStack);
    if Opens(t).Some? {
      OfLast(open, Opening(Opens(t).value, |st.arena.blocks|, st.current), ForLoop);
    }
    assert Of(open, ForLoop) == StackOf(st, ForLoop);
    if Closes(t).Some? {
      var k := Closes(t).value;
      assert Of(open, k) == StackOf(st, k);
      OfDrop(open, k, ForLoop);
    }
  }

  lemma EffectOnNamed(st: State, open: seq<Opening>, t: Tag)
    requires Tracks(st, open) && Effect(st, t).Some?
    ensures Of(Update(open, st, t), Named) == StackOf(Effect(st, t).value, Named)
  {
    hide Sorted, Play, Of, IfsOf, DropNested;
    IfsDrop(st.arena.ifs, st.ifStack);
    if Opens(t).Some? {
      OfLast(open, Opening(Opens(t).value, |st.arena.blocks|, st.current), Named);
    }
    assert Of(open, Named) == StackOf(st, Named);
    if Closes(t).Some? {
      var k := Closes(t).value;
      assert Of(open, k) == StackOf(st, k);
      OfDrop(open, k, Named);
    }
  }

  /** The state after `done`: the stacks hold as many statements as the tags leave open, and the names in use are
      those of the blocks. */
  ghost predicate Follows(st: State, open: seq<Opening>, done: seq<Tag>) {
    && Tracks(st, open)
    && (forall k :: |Of(open, k)| == Balance(done, k))
    && (forall n :: n in st.names <==> BlockTag(n) in done)
  }

  lemma FollowsTracks(st: State, open: seq<Opening>, done: seq<Tag>)
    requires Follows(st, open, done)
    ensures Tracks(st, open)
  {
  }

  /** The number of statements on each stack can be counted in the tags. */
  lemma StacksAreCounted(st: State, open: seq<Opening>, done: seq<Tag>)
    requires Follows(st, open, done)
    ensures Balance(done, Cond) >= 0 && (st.ifStack == [] <==> Balance(done, Cond) == 0)
    ensures |st.forStack| == Balance(done, ForLoop) && |st.blockStack| == Balance(done, Named)
  {
    IfsDrop(st.arena.ifs, st.ifStack);
    assert Of(open, Cond) == StackOf(st, Cond) && |Of(open, Cond)| == Balance(done, Cond);
    assert Of(open, ForLoop) == StackOf(st, ForLoop) && |Of(open, ForLoop)| == Balance(done, ForLoop);
    assert Of(open, Named) == StackOf(st, Named) && |Of(open, Named)| == Balance(done, Named);
  }

  /** The parser refuses a tag if and only if it does not fit what was read before. */
  lemma RefusesWhatDoesNotFit(st: State, open: seq<Opening>, done: seq<Tag>, t: Tag)
    requires Follows(st, open, done)
    ensures Effect(st, t).Some? <==> Fits(done, t)
  {
    hide Tracks, Ok, Balance, AddNode, OpenIf, OpenElse, EndIf, OpenFor, EndFor, OpenBlock, EndBlock;
    StacksAreCounted(st, open, done);
  }

  lemma EffectFollows(st: State, open: seq<Opening>, done: seq<Tag>, t: Tag)
    requires Follows(st, open, done) && Effect(st, t).Some?
    ensures Follows(Effect(st, t).value, Update(open, st, t), done + [t])
  {
    EffectTracks(st, open, t);
    RefusesWhatDoesNotFit(st, open, done, t);
    CountsFollow(st, open, done, t);
    NamesFollow(st, done, t);
  }

  lemma CountsFollow(st: State, open: seq<Opening>, done: seq<Tag>, t: Tag)
    requires (forall k :: |Of(open, k)| == Balance(done, k)) && Fits(done, t)
    ensures forall k :: |Of(Update(open, st, t), k)| == Balance(done + [t], k)
  {
    assert (done + [t])[..|done|] == done;
    forall k
      ensures |Of(Update(open, st, t), k)| == Balance(done + [t], k)
    {
      assert |Of(open, k)| == Balance(done, k);
      if Opens(t).Some? {
        OfLast(open, Opening(Opens(t).value, |st.arena.blocks|, st.current), k);
      } else if Closes(t).Some? {
        assert |Of(open, Closes(t).value)| == Balance(done, Closes(t).value);
        OfDrop(open, Closes(t).value, k);
      }
    }
  }

  lemma NamesFollow(st: State, done: seq<Tag>, t: Tag)
    requires Ok(st) && Effect(st, t).Some? && forall n :: n in st.names <==> BlockTag(n) in done
    ensures forall n :: n in Effect(st, t).value.names <==> BlockTag(n) in done + [t]
  {
  }

  /** The openings that are left after the tags. */
  function Openings(tags: seq<Tag>): seq<Opening> {
    if tags == [] then []
    else
      var front := tags[..|tags| - 1];
      match Play(START, front)
      case None => []
      case Some(st) => Update(Openings(front), st, tags[|tags| - 1])
  }

  lemma StartFollows()
    ensures Follows(START, [], [])
  {
  }

  lemma {:induction false} FitFront(tags: seq<Tag>)
    requires tags != []
    ensures FitUpTo(tags, |tags|) <==>
              FitUpTo(tags[..|tags| - 1], |tags| - 1) && Fits(tags[..|tags| - 1], tags[|tags| - 1])
  {
    var front := tags[..|tags| - 1];
    forall j | 0 <= j < |front|
      ensures front[..j] == tags[..j] && front[j] == tags[j]
    {
    }
    assert FitUpTo(tags, |tags|) ==> Fits(front, tags[|front|]);
    if FitUpTo(tags, |tags|) {
      forall j | 0 <= j < |front|
        ensures Fits(front[..j], front[j])
      {
        assert Fits(tags[..j], tags[j]);
      }
    }
    if FitUpTo(front, |front|) && Fits(front, tags[|front|]) {
      forall j | 0 <= j < |tags|
        ensures Fits(tags[..j], tags[j])
      {
        if j < |front| {
          assert Fits(front[..j], front[j]);
        }
      }
    }
  }

  lemma NothingFits()
    ensures FitUpTo([], 0)
  {
  }

  /** The tags are played to the end if and only if each fits those before it. */
  lemma {:induction false} PlayFits(tags: seq<Tag>)
    ensures Play(START, tags).Some? <==> FitUpTo(tags, |tags|)
    ensures Play(START, tags).Some? ==> Follows(Play(START, tags).value, Openings(tags), tags)
  {
    hide Follows, Fits, Effect, FitUpTo;
    if tags == [] {
      StartFollows();
      NothingFits();
    } else {
      var front, t := tags[..|tags| - 1], tags[|tags| - 1];
      PlayFits(front);
      FitFront(tags);
      if Play(START, front).Some? {
        var st := Play(START, front).value;
        RefusesWhatDoesNotFit(st, Openings(front), front, t);
        if Effect(st, t).Some? {
          EffectFollows(st, Openings(front), front, t);
          assert front + [t] == tags;
        }
      }
    }
  }

  /** An input is accepted if and only if each of its tags is well formed on its own, each closing tag and each
      `else` has an open statement before it, the names of blocks are distinct, and no condition or loop is left
      open. Blocks may be, as many as have no end. */
  lemma AcceptedWhenTagsFit(ts: seq<Token>, known: (string, nat) -> bool)
    ensures Ok(START)
    ensures Loop(ts, known, 0, START).Done? <==> Tags(ts, known, 0).Some? && Accepts(Tags(ts, known, 0).value)
    ensures Loop(ts, known, 0, START).Done? ==>
              |Loop(ts, known, 0, START).value.blockStack| == Balance(Tags(ts, known, 0).value, Named)
  {
    hide Loop, Tags;
    LoopPlays(ts, known, 0, START);
    if Tags(ts, known, 0).Some? {
      var tags := Tags(ts, known, 0).value;
      PlayFits(tags);
      if Play(START, tags).Some? {
        StacksAreCounted(Play(START, tags).value, Openings(tags), tags);
      }
    }
  }

  // ---------- One stack instead of three ----------

  /** What a parser with a single stack would have on it, or `None` if it met a tag that closes or continues
      something else than the innermost open statement. */
  function OneStack(tags: seq<Tag>): Option<seq<Which>> {
    if tags == [] then Some([])
    else
      var t := tags[|tags| - 1];
      match OneStack(tags[..|tags| - 1])
      case None => None
      case Some(s) =>
        if Opens(t).Some? then Some(s + [Opens(t).value])
        else if Needs(t).None? then Some(s)
        else if s == [] || s[|s| - 1] != Needs(t).value then None
        else Some(if Closes(t).Some? then s[..|s| - 1] else s)
  }

  /** The first block of the statement that a closing tag of that kind would close. */
  function Top(st: State, k: Which): Option<nat>
    requires Ok(st)
  {
    match k
    case Cond =>
      if st.ifStack == [] then None
      else
        var stack := DropNested(st.arena.ifs, st.ifStack);
        Some(st.arena.ifs[stack[|stack| - 1]].whenTrue)
    case ForLoop =>
      if st.forStack == [] then None else Some(st.arena.fors[st.forStack[|st.forStack| - 1]].body)
    case Named =>
      if st.blockStack == [] then None else Some(st.arena.named[st.blockStack[|st.blockStack| - 1]].body)
  }

  /** It is the innermost open statement: blocks are numbered as statements are opened, and its block is the last
      one. */
  predicate Innermost(st: State, k: Which)
    requires Ok(st)
  {
    Top(st, k).Some? && forall j :: Top(st, j).Some? ==> Top(st, j).value <= Top(st, k).value
  }

  /** Every tag that closes or continues a statement has found the innermost open one. */
  predicate AllInnermost(tags: seq<Tag>) {
    tags == [] ||
    (var front, t := tags[..|tags| - 1], tags[|tags| - 1];
     && AllInnermost(front)
     && (Needs(t).Some? && Play(START, front).Some? ==> Innermost(Play(START, front).value, Needs(t).value)))
  }

  lemma {:induction false} LastOf(open: seq<Opening>, k: Which, bound: nat)
    requires Sorted(open, bound) && Of(open, k) != []
    ensures var o, l := Of(open, k)[|Of(open, k)| - 1], open[|open| - 1];
            o in open && o.kind == k && o.body <= l.body && (o.body == l.body <==> o == l) && (l.kind == k <==> o == l)
  {
    if open[|open| - 1].kind != k {
      LastOf(open[..|open| - 1], k, open[|open| - 1].body);
    }
  }

  lemma {:induction false} LastIf(ifs: seq<IfData>, stack: seq<nat>)
    requires forall k :: 0 <= k < |stack| ==> stack[k] < |ifs|
    requires stack != [] && !ifs[stack[0]].nested
    ensures var s := DropNested(ifs, stack); var d := ifs[s[|s| - 1]];
            IfsOf(ifs, stack) != [] && IfsOf(ifs, stack)[|IfsOf(ifs, stack)| - 1] == Opening(Cond, d.whenTrue, d.parent)
  {
    if ifs[stack[|stack| - 1]].nested {
      LastIf(ifs, stack[..|stack| - 1]);
    }
  }

  lemma TopIs(st: State, open: seq<Opening>, k: Which)
    requires Tracks(st, open)
    ensures Top(st, k) == if Of(open, k) == [] then None else Some(Of(open, k)[|Of(open, k)| - 1].body)
  {
    hide Of, Sorted;
    assert Of(open, k) == StackOf(st, k);
    match k
    case Cond => if st.ifStack != [] { LastIf(st.arena.ifs, st.ifStack); }
    case ForLoop =>
    case Named =>
  }

  lemma InnermostIsLast(st: State, open: seq<Opening>, k: Which)
    requires Tracks(st, open)
    ensures Innermost(st, k) <==> open != [] && open[|open| - 1].kind == k
  {
    hide StackOf, Top;
    TopsAreIn(st, open);
    if open != [] {
      var j := open[|open| - 1].kind;
      OfLast(open[..|open| - 1], open[|open| - 1], j);
      assert open[..|open| - 1] + [open[|open| - 1]] == open;
    }
  }

  lemma TopsAreIn(st: State, open: seq<Opening>)
    requires Tracks(st, open)
    ensures forall k :: Top(st, k).Some? <==> Of(open, k) != []
    ensures forall k :: Top(st, k).Some? ==> open != [] && Top(st, k).value <= open[|open| - 1].body
    ensures forall k :: Top(st, k).Some? ==> (Top(st, k).value == open[|open| - 1].body <==> open[|open| - 1].kind == k)
  {
    forall k
      ensures Top(st, k).Some? <==> Of(open, k) != []
      ensures Of(open, k) != [] ==> open != [] && Top(st, k).value <= open[|open| - 1].body
      ensures Of(open, k) != [] ==> (Top(st, k).value == open[|open| - 1].body <==> open[|open| - 1].kind == k)
    {
      TopIs(st, open, k);
      if Of(open, k) != [] {
        LastOf(open, k, |st.arena.blocks|);
      }
    }
  }

  function Kinds(open: seq<Opening>): (r: seq<Which>)
    ensures |r| == |open|
  {
    seq(|open|, i requires 0 <= i < |open| => open[i].kind)
  }

  /** Where the tags fit, every closing tag and every `else` hits the innermost open statement if and only if a
      parser with one stack accepts them too. */
  lemma {:induction false} InnermostIsOneStack(tags: seq<Tag>)
    requires Play(START, tags).Some?
    ensures AllInnermost(tags) <==> OneStack(tags).Some?
    ensures OneStack(tags).Some? ==> OneStack(tags).value == Kinds(Openings(tags))
  {
    hide Follows, Effect, Innermost, Tracks, Ok;
    StartIsOk();
    if tags != [] {
      var front, t := tags[..|tags| - 1], tags[|tags| - 1];
      InnermostIsOneStack(front);
      PlayFits(front);
      var st, open := Play(START, front).value, Openings(front);
      FollowsTracks(st, open, front);
      if Needs(t).Some? {
        InnermostIsLast(st, open, Needs(t).value);
      }
    }
  }

  lemma ClosingReturns(st: State, open: seq<Opening>, t: Tag)
    requires Tracks(st, open) && Effect(st, t).Some? && Closes(t).Some?
    ensures Of(open, Closes(t).value) != []
    ensures Effect(st, t).value.current == Of(open, Closes(t).value)[|Of(open, Closes(t).value)| - 1].parent
  {
    hide Of, Sorted, OpenIf, OpenElse, OpenFor, OpenBlock, AddNode, Openings, Play;
    var k := Closes(t).value;
    assert Of(open, k) == StackOf(st, k);
    match k
    case Cond => LastIf(st.arena.ifs, st.ifStack);
    case ForLoop =>
    case Named =>
  }

  /** From `i` to `j` the single stack is never lower than at `i`, and the statement on top of it at `i` is not
      continued. */
  predicate Level(tags: seq<Tag>, i: nat, j: nat)
    requires i <= j <= |tags|
  {
    && (forall m :: i <= m <= j ==> OneStack(tags[..m]).Some?)
    && (forall m :: i <= m <= j ==> |OneStack(tags[..m]).value| >= |OneStack(tags[..i]).value|)
    && (forall m :: i <= m < j && |OneStack(tags[..m]).value| == |OneStack(tags[..i]).value| ==>
          !tags[m].ElseTag? && !tags[m].ElseIfTag?)
  }

  /** Where the pointer is, or where it will return to. */
  predicate Home(st: State, open: seq<Opening>, n: nat, home: nat) {
    |open| >= n && home == if |open| == n then st.current else open[n].parent
  }

  lemma StartsHome(st: State, open: seq<Opening>)
    ensures Home(st, open, |open|, st.current)
  {
  }

  lemma StaysHome(st: State, open: seq<Opening>, t: Tag, n: nat, home: nat)
    requires Tracks(st, open) && Effect(st, t).Some? && Home(st, open, n, home)
    requires |open| == n ==> !t.ElseTag? && !t.ElseIfTag? && Closes(t).None?
    requires Closes(t).Some? ==> open[|open| - 1].kind == Closes(t).value
    ensures Home(Effect(st, t).value, Update(open, st, t), n, home)
  {
    if Closes(t).Some? {
      ClosingReturns(st, open, t);
      LastOf(open, Closes(t).value, |st.arena.blocks|);
    }
  }

  /** What fits one stack leaves the pointer where it was, whatever is opened and closed in it. */
  lemma {:induction false} NestedReturns(tags: seq<Tag>, i: nat, j: nat)
    requires i <= j <= |tags| && Play(START, tags).Some? && Level(tags, i, j)
    ensures Play(START, tags[..i]).Some? && Play(START, tags[..j]).Some?
    ensures Home(Play(START, tags[..j]).value, Openings(tags[..j]), |OneStack(tags[..i]).value|,
                 Play(START, tags[..i]).value.current)
    decreases j
  {
    hide Effect, Follows, Tracks, Ok, Home, Openings, OneStack, Play;
    StartIsOk();
    PlayPrefix(tags, i);
    PlayPrefix(tags, j);
    InnermostIsOneStack(tags[..i]);
    var n, home := |OneStack(tags[..i]).value|, Play(START, tags[..i]).value.current;
    if i == j {
      StartsHome(Play(START, tags[..i]).value, Openings(tags[..i]));
    } else {
      var front, t := tags[..j - 1], tags[j - 1];
      assert tags[..j] == front + [t];
      PlayPrefix(tags, j - 1);
      NestedReturns(tags, i, j - 1);
      PlayFits(front);
      InnermostIsOneStack(front);
      var st, open := Play(START, front).value, Openings(front);
      FollowsTracks(st, open, front);
      OneTagMore(front, t);
      StaysHome(st, open, t, n, home);
    }
  }

  lemma StartIsOk()
    ensures Ok(START)
  {
  }

  lemma OneTagMore(front: seq<Tag>, t: Tag)
    requires Ok(START) && Play(START, front).Some?
    ensures Play(START, front + [t]) == Effect(Play(START, front).value, t)
    ensures Openings(front + [t]) == Update(Openings(front), Play(START, front).value, t)
    ensures OneStack(front).Some? && OneStack(front + [t]).Some? && Closes(t).Some? ==>
              var s := OneStack(front).value;
              s != [] && s[|s| - 1] == Closes(t).value && |OneStack(front + [t]).value| == |s| - 1
  {
    hide Ok, Effect, Update;
    assert (front + [t])[..|front|] == front;
  }

  lemma {:induction false} PlayPrefix(tags: seq<Tag>, i: nat)
    requires i <= |tags| && Play(START, tags).Some?
    ensures Play(START, tags[..i]).Some?
    decreases |tags|
  {
    if i < |tags| {
      PlayPrefix(tags[..|tags| - 1], i);
      assert tags[..|tags| - 1][..i] == tags[..i];
    } else {
      assert tags[..i] == tags;
    }
  }

  /** So the pointer of an accepted template whose tags fit one stack, with nothing left on it, ends at the root. */
  lemma NestedEndsAtRoot(ts: seq<Token>, known: (string, nat) -> bool)
    requires Tags(ts, known, 0).Some? && Accepts(Tags(ts, known, 0).value)
    requires OneStack(Tags(ts, known, 0).value) == Some([])
    ensures Ok(START) && Loop(ts, known, 0, START).Done?
    ensures var r := Loop(ts, known, 0, START).value; r.current == 0 && r.blockStack == []
  {
    hide Tags, Loop;
    var tags := Tags(ts, known, 0).value;
    AcceptedWhenTagsFit(ts, known);
    LoopPlays(ts, known, 0, START);
    OneStackPrefix(tags);
    assert tags[..0] == [] && tags[..|tags|] == tags;
    NestedReturns(tags, 0, |tags|);
    InnermostIsOneStack(tags);
    PlayFits(tags);
    StacksAreCounted(Play(START, tags).value, Openings(tags), tags);
    assert Openings(tags) == [];
  }

  lemma {:induction false} OneStackPrefix(tags: seq<Tag>)
    requires OneStack(tags).Some?
    ensures Level(tags, 0, |tags|)
  {
    hide OneStack;
    assert tags[..0] == [];
    assert tags[..|tags|] == tags;
    OneStackFront(tags);
    if tags != [] {
      var front := tags[..|tags| - 1];
      OneStackPrefix(front);
      forall m | 0 <= m <= |front|
        ensures OneStack(tags[..m]).Some?
      {
        assert front[..m] == tags[..m];
      }
      forall m | 0 <= m < |front| && |OneStack(tags[..m]).value| == 0
        ensures !tags[m].ElseTag? && !tags[m].ElseIfTag?
      {
        assert front[..m] == tags[..m] && tags[m] == front[m];
      }
    }
  }

  lemma OneStackFront(tags: seq<Tag>)
    requires OneStack(tags).Some?
    ensures OneStack([]) == Some([])
    ensures tags != [] ==> var front, t := tags[..|tags| - 1], tags[|tags| - 1];
              OneStack(front).Some? && (OneStack(front).value == [] ==> !t.ElseTag? && !t.ElseIfTag?)
  {
  }
}
