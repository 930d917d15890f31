/**
 The evaluator of the template engine: a machine with a stack of values and a stack of the variables that were
 not found. It is proved to compute what a recursive, short-circuit evaluation gives.
 */
module ExpressionEvaluator {
  import opened Space
  import opened ExpressionParser

  datatype Json =
    | Null | Bool(b: bool) | Int(n: int) | Float(x: real) | Str(s: string)
    | Array(items: seq<Json>) | Object(members: map<string, Json>)

  /** Everything that ends a rendering. Dividing an integer by zero with `%` has no defined result. */
  datatype Failure = EmptyExpression | NotFound(name: string) | DivisionByZero | TypeError | Undefined

  /** What evaluating one node comes to: a value, the null pointer for a variable that is not there, an exception. */
  datatype Outcome = Value(v: Json) | Missing(name: string) | Error(f: Failure)

  /** The parts that the JSON library and the registered functions do: the value of a literal, comparing two
      values, `std::pow`, and calls of functions other than `default` and `exists`. */
  datatype Library = Library(
    literal: string -> Json,
    relate: (BinOp, Json, Json) -> bool,
    power: (Json, Json) -> Option<Json>,
    isCallback: string -> bool,
    call: (string, seq<Json>) -> Option<Json>)

  /** Loop variables come before the data the template is rendered with. */
  datatype Env = Env(additional: Json, input: Json, lib: Library)

  /** Every string is true, the empty one too: `json::empty` says of a string that it is not empty. */
  predicate Truthy(j: Json) {
    match j
    case Null => false
    case Bool(b) => b
    case Int(n) => n != 0
    case Float(x) => x != 0.0
    case Str(_) => true
    case Array(items) => items != []
    case Object(members) => members != map[]
  }

  // ---------- Conversions and arithmetic ----------

  function AsFloat(j: Json): Option<real> {
    match j
    case Int(n) => Some(n as real)
    case Float(x) => Some(x)
    case _ => None
  }

  function Truncate(x: real): int {
    if x >= 0.0 then x.Floor else -((-x).Floor)
  }

  function AsInt(j: Json): Option<int> {
    match j
    case Int(n) => Some(n)
    case Float(x) => Some(Truncate(x))
    case _ => None
  }

  /** The remainder has the sign of the dividend. */
  function Remainder(a: int, b: int): int
    requires b != 0
  {
    if a >= 0 then a % b else -((-a) % b)
  }

  function OfOption(o: Option<Json>): Outcome {
    if o.Some? then Value(o.value) else Error(TypeError)
  }

  function FloatArithmetic(op: BinOp, x: real, y: real): real
    requires op == Division ==> y != 0.0
  {
    match op
    case Add => x + y
    case Subtract => x - y
    case Division => x / y
    case _ => x * y
  }

  function Arithmetic(op: BinOp, a: Json, b: Json): (o: Outcome)
    ensures !o.Missing?
  {
    if op == Add && a.Str? && b.Str? then Value(Str(a.s + b.s))
    else if a.Int? && b.Int? && op != Division then
      Value(Int(if op == Add then a.n + b.n else if op == Subtract then a.n - b.n else a.n * b.n))
    else if AsFloat(b).None? then Error(TypeError)
    else
      var y := AsFloat(b).value;
      if op == Division && y == 0.0 then Error(DivisionByZero)
      else if AsFloat(a).None? then Error(TypeError)
      else
        var x := AsFloat(a).value;
        Value(Float(FloatArithmetic(op, x, y)))
  }

  /** `std::find` over what a value iterates over: a scalar is its own one element. */
  predicate Contains(lib: Library, j: Json, x: Json) {
    match j
    case Null => false
    case Array(items) => exists i :: 0 <= i < |items| && lib.relate(Equal, items[i], x)
    case Object(members) => exists k :: k in members && lib.relate(Equal, members[k], x)
    case _ => lib.relate(Equal, j, x)
  }

  /** The binary operators that evaluate both operands. */
  function Compute(lib: Library, op: BinOp, a: Json, b: Json): (o: Outcome)
    ensures !o.Missing?
  {
    match op
    case In => Value(Bool(Contains(lib, b, a)))
    case Power => OfOption(lib.power(a, b))
    case Modulo =>
      if AsInt(a).None? || AsInt(b).None? then Error(TypeError)
      else if AsInt(b).value == 0 then Error(Undefined)
      else Value(Int(Remainder(AsInt(a).value, AsInt(b).value)))
    case Add => Arithmetic(op, a, b)
    case Subtract => Arithmetic(op, a, b)
    case Multiplication => Arithmetic(op, a, b)
    case Division => Arithmetic(op, a, b)
    case _ => Value(Bool(lib.relate(op, a, b)))
  }

  // ---------- The recursive evaluation ----------

  datatype Gathered = Values(vs: seq<Json>) | Failed(f: Failure)

  function FirstError(os: seq<Outcome>): (r: Option<Failure>)
    ensures r.None? <==> forall i :: 0 <= i < |os| ==> !os[i].Error?
  {
    if os == [] then None
    else
      var r := FirstError(os[..|os| - 1]);
      if r.Some? then r else if os[|os| - 1].Error? then Some(os[|os| - 1].f) else None
  }

  function LastMissing(os: seq<Outcome>): (r: Option<string>)
    ensures r.None? <==> forall i :: 0 <= i < |os| ==> !os[i].Missing?
  {
    if os == [] then None
    else if os[|os| - 1].Missing? then Some(os[|os| - 1].name) else LastMissing(os[..|os| - 1])
  }

  /** All arguments are evaluated before any is looked at: an exception in one of them comes before a variable
      that is not found, and of several such variables the last one is reported. */
  function Gather(os: seq<Outcome>): Gathered {
    if FirstError(os).Some? then Failed(FirstError(os).value)
    else if LastMissing(os).Some? then Failed(NotFound(LastMissing(os).value))
    else Values(seq(|os|, i requires 0 <= i < |os| => os[i].v))
  }

  function Single(o: Outcome): Gathered {
    match o
    case Value(v) => Values([v])
    case Missing(n) => Failed(NotFound(n))
    case Error(f) => Failed(f)
  }

  // ---------- Variables ----------

  /** The parts between separators, empty ones included. */
  function Split(s: string, sep: char): (parts: seq<string>)
    ensures |parts| > 0
  {
    if s == "" then [""]
    else
      var rest := Split(s[1..], sep);
      if s[0] == sep then [""] + rest else [[s[0]] + rest[0]] + rest[1..]
  }

  /** `convert_dot_to_ptr`: dots become slashes, but for one at the very end, and the pointer is split at slashes. */
  function Pointer(name: string): seq<string> {
    var parts := Split(name, '.');
    Tokens(if |parts| > 1 && parts[|parts| - 1] == "" then parts[..|parts| - 1] else parts)
  }

  function Tokens(parts: seq<string>): seq<string> {
    if parts == [] then [] else Split(parts[0], '/') + Tokens(parts[1..])
  }

  /** A name without separators is one token, and what stands before a dot is a token of its own. */
  lemma {:induction false} SplitOne(s: string, rest: string, sep: char)
    requires sep !in s
    ensures Split(s, sep) == [s] && Split(s + [sep] + rest, sep) == [s] + Split(rest, sep)
  {
    var t := s + [sep] + rest;
    if s == "" {
      assert t[0] == sep && t[1..] == rest;
    } else {
      SplitOne(s[1..], rest, sep);
      assert t[1..] == s[1..] + [sep] + rest && [s[0]] + s[1..] == s && [s[1..]][1..] == [];
      assert Split(t, sep) == [s] + ([s[1..]] + Split(rest, sep))[1..];
    }
  }

  /** A name without separators is the path to one member. */
  lemma PlainName(n: string)
    requires '.' !in n && '/' !in n
    ensures Pointer(n) == [n]
  {
    SplitOne(n, "", '.');
    SplitOne(n, "", '/');
    assert Tokens([n]) == Split(n, '/') + Tokens([]);
  }

  /** `a.b` is the member `b` of `a`. */
  lemma MemberName(a: string, b: string)
    requires '.' !in a && '/' !in a && '.' !in b && '/' !in b && b != ""
    ensures Pointer(a + "." + b) == [a, b]
  {
    SplitOne(a, b, '.');
    SplitOne(b, "", '.');
    assert Split(a + "." + b, '.') == [a] + [b] == [a, b];
    SplitOne(a, "", '/');
    SplitOne(b, "", '/');
    assert [a, b][1..] == [b] && [b][1..] == [];
    assert Tokens([a, b]) == [a] + ([b] + Tokens([])) == [a, b];
  }

  lemma TokensOfTwo(a: string, b: string)
    ensures Tokens([a]) == Split(a, '/') && Tokens([a, b]) == Split(a, '/') + Split(b, '/')
  {
    assert [a, b][1..] == [b] && [a][1..] == [] && [b][1..] == [];
    assert Tokens([b]) == Split(b, '/') + [] && Tokens([a]) == Split(a, '/') + [];
  }

  /** A slash separates like a dot. */
  lemma SlashSeparates(a: string, b: string)
    requires '.' !in a && '/' !in a && '.' !in b && '/' !in b
    ensures Pointer(a + "/" + b) == [a, b]
  {
    hide Split, Tokens;
    SplitOne(a, b, '/');
    SplitOne(b, "", '/');
    SplitOne(a + "/" + b, "", '.');
    TokensOfTwo(a + "/" + b, "");
    assert [a] + [b] == [a, b];
  }

  /** One dot at the end separates nothing. */
  lemma LastDotIsDropped(a: string)
    requires '.' !in a && '/' !in a
    ensures Pointer(a + ".") == [a] && Pointer(a + "..") == [a, ""]
  {
    hide Split, Tokens;
    SplitOne("", "", '/');
    SplitOne("", "", '.');
    SplitOne(a, "", '/');
    SplitOne(a, "", '.');
    SplitOne(a, ".", '.');
    assert a + "." + "" == a + "." && a + "." + "." == a + ".." && "" + "." + "" == ".";
    assert [a] + [""] == [a, ""] && [a] + ([""] + [""]) == [a, "", ""];
    assert [a, ""][..1] == [a] && [a, "", ""][..2] == [a, ""];
    TokensOfTwo(a, "");
  }

  predicate Digit(c: char) {
    '0' <= c <= '9'
  }

  function Number(s: string): nat
    requires forall i :: 0 <= i < |s| ==> Digit(s[i])
  {
    if s == "" then 0
    else
      assert Digit(s[|s| - 1]);
      10 * Number(s[..|s| - 1]) + (s[|s| - 1] as int - '0' as int)
  }

  const SIZE_LIMIT := 0x1_0000_0000_0000_0000

  /** What a path leads to: `Absent` when it leads nowhere, `BadToken` for an index that cannot be read. */
  datatype Place = At(j: Json) | Absent | BadToken

  /** One step into an array. An index has no leading zeros; the empty one throws, and so does one that is not below
      the greatest number of 64 bits. */
  function Item(items: seq<Json>, token: string): Place {
    if token == "" then BadToken
    else if exists i :: 0 <= i < |token| && !Digit(token[i]) then Absent
    else if |token| > 1 && token[0] == '0' then Absent
    else if Number(token) >= SIZE_LIMIT - 1 then BadToken
    else if Number(token) >= |items| then Absent
    else At(items[Number(token)])
  }

  const DIGITS := "0123456789"

  /** A number as it is written. */
  function Decimal(n: nat): (r: string)
    ensures |r| > 0
  {
    if n < 10 then [DIGITS[n]] else Decimal(n / 10) + [DIGITS[n % 10]]
  }

  lemma DigitIs(d: nat)
    requires d < 10
    ensures Digit(DIGITS[d]) && DIGITS[d] as int - '0' as int == d && (DIGITS[d] == '0' <==> d == 0)
  {
  }

  lemma OneDigitMore(front: string, d: nat)
    requires d < 10 && forall i :: 0 <= i < |front| ==> Digit(front[i])
    ensures var s := front + [DIGITS[d]];
            (forall i :: 0 <= i < |s| ==> Digit(s[i])) && Number(s) == 10 * Number(front) + d
  {
    DigitIs(d);
    assert (front + [DIGITS[d]])[..|front|] == front;
  }

  lemma {:induction false} DecimalIsNumber(n: nat)
    ensures forall i :: 0 <= i < |Decimal(n)| ==> Digit(Decimal(n)[i])
    ensures Number(Decimal(n)) == n && (Decimal(n)[0] == '0' ==> n == 0 && |Decimal(n)| == 1)
  {
    hide Number, Digit;
    DigitIs(n % 10);
    if n < 10 {
      NoDigits();
      DigitIs(n);
      OneDigitMore("", n);
      assert "" + [DIGITS[n]] == [DIGITS[n]];
    } else {
      DecimalIsNumber(n / 10);
      OneDigitMore(Decimal(n / 10), n % 10);
      assert Decimal(n)[0] == Decimal(n / 10)[0];
    }
  }

  lemma NoDigits()
    ensures Number("") == 0
  {
  }

  lemma ValueOf(c: char) returns (d: nat)
    requires Digit(c)
    ensures d < 10 && c == DIGITS[d]
  {
    d := c as int - '0' as int;
    DigitIs(d);
  }

  lemma {:induction false} NumberIsDecimal(s: string)
    requires s != "" && (forall i :: 0 <= i < |s| ==> Digit(s[i])) && (|s| > 1 ==> s[0] != '0')
    ensures Decimal(Number(s)) == s
  {
    hide Number, Digit, Decimal;
    var front := s[..|s| - 1];
    assert front + [s[|s| - 1]] == s;
    var d := ValueOf(s[|s| - 1]);
    OneDigitMore(front, d);
    if front == "" {
      NoDigits();
      OneDigit(d);
      assert "" + [DIGITS[d]] == [DIGITS[d]];
    } else {
      assert front[0] == s[0];
      NumberIsDecimal(front);
      NotZero(front);
      LastDigit(Number(front), d);
    }
  }

  lemma OneDigit(d: nat)
    requires d < 10
    ensures Decimal(d) == [DIGITS[d]]
  {
  }

  lemma LastDigit(n: nat, d: nat)
    requires n > 0 && d < 10
    ensures Decimal(10 * n + d) == Decimal(n) + [DIGITS[d]]
  {
    assert (10 * n + d) / 10 == n && (10 * n + d) % 10 == d;
  }

  lemma {:induction false} NotZero(s: string)
    requires s != "" && (forall i :: 0 <= i < |s| ==> Digit(s[i])) && s[0] != '0'
    ensures Number(s) > 0
  {
    assert Digit(s[|s| - 1]) && Digit(s[0]);
    if |s| > 1 {
      NotZero(s[..|s| - 1]);
    }
  }

  /** An array is indexed by numbers as they are written; the empty token throws, and so does a number that is too
      large for 64 bits. */
  lemma ItemsAreNumbered(items: seq<Json>, n: nat, other: string)
    requires forall k: nat :: other != Decimal(k)
    ensures Item(items, Decimal(n)) == if n >= 0xFFFF_FFFF_FFFF_FFFF then BadToken
                                       else if n < |items| then At(items[n]) else Absent
    ensures Item(items, other) == if other == "" then BadToken else Absent
  {
    DecimalIsNumber(n);
    if other != "" && (forall i :: 0 <= i < |other| ==> Digit(other[i])) && (|other| > 1 ==> other[0] != '0') {
      NumberIsDecimal(other);
    }
  }

  /** Whether, and where, `j` has a value at the path of these tokens. */
  function Resolve(j: Json, tokens: seq<string>): Place
    decreases |tokens|
  {
    if tokens == [] then At(j)
    else match j
      case Object(members) => if tokens[0] in members then Resolve(members[tokens[0]], tokens[1..]) else Absent
      case Array(items) =>
        (match Item(items, tokens[0])
         case At(next) => Resolve(next, tokens[1..])
         case place => place)
      case _ => Absent
  }

  /** Loop variables, then the data, then a function without arguments. */
  function Lookup(env: Env, n: string): Outcome {
    match Resolve(env.additional, Pointer(n))
    case At(j) => Value(j)
    case BadToken => Error(TypeError)
    case Absent =>
      match Resolve(env.input, Pointer(n))
      case At(j) => Value(j)
      case BadToken => Error(TypeError)
      case Absent => if env.lib.isCallback(n) then OfOption(env.lib.call(n, [])) else Missing(n)
  }

  /** `~0` and `~1` stand for a tilde and a slash; no other tilde is allowed in a pointer. */
  function Unescape(token: string): Option<string> {
    if token == "" then Some("")
    else if token[0] == '~' && (|token| == 1 || (token[1] != '0' && token[1] != '1')) then None
    else
      var n := if token[0] == '~' then 2 else 1;
      match Unescape(token[n..])
      case None => None
      case Some(rest) => Some([if n == 1 then token[0] else if token[1] == '0' then '~' else '/'] + rest)
  }

  function Escape(s: string): string {
    if s == "" then ""
    else (if s[0] == '~' then "~0" else if s[0] == '/' then "~1" else [s[0]]) + Escape(s[1..])
  }

  lemma {:induction false} UnescapeEscape(s: string)
    ensures Unescape(Escape(s)) == Some(s)
  {
    if s != "" {
      UnescapeEscape(s[1..]);
      var head := if s[0] == '~' then "~0" else if s[0] == '/' then "~1" else [s[0]];
      assert Escape(s)[|head|..] == Escape(s[1..]) && Escape(s)[0] == head[0];
      assert |head| == 2 ==> Escape(s)[1] == head[1];
      assert [s[0]] + s[1..] == s;
    }
  }

  /** And what is not an escaped name is refused. */
  lemma {:induction false} EscapeUnescape(token: string)
    requires '/' !in token && Unescape(token).Some?
    ensures Escape(Unescape(token).value) == token
  {
    if token != "" {
      var n := if token[0] == '~' then 2 else 1;
      EscapeUnescape(token[n..]);
      var r := Unescape(token).value;
      assert r[1..] == Unescape(token[n..]).value;
      assert token[..n] + token[n..] == token;
      assert token[..n] == if n == 1 then [token[0]] else [token[0], token[1]];
    }
  }

  function UnescapeAll(tokens: seq<string>): Option<seq<string>> {
    if tokens == [] then Some([])
    else match Unescape(tokens[0])
      case None => None
      case Some(t) =>
        match UnescapeAll(tokens[1..])
        case None => None
        case Some(rest) => Some([t] + rest)
  }

  /** `exists`: whether the data, loop variables left aside, has a value under that name. */
  function Exists(input: Json, name: Json): Outcome {
    if !name.Str? || UnescapeAll(Pointer(name.s)).None? then Error(TypeError)
    else match Resolve(input, UnescapeAll(Pointer(name.s)).value)
      case At(_) => Value(Bool(true))
      case Absent => Value(Bool(false))
      case BadToken => Error(TypeError)
  }

  function CallFunction(env: Env, n: string, vs: seq<Json>): (o: Outcome)
    ensures !o.Missing?
  {
    if n == "exists" && |vs| == 1 then Exists(env.input, vs[0]) else OfOption(env.lib.call(n, vs))
  }

  predicate IsDefault(e: Expr) {
    e.Call? && e.name == "default" && |e.args| == 2
  }

  function Eval(env: Env, e: Expr): Outcome {
    match e
    case Literal(t) => Value(env.lib.literal(t))
    case Data(n) => Lookup(env, n)
    case Negation(x) =>
      (match Single(Eval(env, x))
       case Failed(f) => Error(f)
       case Values(vs) => Value(Bool(!Truthy(vs[0]))))
    case Binary(op, l, r) =>
      if op == And || op == Or then
        match Single(Eval(env, l))
        case Failed(f) => Error(f)
        case Values(vs) =>
          if Truthy(vs[0]) == (op == Or) then Value(Bool(op == Or))
          else match Single(Eval(env, r))
            case Failed(f) => Error(f)
            case Values(ws) => Value(Bool(Truthy(ws[0])))
      else
        (match Gather([Eval(env, l), Eval(env, r)])
         case Failed(f) => Error(f)
         case Values(vs) => Compute(env.lib, op, vs[0], vs[1]))
    case Call(n, args) =>
      if IsDefault(e) then
        match Eval(env, args[0])
        case Value(v) => Value(v)
        case Error(f) => Error(f)
        case Missing(_) =>
          match Single(Eval(env, args[1]))
          case Failed(f) => Error(f)
          case Values(vs) => Value(vs[0])
      else
        (match Gather(seq(|args|, i requires 0 <= i < |args| => Eval(env, args[i])))
         case Failed(f) => Error(f)
         case Values(vs) => CallFunction(env, n, vs))
  }

  // ---------- The stack machine ----------

  /** What an outcome leaves on the stack of values. */
  function Entry(o: Outcome): Option<Json> {
    if o.Value? then Some(o.v) else None
  }

  function Entries(os: seq<Outcome>): (r: seq<Option<Json>>)
    ensures |r| == |os|
  {
    seq(|os|, i requires 0 <= i < |os| => Entry(os[i]))
  }

  /** The variables that are not found, in order. */
  function MissingNames(os: seq<Outcome>): seq<string> {
    if os == [] then []
    else MissingNames(os[..|os| - 1]) + (if os[|os| - 1].Missing? then [os[|os| - 1].name] else [])
  }

  function EvalAll(env: Env, es: seq<Expr>): (r: seq<Outcome>)
    ensures |r| == |es|
  {
    seq(|es|, i requires 0 <= i < |es| => Eval(env, es[i]))
  }

  lemma EvalAllGrows(env: Env, es: seq<Expr>, i: nat)
    requires i < |es|
    ensures var os := EvalAll(env, es);
            && os[..i + 1] == os[..i] + [Eval(env, es[i])]
            && Entries(os[..i + 1]) == Entries(os[..i]) + [Entry(os[i])]
            && MissingNames(os[..i + 1]) == MissingNames(os[..i]) + (if os[i].Missing? then [os[i].name] else [])
  {
    var os := EvalAll(env, es);
    assert os[..i + 1][..i] == os[..i];
  }

  lemma NothingYet(os: seq<Outcome>)
    ensures Entries(os[..0]) == [] && MissingNames(os[..0]) == []
  {
  }

  lemma {:induction false} FirstErrorIs(os: seq<Outcome>, i: nat)
    requires i < |os| && os[i].Error? && forall j :: 0 <= j < i ==> !os[j].Error?
    ensures FirstError(os) == Some(os[i].f)
  {
    if i < |os| - 1 {
      FirstErrorIs(os[..|os| - 1], i);
    }
  }

  lemma GatherFails(os: seq<Outcome>, i: nat)
    requires i < |os| && os[i].Error? && forall j :: 0 <= j < i ==> !os[j].Error?
    ensures Gather(os) == Failed(os[i].f)
  {
    FirstErrorIs(os, i);
  }

  lemma {:induction false} LastMissingIs(os: seq<Outcome>, i: nat)
    requires i < |os| && os[i].Missing? && forall j :: i < j < |os| ==> !os[j].Missing?
    ensures LastMissing(os) == Some(os[i].name)
  {
    if i < |os| - 1 {
      LastMissingIs(os[..|os| - 1], i);
    }
  }

  /** `json::contains` on a pointer, token by token. */
  method Find(j: Json, tokens: seq<string>) returns (place: Place)
    ensures place == Resolve(j, tokens)
  {
    var at, k := j, 0;
    while k < |tokens|
      invariant 0 <= k <= |tokens| && Resolve(at, tokens[k..]) == Resolve(j, tokens)
      decreases |tokens| - k
    {
      assert tokens[k..][1..] == tokens[k + 1..];
      match at {
        case Object(members) =>
          if tokens[k] !in members {
            return Absent;
          }
          at := members[tokens[k]];
        case Array(items) =>
          var item := Item(items, tokens[k]);
          if !item.At? {
            return item;
          }
          at := item.j;
        case _ =>
          return Absent;
      }
      k := k + 1;
    }
    place := At(at);
  }

  class Renderer {
    const env: Env
    var evalStack: seq<Option<Json>>
    var notFound: seq<string>

    constructor (env: Env)
      ensures this.env == env && evalStack == [] && notFound == []
    {
      this.env, evalStack, notFound := env, [], [];
    }

    /** The effect of evaluating a node: one more entry, and with a null entry one more name. */
    ghost predicate Pushed(o: Outcome, err: Option<Failure>, stack: seq<Option<Json>>, names: seq<string>)
      reads this
    {
      if o.Error? then err == Some(o.f)
      else err == None && evalStack == stack + [Entry(o)] && notFound == names + (if o.Missing? then [o.name] else [])
    }

    method Push(j: Json)
      modifies this`evalStack
      ensures evalStack == old(evalStack) + [Some(j)]
    {
      evalStack := evalStack + [Some(j)];
    }

    method PushOutcome(o: Outcome) returns (err: Option<Failure>)
      requires !o.Missing?
      modifies this`evalStack
      ensures Pushed(o, err, old(evalStack), old(notFound))
    {
      if o.Error? {
        return Some(o.f);
      }
      Push(o.v);
      err := None;
    }

    /** The end of `get_arguments`: takes `n` entries off, the last argument first. The stacks always hold enough. */
    method Take(n: nat, ghost os: seq<Outcome>, ghost stack: seq<Option<Json>>, ghost names: seq<string>)
      returns (err: Option<Failure>, vs: seq<Json>)
      requires |os| == n && forall i :: 0 <= i < n ==> !os[i].Error?
      requires evalStack == stack + Entries(os) && notFound == names + MissingNames(os)
      modifies this`evalStack, this`notFound
      ensures match Gather(os)
              case Failed(f) => err == Some(f)
              case Values(ws) => err == None && vs == ws && evalStack == stack && notFound == names
    {
      assert |evalStack| >= n; // the source throws "function needs n variables" here
      var i := n;
      vs, err := [], None;
      assert os[..n] == os;
      while i > 0
        invariant 0 <= i <= n
        invariant evalStack == stack + Entries(os[..i]) && notFound == names + MissingNames(os[..i])
        invariant forall j :: i <= j < n ==> os[j].Value?
        invariant vs == seq(n - i, j requires 0 <= j < n - i => os[i + j].v)
      {
        i := i - 1;
        assert os[..i + 1][..i] == os[..i];
        assert Entries(os[..i + 1]) == Entries(os[..i]) + [Entry(os[i])];
        var top := evalStack[|evalStack| - 1];
        evalStack := evalStack[..|evalStack| - 1];
        if top.None? {
          assert notFound != [];
          LastMissingIs(os, i);
          err := Some(NotFound(notFound[|notFound| - 1]));
          notFound := notFound[..|notFound| - 1];
          return;
        }
        vs := [top.value] + vs;
      }
    }

    /** `get_arguments` and `get_argument_vector`, which throw when a variable is not found. */
    method GetArguments(args: seq<Expr>, ghost parent: Expr) returns (err: Option<Failure>, vs: seq<Json>)
      requires forall i :: 0 <= i < |args| ==> args[i] < parent
      modifies this`evalStack, this`notFound
      ensures match Gather(EvalAll(env, args))
              case Failed(f) => err == Some(f)
              case Values(ws) => err == None && vs == ws && evalStack == old(evalStack) && notFound == old(notFound)
      decreases parent, 0
    {
      hide Gather, Eval, MissingNames, Entries;
      ghost var os := EvalAll(env, args);
      NothingYet(os);
      var i := 0;
      while i < |args|
        invariant 0 <= i <= |args| && forall j :: 0 <= j < i ==> !os[j].Error?
        invariant evalStack == old(evalStack) + Entries(os[..i]) && notFound == old(notFound) + MissingNames(os[..i])
      {
        EvalAllGrows(env, args, i);
        err := Visit(args[i]);
        if err.Some? {
          GatherFails(os, i);
          return err, [];
        }
        i := i + 1;
      }
      assert os[..i] == os;
      err, vs := Take(|args|, os, old(evalStack), old(notFound));
    }

    /** `get_arguments<1, 0, false>`: a variable that is not found is let pass, and forgotten. */
    method GetOptional(arg: Expr) returns (err: Option<Failure>, v: Option<Json>)
      modifies this`evalStack, this`notFound
      ensures match Eval(env, arg)
              case Error(f) => err == Some(f)
              case o => err == None && v == Entry(o) && evalStack == old(evalStack) && notFound == old(notFound)
      decreases arg, 4
    {
      err := Visit(arg);
      v := None;
      if err.None? {
        v := evalStack[|evalStack| - 1];
        evalStack := evalStack[..|evalStack| - 1];
        if v.None? {
          notFound := notFound[..|notFound| - 1];
        }
      }
    }

    method GetOne(arg: Expr, ghost parent: Expr) returns (err: Option<Failure>, v: Json)
      requires arg < parent
      modifies this`evalStack, this`notFound
      ensures match Single(Eval(env, arg))
              case Failed(f) => err == Some(f)
              case Values(vs) => err == None && v == vs[0] && evalStack == old(evalStack) && notFound == old(notFound)
      decreases parent, 1
    {
      var vs;
      err, vs := GetArguments([arg], parent);
      GatherOne(Eval(env, arg));
      assert EvalAll(env, [arg]) == [Eval(env, arg)];
      v := if err.None? then vs[0] else Null;
    }

    /** Every visit pushes one entry and leaves what is below as it was. */
    method Visit(e: Expr) returns (err: Option<Failure>)
      modifies this`evalStack, this`notFound
      ensures Pushed(Eval(env, e), err, old(evalStack), old(notFound))
      decreases e, 3
    {
      match e
      case Literal(t) =>
        Push(env.lib.literal(t));
        err := None;
      case Data(n) =>
        err := VisitData(n);
      case Negation(x) =>
        var v;
        err, v := GetOne(x, e);
        if err.None? {
          Push(Bool(!Truthy(v)));
        }
      case Binary(op, l, r) =>
        if op == And || op == Or {
          err := VisitLogical(e);
        } else {
          var vs;
          err, vs := GetArguments([l, r], e);
          assert EvalAll(env, [l, r]) == [Eval(env, l), Eval(env, r)];
          if err.None? {
            err := PushOutcome(Compute(env.lib, op, vs[0], vs[1]));
          }
        }
      case Call(n, args) =>
        if IsDefault(e) {
          err := VisitDefault(e);
        } else {
          var vs;
          err, vs := GetArguments(args, e);
          assert EvalAll(env, args) == seq(|args|, i requires 0 <= i < |args| => Eval(env, args[i]));
          if err.None? {
            err := VisitFunction(n, vs);
          }
        }
    }

    method VisitFunction(n: string, vs: seq<Json>) returns (err: Option<Failure>)
      modifies this`evalStack
      ensures Pushed(CallFunction(env, n, vs), err, old(evalStack), old(notFound))
    {
      if n != "exists" || |vs| != 1 {
        err := PushOutcome(OfOption(env.lib.call(n, vs)));
        return;
      }
      if !vs[0].Str? || UnescapeAll(Pointer(vs[0].s)).None? {
        return Some(TypeError);
      }
      var place := Find(env.input, UnescapeAll(Pointer(vs[0].s)).value);
      if place.BadToken? {
        return Some(TypeError);
      }
      Push(Bool(place.At?));
      err := None;
    }

    method VisitData(n: string) returns (err: Option<Failure>)
      modifies this`evalStack, this`notFound
      ensures Pushed(Lookup(env, n), err, old(evalStack), old(notFound))
    {
      err := None;
      var place := Find(env.additional, Pointer(n));
      if place.Absent? {
        place := Find(env.input, Pointer(n));
      }
      if place.BadToken? {
        err := Some(TypeError);
      } else if place.At? {
        Push(place.j);
      } else if env.lib.isCallback(n) {
        err := PushOutcome(OfOption(env.lib.call(n, [])));
      } else {
        evalStack := evalStack + [None];
        notFound := notFound + [n];
      }
    }

    /** The operators of C++ decide whether the second operand is evaluated. */
    method VisitLogical(e: Expr) returns (err: Option<Failure>)
      requires e.Binary? && (e.op == And || e.op == Or)
      modifies this`evalStack, this`notFound
      ensures Pushed(Eval(env, e), err, old(evalStack), old(notFound))
      decreases e, 2
    {
      var l, r;
      err, l := GetOne(e.left, e);
      if err.Some? {
        return;
      }
      if Truthy(l) == (e.op == Or) {
        Push(Bool(e.op == Or));
      } else {
        err, r := GetOne(e.right, e);
        if err.None? {
          Push(Bool(Truthy(r)));
        }
      }
    }

    method VisitDefault(e: Expr) returns (err: Option<Failure>)
      requires IsDefault(e)
      modifies this`evalStack, this`notFound
      ensures Pushed(Eval(env, e), err, old(evalStack), old(notFound))
      decreases e, 2
    {
      var first, v;
      err, first := GetOptional(e.args[0]);
      if err.Some? {
        return;
      }
      if first.Some? {
        Push(first.value);
      } else {
        err, v := GetOne(e.args[1], e);
        if err.None? {
          Push(v);
        }
      }
    }

    /** `eval_expression_list`: between two expressions both stacks are empty, so an expression is never
        reported as malformed, nor as one that could not be evaluated. */
    method EvalExpressionList(root: Option<Expr>) returns (err: Option<Failure>, v: Json)
      requires evalStack == [] && notFound == []
      modifies this`evalStack, this`notFound
      ensures match root
              case None => err == Some(EmptyExpression)
              case Some(e) =>
                match Single(Eval(env, e))
                case Failed(f) => err == Some(f)
                case Values(vs) => err == None && v == vs[0]
      ensures err.None? ==> evalStack == [] && notFound == []
    {
      v := Null;
      if root.None? {
        return Some(EmptyExpression), v;
      }
      err := Visit(root.value);
      if err.None? {
        assert |evalStack| == 1; // "empty expression", "malformed expression"
        var top := evalStack[0];
        evalStack := [];
        if top.None? {
          assert notFound != []; // "expression could not be evaluated"
          err := Some(NotFound(notFound[|notFound| - 1]));
          notFound := notFound[..|notFound| - 1];
        } else {
          v := top.value;
        }
      }
    }
  }

  lemma GatherOne(o: Outcome)
    ensures Gather([o]) == Single(o)
  {
    assert FirstError([o]) == if o.Error? then Some(o.f) else None by { assert [o][..0] == []; }
    assert LastMissing([o]) == if o.Missing? then Some(o.name) else None by { assert [o][..0] == []; }
  }

  // ---------- What evaluation means ----------

  /** The variables of an expression. */
  function Vars(e: Expr): set<string> {
    match e
    case Literal(_) => {}
    case Data(n) => {n}
    case Negation(x) => Vars(x)
    case Binary(_, l, r) => Vars(l) + Vars(r)
    case Call(_, args) => set a, n | a in args && n in Vars(a) :: n
  }

  predicate Defined(env: Env, n: string) {
    !Resolve(env.additional, Pointer(n)).Absent? || !Resolve(env.input, Pointer(n)).Absent? || env.lib.isCallback(n)
  }

  lemma {:induction false} FirstErrorIsOne(os: seq<Outcome>)
    requires FirstError(os).Some?
    ensures exists i :: 0 <= i < |os| && os[i] == Error(FirstError(os).value)
  {
    var n := |os| - 1;
    if FirstError(os[..n]).Some? {
      FirstErrorIsOne(os[..n]);
      var i :| 0 <= i < n && os[..n][i] == Error(FirstError(os[..n]).value);
      assert os[i] == Error(FirstError(os).value);
    }
  }

  lemma {:induction false} LastMissingIsOne(os: seq<Outcome>)
    requires LastMissing(os).Some?
    ensures exists i :: 0 <= i < |os| && os[i] == Missing(LastMissing(os).value)
  {
    var n := |os| - 1;
    if !os[n].Missing? {
      LastMissingIsOne(os[..n]);
      var i :| 0 <= i < n && os[..n][i] == Missing(LastMissing(os[..n]).value);
      assert os[i] == Missing(LastMissing(os).value);
    }
  }

  /** A variable that is reported stands in the expression and is defined nowhere. */
  lemma {:induction false} NotFoundIsUndefined(env: Env, e: Expr, n: string)
    requires Eval(env, e) == Missing(n) || Eval(env, e) == Error(NotFound(n))
    ensures n in Vars(e) && !Defined(env, n)
  {
    hide Resolve, Pointer;
    match e
    case Literal(_) =>
    case Data(_) =>
    case Negation(x) =>
      NotFoundIsUndefined(env, x, n);
    case Binary(op, l, r) =>
      if op == And || op == Or {
        if Eval(env, l) == Missing(n) || Eval(env, l) == Error(NotFound(n)) {
          NotFoundIsUndefined(env, l, n);
        } else {
          NotFoundIsUndefined(env, r, n);
        }
      } else {
        var i := GatheredNotFound([Eval(env, l), Eval(env, r)], n);
        if Eval(env, l) == Missing(n) || Eval(env, l) == Error(NotFound(n)) {
          NotFoundIsUndefined(env, l, n);
        } else {
          NotFoundIsUndefined(env, r, n);
        }
      }
    case Call(_, args) =>
      if IsDefault(e) {
        if Eval(env, args[0]) == Error(NotFound(n)) {
          NotFoundIsUndefined(env, args[0], n);
        } else {
          NotFoundIsUndefined(env, args[1], n);
        }
      } else {
        var os := EvalAll(env, args);
        assert os == seq(|args|, i requires 0 <= i < |args| => Eval(env, args[i]));
        var i := GatheredNotFound(os, n);
        assert os[i] == Eval(env, args[i]);
        NotFoundIsUndefined(env, args[i], n);
      }
  }

  lemma GatheredNotFound(os: seq<Outcome>, n: string) returns (i: nat)
    requires Gather(os) == Failed(NotFound(n))
    ensures i < |os| && (os[i] == Missing(n) || os[i] == Error(NotFound(n)))
  {
    if FirstError(os).Some? {
      FirstErrorIsOne(os);
      i :| 0 <= i < |os| && os[i] == Error(NotFound(n));
    } else {
      LastMissingIsOne(os);
      i :| 0 <= i < |os| && os[i] == Missing(n);
    }
  }

  predicate CallsExists(e: Expr) {
    match e
    case Literal(_) => false
    case Data(_) => false
    case Negation(x) => CallsExists(x)
    case Binary(_, l, r) => CallsExists(l) || CallsExists(r)
    case Call(n, args) => (n == "exists" && |args| == 1) || exists a :: a in args && CallsExists(a)
  }

  /** The value depends on the variables of the expression only, unless it calls `exists`; and then on which names
      exist, and nothing else. */
  lemma {:induction false} OnlyItsVariablesMatter(env: Env, env': Env, e: Expr)
    requires env.lib == env'.lib && forall n :: n in Vars(e) ==> Lookup(env, n) == Lookup(env', n)
    requires CallsExists(e) ==> forall j :: Exists(env.input, j) == Exists(env'.input, j)
    ensures Eval(env, e) == Eval(env', e)
  {
    hide Resolve, Pointer, Exists;
    match e
    case Literal(_) =>
    case Data(_) =>
    case Negation(x) =>
      OnlyItsVariablesMatter(env, env', x);
    case Binary(op, l, r) =>
      OnlyItsVariablesMatter(env, env', l);
      OnlyItsVariablesMatter(env, env', r);
    case Call(_, args) =>
      forall i | 0 <= i < |args|
        ensures Eval(env, args[i]) == Eval(env', args[i])
      {
        assert args[i] in args;
        OnlyItsVariablesMatter(env, env', args[i]);
      }
      if !IsDefault(e) {
        assert seq(|args|, i requires 0 <= i < |args| => Eval(env, args[i]))
            == seq(|args|, i requires 0 <= i < |args| => Eval(env', args[i]));
      }
  }

  /** `exists` has no variables, but where a name exists in one and not in the other data its value differs. */
  lemma ExistsReadsTheData(env: Env, env': Env, text: string)
    requires env.lib == env'.lib
    requires Exists(env.input, env.lib.literal(text)) != Exists(env'.input, env.lib.literal(text))
    ensures var e := Call("exists", [Literal(text)]);
            Vars(e) == {} && Eval(env, e) != Eval(env', e)
  {
    hide Exists;
    var e, v := Call("exists", [Literal(text)]), env.lib.literal(text);
    forall m: Env
      ensures Gather(seq(|e.args|, i requires 0 <= i < |e.args| => Eval(m, e.args[i]))) == Single(Eval(m, e.args[0]))
    {
      GatherOne(Eval(m, e.args[0]));
      assert seq(|e.args|, i requires 0 <= i < |e.args| => Eval(m, e.args[i])) == [Eval(m, e.args[0])];
    }
    assert Eval(env, e) == Exists(env.input, v) && Eval(env', e) == Exists(env'.input, v);
  }

  /** So it is for the name `a`, in no data and in `{"a": 1}`. */
  lemma ExistsInstance()
    ensures Exists(Object(map[]), Str("a")) == Value(Bool(false))
    ensures Exists(Object(map["a" := Int(1)]), Str("a")) == Value(Bool(true))
  {
    SplitOne("a", "", '.');
    SplitOne("a", "", '/');
    assert Tokens(["a"]) == ["a"] + Tokens([]) == ["a"];
    assert Pointer("a") == ["a"];
    assert Unescape("a") == Some("a") by { assert "a"[1..] == ""; }
    assert ["a"][1..] == [] && UnescapeAll(["a"]) == Some(["a"]);
  }

  // ---------- What the operators give ----------

  /** The operands of a binary operator, when both have a value. */
  predicate Operands(env: Env, l: Expr, r: Expr, a: Json, b: Json) {
    Eval(env, l) == Value(a) && Eval(env, r) == Value(b)
  }

  lemma BothEvaluated(env: Env, l: Expr, r: Expr, op: BinOp, a: Json, b: Json)
    requires Operands(env, l, r, a, b) && op != And && op != Or
    ensures Eval(env, Binary(op, l, r)) == Compute(env.lib, op, a, b)
  {
    hide Compute, Gather;
    BothValues(a, b);
  }

  lemma BothValues(a: Json, b: Json)
    ensures Gather([Value(a), Value(b)]) == Values([a, b])
  {
    var os := [Value(a), Value(b)];
    assert os[..1] == [Value(a)] && os[..1][..0] == [];
    assert FirstError(os).None? && LastMissing(os).None?;
    assert seq(|os|, i requires 0 <= i < |os| => os[i].v) == [a, b];
  }

  lemma IntegerOperators(env: Env, l: Expr, r: Expr, m: int, n: int)
    requires Operands(env, l, r, Int(m), Int(n))
    ensures Eval(env, Binary(Add, l, r)) == Value(Int(m + n))
    ensures Eval(env, Binary(Subtract, l, r)) == Value(Int(m - n))
    ensures Eval(env, Binary(Multiplication, l, r)) == Value(Int(m * n))
  {
    hide Eval;
    BothEvaluated(env, l, r, Add, Int(m), Int(n));
    BothEvaluated(env, l, r, Subtract, Int(m), Int(n));
    BothEvaluated(env, l, r, Multiplication, Int(m), Int(n));
  }

  /** The number that a JSON number is. */
  ghost predicate IsNumber(j: Json, x: real) {
    j == Float(x) || exists n: int :: j == Int(n) && x == n as real
  }

  /** Numbers of which one is not an integer. */
  lemma FloatOperators(env: Env, l: Expr, r: Expr, a: Json, b: Json, x: real, y: real)
    requires Operands(env, l, r, a, b) && IsNumber(a, x) && IsNumber(b, y) && !(a.Int? && b.Int?)
    ensures Eval(env, Binary(Add, l, r)) == Value(Float(x + y))
    ensures Eval(env, Binary(Subtract, l, r)) == Value(Float(x - y))
    ensures Eval(env, Binary(Multiplication, l, r)) == Value(Float(x * y))
  {
    hide Eval, FloatArithmetic;
    FloatArithmeticIs(AsFloat(a).value, AsFloat(b).value, x, y);
    BothEvaluated(env, l, r, Add, a, b);
    BothEvaluated(env, l, r, Subtract, a, b);
    BothEvaluated(env, l, r, Multiplication, a, b);
  }

  lemma FloatArithmeticIs(u: real, w: real, x: real, y: real)
    requires u == x && w == y
    ensures FloatArithmetic(Add, u, w) == x + y && FloatArithmetic(Subtract, u, w) == x - y
    ensures FloatArithmetic(Multiplication, u, w) == x * y
  {
  }

  /** Division is that of real numbers for integers too. */
  lemma DivisionGivesQuotient(env: Env, l: Expr, r: Expr, a: Json, b: Json, x: real, y: real) returns (q: real)
    requires Operands(env, l, r, a, b) && IsNumber(a, x) && IsNumber(b, y)
    ensures Eval(env, Binary(Division, l, r)) == if y == 0.0 then Error(DivisionByZero) else Value(Float(q))
    ensures y != 0.0 ==> q * y == x
  {
    hide Eval;
    BothEvaluated(env, l, r, Division, a, b);
    q := if y == 0.0 then 0.0 else x / y;
  }

  /** The whole number next to `x` in the direction of zero. */
  predicate IsWhole(j: Json, n: int) {
    match j
    case Int(m) => n == m
    case Float(x) => if x >= 0.0 then n as real <= x < n as real + 1.0 else n as real - 1.0 < x <= n as real
    case _ => false
  }

  /** The remainder of a division that truncates: it has the sign of the dividend. */
  lemma ModuloGivesRemainder(env: Env, l: Expr, r: Expr, a: Json, b: Json, x: int, y: int) returns (k: int, m: int)
    requires Operands(env, l, r, a, b) && IsWhole(a, x) && IsWhole(b, y)
    ensures Eval(env, Binary(Modulo, l, r)) == if y == 0 then Error(Undefined) else Value(Int(m))
    ensures y != 0 ==> x == y * k + m && -Magnitude(y) < m < Magnitude(y) && (x >= 0 ==> m >= 0) && (x <= 0 ==> m <= 0)
  {
    hide Eval;
    BothEvaluated(env, l, r, Modulo, a, b);
    WholeIs(a, x);
    WholeIs(b, y);
    k, m := 0, 0;
    if y != 0 {
      m := Remainder(x, y);
      k := RemainderIs(x, y);
    }
  }

  lemma RemainderIs(x: int, y: int) returns (k: int)
    requires y != 0
    ensures x == y * k + Remainder(x, y)
    ensures -Magnitude(y) < Remainder(x, y) < Magnitude(y)
    ensures (x >= 0 ==> Remainder(x, y) >= 0) && (x <= 0 ==> Remainder(x, y) <= 0)
  {
    var p := Magnitude(x);
    var q: int, m: int := p / y, p % y;
    assert p == y * q + m;
    k := if x >= 0 then q else -q;
    assert y * -q == -(y * q);
    assert Remainder(x, y) == if x >= 0 then m else -m;
  }

  function Magnitude(n: int): int {
    if n < 0 then -n else n
  }

  lemma WholeIs(j: Json, n: int)
    requires IsWhole(j, n)
    ensures AsInt(j) == Some(n)
  {
    if j.Float? && j.x < 0.0 {
      var f := (-j.x).Floor;
      assert f as real <= -j.x < f as real + 1.0;
      assert -f as real - 1.0 < j.x <= -f as real;
    }
  }

  /** Two strings are joined; a string with a number, or anything else that is not a number, is refused. */
  lemma OtherOperands(env: Env, l: Expr, r: Expr, a: Json, b: Json)
    requires Operands(env, l, r, a, b)
    ensures a.Str? && b.Str? ==> Eval(env, Binary(Add, l, r)) == Value(Str(a.s + b.s))
    ensures !b.Int? && !b.Float? && !(a.Str? && b.Str?) ==> Eval(env, Binary(Add, l, r)) == Error(TypeError)
    ensures b.Int? && !a.Int? && !a.Float? ==> Eval(env, Binary(Add, l, r)) == Error(TypeError)
    ensures (!a.Int? && !a.Float? && b.Int?) || (!b.Int? && !b.Float?) ==>
              Eval(env, Binary(Subtract, l, r)) == Eval(env, Binary(Multiplication, l, r)) == Error(TypeError)
    ensures !b.Int? && !b.Float? ==> Eval(env, Binary(Division, l, r)) == Error(TypeError)
    ensures (!a.Int? && !a.Float?) || (!b.Int? && !b.Float?) ==> Eval(env, Binary(Modulo, l, r)) == Error(TypeError)
  {
    hide Eval;
    BothEvaluated(env, l, r, Add, a, b);
    BothEvaluated(env, l, r, Subtract, a, b);
    BothEvaluated(env, l, r, Multiplication, a, b);
    BothEvaluated(env, l, r, Division, a, b);
    BothEvaluated(env, l, r, Modulo, a, b);
  }

  predicate IsComparison(op: BinOp) {
    op in {Equal, NotEqual, Greater, GreaterEqual, Less, LessEqual}
  }

  /** Comparisons compare the left value with the right one, and `in` looks for an equal item. */
  lemma RelationsGiveTruth(env: Env, l: Expr, r: Expr, op: BinOp, a: Json, b: Json)
    requires Operands(env, l, r, a, b)
    ensures IsComparison(op) ==> Eval(env, Binary(op, l, r)) == Value(Bool(env.lib.relate(op, a, b)))
    ensures b.Array? ==>
              Eval(env, Binary(In, l, r)) == Value(Bool(exists x :: x in b.items && env.lib.relate(Equal, x, a)))
    ensures b.Object? ==> var found := exists k :: k in b.members && env.lib.relate(Equal, b.members[k], a);
                          Eval(env, Binary(In, l, r)) == Value(Bool(found))
    ensures Eval(env, Binary(Power, l, r)) == if env.lib.power(a, b).None? then Error(TypeError)
                                              else Value(env.lib.power(a, b).value)
  {
    hide Eval;
    BothEvaluated(env, l, r, In, a, b);
    BothEvaluated(env, l, r, Power, a, b);
    if IsComparison(op) {
      BothEvaluated(env, l, r, op, a, b);
    }
    if b.Array? {
      if x :| x in b.items && env.lib.relate(Equal, x, a) {
        var i :| 0 <= i < |b.items| && b.items[i] == x;
        assert env.lib.relate(Equal, b.items[i], a);
      }
      if i :| 0 <= i < |b.items| && env.lib.relate(Equal, b.items[i], a) {
        assert b.items[i] in b.items;
      }
    }
  }

  /** What counts as true: everything but null, `false`, zero, and what has no elements; strings have no such
      question asked. */
  lemma OnlyTheseAreFalse(j: Json)
    ensures !Truthy(j) <==> j in {Null, Bool(false), Int(0), Float(0.0), Array([]), Object(map[])}
  {
  }

  /** `not`, `and` and `or` of values are those of their truth. */
  lemma LogicOfValues(env: Env, l: Expr, r: Expr, a: Json, b: Json)
    requires Operands(env, l, r, a, b)
    ensures Eval(env, Negation(l)) == Value(Bool(!Truthy(a)))
    ensures Eval(env, Binary(And, l, r)) == Value(Bool(Truthy(a) && Truthy(b)))
    ensures Eval(env, Binary(Or, l, r)) == Value(Bool(Truthy(a) || Truthy(b)))
  {
  }

  /** And the second operand is not looked at when the first decides. */
  lemma LogicIsShort(env: Env, l: Expr, r: Expr, a: Json)
    requires Eval(env, l) == Value(a)
    ensures !Truthy(a) ==> Eval(env, Binary(And, l, r)) == Value(Bool(false))
    ensures Truthy(a) ==> Eval(env, Binary(Or, l, r)) == Value(Bool(true))
  {
  }

  /** A name of loop variables hides the data, the data hide functions. */
  lemma LoopVariablesHideData(env: Env, n: string)
    requires '.' !in n && '/' !in n && env.additional.Object? && env.input.Object?
    ensures n in env.additional.members ==> Eval(env, Data(n)) == Value(env.additional.members[n])
    ensures n !in env.additional.members && n in env.input.members ==> Eval(env, Data(n)) == Value(env.input.members[n])
    ensures n !in env.additional.members && n !in env.input.members ==>
              Eval(env, Data(n)) == if !env.lib.isCallback(n) then Missing(n)
                                    else if env.lib.call(n, []).None? then Error(TypeError)
                                    else Value(env.lib.call(n, []).value)
  {
    hide Resolve;
    PlainName(n);
    OneStep(env.additional, n);
    OneStep(env.input, n);
  }

  lemma OneStep(j: Json, n: string)
    requires j.Object?
    ensures Resolve(j, [n]) == if n in j.members then At(j.members[n]) else Absent
  {
    assert [n][1..] == [];
  }

  /** De Morgan's law, exceptions and variables that are not found included. */
  lemma DeMorgan(env: Env, a: Expr, b: Expr)
    ensures Eval(env, Negation(Binary(And, a, b))) == Eval(env, Binary(Or, Negation(a), Negation(b)))
    ensures Eval(env, Negation(Binary(Or, a, b))) == Eval(env, Binary(And, Negation(a), Negation(b)))
  {
    hide Resolve, Pointer;
  }

  /** Only a variable by itself can be missing, so a default for a default, or for any other expression, is
      never taken. */
  lemma DefaultIsForVariables(env: Env, e: Expr, fallback: Expr)
    ensures Eval(env, e).Missing? <==> e.Data? && !Defined(env, e.name)
    ensures Eval(env, Call("default", [e, fallback]))
         == if e.Data? && !Defined(env, e.name) then
              (match Single(Eval(env, fallback))
               case Failed(f) => Error(f)
               case Values(vs) => Value(vs[0]))
            else Eval(env, e)
  {
    hide Resolve, Pointer, Gather, Compute, CallFunction;
  }
}
