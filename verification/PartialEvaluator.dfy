/** The pure partial evaluator of the query corpus: it computes the text a helper would build, and
    answers "unknown" wherever the text depends on something it does not know.
 */
module PartialEvaluator {
  import opened Basics

  /** Python values; `Unknown` is Python's own `None`, which the evaluator also uses for "cannot
      say". A set lists its members in iteration order. */
  datatype Value =
    | Unknown
    | Str(text: string)
    | Int(number: int)
    | Bool(flag: bool)
    | List(items: seq<Value>)
    | Set(frozen: bool, members: seq<Value>)
    | Dict(entries: seq<(Value, Value)>)
    | Other(tag: string)

  /** The operations of the language itself. `None` means that the operation raises. */
  datatype Python = Python(
    render: Value -> string,
    same: (Value, Value) -> bool,
    contains: (Value, Value) -> Option<bool>,
    sort: seq<Value> -> Option<seq<Value>>,
    distinct: seq<Value> -> Option<seq<Value>>,
    insert: (seq<(Value, Value)>, Value, Value) -> Option<seq<(Value, Value)>>,
    union: (seq<Value>, seq<Value>) -> seq<Value>)

  datatype Expr =
    | Const(value: Value)
    | Name(id: string)
    | Joined(pieces: seq<Piece>)
    | DictDisplay(pairs: seq<Pair>)
    | SetDisplay(elts: seq<Expr>)
    | Listing(elements: seq<Element>)
    | Add(left: Expr, right: Expr)
    | BitOr(left: Expr, right: Expr)
    | Subscript(container: Expr, index: Expr)
    | Call(func: string, args: seq<Expr>)
    | JoinCall(separator: Expr, args: seq<Expr>)
    | Generator(elt: Expr, loops: seq<Loop>)
    | Unsupported

  datatype Piece = Text(text: string) | Hole(expr: Expr) | OtherPiece
  datatype Pair = Pair(key: Expr, value: Expr) | Spread(value: Expr)
  datatype Element = One(expr: Expr) | Starred(expr: Expr)
  datatype Target = NameTarget(id: string) | TupleTarget(names: seq<string>) | OtherTarget
  datatype Loop = Loop(target: Target, iter: Expr, ifs: seq<Cond>)

  datatype Operator = Eq | NotEq | In | NotIn | OtherOperator
  datatype Cond =
    | Compare(op: Operator, left: Expr, right: Expr)
    | Not(operand: Cond)
    | And(conds: seq<Cond>)
    | Or(conds: seq<Cond>)
    | OtherCond

  /** `Skip` is every statement the evaluator passes over, a bare return included. */
  datatype Statement = AssignName(id: string, value: Expr) | AssignTuple(names: seq<string>, value: Expr)
                     | Return(value: Expr) | Skip

  datatype Keyword = Required(id: string) | Optional(id: string, default: Expr)

  datatype Function = Function(params: seq<string>, defaults: seq<Expr>, kwonly: seq<Keyword>,
                               body: seq<Statement>)

  datatype Module = Module(constants: map<string, Expr>, functions: map<string, Function>, imports: map<string, string>)

  datatype World = World(py: Python, modules: map<string, Module>)

  type Env = map<string, Value>

  datatype Answer = Raises | Val(value: Value)
  datatype Answers = RaisesAll | UnknownAll | Vals(values: seq<Value>)
  datatype Scopes = RaisesScopes | UnknownScopes | Envs(envs: seq<Env>)
  datatype Verdict = RaisesVerdict | NoVerdict | Holds(truth: bool)
  datatype Verdicts = RaisesVerdicts | Each(verdicts: seq<Verdict>)

  // ----- Pieces that do not evaluate anything

  function Chars(s: string): seq<Value> {
    if s == [] then [] else [Str([s[0]])] + Chars(s[1..])
  }

  function Keys(entries: seq<(Value, Value)>): seq<Value> {
    if entries == [] then [] else [entries[0].0] + Keys(entries[1..])
  }

  /** What iterating over a value yields; `None` when the value is not iterable. */
  function Items(v: Value): Option<seq<Value>> {
    match v
    case Str(s) => Some(Chars(s))
    case List(items) => Some(items)
    case Set(_, members) => Some(members)
    case Dict(entries) => Some(Keys(entries))
    case _ => None
  }

  function Bind(env: Env, names: seq<string>, values: seq<Value>): Env
    requires |names| == |values|
    decreases |names|
  {
    if names == [] then env else Bind(env[names[0] := values[0]], names[1..], values[1..])
  }

  function BindUnknown(env: Env, names: seq<string>): Env
    decreases |names|
  {
    if names == [] then env else BindUnknown(env[names[0] := Unknown], names[1..])
  }

  /** The scopes one loop target makes of the items; `None` when an item does not fit it. */
  function BindItems(target: Target, env: Env, items: seq<Value>): Option<seq<Env>> {
    if items == [] then Some([])
    else
      match target
      case NameTarget(id) =>
        var rest := BindItems(target, env, items[1..]);
        if rest.None? then None else Some([env[id := items[0]]] + rest.value)
      case TupleTarget(names) =>
        if !items[0].List? || |items[0].items| != |names| then None
        else
          var rest := BindItems(target, env, items[1..]);
          if rest.None? then None else Some([Bind(env, names, items[0].items)] + rest.value)
      case OtherTarget => None
  }

  function Rendered(py: Python, values: seq<Value>): seq<string> {
    if values == [] then [] else [py.render(values[0])] + Rendered(py, values[1..])
  }

  function JoinText(separator: string, texts: seq<string>): string {
    if texts == [] then "" else if |texts| == 1 then texts[0] else texts[0] + separator + JoinText(separator, texts[1..])
  }

  /** An integer index, a Boolean being one of the integers 0 and 1. */
  function IndexOf(v: Value): Option<int> {
    match v
    case Int(n) => Some(n)
    case Bool(b) => Some(if b then 1 else 0)
    case _ => None
  }

  function ItemAt(items: seq<Value>, k: int): Answer {
    if k >= |items| then Val(Unknown)
    else if k >= 0 then Val(items[k])
    else if k + |items| >= 0 then Val(items[k + |items|])
    else Raises
  }

  function Lift(o: Option<seq<Value>>, wrap: seq<Value> -> Value): Answer {
    if o.None? then Raises else Val(wrap(o.value))
  }

  function SubscriptOf(container: Value, index: Value): Answer {
    if container.List? && IndexOf(index).Some? then ItemAt(container.items, IndexOf(index).value) else Val(Unknown)
  }

  function Sum(left: Value, right: Value): Value {
    if left.Str? && right.Str? then Str(left.text + right.text)
    else if left.List? && right.List? then List(left.items + right.items)
    else Unknown
  }

  function UnionOf(py: Python, left: Value, right: Value): Value {
    if left.Set? && right.Set? then Set(false, py.union(left.members, right.members)) else Unknown
  }

  function Compared(py: Python, op: Operator, left: Value, right: Value): Verdict {
    match op
    case Eq => Holds(py.same(left, right))
    case NotEq => Holds(!py.same(left, right))
    case In => if py.contains(left, right).None? then RaisesVerdict else Holds(py.contains(left, right).value)
    case NotIn => if py.contains(left, right).None? then RaisesVerdict else Holds(!py.contains(left, right).value)
    case OtherOperator => NoVerdict
  }

  predicate AnyUnknown(vs: seq<Verdict>) { exists i :: 0 <= i < |vs| && vs[i].NoVerdict? }
  predicate AllHold(vs: seq<Verdict>) { forall i :: 0 <= i < |vs| ==> vs[i] == Holds(true) }
  predicate SomeHold(vs: seq<Verdict>) { exists i :: 0 <= i < |vs| && vs[i] == Holds(true) }

  /** A builtin applied to its iterated argument. */
  function Builtin(py: Python, func: string, items: seq<Value>): Answer {
    if func == "sorted" then Lift(py.sort(items), (xs: seq<Value>) => List(xs))
    else if func == "tuple" then Val(List(items))
    else Lift(py.distinct(items), (xs: seq<Value>) => Set(true, xs))
  }

  predicate IsBuiltin(func: string) { func == "sorted" || func == "tuple" || func == "frozenset" }

  /** The module and expression behind an imported constant. */
  function Imported(w: World, m: string, id: string): (r: Option<(string, Expr)>)
    requires m in w.modules
    ensures r.Some? ==> r.value.0 in w.modules
  {
    if id !in w.modules[m].imports then None
    else
      var other := w.modules[m].imports[id];
      if other !in w.modules || id !in w.modules[other].constants then None
      else Some((other, w.modules[other].constants[id]))
  }

  // ----- The evaluator; `depth` is the recursion that is left

  function Eval(w: World, m: string, e: Expr, env: Env, depth: nat): Answer
    requires m in w.modules
    decreases depth, e, 0
  {
    match e
    case Const(value) => Val(value)
    case Name(id) =>
      if id in env then Val(env[id])
      else if id in w.modules[m].constants then
        var constant := w.modules[m].constants[id];
        if constant.Const? then Val(constant.value)
        else if depth == 0 then Raises
        else Eval(w, m, constant, env, depth - 1)
      else
        var found := Imported(w, m, id);
        if found.None? then Val(Unknown)
        else if found.value.1.Const? then Val(found.value.1.value)
        else if depth == 0 then Raises
        else Eval(w, found.value.0, found.value.1, map[], depth - 1)
    case Joined(pieces) =>
      var texts := EvalPieces(w, m, pieces, env, depth);
      if texts.None? then Raises
      else if texts.value.None? then Val(Unknown)
      else Val(Str(texts.value.value))
    case DictDisplay(pairs) => EvalPairs(w, m, pairs, [], env, depth)
    case SetDisplay(elts) =>
      var values := EvalArgs(w, m, elts, env, depth);
      if values.None? then Raises else Lift(w.py.distinct(values.value), (xs: seq<Value>) => Set(false, xs))
    case Listing(elements) =>
      var values := EvalElements(w, m, elements, env, depth);
      (match values
       case RaisesAll => Raises
       case UnknownAll => Val(Unknown)
       case Vals(vs) => Val(List(vs)))
    case Add(left, right) =>
      var l := Eval(w, m, left, env, depth);
      if l.Raises? then Raises
      else
        var r := Eval(w, m, right, env, depth);
        if r.Raises? then Raises else Val(Sum(l.value, r.value))
    case BitOr(left, right) =>
      var l := Eval(w, m, left, env, depth);
      if l.Raises? then Raises
      else
        var r := Eval(w, m, right, env, depth);
        if r.Raises? then Raises else Val(UnionOf(w.py, l.value, r.value))
    case Subscript(container, index) =>
      var c := Eval(w, m, container, env, depth);
      if c.Raises? then Raises
      else
        var i := Eval(w, m, index, env, depth);
        if i.Raises? then Raises else SubscriptOf(c.value, i.value)
    case Call(func, args) =>
      if IsBuiltin(func) then
        if args == [] then (if func == "sorted" then Raises else Builtin(w.py, func, []))
        else
          var inner := Eval(w, m, args[0], env, depth);
          if inner.Raises? then Raises
          else if inner.value.Unknown? then Val(Unknown)
          else if Items(inner.value).None? then Raises
          else Builtin(w.py, func, Items(inner.value).value)
      else
        var values := EvalArgs(w, m, args, env, depth);
        if values.None? || depth == 0 then Raises else CallHelper(w, m, func, values.value, depth - 1)
    case JoinCall(separator, args) =>
      var s := Eval(w, m, separator, env, depth);
      if s.Raises? || args == [] then Raises
      else
        var items := Eval(w, m, args[0], env, depth);
        if items.Raises? then Raises
        else if s.value.Str? && items.value.List? then
          Val(Str(JoinText(s.value.text, Rendered(w.py, items.value.items))))
        else Val(Unknown)
    case Generator(elt, loops) =>
      var scopes := EvalLoops(w, m, loops, [env], depth);
      (match scopes
       case RaisesScopes => Raises
       case UnknownScopes => Val(Unknown)
       case Envs(envs) =>
         match EvalEach(w, m, elt, envs, depth)
         case RaisesAll => Raises
         case UnknownAll => Val(Unknown)
         case Vals(vs) => Val(List(vs)))
    case Unsupported => Val(Unknown)
  }

  /** The text of a formatted string: the outer option is the exception, the inner the unknown. */
  function EvalPieces(w: World, m: string, pieces: seq<Piece>, env: Env, depth: nat): Option<Option<string>>
    requires m in w.modules
    decreases depth, pieces
  {
    if pieces == [] then Some(Some(""))
    else
      match pieces[0]
      case OtherPiece => EvalPieces(w, m, pieces[1..], env, depth)
      case Text(text) => Prepend(text, EvalPieces(w, m, pieces[1..], env, depth))
      case Hole(expr) =>
        assert (pieces[0] decreases to expr);
        var v := Eval(w, m, expr, env, depth);
        if v.Raises? then None
        else if v.value.Unknown? then Some(None)
        else Prepend(w.py.render(v.value), EvalPieces(w, m, pieces[1..], env, depth))
  }

  function Prepend(text: string, rest: Option<Option<string>>): Option<Option<string>> {
    if rest.None? || rest.value.None? then rest else Some(Some(text + rest.value.value))
  }

  /** Fills a dictionary entry by entry; unknown keys and values go in as they are. */
  function EvalPairs(w: World, m: string, pairs: seq<Pair>, made: seq<(Value, Value)>, env: Env, depth: nat): Answer
    requires m in w.modules
    decreases depth, pairs
  {
    if pairs == [] then Val(Dict(made))
    else
      match pairs[0]
      case Spread(_) => Val(Unknown)
      case Pair(key, value) =>
        assert (pairs[0] decreases to key) && (pairs[0] decreases to value);
        var v := Eval(w, m, value, env, depth);
        if v.Raises? then Raises
        else
          var k := Eval(w, m, key, env, depth);
          if k.Raises? || w.py.insert(made, k.value, v.value).None? then Raises
          else EvalPairs(w, m, pairs[1..], w.py.insert(made, k.value, v.value).value, env, depth)
  }

  /** Stops at the first unknown element. */
  function EvalElements(w: World, m: string, elements: seq<Element>, env: Env, depth: nat): Answers
    requires m in w.modules
    decreases depth, elements
  {
    if elements == [] then Vals([])
    else
      assert (elements[0] decreases to elements[0].expr);
      var v := Eval(w, m, elements[0].expr, env, depth);
      if v.Raises? then RaisesAll
      else if v.value.Unknown? then UnknownAll
      else if elements[0].Starred? && Items(v.value).None? then RaisesAll
      else
        var front := if elements[0].Starred? then Items(v.value).value else [v.value];
        var rest := EvalElements(w, m, elements[1..], env, depth);
        if rest.Vals? then Vals(front + rest.values) else rest
  }

  /** Evaluates every argument; unknown ones stay in place. */
  function EvalArgs(w: World, m: string, args: seq<Expr>, env: Env, depth: nat): (r: Option<seq<Value>>)
    requires m in w.modules
    ensures r.Some? ==> |r.value| == |args|
    decreases depth, args
  {
    if args == [] then Some([])
    else
      var v := Eval(w, m, args[0], env, depth);
      if v.Raises? then None
      else
        var rest := EvalArgs(w, m, args[1..], env, depth);
        if rest.None? then None else Some([v.value] + rest.value)
  }

  // ----- Comprehensions

  function EvalLoops(w: World, m: string, loops: seq<Loop>, envs: seq<Env>, depth: nat): Scopes
    requires m in w.modules
    decreases depth, loops
  {
    if loops == [] then Envs(envs)
    else
      var expanded := Expand(w, m, loops[0], envs, depth);
      if !expanded.Envs? then expanded
      else
        var kept := Filter(w, m, loops[0].ifs, expanded.envs, depth);
        if !kept.Envs? then kept else EvalLoops(w, m, loops[1..], kept.envs, depth)
  }

  function Expand(w: World, m: string, loop: Loop, envs: seq<Env>, depth: nat): Scopes
    requires m in w.modules
    decreases depth, loop, |envs|
  {
    if envs == [] then Envs([])
    else
      Spread(loop.target, Eval(w, m, loop.iter, envs[0], depth), envs[0], Expand(w, m, loop, envs[1..], depth))
  }

  /** The scopes of one scope's iterable, before those of the remaining scopes. */
  function Spread(target: Target, v: Answer, env: Env, rest: Scopes): Scopes {
    if v.Raises? then RaisesScopes
    else if v.value.Unknown? then UnknownScopes
    else if Items(v.value).None? then RaisesScopes
    else
      var front := BindItems(target, env, Items(v.value).value);
      if front.None? then UnknownScopes
      else if rest.Envs? then Envs(front.value + rest.envs)
      else rest
  }

  function Filter(w: World, m: string, ifs: seq<Cond>, envs: seq<Env>, depth: nat): Scopes
    requires m in w.modules
    decreases depth, ifs, |envs| + 1
  {
    if envs == [] then Envs([])
    else
      var vs := EvalConds(w, m, ifs, envs[0], depth);
      if vs.RaisesVerdicts? then RaisesScopes
      else if AnyUnknown(vs.verdicts) then UnknownScopes
      else
        var rest := Filter(w, m, ifs, envs[1..], depth);
        if rest.Envs? && AllHold(vs.verdicts) then Envs([envs[0]] + rest.envs) else rest
  }

  function EvalEach(w: World, m: string, elt: Expr, envs: seq<Env>, depth: nat): Answers
    requires m in w.modules
    decreases depth, elt, |envs| + 1
  {
    if envs == [] then Vals([])
    else
      var v := Eval(w, m, elt, envs[0], depth);
      if v.Raises? then RaisesAll
      else if v.value.Unknown? then UnknownAll
      else
        var rest := EvalEach(w, m, elt, envs[1..], depth);
        if rest.Vals? then Vals([v.value] + rest.values) else rest
  }

  function EvalCond(w: World, m: string, c: Cond, env: Env, depth: nat): Verdict
    requires m in w.modules
    decreases depth, c, 0
  {
    match c
    case Compare(op, left, right) =>
      var l := Eval(w, m, left, env, depth);
      if l.Raises? then RaisesVerdict
      else
        var r := Eval(w, m, right, env, depth);
        if r.Raises? then RaisesVerdict
        else if l.value.Unknown? || r.value.Unknown? then NoVerdict
        else Compared(w.py, op, l.value, r.value)
    case Not(operand) =>
      var v := EvalCond(w, m, operand, env, depth);
      if v.Holds? then Holds(!v.truth) else v
    case And(conds) =>
      var vs := EvalConds(w, m, conds, env, depth);
      if vs.RaisesVerdicts? then RaisesVerdict
      else if AnyUnknown(vs.verdicts) then NoVerdict
      else Holds(AllHold(vs.verdicts))
    case Or(conds) =>
      var vs := EvalConds(w, m, conds, env, depth);
      if vs.RaisesVerdicts? then RaisesVerdict
      else if AnyUnknown(vs.verdicts) then NoVerdict
      else Holds(SomeHold(vs.verdicts))
    case OtherCond => NoVerdict
  }

  function EvalConds(w: World, m: string, conds: seq<Cond>, env: Env, depth: nat): Verdicts
    requires m in w.modules
    decreases depth, conds, 0
  {
    if conds == [] then Each([])
    else
      var v := EvalCond(w, m, conds[0], env, depth);
      if v.RaisesVerdict? then RaisesVerdicts
      else
        var rest := EvalConds(w, m, conds[1..], env, depth);
        if rest.Each? then Each([v] + rest.verdicts) else rest
  }

  // ----- Calling a helper

  /** The names the positional defaults belong to: a slice that counts from the end when there
      are more defaults than names. */
  function DefaultNames(params: seq<string>, defaults: nat): seq<string> {
    if defaults <= |params| then params[|params| - defaults..]
    else if 2 * |params| >= defaults then params[2 * |params| - defaults..]
    else params
  }

  function Positional(params: seq<string>, arguments: seq<Value>): Env {
    if params == [] || arguments == [] then map[]
    else
      var n := if |params| < |arguments| then |params| else |arguments|;
      Positional(params[..n - 1], arguments[..n - 1])[params[n - 1] := arguments[n - 1]]
  }

  /** Adds the defaults of the names that have no value yet; every default is evaluated, on
      nothing but the module itself. */
  function WithDefaults(w: World, m: string, names: seq<string>, defaults: seq<Expr>, env: Env, depth: nat): Option<Env>
    requires m in w.modules
    decreases depth, defaults
  {
    if names == [] || defaults == [] then Some(env)
    else
      var v := Eval(w, m, defaults[0], map[], depth);
      if v.Raises? then None
      else
        WithDefaults(w, m, names[1..], defaults[1..], if names[0] in env then env else env[names[0] := v.value], depth)
  }

  function WithKeywords(w: World, m: string, kwonly: seq<Keyword>, env: Env, depth: nat): Option<Env>
    requires m in w.modules
    decreases depth, kwonly
  {
    if kwonly == [] then Some(env)
    else if kwonly[0].Required? then WithKeywords(w, m, kwonly[1..], env, depth)
    else
      assert (kwonly[0] decreases to kwonly[0].default);
      var v := Eval(w, m, kwonly[0].default, map[], depth);
      if v.Raises? then None
      else
        WithKeywords(w, m, kwonly[1..], if kwonly[0].id in env then env else env[kwonly[0].id := v.value], depth)
  }

  function Assigned(env: Env, s: Statement, v: Value): Env {
    match s
    case AssignName(id, _) => env[id := v]
    case AssignTuple(names, _) =>
      if v.List? && |v.items| == |names| then Bind(env, names, v.items) else BindUnknown(env, names)
    case _ => env
  }

  function RunBody(w: World, m: string, body: seq<Statement>, env: Env, depth: nat): Answer
    requires m in w.modules
    decreases depth, body
  {
    if body == [] then Val(Unknown)
    else if body[0].Skip? then RunBody(w, m, body[1..], env, depth)
    else
      assert (body[0] decreases to body[0].value);
      var v := Eval(w, m, body[0].value, env, depth);
      if v.Raises? || body[0].Return? then v
      else RunBody(w, m, body[1..], Assigned(env, body[0], v.value), depth)
  }

  function CallHelper(w: World, m: string, name: string, arguments: seq<Value>, depth: nat): Answer
    requires m in w.modules
    decreases depth, Call(name, []), 1
  {
    if name !in w.modules[m].functions then Val(Unknown)
    else if depth == 0 then Raises
    else
      var f := w.modules[m].functions[name];
      var some := WithDefaults(w, m, DefaultNames(f.params, |f.defaults|), f.defaults, Positional(f.params, arguments), depth - 1);
      if some.None? then Raises
      else
        var all := WithKeywords(w, m, f.kwonly, some.value, depth - 1);
        if all.None? then Raises else RunBody(w, m, f.body, all.value, depth - 1)
  }

  // ----- More knowledge never changes a definite answer

  /** The second environment knows at least what the first knows, about the same names. */
  predicate Knows(a: Env, b: Env) { a.Keys == b.Keys && forall k :: k in a ==> a[k].Unknown? || a[k] == b[k] }

  predicate ValuesKnow(a: seq<Value>, b: seq<Value>) {
    |a| == |b| && forall i :: 0 <= i < |a| ==> a[i].Unknown? || a[i] == b[i]
  }

  predicate ScopesKnow(a: seq<Env>, b: seq<Env>) { |a| == |b| && forall i :: 0 <= i < |a| ==> Knows(a[i], b[i]) }

  predicate Definite(r: Answer) { r.Val? && !r.value.Unknown? }

  /** What a stability claim covers: any helper, with the exceptions it may raise; or only the
      named helpers, each with the number of positional arguments it is called with. */
  datatype Mode = Loose | Strict(steady: set<(string, nat)>)

  /** A definite answer stands, unless (in the loose mode) evaluating a helper raises. */
  predicate Stands(a: Answer, b: Answer, mode: Mode) { Definite(a) ==> b == a || (mode.Loose? && b.Raises?) }

  /** A name that is bound, a literal constant, or nothing at all. */
  predicate Literal(w: World, m: string, id: string)
    requires m in w.modules
  {
    if id in w.modules[m].constants then w.modules[m].constants[id].Const?
    else Imported(w, m, id).None? || Imported(w, m, id).value.1.Const?
  }

  /** An expression in which nothing can raise, whatever the values are: it is built from bound
      names and literals by text, lists, `+`, `|`, `join` and subscripts at a fixed place. */
  predicate Bare(w: World, m: string, e: Expr, locals: set<string>)
    requires m in w.modules
  {
    match e
    case Const(_) => true
    case Name(id) => id in locals || Literal(w, m, id)
    case Joined(pieces) => forall p :: p in pieces && p.Hole? ==> Bare(w, m, p.expr, locals)
    case Listing(elements) => forall x :: x in elements ==> x.One? && Bare(w, m, x.expr, locals)
    case Add(left, right) => Bare(w, m, left, locals) && Bare(w, m, right, locals)
    case BitOr(left, right) => Bare(w, m, left, locals) && Bare(w, m, right, locals)
    case Subscript(container, index) =>
      Bare(w, m, container, locals) && index.Const? && index.value.Int? && index.value.number >= 0
    case JoinCall(separator, args) =>
      args != [] && Bare(w, m, separator, locals) && Bare(w, m, args[0], locals)
    case Unsupported => true
    case _ => false
  }

  /** The fragment without set and dictionary displays. In the strict mode only the named
      helpers are called, and only with arguments in which nothing can raise. */
  predicate Plain(w: World, m: string, e: Expr, locals: set<string>, mode: Mode)
    requires m in w.modules
  {
    match e
    case Const(_) => true
    case Name(_) => true
    case Joined(pieces) => forall p :: p in pieces && p.Hole? ==> Plain(w, m, p.expr, locals, mode)
    case DictDisplay(_) => false
    case SetDisplay(_) => false
    case Listing(elements) => forall x :: x in elements ==> Plain(w, m, x.expr, locals, mode)
    case Add(left, right) => Plain(w, m, left, locals, mode) && Plain(w, m, right, locals, mode)
    case BitOr(left, right) => Plain(w, m, left, locals, mode) && Plain(w, m, right, locals, mode)
    case Subscript(container, index) => Plain(w, m, container, locals, mode) && Plain(w, m, index, locals, mode)
    case Call(func, args) =>
      && (mode.Strict? && !IsBuiltin(func) ==>
            (func, |args|) in mode.steady && forall x :: x in args ==> Bare(w, m, x, locals))
      && forall x :: x in args ==> Plain(w, m, x, locals, mode)
    case JoinCall(separator, args) =>
      Plain(w, m, separator, locals, mode) && forall x :: x in args ==> Plain(w, m, x, locals, mode)
    case Generator(elt, loops) =>
      Plain(w, m, elt, locals, mode) && forall l :: l in loops ==> PlainLoop(w, m, l, locals, mode)
    case Unsupported => true
  }

  predicate PlainLoop(w: World, m: string, l: Loop, locals: set<string>, mode: Mode)
    requires m in w.modules
  {
    Plain(w, m, l.iter, locals, mode) && forall c :: c in l.ifs ==> PlainCond(w, m, c, locals, mode)
  }

  predicate PlainCond(w: World, m: string, c: Cond, locals: set<string>, mode: Mode)
    requires m in w.modules
  {
    match c
    case Compare(_, left, right) => Plain(w, m, left, locals, mode) && Plain(w, m, right, locals, mode)
    case Not(operand) => PlainCond(w, m, operand, locals, mode)
    case And(conds) => forall x :: x in conds ==> PlainCond(w, m, x, locals, mode)
    case Or(conds) => forall x :: x in conds ==> PlainCond(w, m, x, locals, mode)
    case OtherCond => true
  }

  function Assigns(s: Statement): set<string> {
    match s
    case AssignName(id, _) => {id}
    case AssignTuple(names, _) => set n | n in names
    case _ => {}
  }

  /** A helper body: whatever is assigned or returned is plain, and in the strict mode nothing
      that is assigned can raise. */
  predicate PlainBody(w: World, m: string, body: seq<Statement>, locals: set<string>, mode: Mode)
    requires m in w.modules
  {
    body == [] ||
    (if body[0].Skip? then PlainBody(w, m, body[1..], locals, mode)
     else
       && Plain(w, m, body[0].value, locals, mode)
       && (body[0].Return? ||
           (&& (mode.Strict? ==> Bare(w, m, body[0].value, locals))
            && PlainBody(w, m, body[1..], locals + Assigns(body[0]), mode))))
  }

  /** The names a call with `n` positional arguments is sure to bind. */
  function Bound(f: Function, n: nat): set<string> {
    var names := DefaultNames(f.params, |f.defaults|);
    (set i | 0 <= i < |f.params| && i < n :: f.params[i])
    + (set i | 0 <= i < |names| && i < |f.defaults| :: names[i])
    + (set k | k in f.kwonly && k.Optional? :: k.id)
  }

  predicate PlainModule(w: World, m: string, mode: Mode)
    requires m in w.modules
  {
    && (forall id :: id in w.modules[m].constants ==> Plain(w, m, w.modules[m].constants[id], {}, mode))
    && (mode.Loose? ==>
          forall f :: f in w.modules[m].functions ==> PlainBody(w, m, w.modules[m].functions[f].body, {}, mode))
    && (mode.Strict? ==>
          forall c :: c in mode.steady && c.0 in w.modules[m].functions ==> SteadyAt(w, m, c.0, c.1, mode))
  }

  predicate SteadyAt(w: World, m: string, name: string, n: nat, mode: Mode)
    requires m in w.modules && name in w.modules[m].functions
  {
    PlainBody(w, m, w.modules[m].functions[name].body, Bound(w.modules[m].functions[name], n), mode)
  }

  predicate Fits(w: World, m: string, mode: Mode) { m in w.modules && PlainModule(w, m, mode) }

  // ----- What cannot raise

  lemma {:induction false} BareEvaluates(w: World, m: string, e: Expr, locals: set<string>, env: Env, depth: nat)
    requires m in w.modules && Bare(w, m, e, locals) && locals <= env.Keys
    ensures Eval(w, m, e, env, depth).Val?
    decreases e, 0
  {
    match e
    case Joined(pieces) => BarePieces(w, m, pieces, locals, env, depth);
    case Listing(elements) => BareElements(w, m, elements, locals, env, depth);
    case Add(left, right) =>
      BareEvaluates(w, m, left, locals, env, depth);
      BareEvaluates(w, m, right, locals, env, depth);
    case BitOr(left, right) =>
      BareEvaluates(w, m, left, locals, env, depth);
      BareEvaluates(w, m, right, locals, env, depth);
    case Subscript(container, _) => BareEvaluates(w, m, container, locals, env, depth);
    case JoinCall(separator, args) =>
      BareEvaluates(w, m, separator, locals, env, depth);
      BareEvaluates(w, m, args[0], locals, env, depth);
    case _ =>
  }

  lemma {:induction false} BarePieces(w: World, m: string, pieces: seq<Piece>, locals: set<string>, env: Env, depth: nat)
    requires m in w.modules && locals <= env.Keys
    requires forall p :: p in pieces && p.Hole? ==> Bare(w, m, p.expr, locals)
    ensures EvalPieces(w, m, pieces, env, depth).Some?
    decreases pieces
  {
    if pieces != [] {
      if pieces[0].Hole? {
        assert (pieces[0] decreases to pieces[0].expr);
        BareEvaluates(w, m, pieces[0].expr, locals, env, depth);
      }
      BarePieces(w, m, pieces[1..], locals, env, depth);
    }
  }

  lemma {:induction false} BareElements(w: World, m: string, elements: seq<Element>, locals: set<string>, env: Env, depth: nat)
    requires m in w.modules && locals <= env.Keys
    requires forall x :: x in elements ==> x.One? && Bare(w, m, x.expr, locals)
    ensures !EvalElements(w, m, elements, env, depth).RaisesAll?
    decreases elements
  {
    if elements != [] {
      assert (elements[0] decreases to elements[0].expr);
      assert elements[0] in elements;
      BareEvaluates(w, m, elements[0].expr, locals, env, depth);
      BareElements(w, m, elements[1..], locals, env, depth);
    }
  }

  lemma {:induction false} BareArgs(w: World, m: string, args: seq<Expr>, locals: set<string>, env: Env, depth: nat)
    requires m in w.modules && locals <= env.Keys && forall x :: x in args ==> Bare(w, m, x, locals)
    ensures EvalArgs(w, m, args, env, depth).Some?
    decreases args
  {
    if args != [] {
      BareEvaluates(w, m, args[0], locals, env, depth);
      BareArgs(w, m, args[1..], locals, env, depth);
    }
  }

  // ----- Environments grow together

  lemma {:induction false} BindKnows(a: Env, b: Env, names: seq<string>, values: seq<Value>)
    requires Knows(a, b) && |names| == |values|
    ensures Knows(Bind(a, names, values), Bind(b, names, values))
    ensures Knows(BindUnknown(a, names), Bind(b, names, values))
    decreases |names|
  {
    if names != [] {
      BindKnows(a[names[0] := values[0]], b[names[0] := values[0]], names[1..], values[1..]);
      BindKnows(a[names[0] := Unknown], b[names[0] := values[0]], names[1..], values[1..]);
    }
  }

  lemma {:induction false} BindUnknownKnows(a: Env, b: Env, names: seq<string>)
    requires Knows(a, b)
    ensures Knows(BindUnknown(a, names), BindUnknown(b, names))
    decreases |names|
  {
    if names != [] { BindUnknownKnows(a[names[0] := Unknown], b[names[0] := Unknown], names[1..]); }
  }

  lemma {:induction false} BindItemsKnow(target: Target, a: Env, b: Env, items: seq<Value>)
    requires Knows(a, b)
    ensures var x, y := BindItems(target, a, items), BindItems(target, b, items);
            (x.None? <==> y.None?) && (x.Some? ==> ScopesKnow(x.value, y.value))
  {
    if items != [] {
      BindItemsKnow(target, a, b, items[1..]);
      if target.TupleTarget? && items[0].List? && |items[0].items| == |target.names| {
        BindKnows(a, b, target.names, items[0].items);
      }
    }
  }

  lemma {:induction false} AssignedKnows(a: Env, b: Env, s: Statement, v: Value, u: Value)
    requires Knows(a, b) && (v.Unknown? || v == u)
    ensures Knows(Assigned(a, s, v), Assigned(b, s, u))
  {
    if s.AssignTuple? {
      BindUnknownKnows(a, b, s.names);
      if u.List? && |u.items| == |s.names| { BindKnows(a, b, s.names, u.items); }
    }
  }

  lemma {:induction false} PositionalKnows(params: seq<string>, a: seq<Value>, b: seq<Value>)
    requires ValuesKnow(a, b)
    ensures Knows(Positional(params, a), Positional(params, b))
  {
    if params != [] && a != [] {
      var n := if |params| < |a| then |params| else |a|;
      PositionalKnows(params[..n - 1], a[..n - 1], b[..n - 1]);
    }
  }

  lemma {:induction false} DefaultsKnow(w: World, m: string, names: seq<string>, defaults: seq<Expr>, a: Env, b: Env,
                                        depth: nat)
    requires m in w.modules && Knows(a, b)
    ensures var x, y := WithDefaults(w, m, names, defaults, a, depth), WithDefaults(w, m, names, defaults, b, depth);
            (x.None? <==> y.None?) && (x.Some? ==> Knows(x.value, y.value))
    decreases |defaults|
  {
    if names != [] && defaults != [] {
      var v := Eval(w, m, defaults[0], map[], depth);
      if v.Val? {
        DefaultsKnow(w, m, names[1..], defaults[1..], if names[0] in a then a else a[names[0] := v.value],
                     if names[0] in b then b else b[names[0] := v.value], depth);
      }
    }
  }

  lemma {:induction false} KeywordsKnow(w: World, m: string, kwonly: seq<Keyword>, a: Env, b: Env, depth: nat)
    requires m in w.modules && Knows(a, b)
    ensures var x, y := WithKeywords(w, m, kwonly, a, depth), WithKeywords(w, m, kwonly, b, depth);
            (x.None? <==> y.None?) && (x.Some? ==> Knows(x.value, y.value))
    decreases |kwonly|
  {
    if kwonly != [] {
      if kwonly[0].Required? {
        KeywordsKnow(w, m, kwonly[1..], a, b, depth);
      } else {
        var v, id := Eval(w, m, kwonly[0].default, map[], depth), kwonly[0].id;
        if v.Val? {
          KeywordsKnow(w, m, kwonly[1..], if id in a then a else a[id := v.value],
                       if id in b then b else b[id := v.value], depth);
        }
      }
    }
  }

  lemma {:induction false} BindKeys(env: Env, names: seq<string>, values: seq<Value>)
    requires |names| == |values|
    ensures Bind(env, names, values).Keys == env.Keys + set n | n in names
    ensures BindUnknown(env, names).Keys == env.Keys + set n | n in names
    decreases |names|
  {
    if names != [] {
      BindKeys(env[names[0] := values[0]], names[1..], values[1..]);
      BindKeys(env[names[0] := Unknown], names[1..], values[1..]);
    }
  }

  lemma {:induction false} AssignedKeys(env: Env, s: Statement, v: Value)
    ensures env.Keys + Assigns(s) <= Assigned(env, s, v).Keys
  {
    if s.AssignTuple? {
      var values := seq(|s.names|, i => Unknown);
      BindKeys(env, s.names, values);
      if v.List? && |v.items| == |s.names| { BindKeys(env, s.names, v.items); }
    }
  }

  predicate AllBind(envs: seq<Env>, locals: set<string>) { forall i :: 0 <= i < |envs| ==> locals <= envs[i].Keys }

  lemma {:induction false} ItemsKeepKeys(target: Target, env: Env, items: seq<Value>, locals: set<string>)
    requires locals <= env.Keys && BindItems(target, env, items).Some?
    ensures AllBind(BindItems(target, env, items).value, locals)
  {
    if items != [] {
      ItemsKeepKeys(target, env, items[1..], locals);
      if target.TupleTarget? { BindKeys(env, target.names, items[0].items); }
    }
  }

  lemma {:induction false} ExpandKeepsKeys(w: World, m: string, loop: Loop, envs: seq<Env>, depth: nat, locals: set<string>)
    requires m in w.modules && AllBind(envs, locals) && Expand(w, m, loop, envs, depth).Envs?
    ensures AllBind(Expand(w, m, loop, envs, depth).envs, locals)
    decreases |envs|
  {
    if envs != [] {
      var v := Eval(w, m, loop.iter, envs[0], depth);
      ItemsKeepKeys(loop.target, envs[0], Items(v.value).value, locals);
      ExpandKeepsKeys(w, m, loop, envs[1..], depth, locals);
    }
  }

  lemma {:induction false} FilterKeepsKeys(w: World, m: string, ifs: seq<Cond>, envs: seq<Env>, depth: nat, locals: set<string>)
    requires m in w.modules && AllBind(envs, locals) && Filter(w, m, ifs, envs, depth).Envs?
    ensures AllBind(Filter(w, m, ifs, envs, depth).envs, locals)
    decreases |envs|
  {
    if envs != [] { FilterKeepsKeys(w, m, ifs, envs[1..], depth, locals); }
  }

  lemma {:induction false} LoopsKeepKeys(w: World, m: string, loops: seq<Loop>, envs: seq<Env>, depth: nat, locals: set<string>)
    requires m in w.modules && AllBind(envs, locals) && EvalLoops(w, m, loops, envs, depth).Envs?
    ensures AllBind(EvalLoops(w, m, loops, envs, depth).envs, locals)
    decreases |loops|
  {
    if loops != [] {
      ExpandKeepsKeys(w, m, loops[0], envs, depth, locals);
      var expanded := Expand(w, m, loops[0], envs, depth).envs;
      FilterKeepsKeys(w, m, loops[0].ifs, expanded, depth, locals);
      LoopsKeepKeys(w, m, loops[1..], Filter(w, m, loops[0].ifs, expanded, depth).envs, depth, locals);
    }
  }

  lemma {:induction false} PositionalKeys(params: seq<string>, arguments: seq<Value>)
    ensures forall i :: 0 <= i < |params| && i < |arguments| ==> params[i] in Positional(params, arguments)
  {
    if params != [] && arguments != [] {
      var n := if |params| < |arguments| then |params| else |arguments|;
      PositionalKeys(params[..n - 1], arguments[..n - 1]);
      forall i | 0 <= i < |params| && i < |arguments|
        ensures params[i] in Positional(params, arguments)
      {
        assert i < n - 1 ==> params[i] == params[..n - 1][i];
      }
    }
  }

  lemma {:induction false} DefaultsKeepKeys(w: World, m: string, names: seq<string>, defaults: seq<Expr>, env: Env, depth: nat)
    requires m in w.modules && WithDefaults(w, m, names, defaults, env, depth).Some?
    ensures env.Keys <= WithDefaults(w, m, names, defaults, env, depth).value.Keys
    ensures forall i :: 0 <= i < |names| && i < |defaults| ==> names[i] in WithDefaults(w, m, names, defaults, env, depth).value
    decreases |defaults|
  {
    if names != [] && defaults != [] {
      var v := Eval(w, m, defaults[0], map[], depth);
      DefaultsKeepKeys(w, m, names[1..], defaults[1..], if names[0] in env then env else env[names[0] := v.value], depth);
      forall i | 0 <= i < |names| && i < |defaults|
        ensures names[i] in WithDefaults(w, m, names, defaults, env, depth).value
      {
        assert i > 0 ==> names[i] == names[1..][i - 1];
      }
    }
  }

  lemma {:induction false} KeywordsKeepKeys(w: World, m: string, kwonly: seq<Keyword>, env: Env, depth: nat)
    requires m in w.modules && WithKeywords(w, m, kwonly, env, depth).Some?
    ensures env.Keys <= WithKeywords(w, m, kwonly, env, depth).value.Keys
    ensures forall k :: k in kwonly && k.Optional? ==> k.id in WithKeywords(w, m, kwonly, env, depth).value
    decreases |kwonly|
  {
    if kwonly != [] {
      if kwonly[0].Required? {
        KeywordsKeepKeys(w, m, kwonly[1..], env, depth);
      } else {
        var v, id := Eval(w, m, kwonly[0].default, map[], depth), kwonly[0].id;
        KeywordsKeepKeys(w, m, kwonly[1..], if id in env then env else env[id := v.value], depth);
      }
      assert kwonly == [kwonly[0]] + kwonly[1..];
    }
  }

  // ----- The main result, by recursion over the evaluation itself

  ghost predicate Comparable(w: World, m: string, locals: set<string>, a: Env, b: Env, mode: Mode) {
    Fits(w, m, mode) && Knows(a, b) && locals <= a.Keys
  }

  lemma {:induction false} EvalStands(w: World, m: string, e: Expr, locals: set<string>, a: Env, b: Env, depth: nat, mode: Mode)
    requires Comparable(w, m, locals, a, b, mode) && Plain(w, m, e, locals, mode)
    ensures Stands(Eval(w, m, e, a, depth), Eval(w, m, e, b, depth), mode)
    decreases depth, e, 1
  {
    match e
    case Name(id) =>
      if id !in a && depth > 0 && id in w.modules[m].constants {
        EvalStands(w, m, w.modules[m].constants[id], {}, a, b, depth - 1, mode);
      }
    case Joined(pieces) => PiecesStand(w, m, pieces, locals, a, b, depth, mode);
    case Listing(elements) => ElementsStand(w, m, elements, locals, a, b, depth, mode);
    case Add(_, _) => OperandsStand(w, m, e, locals, a, b, depth, mode);
    case BitOr(_, _) => OperandsStand(w, m, e, locals, a, b, depth, mode);
    case Subscript(_, _) => SubscriptStands(w, m, e, locals, a, b, depth, mode);
    case Call(_, _) => CallStands(w, m, e, locals, a, b, depth, mode);
    case JoinCall(_, _) => JoinStands(w, m, e, locals, a, b, depth, mode);
    case Generator(_, _) => GeneratorStands(w, m, e, locals, a, b, depth, mode);
    case _ =>
  }

  lemma {:induction false} OperandsStand(w: World, m: string, e: Expr, locals: set<string>, a: Env, b: Env, depth: nat, mode: Mode)
    requires Comparable(w, m, locals, a, b, mode) && Plain(w, m, e, locals, mode) && (e.Add? || e.BitOr?)
    ensures Stands(Eval(w, m, e, a, depth), Eval(w, m, e, b, depth), mode)
    decreases depth, e, 0
  {
    EvalStands(w, m, e.left, locals, a, b, depth, mode);
    EvalStands(w, m, e.right, locals, a, b, depth, mode);
  }

  lemma {:induction false} SubscriptStands(w: World, m: string, e: Expr, locals: set<string>, a: Env, b: Env, depth: nat, mode: Mode)
    requires Comparable(w, m, locals, a, b, mode) && Plain(w, m, e, locals, mode) && e.Subscript?
    ensures Stands(Eval(w, m, e, a, depth), Eval(w, m, e, b, depth), mode)
    decreases depth, e, 0
  {
    EvalStands(w, m, e.container, locals, a, b, depth, mode);
    EvalStands(w, m, e.index, locals, a, b, depth, mode);
  }

  lemma {:induction false} CallStands(w: World, m: string, e: Expr, locals: set<string>, a: Env, b: Env, depth: nat, mode: Mode)
    requires Comparable(w, m, locals, a, b, mode) && Plain(w, m, e, locals, mode) && e.Call?
    ensures Stands(Eval(w, m, e, a, depth), Eval(w, m, e, b, depth), mode)
    decreases depth, e, 0
  {
    if IsBuiltin(e.func) {
      if e.args != [] { EvalStands(w, m, e.args[0], locals, a, b, depth, mode); }
    } else {
      ArgsKnow(w, m, e.args, locals, a, b, depth, mode);
      if mode.Strict? { BareArgs(w, m, e.args, locals, b, depth); }
      var x, y := EvalArgs(w, m, e.args, a, depth), EvalArgs(w, m, e.args, b, depth);
      if x.Some? && y.Some? && depth > 0 { HelperStands(w, m, e.func, x.value, y.value, depth - 1, mode); }
    }
  }

  lemma {:induction false} JoinStands(w: World, m: string, e: Expr, locals: set<string>, a: Env, b: Env, depth: nat, mode: Mode)
    requires Comparable(w, m, locals, a, b, mode) && Plain(w, m, e, locals, mode) && e.JoinCall?
    ensures Stands(Eval(w, m, e, a, depth), Eval(w, m, e, b, depth), mode)
    decreases depth, e, 0
  {
    EvalStands(w, m, e.separator, locals, a, b, depth, mode);
    if e.args != [] { EvalStands(w, m, e.args[0], locals, a, b, depth, mode); }
  }

  lemma {:induction false} GeneratorStands(w: World, m: string, e: Expr, locals: set<string>, a: Env, b: Env, depth: nat, mode: Mode)
    requires Comparable(w, m, locals, a, b, mode) && Plain(w, m, e, locals, mode) && e.Generator?
    ensures Stands(Eval(w, m, e, a, depth), Eval(w, m, e, b, depth), mode)
    decreases depth, e, 0
  {
    LoopsStand(w, m, e.loops, locals, [a], [b], depth, mode);
    var x, y := EvalLoops(w, m, e.loops, [a], depth), EvalLoops(w, m, e.loops, [b], depth);
    if x.Envs? && y.Envs? {
      LoopsKeepKeys(w, m, e.loops, [a], depth, locals);
      EachStands(w, m, e.elt, locals, x.envs, y.envs, depth, mode);
    }
  }

  lemma {:induction false} PiecesStand(w: World, m: string, pieces: seq<Piece>, locals: set<string>, a: Env, b: Env, depth: nat,
                                       mode: Mode)
    requires Comparable(w, m, locals, a, b, mode)
    requires forall p :: p in pieces && p.Hole? ==> Plain(w, m, p.expr, locals, mode)
    ensures var x, y := EvalPieces(w, m, pieces, a, depth), EvalPieces(w, m, pieces, b, depth);
            x.Some? && x.value.Some? ==> y == x || (mode.Loose? && y.None?)
    decreases depth, pieces
  {
    if pieces != [] {
      if pieces[0].Hole? {
        assert (pieces[0] decreases to pieces[0].expr);
        EvalStands(w, m, pieces[0].expr, locals, a, b, depth, mode);
      }
      PiecesStand(w, m, pieces[1..], locals, a, b, depth, mode);
    }
  }

  lemma {:induction false} ElementsStand(w: World, m: string, elements: seq<Element>, locals: set<string>, a: Env, b: Env,
                                         depth: nat, mode: Mode)
    requires Comparable(w, m, locals, a, b, mode) && forall x :: x in elements ==> Plain(w, m, x.expr, locals, mode)
    ensures var x, y := EvalElements(w, m, elements, a, depth), EvalElements(w, m, elements, b, depth);
            x.Vals? ==> y == x || (mode.Loose? && y.RaisesAll?)
    decreases depth, elements
  {
    if elements != [] {
      assert (elements[0] decreases to elements[0].expr);
      EvalStands(w, m, elements[0].expr, locals, a, b, depth, mode);
      ElementsStand(w, m, elements[1..], locals, a, b, depth, mode);
    }
  }

  lemma {:induction false} ArgsKnow(w: World, m: string, args: seq<Expr>, locals: set<string>, a: Env, b: Env, depth: nat, mode: Mode)
    requires Comparable(w, m, locals, a, b, mode) && forall x :: x in args ==> Plain(w, m, x, locals, mode)
    ensures var x, y := EvalArgs(w, m, args, a, depth), EvalArgs(w, m, args, b, depth);
            x.Some? && y.Some? ==> ValuesKnow(x.value, y.value)
    decreases depth, args
  {
    if args != [] {
      EvalStands(w, m, args[0], locals, a, b, depth, mode);
      ArgsKnow(w, m, args[1..], locals, a, b, depth, mode);
    }
  }

  lemma {:induction false} HelperStands(w: World, m: string, name: string, a: seq<Value>, b: seq<Value>, depth: nat, mode: Mode)
    requires Fits(w, m, mode) && ValuesKnow(a, b) && (mode.Strict? ==> (name, |a|) in mode.steady)
    ensures Stands(CallHelper(w, m, name, a, depth), CallHelper(w, m, name, b, depth), mode)
    decreases depth, Call(name, []), 1
  {
    if name in w.modules[m].functions && depth > 0 {
      var f := w.modules[m].functions[name];
      var names, p, q := DefaultNames(f.params, |f.defaults|), Positional(f.params, a), Positional(f.params, b);
      PositionalKnows(f.params, a, b);
      DefaultsKnow(w, m, names, f.defaults, p, q, depth - 1);
      var x, y := WithDefaults(w, m, names, f.defaults, p, depth - 1), WithDefaults(w, m, names, f.defaults, q, depth - 1);
      if x.Some? {
        KeywordsKnow(w, m, f.kwonly, x.value, y.value, depth - 1);
        var s, t := WithKeywords(w, m, f.kwonly, x.value, depth - 1), WithKeywords(w, m, f.kwonly, y.value, depth - 1);
        if s.Some? {
          var locals := if mode.Strict? then Bound(f, |a|) else {};
          CallBinds(w, m, f, a, depth - 1);
          assert mode.Strict? ==> SteadyAt(w, m, name, |a|, mode);
          BodyStands(w, m, f.body, locals, s.value, t.value, depth - 1, mode);
        }
      }
    }
  }

  lemma {:induction false} CallBinds(w: World, m: string, f: Function, arguments: seq<Value>, depth: nat)
    requires m in w.modules
    ensures var names := DefaultNames(f.params, |f.defaults|);
            var x := WithDefaults(w, m, names, f.defaults, Positional(f.params, arguments), depth);
            x.Some? && WithKeywords(w, m, f.kwonly, x.value, depth).Some? ==>
              Bound(f, |arguments|) <= WithKeywords(w, m, f.kwonly, x.value, depth).value.Keys
  {
    var names := DefaultNames(f.params, |f.defaults|);
    var x := WithDefaults(w, m, names, f.defaults, Positional(f.params, arguments), depth);
    PositionalKeys(f.params, arguments);
    if x.Some? {
      DefaultsKeepKeys(w, m, names, f.defaults, Positional(f.params, arguments), depth);
      if WithKeywords(w, m, f.kwonly, x.value, depth).Some? {
        KeywordsKeepKeys(w, m, f.kwonly, x.value, depth);
      }
    }
  }

  lemma {:induction false} BodyStands(w: World, m: string, body: seq<Statement>, locals: set<string>, a: Env, b: Env, depth: nat,
                                      mode: Mode)
    requires Comparable(w, m, locals, a, b, mode) && PlainBody(w, m, body, locals, mode)
    ensures Stands(RunBody(w, m, body, a, depth), RunBody(w, m, body, b, depth), mode)
    decreases depth, body
  {
    if body != [] {
      if body[0].Skip? {
        BodyStands(w, m, body[1..], locals, a, b, depth, mode);
      } else {
        assert (body[0] decreases to body[0].value);
        EvalStands(w, m, body[0].value, locals, a, b, depth, mode);
        var v, u := Eval(w, m, body[0].value, a, depth), Eval(w, m, body[0].value, b, depth);
        if mode.Strict? && !body[0].Return? { BareEvaluates(w, m, body[0].value, locals, b, depth); }
        if v.Val? && u.Val? && !body[0].Return? {
          AssignedKnows(a, b, body[0], v.value, u.value);
          AssignedKeys(a, body[0], v.value);
          BodyStands(w, m, body[1..], locals + Assigns(body[0]), Assigned(a, body[0], v.value),
                     Assigned(b, body[0], u.value), depth, mode);
        }
      }
    }
  }

  predicate ScopesStand(x: Scopes, y: Scopes, mode: Mode) {
    x.Envs? ==> (y.Envs? && ScopesKnow(x.envs, y.envs)) || (mode.Loose? && y.RaisesScopes?)
  }

  ghost predicate ComparableScopes(w: World, m: string, locals: set<string>, a: seq<Env>, b: seq<Env>, mode: Mode) {
    Fits(w, m, mode) && ScopesKnow(a, b) && AllBind(a, locals)
  }

  lemma {:induction false} LoopsStand(w: World, m: string, loops: seq<Loop>, locals: set<string>, a: seq<Env>, b: seq<Env>,
                                      depth: nat, mode: Mode)
    requires ComparableScopes(w, m, locals, a, b, mode) && forall l :: l in loops ==> PlainLoop(w, m, l, locals, mode)
    ensures ScopesStand(EvalLoops(w, m, loops, a, depth), EvalLoops(w, m, loops, b, depth), mode)
    decreases depth, loops
  {
    if loops != [] {
      ExpandStands(w, m, loops[0], locals, a, b, depth, mode);
      var x, y := Expand(w, m, loops[0], a, depth), Expand(w, m, loops[0], b, depth);
      if x.Envs? && y.Envs? {
        assert PlainLoop(w, m, loops[0], locals, mode);
        ExpandKeepsKeys(w, m, loops[0], a, depth, locals);
        FilterStands(w, m, loops[0].ifs, locals, x.envs, y.envs, depth, mode);
        var s, t := Filter(w, m, loops[0].ifs, x.envs, depth), Filter(w, m, loops[0].ifs, y.envs, depth);
        if s.Envs? && t.Envs? {
          FilterKeepsKeys(w, m, loops[0].ifs, x.envs, depth, locals);
          LoopsStand(w, m, loops[1..], locals, s.envs, t.envs, depth, mode);
        }
      }
    }
  }

  lemma {:induction false} ExpandStands(w: World, m: string, loop: Loop, locals: set<string>, a: seq<Env>, b: seq<Env>,
                                        depth: nat, mode: Mode)
    requires ComparableScopes(w, m, locals, a, b, mode) && PlainLoop(w, m, loop, locals, mode)
    ensures ScopesStand(Expand(w, m, loop, a, depth), Expand(w, m, loop, b, depth), mode)
    decreases depth, loop, |a|
  {
    if a != [] {
      EvalStands(w, m, loop.iter, locals, a[0], b[0], depth, mode);
      ExpandStands(w, m, loop, locals, a[1..], b[1..], depth, mode);
      SpreadStands(loop.target, Eval(w, m, loop.iter, a[0], depth), Eval(w, m, loop.iter, b[0], depth), a[0], b[0],
                   Expand(w, m, loop, a[1..], depth), Expand(w, m, loop, b[1..], depth), mode);
    }
  }

  lemma {:induction false} SpreadStands(target: Target, v: Answer, u: Answer, a: Env, b: Env, x: Scopes, y: Scopes, mode: Mode)
    requires Knows(a, b) && Stands(v, u, mode) && ScopesStand(x, y, mode)
    ensures ScopesStand(Spread(target, v, a, x), Spread(target, u, b, y), mode)
  {
    if v.Val? && Items(v.value).Some? { BindItemsKnow(target, a, b, Items(v.value).value); }
  }

  lemma {:induction false} FilterStands(w: World, m: string, ifs: seq<Cond>, locals: set<string>, a: seq<Env>, b: seq<Env>,
                                        depth: nat, mode: Mode)
    requires ComparableScopes(w, m, locals, a, b, mode) && forall c :: c in ifs ==> PlainCond(w, m, c, locals, mode)
    ensures ScopesStand(Filter(w, m, ifs, a, depth), Filter(w, m, ifs, b, depth), mode)
    decreases depth, ifs, |a| + 1
  {
    if a != [] {
      CondsStand(w, m, ifs, locals, a[0], b[0], depth, mode);
      FilterStands(w, m, ifs, locals, a[1..], b[1..], depth, mode);
    }
  }

  lemma {:induction false} EachStands(w: World, m: string, elt: Expr, locals: set<string>, a: seq<Env>, b: seq<Env>, depth: nat,
                                      mode: Mode)
    requires ComparableScopes(w, m, locals, a, b, mode) && Plain(w, m, elt, locals, mode)
    ensures var x, y := EvalEach(w, m, elt, a, depth), EvalEach(w, m, elt, b, depth);
            x.Vals? ==> y == x || (mode.Loose? && y.RaisesAll?)
    decreases depth, elt, |a| + 1
  {
    if a != [] {
      EvalStands(w, m, elt, locals, a[0], b[0], depth, mode);
      EachStands(w, m, elt, locals, a[1..], b[1..], depth, mode);
    }
  }

  lemma {:induction false} CondStands(w: World, m: string, c: Cond, locals: set<string>, a: Env, b: Env, depth: nat, mode: Mode)
    requires Comparable(w, m, locals, a, b, mode) && PlainCond(w, m, c, locals, mode)
    ensures var x, y := EvalCond(w, m, c, a, depth), EvalCond(w, m, c, b, depth);
            x.Holds? ==> y == x || (mode.Loose? && y.RaisesVerdict?)
    decreases depth, c, 0
  {
    match c
    case Compare(_, left, right) =>
      EvalStands(w, m, left, locals, a, b, depth, mode);
      EvalStands(w, m, right, locals, a, b, depth, mode);
    case Not(operand) => CondStands(w, m, operand, locals, a, b, depth, mode);
    case And(conds) => CondsStand(w, m, conds, locals, a, b, depth, mode);
    case Or(conds) => CondsStand(w, m, conds, locals, a, b, depth, mode);
    case OtherCond =>
  }

  lemma {:induction false} CondsStand(w: World, m: string, conds: seq<Cond>, locals: set<string>, a: Env, b: Env, depth: nat,
                                      mode: Mode)
    requires Comparable(w, m, locals, a, b, mode) && forall c :: c in conds ==> PlainCond(w, m, c, locals, mode)
    ensures var x, y := EvalConds(w, m, conds, a, depth), EvalConds(w, m, conds, b, depth);
            x.Each? && !AnyUnknown(x.verdicts) ==> y == x || (mode.Loose? && y.RaisesVerdicts?)
    decreases depth, conds, 0
  {
    if conds != [] {
      CondStands(w, m, conds[0], locals, a, b, depth, mode);
      CondsStand(w, m, conds[1..], locals, a, b, depth, mode);
      var x := EvalConds(w, m, conds, a, depth);
      if x.Each? && !AnyUnknown(x.verdicts) {
        assert x.verdicts[0].Holds?;
        var rest := EvalConds(w, m, conds[1..], a, depth);
        assert !AnyUnknown(rest.verdicts) by {
          assert forall i :: 0 <= i < |rest.verdicts| ==> rest.verdicts[i] == x.verdicts[i + 1];
        }
      }
    }
  }

  // ----- An answer does not depend on how much recursion was left over

  lemma {:induction false} EvalDeeper(w: World, m: string, e: Expr, env: Env, depth: nat)
    requires m in w.modules && Eval(w, m, e, env, depth).Val?
    ensures Eval(w, m, e, env, depth + 1) == Eval(w, m, e, env, depth)
    decreases depth, e, 1
  {
    match e
    case Name(id) => NameDeeper(w, m, e, env, depth);
    case Joined(pieces) => PiecesDeeper(w, m, pieces, env, depth);
    case DictDisplay(pairs) => PairsDeeper(w, m, pairs, [], env, depth);
    case SetDisplay(elts) => ArgsDeeper(w, m, elts, env, depth);
    case Listing(elements) => ElementsDeeper(w, m, elements, env, depth);
    case Add(_, _) => OperandsDeeper(w, m, e, env, depth);
    case BitOr(_, _) => OperandsDeeper(w, m, e, env, depth);
    case Subscript(_, _) => OperandsDeeper(w, m, e, env, depth);
    case Call(_, _) => CallDeeper(w, m, e, env, depth);
    case JoinCall(separator, args) =>
      EvalDeeper(w, m, separator, env, depth);
      EvalDeeper(w, m, args[0], env, depth);
    case Generator(elt, loops) =>
      LoopsDeeper(w, m, loops, [env], depth);
      var scopes := EvalLoops(w, m, loops, [env], depth);
      if scopes.Envs? { EachDeeper(w, m, elt, scopes.envs, depth); }
    case _ =>
  }

  lemma {:induction false} NameDeeper(w: World, m: string, e: Expr, env: Env, depth: nat)
    requires e.Name? && m in w.modules && Eval(w, m, e, env, depth).Val?
    ensures Eval(w, m, e, env, depth + 1) == Eval(w, m, e, env, depth)
    decreases depth, e, 0
  {
    if e.id !in env {
      if e.id in w.modules[m].constants {
        var constant := w.modules[m].constants[e.id];
        if !constant.Const? { EvalDeeper(w, m, constant, env, depth - 1); }
      } else {
        var found := Imported(w, m, e.id);
        if found.Some? && !found.value.1.Const? {
          EvalDeeper(w, found.value.0, found.value.1, map[], depth - 1);
        }
      }
    }
  }

  lemma {:induction false} OperandsDeeper(w: World, m: string, e: Expr, env: Env, depth: nat)
    requires (e.Add? || e.BitOr? || e.Subscript?) && m in w.modules && Eval(w, m, e, env, depth).Val?
    ensures Eval(w, m, e, env, depth + 1) == Eval(w, m, e, env, depth)
    decreases depth, e, 0
  {
    match e
    case Add(left, right) =>
      EvalDeeper(w, m, left, env, depth);
      EvalDeeper(w, m, right, env, depth);
    case BitOr(left, right) =>
      EvalDeeper(w, m, left, env, depth);
      EvalDeeper(w, m, right, env, depth);
    case Subscript(container, index) =>
      EvalDeeper(w, m, container, env, depth);
      EvalDeeper(w, m, index, env, depth);
  }

  lemma {:induction false} CallDeeper(w: World, m: string, e: Expr, env: Env, depth: nat)
    requires e.Call? && m in w.modules && Eval(w, m, e, env, depth).Val?
    ensures Eval(w, m, e, env, depth + 1) == Eval(w, m, e, env, depth)
    decreases depth, e, 0
  {
    var func, args := e.func, e.args;
    if IsBuiltin(func) {
      if args != [] { EvalDeeper(w, m, args[0], env, depth); }
    } else {
      ArgsDeeper(w, m, args, env, depth);
      HelperDeeper(w, m, func, EvalArgs(w, m, args, env, depth).value, depth - 1);
    }
  }

  lemma {:induction false} PiecesDeeper(w: World, m: string, pieces: seq<Piece>, env: Env, depth: nat)
    requires m in w.modules && EvalPieces(w, m, pieces, env, depth).Some?
    ensures EvalPieces(w, m, pieces, env, depth + 1) == EvalPieces(w, m, pieces, env, depth)
    decreases depth, pieces
  {
    if pieces != [] {
      if pieces[0].Hole? {
        assert (pieces[0] decreases to pieces[0].expr);
        EvalDeeper(w, m, pieces[0].expr, env, depth);
        if Definite(Eval(w, m, pieces[0].expr, env, depth)) { PiecesDeeper(w, m, pieces[1..], env, depth); }
      } else {
        PiecesDeeper(w, m, pieces[1..], env, depth);
      }
    }
  }

  lemma {:induction false} PairsDeeper(w: World, m: string, pairs: seq<Pair>, made: seq<(Value, Value)>, env: Env, depth: nat)
    requires m in w.modules && EvalPairs(w, m, pairs, made, env, depth).Val?
    ensures EvalPairs(w, m, pairs, made, env, depth + 1) == EvalPairs(w, m, pairs, made, env, depth)
    decreases depth, pairs
  {
    if pairs != [] && pairs[0].Pair? {
      var key, value := pairs[0].key, pairs[0].value;
      assert (pairs[0] decreases to key) && (pairs[0] decreases to value);
      EvalDeeper(w, m, value, env, depth);
      EvalDeeper(w, m, key, env, depth);
      var k, v := Eval(w, m, key, env, depth).value, Eval(w, m, value, env, depth).value;
      PairsDeeper(w, m, pairs[1..], w.py.insert(made, k, v).value, env, depth);
    }
  }

  lemma {:induction false} ElementsDeeper(w: World, m: string, elements: seq<Element>, env: Env, depth: nat)
    requires m in w.modules && !EvalElements(w, m, elements, env, depth).RaisesAll?
    ensures EvalElements(w, m, elements, env, depth + 1) == EvalElements(w, m, elements, env, depth)
    decreases depth, elements
  {
    if elements != [] {
      assert (elements[0] decreases to elements[0].expr);
      EvalDeeper(w, m, elements[0].expr, env, depth);
      if Definite(Eval(w, m, elements[0].expr, env, depth)) { ElementsDeeper(w, m, elements[1..], env, depth); }
    }
  }

  lemma {:induction false} ArgsDeeper(w: World, m: string, args: seq<Expr>, env: Env, depth: nat)
    requires m in w.modules && EvalArgs(w, m, args, env, depth).Some?
    ensures EvalArgs(w, m, args, env, depth + 1) == EvalArgs(w, m, args, env, depth)
    decreases depth, args
  {
    if args != [] {
      EvalDeeper(w, m, args[0], env, depth);
      ArgsDeeper(w, m, args[1..], env, depth);
    }
  }

  lemma {:induction false} LoopsDeeper(w: World, m: string, loops: seq<Loop>, envs: seq<Env>, depth: nat)
    requires m in w.modules && !EvalLoops(w, m, loops, envs, depth).RaisesScopes?
    ensures EvalLoops(w, m, loops, envs, depth + 1) == EvalLoops(w, m, loops, envs, depth)
    decreases depth, loops
  {
    if loops != [] {
      ExpandDeeper(w, m, loops[0], envs, depth);
      var x := Expand(w, m, loops[0], envs, depth);
      if x.Envs? {
        assert (loops[0] decreases to loops[0].ifs);
        FilterDeeper(w, m, loops[0].ifs, x.envs, depth);
        var kept := Filter(w, m, loops[0].ifs, x.envs, depth);
        if kept.Envs? { LoopsDeeper(w, m, loops[1..], kept.envs, depth); }
      }
    }
  }

  lemma {:induction false} ExpandDeeper(w: World, m: string, loop: Loop, envs: seq<Env>, depth: nat)
    requires m in w.modules && !Expand(w, m, loop, envs, depth).RaisesScopes?
    ensures Expand(w, m, loop, envs, depth + 1) == Expand(w, m, loop, envs, depth)
    decreases depth, loop, |envs|
  {
    if envs != [] {
      EvalDeeper(w, m, loop.iter, envs[0], depth);
      var v := Eval(w, m, loop.iter, envs[0], depth);
      if Definite(v) && BindItems(loop.target, envs[0], Items(v.value).value).Some? {
        ExpandDeeper(w, m, loop, envs[1..], depth);
      }
    }
  }

  lemma {:induction false} FilterDeeper(w: World, m: string, ifs: seq<Cond>, envs: seq<Env>, depth: nat)
    requires m in w.modules && !Filter(w, m, ifs, envs, depth).RaisesScopes?
    ensures Filter(w, m, ifs, envs, depth + 1) == Filter(w, m, ifs, envs, depth)
    decreases depth, ifs, |envs| + 1
  {
    if envs != [] {
      CondsDeeper(w, m, ifs, envs[0], depth);
      if !AnyUnknown(EvalConds(w, m, ifs, envs[0], depth).verdicts) { FilterDeeper(w, m, ifs, envs[1..], depth); }
    }
  }

  lemma {:induction false} EachDeeper(w: World, m: string, elt: Expr, envs: seq<Env>, depth: nat)
    requires m in w.modules && !EvalEach(w, m, elt, envs, depth).RaisesAll?
    ensures EvalEach(w, m, elt, envs, depth + 1) == EvalEach(w, m, elt, envs, depth)
    decreases depth, elt, |envs| + 1
  {
    if envs != [] {
      EvalDeeper(w, m, elt, envs[0], depth);
      if Definite(Eval(w, m, elt, envs[0], depth)) { EachDeeper(w, m, elt, envs[1..], depth); }
    }
  }

  lemma {:induction false} CondDeeper(w: World, m: string, c: Cond, env: Env, depth: nat)
    requires m in w.modules && !EvalCond(w, m, c, env, depth).RaisesVerdict?
    ensures EvalCond(w, m, c, env, depth + 1) == EvalCond(w, m, c, env, depth)
    decreases depth, c, 0
  {
    match c
    case Compare(_, left, right) =>
      EvalDeeper(w, m, left, env, depth);
      EvalDeeper(w, m, right, env, depth);
    case Not(operand) => CondDeeper(w, m, operand, env, depth);
    case And(conds) => CondsDeeper(w, m, conds, env, depth);
    case Or(conds) => CondsDeeper(w, m, conds, env, depth);
    case OtherCond =>
  }

  lemma {:induction false} CondsDeeper(w: World, m: string, conds: seq<Cond>, env: Env, depth: nat)
    requires m in w.modules && EvalConds(w, m, conds, env, depth).Each?
    ensures EvalConds(w, m, conds, env, depth + 1) == EvalConds(w, m, conds, env, depth)
    decreases depth, conds, 0
  {
    if conds != [] {
      CondDeeper(w, m, conds[0], env, depth);
      CondsDeeper(w, m, conds[1..], env, depth);
    }
  }

  lemma {:induction false} DefaultsDeeper(w: World, m: string, names: seq<string>, defaults: seq<Expr>, env: Env, depth: nat)
    requires m in w.modules && WithDefaults(w, m, names, defaults, env, depth).Some?
    ensures WithDefaults(w, m, names, defaults, env, depth + 1) == WithDefaults(w, m, names, defaults, env, depth)
    decreases depth, defaults
  {
    if names != [] && defaults != [] {
      EvalDeeper(w, m, defaults[0], map[], depth);
      var v := Eval(w, m, defaults[0], map[], depth);
      DefaultsDeeper(w, m, names[1..], defaults[1..], if names[0] in env then env else env[names[0] := v.value], depth);
    }
  }

  lemma {:induction false} KeywordsDeeper(w: World, m: string, kwonly: seq<Keyword>, env: Env, depth: nat)
    requires m in w.modules && WithKeywords(w, m, kwonly, env, depth).Some?
    ensures WithKeywords(w, m, kwonly, env, depth + 1) == WithKeywords(w, m, kwonly, env, depth)
    decreases depth, kwonly
  {
    if kwonly != [] {
      if kwonly[0].Required? {
        KeywordsDeeper(w, m, kwonly[1..], env, depth);
      } else {
        assert (kwonly[0] decreases to kwonly[0].default);
        EvalDeeper(w, m, kwonly[0].default, map[], depth);
        var v, id := Eval(w, m, kwonly[0].default, map[], depth), kwonly[0].id;
        KeywordsDeeper(w, m, kwonly[1..], if id in env then env else env[id := v.value], depth);
      }
    }
  }

  lemma {:induction false} BodyDeeper(w: World, m: string, body: seq<Statement>, env: Env, depth: nat)
    requires m in w.modules && RunBody(w, m, body, env, depth).Val?
    ensures RunBody(w, m, body, env, depth + 1) == RunBody(w, m, body, env, depth)
    decreases depth, body
  {
    if body != [] {
      if body[0].Skip? {
        BodyDeeper(w, m, body[1..], env, depth);
      } else {
        assert (body[0] decreases to body[0].value);
        EvalDeeper(w, m, body[0].value, env, depth);
        if !body[0].Return? {
          BodyDeeper(w, m, body[1..], Assigned(env, body[0], Eval(w, m, body[0].value, env, depth).value), depth);
        }
      }
    }
  }

  lemma {:induction false} HelperDeeper(w: World, m: string, name: string, arguments: seq<Value>, depth: nat)
    requires m in w.modules && CallHelper(w, m, name, arguments, depth).Val?
    ensures CallHelper(w, m, name, arguments, depth + 1) == CallHelper(w, m, name, arguments, depth)
    decreases depth, Call(name, []), 1
  {
    if name in w.modules[m].functions {
      var f := w.modules[m].functions[name];
      var names, env := DefaultNames(f.params, |f.defaults|), Positional(f.params, arguments);
      DefaultsDeeper(w, m, names, f.defaults, env, depth - 1);
      var some := WithDefaults(w, m, names, f.defaults, env, depth - 1).value;
      KeywordsDeeper(w, m, f.kwonly, some, depth - 1);
      BodyDeeper(w, m, f.body, WithKeywords(w, m, f.kwonly, some, depth - 1).value, depth - 1);
    }
  }

  // ----- The loops of `call` and `_generator`

  /** `call` as it runs: bind positions, then defaults, then walk the body statement by statement. */
  method RunHelper(w: World, m: string, name: string, arguments: seq<Value>, depth: nat) returns (r: Answer)
    requires m in w.modules
    ensures r == CallHelper(w, m, name, arguments, depth)
  {
    if name !in w.modules[m].functions { return Val(Unknown); }
    if depth == 0 { return Raises; }
    var f := w.modules[m].functions[name];
    var start := BindPositional(f.params, arguments);
    var some := BindDefaults(w, m, DefaultNames(f.params, |f.defaults|), f.defaults, start, depth - 1);
    if some.None? { return Raises; }
    var bound := BindKeywords(w, m, f.kwonly, some.value, depth - 1);
    if bound.None? { return Raises; }
    r := WalkBody(w, m, f.body, bound.value, depth - 1);
  }

  method BindPositional(params: seq<string>, arguments: seq<Value>) returns (env: Env)
    ensures env == Positional(params, arguments)
  {
    env := map[];
    var k := 0;
    while k < |arguments| && k < |params|
      invariant 0 <= k <= |arguments| && k <= |params|
      invariant env == Positional(params[..k], arguments[..k])
    {
      env := env[params[k] := arguments[k]];
      assert params[..k + 1][..k] == params[..k] && arguments[..k + 1][..k] == arguments[..k];
      k := k + 1;
    }
    PositionalCut(params, arguments, k);
  }

  method BindDefaults(w: World, m: string, names: seq<string>, defaults: seq<Expr>, start: Env, depth: nat)
      returns (r: Option<Env>)
    requires m in w.modules
    ensures r == WithDefaults(w, m, names, defaults, start, depth)
  {
    var env := start;
    var k := 0;
    while k < |names| && k < |defaults|
      invariant 0 <= k <= |names| && k <= |defaults|
      invariant WithDefaults(w, m, names, defaults, start, depth)
             == WithDefaults(w, m, names[k..], defaults[k..], env, depth)
    {
      var v := Eval(w, m, defaults[k], map[], depth);
      assert names[k..][1..] == names[k + 1..] && defaults[k..][1..] == defaults[k + 1..];
      if v.Raises? { return None; }
      if names[k] !in env { env := env[names[k] := v.value]; }
      k := k + 1;
    }
    return Some(env);
  }

  lemma {:induction false} PositionalCut(params: seq<string>, arguments: seq<Value>, k: nat)
    requires k == if |params| < |arguments| then |params| else |arguments|
    ensures Positional(params, arguments) == Positional(params[..k], arguments[..k])
  {
    if k > 0 {
      assert params[..k][..k - 1] == params[..k - 1] && arguments[..k][..k - 1] == arguments[..k - 1];
    }
  }

  method BindKeywords(w: World, m: string, kwonly: seq<Keyword>, start: Env, depth: nat) returns (r: Option<Env>)
    requires m in w.modules
    ensures r == WithKeywords(w, m, kwonly, start, depth)
  {
    var env := start;
    for k := 0 to |kwonly|
      invariant WithKeywords(w, m, kwonly, start, depth) == WithKeywords(w, m, kwonly[k..], env, depth)
    {
      assert kwonly[k..][1..] == kwonly[k + 1..];
      if kwonly[k].Optional? {
        var v := Eval(w, m, kwonly[k].default, map[], depth);
        if v.Raises? { return None; }
        if kwonly[k].id !in env { env := env[kwonly[k].id := v.value]; }
      }
    }
    return Some(env);
  }

  method WalkBody(w: World, m: string, body: seq<Statement>, start: Env, depth: nat) returns (r: Answer)
    requires m in w.modules
    ensures r == RunBody(w, m, body, start, depth)
  {
    var env := start;
    for k := 0 to |body|
      invariant RunBody(w, m, body, start, depth) == RunBody(w, m, body[k..], env, depth)
    {
      assert body[k..][1..] == body[k + 1..];
      if !body[k].Skip? {
        var v := Eval(w, m, body[k].value, env, depth);
        if v.Raises? || body[k].Return? { return v; }
        env := Assigned(env, body[k], v.value);
      }
    }
    return Val(Unknown);
  }

  /** `_generator` as it runs: one list of scopes, expanded and filtered loop by loop. */
  method Comprehend(w: World, m: string, elt: Expr, loops: seq<Loop>, env: Env, depth: nat) returns (r: Answer)
    requires m in w.modules
    ensures r == Eval(w, m, Generator(elt, loops), env, depth)
  {
    var scopes := [env];
    for k := 0 to |loops|
      invariant EvalLoops(w, m, loops, [env], depth) == EvalLoops(w, m, loops[k..], scopes, depth)
    {
      assert loops[k..][1..] == loops[k + 1..];
      var expanded := ExpandScopes(w, m, loops[k], scopes, depth);
      if !expanded.Envs? { return if expanded.RaisesScopes? then Raises else Val(Unknown); }
      var kept := FilterScopes(w, m, loops[k].ifs, expanded.envs, depth);
      if !kept.Envs? { return if kept.RaisesScopes? then Raises else Val(Unknown); }
      scopes := kept.envs;
    }
    var rendered: seq<Value> := [];
    for k := 0 to |scopes|
      invariant EvalEach(w, m, elt, scopes, depth) == Followed(rendered, EvalEach(w, m, elt, scopes[k..], depth))
    {
      assert scopes[k..][1..] == scopes[k + 1..];
      var v := Eval(w, m, elt, scopes[k], depth);
      if v.Raises? { return Raises; }
      if v.value.Unknown? { return Val(Unknown); }
      FollowedOne(rendered, v.value, EvalEach(w, m, elt, scopes[k + 1..], depth));
      rendered := rendered + [v.value];
    }
    assert rendered + [] == rendered;
    return Val(List(rendered));
  }

  function Followed(front: seq<Value>, rest: Answers): Answers {
    if rest.Vals? then Vals(front + rest.values) else rest
  }

  lemma {:induction false} FollowedOne(front: seq<Value>, v: Value, rest: Answers)
    ensures Followed(front, if rest.Vals? then Vals([v] + rest.values) else rest) == Followed(front + [v], rest)
  {
    if rest.Vals? { assert front + ([v] + rest.values) == (front + [v]) + rest.values; }
  }

  function After(front: seq<Env>, rest: Scopes): Scopes {
    if rest.Envs? then Envs(front + rest.envs) else rest
  }

  lemma {:induction false} AfterMore(front: seq<Env>, more: seq<Env>, rest: Scopes)
    ensures After(front, After(more, rest)) == After(front + more, rest)
  {
    if rest.Envs? { assert front + (more + rest.envs) == (front + more) + rest.envs; }
  }

  method ExpandScopes(w: World, m: string, loop: Loop, envs: seq<Env>, depth: nat) returns (r: Scopes)
    requires m in w.modules
    ensures r == Expand(w, m, loop, envs, depth)
  {
    var expanded := [];
    for k := 0 to |envs|
      invariant Expand(w, m, loop, envs, depth) == After(expanded, Expand(w, m, loop, envs[k..], depth))
    {
      assert envs[k..][1..] == envs[k + 1..];
      var v := Eval(w, m, loop.iter, envs[k], depth);
      if v.Raises? { return RaisesScopes; }
      if v.value.Unknown? { return UnknownScopes; }
      var items := Items(v.value);
      if items.None? { return RaisesScopes; }
      var more := BindItems(loop.target, envs[k], items.value);
      if more.None? { return UnknownScopes; }
      AfterMore(expanded, more.value, Expand(w, m, loop, envs[k + 1..], depth));
      expanded := expanded + more.value;
    }
    return Envs(expanded);
  }

  method FilterScopes(w: World, m: string, ifs: seq<Cond>, envs: seq<Env>, depth: nat) returns (r: Scopes)
    requires m in w.modules
    ensures r == Filter(w, m, ifs, envs, depth)
  {
    var kept := [];
    for k := 0 to |envs|
      invariant Filter(w, m, ifs, envs, depth) == After(kept, Filter(w, m, ifs, envs[k..], depth))
    {
      assert envs[k..][1..] == envs[k + 1..];
      var vs := EvalConds(w, m, ifs, envs[k], depth);
      if vs.RaisesVerdicts? { return RaisesScopes; }
      if AnyUnknown(vs.verdicts) { return UnknownScopes; }
      if AllHold(vs.verdicts) {
        AfterMore(kept, [envs[k]], Filter(w, m, ifs, envs[k + 1..], depth));
        kept := kept + [envs[k]];
      }
    }
    return Envs(kept);
  }

  // ----- The results in the evaluator's own terms

  /** Whatever the unknown names turn out to be, a definite value either stands or the
      evaluation raises. */
  lemma {:induction false} DefiniteValueStands(w: World, m: string, e: Expr, a: Env, b: Env, depth: nat)
    requires Fits(w, m, Loose) && Plain(w, m, e, {}, Loose) && Knows(a, b) && Definite(Eval(w, m, e, a, depth))
    ensures Eval(w, m, e, b, depth) in {Eval(w, m, e, a, depth), Raises}
  {
    EvalStands(w, m, e, {}, a, b, depth, Loose);
  }

  /** Where no helper is called it simply stands. */
  lemma {:induction false} HelperFreeValueStands(w: World, m: string, e: Expr, a: Env, b: Env, depth: nat)
    requires Fits(w, m, Strict({})) && Plain(w, m, e, {}, Strict({})) && Knows(a, b) && Definite(Eval(w, m, e, a, depth))
    ensures Eval(w, m, e, b, depth) == Eval(w, m, e, a, depth)
  {
    EvalStands(w, m, e, {}, a, b, depth, Strict({}));
  }

  /** Neither does a call change or raise, when nothing its helper assigns can raise and the
      helpers it calls in turn are of that kind. */
  lemma {:induction false} SteadyCallStands(w: World, m: string, name: string, a: seq<Value>, b: seq<Value>, depth: nat,
                                            steady: set<(string, nat)>)
    requires Fits(w, m, Strict(steady)) && (name, |a|) in steady && ValuesKnow(a, b)
    requires Definite(CallHelper(w, m, name, a, depth))
    ensures CallHelper(w, m, name, b, depth) == CallHelper(w, m, name, a, depth)
  {
    HelperStands(w, m, name, a, b, depth, Strict(steady));
  }

  const PLAIN_PYTHON := Python((v: Value) => "", (v: Value, u: Value) => v == u, (v: Value, u: Value) => None,
                               (vs: seq<Value>) => Some(vs), (vs: seq<Value>) => Some(vs),
                               (made: seq<(Value, Value)>, k: Value, v: Value) => Some(made + [(k, v)]),
                               (vs: seq<Value>, us: seq<Value>) => vs + us)

  /** A helper that sorts its argument and returns a constant: it answers while the argument is
      unknown and raises once the argument is a number. It is not of the steady kind. */
  lemma {:induction false} KnowledgeCanRaise()
    ensures var f := Function(["p"], [], [], [AssignName("q", Call("sorted", [Name("p")])), Return(Const(Str("c")))]);
            var w := World(PLAIN_PYTHON, map["m" := Module(map[], map["f" := f], map[])]);
            && Fits(w, "m", Loose)
            && CallHelper(w, "m", "f", [Unknown], 3) == Val(Str("c"))
            && CallHelper(w, "m", "f", [Int(5)], 3) == Raises
            && !Fits(w, "m", Strict({("f", 1)}))
  {
    var sorts := AssignName("q", Call("sorted", [Name("p")]));
    var answer := Return(Const(Str("c")));
    var f := Function(["p"], [], [], [sorts, answer]);
    var w := World(PLAIN_PYTHON, map["m" := Module(map[], map["f" := f], map[])]);
    assert f.body[1..] == [answer];
    assert Positional(["p"], [Unknown]) == map["p" := Unknown];
    assert Positional(["p"], [Int(5)]) == map["p" := Int(5)];
    var unknown: Env := map["p" := Unknown];
    assert Eval(w, "m", sorts.value, unknown, 2) == Val(Unknown);
    var known: Env := map["p" := Int(5)];
    assert Eval(w, "m", sorts.value, known, 2) == Raises;
    assert RunBody(w, "m", [answer], unknown["q" := Unknown], 2) == Val(Str("c"));
    assert PlainBody(w, "m", [answer], {"q"}, Loose);
    assert Plain(w, "m", sorts.value, {}, Loose);
    assert {} + Assigns(sorts) == {"q"};
    assert PlainBody(w, "m", f.body, {}, Loose);
    var call: (string, nat) := ("f", 1);
    assert !Bare(w, "m", sorts.value, Bound(f, 1));
    assert !SteadyAt(w, "m", "f", 1, Strict({call}));
    assert call.0 in w.modules["m"].functions;
  }

  /** A set display answers with the unknown inside it, so its answer changes. */
  lemma {:induction false} SetDisplayChanges()
    ensures var w := World(PLAIN_PYTHON, map["m" := Module(map[], map[], map[])]);
            var e := SetDisplay([Name("x")]);
            && Definite(Eval(w, "m", e, map["x" := Unknown], 1))
            && Definite(Eval(w, "m", e, map["x" := Int(1)], 1))
            && Eval(w, "m", e, map["x" := Unknown], 1) != Eval(w, "m", e, map["x" := Int(1)], 1)
  {
    var w := World(PLAIN_PYTHON, map["m" := Module(map[], map[], map[])]);
    SingleArgument(w, "m", Name("x"), map["x" := Unknown], 1);
    SingleArgument(w, "m", Name("x"), map["x" := Int(1)], 1);
    assert [Unknown][0] != [Int(1)][0];
  }

  lemma {:induction false} SingleArgument(w: World, m: string, e: Expr, env: Env, depth: nat)
    requires m in w.modules && Eval(w, m, e, env, depth).Val?
    ensures EvalArgs(w, m, [e], env, depth) == Some([Eval(w, m, e, env, depth).value])
  {
    var v, args := Eval(w, m, e, env, depth).value, [e];
    assert args[0] == e && args[1..] == [];
    var rest := EvalArgs(w, m, args[1..], env, depth);
    assert rest == Some([]);
    assert [v] + rest.value == [v];
  }
}
