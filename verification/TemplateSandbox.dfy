/**
  The template sandbox (internal/review/sandbox.go): `harden` rewrites a parsed template so that every loop's
  value passes the iteration guard. Templates are a small syntax tree with an interpreter for it; the
  functions a template may call, field access, printing and truth are parameters of the interpreter.
 */
module TemplateSandbox {
  import opened Prelude

  const MAX_ITERATIONS := 20_000
  const RESERVED_PREFIX := "__kritika_"
  const ITER := "__kritika_iter"

  // ---- Values ----

  datatype Value =
    | Invalid
    | Str(text: string)
    | Int(signed: int)
    | Uint(unsigned: nat)
    | List(items: seq<Value>)
    | Dict(entries: seq<(Value, Value)>)
    | Pointer(to: Value)
    | NilPointer
    | Func
    | Chan
    | Opaque(id: int)

  function Indirect(v: Value): Value {
    if v.Pointer? then Indirect(v.to) else v
  }

  /** What the guard charges for looping over `v`; None where it refuses. */
  function Iterations(v: Value): Option<nat> {
    match Indirect(v)
    case Str(text) => Some(|text|)
    case List(items) => Some(|items|)
    case Dict(entries) => Some(|entries|)
    case Int(n) => Some(if n < 0 then 0 else if n > MAX_ITERATIONS + 1 then MAX_ITERATIONS + 1 else n)
    case Uint(n) => Some(if n > MAX_ITERATIONS + 1 then MAX_ITERATIONS + 1 else n)
    case Func => None
    case Chan => None
    case _ => Some(0)
  }

  /**
    What looping over `v` comes to: the bytes of a string, the items of a list, the entries of a map, a number if it
    is positive, and nothing for what cannot be looped over; None for a function or a channel, which have no length.
   */
  function Cost(v: Value): Option<nat> {
    match Indirect(v)
    case Str(text) => Some(|text|)
    case List(items) => Some(|items|)
    case Dict(entries) => Some(|entries|)
    case Int(n) => Some(Max(n, 0))
    case Uint(n) => Some(n)
    case Func => None
    case Chan => None
    case _ => Some(0)
  }

  /** The guard refuses what has no length, and charges the rest what it comes to, or too much where that is too much. */
  lemma IterationsAreTheCost(v: Value)
    ensures Iterations(v).None? <==> Cost(v).None?
    ensures Cost(v).Some? && Cost(v).value <= MAX_ITERATIONS ==> Iterations(v) == Cost(v)
    ensures Cost(v).Some? && Cost(v).value > MAX_ITERATIONS ==> Iterations(v).value > MAX_ITERATIONS
  {
  }

  /**
    How often the engine runs a loop's body over `v`, short of a break; None where it cannot loop. A string's
    runes are counted by the engine, each at least a byte; a function or channel yields what it yields.
   */
  function Rounds(e: Engine, v: Value): Option<nat> {
    match Indirect(v)
    case Str(text) =>
      (match e.runes(text)
       case None => None
       case Some(n) => Some(if n > |text| then |text| else n))
    case List(items) => Some(|items|)
    case Dict(entries) => Some(|entries|)
    case Int(n) => Some(if n < 0 then 0 else n)
    case Uint(n) => Some(n)
    case Func => Some(e.endless(v))
    case Chan => Some(e.endless(v))
    case Invalid => Some(0)
    case _ => None
  }

  // ---- Templates ----

  datatype Arg =
    | Ident(name: string)
    | Dot
    | Variable(name: string, path: seq<string>)
    | Field(path: seq<string>)
    | Literal(value: Value)
    | Sub(pipe: Pipe)
    | Chain(of: Arg, path: seq<string>)

  datatype Args = NoArgs | MoreArgs(arg: Arg, rest: Args)

  /** A pipeline's commands, at least one: the last to run is on top. */
  datatype Commands = First(head: Arg, args: Args) | Then(before: Commands, head: Arg, args: Args)

  datatype Pipe = Pipe(decl: seq<string>, assign: bool, commands: Commands)

  datatype Node =
    | TextNode(text: string)
    | Action(pipe: Pipe)
    | If(pipe: Pipe, list: Block, otherwise: Block)
    | With(pipe: Pipe, list: Block, otherwise: Block)
    | Range(pipe: Pipe, list: Block, otherwise: Block)
    | Break
    | Continue
    | TemplateCall(name: string)

  datatype Block = End | Block(node: Node, rest: Block)

  // ---- harden ----

  predicate ReservedName(name: string) {
    RESERVED_PREFIX <= name
  }

  predicate CleanArg(a: Arg) {
    match a
    case Ident(name) => !ReservedName(name)
    case Sub(pipe) => CleanPipe(pipe)
    case Chain(of, _) => CleanArg(of)
    case _ => true
  }

  predicate CleanArgs(args: Args) {
    args.MoreArgs? ==> CleanArg(args.arg) && CleanArgs(args.rest)
  }

  predicate CleanCommands(c: Commands) {
    CleanArg(c.head) && CleanArgs(c.args) && (c.Then? ==> CleanCommands(c.before))
  }

  predicate CleanPipe(p: Pipe) {
    CleanCommands(p.commands)
  }

  function GuardPipe(p: Pipe): Pipe {
    p.(commands := Then(p.commands, Ident(ITER), NoArgs))
  }

  /** walk: None where it finds a reserved name or a template call. */
  function HardenNode(n: Node): Option<Node>
    decreases n, 1
  {
    match n
    case Action(pipe) => if CleanPipe(pipe) then Some(n) else None
    case If(_, _, _) => HardenBranch(n)
    case With(_, _, _) => HardenBranch(n)
    case Range(_, _, _) =>
      (match HardenBranch(n)
       case None => None
       case Some(walked) => Some(walked.(pipe := GuardPipe(walked.pipe))))
    case TemplateCall(_) => None
    case _ => Some(n)
  }

  function HardenBranch(n: Node): (r: Option<Node>)
    requires n.If? || n.With? || n.Range?
    ensures r.Some? ==> (n.If? <==> r.value.If?) && (n.With? <==> r.value.With?) && (n.Range? <==> r.value.Range?)
    decreases n, 0
  {
    if !CleanPipe(n.pipe) then None
    else
      match (Harden(n.list), Harden(n.otherwise))
      case (Some(list), Some(otherwise)) => Some(n.(list := list, otherwise := otherwise))
      case _ => None
  }

  function Harden(b: Block): Option<Block>
    decreases b, 0
  {
    match b
    case End => Some(End)
    case Block(node, rest) =>
      match (HardenNode(node), Harden(rest))
      case (Some(n), Some(r)) => Some(Block(n, r))
      case _ => None
  }

  // ---- The engine ----

  /** What the engine and the functions do with values; None is an error that ends the render. */
  datatype Engine = Engine(
    call: (string, seq<Value>) -> Option<Value>,
    invoke: (Value, seq<Value>) -> Option<Value>,
    field: (Value, seq<string>) -> Option<Value>,
    show: Value -> Option<string>,
    truth: Value -> Option<bool>,
    entry: (Value, nat) -> (Value, Value),
    runes: string -> Option<nat>,
    endless: Value -> nat,
    limit: int)

  /** The variables in scope, the latest last, and the guard's counter. */
  datatype Scope = Scope(vars: seq<(string, Value)>, used: int)

  /** A pipeline's value, None when it failed, and the scope it leaves. */
  datatype Answer = Answer(value: Option<Value>, scope: Scope)

  datatype Answers = Answers(values: Option<seq<Value>>, scope: Scope)

  /** guard.iter: charge first, then refuse once over. */
  function Iter(v: Value, scope: Scope): Answer {
    match Iterations(v)
    case None => Answer(None, scope)
    case Some(n) =>
      var next := scope.(used := scope.used + n);
      if next.used > MAX_ITERATIONS then Answer(None, next) else Answer(Some(v), next)
  }

  function Lookup(vars: seq<(string, Value)>, name: string): Option<Value> {
    if vars == [] then None
    else if vars[|vars| - 1].0 == name then Some(vars[|vars| - 1].1)
    else Lookup(vars[..|vars| - 1], name)
  }

  function Assign(vars: seq<(string, Value)>, name: string, v: Value): Option<seq<(string, Value)>> {
    if vars == [] then None
    else if vars[|vars| - 1].0 == name then Some(vars[..|vars| - 1] + [(name, v)])
    else
      match Assign(vars[..|vars| - 1], name, v)
      case None => None
      case Some(before) => Some(before + [vars[|vars| - 1]])
  }

  lemma {:induction false} LookupFinds(vars: seq<(string, Value)>, name: string, v: Value, other: string)
    ensures Lookup(vars + [(name, v)], name) == Some(v)
    ensures other != name ==> Lookup(vars + [(name, v)], other) == Lookup(vars, other)
    ensures Lookup([], name) == None
  {
    assert (vars + [(name, v)])[..|vars|] == vars;
  }

  lemma AssignLast(vars: seq<(string, Value)>, last: (string, Value), name: string, v: Value)
    ensures Assign(vars + [last], name, v) ==
            if last.0 == name then Some(vars + [(name, v)])
            else if Assign(vars, name, v).None? then None
            else Some(Assign(vars, name, v).value + [last])
  {
    assert (vars + [last])[..|vars|] == vars;
  }

  /** A variable that is declared takes the value it is assigned, and no other changes; one that is not cannot be assigned. */
  lemma {:induction false} AssignedIsFound(vars: seq<(string, Value)>, name: string, v: Value, other: string)
    ensures Assign(vars, name, v).Some? <==> Lookup(vars, name).Some?
    ensures Assign(vars, name, v).Some? ==>
              var after := Assign(vars, name, v).value;
              && |after| == |vars| && Lookup(after, name) == Some(v)
              && (other != name ==> Lookup(after, other) == Lookup(vars, other))
    decreases |vars|
  {
    hide Assign, Lookup;
    if vars == [] {
      NoVariables(name, v);
    } else {
      var before, last := vars[..|vars| - 1], vars[|vars| - 1];
      assert vars == before + [last] && last == (last.0, last.1);
      AssignedIsFound(before, name, v, other);
      AssignLast(before, last, name, v);
      LookupFinds(before, last.0, last.1, name);
      LookupFinds(before, last.0, last.1, other);
      LookupFinds(before, name, v, other);
      if last.0 != name && Assign(before, name, v).Some? {
        LookupFinds(Assign(before, name, v).value, last.0, last.1, name);
        LookupFinds(Assign(before, name, v).value, last.0, last.1, other);
      }
    }
  }

  lemma NoVariables(name: string, v: Value)
    ensures Assign([], name, v) == None && Lookup([], name) == None
  {
  }

  /** A pipeline's declarations: each declared or assigned variable takes its value. */
  function Declare(vars: seq<(string, Value)>, decl: seq<string>, assign: bool, v: Value): Option<seq<(string, Value)>>
    decreases |decl|
  {
    if decl == [] then Some(vars)
    else
      match if assign then Assign(vars, decl[0], v) else Some(vars + [(decl[0], v)])
      case None => None
      case Some(next) => Declare(next, decl[1..], assign, v)
  }

  function Call(e: Engine, name: string, args: seq<Value>, scope: Scope): Answer {
    if name == ITER then
      if |args| == 1 then Iter(args[0], scope) else Answer(None, scope)
    else Answer(e.call(name, args), scope)
  }

  function Reach(e: Engine, v: Option<Value>, path: seq<string>): Option<Value> {
    if v.None? || path == [] then v else e.field(v.value, path)
  }

  function EvalArg(e: Engine, dot: Value, a: Arg, scope: Scope): Answer
    decreases a, 0
  {
    match a
    case Ident(name) => Call(e, name, [], scope)
    case Dot => Answer(Some(dot), scope)
    case Variable(name, path) => Answer(Reach(e, Lookup(scope.vars, name), path), scope)
    case Field(path) => Answer(Reach(e, Some(dot), path), scope)
    case Literal(v) => Answer(Some(v), scope)
    case Sub(pipe) => EvalPipe(e, dot, pipe, scope)
    case Chain(of, path) =>
      var inner := EvalArg(e, dot, of, scope);
      inner.(value := Reach(e, inner.value, path))
  }

  function EvalArgs(e: Engine, dot: Value, args: Args, scope: Scope): Answers
    decreases args, 0
  {
    match args
    case NoArgs => Answers(Some([]), scope)
    case MoreArgs(arg, rest) =>
      var first := EvalArg(e, dot, arg, scope);
      if first.value.None? then Answers(None, first.scope)
      else
        var more := EvalArgs(e, dot, rest, first.scope);
        if more.values.None? then more else more.(values := Some([first.value.value] + more.values.value))
  }

  /** The last command's value; the value of the one before is its last argument. */
  function EvalCommands(e: Engine, dot: Value, c: Commands, scope: Scope): Answer
    decreases c, 1
  {
    match c
    case First(_, args) => EvalCommand(e, dot, c, [], EvalArgs(e, dot, args, scope))
    case Then(before, _, args) =>
      var previous := EvalCommands(e, dot, before, scope);
      if previous.value.None? then previous
      else EvalCommand(e, dot, c, [previous.value.value], EvalArgs(e, dot, args, previous.scope))
  }

  function EvalCommand(e: Engine, dot: Value, c: Commands, piped: seq<Value>, given: Answers): Answer
    decreases c, 0
  {
    if given.values.None? then Answer(None, given.scope)
    else
      var args := given.values.value + piped;
      if c.head.Ident? then Call(e, c.head.name, args, given.scope)
      else
        var v := EvalArg(e, dot, c.head, given.scope);
        if args == [] || v.value.None? then v else v.(value := e.invoke(v.value.value, args))
  }

  function EvalPipe(e: Engine, dot: Value, p: Pipe, scope: Scope): Answer
    decreases p, 0
  {
    Declared(p, EvalCommands(e, dot, p.commands, scope))
  }

  function Declared(p: Pipe, v: Answer): Answer {
    if v.value.None? then v
    else
      match Declare(v.scope.vars, p.decl, p.assign, v.value.value)
      case None => Answer(None, v.scope)
      case Some(vars) => v.(scope := v.scope.(vars := vars))
  }

  /**
    A render's state. `owed` and `barred` meter the loops reached, whether or not the template is guarded:
    what their values come to, and whether one of them was a function or a channel. `bodies` counts the
    loop bodies started.
   */
  datatype State = State(scope: Scope, out: string, owed: nat, barred: bool, bodies: nat)

  datatype Outcome = Next | Broke | Continued | Failed

  datatype Step = Step(outcome: Outcome, state: State)

  function Pop(s: State, mark: nat): State {
    if mark <= |s.scope.vars| then s.(scope := s.scope.(vars := s.scope.vars[..mark])) else s
  }

  function Popped(r: Step, mark: nat): Step {
    r.(state := Pop(r.state, mark))
  }

  /** cappedWriter.Write. */
  function Write(e: Engine, s: State, text: string): Step {
    if |s.out| + |text| > e.limit then Step(Failed, s) else Step(Next, s.(out := s.out + text))
  }

  function Metered(s: State, v: Value): State {
    match Cost(v)
    case None => s.(barred := true)
    case Some(n) => s.(owed := s.owed + n)
  }

  /** A loop's variables: one declared takes the entry's value, two its key and value. */
  function LoopVars(s: State, p: Pipe, entry: (Value, Value)): State {
    var n := |s.scope.vars|;
    if p.assign || |p.decl| == 0 || n < |p.decl| then s
    else if |p.decl| == 1 then s.(scope := s.scope.(vars := s.scope.vars[n - 1 := (p.decl[0], entry.1)]))
    else s.(scope := s.scope.(vars := s.scope.vars[n - 1 := (p.decl[1], entry.1)][n - 2 := (p.decl[0], entry.0)]))
  }

  function StartBody(s: State, p: Pipe, entry: (Value, Value)): State {
    LoopVars(s, p, entry).(bodies := s.bodies + 1)
  }

  function ExecBlock(e: Engine, dot: Value, b: Block, s: State): Step
    decreases b, 0
  {
    match b
    case End => Step(Next, s)
    case Block(node, rest) =>
      var r := ExecNode(e, dot, node, s);
      if r.outcome.Next? then ExecBlock(e, dot, rest, r.state) else r
  }

  function ExecNode(e: Engine, dot: Value, n: Node, s: State): Step
    decreases n, 1
  {
    match n
    case TextNode(text) => Write(e, s, text)
    case Action(pipe) => Show(e, pipe, s, EvalPipe(e, dot, pipe, s.scope))
    case If(pipe, _, _) => Popped(ExecBranch(e, dot, n, s, EvalPipe(e, dot, pipe, s.scope)), |s.scope.vars|)
    case With(pipe, _, _) => Popped(ExecBranch(e, dot, n, s, EvalPipe(e, dot, pipe, s.scope)), |s.scope.vars|)
    case Range(pipe, _, _) => Popped(ExecRange(e, dot, n, s, EvalPipe(e, dot, pipe, s.scope)), |s.scope.vars|)
    case Break => Step(Broke, s)
    case Continue => Step(Continued, s)
    case TemplateCall(_) => Step(Failed, s)
  }

  function Show(e: Engine, p: Pipe, s: State, a: Answer): Step {
    var next := s.(scope := a.scope);
    if a.value.None? then Step(Failed, next)
    else if p.decl != [] then Step(Next, next)
    else
      match e.show(a.value.value)
      case None => Step(Failed, next)
      case Some(text) => Write(e, next, text)
  }

  /** if and with: `with` moves the dot. */
  function ExecBranch(e: Engine, dot: Value, n: Node, s: State, a: Answer): Step
    requires n.If? || n.With?
    decreases n, 0
  {
    var next := s.(scope := a.scope);
    if a.value.None? then Step(Failed, next)
    else
      match e.truth(a.value.value)
      case None => Step(Failed, next)
      case Some(truth) =>
        if truth then ExecBlock(e, if n.With? then a.value.value else dot, n.list, next)
        else ExecBlock(e, dot, n.otherwise, next)
  }

  function ExecRange(e: Engine, dot: Value, n: Node, s: State, a: Answer): Step
    requires n.Range?
    decreases n, 0
  {
    if a.value.None? then Step(Failed, s.(scope := a.scope))
    else
      var v := a.value.value;
      var next := Metered(s.(scope := a.scope), v);
      match Rounds(e, v)
      case None => Step(Failed, next)
      case Some(rounds) =>
        if rounds == 0 then ExecBlock(e, dot, n.otherwise, next)
        else Iterate(e, v, n.pipe, n.list, 0, rounds, next)
  }

  /** One round: the body runs with its entry as the dot. */
  function Round(e: Engine, v: Value, p: Pipe, list: Block, i: nat, s: State): Step
    decreases list, 1
  {
    Popped(ExecBlock(e, e.entry(v, i).1, list, StartBody(s, p, e.entry(v, i))), |s.scope.vars|)
  }

  /** Rounds i to n of a loop over `v`. */
  function Iterate(e: Engine, v: Value, p: Pipe, list: Block, i: nat, n: nat, s: State): Step
    requires i <= n
    decreases list, 2, n - i
  {
    if i == n then Step(Next, s)
    else
      var r := Round(e, v, p, list, i, s);
      match r.outcome
      case Failed => r
      case Broke => Step(Next, r.state)
      case _ => Iterate(e, v, p, list, i + 1, n, r.state)
  }

  // ---- A pipeline without reserved names neither reads nor moves the guard's counter ----

  function WithUsed(a: Answer, used: int): Answer {
    a.(scope := a.scope.(used := used))
  }

  function WithUsedAll(a: Answers, used: int): Answers {
    a.(scope := a.scope.(used := used))
  }

  lemma IterIsReserved()
    ensures ReservedName(ITER)
  {
  }

  lemma CallKeepsUsed(e: Engine, name: string, args: seq<Value>, scope: Scope, used: int)
    requires !ReservedName(name)
    ensures Call(e, name, args, scope.(used := used)) == WithUsed(Call(e, name, args, scope), used)
  {
    hide ReservedName;
    IterIsReserved();
  }

  lemma {:induction false} ArgKeepsUsed(e: Engine, dot: Value, a: Arg, scope: Scope, used: int)
    requires CleanArg(a)
    ensures EvalArg(e, dot, a, scope.(used := used)) == WithUsed(EvalArg(e, dot, a, scope), used)
    decreases a, 0
  {
    hide Call, EvalPipe, Lookup, Reach;
    match a {
      case Ident(name) => CallKeepsUsed(e, name, [], scope, used);
      case Sub(pipe) => PipeKeepsUsed(e, dot, pipe, scope, used);
      case Chain(of, _) => ArgKeepsUsed(e, dot, of, scope, used);
      case _ =>
    }
  }

  lemma {:induction false} ArgsKeepUsed(e: Engine, dot: Value, args: Args, scope: Scope, used: int)
    requires CleanArgs(args)
    ensures EvalArgs(e, dot, args, scope.(used := used)) == WithUsedAll(EvalArgs(e, dot, args, scope), used)
    decreases args, 0
  {
    hide EvalArg;
    if args.MoreArgs? {
      ArgKeepsUsed(e, dot, args.arg, scope, used);
      ArgsKeepUsed(e, dot, args.rest, EvalArg(e, dot, args.arg, scope).scope, used);
    }
  }

  lemma {:induction false} CommandKeepsUsed(e: Engine, dot: Value, c: Commands, piped: seq<Value>, given: Answers, used: int)
    requires CleanCommands(c)
    ensures EvalCommand(e, dot, c, piped, WithUsedAll(given, used)) == WithUsed(EvalCommand(e, dot, c, piped, given), used)
    decreases c, 0
  {
    hide Call, EvalArg;
    if given.values.Some? {
      if c.head.Ident? {
        CallKeepsUsed(e, c.head.name, given.values.value + piped, given.scope, used);
      } else {
        ArgKeepsUsed(e, dot, c.head, given.scope, used);
      }
    }
  }

  lemma {:induction false} CommandsKeepUsed(e: Engine, dot: Value, c: Commands, scope: Scope, used: int)
    requires CleanCommands(c)
    ensures EvalCommands(e, dot, c, scope.(used := used)) == WithUsed(EvalCommands(e, dot, c, scope), used)
    decreases c, 1
  {
    hide EvalCommand, EvalArgs;
    if c.Then? {
      CommandsKeepUsed(e, dot, c.before, scope, used);
      var previous := EvalCommands(e, dot, c.before, scope);
      if previous.value.Some? {
        ArgsKeepUsed(e, dot, c.args, previous.scope, used);
        CommandKeepsUsed(e, dot, c, [previous.value.value], EvalArgs(e, dot, c.args, previous.scope), used);
      }
    } else {
      ArgsKeepUsed(e, dot, c.args, scope, used);
      CommandKeepsUsed(e, dot, c, [], EvalArgs(e, dot, c.args, scope), used);
    }
  }

  lemma {:induction false} PipeKeepsUsed(e: Engine, dot: Value, p: Pipe, scope: Scope, used: int)
    requires CleanPipe(p)
    ensures EvalPipe(e, dot, p, scope.(used := used)) == WithUsed(EvalPipe(e, dot, p, scope), used)
    decreases p, 0
  {
    hide EvalCommands, Declare;
    CommandsKeepUsed(e, dot, p.commands, scope, used);
  }

  /** A guarded pipeline is the pipeline, then the guard, then its declarations. */
  lemma GuardedPipe(e: Engine, dot: Value, p: Pipe, scope: Scope)
    ensures
      var v := EvalCommands(e, dot, p.commands, scope);
      EvalPipe(e, dot, GuardPipe(p), scope) == if v.value.None? then v else Declared(p, Iter(v.value.value, v.scope))
  {
    hide Declare, Iter, Declared, EvalCommand;
    var v := EvalCommands(e, dot, p.commands, scope);
    if v.value.Some? {
      GuardCommand(e, dot, p.commands, v.value.value, v.scope);
      DeclaredGuarded(p, Iter(v.value.value, v.scope));
    } else {
      NotDeclared(GuardPipe(p), v);
    }
  }

  lemma GuardCommand(e: Engine, dot: Value, c: Commands, v: Value, scope: Scope)
    ensures EvalCommand(e, dot, Then(c, Ident(ITER), NoArgs), [v], EvalArgs(e, dot, NoArgs, scope)) == Iter(v, scope)
  {
    hide Iter;
    assert [] + [v] == [v];
  }

  lemma DeclaredGuarded(p: Pipe, a: Answer)
    ensures Declared(GuardPipe(p), a) == Declared(p, a)
  {
  }

  lemma NotDeclared(p: Pipe, a: Answer)
    requires a.value.None?
    ensures Declared(p, a) == a
  {
  }

  // ---- Loop bodies are bounded ----

  /** The charged part of the budget that no body has used yet. */
  function Spare(s: State): int {
    (if s.scope.used < MAX_ITERATIONS then s.scope.used else MAX_ITERATIONS) - s.bodies
  }

  /** From `s` to `r`, at most as many bodies started as were charged, and `spare` already charged; over the budget, the render failed. */
  predicate Bounded(s: State, spare: int, r: Step) {
    && Spare(s) <= Spare(r.state) + spare
    && s.scope.used <= r.state.scope.used
    && (r.outcome.Failed? || r.state.scope.used <= MAX_ITERATIONS)
  }

  lemma BoundedThen(s: State, a: int, r: Step, b: int, last: Step)
    requires Bounded(s, a, r) && Bounded(r.state, b, last)
    ensures Bounded(s, a + b, last)
  {
  }

  /** What a charge pays for: every round the engine runs, unless it puts the render over its budget. */
  lemma ChargeCoversRounds(e: Engine, v: Value, scope: Scope)
    requires scope.used >= 0 && Iter(v, scope).value.Some?
    ensures
      var next := Iter(v, scope).scope;
      && Iter(v, scope).value == Some(v) && next.vars == scope.vars && scope.used <= next.used <= MAX_ITERATIONS
      && (Rounds(e, v).Some? ==> Rounds(e, v).value <= next.used - scope.used)
  {
  }

  lemma DeclaredKeepsUsed(p: Pipe, a: Answer)
    ensures
      var d := Declared(p, a);
      d.scope.used == a.scope.used && (d.value.Some? ==> d.value == a.value)
  {
  }

  lemma PipeUsed(e: Engine, dot: Value, p: Pipe, scope: Scope)
    requires CleanPipe(p)
    ensures EvalPipe(e, dot, p, scope).scope.used == scope.used
    ensures EvalCommands(e, dot, p.commands, scope).scope.used == scope.used
  {
    hide EvalPipe, EvalCommands, CleanCommands;
    PipeKeepsUsed(e, dot, p, scope, scope.used);
    CommandsKeepUsed(e, dot, p.commands, scope, scope.used);
    assert scope.(used := scope.used) == scope;
  }

  lemma IterGrows(v: Value, scope: Scope)
    ensures scope.used <= Iter(v, scope).scope.used
  {
  }

  /** A guarded loop's pipeline: if it has a value, that value's rounds are charged and within the budget. */
  lemma GuardedPipeCharges(e: Engine, dot: Value, p: Pipe, scope: Scope)
    requires CleanPipe(p) && 0 <= scope.used <= MAX_ITERATIONS
    ensures
      var a := EvalPipe(e, dot, GuardPipe(p), scope);
      && scope.used <= a.scope.used
      && (a.value.Some? ==>
            a.scope.used <= MAX_ITERATIONS &&
            (Rounds(e, a.value.value).Some? ==> Rounds(e, a.value.value).value <= a.scope.used - scope.used))
  {
    hide EvalPipe, EvalCommands, CleanPipe, Rounds, Iter, Declared, GuardPipe;
    GuardedPipe(e, dot, p, scope);
    PipeUsed(e, dot, p, scope);
    var v := EvalCommands(e, dot, p.commands, scope);
    if v.value.Some? {
      var charged := Iter(v.value.value, v.scope);
      IterGrows(v.value.value, v.scope);
      DeclaredKeepsUsed(p, charged);
      if charged.value.Some? {
        ChargeCoversRounds(e, v.value.value, v.scope);
      }
    }
  }

  predicate Fresh(s: State) {
    0 <= s.scope.used <= MAX_ITERATIONS
  }

  lemma WriteBounded(e: Engine, s: State, text: string)
    requires Fresh(s)
    ensures Bounded(s, 0, Write(e, s, text))
  {
  }

  lemma ShowBounded(e: Engine, p: Pipe, s: State, a: Answer)
    requires Fresh(s) && a.scope.used == s.scope.used
    ensures Bounded(s, 0, Show(e, p, s, a))
  {
  }

  lemma PoppedBounded(s: State, spare: int, r: Step, mark: nat)
    requires Bounded(s, spare, r)
    ensures Bounded(s, spare, Popped(r, mark))
  {
  }

  // How a hardened template is made, and how each construct runs, one step at a time.

  lemma HardenedBlock(node: Node, rest: Block)
    requires Harden(Block(node, rest)).Some?
    ensures HardenNode(node).Some? && Harden(rest).Some?
    ensures Harden(Block(node, rest)).value == Block(HardenNode(node).value, Harden(rest).value)
  {
  }

  predicate Branches(n: Node) {
    n.If? || n.With? || n.Range?
  }

  lemma HardenedBranch(n: Node)
    requires Branches(n) && HardenNode(n).Some?
    ensures CleanPipe(n.pipe) && Harden(n.list).Some? && Harden(n.otherwise).Some?
    ensures HardenNode(n).value ==
            var list, otherwise := Harden(n.list).value, Harden(n.otherwise).value;
            if n.If? then If(n.pipe, list, otherwise)
            else if n.With? then With(n.pipe, list, otherwise)
            else Range(GuardPipe(n.pipe), list, otherwise)
  {
  }

  lemma HardenedLeaf(n: Node)
    requires !Branches(n) && HardenNode(n).Some?
    ensures HardenNode(n).value == n && !n.TemplateCall? && (n.Action? ==> CleanPipe(n.pipe))
  {
  }

  lemma RunsNothing(e: Engine, dot: Value, s: State)
    ensures ExecBlock(e, dot, End, s) == Step(Next, s) && Harden(End) == Some(End)
  {
  }

  lemma RunsBlock(e: Engine, dot: Value, node: Node, rest: Block, s: State)
    ensures
      var r := ExecNode(e, dot, node, s);
      ExecBlock(e, dot, Block(node, rest), s) == if r.outcome.Next? then ExecBlock(e, dot, rest, r.state) else r
  {
  }

  lemma RunsBranch(e: Engine, dot: Value, n: Node, s: State)
    requires Branches(n)
    ensures
      var a := EvalPipe(e, dot, n.pipe, s.scope);
      ExecNode(e, dot, n, s) ==
      Popped(if n.Range? then ExecRange(e, dot, n, s, a) else ExecBranch(e, dot, n, s, a), |s.scope.vars|)
  {
  }

  lemma RunsRound(e: Engine, v: Value, p: Pipe, list: Block, i: nat, n: nat, s: State)
    requires i < n
    ensures
      var r := Round(e, v, p, list, i, s);
      Iterate(e, v, p, list, i, n, s) ==
      if r.outcome.Failed? then r
      else if r.outcome.Broke? then Step(Next, r.state)
      else Iterate(e, v, p, list, i + 1, n, r.state)
  {
  }

  lemma RoundsDone(e: Engine, v: Value, p: Pipe, list: Block, n: nat, s: State)
    ensures Iterate(e, v, p, list, n, n, s) == Step(Next, s)
  {
  }

  lemma StartBodyBounded(s: State, p: Pipe, entry: (Value, Value), r: Step)
    requires Fresh(s) && Bounded(StartBody(s, p, entry), 0, r)
    ensures Bounded(s, 1, r)
  {
  }

  lemma StartBodyFresh(s: State, p: Pipe, entry: (Value, Value))
    requires Fresh(s)
    ensures Fresh(StartBody(s, p, entry))
  {
  }

  lemma FreshAfter(s: State, spare: int, r: Step)
    requires Fresh(s) && Bounded(s, spare, r) && !r.outcome.Failed?
    ensures Fresh(r.state)
  {
  }

  lemma EndsBounded(s: State, spare: nat, outcome: Outcome)
    requires Fresh(s)
    ensures Bounded(s, spare, Step(outcome, s))
  {
  }

  lemma BrokeBounded(s: State, spare: nat, more: nat, r: Step)
    requires Bounded(s, spare, r)
    ensures Bounded(s, spare + more, r)
    ensures r.outcome.Broke? ==> Bounded(s, spare + more, Step(Next, r.state))
  {
  }

  lemma {:induction false} BlockBounded(e: Engine, dot: Value, b: Block, s: State)
    requires Harden(b).Some? && Fresh(s)
    ensures Bounded(s, 0, ExecBlock(e, dot, Harden(b).value, s))
    decreases b, 0
  {
    hide *;
    match b {
      case End =>
        RunsNothing(e, dot, s);
        EndsBounded(s, 0, Next);
      case Block(node, rest) =>
        HardenedBlock(node, rest);
        RunsBlock(e, dot, HardenNode(node).value, Harden(rest).value, s);
        var r := ExecNode(e, dot, HardenNode(node).value, s);
        NodeBounded(e, dot, node, s);
        if r.outcome.Next? {
          FreshAfter(s, 0, r);
          BlockBounded(e, dot, rest, r.state);
          BoundedThen(s, 0, r, 0, ExecBlock(e, dot, Harden(rest).value, r.state));
        }
    }
  }

  lemma LeafBounded(e: Engine, dot: Value, n: Node, s: State)
    requires !Branches(n) && !n.TemplateCall? && (n.Action? ==> CleanPipe(n.pipe)) && Fresh(s)
    ensures Bounded(s, 0, ExecNode(e, dot, n, s))
  {
    hide EvalPipe, Show, Write, CleanPipe, Bounded;
    match n {
      case TextNode(text) => WriteBounded(e, s, text);
      case Action(pipe) =>
        PipeUsed(e, dot, pipe, s.scope);
        ShowBounded(e, pipe, s, EvalPipe(e, dot, pipe, s.scope));
      case Break => EndsBounded(s, 0, Broke);
      case Continue => EndsBounded(s, 0, Continued);
    }
  }

  lemma {:induction false} NodeBounded(e: Engine, dot: Value, n: Node, s: State)
    requires HardenNode(n).Some? && Fresh(s)
    ensures Bounded(s, 0, ExecNode(e, dot, HardenNode(n).value, s))
    decreases n, 1
  {
    hide *;
    var h := HardenNode(n).value;
    if Branches(n) {
      HardenedBranch(n);
      StillBranches(n);
      RunsBranch(e, dot, h, s);
      var a := EvalPipe(e, dot, h.pipe, s.scope);
      FreshScope(s);
      if n.Range? {
        GuardedPipeCharges(e, dot, n.pipe, s.scope);
        RangeBounded(e, dot, n, s, a);
        PoppedBounded(s, 0, ExecRange(e, dot, h, s, a), |s.scope.vars|);
      } else {
        PipeUsed(e, dot, n.pipe, s.scope);
        BranchBounded(e, dot, n, s, a);
        PoppedBounded(s, 0, ExecBranch(e, dot, h, s, a), |s.scope.vars|);
      }
    } else {
      HardenedLeaf(n);
      LeafBounded(e, dot, n, s);
    }
  }

  lemma FreshScope(s: State)
    requires Fresh(s)
    ensures 0 <= s.scope.used <= MAX_ITERATIONS
  {
  }

  lemma StillBranches(n: Node)
    requires Branches(n) && HardenNode(n).Some?
    ensures Branches(HardenNode(n).value)
    ensures n.Range? == HardenNode(n).value.Range? && n.With? == HardenNode(n).value.With?
    ensures (n.If? || n.With?) != n.Range?
  {
  }

  lemma {:induction false} BranchBounded(e: Engine, dot: Value, n: Node, s: State, a: Answer)
    requires (n.If? || n.With?) && HardenNode(n).Some? && Fresh(s) && a.scope.used == s.scope.used
    ensures HardenNode(n).value.If? || HardenNode(n).value.With?
    ensures Bounded(s, 0, ExecBranch(e, dot, HardenNode(n).value, s, a))
    decreases n, 0
  {
    hide HardenNode, Harden, ExecBlock;
    HardenedBranch(n);
    var next := s.(scope := a.scope);
    if a.value.Some? && e.truth(a.value.value).Some? {
      if e.truth(a.value.value).value {
        BlockBounded(e, if n.With? then a.value.value else dot, n.list, next);
      } else {
        BlockBounded(e, dot, n.otherwise, next);
      }
    }
  }

  lemma MeteredKeeps(s: State, v: Value)
    ensures Metered(s, v).scope == s.scope && Metered(s, v).bodies == s.bodies
  {
  }

  lemma {:induction false} RangeBounded(e: Engine, dot: Value, n: Node, s: State, a: Answer)
    requires n.Range? && HardenNode(n).Some? && Fresh(s) && s.scope.used <= a.scope.used
    requires a.value.Some? ==>
               a.scope.used <= MAX_ITERATIONS &&
               (Rounds(e, a.value.value).Some? ==> Rounds(e, a.value.value).value <= a.scope.used - s.scope.used)
    ensures HardenNode(n).value.Range?
    ensures Bounded(s, 0, ExecRange(e, dot, HardenNode(n).value, s, a))
    decreases n, 0
  {
    hide HardenNode, Harden, ExecBlock, Iterate, Rounds, Metered;
    HardenedBranch(n);
    if a.value.Some? {
      var v := a.value.value;
      var next := Metered(s.(scope := a.scope), v);
      MeteredKeeps(s.(scope := a.scope), v);
      if Rounds(e, v).Some? {
        if Rounds(e, v).value == 0 {
          BlockBounded(e, dot, n.otherwise, next);
        } else {
          IterateBounded(e, v, GuardPipe(n.pipe), n.list, 0, Rounds(e, v).value, next);
        }
      }
    }
  }

  lemma RoundBounded(e: Engine, v: Value, p: Pipe, list: Block, i: nat, s: State)
    requires Harden(list).Some? && Fresh(s)
    ensures Bounded(s, 1, Round(e, v, p, Harden(list).value, i, s))
    decreases list, 1
  {
    hide ExecBlock, StartBody, Popped, Bounded, Fresh, Harden;
    var start := StartBody(s, p, e.entry(v, i));
    StartBodyFresh(s, p, e.entry(v, i));
    BlockBounded(e, e.entry(v, i).1, list, start);
    var r := ExecBlock(e, e.entry(v, i).1, Harden(list).value, start);
    StartBodyBounded(s, p, e.entry(v, i), r);
    PoppedBounded(s, 1, r, |s.scope.vars|);
  }

  lemma {:induction false} IterateBounded(e: Engine, v: Value, p: Pipe, list: Block, i: nat, n: nat, s: State)
    requires i <= n && Harden(list).Some? && Fresh(s)
    ensures Bounded(s, n - i, Iterate(e, v, p, Harden(list).value, i, n, s))
    decreases list, 2, n - i
  {
    hide *;
    var h := Harden(list).value;
    if i == n {
      RoundsDone(e, v, p, h, n, s);
      EndsBounded(s, 0, Next);
    } else {
      RunsRound(e, v, p, h, i, n, s);
      RoundBounded(e, v, p, list, i, s);
      var r := Round(e, v, p, h, i, s);
      BrokeBounded(s, 1, n - i - 1, r);
      if !r.outcome.Failed? && !r.outcome.Broke? {
        FreshAfter(s, 1, r);
        IterateBounded(e, v, p, list, i + 1, n, r.state);
        BoundedThen(s, 1, r, n - (i + 1), Iterate(e, v, p, h, i + 1, n, r.state));
      }
    }
  }

  // ---- Within the budget, hardening changes nothing ----

  /** What the render's loops owe fits the budget, and none ranges over a function or a channel. */
  predicate Within(s: State) {
    s.owed <= MAX_ITERATIONS && !s.barred
  }

  /** The state of the hardened template's render: its guard has charged what is owed. */
  function Sync(s: State): State {
    s.(scope := s.scope.(used := s.owed))
  }

  /**
    From `s`, the template as written did `r` and the hardened one, from Sync(s), did `q`: the meter only
    grew, and the hardened one did the same or, where `r` failed or what is owed left the budget, failed.
   */
  predicate Follows(s: State, r: Step, q: Step) {
    && s.owed <= r.state.owed
    && (s.barred ==> r.state.barred)
    && (Within(s) ==>
          if r.outcome.Failed? || !Within(r.state) then q.outcome.Failed? else q == Step(r.outcome, Sync(r.state)))
  }

  lemma FollowsSame(s: State, outcome: Outcome)
    ensures Follows(s, Step(outcome, s), Step(outcome, Sync(s)))
  {
  }

  lemma WriteFollows(e: Engine, s: State, text: string)
    ensures Follows(s, Write(e, s, text), Write(e, Sync(s), text))
  {
  }

  lemma ShowFollows(e: Engine, p: Pipe, s: State, a: Answer)
    ensures Follows(s, Show(e, p, s, a), Show(e, p, Sync(s), WithUsed(a, s.owed)))
  {
  }

  lemma PoppedFollows(s: State, r: Step, q: Step, mark: nat)
    requires Follows(s, r, q)
    ensures Follows(s, Popped(r, mark), Popped(q, mark))
  {
  }

  lemma StartBodyFollows(s: State, p: Pipe, entry: (Value, Value))
    ensures StartBody(Sync(s), GuardPipe(p), entry) == Sync(StartBody(s, p, entry))
    ensures StartBody(s, p, entry).owed == s.owed && StartBody(s, p, entry).barred == s.barred
  {
  }

  lemma FollowsFrom(s: State, t: State, r: Step, q: Step)
    requires Follows(t, r, q) && t.owed == s.owed && t.barred == s.barred
    ensures Follows(s, r, q)
  {
  }

  lemma DeclaredWithUsed(p: Pipe, a: Answer, used: int)
    ensures Declared(p, WithUsed(a, used)) == WithUsed(Declared(p, a), used)
  {
  }

  /** A guarded loop's pipeline, beside the pipeline as written. */
  lemma RangePipeFollows(e: Engine, dot: Value, p: Pipe, s: State)
    requires CleanPipe(p)
    ensures
      var a := EvalPipe(e, dot, p, s.scope);
      var g := EvalPipe(e, dot, GuardPipe(p), Sync(s).scope);
      && (a.value.None? ==> g.value.None?)
      && (a.value.Some? && Within(s) ==>
            var m := Metered(s.(scope := a.scope), a.value.value);
            if Within(m) then g.value == a.value && g.scope == Sync(m).scope else g.value.None?)
  {
    hide EvalCommands, CleanPipe, GuardPipe, Declared, Iterations, Cost;
    GuardedPipe(e, dot, p, Sync(s).scope);
    PlainPipe(e, dot, p, s);
    var v := EvalCommands(e, dot, p.commands, s.scope);
    DeclaredKeepsUsed(p, v);
    if v.value.Some? {
      var charged := Iter(v.value.value, WithUsed(v, s.owed).scope);
      IterationsAreTheCost(v.value.value);
      DeclaredKeepsUsed(p, charged);
      DeclaredWithUsed(p, v, charged.scope.used);
      if charged.value.None? {
        NotDeclared(p, charged);
      }
    } else {
      NotDeclared(p, v);
    }
  }

  lemma PlainPipe(e: Engine, dot: Value, p: Pipe, s: State)
    requires CleanPipe(p)
    ensures EvalCommands(e, dot, p.commands, Sync(s).scope) == WithUsed(EvalCommands(e, dot, p.commands, s.scope), s.owed)
    ensures EvalPipe(e, dot, p, Sync(s).scope) == WithUsed(EvalPipe(e, dot, p, s.scope), s.owed)
    ensures EvalPipe(e, dot, p, s.scope) == Declared(p, EvalCommands(e, dot, p.commands, s.scope))
  {
    hide EvalCommands, Declared;
    CommandsKeepUsed(e, dot, p.commands, s.scope, s.owed);
    PipeKeepsUsed(e, dot, p, s.scope, s.owed);
  }

  lemma {:induction false} BlockFollows(e: Engine, dot: Value, b: Block, s: State)
    requires Harden(b).Some?
    ensures Follows(s, ExecBlock(e, dot, b, s), ExecBlock(e, dot, Harden(b).value, Sync(s)))
    decreases b, 0
  {
    hide *;
    match b {
      case End =>
        RunsNothing(e, dot, s);
        RunsNothing(e, dot, Sync(s));
        FollowsSame(s, Next);
      case Block(node, rest) =>
        HardenedBlock(node, rest);
        var h, hs := HardenNode(node).value, Harden(rest).value;
        RunsBlock(e, dot, node, rest, s);
        RunsBlock(e, dot, h, hs, Sync(s));
        NodeFollows(e, dot, node, s);
        RestFollows(e, dot, rest, s, ExecNode(e, dot, node, s), ExecNode(e, dot, h, Sync(s)));
    }
  }

  lemma {:induction false} RestFollows(e: Engine, dot: Value, rest: Block, s: State, r: Step, q: Step)
    requires Harden(rest).Some? && Follows(s, r, q)
    ensures Follows(
              s, if r.outcome.Next? then ExecBlock(e, dot, rest, r.state) else r,
              if q.outcome.Next? then ExecBlock(e, dot, Harden(rest).value, q.state) else q)
    decreases rest, 1
  {
    hide Harden, ExecBlock;
    if r.outcome.Next? {
      BlockFollows(e, dot, rest, r.state);
    }
  }

  lemma LeafFollows(e: Engine, dot: Value, n: Node, s: State)
    requires !Branches(n) && !n.TemplateCall? && (n.Action? ==> CleanPipe(n.pipe))
    ensures Follows(s, ExecNode(e, dot, n, s), ExecNode(e, dot, n, Sync(s)))
  {
    hide EvalPipe, Show, Write, CleanPipe, Follows;
    match n {
      case TextNode(text) => WriteFollows(e, s, text);
      case Action(pipe) =>
        PlainPipe(e, dot, pipe, s);
        ShowFollows(e, pipe, s, EvalPipe(e, dot, pipe, s.scope));
      case Break => FollowsSame(s, Broke);
      case Continue => FollowsSame(s, Continued);
    }
  }

  lemma SameVars(s: State)
    ensures |Sync(s).scope.vars| == |s.scope.vars|
  {
  }

  lemma {:induction false} NodeFollows(e: Engine, dot: Value, n: Node, s: State)
    requires HardenNode(n).Some?
    ensures Follows(s, ExecNode(e, dot, n, s), ExecNode(e, dot, HardenNode(n).value, Sync(s)))
    decreases n, 1
  {
    hide *;
    var h := HardenNode(n).value;
    if Branches(n) {
      HardenedBranch(n);
      StillBranches(n);
      RunsBranch(e, dot, n, s);
      RunsBranch(e, dot, h, Sync(s));
      SameVars(s);
      var a := EvalPipe(e, dot, n.pipe, s.scope);
      if n.Range? {
        RangeFollows(e, dot, n, s);
        PoppedFollows(s, ExecRange(e, dot, n, s, a),
          ExecRange(e, dot, h, Sync(s), EvalPipe(e, dot, h.pipe, Sync(s).scope)), |s.scope.vars|);
      } else {
        PlainPipe(e, dot, n.pipe, s);
        BranchFollows(e, dot, n, s, a);
        PoppedFollows(s, ExecBranch(e, dot, n, s, a), ExecBranch(e, dot, h, Sync(s), WithUsed(a, s.owed)), |s.scope.vars|);
      }
    } else {
      HardenedLeaf(n);
      LeafFollows(e, dot, n, s);
    }
  }

  lemma {:induction false} BranchFollows(e: Engine, dot: Value, n: Node, s: State, a: Answer)
    requires (n.If? || n.With?) && HardenNode(n).Some?
    ensures HardenNode(n).value.If? || HardenNode(n).value.With?
    ensures Follows(s, ExecBranch(e, dot, n, s, a), ExecBranch(e, dot, HardenNode(n).value, Sync(s), WithUsed(a, s.owed)))
    decreases n, 0
  {
    hide HardenNode, Harden, ExecBlock;
    HardenedBranch(n);
    var next := s.(scope := a.scope);
    assert Sync(s).(scope := WithUsed(a, s.owed).scope) == Sync(next);
    if a.value.Some? && e.truth(a.value.value).Some? {
      if e.truth(a.value.value).value {
        BlockFollows(e, if n.With? then a.value.value else dot, n.list, next);
      } else {
        BlockFollows(e, dot, n.otherwise, next);
      }
    }
  }

  lemma {:induction false} RangeFollows(e: Engine, dot: Value, n: Node, s: State)
    requires n.Range? && HardenNode(n).Some?
    ensures HardenNode(n).value.Range?
    ensures
      var h := HardenNode(n).value;
      Follows(s, ExecRange(e, dot, n, s, EvalPipe(e, dot, n.pipe, s.scope)),
        ExecRange(e, dot, h, Sync(s), EvalPipe(e, dot, h.pipe, Sync(s).scope)))
    decreases n, 0
  {
    hide HardenNode, Harden, ExecBlock, Iterate, Rounds, EvalPipe, GuardPipe, CleanPipe, Cost;
    HardenedBranch(n);
    var a := EvalPipe(e, dot, n.pipe, s.scope);
    RangePipeFollows(e, dot, n.pipe, s);
    if a.value.Some? {
      var v := a.value.value;
      var next := Metered(s.(scope := a.scope), v);
      if Rounds(e, v).Some? {
        if Rounds(e, v).value == 0 {
          BlockFollows(e, dot, n.otherwise, next);
        } else {
          IterateFollows(e, v, n.pipe, n.list, 0, Rounds(e, v).value, next);
        }
      }
    }
  }

  lemma RoundFollows(e: Engine, v: Value, p: Pipe, list: Block, i: nat, s: State)
    requires Harden(list).Some?
    ensures Follows(s, Round(e, v, p, list, i, s), Round(e, v, GuardPipe(p), Harden(list).value, i, Sync(s)))
    decreases list, 1
  {
    hide ExecBlock, StartBody, Popped, Follows, GuardPipe, Harden, Sync;
    var entry := e.entry(v, i);
    var start := StartBody(s, p, entry);
    StartBodyFollows(s, p, entry);
    SameVars(s);
    BlockFollows(e, entry.1, list, start);
    var r, q := ExecBlock(e, entry.1, list, start), ExecBlock(e, entry.1, Harden(list).value, Sync(start));
    FollowsFrom(s, start, r, q);
    PoppedFollows(s, r, q, |s.scope.vars|);
  }

  lemma {:induction false} IterateFollows(e: Engine, v: Value, p: Pipe, list: Block, i: nat, n: nat, s: State)
    requires i <= n && Harden(list).Some?
    ensures Follows(s, Iterate(e, v, p, list, i, n, s), Iterate(e, v, GuardPipe(p), Harden(list).value, i, n, Sync(s)))
    decreases list, 2, n - i
  {
    hide *;
    var h, g := Harden(list).value, GuardPipe(p);
    if i == n {
      RoundsDone(e, v, p, list, n, s);
      RoundsDone(e, v, g, h, n, Sync(s));
      FollowsSame(s, Next);
    } else {
      RunsRound(e, v, p, list, i, n, s);
      RunsRound(e, v, g, h, i, n, Sync(s));
      RoundFollows(e, v, p, list, i, s);
      MoreRoundsFollow(e, v, p, list, i, n, s, Round(e, v, p, list, i, s), Round(e, v, g, h, i, Sync(s)));
    }
  }

  lemma {:induction false} MoreRoundsFollow(
      e: Engine, v: Value, p: Pipe, list: Block, i: nat, n: nat, s: State, r: Step, q: Step)
    requires i < n && Harden(list).Some? && Follows(s, r, q)
    ensures Follows(
              s,
              if r.outcome.Failed? then r
              else if r.outcome.Broke? then Step(Next, r.state)
              else Iterate(e, v, p, list, i + 1, n, r.state),
              if q.outcome.Failed? then q
              else if q.outcome.Broke? then Step(Next, q.state)
              else Iterate(e, v, GuardPipe(p), Harden(list).value, i + 1, n, q.state))
    decreases list, 2, n - i, 0
  {
    hide Harden, Iterate, GuardPipe;
    if !r.outcome.Failed? && !r.outcome.Broke? {
      IterateFollows(e, v, p, list, i + 1, n, r.state);
    }
  }

  // ---- Whole renders ----

  function Start(data: Value): State {
    State(Scope([("$", data)], 0), "", 0, false, 0)
  }

  function Run(e: Engine, b: Block, data: Value): Step {
    ExecBlock(e, data, b, Start(data))
  }

  /** What a render gives: its output, None for an error. */
  function Output(r: Step): Option<string> {
    if r.outcome.Failed? then None else Some(r.state.out)
  }

  /** A parsed source: its tree, and how many templates it defines besides. */
  datatype Template = Template(root: Block, defined: nat)

  /** execute: None is an error. */
  function Execute(e: Engine, t: Template, data: Value): Option<string> {
    if t.defined > 0 then None
    else
      match Harden(t.root)
      case None => None
      case Some(hardened) => Output(Run(e, hardened, data))
  }

  /**
    Hardening keeps meaning: a hardened template renders what it rendered as written when the loops that
    render reached owe no more than the budget and none ranges over a function or a channel, and fails
    otherwise. A render that failed before still fails.
   */
  lemma HardeningKeepsMeaning(e: Engine, b: Block, data: Value)
    requires Harden(b).Some?
    ensures Output(Run(e, Harden(b).value, data)) ==
            if Within(Run(e, b, data).state) then Output(Run(e, b, data)) else None
  {
    hide ExecBlock, Harden;
    BlockFollows(e, data, b, Start(data));
    assert Sync(Start(data)) == Start(data);
  }

  /** However a hardened render ends, its loops ran at most MAX_ITERATIONS bodies in all, nested ones included. */
  lemma LoopsAreBounded(e: Engine, b: Block, data: Value)
    requires Harden(b).Some?
    ensures Run(e, Harden(b).value, data).state.bodies <= MAX_ITERATIONS
  {
    hide ExecBlock, Harden;
    BlockBounded(e, data, b, Start(data));
  }

  /** harden refuses exactly a reserved name or a template call, wherever it stands. */
  predicate Clean(b: Block) {
    b.Block? ==> CleanNode(b.node) && Clean(b.rest)
  }

  predicate CleanNode(n: Node) {
    match n
    case TemplateCall(_) => false
    case Action(pipe) => CleanPipe(pipe)
    case If(pipe, list, otherwise) => CleanPipe(pipe) && Clean(list) && Clean(otherwise)
    case With(pipe, list, otherwise) => CleanPipe(pipe) && Clean(list) && Clean(otherwise)
    case Range(pipe, list, otherwise) => CleanPipe(pipe) && Clean(list) && Clean(otherwise)
    case _ => true
  }

  lemma {:induction false} HardenAccepts(b: Block)
    ensures Harden(b).Some? <==> Clean(b)
    decreases b, 0
  {
    if b.Block? {
      NodeAccepted(b.node);
      HardenAccepts(b.rest);
    }
  }

  lemma {:induction false} NodeAccepted(n: Node)
    ensures HardenNode(n).Some? <==> CleanNode(n)
    decreases n, 1
  {
    hide Harden, Clean, CleanPipe;
    if Branches(n) {
      HardenAccepts(n.list);
      HardenAccepts(n.otherwise);
    }
  }

  // ---- What is refused ----

  /** The identifiers anywhere in an argument. */
  function NamesOf(a: Arg): set<string> {
    match a
    case Ident(name) => {name}
    case Sub(pipe) => NamesInPipe(pipe)
    case Chain(of, _) => NamesOf(of)
    case _ => {}
  }

  function NamesIn(args: Args): set<string> {
    if args.NoArgs? then {} else NamesOf(args.arg) + NamesIn(args.rest)
  }

  function NamesInCommands(c: Commands): set<string> {
    NamesOf(c.head) + NamesIn(c.args) + if c.Then? then NamesInCommands(c.before) else {}
  }

  function NamesInPipe(p: Pipe): set<string> {
    NamesInCommands(p.commands)
  }

  /** The identifiers anywhere in a template, its branches and loops included. */
  function Names(b: Block): set<string> {
    if b.End? then {} else NamesInNode(b.node) + Names(b.rest)
  }

  function NamesInNode(n: Node): set<string> {
    if n.Action? then NamesInPipe(n.pipe)
    else if Branches(n) then NamesInPipe(n.pipe) + Names(n.list) + Names(n.otherwise)
    else {}
  }

  /** A template is called somewhere in it. */
  predicate Calls(b: Block) {
    b.Block? && (CallsIn(b.node) || Calls(b.rest))
  }

  predicate CallsIn(n: Node) {
    n.TemplateCall? || (Branches(n) && (Calls(n.list) || Calls(n.otherwise)))
  }

  predicate Reserved(name: string) {
    |name| >= 10 && name[..10] == "__kritika_"
  }

  /** No name of the template is the sandbox's, and it calls no other. */
  ghost predicate Permitted(b: Block) {
    !Calls(b) && NoneReserved(Names(b))
  }

  ghost predicate NoneReserved(names: set<string>) {
    forall name :: name in names ==> !Reserved(name)
  }

  lemma ReservedIs(name: string)
    ensures ReservedName(name) <==> Reserved(name)
  {
    assert |RESERVED_PREFIX| == 10;
  }

  lemma NoneReservedIn(a: set<string>, b: set<string>)
    ensures NoneReserved(a + b) <==> NoneReserved(a) && NoneReserved(b)
  {
    hide Reserved;
    if NoneReserved(a + b) {
      assert forall name :: name in a || name in b ==> name in a + b;
    }
  }

  lemma OneReserved(name: string)
    ensures NoneReserved({name}) <==> !Reserved(name)
    ensures NoneReserved({})
  {
    hide Reserved;
    assert name in {name};
  }

  lemma {:induction false} CleanArgIff(a: Arg)
    ensures CleanArg(a) <==> NoneReserved(NamesOf(a))
    decreases a, 0
  {
    hide NoneReserved, Reserved, ReservedName;
    match a
    case Ident(name) =>
      ReservedIs(name);
      OneReserved(name);
    case Sub(pipe) => CleanCommandsIff(pipe.commands);
    case Chain(of, _) => CleanArgIff(of);
    case _ => OneReserved("");
  }

  lemma {:induction false} CleanArgsIff(args: Args)
    ensures CleanArgs(args) <==> NoneReserved(NamesIn(args))
    decreases args, 0
  {
    hide NoneReserved, Reserved, CleanArg, NamesOf;
    OneReserved("");
    if args.MoreArgs? {
      CleanArgIff(args.arg);
      CleanArgsIff(args.rest);
      NoneReservedIn(NamesOf(args.arg), NamesIn(args.rest));
    }
  }

  lemma {:induction false} CleanCommandsIff(c: Commands)
    ensures CleanCommands(c) <==> NoneReserved(NamesInCommands(c))
    decreases c, 0
  {
    hide NoneReserved, Reserved, CleanArg, CleanArgs, NamesOf, NamesIn;
    OneReserved("");
    CleanArgIff(c.head);
    CleanArgsIff(c.args);
    NoneReservedIn(NamesOf(c.head), NamesIn(c.args));
    var before := if c.Then? then NamesInCommands(c.before) else {};
    NoneReservedIn(NamesOf(c.head) + NamesIn(c.args), before);
    if c.Then? {
      CleanCommandsIff(c.before);
    }
  }

  lemma {:induction false} CleanIff(b: Block)
    ensures Clean(b) <==> Permitted(b)
    decreases b, 0
  {
    hide NoneReserved, CleanNode, CallsIn, NamesInNode;
    OneReserved("");
    if b.Block? {
      CleanNodeIff(b.node);
      CleanIff(b.rest);
      NoneReservedIn(NamesInNode(b.node), Names(b.rest));
    }
  }

  lemma {:induction false} CleanNodeIff(n: Node)
    ensures CleanNode(n) <==> !CallsIn(n) && NoneReserved(NamesInNode(n))
    decreases n, 1
  {
    hide NoneReserved, Clean, CleanCommands, NamesInCommands, Names, Calls;
    OneReserved("");
    if n.Action? {
      CleanCommandsIff(n.pipe.commands);
    } else if Branches(n) {
      CleanCommandsIff(n.pipe.commands);
      CleanIff(n.list);
      CleanIff(n.otherwise);
      NoneReservedIn(NamesInPipe(n.pipe), Names(n.list));
      NoneReservedIn(NamesInPipe(n.pipe) + Names(n.list), Names(n.otherwise));
    }
  }

  /** harden refuses exactly the templates that use a reserved name or call a template, wherever in them. */
  lemma HardenAcceptsThePermitted(b: Block)
    ensures Harden(b).Some? <==> Permitted(b)
  {
    hide Harden, Clean, Permitted;
    HardenAccepts(b);
    CleanIff(b);
  }

  /**
    The whole of execute: it renders what the source says exactly when the source defines no further template, uses
    no reserved name, and the render as written stays within the budget; otherwise, or where that fails, it fails.
   */
  lemma ExecuteRendersAsWritten(e: Engine, t: Template, data: Value)
    ensures Execute(e, t, data) ==
            if t.defined == 0 && Permitted(t.root) && Within(Run(e, t.root, data).state) then Output(Run(e, t.root, data))
            else None
  {
    hide Run, Harden, Clean, Permitted, Output;
    HardenAccepts(t.root);
    CleanIff(t.root);
    if Harden(t.root).Some? {
      HardeningKeepsMeaning(e, t.root, data);
    }
  }

  // ---- A loop over the data ----

  /** {{range .}}text{{end}}. */
  function RangeOfDot(text: string): Block {
    Block(Range(Pipe([], false, First(Dot, NoArgs)), Block(TextNode(text), End), End), End)
  }

  function Repeated(text: string, n: nat): string {
    if n == 0 then "" else Repeated(text, n - 1) + text
  }

  lemma {:induction false} RepeatedLength(text: string, n: nat)
    ensures |Repeated(text, n)| == n * |text|
    decreases n
  {
    if n > 0 {
      RepeatedLength(text, n - 1);
    }
  }

  lemma TextAlone(e: Engine, dot: Value, text: string, s: State)
    ensures ExecBlock(e, dot, Block(TextNode(text), End), s) == Write(e, s, text)
  {
    assert ExecNode(e, dot, TextNode(text), s) == Write(e, s, text);
    if Write(e, s, text).outcome.Next? {
      RunsNothing(e, dot, Write(e, s, text).state);
    }
  }

  lemma OneRound(e: Engine, v: Value, text: string, i: nat, s: State)
    ensures
      var p, list := Pipe([], false, First(Dot, NoArgs)), Block(TextNode(text), End);
      var r := Round(e, v, p, list, i, s);
      && r.outcome == (if |s.out| + |text| > e.limit then Failed else Next)
      && (r.outcome.Next? ==> r.state == s.(out := s.out + text, bodies := s.bodies + 1))
      && r.state.owed == s.owed && r.state.barred == s.barred
  {
    var start := StartBody(s, Pipe([], false, First(Dot, NoArgs)), e.entry(v, i));
    TextAlone(e, e.entry(v, i).1, text, start);
    assert start == s.(bodies := s.bodies + 1);
    assert s.scope.vars[..|s.scope.vars|] == s.scope.vars;
  }

  /** Rounds i to n of the loop write the text once each, as far as the limit lets them. */
  lemma {:induction false} RoundsWrite(e: Engine, v: Value, text: string, i: nat, n: nat, s: State)
    requires i <= n && s.out == Repeated(text, i)
    ensures
      var r := Iterate(e, v, Pipe([], false, First(Dot, NoArgs)), Block(TextNode(text), End), i, n, s);
      && (r.outcome.Failed? || r.outcome.Next?) && r.state.owed == s.owed && r.state.barred == s.barred
      && (i == n || |Repeated(text, n)| <= e.limit <==> !r.outcome.Failed?)
      && (!r.outcome.Failed? ==> r.state.out == Repeated(text, n))
    decreases n - i
  {
    hide Round;
    if i < n {
      OneRound(e, v, text, i, s);
      RepeatedLength(text, i + 1);
      RepeatedLength(text, n);
      Longer(i + 1, n, |text|);
      var r := Round(e, v, Pipe([], false, First(Dot, NoArgs)), Block(TextNode(text), End), i, s);
      if r.outcome.Next? {
        RoundsWrite(e, v, text, i + 1, n, r.state);
      }
    }
  }

  lemma Longer(a: nat, b: nat, size: nat)
    requires a <= b
    ensures a * size <= b * size
  {
  }

  lemma DotIsTheData(e: Engine, v: Value, scope: Scope)
    ensures EvalPipe(e, v, Pipe([], false, First(Dot, NoArgs)), scope) == Answer(Some(v), scope)
  {
    var c := First(Dot, NoArgs);
    var none: seq<Value> := [];
    assert none + none == none;
    assert EvalArgs(e, v, NoArgs, scope) == Answers(Some(none), scope);
    assert EvalArg(e, v, Dot, scope) == Answer(Some(v), scope);
    assert EvalCommand(e, v, c, none, Answers(Some(none), scope)) == Answer(Some(v), scope);
    assert EvalCommands(e, v, c, scope) == Answer(Some(v), scope);
    assert Declare(scope.vars, [], false, v) == Some(scope.vars);
  }

  lemma RangeOfDotRuns(e: Engine, v: Value, text: string, s: State)
    ensures
      var p, list := Pipe([], false, First(Dot, NoArgs)), Block(TextNode(text), End);
      var r := ExecNode(e, v, Range(p, list, End), s);
      var next := Metered(s, v);
      r == match Rounds(e, v)
           case None => Popped(Step(Failed, next), |s.scope.vars|)
           case Some(n) =>
             Popped(if n == 0 then Step(Next, next) else Iterate(e, v, p, list, 0, n, next), |s.scope.vars|)
  {
    hide Metered, Rounds, Iterate, EvalPipe;
    DotIsTheData(e, v, s.scope);
    assert s.(scope := s.scope) == s;
    RunsNothing(e, v, Metered(s, v));
  }

  lemma RangeOfDotIsClean(text: string)
    ensures Clean(RangeOfDot(text))
  {
    var p, list := Pipe([], false, First(Dot, NoArgs)), Block(TextNode(text), End);
    assert Clean(End) && Clean(list) && CleanPipe(p);
    assert CleanNode(Range(p, list, End));
  }

  /** How many items a loop over these values has. */
  predicate Counted(v: Value, n: nat) {
    match v
    case List(items) => n == |items|
    case Dict(entries) => n == |entries|
    case Int(i) => n == Max(i, 0)
    case Uint(i) => n == i
    case _ => false
  }

  /**
    A hardened loop over a list, a map or a number renders its body once an item, up to the budget's count and to the
    limit of what is written, and past either it is an error.
   */
  lemma LoopRendersEachItem(e: Engine, v: Value, text: string, n: nat)
    requires Counted(v, n) && e.limit >= 0
    ensures Execute(e, Template(RangeOfDot(text), 0), v) ==
            if n <= MAX_ITERATIONS && |Repeated(text, n)| <= e.limit then Some(Repeated(text, n)) else None
  {
    hide *;
    CountedRuns(e, v, text, n);
    RangeOfDotIsClean(text);
    CleanIff(RangeOfDot(text));
    ExecuteRendersAsWritten(e, Template(RangeOfDot(text), 0), v);
  }

  lemma CountedIs(e: Engine, v: Value, n: nat, s: State)
    requires Counted(v, n)
    ensures Rounds(e, v) == Some(n) && Metered(s, v) == s.(owed := s.owed + n)
  {
  }

  lemma RunsAlone(e: Engine, b: Node, data: Value)
    ensures Run(e, Block(b, End), data) == ExecNode(e, data, b, Start(data))
  {
    hide ExecNode;
    var r := ExecNode(e, data, b, Start(data));
    RunsNothing(e, data, r.state);
  }

  lemma PoppedIs(r: Step, mark: nat)
    ensures
      var q := Popped(r, mark);
      q.outcome == r.outcome && q.state.out == r.state.out && q.state.owed == r.state.owed && q.state.barred == r.state.barred
  {
  }

  lemma StartIs(v: Value)
    ensures Start(v).owed == 0 && !Start(v).barred && Start(v).out == ""
  {
  }

  lemma OutputIs(r: Step)
    ensures Output(r) == if r.outcome.Failed? then None else Some(r.state.out)
    ensures Within(r.state) <==> r.state.owed <= MAX_ITERATIONS && !r.state.barred
  {
  }

  lemma NothingRepeated(text: string)
    ensures Repeated(text, 0) == ""
  {
  }

  lemma CountedRuns(e: Engine, v: Value, text: string, n: nat)
    requires Counted(v, n) && e.limit >= 0
    ensures
      var r := Run(e, RangeOfDot(text), v);
      && (Within(r.state) <==> n <= MAX_ITERATIONS)
      && Output(r) == if |Repeated(text, n)| <= e.limit then Some(Repeated(text, n)) else None
  {
    var p, list := Pipe([], false, First(Dot, NoArgs)), Block(TextNode(text), End);
    assert RangeOfDot(text) == Block(Range(p, list, End), End);
    hide *;
    var s := Start(v);
    StartIs(v);
    CountedIs(e, v, n, s);
    RunsAlone(e, Range(p, list, End), v);
    RangeOfDotRuns(e, v, text, s);
    NothingRepeated(text);
    var next := s.(owed := s.owed + n);
    RoundsWrite(e, v, text, 0, n, next);
    PoppedIs(if n == 0 then Step(Next, next) else Iterate(e, v, p, list, 0, n, next), |s.scope.vars|);
    OutputIs(Run(e, RangeOfDot(text), v));
  }

  // ---- The guard in place ----

  class Guard {
    var iterations: nat

    constructor ()
      ensures iterations == 0
    {
      iterations := 0;
    }

    /**
      guard.iter: the counter moves even when the charge is refused. What is passed has been charged what it comes to;
      what has no length is refused as it stands, and what would pass the budget leaves the counter past it.
     */
    method Charge(v: Value) returns (r: Option<Value>)
      modifies this
      ensures forall vars :: Iter(v, Scope(vars, old(iterations))) == Answer(r, Scope(vars, iterations))
      ensures r == if Cost(v).Some? && old(iterations) + Cost(v).value <= MAX_ITERATIONS then Some(v) else None
      ensures Cost(v).None? ==> iterations == old(iterations)
      ensures r.Some? ==> iterations == old(iterations) + Cost(v).value
      ensures r.None? && Cost(v).Some? ==> iterations > MAX_ITERATIONS
    {
      IterationsAreTheCost(v);
      var n := Iterations(v);
      if n.None? {
        return None;
      }
      iterations := iterations + n.value;
      if iterations > MAX_ITERATIONS {
        return None;
      }
      return Some(v);
    }
  }
}
