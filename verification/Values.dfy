/** Forms, values and the environment store the evaluator runs over.

Forms are values: a list is made of pairs, and evaluation is decided by the
shape of the value. Environments are addressed by number, because closures and
control records hold them by handle while `def` and `set!` change them. */
module Values {
  import opened Options


  /** The instruction rows the model knows. `Native` stands for every row that
      only computes on the argument values it is given; `named` tells whether it
      names itself while its arguments are evaluated. */
  datatype Row =
    | Lit | Fn | Op | SetBang | Def | Seq | Match | Guard | Error
    | CallCC | EvalIn | EvalHere | TailEval
    | Native(index: nat, named: bool)

  type EnvId = nat

  datatype Value =
    | Nil | True | False | ErrorAtom
    | Int(n: int)
    | Str(text: string)
    | Sym(name: string)
    | Pair(first: Value, rest: Value)
    | Closure(params: Value, body: Value, env: EnvId)
    | Operative(params: Value, envName: Value, body: Value, env: EnvId)
    | EnvObj(env: EnvId)
    | Cont(id: nat)
    | Prim(row: Row)

  /** A condition in flight. */
  datatype Cond =
    | Raised(v: Value)
    | Unbound(name: Value)
    | EngineMsg(text: string)
    | NotAnEnvironment(v: Value)

  /** The value `guard` binds: what was raised, or the base's error atom. */
  function CondValue(c: Cond): Value {
    match c
    case Raised(v) => v
    case _ => ErrorAtom
  }

  /** What the rows that do not call back compute. `list` indexes or slices a
      list applied to argument values. */
  datatype Rows = Rows(
    arity: nat -> nat,
    run: (nat, seq<Value>) -> RowAnswer,
    list: (Value, seq<Value>) -> Value)

  datatype RowAnswer = Computed(v: Value) | Refused(c: Cond)

  const LIT := Sym("lit")
  const MSG_IMPROPER_ARGS := "improper argument list"
  const MSG_NOT_RESUMABLE := "continuation: extent is not resumable"

  predicate Truthy(v: Value) { v != Nil && v != False }

  /** Closures, operatives, instructions and continuations carry a call handler;
      so does a list, which indexes itself. */
  predicate Callable(v: Value) {
    v.Closure? || v.Operative? || v.Cont? || v.Prim? || v.Pair?
  }

  function FirstOf(v: Value): Value { if v.Pair? then v.first else Nil }

  function RestOf(v: Value): Value { if v.Pair? then v.rest else Nil }

  function Nth(v: Value, k: nat): Value
    decreases k
  {
    if k == 0 then FirstOf(v) else Nth(RestOf(v), k - 1)
  }

  predicate Proper(v: Value) {
    if v.Pair? then Proper(v.rest) else v.Nil?
  }

  function ListOf(vals: seq<Value>): Value {
    if vals == [] then Nil else Pair(vals[0], ListOf(vals[1..]))
  }

  /** `(lit v)` around each value, as a fresh argument spine. */
  function Quote(vals: seq<Value>): Value {
    if vals == [] then Nil
    else Pair(Pair(LIT, Pair(vals[0], Nil)), Quote(vals[1..]))
  }

  /** The argument row padded with nil up to the slots the row reads. */
  function Pad(vals: seq<Value>, k: nat): (r: seq<Value>)
    ensures |r| >= k && |r| >= |vals| && r[..|vals|] == vals
    ensures forall i :: |vals| <= i < |r| ==> r[i] == Nil
    ensures |vals| >= k ==> r == vals
    decreases k - |vals|
  {
    if |vals| >= k then vals else Pad(vals + [Nil], k)
  }

  // ----- the environment store ------------------------------------------------

  datatype EnvFrame = EnvFrame(cells: map<Value, Value>, parent: Option<EnvId>)

  type Store = seq<EnvFrame>

  /** The frame top-level forms evaluate in. */
  const ROOT: EnvId := 0

  /** The innermost frame binding `name`, walking out through the parents. A
      parent is older than its child, so the walk ends. */
  function Home(s: Store, e: EnvId, name: Value): (r: Option<EnvId>)
    ensures r.Some? ==> r.value < |s| && r.value <= e && name in s[r.value].cells
    decreases e
  {
    if e >= |s| then None
    else if name in s[e].cells then Some(e)
    else match s[e].parent
      case None => None
      case Some(p) => if p < e then Home(s, p, name) else None
  }

  function Lookup(s: Store, e: EnvId, name: Value): Option<Value> {
    match Home(s, e, name)
    case None => None
    case Some(h) => Some(s[h].cells[name])
  }

  function Bind(s: Store, e: EnvId, name: Value, v: Value): Store {
    if e < |s| then s[e := s[e].(cells := s[e].cells[name := v])] else s
  }

  function SetExisting(s: Store, e: EnvId, name: Value, v: Value): Option<Store> {
    match Home(s, e, name)
    case None => None
    case Some(h) => Some(Bind(s, h, name, v))
  }

  function PushFrame(s: Store, parent: EnvId): Store {
    s + [EnvFrame(map[], Some(parent))]
  }

  /** Parameters take the values in order; a missing one is nil, and a non-nil
      tail of the parameter spine takes what is left as a list. */
  function BindParams(s: Store, e: EnvId, params: Value, vals: seq<Value>): Store
    decreases params
  {
    match params
    case Pair(name, more) =>
      BindParams(Bind(s, e, name, if vals == [] then Nil else vals[0]), e, more,
                 if vals == [] then [] else vals[1..])
    case Nil => s
    case _ => Bind(s, e, params, ListOf(vals))
  }

  /** The operative's binder: parameters take the argument forms unevaluated, and a rest
      parameter the remaining spine itself. */
  function BindSpine(s: Store, e: EnvId, params: Value, args: Value): Store
    decreases params
  {
    match params
    case Pair(name, more) =>
      BindSpine(Bind(s, e, name, if args.Pair? then args.first else args), e, more,
                if args.Pair? then args.rest else Nil)
    case Nil => s
    case _ => Bind(s, e, params, args)
  }
}
