/**
 * The guarded database client of `src/lib/prisma.ts`. Every method of a model
 * delegate (`prisma.customer`, `prisma.vehicle`, ...) is wrapped: when the
 * underlying call throws, the caller receives an empty value chosen by the
 * method's name instead of the exception. `$connect` and `$disconnect` become
 * calls that resolve at once, and every other client member (such as
 * `$transaction`) is handed out unwrapped, so its errors still propagate.
 */
module Facade {
  /** The outcome of awaiting a call: a value, or a thrown error and its message. */
  datatype Reply<T> = Returned(value: T) | Threw(message: string)

  /** The values a model method resolves to, over the model's row type `R`. */
  datatype Js<R> = Null | Int(n: int) | One(row: R) | Many(rows: seq<R>)

  /** The methods of a model delegate. */
  datatype Op =
    | FindMany | FindUnique | FindFirst | Count
    | Create | CreateMany | Update | UpdateMany | Upsert | Delete | DeleteMany | Aggregate | GroupBy

  /** The substitutes the wrapper knows. */
  datatype Fallback = EmptyList | NullValue | Zero

  /** The per-method table of the catch block. */
  function Default(op: Op): (f: Fallback)
    ensures f == EmptyList <==> op == FindMany
    ensures f == Zero <==> op == Count
    ensures f == NullValue <==> op != FindMany && op != Count
  {
    if op == FindMany then EmptyList
    else if op == FindUnique || op == FindFirst then NullValue
    else if op == Count then Zero
    else NullValue
  }

  function Substitute<R>(f: Fallback): Js<R> {
    match f
    case EmptyList => Many([])
    case NullValue => Null
    case Zero => Int(0)
  }

  /** A call through a wrapped model method: it never throws; a success passes through unchanged. */
  function Guard<R>(op: Op, raw: Reply<Js<R>>): (seen: Reply<Js<R>>)
    ensures seen.Returned?
    ensures raw.Returned? ==> seen == raw
    ensures raw.Threw? ==> seen.value == Substitute(Default(op))
  {
    if raw.Returned? then raw else Returned(Substitute(Default(op)))
  }

  /** What each failed model method resolves to. */
  lemma FailureValues<R>(op: Op, message: string)
    ensures op == FindMany ==> Guard<R>(op, Threw(message)) == Returned(Many([]))
    ensures op == FindUnique || op == FindFirst ==> Guard<R>(op, Threw(message)) == Returned(Null)
    ensures op == Count ==> Guard<R>(op, Threw(message)) == Returned(Int(0))
    ensures op != FindMany && op != Count ==> Guard<R>(op, Threw(message)) == Returned(Null)
  {
  }

  /** What `typeof` says of a member of the client or of a model delegate (`null` is `Other`). */
  datatype Kind = ObjectValued | FunctionValued | Other

  /** How the outer proxy hands out a client member. */
  datatype Access = Stub | GuardedDelegate | Unwrapped

  function ClientMember(name: string, kind: Kind): (a: Access)
    ensures a == Stub <==> name == "$connect" || name == "$disconnect"
    ensures a == GuardedDelegate <==> name != "$connect" && name != "$disconnect" && kind == ObjectValued
    ensures a == Unwrapped <==> name != "$connect" && name != "$disconnect" && kind != ObjectValued
  {
    if name == "$connect" || name == "$disconnect" then Stub
    else if kind == ObjectValued then GuardedDelegate
    else Unwrapped
  }

  /** `$transaction` is a function-valued client member and is therefore not wrapped. */
  lemma TransactionIsUnwrapped()
    ensures ClientMember("$transaction", FunctionValued) == Unwrapped
  {
  }

  /** What the caller gets from a member `op` of a model delegate handed out by the inner proxy,
      where `raw` is what the unwrapped member gives: a function is replaced by its guarded call,
      which never throws and substitutes the method's empty value for an error; any other member
      is handed out as it is. */
  function DelegateAccess<R>(kind: Kind, op: Op, raw: Reply<Js<R>>): (seen: Reply<Js<R>>)
    ensures kind == FunctionValued ==> seen.Returned?
    ensures kind == FunctionValued && raw.Returned? ==> seen == raw
    ensures kind == FunctionValued && raw.Threw? ==> seen == Returned(Substitute(Default(op)))
    ensures kind != FunctionValued ==> seen == raw
  {
    if kind == FunctionValued then Guard(op, raw) else raw
  }

  /** The number an awaited `count` is compared with: `null` and a negative value are not above zero. */
  function CountOf<R>(js: Js<R>): (n: nat)
    ensures n > 0 <==> js.Int? && js.n > 0
    ensures n > 0 ==> n == js.n
  {
    if js.Int? && js.n > 0 then js.n else 0
  }

  /** The client an action module was given: the wrapped one exported by `src/lib/prisma.ts`,
      or a plain `new PrismaClient()`. */
  datatype Client = SafeClient | PlainClient

  /** A model-method call as the calling code sees it. */
  function Call<R>(client: Client, op: Op, raw: Reply<Js<R>>): (seen: Reply<Js<R>>)
    ensures client == SafeClient ==> seen.Returned?
    ensures raw.Returned? ==> seen == raw
    ensures client == PlainClient ==> seen == raw
    ensures client == SafeClient && raw.Threw? ==> seen.value == Substitute(Default(op))
  {
    if client == SafeClient then Guard(op, raw) else raw
  }

  /** A model method reached through the wrapped client goes through both proxies: the outer one
      hands out the model as a guarded delegate, the inner one guards the method, so the call never
      throws, and it is exactly the call the actions are modelled with. */
  lemma SafeCallIsDelegateAccess<R>(model: string, op: Op, raw: Reply<Js<R>>)
    requires model != "$connect" && model != "$disconnect"
    ensures ClientMember(model, ObjectValued) == GuardedDelegate
    ensures Call(SafeClient, op, raw) == DelegateAccess(FunctionValued, op, raw)
    ensures DelegateAccess(FunctionValued, op, raw).Returned?
  {
  }
}
