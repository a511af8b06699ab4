/** JavaScript values as the secret resolver sees them, the errors it can raise,
    and the two es5-ext helpers it relies on: `ensureString` and `isObject`. */
module JsValues {
  import opened Wrappers

  /** Every way the exported lookup can reject. */
  datatype Error =
    | NullOrUndefined            // ensureString given null or undefined
    | NotStringifiable           // ensureString given a value whose string conversion throws
    | MissingPath                // neither options.path nor SSM_SECRETS_PATH is set
    | RemoteFailure(cause: string)  // the parameter store rejected the request
    | SecretNotFound(name: string)  // the fetched map has no (or an empty) value for name

  /** The message of the Error the source constructs itself (index.js:43, index.js:48);
      a remote rejection keeps the store's own message. The TypeErrors come from es5-ext,
      which is not part of this model, so their wording is not given. */
  function Message(e: Error): (m: Option<string>)
    ensures e.SecretNotFound? ==> m.Some? && |m.value| > |e.name| && m.value[..|e.name|] == e.name
  {
    match e
    case MissingPath => Some("Missing SSM_SECRETS_PATH environment variable")
    case SecretNotFound(name) => Some(name + " secret not found")
    case RemoteFailure(cause) => Some(cause)
    case _ => None
  }

  /** A JavaScript value, reduced to what the resolver observes of it: its truthiness
      and its string conversion. `Object` stands for every other value (objects,
      functions, symbols); `text` is what converting it to a string yields, or None
      when that conversion throws. Numbers are integers. */
  datatype JsValue =
    | Undefined
    | Null
    | Bool(b: bool)
    | Number(n: int)
    | Str(s: string)
    | Object(text: Option<string>)

  /** JavaScript truthiness: `if (v)` takes the branch. Exactly undefined, null,
      false, 0 and "" are falsy. */
  function Truthy(v: JsValue): (b: bool)
    ensures !b <==> v == Undefined || v == Null || v == Bool(false) || v == Number(0) || v == Str("")
  {
    match v
    case Undefined => false
    case Null => false
    case Bool(b) => b
    case Number(n) => n != 0
    case Str(s) => s != ""
    case Object(_) => true
  }

  function Digit(d: nat): char
    requires d < 10
  {
    "0123456789"[d]
  }

  /** Decimal digits of a natural number, most significant first. */
  function Digits(n: nat): (r: string)
    ensures |r| > 0
    ensures forall i | 0 <= i < |r| :: '0' <= r[i] <= '9'
  {
    if n < 10 then [Digit(n)] else Digits(n / 10) + [Digit(n % 10)]
  }

  /** String(n) for an integer n (plain decimal notation). */
  function NumberText(n: int): string {
    if n < 0 then "-" + Digits(-n) else Digits(n)
  }

  /** es5-ext `validate-stringifiable-value` (index.js:3): reject null and undefined,
      reject a value whose string conversion throws, otherwise return the string. */
  function ToText(v: JsValue): (r: Result<string, Error>)
    ensures r.Failure? <==> v.Undefined? || v.Null? || v == Object(None)
    ensures r.Failure? ==> (r.error == NullOrUndefined <==> v.Undefined? || v.Null?)
    ensures r.Failure? ==> r.error in {NullOrUndefined, NotStringifiable}
    ensures v.Str? ==> r == Success(v.s)
    ensures v.Object? && v.text.Some? ==> r == Success(v.text.value)
  {
    match v
    case Undefined => Failure(NullOrUndefined)
    case Null => Failure(NullOrUndefined)
    case Bool(b) => Success(if b then "true" else "false")
    case Number(n) => Success(NumberText(n))
    case Str(s) => Success(s)
    case Object(text) =>
      match text
      case Some(t) => Success(t)
      case None => Failure(NotStringifiable)
  }

  /** The `options` argument of the exported function after its default (index.js:38).
      `NotObject` is any value es5-ext `isObject` rejects (undefined, null, primitives);
      `Record` is an object or function, and `path` its `path` property
      (`Undefined` when it has none). */
  datatype OptionsArg = NotObject | Record(path: JsValue)
}
