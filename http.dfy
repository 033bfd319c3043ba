/** What the serverless handlers answer, and the values they read from
    requests and hand to the browser. */
module Http {

  import opened Js
  import opened Utf8

  /** A handler's reply: a 200 JSON body, a JSON `{ error }` (optionally with
      `detail`) under an error status, or no reply of the handler's own
      because an exception escaped it (the platform then answers). */
  datatype Reply<B> =
    | Ok(body: B)
    | Error(status: nat, error: string)
    | ErrorDetail(status: nat, error: string, detail: string)
    | Unhandled
  {
    function Status(): nat {
      match this
      case Ok(_) => 200
      case Error(s, _) => s
      case ErrorDetail(s, _, _) => s
      case Unhandled => 500
    }
  }

  /** A JSON scalar as a handler receives or returns it; `Missing` is an
      absent key (`undefined`). */
  datatype Scalar = Missing | Null | Bool(b: bool) | Num(n: int) | Str(s: string)

  /** JavaScript truthiness of a JSON scalar. */
  predicate Truthy(v: Scalar) {
    match v
    case Missing => false
    case Null => false
    case Bool(b) => b
    case Num(n) => n != 0
    case Str(s) => s != ""
  }

  /** `String(v)`, which is also how a scalar prints inside a template literal. */
  function Printed(v: Scalar): string {
    match v
    case Missing => "undefined"
    case Null => "null"
    case Bool(b) => if b then "true" else "false"
    case Num(n) => if n < 0 then "-" + DecimalString(-n) else DecimalString(n)
    case Str(s) => s
  }

  /** An uploaded file as the multipart parser hands it over. */
  datatype Upload = Upload(originalFilename: string, content: seq<byte>)

  /** `file.toBuffer()`: the bytes the server reads, or None when it rejects. */
  type Reader = Upload -> Option<seq<byte>>

  /** A row the handlers insert into the `logs` table. */
  datatype LogRow = LogRow(userId: int, action: string, content: string)

  /** What the `INSERT INTO logs` query does: resolve, or reject with a message. */
  datatype Insert = Inserted | InsertFailed(message: string)
}
