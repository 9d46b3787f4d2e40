/** The vocabulary shared by the three request handlers of index.js: JavaScript values
    that may be absent, the outcomes of the external capabilities the handlers call
    (file read, PDF text extraction, model inference), the JSON body of a response,
    and the trace of observable effects one request produces. */
module Effects {

  datatype Option<T> = None | Some(value: T)

  /** A value of the external capabilities: a result, or a thrown error with its `message`. */
  datatype Outcome<T> = Ok(value: T) | Fail(detail: string)

  newtype Byte = b: int | 0 <= b < 256

  type Bytes = seq<Byte>

  /** JavaScript's `!x` for a string-or-absent field: absent (`undefined`) and `""` are falsy. */
  predicate Missing(v: Option<string>) {
    v.None? || v.value == ""
  }

  /** The object that `res.json` sends; every body in index.js has exactly one key. */
  datatype Json = Json(key: string, value: string)

  function ErrorBody(message: string): Json {
    Json("error", message)
  }

  /** What multer leaves in `req.file`: the temporary location of the upload. */
  datatype UploadedFile = UploadedFile(path: string)

  /** What pdf-parse resolves with; only its `text` property is read. */
  datatype PdfData = PdfData(text: Option<string>)

  /** The capabilities a handler uses but does not implement, each seen as a total
      function from its argument to a value or a thrown error. */
  datatype Env = Env(
    readFile: string -> Outcome<Bytes>,
    parsePdf: Bytes -> Outcome<PdfData>,
    generateContent: (string, string) -> Outcome<string>)

  /** One observable step of a handler, in the order it happens. */
  datatype Effect =
    | ReadFile(path: string)
    | ParsePdf(buffer: Bytes)
    | Generate(model: string, prompt: string)
    | LogError(detail: string)
    | Respond(status: int, body: Json)
    | Unlink(path: string)

  datatype Kind = OracleCall | Diagnostic | Response | Cleanup

  function KindOf(e: Effect): Kind {
    match e
    case ReadFile(_) => OracleCall
    case ParsePdf(_) => OracleCall
    case Generate(_, _) => OracleCall
    case LogError(_) => Diagnostic
    case Respond(_, _) => Response
    case Unlink(_) => Cleanup
  }

  /** The effects of `t` whose kind is in `kinds`, in their original order. */
  function Select(t: seq<Effect>, kinds: set<Kind>): (r: seq<Effect>)
    decreases |t|
  {
    if t == [] then []
    else (if KindOf(t[0]) in kinds then [t[0]] else []) + Select(t[1..], kinds)
  }

  lemma {:induction false} SelectAppend(a: seq<Effect>, b: seq<Effect>, kinds: set<Kind>)
    ensures Select(a + b, kinds) == Select(a, kinds) + Select(b, kinds)
    decreases |a|
  {
    if a == [] {
      assert a + b == b;
    } else {
      var head := if KindOf(a[0]) in kinds then [a[0]] else [];
      assert (a + b)[0] == a[0];
      assert (a + b)[1..] == a[1..] + b;
      calc {
        Select(a + b, kinds);
        head + Select(a[1..] + b, kinds);
        { SelectAppend(a[1..], b, kinds); }
        head + (Select(a[1..], kinds) + Select(b, kinds));
        (head + Select(a[1..], kinds)) + Select(b, kinds);
      }
    }
  }

  lemma SelectOne(e: Effect, kinds: set<Kind>)
    ensures Select([e], kinds) == if KindOf(e) in kinds then [e] else []
  {
  }

  /** An effect survives the selection exactly when it occurs in the trace and has one of the kinds. */
  lemma {:induction false} SelectKeeps(t: seq<Effect>, kinds: set<Kind>, e: Effect)
    ensures e in Select(t, kinds) <==> e in t && KindOf(e) in kinds
    decreases |t|
  {
    if t != [] {
      SelectKeeps(t[1..], kinds, e);
      assert t == [t[0]] + t[1..];
    }
  }

  lemma {:induction false} SelectNone(t: seq<Effect>, kinds: set<Kind>)
    requires forall e :: e in t ==> KindOf(e) !in kinds
    ensures Select(t, kinds) == []
    decreases |t|
  {
    if t != [] {
      assert t[0] in t;
      assert forall e :: e in t[1..] ==> e in t;
      SelectNone(t[1..], kinds);
    }
  }

  lemma {:induction false} SelectAll(t: seq<Effect>, kinds: set<Kind>)
    requires forall e :: e in t ==> KindOf(e) in kinds
    ensures Select(t, kinds) == t
    decreases |t|
  {
    if t != [] {
      assert t[0] in t;
      assert forall e :: e in t[1..] ==> e in t;
      SelectAll(t[1..], kinds);
      assert [t[0]] + t[1..] == t;
    }
  }

  function OracleCalls(t: seq<Effect>): seq<Effect> { Select(t, {OracleCall}) }

  function Responses(t: seq<Effect>): seq<Effect> { Select(t, {Response}) }

  function Cleanups(t: seq<Effect>): seq<Effect> { Select(t, {Cleanup}) }

  /** Everything the caller or the file system can observe: the trace without the server log. */
  function Observable(t: seq<Effect>): seq<Effect> { Select(t, {OracleCall, Response, Cleanup}) }

  /** Two outcomes agree on everything but the text of the error. */
  predicate SameUpToDetail<T(==)>(x: Outcome<T>, y: Outcome<T>) {
    x.Ok? == y.Ok? && (x.Ok? ==> x.value == y.value)
  }

  /** Two environments that succeed and fail on the same arguments with the same results,
      whatever their error messages say. */
  ghost predicate AgreeUpToDetail(e1: Env, e2: Env) {
    (forall p :: SameUpToDetail(e1.readFile(p), e2.readFile(p))) &&
    (forall b :: SameUpToDetail(e1.parsePdf(b), e2.parsePdf(b))) &&
    (forall m, p :: SameUpToDetail(e1.generateContent(m, p), e2.generateContent(m, p)))
  }

  /** Express's `res` for one request: the status that `res.status` sets (200 until then)
      and every effect of the request so far, responses included. */
  class Exchange {
    var statusCode: int
    var trace: seq<Effect>

    constructor ()
      ensures statusCode == 200 && trace == []
    {
      statusCode := 200;
      trace := [];
    }

    /** `res.status(code)`: sets the status of the response still to be sent. */
    method Status(code: int)
      modifies this
      ensures statusCode == code && trace == old(trace)
    {
      statusCode := code;
    }

    /** `res.json(body)`: sends `body` with the current status. */
    method Send(body: Json)
      modifies this
      ensures statusCode == old(statusCode)
      ensures trace == old(trace) + [Respond(old(statusCode), body)]
    {
      trace := trace + [Respond(statusCode, body)];
    }

    /** Records a call to a capability, a log line or a deletion. */
    method Record(e: Effect)
      requires !e.Respond?
      modifies this
      ensures statusCode == old(statusCode) && trace == old(trace) + [e]
    {
      trace := trace + [e];
    }
  }
}
