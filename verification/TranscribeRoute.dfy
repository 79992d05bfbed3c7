/**
  The decision the transcription endpoint makes (`POST`,
  src/app/api/transcribe/route.ts:13-79), with its awaited input and output
  given as values: what the form held, what the model call gave back (text,
  or what it threw), and `JSON.parse`. The response is its status code, its
  `ok` flag and the receipt or the error text.
 */
module TranscribeRoute {
  import opened Wrappers
  import opened JsonValue
  import opened Text
  import ExtractJson
  import ReceiptSchema

  /** The largest image accepted, in bytes. */
  const MaxBytes: int := 8 * 1024 * 1024

  /** The `image` field of the form: no file at all (missing, or a plain string), or a file. */
  datatype FormImage = NoFile | File(fileType: string, size: int)

  /** A thrown value: an `Error` with its message, or anything else. */
  datatype Thrown = ErrorObject(message: string) | OtherValue

  datatype Response =
    | Ok(receipt: ReceiptSchema.Receipt)
    | Fail(status: int, error: string)

  function Status(r: Response): int {
    if r.Ok? then 200 else r.status
  }

  const MissingImage := "Missing form field: image"
  const NotAnImage := "File must be an image"
  const TooLarge := "Image too large (max 8388608 bytes)"
  const SchemaMismatch := "Model returned JSON that didn't match the expected schema"
  const AuthGuidance :=
    "AWS credentials expired. Refresh them (e.g. `aws sso login --profile <profile>` or `aws login --profile <profile>`) and restart the dev server."

  /** The phrases of an expired or invalid credential. */
  const AuthPhrases: seq<string> := [
    "session has expired",
    "expiredtoken",
    "expired token",
    "invalidclienttokenid",
    "security token included in the request is expired",
    "please reauthenticate"]

  /** `isAuthExpired`: the lower-cased message contains one of the phrases. */
  function IsAuthExpired(message: string): (r: bool)
    ensures r <==> exists i :: 0 <= i < |AuthPhrases| && Contains(Lower(message), AuthPhrases[i])
  {
    var lower := Lower(message);
    Contains(lower, AuthPhrases[0]) || Contains(lower, AuthPhrases[1]) || Contains(lower, AuthPhrases[2])
      || Contains(lower, AuthPhrases[3]) || Contains(lower, AuthPhrases[4]) || Contains(lower, AuthPhrases[5])
  }

  /** The message the `catch` block reads from a thrown value. */
  function MessageOf(e: Thrown): string {
    if e.ErrorObject? then e.message else "Unknown error"
  }

  /** The `catch` block: 401 with fixed guidance for an expired credential, else 500 with the message. */
  function Caught(e: Thrown): Response {
    var message := MessageOf(e);
    if IsAuthExpired(message) then Fail(401, AuthGuidance) else Fail(500, message)
  }

  /** The three guards, in order, before anything else is done. */
  function Guard(form: FormImage): Option<Response> {
    match form
    case NoFile => Some(Fail(400, MissingImage))
    case File(fileType, size) =>
      if !StartsWith(fileType, "image/") then Some(Fail(400, NotAnImage))
      else if size > MaxBytes then Some(Fail(413, TooLarge))
      else None
  }

  /**
    `POST`. `form` is what reading the form gave (or threw), `reply` what the
    model call returned (or threw) when it is made, and `parse` is `JSON.parse`.
   */
  function Respond(form: Result<FormImage, Thrown>, reply: Result<string, Thrown>, parse: ExtractJson.Parser): Response {
    match form
    case Failure(e) => Caught(e)
    case Success(image) =>
      match Guard(image)
      case Some(rejected) => rejected
      case None =>
        match reply
        case Failure(e) => Caught(e)
        case Success(text) =>
          match ExtractJson.Extract(parse, text)
          case Failure(err) => Caught(ErrorObject(ExtractJson.Message(err)))
          case Success(json) =>
            match ReceiptSchema.Validate(json)
            case Invalid(_) => Fail(422, SchemaMismatch)
            case Valid(receipt) => Ok(receipt)
  }

  /**
    The guards: a missing file, then a type not starting with `image/`,
    then a size above 8 MiB (exactly 8 MiB passes); and when one of them
    rejects the upload the model is never consulted, so the response does
    not depend on its reply.
   */
  lemma GuardsFirst(image: FormImage, reply1: Result<string, Thrown>, reply2: Result<string, Thrown>, parse: ExtractJson.Parser)
    ensures image.NoFile? ==> Respond(Success(image), reply1, parse) == Fail(400, MissingImage)
    ensures image.File? && !StartsWith(image.fileType, "image/") ==>
      Respond(Success(image), reply1, parse) == Fail(400, NotAnImage)
    ensures image.File? && StartsWith(image.fileType, "image/") && image.size > MaxBytes ==>
      Respond(Success(image), reply1, parse) == Fail(413, TooLarge)
    ensures Guard(image).Some? ==> Respond(Success(image), reply1, parse) == Respond(Success(image), reply2, parse)
    ensures Guard(image).None? <==> image.File? && StartsWith(image.fileType, "image/") && image.size <= MaxBytes
  {
  }

  /** The only `ok: true` response: the guards pass, the reply is extracted and the receipt validates. */
  lemma OnlyOkPath(form: Result<FormImage, Thrown>, reply: Result<string, Thrown>, parse: ExtractJson.Parser)
    ensures Respond(form, reply, parse).Ok? <==>
      && form.Success? && Guard(form.value).None?
      && reply.Success?
      && ExtractJson.Extract(parse, reply.value).Success?
      && ReceiptSchema.Validate(ExtractJson.Extract(parse, reply.value).value).Valid?
    ensures Respond(form, reply, parse).Ok? ==>
      Respond(form, reply, parse).receipt == ReceiptSchema.Validate(ExtractJson.Extract(parse, reply.value).value).receipt
  {
    if form.Success? && Guard(form.value).None? && reply.Success? {
      match ExtractJson.Extract(parse, reply.value)
      case Failure(err) => CaughtNeverOk(ErrorObject(ExtractJson.Message(err)));
      case Success(_) =>
    } else if form.Failure? {
      CaughtNeverOk(form.error);
    } else if Guard(form.value).None? {
      CaughtNeverOk(reply.error);
    }
  }

  /** 422 is the answer to a schema mismatch and to nothing else. */
  lemma Status422(form: Result<FormImage, Thrown>, reply: Result<string, Thrown>, parse: ExtractJson.Parser)
    ensures Status(Respond(form, reply, parse)) == 422 <==>
      && form.Success? && Guard(form.value).None?
      && reply.Success?
      && ExtractJson.Extract(parse, reply.value).Success?
      && ReceiptSchema.Validate(ExtractJson.Extract(parse, reply.value).value).Invalid?
  {
    if form.Success? && Guard(form.value).None? && reply.Success? {
      match ExtractJson.Extract(parse, reply.value)
      case Failure(err) => CaughtNeverOk(ErrorObject(ExtractJson.Message(err)));
      case Success(_) =>
    } else if form.Failure? {
      CaughtNeverOk(form.error);
    } else if Guard(form.value).None? {
      CaughtNeverOk(reply.error);
    }
  }

  /**
    What is caught is never a success: it becomes 401 with the fixed
    guidance exactly when its message names an expired credential, and
    otherwise 500 carrying the message as it is.
   */
  lemma CaughtNeverOk(e: Thrown)
    ensures Caught(e).Fail? && (Caught(e).status == 401 || Caught(e).status == 500)
    ensures Caught(e).status == 401 <==> IsAuthExpired(MessageOf(e))
    ensures Caught(e).status == 401 ==> Caught(e).error == AuthGuidance
    ensures Caught(e).status == 500 ==> Caught(e).error == MessageOf(e)
  {
  }

  /**
    Whatever reading the form throws is caught: 401 for an expired
    credential, otherwise 500 with the message; the model is never consulted.
   */
  lemma FormErrorCaught(e: Thrown, reply: Result<string, Thrown>, parse: ExtractJson.Parser)
    ensures Respond(Failure(e), reply, parse)
      == if IsAuthExpired(MessageOf(e)) then Fail(401, AuthGuidance) else Fail(500, MessageOf(e))
  {
  }

  /**
    Whatever the model call throws after the guards pass (an expired AWS
    credential among them) is caught: 401 for an expired credential,
    otherwise 500 with the message.
   */
  lemma ReplyErrorCaught(image: FormImage, e: Thrown, parse: ExtractJson.Parser)
    requires Guard(image).None?
    ensures Respond(Success(image), Failure(e), parse)
      == if IsAuthExpired(MessageOf(e)) then Fail(401, AuthGuidance) else Fail(500, MessageOf(e))
  {
  }

  /** The expired-session message of the AWS SDK, thrown by the model call, is answered with 401. */
  lemma ExpiredSessionIs401(image: FormImage, pre: string, post: string, parse: ExtractJson.Parser)
    requires Guard(image).None?
    ensures Respond(Success(image), Failure(ErrorObject(pre + "ExpiredTokenException" + post)), parse)
      == Fail(401, AuthGuidance)
  {
    ExpiredTokenException(pre, post);
    ReplyErrorCaught(image, ErrorObject(pre + "ExpiredTokenException" + post), parse);
  }

  /**
    An error of `extractJsonObject` is not a schema mismatch: it is caught
    like any other error, and answered with 500 and its own message unless
    that message names an expired credential.
   */
  lemma ExtractionErrorCaught(image: FormImage, text: string, parse: ExtractJson.Parser)
    requires Guard(image).None? && ExtractJson.Extract(parse, text).Failure?
    ensures var message := ExtractJson.Message(ExtractJson.Extract(parse, text).error);
      Respond(Success(image), Success(text), parse)
        == if IsAuthExpired(message) then Fail(401, AuthGuidance) else Fail(500, message)
  {
  }

  /** An empty model reply is reported with 500 and the extraction's message. */
  lemma EmptyReply(image: FormImage, text: string, parse: ExtractJson.Parser)
    requires Guard(image).None? && AllWhitespace(text)
    ensures Respond(Success(image), Success(text), parse) == Fail(500, "Model returned empty output")
  {
    assert ExtractJson.Extract(parse, text) == Failure(ExtractJson.EmptyOutput);
    ExtractionErrorCaught(image, text, parse);
    EmptyOutputNotAuth();
  }

  lemma EmptyOutputNotAuth()
    ensures !IsAuthExpired(ExtractJson.Message(ExtractJson.EmptyOutput))
  {
    NoAuthPhrase("Model returned empty output");
  }

  /** A thrown value that is not an `Error` is reported as `Unknown error` with 500. */
  lemma NonErrorThrown()
    ensures Caught(OtherValue) == Fail(500, "Unknown error")
  {
    NoAuthPhrase("Unknown error");
  }

  /** The check ignores letter case. */
  lemma AuthCaseInsensitive(message: string)
    ensures IsAuthExpired(Lower(message)) == IsAuthExpired(message)
  {
    LowerIdempotent(message);
  }

  /** The message of an expired token exception, in its own letter case, counts. */
  lemma ExpiredTokenException(pre: string, post: string)
    ensures IsAuthExpired(pre + "ExpiredTokenException" + post)
  {
    var m := pre + "ExpiredTokenException" + post;
    LowerAppend(pre + "ExpiredTokenException", post);
    LowerAppend(pre, "ExpiredTokenException");
    assert Lower("ExpiredTokenException") == "expiredtokenexception";
    assert OccursAt("expiredtokenexception", AuthPhrases[1], 0);
    ContainsInContext(Lower(pre), "expiredtokenexception", Lower(post), AuthPhrases[1]);
  }

  /** Every phrase holds an `x` or an `a`, so a message with neither, in either case, is not an expired credential. */
  lemma NoAuthPhrase(message: string)
    requires forall i :: 0 <= i < |message| ==> LowerChar(message[i]) != 'x' && LowerChar(message[i]) != 'a'
    ensures !IsAuthExpired(message)
  {
    var lower := Lower(message);
    var marks: seq<nat> := [9, 1, 1, 3, 43, 3];
    assert AuthPhrases[0][9] == 'a' && AuthPhrases[1][1] == 'x' && AuthPhrases[2][1] == 'x';
    assert AuthPhrases[3][3] == 'a' && AuthPhrases[4][43] == 'x' && AuthPhrases[5][3] == 'a';
    forall k | 0 <= k < |AuthPhrases| ensures !Contains(lower, AuthPhrases[k]) {
      var p := AuthPhrases[k];
      assert marks[k] < |p| && (p[marks[k]] == 'x' || p[marks[k]] == 'a');
      forall i | 0 <= i ensures !OccursAt(lower, p, i) {
        if i + |p| <= |lower| {
          assert lower[i..i + |p|][marks[k]] == lower[i + marks[k]];
        }
      }
    }
  }
}
