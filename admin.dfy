/**
 * The document admin page (app/admin/page.tsx): the connection check run
 * on load, the JSON validator and the upload handler with its guards.
 */
module Admin {
  import opened Text
  import opened JsonValue

  /** The validator's verdict: accepted, or the message of the error it threw. */
  datatype Verdict = Accepted | Rejected(message: string)

  /**
   * The document shape the validator accepts, stated on its own: an object
   * whose `title` is a non-empty array and whose `summary`, `longSummary`
   * and `children` are arrays, possibly empty.
   */
  ghost predicate WellFormedDocumentJson(v: Json)
  {
    && v.JObj?
    && "title" in v.fields && v.fields["title"].JArr? && |v.fields["title"].elems| > 0
    && "summary" in v.fields && v.fields["summary"].JArr?
    && "longSummary" in v.fields && v.fields["longSummary"].JArr?
    && "children" in v.fields && v.fields["children"].JArr?
  }

  const TitleMessage := "Document must have a non-empty title array"
  const SummaryMessage := "Document must have a summary array"
  const LongSummaryMessage := "Document must have a longSummary array"
  const ChildrenMessage := "Document must have a children array"

  /** `!x || !Array.isArray(x)`: the test each array check throws on. */
  predicate NotAnArray(r: Read)
  {
    !ReadTruthy(r) || !ReadIsArray(r)
  }

  /**
   * The check chain of `validateJson` on the text's parse outcome: a parse
   * error or a read on `null` reports the thrown message, otherwise the
   * message of the first failing check, in the order title, summary,
   * longSummary, children.
   */
  function Validate(p: ParseOutcome): (r: Verdict)
    ensures r.Accepted? <==> p.Parsed? && WellFormedDocumentJson(p.value)
    ensures p.ParseFailed? ==> r == Rejected(p.message)
    ensures p == Parsed(JNull) ==> r == Rejected(NullReadMessage("title"))
  {
    match p
    case ParseFailed(msg) => Rejected(msg)
    case Parsed(v) =>
      var title := Prop(v, "title");
      if title.Threw? then Rejected(title.message)
      else if !ReadTruthy(title) || !ReadIsArray(title) || |title.value.elems| == 0 then
        Rejected(TitleMessage)
      else if NotAnArray(Prop(v, "summary")) then Rejected(SummaryMessage)
      else if NotAnArray(Prop(v, "longSummary")) then Rejected(LongSummaryMessage)
      else if NotAnArray(Prop(v, "children")) then Rejected(ChildrenMessage)
      else Accepted
  }

  /** `Array.isArray(x) && x.length > 0` for a read that did not throw. */
  predicate NonEmptyArray(r: Read)
  {
    ReadIsArray(r) && |r.value.elems| > 0
  }

  /**
   * The first failing check decides the message, whatever the later fields
   * hold; a value that is not an object fails the title check.
   */
  lemma ValidatePrecedence(v: Json)
    requires !v.JNull?
    ensures !v.JObj? ==> Validate(Parsed(v)) == Rejected(TitleMessage)
    ensures !NonEmptyArray(Prop(v, "title")) ==> Validate(Parsed(v)) == Rejected(TitleMessage)
    ensures NonEmptyArray(Prop(v, "title")) && !ReadIsArray(Prop(v, "summary"))
      ==> Validate(Parsed(v)) == Rejected(SummaryMessage)
    ensures NonEmptyArray(Prop(v, "title")) && ReadIsArray(Prop(v, "summary"))
      && !ReadIsArray(Prop(v, "longSummary"))
      ==> Validate(Parsed(v)) == Rejected(LongSummaryMessage)
    ensures NonEmptyArray(Prop(v, "title")) && ReadIsArray(Prop(v, "summary"))
      && ReadIsArray(Prop(v, "longSummary")) && !ReadIsArray(Prop(v, "children"))
      ==> Validate(Parsed(v)) == Rejected(ChildrenMessage)
  {
  }

  /** Empty summary, longSummary and children arrays are accepted; an empty title array is not. */
  lemma EmptyArraysAccepted(t: Json)
    ensures Validate(Parsed(JObj(map["title" := JArr([t]), "summary" := JArr([]),
      "longSummary" := JArr([]), "children" := JArr([])]))) == Accepted
    ensures Validate(Parsed(JObj(map["title" := JArr([]), "summary" := JArr([]),
      "longSummary" := JArr([]), "children" := JArr([])]))) == Rejected(TitleMessage)
  {
  }

  /** The kind of the status banner: `''`, `'success'` or `'error'`. */
  datatype StatusKind = NoStatus | SuccessStatus | ErrorStatus

  /** The status banner; its message is whatever value was stored, usually a string. */
  datatype Status = Status(kind: StatusKind, message: Json)

  function ErrorStatusOf(message: string): Status { Status(ErrorStatus, JStr(message)) }
  function SuccessStatusOf(message: string): Status { Status(SuccessStatus, JStr(message)) }

  /** The status `validateJson` leaves behind. */
  function ValidationStatus(r: Verdict): (st: Status)
    ensures st.kind == SuccessStatus <==> r.Accepted?
    ensures r.Rejected? ==> st == ErrorStatusOf("JSON validation failed: " + r.message)
  {
    match r
    case Accepted => SuccessStatusOf("JSON validation successful!")
    case Rejected(msg) => ErrorStatusOf("JSON validation failed: " + msg)
  }

  /** `connectionStatus`. */
  datatype Connection = Checking | Connected | ConnectionError

  /** What a `fetch` gave: a response with its `ok` flag and parsed body, or a thrown error. */
  datatype FetchOutcome = Responded(ok: bool, body: ParseOutcome) | FetchFailed(message: string)

  /** Whether the connection check reports a live connection: `response.ok && result.success`. */
  predicate ConnectionConfirmed(outcome: FetchOutcome)
  {
    && outcome.Responded? && outcome.ok && outcome.body.Parsed?
    && ReadTruthy(Prop(outcome.body.value, "success"))
  }

  /** The error text shown when the check fails: the route's message, or a default. */
  function ConnectionFailure(outcome: FetchOutcome): (message: Json)
    requires !ConnectionConfirmed(outcome)
    ensures outcome.FetchFailed? ==> message == JStr("Failed to check connection: " + outcome.message)
    ensures outcome.Responded? && outcome.body.ParseFailed? ==>
      message == JStr("Failed to check connection: " + outcome.body.message)
    ensures outcome.Responded? && outcome.body == Parsed(JNull) ==>
      message == JStr("Failed to check connection: "
        + NullReadMessage(if outcome.ok then "success" else "message"))
    ensures outcome.Responded? && outcome.body.Parsed? && !outcome.body.value.JNull?
      && ReadTruthy(Prop(outcome.body.value, "message"))
      ==> message == Prop(outcome.body.value, "message").value
    ensures outcome.Responded? && outcome.body.Parsed? && !outcome.body.value.JNull?
      && !ReadTruthy(Prop(outcome.body.value, "message"))
      ==> message == JStr("Supabase connection not available")
  {
    match outcome
    case FetchFailed(msg) => JStr("Failed to check connection: " + msg)
    case Responded(ok, body) =>
      match body
      case ParseFailed(msg) => JStr("Failed to check connection: " + msg)
      case Parsed(result) =>
        var success := if ok then Prop(result, "success") else Undefined;
        if success.Threw? then JStr("Failed to check connection: " + success.message)
        else
          var m := Prop(result, "message");
          if m.Threw? then JStr("Failed to check connection: " + m.message)
          else if ReadTruthy(m) then m.value
          else JStr("Supabase connection not available")
  }

  /** The request body the page posts: `{ title: title.trim(), document }`. */
  function UploadBody(title: string, document: Json): (body: Json)
    ensures body.JObj? && body.fields.Keys == {"title", "document"}
    ensures Prop(body, "title") == Value(JStr(title))
    ensures Prop(body, "document") == Value(document)
  {
    JObj(map["title" := JStr(title), "document" := document])
  }

  /** A body the page can have sent: a non-blank trimmed title and a document that passed validation. */
  ghost predicate IsCheckedUpload(body: Json)
  {
    exists title: string, document: Json
      | UploadBody(title, document) == body
      :: title != "" && Trim(title) == title && WellFormedDocumentJson(document)
  }

  /** The text before every upload failure message. */
  const UploadPrefix := "Failed to upload document: "

  /** The status left by the upload request, from the route's answer. */
  function UploadStatus(response: FetchOutcome): (st: Status)
    ensures st.kind == SuccessStatus <==> response.Responded? && response.ok && response.body.Parsed?
    ensures st.kind != SuccessStatus ==>
      st.kind == ErrorStatus && st.message.JStr? && UploadPrefix <= st.message.s
    ensures response.FetchFailed? ==> st == ErrorStatusOf(UploadPrefix + response.message)
    ensures response.Responded? && response.body.ParseFailed? ==>
      st == ErrorStatusOf(UploadPrefix + response.body.message)
    ensures response.Responded? && !response.ok && response.body == Parsed(JNull) ==>
      st == ErrorStatusOf(UploadPrefix + NullReadMessage("message"))
    ensures response.Responded? && !response.ok && response.body.Parsed?
      && ReadTruthy(Prop(response.body.value, "message"))
      ==> st == ErrorStatusOf(UploadPrefix + JsString(Prop(response.body.value, "message").value))
    ensures response.Responded? && !response.ok && response.body.Parsed? && !response.body.value.JNull?
      && !ReadTruthy(Prop(response.body.value, "message"))
      ==> st == ErrorStatusOf(UploadPrefix + "Failed to upload document")
  {
    match response
    case FetchFailed(msg) => ErrorStatusOf(UploadPrefix + msg)
    case Responded(ok, body) =>
      match body
      case ParseFailed(msg) => ErrorStatusOf(UploadPrefix + msg)
      case Parsed(result) =>
        if ok then SuccessStatusOf("Document uploaded successfully!")
        else ErrorStatusOf(UploadPrefix + UploadFailureReason(result))
  }

  /**
   * The message of the error thrown on a response that is not ok:
   * `result.message || 'Failed to upload document'` as a string, or the
   * `TypeError` of reading from `null`.
   */
  function UploadFailureReason(result: Json): (reason: string)
    ensures result.JNull? ==> reason == NullReadMessage("message")
    ensures ReadTruthy(Prop(result, "message")) ==> reason == JsString(Prop(result, "message").value)
    ensures !result.JNull? && !ReadTruthy(Prop(result, "message")) ==> reason == "Failed to upload document"
  {
    var m := Prop(result, "message");
    if m.Threw? then m.message
    else if ReadTruthy(m) then JsString(m.value)
    else "Failed to upload document"
  }

  class AdminPage {
    var title: string
    var documentJson: string
    var status: Status
    var connection: Connection
    /** `JSON.parse` on the text area, a fixed function of the text. */
    const parse: string -> ParseOutcome
    /** The bodies posted to the upload route, in order. */
    var sent: seq<Json>

    /** Every body the page has posted passed its guards. */
    ghost predicate Valid()
      reads this
    {
      forall i :: 0 <= i < |sent| ==> IsCheckedUpload(sent[i])
    }

    constructor (parse: string -> ParseOutcome)
      ensures this.parse == parse
      ensures title == "" && documentJson == ""
      ensures status == Status(NoStatus, JStr("")) && connection == Checking && sent == []
      ensures Valid()
    {
      this.parse := parse;
      title := "";
      documentJson := "";
      status := Status(NoStatus, JStr(""));
      connection := Checking;
      sent := [];
    }

    /** The title input's `onChange`. */
    method SetTitle(value: string)
      modifies this`title
      ensures title == value
    {
      title := value;
    }

    /** The text area's `onChange`. */
    method SetDocumentJson(value: string)
      modifies this`documentJson
      ensures documentJson == value
    {
      documentJson := value;
    }

    /**
     * `checkConnection`: connected exactly when the response is ok and its
     * `success` is truthy; otherwise an error, with a message in the status.
     */
    method CheckConnection(outcome: FetchOutcome)
      modifies this`connection, this`status
      ensures connection == Connected <==> ConnectionConfirmed(outcome)
      ensures connection != Connected ==> connection == ConnectionError
      ensures ConnectionConfirmed(outcome) ==> status == old(status)
      ensures !ConnectionConfirmed(outcome) ==>
        status == Status(ErrorStatus, ConnectionFailure(outcome))
    {
      match outcome {
        case FetchFailed(msg) =>
          connection := ConnectionError;
          status := ErrorStatusOf("Failed to check connection: " + msg);
        case Responded(ok, body) =>
          match body {
            case ParseFailed(msg) =>
              connection := ConnectionError;
              status := ErrorStatusOf("Failed to check connection: " + msg);
            case Parsed(result) =>
              var success := if ok then Prop(result, "success") else Undefined;
              if success.Threw? {
                connection := ConnectionError;
                status := ErrorStatusOf("Failed to check connection: " + success.message);
              } else if ok && ReadTruthy(success) {
                connection := Connected;
              } else {
                var m := Prop(result, "message");
                connection := ConnectionError;
                if m.Threw? {
                  status := ErrorStatusOf("Failed to check connection: " + m.message);
                } else if ReadTruthy(m) {
                  status := Status(ErrorStatus, m.value);
                } else {
                  status := ErrorStatusOf("Supabase connection not available");
                }
              }
          }
      }
    }

    /** The "Validate JSON" button: validates the text and reports the verdict. */
    method ValidateJson() returns (ok: bool)
      modifies this`status
      ensures ok <==> Validate(parse(documentJson)).Accepted?
      ensures ok <==> parse(documentJson).Parsed? && WellFormedDocumentJson(parse(documentJson).value)
      ensures status == ValidationStatus(Validate(parse(documentJson)))
    {
      var verdict := Validate(parse(documentJson));
      status := ValidationStatus(verdict);
      ok := verdict.Accepted?;
    }

    /**
     * `uploadDocument`: the guards run in the order connection, trimmed
     * title, JSON validity, and the first that fails sets the status and
     * sends nothing. Otherwise the trimmed title and the parsed document are
     * posted, and the route's answer decides the status.
     */
    method UploadDocument(response: FetchOutcome)
      requires Valid()
      modifies this`status, this`sent
      ensures Valid()
      ensures connection != Connected ==>
        status == ErrorStatusOf("Supabase connection is not available") && sent == old(sent)
      ensures connection == Connected && Trim(title) == "" ==>
        status == ErrorStatusOf("Please provide a document title") && sent == old(sent)
      ensures connection == Connected && Trim(title) != "" && Validate(parse(documentJson)).Rejected? ==>
        status == ValidationStatus(Validate(parse(documentJson))) && sent == old(sent)
      ensures connection == Connected && Trim(title) != "" && Validate(parse(documentJson)).Accepted? ==>
        && sent == old(sent) + [UploadBody(Trim(title), parse(documentJson).value)]
        && status == UploadStatus(response)
    {
      if connection != Connected {
        status := ErrorStatusOf("Supabase connection is not available");
        return;
      }
      var trimmed := Trim(title);
      if trimmed == "" {
        status := ErrorStatusOf("Please provide a document title");
        return;
      }
      var valid := ValidateJson();
      if !valid {
        return;
      }
      var document := parse(documentJson).value;
      var body := UploadBody(trimmed, document);
      TrimIdempotent(title);
      assert IsCheckedUpload(body);
      sent := sent + [body];
      status := UploadStatus(response);
    }
  }
}
