/**
 * The upload route (app/api/admin/upload-document/route.ts): the request
 * checks in order environment, title, document structure, then the upsert
 * into the `documents` table keyed on the title.
 */
module UploadRoute {
  import opened Wrappers
  import opened JsonValue

  /** The two environment variables the route reads. */
  datatype Env = Env(supabaseUrl: Option<string>, serviceKey: Option<string>)

  /** What the database client did: no error, an `error` result, or a thrown exception. */
  datatype DbOutcome = DbOk | DbError(message: string) | DbThrew(message: string)

  /** The JSON response: HTTP status, `success` and `message`. */
  datatype Response = Response(status: nat, success: bool, message: string)

  /** The `documents` table: each title holds one document. */
  type Table = map<Json, Json>

  datatype Outcome = Outcome(response: Response, table: Table)

  /** The message of the `TypeError` thrown by destructuring `null`. */
  const DestructureNullMessage := "Cannot destructure property 'title' of '(intermediate value)' as it is null."

  const MissingEnv := Response(500, false, "Missing Supabase environment variables")
  const MissingTitle := Response(400, false, "Missing document title")
  const InvalidStructure := Response(400, false, "Invalid document structure")
  const Uploaded := Response(200, true, "Document uploaded successfully")

  /** `!!value` for an environment variable: set and non-empty. */
  predicate EnvSet(value: Option<string>)
  {
    value.Some? && value.value != ""
  }

  function ServerError(message: string): Response
  {
    Response(500, false, "Server error: " + message)
  }

  /**
   * The request bodies the route accepts, stated on their own: an object
   * with a truthy `title` and an object `document` whose `title`,
   * `summary`, `longSummary` and `children` are all truthy. Empty arrays are
   * truthy; `""`, `0`, `false` and `null` are not.
   */
  ghost predicate RequestAccepted(v: Json)
  {
    && v.JObj?
    && "title" in v.fields && Truthy(v.fields["title"])
    && "document" in v.fields && v.fields["document"].JObj?
    && var d := v.fields["document"].fields;
    && "title" in d && Truthy(d["title"])
    && "summary" in d && Truthy(d["summary"])
    && "longSummary" in d && Truthy(d["longSummary"])
    && "children" in d && Truthy(d["children"])
  }

  /** `!document || !document.title || ...`: the structure check the route rejects on. */
  predicate StructureRejected(document: Read)
  {
    || !ReadTruthy(document)
    || !ReadTruthy(Prop(document.value, "title"))
    || !ReadTruthy(Prop(document.value, "summary"))
    || !ReadTruthy(Prop(document.value, "longSummary"))
    || !ReadTruthy(Prop(document.value, "children"))
  }

  /**
   * `POST`: the response and the table afterwards. The first failing check
   * decides the response, and the table changes only on success, where the
   * row of the request's title is set to its document.
   */
  function Post(env: Env, body: ParseOutcome, table: Table, db: DbOutcome): (o: Outcome)
    ensures !(EnvSet(env.supabaseUrl) && EnvSet(env.serviceKey)) ==> o == Outcome(MissingEnv, table)
    ensures o.response.success <==> o.response.status == 200
    ensures o.response.success <==>
      EnvSet(env.supabaseUrl) && EnvSet(env.serviceKey) && body.Parsed?
      && RequestAccepted(body.value) && db.DbOk?
    ensures o.response.success ==>
      o.table == table[body.value.fields["title"] := body.value.fields["document"]]
    ensures !o.response.success ==> o.table == table
    ensures EnvSet(env.supabaseUrl) && EnvSet(env.serviceKey) && body.ParseFailed? ==>
      o == Outcome(ServerError(body.message), table)
    ensures EnvSet(env.supabaseUrl) && EnvSet(env.serviceKey) && body == Parsed(JNull) ==>
      o == Outcome(ServerError(DestructureNullMessage), table)
    ensures EnvSet(env.supabaseUrl) && EnvSet(env.serviceKey) && body.Parsed?
      && RequestAccepted(body.value) && db.DbError?
      ==> o == Outcome(Response(500, false, "Upload failed: " + db.message), table)
    ensures EnvSet(env.supabaseUrl) && EnvSet(env.serviceKey) && body.Parsed?
      && RequestAccepted(body.value) && db.DbThrew?
      ==> o == Outcome(ServerError(db.message), table)
  {
    if !EnvSet(env.supabaseUrl) || !EnvSet(env.serviceKey) then Outcome(MissingEnv, table)
    else match body
      case ParseFailed(msg) => Outcome(ServerError(msg), table)
      case Parsed(v) =>
        if v.JNull? then Outcome(ServerError(DestructureNullMessage), table)
        else
          var title := Prop(v, "title");
          var document := Prop(v, "document");
          if !ReadTruthy(title) then Outcome(MissingTitle, table)
          else if StructureRejected(document) then Outcome(InvalidStructure, table)
          else match db
            case DbThrew(msg) => Outcome(ServerError(msg), table)
            case DbError(msg) => Outcome(Response(500, false, "Upload failed: " + msg), table)
            case DbOk => Outcome(Uploaded, table[title.value := document.value])
  }

  /**
   * With the environment set, a falsy or missing title is reported before
   * the document is looked at; a primitive or array body has no title.
   */
  lemma TitleCheckedBeforeStructure(env: Env, v: Json, table: Table, db: DbOutcome)
    requires EnvSet(env.supabaseUrl) && EnvSet(env.serviceKey)
    requires !v.JNull? && !ReadTruthy(Prop(v, "title"))
    ensures Post(env, Parsed(v), table, db) == Outcome(MissingTitle, table)
  {
  }

  /** With a truthy title, a document lacking any of its four fields is rejected as a whole. */
  lemma StructureCheckedBeforeDatabase(env: Env, v: Json, table: Table, db: DbOutcome)
    requires EnvSet(env.supabaseUrl) && EnvSet(env.serviceKey)
    requires v.JObj? && "title" in v.fields && Truthy(v.fields["title"])
    requires !RequestAccepted(v)
    ensures Post(env, Parsed(v), table, db) == Outcome(InvalidStructure, table)
  {
  }

  /** An upload touches no row but its own, and adds at most that row. */
  lemma UpsertTouchesOneRow(env: Env, body: ParseOutcome, table: Table, db: DbOutcome, key: Json)
    requires key in table
    requires !(body.Parsed? && body.value.JObj? && "title" in body.value.fields
               && body.value.fields["title"] == key)
    ensures key in Post(env, body, table, db).table
    ensures Post(env, body, table, db).table[key] == table[key]
    ensures |Post(env, body, table, db).table.Keys - table.Keys| <= 1
  {
  }

  /** Uploading the same title twice leaves the second document in its row. */
  lemma UpsertReplaces(env: Env, title: Json, first: Json, second: Json, table: Table)
    requires EnvSet(env.supabaseUrl) && EnvSet(env.serviceKey)
    requires RequestAccepted(JObj(map["title" := title, "document" := first]))
    requires RequestAccepted(JObj(map["title" := title, "document" := second]))
    ensures var t1 := Post(env, Parsed(JObj(map["title" := title, "document" := first])), table, DbOk).table;
      var t2 := Post(env, Parsed(JObj(map["title" := title, "document" := second])), t1, DbOk).table;
      t2 == table[title := second]
  {
  }
}

/** What the admin page sends and what the upload route accepts, together. */
module UploadHandoff {
  import opened Text
  import opened JsonValue
  import opened Admin
  import opened UploadRoute

  /**
   * A body the admin page posts after its guards pass is accepted by the
   * route: with the environment set and the database working it is stored
   * under the trimmed title.
   */
  lemma CheckedUploadAccepted(env: Env, body: Json, table: Table)
    requires EnvSet(env.supabaseUrl) && EnvSet(env.serviceKey)
    requires IsCheckedUpload(body)
    ensures RequestAccepted(body)
    ensures Post(env, Parsed(body), table, DbOk) == Outcome(Uploaded, table[body.fields["title"] := body.fields["document"]])
  {
    var title: string, document: Json :| UploadBody(title, document) == body
      && title != "" && Trim(title) == title && WellFormedDocumentJson(document);
    assert body.fields["title"] == JStr(title);
    assert body.fields["document"] == document;
  }

  /** The JSON body of a route response: `{ success, message }`. */
  function ResponseJson(r: Response): (v: Json)
    ensures Prop(v, "success") == Value(JBool(r.success))
    ensures Prop(v, "message") == Value(JStr(r.message))
  {
    JObj(map["success" := JBool(r.success), "message" := JStr(r.message)])
  }

  /**
   * Whatever the route answers reaches the admin page's status: success
   * exactly when the route stored the document, and otherwise the route's
   * own message after the page's prefix.
   */
  lemma RouteOutcomeReachesAdmin(env: Env, body: ParseOutcome, table: Table, db: DbOutcome)
    ensures var r := Post(env, body, table, db).response;
      var st := UploadStatus(Responded(200 <= r.status < 300, Parsed(ResponseJson(r))));
      && (st.kind == SuccessStatus <==> r.success)
      && (!r.success ==> st == ErrorStatusOf(UploadPrefix + r.message))
  {
    var r := Post(env, body, table, db).response;
    assert r.message != "";
  }

  /** Every body the page has sent so far would be stored by the route. */
  lemma SentBodiesAccepted(page: AdminPage, env: Env, table: Table)
    requires page.Valid()
    requires EnvSet(env.supabaseUrl) && EnvSet(env.serviceKey)
    ensures forall i :: 0 <= i < |page.sent| ==> Post(env, Parsed(page.sent[i]), table, DbOk).response == Uploaded
  {
    forall i | 0 <= i < |page.sent|
      ensures Post(env, Parsed(page.sent[i]), table, DbOk).response == Uploaded
    {
      CheckedUploadAccepted(env, page.sent[i], table);
    }
  }
}
