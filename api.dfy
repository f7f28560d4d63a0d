/** The parts of the frontend API client (frontend/src/api.ts) that do not
    touch the network: the request headers and the translation of an HTTP
    response into a value or a thrown error. */
module Api {
  import opened Common

  // ---------------------------------------------------------------------
  // Request headers
  // ---------------------------------------------------------------------

  /** The identity provider's session; only its access token is read. */
  datatype Session = Session(accessToken: Option<string>)

  /** `getAuthHeaders`, given the current session (None when signed out). */
  function AuthHeaders(session: Option<Session>): (h: map<string, string>)
    ensures "Content-Type" in h && h["Content-Type"] == "application/json"
    ensures "Authorization" in h <==>
              session.Some? && session.value.accessToken.Some? && session.value.accessToken.value != ""
    ensures "Authorization" in h ==> h["Authorization"] == "Bearer " + session.value.accessToken.value
    ensures forall k :: k in h ==> k == "Content-Type" || k == "Authorization"
  {
    var base := map["Content-Type" := "application/json"];
    match session
    case Some(Session(Some(token))) =>
      if token != "" then base["Authorization" := "Bearer " + token] else base
    case _ => base
  }

  // ---------------------------------------------------------------------
  // JavaScript values as the error path sees them
  // ---------------------------------------------------------------------

  /** `String(v)`: how a template literal or `new Error(v)` prints a JSON value. */
  function JsString(v: Json): string
    decreases v
  {
    match v
    case JNull => "null"
    case JBool(b) => if b then "true" else "false"
    case JNum(n) => IntToString(n)
    case JStr(s) => s
    case JArr(items) =>
      Join(seq(|items|, i requires 0 <= i < |items| => if items[i].JNull? then "" else JsString(items[i])), ",")
    case JObj(_) => "[object Object]"
  }

  /** `v.key` on a value that is not null; None stands for `undefined`. */
  function Prop(v: Json, key: string): (r: Option<Json>)
    requires !v.JNull?
    ensures r.Some? <==> v.JObj? && key in v.fields
  {
    if v.JObj? && key in v.fields then Some(v.fields[key]) else None
  }

  /** Truthiness of a property read, `undefined` included. */
  predicate Truthy(o: Option<Json>) {
    o.Some? && JsTruthy(o.value)
  }

  /** `${x}` for a property read that may be `undefined`. */
  function Template(o: Option<Json>): string {
    match o
    case None => "undefined"
    case Some(v) => JsString(v)
  }

  // ---------------------------------------------------------------------
  // handleResponse
  // ---------------------------------------------------------------------

  /** What `fetch` hands to `handleResponse`; `body` is None when the body
      is not valid JSON. */
  datatype Response = Response(status: int, statusText: string, body: Option<Json>)

  /** `response.ok`. */
  predicate Ok(r: Response) {
    200 <= r.status <= 299
  }

  /** How the promise returned by `handleResponse` settles. */
  datatype Outcome =
    | Value(value: Json)
      // the Error thrown for a non-ok status, with its `status` and `detail`;
      // `signedOut` records the sign-out performed before throwing
    | HttpError(message: string, status: int, detail: Json, signedOut: bool)
      // `response.json()` rejected on a successful status
    | ParseError
      // a property read or call on the wrong kind of value threw a TypeError
    | TypeError

  /** `errorData`: the parsed body, or `{detail: statusText}` when the body
      does not parse. */
  function ErrorData(r: Response): (d: Json)
    ensures r.body.None? ==> d == JObj(map["detail" := JStr(r.statusText)])
    ensures r.body.Some? ==> d == r.body.value
  {
    match r.body
    case None => JObj(map["detail" := JStr(r.statusText)])
    case Some(v) => v
  }

  /** `errorData.detail || errorData`. */
  function ErrorDetail(data: Json): (d: Json)
    requires !data.JNull?
    ensures !d.JNull?
    ensures Truthy(Prop(data, "detail")) ==> d == data.fields["detail"]
    ensures !Truthy(Prop(data, "detail")) ==> d == data
  {
    var p := Prop(data, "detail");
    if Truthy(p) then p.value else data
  }

  /** The text of one FastAPI validation error: its `loc` joined with '.'
      (or 'field' when `loc` is falsy), a colon, and its `msg`. None when
      the item is null or its truthy `loc` is not an array. */
  function FieldError(err: Json): (r: Option<string>)
    ensures r.Some? <==> !err.JNull? && (!Truthy(Prop(err, "loc")) || err.fields["loc"].JArr?)
  {
    if err.JNull? then None
    else
      var loc := Prop(err, "loc");
      var field :=
        if !Truthy(loc) then Some("field")
        else if loc.value.JArr? then Some(JoinLoc(loc.value.items))
        else None;
      match field
      case None => None
      case Some(f) => Some(f + ": " + Template(Prop(err, "msg")))
  }

  /** `loc.join('.')`. */
  function JoinLoc(items: seq<Json>): string {
    Join(seq(|items|, i requires 0 <= i < |items| => if items[i].JNull? then "" else JsString(items[i])), ".")
  }

  /** `detail.map(...)`: every item formatted, or None as soon as one throws. */
  function FieldErrors(items: seq<Json>): (r: Option<seq<string>>)
    ensures r.Some? <==> forall k :: 0 <= k < |items| ==> FieldError(items[k]).Some?
    ensures r.Some? ==> |r.value| == |items|
    ensures r.Some? ==> forall k :: 0 <= k < |items| ==> r.value[k] == FieldError(items[k]).value
  {
    if items == [] then Some([])
    else
      match (FieldError(items[0]), FieldErrors(items[1..]))
      case (Some(e), Some(es)) => Some([e] + es)
      case _ => None
  }

  /** The message of the thrown Error for an error `detail`; None when
      formatting an array detail throws. */
  function ErrorMessage(detail: Json, status: int): (r: Option<string>)
    requires !detail.JNull?
    ensures detail.JArr? ==> (r.Some? <==> FieldErrors(detail.items).Some?)
    ensures detail.JArr? && r.Some? ==>
              r.value == "Validation error: " + Join(FieldErrors(detail.items).value, ", ")
    ensures detail.JStr? ==> r == Some(detail.s)
    ensures !detail.JArr? && !detail.JStr? && Truthy(Prop(detail, "message")) ==>
              r == Some(JsString(detail.fields["message"]))
    ensures !detail.JArr? && !detail.JStr? && !Truthy(Prop(detail, "message")) && Truthy(Prop(detail, "error")) ==>
              r == Some(JsString(detail.fields["error"]))
    ensures !detail.JArr? && !detail.JStr? && !Truthy(Prop(detail, "message")) && !Truthy(Prop(detail, "error")) ==>
              r == Some("HTTP error! status: " + IntToString(status))
  {
    if detail.JArr? then
      match FieldErrors(detail.items)
      case None => None
      case Some(es) => Some("Validation error: " + Join(es, ", "))
    else if detail.JStr? then Some(detail.s)
    else
      var m := Prop(detail, "message");
      var e := Prop(detail, "error");
      if Truthy(m) then Some(JsString(m.value))
      else if Truthy(e) then Some(JsString(e.value))
      else Some("HTTP error! status: " + IntToString(status))
  }

  /** `handleResponse`: a successful status yields the parsed body; any
      other status throws an Error carrying the status and the detail,
      after signing out on 401. */
  function HandleResponse(r: Response): (o: Outcome)
    ensures o.Value? <==> Ok(r) && r.body.Some?
    ensures o.Value? ==> o.value == r.body.value
    ensures o.ParseError? <==> Ok(r) && r.body.None?
    ensures o.HttpError? ==> !Ok(r) && o.status == r.status && (o.signedOut <==> r.status == 401)
    ensures o.HttpError? ==> !ErrorData(r).JNull? && o.detail == ErrorDetail(ErrorData(r))
    ensures o.HttpError? ==> Some(o.message) == ErrorMessage(o.detail, r.status)
    ensures !Ok(r) ==> o.HttpError? || o.TypeError?
    ensures !Ok(r) && r.body == Some(JNull) ==> o.TypeError?
    ensures !Ok(r) && r.body.None? ==> o.HttpError?
    ensures !Ok(r) ==> (o.HttpError? <==> !ErrorData(r).JNull? && ErrorMessage(ErrorDetail(ErrorData(r)), r.status).Some?)
  {
    if Ok(r) then
      match r.body
      case None => ParseError
      case Some(v) => Value(v)
    else
      var data := ErrorData(r);
      if data.JNull? then TypeError
      else
        var detail := ErrorDetail(data);
        match ErrorMessage(detail, r.status)
        case None => TypeError
        case Some(m) => HttpError(m, r.status, detail, r.status == 401)
  }

  /** An unparseable error body with an empty status text falls back to the
      status-code message, because the empty detail is falsy. */
  lemma UnparseableBodyWithoutStatusText()
    ensures HandleResponse(Response(502, "", None)) ==
            HttpError("HTTP error! status: 502", 502, JObj(map["detail" := JStr("")]), false)
  {
    var data := JObj(map["detail" := JStr("")]);
    assert ErrorDetail(data) == data;
    assert IntToString(502) == "502" by {
      assert NatToString(50) == "50";
    }
  }

  /** A FastAPI 422 body with one field error. */
  lemma ValidationErrorExample()
    ensures HandleResponse(Response(422, "Unprocessable Entity", Some(JObj(map["detail" := JArr([SideMissing()])]))))
            == HttpError("Validation error: body.side: field required", 422, JArr([SideMissing()]), false)
  {
    var items := [SideMissing()];
    var msg := "Validation error: body.side: field required";
    var r := Response(422, "Unprocessable Entity", Some(JObj(map["detail" := JArr(items)])));
    assert ErrorDetail(ErrorData(r)) == JArr(items) by {
      assert Prop(ErrorData(r), "detail") == Some(JArr(items));
    }
    SideMissingMessage();
  }

  lemma SideMissingMessage()
    ensures ErrorMessage(JArr([SideMissing()]), 422) == Some("Validation error: body.side: field required")
  {
    var items := [SideMissing()];
    var line := "body.side: field required";
    SideMissingText();
    assert items[1..] == [];
    assert FieldErrors([]) == Some([]);
    assert [line] + [] == [line];
    assert FieldErrors(items) == Some([line]);
    assert Join([line], ", ") == line;
    assert "Validation error: " + line == "Validation error: body.side: field required";
  }

  /** FastAPI's report of a missing `side` field in the request body. */
  function SideMissing(): Json {
    JObj(map["loc" := JArr([JStr("body"), JStr("side")]), "msg" := JStr("field required")])
  }

  lemma SideMissingText()
    ensures FieldError(SideMissing()) == Some("body.side: field required")
  {
    var err := SideMissing();
    var loc := [JStr("body"), JStr("side")];
    assert JoinLoc(loc) == "body.side" by {
      var strs := seq(|loc|, i requires 0 <= i < |loc| => if loc[i].JNull? then "" else JsString(loc[i]));
      assert strs == ["body", "side"];
      assert Join(strs, ".") == "body" + "." + Join(["side"], ".");
    }
    assert Prop(err, "loc") == Some(JArr(loc));
    assert Template(Prop(err, "msg")) == "field required";
    assert Truthy(Prop(err, "loc"));
    assert "body.side" + ": " + "field required" == "body.side: field required";
  }
}
