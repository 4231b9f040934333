/**
 * The pydantic response and request models of the audit-log API, and their
 * validation of a raw value: required fields must be present with the right
 * kind, optional fields default, and keys the model does not name are ignored.
 */
module Schemas {
  import opened Wrappers
  import opened Bson

  datatype DocumentStatus = DocumentStatus(statusId: string, message: string)

  datatype DocumentSession = DocumentSession(pid: string, status: DocumentStatus)

  datatype AuditLogsBase = AuditLogsBase(filename: string, session: DocumentSession)

  /** The creation model declares no field beyond those of the base model. */
  type AuditLogsCreate = AuditLogsBase

  datatype AuditLogs = AuditLogs(
    id: string, filename: string, session: DocumentSession, createdAt: Timestamp, updatedAt: Timestamp)

  datatype AuditLogsUpdate = AuditLogsUpdate(filename: Option<string>, session: Option<DocumentSession>)

  datatype ErrorResponse = ErrorResponse(error: string, detail: Option<string>, timestamp: Timestamp)

  // ---------------------------------------------------------------------
  // Field access on a raw value

  function Field(v: Value, key: string): (r: Option<Value>)
    ensures r.Some? <==> v.Doc? && key in v.fields
    ensures r.Some? ==> r.value == v.fields[key]
  {
    if v.Doc? && key in v.fields then Some(v.fields[key]) else None
  }

  /** The field is present and a string. */
  predicate HasStr(v: Value, key: string)
  {
    Field(v, key).Some? && Field(v, key).value.Str?
  }

  /** The field is present and a date. */
  predicate HasTime(v: Value, key: string)
  {
    Field(v, key).Some? && Field(v, key).value.Time?
  }

  function RequiredStr(v: Value, key: string): Option<string>
  {
    match Field(v, key)
    case Some(Str(s)) => Some(s)
    case _ => None
  }

  function RequiredTime(v: Value, key: string): Option<Timestamp>
  {
    match Field(v, key)
    case Some(Time(t)) => Some(t)
    case _ => None
  }

  /** An `Optional[str] = None` field: absent or null gives None, anything but a string is rejected. */
  function OptionalStr(v: Value, key: string): Option<Option<string>>
  {
    match Field(v, key)
    case None => Some(None)
    case Some(Null) => Some(None)
    case Some(Str(s)) => Some(Some(s))
    case _ => None
  }

  // ---------------------------------------------------------------------
  // Validation of raw values against the models

  function ParseStatus(v: Value): (r: Option<DocumentStatus>)
    ensures r.Some? <==> HasStr(v, "status_id") && HasStr(v, "message")
    ensures r.Some? ==> (Field(v, "status_id") == Some(Str(r.value.statusId))
                     && Field(v, "message") == Some(Str(r.value.message)))
  {
    var id :- RequiredStr(v, "status_id");
    var msg :- RequiredStr(v, "message");
    Some(DocumentStatus(id, msg))
  }

  function ParseSession(v: Value): (r: Option<DocumentSession>)
    ensures r.Some? <==> HasStr(v, "PID") && Field(v, "status").Some? && ParseStatus(Field(v, "status").value).Some?
    ensures r.Some? ==> (Field(v, "PID") == Some(Str(r.value.pid))
                     && ParseStatus(Field(v, "status").value) == Some(r.value.status))
  {
    var pid :- RequiredStr(v, "PID");
    var raw :- Field(v, "status");
    var status :- ParseStatus(raw);
    Some(DocumentSession(pid, status))
  }

  function ParseSessionField(v: Value, key: string): Option<DocumentSession>
  {
    var raw :- Field(v, key);
    ParseSession(raw)
  }

  function ParseAuditLogsBase(v: Value): (r: Option<AuditLogsBase>)
    ensures r.Some? <==> HasStr(v, "filename") && ParseSessionField(v, "session").Some?
    ensures r.Some? ==> (Field(v, "filename") == Some(Str(r.value.filename))
                     && ParseSessionField(v, "session") == Some(r.value.session))
  {
    var filename :- RequiredStr(v, "filename");
    var session :- ParseSessionField(v, "session");
    Some(AuditLogsBase(filename, session))
  }

  /** The response model: the base fields plus a required id and two required dates. */
  function ParseAuditLogs(v: Value): (r: Option<AuditLogs>)
    ensures r.Some? <==> (ParseAuditLogsBase(v).Some? && HasStr(v, "id")
                      && HasTime(v, "created_at") && HasTime(v, "updated_at"))
    ensures r.Some? ==> (ParseAuditLogsBase(v) == Some(AuditLogsBase(r.value.filename, r.value.session))
                     && Field(v, "id") == Some(Str(r.value.id))
                     && Field(v, "created_at") == Some(Time(r.value.createdAt))
                     && Field(v, "updated_at") == Some(Time(r.value.updatedAt)))
  {
    var base :- ParseAuditLogsBase(v);
    var id :- RequiredStr(v, "id");
    var created :- RequiredTime(v, "created_at");
    var updated :- RequiredTime(v, "updated_at");
    Some(AuditLogs(id, base.filename, base.session, created, updated))
  }

  /** An optional field that is absent or null. */
  predicate Unset(v: Value, key: string)
  {
    Field(v, key) in {None, Some(Null)}
  }

  /**
   * Both fields optional: an absent or null field is None, a present one must
   * validate.  A value that is not a document is rejected.
   */
  function ParseAuditLogsUpdate(v: Value): (r: Option<AuditLogsUpdate>)
    ensures r.Some? <==> (v.Doc?
                      && (Unset(v, "filename") || HasStr(v, "filename"))
                      && (Unset(v, "session") || ParseSessionField(v, "session").Some?))
    ensures r.Some? ==> (r.value.filename == RequiredStr(v, "filename")
                     && r.value.session == ParseSessionField(v, "session"))
  {
    if !v.Doc? then None
    else
      var filename :- OptionalStr(v, "filename");
      var session :- match Field(v, "session")
        case None => Some(None)
        case Some(Null) => Some(None)
        case Some(raw) => (match ParseSession(raw) case Some(s) => Some(Some(s)) case None => None);
      Some(AuditLogsUpdate(filename, session))
  }

  /** `error` is required; `detail` defaults to None and `timestamp` to the moment of construction. */
  function ParseErrorResponse(v: Value, now: Timestamp): (r: Option<ErrorResponse>)
    ensures r.Some? <==> (HasStr(v, "error")
                      && (Unset(v, "detail") || HasStr(v, "detail"))
                      && (Field(v, "timestamp").None? || HasTime(v, "timestamp")))
    ensures r.Some? ==> (Field(v, "error") == Some(Str(r.value.error))
                     && r.value.detail == RequiredStr(v, "detail")
                     && r.value.timestamp == (if HasTime(v, "timestamp") then Field(v, "timestamp").value.t else now))
  {
    var error :- RequiredStr(v, "error");
    var detail :- OptionalStr(v, "detail");
    var timestamp :- match Field(v, "timestamp")
      case None => Some(now)
      case Some(Time(t)) => Some(t)
      case _ => None;
    Some(ErrorResponse(error, detail, timestamp))
  }

  // ---------------------------------------------------------------------
  // Serialisation of a model back to a raw value

  function EncodeStatus(s: DocumentStatus): Value
  {
    Doc(map["status_id" := Str(s.statusId), "message" := Str(s.message)])
  }

  function EncodeSession(s: DocumentSession): Value
  {
    Doc(map["PID" := Str(s.pid), "status" := EncodeStatus(s.status)])
  }

  function EncodeAuditLogs(a: AuditLogs): Value
  {
    Doc(map[
      "id" := Str(a.id),
      "filename" := Str(a.filename),
      "session" := EncodeSession(a.session),
      "created_at" := Time(a.createdAt),
      "updated_at" := Time(a.updatedAt)])
  }

  /** An unset optional field is written as null. */
  function EncodeAuditLogsUpdate(u: AuditLogsUpdate): Value
  {
    Doc(map[
      "filename" := (match u.filename case Some(f) => Str(f) case None => Null),
      "session" := (match u.session case Some(s) => EncodeSession(s) case None => Null)])
  }

  function EncodeErrorResponse(e: ErrorResponse): Value
  {
    Doc(map[
      "error" := Str(e.error),
      "detail" := (match e.detail case Some(d) => Str(d) case None => Null),
      "timestamp" := Time(e.timestamp)])
  }

  lemma SessionRoundTrip(s: DocumentSession)
    ensures ParseSession(EncodeSession(s)) == Some(s)
  {
    assert ParseStatus(EncodeStatus(s.status)) == Some(s.status);
  }

  lemma AuditLogsRoundTrip(a: AuditLogs)
    ensures ParseAuditLogs(EncodeAuditLogs(a)) == Some(a)
  {
    var v := EncodeAuditLogs(a);
    SessionRoundTrip(a.session);
    assert ParseSessionField(v, "session") == Some(a.session);
    assert ParseAuditLogsBase(v) == Some(AuditLogsBase(a.filename, a.session));
  }

  lemma AuditLogsUpdateRoundTrip(u: AuditLogsUpdate)
    ensures ParseAuditLogsUpdate(EncodeAuditLogsUpdate(u)) == Some(u)
  {
    if u.session.Some? {
      SessionRoundTrip(u.session.value);
    }
  }

  lemma ErrorResponseRoundTrip(e: ErrorResponse, now: Timestamp)
    ensures ParseErrorResponse(EncodeErrorResponse(e), now) == Some(e)
  {
  }
}
