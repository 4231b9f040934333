/**
 * Decoding of a stored audit-log record into the response shape
 * (`audit_logs_status_helper`, `audit_logs_session_helper`, `audit_logs_helper`).
 * Required fields are read by subscript, so a missing one raises; the two
 * dates fall back to the current time, which is passed in as `now`.
 */
module Models {
  import opened Wrappers
  import opened Bson
  import Schemas

  /** The exception a subscript raises: KeyError for an absent key, TypeError for a value that is not a document. */
  datatype DecodeError = MissingKey(key: string) | NotSubscriptable(key: string)

  /** Python's `v[key]` on a stored value. */
  function Get(v: Value, key: string): (r: Result<Value, DecodeError>)
    ensures r.Success? <==> v.Doc? && key in v.fields
    ensures r.Success? ==> r.value == v.fields[key]
    ensures r.Failure? ==> r.error == (if v.Doc? then MissingKey(key) else NotSubscriptable(key))
  {
    match v
    case Doc(m) => if key in m then Success(m[key]) else Failure(MissingKey(key))
    case _ => Failure(NotSubscriptable(key))
  }

  /** Python's `document.get(key, default)`: the stored field when there is one, else the default. */
  function GetOr(document: RawDoc, key: string, default: Value): (r: Value)
    ensures key in document ==> r == document[key]
    ensures key !in document ==> r == default
  {
    if key in document then document[key] else default
  }

  /**
   * The status part: succeeds exactly when both keys are present, keeps
   * exactly those two, and otherwise raises for the first one read.
   */
  function StatusHelper(statusData: Value): (r: Result<Value, DecodeError>)
    ensures r.Success? <==> statusData.Doc? && "status_id" in statusData.fields && "message" in statusData.fields
    ensures r.Success? ==> r.value == Doc(map[
      "status_id" := statusData.fields["status_id"], "message" := statusData.fields["message"]])
    ensures !statusData.Doc? ==> r == Failure(NotSubscriptable("status_id"))
    ensures statusData.Doc? && "status_id" !in statusData.fields ==> r == Failure(MissingKey("status_id"))
    ensures statusData.Doc? && "status_id" in statusData.fields && "message" !in statusData.fields ==>
      r == Failure(MissingKey("message"))
  {
    var statusId :- Get(statusData, "status_id");
    var message :- Get(statusData, "message");
    Success(Doc(map["status_id" := statusId, "message" := message]))
  }

  /**
   * The session part: reads `PID`, then `status`, then decodes the status;
   * it keeps exactly `PID` and the decoded status, and fails with the first
   * subscript that raises.
   */
  function SessionHelper(sessionData: Value): (r: Result<Value, DecodeError>)
    ensures r.Success? <==> (sessionData.Doc? && "PID" in sessionData.fields && "status" in sessionData.fields
                          && StatusHelper(sessionData.fields["status"]).Success?)
    ensures r.Success? ==> r.value == Doc(map[
      "PID" := sessionData.fields["PID"], "status" := StatusHelper(sessionData.fields["status"]).value])
    ensures !sessionData.Doc? ==> r == Failure(NotSubscriptable("PID"))
    ensures sessionData.Doc? && "PID" !in sessionData.fields ==> r == Failure(MissingKey("PID"))
    ensures sessionData.Doc? && "PID" in sessionData.fields && "status" !in sessionData.fields ==>
      r == Failure(MissingKey("status"))
    ensures (sessionData.Doc? && "PID" in sessionData.fields && "status" in sessionData.fields
             && StatusHelper(sessionData.fields["status"]).Failure?) ==>
      r == Failure(StatusHelper(sessionData.fields["status"]).error)
  {
    var pid :- Get(sessionData, "PID");
    var statusData :- Get(sessionData, "status");
    var status :- StatusHelper(statusData);
    Success(Doc(map["PID" := pid, "status" := status]))
  }

  /** Decoding a decoded status again changes nothing. */
  lemma StatusHelperIdempotent(statusData: Value)
    requires StatusHelper(statusData).Success?
    ensures StatusHelper(StatusHelper(statusData).value) == StatusHelper(statusData)
  {
  }

  /** Decoding a decoded session again changes nothing. */
  lemma SessionHelperIdempotent(sessionData: Value)
    requires SessionHelper(sessionData).Success?
    ensures SessionHelper(SessionHelper(sessionData).value) == SessionHelper(sessionData)
  {
    StatusHelperIdempotent(sessionData.fields["status"]);
  }

  /** The keys of a decoded record, at each of its three levels, and nothing else. */
  predicate OutputShape(v: Value)
  {
    && v.Doc?
    && v.fields.Keys == {"id", "filename", "session", "created_at", "updated_at"}
    && v.fields["id"].Str?
    && v.fields["session"].Doc?
    && v.fields["session"].fields.Keys == {"PID", "status"}
    && v.fields["session"].fields["status"].Doc?
    && v.fields["session"].fields["status"].fields.Keys == {"status_id", "message"}
  }

  function AuditLogsHelper(document: RawDoc, now: Timestamp): (r: Result<Value, DecodeError>)
    ensures r.Success? ==> OutputShape(r.value)
  {
    var id :- Get(Doc(document), "_id");
    var filename :- Get(Doc(document), "filename");
    var sessionData :- Get(Doc(document), "session");
    var session :- SessionHelper(sessionData);
    Success(Doc(map[
      "id" := Str(PyStr(id)),
      "filename" := filename,
      "session" := session,
      "created_at" := GetOr(document, "created_at", Time(now)),
      "updated_at" := GetOr(document, "updated_at", Time(now))]))
  }

  // ---------------------------------------------------------------------
  // Reference description of what the decoder reads

  /** Successive subscripts along a path, failing as Python would at the first bad step. */
  function Resolve(v: Value, p: Path): Result<Value, DecodeError>
    decreases |p|
  {
    if p == [] then Success(v)
    else
      var child :- Get(v, p[0]);
      Resolve(child, p[1..])
  }

  /** The subscripts the decoder performs, in the order Python evaluates them. */
  const RequiredPaths: seq<Path> := [
    ["_id"], ["filename"], ["session"],
    ["session", "PID"], ["session", "status"],
    ["session", "status", "status_id"], ["session", "status", "message"]]

  /** The error of the first path that cannot be resolved, if any. */
  function FirstFailure(v: Value, paths: seq<Path>): (r: Option<DecodeError>)
    ensures r.None? <==> forall k :: 0 <= k < |paths| ==> Resolve(v, paths[k]).Success?
  {
    if paths == [] then None
    else match Resolve(v, paths[0])
      case Failure(e) => Some(e)
      case Success(_) => FirstFailure(v, paths[1..])
  }

  /** Every required field is present, at every level. */
  predicate Decodable(document: RawDoc)
  {
    forall k :: 0 <= k < |RequiredPaths| ==> Resolve(Doc(document), RequiredPaths[k]).Success?
  }

  /** The value the decoder reads at a required path. */
  function At(document: RawDoc, k: nat): Value
    requires k < |RequiredPaths| && Decodable(document)
  {
    Resolve(Doc(document), RequiredPaths[k]).value
  }

  /**
   * Decoding fails exactly when a required field is absent (or sits under a
   * value that is not a document), and reports the first such field in
   * evaluation order; no default is ever substituted for it.
   */
  lemma HelperFailsOnFirstMissing(document: RawDoc, now: Timestamp)
    ensures AuditLogsHelper(document, now).Success? <==> Decodable(document)
    ensures AuditLogsHelper(document, now).Failure? ==>
      FirstFailure(Doc(document), RequiredPaths) == Some(AuditLogsHelper(document, now).error)
  {
    if AuditLogsHelper(document, now).Success? {
      SuccessMeansDecodable(document, now);
    } else {
      FailureIsFirstFailure(document, now);
    }
  }

  lemma SuccessMeansDecodable(document: RawDoc, now: Timestamp)
    requires AuditLogsHelper(document, now).Success?
    ensures Decodable(document)
  {
    var v := Doc(document);
    var s := v.fields["session"];
    assert Get(s, "status").Success?;
    assert Get(s, "status").value.Doc?;
  }

  lemma FailureIsFirstFailure(document: RawDoc, now: Timestamp)
    requires AuditLogsHelper(document, now).Failure?
    ensures FirstFailure(Doc(document), RequiredPaths) == Some(AuditLogsHelper(document, now).error)
  {
    var v := Doc(document);
    var p := RequiredPaths;
    var r := AuditLogsHelper(document, now);
    if r.Failure? {
      // Unfold the search for the first failing path, one path at a time.
      assert p[1..] == [p[1], p[2], p[3], p[4], p[5], p[6]];
      assert p[1..][1..] == [p[2], p[3], p[4], p[5], p[6]];
      assert p[1..][1..][1..] == [p[3], p[4], p[5], p[6]];
      assert p[1..][1..][1..][1..] == [p[4], p[5], p[6]];
      assert p[1..][1..][1..][1..][1..] == [p[5], p[6]];
      if Get(v, "_id").Failure? {
        assert Resolve(v, p[0]) == Get(v, "_id");
      } else if Get(v, "filename").Failure? {
        assert Resolve(v, p[1]) == Get(v, "filename");
      } else if Get(v, "session").Failure? {
        assert Resolve(v, p[2]) == Get(v, "session");
        assert FirstFailure(v, p) == FirstFailure(v, p[1..]);
        assert FirstFailure(v, p[1..]) == FirstFailure(v, p[1..][1..]);
      } else {
        var s := v.fields["session"];
        assert Resolve(v, p[0]).Success? && Resolve(v, p[1]).Success? && Resolve(v, p[2]).Success?;
        assert FirstFailure(v, p) == FirstFailure(v, p[1..]);
        assert FirstFailure(v, p[1..]) == FirstFailure(v, p[1..][1..]);
        assert FirstFailure(v, p[1..][1..]) == FirstFailure(v, p[1..][1..][1..]);
        var q := p[1..][1..][1..];
        assert Resolve(v, p[3]) == Get(s, "PID");
        assert Resolve(v, p[4]) == Get(s, "status");
        if Get(s, "PID").Failure? {
          assert r == Failure(Get(s, "PID").error);
        } else if Get(s, "status").Failure? {
          assert r == Failure(Get(s, "status").error);
          assert FirstFailure(v, q) == FirstFailure(v, q[1..]);
        } else {
          var st := s.fields["status"];
          assert Resolve(v, p[5]) == Get(st, "status_id");
          assert Resolve(v, p[6]) == Get(st, "message");
          assert FirstFailure(v, q) == FirstFailure(v, q[1..]);
          assert FirstFailure(v, q[1..]) == FirstFailure(v, q[1..][1..]);
          if Get(st, "status_id").Failure? {
            assert r == Failure(Get(st, "status_id").error);
          } else {
            assert r == Failure(Get(st, "message").error);
            assert FirstFailure(v, q[1..][1..]) == FirstFailure(v, q[1..][1..][1..]);
          }
        }
      }
    }
  }

  /**
   * On success the output copies each required field unchanged, the
   * identifier as its string form, and each date when present or `now`.
   */
  lemma HelperCopiesFields(document: RawDoc, now: Timestamp)
    requires Decodable(document)
    ensures AuditLogsHelper(document, now) == Success(Doc(map[
      "id" := Str(PyStr(At(document, 0))),
      "filename" := At(document, 1),
      "session" := Doc(map[
        "PID" := At(document, 3),
        "status" := Doc(map["status_id" := At(document, 5), "message" := At(document, 6)])]),
      "created_at" := if "created_at" in document then document["created_at"] else Time(now),
      "updated_at" := if "updated_at" in document then document["updated_at"] else Time(now)]))
  {
    assert Resolve(Doc(document), RequiredPaths[5]).Success?;
    assert Resolve(Doc(document), RequiredPaths[6]).Success?;
  }

  // ---------------------------------------------------------------------
  // Conformance of the decoder's output to the response model

  /** The copied fields have the kinds the response model asks for. */
  predicate WellTyped(document: RawDoc)
  {
    && Decodable(document)
    && At(document, 1).Str? && At(document, 3).Str? && At(document, 5).Str? && At(document, 6).Str?
    && ("created_at" in document ==> document["created_at"].Time?)
    && ("updated_at" in document ==> document["updated_at"].Time?)
  }

  /**
   * A decoded record validates as `AuditLogs` exactly when the copied fields
   * are strings and the stored dates (if any) are dates; it then carries the
   * record's values.
   */
  lemma HelperOutputConforms(document: RawDoc, now: Timestamp)
    requires AuditLogsHelper(document, now).Success?
    ensures Schemas.ParseAuditLogs(AuditLogsHelper(document, now).value).Some? <==> WellTyped(document)
    ensures WellTyped(document) ==>
      Schemas.ParseAuditLogs(AuditLogsHelper(document, now).value) == Some(Schemas.AuditLogs(
        PyStr(At(document, 0)),
        At(document, 1).s,
        Schemas.DocumentSession(At(document, 3).s, Schemas.DocumentStatus(At(document, 5).s, At(document, 6).s)),
        GetOr(document, "created_at", Time(now)).t,
        GetOr(document, "updated_at", Time(now)).t))
  {
    HelperFailsOnFirstMissing(document, now);
    HelperCopiesFields(document, now);
  }
}
