/**
 * The listing endpoint: compile the parameters into a filter, let the store
 * select the matching records, order them by `created_at`, most recent
 * first, drop `skip` of them and keep at most `limit`, then decode each
 * record on the page in order.
 */
module Listing {
  import opened Wrappers
  import opened Bson
  import opened Filters
  import Models
  import Schemas

  // ---------------------------------------------------------------------
  // What the store does with `find(filter).skip(skip).limit(limit).sort("created_at", -1)`

  /** The matching records, in collection order. */
  function Select(docs: seq<RawDoc>, f: Filter, search: Matcher): (r: seq<RawDoc>)
    ensures |r| <= |docs|
    ensures forall d :: d in r <==> d in docs && Matches(f, d, search)
    ensures forall d :: multiset(r)[d] == if Matches(f, d, search) then multiset(docs)[d] else 0
  {
    if docs == [] then []
    else
      assert docs == [docs[0]] + docs[1..];
      (if Matches(f, docs[0], search) then [docs[0]] else []) + Select(docs[1..], f, search)
  }

  /** Where a record stands in the order of its `created_at` field. */
  function CreatedKey(d: RawDoc): Key
  {
    SortKey(if "created_at" in d then Some(d["created_at"]) else None)
  }

  /** Ordered by `key`, largest first (equal keys in any order). */
  predicate SortedBy<T>(s: seq<T>, key: T -> Key)
  {
    forall i, j :: 0 <= i < j < |s| ==> KeyLe(key(s[j]), key(s[i]))
  }

  /** Ordered by `created_at`, most recent first. */
  predicate SortedDesc(s: seq<RawDoc>)
  {
    SortedBy(s, CreatedKey)
  }

  /** Place an element before the first one whose key is not larger. */
  function Insert<T>(d: T, s: seq<T>, key: T -> Key): (r: seq<T>)
    ensures multiset(r) == multiset(s) + multiset{d}
    ensures |r| == |s| + 1
    ensures r[0] == d || (s != [] && r[0] == s[0])
  {
    if s == [] || KeyLe(key(s[0]), key(d)) then [d] + s
    else
      assert s == [s[0]] + s[1..];
      [s[0]] + Insert(d, s[1..], key)
  }

  lemma {:induction false} InsertSorted<T>(d: T, s: seq<T>, key: T -> Key)
    requires SortedBy(s, key)
    ensures SortedBy(Insert(d, s, key), key)
  {
    if s != [] && !KeyLe(key(s[0]), key(d)) {
      var rest := Insert(d, s[1..], key);
      InsertSorted(d, s[1..], key);
      assert KeyLe(key(rest[0]), key(s[0])) by {
        if rest[0] != d {
          assert rest[0] == s[1];
        }
      }
      var r := [s[0]] + rest;
      forall i, j | 0 <= i < j < |r| ensures KeyLe(key(r[j]), key(r[i])) {
        if i == 0 && j > 1 {
          assert KeyLe(key(rest[j - 1]), key(rest[0]));
        }
      }
    }
  }

  /** Insertion sort by `key`, largest first. */
  function SortBy<T>(s: seq<T>, key: T -> Key): (r: seq<T>)
    ensures SortedBy(r, key)
    ensures multiset(r) == multiset(s)
    ensures |r| == |s|
  {
    if s == [] then []
    else
      assert s == [s[0]] + s[1..];
      var rest := SortBy(s[1..], key);
      InsertSorted(s[0], rest, key);
      Insert(s[0], rest, key)
  }

  /** The store's ordering of the matches; records with equal keys keep no promised order. */
  function SortByCreatedDesc(s: seq<RawDoc>): (r: seq<RawDoc>)
    ensures SortedDesc(r)
    ensures multiset(r) == multiset(s)
  {
    SortBy(s, CreatedKey)
  }

  /** Drop the first `skip` elements, then keep at most `limit`. */
  function Page<T>(s: seq<T>, skip: nat, limit: nat): (r: seq<T>)
    ensures |r| <= limit
    ensures |r| == if skip >= |s| then 0 else if |s| - skip < limit then |s| - skip else limit
    ensures forall i :: 0 <= i < |r| ==> skip + i < |s| && r[i] == s[skip + i]
  {
    var from := if skip < |s| then skip else |s|;
    var to := if from + limit < |s| then from + limit else |s|;
    s[from..to]
  }

  /** Two adjacent pages together are one larger page: nothing is repeated or skipped between them. */
  lemma AdjacentPages<T>(s: seq<T>, skip: nat, n: nat, m: nat)
    ensures Page(s, skip, n) + Page(s, skip + n, m) == Page(s, skip, n + m)
  {
    var a, b, c := Page(s, skip, n), Page(s, skip + n, m), Page(s, skip, n + m);
    assert |a + b| == |c|;
    forall i | 0 <= i < |c| ensures (a + b)[i] == c[i] {
      if i >= |a| {
        assert |a| == n;
        assert b[i - n] == s[skip + i];
      }
    }
  }

  /** A page of a sequence sorted by a key is sorted by that key. */
  lemma PageKeepsOrder<T>(s: seq<T>, skip: nat, limit: nat, key: T -> Key)
    requires SortedBy(s, key)
    ensures SortedBy(Page(s, skip, limit), key)
  {
    var page := Page(s, skip, limit);
    forall i, j | 0 <= i < j < |page| ensures KeyLe(key(page[j]), key(page[i])) {
      assert page[i] == s[skip + i] && page[j] == s[skip + j];
    }
  }

  /**
   * The records the cursor yields: at most `limit` records, each a record of
   * the collection that matches the filter, ordered by `created_at`
   * descending.  A `limit` of 0 would mean "no limit" to the store; the
   * endpoint's parameter bounds never pass it.
   */
  function Cursor(collection: seq<RawDoc>, f: Filter, skip: nat, limit: nat, search: Matcher): (r: seq<RawDoc>)
    requires limit >= 1
    ensures |r| <= limit
    ensures forall d :: d in r ==> d in collection && Matches(f, d, search)
    ensures SortedDesc(r)
  {
    var matches := Select(collection, f, search);
    var sorted := SortByCreatedDesc(matches);
    var page := Page(sorted, skip, limit);
    PageKeepsOrder(sorted, skip, limit, CreatedKey);
    assert forall d :: d in page ==> d in multiset(sorted);
    page
  }

  // ---------------------------------------------------------------------
  // Decoding the page

  /** Decode every record in order; the first record that fails to decode ends the request. */
  function DecodeAll(docs: seq<RawDoc>, now: Timestamp): (r: Result<seq<Value>, Models.DecodeError>)
    ensures r.Success? <==> forall i :: 0 <= i < |docs| ==> Models.AuditLogsHelper(docs[i], now).Success?
    ensures r.Success? ==> |r.value| == |docs|
    ensures r.Success? ==> forall i :: 0 <= i < |docs| ==> Models.AuditLogsHelper(docs[i], now) == Success(r.value[i])
    ensures r.Failure? ==> exists i :: 0 <= i < |docs| && Models.AuditLogsHelper(docs[i], now) == Failure(r.error)
                                       && forall j :: 0 <= j < i ==> Models.AuditLogsHelper(docs[j], now).Success?
  {
    if docs == [] then Success([])
    else
      var head :- Models.AuditLogsHelper(docs[0], now);
      var tail :- DecodeAll(docs[1..], now);
      Success([head] + tail)
  }

  /** A failure at index `i`, after successes before it, is the failure of the whole decoding. */
  lemma {:induction false} DecodeAllFailsAt(docs: seq<RawDoc>, now: Timestamp, i: nat)
    requires i < |docs|
    requires forall k :: 0 <= k < i ==> Models.AuditLogsHelper(docs[k], now).Success?
    requires Models.AuditLogsHelper(docs[i], now).Failure?
    ensures DecodeAll(docs, now) == Failure(Models.AuditLogsHelper(docs[i], now).error)
  {
    if i > 0 {
      DecodeAllFailsAt(docs[1..], now, i - 1);
    }
  }

  /** Decoding every record one by one is decoding the sequence. */
  lemma {:induction false} DecodeAllSucceeds(docs: seq<RawDoc>, now: Timestamp, out: seq<Value>)
    requires |out| == |docs|
    requires forall k :: 0 <= k < |docs| ==> Models.AuditLogsHelper(docs[k], now) == Success(out[k])
    ensures DecodeAll(docs, now) == Success(out)
  {
    if docs != [] {
      DecodeAllSucceeds(docs[1..], now, out[1..]);
      assert out == [out[0]] + out[1..];
    }
  }

  /** The `created_at` of a decoded record, when it is a date. */
  function CreatedOf(v: Value): Option<Timestamp>
  {
    if v.Doc? && "created_at" in v.fields && v.fields["created_at"].Time? then Some(v.fields["created_at"].t) else None
  }

  /**
   * The endpoint's loop: decode the cursor's records one at a time, appending
   * each to `documents`; a record that cannot be decoded fails the request.
   */
  method DecodePage(cursor: seq<RawDoc>, now: Timestamp) returns (r: Result<seq<Value>, Models.DecodeError>)
    ensures r == DecodeAll(cursor, now)
    ensures r.Success? ==> forall i :: 0 <= i < |r.value| ==> Models.OutputShape(r.value[i])
  {
    var documents: seq<Value> := [];
    var i := 0;
    while i < |cursor|
      invariant 0 <= i <= |cursor|
      invariant |documents| == i
      invariant forall k :: 0 <= k < i ==> Models.AuditLogsHelper(cursor[k], now) == Success(documents[k])
    {
      var document := Models.AuditLogsHelper(cursor[i], now);
      if document.Failure? {
        DecodeAllFailsAt(cursor, now, i);
        return Failure(document.error);
      }
      documents := documents + [document.value];
      i := i + 1;
    }
    DecodeAllSucceeds(cursor, now, documents);
    DecodedShapes(cursor, now, documents);
    return Success(documents);
  }

  /**
   * GET /audit-logs/: the compiled filter, then the page, then the decoded
   * records in page order.
   */
  method ListAuditLogs(
    collection: seq<RawDoc>, skip: nat, limit: nat, criteria: Criteria, now: Timestamp, search: Matcher)
    returns (r: Result<seq<Value>, Models.DecodeError>)
    requires 1 <= limit <= 100
    ensures r == DecodeAll(Cursor(collection, CompileFilter(criteria), skip, limit, search), now)
    ensures r.Success? ==> |r.value| <= limit
    ensures r.Success? ==> forall i :: 0 <= i < |r.value| ==> Models.OutputShape(r.value[i])
  {
    var filter := BuildFilter(criteria);
    var cursor := Cursor(collection, filter, skip, limit, search);
    r := DecodePage(cursor, now);
  }

  // ---------------------------------------------------------------------
  // Validation of the response against `List[AuditLogs]`

  /**
   * The framework's check of the returned list against the route's response
   * model: every entry must validate as `AuditLogs`; None stands for the
   * HTTP 500 the service answers otherwise.
   */
  function ValidateResponse(page: seq<Value>): (r: Option<seq<Schemas.AuditLogs>>)
    ensures r.Some? <==> forall i :: 0 <= i < |page| ==> Schemas.ParseAuditLogs(page[i]).Some?
    ensures r.Some? ==> |r.value| == |page|
    ensures r.Some? ==> forall i :: 0 <= i < |page| ==> Schemas.ParseAuditLogs(page[i]) == Some(r.value[i])
  {
    if page == [] then Some([])
    else
      var head :- Schemas.ParseAuditLogs(page[0]);
      var tail :- ValidateResponse(page[1..]);
      assert forall i :: 1 <= i < |page| ==> page[i] == page[1..][i - 1];
      Some([head] + tail)
  }

  /**
   * A decoded page passes the response check exactly when every one of its
   * records is well typed; each entry then carries its record's values.
   */
  lemma ResponseValidIffWellTyped(docs: seq<RawDoc>, now: Timestamp, out: seq<Value>)
    requires DecodeAll(docs, now) == Success(out)
    ensures ValidateResponse(out).Some? <==> forall i :: 0 <= i < |docs| ==> Models.WellTyped(docs[i])
  {
    forall i | 0 <= i < |docs|
      ensures Schemas.ParseAuditLogs(out[i]).Some? <==> Models.WellTyped(docs[i])
    {
      assert Models.AuditLogsHelper(docs[i], now) == Success(out[i]);
      Models.HelperOutputConforms(docs[i], now);
    }
  }

  /**
   * A record whose stored `created_at` is null decodes, with the null
   * copied, but fails the response check: the service answers HTTP 500.
   */
  lemma NullCreatedAtFailsResponse(d: RawDoc, now: Timestamp)
    requires Models.Decodable(d)
    requires "created_at" in d && d["created_at"] == Null
    ensures DecodeAll([d], now).Success?
    ensures ValidateResponse(DecodeAll([d], now).value).None?
  {
    Models.HelperFailsOnFirstMissing(d, now);
    var out := [Models.AuditLogsHelper(d, now).value];
    DecodeAllSucceeds([d], now, out);
    assert !Models.WellTyped([d][0]);
    ResponseValidIffWellTyped([d], now, out);
  }

  /** Every record of a successful decoding has the response shape. */
  lemma DecodedShapes(docs: seq<RawDoc>, now: Timestamp, out: seq<Value>)
    requires DecodeAll(docs, now) == Success(out)
    ensures forall i :: 0 <= i < |out| ==> Models.OutputShape(out[i])
  {
    forall i | 0 <= i < |out| ensures Models.OutputShape(out[i]) {
      assert Models.AuditLogsHelper(docs[i], now) == Success(out[i]);
    }
  }

  // ---------------------------------------------------------------------
  // Order of the decoded page

  /** When every record on a sorted page carries a date, the decoded dates are non-increasing. */
  lemma DecodedDatesNonIncreasing(page: seq<RawDoc>, now: Timestamp, out: seq<Value>)
    requires SortedDesc(page)
    requires DecodeAll(page, now) == Success(out)
    requires forall d :: d in page ==> DateAt(d, CreatedAtPath).Some?
    ensures forall i, j :: 0 <= i < j < |out| ==>
      CreatedOf(out[i]).Some? && CreatedOf(out[j]).Some? && CreatedOf(out[j]).value <= CreatedOf(out[i]).value
  {
    forall i | 0 <= i < |out| ensures CreatedOf(out[i]) == DateAt(page[i], CreatedAtPath) {
      var d := page[i];
      Models.HelperFailsOnFirstMissing(d, now);
      Models.HelperCopiesFields(d, now);
      assert d in page;
    }
    forall i, j | 0 <= i < j < |out|
      ensures CreatedOf(out[i]).Some? && CreatedOf(out[j]).Some? && CreatedOf(out[j]).value <= CreatedOf(out[i]).value
    {
      assert page[i] in page && page[j] in page;
      assert KeyLe(CreatedKey(page[j]), CreatedKey(page[i]));
    }
  }

  /** The decoded `created_at`: the stored date, or `now` when the record has none. */
  lemma DecodedCreatedAt(d: RawDoc, now: Timestamp)
    requires Models.Decodable(d)
    requires "created_at" in d ==> d["created_at"].Time?
    ensures Models.AuditLogsHelper(d, now).Success?
    ensures CreatedOf(Models.AuditLogsHelper(d, now).value) == Some(if "created_at" in d then d["created_at"].t else now)
  {
    Models.HelperFailsOnFirstMissing(d, now);
    Models.HelperCopiesFields(d, now);
  }

  /** A dated record sorts before one without `created_at`. */
  lemma DatedBeforeUndated(dated: RawDoc, undated: RawDoc, t: Timestamp)
    requires "created_at" in dated && dated["created_at"] == Time(t)
    requires "created_at" !in undated
    ensures SortByCreatedDesc([undated, dated]) == [dated, undated]
  {
    var coll := [undated, dated];
    assert CreatedKey(dated) == Key(9, t) && CreatedKey(undated) == Key(1, 0);
    assert coll[1..] == [dated];
    assert SortByCreatedDesc([dated]) == [dated] by {
      assert [dated][1..] == [];
    }
    assert Insert(undated, [dated], CreatedKey) == [dated] + Insert(undated, [], CreatedKey);
  }

  /** With no filter, a record without `created_at` comes after a dated record. */
  lemma UndatedRecordSortsLast(dated: RawDoc, undated: RawDoc, t: Timestamp, search: Matcher)
    requires "created_at" in dated && dated["created_at"] == Time(t)
    requires "created_at" !in undated
    ensures Cursor([undated, dated], map[], 0, 2, search) == [dated, undated]
  {
    EmptyFilterMatchesAll([undated, dated], search);
    CursorOfAllMatching([undated, dated], map[], 0, 2, search);
    DatedBeforeUndated(dated, undated, t);
    assert Page([dated, undated], 0, 2) == [dated, undated];
  }

  /**
   * A record without `created_at` sorts after a dated one, yet decodes with
   * `created_at` set to the current time: the decoded page is then not
   * ordered by `created_at` descending.
   */
  lemma UndatedRecordDecodesOutOfOrder(dated: RawDoc, undated: RawDoc, t: Timestamp, now: Timestamp, search: Matcher)
    requires Models.Decodable(dated) && Models.Decodable(undated)
    requires "created_at" in dated && dated["created_at"] == Time(t)
    requires "created_at" !in undated
    requires t < now
    ensures Cursor([undated, dated], map[], 0, 2, search) == [dated, undated]
    ensures DecodeAll([dated, undated], now).Success?
    ensures CreatedOf(DecodeAll([dated, undated], now).value[0]) == Some(t)
    ensures CreatedOf(DecodeAll([dated, undated], now).value[1]) == Some(now)
  {
    UndatedRecordSortsLast(dated, undated, t, search);
    DecodedCreatedAt(dated, now);
    DecodedCreatedAt(undated, now);
    var page := [dated, undated];
    var out := [Models.AuditLogsHelper(dated, now).value, Models.AuditLogsHelper(undated, now).value];
    DecodeAllSucceeds(page, now, out);
  }

  // ---------------------------------------------------------------------
  // A worked scenario: four records of one document, one per status

  /** Inserting an element whose key is below every key of the sequence appends it. */
  lemma {:induction false} InsertLast<T>(d: T, s: seq<T>, key: T -> Key)
    requires forall i :: 0 <= i < |s| ==> !KeyLe(key(s[i]), key(d))
    ensures Insert(d, s, key) == s + [d]
  {
    if s != [] {
      InsertLast(d, s[1..], key);
      assert s == [s[0]] + s[1..];
    }
  }

  /** When every record matches, selection keeps the whole collection. */
  lemma {:induction false} SelectEverything(docs: seq<RawDoc>, f: Filter, search: Matcher)
    requires forall i :: 0 <= i < |docs| ==> Matches(f, docs[i], search)
    ensures Select(docs, f, search) == docs
  {
    if docs != [] {
      SelectEverything(docs[1..], f, search);
      assert docs == [docs[0]] + docs[1..];
    }
  }

  function Reverse<T>(s: seq<T>): (r: seq<T>)
    ensures |r| == |s|
    ensures forall i :: 0 <= i < |s| ==> r[i] == s[|s| - 1 - i]
  {
    if s == [] then [] else Reverse(s[1..]) + [s[0]]
  }

  lemma SortByUnfold<T>(s: seq<T>, key: T -> Key)
    requires s != []
    ensures SortBy(s, key) == Insert(s[0], SortBy(s[1..], key), key)
  {
  }

  /** If the first element's key is below all later keys, it is below every key of the reversed tail. */
  lemma HeadBelowReversedTail<T>(s: seq<T>, key: T -> Key)
    requires s != []
    requires forall j :: 1 <= j < |s| ==> !KeyLe(key(s[j]), key(s[0]))
    ensures forall i :: 0 <= i < |s| - 1 ==> !KeyLe(key(Reverse(s[1..])[i]), key(s[0]))
  {
    var rr := Reverse(s[1..]);
    forall i | 0 <= i < |rr| ensures !KeyLe(key(rr[i]), key(s[0])) {
      assert rr[i] == s[|s| - 1 - i];
    }
  }

  /** A sequence stored with strictly increasing keys comes out of the sort reversed. */
  lemma {:induction false} SortOfAscendingReverses<T>(s: seq<T>, key: T -> Key)
    requires forall i, j :: 0 <= i < j < |s| ==> !KeyLe(key(s[j]), key(s[i]))
    ensures SortBy(s, key) == Reverse(s)
  {
    if s != [] {
      SortOfAscendingReverses(s[1..], key);
      SortByUnfold(s, key);
      HeadBelowReversedTail(s, key);
      InsertLast(s[0], Reverse(s[1..]), key);
      assert Reverse(s) == Reverse(s[1..]) + [s[0]];
    }
  }

  /**
   * Four records with statuses DR, E, P and C, created at increasing times:
   * filtering on status C yields exactly the most recent one.
   */
  lemma StatusFilterScenario(e0: RawDoc, e1: RawDoc, e2: RawDoc, e3: RawDoc, search: Matcher)
    requires TextAt(e0, StatusIdPath) == Some("DR") && TextAt(e1, StatusIdPath) == Some("E")
    requires TextAt(e2, StatusIdPath) == Some("P") && TextAt(e3, StatusIdPath) == Some("C")
    ensures Cursor([e0, e1, e2, e3], CompileFilter(Criteria(None, Some("C"), None, None, None)), 0, 10, search) == [e3]
  {
    var coll := [e0, e1, e2, e3];
    var onlyC := Criteria(None, Some("C"), None, None, None);
    var f := CompileFilter(onlyC);
    CompiledFilterMeaning(onlyC, e0, search);
    CompiledFilterMeaning(onlyC, e1, search);
    CompiledFilterMeaning(onlyC, e2, search);
    CompiledFilterMeaning(onlyC, e3, search);
    assert !Matches(f, e0, search) && !Matches(f, e1, search) && !Matches(f, e2, search) && Matches(f, e3, search);
    assert coll[1..] == [e1, e2, e3] && coll[1..][1..] == [e2, e3] && coll[1..][1..][1..] == [e3];
    assert [e3][1..] == [];
    assert Select([e3], f, search) == [e3];
    assert Select([e2, e3], f, search) == [e3];
    assert Select([e1, e2, e3], f, search) == [e3];
    assert Select(coll, f, search) == [e3];
    assert SortByCreatedDesc([e3]) == [e3];
  }

  lemma ReverseOfFour<T>(a: T, b: T, c: T, d: T)
    ensures Reverse([a, b, c, d]) == [d, c, b, a]
  {
  }

  /** Records dated at strictly increasing instants have strictly increasing sort keys. */
  lemma DatedAscending(coll: seq<RawDoc>)
    requires forall i :: 0 <= i < |coll| ==> "created_at" in coll[i] && coll[i]["created_at"].Time?
    requires forall i, j :: 0 <= i < j < |coll| ==> coll[i]["created_at"].t < coll[j]["created_at"].t
    ensures forall i, j :: 0 <= i < j < |coll| ==> !KeyLe(CreatedKey(coll[j]), CreatedKey(coll[i]))
  {
    forall i | 0 <= i < |coll| ensures CreatedKey(coll[i]) == Key(9, coll[i]["created_at"].t) {
    }
  }

  /** Four records dated at increasing instants sort from the most recent to the oldest. */
  lemma FourRecordsSorted(e0: RawDoc, e1: RawDoc, e2: RawDoc, e3: RawDoc,
                          t0: Timestamp, t1: Timestamp, t2: Timestamp, t3: Timestamp)
    requires t0 < t1 < t2 < t3
    requires "created_at" in e0 && e0["created_at"] == Time(t0)
    requires "created_at" in e1 && e1["created_at"] == Time(t1)
    requires "created_at" in e2 && e2["created_at"] == Time(t2)
    requires "created_at" in e3 && e3["created_at"] == Time(t3)
    ensures SortByCreatedDesc([e0, e1, e2, e3]) == [e3, e2, e1, e0]
  {
    var coll := [e0, e1, e2, e3];
    DatedAscending(coll);
    SortOfAscendingReverses(coll, CreatedKey);
    ReverseOfFour(e0, e1, e2, e3);
  }

  /** When every record matches, the cursor is a page of the sorted collection. */
  lemma CursorOfAllMatching(coll: seq<RawDoc>, f: Filter, skip: nat, limit: nat, search: Matcher)
    requires limit >= 1
    requires forall i :: 0 <= i < |coll| ==> Matches(f, coll[i], search)
    ensures Cursor(coll, f, skip, limit, search) == Page(SortByCreatedDesc(coll), skip, limit)
  {
    SelectEverything(coll, f, search);
  }

  lemma EmptyFilterMatchesAll(coll: seq<RawDoc>, search: Matcher)
    ensures forall i :: 0 <= i < |coll| ==> Matches(map[], coll[i], search)
  {
  }

  lemma SecondPageOfFour<T>(a: T, b: T, c: T, d: T)
    ensures Page([a, b, c, d], 1, 2) == [b, c]
  {
  }

  /** Without a filter, skip 1 and limit 2 yield the second and third entries of the sorted collection. */
  lemma SecondPageOfSorted(coll: seq<RawDoc>, e0: RawDoc, e1: RawDoc, e2: RawDoc, e3: RawDoc, search: Matcher)
    requires SortByCreatedDesc(coll) == [e3, e2, e1, e0]
    ensures Cursor(coll, map[], 1, 2, search) == [e2, e1]
  {
    EmptyFilterMatchesAll(coll, search);
    CursorOfAllMatching(coll, map[], 1, 2, search);
    SecondPageOfFour(e3, e2, e1, e0);
  }

  /** The same four records without a filter: skip 1, limit 2 yields the 2nd and 3rd most recent. */
  lemma SecondPageScenario(e0: RawDoc, e1: RawDoc, e2: RawDoc, e3: RawDoc,
                           t0: Timestamp, t1: Timestamp, t2: Timestamp, t3: Timestamp, search: Matcher)
    requires t0 < t1 < t2 < t3
    requires "created_at" in e0 && e0["created_at"] == Time(t0)
    requires "created_at" in e1 && e1["created_at"] == Time(t1)
    requires "created_at" in e2 && e2["created_at"] == Time(t2)
    requires "created_at" in e3 && e3["created_at"] == Time(t3)
    ensures Cursor([e0, e1, e2, e3], CompileFilter(Criteria(None, None, None, None, None)), 1, 2, search) == [e2, e1]
  {
    FourRecordsSorted(e0, e1, e2, e3, t0, t1, t2, t3);
    SecondPageOfSorted([e0, e1, e2, e3], e0, e1, e2, e3, search);
    NoCriteriaMatchesEverything(Criteria(None, None, None, None, None), e0, search);
  }
}
