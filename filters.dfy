/**
 * Compilation of the listing endpoint's optional query parameters into a
 * MongoDB filter document, and what it means for a record to match one.
 * Every parameter that is given adds one condition; the conditions are
 * AND-ed; a parameter left out, or a text parameter left empty, adds none.
 */
module Filters {
  import opened Wrappers
  import opened Bson

  /**
   * The server's regular-expression search behind `$regex`:
   * (pattern, options, subject) to "found somewhere in the subject".
   */
  type Matcher = (string, string, string) -> bool

  /** The optional query parameters `filename`, `status_id`, `pid`, `start_date`, `end_date`. */
  datatype Criteria = Criteria(
    filename: Option<string>,
    statusId: Option<string>,
    pid: Option<string>,
    startDate: Option<Timestamp>,
    endDate: Option<Timestamp>)

  datatype RangeOp = Gte | Lte

  /** The value a key of the filter document holds. */
  datatype Condition =
    | Regex(pattern: string, options: string)
    | Equals(value: string)
    | Range(bounds: map<RangeOp, Timestamp>)

  /** A filter document: dotted field names to conditions. */
  type Filter = map<Path, Condition>

  const FilenamePath: Path := ["filename"]
  const StatusIdPath: Path := ["session", "status", "status_id"]
  const PidPath: Path := ["session", "PID"]
  const CreatedAtPath: Path := ["created_at"]

  const FilterPaths: set<Path> := {FilenamePath, StatusIdPath, PidPath, CreatedAtPath}

  /** Python truthiness of an optional text parameter: None and "" are false. */
  predicate Given(s: Option<string>)
  {
    s.Some? && s.value != ""
  }

  // ---------------------------------------------------------------------
  // Meaning of a filter

  /** Whether one condition holds of the value found at its path (None: the path is absent). */
  predicate Holds(c: Condition, v: Option<Value>, search: Matcher)
  {
    match c
    case Regex(p, o) => v.Some? && v.value.Str? && search(p, o, v.value.s)
    case Equals(x) => v == Some(Str(x))
    case Range(b) =>
      if b == map[] then v == Some(Doc(map[]))
      else
        && v.Some? && v.value.Time?
        && (Gte in b ==> b[Gte] <= v.value.t)
        && (Lte in b ==> v.value.t <= b[Lte])
  }

  /** A record matches when every condition of the filter holds at its path. */
  predicate Matches(f: Filter, doc: RawDoc, search: Matcher)
  {
    forall p :: p in f ==> Holds(f[p], Lookup(doc, p), search)
  }

  /** Adding a key to a filter never lets more records through. */
  lemma AddingConditionNarrows(f: Filter, p: Path, c: Condition, doc: RawDoc, search: Matcher)
    requires p !in f
    ensures Matches(f[p := c], doc, search) <==> Matches(f, doc, search) && Holds(c, Lookup(doc, p), search)
  {
    if Matches(f, doc, search) && Holds(c, Lookup(doc, p), search) {
      forall q | q in f[p := c] ensures Holds(f[p := c][q], Lookup(doc, q), search) {
        if q != p {
          assert q in f;
        }
      }
    }
  }

  // ---------------------------------------------------------------------
  // Compilation

  /** The `$gte`/`$lte` operator document for the date range. */
  function DateBounds(c: Criteria): (b: map<RangeOp, Timestamp>)
    ensures Gte in b <==> c.startDate.Some?
    ensures Lte in b <==> c.endDate.Some?
    ensures Gte in b ==> b[Gte] == c.startDate.value
    ensures Lte in b ==> b[Lte] == c.endDate.value
  {
    (if c.startDate.Some? then map[Gte := c.startDate.value] else map[])
    + (if c.endDate.Some? then map[Lte := c.endDate.value] else map[])
  }

  /** The condition the parameters put at one path, if any. */
  function Entry(c: Criteria, p: Path): Option<Condition>
  {
    if p == FilenamePath && Given(c.filename) then Some(Regex(c.filename.value, "i"))
    else if p == StatusIdPath && Given(c.statusId) then Some(Equals(c.statusId.value))
    else if p == PidPath && Given(c.pid) then Some(Regex(c.pid.value, "i"))
    else if p == CreatedAtPath && (c.startDate.Some? || c.endDate.Some?) then Some(Range(DateBounds(c)))
    else None
  }

  /** The filter document for a set of parameters. */
  function CompileFilter(c: Criteria): (f: Filter)
    ensures f.Keys <= FilterPaths
    ensures FilenamePath in f <==> Given(c.filename)
    ensures FilenamePath in f ==> f[FilenamePath] == Regex(c.filename.value, "i")
    ensures StatusIdPath in f <==> Given(c.statusId)
    ensures StatusIdPath in f ==> f[StatusIdPath] == Equals(c.statusId.value)
    ensures PidPath in f <==> Given(c.pid)
    ensures PidPath in f ==> f[PidPath] == Regex(c.pid.value, "i")
    ensures CreatedAtPath in f <==> c.startDate.Some? || c.endDate.Some?
    ensures CreatedAtPath in f ==> f[CreatedAtPath] == Range(DateBounds(c))
  {
    map p | p in FilterPaths && Entry(c, p).Some? :: Entry(c, p).value
  }

  /** Builds the filter document key by key, as the endpoint does. */
  method BuildFilter(c: Criteria) returns (f: Filter)
    ensures f == CompileFilter(c)
  {
    f := map[];
    if Given(c.filename) {
      f := f[FilenamePath := Regex(c.filename.value, "i")];
    }
    if Given(c.statusId) {
      f := f[StatusIdPath := Equals(c.statusId.value)];
    }
    if Given(c.pid) {
      f := f[PidPath := Regex(c.pid.value, "i")];
    }
    if c.startDate.Some? || c.endDate.Some? {
      var dateFilter: map<RangeOp, Timestamp> := map[];
      if c.startDate.Some? {
        dateFilter := dateFilter[Gte := c.startDate.value];
      }
      if c.endDate.Some? {
        dateFilter := dateFilter[Lte := c.endDate.value];
      }
      assert dateFilter == DateBounds(c);
      f := f[CreatedAtPath := Range(dateFilter)];
    }
    var g := CompileFilter(c);
    assert f.Keys == g.Keys;
  }

  // ---------------------------------------------------------------------
  // The parameters' meaning, read directly

  /** The string stored at a path, if there is one. */
  function TextAt(doc: RawDoc, p: Path): Option<string>
  {
    match Lookup(doc, p)
    case Some(Str(s)) => Some(s)
    case _ => None
  }

  /** The date stored at a path, if there is one. */
  function DateAt(doc: RawDoc, p: Path): Option<Timestamp>
  {
    match Lookup(doc, p)
    case Some(Time(t)) => Some(t)
    case _ => None
  }

  /**
   * A record satisfies the parameters when: its filename is found by a
   * case-insensitive search for `filename`; its status id equals
   * `status_id`; its process id is found by a case-insensitive search for
   * `pid`; its creation date lies between the given bounds, both inclusive.
   * Each clause applies only when its parameter is given.
   */
  predicate Satisfies(c: Criteria, doc: RawDoc, search: Matcher)
  {
    && (Given(c.filename) ==> TextAt(doc, FilenamePath).Some? && search(c.filename.value, "i", TextAt(doc, FilenamePath).value))
    && (Given(c.statusId) ==> TextAt(doc, StatusIdPath) == Some(c.statusId.value))
    && (Given(c.pid) ==> TextAt(doc, PidPath).Some? && search(c.pid.value, "i", TextAt(doc, PidPath).value))
    && (c.startDate.Some? || c.endDate.Some? ==> DateAt(doc, CreatedAtPath).Some?)
    && (c.startDate.Some? && DateAt(doc, CreatedAtPath).Some? ==> c.startDate.value <= DateAt(doc, CreatedAtPath).value)
    && (c.endDate.Some? && DateAt(doc, CreatedAtPath).Some? ==> DateAt(doc, CreatedAtPath).value <= c.endDate.value)
  }

  lemma MatchesCompiledSatisfies(c: Criteria, doc: RawDoc, search: Matcher)
    requires Matches(CompileFilter(c), doc, search)
    ensures Satisfies(c, doc, search)
  {
    var f := CompileFilter(c);
    if Given(c.filename) { assert Holds(f[FilenamePath], Lookup(doc, FilenamePath), search); }
    if Given(c.statusId) { assert Holds(f[StatusIdPath], Lookup(doc, StatusIdPath), search); }
    if Given(c.pid) { assert Holds(f[PidPath], Lookup(doc, PidPath), search); }
    if c.startDate.Some? || c.endDate.Some? { assert Holds(f[CreatedAtPath], Lookup(doc, CreatedAtPath), search); }
  }

  lemma SatisfiesMatchesCompiled(c: Criteria, doc: RawDoc, search: Matcher)
    requires Satisfies(c, doc, search)
    ensures Matches(CompileFilter(c), doc, search)
  {
    var f := CompileFilter(c);
    forall p | p in f ensures Holds(f[p], Lookup(doc, p), search) {
      assert p in FilterPaths;
    }
  }

  /** A record matches the compiled filter exactly when it satisfies every given parameter. */
  lemma CompiledFilterMeaning(c: Criteria, doc: RawDoc, search: Matcher)
    ensures Matches(CompileFilter(c), doc, search) <==> Satisfies(c, doc, search)
  {
    if Matches(CompileFilter(c), doc, search) {
      MatchesCompiledSatisfies(c, doc, search);
    }
    if Satisfies(c, doc, search) {
      SatisfiesMatchesCompiled(c, doc, search);
    }
  }

  /** With no parameter given (empty text counts as not given), the filter is empty and every record matches. */
  lemma NoCriteriaMatchesEverything(c: Criteria, doc: RawDoc, search: Matcher)
    requires !Given(c.filename) && !Given(c.statusId) && !Given(c.pid)
    requires c.startDate.None? && c.endDate.None?
    ensures CompileFilter(c) == map[]
    ensures Matches(CompileFilter(c), doc, search)
  {
    assert CompileFilter(c).Keys == {};
  }

  /** A start date after the end date lets no record through. */
  lemma InvertedRangeMatchesNothing(c: Criteria, doc: RawDoc, search: Matcher)
    requires c.startDate.Some? && c.endDate.Some? && c.startDate.value > c.endDate.value
    ensures !Matches(CompileFilter(c), doc, search)
  {
    CompiledFilterMeaning(c, doc, search);
  }

  /** `c2` asks for everything `c1` asks for, with the same values, and possibly more. */
  predicate Refines(c2: Criteria, c1: Criteria)
  {
    && (Given(c1.filename) ==> c2.filename == c1.filename)
    && (Given(c1.statusId) ==> c2.statusId == c1.statusId)
    && (Given(c1.pid) ==> c2.pid == c1.pid)
    && (c1.startDate.Some? ==> c2.startDate == c1.startDate)
    && (c1.endDate.Some? ==> c2.endDate == c1.endDate)
  }

  /** Supplying further parameters never enlarges the set of matching records. */
  lemma MoreCriteriaNarrow(c1: Criteria, c2: Criteria, doc: RawDoc, search: Matcher)
    requires Refines(c2, c1)
    ensures Matches(CompileFilter(c2), doc, search) ==> Matches(CompileFilter(c1), doc, search)
  {
    CompiledFilterMeaning(c1, doc, search);
    CompiledFilterMeaning(c2, doc, search);
  }

  // ---------------------------------------------------------------------
  // Text search for patterns without metacharacters

  function LowerChar(ch: char): char
  {
    if 'A' <= ch <= 'Z' then (ch as int + 32) as char else ch
  }

  /** ASCII lower-casing. */
  function Lower(s: string): (r: string)
    ensures |r| == |s|
    ensures forall i :: 0 <= i < |s| ==> r[i] == LowerChar(s[i])
  {
    seq(|s|, i requires 0 <= i < |s| => LowerChar(s[i]))
  }

  /** `part` occurs in `subject` starting at index `i`. */
  predicate OccursAt(subject: string, part: string, i: nat)
  {
    i + |part| <= |subject| && subject[i..i + |part|] == part
  }

  predicate ContainsText(subject: string, part: string)
  {
    exists i: nat :: i <= |subject| && OccursAt(subject, part, i)
  }

  /**
   * An ASCII pattern in which no character has a special meaning to the
   * regular-expression engine.
   */
  predicate IsLiteralPattern(pattern: string)
  {
    forall i :: 0 <= i < |pattern| ==> pattern[i] < 128 as char && pattern[i] !in "\\^$.|?*+()[]{}"
  }

  /**
   * What a `$regex` search amounts to for a literal pattern: a substring
   * search, ignoring ASCII case when the options contain `i`.
   */
  function LiteralSearch(pattern: string, options: string, subject: string): bool
  {
    if 'i' in options then ContainsText(Lower(subject), Lower(pattern))
    else ContainsText(subject, pattern)
  }

  /** Any stretch of the subject that equals the pattern up to ASCII case is found by a case-insensitive search. */
  lemma FragmentIsFound(subject: string, part: string, i: nat)
    requires i + |part| <= |subject|
    requires forall k :: 0 <= k < |part| ==> LowerChar(subject[i + k]) == LowerChar(part[k])
    ensures LiteralSearch(part, "i", subject)
  {
    var s, p := Lower(subject), Lower(part);
    assert s[i..i + |p|] == p;
    assert OccursAt(s, p, i);
  }

  /** The filename search `report` is a literal pattern, so `LiteralSearch` gives its meaning. */
  lemma ReportIsLiteral()
    ensures IsLiteralPattern("report")
  {
  }

  /** The filename search `report` finds the stored name `Report_Final.pdf`. */
  lemma FilenameSearchExample()
    ensures LiteralSearch("report", "i", "Report_Final.pdf")
  {
    FragmentIsFound("Report_Final.pdf", "report", 0);
  }

  /** The compiled `filename=report` filter, searched literally, lets the record named `Report_Final.pdf` through. */
  lemma FilenameFilterExample()
    ensures Matches(CompileFilter(Criteria(Some("report"), None, None, None, None)),
                    map["filename" := Str("Report_Final.pdf")], LiteralSearch)
  {
    var c := Criteria(Some("report"), None, None, None, None);
    var doc := map["filename" := Str("Report_Final.pdf")];
    FilenameSearchExample();
    assert TextAt(doc, FilenamePath) == Some("Report_Final.pdf");
    SatisfiesMatchesCompiled(c, doc, LiteralSearch);
  }
}
