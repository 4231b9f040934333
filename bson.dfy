/**
 * The raw records of the audit-log collection as the MongoDB driver hands
 * them to the application: nested documents of strings, dates, ObjectIds
 * and nulls.  Dates are modelled as integers (a point on the time line).
 */
module Bson {
  import opened Wrappers

  newtype Byte = x: int | 0 <= x < 256

  /** The twelve bytes of a MongoDB ObjectId. */
  type ObjectId = s: seq<Byte> | |s| == 12 witness [0, 0, 0, 0, 0, 0, 0, 0, 0, 0, 0, 0]

  type Timestamp = int

  datatype Value =
    | Null
    | Str(s: string)
    | Time(t: Timestamp)
    | Oid(oid: ObjectId)
    | Doc(fields: map<string, Value>)

  /** A top-level record of the collection. */
  type RawDoc = map<string, Value>

  /** A dotted field name such as `session.status.status_id`, split at the dots. */
  type Path = seq<string>

  /** MongoDB's resolution of a dotted path inside a record; None when a segment is absent or not a document. */
  function Lookup(doc: RawDoc, p: Path): (r: Option<Value>)
    ensures |p| == 1 ==> (r.Some? <==> p[0] in doc)
    ensures r.Some? && |p| == 1 ==> r.value == doc[p[0]]
    decreases |p|
  {
    if p == [] || p[0] !in doc then None
    else if |p| == 1 then Some(doc[p[0]])
    else match doc[p[0]]
      case Doc(inner) => Lookup(inner, p[1..])
      case _ => None
  }

  // ---------------------------------------------------------------------
  // Python's str() of a record identifier

  function HexDigit(n: int): (c: char)
    requires 0 <= n < 16
    ensures '0' <= c <= '9' || 'a' <= c <= 'f'
  {
    if n < 10 then ('0' as int + n) as char else ('a' as int + n - 10) as char
  }

  /** Two lower-case hexadecimal digits per byte, high nibble first. */
  function Hex(bs: seq<Byte>): (r: string)
    ensures |r| == 2 * |bs|
  {
    if bs == [] then ""
    else [HexDigit(bs[0] as int / 16), HexDigit(bs[0] as int % 16)] + Hex(bs[1..])
  }

  lemma HexDigitInjective(m: int, n: int)
    requires 0 <= m < 16 && 0 <= n < 16
    requires HexDigit(m) == HexDigit(n)
    ensures m == n
  {
  }

  lemma {:induction false} HexInjective(a: seq<Byte>, b: seq<Byte>)
    requires |a| == |b|
    requires Hex(a) == Hex(b)
    ensures a == b
  {
    if a != [] {
      var x, y := a[0] as int, b[0] as int;
      assert Hex(a)[0] == HexDigit(x / 16) && Hex(b)[0] == HexDigit(y / 16);
      assert Hex(a)[1] == HexDigit(x % 16) && Hex(b)[1] == HexDigit(y % 16);
      HexDigitInjective(x / 16, y / 16);
      HexDigitInjective(x % 16, y % 16);
      assert x == 16 * (x / 16) + x % 16 && y == 16 * (y / 16) + y % 16;
      assert Hex(a[1..]) == Hex(a)[2..] && Hex(b[1..]) == Hex(b)[2..];
      HexInjective(a[1..], b[1..]);
      assert a == [a[0]] + a[1..] && b == [b[0]] + b[1..];
    }
  }

  /**
   * Python's `str()` applied to a stored value.  An ObjectId prints as its
   * 24 lower-case hex digits, a string as itself, None as "None".  Dates and
   * embedded documents get a fixed stand-in text.
   */
  function PyStr(v: Value): string
  {
    match v
    case Null => "None"
    case Str(s) => s
    case Oid(o) => Hex(o)
    case Time(_) => "<datetime>"
    case Doc(_) => "<document>"
  }

  /** Distinct ObjectIds give distinct identifier strings, of 24 characters each. */
  lemma ObjectIdStringInjective(a: ObjectId, b: ObjectId)
    ensures |PyStr(Oid(a))| == 24
    ensures PyStr(Oid(a)) == PyStr(Oid(b)) ==> a == b
  {
    if PyStr(Oid(a)) == PyStr(Oid(b)) {
      HexInjective(a, b);
    }
  }

  // ---------------------------------------------------------------------
  // MongoDB's ordering of field values when sorting

  /**
   * Sort key of a field value: first the BSON type rank (a missing field
   * sorts like null, then strings, documents, ObjectIds, dates), then the
   * instant for dates.  Values of the same non-date kind compare equal.
   */
  datatype Key = Key(rank: nat, instant: int)

  function SortKey(v: Option<Value>): (k: Key)
    ensures (v.Some? && v.value.Time?) <==> k.rank == 9
    ensures v.Some? && v.value.Time? ==> k.instant == v.value.t
  {
    match v
    case None => Key(1, 0)
    case Some(Null) => Key(1, 0)
    case Some(Str(_)) => Key(3, 0)
    case Some(Doc(_)) => Key(4, 0)
    case Some(Oid(_)) => Key(7, 0)
    case Some(Time(t)) => Key(9, t)
  }

  /** The (total, pre-) order in which MongoDB compares sort keys. */
  predicate KeyLe(a: Key, b: Key)
  {
    a.rank < b.rank || (a.rank == b.rank && a.instant <= b.instant)
  }

  lemma KeyLeTotalPreorder(a: Key, b: Key, c: Key)
    ensures KeyLe(a, a)
    ensures KeyLe(a, b) || KeyLe(b, a)
    ensures KeyLe(a, b) && KeyLe(b, c) ==> KeyLe(a, c)
  {
  }

  /** A record lacking the date field sorts strictly below every record that carries a date. */
  lemma MissingSortsBelowDates(t: Timestamp, v: Option<Value>)
    requires v.None? || v == Some(Null)
    ensures KeyLe(SortKey(v), SortKey(Some(Time(t))))
    ensures !KeyLe(SortKey(Some(Time(t))), SortKey(v))
  {
  }
}
