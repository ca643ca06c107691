/** `MatchTypeEnum`: the two match modes of a resource file, a `str`-valued
    enumeration whose constructor also accepts integers. */
module Enums {
  import opened Wrappers

  datatype MatchType = Match1 | Match2

  /** The member's value: `MATCH_1 = "1"`, `MATCH_2 = "2"`. */
  function Value(t: MatchType): string {
    match t
    case Match1 => "1"
    case Match2 => "2"
  }

  /** `__repr__` prints the member as `str(self.value)`: one character,
      which the constructor maps back to the member. */
  function Repr(t: MatchType): (r: string)
    ensures |r| == 1
    ensures Parse(PyStr(r)) == Some(t)
  {
    Value(t)
  }

  /** The Python values a caller may hand to `MatchTypeEnum(...)`.  A `bool`
      is a subclass of `int` in Python, so it is kept apart from the other
      values that are neither a `str` nor an `int`. */
  datatype PyValue =
    | PyMember(member: MatchType)
    | PyStr(s: string)
    | PyInt(n: int)
    | PyBool(b: bool)
    | PyOther

  /** `isinstance(value, int)`, which also holds of `True` and `False`. */
  predicate IsInt(v: PyValue) {
    v.PyInt? || v.PyBool?
  }

  function DigitChar(d: int): char
    requires 0 <= d < 10
  {
    "0123456789"[d]
  }

  /** Python's `str` of a non-negative integer: its decimal digits. */
  function NatToString(n: nat): (s: string)
    ensures 1 <= |s|
    ensures n < 10 <==> |s| == 1
    decreases n
  {
    if n < 10 then [DigitChar(n)] else NatToString(n / 10) + [DigitChar(n % 10)]
  }

  /** Python's `str` of an integer (a leading '-' for negatives) or of a
      `bool` ("True" / "False"). */
  function PyStrOf(v: PyValue): string
    requires IsInt(v)
  {
    match v
    case PyBool(b) => if b then "True" else "False"
    case PyInt(n) => if n < 0 then "-" + NatToString(-n) else NatToString(n)
  }

  /** Looking a value up among the members' values.  Only a `str` can equal
      one of the `str` values "1" and "2". */
  function ValueLookup(v: PyValue): Option<MatchType> {
    match v
    case PyStr(s) =>
      if s == Value(Match1) then Some(Match1)
      else if s == Value(Match2) then Some(Match2)
      else None
    case _ => None
  }

  /** `MatchTypeEnum(value)`: a member is returned as it is; otherwise the
      value is looked up, and when that fails `_missing_` retries with
      `str(value)` if the value is an `int`.  `None` stands for the
      `ValueError` raised when no member is found. */
  function Parse(v: PyValue): (r: Option<MatchType>)
    ensures v.PyMember? ==> r == Some(v.member)
    ensures r.Some? && v.PyStr? ==> Value(r.value) == v.s
    ensures r.Some? && IsInt(v) ==> Value(r.value) == PyStrOf(v)
    ensures v.PyOther? ==> r.None?
    decreases if IsInt(v) then 1 else 0
  {
    if v.PyMember? then Some(v.member)
    else if ValueLookup(v).Some? then ValueLookup(v)
    else if IsInt(v) then Parse(PyStr(PyStrOf(v)))
    else None
  }

  /** A string parses to a member exactly when it is that member's value. */
  lemma ParseStr(s: string, t: MatchType)
    ensures Parse(PyStr(s)) == Some(t) <==> s == Value(t)
    ensures Parse(PyStr(s)).None? <==> s != "1" && s != "2"
  {
  }

  /** An integer parses to the same member as its decimal string. */
  lemma ParseIntAsStr(n: int)
    ensures Parse(PyInt(n)) == Parse(PyStr(PyStrOf(PyInt(n))))
  {
  }

  /** Only the integers 1 and 2 are accepted, as MATCH_1 and MATCH_2. */
  lemma ParseInt(n: int)
    ensures Parse(PyInt(n)) == if n == 1 then Some(Match1) else if n == 2 then Some(Match2) else None
  {
  }

  /** A `bool` is an `int` to `_missing_`, but "True" and "False" are not
      values; anything that is neither a `str` nor an `int` is refused. */
  lemma ParseRejects(b: bool)
    ensures Parse(PyBool(b)) == None
    ensures Parse(PyOther) == None
  {
  }

  /** The repr of a member is its value, and parsing it gives the member back. */
  lemma ReprRoundTrip(t: MatchType)
    ensures Repr(t) == Value(t)
    ensures Parse(PyStr(Repr(t))) == Some(t)
    ensures Parse(PyMember(t)) == Some(t)
  {
  }
}
