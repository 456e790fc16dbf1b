/**
 * Two checks that the validators of the models package repeat: duplicate detection
 * written as `len(v) != len(set(v))`, and `int(v)` followed by a range test
 * inside the same `try` block.
 */
module ModelChecks {
  import opened Wrappers
  import opened Json
  import Text

  /** `set(v)`: the elements of a list. */
  function Elements<T>(s: seq<T>): set<T>
  {
    set i | 0 <= i < |s| :: s[i]
  }

  lemma ElementsAre<T>(s: seq<T>)
    ensures forall x :: x in Elements(s) <==> x in s
  {
  }

  /** No element occurs twice. */
  predicate NoDuplicates<T(==)>(s: seq<T>)
  {
    forall a, b :: 0 <= a < b < |s| ==> s[a] != s[b]
  }

  /**
   * `len(set(v)) == len(v)` holds exactly when the list has no duplicates,
   * so the length comparison the validators make is a duplicate test.
   */
  lemma {:induction false} ElementsCount<T>(s: seq<T>)
    ensures |Elements(s)| <= |s|
    ensures |Elements(s)| == |s| <==> NoDuplicates(s)
    decreases |s|
  {
    if s != [] {
      var t := s[1..];
      ElementsCount(t);
      assert Elements(s) == {s[0]} + Elements(t) by {
        forall x | x in Elements(s) ensures x in {s[0]} + Elements(t) {
          var i :| 0 <= i < |s| && s[i] == x;
          if i > 0 { assert x == t[i - 1]; }
        }
      }
      if s[0] in Elements(t) {
        var k :| 0 <= k < |t| && t[k] == s[0];
        assert s[0] == s[k + 1];
      } else {
        assert NoDuplicates(s) <==> NoDuplicates(t) by {
          if NoDuplicates(t) {
            forall a, b | 0 <= a < b < |s| ensures s[a] != s[b] {
              if a == 0 {
                assert s[b] == t[b - 1];
              } else {
                assert s[a] == t[a - 1] && s[b] == t[b - 1];
              }
            }
          }
          if NoDuplicates(s) {
            forall a, b | 0 <= a < b < |t| ensures t[a] != t[b] {
              assert t[a] == s[a + 1] && t[b] == s[b + 1];
            }
          }
        }
      }
    }
  }

  /** `len(v) != len(set(v))`, the duplicate test the validators write. */
  predicate HasDuplicates<T(==)>(s: seq<T>)
  {
    |s| != |Elements(s)|
  }

  /** The length comparison is a duplicate test, in both directions. */
  lemma HasDuplicatesIff<T>(s: seq<T>)
    ensures HasDuplicates(s) <==> !NoDuplicates(s)
  {
    ElementsCount(s);
  }

  /** The accepted range of an integer: at least `lo` and, when there is one, at most `hi`. */
  datatype Bounds = Bounds(lo: int, hi: Option<int>)

  predicate Within(n: int, b: Bounds)
  {
    b.lo <= n && (b.hi.Some? ==> n <= b.hi.value)
  }

  /** Which of the two `ValueError`s a refused value gets: "not a number" or "out of range". */
  datatype IntFault = NotAnInteger | OutOfRange

  /**
   * As written: `try: n = int(v); if not in range: raise ValueError(..)
   * except ValueError: raise ValueError("... must be a number")`.  The range
   * error is raised inside the `try`, so the `except` replaces it, and a
   * number out of range is reported as not a number.
   */
  function ParseInRangeAsWritten(v: Json, b: Bounds): (r: Result<int, IntFault>)
    ensures r != Err(OutOfRange)
  {
    match PyInt(v)
    case None => Err(NotAnInteger)
    case Some(n) => if Within(n, b) then Ok(n) else Err(NotAnInteger)
  }

  /** As evidently intended: a value that parses but lies outside the range gets the range error. */
  function ParseInRange(v: Json, b: Bounds): (r: Result<int, IntFault>)
  {
    match PyInt(v)
    case None => Err(NotAnInteger)
    case Some(n) => if Within(n, b) then Ok(n) else Err(OutOfRange)
  }

  /**
   * The corrected check accepts exactly the values that parse to an integer
   * in range and yields that integer; it reports "not a number" exactly for
   * values `int()` refuses, and "out of range" for the rest.
   */
  lemma ParseInRangeMeaning(v: Json, b: Bounds)
    ensures ParseInRange(v, b).Ok? <==> PyInt(v).Some? && Within(PyInt(v).value, b)
    ensures ParseInRange(v, b).Ok? ==> ParseInRange(v, b).value == PyInt(v).value
    ensures ParseInRange(v, b) == Err(NotAnInteger) <==> PyInt(v).None?
    ensures ParseInRange(v, b) == Err(OutOfRange) <==> PyInt(v).Some? && !Within(PyInt(v).value, b)
  {
  }

  /** The code as written accepts the same values with the same result; only the kind of refusal differs. */
  lemma AsWrittenAcceptsAlike(v: Json, b: Bounds)
    ensures ParseInRangeAsWritten(v, b).Ok? <==> ParseInRange(v, b).Ok?
    ensures ParseInRangeAsWritten(v, b).Ok? ==> ParseInRangeAsWritten(v, b) == ParseInRange(v, b)
    ensures ParseInRange(v, b) == Err(OutOfRange) ==> ParseInRangeAsWritten(v, b) == Err(NotAnInteger)
  {
  }

  /** The digit count "31" of a number-precision setting is reported as "not a number" as written. */
  lemma RangeErrorSwallowed()
    ensures ParseInRangeAsWritten(JStr("31"), Bounds(1, Some(30))) == Err(NotAnInteger)
    ensures ParseInRange(JStr("31"), Bounds(1, Some(30))) == Err(OutOfRange)
  {
    var s := "31";
    assert s[..1] == "3" && s[..1][..0] == [];
    assert Text.Strip(s) == s;
    assert Text.DigitsValue(s) == 31;
    Text.DigitsNumeral(s);
  }
}
