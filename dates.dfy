/**
 * JavaScript `Date` values as the model keeps them: invalid (a NaN time), or
 * given by the local calendar components passed to the `Date` constructor.
 */
module Dates {
  import opened Wrappers
  import opened Sorting

  datatype DateValue =
    | InvalidDate
    | Calendar(year: int, monthIndex: int, day: int, hour: int, minute: int, second: int)

  function Components(d: DateValue): (r: seq<int>)
    requires d.Calendar?
    ensures |r| == 6
  {
    [d.year, d.monthIndex, d.day, d.hour, d.minute, d.second]
  }

  /** Lexicographic order on equally long sequences of numbers. */
  predicate LexLeq(a: seq<int>, b: seq<int>)
    requires |a| == |b|
  {
    |a| == 0 || a[0] < b[0] || (a[0] == b[0] && LexLeq(a[1..], b[1..]))
  }

  lemma {:induction false} LexTotal(a: seq<int>, b: seq<int>)
    requires |a| == |b|
    ensures LexLeq(a, b) || LexLeq(b, a)
  {
    if |a| > 0 && a[0] == b[0] {
      LexTotal(a[1..], b[1..]);
    }
  }

  lemma {:induction false} LexTransitive(a: seq<int>, b: seq<int>, c: seq<int>)
    requires |a| == |b| == |c|
    requires LexLeq(a, b) && LexLeq(b, c)
    ensures LexLeq(a, c)
  {
    if |a| > 0 && a[0] == b[0] == c[0] {
      LexTransitive(a[1..], b[1..], c[1..]);
    }
  }

  /**
   * MongoDB's ascending order on an optional date field: a missing or null
   * value first, then invalid dates, then dates in calendar order.
   */
  predicate DateFieldLeq(a: Option<DateValue>, b: Option<DateValue>)
  {
    match (a, b)
    case (None, _) => true
    case (Some(_), None) => false
    case (Some(InvalidDate), Some(_)) => true
    case (Some(Calendar(_, _, _, _, _, _)), Some(InvalidDate)) => false
    case (Some(x), Some(y)) => LexLeq(Components(x), Components(y))
  }

  lemma DateFieldLeqIsTotalPreorder()
    ensures TotalPreorder(DateFieldLeq)
  {
    forall a, b ensures DateFieldLeq(a, b) || DateFieldLeq(b, a) {
      if a.Some? && b.Some? && a.value.Calendar? && b.value.Calendar? {
        LexTotal(Components(a.value), Components(b.value));
      }
    }
    forall a, b, c | DateFieldLeq(a, b) && DateFieldLeq(b, c) ensures DateFieldLeq(a, c) {
      if a.Some? && b.Some? && c.Some? && a.value.Calendar? && b.value.Calendar? && c.value.Calendar? {
        LexTransitive(Components(a.value), Components(b.value), Components(c.value));
      }
    }
  }
}
