/** What the JSON view of a stored document does to its timestamps. */
module Documents {
  import opened Wrappers

  /** The view adds three hours, in milliseconds, to each timestamp. */
  const ShiftMs: int := 3 * 60 * 60 * 1000

  /** A timestamp as the JSON view shows it: shifted when present, absent when absent. */
  function Shift(t: Option<int>): (r: Option<int>)
    ensures r.Some? <==> t.Some?
    ensures t.Some? ==> r.value - t.value == 10800000
  {
    match t
    case None => None
    case Some(ms) => Some(ms + ShiftMs)
  }

  /** Moves a shown timestamp back to the stored one; shifting again gives the shown one. */
  function Unshift(t: Option<int>): (r: Option<int>)
    ensures Shift(r) == t
  {
    match t
    case None => None
    case Some(ms) => Some(ms - ShiftMs)
  }

  lemma UnshiftShift(t: Option<int>)
    ensures Unshift(Shift(t)) == t
  {
  }
}
