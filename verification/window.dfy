/**
 * The admission window of a match (`in_window` in server.py): entry is
 * allowed from `GraceBeforeMin` minutes before the start up to the later
 * of `GraceAfterMin` minutes after the start and the recorded end, both
 * bounds included. Times are whole minutes.
 */
module Window {

  /** Entry opens this many minutes before the start. */
  const GraceBeforeMin: int := 30
  /** Entry stays open at least this many minutes after the start. */
  const GraceAfterMin: int := 15

  function Max(a: int, b: int): (m: int)
    ensures m >= a && m >= b && (m == a || m == b)
  {
    if a >= b then a else b
  }

  /** The last admitted minute: `max(start + GraceAfterMin, end)`. */
  function HardEnd(start: int, end: int): int
  {
    Max(start + GraceAfterMin, end)
  }

  /** Whether a scan at `tScan` falls inside the window of a match running from `start` to `end`. */
  function InWindow(tScan: int, start: int, end: int): (ok: bool)
    ensures ok ==> start - GraceBeforeMin <= tScan
    ensures start - GraceBeforeMin <= tScan <= start + GraceAfterMin ==> ok
    ensures start - GraceBeforeMin <= tScan <= end ==> ok
    ensures ok <==> start - GraceBeforeMin <= tScan <= HardEnd(start, end)
  {
    var early := start - GraceBeforeMin;
    var late := start + GraceAfterMin;
    var hardEnd := Max(late, end);
    early <= tScan <= hardEnd
  }

  /**
   * The window is the union of the grace period around the start and the
   * span from the opening to the recorded end; a recorded end earlier than
   * `start + GraceAfterMin` never shortens it.
   */
  lemma InWindowIsUnion(tScan: int, start: int, end: int)
    ensures InWindow(tScan, start, end) <==>
      (start - GraceBeforeMin <= tScan <= start + GraceAfterMin) ||
      (start - GraceBeforeMin <= tScan <= end)
    ensures end <= start + GraceAfterMin ==>
      (InWindow(tScan, start, end) <==> start - GraceBeforeMin <= tScan <= start + GraceAfterMin)
  {
  }

  /** Both bounds are inclusive, and one minute outside either is refused. */
  lemma InWindowBounds(start: int, end: int)
    ensures InWindow(start - GraceBeforeMin, start, end)
    ensures !InWindow(start - GraceBeforeMin - 1, start, end)
    ensures InWindow(HardEnd(start, end), start, end)
    ensures !InWindow(HardEnd(start, end) + 1, start, end)
  {
  }

  /** The admitted minutes form one interval: any time between two admitted times is admitted. */
  lemma InWindowConvex(t1: int, t: int, t2: int, start: int, end: int)
    requires t1 <= t <= t2
    requires InWindow(t1, start, end) && InWindow(t2, start, end)
    ensures InWindow(t, start, end)
  {
  }
}
