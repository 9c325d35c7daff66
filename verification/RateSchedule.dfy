/**
 The virtual schedule behind the token bucket.

 A destination that has been promised probes up to the line `w` has `x - w` tokens at
 tick `x`, never more than the burst: one number stands for the whole bucket. The spacing
 of releases is proved on that schedule.
 */
module RateSchedule {
  import opened Common
  import opened RateIsolation

  datatype Schedule = Fresh | Line(w: real)

  function Credit(q: Pace, s: Schedule, x: real): real {
    match s
    case Fresh => q.burst
    case Line(w) => MinReal(q.burst, x - w)
  }

  function Advanced(q: Pace, s: Schedule, x: real): Schedule {
    if Grants(q, Credit(q, s, x)) then Line(x - Credit(q, s, x) + 1.0) else s
  }

  function ScheduleOf(q: Pace, ticks: seq<real>): Schedule {
    if ticks == [] then Fresh
    else Advanced(q, ScheduleOf(q, ticks[..|ticks| - 1]), ticks[|ticks| - 1])
  }

  /** A bucket is kept long enough to be full again before it is dropped. */
  predicate Roomy(q: Pace) {
    q.idle - q.wait >= q.burst
  }

  /** The cell agrees with the schedule, and the line is never further ahead than the longest wait. */
  ghost predicate Scheduled(q: Pace, c: Cell, s: Schedule) {
    && c.tokens == Credit(q, s, c.at) <= q.burst
    && (s.Line? ==> s.w <= c.at + q.wait)
  }

  lemma {:induction false} CellFollows(q: Pace, evicting: bool, ticks: seq<real>)
    requires Rising(ticks) && ticks != [] && q.wait >= 0.0
    requires evicting ==> Roomy(q)
    ensures Scheduled(q, CellOf(q, evicting, ticks).value, ScheduleOf(q, ticks))
  {
    var n := |ticks| - 1;
    if n > 0 {
      CellFollows(q, evicting, ticks[..n]);
    }
  }

  /** The token bucket refines the virtual schedule, whether or not it evicts. */
  lemma FollowsSchedule(q: Pace, evicting: bool, ticks: seq<real>, x: real)
    requires Rising(ticks) && UpTo(ticks, x) && q.wait >= 0.0
    requires evicting ==> Roomy(q)
    ensures Standing(q, evicting, ticks, x) == Credit(q, ScheduleOf(q, ticks), x)
  {
    if ticks != [] {
      CellFollows(q, evicting, ticks);
    }
  }

  // ---------------------------------------------------------------- spacing

  /** A granted call proceeds at the later of now and the new line. */
  function Marked(q: Pace, s: Schedule, x: real, marks: seq<real>): seq<real> {
    if Grants(q, Credit(q, s, x)) then marks + [MaxReal(x, Advanced(q, s, x).w)] else marks
  }

  /** When the granted calls proceed, on the token clock. */
  function Marks(q: Pace, ticks: seq<real>): seq<real> {
    if ticks == [] then []
    else
      var n := |ticks| - 1;
      Marked(q, ScheduleOf(q, ticks[..n]), ticks[n], Marks(q, ticks[..n]))
  }

  /** How far the burst lets a release run ahead of the sustained rate, in tokens. */
  function Head(burst: real): real {
    MaxReal(1.0, burst)
  }

  /** Releases `i..j` cost their tokens, except for one burst, and never go back. */
  ghost predicate Spaced(head: real, marks: seq<real>) {
    forall i, j :: 0 <= i <= j < |marks| ==>
      marks[j] - marks[i] >= (j - i + 1) as real - head && marks[i] <= marks[j]
  }

  /** The line bounds every mark made so far, and the latest one from both sides. */
  ghost predicate Behind(head: real, marks: seq<real>, s: Schedule, x: real) {
    && (s.Fresh? <==> marks == [])
    && (marks != [] ==> s.w <= marks[|marks| - 1] <= MaxReal(x, s.w))
    && (s.Line? ==> forall i :: 0 <= i < |marks| ==> marks[i] <= s.w - (|marks| - i) as real + head)
  }

  lemma {:induction false} MarksSpaced(q: Pace, ticks: seq<real>)
    requires Rising(ticks) && ticks != []
    ensures Behind(Head(q.burst), Marks(q, ticks), ScheduleOf(q, ticks), ticks[|ticks| - 1])
    ensures Spaced(Head(q.burst), Marks(q, ticks))
  {
    var n := |ticks| - 1;
    if n == 0 {
      assert ticks[..n] == [];
    } else {
      MarksSpaced(q, ticks[..n]);
    }
  }
}
