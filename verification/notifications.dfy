/**
  `send_scheduled_notifications`: one pass over the scheduled course sessions
  that have not been notified yet, mailing a reminder for each one whose
  notification time has come and marking it sent when the mail goes out.

  Instants are whole seconds on one clock. Whether a mail goes out is not
  decided here: the sweep takes, per row, whether `send_email` returned or raised.
 */
module Notifications {
  import opened CourseModels

  /** A `ScheduledCourse` row. */
  datatype Schedule = Schedule(
    user: Id,
    course: Id,
    scheduledTime: int,
    notifyBeforeMinutes: nat,
    notificationSent: bool)

  /** `get_notification_time`: the scheduled instant, `notify_before_minutes` earlier. */
  function NotificationTime(sc: Schedule): (t: int)
    ensures t <= sc.scheduledTime
    ensures sc.scheduledTime - t == 60 * sc.notifyBeforeMinutes
  {
    sc.scheduledTime - sc.notifyBeforeMinutes * 60
  }

  /** Rows the sweep mails: still unsent (the query) and due (the `if`). */
  predicate Pending(sc: Schedule, now: int) {
    !sc.notificationSent && NotificationTime(sc) <= now
  }

  /** The rows after the pass, and the positions of the rows a reminder was attempted for. */
  datatype Swept = Swept(rows: seq<Schedule>, attempted: seq<nat>)

  predicate Increasing(s: seq<nat>) {
    forall k, l :: 0 <= k < l < |s| ==> s[k] < s[l]
  }

  /**
    One pass at instant `now`; `delivered[i]` says whether the mail for row `i`
    went out. Each pending row is attempted, in order; a delivered one has its
    flag set and nothing else touched; a failed one is left as it was, and the
    pass goes on.
   */
  function Sweep(rows: seq<Schedule>, now: int, delivered: seq<bool>): (r: Swept)
    requires |delivered| == |rows|
    ensures |r.rows| == |rows|
    ensures forall i :: 0 <= i < |rows| ==>
              r.rows[i] == rows[i].(notificationSent := r.rows[i].notificationSent)
    ensures forall i :: 0 <= i < |rows| ==>
              (r.rows[i].notificationSent <==> rows[i].notificationSent || (Pending(rows[i], now) && delivered[i]))
    ensures forall i :: i in r.attempted <==> 0 <= i < |rows| && Pending(rows[i], now)
    ensures Increasing(r.attempted)
    decreases |rows|
  {
    if |rows| == 0 then Swept([], [])
    else
      var n := |rows| - 1;
      var p := Sweep(rows[..n], now, delivered[..n]);
      var sc := rows[n];
      if Pending(sc, now) then
        assert forall k :: 0 <= k < |p.attempted| ==> p.attempted[k] in p.attempted;
        Swept(p.rows + [sc.(notificationSent := delivered[n])], p.attempted + [n])
      else
        Swept(p.rows + [sc], p.attempted)
  }

  /** A pass over rows none of which is pending is a no-op. */
  lemma {:induction false} SweepQuiet(rows: seq<Schedule>, now: int, delivered: seq<bool>)
    requires |delivered| == |rows|
    requires forall i :: 0 <= i < |rows| ==> !Pending(rows[i], now)
    ensures Sweep(rows, now, delivered) == Swept(rows, [])
    decreases |rows|
  {
    if |rows| > 0 {
      var n := |rows| - 1;
      SweepQuiet(rows[..n], now, delivered[..n]);
      assert rows[..n] + [rows[n]] == rows;
    }
  }

  /** With every mail delivered, a second pass at the same instant changes nothing and mails nobody. */
  lemma SweepTwiceIsOnce(rows: seq<Schedule>, now: int, delivered: seq<bool>, again: seq<bool>)
    requires |delivered| == |rows| == |again|
    requires forall i :: 0 <= i < |delivered| ==> delivered[i]
    ensures var once := Sweep(rows, now, delivered).rows;
            Sweep(once, now, again) == Swept(once, [])
  {
    var once := Sweep(rows, now, delivered).rows;
    var twice := Sweep(once, now, again);
    forall i | 0 <= i < |once|
      ensures !Pending(once[i], now)
    {
    }
    SweepQuiet(once, now, again);
  }

  /** A pass never clears a flag: an already-notified row is never mailed again. */
  lemma SweepNeverResends(rows: seq<Schedule>, now: int, delivered: seq<bool>, i: nat)
    requires |delivered| == |rows| && i < |rows| && rows[i].notificationSent
    ensures Sweep(rows, now, delivered).rows[i] == rows[i]
    ensures i !in Sweep(rows, now, delivered).attempted
  {
  }

  /** A session at or past its scheduled time is always due, whatever its lead time. */
  lemma PastScheduleIsDue(sc: Schedule, now: int)
    requires !sc.notificationSent && sc.scheduledTime <= now
    ensures Pending(sc, now)
  {
  }
}
