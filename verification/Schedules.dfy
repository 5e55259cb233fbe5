// The due-window arithmetic of pkg/channel-review/src/automation/schedule.ts, on days of 24 hours. An instant is a
// number of milliseconds of local time since the midnight that began some Monday.
module Schedules {
  import opened Options

  const DAY := 86_400_000
  const HOUR := 3_600_000
  const MINUTE := 60_000

  datatype Every = Daily | Weekly(day: nat)   // 0 is Monday

  /** A schedule as the configuration allows it: hours of 0 to 23, minutes of 0 to 59. */
  datatype Schedule = Schedule(every: Every, startHour: nat, startMinute: nat, endHour: nat, endMinute: nat)
  {
    predicate Valid() {
      && startHour < 24 && startMinute < 60 && endHour < 24 && endMinute < 60
      && (every.Weekly? ==> every.day < 7)
    }

    predicate CrossesMidnight() {
      endHour * 60 + endMinute <= startHour * 60 + startMinute
    }
  }

  datatype Window = Window(start: int, end: int)

  /** The window that begins on a day, whether or not the schedule has one that day. */
  function WindowOn(s: Schedule, day: int): Window {
    Window(day * DAY + s.startHour * HOUR + s.startMinute * MINUTE,
           (day + if s.CrossesMidnight() then 1 else 0) * DAY + s.endHour * HOUR + s.endMinute * MINUTE)
  }

  /** The days whose windows count. */
  predicate Chosen(s: Schedule, day: int) {
    s.every.Daily? || day % 7 == s.every.day
  }

  predicate Contains(w: Window, now: int) {
    w.start <= now < w.end
  }

  /** The window of today, else the one of yesterday, that holds the instant. */
  function DueWindow(now: int, s: Schedule): Option<Window> {
    var today := now / DAY;
    if Chosen(s, today) && Contains(WindowOn(s, today), now) then Some(WindowOn(s, today))
    else if Chosen(s, today - 1) && Contains(WindowOn(s, today - 1), now) then Some(WindowOn(s, today - 1))
    else None
  }

  /** A window lasts more than nothing and at most a day, so those of different days never meet. */
  lemma WindowShape(s: Schedule, day: int)
    requires s.Valid()
    ensures var w := WindowOn(s, day);
      day * DAY <= w.start < (day + 1) * DAY && w.start < w.end <= w.start + DAY
  {
  }

  /** The clock: the window begins on its day at the time of the start, and ends when it next shows the time of the end. */
  lemma WindowClock(s: Schedule, day: int)
    requires s.Valid()
    ensures var w := WindowOn(s, day);
      && w.start / 86_400_000 == day
      && w.start % 86_400_000 == (s.startHour * 60 + s.startMinute) * 60_000
      && w.end % 86_400_000 == (s.endHour * 60 + s.endMinute) * 60_000
      && forall t :: w.start < t < w.end ==> t % 86_400_000 != w.end % 86_400_000
  {
    var w := WindowOn(s, day);
    WindowShape(s, day);
    TimeOfDay(day, s.startHour * HOUR + s.startMinute * MINUTE);
    TimeOfDay(day + if s.CrossesMidnight() then 1 else 0, s.endHour * HOUR + s.endMinute * MINUTE);
    forall t | w.start < t < w.end
      ensures t % 86_400_000 != w.end % 86_400_000
    {
      NotYet(t, w.end);
    }
  }

  lemma TimeOfDay(day: int, time: int)
    requires 0 <= time < DAY
    ensures (day * DAY + time) / 86_400_000 == day && (day * DAY + time) % 86_400_000 == time
  {
  }

  lemma NotYet(t: int, end: int)
    requires 0 < end - t < 86_400_000
    ensures t % 86_400_000 != end % 86_400_000
  {
  }

  /** Something is due only in a window that began today or yesterday, and for a weekly schedule on its day of the week. */
  lemma DueOnItsDay(now: int, s: Schedule)
    requires s.Valid() && DueWindow(now, s).Some?
    ensures var w := DueWindow(now, s).value;
      && w.start <= now < w.end
      && (s.every.Weekly? ==> w.start / 86_400_000 % 7 == s.every.day)
  {
    WindowShape(s, now / DAY);
    WindowShape(s, now / DAY - 1);
    WindowClock(s, now / DAY);
    WindowClock(s, now / DAY - 1);
  }

  /** And in such a window, something is due. */
  lemma DueIfInWindow(now: int, s: Schedule, day: int)
    requires s.Valid() && (s.every.Weekly? ==> day % 7 == s.every.day)
    requires WindowOn(s, day).start <= now < WindowOn(s, day).end
    ensures DueWindow(now, s) == Some(WindowOn(s, day))
  {
    DueWindowIsTheOne(now, s, day);
  }

  lemma OneDay(s: Schedule, now: int, day: int)
    requires s.Valid() && Contains(WindowOn(s, day), now)
    ensures day == now / DAY || day == now / DAY - 1
  {
    WindowShape(s, day);
  }

  /**
   * `DueWindow` is the one window of the whole endless family that holds the
   * instant, and nothing exactly when no window of the family does.
   */
  lemma DueWindowIsTheOne(now: int, s: Schedule, day: int)
    requires s.Valid()
    ensures Chosen(s, day) && Contains(WindowOn(s, day), now) ==> DueWindow(now, s) == Some(WindowOn(s, day))
    ensures DueWindow(now, s).Some? <==> exists d :: Chosen(s, d) && Contains(WindowOn(s, d), now)
    ensures DueWindow(now, s).Some? ==>
      exists d :: Chosen(s, d) && Contains(WindowOn(s, d), now) && DueWindow(now, s).value == WindowOn(s, d)
  {
    var today := now / DAY;
    if exists d :: Chosen(s, d) && Contains(WindowOn(s, d), now) {
      var d :| Chosen(s, d) && Contains(WindowOn(s, d), now);
      OneDay(s, now, d);
      WindowShape(s, today);
      WindowShape(s, today - 1);
    }
    if Chosen(s, day) && Contains(WindowOn(s, day), now) {
      OneDay(s, now, day);
      Apart(s, today - 1, today);
    }
  }

  /** Windows of different days are disjoint, and in the order of their days. */
  lemma Apart(s: Schedule, earlier: int, later: int)
    requires s.Valid() && earlier < later
    ensures WindowOn(s, earlier).end <= WindowOn(s, later).start
  {
    WindowShape(s, earlier);
    assert (earlier + 1) * DAY <= later * DAY;
  }

  /** As time goes on, the due window never goes back; and one start is the start of one window. */
  lemma DueWindowAdvances(before: int, after: int, s: Schedule)
    requires s.Valid() && before <= after && DueWindow(before, s).Some? && DueWindow(after, s).Some?
    ensures DueWindow(before, s).value.start <= DueWindow(after, s).value.start
    ensures DueWindow(before, s).value.start == DueWindow(after, s).value.start ==> DueWindow(before, s) == DueWindow(after, s)
  {
    DueWindowIsTheOne(before, s, 0);
    DueWindowIsTheOne(after, s, 0);
    var d :| Chosen(s, d) && Contains(WindowOn(s, d), before) && DueWindow(before, s).value == WindowOn(s, d);
    var e :| Chosen(s, e) && Contains(WindowOn(s, e), after) && DueWindow(after, s).value == WindowOn(s, e);
    if e < d {
      Apart(s, e, d);
    } else if d < e {
      Apart(s, d, e);
      WindowShape(s, d);
    }
  }

  /** A window of 24 hours leaves no gap: something is due at every instant of a daily schedule. */
  lemma AllDayIsAlwaysDue(now: int, s: Schedule)
    requires s.Valid() && s.every.Daily?
    ensures s.startHour == s.endHour && s.startMinute == s.endMinute <==> forall t :: DueWindow(t, s).Some?
    ensures s.startHour == s.endHour && s.startMinute == s.endMinute ==> DueWindow(now, s).Some?
  {
    if s.startHour == s.endHour && s.startMinute == s.endMinute {
      forall t ensures DueWindow(t, s).Some? {
        assert (t / DAY) * DAY <= t < (t / DAY + 1) * DAY;
      }
    } else {
      var gap := WindowOn(s, 0).end;
      DueWindowIsTheOne(gap, s, 0);
      if DueWindow(gap, s).Some? {
        var d :| Chosen(s, d) && Contains(WindowOn(s, d), gap) && DueWindow(gap, s).value == WindowOn(s, d);
        if d < 0 { Apart(s, d, 0); WindowShape(s, 0); }
        if d > 0 { Apart(s, 0, d); }
        if d > 1 { Apart(s, 1, d); WindowShape(s, 1); }
        assert false;
      }
    }
  }
}
