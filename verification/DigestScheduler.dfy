/** The daily and weekly digests (src/msgate/ops/digest_scheduler.py). */
module DigestScheduling {
  import opened Options

  // ----- time, settings and the stored markers -----

  datatype Period = Daily | Weekly

  /** Days are counted from a Monday, so that ISO weeks are blocks of seven. */
  datatype Instant = Instant(day: nat, hour: nat)

  /** The date or the ISO week that a digest sent now is for. */
  function Key(p: Period, now: Instant): nat {
    if p.Daily? then now.day else now.day / 7
  }

  datatype Markers = Markers(daily: Option<nat>, weekly: Option<nat>)

  function Marker(st: Markers, p: Period): Option<nat> {
    if p.Daily? then st.daily else st.weekly
  }

  function Mark(st: Markers, p: Period, key: nat): Markers {
    if p.Daily? then st.(daily := Some(key)) else st.(weekly := Some(key))
  }

  /** `hasEmail`: the administrator's address is not blank. Hour and weekday are whatever was stored. */
  datatype Settings = Settings(hasEmail: bool, daily: bool, weekly: bool, hour: int, weekday: int)

  predicate IsEnabled(ops: Settings, p: Period) {
    if p.Daily? then ops.daily else ops.weekly
  }

  /** `max(0, min(most, x))` */
  function Clamp(x: int, most: nat): nat {
    if x < 0 then 0 else if x > most then most else x
  }

  /** The time of day, and for the weekly digest the weekday, has come. */
  predicate HasCome(ops: Settings, now: Instant, p: Period) {
    && now.hour >= Clamp(ops.hour, 23)
    && (p.Weekly? ==> now.day % 7 == Clamp(ops.weekday, 6))
  }

  predicate IsDue(ops: Settings, st: Markers, now: Instant, p: Period) {
    HasCome(ops, now, p) && Marker(st, p) != Some(Key(p, now))
  }

  // ----- one tick -----

  /** What collecting and sending one digest does, and whether the marker could be saved afterwards. */
  datatype Dispatch = Accepted | Refused | Raised
  datatype Outcome = Outcome(dispatch: Dispatch, saved: bool)

  datatype Tick = Tick(now: Instant, ops: Settings, daily: Outcome, weekly: Outcome)

  function OutcomeOf(t: Tick, p: Period): Outcome {
    if p.Daily? then t.daily else t.weekly
  }

  /** The markers after one period was looked at, and whether an exception ended the tick there. */
  datatype Turn = Turn(st: Markers, raised: bool)

  function LookAt(st: Markers, t: Tick, p: Period): Turn {
    if !IsEnabled(t.ops, p) || !IsDue(t.ops, st, t.now, p) then Turn(st, false)
    else
      match OutcomeOf(t, p).dispatch
      case Raised => Turn(st, true)
      case Refused => Turn(st, false)
      case Accepted => if OutcomeOf(t, p).saved then Turn(Mark(st, p, Key(p, t.now)), false) else Turn(st, true)
  }

  function AfterTick(st: Markers, t: Tick): Turn {
    if !t.ops.hasEmail then Turn(st, false)
    else
      var daily := LookAt(st, t, Daily);
      if daily.raised then daily else LookAt(daily.st, t, Weekly)
  }

  /** The tick gets as far as looking at this period. */
  predicate Reaches(st: Markers, t: Tick, p: Period) {
    t.ops.hasEmail && (p.Weekly? ==> !LookAt(st, t, Daily).raised)
  }

  predicate Attempts(st: Markers, t: Tick, p: Period) {
    Reaches(st, t, p) && IsEnabled(t.ops, p) && IsDue(t.ops, st, t.now, p)
  }

  /** The digest goes out. */
  predicate Sends(st: Markers, t: Tick, p: Period) {
    Attempts(st, t, p) && OutcomeOf(t, p).dispatch.Accepted?
  }

  /** The digest goes out and is remembered. */
  predicate Remembers(st: Markers, t: Tick, p: Period) {
    Sends(st, t, p) && OutcomeOf(t, p).saved
  }

  /**
   A tick changes a marker exactly when it sends that digest and can save the marker, and then to the present date or
   week; whatever the other period does in the same tick, its marker is not lost.
   */
  lemma MarkersFollowSends(st: Markers, t: Tick, p: Period)
    ensures Marker(AfterTick(st, t).st, p) == if Remembers(st, t, p) then Some(Key(p, t.now)) else Marker(st, p)
  {
    var daily := LookAt(st, t, Daily);
    assert daily.st.weekly == st.weekly;
    assert LookAt(daily.st, t, Weekly).st.daily == daily.st.daily;
  }

  /** A digest that did not go out, or that could not be remembered, is due again at every later hour of that date. */
  lemma FailureStaysDue(st: Markers, t: Tick, p: Period, later: Instant)
    requires Attempts(st, t, p) && !Remembers(st, t, p)
    requires later.day == t.now.day && later.hour >= t.now.hour
    ensures IsDue(t.ops, AfterTick(st, t).st, later, p)
  {
    MarkersFollowSends(st, t, p);
  }

  // ----- runs -----

  function Run(st: Markers, ticks: seq<Tick>): Markers {
    if ticks == [] then st else AfterTick(Run(st, ticks[..|ticks| - 1]), ticks[|ticks| - 1]).st
  }

  /** The markers that tick number `n` finds. */
  function Before(st: Markers, ticks: seq<Tick>, n: nat): Markers
    requires n <= |ticks|
  {
    Run(st, ticks[..n])
  }

  /** The clock never goes back to an earlier date; settings and outcomes are free. */
  ghost predicate GoesForward(ticks: seq<Tick>) {
    forall i, j :: 0 <= i <= j < |ticks| ==> ticks[i].now.day <= ticks[j].now.day
  }

  function SendsFor(st: Markers, ticks: seq<Tick>, p: Period, key: nat): nat {
    if ticks == [] then 0
    else
      var n := |ticks| - 1;
      SendsFor(st, ticks[..n], p, key)
      + if Key(p, ticks[n].now) == key && Sends(Before(st, ticks, n), ticks[n], p) then 1 else 0
  }

  /** How often a digest for `key` went out without its marker being saved. */
  function LostFor(st: Markers, ticks: seq<Tick>, p: Period, key: nat): nat {
    if ticks == [] then 0
    else
      var n := |ticks| - 1;
      var before := Before(st, ticks, n);
      LostFor(st, ticks[..n], p, key)
      + if Key(p, ticks[n].now) == key && Sends(before, ticks[n], p) && !Remembers(before, ticks[n], p) then 1 else 0
  }

  lemma KeysFollowDays(p: Period, a: Instant, b: Instant)
    requires a.day <= b.day
    ensures Key(p, a) <= Key(p, b)
  {
  }

  /** Some tick of the run remembered having sent the digest for `key`. */
  ghost predicate Remembered(st: Markers, ticks: seq<Tick>, p: Period, key: nat) {
    exists k :: 0 <= k < |ticks| && RemembersAt(st, ticks, p, key, k)
  }

  predicate RemembersAt(st: Markers, ticks: seq<Tick>, p: Period, key: nat, k: nat)
    requires k < |ticks|
  {
    Key(p, ticks[k].now) == key && Remembers(Before(st, ticks, k), ticks[k], p)
  }

  lemma RememberedOneMore(st: Markers, ticks: seq<Tick>, p: Period, key: nat)
    requires ticks != []
    ensures var n := |ticks| - 1;
            Remembered(st, ticks, p, key) <==> Remembered(st, ticks[..n], p, key) || RemembersAt(st, ticks, p, key, n)
  {
    var n := |ticks| - 1;
    forall k | 0 <= k < n ensures RemembersAt(st, ticks, p, key, k) == RemembersAt(st, ticks[..n], p, key, k) {
      assert ticks[..n][..k] == ticks[..k];
    }
  }

  ghost predicate NothingRemembered(st: Markers, ticks: seq<Tick>, p: Period) {
    forall k :: 0 <= k < |ticks| ==> !Remembers(Before(st, ticks, k), ticks[k], p)
  }

  lemma NothingOneMore(st: Markers, ticks: seq<Tick>, p: Period)
    requires ticks != []
    ensures var n := |ticks| - 1;
            NothingRemembered(st, ticks, p) <==>
              NothingRemembered(st, ticks[..n], p) && !Remembers(Before(st, ticks, n), ticks[n], p)
  {
    var n := |ticks| - 1;
    forall k | 0 <= k < n ensures Before(st, ticks[..n], k) == Before(st, ticks, k) && ticks[..n][k] == ticks[k] {
      assert ticks[..n][..k] == ticks[..k];
    }
    if NothingRemembered(st, ticks, p) {
      forall k | 0 <= k < n ensures !Remembers(Before(st, ticks[..n], k), ticks[..n][k], p) {
        assert !Remembers(Before(st, ticks, k), ticks[k], p);
      }
    }
  }

  /**
   The stored marker is exactly the history, as far as it matters: it names a date or week that is not over if and only if
   a digest for it went out and was remembered in this run, or it was stored before the run and nothing was remembered
   since.
   */
  lemma {:induction false} MarkerIsHistory(st: Markers, ticks: seq<Tick>, p: Period, key: nat)
    requires GoesForward(ticks) && forall k :: 0 <= k < |ticks| ==> Key(p, ticks[k].now) <= key
    ensures Marker(Run(st, ticks), p) == Some(key) <==>
              Remembered(st, ticks, p, key) || (Marker(st, p) == Some(key) && NothingRemembered(st, ticks, p))
  {
    if ticks != [] {
      var n := |ticks| - 1;
      MarkerIsHistory(st, ticks[..n], p, key);
      MarkersFollowSends(Before(st, ticks, n), ticks[n], p);
      RememberedOneMore(st, ticks, p, key);
      NothingOneMore(st, ticks, p);
      if Remembered(st, ticks[..n], p, key) {
        RememberedHasKey(st, ticks, p, key);
      }
    }
  }

  /** Once a digest for `key` is remembered, the clock never stands before `key` again. */
  lemma RememberedHasKey(st: Markers, ticks: seq<Tick>, p: Period, key: nat)
    requires GoesForward(ticks) && ticks != [] && Remembered(st, ticks[..|ticks| - 1], p, key)
    ensures Key(p, ticks[|ticks| - 1].now) >= key
  {
    var n := |ticks| - 1;
    var k :| 0 <= k < n && RemembersAt(st, ticks[..n], p, key, k);
    KeysFollowDays(p, ticks[k].now, ticks[n].now);
  }

  /**
   At most one digest per date and per ISO week goes out, and one more for every time its marker could not be saved: for
   every run in which the clock does not go back, whatever the settings and failures in between and whatever was stored
   before it.
   */
  lemma {:induction false} OncePerPeriod(st: Markers, ticks: seq<Tick>, p: Period, key: nat)
    requires GoesForward(ticks)
    ensures SendsFor(st, ticks, p, key) == LostFor(st, ticks, p, key) + if Remembered(st, ticks, p, key) then 1 else 0
  {
    if ticks != [] {
      var n := |ticks| - 1;
      OncePerPeriod(st, ticks[..n], p, key);
      RememberedOneMore(st, ticks, p, key);
      if RemembersAt(st, ticks, p, key, n) {
        forall k | 0 <= k < n ensures Key(p, ticks[..n][k].now) <= key {
          KeysFollowDays(p, ticks[k].now, ticks[n].now);
        }
        MarkerIsHistory(st, ticks[..n], p, key);
      }
    }
  }

  /** Nothing is sent before its hour, which counts from 0 to 23, nor a weekly digest on another day than its own. */
  lemma NothingBeforeItsHour(st: Markers, t: Tick, p: Period)
    requires Sends(st, t, p)
    ensures t.now.hour >= 23 || (t.ops.hour <= 22 && t.now.hour >= t.ops.hour)
    ensures p == Weekly ==>
              t.now.day % 7 == if t.ops.weekday < 0 then 0 else if t.ops.weekday > 6 then 6 else t.ops.weekday
    ensures t.ops.hasEmail && (if p == Daily then t.ops.daily else t.ops.weekly)
    ensures if p == Daily then st.daily != Some(t.now.day) else st.weekly != Some(t.now.day / 7)
  {
  }

  /** And an hour that has come is enough: switched on and not yet remembered, the digest is tried, on its day if weekly. */
  lemma TriedAtItsHour(st: Markers, t: Tick, p: Period)
    requires t.ops.hasEmail && (t.now.hour >= t.ops.hour || t.now.hour >= 23)
    requires if p == Daily then t.ops.daily
             else t.ops.weekly && t.now.day % 7 == (if t.ops.weekday < 0 then 0 else if t.ops.weekday > 6 then 6 else t.ops.weekday)
    requires p == Weekly ==> !LookAt(st, t, Daily).raised
    ensures Attempts(st, t, p) <==> if p == Daily then st.daily != Some(t.now.day) else st.weekly != Some(t.now.day / 7)
  {
  }

  /**
   The exact schedule, whatever was stored before the run: a tick tries to send a digest if and only if it gets to look at
   it, the digest is switched on, its hour and weekday have come, and none for the same date or week was remembered earlier
   or is still in the store from before.
   */
  lemma AttemptsIff(st: Markers, ticks: seq<Tick>, n: nat, p: Period)
    requires GoesForward(ticks) && n < |ticks|
    ensures var t := ticks[n];
            var key := Key(p, t.now);
            Attempts(Before(st, ticks, n), t, p) <==>
              && Reaches(Before(st, ticks, n), t, p) && IsEnabled(t.ops, p) && HasCome(t.ops, t.now, p)
              && !Remembered(st, ticks[..n], p, key)
              && !(Marker(st, p) == Some(key) && NothingRemembered(st, ticks[..n], p))
  {
    forall k | 0 <= k < n ensures Key(p, ticks[..n][k].now) <= Key(p, ticks[n].now) {
      KeysFollowDays(p, ticks[k].now, ticks[n].now);
    }
    MarkerIsHistory(st, ticks[..n], p, Key(p, ticks[n].now));
  }

  // ----- why both conditions are needed -----

  /** One lost marker, and the same date is served twice. */
  lemma LostMarkerSendsTwice()
    ensures exists ticks :: GoesForward(ticks) && SendsFor(Markers(None, None), ticks, Daily, 5) == 2
  {
    var ops := Settings(true, true, false, 8, 0);
    var a := Tick(Instant(5, 8), ops, Outcome(Accepted, false), Outcome(Refused, true));
    var b := Tick(Instant(5, 9), ops, Outcome(Accepted, true), Outcome(Refused, true));
    TwoTicks(Markers(None, None), a, b, Daily, 5);
    assert GoesForward([a, b]);
  }

  /** A clock that goes back a day and forward again, and the date is served twice although every marker was saved. */
  lemma ClockGoingBackSendsTwice()
    ensures exists ticks :: SendsFor(Markers(None, None), ticks, Daily, 5) == 2 && LostFor(Markers(None, None), ticks, Daily, 5) == 0
  {
    var ops := Settings(true, true, false, 8, 0);
    var ok := Outcome(Accepted, true);
    var a, b := Tick(Instant(5, 8), ops, ok, ok), Tick(Instant(4, 8), ops, ok, ok);
    var st := Markers(None, None);
    TwoTicks(st, a, b, Daily, 5);
    assert [a, b, a][..2] == [a, b];
    assert Run(st, [a, b]) == Markers(Some(4), None);
    assert SendsFor(st, [a, b, a], Daily, 5) == 2;
  }

  lemma TwoTicks(st: Markers, a: Tick, b: Tick, p: Period, key: nat)
    ensures Run(st, [a]) == AfterTick(st, a).st && Run(st, [a, b]) == AfterTick(AfterTick(st, a).st, b).st
    ensures SendsFor(st, [a, b], p, key) == (if Key(p, a.now) == key && Sends(st, a, p) then 1 else 0)
                                            + (if Key(p, b.now) == key && Sends(AfterTick(st, a).st, b, p) then 1 else 0)
    ensures LostFor(st, [a, b], p, key) == (if Key(p, a.now) == key && Sends(st, a, p) && !Remembers(st, a, p) then 1 else 0)
              + (var one := AfterTick(st, a).st; if Key(p, b.now) == key && Sends(one, b, p) && !Remembers(one, b, p) then 1 else 0)
  {
    assert [a][..0] == [] && [a, b][..1] == [a];
    assert Run(st, []) == st && SendsFor(st, [], p, key) == 0 && LostFor(st, [], p, key) == 0;
    assert Before(st, [a], 0) == st && Before(st, [a, b], 1) == Run(st, [a]);
  }

  // ----- the scheduler -----

  class DigestScheduler {
    var markers: Markers

    constructor ()
      ensures markers == Markers(None, None)
    {
      markers := Markers(None, None);
    }

    /** One evaluation of what is due. The markers are stored one at a time, each into what is stored at that moment. */
    method RunTick(t: Tick) returns (sent: seq<Period>, raised: bool)
      modifies this
      ensures markers == AfterTick(old(markers), t).st && raised == AfterTick(old(markers), t).raised
      ensures forall p :: p in sent <==> Remembers(old(markers), t, p)
      ensures |sent| <= 2 && (|sent| == 2 ==> sent == [Daily, Weekly])
    {
      sent, raised := [], false;
      if !t.ops.hasEmail {
        return;
      }
      var st := markers;
      if t.ops.daily && IsDue(t.ops, st, t.now, Daily) {
        if t.daily.dispatch.Raised? || (t.daily.dispatch.Accepted? && !t.daily.saved) {
          raised := true;
          return;
        }
        if t.daily.dispatch.Accepted? {
          st := markers.(daily := Some(t.now.day));
          markers := st;
          sent := sent + [Daily];
        }
      }
      if t.ops.weekly && IsDue(t.ops, st, t.now, Weekly) {
        if t.weekly.dispatch.Raised? || (t.weekly.dispatch.Accepted? && !t.weekly.saved) {
          raised := true;
          return;
        }
        if t.weekly.dispatch.Accepted? {
          markers := markers.(weekly := Some(t.now.day / 7));
          sent := sent + [Weekly];
        }
      }
    }
  }
}
