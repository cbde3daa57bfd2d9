/** The countdown timer: starting, the once-a-second tick, the background
    task's tick, reset, the completed-session log and its deletions. */
module Timer {
  import opened Common
  import opened Records
  import opened Storage
  import opened Clock

  /** `hours * 3600 + minutes * 60 + seconds`. */
  function TotalSeconds(h: nat, m: nat, s: nat): (r: nat)
    ensures r == 0 <==> h == 0 && m == 0 && s == 0
  {
    h * 3600 + m * 60 + s
  }

  /** With the pickers' bounds the countdown starts under a day, and its first
      display shows exactly the picked hours, minutes and seconds. */
  lemma StartDisplaysPicked(h: nat, m: nat, s: nat)
    requires h < 24 && m < 60 && s < 60
    ensures TotalSeconds(h, m, s) < 24 * 3600
    ensures var t := TotalSeconds(h, m, s);
      t < 100 * 3600 && |FormatClock(t)| == 8
      && AllDigits(FormatClock(t)[0..2]) && AllDigits(FormatClock(t)[3..5]) && AllDigits(FormatClock(t)[6..8])
      && ClockFields(FormatClock(t)) == (h, m, s)
  {
    var t := TotalSeconds(h, m, s);
    HourSplit(t, h, m * 60 + s);
    MinuteSplit(m * 60 + s, m, s);
    FormatClockReadsBack(t);
  }

  /** One tick of the foreground interval on `(timeLeft, isRunning)`; the
      flag says whether the tick saved a session. The interval only exists
      while the timer runs, so a stopped timer does not move. */
  function TickStep(st: TimerState): (r: (TimerState, bool))
    ensures !st.isRunning ==> r == (st, false)
    ensures st.isRunning && st.timeLeft > 0 ==> r == (TimerState(st.timeLeft - 1, true), false)
    ensures st.isRunning && st.timeLeft <= 0 ==> r == (TimerState(0, false), true)
    ensures st.isRunning ==> r.0.timeLeft >= 0
  {
    if !st.isRunning then (st, false)
    else if st.timeLeft <= 0 then (TimerState(0, false), true)
    else (TimerState(st.timeLeft - 1, true), false)
  }

  /** `k` ticks in a row, with the number of sessions they saved. */
  function Ticks(st: TimerState, k: nat): (r: (TimerState, nat))
    ensures r.1 <= k
    decreases k
  {
    if k == 0 then (st, 0)
    else
      var (next, saved) := TickStep(st);
      var (last, count) := Ticks(next, k - 1);
      (last, count + if saved then 1 else 0)
  }

  /** A stopped timer stays as it is, however many ticks go by. */
  lemma {:induction false} StoppedStays(st: TimerState, k: nat)
    requires !st.isRunning
    ensures Ticks(st, k) == (st, 0)
  {
    if k > 0 {
      StoppedStays(st, k - 1);
    }
  }

  /** A running countdown from `n` shows `n - k` after `k <= n` ticks and has
      saved nothing yet. */
  lemma {:induction false} CountsDown(n: nat, k: nat)
    requires k <= n
    ensures Ticks(TimerState(n, true), k) == (TimerState(n - k, true), 0)
  {
    if k > 0 {
      CountsDown(n - 1, k - 1);
    }
  }

  /** A countdown from `n` stops at 0 after `n + 1` ticks, having saved
      exactly one session, and then stays stopped. */
  lemma {:induction false} CountdownSavesOnce(n: nat, extra: nat)
    ensures Ticks(TimerState(n, true), n + 1) == (TimerState(0, false), 1)
    ensures Ticks(TimerState(n, true), n + 1 + extra) == (TimerState(0, false), 1)
  {
    var k := n + 1 + extra;
    if n == 0 {
      StoppedStays(TimerState(0, false), extra);
      StoppedStays(TimerState(0, false), 0);
    } else {
      CountdownSavesOnce(n - 1, extra);
      assert k - 1 == (n - 1) + 1 + extra;
    }
  }

  /** The background task on the stored state: it acts only on a stored,
      running timer with time left, takes one second off, keeps it running
      only while time is left, and asks for a notification exactly when the
      time runs out. */
  function BackgroundStep(stored: Option<TimerState>): (r: (Option<TimerState>, bool))
    ensures !(stored.Some? && stored.value.isRunning && stored.value.timeLeft > 0) ==> r == (stored, false)
    ensures stored.Some? && stored.value.isRunning && stored.value.timeLeft > 0 ==>
      r.0 == Some(TimerState(stored.value.timeLeft - 1, stored.value.timeLeft > 1))
      && (r.1 <==> stored.value.timeLeft == 1)
    ensures r.0.Some? ==> r.0.value.isRunning ==> r.0.value.timeLeft > 0 || stored == r.0
  {
    match stored
    case Some(TimerState(t, true)) =>
      if t > 0 then
        var next := t - 1;
        (Some(TimerState(next, next > 0)), next <= 0)
      else (stored, false)
    case _ => (stored, false)
  }

  /** `k` runs of the background task, with the notifications they sent. */
  function BackgroundSteps(stored: Option<TimerState>, k: nat): (r: (Option<TimerState>, nat))
    ensures r.1 <= k
    decreases k
  {
    if k == 0 then (stored, 0)
    else
      var (next, notify) := BackgroundStep(stored);
      var (last, count) := BackgroundSteps(next, k - 1);
      (last, count + if notify then 1 else 0)
  }

  /** Left alone in the background, a running timer with `n > 0` seconds is
      stopped at 0 after `n` runs, with exactly one notification, and later
      runs change nothing. */
  lemma {:induction false} BackgroundFinishes(n: nat, extra: nat)
    requires n > 0
    ensures BackgroundSteps(Some(TimerState(n, true)), n + extra) == (Some(TimerState(0, false)), 1)
  {
    if n == 1 {
      BackgroundIdle(Some(TimerState(0, false)), extra);
    } else {
      BackgroundFinishes(n - 1, extra);
    }
  }

  /** A stored timer that is stopped is never touched by the background task. */
  lemma {:induction false} BackgroundIdle(stored: Option<TimerState>, k: nat)
    requires stored.None? || !stored.value.isRunning
    ensures BackgroundSteps(stored, k) == (stored, 0)
  {
    if k > 0 {
      BackgroundIdle(stored, k - 1);
    }
  }

  /** The stored session log; a missing key reads as empty. */
  function StoredSessions(stored: Option<seq<Session>>): (r: seq<Session>)
    ensures stored.None? ==> r == []
    ensures stored.Some? ==> r == stored.value
  {
    if stored.Some? then stored.value else []
  }

  /** The session `saveSession` records: an empty title becomes "Untitled",
      the duration is the picked time as text, the two times are given. */
  function NewSession(title: string, h: nat, m: nat, s: nat, startTime: string, endTime: string): (r: Session)
    ensures r.title != []
    ensures title != [] ==> r.title == title
    ensures title == [] ==> r.title == "Untitled"
    ensures r.duration == DurationText(h, m, s)
    ensures r.startTime == startTime && r.endTime == endTime
  {
    Session(if title == "" then "Untitled" else title, DurationText(h, m, s), startTime, endTime)
  }

  /** What `deleteSession` writes, as written: the displayed list, which runs
      newest first, minus the entry. */
  function PersistedAfterDeleteAsWritten(displayed: seq<Session>, index: int): (r: seq<Session>)
    ensures 0 <= index < |displayed| ==> |r| == |displayed| - 1
  {
    RemoveAt(displayed, index)
  }

  /** What a delete should write: the remaining list turned back into the
      stored oldest-first order. */
  function PersistedAfterDelete(displayed: seq<Session>, index: int): (r: seq<Session>)
    ensures 0 <= index < |displayed| ==> |r| == |displayed| - 1
  {
    Reverse(RemoveAt(displayed, index))
  }

  /** As written, reopening the timer after a delete shows the remaining
      sessions oldest first: three sessions are logged, the newest is deleted,
      and the reloaded list is not the one that was displayed. */
  lemma DeleteAsWrittenFlipsOrder()
    ensures var a, b, c := Session("a", "0h 1m 0s", "", ""), Session("b", "0h 1m 0s", "", ""),
                           Session("c", "0h 1m 0s", "", "");
      var displayed := Reverse([a, b, c]);
      displayed == [c, b, a]
      && RemoveAt(displayed, 0) == [b, a]
      && Reverse(PersistedAfterDeleteAsWritten(displayed, 0)) == [a, b]
      && Reverse(PersistedAfterDeleteAsWritten(displayed, 0)) != RemoveAt(displayed, 0)
  {
    var a, b, c := Session("a", "0h 1m 0s", "", ""), Session("b", "0h 1m 0s", "", ""),
                   Session("c", "0h 1m 0s", "", "");
    var displayed := Reverse([a, b, c]);
    assert displayed == [c, b, a];
    assert RemoveAt(displayed, 0) == [b, a];
    assert Reverse([b, a]) == [a, b];
    assert [a, b][0] != [b, a][0];
  }

  /** With the corrected write, reopening the timer shows exactly the list
      that was displayed after the delete. */
  lemma DeleteReloadKeepsDisplay(displayed: seq<Session>, index: int)
    ensures Reverse(PersistedAfterDelete(displayed, index)) == RemoveAt(displayed, index)
  {
    ReverseInvolution(RemoveAt(displayed, index));
  }

  /** Deleting entry `index` of the newest-first display removes entry
      `|stored| - 1 - index` of the stored log and nothing else. */
  lemma DeleteRemovesStoredEntry(stored: seq<Session>, index: int)
    requires 0 <= index < |stored|
    ensures PersistedAfterDelete(Reverse(stored), index) == RemoveAt(stored, |stored| - 1 - index)
  {
    ReverseRemoveAt(stored, index);
  }

  /** Reversing a list with one more entry at its end puts that entry first. */
  lemma ReverseSnoc<T>(xs: seq<T>, x: T)
    ensures Reverse(xs + [x]) == [x] + Reverse(xs)
  {
    var l, r := Reverse(xs + [x]), [x] + Reverse(xs);
    assert forall j :: 0 <= j < |l| ==> l[j] == r[j];
  }

  /** With the corrected write, a session saved after a delete is shown
      first on the next visit, above the others in their displayed order. */
  lemma SaveAfterDeleteShowsNewestFirst(displayed: seq<Session>, index: int, s: Session)
    ensures Reverse(PersistedAfterDelete(displayed, index) + [s]) == [s] + RemoveAt(displayed, index)
  {
    ReverseSnoc(PersistedAfterDelete(displayed, index), s);
    DeleteReloadKeepsDisplay(displayed, index);
  }

  /** The displayed list after a session is saved, corrected: the new session
      goes on top, as a fresh fetch would show it. As written, `saveSession`
      leaves the displayed list as it was. */
  function DisplayAfterSave(displayed: seq<Session>, s: Session): (r: seq<Session>)
    ensures |r| == |displayed| + 1 && r[0] == s && r[1..] == displayed
  {
    [s] + displayed
  }

  /** As written, a session saved while the screen is open is stored but not
      shown, so a later delete writes back a list without it: the log held
      `|stored| + 1` sessions and two are gone, the saved one among them. */
  lemma StaleDeleteLosesSaved(stored: seq<Session>, s: Session, index: int)
    requires 0 <= index < |stored| && s !in stored
    ensures var before := stored + [s];
      s in before
      && |PersistedAfterDeleteAsWritten(Reverse(stored), index)| == |before| - 2
      && s !in PersistedAfterDeleteAsWritten(Reverse(stored), index)
      && |PersistedAfterDelete(Reverse(stored), index)| == |before| - 2
      && s !in PersistedAfterDelete(Reverse(stored), index)
  {
    var shown := Reverse(stored);
    assert forall x :: x in shown ==> x in stored;
    var w := PersistedAfterDeleteAsWritten(shown, index);
    assert forall j :: 0 <= j < |w| ==> w[j] in shown;
    DeleteRemovesStoredEntry(stored, index);
    var c := PersistedAfterDelete(shown, index);
    assert forall j :: 0 <= j < |c| ==> c[j] in stored;
  }

  /** Corrected, the display stays the stored log newest first after a save,
      and a later delete of entry `index` removes exactly the matching stored
      entry: the saved session survives unless it is the one deleted. */
  lemma SaveThenDeleteKeepsOthers(stored: seq<Session>, s: Session, index: int)
    requires 0 <= index <= |stored|
    ensures DisplayAfterSave(Reverse(stored), s) == Reverse(stored + [s])
    ensures PersistedAfterDelete(DisplayAfterSave(Reverse(stored), s), index) == RemoveAt(stored + [s], |stored| - index)
    ensures index > 0 ==> s in PersistedAfterDelete(DisplayAfterSave(Reverse(stored), s), index)
  {
    ReverseSnoc(stored, s);
    DeleteRemovesStoredEntry(stored + [s], index);
    if index > 0 {
      var r := RemoveAt(stored + [s], |stored| - index);
      assert r[|r| - 1] == s;
    }
  }

  /** The background fetch task, run by the operating system between app
      sessions: one `BackgroundStep` on the stored timer state. */
  method BackgroundTask(store: Store) returns (notify: bool)
    modifies store`timerState
    ensures (store.timerState, notify) == BackgroundStep(old(store.timerState))
  {
    var r := BackgroundStep(store.timerState);
    store.timerState := r.0;
    notify := r.1;
  }

  /** The timer screen's state. `sessions` is the log as displayed, newest
      first. Every change of `timeLeft` or `isRunning` is written to the store
      as the screen's save effect does. */
  class TimerScreen {
    var title: string
    var hours: nat
    var minutes: nat
    var seconds: nat
    var isRunning: bool
    var timeLeft: int
    var sessions: seq<Session>

    /** The pickers offer hours 0-23 and minutes and seconds 0-59. */
    predicate Valid()
      reads this
    {
      hours < 24 && minutes < 60 && seconds < 60
    }

    /** The displayed list is the stored log, newest first. */
    predicate Synced(store: Store)
      reads this`sessions, store`timerSessions
    {
      sessions == Reverse(StoredSessions(store.timerSessions))
    }

    function State(): TimerState
      reads this
    {
      TimerState(timeLeft, isRunning)
    }

    constructor ()
      ensures Valid()
      ensures title == "" && hours == 0 && minutes == 0 && seconds == 0
      ensures !isRunning && timeLeft == 0 && sessions == []
    {
      title := "";
      hours, minutes, seconds := 0, 0, 0;
      isRunning, timeLeft := false, 0;
      sessions := [];
    }

    /** `loadTimerState`: a stored state replaces the screen's. */
    method LoadTimerState(store: Store)
      modifies this`timeLeft, this`isRunning
      ensures store.timerState.Some? ==> State() == store.timerState.value
      ensures store.timerState.None? ==> State() == old(State())
    {
      if store.timerState.Some? {
        timeLeft, isRunning := store.timerState.value.timeLeft, store.timerState.value.isRunning;
      }
    }

    /** The three pickers. */
    method PickTime(h: nat, m: nat, s: nat)
      requires h < 24 && m < 60 && s < 60
      modifies this`hours, this`minutes, this`seconds
      ensures Valid() && hours == h && minutes == m && seconds == s
    {
      hours, minutes, seconds := h, m, s;
    }

    /** The Pomodoro preset: 25 minutes. */
    method Pomodoro()
      modifies this`hours, this`minutes, this`seconds
      ensures Valid() && TotalSeconds(hours, minutes, seconds) == 25 * 60
    {
      hours, minutes, seconds := 0, 25, 0;
    }

    /** The Rest preset: 5 minutes. */
    method Rest()
      modifies this`hours, this`minutes, this`seconds
      ensures Valid() && TotalSeconds(hours, minutes, seconds) == 5 * 60
    {
      hours, minutes, seconds := 0, 5, 0;
    }

    method SetTitle(t: string)
      modifies this`title
      ensures title == t
    {
      title := t;
    }

    /** `startTimer`: a zero duration is refused and nothing changes;
        otherwise the countdown is set to the picked time and runs. */
    method StartTimer(store: Store) returns (started: bool)
      requires Valid()
      modifies this`timeLeft, this`isRunning, store`timerState
      ensures started <==> !(hours == 0 && minutes == 0 && seconds == 0)
      ensures !started ==> State() == old(State()) && store.timerState == old(store.timerState)
      ensures started ==> State() == TimerState(TotalSeconds(hours, minutes, seconds), true)
      ensures started ==> store.timerState == Some(State())
      ensures started ==> 0 < timeLeft < 24 * 3600
      ensures started ==> var text := Display(timeLeft).text;
        |text| == 8 && AllDigits(text[0..2]) && AllDigits(text[3..5]) && AllDigits(text[6..8])
        && ClockFields(text) == (hours, minutes, seconds)
    {
      if hours == 0 && minutes == 0 && seconds == 0 {
        return false;
      }
      var total := TotalSeconds(hours, minutes, seconds);
      StartDisplaysPicked(hours, minutes, seconds);
      timeLeft, isRunning := total, true;
      store.timerState := Some(TimerState(total, true));
      return true;
    }

    /** `saveSession`: one session is appended after the stored log, and
        (corrected) shown on top of the displayed list, which stays in step
        with the log. */
    method SaveSession(store: Store, startTime: string, endTime: string)
      modifies this`sessions, store`timerSessions
      ensures store.timerSessions ==
        Some(StoredSessions(old(store.timerSessions)) + [NewSession(title, hours, minutes, seconds, startTime, endTime)])
      ensures sessions == DisplayAfterSave(old(sessions), NewSession(title, hours, minutes, seconds, startTime, endTime))
      ensures old(Synced(store)) ==> Synced(store)
    {
      var session := NewSession(title, hours, minutes, seconds, startTime, endTime);
      ReverseSnoc(StoredSessions(store.timerSessions), session);
      store.timerSessions := Some(StoredSessions(store.timerSessions) + [session]);
      sessions := DisplayAfterSave(sessions, session);
    }

    /** One tick of the interval: the state moves as `TickStep` says; the tick
        that finds no time left saves a session. */
    method Tick(store: Store, startTime: string, endTime: string) returns (saved: bool)
      modifies this`timeLeft, this`isRunning, this`sessions, store`timerState, store`timerSessions
      ensures (State(), saved) == TickStep(old(State()))
      ensures old(isRunning) ==> store.timerState == Some(State())
      ensures !old(isRunning) ==> store.timerState == old(store.timerState)
      ensures saved ==> (store.timerSessions ==
        Some(StoredSessions(old(store.timerSessions)) + [NewSession(title, hours, minutes, seconds, startTime, endTime)]))
      ensures !saved ==> store.timerSessions == old(store.timerSessions)
      ensures saved ==> sessions == DisplayAfterSave(old(sessions), NewSession(title, hours, minutes, seconds, startTime, endTime))
      ensures !saved ==> sessions == old(sessions)
      ensures old(Synced(store)) ==> Synced(store)
    {
      if !isRunning {
        return false;
      }
      if timeLeft <= 0 {
        isRunning := false;
        SaveSession(store, startTime, endTime);
        timeLeft := 0;
        saved := true;
      } else {
        timeLeft := timeLeft - 1;
        saved := false;
      }
      store.timerState := Some(State());
    }

    /** `resetTimer`: stopped, with no time left. */
    method ResetTimer(store: Store)
      modifies this`timeLeft, this`isRunning, store`timerState
      ensures State() == TimerState(0, false) && store.timerState == Some(State())
    {
      isRunning, timeLeft := false, 0;
      store.timerState := Some(State());
    }

    /** `fetchSessions`: the stored log, newest first. */
    method FetchSessions(store: Store)
      modifies this`sessions
      ensures sessions == Reverse(StoredSessions(store.timerSessions)) && Synced(store)
    {
      sessions := Reverse(StoredSessions(store.timerSessions));
    }

    /** `deleteSession`, once confirmed: entry `index` of the displayed list
        goes, and (corrected) the stored log is written back oldest first.
        While the display is in step with the log, exactly the matching
        stored entry is removed. */
    method DeleteSession(store: Store, index: int)
      modifies this`sessions, store`timerSessions
      ensures sessions == RemoveAt(old(sessions), index)
      ensures store.timerSessions == Some(PersistedAfterDelete(old(sessions), index))
      ensures Synced(store)
      ensures old(Synced(store)) && 0 <= index < |old(sessions)| ==>
        var log := StoredSessions(old(store.timerSessions));
        store.timerSessions == Some(RemoveAt(log, |log| - 1 - index))
    {
      ghost var log := StoredSessions(store.timerSessions);
      if Synced(store) && 0 <= index < |sessions| {
        DeleteRemovesStoredEntry(log, index);
      }
      sessions := RemoveAt(sessions, index);
      store.timerSessions := Some(Reverse(sessions));
      ReverseInvolution(sessions);
    }

    /** `clearAllSessions`, once confirmed: no sessions shown, none stored. */
    method ClearAllSessions(store: Store)
      modifies this`sessions, store`timerSessions
      ensures sessions == [] && store.timerSessions == None && Synced(store)
    {
      sessions := [];
      store.timerSessions := None;
    }
  }
}
