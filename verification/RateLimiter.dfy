/** The sliding-window rate limiter of `src/rulekiln/providers/rate_limiter.py`.

    Clock readings are parameters.  `history` is the record of every admitted request; the window
    itself keeps only the recent ones, and the bound is proved about the whole history. */
module RateLimiter {

  const WINDOW: real := 60.0

  /** The window after dropping what lies more than sixty seconds back. */
  function Expire(stamps: seq<real>, now: real): (r: seq<real>)
    ensures |r| <= |stamps|
  {
    if stamps != [] && stamps[0] < now - WINDOW then Expire(stamps[1..], now) else stamps
  }

  /** The value `seconds_until_allowed` returns for an already expired window. */
  function WaitFor(stamps: seq<real>, rpm: nat, now: real): real
    requires rpm >= 1
  {
    if |stamps| < rpm then 0.0 else stamps[0] - (now - WINDOW)
  }

  ghost predicate Nondecreasing(ts: seq<real>) {
    forall i, j :: 0 <= i < j < |ts| ==> ts[i] <= ts[j]
  }

  ghost predicate NoneAfter(ts: seq<real>, t: real) {
    forall i :: 0 <= i < |ts| ==> ts[i] <= t
  }

  /** Any rpm + 1 consecutive requests span at least sixty seconds. */
  ghost predicate Spaced(history: seq<real>, rpm: nat) {
    forall i, j :: 0 <= i < |history| && 0 <= j < |history| && j == i + rpm ==> history[j] - history[i] >= 60.0
  }

  /** The window is a suffix of the history, and every dropped request is too old to matter. */
  ghost predicate Tracks(history: seq<real>, stamps: seq<real>, checkedAt: real) {
    && |stamps| <= |history| && Nondecreasing(history)
    && (forall i :: |history| - |stamps| <= i < |history| ==> history[i] == stamps[i - (|history| - |stamps|)])
    && (forall i :: 0 <= i < |history| - |stamps| ==> history[i] < checkedAt - WINDOW)
  }

  /** The window holds at most one request too many, and that one is ready to be dropped. */
  predicate Tight(stamps: seq<real>, rpm: nat, checkedAt: real) {
    |stamps| <= rpm || (|stamps| == rpm + 1 && stamps[0] <= checkedAt - WINDOW)
  }

  ghost predicate WindowInv(history: seq<real>, stamps: seq<real>, rpm: nat, checkedAt: real) {
    && rpm >= 1 && Tracks(history, stamps, checkedAt) && Tight(stamps, rpm, checkedAt) && Spaced(history, rpm)
  }

  lemma {:induction false} ExpireTracks(history: seq<real>, stamps: seq<real>, before: real, now: real)
    requires Tracks(history, stamps, before) && before <= now
    ensures Tracks(history, Expire(stamps, now), now)
    ensures Expire(stamps, now) != [] ==> Expire(stamps, now)[0] >= now - WINDOW
    decreases |stamps|
  {
    if stamps != [] && stamps[0] < now - WINDOW {
      assert stamps[0] == history[|history| - |stamps|];
      ExpireTracks(history, stamps[1..], now, now);
    }
  }

  /** At a strictly later check the one surplus request is dropped. */
  lemma ExpireTight(stamps: seq<real>, rpm: nat, before: real, now: real)
    requires Tight(stamps, rpm, before) && before < now
    ensures |Expire(stamps, now)| <= rpm
  {
    if |stamps| == rpm + 1 {
      assert Expire(stamps, now) == Expire(stamps[1..], now);
    }
  }

  /** A recorded request holds its place in the window for exactly sixty seconds. */
  lemma {:induction false} LastStampExpires(stamps: seq<real>, now: real)
    requires Nondecreasing(stamps) && stamps != []
    ensures Expire(stamps, now) == [] <==> stamps[|stamps| - 1] < now - WINDOW
  {
    if stamps[0] < now - WINDOW && |stamps| > 1 {
      LastStampExpires(stamps[1..], now);
    }
  }

  /** Whether one more request at time `t` keeps the history spaced depends on one earlier request only. */
  lemma SpacedExtend(history: seq<real>, rpm: nat, t: real)
    requires Spaced(history, rpm)
    ensures Spaced(history + [t], rpm) <==> (rpm <= |history| ==> (history + [t])[|history| - rpm] + WINDOW <= t)
  {
    var extended := history + [t];
    if rpm <= |history| {
      assert extended[|history|] == t;
    }
  }

  /** The window has room for a request at time `t`: at most rpm requests, or the one that matters is old enough. */
  predicate Fits(kept: seq<real>, rpm: nat, t: real)
    requires rpm >= 1
  {
    |kept| <= rpm || kept[|kept| - rpm] + WINDOW <= t
  }

  /** An admission keeps the bound, whenever it is recorded after the check, if the window held no surplus. */
  lemma AdmissionKeepsBound(history: seq<real>, stamps: seq<real>, rpm: nat, before: real, now: real, t: real)
    requires WindowInv(history, stamps, rpm, before) && before <= now <= t
    requires NoneAfter(history, t) && |Expire(stamps, now)| <= rpm
    requires WaitFor(Expire(stamps, now), rpm, now) <= 0.0
    ensures WindowInv(history + [t], Expire(stamps, now) + [t], rpm, now)
  {
    var kept := Expire(stamps, now);
    ExpireTracks(history, stamps, before, now);
    SpacedExtend(history, rpm, t);
    if rpm <= |history| && |kept| == rpm {
      assert kept[0] == history[|history| - rpm];
    }
  }

  /** A positive wait is tight: admitting at any earlier time breaks the bound, at that very time keeps it. */
  lemma WaitIsTight(history: seq<real>, stamps: seq<real>, rpm: nat, before: real, now: real, t: real)
    requires WindowInv(history, stamps, rpm, before) && before <= now <= t
    requires WaitFor(Expire(stamps, now), rpm, now) > 0.0
    ensures Spaced(history + [t], rpm) <==> t >= now + WaitFor(Expire(stamps, now), rpm, now)
  {
    var kept := Expire(stamps, now);
    ExpireTracks(history, stamps, before, now);
    SpacedExtend(history, rpm, t);
    if |stamps| == rpm + 1 {
      assert kept == stamps || kept == Expire(stamps[1..], now);
    }
    assert |kept| == rpm && kept[0] == history[|history| - rpm];
  }

  /** When a check may repeat the clock value of the one before, an admission keeps the bound exactly when
      the window has room. */
  lemma RepeatedCheckIff(history: seq<real>, stamps: seq<real>, rpm: nat, before: real, now: real, t: real)
    requires rpm >= 1 && Tracks(history, stamps, before) && Spaced(history, rpm) && before <= now <= t
    requires WaitFor(Expire(stamps, now), rpm, now) <= 0.0
    ensures Spaced(history + [t], rpm) <==> Fits(Expire(stamps, now), rpm, t)
  {
    var kept := Expire(stamps, now);
    ExpireTracks(history, stamps, before, now);
    SpacedExtend(history, rpm, t);
    if rpm <= |history| {
      if |kept| >= rpm {
        assert history[|history| - rpm] == kept[|kept| - rpm];
      } else {
        assert history[|history| - rpm] < now - WINDOW;
      }
    }
  }

  /** Two checks at one clock value, sixty seconds after the oldest request, both admit: the bound breaks. */
  lemma RepeatedCheckBreaksBound()
    ensures var stamps := [0.0];
            && WaitFor(Expire(stamps, 60.0), 1, 60.0) <= 0.0
            && WaitFor(Expire(stamps + [60.0], 60.0), 1, 60.0) <= 0.0
            && Spaced(stamps + [60.0], 1) && !Spaced(stamps + [60.0] + [60.0], 1)
  {
    var history := [0.0] + [60.0] + [60.0];
    assert history[2] - history[1] < WINDOW;
    assert Expire([0.0], 60.0) == [0.0];
  }

  class RpmWindow {
    const rpm: nat
    var timestamps: seq<real>
    ghost var history: seq<real>
    ghost var checkedAt: real

    ghost predicate Valid()
      reads this
    {
      rpm >= 1 && Tracks(history, timestamps, checkedAt)
    }

    constructor (rpm: nat, ghost now: real)
      requires rpm >= 1
      ensures Valid() && this.rpm == rpm && timestamps == [] && history == [] && checkedAt == now
    {
      this.rpm := rpm;
      timestamps := [];
      history := [];
      checkedAt := now;
    }

    method SecondsUntilAllowed(now: real) returns (wait: real)
      requires Valid() && checkedAt <= now
      modifies this`timestamps, this`checkedAt
      ensures Valid() && checkedAt == now
      ensures timestamps == Expire(old(timestamps), now)
      ensures wait == WaitFor(timestamps, rpm, now)
    {
      ghost var all := timestamps;
      ExpireTracks(history, timestamps, checkedAt, now);
      var windowStart := now - WINDOW;
      while timestamps != [] && timestamps[0] < windowStart
        invariant Expire(timestamps, now) == Expire(all, now)
        decreases |timestamps|
      {
        timestamps := timestamps[1..];
      }
      checkedAt := now;
      if |timestamps| < rpm {
        return 0.0;
      }
      return timestamps[0] - windowStart;
    }

    /** From now on, and for exactly sixty seconds, the request takes up a place in the window. */
    method Record(t: real)
      requires Valid() && checkedAt <= t && NoneAfter(history, t)
      modifies this`timestamps, this`history
      ensures Valid() && NoneAfter(history, t)
      ensures timestamps == old(timestamps) + [t] && history == old(history) + [t]
      ensures forall now :: Expire(timestamps, now) == [] <==> t + WINDOW < now
    {
      timestamps := timestamps + [t];
      history := history + [t];
      forall now ensures Expire(timestamps, now) == [] <==> t + WINDOW < now {
        SuffixNondecreasing(history, timestamps, checkedAt);
        LastStampExpires(timestamps, now);
      }
    }

    /** The body of the locked block in `_LimiterState.acquire`: check, and record if admitted. */
    method TryAdmit(now: real, recordedAt: real) returns (wait: real)
      requires Valid() && checkedAt <= now <= recordedAt && NoneAfter(history, now)
      modifies this
      ensures Valid() && checkedAt == now && NoneAfter(history, recordedAt)
      ensures Window(timestamps, history) == Admitting(Window(old(timestamps), old(history)), rpm, now, recordedAt)
      ensures wait == WaitFor(Expire(old(timestamps), now), rpm, now)
      ensures Spaced(old(history), rpm) ==>
        (Spaced(history, rpm) <==> wait > 0.0 || Fits(Expire(old(timestamps), now), rpm, recordedAt))
      ensures WindowInv(old(history), old(timestamps), rpm, old(checkedAt)) ==>
        forall t :: t >= now && wait > 0.0 ==> (Spaced(history + [t], rpm) <==> t >= now + wait)
    {
      ghost var stamps, all, before := timestamps, history, checkedAt;
      wait := SecondsUntilAllowed(now);
      if wait <= 0.0 {
        if Spaced(all, rpm) {
          RepeatedCheckIff(all, stamps, rpm, before, now, recordedAt);
        }
        Record(recordedAt);
      } else if WindowInv(all, stamps, rpm, before) {
        forall t | t >= now ensures Spaced(all + [t], rpm) <==> t >= now + WaitFor(Expire(stamps, now), rpm, now) {
          WaitIsTight(all, stamps, rpm, before, now, t);
        }
      }
    }
  }

  lemma SuffixNondecreasing(history: seq<real>, stamps: seq<real>, checkedAt: real)
    requires Tracks(history, stamps, checkedAt)
    ensures Nondecreasing(stamps)
  {
    var dropped := |history| - |stamps|;
    forall i, j | 0 <= i < j < |stamps| ensures stamps[i] <= stamps[j] {
      assert history[dropped + i] == stamps[i] && history[dropped + j] == stamps[j];
    }
  }

  // ── Whole runs ───────────────────────────────────────────────────────────

  /** One attempt of any task to pass the limiter: when it checks, and when its request would be recorded. */
  datatype Attempt = Attempt(checkAt: real, recordAt: real)

  /** What the limiter has kept, and all it has admitted. */
  datatype Window = Window(stamps: seq<real>, history: seq<real>)

  function Admitting(w: Window, rpm: nat, now: real, recordedAt: real): Window
    requires rpm >= 1
  {
    var kept := Expire(w.stamps, now);
    if WaitFor(kept, rpm, now) <= 0.0 then Window(kept + [recordedAt], w.history + [recordedAt]) else Window(kept, w.history)
  }

  function Served(rpm: nat, attempts: seq<Attempt>): Window
    requires rpm >= 1
  {
    if attempts == [] then Window([], [])
    else
      var n := |attempts| - 1;
      Admitting(Served(rpm, attempts[..n]), rpm, attempts[n].checkAt, attempts[n].recordAt)
  }

  /** Checks are made under one lock and the clock does not run backwards: no check precedes the last record. */
  ghost predicate Serialized(attempts: seq<Attempt>) {
    && (forall i :: 0 <= i < |attempts| ==> attempts[i].checkAt <= attempts[i].recordAt)
    && (forall i, j :: 0 <= i < j < |attempts| ==> attempts[i].recordAt <= attempts[j].checkAt)
  }

  /** No two checks read the same clock value. */
  ghost predicate FreshReadings(attempts: seq<Attempt>) {
    forall i, j :: 0 <= i < j < |attempts| ==> attempts[i].checkAt < attempts[j].checkAt
  }

  /** No later than the first check, or the last check so far. */
  function LastCheck(attempts: seq<Attempt>, n: nat): real
    requires n <= |attempts|
  {
    if n > 0 then attempts[n - 1].checkAt else if |attempts| > 0 then attempts[0].checkAt - 1.0 else 0.0
  }

  function LastRecord(attempts: seq<Attempt>, n: nat): real
    requires n <= |attempts|
  {
    if n > 0 then attempts[n - 1].recordAt else LastCheck(attempts, 0)
  }

  /** The limiter after the first n attempts. */
  ghost predicate Reached(rpm: nat, attempts: seq<Attempt>, n: nat, w: Window)
    requires rpm >= 1 && n <= |attempts|
  {
    w == Served(rpm, attempts[..n]) && Tracks(w.history, w.stamps, LastCheck(attempts, n))
    && NoneAfter(w.history, LastRecord(attempts, n))
  }

  lemma ServedNext(rpm: nat, attempts: seq<Attempt>, n: nat)
    requires rpm >= 1 && n < |attempts|
    ensures Served(rpm, attempts[..n + 1])
         == Admitting(Served(rpm, attempts[..n]), rpm, attempts[n].checkAt, attempts[n].recordAt)
  {
    assert attempts[..n + 1][..n] == attempts[..n];
  }

  lemma AdmittingTracks(w: Window, rpm: nat, before: real, now: real, recordedAt: real)
    requires rpm >= 1 && Tracks(w.history, w.stamps, before) && before <= now <= recordedAt && NoneAfter(w.history, now)
    ensures var t := Admitting(w, rpm, now, recordedAt);
            Tracks(t.history, t.stamps, now) && NoneAfter(t.history, recordedAt)
  {
    ExpireTracks(w.history, w.stamps, before, now);
  }

  lemma {:induction false} ServedReaches(rpm: nat, attempts: seq<Attempt>, n: nat)
    requires rpm >= 1 && Serialized(attempts) && n <= |attempts|
    ensures Reached(rpm, attempts, n, Served(rpm, attempts[..n]))
  {
    if n > 0 {
      ServedReaches(rpm, attempts, n - 1);
      ServedNext(rpm, attempts, n - 1);
      AdmittingTracks(Served(rpm, attempts[..n - 1]), rpm, LastCheck(attempts, n - 1), attempts[n - 1].checkAt,
                      attempts[n - 1].recordAt);
    }
  }

  /** What a caller can look up in the window before an admission. */
  predicate SafeAdmission(w: Window, rpm: nat, attempt: Attempt)
    requires rpm >= 1
  {
    var kept := Expire(w.stamps, attempt.checkAt);
    WaitFor(kept, rpm, attempt.checkAt) > 0.0 || Fits(kept, rpm, attempt.recordAt)
  }

  predicate NoSurplusAdmitted(rpm: nat, attempts: seq<Attempt>, n: nat)
    requires rpm >= 1 && n <= |attempts|
  {
    forall k :: 0 <= k < n ==> SafeAdmission(Served(rpm, attempts[..k]), rpm, attempts[k])
  }

  lemma AdmittingSpacedIff(w: Window, rpm: nat, before: real, attempt: Attempt)
    requires rpm >= 1 && Tracks(w.history, w.stamps, before) && before <= attempt.checkAt <= attempt.recordAt
    ensures Spaced(Admitting(w, rpm, attempt.checkAt, attempt.recordAt).history, rpm)
       <==> Spaced(w.history, rpm) && SafeAdmission(w, rpm, attempt)
  {
    var t := Admitting(w, rpm, attempt.checkAt, attempt.recordAt);
    if Spaced(w.history, rpm) {
      if WaitFor(Expire(w.stamps, attempt.checkAt), rpm, attempt.checkAt) <= 0.0 {
        RepeatedCheckIff(w.history, w.stamps, rpm, before, attempt.checkAt, attempt.recordAt);
      }
    } else {
      var i, j :| 0 <= i < |w.history| && 0 <= j < |w.history| && j == i + rpm && w.history[j] - w.history[i] < WINDOW;
      assert t.history[i] == w.history[i] && t.history[j] == w.history[j];
    }
  }

  ghost predicate SpacedIffRoom(rpm: nat, attempts: seq<Attempt>, n: nat)
    requires rpm >= 1 && n <= |attempts|
  {
    Spaced(Served(rpm, attempts[..n]).history, rpm) <==> NoSurplusAdmitted(rpm, attempts, n)
  }

  lemma NothingServed(rpm: nat, attempts: seq<Attempt>)
    requires rpm >= 1
    ensures SpacedIffRoom(rpm, attempts, 0)
  {
    assert |attempts[..0]| == 0;
    assert |Served(rpm, attempts[..0]).history| == 0;
  }

  lemma NoSurplusNext(rpm: nat, attempts: seq<Attempt>, n: nat)
    requires rpm >= 1 && n < |attempts|
    ensures NoSurplusAdmitted(rpm, attempts, n + 1)
       <==> NoSurplusAdmitted(rpm, attempts, n) && SafeAdmission(Served(rpm, attempts[..n]), rpm, attempts[n])
  {
  }

  lemma SpacedIffRoomStep(rpm: nat, attempts: seq<Attempt>, n: nat)
    requires rpm >= 1 && Serialized(attempts) && n < |attempts| && SpacedIffRoom(rpm, attempts, n)
    ensures SpacedIffRoom(rpm, attempts, n + 1)
  {
    ServedReaches(rpm, attempts, n);
    ServedNext(rpm, attempts, n);
    NoSurplusNext(rpm, attempts, n);
    AdmittingSpacedIff(Served(rpm, attempts[..n]), rpm, LastCheck(attempts, n), attempts[n]);
  }

  /** The admitted requests of a run are spaced exactly when each admission found room in its window. */
  lemma {:induction false} ServedSpacedIff(rpm: nat, attempts: seq<Attempt>)
    requires rpm >= 1 && Serialized(attempts)
    ensures Spaced(Served(rpm, attempts).history, rpm) <==> NoSurplusAdmitted(rpm, attempts, |attempts|)
  {
    NothingServed(rpm, attempts);
    for n := 0 to |attempts|
      invariant SpacedIffRoom(rpm, attempts, n)
    {
      SpacedIffRoomStep(rpm, attempts, n);
    }
    assert attempts[..|attempts|] == attempts;
  }

  /** The limiter without a window: admit a request exactly when the whole history stays spaced. */
  ghost function Greedy(rpm: nat, attempts: seq<Attempt>): seq<real> {
    if attempts == [] then []
    else
      var n := |attempts| - 1;
      var history := Greedy(rpm, attempts[..n]);
      if Spaced(history + [attempts[n].checkAt], rpm) then history + [attempts[n].recordAt] else history
  }

  lemma GreedyNext(rpm: nat, attempts: seq<Attempt>, n: nat)
    requires n < |attempts|
    ensures var history := Greedy(rpm, attempts[..n]);
            Greedy(rpm, attempts[..n + 1]) ==
              if Spaced(history + [attempts[n].checkAt], rpm) then history + [attempts[n].recordAt] else history
  {
    assert attempts[..n + 1][..n] == attempts[..n];
  }

  /** At a fresh clock value the window decides as a check of the whole history would. */
  lemma FreshAdmission(w: Window, rpm: nat, before: real, now: real, recordedAt: real)
    requires WindowInv(w.history, w.stamps, rpm, before) && before < now <= recordedAt && NoneAfter(w.history, now)
    ensures var t := Admitting(w, rpm, now, recordedAt);
            && WindowInv(t.history, t.stamps, rpm, now)
            && t.history == if Spaced(w.history + [now], rpm) then w.history + [recordedAt] else w.history
  {
    var kept := Expire(w.stamps, now);
    ExpireTracks(w.history, w.stamps, before, now);
    ExpireTight(w.stamps, rpm, before, now);
    if WaitFor(kept, rpm, now) <= 0.0 {
      AdmissionKeepsBound(w.history, w.stamps, rpm, before, now, now);
      AdmissionKeepsBound(w.history, w.stamps, rpm, before, now, recordedAt);
    } else {
      WaitIsTight(w.history, w.stamps, rpm, before, now, now);
    }
  }

  ghost predicate Exact(rpm: nat, attempts: seq<Attempt>, n: nat, w: Window)
    requires n <= |attempts|
  {
    WindowInv(w.history, w.stamps, rpm, LastCheck(attempts, n)) && w.history == Greedy(rpm, attempts[..n])
  }

  lemma ExactAtStart(rpm: nat, attempts: seq<Attempt>)
    requires rpm >= 1
    ensures Exact(rpm, attempts, 0, Served(rpm, attempts[..0]))
  {
    assert |attempts[..0]| == 0;
  }

  lemma FreshReadingStep(rpm: nat, attempts: seq<Attempt>, n: nat)
    requires rpm >= 1 && Serialized(attempts) && FreshReadings(attempts) && n < |attempts|
    requires Exact(rpm, attempts, n, Served(rpm, attempts[..n]))
    ensures Exact(rpm, attempts, n + 1, Served(rpm, attempts[..n + 1]))
  {
    var w := Served(rpm, attempts[..n]);
    ServedReaches(rpm, attempts, n);
    ServedNext(rpm, attempts, n);
    GreedyNext(rpm, attempts, n);
    FreshAdmission(w, rpm, LastCheck(attempts, n), attempts[n].checkAt, attempts[n].recordAt);
  }

  /** Without repeated clock readings the window admits exactly what a check of the whole history would admit. */
  lemma {:induction false} FreshReadingsAreExact(rpm: nat, attempts: seq<Attempt>)
    requires rpm >= 1 && Serialized(attempts) && FreshReadings(attempts)
    ensures Spaced(Served(rpm, attempts).history, rpm) && Served(rpm, attempts).history == Greedy(rpm, attempts)
  {
    ExactAtStart(rpm, attempts);
    for n := 0 to |attempts|
      invariant Exact(rpm, attempts, n, Served(rpm, attempts[..n]))
    {
      FreshReadingStep(rpm, attempts, n);
    }
    assert attempts[..|attempts|] == attempts;
  }

  ghost predicate Serving(window: RpmWindow, rpm: nat, attempts: seq<Attempt>, n: nat)
    requires rpm >= 1 && n <= |attempts|
    reads window
  {
    && window.Valid() && window.rpm == rpm && window.checkedAt == LastCheck(attempts, n)
    && Reached(rpm, attempts, n, Window(window.timestamps, window.history))
  }

  method ServeOne(window: RpmWindow, attempt: Attempt, ghost rpm: nat, ghost attempts: seq<Attempt>, ghost n: nat)
    returns (admitted: bool)
    requires rpm >= 1 && n < |attempts| && attempt == attempts[n] && Serialized(attempts)
    requires Serving(window, rpm, attempts, n)
    modifies window
    ensures Serving(window, rpm, attempts, n + 1)
    ensures window.history == if admitted then old(window.history) + [attempt.recordAt] else old(window.history)
  {
    ServedNext(rpm, attempts, n);
    ghost var before := Window(window.timestamps, window.history);
    var wait := window.TryAdmit(attempt.checkAt, attempt.recordAt);
    admitted := wait <= 0.0;
  }

  /** Whatever the tasks do, and however long: any rpm + 1 consecutive admitted requests span sixty seconds exactly
      when each admission found room in the window, and always when no clock reading repeats; the limiter then admits
      exactly what a check of the whole history would admit. */
  method Serve(rpm: nat, attempts: seq<Attempt>) returns (history: seq<real>)
    requires rpm >= 1 && Serialized(attempts)
    ensures history == Served(rpm, attempts).history
    ensures Spaced(history, rpm) <==> NoSurplusAdmitted(rpm, attempts, |attempts|)
    ensures FreshReadings(attempts) ==> Spaced(history, rpm) && history == Greedy(rpm, attempts)
  {
    var window := new RpmWindow(rpm, LastCheck(attempts, 0));
    history := [];
    for n := 0 to |attempts|
      invariant Serving(window, rpm, attempts, n) && history == window.history
    {
      var admitted := ServeOne(window, attempts[n], rpm, attempts, n);
      if admitted {
        history := history + [attempts[n].recordAt];
      }
    }
    assert attempts[..|attempts|] == attempts;
    ServedSpacedIff(rpm, attempts);
    if FreshReadings(attempts) {
      FreshReadingsAreExact(rpm, attempts);
    }
  }

  /** The concurrency slots of `_LimiterState`: a semaphore's free permits, and the calls now in flight. */
  class Slots {
    const maxConcurrency: nat
    var permits: nat
    ghost var inFlight: nat

    ghost predicate Valid()
      reads this
    {
      permits + inFlight == maxConcurrency
    }

    constructor (maxConcurrency: nat)
      ensures Valid() && this.maxConcurrency == maxConcurrency && inFlight == 0
    {
      this.maxConcurrency := maxConcurrency;
      permits := maxConcurrency;
      inFlight := 0;
    }

    /** The await returns only once a permit is free. */
    method Acquire()
      requires Valid() && permits > 0
      modifies this
      ensures Valid() && inFlight == old(inFlight) + 1
    {
      permits := permits - 1;
      inFlight := inFlight + 1;
    }

    /** Callers release in a `finally` block after a successful acquire. */
    method Release()
      requires Valid() && inFlight > 0
      modifies this
      ensures Valid() && inFlight == old(inFlight) - 1
    {
      permits := permits + 1;
      inFlight := inFlight - 1;
    }
  }
}
