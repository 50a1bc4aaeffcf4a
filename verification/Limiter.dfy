/** The per-subject write limiter (backend/internal/apiserver/metadata_routes.go). */
module RateLimit {

  /** Instants in nanoseconds; 0 stands for the zero time.Time. */
  type Instant = int

  const MAX_DURATION: int := 0x7FFF_FFFF_FFFF_FFFF
  const MIN_DURATION: int := -0x8000_0000_0000_0000

  type Duration = d: int | MIN_DURATION <= d <= MAX_DURATION

  /** maxSubjectLimiterEntries. */
  const MAX_ENTRIES: int := 10_000

  datatype Window = Window(start: Instant, count: int)

  const NO_WINDOW := Window(0, 0)

  datatype Limits = Limits(maximum: int, window: Duration)

  /** Time.Sub saturates. */
  function Elapsed(now: Instant, start: Instant): Duration {
    if now - start > MAX_DURATION then MAX_DURATION
    else if now - start < MIN_DURATION then MIN_DURATION
    else now - start
  }

  predicate Expired(l: Limits, w: Window, now: Instant) {
    Elapsed(now, w.start) >= l.window
  }

  lemma ExpiredExactly(l: Limits, w: Window, now: Instant)
    requires w.start <= now
    ensures Expired(l, w, now) <==> w.start + l.window <= now
  {
  }

  // ---- one call -----------------------------------------------------------------------

  function Unexpired(l: Limits, entries: map<string, Window>, now: Instant): map<string, Window> {
    map s | s in entries && !Expired(l, entries[s], now) :: entries[s]
  }

  /** The entries once a new subject has made room for itself. */
  function Purged(l: Limits, entries: map<string, Window>, subject: string, now: Instant): map<string, Window> {
    if subject !in entries && |entries| >= MAX_ENTRIES then Unexpired(l, entries, now) else entries
  }

  predicate NoRoom(l: Limits, entries: map<string, Window>, subject: string, now: Instant) {
    subject !in entries && |Purged(l, entries, subject, now)| >= MAX_ENTRIES
  }

  /** The window that a call finds; a missing one is the zero value. */
  function Found(entries: map<string, Window>, subject: string): Window {
    if subject in entries then entries[subject] else NO_WINDOW
  }

  predicate Resets(l: Limits, w: Window, now: Instant) {
    w.start == 0 || Expired(l, w, now)
  }

  predicate Grants(l: Limits, w: Window, now: Instant) {
    Resets(l, w, now) || w.count < l.maximum
  }

  function Renewed(l: Limits, w: Window, now: Instant): Window {
    if Resets(l, w, now) then Window(now, 1) else w.(count := w.count + 1)
  }

  predicate Allowed(l: Limits, entries: map<string, Window>, subject: string, now: Instant) {
    !NoRoom(l, entries, subject, now) && Grants(l, Found(entries, subject), now)
  }

  function AfterCall(l: Limits, entries: map<string, Window>, subject: string, now: Instant): map<string, Window> {
    var purged := Purged(l, entries, subject, now);
    if Allowed(l, entries, subject, now) then purged[subject := Renewed(l, Found(entries, subject), now)] else purged
  }

  /** The entries that a purge keeps are the windows that are still running. */
  lemma LiveWindows(l: Limits, entries: map<string, Window>, now: Instant)
    ensures
      var running := set s | s in entries && now - entries[s].start < l.window;
      && Unexpired(l, entries, now).Keys <= running <= entries.Keys
      && |Unexpired(l, entries, now)| <= |running| <= |entries|
      && (l.window > MIN_DURATION || (forall s :: s in entries ==> entries[s].start <= now) ==>
            Unexpired(l, entries, now).Keys == running && |Unexpired(l, entries, now)| == |running|)
  {
    var running := set s | s in entries && now - entries[s].start < l.window;
    SubsetSize(Unexpired(l, entries, now).Keys, running);
    SubsetSize(running, entries.Keys);
    assert |Unexpired(l, entries, now).Keys| == |Unexpired(l, entries, now)| && |entries.Keys| == |entries|;
    if l.window > MIN_DURATION || (forall s :: s in entries ==> entries[s].start <= now) {
      forall s ensures s in running <==> s in Unexpired(l, entries, now).Keys {
      }
    }
  }

  class SubjectLimiter {
    var entries: map<string, Window>
    const limits: Limits

    constructor (maximum: int, window: Duration)
      ensures entries == map[] && limits == Limits(maximum, window)
    {
      entries := map[];
      limits := Limits(maximum, window);
    }

    /** A subject without an entry is refused exactly when the map holds too many windows
        that are still running; one with an entry exactly when its own window is running
        and used up. Only a call that grants gives its subject a window or counts in it,
        and only expired windows of others are dropped, when a new subject finds the map
        full. (The shortest duration is one that no difference of instants stays below.) */
    method Allow(subject: string, now: Instant) returns (ok: bool)
      modifies this
      ensures ok == Allowed(limits, old(entries), subject, now)
      ensures entries == AfterCall(limits, old(entries), subject, now)
      ensures subject !in old(entries) && !ok ==>
                |set s | s in old(entries) && now - old(entries)[s].start < limits.window| >= 10_000
      ensures subject !in old(entries) && ok && limits.window > MIN_DURATION ==>
                |set s | s in old(entries) && now - old(entries)[s].start < limits.window| < 10_000
      ensures subject !in old(entries) && ok ==> subject in entries && entries[subject] == Window(now, 1)
      ensures subject in old(entries) && old(entries)[subject].start <= now ==>
                var w := old(entries)[subject];
                var begins := w.start == 0 || w.start + limits.window <= now;
                && (ok <==> begins || w.count < limits.maximum)
                && subject in entries
                && entries[subject] == if begins then Window(now, 1) else if ok then Window(w.start, w.count + 1) else w
      ensures forall s :: s in entries && s != subject ==> s in old(entries) && entries[s] == old(entries)[s]
      ensures forall s :: s in old(entries) && s != subject && s !in entries ==>
                && subject !in old(entries) && |old(entries)| >= 10_000
                && (limits.window > MIN_DURATION ==> old(entries)[s].start + limits.window <= now)
    {
      LiveWindows(limits, entries, now);
      var entry := if subject in entries then entries[subject] else NO_WINDOW;
      if subject !in entries && |entries| >= MAX_ENTRIES {
        Purge(now);
        if |entries| >= MAX_ENTRIES {
          return false;
        }
      }
      if entry.start == 0 || Elapsed(now, entry.start) >= limits.window {
        entries := entries[subject := Window(now, 1)];
        return true;
      }
      if entry.count >= limits.maximum {
        return false;
      }
      entries := entries[subject := entry.(count := entry.count + 1)];
      return true;
    }

    /** Deletes the expired windows while walking over all of them. */
    method Purge(now: Instant)
      modifies this
      ensures entries == Unexpired(limits, old(entries), now)
      ensures forall s :: s in entries ==>
                s in old(entries) && entries[s] == old(entries)[s] && now < entries[s].start + limits.window
      ensures forall s :: s in old(entries) && s !in entries && limits.window > MIN_DURATION ==>
                old(entries)[s].start + limits.window <= now
    {
      var rest := entries.Items;
      while rest != {}
        invariant rest <= old(entries).Items
        invariant forall s :: s in entries <==>
          (s in old(entries) && ((s, old(entries)[s]) in rest || !Expired(limits, old(entries)[s], now)))
        invariant forall s :: s in entries ==> entries[s] == old(entries)[s]
        decreases rest
      {
        var item :| item in rest;
        rest := rest - {item};
        if Elapsed(now, item.1.start) >= limits.window {
          entries := entries - {item.0};
        }
      }
    }
  }

  // ---- runs ---------------------------------------------------------------------------

  datatype Call = Call(subject: string, now: Instant)

  function Front(calls: seq<Call>): seq<Call>
    requires calls != []
  {
    calls[..|calls| - 1]
  }

  function Last(calls: seq<Call>): Call
    requires calls != []
  {
    calls[|calls| - 1]
  }

  function EntriesAfter(l: Limits, calls: seq<Call>): map<string, Window> {
    if calls == [] then map[]
    else AfterCall(l, EntriesAfter(l, Front(calls)), Last(calls).subject, Last(calls).now)
  }

  /** Whether the last call of the run was for this subject and was allowed. */
  predicate GrantedLast(l: Limits, calls: seq<Call>, subject: string)
    requires calls != []
  {
    Last(calls).subject == subject && Allowed(l, EntriesAfter(l, Front(calls)), subject, Last(calls).now)
  }

  /** The number of allowed calls of a subject at instants in [from, to). */
  function Granted(l: Limits, calls: seq<Call>, subject: string, from: Instant, to: Instant): nat {
    if calls == [] then 0
    else Granted(l, Front(calls), subject, from, to)
         + if GrantedLast(l, calls, subject) && from <= Last(calls).now < to then 1 else 0
  }

  /** A clock that does not run backwards. */
  predicate Clocked(calls: seq<Call>) {
    forall i, j :: 0 <= i < j < |calls| ==> calls[i].now <= calls[j].now
  }

  lemma ClockedFront(calls: seq<Call>)
    requires Clocked(calls) && calls != []
    ensures Clocked(Front(calls))
    ensures Front(calls) != [] ==> Last(Front(calls)).now <= Last(calls).now
  {
  }

  /** The map of entries never exceeds its cap. */
  lemma {:induction false} EntriesBounded(l: Limits, calls: seq<Call>)
    ensures |EntriesAfter(l, calls)| <= MAX_ENTRIES
  {
    if calls != [] {
      var entries, call := EntriesAfter(l, Front(calls)), Last(calls);
      EntriesBounded(l, Front(calls));
      UnexpiredSmaller(l, entries, call.now);
      var purged := Purged(l, entries, call.subject, call.now);
      if call.subject in purged {
        assert purged[call.subject := Renewed(l, Found(entries, call.subject), call.now)].Keys == purged.Keys;
      }
      assert |purged.Keys| == |purged|;
    }
  }

  lemma UnexpiredSmaller(l: Limits, entries: map<string, Window>, now: Instant)
    ensures |Unexpired(l, entries, now)| <= |entries|
  {
    assert Unexpired(l, entries, now).Keys <= entries.Keys;
    SubsetSize(Unexpired(l, entries, now).Keys, entries.Keys);
  }

  lemma {:induction false} SubsetSize<T>(a: set<T>, b: set<T>)
    requires a <= b
    ensures |a| <= |b|
  {
    assert b == a + (b - a);
  }

  // ---- purging changes no decision ------------------------------------------------------

  /** The last window that a subject was given, purged or not. */
  function LastWindow(l: Limits, calls: seq<Call>, subject: string): Window {
    if calls == [] then NO_WINDOW
    else
      var w := LastWindow(l, Front(calls), subject);
      if GrantedLast(l, calls, subject) then Renewed(l, w, Last(calls).now) else w
  }

  /** The stored window of a subject is its last one; a subject without one never had any,
      or one at the zero time, or one that has expired. */
  predicate Remembered(l: Limits, calls: seq<Call>, subject: string)
  {
    var entries, w := EntriesAfter(l, calls), LastWindow(l, calls, subject);
    if subject in entries then entries[subject] == w
    else w.start == 0 || (calls != [] && w.start + l.window <= Last(calls).now)
  }

  lemma {:induction false} StartsInPast(l: Limits, calls: seq<Call>, subject: string)
    requires Clocked(calls)
    ensures
      var w := LastWindow(l, calls, subject);
      w == NO_WINDOW || (calls != [] && w.start <= Last(calls).now && w.count >= 1)
  {
    if calls != [] {
      ClockedFront(calls);
      StartsInPast(l, Front(calls), subject);
    }
  }

  lemma {:induction false} PurgeForgetsOnlyExpired(l: Limits, calls: seq<Call>, subject: string)
    requires Clocked(calls)
    ensures Remembered(l, calls, subject)
  {
    if calls != [] {
      var front, call := Front(calls), Last(calls);
      ClockedFront(calls);
      PurgeForgetsOnlyExpired(l, front, subject);
      StartsInPast(l, front, subject);
      var w := LastWindow(l, front, subject);
      if w != NO_WINDOW {
        ExpiredExactly(l, w, call.now);
      }
    }
  }

  lemma EntriesStartInPast(l: Limits, calls: seq<Call>, now: Instant)
    requires Clocked(calls) && (calls != [] ==> Last(calls).now <= now)
    ensures forall s :: s in EntriesAfter(l, calls) ==> EntriesAfter(l, calls)[s].start <= now
  {
    forall s | s in EntriesAfter(l, calls) ensures EntriesAfter(l, calls)[s].start <= now {
      PurgeForgetsOnlyExpired(l, calls, s);
      StartsInPast(l, calls, s);
      StoredIsWindow(l, calls, s);
    }
  }

  lemma {:induction false} StoredIsWindow(l: Limits, calls: seq<Call>, subject: string)
    requires subject in EntriesAfter(l, calls)
    ensures EntriesAfter(l, calls)[subject].count >= 1
  {
    if calls != [] && subject in EntriesAfter(l, Front(calls)) {
      StoredIsWindow(l, Front(calls), subject);
    }
  }

  /** Purging never resets a running window: whatever was purged, a call is allowed exactly
      when the last window of its subject is unset, over or not used up, and the subject is
      stored or fewer than 10,000 stored windows are running. */
  lemma DecisionIgnoresPurging(l: Limits, calls: seq<Call>, call: Call)
    requires Clocked(calls + [call])
    ensures
      var entries, w := EntriesAfter(l, calls), LastWindow(l, calls, call.subject);
      Allowed(l, entries, call.subject, call.now) <==>
        && (w.start == 0 || w.start + l.window <= call.now || w.count < l.maximum)
        && (call.subject in entries || |set s | s in entries && call.now < entries[s].start + l.window| < 10_000)
  {
    hide LastWindow, EntriesAfter;
    ClockedFront(calls + [call]);
    assert Front(calls + [call]) == calls;
    PurgeForgetsOnlyExpired(l, calls, call.subject);
    StartsInPast(l, calls, call.subject);
    EntriesStartInPast(l, calls, call.now);
    var entries, w := EntriesAfter(l, calls), LastWindow(l, calls, call.subject);
    LiveWindows(l, entries, call.now);
    assert (set s | s in entries && call.now < entries[s].start + l.window)
        == (set s | s in entries && call.now - entries[s].start < l.window);
    if w != NO_WINDOW {
      ExpiredExactly(l, w, call.now);
    }
  }

  // ---- the bound --------------------------------------------------------------------------

  /** A window always admits one call. */
  function PerWindow(l: Limits): int {
    if l.maximum >= 1 then l.maximum else 1
  }

  /** The number of allowed calls of a subject from an instant on. */
  function Since(l: Limits, calls: seq<Call>, subject: string, from: Instant): nat {
    if calls == [] then 0
    else Since(l, Front(calls), subject, from)
         + if GrantedLast(l, calls, subject) && from <= Last(calls).now then 1 else 0
  }

  lemma {:induction false} GrantedIsDifference(l: Limits, calls: seq<Call>, subject: string, from: Instant, to: Instant)
    requires from <= to
    ensures Granted(l, calls, subject, from, to) == Since(l, calls, subject, from) - Since(l, calls, subject, to)
  {
    if calls != [] {
      GrantedIsDifference(l, Front(calls), subject, from, to);
    }
  }

  lemma {:induction false} SinceAntitone(l: Limits, calls: seq<Call>, subject: string, from: Instant, to: Instant)
    requires from <= to
    ensures Since(l, calls, subject, to) <= Since(l, calls, subject, from)
  {
    if calls != [] {
      SinceAntitone(l, Front(calls), subject, from, to);
    }
  }

  lemma {:induction false} NoneAhead(l: Limits, calls: seq<Call>, subject: string, from: Instant)
    requires Clocked(calls) && (calls != [] ==> Last(calls).now < from)
    ensures Since(l, calls, subject, from) == 0
  {
    if calls != [] {
      ClockedFront(calls);
      NoneAhead(l, Front(calls), subject, from);
    }
  }

  /** The counts of a subject as a function of the instant that they start from. */
  function Tally(l: Limits, calls: seq<Call>, subject: string): Instant -> int {
    t => Since(l, calls, subject, t)
  }

  /** What holds of a subject's last window. Without one, nothing was allowed; one at the
      zero time comes after all that was allowed; any other counts the calls allowed since it
      began, the first of them at its very start, and few were allowed in the window length
      before it, on its side of the zero time if calls were made there. */
  ghost predicate Counts(l: Limits, w: Window, tally: Instant -> int, zero: bool) {
    if w == NO_WINDOW then forall t :: tally(t) == 0
    else if w.start == 0 then zero && forall t :: t > 0 ==> tally(t) == 0
    else
      && 1 <= w.count <= PerWindow(l)
      && tally(w.start) == w.count
      && tally(w.start + l.window) == 0
      && (forall t :: t > w.start ==> tally(t) <= w.count - 1)
      && (forall t :: w.start - l.window < t <= w.start && (!zero || t > 0 || w.start < 0) ==>
            tally(t) - tally(w.start) <= PerWindow(l) - 1)
  }

  /** A tally before and after a call allowed at `now`, with nothing yet counted after it. */
  ghost predicate Counted(before: Instant -> int, after: Instant -> int, now: Instant) {
    && (forall t :: after(t) == before(t) + if t <= now then 1 else 0)
    && (forall t :: t > now ==> before(t) == 0)
    && (forall s, t :: s <= t ==> before(t) <= before(s))
  }

  lemma ZeroWindowBegins(l: Limits, before: Instant -> int, after: Instant -> int)
    requires Counted(before, after, 0)
    ensures Counts(l, Window(0, 1), after, true)
  {
  }

  lemma WindowBegins(l: Limits, w: Window, before: Instant -> int, after: Instant -> int, now: Instant, zero: bool)
    requires l.window > 0 && Counts(l, w, before, zero) && Counted(before, after, now)
    requires now != 0 && Resets(l, w, now) && (w == NO_WINDOW || (w.start <= now && w.count >= 1))
    ensures Counts(l, Window(now, 1), after, zero)
  {
    if w.start != 0 {
      ExpiredExactly(l, w, now);
      assert before(now) <= before(w.start + l.window);
    }
  }

  lemma WindowContinues(l: Limits, w: Window, before: Instant -> int, after: Instant -> int, now: Instant, zero: bool)
    requires l.window > 0 && Counts(l, w, before, zero) && Counted(before, after, now)
    requires !Resets(l, w, now) && w.count < l.maximum && w.start <= now
    ensures Counts(l, w.(count := w.count + 1), after, zero)
  {
    ExpiredExactly(l, w, now);
  }

  lemma TallyOfGrant(l: Limits, calls: seq<Call>, subject: string)
    requires Clocked(calls) && calls != [] && GrantedLast(l, calls, subject)
    ensures Counted(Tally(l, Front(calls), subject), Tally(l, calls, subject), Last(calls).now)
  {
    var before, now := Tally(l, Front(calls), subject), Last(calls).now;
    ClockedFront(calls);
    forall t | t > now ensures before(t) == 0 {
      NoneAhead(l, Front(calls), subject, t);
    }
    forall s, t | s <= t ensures before(t) <= before(s) {
      SinceAntitone(l, Front(calls), subject, s, t);
    }
  }

  lemma {:induction false} WindowsCount(l: Limits, calls: seq<Call>, subject: string)
    requires l.window > 0 && Clocked(calls)
    ensures Counts(l, LastWindow(l, calls, subject), Tally(l, calls, subject), ShowsZero(calls))
  {
    if calls != [] {
      ClockedFront(calls);
      WindowsCount(l, Front(calls), subject);
      assert ShowsZero(Front(calls)) ==> ShowsZero(calls);
      if GrantedLast(l, calls, subject) {
        GrantKeepsCounts(l, calls, subject);
      } else {
        forall t ensures Tally(l, calls, subject)(t) == Tally(l, Front(calls), subject)(t) {
        }
      }
    }
  }

  /** What an allowed call tells of the windows around it. */
  lemma GrantFacts(l: Limits, calls: seq<Call>, subject: string)
    requires Clocked(calls) && calls != [] && GrantedLast(l, calls, subject)
    ensures
      var w, now := LastWindow(l, Front(calls), subject), Last(calls).now;
      && LastWindow(l, calls, subject) == Renewed(l, w, now)
      && Grants(l, w, now)
      && (w == NO_WINDOW || (w.start <= now && w.count >= 1))
      && (now == 0 ==> ShowsZero(calls))
  {
    ClockedFront(calls);
    StartsInPast(l, Front(calls), subject);
    assert Front(calls) + [Last(calls)] == calls;
    DecisionIgnoresPurging(l, Front(calls), Last(calls));
  }

  lemma GrantKeepsCounts(l: Limits, calls: seq<Call>, subject: string)
    requires l.window > 0 && Clocked(calls) && calls != [] && GrantedLast(l, calls, subject)
    requires Counts(l, LastWindow(l, Front(calls), subject), Tally(l, Front(calls), subject), ShowsZero(calls))
    ensures Counts(l, LastWindow(l, calls, subject), Tally(l, calls, subject), ShowsZero(calls))
  {
    hide Counts, Counted, Tally, LastWindow, Clocked, ShowsZero, EntriesAfter, Allowed, GrantedLast, Expired, Front,
         Last;
    var front, now := Front(calls), Last(calls).now;
    var w, before, after := LastWindow(l, front, subject), Tally(l, front, subject), Tally(l, calls, subject);
    GrantFacts(l, calls, subject);
    TallyOfGrant(l, calls, subject);
    if !Resets(l, w, now) {
      WindowContinues(l, w, before, after, now, ShowsZero(calls));
    } else if now == 0 {
      ZeroWindowBegins(l, before, after);
    } else {
      WindowBegins(l, w, before, after, now, ShowsZero(calls));
    }
  }

  lemma {:induction false} NothingInEmptySpan(l: Limits, calls: seq<Call>, subject: string, from: Instant, to: Instant)
    requires to <= from
    ensures Granted(l, calls, subject, from, to) == 0
  {
    if calls != [] {
      NothingInEmptySpan(l, Front(calls), subject, from, to);
    }
  }

  predicate ShowsZero(calls: seq<Call>) {
    exists i :: 0 <= i < |calls| && calls[i].now == 0
  }

  /** The zero time lies in the half-open span of one window length from here. */
  predicate ZeroInSpan(l: Limits, from: Instant) {
    from <= 0 < from + l.window
  }

  /** At most 2 * maximum - 1 allowed calls of a subject in the half-open span of one window
      length from here. */
  predicate WithinBound(l: Limits, calls: seq<Call>, subject: string, from: Instant) {
    Granted(l, calls, subject, from, from + l.window) <= 2 * PerWindow(l) - 1
  }

  /** Every span without the zero time keeps the bound, whatever other subjects do, whenever
      entries are purged, and whatever was allowed at the zero time; and so does every span
      of a run that never shows it. */
  lemma {:induction false} BurstBound(l: Limits, calls: seq<Call>, subject: string, from: Instant)
    requires Clocked(calls) && (!ZeroInSpan(l, from) || !ShowsZero(calls))
    ensures WithinBound(l, calls, subject, from)
  {
    if l.window <= 0 {
      NothingInEmptySpan(l, calls, subject, from, from + l.window);
    } else if calls != [] {
      ClockedFront(calls);
      assert ShowsZero(Front(calls)) ==> ShowsZero(calls);
      BurstBound(l, Front(calls), subject, from);
      if GrantedLast(l, calls, subject) && from <= Last(calls).now < from + l.window {
        LastInSpan(l, calls, subject, from);
      }
    }
  }

  lemma LastInSpan(l: Limits, calls: seq<Call>, subject: string, from: Instant)
    requires l.window > 0 && Clocked(calls) && calls != [] && GrantedLast(l, calls, subject)
    requires !ZeroInSpan(l, from) || !ShowsZero(calls)
    requires from <= Last(calls).now < from + l.window
    ensures WithinBound(l, calls, subject, from)
  {
    hide Counts, Tally, LastWindow, Clocked, GrantedLast, ShowsZero, Granted, Expired, Front, Last;
    var w, tally := LastWindow(l, calls, subject), Tally(l, calls, subject);
    GrantFacts(l, calls, subject);
    WindowsCount(l, calls, subject);
    StartsInPast(l, calls, subject);
    TallyDifference(l, calls, subject, from, from + l.window);
    CountsBound(l, w, tally, from, ShowsZero(calls));
  }

  lemma TallyDifference(l: Limits, calls: seq<Call>, subject: string, from: Instant, to: Instant)
    requires from <= to
    ensures Granted(l, calls, subject, from, to) <= Tally(l, calls, subject)(from)
    ensures Granted(l, calls, subject, from, to) == Tally(l, calls, subject)(from) - Tally(l, calls, subject)(to)
  {
    GrantedIsDifference(l, calls, subject, from, to);
  }

  /** A span that a window begins in, or that begins in the window, holds few calls. */
  lemma CountsBound(l: Limits, w: Window, tally: Instant -> int, from: Instant, zero: bool)
    requires w.start != 0 && Counts(l, w, tally, zero) && w.start < from + l.window
    requires !zero || !ZeroInSpan(l, from)
    ensures tally(from) <= 2 * PerWindow(l) - 1
  {
  }

  // ---- the bound cannot be lowered, and holds exactly away from the zero time -------------------------------------

  function Repeat(call: Call, n: nat): (r: seq<Call>)
    ensures |r| == n
    ensures forall i :: 0 <= i < n ==> r[i] == call
  {
    seq(n, _ => call)
  }

  lemma RepeatOnce(calls: seq<Call>, call: Call, n: nat)
    ensures n > 0 ==> calls + Repeat(call, n) == (calls + Repeat(call, n - 1)) + [call]
    ensures calls + Repeat(call, 0) == calls
  {
  }

  /** What one more call of a subject with a lone window does. */
  lemma OneMore(l: Limits, calls: seq<Call>, call: Call, w: Window, from: Instant, to: Instant)
    requires EntriesAfter(l, calls) == map[call.subject := w] && Grants(l, w, call.now)
    ensures EntriesAfter(l, calls + [call]) == map[call.subject := Renewed(l, w, call.now)]
    ensures Granted(l, calls + [call], call.subject, from, to)
         == Granted(l, calls, call.subject, from, to) + if from <= call.now < to then 1 else 0
  {
    assert Front(calls + [call]) == calls && Last(calls + [call]) == call;
  }

  /** Calls within the room left in a live window are all allowed. */
  lemma {:induction false} RoomIsGranted(
    l: Limits, calls: seq<Call>, call: Call, n: nat, w: Window, from: Instant, to: Instant)
    requires EntriesAfter(l, calls) == map[call.subject := w] && !Resets(l, w, call.now) && w.count + n <= l.maximum
    requires from <= call.now < to
    ensures EntriesAfter(l, calls + Repeat(call, n)) == map[call.subject := w.(count := w.count + n)]
    ensures Granted(l, calls + Repeat(call, n), call.subject, from, to)
         == Granted(l, calls, call.subject, from, to) + n
  {
    hide EntriesAfter, Granted, Repeat;
    RepeatOnce(calls, call, n);
    if n > 0 {
      RoomIsGranted(l, calls, call, n - 1, w, from, to);
      OneMore(l, calls + Repeat(call, n - 1), call, w.(count := w.count + n - 1), from, to);
    }
  }

  /** One call early in a window, the rest at its end, and a full window right after. */
  function WorstCase(l: Limits, subject: string): seq<Call>
    requires l.maximum >= 1
  {
    ([Call(subject, 1)] + Repeat(Call(subject, l.window), l.maximum - 1) + [Call(subject, l.window + 1)])
    + Repeat(Call(subject, l.window + 1), l.maximum - 1)
  }

  /** The bound cannot be lowered: for every maximum and every window that is longer than
      one instant, some run reaches it. */
  lemma BoundIsReached(l: Limits, subject: string)
    requires l.maximum >= 1 && 2 <= l.window < MAX_DURATION
    ensures Clocked(WorstCase(l, subject))
    ensures Granted(l, WorstCase(l, subject), subject, l.window, 2 * l.window) == 2 * PerWindow(l) - 1
  {
    hide EntriesAfter, Granted, Repeat;
    var w, from, to := l.window, l.window, 2 * l.window;
    var first, late, next := Call(subject, 1), Call(subject, w), Call(subject, w + 1);
    var two := [first] + Repeat(late, l.maximum - 1);
    FirstCall(l, first, from, to);
    RoomIsGranted(l, [first], late, l.maximum - 1, Window(1, 1), from, to);
    ExpiredExactly(l, Window(1, l.maximum), next.now);
    OneMore(l, two, next, Window(1, l.maximum), from, to);
    RoomIsGranted(l, two + [next], next, l.maximum - 1, Window(w + 1, 1), from, to);
  }

  lemma FirstCall(l: Limits, call: Call, from: Instant, to: Instant)
    requires call.now < from
    ensures EntriesAfter(l, [call]) == map[call.subject := Window(call.now, 1)]
    ensures Granted(l, [call], call.subject, from, to) == 0
  {
    assert Front([call]) == [];
  }

  /** At the zero time every call finds a window that counts as unset: no number of calls
      is ever refused. */
  lemma {:induction false} ZeroClockNeverLimits(l: Limits, subject: string, n: nat, from: Instant, to: Instant)
    requires from <= 0 < to
    ensures Granted(l, Repeat(Call(subject, 0), n), subject, from, to) == n
    ensures n > 0 ==> EntriesAfter(l, Repeat(Call(subject, 0), n)) == map[subject := Window(0, 1)]
  {
    if n > 0 {
      ZeroClockNeverLimits(l, subject, n - 1, from, to);
      var before := Repeat(Call(subject, 0), n - 1);
      assert Repeat(Call(subject, 0), n) == before + [Call(subject, 0)];
      assert Front(before + [Call(subject, 0)]) == before;
    }
  }

  /** Exactly when a span keeps the bound in every run whose clock does not run backwards:
      when it does not contain the zero time. */
  lemma BurstBoundExactly(l: Limits, subject: string, from: Instant)
    ensures !ZeroInSpan(l, from) <==> forall calls :: Clocked(calls) ==> WithinBound(l, calls, subject, from)
  {
    if ZeroInSpan(l, from) {
      var calls := Repeat(Call(subject, 0), 2 * PerWindow(l));
      ZeroClockNeverLimits(l, subject, 2 * PerWindow(l), from, from + l.window);
      assert Clocked(calls) && !WithinBound(l, calls, subject, from);
    } else {
      forall calls | Clocked(calls) ensures WithinBound(l, calls, subject, from) {
        BurstBound(l, calls, subject, from);
      }
    }
  }

  predicate ShowsOnly(calls: seq<Call>, instants: iset<Instant>) {
    forall i :: 0 <= i < |calls| ==> calls[i].now in instants
  }

  /** Exactly when every span of every run over these instants keeps the bound, for every
      subject: when the zero time is not among them, or windows are empty. */
  lemma ClockMeetsBoundExactly(l: Limits, instants: iset<Instant>)
    ensures l.window <= 0 || 0 !in instants <==>
              forall calls, subject, from :: Clocked(calls) && ShowsOnly(calls, instants) ==>
                WithinBound(l, calls, subject, from)
  {
    if l.window > 0 && 0 in instants {
      var calls := Repeat(Call("", 0), 2 * PerWindow(l));
      ZeroClockNeverLimits(l, "", 2 * PerWindow(l), 0, 0 + l.window);
      assert Clocked(calls) && ShowsOnly(calls, instants) && !WithinBound(l, calls, "", 0);
    } else {
      forall calls, subject, from | Clocked(calls) && ShowsOnly(calls, instants)
        ensures WithinBound(l, calls, subject, from)
      {
        BurstBound(l, calls, subject, from);
      }
    }
  }
}
