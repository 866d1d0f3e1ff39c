/** The same rate limit when the commands of concurrent requests interleave. */
module RateLimitRace {
  import opened Sums

  /** How far a request has come; `now` is the clock it read on arrival. */
  datatype Phase = Arrived(now: int) | AfterTrim(now: int) | AfterAdd(now: int, member: int)

  /**
   `entries` is the sorted set, from member to score. `stamps`, `admitted` and `unchecked` are
   history: every member ever added with its time, those admitted by their count, and those let
   through because their count failed.
   */
  datatype System = System(
    entries: map<int, int>,
    requests: map<int, Phase>,
    stamps: map<int, int>,
    admitted: set<int>,
    unchecked: set<int>)

  datatype Limit = Limit(max: nat, windowMs: nat)

  /** The key may expire at any time; `at` is that time. */
  datatype Step =
    | Arrive(r: int, now: int)
    | TrimBy(r: int)
    | AddBy(r: int, member: int)
    | CountBy(r: int)
    | FailBy(r: int)
    | ExpireKey(at: int)

  ghost predicate Enabled(s: System, step: Step) {
    match step
    case Arrive(r, _) => r !in s.requests
    case TrimBy(r) => r in s.requests && s.requests[r].Arrived?
    case AddBy(r, member) => r in s.requests && s.requests[r].AfterTrim? && member !in s.stamps
    case CountBy(r) => r in s.requests && s.requests[r].AfterAdd?
    case FailBy(r) => r in s.requests
    case ExpireKey(_) => true
  }

  ghost function Next(limit: Limit, s: System, step: Step): System
    requires Enabled(s, step)
  {
    match step
    case Arrive(r, now) => s.(requests := s.requests[r := Arrived(now)])
    case TrimBy(r) =>
      var now := s.requests[r].now;
      s.(entries := map m | m in s.entries && s.entries[m] > now - limit.windowMs :: s.entries[m],
         requests := s.requests[r := AfterTrim(now)])
    case AddBy(r, member) =>
      var now := s.requests[r].now;
      s.(entries := s.entries[member := now],
         requests := s.requests[r := AfterAdd(now, member)],
         stamps := s.stamps[member := now])
    case CountBy(r) =>
      s.(requests := s.requests - {r},
         admitted := if |s.entries.Keys| <= limit.max then s.admitted + {s.requests[r].member} else s.admitted)
    case FailBy(r) =>
      s.(requests := s.requests - {r},
         unchecked := if s.requests[r].AfterAdd? then s.unchecked + {s.requests[r].member} else s.unchecked)
    case ExpireKey(_) => s.(entries := map[])
  }

  ghost predicate ValidRun(limit: Limit, s: System, run: seq<Step>)
    decreases |run|
  {
    run != [] ==> Enabled(s, run[0]) && ValidRun(limit, Next(limit, s, run[0]), run[1..])
  }

  ghost function Final(limit: Limit, s: System, run: seq<Step>): System
    requires ValidRun(limit, s, run)
    decreases |run|
  {
    if run == [] then s else Final(limit, Next(limit, s, run[0]), run[1..])
  }

  /** The set holds members that were added, under the times they were added with. */
  ghost predicate Consistent(s: System) {
    && (forall m :: m in s.entries ==> m in s.stamps && s.entries[m] == s.stamps[m])
    && s.admitted <= s.stamps.Keys
    && (forall r :: r in s.requests && s.requests[r].AfterAdd? ==>
          s.requests[r].member in s.stamps && s.stamps[s.requests[r].member] == s.requests[r].now)
  }

  lemma ConsistentKept(limit: Limit, s: System, step: Step)
    requires Consistent(s) && Enabled(s, step)
    ensures Consistent(Next(limit, s, step))
  {
  }

  // ---------------------------------------------------------------- what every interleaving keeps

  /** Admitted requests whose entries are still in the set. */
  ghost function Standing(s: System): set<int> {
    s.admitted * s.entries.Keys
  }

  lemma StandingKept(limit: Limit, s: System, step: Step)
    requires Consistent(s) && |Standing(s)| <= limit.max && Enabled(s, step)
    ensures |Standing(Next(limit, s, step))| <= limit.max
  {
    var s' := Next(limit, s, step);
    match step
    case CountBy(r) =>
      if |s.entries.Keys| <= limit.max {
        SubsetCardinality(Standing(s'), s.entries.Keys);
      }
    case _ =>
      assert Standing(s') <= Standing(s);
      SubsetCardinality(Standing(s'), Standing(s));
  }

  /** For any interleaving, at most `max` admitted requests still have an entry in the set. */
  lemma {:induction false} StandingBounded(limit: Limit, s: System, run: seq<Step>)
    requires Consistent(s) && |Standing(s)| <= limit.max && ValidRun(limit, s, run)
    ensures |Standing(Final(limit, s, run))| <= limit.max
    decreases |run|
  {
    if run == [] {
    } else {
      ConsistentKept(limit, s, run[0]);
      StandingKept(limit, s, run[0]);
      StandingBounded(limit, Next(limit, s, run[0]), run[1..]);
    }
  }

  // ---------------------------------------------------------------- the bound over time windows

  /** No attempt of the window that ends at `now` has been removed from the set. */
  ghost predicate Intact(limit: Limit, s: System, now: int) {
    forall m :: m in s.stamps && s.stamps[m] > now - limit.windowMs ==> m in s.entries
  }

  /** The windows of all requests on their way are intact. */
  ghost predicate AllIntact(limit: Limit, s: System) {
    forall r :: r in s.requests ==> Intact(limit, s, s.requests[r].now)
  }

  /**
   The step removes no attempt from the window of a request on its way, and no request arrives
   whose window has already lost one.
   */
  ghost predicate Harmless(limit: Limit, s: System, step: Step) {
    match step
    case Arrive(_, now) => Intact(limit, s, now)
    case TrimBy(r) =>
      r in s.requests ==>
        forall q, m :: q in s.requests && m in s.entries && s.entries[m] <= s.requests[r].now - limit.windowMs ==>
          s.entries[m] <= s.requests[q].now - limit.windowMs
    case ExpireKey(_) =>
      forall q, m :: q in s.requests && m in s.entries ==> s.entries[m] <= s.requests[q].now - limit.windowMs
    case _ => true
  }

  /** The windows on their way stay intact exactly through harmless steps. */
  lemma IntactKeptIffHarmless(limit: Limit, s: System, step: Step)
    requires Consistent(s) && AllIntact(limit, s) && Enabled(s, step)
    ensures AllIntact(limit, Next(limit, s, step)) <==> Harmless(limit, s, step)
  {
    var s' := Next(limit, s, step);
    match step
    case Arrive(r, now) =>
      assert s'.requests[r].now == now;
      if Harmless(limit, s, step) {
        forall q | q in s'.requests ensures Intact(limit, s', s'.requests[q].now) {
          assert q != r ==> q in s.requests;
        }
      }
      if AllIntact(limit, s') {
        assert Intact(limit, s', now);
      }
    case TrimBy(r) =>
      if AllIntact(limit, s') {
        forall q, m | q in s.requests && m in s.entries && s.entries[m] <= s.requests[r].now - limit.windowMs
          ensures s.entries[m] <= s.requests[q].now - limit.windowMs
        {
          assert q in s'.requests && s'.requests[q].now == s.requests[q].now && m !in s'.entries;
        }
      } else {
        var q :| q in s'.requests && !Intact(limit, s', s'.requests[q].now);
        var m :| m in s'.stamps && s'.stamps[m] > s'.requests[q].now - limit.windowMs && m !in s'.entries;
        assert Intact(limit, s, s.requests[q].now) && m in s.entries;
      }
    case ExpireKey(_) =>
      if AllIntact(limit, s') {
        forall q, m | q in s.requests && m in s.entries ensures s.entries[m] <= s.requests[q].now - limit.windowMs {
          assert q in s'.requests && m !in s'.entries;
        }
      } else {
        var q :| q in s'.requests && !Intact(limit, s', s'.requests[q].now);
        var m :| m in s'.stamps && s'.stamps[m] > s'.requests[q].now - limit.windowMs;
        assert Intact(limit, s, s.requests[q].now) && m in s.entries;
      }
    case _ =>
      forall q | q in s'.requests ensures Intact(limit, s', s'.requests[q].now) {
        assert q in s.requests && s.requests[q].now == s'.requests[q].now && Intact(limit, s, s.requests[q].now);
      }
  }

  /** The admitted requests stamped in the window that ends at `end`. */
  ghost function AdmittedIn(limit: Limit, s: System, end: int): set<int> {
    set m | m in s.admitted && m in s.stamps && end - limit.windowMs < s.stamps[m] <= end
  }

  /** No window of the configured length admits more than the maximum, wherever it lies. */
  ghost predicate WindowsBounded(limit: Limit, s: System) {
    forall end :: |AdmittedIn(limit, s, end)| <= limit.max
  }

  /** While the window of a request is intact, its count bounds every window that holds its stamp. */
  lemma WindowsBoundedKept(limit: Limit, s: System, step: Step)
    requires Consistent(s) && AllIntact(limit, s) && WindowsBounded(limit, s) && Enabled(s, step)
    ensures WindowsBounded(limit, Next(limit, s, step))
  {
    var s' := Next(limit, s, step);
    forall end ensures |AdmittedIn(limit, s', end)| <= limit.max {
      if step.CountBy? && s'.admitted != s.admitted && s.requests[step.r].member in AdmittedIn(limit, s', end) {
        var now := s.requests[step.r].now;
        assert Intact(limit, s, now) && now <= end;
        forall m | m in AdmittedIn(limit, s', end) ensures m in s.entries {
          assert s.stamps[m] > now - limit.windowMs;
        }
        SubsetCardinality(AdmittedIn(limit, s', end), s.entries.Keys);
      } else {
        assert AdmittedIn(limit, s', end) <= AdmittedIn(limit, s, end);
        SubsetCardinality(AdmittedIn(limit, s', end), AdmittedIn(limit, s, end));
      }
    }
  }

  ghost predicate HarmlessRun(limit: Limit, s: System, run: seq<Step>)
    requires ValidRun(limit, s, run)
    decreases |run|
  {
    run != [] ==> Harmless(limit, s, run[0]) && HarmlessRun(limit, Next(limit, s, run[0]), run[1..])
  }

  /** In any interleaving of harmless steps, no window admits more than the maximum. */
  lemma {:induction false} WindowBoundInterleaved(limit: Limit, s: System, run: seq<Step>)
    requires Consistent(s) && AllIntact(limit, s) && WindowsBounded(limit, s)
    requires ValidRun(limit, s, run) && HarmlessRun(limit, s, run)
    ensures WindowsBounded(limit, Final(limit, s, run))
    decreases |run|
  {
    if run == [] {
    } else {
      ConsistentKept(limit, s, run[0]);
      IntactKeptIffHarmless(limit, s, run[0]);
      WindowsBoundedKept(limit, s, run[0]);
      WindowBoundInterleaved(limit, Next(limit, s, run[0]), run[1..]);
    }
  }

  // ---------------------------------------------------------------- a guard on the clock

  /**
   `clock` is the latest time of a trim or an expiry so far. Requests arrive with a stamp no
   earlier than it; no request trims while one with an earlier stamp is on its way; the key
   expires only when every entry, and every request on its way, is a window older or later.
   */
  ghost predicate InOrder(limit: Limit, s: System, step: Step, clock: int) {
    match step
    case Arrive(_, now) => now >= clock
    case TrimBy(r) => r in s.requests ==> forall q :: q in s.requests ==> s.requests[q].now >= s.requests[r].now
    case ExpireKey(at) =>
      && (forall m :: m in s.entries ==> s.entries[m] <= at - limit.windowMs)
      && (forall q :: q in s.requests ==> s.requests[q].now >= at)
    case _ => true
  }

  ghost function ClockAfter(s: System, step: Step, clock: int): int {
    match step
    case TrimBy(r) => if r in s.requests && s.requests[r].now > clock then s.requests[r].now else clock
    case ExpireKey(at) => if at > clock then at else clock
    case _ => clock
  }

  ghost predicate InOrderRun(limit: Limit, s: System, run: seq<Step>, clock: int)
    requires ValidRun(limit, s, run)
    decreases |run|
  {
    run != [] ==>
      InOrder(limit, s, run[0], clock) &&
          InOrderRun(limit, Next(limit, s, run[0]), run[1..], ClockAfter(s, run[0], clock))
  }

  /** What was removed had left the window by then. */
  ghost predicate RemovedAreOld(limit: Limit, s: System, clock: int) {
    forall m :: m in s.stamps && m !in s.entries ==> s.stamps[m] <= clock - limit.windowMs
  }

  lemma RemovedStayOld(limit: Limit, s: System, step: Step, clock: int)
    requires Consistent(s) && RemovedAreOld(limit, s, clock) && Enabled(s, step) && InOrder(limit, s, step, clock)
    ensures RemovedAreOld(limit, Next(limit, s, step), ClockAfter(s, step, clock))
    ensures Harmless(limit, s, step)
  {
    var s' := Next(limit, s, step);
    forall m | m in s'.stamps && m !in s'.entries ensures s'.stamps[m] <= ClockAfter(s, step, clock) - limit.windowMs {
      if m in s.entries {
        assert s.entries[m] == s.stamps[m];
      } else if m in s.stamps {
        assert s.stamps[m] <= clock - limit.windowMs;
      }
    }
  }

  /** Trims in the order of the stamps, however else the commands interleave, keep the window bound. */
  lemma {:induction false} WindowBoundInOrder(limit: Limit, s: System, run: seq<Step>, clock: int)
    requires Consistent(s) && AllIntact(limit, s) && WindowsBounded(limit, s) && RemovedAreOld(limit, s, clock)
    requires ValidRun(limit, s, run) && InOrderRun(limit, s, run, clock)
    ensures WindowsBounded(limit, Final(limit, s, run))
    decreases |run|
  {
    if run == [] {
    } else {
      ConsistentKept(limit, s, run[0]);
      RemovedStayOld(limit, s, run[0], clock);
      IntactKeptIffHarmless(limit, s, run[0]);
      WindowsBoundedKept(limit, s, run[0]);
      WindowBoundInOrder(limit, Next(limit, s, run[0]), run[1..], ClockAfter(s, run[0], clock));
    }
  }

  /** Checks that do not overlap, on a clock that never goes back, are in order whatever else they do. */
  lemma AtomicCheckInOrder(limit: Limit, s: System, r: int, now: int, member: int, clock: int)
    requires s.requests == map[] && member !in s.stamps && clock <= now
    ensures var arrive, trim, add, count := Arrive(r, now), TrimBy(r), AddBy(r, member), CountBy(r);
            var s1 := Next(limit, s, arrive);
            var s2 := Next(limit, s1, trim);
            var s3 := Next(limit, s2, add);
            && InOrder(limit, s, arrive, clock) && ClockAfter(s, arrive, clock) == clock
            && InOrder(limit, s1, trim, clock) && ClockAfter(s1, trim, clock) == now
            && InOrder(limit, s2, add, now) && ClockAfter(s2, add, now) == now
            && InOrder(limit, s3, count, now) && ClockAfter(s3, count, now) == now
            && Next(limit, s3, count).requests == map[]
  {
  }

  /**
   The commands of a check that is not interleaved leave this attempt and those of the last window in
   the set, and admit the request exactly when they are no more than the maximum.
   */
  lemma AtomicCheckInItsFields(limit: Limit, s: System, r: int, now: int, member: int)
    requires r !in s.requests && member !in s.stamps && member !in s.admitted
    ensures var s1 := Next(limit, s, Arrive(r, now));
            var s2 := Next(limit, s1, TrimBy(r));
            var s3 := Next(limit, s2, AddBy(r, member));
            var s4 := Next(limit, s3, CountBy(r));
            var kept := map m | m in s.entries && s.entries[m] > now - limit.windowMs :: s.entries[m];
            && s4.entries == kept[member := now] && s4.stamps == s.stamps[member := now]
            && (member in s4.admitted <==> |s4.entries.Keys| <= limit.max)
            && s4.admitted - {member} == s.admitted && s4.unchecked == s.unchecked
            && s4.requests == s.requests
            && Next(limit, s3, FailBy(r)) == s4.(admitted := s.admitted, unchecked := s.unchecked + {member})
  {
  }

  // ---------------------------------------------------------------- the other half

  /** The attempts, whatever became of their entries, later than a window before `now`. */
  ghost function Recent(limit: Limit, s: System, now: int): set<int> {
    set m | m in s.stamps && s.stamps[m] > now - limit.windowMs
  }

  lemma CountedWhenAlone(limit: Limit, s: System, r: int, member: int, m: int)
    requires limit.windowMs > 0 && Consistent(s)
    requires r in s.requests && s.requests[r].Arrived? && member !in s.stamps
    ensures var now := s.requests[r].now;
            var added := Next(limit, Next(limit, s, TrimBy(r)), AddBy(r, member));
            && (m in added.entries <==> m == member || (m in s.entries && s.stamps[m] > now - limit.windowMs))
            && (m in Recent(limit, added, now) <==> m == member || m in Recent(limit, s, now))
  {
    if m in s.entries {
      assert s.entries[m] == s.stamps[m];
    }
  }

  /**
   A request that goes on undisturbed counts every attempt of its window if and only if none was
   removed; otherwise it counts fewer, and passes a limit that those attempts exceed.
   */
  lemma CountsAllIffIntact(limit: Limit, s: System, r: int, member: int)
    requires limit.windowMs > 0 && Consistent(s)
    requires r in s.requests && s.requests[r].Arrived? && member !in s.stamps
    ensures var now := s.requests[r].now;
            var added := Next(limit, Next(limit, s, TrimBy(r)), AddBy(r, member));
            && (|added.entries.Keys| == |Recent(limit, added, now)| <==> Intact(limit, s, now))
            && |added.entries.Keys| <= |Recent(limit, added, now)|
  {
    var now := s.requests[r].now;
    var added := Next(limit, Next(limit, s, TrimBy(r)), AddBy(r, member));
    forall m {
      CountedWhenAlone(limit, s, r, member, m);
    }
    CompareCounts(limit, s, now, member, added.entries.Keys, Recent(limit, added, now));
  }

  lemma CompareCounts(limit: Limit, s: System, now: int, member: int, counted: set<int>, recent: set<int>)
    requires Consistent(s) && member !in s.stamps
    requires forall m :: m in counted <==> m == member || (m in s.entries && s.stamps[m] > now - limit.windowMs)
    requires forall m :: m in recent <==> m == member || m in Recent(limit, s, now)
    ensures |counted| == |recent| <==> Intact(limit, s, now)
    ensures |counted| <= |recent|
  {
    forall m | m in counted ensures m in recent {
      assert m != member ==> m in s.stamps && m in Recent(limit, s, now);
    }
    SubsetCardinality(counted, recent);
    if Intact(limit, s, now) {
      forall m ensures m in counted <==> m in recent {
        assert m in s.entries ==> m in s.stamps;
        assert m in Recent(limit, s, now) ==> m in s.entries;
      }
      assert counted == recent;
    } else {
      var m :| m in s.stamps && s.stamps[m] > now - limit.windowMs && m !in s.entries;
      assert m in recent && m !in counted;
      SubsetCardinality(counted, recent - {m});
    }
  }

  lemma PrependStep(limit: Limit, s: System, step: Step, rest: seq<Step>)
    requires Enabled(s, step) && ValidRun(limit, Next(limit, s, step), rest)
    ensures ValidRun(limit, s, [step] + rest) &&
        Final(limit, s, [step] + rest) == Final(limit, Next(limit, s, step), rest)
  {
    assert ([step] + rest)[1..] == rest;
  }

  ghost function Idle(): System {
    System(map[], map[], map[], {}, {})
  }

  ghost function Members(n: nat): (members: set<int>)
    ensures |members| == n
    ensures forall m :: m in members <==> 0 <= m < n
  {
    if n == 0 then {} else Members(n - 1) + {n - 1}
  }

  /** The entries of `n` requests stamped `first`. */
  ghost function Entries(n: nat, first: int): (entries: map<int, int>)
    ensures entries.Keys == Members(n)
  {
    map m | m in Members(n) :: first
  }

  /** The requests with these stamps have been checked, one after the other, and admitted. */
  ghost function Admitted(stamps: map<int, int>): System {
    System(stamps, map[], stamps, stamps.Keys, {})
  }

  lemma AddsAndIsAdmitted(limit: Limit, stamps: map<int, int>, n: int, now: int, rest: seq<Step>)
    requires n !in stamps && |stamps.Keys| < limit.max && ValidRun(limit, Admitted(stamps[n := now]), rest)
    ensures var s := Admitted(stamps).(requests := map[n := AfterTrim(now)]);
            var run := [AddBy(n, n)] + ([CountBy(n)] + rest);
            ValidRun(limit, s, run) && Final(limit, s, run) == Final(limit, Admitted(stamps[n := now]), rest)
  {
    var s := Admitted(stamps).(requests := map[n := AfterTrim(now)]);
    var added := System(stamps[n := now], map[n := AfterAdd(now, n)], stamps[n := now], stamps.Keys, {});
    assert added.entries.Keys == stamps.Keys + {n};
    assert added.requests - {n} == map[];
    assert Next(limit, added, CountBy(n)) == Admitted(stamps[n := now]);
    PrependStep(limit, added, CountBy(n), rest);
    assert s.requests[n := AfterAdd(now, n)] == added.requests;
    PrependStep(limit, s, AddBy(n, n), [CountBy(n)] + rest);
  }

  lemma ArrivesAndTrims(limit: Limit, stamps: map<int, int>, n: int, now: int, rest: seq<Step>)
    requires limit.windowMs > 0 && forall m :: m in stamps ==> stamps[m] == now
    requires ValidRun(limit, Admitted(stamps).(requests := map[n := AfterTrim(now)]), rest)
    ensures var s, run := Admitted(stamps), [Arrive(n, now)] + ([TrimBy(n)] + rest);
            && ValidRun(limit, s, run)
            && Final(limit, s, run) == Final(limit, s.(requests := map[n := AfterTrim(now)]), rest)
  {
    var s := Admitted(stamps);
    var arrived := s.(requests := map[n := Arrived(now)]);
    TrimKeeps(limit, arrived, n, now);
    assert arrived.requests[n := AfterTrim(now)] == map[n := AfterTrim(now)];
    PrependStep(limit, arrived, TrimBy(n), rest);
    PrependStep(limit, s, Arrive(n, now), [TrimBy(n)] + rest);
  }

  /** The checks of the requests from the `n`-th up to the maximum, and then `rest`. */
  ghost function ChecksThen(limit: Limit, n: nat, first: int, rest: seq<Step>): seq<Step>
    requires n <= limit.max
    decreases limit.max - n
  {
    if n == limit.max then rest
    else [Arrive(n, first)] + ([TrimBy(n)] + ([AddBy(n, n)] + ([CountBy(n)] + ChecksThen(limit, n + 1, first, rest))))
  }

  ghost predicate Reaches(limit: Limit, s: System, run: seq<Step>, end: System)
    decreases |run|
  {
    if run == [] then s == end else Enabled(s, run[0]) && Reaches(limit, Next(limit, s, run[0]), run[1..], end)
  }

  lemma {:induction false} ReachesIff(limit: Limit, s: System, run: seq<Step>, end: System)
    ensures Reaches(limit, s, run, end) <==> ValidRun(limit, s, run) && Final(limit, s, run) == end
    decreases |run|
  {
    if run == [] {
    } else if Enabled(s, run[0]) {
      ReachesIff(limit, Next(limit, s, run[0]), run[1..], end);
    }
  }

  lemma AnotherIsAdmitted(limit: Limit, stamps: map<int, int>, n: int, now: int, rest: seq<Step>, end: System)
    requires limit.windowMs > 0 && forall m :: m in stamps ==> stamps[m] == now
    requires n !in stamps && |stamps.Keys| < limit.max && Reaches(limit, Admitted(stamps[n := now]), rest, end)
    ensures Reaches(limit, Admitted(stamps),
                    [Arrive(n, now)] + ([TrimBy(n)] + ([AddBy(n, n)] + ([CountBy(n)] + rest))), end)
  {
    ReachesIff(limit, Admitted(stamps[n := now]), rest, end);
    AddsAndIsAdmitted(limit, stamps, n, now, rest);
    ArrivesAndTrims(limit, stamps, n, now, [AddBy(n, n)] + ([CountBy(n)] + rest));
    ReachesIff(limit, Admitted(stamps),
               [Arrive(n, now)] + ([TrimBy(n)] + ([AddBy(n, n)] + ([CountBy(n)] + rest))), end);
  }

  lemma EntriesOfOneMore(n: nat, first: int)
    ensures Entries(n + 1, first) == Entries(n, first)[n := first]
  {
  }

  /** From `n` admitted requests, the checks of those up to the maximum and then `rest` end in `end`. */
  ghost predicate ChecksReach(limit: Limit, n: nat, first: int, rest: seq<Step>, end: System)
    requires n <= limit.max
  {
    exists run :: run == ChecksThen(limit, n, first, rest) && Reaches(limit, Admitted(Entries(n, first)), run, end)
  }

  lemma OneMoreIsAdmitted(limit: Limit, n: nat, first: int, rest: seq<Step>, end: System)
    requires n < limit.max && limit.windowMs > 0 && ChecksReach(limit, n + 1, first, rest, end)
    ensures ChecksReach(limit, n, first, rest, end)
  {
    var later :|
      later == ChecksThen(limit, n + 1, first, rest) && Reaches(limit, Admitted(Entries(n + 1, first)), later, end);
    EntriesOfOneMore(n, first);
    AnotherIsAdmitted(limit, Entries(n, first), n, first, later, end);
  }

  lemma {:induction false} MaximumIsAdmitted(limit: Limit, n: nat, first: int, rest: seq<Step>, end: System)
    requires n <= limit.max && limit.windowMs > 0 && ChecksReach(limit, limit.max, first, rest, end)
    ensures ChecksReach(limit, n, first, rest, end)
    decreases limit.max - n
  {
    if n == limit.max {
    } else {
      MaximumIsAdmitted(limit, n + 1, first, rest, end);
      OneMoreIsAdmitted(limit, n, first, rest, end);
    }
  }

  /** The requests that meet out of order. */
  const HELD: int := -1
  const LATE: int := -2

  function KeptAfter(limit: Limit, entries: map<int, int>, first: int, now: int): map<int, int> {
    if first > now - limit.windowMs then entries else map[]
  }

  /** What a trim leaves of a set all of whose entries are stamped `first`. */
  lemma TrimKeeps(limit: Limit, s: System, r: int, first: int)
    requires forall m :: m in s.entries ==> s.entries[m] == first
    requires r in s.requests && s.requests[r].Arrived?
    ensures var now := s.requests[r].now;
            Next(limit, s, TrimBy(r)) ==
              s.(entries := KeptAfter(limit, s.entries, first, now), requests := s.requests[r := AfterTrim(now)])
  {
    var now := s.requests[r].now;
    if first > now - limit.windowMs {
      forall m ensures m in Next(limit, s, TrimBy(r)).entries <==> m in s.entries {
        assert m in s.entries ==> s.entries[m] == first;
      }
      assert Next(limit, s, TrimBy(r)).entries == s.entries;
    } else {
      assert forall m :: m !in Next(limit, s, TrimBy(r)).entries;
      assert Next(limit, s, TrimBy(r)).entries == map[];
    }
  }

  /** The first requests are admitted; the held and the late one are as far as given. */
  ghost function Meeting(kept: map<int, int>, stamps: map<int, int>, held: Phase, late: Phase): System {
    System(kept, map[HELD := held, LATE := late], stamps, stamps.Keys, {})
  }

  lemma BothArrive(limit: Limit, stamps: map<int, int>, held: int, late: int, rest: seq<Step>)
    requires ValidRun(limit, Meeting(stamps, stamps, Arrived(held), Arrived(late)), rest)
    ensures var s := Admitted(stamps);
            var run := [Arrive(HELD, held)] + ([Arrive(LATE, late)] + rest);
            && ValidRun(limit, s, run)
            && Final(limit, s, run) == Final(limit, Meeting(stamps, stamps, Arrived(held), Arrived(late)), rest)
  {
    var s := Admitted(stamps);
    var s1 := s.(requests := map[HELD := Arrived(held)]);
    assert s1.requests[LATE := Arrived(late)] == map[HELD := Arrived(held), LATE := Arrived(late)];
    PrependStep(limit, s1, Arrive(LATE, late), rest);
    PrependStep(limit, s, Arrive(HELD, held), [Arrive(LATE, late)] + rest);
  }

  lemma LateTrims(limit: Limit, stamps: map<int, int>, first: int, held: int, late: int, rest: seq<Step>)
    requires forall m :: m in stamps ==> stamps[m] == first
    requires var s' := Meeting(KeptAfter(limit, stamps, first, late), stamps, Arrived(held), AfterTrim(late));
             ValidRun(limit, s', rest)
    ensures var s := Meeting(stamps, stamps, Arrived(held), Arrived(late));
            var s' := Meeting(KeptAfter(limit, stamps, first, late), stamps, Arrived(held), AfterTrim(late));
            && ValidRun(limit, s, [TrimBy(LATE)] + rest)
            && Final(limit, s, [TrimBy(LATE)] + rest) == Final(limit, s', rest)
  {
    var s := Meeting(stamps, stamps, Arrived(held), Arrived(late));
    TrimKeeps(limit, s, LATE, first);
    assert s.requests[LATE := AfterTrim(late)] == map[HELD := Arrived(held), LATE := AfterTrim(late)];
    PrependStep(limit, s, TrimBy(LATE), rest);
  }

  lemma HeldTrims(limit: Limit, kept: map<int, int>, stamps: map<int, int>, first: int, held: int, late: int,
                  rest: seq<Step>)
    requires forall m :: m in kept ==> kept[m] == first
    requires var s' := Meeting(KeptAfter(limit, kept, first, held), stamps, AfterTrim(held), AfterTrim(late));
             ValidRun(limit, s', rest)
    ensures var s := Meeting(kept, stamps, Arrived(held), AfterTrim(late));
            var s' := Meeting(KeptAfter(limit, kept, first, held), stamps, AfterTrim(held), AfterTrim(late));
            && ValidRun(limit, s, [TrimBy(HELD)] + rest)
            && Final(limit, s, [TrimBy(HELD)] + rest) == Final(limit, s', rest)
  {
    var s := Meeting(kept, stamps, Arrived(held), AfterTrim(late));
    TrimKeeps(limit, s, HELD, first);
    assert s.requests[HELD := AfterTrim(held)] == map[HELD := AfterTrim(held), LATE := AfterTrim(late)];
    PrependStep(limit, s, TrimBy(HELD), rest);
  }

  /** The held request has added and counted itself on top of what the two trims kept. */
  ghost function HeldCounted(limit: Limit, kept: map<int, int>, stamps: map<int, int>, held: int, late: int): System {
    var n := limit.max;
    System(kept[n := held], map[LATE := AfterTrim(late)], stamps[n := held],
           if kept == map[] then stamps.Keys + {n} else stamps.Keys, {})
  }

  lemma HeldCounts(limit: Limit, kept: map<int, int>, stamps: map<int, int>, held: int, late: int)
    requires limit.max >= 1 && |stamps.Keys| == limit.max && limit.max !in stamps && (kept == map[] || kept == stamps)
    ensures var n := limit.max;
            var added := System(kept[n := held], map[HELD := AfterAdd(held, n), LATE := AfterTrim(late)],
                                stamps[n := held], stamps.Keys, {});
            Next(limit, added, CountBy(HELD)) == HeldCounted(limit, kept, stamps, held, late)
  {
    var n := limit.max;
    var requests := map[HELD := AfterAdd(held, n), LATE := AfterTrim(late)];
    assert requests - {HELD} == map[LATE := AfterTrim(late)];
    if kept == map[] {
      assert kept[n := held].Keys == {n};
    } else {
      assert kept[n := held].Keys == stamps.Keys + {n};
    }
  }

  lemma HeldAddsAndCounts(limit: Limit, kept: map<int, int>, stamps: map<int, int>, held: int, late: int)
    requires limit.max >= 1 && |stamps.Keys| == limit.max && limit.max !in stamps && (kept == map[] || kept == stamps)
    ensures var s := Meeting(kept, stamps, AfterTrim(held), AfterTrim(late));
            var run := [AddBy(HELD, limit.max)] + ([CountBy(HELD)] + []);
            ValidRun(limit, s, run) && Final(limit, s, run) == HeldCounted(limit, kept, stamps, held, late)
  {
    var n := limit.max;
    var s := Meeting(kept, stamps, AfterTrim(held), AfterTrim(late));
    var added := System(kept[n := held], map[HELD := AfterAdd(held, n), LATE := AfterTrim(late)],
                        stamps[n := held], stamps.Keys, {});
    HeldCounts(limit, kept, stamps, held, late);
    PrependStep(limit, added, CountBy(HELD), []);
    assert s.requests[HELD := AfterAdd(held, n)] == added.requests;
    PrependStep(limit, s, AddBy(HELD, n), [CountBy(HELD)] + []);
  }

  ghost function KeptByBoth(limit: Limit, first: int, held: int, late: int): map<int, int> {
    KeptAfter(limit, KeptAfter(limit, Entries(limit.max, first), first, late), first, held)
  }

  lemma HeldBreaksBoundIff(limit: Limit, first: int, held: int, late: int)
    requires limit.max >= 1 && first <= held
    ensures var kept, stamps := KeptByBoth(limit, first, held, late), Entries(limit.max, first);
            WindowsBounded(limit, HeldCounted(limit, kept, stamps, held, late)) <==>
              !(held - limit.windowMs < first <= late - limit.windowMs)
  {
    var n, kept := limit.max, KeptByBoth(limit, first, held, late);
    var end := HeldCounted(limit, kept, Entries(n, first), held, late);
    assert 0 in Entries(n, first);
    assert kept == map[] <==> first <= late - limit.windowMs || first <= held - limit.windowMs;
    if held - limit.windowMs < first <= late - limit.windowMs {
      assert AdmittedIn(limit, end, held) == Members(n) + {n} && n !in Members(n);
      assert |AdmittedIn(limit, end, held)| == n + 1;
    } else {
      forall at ensures |AdmittedIn(limit, end, at)| <= n {
        if n in AdmittedIn(limit, end, at) {
          assert AdmittedIn(limit, end, at) <= {n};
          SubsetCardinality(AdmittedIn(limit, end, at), {n});
        } else {
          SubsetCardinality(AdmittedIn(limit, end, at), Members(n));
        }
      }
    }
  }

  /** A request is held up before its trim, and a late one overtakes it. */
  ghost function MeetingRun(limit: Limit, held: int, late: int): seq<Step> {
    [Arrive(HELD, held)] + ([Arrive(LATE, late)] +
    ([TrimBy(LATE)] + ([TrimBy(HELD)] + ([AddBy(HELD, limit.max)] + ([CountBy(HELD)] + [])))))
  }

  lemma MeetingReaches(limit: Limit, first: int, held: int, late: int)
    requires limit.max >= 1
    ensures var stamps := Entries(limit.max, first);
            Reaches(limit, Admitted(stamps), MeetingRun(limit, held, late),
                    HeldCounted(limit, KeptByBoth(limit, first, held, late), stamps, held, late))
  {
    var stamps := Entries(limit.max, first);
    var r1 := [AddBy(HELD, limit.max)] + ([CountBy(HELD)] + []);
    HeldAddsAndCounts(limit, KeptByBoth(limit, first, held, late), stamps, held, late);
    HeldTrims(limit, KeptAfter(limit, stamps, first, late), stamps, first, held, late, r1);
    LateTrims(limit, stamps, first, held, late, [TrimBy(HELD)] + r1);
    BothArrive(limit, stamps, held, late, [TrimBy(LATE)] + ([TrimBy(HELD)] + r1));
    ReachesIff(limit, Admitted(stamps), MeetingRun(limit, held, late),
               HeldCounted(limit, KeptByBoth(limit, first, held, late), stamps, held, late));
  }

  /** As many checks as the limit allows, then a held-up request that a late one overtakes. */
  ghost function OvertakingRun(limit: Limit, first: int, held: int, late: int): seq<Step> {
    ChecksThen(limit, 0, first, MeetingRun(limit, held, late))
  }

  lemma ChecksFromIdle(limit: Limit, first: int, rest: seq<Step>, end: System)
    requires limit.windowMs > 0 && Reaches(limit, Admitted(Entries(limit.max, first)), rest, end)
    ensures ValidRun(limit, Idle(), ChecksThen(limit, 0, first, rest))
    ensures Final(limit, Idle(), ChecksThen(limit, 0, first, rest)) == end
  {
    assert ChecksThen(limit, limit.max, first, rest) == rest;
    assert ChecksReach(limit, limit.max, first, rest, end);
    MaximumIsAdmitted(limit, 0, first, rest, end);
    assert Entries(0, first) == map[];
    assert Admitted(Entries(0, first)) == Idle();
    ReachesIff(limit, Idle(), ChecksThen(limit, 0, first, rest), end);
  }

  /**
   A trim out of order breaks the window bound exactly when it removes attempts from the window of
   the request it overtakes. As many requests as the limit allows are admitted; one is held up before
   its trim; a late one trims; the held one then counts itself. The bound is broken if and only if
   the first were removed by the late trim and lie in the window of the held one.
   */
  lemma OvertakingTrimBreaksBoundIff(limit: Limit, first: int, held: int, late: int)
    requires limit.max >= 1 && limit.windowMs > 0 && first <= held
    ensures var run := OvertakingRun(limit, first, held, late);
            && ValidRun(limit, Idle(), run)
            && (WindowsBounded(limit, Final(limit, Idle(), run)) <==>
                  !(held - limit.windowMs < first <= late - limit.windowMs))
  {
    var end := HeldCounted(limit, KeptByBoth(limit, first, held, late), Entries(limit.max, first), held, late);
    MeetingReaches(limit, first, held, late);
    ChecksFromIdle(limit, first, MeetingRun(limit, held, late), end);
    HeldBreaksBoundIff(limit, first, held, late);
  }

  /** Stamps 0, 5000 and 20000 under a limit of one in ten seconds: two requests five seconds apart are admitted. */
  lemma HeldUpRequestEscapesWindow()
    ensures var limit := Limit(1, 10000);
            exists run :: ValidRun(limit, Idle(), run) && !WindowsBounded(limit, Final(limit, Idle(), run))
  {
    OvertakingTrimBreaksBoundIff(Limit(1, 10000), 0, 5000, 20000);
  }
}
