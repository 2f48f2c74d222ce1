/** Noticing that a peer has gone: the tick that probes and closes, and the report of a doubtful link.
    Times are nanoseconds of one monotonic clock. */
module Liveness {
  import opened Base

  const MILLI: nat := 1_000_000
  const LIVENESS_TICK: nat := 15_000_000_000
  const LIVENESS_PROBE_AFTER: nat := 60_000_000_000
  const LIVENESS_DEAD_AFTER: nat := 180_000_000_000
  const LIVENESS_STALE_AFTER: nat := 90_000_000_000

  datatype Verdict = Quiet | SendProbe | Close

  function Judge(silence: nat): Verdict {
    if silence >= LIVENESS_DEAD_AFTER then Close
    else if silence >= LIVENESS_PROBE_AFTER then SendProbe
    else Quiet
  }

  /** What a holder of the session computes: the last frame's age, kept in whole milliseconds. */
  function SilentFor(started: Time, lastMs: nat, now: Time): nat {
    var elapsed := if now >= started then now - started else 0;
    if elapsed >= lastMs * MILLI then elapsed - lastMs * MILLI else 0
  }

  class LivenessClock {
    const started: Time
    var last: Time
    var lastMs: nat

    ghost predicate Valid()
      reads this
    {
      started <= last && lastMs == (last - started) / MILLI
    }

    constructor (now: Time)
      ensures Valid() && started == last == now
    {
      started, last, lastMs := now, now, 0;
    }

    method OnInbound(now: Time)
      requires Valid() && last <= now
      modifies this
      ensures Valid() && last == now
    {
      last := now;
      lastMs := (now - started) / MILLI;
    }

    method OnTick(now: Time) returns (v: Verdict)
      requires Valid() && last <= now
      ensures v == Judge(now - last)
    {
      var silence := now - last;
      if silence >= LIVENESS_DEAD_AFTER {
        v := Close;
      } else if silence >= LIVENESS_PROBE_AFTER {
        v := SendProbe;
      } else {
        v := Quiet;
      }
    }

    /** Stale exactly when the true silence, plus what truncating the last frame's time lost, reaches the limit. */
    method IsStale(now: Time) returns (stale: bool)
      requires Valid() && last <= now
      ensures stale <==> now - last + (last - started) % MILLI >= LIVENESS_STALE_AFTER
    {
      SilenceIsTruncated(started, last, now);
      stale := SilentFor(started, lastMs, now) >= LIVENESS_STALE_AFTER;
    }
  }

  lemma SilenceIsTruncated(started: Time, last: Time, now: Time)
    requires started <= last <= now
    ensures SilentFor(started, (last - started) / MILLI, now) == now - last + (last - started) % MILLI
  {
    var d := last - started;
    assert d == (d / MILLI) * MILLI + d % MILLI;
  }

  // ---- Runs with ticks on time ----

  datatype Event = Frame(at: Time) | Tick

  /** `unanswered` counts the probes sent since the last frame. */
  datatype State = State(last: Time, ticks: nat, unanswered: nat, closed: bool)

  /** The loop starts ticking at `base`; tick number `n` is due `n` periods of fifteen seconds later. */
  function Due(base: Time, n: nat): Time {
    base + LIVENESS_TICK * n
  }

  function Step(s: State, base: Time, e: Event): State {
    match e
    case Frame(at) => s.(last := at, unanswered := 0)
    case Tick =>
      var now := Due(base, s.ticks + 1);
      var next := s.(ticks := s.ticks + 1);
      match Judge(if now >= s.last then now - s.last else 0)
      case Close => next.(closed := true)
      case SendProbe => next.(unanswered := s.unanswered + 1)
      case Quiet => next
  }

  function Run(started: Time, base: Time, run: seq<Event>): State {
    if run == [] then State(started, 0, 0, false)
    else Step(Run(started, base, run[..|run| - 1]), base, run[|run| - 1])
  }

  /** A frame is handled between the last tick and the next; at the instant of a tick, before it. */
  predicate InTime(s: State, base: Time, at: Time) {
    !s.closed && s.last <= at <= Due(base, s.ticks + 1) && (s.ticks > 0 ==> Due(base, s.ticks) <= at)
  }

  ghost predicate OnTime(started: Time, base: Time, run: seq<Event>) {
    && started <= base
    && (run != [] ==> && OnTime(started, base, run[..|run| - 1])
                      && EventInTime(Run(started, base, run[..|run| - 1]), base, run[|run| - 1]))
  }

  /** Frames are handled only once the loop, and with it the ticking, has begun. */
  predicate EventInTime(s: State, base: Time, e: Event) {
    !s.closed && (e.Frame? ==> InTime(s, base, e.at) && base <= e.at)
  }

  /** When the oldest unanswered probe was sent. */
  function FirstUnanswered(s: State, base: Time): Time
    requires 0 < s.unanswered <= s.ticks
  {
    Due(base, s.ticks - s.unanswered + 1)
  }

  /** While a session is open: no tick has found it dead, and its unanswered probes are the latest ticks,
      the first of them the first tick sixty seconds after the last frame. */
  ghost predicate Counted(s: State, base: Time) {
    && s.unanswered <= s.ticks
    && s.last <= Due(base, s.ticks + 1)
    && (s.unanswered < s.ticks ==> Due(base, s.ticks - s.unanswered) < s.last + LIVENESS_PROBE_AFTER)
    && (s.unanswered > 0 ==> s.last + LIVENESS_PROBE_AFTER <= FirstUnanswered(s, base))
    && (s.ticks > 0 ==> Due(base, s.ticks) < s.last + LIVENESS_DEAD_AFTER)
  }

  lemma StepKeepsCounted(s: State, base: Time, e: Event)
    requires Counted(s, base) && EventInTime(s, base, e) && !Step(s, base, e).closed
    ensures Counted(Step(s, base, e), base)
  {
  }

  lemma {:induction false} OpenIsCounted(started: Time, base: Time, run: seq<Event>)
    requires OnTime(started, base, run) && !Run(started, base, run).closed
    ensures var s := Run(started, base, run);
            Counted(s, base) && (s.last == started || base <= s.last)
  {
    if run != [] {
      OpenIsCounted(started, base, run[..|run| - 1]);
      StepKeepsCounted(Run(started, base, run[..|run| - 1]), base, run[|run| - 1]);
    }
  }

  /** How many probes a silent peer is sent before its session is closed: eight, unless ticking began only
      sixty seconds or more after its last frame. */
  function ProbesUntilClose(base: Time, last: Time): nat {
    if base < last + LIVENESS_PROBE_AFTER then 8
    else if last + LIVENESS_DEAD_AFTER <= Due(base, 1) then 0
    else (last + LIVENESS_DEAD_AFTER - base - 1) / LIVENESS_TICK
  }

  lemma NextTick(s: State, base: Time)
    requires Counted(s, base) && !s.closed
    ensures Step(s, base, Tick).closed <==> s.unanswered == ProbesUntilClose(base, s.last)
    ensures Step(s, base, Tick).closed
            ==> && LIVENESS_DEAD_AFTER <= Due(base, s.ticks + 1) - s.last
                && (Due(base, s.ticks + 1) - s.last < LIVENESS_DEAD_AFTER + LIVENESS_TICK
                      || base >= s.last + LIVENESS_DEAD_AFTER)
  {
  }

  lemma EighthProbe(s: State, base: Time)
    requires Counted(s, base) && !s.closed && base < s.last + LIVENESS_PROBE_AFTER
    ensures s.unanswered == 8
            <==> s.unanswered > 0
                 && Due(base, s.ticks + 1) >= FirstUnanswered(s, base) + (LIVENESS_DEAD_AFTER - LIVENESS_PROBE_AFTER)
  {
  }

  /** With ticks on time, the next tick closes the session exactly when its probes are used up: eight of
      them if ticking began within sixty seconds of the last frame. It comes 180 to 195 seconds after that
      frame, unless ticking itself began later than that. */
  lemma ClosesAfterEightProbes(started: Time, base: Time, run: seq<Event>)
    requires OnTime(started, base, run) && !Run(started, base, run).closed
    ensures var s := Run(started, base, run);
            && (Step(s, base, Tick).closed <==> s.unanswered == ProbesUntilClose(base, s.last))
            && (base < started + LIVENESS_PROBE_AFTER || s.last != started ==> ProbesUntilClose(base, s.last) == 8)
            && (Step(s, base, Tick).closed
                ==> && LIVENESS_DEAD_AFTER <= Due(base, s.ticks + 1) - s.last
                    && (Due(base, s.ticks + 1) - s.last < LIVENESS_DEAD_AFTER + LIVENESS_TICK
                          || base >= s.last + LIVENESS_DEAD_AFTER))
  {
    OpenIsCounted(started, base, run);
    NextTick(Run(started, base, run), base);
  }

  /** An open session whose ticks are on time has heard something in the last 195 seconds, or has not yet
      had its first tick. */
  lemma SilentSessionsAreClosed(started: Time, base: Time, run: seq<Event>, now: Time)
    requires OnTime(started, base, run) && InTime(Run(started, base, run), base, now)
    ensures now - Run(started, base, run).last < LIVENESS_DEAD_AFTER + LIVENESS_TICK || now <= Due(base, 1)
  {
    OpenIsCounted(started, base, run);
  }

  /** A run closes its session exactly when its last event is a tick 120 seconds after a probe that no
      frame has followed; or, if no frame ever came and ticking began sixty seconds or more into the
      session, a tick 180 seconds after the start. */
  lemma ClosedExactlyWhenUnanswered(started: Time, base: Time, run: seq<Event>)
    requires OnTime(started, base, run)
    ensures Run(started, base, run).closed
            <==> run != [] && run[|run| - 1].Tick?
                 && var s := Run(started, base, run[..|run| - 1]);
                    if s.last == started && base >= started + LIVENESS_PROBE_AFTER
                    then Due(base, s.ticks + 1) >= started + LIVENESS_DEAD_AFTER
                    else && 0 < s.unanswered <= s.ticks
                         && Due(base, s.ticks + 1) >= FirstUnanswered(s, base)
                              + (LIVENESS_DEAD_AFTER - LIVENESS_PROBE_AFTER)
  {
    if run != [] {
      var s := Run(started, base, run[..|run| - 1]);
      OpenIsCounted(started, base, run[..|run| - 1]);
      NextTick(s, base);
      if base < s.last + LIVENESS_PROBE_AFTER {
        EighthProbe(s, base);
      }
    }
  }

  /** While a probe is outstanding, nothing happens later than `within` after the oldest one. */
  predicate Awaited(s: State, base: Time, at: Time, within: nat) {
    0 < s.unanswered <= s.ticks ==> at <= FirstUnanswered(s, base) + within
  }

  function When(s: State, base: Time, e: Event): Time {
    if e.Frame? then e.at else Due(base, s.ticks + 1)
  }

  ghost predicate AnswersWithin(started: Time, base: Time, run: seq<Event>, within: nat) {
    run == [] || (&& AnswersWithin(started, base, run[..|run| - 1], within)
                  && var s := Run(started, base, run[..|run| - 1]); Awaited(s, base, When(s, base, run[|run| - 1]),
                       within))
  }

  /** The peer answers each probe in less than 120 seconds, 105 included. */
  ghost predicate Answering(started: Time, base: Time, run: seq<Event>) {
    OnTime(started, base, run) && AnswersWithin(started, base, run, LIVENESS_DEAD_AFTER - LIVENESS_PROBE_AFTER - 1)
  }

  lemma AnsweringKeepsOpen(started: Time, base: Time, run: seq<Event>)
    requires base < started + LIVENESS_PROBE_AFTER && Answering(started, base, run)
    ensures !Run(started, base, run).closed
  {
    ClosedExactlyWhenUnanswered(started, base, run);
  }

  /** A peer that answers each probe in less than 120 seconds is never closed, exactly when ticking begins
      within sixty seconds of the start: later, it can be closed before it has had time to answer. */
  lemma AnsweringPeersStay(started: Time, base: Time)
    requires started <= base
    ensures (forall run :: Answering(started, base, run) ==> !Run(started, base, run).closed)
            <==> base < started + LIVENESS_PROBE_AFTER
  {
    if base < started + LIVENESS_PROBE_AFTER {
      forall run | Answering(started, base, run) ensures !Run(started, base, run).closed {
        AnsweringKeepsOpen(started, base, run);
      }
    } else {
      var n := ProbesUntilClose(base, started);
      Unheard(started, base, n);
      RunSnoc(started, base, Ticks(n), Tick);
      NextTick(Run(started, base, Ticks(n)), base);
      assert (Ticks(n) + [Tick])[..n] == Ticks(n);
      assert Answering(started, base, Ticks(n) + [Tick]);
    }
  }

  function Ticks(n: nat): (r: seq<Event>)
    ensures |r| == n
  {
    if n == 0 then [] else Ticks(n - 1) + [Tick]
  }

  /** Ticking that begins late: every tick probes until the last closes, and all within 105 seconds. */
  lemma {:induction false} Unheard(started: Time, base: Time, n: nat)
    requires started + LIVENESS_PROBE_AFTER <= base && n <= ProbesUntilClose(base, started)
    ensures Answering(started, base, Ticks(n)) && Run(started, base, Ticks(n)) == State(started, n, n, false)
    ensures Counted(State(started, n, n, false), base) && n <= 7
  {
    if n > 0 {
      Unheard(started, base, n - 1);
      RunSnoc(started, base, Ticks(n - 1), Tick);
      assert (Ticks(n - 1) + [Tick])[..n - 1] == Ticks(n - 1);
    }
  }

  // ---- Reported as stale ----

  predicate Stale(started: Time, s: State, now: Time)
    requires started <= s.last <= now
  {
    SilentFor(started, (s.last - started) / MILLI, now) >= LIVENESS_STALE_AFTER
  }

  lemma {:induction false} LastIsLater(started: Time, base: Time, run: seq<Event>)
    requires OnTime(started, base, run)
    ensures started <= Run(started, base, run).last
  {
    if run != [] {
      LastIsLater(started, base, run[..|run| - 1]);
    }
  }

  /** The slowest answer that never lets a link look stale: fifteen seconds, less what truncating the last
      frame's time to a millisecond can add. */
  const PROMPT: nat := LIVENESS_TICK - (MILLI - 1)

  /** Ticking begins soon enough for the first probe's answer to arrive before the limit. */
  predicate BeginsSoon(started: Time, base: Time) {
    Due(base, 1) + PROMPT < started + LIVENESS_STALE_AFTER
  }

  /** The link is looked at while the answer to every probe is still in time. */
  ghost predicate LookedAt(started: Time, base: Time, run: seq<Event>, now: Time) {
    && OnTime(started, base, run) && started <= Run(started, base, run).last
    && InTime(Run(started, base, run), base, now) && Awaited(Run(started, base, run), base, now, PROMPT)
  }

  lemma PromptIsFresh(started: Time, base: Time, run: seq<Event>, now: Time)
    requires BeginsSoon(started, base) && LookedAt(started, base, run, now)
    ensures !Stale(started, Run(started, base, run), now)
  {
    OpenIsCounted(started, base, run);
    SilenceIsTruncated(started, Run(started, base, run).last, now);
  }

  lemma LateTickingLooksStale(started: Time, base: Time) returns (run: seq<Event>, now: Time)
    requires started <= base && !BeginsSoon(started, base)
    ensures LookedAt(started, base, run, now) && Stale(started, Run(started, base, run), now)
  {
    if Due(base, 1) >= started + LIVENESS_STALE_AFTER {
      run, now := [], started + LIVENESS_STALE_AFTER;
    } else {
      run, now := [] + [Tick], Due(base, 1) + PROMPT;
      RunSnoc(started, base, [], Tick);
      assert Run(started, base, run) == State(started, 1, 1, false);
    }
    SilenceIsTruncated(started, started, now);
  }

  /** A peer that answers each probe that fast is never reported stale, exactly when ticking begins soon
      enough. */
  lemma PromptPeersAreNeverStale(started: Time, base: Time)
    requires started <= base
    ensures (forall run, now: Time :: LookedAt(started, base, run, now) ==>
            !Stale(started, Run(started, base, run), now))
            <==> BeginsSoon(started, base)
  {
    if BeginsSoon(started, base) {
      forall run, now: Time | LookedAt(started, base, run, now) ensures !Stale(started, Run(started, base, run), now) {
        PromptIsFresh(started, base, run, now);
      }
    } else {
      var run, now := LateTickingLooksStale(started, base);
    }
  }

  /** A frame just before the first millisecond is over, then `n` ticks of silence. */
  function SlowRun(n: nat): seq<Event> {
    if n == 0 then [Frame(MILLI - 1)] else SlowRun(n - 1) + [Tick]
  }

  lemma RunSnoc(started: Time, base: Time, run: seq<Event>, e: Event)
    requires OnTime(started, base, run) && EventInTime(Run(started, base, run), base, e)
    ensures OnTime(started, base, run + [e])
    ensures Run(started, base, run + [e]) == Step(Run(started, base, run), base, e)
  {
    assert (run + [e])[..|run|] == run;
  }

  lemma {:induction false} AfterSlowRun(n: nat)
    requires n <= 5
    ensures OnTime(0, MILLI - 2, SlowRun(n))
    ensures Run(0, MILLI - 2, SlowRun(n)) == State(MILLI - 1, n, if n == 5 then 1 else 0, false)
  {
    if n == 0 {
      RunSnoc(0, MILLI - 2, [], Frame(MILLI - 1));
      assert [] + [Frame(MILLI - 1)] == [Frame(MILLI - 1)];
    } else {
      AfterSlowRun(n - 1);
      RunSnoc(0, MILLI - 2, SlowRun(n - 1), Tick);
    }
  }

  /** One nanosecond slower, and a link can be reported stale while its answer is still in time. */
  lemma SlowerPeersCanBeStale()
    ensures var (base, run) := (MILLI - 2, SlowRun(5));
            var s, now := Run(0, base, run), Due(base, 5) + PROMPT + 1;
            && OnTime(0, base, run) && InTime(s, base, now) && Awaited(s, base, now, PROMPT + 1)
            && Stale(0, s, now)
  {
    AfterSlowRun(5);
    SilenceIsTruncated(0, MILLI - 1, Due(MILLI - 2, 5) + PROMPT + 1);
  }
}
