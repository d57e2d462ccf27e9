/**
 * The trigger scheduler of run_pipeline.py: after one initial run, an
 * endless loop of cycles, each drawing a random activation time and a
 * random active duration, idling until activation and then firing runs of
 * the pipeline at random intervals until deactivation.
 *
 * The outside world is three input streams, consumed front to back:
 *  - `probes`: the successive readings of `datetime.now()`; `Error` stands
 *    for an exception raised at that point of the cycle, which the outer
 *    `try` catches;
 *  - `draws`: the successive `random.uniform` draws, each scaled to
 *    `0..Scale`;
 *  - `results`: how the successive runs of the pipeline end.
 * The process runs until one of the streams is exhausted, which stands for
 * the process being interrupted. Times are whole seconds.
 */
module Scheduler {
  import opened Wrappers

  /** The resolution of a random draw: a draw `u` in `0..Scale` stands for the fraction `u / Scale`. */
  const Scale: int := 1000

  /** One reading of the clock. */
  datatype Probe = Time(t: int) | Error

  /** How one call of the pipeline ended. */
  datatype RunResult = Returned | Raised

  /**
   * One fired run. Its due time `due` was drawn from the clock reading at
   * position `drawnAt` (the first scheduling, or the rescheduling after the
   * previous run); `admitted` is the reading the loop guard let through just
   * before the reading at position `at`, which found the run due and is its
   * `start`; `result` is how the run ended.
   */
  datatype Run = Run(drawnAt: nat, due: int, admitted: int, at: nat, start: int, result: RunResult)

  /**
   * Where the active loop is at the start of a turn: the run time `next`,
   * drawn from the reading at `drawn`, and the guard reading `at` to come.
   */
  datatype Pause = Pause(drawn: nat, next: int, at: nat)

  /** How a cycle ended. */
  datatype End =
    | Deactivated(when: int)  // the active loop's guard read a time at or after deactivation
    | Crashed(probe: nat)     // the probe at index `probe` raised; the outer loop starts a new cycle
    | Interrupted           // an input stream ran out

  /** One pass of the outer loop. */
  datatype Cycle =
    | Aborted(end: End)  // ended before the activation window was drawn
    | Window(began: int, activation: int, deactivation: int, runs: seq<Run>, end: End)

  /**
   * The stretch of the input streams one cycle read: it started at `p0`,
   * `d0`, `r0` and left them at `p`, `d`, `r`; `activated` and `w` are
   * where its idle and active loops stopped, as `WindowRead` says.
   */
  datatype Span = Span(p0: nat, d0: nat, r0: nat, activated: Option<nat>, w: Option<Pause>, p: nat, d: nat, r: nat)

  /* ---------------------------------------------------------------------- */
  /* The samplers                                                            */
  /* ---------------------------------------------------------------------- */

  predicate IsDraw(u: int) {
    0 <= u <= Scale
  }

  predicate DrawsInRange(draws: seq<int>) {
    forall i | 0 <= i < |draws| :: IsDraw(draws[i])
  }

  /** `random.uniform(lo, hi)` for the draw `u`, truncated to whole seconds. */
  function Uniform(lo: int, hi: int, u: int): (x: int)
    requires lo <= hi && IsDraw(u)
    ensures lo <= x <= hi
  {
    UniformBounds(hi - lo, u);
    lo + (hi - lo) * u / Scale
  }

  lemma UniformBounds(span: nat, u: int)
    requires IsDraw(u)
    ensures 0 <= span * u / Scale <= span
  {
    assert 0 <= span * u <= span * Scale;
  }

  /** Both ends of the range are drawn, and a larger draw never gives a smaller value. */
  lemma UniformCovers(lo: int, hi: int, u: int, v: int)
    requires lo <= hi && IsDraw(u) && IsDraw(v) && u <= v
    ensures Uniform(lo, hi, 0) == lo && Uniform(lo, hi, Scale) == hi
    ensures Uniform(lo, hi, u) <= Uniform(lo, hi, v)
  {
    var span := hi - lo;
    assert span * Scale / Scale == span;
    assert span * u <= span * v;
    DivMonotone(span * u, span * v);
  }

  lemma DivMonotone(a: int, b: int)
    requires 0 <= a <= b
    ensures a / Scale <= b / Scale
  {
  }

  /** `get_random_activation_time`: within the next ten minutes. */
  function ActivationTime(now: int, u: int): (t: int)
    requires IsDraw(u)
    ensures now <= t <= now + 600
  {
    now + Uniform(0, 600, u)
  }

  /** `get_random_duration`: five to ten minutes. */
  function ActiveDuration(u: int): (s: int)
    requires IsDraw(u)
    ensures 300 <= s <= 600
  {
    Uniform(300, 600, u)
  }

  /** `get_next_run_time`: thirty seconds to three minutes from now. */
  function NextRunTime(now: int, u: int): (t: int)
    requires IsDraw(u)
    ensures now + 30 <= t <= now + 180
  {
    now + Uniform(30, 180, u)
  }

  /* ---------------------------------------------------------------------- */
  /* The clock                                                               */
  /* ---------------------------------------------------------------------- */

  /** The readings at `i` and `j`, when both are times, are in order. */
  predicate Ordered(probes: seq<Probe>, i: nat, j: nat)
    requires i < j < |probes|
  {
    probes[i].Time? && probes[j].Time? ==> probes[i].t <= probes[j].t
  }

  /** The clock never goes backwards. */
  predicate Monotone(probes: seq<Probe>) {
    forall i, j | 0 <= i < j < |probes| :: Ordered(probes, i, j)
  }

  /** The reading at `i`, when it is a time, is at least `t`. */
  predicate NotBefore(probes: seq<Probe>, i: nat, t: int)
    requires i < |probes|
  {
    probes[i].Time? ==> t <= probes[i].t
  }

  /** Every reading from index `from` on is at least `t`. */
  predicate AtLeast(probes: seq<Probe>, from: nat, t: int) {
    forall i | from <= i < |probes| :: NotBefore(probes, i, t)
  }

  /** The reading at `i` shows a time before `t`. */
  predicate Before(probes: seq<Probe>, i: nat, t: int)
    requires i < |probes|
  {
    probes[i].Time? && probes[i].t < t
  }

  /** Every reading in `from..upto` shows a time before `t`. */
  predicate Polled(probes: seq<Probe>, from: nat, upto: nat, t: int) {
    upto <= |probes| && forall i | from <= i < upto :: Before(probes, i, t)
  }

  /** `t` is `get_next_run_time` drawn from the reading at `i`: thirty seconds to three minutes after it. */
  predicate Drawn(probes: seq<Probe>, i: nat, t: int) {
    i < |probes| && probes[i].Time? && probes[i].t + 30 <= t <= probes[i].t + 180
  }

  /** `t` is `get_next_run_time` at the reading `i`, with the draw at `j`. */
  predicate DrawnBy(probes: seq<Probe>, draws: seq<int>, i: nat, j: nat, t: int) {
    i < |probes| && probes[i].Time? && j < |draws| && IsDraw(draws[j]) && t == NextRunTime(probes[i].t, draws[j])
  }

  /** The guard reading at `i` is a time before deactivation, so the active loop goes on. */
  predicate Admits(probes: seq<Probe>, i: nat, deactivation: int) {
    i < |probes| && probes[i].Time? && probes[i].t < deactivation
  }

  /** The check at `i` finds the run time `next` reached. */
  predicate Due(probes: seq<Probe>, i: nat, next: int) {
    i < |probes| && probes[i].Time? && next <= probes[i].t
  }

  /**
   * A run fired at the first check that found it due: the readings after
   * the one its due time was drawn from alternate between the loop's guard
   * and its check of the run time, every one before the firing check showed
   * a time before the due time, and the firing check is a check, not a guard.
   */
  predicate Punctual(probes: seq<Probe>, run: Run) {
    && run.drawnAt + 1 < run.at < |probes| && (run.at - run.drawnAt) % 2 == 0
    && Drawn(probes, run.drawnAt, run.due)
    && Polled(probes, run.drawnAt + 1, run.at - 1, run.due)
    && probes[run.at - 1] == Time(run.admitted)
    && probes[run.at] == Time(run.start) && run.due <= run.start
  }

  /** Run `k` is punctual, and its due time is drawn from the reading right after the previous run. */
  predicate PunctualAt(probes: seq<Probe>, runs: seq<Run>, k: nat)
    requires k < |runs|
  {
    Punctual(probes, runs[k]) && (0 < k ==> runs[k].drawnAt == runs[k - 1].at + 1)
  }

  /** Every run is punctual, and each due time is drawn from the reading right after the previous run. */
  predicate RunsPunctual(probes: seq<Probe>, runs: seq<Run>) {
    forall k | 0 <= k < |runs| :: PunctualAt(probes, runs, k)
  }

  /** The due time of run `k` was drawn with the `k`-th draw from `j0` on. */
  predicate DrawnAt(probes: seq<Probe>, draws: seq<int>, runs: seq<Run>, j0: nat, k: nat)
    requires k < |runs|
  {
    DrawnBy(probes, draws, runs[k].drawnAt, j0 + k, runs[k].due)
  }

  /** The due times of the runs were drawn with successive draws from `j0` on. */
  predicate RunsDrawn(probes: seq<Probe>, draws: seq<int>, runs: seq<Run>, j0: nat) {
    forall k | 0 <= k < |runs| :: DrawnAt(probes, draws, runs, j0, k)
  }

  /**
   * The active loop reached the guard `w.at` waiting for `w.next`: every turn
   * since the drawing reading read a guard and a check, all before `w.next`,
   * and the last guard was before deactivation.
   */
  predicate Waiting(probes: seq<Probe>, deactivation: int, w: Pause) {
    && w.drawn < w.at && (w.at - w.drawn) % 2 == 1
    && Drawn(probes, w.drawn, w.next) && Polled(probes, w.drawn + 1, w.at, w.next)
    && (w.drawn + 1 < w.at ==> Admits(probes, w.at - 2, deactivation))
  }

  /** The last run fired in the turn whose guard is at `at`. */
  predicate FiredIn(runs: seq<Run>, at: nat) {
    |runs| > 0 && runs[|runs| - 1].at == at + 1
  }

  /**
   * The turn whose guard is at `w.at` ended the active loop with `end`,
   * leaving the streams at `p`, `d`, `r`; `fired` says whether it fired a
   * run first. Each ending reads exactly up to the reading that caused it.
   */
  predicate TurnEnded(probes: seq<Probe>, draws: seq<int>, results: seq<RunResult>, deactivation: int,
                      w: Pause, fired: bool, end: End, p: nat, d: nat, r: nat) {
    match end
    case Deactivated(when) =>
      !fired && p == w.at + 1 && w.at < |probes| && probes[w.at] == Time(when) && deactivation <= when
    case Crashed(k) =>
      && p == k + 1 <= |probes| && probes[k].Error?
      && if fired then p == w.at + 3
         else p == w.at + 1 || (p == w.at + 2 && Admits(probes, w.at, deactivation))
    case Interrupted =>
      if fired then
        || p == w.at + 2 == |probes|
        || (p == w.at + 3 <= |probes| && probes[w.at + 2].Time? && d == |draws|)
      else
        || p == w.at == |probes|
        || (p == w.at + 1 == |probes| && Admits(probes, w.at, deactivation))
        || (p == w.at + 2 && Admits(probes, w.at, deactivation) && Due(probes, w.at + 1, w.next) && r == |results|)
  }

  /** Every reading from a time reading on shows at least that time. */
  lemma ClockFrom(probes: seq<Probe>, k: nat)
    requires Monotone(probes) && k < |probes| && probes[k].Time?
    ensures AtLeast(probes, k, probes[k].t)
  {
    forall i | k < i < |probes| && probes[i].Time? ensures probes[k].t <= probes[i].t {
      assert Ordered(probes, k, i);
    }
  }

  /** A reading before `t` that follows readings before `t`, with its guard reading, extends them. */
  lemma PolledExtend(probes: seq<Probe>, from: nat, p: nat, t: int)
    requires Monotone(probes) && Polled(probes, from, p, t)
    requires p + 1 < |probes| && probes[p].Time? && probes[p + 1].Time? && probes[p + 1].t < t
    ensures Polled(probes, from, p + 2, t)
  {
    assert Ordered(probes, p, p + 1);
  }

  /** Appending a punctual run whose due time was drawn right after the last run keeps the runs punctual. */
  lemma PunctualAppend(probes: seq<Probe>, runs: seq<Run>, run: Run)
    requires RunsPunctual(probes, runs) && Punctual(probes, run)
    requires |runs| > 0 ==> run.drawnAt == runs[|runs| - 1].at + 1
    ensures RunsPunctual(probes, runs + [run])
  {
    var s := runs + [run];
    forall k | 0 <= k < |s| ensures PunctualAt(probes, s, k) {
      if k < |runs| {
        assert PunctualAt(probes, runs, k);
        assert s[k] == runs[k] && (0 < k ==> s[k - 1] == runs[k - 1]);
      }
    }
  }


  /* ---------------------------------------------------------------------- */
  /* What a cycle promises                                                   */
  /* ---------------------------------------------------------------------- */

  /**
   * Every run was admitted inside the window and fired no earlier; each run
   * is admitted after the previous one fired and fires at least thirty
   * seconds after it.
   */
  predicate RunsWithin(runs: seq<Run>, activation: int, deactivation: int) {
    && (forall k | 0 <= k < |runs| ::
          activation <= runs[k].admitted < deactivation && runs[k].admitted <= runs[k].start)
    && (forall k | 0 < k < |runs| ::
          runs[k - 1].start <= runs[k].admitted && runs[k - 1].start + 30 <= runs[k].start)
  }

  /** The runs of a cycle. */
  function Runs(c: Cycle): seq<Run> {
    if c.Window? then c.runs else []
  }

  /**
   * The window lies in the next ten minutes and lasts five to ten; no run
   * fires before activation plus thirty seconds or is admitted at or after
   * deactivation; a cycle ends by the clock only at or after deactivation.
   */
  predicate WindowOk(c: Cycle) {
    match c
    case Aborted(end) => !end.Deactivated?
    case Window(began, activation, deactivation, runs, end) =>
      && began <= activation <= began + 600
      && activation + 300 <= deactivation <= activation + 600
      && RunsWithin(runs, activation, deactivation)
      && (|runs| > 0 ==> activation + 30 <= runs[0].start)
      && (end.Deactivated? ==> deactivation <= end.when && (|runs| > 0 ==> runs[|runs| - 1].start <= end.when))
  }

  /** Each run fires at least thirty seconds after activation plus thirty seconds per earlier run. */
  lemma {:induction false} RunsAfter(runs: seq<Run>, activation: int, deactivation: int, k: nat)
    requires RunsWithin(runs, activation, deactivation)
    requires |runs| > 0 ==> activation + 30 <= runs[0].start
    requires k < |runs|
    ensures activation + 30 * (k + 1) <= runs[k].start
  {
    if k > 0 {
      RunsAfter(runs, activation, deactivation, k - 1);
    }
  }

  /** At most twenty runs fit in one window. */
  lemma RunsPerWindow(c: Cycle)
    requires WindowOk(c)
    ensures |Runs(c)| <= 20
  {
    if c.Window? && |c.runs| > 1 {
      var n := |c.runs|;
      RunsAfter(c.runs, c.activation, c.deactivation, n - 2);
      assert c.runs[n - 2].start <= c.runs[n - 1].admitted < c.deactivation;
    }
  }

  /* ---------------------------------------------------------------------- */
  /* The loops of `main`                                                     */
  /* ---------------------------------------------------------------------- */

  /**
   * The idle loop: read the clock until it shows the activation time.
   * `end` is `None` once activated, with the activating reading just before `p`.
   */
  method Idle(probes: seq<Probe>, p0: nat, activation: int) returns (p: nat, end: Option<End>)
    requires p0 <= |probes|
    ensures p0 <= p <= |probes|
    ensures end.None? ==> p0 < p && probes[p - 1].Time? && activation <= probes[p - 1].t
    ensures end.None? || end.value.Interrupted? || end.value.Crashed?
    ensures end == Some(Interrupted) ==> p == |probes|
    ensures end.Some? && end.value.Crashed? ==> p0 <= end.value.probe < p && probes[end.value.probe].Error?
    ensures forall i | p0 <= i < p - 1 :: probes[i].Time? && probes[i].t < activation
    ensures end.Some? && end.value.Crashed? ==> end.value.probe == p - 1
    ensures end == Some(Interrupted) ==> Polled(probes, p0, p, activation)
    ensures p0 < p ==> Polled(probes, p0, p - 1, activation)
  {
    p := p0;
    while true
      invariant p0 <= p <= |probes|
      invariant forall i | p0 <= i < p :: probes[i].Time? && probes[i].t < activation
      invariant Polled(probes, p0, p, activation)
      decreases |probes| - p
    {
      if p == |probes| {
        return p, Some(Interrupted);
      }
      if probes[p].Error? {
        return p + 1, Some(Crashed(p));
      }
      if activation <= probes[p].t {
        return p + 1, None;
      }
      p := p + 1;
    }
  }

  /**
   * One turn of the active loop: its guard reads the clock at `p0` and,
   * before deactivation, the next reading is checked against the run time
   * `next0`; when it is due, run the pipeline, catching what it raises, and
   * draw the next run time from the reading after it. `drawn` is where
   * `next0` was drawn from. `stop` is how the cycle ends when it ends here.
   */
  method Turn(probes: seq<Probe>, draws: seq<int>, results: seq<RunResult>, p0: nat, d0: nat, r0: nat,
              activation: int, deactivation: int, drawn: nat, next0: int)
    returns (run: Option<Run>, stop: Option<End>, p: nat, d: nat, r: nat, next: int)
    requires p0 <= |probes| && d0 <= |draws| && r0 <= |results|
    requires Monotone(probes) && DrawsInRange(draws) && AtLeast(probes, p0, activation)
    ensures p0 <= p <= |probes| && d0 <= d <= |draws|
    ensures r == r0 + (if run.Some? then 1 else 0) <= |results|
    ensures run.Some?
        <==> p0 + 1 < |probes| && probes[p0].Time? && probes[p0].t < deactivation
             && probes[p0 + 1].Time? && next0 <= probes[p0 + 1].t && r0 < |results|
    ensures run.Some? ==> run.value == Run(drawn, next0, probes[p0].t, p0 + 1, probes[p0 + 1].t, results[r0])
    ensures run.Some? ==> activation <= run.value.admitted <= run.value.start
    ensures run.Some? ==> AtLeast(probes, p, run.value.start)
    ensures stop.None? && run.Some? ==> p == p0 + 3 && Drawn(probes, p0 + 2, next) && run.value.start + 30 <= next
    ensures stop.None? && run.Some? ==> d == d0 + 1 && DrawnBy(probes, draws, p0 + 2, d0, next)
    ensures stop.None? && run.None?
        ==> p == p0 + 2 && next == next0 && probes[p0].Time? && probes[p0 + 1].Time? && probes[p0 + 1].t < next0
    ensures stop.None? && run.None? ==> d == d0 && Admits(probes, p0, deactivation)
    ensures stop.Some? ==> next == next0 && d == d0
    ensures stop.Some? ==> TurnEnded(probes, draws, results, deactivation, Pause(drawn, next0, p0), run.Some?, stop.value, p, d, r)
    ensures stop.Some? && stop.value.Deactivated?
        ==> run.None? && p == p0 + 1 && next == next0 && probes[p0] == Time(stop.value.when) && deactivation <= stop.value.when
    ensures stop.Some? && stop.value.Crashed? ==> p0 <= stop.value.probe < p && probes[stop.value.probe].Error?
    ensures stop == Some(Interrupted) ==> p == |probes| || d == |draws| || r == |results|
  {
    p, d, r, next := p0, d0, r0, next0;
    run := None;
    // the guard of the active loop
    if p == |probes| {
      return run, Some(Interrupted), p, d, r, next;
    }
    if probes[p].Error? {
      return run, Some(Crashed(p)), p + 1, d, r, next;
    }
    var admitted := probes[p].t;
    if deactivation <= admitted {
      return run, Some(Deactivated(admitted)), p + 1, d, r, next;
    }
    p := p + 1;

    // is the run due?
    if p == |probes| {
      return run, Some(Interrupted), p, d, r, next;
    }
    if probes[p].Error? {
      return run, Some(Crashed(p)), p + 1, d, r, next;
    }
    var now := probes[p].t;
    if now < next {
      return run, None, p + 1, d, r, next;
    }
    if r == |results| {
      return run, Some(Interrupted), p + 1, d, r, next;
    }
    assert Ordered(probes, p0, p) && NotBefore(probes, p0, activation);
    ClockFrom(probes, p);
    LaterAtLeast(probes, p, p + 1, now, now);
    LaterAtLeast(probes, p, p + 2, now, now);
    run := Some(Run(drawn, next0, admitted, p, now, results[r]));
    p, r := p + 1, r + 1;

    // schedule the next run
    if p == |probes| {
      return run, Some(Interrupted), p, d, r, next;
    }
    if probes[p].Error? {
      return run, Some(Crashed(p)), p + 1, d, r, next;
    }
    if d == |draws| {
      return run, Some(Interrupted), p + 1, d, r, next;
    }
    assert NotBefore(probes, p, now);
    next := NextRunTime(probes[p].t, draws[d]);
    p, d := p + 1, d + 1;
    stop := None;
  }

  /**
   * Appending a run that keeps the window's rules, fired punctually and
   * taking the next outcome, keeps those facts for the whole sequence.
   */
  lemma AppendRun(probes: seq<Probe>, results: seq<RunResult>, r0: nat,
                  runs: seq<Run>, activation: int, deactivation: int, run: Run)
    requires RunsWithin(runs, activation, deactivation) && RunsPunctual(probes, runs)
    requires r0 + |runs| < |results|
    requires forall k | 0 <= k < |runs| :: runs[k].result == results[r0 + k]
    requires activation <= run.admitted < deactivation && run.admitted <= run.start
    requires |runs| > 0 ==> runs[|runs| - 1].start <= run.admitted && runs[|runs| - 1].start + 30 <= run.start
    requires Punctual(probes, run) && (|runs| > 0 ==> run.drawnAt == runs[|runs| - 1].at + 1)
    requires run.result == results[r0 + |runs|]
    ensures RunsWithin(runs + [run], activation, deactivation) && RunsPunctual(probes, runs + [run])
    ensures forall k | 0 <= k < |runs + [run]| :: (runs + [run])[k].result == results[r0 + k]
  {
    PunctualAppend(probes, runs, run);
  }

  /** Appending a run whose due time was drawn with the next draw keeps the runs drawn in order. */
  lemma RunsDrawnAppend(probes: seq<Probe>, draws: seq<int>, runs: seq<Run>, j0: nat, run: Run)
    requires RunsDrawn(probes, draws, runs, j0) && DrawnBy(probes, draws, run.drawnAt, j0 + |runs|, run.due)
    ensures RunsDrawn(probes, draws, runs + [run], j0)
  {
    var s := runs + [run];
    forall k | 0 <= k < |s| ensures DrawnAt(probes, draws, s, j0, k) {
      if k < |runs| {
        assert DrawnAt(probes, draws, runs, j0, k);
        assert s[k] == runs[k];
      }
    }
  }

  /**
   * How the active loop that started at `p0`, its first run time `next0`
   * drawn with the draw before `d0`, went: its last turn had its guard at
   * `w.at` and waited for `w.next`, drawn with the last draw taken; the due
   * times were drawn with successive draws; the loop ended as that turn says.
   */
  predicate ActiveRead(probes: seq<Probe>, draws: seq<int>, results: seq<RunResult>,
                       p0: nat, d0: nat, r0: nat, deactivation: int, next0: int,
                       runs: seq<Run>, end: End, w: Pause, p: nat, d: nat, r: nat) {
    && 0 < p0 <= w.at <= p <= |probes| && 0 < d0 <= d <= |draws| && r == r0 + |runs| <= |results|
    && Waiting(probes, deactivation, w)
    && RunsDrawn(probes, draws, runs, d0 - 1) && DrawnBy(probes, draws, w.drawn, d - 1, w.next)
    && (if FiredIn(runs, w.at)
        then runs[|runs| - 1].drawnAt == w.drawn && runs[|runs| - 1].due == w.next && d == d0 + |runs| - 1
        else && w.drawn == (if |runs| == 0 then p0 - 1 else runs[|runs| - 1].at + 1)
             && (|runs| == 0 ==> w.next == next0) && d == d0 + |runs|)
    && TurnEnded(probes, draws, results, deactivation, w, FiredIn(runs, w.at), end, p, d, r)
  }

  /**
   * The state of the active loop that started at `p0` when a turn begins
   * at `w.at`: its runs so far keep the window's rules, fired punctually,
   * took the next outcomes and due times drawn with the next draws; `w.next`
   * was drawn after the last of them.
   */
  predicate Looping(probes: seq<Probe>, draws: seq<int>, results: seq<RunResult>,
                    p0: nat, d0: nat, r0: nat, activation: int, deactivation: int, next0: int,
                    runs: seq<Run>, d: nat, r: nat, w: Pause) {
    && 0 < p0 <= w.at <= |probes| && 0 < d0 && d == d0 + |runs| <= |draws| && r == r0 + |runs| <= |results|
    && (forall k | 0 <= k < |runs| :: runs[k].result == results[r0 + k])
    && RunsWithin(runs, activation, deactivation)
    && RunsPunctual(probes, runs)
    && (|runs| > 0 ==> runs[0].drawnAt == p0 - 1 && runs[0].due == next0)
    && (|runs| > 0 ==> runs[|runs| - 1].start + 30 <= w.next && w.drawn == runs[|runs| - 1].at + 1)
    && (|runs| == 0 ==> w.next == next0 && w.drawn == p0 - 1)
    && Waiting(probes, deactivation, w)
    && RunsDrawn(probes, draws, runs, d0 - 1) && DrawnBy(probes, draws, w.drawn, d - 1, w.next)
    && AtLeast(probes, w.at, activation)
    && (|runs| > 0 ==> AtLeast(probes, w.at, runs[|runs| - 1].start))
  }

  /** What the active loop promises when it ends: the contract of `Active`. */
  predicate Ended(probes: seq<Probe>, draws: seq<int>, results: seq<RunResult>,
                  p0: nat, d0: nat, r0: nat, activation: int, deactivation: int, next0: int,
                  runs: seq<Run>, end: End, p: nat, d: nat, r: nat, w: Pause) {
    && p0 <= p <= |probes| && d0 <= d <= |draws| && r == r0 + |runs| <= |results|
    && (forall k | 0 <= k < |runs| :: runs[k].result == results[r0 + k])
    && RunsWithin(runs, activation, deactivation)
    && RunsPunctual(probes, runs)
    && (|runs| > 0 ==> runs[0].drawnAt == p0 - 1 && runs[0].due == next0)
    && (|runs| > 0 ==> AtLeast(probes, p, runs[|runs| - 1].start))
    && (end.Deactivated? ==> deactivation <= end.when && (|runs| > 0 ==> runs[|runs| - 1].start <= end.when))
    && (end.Deactivated? ==> 0 < p && probes[p - 1] == Time(end.when))
    && (end.Deactivated? ==> w.drawn == (if |runs| == 0 then p0 - 1 else runs[|runs| - 1].at + 1))
    && (end.Deactivated? ==> Drawn(probes, w.drawn, w.next) && Polled(probes, w.drawn + 1, p - 1, w.next))
    && (end.Crashed? ==> p0 <= end.probe < p && probes[end.probe].Error?)
    && (end.Interrupted? ==> p == |probes| || d == |draws| || r == |results|)
    && ActiveRead(probes, draws, results, p0, d0, r0, deactivation, next0, runs, end, w, p, d, r)
  }

  /** A turn that finds the run not yet due leaves the loop waiting two readings later. */
  lemma LoopWaits(probes: seq<Probe>, draws: seq<int>, results: seq<RunResult>,
                  p0: nat, d0: nat, r0: nat, activation: int, deactivation: int, next0: int,
                  runs: seq<Run>, d: nat, r: nat, w: Pause)
    requires Monotone(probes) && Looping(probes, draws, results, p0, d0, r0, activation, deactivation, next0, runs, d, r, w)
    requires Admits(probes, w.at, deactivation) && w.at + 1 < |probes| && Before(probes, w.at + 1, w.next)
    ensures Looping(probes, draws, results, p0, d0, r0, activation, deactivation, next0, runs, d, r, Pause(w.drawn, w.next, w.at + 2))
  {
    PolledExtend(probes, w.drawn + 1, w.at, w.next);
    assert Ordered(probes, w.at, w.at + 1);
    if |runs| > 0 {
      assert AtLeast(probes, w.at, runs[|runs| - 1].start);
    }
  }

  /** A turn that fires a run and draws the next run time leaves the loop waiting for it. */
  lemma LoopFires(probes: seq<Probe>, draws: seq<int>, results: seq<RunResult>,
                  p0: nat, d0: nat, r0: nat, activation: int, deactivation: int, next0: int,
                  runs: seq<Run>, d: nat, r: nat, w: Pause, run: Run, next: int)
    requires Monotone(probes) && Looping(probes, draws, results, p0, d0, r0, activation, deactivation, next0, runs, d, r, w)
    requires Admits(probes, w.at, deactivation) && Due(probes, w.at + 1, w.next) && r < |results|
    requires run == Run(w.drawn, w.next, probes[w.at].t, w.at + 1, probes[w.at + 1].t, results[r])
    requires activation <= run.admitted <= run.start && AtLeast(probes, w.at + 3, run.start)
    requires w.at + 3 <= |probes| && DrawnBy(probes, draws, w.at + 2, d, next) && run.start + 30 <= next
    ensures Looping(probes, draws, results, p0, d0, r0, activation, deactivation, next0,
                    runs + [run], d + 1, r + 1, Pause(w.at + 2, next, w.at + 3))
  {
    if |runs| > 0 {
      assert AtLeast(probes, w.at, runs[|runs| - 1].start);
      assert NotBefore(probes, w.at, runs[|runs| - 1].start);
    }
    AppendRun(probes, results, r0, runs, activation, deactivation, run);
    RunsDrawnAppend(probes, draws, runs, d0 - 1, run);
    var s := runs + [run];
    assert s[|s| - 1] == run;
    if |runs| > 0 {
      assert s[0] == runs[0];
    }
  }

  /** A turn that ends the loop without firing a run leaves what `Active` promises. */
  lemma LoopEnds(probes: seq<Probe>, draws: seq<int>, results: seq<RunResult>,
                 p0: nat, d0: nat, r0: nat, activation: int, deactivation: int, next0: int,
                 runs: seq<Run>, d: nat, r: nat, w: Pause, end: End, p: nat)
    requires Monotone(probes) && Looping(probes, draws, results, p0, d0, r0, activation, deactivation, next0, runs, d, r, w)
    requires w.at <= p <= |probes|
    requires TurnEnded(probes, draws, results, deactivation, w, false, end, p, d, r)
    requires end.Crashed? ==> w.at <= end.probe < p && probes[end.probe].Error?
    requires end.Interrupted? ==> p == |probes| || d == |draws| || r == |results|
    ensures Ended(probes, draws, results, p0, d0, r0, activation, deactivation, next0, runs, end, p, d, r, w)
  {
    assert !FiredIn(runs, w.at);
    if |runs| > 0 {
      LaterAtLeast(probes, w.at, p, runs[|runs| - 1].start, runs[|runs| - 1].start);
      if end.Deactivated? {
        assert NotBefore(probes, w.at, runs[|runs| - 1].start);
      }
    }
  }

  /** A turn that fires a run and then ends the loop leaves what `Active` promises. */
  lemma LoopEndsAfterRun(probes: seq<Probe>, draws: seq<int>, results: seq<RunResult>,
                         p0: nat, d0: nat, r0: nat, activation: int, deactivation: int, next0: int,
                         runs: seq<Run>, d: nat, r: nat, w: Pause, run: Run, end: End, p: nat)
    requires Monotone(probes) && Looping(probes, draws, results, p0, d0, r0, activation, deactivation, next0, runs, d, r, w)
    requires w.at <= p <= |probes| && r < |results|
    requires Admits(probes, w.at, deactivation) && Due(probes, w.at + 1, w.next)
    requires run == Run(w.drawn, w.next, probes[w.at].t, w.at + 1, probes[w.at + 1].t, results[r])
    requires activation <= run.admitted <= run.start && AtLeast(probes, p, run.start)
    requires TurnEnded(probes, draws, results, deactivation, w, true, end, p, d, r + 1)
    requires end.Crashed? ==> w.at <= end.probe < p && probes[end.probe].Error?
    requires end.Interrupted? ==> p == |probes| || d == |draws| || r + 1 == |results|
    ensures Ended(probes, draws, results, p0, d0, r0, activation, deactivation, next0, runs + [run], end, p, d, r + 1, w)
  {
    var s := runs + [run];
    if |runs| > 0 {
      assert AtLeast(probes, w.at, runs[|runs| - 1].start);
      assert NotBefore(probes, w.at, runs[|runs| - 1].start);
    }
    AppendRun(probes, results, r0, runs, activation, deactivation, run);
    RunsDrawnAppend(probes, draws, runs, d0 - 1, run);
    assert s[|s| - 1] == run && FiredIn(s, w.at);
    if |runs| > 0 {
      assert s[0] == runs[0];
    }
  }

  /** A lower bound on the readings from `from` on holds, or any smaller one, from any later index on. */
  lemma LaterAtLeast(probes: seq<Probe>, from: nat, later: nat, t: int, u: int)
    requires AtLeast(probes, from, t) && from <= later && u <= t
    ensures AtLeast(probes, later, u)
  {
    forall i | later <= i < |probes| ensures NotBefore(probes, i, u) {
      assert NotBefore(probes, i, t);
    }
  }

  /**
   * The active loop: while the clock is before deactivation, fire a run
   * whenever it shows the next run time. A run that raises is caught and
   * the loop goes on. `next0` was drawn from the reading at `p0 - 1` with
   * the draw at `d0 - 1`; `w` is where the loop was when its last turn began.
   */
  method Active(probes: seq<Probe>, draws: seq<int>, results: seq<RunResult>,
                p0: nat, d0: nat, r0: nat, activation: int, deactivation: int, next0: int)
    returns (runs: seq<Run>, end: End, p: nat, d: nat, r: nat, w: Pause)
    requires 0 < p0 <= |probes| && 0 < d0 <= |draws| && r0 <= |results|
    requires Monotone(probes) && DrawsInRange(draws) && AtLeast(probes, p0, activation)
    requires DrawnBy(probes, draws, p0 - 1, d0 - 1, next0)
    ensures p0 <= p <= |probes| && d0 <= d <= |draws| && r == r0 + |runs| <= |results|
    ensures forall k | 0 <= k < |runs| :: runs[k].result == results[r0 + k]
    ensures RunsWithin(runs, activation, deactivation)
    ensures RunsPunctual(probes, runs)
    ensures |runs| > 0 ==> runs[0].drawnAt == p0 - 1 && runs[0].due == next0
    ensures |runs| > 0 ==> AtLeast(probes, p, runs[|runs| - 1].start)
    ensures end.Deactivated? ==> deactivation <= end.when && (|runs| > 0 ==> runs[|runs| - 1].start <= end.when)
    ensures end.Deactivated? ==> probes[p - 1] == Time(end.when)
    ensures end.Deactivated? ==> w.drawn == (if |runs| == 0 then p0 - 1 else runs[|runs| - 1].at + 1)
    ensures end.Deactivated? ==> Drawn(probes, w.drawn, w.next) && Polled(probes, w.drawn + 1, p - 1, w.next)
    ensures end.Crashed? ==> p0 <= end.probe < p && probes[end.probe].Error?
    ensures end.Interrupted? ==> p == |probes| || d == |draws| || r == |results|
    ensures ActiveRead(probes, draws, results, p0, d0, r0, deactivation, next0, runs, end, w, p, d, r)
  {
    runs, d, r := [], d0, r0;
    w := Pause(p0 - 1, next0, p0);
    while true
      invariant Looping(probes, draws, results, p0, d0, r0, activation, deactivation, next0, runs, d, r, w)
      decreases |probes| - w.at
    {
      var runs', stop, p', d', r', w' := Step(probes, draws, results, p0, d0, r0, activation, deactivation, next0, runs, d, r, w);
      if stop.Some? {
        return runs', stop.value, p', d', r', w;
      }
      runs, d, r, w := runs', d', r', w';
    }
  }

  /**
   * One turn of the active loop, with the loop's bookkeeping: the turn
   * either leaves the loop waiting at a later guard or ends it as `Active`
   * promises.
   */
  method Step(probes: seq<Probe>, draws: seq<int>, results: seq<RunResult>,
              p0: nat, d0: nat, r0: nat, activation: int, deactivation: int, next0: int,
              runs: seq<Run>, d: nat, r: nat, w: Pause)
    returns (runs': seq<Run>, stop: Option<End>, p': nat, d': nat, r': nat, w': Pause)
    requires Monotone(probes) && DrawsInRange(draws)
    requires Looping(probes, draws, results, p0, d0, r0, activation, deactivation, next0, runs, d, r, w)
    ensures stop.None? ==> w.at < w'.at && Looping(probes, draws, results, p0, d0, r0, activation, deactivation, next0, runs', d', r', w')
    ensures stop.Some? ==> Ended(probes, draws, results, p0, d0, r0, activation, deactivation, next0, runs', stop.value, p', d', r', w)
  {
    var run, next';
    run, stop, p', d', r', next' := Turn(probes, draws, results, w.at, d, r, activation, deactivation, w.drawn, w.next);
    runs', w' := runs, w;
    if stop.Some? {
      if run.Some? {
        LoopEndsAfterRun(probes, draws, results, p0, d0, r0, activation, deactivation, next0, runs, d, r, w, run.value, stop.value, p');
        runs' := runs + [run.value];
      } else {
        LoopEnds(probes, draws, results, p0, d0, r0, activation, deactivation, next0, runs, d, r, w, stop.value, p');
      }
    } else if run.Some? {
      LoopFires(probes, draws, results, p0, d0, r0, activation, deactivation, next0, runs, d, r, w, run.value, next');
      runs', w' := runs + [run.value], Pause(w.at + 2, next', w.at + 3);
    } else {
      LoopWaits(probes, draws, results, p0, d0, r0, activation, deactivation, next0, runs, d, r, w);
      w' := Pause(w.drawn, w.next, w.at + 2);
    }
  }

  /**
   * How one pass of the outer loop read the stretch `s` of the streams: it
   * read the clock and drew the activation time and the duration, or ended
   * at the reading or draw that failed; then its window went as
   * `WindowRead` says.
   */
  predicate CycleRead(probes: seq<Probe>, draws: seq<int>, results: seq<RunResult>, c: Cycle, s: Span) {
    match c
    case Aborted(end) =>
      && s.activated.None? && s.w.None? && s.r == s.r0
      && (|| (end == Interrupted && s.p == s.p0 == |probes| && s.d == s.d0)
          || (s.p == s.p0 + 1 <= |probes| && end == Crashed(s.p0) && probes[s.p0].Error? && s.d == s.d0)
          || (end == Interrupted && s.p == s.p0 + 1 <= |probes| && probes[s.p0].Time? && s.d0 <= s.d == |draws| <= s.d0 + 1))
    case Window(began, activation, deactivation, runs, end) =>
      && s.p0 < |probes| && probes[s.p0] == Time(began)
      && s.d0 + 1 < |draws| && IsDraw(draws[s.d0]) && IsDraw(draws[s.d0 + 1])
      && activation == ActivationTime(began, draws[s.d0])
      && deactivation == activation + ActiveDuration(draws[s.d0 + 1])
      && WindowRead(probes, draws, results, s.p0 + 1, s.d0 + 2, s.r0, activation, deactivation,
                    runs, end, s.activated, s.w, s.p, s.d, s.r)
  }

  /** One pass of the outer loop, starting at the stream positions `p0`, `d0`, `r0`. */
  method RunCycle(probes: seq<Probe>, draws: seq<int>, results: seq<RunResult>, p0: nat, d0: nat, r0: nat)
    returns (c: Cycle, p: nat, d: nat, r: nat, activated: Option<nat>, w: Option<Pause>)
    requires p0 <= |probes| && d0 <= |draws| && r0 <= |results|
    requires Monotone(probes) && DrawsInRange(draws)
    ensures p0 <= p <= |probes| && d0 <= d <= |draws| && r == r0 + |Runs(c)| <= |results|
    ensures WindowOk(c) && RunsPunctual(probes, Runs(c))
    ensures c.Window? ==> p0 < |probes| && probes[p0] == Time(c.began)
    ensures c.Window? && |c.runs| > 0 ==> OpenedBy(probes, c.runs[0], c.activation)
    ensures forall k | 0 <= k < |Runs(c)| :: Runs(c)[k].result == results[r0 + k]
    ensures |Runs(c)| > 0 ==> AtLeast(probes, p, Runs(c)[|Runs(c)| - 1].start)
    ensures c.end.Crashed? ==> p0 <= c.end.probe < p && probes[c.end.probe].Error?
    ensures c.end.Interrupted? ==> p == |probes| || d == |draws| || r == |results|
    ensures !c.end.Interrupted? ==> p0 < p
    ensures c.Window? && c.end.Deactivated? ==> w.Some? && p == w.value.at + 1 && probes[p - 1] == Time(c.end.when)
    ensures c.Window? && c.end.Deactivated? ==> Waiting(probes, c.deactivation, w.value)
    ensures CycleRead(probes, draws, results, c, Span(p0, d0, r0, activated, w, p, d, r))
  {
    p, d, r := p0, d0, r0;
    // draw the window
    if p == |probes| {
      return Aborted(Interrupted), p, d, r, None, None;
    }
    if probes[p].Error? {
      return Aborted(Crashed(p)), p + 1, d, r, None, None;
    }
    var began := probes[p].t;
    if d == |draws| {
      return Aborted(Interrupted), p + 1, d, r, None, None;
    }
    var activation := ActivationTime(began, draws[d]);
    if d + 1 == |draws| {
      return Aborted(Interrupted), p + 1, d + 1, r, None, None;
    }
    var deactivation := activation + ActiveDuration(draws[d + 1]);
    var runs, end;
    runs, end, p, d, r, activated, w := Activate(probes, draws, results, p + 1, d + 2, r, activation, deactivation);
    c := Window(began, activation, deactivation, runs, end);
  }

  /** The first run's due time was drawn from the reading right after one at or after activation. */
  predicate OpenedBy(probes: seq<Probe>, first: Run, activation: int) {
    0 < first.drawnAt < |probes| && probes[first.drawnAt - 1].Time? && activation <= probes[first.drawnAt - 1].t
  }

  /**
   * How the window whose idle loop starts at `p0` went. `activated` is the
   * reading that found the activation time reached, if one did, after
   * readings all before it; `w`, if the first run was scheduled, is where the
   * active loop was when its last turn began. Each ending reads exactly up to
   * the reading or draw that caused it.
   */
  predicate WindowRead(probes: seq<Probe>, draws: seq<int>, results: seq<RunResult>,
                       p0: nat, d0: nat, r0: nat, activation: int, deactivation: int,
                       runs: seq<Run>, end: End, activated: Option<nat>, w: Option<Pause>, p: nat, d: nat, r: nat) {
    match activated
    case None =>
      && runs == [] && w.None? && d == d0 && r == r0
      && (|| (end == Interrupted && p == |probes| && Polled(probes, p0, p, activation))
          || (p0 < p <= |probes| && end == Crashed(p - 1) && probes[p - 1].Error? && Polled(probes, p0, p - 1, activation)))
    case Some(a) =>
      && p0 <= a < |probes| && Polled(probes, p0, a, activation) && probes[a].Time? && activation <= probes[a].t
      && (match w
          case None =>
            && runs == [] && d == d0 && r == r0
            && (|| (end == Interrupted && p == a + 1 == |probes|)
                || (p == a + 2 <= |probes| && end == Crashed(a + 1) && probes[a + 1].Error?)
                || (end == Interrupted && p == a + 2 <= |probes| && probes[a + 1].Time? && d0 == |draws|))
          case Some(pause) =>
            && a + 1 < |probes| && probes[a + 1].Time? && d0 < |draws| && IsDraw(draws[d0])
            && ActiveRead(probes, draws, results, a + 2, d0 + 1, r0, deactivation,
                          NextRunTime(probes[a + 1].t, draws[d0]), runs, end, pause, p, d, r))
  }

  /**
   * The window of a cycle once drawn: wait until activation, schedule the
   * first run and run the active loop.
   */
  method Activate(probes: seq<Probe>, draws: seq<int>, results: seq<RunResult>,
                  p0: nat, d0: nat, r0: nat, activation: int, deactivation: int)
    returns (runs: seq<Run>, end: End, p: nat, d: nat, r: nat, activated: Option<nat>, w: Option<Pause>)
    requires p0 <= |probes| && d0 <= |draws| && r0 <= |results|
    requires Monotone(probes) && DrawsInRange(draws)
    ensures p0 <= p <= |probes| && d0 <= d <= |draws| && r == r0 + |runs| <= |results|
    ensures forall k | 0 <= k < |runs| :: runs[k].result == results[r0 + k]
    ensures RunsWithin(runs, activation, deactivation) && (|runs| > 0 ==> activation + 30 <= runs[0].start)
    ensures RunsPunctual(probes, runs) && (|runs| > 0 ==> OpenedBy(probes, runs[0], activation))
    ensures |runs| > 0 ==> AtLeast(probes, p, runs[|runs| - 1].start)
    ensures end.Deactivated? ==> deactivation <= end.when && (|runs| > 0 ==> runs[|runs| - 1].start <= end.when)
    ensures end.Deactivated? ==> w.Some? && p == w.value.at + 1 && probes[p - 1] == Time(end.when)
    ensures end.Deactivated? ==> Waiting(probes, deactivation, w.value)
    ensures end.Crashed? ==> p0 <= end.probe < p && probes[end.probe].Error?
    ensures end.Interrupted? ==> p == |probes| || d == |draws| || r == |results|
    ensures WindowRead(probes, draws, results, p0, d0, r0, activation, deactivation, runs, end, activated, w, p, d, r)
  {
    d, r := d0, r0;
    runs := [];
    w := None;
    // wait until activation
    var idle;
    p, idle := Idle(probes, p0, activation);
    if idle.Some? {
      return runs, idle.value, p, d, r, None, None;
    }
    activated := Some(p - 1);
    ClockFrom(probes, p - 1);
    LaterAtLeast(probes, p - 1, p + 1, probes[p - 1].t, activation);

    // schedule the first run
    if p == |probes| {
      return runs, Interrupted, p, d, r, activated, None;
    }
    if probes[p].Error? {
      return runs, Crashed(p), p + 1, d, r, activated, None;
    }
    if d == |draws| {
      return runs, Interrupted, p + 1, d, r, activated, None;
    }
    assert NotBefore(probes, p, probes[p - 1].t);
    var next := NextRunTime(probes[p].t, draws[d]);
    var pause;
    runs, end, p, d, r, pause := Active(probes, draws, results, p + 1, d + 1, r, activation, deactivation, next);
    w := Some(pause);
    if |runs| > 0 {
      assert PunctualAt(probes, runs, 0);
    }
  }

  /* ---------------------------------------------------------------------- */
  /* main                                                                    */
  /* ---------------------------------------------------------------------- */

  /** A cycle kept the window's rules, its runs fired punctually, and if it crashed, a probe raised. */
  predicate Settled(probes: seq<Probe>, c: Cycle) {
    && WindowOk(c)
    && RunsPunctual(probes, Runs(c))
    && (c.Window? && |c.runs| > 0 ==> OpenedBy(probes, c.runs[0], c.activation))
    && (c.end.Crashed? ==> c.end.probe < |probes| && probes[c.end.probe].Error?)
  }

  /** Every run fired over a sequence of cycles, in order. */
  function AllRuns(cycles: seq<Cycle>): seq<Run>
    decreases |cycles|
  {
    if cycles == [] then [] else AllRuns(cycles[..|cycles| - 1]) + Runs(cycles[|cycles| - 1])
  }

  /** Consecutive runs fire at least thirty seconds apart. */
  predicate Spaced(runs: seq<Run>) {
    forall k | 0 < k < |runs| :: runs[k - 1].start + 30 <= runs[k].start
  }

  lemma {:induction false} SpacedAppend(a: seq<Run>, b: seq<Run>)
    requires Spaced(a) && Spaced(b)
    requires |a| > 0 && |b| > 0 ==> a[|a| - 1].start + 30 <= b[0].start
    ensures Spaced(a + b)
  {
    var s := a + b;
    forall k | 0 < k < |s| ensures s[k - 1].start + 30 <= s[k].start {
      if k < |a| {
        assert s[k - 1] == a[k - 1] && s[k] == a[k];
      } else if k == |a| {
        assert s[k - 1] == a[|a| - 1] && s[k] == b[0];
      } else {
        assert s[k - 1] == b[k - 1 - |a|] && s[k] == b[k - |a|];
      }
    }
  }

  /**
   * A history of cycles read from `probes` whose runs, `all` in order, took
   * the pipeline outcomes after the initial one and fired spaced out.
   */
  predicate History(probes: seq<Probe>, results: seq<RunResult>, cycles: seq<Cycle>, all: seq<Run>) {
    && all == AllRuns(cycles)
    && (forall i | 0 <= i < |cycles| :: Settled(probes, cycles[i]))
    && 1 + |all| <= |results|
    && (forall k | 0 <= k < |all| :: all[k].result == results[k + 1])
    && Spaced(all)
  }

  /** Cycle `i` read the stretch `spans[i]` of the streams. */
  predicate ReadAt(probes: seq<Probe>, draws: seq<int>, results: seq<RunResult>, cycles: seq<Cycle>, spans: seq<Span>, i: nat)
    requires i < |cycles| && i < |spans|
  {
    CycleRead(probes, draws, results, cycles[i], spans[i])
  }

  /** The stretch of cycle `i` starts where the previous one's ended. */
  predicate Follows(spans: seq<Span>, i: nat)
    requires 0 < i < |spans|
  {
    spans[i].p0 == spans[i - 1].p && spans[i].d0 == spans[i - 1].d && spans[i].r0 == spans[i - 1].r
  }

  /**
   * The cycles read consecutive stretches of the streams, the first one
   * starting at the beginning of the clock and the draws and right after the
   * initial run's outcome.
   */
  predicate Traced(probes: seq<Probe>, draws: seq<int>, results: seq<RunResult>, cycles: seq<Cycle>, spans: seq<Span>) {
    && |spans| == |cycles|
    && (|spans| > 0 ==> spans[0].p0 == 0 && spans[0].d0 == 0 && spans[0].r0 == 1)
    && (forall i | 0 < i < |spans| :: Follows(spans, i))
    && (forall i | 0 <= i < |spans| :: ReadAt(probes, draws, results, cycles, spans, i))
  }

  /** A cycle read from where the traced ones stopped extends the trace. */
  lemma SpansJoin(probes: seq<Probe>, draws: seq<int>, results: seq<RunResult>,
                  cycles: seq<Cycle>, spans: seq<Span>, c: Cycle, s: Span)
    requires Traced(probes, draws, results, cycles, spans) && CycleRead(probes, draws, results, c, s)
    requires |spans| == 0 ==> s.p0 == 0 && s.d0 == 0 && s.r0 == 1
    requires |spans| > 0 ==> s.p0 == spans[|spans| - 1].p && s.d0 == spans[|spans| - 1].d && s.r0 == spans[|spans| - 1].r
    ensures Traced(probes, draws, results, cycles + [c], spans + [s])
  {
    var cs, ss := cycles + [c], spans + [s];
    forall i | 0 < i < |ss| ensures Follows(ss, i) {
      if i < |spans| {
        assert Follows(spans, i);
      }
    }
    forall i | 0 <= i < |ss| ensures ReadAt(probes, draws, results, cs, ss, i) {
      if i < |spans| {
        assert ReadAt(probes, draws, results, cycles, spans, i);
        assert cs[i] == cycles[i] && ss[i] == spans[i];
      }
    }
  }

  /**
   * `main` after its setup: the initial run, whose failure is caught, then
   * cycle after cycle. A cycle that crashes is followed by a fresh one;
   * only running out of input ends the loop. `spans` are the stretches of
   * the streams the cycles read, one after the other.
   */
  method Serve(probes: seq<Probe>, draws: seq<int>, results: seq<RunResult>)
    returns (initial: Option<RunResult>, cycles: seq<Cycle>, ghost spans: seq<Span>)
    requires Monotone(probes) && DrawsInRange(draws)
    ensures initial == if results == [] then None else Some(results[0])
    ensures results == [] ==> cycles == []
    ensures results != [] ==> |cycles| > 0 && cycles[|cycles| - 1].end.Interrupted?
    ensures forall i | 0 <= i < |cycles| - 1 :: !cycles[i].end.Interrupted?
    ensures forall i | 0 <= i < |cycles| :: Settled(probes, cycles[i])
    ensures |AllRuns(cycles)| < |results| || results == []
    ensures forall k | 0 <= k < |AllRuns(cycles)| :: AllRuns(cycles)[k].result == results[k + 1]
    ensures Spaced(AllRuns(cycles))
    ensures Traced(probes, draws, results, cycles, spans)
    ensures results == [] ==> spans == []
    ensures results != [] ==> |spans| > 0 && (|| spans[|spans| - 1].p == |probes|
                                              || spans[|spans| - 1].d == |draws|
                                              || spans[|spans| - 1].r == |results|)
  {
    if results == [] {
      return None, [], [];
    }
    // the initial run; an exception from it is caught
    initial := Some(results[0]);

    var p, d, r := 0, 0, 1;
    cycles, spans := [], [];
    ghost var all: seq<Run> := [];
    var interrupted := false;
    while !interrupted
      invariant Serving(probes, draws, results, cycles, spans, all, p, d, r, interrupted)
      decreases |probes| - p, !interrupted
    {
      var c, p', d', r', activated, w := RunCycle(probes, draws, results, p, d, r);
      ServeStep(probes, draws, results, cycles, spans, all, p, d, r, c, p', d', r', activated, w);
      cycles, spans := cycles + [c], spans + [Span(p, d, r, activated, w, p', d', r')];
      all := all + Runs(c);
      p, d, r := p', d', r';
      interrupted := c.end.Interrupted?;
    }
    ServeEnds(probes, draws, results, cycles, spans, all, p, d, r);
  }

  /** When the loop of `main` stops, its last cycle was interrupted by a stream running out. */
  lemma ServeEnds(probes: seq<Probe>, draws: seq<int>, results: seq<RunResult>, cycles: seq<Cycle>, spans: seq<Span>,
                  all: seq<Run>, p: nat, d: nat, r: nat)
    requires Serving(probes, draws, results, cycles, spans, all, p, d, r, true)
    ensures |cycles| > 0 && cycles[|cycles| - 1].end.Interrupted?
    ensures forall i | 0 <= i < |cycles| - 1 :: !cycles[i].end.Interrupted?
    ensures forall i | 0 <= i < |cycles| :: Settled(probes, cycles[i])
    ensures |AllRuns(cycles)| < |results|
    ensures forall k | 0 <= k < |AllRuns(cycles)| :: AllRuns(cycles)[k].result == results[k + 1]
    ensures Spaced(AllRuns(cycles))
    ensures Traced(probes, draws, results, cycles, spans)
    ensures |spans| > 0 && (|| spans[|spans| - 1].p == |probes|
                            || spans[|spans| - 1].d == |draws|
                            || spans[|spans| - 1].r == |results|)
  {
  }

  /**
   * The state of `main`'s loop: the cycles so far, with their runs `all`,
   * read the stretches `spans` of the streams, and the next cycle starts at
   * `p`, `d` and `r`; only the last cycle can have been interrupted, and
   * then a stream ran out.
   */
  predicate Serving(probes: seq<Probe>, draws: seq<int>, results: seq<RunResult>, cycles: seq<Cycle>, spans: seq<Span>,
                    all: seq<Run>, p: nat, d: nat, r: nat, interrupted: bool)
  {
    && p <= |probes| && d <= |draws| && r == 1 + |all|
    && History(probes, results, cycles, all)
    && (forall i | 0 <= i < |cycles| - 1 :: !cycles[i].end.Interrupted?)
    && (interrupted <==> |cycles| > 0 && cycles[|cycles| - 1].end.Interrupted?)
    && (|all| > 0 ==> AtLeast(probes, p, all[|all| - 1].start))
    && Traced(probes, draws, results, cycles, spans)
    && (|spans| == 0 ==> p == 0 && d == 0 && r == 1)
    && (|spans| > 0 ==> spans[|spans| - 1].p == p && spans[|spans| - 1].d == d && spans[|spans| - 1].r == r)
    && (interrupted ==> p == |probes| || d == |draws| || r == |results|)
  }

  /** A cycle run from where the loop stands, as `RunCycle` promises, moves the loop's state on. */
  lemma ServeStep(probes: seq<Probe>, draws: seq<int>, results: seq<RunResult>, cycles: seq<Cycle>, spans: seq<Span>,
                  all: seq<Run>, p0: nat, d0: nat, r0: nat, c: Cycle, p: nat, d: nat, r: nat,
                  activated: Option<nat>, w: Option<Pause>)
    requires Serving(probes, draws, results, cycles, spans, all, p0, d0, r0, false)
    requires p0 <= p <= |probes| && d0 <= d <= |draws| && r == r0 + |Runs(c)| <= |results|
    requires WindowOk(c) && RunsPunctual(probes, Runs(c))
    requires c.Window? ==> p0 < |probes| && probes[p0] == Time(c.began)
    requires c.Window? && |c.runs| > 0 ==> OpenedBy(probes, c.runs[0], c.activation)
    requires forall k | 0 <= k < |Runs(c)| :: Runs(c)[k].result == results[r0 + k]
    requires |Runs(c)| > 0 ==> AtLeast(probes, p, Runs(c)[|Runs(c)| - 1].start)
    requires c.end.Crashed? ==> p0 <= c.end.probe < p && probes[c.end.probe].Error?
    requires c.end.Interrupted? ==> p == |probes| || d == |draws| || r == |results|
    requires CycleRead(probes, draws, results, c, Span(p0, d0, r0, activated, w, p, d, r))
    ensures Serving(probes, draws, results, cycles + [c], spans + [Span(p0, d0, r0, activated, w, p, d, r)],
                    all + Runs(c), p, d, r, c.end.Interrupted?)
  {
    CycleJoins(probes, results, p0, p, r0, cycles, all, c);
    SpansJoin(probes, draws, results, cycles, spans, c, Span(p0, d0, r0, activated, w, p, d, r));
  }

  /**
   * A new cycle, whose runs take the next pipeline outcomes and were read
   * from the clock after the history's, extends the history.
   */
  lemma CycleJoins(probes: seq<Probe>, results: seq<RunResult>, p0: nat, p: nat, r0: nat,
                   cycles: seq<Cycle>, before: seq<Run>, c: Cycle)
    requires History(probes, results, cycles, before)
    requires forall i | 0 <= i < |cycles| :: !cycles[i].end.Interrupted?
    requires |before| > 0 ==> AtLeast(probes, p0, before[|before| - 1].start)
    requires r0 == 1 + |before|
    requires p0 <= p <= |probes| && r0 + |Runs(c)| <= |results|
    requires WindowOk(c) && RunsPunctual(probes, Runs(c))
    requires c.Window? && |c.runs| > 0 ==> OpenedBy(probes, c.runs[0], c.activation)
    requires c.Window? ==> p0 < |probes| && probes[p0] == Time(c.began)
    requires forall k | 0 <= k < |Runs(c)| :: Runs(c)[k].result == results[r0 + k]
    requires |Runs(c)| > 0 ==> AtLeast(probes, p, Runs(c)[|Runs(c)| - 1].start)
    requires c.end.Crashed? ==> p0 <= c.end.probe < p && probes[c.end.probe].Error?
    ensures History(probes, results, cycles + [c], before + Runs(c))
    ensures forall i | 0 <= i < |cycles + [c]| - 1 :: !(cycles + [c])[i].end.Interrupted?
    ensures |before + Runs(c)| > 0 ==> AtLeast(probes, p, (before + Runs(c))[|before + Runs(c)| - 1].start)
  {
    var cs := cycles + [c];
    assert cs[..|cycles|] == cycles;
    RunsJoin(probes, results, p0, p, r0, before, c);
    CyclesAppend(probes, cycles, c);
  }

  /** The runs of the new cycle continue the history's runs, spaced out and with the next outcomes. */
  lemma RunsJoin(probes: seq<Probe>, results: seq<RunResult>, p0: nat, p: nat, r0: nat, before: seq<Run>, c: Cycle)
    requires Spaced(before) && r0 == 1 + |before| && r0 + |Runs(c)| <= |results|
    requires forall k | 0 <= k < |before| :: before[k].result == results[k + 1]
    requires |before| > 0 ==> AtLeast(probes, p0, before[|before| - 1].start)
    requires p0 <= p <= |probes| && WindowOk(c)
    requires c.Window? ==> p0 < |probes| && probes[p0] == Time(c.began)
    requires forall k | 0 <= k < |Runs(c)| :: Runs(c)[k].result == results[r0 + k]
    requires |Runs(c)| > 0 ==> AtLeast(probes, p, Runs(c)[|Runs(c)| - 1].start)
    ensures Spaced(before + Runs(c))
    ensures forall k | 0 <= k < |before + Runs(c)| :: (before + Runs(c))[k].result == results[k + 1]
    ensures |before + Runs(c)| > 0 ==> AtLeast(probes, p, (before + Runs(c))[|before + Runs(c)| - 1].start)
  {
    var after := before + Runs(c);
    if c.Window? && |before| > 0 && |c.runs| > 0 {
      assert NotBefore(probes, p0, before[|before| - 1].start);
    }
    SpacedAppend(before, Runs(c));
    if |Runs(c)| == 0 && |before| > 0 {
      assert after[|after| - 1] == before[|before| - 1];
    }
    forall k | 0 <= k < |after| ensures after[k].result == results[k + 1] {
      if k >= |before| {
        assert after[k] == Runs(c)[k - |before|];
      }
    }
  }

  /** Appending a settled cycle to settled cycles that all ran to their end. */
  lemma CyclesAppend(probes: seq<Probe>, cycles: seq<Cycle>, c: Cycle)
    requires forall i | 0 <= i < |cycles| :: !cycles[i].end.Interrupted? && Settled(probes, cycles[i])
    requires Settled(probes, c)
    ensures forall i | 0 <= i < |cycles + [c]| :: Settled(probes, (cycles + [c])[i])
    ensures forall i | 0 <= i < |cycles + [c]| - 1 :: !(cycles + [c])[i].end.Interrupted?
  {
    var cs := cycles + [c];
    forall i | 0 <= i < |cs| ensures Settled(probes, cs[i]) {
      if i < |cycles| {
        assert cs[i] == cycles[i];
      }
    }
  }
}
