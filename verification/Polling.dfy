/**
 The two jittered cadences, the interruptible sleeper and the poll loop that drives them, with the
 shutdown flag free to flip between any two things the loop does. Times are nanoseconds.
 */
module Polling {
  import opened Text

  const JITTER_RESOLUTION: nat := 1_000_000

  /** A floating-point argument: a rational, or not finite. */
  datatype Float = NonFinite | Finite(value: real)

  datatype JitteredInterval = JitteredInterval(base: nat, ratio: real)

  function Distance(x: real, y: real): real {
    if x <= y then y - x else x - y
  }

  /** `JitteredInterval::new`: the ratio becomes the nearest one in [0, 1]. */
  function NewInterval(base: nat, ratio: Float): (r: Interval)
    ensures r.base == base
    ensures ratio.Finite? ==> forall x :: 0.0 <= x <= 1.0 ==> Distance(r.ratio, ratio.value) <= Distance(x, ratio.value)
    ensures ratio.NonFinite? ==> r.ratio == 0.0
  {
    JitteredInterval(base,
      match ratio
      case NonFinite => 0.0
      case Finite(x) => if x < 0.0 then 0.0 else if x > 1.0 then 1.0 else x)
  }

  predicate ValidInterval(v: JitteredInterval) {
    0.0 <= v.ratio <= 1.0
  }

  /** An interval as its constructor makes it. */
  type Interval = v: JitteredInterval | ValidInterval(v) witness JitteredInterval(0, 0.0)

  /** A random draw as a fraction in [0, 1). */
  function Fraction(draw: nat): (f: real)
    ensures 0.0 <= f < 1.0
  {
    (draw % JITTER_RESOLUTION) as real / 1_000_000.0
  }

  /** The given fraction of `most`, rounded down to a nanosecond. */
  function Portion(most: real, f: real): (p: nat)
    requires 0.0 <= most && 0.0 <= f < 1.0
    ensures p <= most.Floor
  {
    PortionBound(most, f);
    FloorMonotone(most * f, most);
    (most * f).Floor
  }

  lemma PortionBound(most: real, f: real)
    requires 0.0 <= most && 0.0 <= f < 1.0
    ensures 0.0 <= most * f <= most
  {
  }

  lemma FloorMonotone(x: real, y: real)
    requires x <= y
    ensures x.Floor <= y.Floor
  {
    assert x.Floor as real <= x && y < (y.Floor + 1) as real;
  }

  /** All the jitter an interval can add. */
  function Slack(v: Interval): (r: real)
    ensures r >= 0.0
  {
    v.base as real * v.ratio
  }

  /** `next_delay`: the base plus a random portion of the slack. */
  function NextDelay(v: Interval, draw: nat): nat
  {
    if v.ratio <= 0.0 then v.base else v.base + Portion(Slack(v), Fraction(draw))
  }

  /** The longest delay, `base * (1 + ratio)` in whole nanoseconds. */
  function Longest(v: Interval): (n: int)
    ensures n as real <= v.base as real * (1.0 + v.ratio) < (n + 1) as real
  {
    v.base + Slack(v).Floor
  }

  /** A delay lies between the base and the base stretched by the ratio. */
  lemma DelayBounds(v: Interval, draw: nat)
    ensures v.base <= NextDelay(v, draw)
    ensures NextDelay(v, draw) <= Longest(v)
  {
  }

  lemma MillionthsDrawn(most: real, n: nat)
    requires 0.0 <= most && n < 1_000_000
    ensures 0.0 <= n as real / 1_000_000.0 < 1.0
    ensures var p := Portion(most, n as real / 1_000_000.0) as real;
            1_000_000.0 * p <= most * n as real < 1_000_000.0 * (p + 1.0)
  {
    var f := n as real / 1_000_000.0;
    var p := Portion(most, f) as real;
    assert 1_000_000.0 * (most * f) == most * n as real;
    assert p <= most * f < p + 1.0;
  }

  /**
   The jitter is drawn in a million equal steps: draw `n` adds `n` millionths of `base * ratio`, in whole nanoseconds
   rounded down.
   */
  lemma JitterIsDrawn(v: Interval, draw: nat)
    ensures NextDelay(v, draw) >= v.base
    ensures var extra, n := (NextDelay(v, draw) - v.base) as real, draw % 1_000_000;
            1_000_000.0 * extra <= (v.base as real * v.ratio) * n as real < 1_000_000.0 * (extra + 1.0)
  {
    MillionthsDrawn(Slack(v), draw % 1_000_000);
    if v.ratio <= 0.0 {
      assert v.base as real * v.ratio == 0.0;
      assert (v.base as real * v.ratio) * (draw % 1_000_000) as real == 0.0;
    }
  }

  lemma ProductPositiveIff(x: real, y: real)
    requires x >= 0.0 && y >= 0.0
    ensures x * y > 0.0 <==> x > 0.0 && y > 0.0
  {
    if x == 0.0 || y == 0.0 {
      assert x * y == 0.0;
    }
  }

  lemma SlackPositiveIff(v: Interval)
    ensures Slack(v) > 0.0 <==> v.base > 0 && v.ratio > 0.0
  {
    var base := v.base as real;
    ProductPositiveIff(base, v.ratio);
    assert Slack(v) == base * v.ratio;
  }

  lemma PortionBelow(most: real, f: real)
    requires 0.0 < most && 0.0 <= f < 1.0
    ensures Portion(most, f) as real < most
  {
    assert (most * f).Floor as real <= most * f;
    assert most * (1.0 - f) == most - most * f;
    assert most * (1.0 - f) > 0.0;
  }

  /** The half-open interval of the type's documentation, `[base, base + base * ratio)`, is met iff it is not empty. */
  lemma DelayBelowIff(v: Interval, draw: nat)
    ensures NextDelay(v, draw) as real < v.base as real + Slack(v) <==> v.base > 0 && v.ratio > 0.0
  {
    SlackPositiveIff(v);
    if Slack(v) > 0.0 {
      PortionBelow(Slack(v), Fraction(draw));
    }
  }

  // ---- Due times ----

  datatype PollAction = Heartbeat | BundleSync

  datatype Dues = Dues(heartbeat: int, sync: int)

  function NextDue(d: Dues): int {
    if d.heartbeat <= d.sync then d.heartbeat else d.sync
  }

  /** The cadences of a scheduler and its first due times. */
  datatype Cadences = Cadences(heartbeat: Interval, sync: Interval) {

    function Start(now: int, draw: nat, draw': nat): Dues {
      Dues(now + NextDelay(heartbeat, draw), now + NextDelay(sync, draw'))
    }
  }

  /** The actions due at `now`, heartbeat first. */
  function DueActions(d: Dues, now: int): seq<PollAction> {
    (if now >= d.heartbeat then [Heartbeat] else []) + (if now >= d.sync then [BundleSync] else [])
  }

  // ---- What the loop does, one observation at a time ----

  /** Every reading and every action of the loop; the flag may flip between any two of them. */
  datatype Observed =
    | Checked(cycle: nat, go: bool)  // `should_continue`, which reads the flag
    | FlagRead(requested: bool)      // the sleeper reads the flag
    | ClockRead(now: int)
    | Slept(duration: nat)
    | Started(action: PollAction, at: int)

  /** The flag is set from observation number `flip` on, if ever. */
  predicate Requested(trace: seq<Observed>, flip: Option<nat>) {
    flip.Some? && |trace| >= flip.value
  }

  function Late(trace: seq<Observed>, flip: Option<nat>): seq<Observed> {
    if Requested(trace, flip) then trace[flip.value..] else []
  }

  predicate IsSleep(o: Observed) {
    o.Slept?
  }

  predicate IsStart(o: Observed, a: PollAction) {
    o.Started? && o.action == a
  }

  function Sleeps(t: seq<Observed>): nat {
    if t == [] then 0 else Sleeps(t[..|t| - 1]) + (if IsSleep(t[|t| - 1]) then 1 else 0)
  }

  function Starts(t: seq<Observed>, a: PollAction): nat {
    if t == [] then 0 else Starts(t[..|t| - 1], a) + (if IsStart(t[|t| - 1], a) then 1 else 0)
  }

  function TimeSlept(t: seq<Observed>): nat {
    if t == [] then 0 else TimeSlept(t[..|t| - 1]) + (if IsSleep(t[|t| - 1]) then t[|t| - 1].duration else 0)
  }

  /** When the action was started, in order. */
  function Times(t: seq<Observed>, a: PollAction): seq<int> {
    if t == [] then []
    else Times(t[..|t| - 1], a) + (if IsStart(t[|t| - 1], a) then [t[|t| - 1].at] else [])
  }

  lemma OneMoreTime(t: seq<Observed>, o: Observed)
    ensures TimeSlept(t + [o]) == TimeSlept(t) + (if IsSleep(o) then o.duration else 0)
    ensures Times(t + [o], Heartbeat) == Times(t, Heartbeat) + (if IsStart(o, Heartbeat) then [o.at] else [])
    ensures Times(t + [o], BundleSync) == Times(t, BundleSync) + (if IsStart(o, BundleSync) then [o.at] else [])
  {
    assert (t + [o])[..|t + [o]| - 1] == t;
  }

  /** What has been observed since the flag was set. */
  datatype Tally = Tally(sleeps: nat, heartbeats: nat, syncs: nat)

  function LateTally(t: seq<Observed>, flip: Option<nat>): Tally {
    var late := Late(t, flip);
    Tally(Sleeps(late), Starts(late, Heartbeat), Starts(late, BundleSync))
  }

  function Counted(y: Tally, o: Observed): Tally {
    Tally(y.sleeps + (if IsSleep(o) then 1 else 0),
          y.heartbeats + (if IsStart(o, Heartbeat) then 1 else 0),
          y.syncs + (if IsStart(o, BundleSync) then 1 else 0))
  }

  lemma CountOneMore(t: seq<Observed>, o: Observed)
    ensures Tally(Sleeps(t + [o]), Starts(t + [o], Heartbeat), Starts(t + [o], BundleSync))
         == Counted(Tally(Sleeps(t), Starts(t, Heartbeat), Starts(t, BundleSync)), o)
  {
    assert (t + [o])[..|t + [o]| - 1] == t;
  }

  lemma TallyOneMore(t: seq<Observed>, o: Observed, flip: Option<nat>)
    ensures LateTally(t + [o], flip) == if Requested(t, flip) then Counted(LateTally(t, flip), o) else Tally(0, 0, 0)
    ensures flip.None? || |t| <= flip.value ==> LateTally(t, flip) == Tally(0, 0, 0)
  {
    if Requested(t, flip) {
      assert Late(t + [o], flip) == Late(t, flip) + [o];
      CountOneMore(Late(t, flip), o);
    } else {
      assert Late(t + [o], flip) == [];
    }
  }

  /** `res` continues `trace` within a cycle, with sleeps of at most one step each. */
  ghost predicate Within(trace: seq<Observed>, res: seq<Observed>, step: nat) {
    && trace <= res
    && forall i :: |trace| <= i < |res| ==> !res[i].Checked? && (res[i].Slept? ==> 0 < res[i].duration <= step)
  }

  lemma WithinOneMore(trace: seq<Observed>, res: seq<Observed>, step: nat, o: Observed)
    requires Within(trace, res, step) && !o.Checked? && (o.Slept? ==> 0 < o.duration <= step)
    ensures Within(trace, res + [o], step)
  {
  }

  /** `res` continues `trace` with flag readings and steps only, at most one step of them late. */
  ghost predicate SleptOnly(trace: seq<Observed>, res: seq<Observed>, step: nat, flip: Option<nat>) {
    && Within(trace, res, step)
    && Times(res, Heartbeat) == Times(trace, Heartbeat) && Times(res, BundleSync) == Times(trace, BundleSync)
    && (var y, y' := LateTally(trace, flip), LateTally(res, flip);
        y.sleeps == 0 ==>
          y' == y.(sleeps := y'.sleeps) && y'.sleeps <= 1 && (y'.sleeps == 1 ==> Requested(res, flip)))
  }

  lemma FlagSeen(trace: seq<Observed>, res: seq<Observed>, step: nat, flip: Option<nat>, b: bool)
    requires SleptOnly(trace, res, step, flip)
    ensures SleptOnly(trace, res + [FlagRead(b)], step, flip)
    ensures TimeSlept(res + [FlagRead(b)]) == TimeSlept(res)
    ensures !Requested(res, flip) ==> LateTally(res + [FlagRead(b)], flip) == Tally(0, 0, 0)
  {
    WithinOneMore(trace, res, step, FlagRead(b));
    TallyOneMore(res, FlagRead(b), flip);
    OneMoreTime(res, FlagRead(b));
  }

  lemma StepSlept(trace: seq<Observed>, res: seq<Observed>, step: nat, flip: Option<nat>, chunk: nat)
    requires SleptOnly(trace, res, step, flip) && 0 < chunk <= step
    requires LateTally(res, flip) == Tally(0, 0, 0) && (flip.None? || |res| <= flip.value)
    ensures SleptOnly(trace, res + [Slept(chunk)], step, flip)
    ensures TimeSlept(res + [Slept(chunk)]) == TimeSlept(res) + chunk
  {
    WithinOneMore(trace, res, step, Slept(chunk));
    TallyOneMore(res, Slept(chunk), flip);
    OneMoreTime(res, Slept(chunk));
  }

  /**
   `InterruptibleSleeper::sleep`: in steps, checking the flag before each. It never oversleeps, sleeps at most
   one step after the flag is set, and sleeps the whole duration if it never sees the flag.
   */
  method Sleep(trace: seq<Observed>, duration: nat, step: nat, flip: Option<nat>)
    returns (res: seq<Observed>, seen: bool)
    requires step > 0
    ensures SleptOnly(trace, res, step, flip)
    ensures TimeSlept(res) <= TimeSlept(trace) + duration
    ensures !seen ==> TimeSlept(res) == TimeSlept(trace) + duration
    ensures seen ==> Requested(res, flip)
    ensures flip.None? ==> TimeSlept(res) == TimeSlept(trace) + duration
  {
    res, seen := trace, false;
    var remaining: nat := duration;
    while remaining > 0
      invariant SleptOnly(trace, res, step, flip)
      invariant TimeSlept(res) + remaining == TimeSlept(trace) + duration
    {
      var requested := Requested(res, flip);
      FlagSeen(trace, res, step, flip, requested);
      res := res + [FlagRead(requested)];
      if requested {
        seen := true;
        return;
      }
      var chunk := if remaining <= step then remaining else step;
      StepSlept(trace, res, step, flip, chunk);
      res := res + [Slept(chunk)];
      remaining := remaining - chunk;
    }
  }

  // ---- Cadence ----

  /** The start before the i-th, or the creation for the first. */
  function Previous(created: int, ts: seq<int>, i: nat): int
    requires i <= |ts|
  {
    if i == 0 then created else ts[i - 1]
  }

  /** Every start is at least `base` after the one before it, and the next one is due no sooner. */
  ghost predicate OnCadence(created: int, base: nat, ts: seq<int>, due: int) {
    && (forall i :: 0 <= i < |ts| ==> ts[i] >= Previous(created, ts, i) + base)
    && due >= Previous(created, ts, |ts|) + base
  }

  lemma FireOnCadence(created: int, v: Interval, ts: seq<int>, due: int, now: int, draw: nat)
    requires OnCadence(created, v.base, ts, due) && now >= due
    ensures OnCadence(created, v.base, ts + [now], now + NextDelay(v, draw))
  {
    DelayBounds(v, draw);
    var us := ts + [now];
    forall i | 0 <= i < |us| ensures us[i] >= Previous(created, us, i) + v.base {
      assert Previous(created, us, i) == Previous(created, ts, i);
      if i < |ts| {
        assert us[i] == ts[i];
      }
    }
  }

  /** `n` bases, one after the other. */
  function Bases(n: nat, base: nat): nat {
    if n == 0 then 0 else Bases(n - 1, base) + base
  }

  lemma {:induction false} BasesIsProduct(n: nat, base: nat)
    ensures Bases(n, base) == n * base
  {
    if n > 0 {
      BasesIsProduct(n - 1, base);
    }
  }

  lemma {:induction false} StartsSpread(created: int, base: nat, ts: seq<int>, due: int, n: nat)
    requires OnCadence(created, base, ts, due) && 1 <= n <= |ts|
    ensures ts[n - 1] >= created + Bases(n, base)
  {
    assert ts[n - 1] >= Previous(created, ts, n - 1) + base;
    if n > 1 {
      StartsSpread(created, base, ts, due, n - 1);
    }
  }

  /** Within `t` of creation a cadence has started at most `t / base` times. */
  lemma AtMostOncePerBase(created: int, base: nat, ts: seq<int>, due: int, t: nat, n: nat)
    requires OnCadence(created, base, ts, due) && base > 0
    requires n <= |ts| && forall i :: 0 <= i < n ==> ts[i] <= created + t
    ensures n <= t / base
  {
    if n > 0 {
      StartsSpread(created, base, ts, due, n);
    }
    DivideBound(n, base, t);
  }

  lemma DivideBound(n: nat, base: nat, t: nat)
    requires base > 0 && Bases(n, base) <= t
    ensures n <= t / base
  {
    var q := t / base;
    QuotientBound(t, base);
    if n > q {
      BasesGrow(q + 1, n, base);
      assert false;
    }
  }

  lemma {:induction false} BasesGrow(m: nat, n: nat, base: nat)
    requires m <= n
    ensures Bases(m, base) <= Bases(n, base)
  {
    if m < n {
      BasesGrow(m, n - 1, base);
    }
  }

  lemma QuotientBound(t: nat, base: nat)
    requires base > 0
    ensures Bases(t / base + 1, base) > t
  {
    var q := t / base;
    BasesIsProduct(q, base);
    assert t == q * base + t % base;
  }

  /** Every start comes at most `most` after the one before it, and so will the next. */
  ghost predicate NoLongGap(created: int, most: int, ts: seq<int>, due: int) {
    && (forall i :: 0 <= i < |ts| ==> ts[i] - Previous(created, ts, i) <= most)
    && due - Previous(created, ts, |ts|) <= most
  }

  /** A cadence that is not overdue at `now` keeps its gaps. */
  lemma TakenKeepsGaps(created: int, most: int, ts: seq<int>, due: int, now: int, delay: int)
    requires NoLongGap(created, most, ts, due) && now <= due && delay <= most
    ensures NoLongGap(created, most, ts + (if now >= due then [now] else []), if now >= due then now + delay else due)
  {
    if now >= due {
      var us := ts + [due];
      assert Previous(created, us, |us|) == due;
      assert due + delay - due == delay;
      forall i | 0 <= i < |us| ensures us[i] - Previous(created, us, i) <= most {
        assert Previous(created, us, i) == Previous(created, ts, i);
        if i < |ts| {
          assert us[i] == ts[i];
        }
      }
    } else {
      assert ts + [] == ts;
    }
  }

  /**
   Starting at `now` (or not) with `due` before and `due'` after keeps any history of starts on its cadence and,
   unless it was overdue, without a long gap.
   */
  ghost predicate KeepsCadence(v: Interval, due: int, now: int, started: bool, due': int) {
    && due' >= due && (now <= due ==> now <= due')
    && (forall created, ts :: OnCadence(created, v.base, ts, due) ==>
          OnCadence(created, v.base, ts + (if started then [now] else []), due'))
    && (now <= due ==> forall created, ts :: NoLongGap(created, Longest(v), ts, due) ==>
          NoLongGap(created, Longest(v), ts + (if started then [now] else []), due'))
  }

  lemma TakenKeeps(v: Interval, due: int, now: int, draw: nat)
    ensures KeepsCadence(v, due, now, now >= due, if now >= due then now + NextDelay(v, draw) else due)
  {
    var started, due' := now >= due, if now >= due then now + NextDelay(v, draw) else due;
    DelayBounds(v, draw);
    forall created, ts | OnCadence(created, v.base, ts, due)
      ensures OnCadence(created, v.base, ts + (if started then [now] else []), due')
    {
      if started {
        FireOnCadence(created, v, ts, due, now, draw);
      } else {
        assert ts + [] == ts;
      }
    }
    if now <= due {
      forall created, ts | NoLongGap(created, Longest(v), ts, due)
        ensures NoLongGap(created, Longest(v), ts + (if started then [now] else []), due')
      {
        TakenKeepsGaps(created, Longest(v), ts, due, now, NextDelay(v, draw));
      }
    }
  }

  // ---- Taking what is due ----

  class Scheduler {
    const cadences: Cadences
    var dues: Dues

    constructor (now: int, cadences: Cadences, draw: nat, draw': nat)
      ensures this.cadences == cadences && dues == cadences.Start(now, draw, draw')
      ensures Kept(cadences, now, [], dues) && Punctual(cadences, now, [], dues)
    {
      StartIsKept(cadences, now, draw, draw');
      this.cadences := cadences;
      dues := Dues(now + NextDelay(cadences.heartbeat, draw), now + NextDelay(cadences.sync, draw'));
    }

    /**
     `take_due`: the actions that are due, heartbeat first. What is taken keeps to its cadence, never sooner
     than its base after the last start and, when taken on time, never later than its longest delay.
     */
    method TakeDue(now: int, draw: nat, draw': nat) returns (due: seq<PollAction>)
      modifies this
      ensures due == DueActions(old(dues), now)
      ensures KeepsCadence(cadences.heartbeat, old(dues).heartbeat, now, Heartbeat in due, dues.heartbeat)
      ensures KeepsCadence(cadences.sync, old(dues).sync, now, BundleSync in due, dues.sync)
    {
      TakenKeeps(cadences.heartbeat, dues.heartbeat, now, draw);
      TakenKeeps(cadences.sync, dues.sync, now, draw');
      due := [];
      if now >= dues.heartbeat {
        due := due + [Heartbeat];
        dues := dues.(heartbeat := now + NextDelay(cadences.heartbeat, draw));
      }
      if now >= dues.sync {
        due := due + [BundleSync];
        dues := dues.(sync := now + NextDelay(cadences.sync, draw'));
      }
    }
  }

  // ---- The poll loop ----

  lemma LoggedReading(t: seq<Observed>, o: Observed, flip: Option<nat>)
    requires o.Checked? || o.FlagRead? || o.ClockRead?
    ensures Times(t + [o], Heartbeat) == Times(t, Heartbeat) && Times(t + [o], BundleSync) == Times(t, BundleSync)
    ensures TimeSlept(t + [o]) == TimeSlept(t) && LateTally(t + [o], flip) == LateTally(t, flip)
  {
    OneMoreTime(t, o);
    TallyOneMore(t, o, flip);
  }

  /** Start the due actions in order; each is started at most once. */
  method StartActions(trace: seq<Observed>, due: seq<PollAction>, ghost d: Dues, now: int, flip: Option<nat>)
    returns (res: seq<Observed>)
    requires due == DueActions(d, now)
    ensures Within(trace, res, 0) && TimeSlept(res) == TimeSlept(trace)
    ensures Times(res, Heartbeat) == Times(trace, Heartbeat) + (if now >= d.heartbeat then [now] else [])
    ensures Times(res, BundleSync) == Times(trace, BundleSync) + (if now >= d.sync then [now] else [])
    ensures var y, y' := LateTally(trace, flip), LateTally(res, flip);
            y'.sleeps == y.sleeps && y'.heartbeats <= y.heartbeats + 1 && y'.syncs <= y.syncs + 1
  {
    res := trace;
    if |due| > 0 {
      res := StartAction(res, due[0], now, flip);
    }
    if |due| > 1 {
      res := StartAction(res, due[1], now, flip);
    }
  }

  method StartAction(trace: seq<Observed>, a: PollAction, now: int, flip: Option<nat>) returns (res: seq<Observed>)
    ensures Within(trace, res, 0) && TimeSlept(res) == TimeSlept(trace)
    ensures Times(res, Heartbeat) == Times(trace, Heartbeat) + (if a == Heartbeat then [now] else [])
    ensures Times(res, BundleSync) == Times(trace, BundleSync) + (if a == BundleSync then [now] else [])
    ensures var y, y' := LateTally(trace, flip), LateTally(res, flip);
            && y'.sleeps == y.sleeps
            && y'.heartbeats <= y.heartbeats + (if a == Heartbeat then 1 else 0)
            && y'.syncs <= y.syncs + (if a == BundleSync then 1 else 0)
  {
    OneMoreTime(trace, Started(a, now));
    TallyOneMore(trace, Started(a, now), flip);
    res := trace + [Started(a, now)];
  }

  /** Both cadences are kept by everything started so far. */
  ghost predicate Kept(c: Cadences, created: int, trace: seq<Observed>, d: Dues) {
    OnCadence(created, c.heartbeat.base, Times(trace, Heartbeat), d.heartbeat)
    && OnCadence(created, c.sync.base, Times(trace, BundleSync), d.sync)
  }

  /** An exact sleeper and instantaneous callbacks: time passes by sleeping alone. */
  ghost predicate ExactClock(clock: seq<Observed> -> int, created: int) {
    forall t {:trigger clock(t)} :: clock(t) == created + TimeSlept(t)
  }

  /** By that clock nothing is overdue, and no gap of a cadence is longer than its longest delay. */
  ghost predicate Punctual(c: Cadences, created: int, trace: seq<Observed>, d: Dues) {
    && created + TimeSlept(trace) <= NextDue(d)
    && NoLongGap(created, Longest(c.heartbeat), Times(trace, Heartbeat), d.heartbeat)
    && NoLongGap(created, Longest(c.sync), Times(trace, BundleSync), d.sync)
  }

  /** A new scheduler is on both cadences and on time. */
  lemma StartIsKept(c: Cadences, now: int, draw: nat, draw': nat)
    ensures var d := c.Start(now, draw, draw'); Kept(c, now, [], d) && Punctual(c, now, [], d)
  {
    DelayBounds(c.heartbeat, draw);
    DelayBounds(c.sync, draw');
  }

  /** What `TakeDue` and the starts that follow it did. */
  ghost predicate TookDue(c: Cadences, t: seq<Observed>, d: Dues, now: int, t': seq<Observed>, d': Dues) {
    && KeepsCadence(c.heartbeat, d.heartbeat, now, now >= d.heartbeat, d'.heartbeat)
    && KeepsCadence(c.sync, d.sync, now, now >= d.sync, d'.sync)
    && Times(t', Heartbeat) == Times(t, Heartbeat) + (if now >= d.heartbeat then [now] else [])
    && Times(t', BundleSync) == Times(t, BundleSync) + (if now >= d.sync then [now] else [])
    && TimeSlept(t') == TimeSlept(t)
  }

  lemma TookDueKeeps(c: Cadences, created: int, t: seq<Observed>, d: Dues, now: int, t': seq<Observed>, d': Dues)
    requires TookDue(c, t, d, now, t', d') && Kept(c, created, t, d)
    ensures Kept(c, created, t', d')
  {
  }

  lemma TookDueOnTime(c: Cadences, created: int, t: seq<Observed>, d: Dues, now: int, t': seq<Observed>, d': Dues)
    requires TookDue(c, t, d, now, t', d') && Punctual(c, created, t, d) && now == created + TimeSlept(t)
    ensures Punctual(c, created, t', d')
  {
  }

  /** How many actions were started. */
  function Total(t: seq<Observed>): nat {
    |Times(t, Heartbeat)| + |Times(t, BundleSync)|
  }

  lemma WithinBoth(t: seq<Observed>, t': seq<Observed>, t'': seq<Observed>, step: nat)
    requires Within(t, t', step) && Within(t', t'', 0)
    ensures Within(t, t'', step)
  {
  }

  lemma WithinAfterReading(t: seq<Observed>, now: int, t': seq<Observed>, step: nat)
    requires Within(t + [ClockRead(now)], t', step)
    ensures Within(t, t', step) && t < t'
  {
    forall i | |t| <= i < |t'| ensures !t'[i].Checked? && (t'[i].Slept? ==> 0 < t'[i].duration <= step) {
      assert i == |t| ==> t'[i] == (t + [ClockRead(now)])[i];
    }
  }

  /** The first half of a turn: read the clock and sleep until something is due; `seen` if the sleeper saw the flag. */
  method WaitUntilDue(d: Dues, ghost created: int, trace: seq<Observed>, step: nat, clock: seq<Observed> -> int,
                      flip: Option<nat>) returns (res: seq<Observed>, seen: bool)
    requires step > 0 && LateTally(trace, flip) == Tally(0, 0, 0)
    ensures trace < res && Within(trace, res, step)
    ensures Times(res, Heartbeat) == Times(trace, Heartbeat) && Times(res, BundleSync) == Times(trace, BundleSync)
    ensures var y := LateTally(res, flip); y.sleeps <= 1 && y.heartbeats == 0 && y.syncs == 0
    ensures seen ==> Requested(res, flip)
    ensures ExactClock(clock, created) && created + TimeSlept(trace) <= NextDue(d) ==>
              && created + TimeSlept(res) <= NextDue(d)
              && (!seen ==> created + TimeSlept(res) == NextDue(d))
  {
    var now := clock(trace);
    LoggedReading(trace, ClockRead(now), flip);
    res := trace + [ClockRead(now)];
    var wait := NextDue(d) - now;
    seen := false;
    if wait > 0 {
      res, seen := Sleep(res, wait, step, flip);
    }
    WithinAfterReading(trace, now, res, step);
  }

  lemma StartedSome(c: Cadences, t: seq<Observed>, d: Dues, now: int, t': seq<Observed>, d': Dues)
    requires TookDue(c, t, d, now, t', d')
    ensures Total(t') >= Total(t) + (if now >= NextDue(d) then 1 else 0)
  {
  }

  /** The second half: read the clock again, take what is due and start it. */
  method StartDue(s: Scheduler, ghost created: int, trace: seq<Observed>, clock: seq<Observed> -> int,
                  draw: nat -> nat, flip: Option<nat>) returns (res: seq<Observed>)
    requires Kept(s.cadences, created, trace, s.dues)
    modifies s
    ensures trace < res && Within(trace, res, 0) && Kept(s.cadences, created, res, s.dues)
    ensures var y, y' := LateTally(trace, flip), LateTally(res, flip);
            y'.sleeps == y.sleeps && y'.heartbeats <= y.heartbeats + 1 && y'.syncs <= y.syncs + 1
    ensures ExactClock(clock, created) && Punctual(s.cadences, created, trace, old(s.dues)) ==>
              Punctual(s.cadences, created, res, s.dues)
    ensures Total(res) >= Total(trace) + (if clock(trace) >= NextDue(old(s.dues)) then 1 else 0)
  {
    ghost var d := s.dues;
    res := TakeAndStart(s, trace, clock, draw, flip);
    TookDueKeeps(s.cadences, created, trace, d, clock(trace), res, s.dues);
    StartedSome(s.cadences, trace, d, clock(trace), res, s.dues);
    if ExactClock(clock, created) && Punctual(s.cadences, created, trace, d) {
      TookDueOnTime(s.cadences, created, trace, d, clock(trace), res, s.dues);
    }
  }

  method TakeAndStart(s: Scheduler, trace: seq<Observed>, clock: seq<Observed> -> int, draw: nat -> nat,
                      flip: Option<nat>) returns (res: seq<Observed>)
    modifies s
    ensures trace < res && Within(trace, res, 0)
    ensures TookDue(s.cadences, trace, old(s.dues), clock(trace), res, s.dues)
    ensures var y, y' := LateTally(trace, flip), LateTally(res, flip);
            y'.sleeps == y.sleeps && y'.heartbeats <= y.heartbeats + 1 && y'.syncs <= y.syncs + 1
  {
    var now := clock(trace);
    LoggedReading(trace, ClockRead(now), flip);
    res := trace + [ClockRead(now)];
    ghost var dues := s.dues;
    var due := s.TakeDue(now, draw(|res|), draw(|res| + 1));
    res := StartActions(res, due, dues, now, flip);
    WithinAfterReading(trace, now, res, 0);
  }

  /** One turn of the loop after the flag was read clear. */
  method Turn(s: Scheduler, ghost created: int, trace: seq<Observed>, step: nat, clock: seq<Observed> -> int,
              draw: nat -> nat, flip: Option<nat>) returns (res: seq<Observed>, seen: bool)
    requires step > 0
    requires Kept(s.cadences, created, trace, s.dues) && LateTally(trace, flip) == Tally(0, 0, 0)
    requires ExactClock(clock, created) ==> Punctual(s.cadences, created, trace, s.dues)
    modifies s
    ensures trace < res && Within(trace, res, step) && Kept(s.cadences, created, res, s.dues)
    ensures Prompt(res, flip) && (seen ==> Requested(res, flip))
    ensures ExactClock(clock, created) ==>
              Punctual(s.cadences, created, res, s.dues) && Total(res) >= Total(trace) + (if seen then 0 else 1)
  {
    res, seen := WaitUntilDue(s.dues, created, trace, step, clock, flip);
    ghost var woken := res;
    res := StartDue(s, created, res, clock, draw, flip);
    WithinBoth(trace, woken, res, step);
  }

  // ---- Whole runs ----

  /** Since the flag was set: at most one step slept, one heartbeat and one sync started. */
  predicate Prompt(trace: seq<Observed>, flip: Option<nat>) {
    var y := LateTally(trace, flip);
    y.sleeps <= 1 && y.heartbeats <= 1 && y.syncs <= 1
  }

  /** No sleep is longer than a step. */
  predicate ShortSleeps(trace: seq<Observed>, step: nat) {
    forall i :: 0 <= i < |trace| && trace[i].Slept? ==> 0 < trace[i].duration <= step
  }

  /** Some action was started after observation `p` and before observation `q`. */
  predicate StartedBetween(trace: seq<Observed>, p: nat, q: nat)
    requires q <= |trace|
  {
    exists m :: p < m < q && trace[m].Started?
  }

  /** Every cycle, from one check to the next, started some action, unless the flag was set by its end. */
  predicate EveryCycleStarts(trace: seq<Observed>, flip: Option<nat>) {
    forall p, q :: 0 <= p < q < |trace| && trace[p].Checked? && trace[q].Checked? ==>
      StartedBetween(trace, p, q) || Requested(trace[..q], flip)
  }

  /** So did the cycle that has just ended. */
  predicate LastCycleStarted(trace: seq<Observed>, flip: Option<nat>) {
    forall p :: 0 <= p < |trace| && trace[p].Checked? ==> StartedBetween(trace, p, |trace|) || Requested(trace, flip)
  }

  /** There are as many starts as cycles, save one when the flag was set. */
  predicate Busy(trace: seq<Observed>, flip: Option<nat>, cycle: nat) {
    cycle <= Total(trace) + (if Requested(trace, flip) then 1 else 0)
  }

  lemma {:induction false} MoreStartsMeansStarted(t: seq<Observed>, t': seq<Observed>)
    requires t <= t' && Total(t) < Total(t')
    ensures exists m :: |t| <= m < |t'| && t'[m].Started?
    decreases |t'|
  {
    if t == t' {
      assert false;
    }
    var front, last := t'[..|t'| - 1], t'[|t'| - 1];
    if !last.Started? {
      assert Total(front) == Total(t');
      MoreStartsMeansStarted(t, front);
      var m :| |t| <= m < |front| && front[m].Started?;
      assert t'[m] == front[m];
    }
  }

  /** A longer trace has the starts of a shorter one. */
  lemma StillStarted(t: seq<Observed>, t': seq<Observed>, p: nat, q: nat)
    requires t <= t' && q <= |t| && StartedBetween(t, p, q)
    ensures StartedBetween(t', p, q)
  {
    var m :| p < m < q && t[m].Started?;
    assert t'[m] == t[m];
  }

  /** The next check closes the cycle that has just ended. */
  lemma CheckCloses(t: seq<Observed>, flip: Option<nat>, o: Observed)
    requires o.Checked? && EveryCycleStarts(t, flip) && LastCycleStarted(t, flip)
    ensures EveryCycleStarts(t + [o], flip)
  {
    var u := t + [o];
    forall p, q | 0 <= p < q < |u| && u[p].Checked? && u[q].Checked?
      ensures StartedBetween(u, p, q) || Requested(u[..q], flip)
    {
      assert u[p] == t[p] && |u[..q]| == q;
      if q < |t| {
        assert u[q] == t[q];
      }
      if StartedBetween(t, p, q) {
        StillStarted(t, u, p, q);
      } else {
        assert q < |t| ==> Requested(t[..q], flip);
      }
    }
  }

  /** A turn after a check leaves every cycle with a start, or the flag set. */
  lemma TurnStarts(t: seq<Observed>, t': seq<Observed>, step: nat, flip: Option<nat>)
    requires Within(t, t', step) && EveryCycleStarts(t, flip) && (Total(t) < Total(t') || Requested(t', flip))
    ensures EveryCycleStarts(t', flip) && LastCycleStarted(t', flip)
  {
    forall p, q | 0 <= p < q < |t'| && t'[p].Checked? && t'[q].Checked?
      ensures StartedBetween(t', p, q) || Requested(t'[..q], flip)
    {
      assert q < |t| && t[p] == t'[p] && t[q] == t'[q] && t[..q] == t'[..q];
      if StartedBetween(t, p, q) {
        StillStarted(t, t', p, q);
      }
    }
    if !Requested(t', flip) {
      MoreStartsMeansStarted(t, t');
      var m :| |t| <= m < |t'| && t'[m].Started?;
      forall p | 0 <= p < |t'| && t'[p].Checked? ensures StartedBetween(t', p, |t'|) {
        assert p < |t| <= m;
      }
    }
  }

  /**
   What a run keeps: after the flag at most one sleep, heartbeat and sync, no sleep longer than a step, and no
   start sooner than its base after the last; with an exact clock also no gap above the longest delay, and a
   start in every cycle.
   */
  ghost predicate WellPaced(c: Cadences, created: int, d: Dues, t: seq<Observed>, step: nat, flip: Option<nat>,
                        cycle: nat, exact: bool)
  {
    && Prompt(t, flip) && ShortSleeps(t, step) && Kept(c, created, t, d)
    && (exact ==> Punctual(c, created, t, d) && Busy(t, flip, cycle) && EveryCycleStarts(t, flip))
  }

  lemma StartsPaced(c: Cadences, created: int, d: Dues, step: nat, flip: Option<nat>, exact: bool)
    requires Kept(c, created, [], d) && (exact ==> Punctual(c, created, [], d))
    ensures WellPaced(c, created, d, [], step, flip, 0, exact) && LastCycleStarted([], flip)
  {
  }

  lemma GoesOnToCheck(c: Cadences, created: int, d: Dues, t: seq<Observed>, step: nat, flip: Option<nat>,
                      cycle: nat, exact: bool, o: Observed)
    requires WellPaced(c, created, d, t, step, flip, cycle, exact) && (exact ==> LastCycleStarted(t, flip))
        && o.Checked?
    ensures WellPaced(c, created, d, t + [o], step, flip, cycle, exact) && Total(t + [o]) == Total(t)
    ensures !Requested(t, flip) ==>
              LateTally(t + [o], flip) == Tally(0, 0, 0) && (exact ==> cycle <= Total(t + [o]))
  {
    TallyOneMore(t, o, flip);
    LoggedReading(t, o, flip);
    if exact {
      CheckCloses(t, flip, o);
    }
  }

  lemma StaysShort(t: seq<Observed>, t': seq<Observed>, step: nat)
    requires ShortSleeps(t, step) && Within(t, t', step)
    ensures ShortSleeps(t', step)
  {
  }

  /**
   `run_polling` until the shutdown flag is seen or the cycle limit is reached, for any clock and any random
   source. After the flag is set it sleeps at most one step and starts at most one heartbeat and one sync; no
   cadence is ever started sooner than its base after its last start; and with an exact sleeper and
   instantaneous callbacks every cycle starts some action, unless the flag is set in it, and no cadence waits
   longer than its longest delay.
   */
  method RunPolling(s: Scheduler, ghost created: int, step: nat, clock: seq<Observed> -> int, draw: nat -> nat,
                    flip: Option<nat>, limit: Option<nat>) returns (trace: seq<Observed>, cycle: nat)
    requires step > 0 && (flip.Some? || limit.Some?)
    requires Kept(s.cadences, created, [], s.dues)
    requires ExactClock(clock, created) ==> Punctual(s.cadences, created, [], s.dues)
    modifies s
    ensures Stopped(trace, flip, cycle, limit)
    ensures WellPaced(s.cadences, created, s.dues, trace, step, flip, cycle, ExactClock(clock, created))
  {
    trace, cycle := [], 0;
    ghost var exact := ExactClock(clock, created);
    StartsPaced(s.cadences, created, s.dues, step, flip, exact);
    var go := true;
    while go
      invariant WellPaced(s.cadences, created, s.dues, trace, step, flip, cycle, exact)
      invariant go && exact ==> LastCycleStarted(trace, flip)
      invariant limit.Some? ==> cycle <= limit.value
      invariant !go ==> Stopped(trace, flip, cycle, limit)
      decreases go, if flip.Some? then flip.value - |trace| else limit.value - cycle
    {
      trace, go := CheckAndTurn(s, created, trace, step, clock, draw, flip, cycle, limit);
      cycle := if go then cycle + 1 else cycle;
    }
  }

  /** The last check said no: the flag is set or the limit reached. */
  predicate Stopped(trace: seq<Observed>, flip: Option<nat>, cycle: nat, limit: Option<nat>) {
    && trace != [] && trace[|trace| - 1] == Checked(cycle, false)
    && (Requested(trace, flip) || limit == Some(cycle))
  }

  lemma StopsUnlessGo(trace: seq<Observed>, flip: Option<nat>, cycle: nat, limit: Option<nat>, go: bool)
    requires go == (!Requested(trace, flip) && (limit.None? || cycle < limit.value))
    requires limit.Some? ==> cycle <= limit.value
    ensures !go ==> Stopped(trace + [Checked(cycle, go)], flip, cycle, limit)
  {
  }

  /** The check of the loop and, if it says so, a turn. */
  method CheckAndTurn(s: Scheduler, ghost created: int, trace: seq<Observed>, step: nat, clock: seq<Observed> -> int,
                      draw: nat -> nat, flip: Option<nat>, cycle: nat, limit: Option<nat>)
    returns (res: seq<Observed>, go: bool)
    requires step > 0 && (limit.Some? ==> cycle <= limit.value)
    requires WellPaced(s.cadences, created, s.dues, trace, step, flip, cycle, ExactClock(clock, created))
    requires ExactClock(clock, created) ==> LastCycleStarted(trace, flip)
    modifies s
    ensures trace < res && go == (!Requested(trace, flip) && (limit.None? || cycle < limit.value))
    ensures WellPaced(s.cadences, created, s.dues, res, step, flip, if go then cycle + 1 else cycle,
                      ExactClock(clock, created))
    ensures go && ExactClock(clock, created) ==> LastCycleStarted(res, flip)
    ensures !go ==> Stopped(res, flip, cycle, limit)
  {
    go := !Requested(trace, flip) && (limit.None? || cycle < limit.value);
    GoesOnToCheck(s.cadences, created, s.dues, trace, step, flip, cycle, ExactClock(clock, created),
        Checked(cycle, go));
    StopsUnlessGo(trace, flip, cycle, limit, go);
    res := trace + [Checked(cycle, go)];
    if go {
      res := Cycle(s, created, res, step, clock, draw, flip, cycle + 1);
    }
  }

  /** A turn as a cycle of the run. */
  method Cycle(s: Scheduler, ghost created: int, trace: seq<Observed>, step: nat, clock: seq<Observed> -> int,
               draw: nat -> nat, flip: Option<nat>, ghost cycle: nat) returns (res: seq<Observed>)
    requires step > 0 && cycle > 0 && LateTally(trace, flip) == Tally(0, 0, 0)
    requires WellPaced(s.cadences, created, s.dues, trace, step, flip, cycle - 1, ExactClock(clock, created))
    requires ExactClock(clock, created) ==> cycle - 1 <= Total(trace)
    modifies s
    ensures trace < res && WellPaced(s.cadences, created, s.dues, res, step, flip, cycle, ExactClock(clock, created))
    ensures ExactClock(clock, created) ==> LastCycleStarted(res, flip)
  {
    var seen;
    res, seen := Turn(s, created, trace, step, clock, draw, flip);
    StaysShort(trace, res, step);
    if ExactClock(clock, created) {
      TurnStarts(trace, res, step, flip);
    }
  }
}
