/** The lock-free core of the rate limiter: N threads calling `permit` on one shared bucket.

    The bucket holds an atomic token counter and the time of the last refill. Every load, every
    compare-and-swap, every clock check and every "read the clock and store it" is one step, and
    the steps of the threads interleave in any order. A compare-and-swap that finds another value
    than the one loaded sends its thread back to the load. */
module TokenBucketProtocol {

  /** Times are nanoseconds of the steady clock; the refill period is one second. */
  const SECOND: nat := 1_000_000_000

  type Positive = n: nat | 0 < n witness 1

  /** Where a thread stands inside `permit`; `Idle` is outside a call. */
  datatype Pc =
    | Idle
    | RefillLoad
    | RefillSwap(seen: nat)
    | StoreTime
    | TakeLoad
    | TakeSwap(available: Positive)

  datatype State = State(clock: nat, tokens: nat, lastRefill: nat, pcs: seq<Pc>)

  datatype Action = Tick(d: nat) | Run(tid: nat)

  /** What a step does that an observer can see. */
  datatype Effect = Quiet | Refill | Grant | Deny

  /** One step of thread `tid`: its next program counter, the new bucket, and the effect. */
  function Step(limit: nat, s: State, tid: nat): (State, Effect)
    requires tid < |s.pcs|
  {
    match s.pcs[tid]
    case Idle =>
      if s.clock - s.lastRefill >= SECOND
      then (s.(pcs := s.pcs[tid := RefillLoad]), Quiet)
      else (s.(pcs := s.pcs[tid := TakeLoad]), Quiet)
    case RefillLoad => (s.(pcs := s.pcs[tid := RefillSwap(s.tokens)]), Quiet)
    case RefillSwap(seen) =>
      if s.tokens == seen
      then (s.(tokens := limit, pcs := s.pcs[tid := StoreTime]), Refill)
      else (s.(pcs := s.pcs[tid := RefillLoad]), Quiet)
    case StoreTime => (s.(lastRefill := s.clock, pcs := s.pcs[tid := TakeLoad]), Quiet)
    case TakeLoad =>
      if s.tokens == 0
      then (s.(pcs := s.pcs[tid := Idle]), Deny)
      else (s.(pcs := s.pcs[tid := TakeSwap(s.tokens)]), Quiet)
    case TakeSwap(available) =>
      if s.tokens == available
      then (s.(tokens := available - 1, pcs := s.pcs[tid := Idle]), Grant)
      else (s.(pcs := s.pcs[tid := TakeLoad]), Quiet)
  }

  /** An action of the environment or of a thread; a thread that does not exist does nothing. */
  function Next(limit: nat, s: State, a: Action): (State, Effect) {
    match a
    case Tick(d) => (s.(clock := s.clock + d), Quiet)
    case Run(tid) => if tid < |s.pcs| then Step(limit, s, tid) else (s, Quiet)
  }

  function Exec(limit: nat, s: State, actions: seq<Action>): State
    decreases |actions|
  {
    if actions == [] then s else Exec(limit, Next(limit, s, actions[0]).0, actions[1..])
  }

  /** The number of permits granted while the clock stands in the closed window [from, to]. */
  function Granted(limit: nat, s: State, actions: seq<Action>, from: nat, to: nat): nat
    decreases |actions|
  {
    if actions == [] then 0
    else
      var (s', e) := Next(limit, s, actions[0]);
      (if e == Grant && from <= s.clock <= to then 1 else 0) + Granted(limit, s', actions[1..], from, to)
  }

  /** A bucket as it is constructed: full, and no thread inside a call. */
  ghost predicate Initial(limit: nat, s: State) {
    && s.tokens == limit
    && s.lastRefill <= s.clock
    && forall i | 0 <= i < |s.pcs| :: s.pcs[i] == Idle
  }

  // ---------------------------------------------------------------- the window bound

  /** What the proof remembers of a run: the permits granted inside the window, how often each
      thread refilled inside it, and when each thread last refilled. */
  datatype Monitor = Monitor(grants: nat, refills: seq<nat>, at: seq<Seen>)
  datatype Seen = Never | At(time: nat)

  function Observe(m: Monitor, s: State, a: Action, e: Effect, from: nat, to: nat): Monitor
    requires a.Run? && e == Refill ==> a.tid < |m.at| == |m.refills|
  {
    var inside := from <= s.clock <= to;
    if e == Grant && inside then m.(grants := m.grants + 1)
    else if e == Refill && a.Run? then
      m.(refills := if inside then m.refills[a.tid := m.refills[a.tid] + 1] else m.refills,
         at := m.at[a.tid := At(s.clock)])
    else m
  }

  function Sum(ns: seq<nat>): nat {
    if ns == [] then 0 else ns[0] + Sum(ns[1..])
  }

  lemma {:induction false} SumUpdate(ns: seq<nat>, i: nat)
    requires i < |ns|
    ensures Sum(ns[i := ns[i] + 1]) == Sum(ns) + 1
  {
    if i == 0 {
      assert ns[0 := ns[0] + 1][1..] == ns[1..];
    } else {
      assert ns[i := ns[i] + 1][1..] == ns[1..][i - 1 := ns[1..][i - 1] + 1];
      SumUpdate(ns[1..], i - 1);
    }
  }

  lemma {:induction false} SumBound(ns: seq<nat>, k: nat)
    requires forall i | 0 <= i < |ns| :: ns[i] <= k
    ensures Sum(ns) <= |ns| * k
  {
    if ns != [] {
      SumBound(ns[1..], k);
    }
  }

  /** The most refills one thread can make inside a closed window of this length. */
  function RefillsPerThread(from: nat, to: nat): nat
    requires from <= to
  {
    (to - from) / SECOND + 1
  }

  /** Per thread: a refill in the past is covered by `lastRefill` once its time is stored, a thread
      on its way to a refill is a full second past its previous one, and refills inside the window
      are a second apart. */
  ghost predicate ThreadInv(s: State, pc: Pc, refills: nat, at: Seen, from: nat, to: nat)
    requires from <= to
  {
    && refills <= RefillsPerThread(from, to)
    && (s.clock < from || at.Never? ==> refills == 0)
    && (at.At? ==>
          && at.time <= s.clock
          && (pc.StoreTime? || at.time <= s.lastRefill)
          && (pc.RefillLoad? || pc.RefillSwap? ==> at.time + SECOND <= s.clock)
          && (refills > 0 && s.clock <= to ==> (refills - 1) * SECOND <= at.time - from))
  }

  ghost predicate Inv(limit: nat, s: State, m: Monitor, from: nat, to: nat)
    requires from <= to
  {
    && |m.refills| == |m.at| == |s.pcs|
    && s.tokens <= limit
    && s.lastRefill <= s.clock
    && (forall i | 0 <= i < |s.pcs| :: ThreadInv(s, s.pcs[i], m.refills[i], m.at[i], from, to))
    && m.grants <= limit * (1 + Sum(m.refills))
    && (s.clock < from ==> m.grants == 0)
    && (from <= s.clock <= to ==> m.grants + s.tokens <= limit * (1 + Sum(m.refills)))
  }

  lemma SpacedRefills(r: nat, previous: nat, now: nat, from: nat, to: nat)
    requires 0 < r && from <= now <= to
    requires (r - 1) * SECOND <= previous - from && previous + SECOND <= now
    ensures r * SECOND <= now - from
    ensures r <= (to - from) / SECOND
  {
  }

  lemma RefillKeepsInv(limit: nat, s: State, m: Monitor, tid: nat, from: nat, to: nat)
    requires from <= to && tid < |s.pcs| && Inv(limit, s, m, from, to)
    requires Step(limit, s, tid).1 == Refill
    ensures Inv(limit, Step(limit, s, tid).0, Observe(m, s, Run(tid), Refill, from, to), from, to)
  {
    var s' := Step(limit, s, tid).0;
    var m' := Observe(m, s, Run(tid), Refill, from, to);
    assert ThreadInv(s', s'.pcs[tid], m'.refills[tid], m'.at[tid], from, to) by {
      assert ThreadInv(s, s.pcs[tid], m.refills[tid], m.at[tid], from, to);
      if from <= s.clock <= to && m.refills[tid] > 0 {
        SpacedRefills(m.refills[tid], m.at[tid].time, s.clock, from, to);
      }
    }
    if from <= s.clock <= to {
      SumUpdate(m.refills, tid);
      OneMore(limit, Sum(m.refills));
    }
    forall i | 0 <= i < |s.pcs| && i != tid
      ensures ThreadInv(s', s'.pcs[i], m'.refills[i], m'.at[i], from, to)
    {
      assert ThreadInv(s, s.pcs[i], m.refills[i], m.at[i], from, to);
    }
  }

  lemma OtherStepKeepsThread(limit: nat, s: State, m: Monitor, a: Action, from: nat, to: nat, i: nat)
    requires from <= to && Inv(limit, s, m, from, to) && i < |s.pcs|
    requires Next(limit, s, a).1 != Refill
    ensures var (s', e) := Next(limit, s, a);
            var m' := Observe(m, s, a, e, from, to);
            && |s'.pcs| == |m'.refills| == |m'.at| == |s.pcs|
            && ThreadInv(s', s'.pcs[i], m'.refills[i], m'.at[i], from, to)
  {
    assert ThreadInv(s, s.pcs[i], m.refills[i], m.at[i], from, to);
  }

  lemma OtherStepKeepsInv(limit: nat, s: State, m: Monitor, a: Action, from: nat, to: nat)
    requires from <= to && Inv(limit, s, m, from, to)
    requires Next(limit, s, a).1 != Refill
    ensures Inv(limit, Next(limit, s, a).0, Observe(m, s, a, Next(limit, s, a).1, from, to), from, to)
  {
    var (s', e) := Next(limit, s, a);
    var m' := Observe(m, s, a, e, from, to);
    forall i | 0 <= i < |s.pcs|
      ensures ThreadInv(s', s'.pcs[i], m'.refills[i], m'.at[i], from, to)
    {
      OtherStepKeepsThread(limit, s, m, a, from, to, i);
    }
    if s.clock < from && s'.clock >= from {
      assert limit <= limit * (1 + Sum(m.refills));
    }
  }

  lemma {:induction false} RunKeepsBound(limit: nat, s: State, m: Monitor, actions: seq<Action>, from: nat, to: nat)
    requires from <= to && Inv(limit, s, m, from, to)
    ensures m.grants + Granted(limit, s, actions, from, to)
         <= limit * (1 + |s.pcs| * RefillsPerThread(from, to))
    decreases |actions|
  {
    var k := RefillsPerThread(from, to);
    if actions == [] {
      forall i | 0 <= i < |m.refills| ensures m.refills[i] <= k {
        assert ThreadInv(s, s.pcs[i], m.refills[i], m.at[i], from, to);
      }
      SumBound(m.refills, k);
      MulMono(limit, 1 + Sum(m.refills), 1 + |s.pcs| * k);
    } else {
      var (s', e) := Next(limit, s, actions[0]);
      var m' := Observe(m, s, actions[0], e, from, to);
      if e == Refill {
        RefillKeepsInv(limit, s, m, actions[0].tid, from, to);
      } else {
        OtherStepKeepsInv(limit, s, m, actions[0], from, to);
      }
      RunKeepsBound(limit, s', m', actions[1..], from, to);
    }
  }

  lemma OneMore(a: nat, x: nat)
    ensures a * (1 + (x + 1)) == a * (1 + x) + a
  {
  }

  lemma MulMono(a: nat, x: nat, y: nat)
    requires x <= y
    ensures a * x <= a * y
  {
  }

  /** In every interleaving, at most limit * (1 + N * (floor(D) + 1)) permits are granted in any
      closed window of D seconds. */
  lemma WindowBound(limit: nat, s: State, actions: seq<Action>, from: nat, to: nat)
    requires Initial(limit, s) && from <= to
    ensures Granted(limit, s, actions, from, to) <= limit * (1 + |s.pcs| * ((to - from) / SECOND + 1))
  {
    var n := |s.pcs|;
    var m := Monitor(0, seq(n, _ => 0), seq(n, _ => Never));
    assert limit <= limit * (1 + Sum(m.refills));
    RunKeepsBound(limit, s, m, actions, from, to);
  }

  /** With a single thread the bound is limit * (floor(D) + 2). */
  lemma SingleThreadWindowBound(limit: nat, s: State, actions: seq<Action>, from: nat, to: nat)
    requires Initial(limit, s) && from <= to && |s.pcs| == 1
    ensures Granted(limit, s, actions, from, to) <= limit * ((to - from) / SECOND + 2)
  {
    WindowBound(limit, s, actions, from, to);
  }

  /** The counter never leaves 0..limit. */
  lemma {:induction false} TokensStayInRange(limit: nat, s: State, actions: seq<Action>)
    requires s.tokens <= limit
    ensures Exec(limit, s, actions).tokens <= limit
    decreases |actions|
  {
    if actions != [] {
      TokensStayInRange(limit, Next(limit, s, actions[0]).0, actions[1..]);
    }
  }
}
