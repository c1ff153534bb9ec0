/** The rate limiter as a service sees it: one global bucket, a bucket per client created on the
    client's first request, and a cleanup pass that erases idle client buckets.

    Requests are served one after the other, and one reading of the clock (`now`) serves a whole
    request. What happens when the threads inside `permit` interleave is in TokenBucketProtocol. */
module RateLimiter {
  import Protocol = TokenBucketProtocol

  const SECOND: nat := Protocol.SECOND
  const HOUR: nat := 3600 * SECOND

  // ---------------------------------------------------------------- specification

  datatype Bucket = Bucket(lastRefill: int, tokens: nat)

  function Refilled(limit: nat, b: Bucket, now: int): Bucket {
    if now - b.lastRefill >= SECOND then Bucket(now, limit) else b
  }

  /** Refill when a second has passed, then take a token if there is one. */
  function Take(limit: nat, b: Bucket, now: int): (Bucket, bool) {
    var r := Refilled(limit, b, now);
    if r.tokens == 0 then (r, false) else (r.(tokens := r.tokens - 1), true)
  }

  datatype Limiter = Limiter(
    globalLimit: nat, clientLimit: nat,
    global: Bucket, clients: map<string, Bucket>, lastCleanup: int)

  function New(globalLimit: nat, clientLimit: nat, now: int): Limiter {
    Limiter(globalLimit, clientLimit, Bucket(now, globalLimit), map[], now)
  }

  predicate CleanupDue(l: Limiter, now: int) {
    now - l.lastCleanup >= HOUR && now - l.global.lastRefill >= 10 * SECOND
  }

  /** Erase the buckets idle for an hour. The cleanup time is never written again after
      construction, so past the first hour only the quiet-period test holds the pass back. */
  function Cleanup(l: Limiter, now: int): Limiter {
    if CleanupDue(l, now)
    then l.(clients := map c | c in l.clients && now - l.clients[c].lastRefill < HOUR :: l.clients[c])
    else l
  }

  function Serve(l: Limiter, client: string, now: int): (Limiter, bool) {
    var l1 := Cleanup(l, now);
    var (g, globalOk) := Take(l1.globalLimit, l1.global, now);
    if globalOk then ServeClient(l1.(global := g), client, now) else (l1.(global := g), false)
  }

  function ServeClient(l: Limiter, client: string, now: int): (Limiter, bool) {
    var b := if client in l.clients then l.clients[client] else Bucket(now, l.clientLimit);
    var (b', ok) := Take(l.clientLimit, b, now);
    (l.(clients := l.clients[client := b']), ok)
  }

  // ---------------------------------------------------------------- implementation

  class TimedLimit {
    var lastRefillTime: int
    var limit: nat

    constructor (refillTime: int, limitValue: nat)
      ensures Value() == Bucket(refillTime, limitValue)
    {
      lastRefillTime, limit := refillTime, limitValue;
    }

    function Value(): Bucket
      reads this
    {
      Bucket(lastRefillTime, limit)
    }

    method CompareExchangeStrong(expected: nat, desired: nat) returns (ok: bool)
      modifies this`limit
      ensures ok == (old(limit) == expected)
      ensures limit == if ok then desired else old(limit)
    {
      ok := limit == expected;
      if ok { limit := desired; }
    }

    method Permit(limitSet: nat, now: int) returns (ok: bool)
      modifies this
      ensures (Value(), ok) == Take(limitSet, old(Value()), now)
    {
      if now - lastRefillTime >= SECOND {
        var swapped := false;
        while !swapped
          invariant swapped ==> Value() == Bucket(now, limitSet)
          decreases !swapped
        {
          var seen := limit;
          swapped := CompareExchangeStrong(seen, limitSet);
          if swapped { lastRefillTime := now; }
        }
      }
      assert Value() == Refilled(limitSet, old(Value()), now);
      var taken := false;
      while !taken
        invariant Value() ==
                    if taken then Take(limitSet, old(Value()), now).0 else Refilled(limitSet, old(Value()), now)
        invariant taken ==> Take(limitSet, old(Value()), now).1
        decreases !taken
      {
        var seen := limit;
        if seen == 0 { return false; }
        taken := CompareExchangeStrong(seen, seen - 1);
      }
      return true;
    }
  }

  class TokenBucketRateLimiter {
    const globalLimitSet: nat
    const perClientLimitSet: nat
    const globalLimiter: TimedLimit
    var perClientLimiter: map<string, TimedLimit>
    var lastCleanupTime: int

    /** Each client owns its bucket, and none is the global one. */
    ghost predicate Valid()
      reads this
    {
      && (forall c | c in perClientLimiter :: perClientLimiter[c] != globalLimiter)
      && (forall c, d | c in perClientLimiter && d in perClientLimiter && c != d ::
            perClientLimiter[c] != perClientLimiter[d])
    }

    ghost function Model(): Limiter
      reads this, globalLimiter, perClientLimiter.Values
    {
      Limiter(globalLimitSet, perClientLimitSet, globalLimiter.Value(),
              map c | c in perClientLimiter :: perClientLimiter[c].Value(), lastCleanupTime)
    }

    constructor (globalLimit: nat, perClientLimit: nat, now: int)
      ensures Valid() && Model() == New(globalLimit, perClientLimit, now)
      ensures fresh(globalLimiter)
    {
      globalLimitSet, perClientLimitSet := globalLimit, perClientLimit;
      globalLimiter := new TimedLimit(now, globalLimit);
      perClientLimiter := map[];
      lastCleanupTime := now;
    }

    method TryCleanup(now: int)
      requires Valid()
      modifies this`perClientLimiter
      ensures Valid() && Model() == Cleanup(old(Model()), now)
      ensures perClientLimiter.Keys <= old(perClientLimiter.Keys)
      ensures forall c | c in perClientLimiter :: perClientLimiter[c] == old(perClientLimiter)[c]
    {
      if now - lastCleanupTime < HOUR || now - globalLimiter.lastRefillTime < 10 * SECOND {
        return;
      }
      var expired: set<string> := {};
      var rest := perClientLimiter.Keys;
      while rest != {}
        invariant rest <= perClientLimiter.Keys
        invariant forall c :: c in expired <==>
          c in perClientLimiter && c !in rest && now - perClientLimiter[c].lastRefillTime >= HOUR
      {
        var c :| c in rest;
        if now - perClientLimiter[c].lastRefillTime >= HOUR {
          expired := expired + {c};
        }
        rest := rest - {c};
      }
      ghost var before := perClientLimiter;
      ghost var all := expired;
      while expired != {}
        invariant expired <= all
        invariant perClientLimiter == before - (all - expired)
      {
        var c :| c in expired;
        perClientLimiter := perClientLimiter - {c};
        expired := expired - {c};
      }
      assert perClientLimiter == before - all;
      assert Model().clients == Cleanup(old(Model()), now).clients;
    }

    /** The lock-protected insertion of a client's first bucket. */
    method EnsureBucket(client: string, now: int)
      requires Valid()
      modifies this`perClientLimiter
      ensures Valid() && client in perClientLimiter
      ensures forall c | c in old(perClientLimiter) ::
                c in perClientLimiter && perClientLimiter[c] == old(perClientLimiter)[c]
      ensures client !in old(perClientLimiter) ==> fresh(perClientLimiter[client])
      ensures Model() == old(var m := Model();
        if client in m.clients then m else m.(clients := m.clients[client := Bucket(now, m.clientLimit)]))
    {
      if client !in perClientLimiter {
        var timedLimit := new TimedLimit(now, perClientLimitSet);
        perClientLimiter := perClientLimiter[client := timedLimit];
        assert Model().clients == old(Model()).clients[client := Bucket(now, perClientLimitSet)];
      }
    }

    method PermitClient(client: string, now: int) returns (ok: bool)
      requires Valid() && client in perClientLimiter
      modifies perClientLimiter[client]
      ensures var (b, taken) := old(var m := Model(); Take(m.clientLimit, m.clients[client], now));
              && Model() == old(Model()).(clients := old(Model()).clients[client := b])
              && ok == taken
    {
      ok := perClientLimiter[client].Permit(perClientLimitSet, now);
      assert Model().clients == old(Model()).clients[client := perClientLimiter[client].Value()];
    }

    method PermitGlobal(now: int) returns (ok: bool)
      requires Valid()
      modifies globalLimiter
      ensures (Model(), ok) == old(var m := Model();
        var (g, taken) := Take(m.globalLimit, m.global, now); (m.(global := g), taken))
    {
      ok := globalLimiter.Permit(globalLimitSet, now);
      assert Model().clients == old(Model()).clients;
    }

    method Permit(client: string, now: int) returns (ok: bool)
      requires Valid()
      modifies this`perClientLimiter, globalLimiter, perClientLimiter.Values
      ensures Valid() && (Model(), ok) == Serve(old(Model()), client, now)
    {
      TryCleanup(now);
      var globalOk := PermitGlobal(now);
      if !globalOk {
        return false;
      }
      ok := PermitInOwnBucket(client, now);
    }

    /** The client's bucket, created if need be. */
    method PermitInOwnBucket(client: string, now: int) returns (ok: bool)
      requires Valid()
      modifies this`perClientLimiter, perClientLimiter.Values
      ensures Valid() && (Model(), ok) == ServeClient(old(Model()), client, now)
    {
      EnsureBucket(client, now);
      ok := PermitClient(client, now);
      assert Model().clients == ServeClient(old(Model()), client, now).0.clients;
    }
  }

  // ---------------------------------------------------------------- one thread of the protocol

  function Solo(tid: nat, n: nat): seq<Protocol.Action> {
    seq(n, _ => Protocol.Run(tid))
  }

  /** `n` uninterrupted steps of the thread lead to `r`, with this many permits at the present time. */
  ghost predicate Leads(limit: nat, s: Protocol.State, tid: nat, n: nat, r: Protocol.State, permits: nat) {
    && Protocol.Exec(limit, s, Solo(tid, n)) == r
    && Protocol.Granted(limit, s, Solo(tid, n), s.clock, s.clock) == permits
  }

  lemma LeadsFirst(limit: nat, s: Protocol.State, tid: nat, n: nat, r: Protocol.State, permits: nat)
    requires var (s', e) := Protocol.Next(limit, s, Protocol.Run(tid));
             && s'.clock == s.clock && Leads(limit, s', tid, n, r, permits)
    ensures var (_, e) := Protocol.Next(limit, s, Protocol.Run(tid));
            Leads(limit, s, tid, n + 1, r, permits + if e == Protocol.Grant then 1 else 0)
  {
    Unroll(limit, s, tid, n + 1);
  }

  /** From the load of the counter on. */
  lemma SoloTake(limit: nat, s: Protocol.State, tid: nat) returns (n: nat)
    requires tid < |s.pcs| && s.pcs[tid] == Protocol.TakeLoad
    ensures var left := if s.tokens == 0 then 0 else s.tokens - 1;
            Leads(limit, s, tid, n, s.(tokens := left, pcs := s.pcs[tid := Protocol.Idle]), s.tokens - left)
  {
    var s1 := Protocol.Next(limit, s, Protocol.Run(tid)).0;
    var end := s.(tokens := if s.tokens == 0 then 0 else s.tokens - 1, pcs := s.pcs[tid := Protocol.Idle]);
    assert Leads(limit, end, tid, 0, end, 0);
    if s.tokens == 0 {
      assert s1 == end;
      n := 1;
    } else {
      assert Protocol.Next(limit, s1, Protocol.Run(tid)).0 == end;
      LeadsFirst(limit, s1, tid, 0, end, 0);
      n := 2;
    }
    LeadsFirst(limit, s, tid, n - 1, end, if s.tokens == 0 then 0 else 1);
  }

  /** A thread that is not interrupted performs exactly `Take`. */
  lemma SoloRunIsTake(limit: nat, s: Protocol.State, tid: nat) returns (n: nat)
    requires tid < |s.pcs| && s.pcs[tid] == Protocol.Idle
    ensures var (b, ok) := Take(limit, Bucket(s.lastRefill, s.tokens), s.clock);
            Leads(limit, s, tid, n, s.(tokens := b.tokens, lastRefill := b.lastRefill), if ok then 1 else 0)
  {
    var a := Protocol.Run(tid);
    var (b, ok) := Take(limit, Bucket(s.lastRefill, s.tokens), s.clock);
    var r := s.(tokens := b.tokens, lastRefill := b.lastRefill);
    var permits := if ok then 1 else 0;
    var s1 := Protocol.Next(limit, s, a).0;
    assert s.pcs[tid := Protocol.Idle] == s.pcs;
    if s1.pcs[tid].RefillLoad? {
      var s2 := Protocol.Next(limit, s1, a).0;
      var s3 := Protocol.Next(limit, s2, a).0;
      n := SoloTake(limit, Protocol.Next(limit, s3, a).0, tid);
      LeadsFirst(limit, s3, tid, n, r, permits);
      LeadsFirst(limit, s2, tid, n + 1, r, permits);
      LeadsFirst(limit, s1, tid, n + 2, r, permits);
      n := n + 3;
    } else {
      n := SoloTake(limit, s1, tid);
    }
    LeadsFirst(limit, s, tid, n, r, permits);
    n := n + 1;
  }

  lemma Unroll(limit: nat, s: Protocol.State, tid: nat, n: nat)
    requires n > 0
    ensures var (s', e) := Protocol.Next(limit, s, Protocol.Run(tid));
            && Protocol.Exec(limit, s, Solo(tid, n)) == Protocol.Exec(limit, s', Solo(tid, n - 1))
            && (forall f: nat, t: nat :: Protocol.Granted(limit, s, Solo(tid, n), f, t)
                  == (if e == Protocol.Grant && f <= s.clock <= t then 1 else 0)
                     + Protocol.Granted(limit, s', Solo(tid, n - 1), f, t))
  {
    assert Solo(tid, n)[0] == Protocol.Run(tid);
    assert Solo(tid, n)[1..] == Solo(tid, n - 1);
  }

  // ---------------------------------------------------------------- the simpler limiter

  datatype Request = Request(client: string, at: int)

  /** Holds a bucket for every possible client from the start and never erases one. */
  datatype Eager = Eager(globalLimit: nat, clientLimit: nat, global: Bucket, clients: string -> Bucket)

  /** Client buckets start full and due for a refill. */
  function NewEager(globalLimit: nat, clientLimit: nat, now: int): Eager {
    Eager(globalLimit, clientLimit, Bucket(now, globalLimit), _ => Bucket(now - SECOND, clientLimit))
  }

  function ServeEager(e: Eager, client: string, now: int): (Eager, bool) {
    var (g, globalOk) := Take(e.globalLimit, e.global, now);
    if !globalOk then (e.(global := g), false)
    else
      var (b, ok) := Take(e.clientLimit, e.clients(client), now);
      (e.(global := g, clients := c => if c == client then b else e.clients(c)), ok)
  }

  function Answers(l: Limiter, trace: seq<Request>): (r: seq<bool>)
    decreases |trace|
  {
    if trace == [] then []
    else
      var (l', ok) := Serve(l, trace[0].client, trace[0].at);
      [ok] + Answers(l', trace[1..])
  }

  function AnswersEager(e: Eager, trace: seq<Request>): (r: seq<bool>)
    decreases |trace|
  {
    if trace == [] then []
    else
      var (e', ok) := ServeEager(e, trace[0].client, trace[0].at);
      [ok] + AnswersEager(e', trace[1..])
  }

  /** The clock never goes backwards along the trace. */
  ghost predicate Ordered(trace: seq<Request>, start: int)
    decreases |trace|
  {
    trace == [] || (start <= trace[0].at && Ordered(trace[1..], trace[0].at))
  }

  /** A present bucket is the reference's bucket; an absent one is due for a refill there. */
  ghost predicate Related(l: Limiter, e: Eager, now: int) {
    && l.globalLimit == e.globalLimit && l.clientLimit == e.clientLimit
    && l.global == e.global
    && forall c ::
      if c in l.clients then e.clients(c) == l.clients[c] else e.clients(c).lastRefill + SECOND <= now
  }

  lemma ServeKeepsRelated(l: Limiter, e: Eager, client: string, now: int)
    requires Related(l, e, now)
    ensures Serve(l, client, now).1 == ServeEager(e, client, now).1
    ensures Related(Serve(l, client, now).0, ServeEager(e, client, now).0, now)
  {
    var l1 := Cleanup(l, now);
    assert Related(l1, e, now);
  }

  lemma {:induction false} RelatedAnswersAgree(l: Limiter, e: Eager, trace: seq<Request>, start: int)
    requires Related(l, e, start) && Ordered(trace, start)
    ensures Answers(l, trace) == AnswersEager(e, trace)
    decreases |trace|
  {
    if trace != [] {
      var r := trace[0];
      assert Related(l, e, r.at);
      ServeKeepsRelated(l, e, r.client, r.at);
      RelatedAnswersAgree(Serve(l, r.client, r.at).0, ServeEager(e, r.client, r.at).0, trace[1..], r.at);
    }
  }

  /** Lazy creation and cleanup cannot be observed. */
  lemma LazyBucketsAreUnobservable(globalLimit: nat, clientLimit: nat, start: int, trace: seq<Request>)
    requires Ordered(trace, start)
    ensures Answers(New(globalLimit, clientLimit, start), trace)
         == AnswersEager(NewEager(globalLimit, clientLimit, start), trace)
  {
    RelatedAnswersAgree(New(globalLimit, clientLimit, start), NewEager(globalLimit, clientLimit, start), trace, start);
  }

  /** It matters here that the reference's buckets start due for a refill: a lazily created bucket counts its
      first second from the client's first request, not from the construction of the limiter. For which
      limits it matters is stated by `FilledBucketsAgreeExactly`. */
  lemma BucketsFilledAtConstructionWouldDiffer()
    ensures var trace := [Request("a", SECOND / 2), Request("a", SECOND)];
            var e := NewEager(5, 1, 0).(clients := _ => Bucket(0, 1));
            && Ordered(trace, 0)
            && Answers(New(5, 1, 0), trace) == [true, false]
            && AnswersEager(e, trace) == [true, true]
  {
    var trace := [Request("a", SECOND / 2), Request("a", SECOND)];
    var e := NewEager(5, 1, 0).(clients := _ => Bucket(0, 1));
    var rest := trace[1..];
    assert rest == [Request("a", SECOND)] && rest[1..] == [];
    var l1 := Serve(New(5, 1, 0), "a", SECOND / 2).0;
    var e1 := ServeEager(e, "a", SECOND / 2).0;
    assert Answers(l1, rest) == [false];
    assert AnswersEager(e1, rest) == [true];
  }

  // ---------------------------------------------------------------- the window bounds

  /** Permits granted inside [from, to]; `only` restricts the count to one client. */
  function Granted(trace: seq<Request>, answers: seq<bool>, only: Only, from: int, to: int): nat
    requires |trace| == |answers|
    decreases |trace|
  {
    if trace == [] then 0
    else (if Counts(trace[0], answers[0], only, from, to) then 1 else 0)
         + Granted(trace[1..], answers[1..], only, from, to)
  }

  datatype Only = Anyone | Client(name: string)

  lemma {:induction false} AnswersLength(e: Eager, trace: seq<Request>)
    ensures |AnswersEager(e, trace)| == |trace|
    decreases |trace|
  {
    if trace != [] {
      AnswersLength(ServeEager(e, trace[0].client, trace[0].at).0, trace[1..]);
    }
  }

  /** After `g` grants and `r` refills inside the window, with the clock at `now`. */
  ghost predicate BucketInv(limit: nat, b: Bucket, now: int, from: int, to: int, g: nat, r: nat)
    requires from <= to
  {
    && b.tokens <= limit
    && g <= limit * (1 + r)
    && r <= (to - from) / SECOND + 1
    && (now < from ==> g == 0 && r == 0)
    && (from <= now <= to ==>
          && g + b.tokens <= limit * (1 + r)
          && (r > 0 ==> (r - 1) * SECOND <= b.lastRefill - from))
  }

  lemma TakeKeepsInv(limit: nat, b: Bucket, before: int, now: int, from: int, to: int, g: nat, r: nat) returns (r': nat)
    requires from <= to && before <= now && BucketInv(limit, b, before, from, to, g, r)
    ensures var (b', ok) := Take(limit, b, now);
            BucketInv(limit, b', now, from, to, g + (if ok && from <= now <= to then 1 else 0), r')
  {
    r' := r;
    if from <= now <= to {
      assert r == 0 ==> g + b.tokens <= limit * (1 + r) || before < from;
      if now - b.lastRefill >= SECOND {
        r' := r + 1;
        assert limit * (1 + r') == limit * (1 + r) + limit;
        if r > 0 {
          Spaced(r, b.lastRefill, now, from, to);
        }
      }
    }
  }

  lemma Spaced(r: nat, previous: int, now: int, from: int, to: int)
    requires 0 < r && from <= now <= to
    requires (r - 1) * SECOND <= previous - from && previous + SECOND <= now
    ensures r * SECOND <= now - from && r <= (to - from) / SECOND
  {
  }

  lemma WaitKeepsInv(limit: nat, b: Bucket, before: int, now: int, from: int, to: int, g: nat, r: nat)
    requires from <= to && before <= now && BucketInv(limit, b, before, from, to, g, r)
    ensures BucketInv(limit, b, now, from, to, g, r)
  {
  }

  function LimitOf(e: Eager, only: Only): nat {
    if only.Anyone? then e.globalLimit else e.clientLimit
  }

  function BucketOf(e: Eager, only: Only): Bucket {
    match only
    case Anyone => e.global
    case Client(c) => e.clients(c)
  }

  predicate Counts(q: Request, ok: bool, only: Only, from: int, to: int) {
    ok && from <= q.at <= to && (only == Anyone || only == Client(q.client))
  }

  lemma ServeKeepsInv(e: Eager, q: Request, only: Only, start: int, from: int, to: int, g: nat, r: nat)
    returns (r': nat)
    requires from <= to && start <= q.at
    requires BucketInv(LimitOf(e, only), BucketOf(e, only), start, from, to, g, r)
    ensures var (e', ok) := ServeEager(e, q.client, q.at);
            BucketInv(LimitOf(e', only), BucketOf(e', only), q.at, from, to,
                      g + (if Counts(q, ok, only, from, to) then 1 else 0), r')
  {
    r' := r;
    var b := BucketOf(e, only);
    var globalOk := Take(e.globalLimit, e.global, q.at).1;
    if only.Anyone? || (globalOk && q.client == only.name) {
      r' := TakeKeepsInv(LimitOf(e, only), b, start, q.at, from, to, g, r);
      var (b', taken) := Take(LimitOf(e, only), b, q.at);
      var (e', ok) := ServeEager(e, q.client, q.at);
      assert BucketOf(e', only) == b' && (ok ==> taken);
      if only.Anyone? && taken && !ok && from <= q.at <= to {
        FewerGrants(LimitOf(e, only), b', q.at, from, to, g, r');
      }
    } else {
      WaitKeepsInv(LimitOf(e, only), b, start, q.at, from, to, g, r);
    }
  }

  /** Counting fewer grants keeps the invariant: a global token may be spent on a denied request. */
  lemma FewerGrants(limit: nat, b: Bucket, now: int, from: int, to: int, g: nat, r: nat)
    requires from <= to && BucketInv(limit, b, now, from, to, g + 1, r)
    ensures BucketInv(limit, b, now, from, to, g, r)
  {
  }

  lemma GrantsAreCapped(limit: nat, b: Bucket, now: int, from: int, to: int, g: nat, r: nat)
    requires from <= to && BucketInv(limit, b, now, from, to, g, r)
    ensures g <= limit * ((to - from) / SECOND + 2)
  {
  }

  lemma GrantedUnfold(trace: seq<Request>, answers: seq<bool>, only: Only, from: int, to: int)
    requires |trace| == |answers| > 0
    ensures Granted(trace, answers, only, from, to)
         == (if Counts(trace[0], answers[0], only, from, to) then 1 else 0)
            + Granted(trace[1..], answers[1..], only, from, to)
  {
  }

  lemma {:induction false} EagerWindow(e: Eager, trace: seq<Request>, only: Only, start: int, from: int, to: int,
                                       g: nat, r: nat)
    requires from <= to && Ordered(trace, start) && |AnswersEager(e, trace)| == |trace|
    requires BucketInv(LimitOf(e, only), BucketOf(e, only), start, from, to, g, r)
    ensures g + Granted(trace, AnswersEager(e, trace), only, from, to)
         <= LimitOf(e, only) * ((to - from) / SECOND + 2)
    decreases |trace|
  {
    if trace == [] {
      GrantsAreCapped(LimitOf(e, only), BucketOf(e, only), start, from, to, g, r);
    } else {
      var q := trace[0];
      var (e', ok) := ServeEager(e, q.client, q.at);
      var answers := AnswersEager(e, trace);
      AnswersLength(e', trace[1..]);
      assert answers[0] == ok && answers[1..] == AnswersEager(e', trace[1..]);
      GrantedUnfold(trace, answers, only, from, to);
      var r' := ServeKeepsInv(e, q, only, start, from, to, g, r);
      var g' := g + if Counts(q, ok, only, from, to) then 1 else 0;
      EagerWindow(e', trace[1..], only, q.at, from, to, g', r');
    }
  }

  /** Each client obeys its own bound and all clients together obey the global one. */
  lemma WindowBounds(globalLimit: nat, clientLimit: nat, start: int, trace: seq<Request>, client: string, from: int,
                     to: int)
    requires Ordered(trace, start) && from <= to
    ensures var answers := Answers(New(globalLimit, clientLimit, start), trace);
            && |answers| == |trace|
            && Granted(trace, answers, Client(client), from, to) <= clientLimit * ((to - from) / SECOND + 2)
            && Granted(trace, answers, Anyone, from, to) <= globalLimit * ((to - from) / SECOND + 2)
  {
    var e := NewEager(globalLimit, clientLimit, start);
    LazyBucketsAreUnobservable(globalLimit, clientLimit, start, trace);
    AnswersLength(e, trace);
    EagerWindow(e, trace, Client(client), start, from, to, 0, 0);
    EagerWindow(e, trace, Anyone, start, from, to, 0, 0);
  }
}
