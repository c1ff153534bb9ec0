/** Which limiters with a bucket for every client give the same answers: whether the client buckets are
    due for a refill at the start matters exactly as long as the client limit can bind at all. */
module LimiterReference {
  import opened Basics
  import opened RateLimiter

  /** Client buckets are filled when the limiter is constructed, and not due for a refill then. */
  function FilledEager(globalLimit: nat, clientLimit: nat, start: int): Eager {
    NewEager(globalLimit, clientLimit, start).(clients := _ => Bucket(start, clientLimit))
  }

  // ---------------------------------------------------------------- client limits that never bind

  /** What the global bucket alone answers. */
  function AnswersGlobal(limit: nat, g: Bucket, trace: seq<Request>): seq<bool>
    decreases |trace|
  {
    if trace == [] then []
    else
      var (g', ok) := Take(limit, g, trace[0].at);
      [ok] + AnswersGlobal(limit, g', trace[1..])
  }

  /** What a client has taken since its last refill came out of the global bucket, which was refilled at
      most once since then, unless the client is due for a refill anyway. */
  ghost predicate Slack(limit: nat, clientLimit: nat, g: Bucket, b: Bucket, last: int) {
    && b.tokens <= clientLimit && b.lastRefill <= last
    && g.tokens <= limit && g.lastRefill <= last < g.lastRefill + SECOND
    && (b.lastRefill + SECOND <= g.lastRefill ||
        clientLimit - b.tokens <= (if g.lastRefill > b.lastRefill then limit else 0) + (limit - g.tokens))
  }

  ghost predicate AllSlack(e: Eager, last: int) {
    forall c :: Slack(e.globalLimit, e.clientLimit, e.global, e.clients(c), last)
  }

  /** The global bucket moves on; `taken` tells whether this client takes a token as well. */
  lemma SlackStays(limit: nat, clientLimit: nat, g: Bucket, b: Bucket, last: int, now: int)
    requires Slack(limit, clientLimit, g, b, last) && last <= now
    ensures var (g', ok) := Take(limit, g, now);
            && Slack(limit, clientLimit, g', b, now)
            && (ok && 2 * limit <= clientLimit ==>
                  var (b', ok') := Take(clientLimit, b, now); ok' && Slack(limit, clientLimit, g', b', now))
  {
  }

  lemma {:induction false} AmpleLimitNeverBinds(e: Eager, trace: seq<Request>, start: int)
    requires 2 * e.globalLimit <= e.clientLimit && Ordered(trace, start) && AllSlack(e, start)
    ensures AnswersEager(e, trace) == AnswersGlobal(e.globalLimit, e.global, trace)
    decreases |trace|
  {
    if trace != [] {
      var q := trace[0];
      var (e', ok) := ServeEager(e, q.client, q.at);
      forall c ensures Slack(e'.globalLimit, e'.clientLimit, e'.global, e'.clients(c), q.at) {
        SlackStays(e.globalLimit, e.clientLimit, e.global, e.clients(c), start, q.at);
      }
      SlackStays(e.globalLimit, e.clientLimit, e.global, e.clients(q.client), start, q.at);
      AmpleLimitNeverBinds(e', trace[1..], q.at);
    }
  }

  lemma {:induction false} NoTokensNoPermits(e: Eager, trace: seq<Request>)
    requires e.clientLimit == 0 && forall c :: e.clients(c).tokens == 0
    ensures AnswersEager(e, trace) == seq(|trace|, _ => false)
    decreases |trace|
  {
    if trace != [] {
      NoTokensNoPermits(ServeEager(e, trace[0].client, trace[0].at).0, trace[1..]);
    }
  }

  // ---------------------------------------------------------------- one client on its own

  function AnswersPair(limit: nat, clientLimit: nat, g: Bucket, b: Bucket, times: seq<int>): seq<bool>
    decreases |times|
  {
    if times == [] then []
    else
      var (g', ok) := Take(limit, g, times[0]);
      var (b', ok') := if ok then Take(clientLimit, b, times[0]) else (b, false);
      [ok && ok'] + AnswersPair(limit, clientLimit, g', b', times[1..])
  }

  function From(client: string, times: seq<int>): (trace: seq<Request>)
    ensures |trace| == |times|
  {
    seq(|times|, k requires 0 <= k < |times| => Request(client, times[k]))
  }

  lemma {:induction false} OneClient(e: Eager, client: string, times: seq<int>)
    ensures AnswersEager(e, From(client, times))
         == AnswersPair(e.globalLimit, e.clientLimit, e.global, e.clients(client), times)
    decreases |times|
  {
    if times != [] {
      assert From(client, times)[1..] == From(client, times[1..]);
      OneClient(ServeEager(e, client, times[0]).0, client, times[1..]);
    }
  }

  function Repeat<T>(n: nat, x: T): (s: seq<T>)
    ensures |s| == n && forall k | 0 <= k < n :: s[k] == x
  {
    seq(n, _ => x)
  }

  function Spent(b: Bucket, n: nat): Bucket
    requires n <= b.tokens
  {
    b.(tokens := b.tokens - n)
  }

  /** Requests at one time are permitted as long as both buckets last. */
  lemma {:induction false} Burst(limit: nat, clientLimit: nat, g: Bucket, b: Bucket, n: nat, t: int, rest: seq<int>)
    requires n > 0 && n <= Refilled(limit, g, t).tokens && n <= Refilled(clientLimit, b, t).tokens
    ensures AnswersPair(limit, clientLimit, g, b, Repeat(n, t) + rest)
         == Repeat(n, true) + AnswersPair(limit, clientLimit, Spent(Refilled(limit, g, t), n),
                                          Spent(Refilled(clientLimit, b, t), n), rest)
    decreases n
  {
    var g1, b1 := Spent(Refilled(limit, g, t), 1), Spent(Refilled(clientLimit, b, t), 1);
    var tail := Repeat(n - 1, t) + rest;
    assert Repeat(n, t) + rest == [t] + tail;
    Permitted(limit, clientLimit, g, b, g1, b1, t, tail);
    var gn, bn := Spent(Refilled(limit, g, t), n), Spent(Refilled(clientLimit, b, t), n);
    if n > 1 {
      Burst(limit, clientLimit, g1, b1, n - 1, t, rest);
      assert Spent(Refilled(limit, g1, t), n - 1) == gn && Spent(Refilled(clientLimit, b1, t), n - 1) == bn;
    } else {
      assert tail == rest && gn == g1 && bn == b1;
    }
    OneMoreTrue(n, AnswersPair(limit, clientLimit, gn, bn, rest));
  }

  lemma OneMoreTrue(n: nat, s: seq<bool>)
    requires n > 0
    ensures Repeat(n, true) + s == [true] + (if n > 1 then Repeat(n - 1, true) + s else s)
  {
  }

  lemma Permitted(limit: nat, clientLimit: nat, g: Bucket, b: Bucket, g1: Bucket, b1: Bucket, t: int, tail: seq<int>)
    requires Take(limit, g, t) == (g1, true) && Take(clientLimit, b, t) == (b1, true)
    ensures AnswersPair(limit, clientLimit, g, b, [t] + tail) == [true] + AnswersPair(limit, clientLimit, g1, b1, tail)
  {
    assert ([t] + tail)[1..] == tail;
  }

  // ---------------------------------------------------------------- a trace that tells them apart

  /** As many requests as both limits allow just after the start, and the rest of the client limit and one
      more a second after the start. */
  function Telling(limit: nat, clientLimit: nat, start: int): seq<int> {
    var m := Min(limit, clientLimit);
    Repeat(m, start + 1) + Repeat(clientLimit - m + 1, start + SECOND)
  }

  lemma FilledPermitsAll(limit: nat, clientLimit: nat, start: int)
    requires 0 < clientLimit < 2 * limit
    ensures AnswersPair(limit, clientLimit, Bucket(start, limit), Bucket(start, clientLimit),
                        Telling(limit, clientLimit, start))
         == Repeat(clientLimit + 1, true)
  {
    var m := Min(limit, clientLimit);
    var g, b := Bucket(start, limit), Bucket(start, clientLimit);
    var later := Repeat(clientLimit - m + 1, start + SECOND);
    assert later + [] == later;
    Burst(limit, clientLimit, g, b, m, start + 1, later);
    Burst(limit, clientLimit, Spent(g, m), Spent(b, m), clientLimit - m + 1, start + SECOND, []);
    assert Repeat(m, true) + (Repeat(clientLimit - m + 1, true) + []) == Repeat(clientLimit + 1, true);
  }

  lemma LazyDeniesTheLast(limit: nat, clientLimit: nat, start: int)
    requires 0 < clientLimit < 2 * limit
    ensures AnswersPair(limit, clientLimit, Bucket(start, limit), Bucket(start - SECOND, clientLimit),
                        Telling(limit, clientLimit, start))
         == Repeat(clientLimit, true) + [false]
  {
    var m, t := Min(limit, clientLimit), start + SECOND;
    var g, b := Bucket(start, limit), Bucket(start - SECOND, clientLimit);
    var b1 := Bucket(start + 1, clientLimit - m);
    var later := Repeat(clientLimit - m + 1, t);
    Burst(limit, clientLimit, g, b, m, start + 1, later);
    assert later == Repeat(clientLimit - m, t) + [t];
    if clientLimit > m {
      Burst(limit, clientLimit, Spent(g, m), b1, clientLimit - m, t, [t]);
    } else {
      assert later == [t];
    }
    LastIsDenied(limit, clientLimit, start, m);
    assert Repeat(m, true) + (Repeat(clientLimit - m, true) + [false]) == Repeat(clientLimit, true) + [false];
  }

  lemma LastIsDenied(limit: nat, clientLimit: nat, start: int, m: nat)
    requires 0 < clientLimit < 2 * limit && m == Min(limit, clientLimit)
    ensures var t, empty := start + SECOND, Bucket(start + 1, 0);
            && AnswersPair(limit, clientLimit, Bucket(start, limit - m), empty, [t]) == [false]
            && (clientLimit > m ==>
                  AnswersPair(limit, clientLimit, Bucket(t, limit - (clientLimit - m)), empty, [t]) == [false])
  {
  }

  // ---------------------------------------------------------------- the exact condition

  ghost predicate SameAnswers(globalLimit: nat, clientLimit: nat, start: int, trace: seq<Request>) {
    Answers(New(globalLimit, clientLimit, start), trace)
      == AnswersEager(FilledEager(globalLimit, clientLimit, start), trace)
  }

  /** A limiter whose client buckets are filled at construction gives the same answers as the lazy one on
      every trace if and only if no client is ever permitted, or the client limit is at least twice the
      global one, so that it never binds. */
  lemma FilledBucketsAgreeExactly(globalLimit: nat, clientLimit: nat, start: int)
    ensures (forall trace | Ordered(trace, start) :: SameAnswers(globalLimit, clientLimit, start, trace))
            <==> clientLimit == 0 || 2 * globalLimit <= clientLimit
  {
    var lazy, filled := NewEager(globalLimit, clientLimit, start), FilledEager(globalLimit, clientLimit, start);
    if clientLimit == 0 || 2 * globalLimit <= clientLimit {
      forall trace | Ordered(trace, start) ensures SameAnswers(globalLimit, clientLimit, start, trace) {
        LazyBucketsAreUnobservable(globalLimit, clientLimit, start, trace);
        if clientLimit == 0 {
          NoTokensNoPermits(lazy, trace);
          NoTokensNoPermits(filled, trace);
        } else {
          AmpleLimitNeverBinds(lazy, trace, start);
          AmpleLimitNeverBinds(filled, trace, start);
        }
      }
    } else {
      var times := Telling(globalLimit, clientLimit, start);
      var trace := From("", times);
      TellingIsOrdered(globalLimit, clientLimit, start);
      LazyBucketsAreUnobservable(globalLimit, clientLimit, start, trace);
      OneClient(lazy, "", times);
      OneClient(filled, "", times);
      FilledPermitsAll(globalLimit, clientLimit, start);
      LazyDeniesTheLast(globalLimit, clientLimit, start);
      assert (Repeat(clientLimit, true) + [false])[clientLimit] != Repeat(clientLimit + 1, true)[clientLimit];
      assert !SameAnswers(globalLimit, clientLimit, start, trace);
    }
  }

  lemma TellingIsOrdered(limit: nat, clientLimit: nat, start: int)
    ensures Ordered(From("", Telling(limit, clientLimit, start)), start)
  {
    var m := Min(limit, clientLimit);
    var times := Telling(limit, clientLimit, start);
    assert forall k | 0 <= k < |times| :: times[k] == if k < m then start + 1 else start + SECOND;
    Increasing(From("", times), start);
  }

  lemma {:induction false} Increasing(trace: seq<Request>, start: int)
    requires forall j, k | 0 <= j < k < |trace| :: trace[j].at <= trace[k].at
    requires trace != [] ==> start <= trace[0].at
    ensures Ordered(trace, start)
    decreases |trace|
  {
    if trace != [] { Increasing(trace[1..], trace[0].at); }
  }
}
