/** The partition of a playlist into download tasks. */
module TaskSequence {
  import opened Basics
  import Text

  datatype Playlist<T> = Playlist(segments: seq<T>, headers: seq<string>, end: string)

  datatype Task<T> = Task(id: nat, outputFileName: string, headers: seq<string>, segments: seq<T>, end: string)

  function Flatten<T>(tasks: seq<Task<T>>): seq<T> {
    if tasks == [] then [] else Flatten(tasks[..|tasks| - 1]) + tasks[|tasks| - 1].segments
  }

  /** The tasks cover the first `i` segments; all but the last hold just `step` of them. */
  ghost predicate Covers<T>(tasks: seq<Task<T>>, list: Playlist<T>, step: nat, i: nat) {
    && i <= |list.segments| && Flatten(tasks) == list.segments[..i]
    && (forall k | 0 <= k < |tasks| :: Belongs(tasks[k], list, k, step))
  }

  ghost predicate Belongs<T>(t: Task<T>, list: Playlist<T>, k: nat, step: nat) {
    && t.id == k + 1 && t.outputFileName == Text.Decimal(k + 1) + ".mp4"
    && t.headers == list.headers && t.end == list.end && 0 < |t.segments| <= step
  }

  lemma CoversMore<T>(tasks: seq<Task<T>>, list: Playlist<T>, step: nat, i: nat, t: Task<T>, j: nat)
    requires Covers(tasks, list, step, i) && i <= j <= |list.segments|
    requires t.segments == list.segments[i..j] && Belongs(t, list, |tasks|, step)
    ensures Covers(tasks + [t], list, step, j)
  {
  }

  /** `k` tasks of `step` segments cover `n`, and fewer do not. */
  ghost predicate JustEnough(k: nat, step: nat, n: nat) {
    (k - 1) * step < n <= k * step
  }

  method GenTaskSeq<T>(list: Playlist<T>, concurrent: nat) returns (res: seq<Task<T>>)
    requires |list.segments| > 0 && concurrent > 0
    ensures Flatten(res) == list.segments
    ensures var c := Min(concurrent, |list.segments|);
            && (forall k | 0 <= k < |res| :: Belongs(res[k], list, k, |list.segments| / c))
            && JustEnough(|res|, |list.segments| / c, |list.segments|)
            && c <= |res| <= 2 * c - 1
  {
    var n := |list.segments|;
    var c := Min(concurrent, n);
    var step := n / c;
    StepIsPositive(n, c);
    res := [];
    var i := 0;
    while i < n
      invariant 0 <= i <= n && Covers(res, list, step, i)
      invariant i == |res| * step || (i == n && JustEnough(|res|, step, n))
    {
      var start := i;
      var segments := [];
      var j := 0;
      while j < step && i < n
        invariant 0 <= j <= step && start <= i <= n && i == start + j
        invariant segments == list.segments[start..i]
      {
        segments := segments + [list.segments[i]];
        j, i := j + 1, i + 1;
      }
      var task := Task(|res| + 1, Text.Decimal(|res| + 1) + ".mp4", list.headers, segments, list.end);
      CoversMore(res, list, step, start, task, i);
      OneMoreTask(|res|, step);
      res := res + [task];
    }
    assert list.segments[..n] == list.segments;
    LastTask(|res|, step, n);
    CountBounds(n, c, step, |res|);
  }

  lemma StepIsPositive(n: nat, c: nat)
    requires 0 < c <= n
    ensures n / c >= 1
  {
  }

  lemma OneMoreTask(k: nat, step: nat)
    ensures (k + 1) * step == k * step + step
  {
  }

  lemma LastTask(k: nat, step: nat, n: nat)
    requires step > 0 && n > 0 && (n == k * step || JustEnough(k, step, n))
    ensures k > 0 && JustEnough(k, step, n)
  {
  }

  lemma MulMono(a: int, b: int, m: nat)
    requires a <= b
    ensures a * m <= b * m
  {
  }

  /** As many tasks of `n / c` segments as it takes to cover all `n`: at least `c`, and fewer than `2 c`. */
  lemma CountBounds(n: nat, c: nat, step: nat, k: nat)
    requires 0 < c <= n && step == n / c && JustEnough(k, step, n)
    ensures c <= k <= 2 * c - 1
  {
    StepIsPositive(n, c);
    var r := n % c;
    assert n == c * step + r;
    if k < c {
      MulMono(k, c - 1, step);
    }
    if k >= 2 * c {
      MulMono(2 * c - 1, k - 1, step);
      assert (2 * c - 1) * step == c * step + (c - 1) * step;
      MulMono(1, step, c - 1);
    }
  }

  lemma StepIsOne(n: nat, c: nat)
    requires 0 < c <= n < 2 * c
    ensures n / c == 1
  {
  }

  /** With steps of one segment there are as many tasks as segments. */
  lemma OneByOne(k: nat, n: nat)
    requires JustEnough(k, 1, n)
    ensures k == n
  {
  }

  /** Both bounds are reached, by c segments and by 2 c - 1. */
  lemma CountBoundsAreTight(c: nat, least: nat, most: nat)
    requires c > 0 && JustEnough(least, c / c, c) && JustEnough(most, (2 * c - 1) / c, 2 * c - 1)
    ensures least == c && most == 2 * c - 1
  {
    StepIsOne(c, c);
    StepIsOne(2 * c - 1, c);
    OneByOne(least, c);
    OneByOne(most, 2 * c - 1);
  }
}
