/** The sliding-window rule of ipRateLimiter on plain values: what one call does to the
    per-key lists, and the runs that calls make. Times are nanoseconds. */
module LimiterSpec {

  datatype Config = Config(limit: int, window: int, sweepInt: int)

  datatype Call<K> = Call(key: K, now: int)

  /** The entries strictly later than `cutoff`, in order. */
  ghost function Fresh(ts: seq<int>, cutoff: int): seq<int> {
    FreshUpTo(ts, cutoff, |ts|)
  }

  ghost function FreshUpTo(ts: seq<int>, cutoff: int, n: nat): seq<int>
    requires n <= |ts|
  {
    if n == 0 then [] else
      var kept := FreshUpTo(ts, cutoff, n - 1);
      if ts[n - 1] > cutoff then kept + [ts[n - 1]] else kept
  }

  // ---- One call, seen from one key's list ----

  /** The sweep, when one is due, compacts every list. */
  ghost function SweepList(cfg: Config, list: seq<int>, due: bool, now: int): seq<int> {
    if due then Fresh(list, now - cfg.window) else list
  }

  ghost predicate Admits(cfg: Config, swept: seq<int>, now: int) {
    |Fresh(swept, now - cfg.window)| < cfg.limit
  }

  /** The caller's own list is compacted again, and gains the call's time if the call is let through. */
  ghost function HitList(cfg: Config, swept: seq<int>, now: int): seq<int> {
    var seen := Fresh(swept, now - cfg.window);
    if Admits(cfg, swept, now) then seen + [now] else seen
  }

  // ---- Runs of a limiter created at time `start` ----

  /** When the last sweep ran, after the first `n` calls. */
  ghost function LastSweep<K>(cfg: Config, start: int, calls: seq<Call<K>>, n: nat): int
    requires n <= |calls|
  {
    if n == 0 then start else
      var last := LastSweep(cfg, start, calls, n - 1);
      if calls[n - 1].now - last > cfg.sweepInt then calls[n - 1].now else last
  }

  ghost predicate Sweeps<K>(cfg: Config, start: int, calls: seq<Call<K>>, n: nat)
    requires n < |calls|
  {
    calls[n].now - LastSweep(cfg, start, calls, n) > cfg.sweepInt
  }

  /** The list of key `k` after the first `n` calls; an absent key has an empty list. */
  ghost function ListAfter<K>(cfg: Config, start: int, calls: seq<Call<K>>, n: nat, k: K): seq<int>
    requires n <= |calls|
  {
    if n == 0 then [] else
      var swept := SweepList(cfg, ListAfter(cfg, start, calls, n - 1, k), Sweeps(cfg, start, calls, n - 1),
                             calls[n - 1].now);
      if calls[n - 1].key == k then HitList(cfg, swept, calls[n - 1].now) else swept
  }

  /** What call `n` finds in the list of key `k`, after its sweep. */
  ghost function Swept<K>(cfg: Config, start: int, calls: seq<Call<K>>, n: nat, k: K): seq<int>
    requires n < |calls|
  {
    SweepList(cfg, ListAfter(cfg, start, calls, n, k), Sweeps(cfg, start, calls, n), calls[n].now)
  }

  /** Whether call `n` of the run is let through. */
  ghost predicate Answer<K>(cfg: Config, start: int, calls: seq<Call<K>>, n: nat)
    requires n < |calls|
  {
    Admits(cfg, Swept(cfg, start, calls, n, calls[n].key), calls[n].now)
  }

  ghost function Answers<K>(cfg: Config, start: int, calls: seq<Call<K>>): (r: seq<bool>)
    ensures |r| == |calls|
    ensures forall n :: 0 <= n < |calls| ==> r[n] == Answer(cfg, start, calls, n)
  {
    seq(|calls|, n requires 0 <= n < |calls| => Answer(cfg, start, calls, n))
  }

  /** The times of the calls of key `k`, among the first `n`, that `policy` lets through. */
  ghost function Taken<K>(calls: seq<Call<K>>, policy: seq<bool>, n: nat, k: K): seq<int>
    requires n <= |calls| == |policy|
  {
    if n == 0 then [] else
      var past := Taken(calls, policy, n - 1, k);
      if calls[n - 1].key == k && policy[n - 1] then past + [calls[n - 1].now] else past
  }

  /** Every call let through finds fewer than `limit` calls of its key let through, in the
      whole past, later than a cutoff that lies `d` above its own. */
  ghost predicate LeavesRoom<K>(cfg: Config, calls: seq<Call<K>>, policy: seq<bool>, d: nat)
    requires |policy| == |calls|
  {
    forall n :: 0 <= n < |calls| && policy[n] ==> HasRoom(cfg, calls, policy, n, d)
  }

  ghost predicate HasRoom<K>(cfg: Config, calls: seq<Call<K>>, policy: seq<bool>, n: nat, d: nat)
    requires n < |calls| == |policy|
  {
    |Fresh(Taken(calls, policy, n, calls[n].key), calls[n].now - cfg.window + d)| < cfg.limit
  }

  /** The rule without lists, sweeps, deletions or other keys: key `k` is let through while
      fewer than `limit` of its own admissions, over its whole past, are later than now - window. */
  ghost function PlainHistory<K>(cfg: Config, calls: seq<Call<K>>, n: nat, k: K): seq<int>
    requires n <= |calls|
  {
    if n == 0 then [] else
      var past := PlainHistory(cfg, calls, n - 1, k);
      if calls[n - 1].key == k && |Fresh(past, calls[n - 1].now - cfg.window)| < cfg.limit
      then past + [calls[n - 1].now] else past
  }

  ghost predicate Monotone<K>(calls: seq<Call<K>>) {
    Disorder(calls, 0)
  }

  /** No reading is more than `d` below a reading already processed. */
  ghost predicate Disorder<K>(calls: seq<Call<K>>, d: nat) {
    forall i, j :: 0 <= i < j < |calls| ==> calls[i].now - d <= calls[j].now
  }

  /** How many entries lie in the closed interval from `lo` to `hi`. */
  ghost function CountIn(ts: seq<int>, lo: int, hi: int): nat {
    CountUpTo(ts, lo, hi, |ts|)
  }

  ghost function CountUpTo(ts: seq<int>, lo: int, hi: int, n: nat): nat
    requires n <= |ts|
  {
    if n == 0 then 0 else CountUpTo(ts, lo, hi, n - 1) + if lo <= ts[n - 1] <= hi then 1 else 0
  }

  // ---- Facts about Fresh and CountIn ----

  lemma {:induction false} FreshOfPrefix(ts: seq<int>, t: int, x: int, n: nat)
    requires n <= |ts|
    ensures FreshUpTo(ts + [t], x, n) == FreshUpTo(ts, x, n)
  {
    if n > 0 {
      FreshOfPrefix(ts, t, x, n - 1);
    }
  }

  lemma FreshPush(ts: seq<int>, t: int, x: int)
    ensures Fresh(ts + [t], x) == if t > x then Fresh(ts, x) + [t] else Fresh(ts, x)
  {
    FreshOfPrefix(ts, t, x, |ts|);
  }

  lemma {:induction false} FreshOfFresh(ts: seq<int>, c: int, x: int, n: nat)
    requires c <= x && n <= |ts|
    ensures Fresh(FreshUpTo(ts, c, n), x) == FreshUpTo(ts, x, n)
  {
    if n > 0 {
      FreshOfFresh(ts, c, x, n - 1);
      FreshPush(FreshUpTo(ts, c, n - 1), ts[n - 1], x);
    }
  }

  lemma FreshTwice(ts: seq<int>, c: int, x: int)
    requires c <= x
    ensures Fresh(Fresh(ts, c), x) == Fresh(ts, x)
  {
    FreshOfFresh(ts, c, x, |ts|);
  }

  lemma {:induction false} FreshShrinksUpTo(ts: seq<int>, c: int, x: int, n: nat)
    requires c <= x && n <= |ts|
    ensures |FreshUpTo(ts, x, n)| <= |FreshUpTo(ts, c, n)| <= n
  {
    if n > 0 {
      FreshShrinksUpTo(ts, c, x, n - 1);
    }
  }

  lemma FreshShrinks(ts: seq<int>, c: int, x: int)
    requires c <= x
    ensures |Fresh(ts, x)| <= |Fresh(ts, c)| <= |ts|
  {
    FreshShrinksUpTo(ts, c, x, |ts|);
  }

  lemma {:induction false} CountOfPrefix(ts: seq<int>, t: int, lo: int, hi: int, n: nat)
    requires n <= |ts|
    ensures CountUpTo(ts + [t], lo, hi, n) == CountUpTo(ts, lo, hi, n)
  {
    if n > 0 {
      CountOfPrefix(ts, t, lo, hi, n - 1);
    }
  }

  lemma CountPush(ts: seq<int>, t: int, lo: int, hi: int)
    ensures CountIn(ts + [t], lo, hi) == CountIn(ts, lo, hi) + if lo <= t <= hi then 1 else 0
  {
    CountOfPrefix(ts, t, lo, hi, |ts|);
  }

  lemma {:induction false} CountAtMostFreshUpTo(ts: seq<int>, lo: int, hi: int, x: int, n: nat)
    requires x < lo && n <= |ts|
    ensures CountUpTo(ts, lo, hi, n) <= |FreshUpTo(ts, x, n)|
  {
    if n > 0 {
      CountAtMostFreshUpTo(ts, lo, hi, x, n - 1);
    }
  }

  lemma CountAtMostFresh(ts: seq<int>, lo: int, hi: int, x: int)
    requires x < lo
    ensures CountIn(ts, lo, hi) <= |Fresh(ts, x)|
  {
    CountAtMostFreshUpTo(ts, lo, hi, x, |ts|);
  }

  lemma {:induction false} CountSplitUpTo(ts: seq<int>, lo: int, mid: int, hi: int, n: nat)
    requires lo - 1 <= mid <= hi && n <= |ts|
    ensures CountUpTo(ts, lo, hi, n) == CountUpTo(ts, lo, mid, n) + CountUpTo(ts, mid + 1, hi, n)
  {
    if n > 0 {
      CountSplitUpTo(ts, lo, mid, hi, n - 1);
    }
  }

  lemma {:induction false} CountEmptyUpTo(ts: seq<int>, lo: int, hi: int, n: nat)
    requires hi < lo && n <= |ts|
    ensures CountUpTo(ts, lo, hi, n) == 0
  {
    if n > 0 {
      CountEmptyUpTo(ts, lo, hi, n - 1);
    }
  }

  // ---- Facts about runs ----

  lemma {:induction false} RunIsPrefixOnly<K>(cfg: Config, start: int, c1: seq<Call<K>>, c2: seq<Call<K>>, n: nat, k: K)
    requires n <= |c1| && n <= |c2| && forall i :: 0 <= i < n ==> c1[i] == c2[i]
    ensures LastSweep(cfg, start, c1, n) == LastSweep(cfg, start, c2, n)
    ensures ListAfter(cfg, start, c1, n, k) == ListAfter(cfg, start, c2, n, k)
    decreases n
  {
    if n > 0 {
      RunIsPrefixOnly(cfg, start, c1, c2, n - 1, k);
    }
  }

  lemma SweepAboveCutoff<K>(cfg: Config, start: int, calls: seq<Call<K>>, n: nat, k: K, x: int)
    requires n < |calls| && calls[n].now - cfg.window <= x
    ensures Fresh(Swept(cfg, start, calls, n, k), x) == Fresh(ListAfter(cfg, start, calls, n, k), x)
  {
    FreshTwice(ListAfter(cfg, start, calls, n, k), calls[n].now - cfg.window, x);
  }

  /** Above the cutoff of call `n`, the call changes only its own key, and only by its admission. */
  lemma StepAboveCutoff<K>(cfg: Config, start: int, calls: seq<Call<K>>, n: nat, k: K, x: int)
    requires n < |calls| && calls[n].now - cfg.window <= x
    ensures var past := Fresh(ListAfter(cfg, start, calls, n, k), x);
            Fresh(ListAfter(cfg, start, calls, n + 1, k), x) ==
            if calls[n].key == k && Answer(cfg, start, calls, n) && calls[n].now > x
            then past + [calls[n].now] else past
  {
    var swept, c := Swept(cfg, start, calls, n, k), calls[n].now - cfg.window;
    SweepAboveCutoff(cfg, start, calls, n, k, x);
    FreshTwice(swept, c, x);
    FreshPush(Fresh(swept, c), calls[n].now, x);
  }

  /** The lists may have dropped entries, but never one later than every cutoff used so far. */
  lemma {:induction false} ListsTrackHistory<K>(cfg: Config, start: int, calls: seq<Call<K>>, n: nat, k: K, x: int)
    requires n <= |calls|
    requires forall i :: 0 <= i < n ==> calls[i].now - cfg.window <= x
    ensures Fresh(ListAfter(cfg, start, calls, n, k), x) == Fresh(Taken(calls, Answers(cfg, start, calls), n, k), x)
    decreases n
  {
    if n > 0 {
      ListsTrackHistory(cfg, start, calls, n - 1, k, x);
      StepAboveCutoff(cfg, start, calls, n - 1, k, x);
      var past, taken := Taken(calls, Answers(cfg, start, calls), n - 1,
                               k), Taken(calls, Answers(cfg, start, calls), n, k);
      assert Answers(cfg, start, calls)[n - 1] == Answer(cfg, start, calls, n - 1);
      assert taken == if calls[n - 1].key == k && Answer(cfg, start, calls, n - 1)
                      then past + [calls[n - 1].now] else past;
      FreshPush(past, calls[n - 1].now, x);
    }
  }

  /** Each stored list holds at most `limit` entries, however the clock behaves. */
  lemma {:induction false} ListsStayShort<K>(cfg: Config, start: int, calls: seq<Call<K>>, n: nat, k: K)
    requires n <= |calls|
    ensures |ListAfter(cfg, start, calls, n, k)| <= if cfg.limit > 0 then cfg.limit else 0
    decreases n
  {
    if n > 0 {
      var c := calls[n - 1].now - cfg.window;
      ListsStayShort(cfg, start, calls, n - 1, k);
      FreshShrinks(ListAfter(cfg, start, calls, n - 1, k), c, c);
      FreshShrinks(Swept(cfg, start, calls, n - 1, k), c, c);
    }
  }

  lemma AnswerCountsList<K>(cfg: Config, start: int, calls: seq<Call<K>>, n: nat)
    requires n < |calls|
    ensures Answer(cfg, start, calls, n) <==>
            |Fresh(ListAfter(cfg, start, calls, n, calls[n].key), calls[n].now - cfg.window)| < cfg.limit
  {
    SweepAboveCutoff(cfg, start, calls, n, calls[n].key, calls[n].now - cfg.window);
  }

  lemma EarlierCutoffs<K>(cfg: Config, calls: seq<Call<K>>, n: nat, d: nat)
    requires n < |calls| && Disorder(calls, d)
    ensures forall i :: 0 <= i < n ==> calls[i].now - cfg.window <= calls[n].now - cfg.window + d
  {
  }

  /** With readings at most `d` out of order, every admitted call has room in its full history. */
  lemma AnswersLeaveRoom<K>(cfg: Config, start: int, calls: seq<Call<K>>, d: nat)
    requires Disorder(calls, d)
    ensures LeavesRoom(cfg, calls, Answers(cfg, start, calls), d)
  {
    forall n | 0 <= n < |calls| && Answers(cfg, start, calls)[n]
      ensures HasRoom(cfg, calls, Answers(cfg, start, calls), n, d)
    {
      var k, c := calls[n].key, calls[n].now - cfg.window;
      AnswerCountsList(cfg, start, calls, n);
      EarlierCutoffs(cfg, calls, n, d);
      ListsTrackHistory(cfg, start, calls, n, k, c + d);
      FreshShrinks(ListAfter(cfg, start, calls, n, k), c, c + d);
    }
  }

  /** With an ordered clock a call is let through exactly when it has room in its full history. */
  lemma AnswerIsRoom<K>(cfg: Config, start: int, calls: seq<Call<K>>, n: nat)
    requires n < |calls| && Monotone(calls)
    ensures Answer(cfg, start, calls, n) <==> HasRoom(cfg, calls, Answers(cfg, start, calls), n, 0)
  {
    AnswerCountsList(cfg, start, calls, n);
    EarlierCutoffs(cfg, calls, n, 0);
    ListsTrackHistory(cfg, start, calls, n, calls[n].key, calls[n].now - cfg.window);
  }
}
