/** What the rate limiter guarantees over whole runs: it follows the plain history of each key,
    bounds every window even under a disordered clock, and no policy admits more. */
module LimiterTheorems {
  import opened LimiterSpec

  /** Lists, sweeps, deletions and the calls of other keys never change an answer: with an ordered
      clock each key's admissions are those of the rule that keeps that key's whole past. */
  lemma {:induction false} RefinesPlainHistory<K>(cfg: Config, start: int, calls: seq<Call<K>>, n: nat, k: K)
    requires n <= |calls| && Monotone(calls)
    ensures Taken(calls, Answers(cfg, start, calls), n, k) == PlainHistory(cfg, calls, n, k)
    decreases n
  {
    if n > 0 {
      RefinesPlainHistory(cfg, start, calls, n - 1, k);
      AnswerIsRoom(cfg, start, calls, n - 1);
    }
  }

  /** Call `n` is let through exactly when fewer than `limit` of its key's admissions, over the
      key's whole past, are later than now - window. */
  lemma AnswerIsPlain<K>(cfg: Config, start: int, calls: seq<Call<K>>, n: nat)
    requires n < |calls| && Monotone(calls)
    ensures Answer(cfg, start, calls, n) <==>
            |Fresh(PlainHistory(cfg, calls, n, calls[n].key), calls[n].now - cfg.window)| < cfg.limit
  {
    RefinesPlainHistory(cfg, start, calls, n, calls[n].key);
    AnswerIsRoom(cfg, start, calls, n);
  }

  // ---- The window bound under a disordered clock ----

  lemma {:induction false} RoomBoundsWindows<K>(cfg: Config, calls: seq<Call<K>>, policy: seq<bool>, n: nat, k: K,
                                                d: nat, lo: int, hi: int)
    requires n <= |calls| == |policy| && LeavesRoom(cfg, calls, policy, d)
    requires cfg.limit >= 0 && hi - lo < cfg.window - d
    ensures CountIn(Taken(calls, policy, n, k), lo, hi) <= cfg.limit
    decreases n
  {
    if n > 0 {
      var past, now := Taken(calls, policy, n - 1, k), calls[n - 1].now;
      RoomBoundsWindows(cfg, calls, policy, n - 1, k, d, lo, hi);
      if calls[n - 1].key == k && policy[n - 1] {
        assert HasRoom(cfg, calls, policy, n - 1, d);
        CountPush(past, now, lo, hi);
        if lo <= now <= hi {
          CountAtMostFresh(past, lo, hi, now - cfg.window + d);
        }
      }
    }
  }

  /** When every reading is at most `d` below any reading already processed, an interval shorter
      than window - d never holds more than `limit` admissions of one key. */
  lemma WindowBound<K>(cfg: Config, start: int, calls: seq<Call<K>>, k: K, d: nat, lo: int, hi: int)
    requires Disorder(calls, d) && cfg.limit >= 0 && hi - lo < cfg.window - d
    ensures CountIn(Taken(calls, Answers(cfg, start, calls), |calls|, k), lo, hi) <= cfg.limit
  {
    AnswersLeaveRoom(cfg, start, calls, d);
    RoomBoundsWindows(cfg, calls, Answers(cfg, start, calls), |calls|, k, d, lo, hi);
  }

  /** `m` consecutive windows of length window - d hold at most m * limit admissions. */
  lemma {:induction false} ManyWindowsBound<K>(cfg: Config, start: int, calls: seq<Call<K>>, k: K, d: nat, lo: int,
                                               w: nat, m: nat)
    requires Disorder(calls, d) && cfg.limit >= 0 && w == cfg.window - d
    ensures CountIn(Taken(calls, Answers(cfg, start, calls), |calls|, k), lo, lo + m * w - 1) <= m * cfg.limit
    decreases m
  {
    var ts := Taken(calls, Answers(cfg, start, calls), |calls|, k);
    if m == 0 {
      CountEmptyUpTo(ts, lo, lo - 1, |ts|);
    } else {
      var mid := lo + (m - 1) * w;
      ManyWindowsBound(cfg, start, calls, k, d, lo, w, m - 1);
      WindowBound(cfg, start, calls, k, d, mid, mid + w - 1);
      NextWindow(m, w, cfg.limit);
      CountSplitUpTo(ts, lo, mid - 1, mid + w - 1, |ts|);
    }
  }

  lemma NextWindow(m: nat, w: nat, limit: int)
    requires m > 0
    ensures m * w == (m - 1) * w + w && (m - 1) * w >= 0 && m * limit == (m - 1) * limit + limit
  {
  }

  // ---- Optimality ----

  /** Every half-open window (a, a + window] holds at most `limit` calls of each key. */
  ghost predicate Feasible<K(!new)>(cfg: Config, calls: seq<Call<K>>, policy: seq<bool>) {
    |policy| == |calls| && forall k, a :: WindowHolds(cfg, calls, policy, k, a)
  }

  ghost predicate WindowHolds<K>(cfg: Config, calls: seq<Call<K>>, policy: seq<bool>, k: K, a: int)
    requires |policy| == |calls|
  {
    CountIn(Taken(calls, policy, |calls|, k), a + 1, a + cfg.window) <= cfg.limit
  }

  /** The number of the first `n` calls not later than `c`; the others are all later. */
  ghost function Boundary<K>(calls: seq<Call<K>>, n: nat, c: int): (m: nat)
    requires n <= |calls| && Monotone(calls)
    ensures m <= n
    ensures forall i :: 0 <= i < m ==> calls[i].now <= c
    ensures forall i :: m <= i < n ==> calls[i].now > c
  {
    if n == 0 then 0 else if calls[n - 1].now <= c then n else Boundary(calls, n - 1, c)
  }

  lemma {:induction false} NothingFreshBefore<K>(calls: seq<Call<K>>, policy: seq<bool>, m: nat, k: K, c: int)
    requires m <= |calls| == |policy| && forall i :: 0 <= i < m ==> calls[i].now <= c
    ensures Fresh(Taken(calls, policy, m, k), c) == []
    decreases m
  {
    if m > 0 {
      NothingFreshBefore(calls, policy, m - 1, k, c);
      FreshPush(Taken(calls, policy, m - 1, k), calls[m - 1].now, c);
    }
  }

  /** The calls taken later than `c` are those taken after the boundary of `c`. */
  lemma {:induction false} FreshIsSuffix<K>(calls: seq<Call<K>>, policy: seq<bool>, m: nat, n: nat, k: K, c: int)
    requires m <= n <= |calls| == |policy|
    requires forall i :: 0 <= i < m ==> calls[i].now <= c
    requires forall i :: m <= i < n ==> calls[i].now > c
    ensures |Taken(calls, policy, n, k)| == |Taken(calls, policy, m, k)| + |Fresh(Taken(calls, policy, n, k), c)|
    decreases n
  {
    if n == m {
      NothingFreshBefore(calls, policy, m, k, c);
    } else {
      FreshIsSuffix(calls, policy, m, n - 1, k, c);
      FreshPush(Taken(calls, policy, n - 1, k), calls[n - 1].now, c);
    }
  }

  lemma {:induction false} FreshWithinWindow<K>(calls: seq<Call<K>>, policy: seq<bool>, n: nat, k: K, c: int, hi: int)
    requires n <= |calls| == |policy| && forall i :: 0 <= i < n ==> calls[i].now <= hi
    ensures |Fresh(Taken(calls, policy, n, k), c)| <= CountIn(Taken(calls, policy, n, k), c + 1, hi)
    decreases n
  {
    if n > 0 {
      var past := Taken(calls, policy, n - 1, k);
      FreshWithinWindow(calls, policy, n - 1, k, c, hi);
      FreshPush(past, calls[n - 1].now, c);
      CountPush(past, calls[n - 1].now, c + 1, hi);
    }
  }

  lemma {:induction false} CountGrows<K>(calls: seq<Call<K>>, policy: seq<bool>, n: nat, m: nat, k: K, lo: int, hi: int)
    requires n <= m <= |calls| == |policy|
    ensures CountIn(Taken(calls, policy, n, k), lo, hi) <= CountIn(Taken(calls, policy, m, k), lo, hi)
    decreases m
  {
    if n < m {
      CountGrows(calls, policy, n, m - 1, k, lo, hi);
      CountPush(Taken(calls, policy, m - 1, k), calls[m - 1].now, lo, hi);
    }
  }

  lemma EarlierReadings<K>(calls: seq<Call<K>>, n: nat)
    requires n < |calls| && Monotone(calls)
    ensures forall i :: 0 <= i < n + 1 ==> calls[i].now <= calls[n].now
  {
  }

  /** A feasible policy leaves room, in the limiter's own sense, for each call it lets through. */
  lemma FeasibleHasRoom<K(!new)>(cfg: Config, calls: seq<Call<K>>, policy: seq<bool>, n: nat)
    requires n < |calls| && Monotone(calls) && cfg.window > 0 && Feasible(cfg, calls, policy) && policy[n]
    ensures HasRoom(cfg, calls, policy, n, 0)
  {
    EarlierReadings(calls, n);
    WindowLeavesRoom(cfg, calls, policy, n, calls[n].key, calls[n].now - cfg.window);
  }

  lemma WindowLeavesRoom<K>(cfg: Config, calls: seq<Call<K>>, policy: seq<bool>, n: nat, k: K, c: int)
    requires n < |calls| == |policy| && cfg.window > 0 && policy[n] && WindowHolds(cfg, calls, policy, k, c)
    requires k == calls[n].key && c + cfg.window == calls[n].now
    requires forall i :: 0 <= i < n + 1 ==> calls[i].now <= calls[n].now
    ensures |Fresh(Taken(calls, policy, n, k), c)| < cfg.limit
  {
    FreshPush(Taken(calls, policy, n, k), calls[n].now, c);
    FreshWithinWindow(calls, policy, n + 1, k, c, calls[n].now);
    CountGrows(calls, policy, n + 1, |calls|, k, c + 1, calls[n].now);
  }

  /** `greedy` lets a call through exactly when it leaves room. */
  ghost predicate Greedy<K>(cfg: Config, calls: seq<Call<K>>, greedy: seq<bool>) {
    |greedy| == |calls| && forall n :: 0 <= n < |calls| ==> (greedy[n] <==> HasRoom(cfg, calls, greedy, n, 0))
  }

  lemma {:induction false} GreedyIsAhead<K(!new)>(cfg: Config, calls: seq<Call<K>>, greedy: seq<bool>,
                                                  policy: seq<bool>, n: nat, k: K)
    requires n <= |calls| && Monotone(calls) && cfg.window > 0
    requires Greedy(cfg, calls, greedy) && Feasible(cfg, calls, policy)
    ensures |Taken(calls, policy, n, k)| <= |Taken(calls, greedy, n, k)|
    decreases n, 1
  {
    if n > 0 {
      GreedyIsAhead(cfg, calls, greedy, policy, n - 1, k);
      if calls[n - 1].key == k && policy[n - 1] && |Taken(calls, policy, n - 1,
                                                          k)| == |Taken(calls, greedy, n - 1, k)| {
        GreedyAlsoAdmits(cfg, calls, greedy, policy, n - 1);
      }
    }
  }

  lemma {:induction false} GreedyAlsoAdmits<K(!new)>(cfg: Config, calls: seq<Call<K>>, greedy: seq<bool>,
                                                     policy: seq<bool>, n: nat)
    requires n < |calls| && Monotone(calls) && cfg.window > 0
    requires Greedy(cfg, calls, greedy) && Feasible(cfg, calls, policy) && policy[n]
    requires |Taken(calls, policy, n, calls[n].key)| == |Taken(calls, greedy, n, calls[n].key)|
    ensures greedy[n]
    decreases n + 1, 0
  {
    var k, c := calls[n].key, calls[n].now - cfg.window;
    var m := Boundary(calls, n, c);
    FeasibleHasRoom(cfg, calls, policy, n);
    FreshIsSuffix(calls, policy, m, n, k, c);
    FreshIsSuffix(calls, greedy, m, n, k, c);
    GreedyIsAhead(cfg, calls, greedy, policy, m, k);
    assert HasRoom(cfg, calls, greedy, n, 0);
  }

  // Without a proper window the limiter looks back at nothing.

  /** With a window of no length every call finds an empty past. */
  lemma NoWindowHasRoom<K>(cfg: Config, calls: seq<Call<K>>, policy: seq<bool>, n: nat)
    requires n < |calls| == |policy| && Monotone(calls) && cfg.window <= 0
    ensures HasRoom(cfg, calls, policy, n, 0) <==> cfg.limit > 0
  {
    EarlierReadings(calls, n);
    NothingFreshBefore(calls, policy, n, calls[n].key, calls[n].now - cfg.window);
  }

  lemma {:induction false} MoreAnswersTakeMore<K>(calls: seq<Call<K>>, policy: seq<bool>, more: seq<bool>, n: nat, k: K)
    requires n <= |calls| == |policy| == |more| && forall i :: 0 <= i < n && policy[i] ==> more[i]
    ensures |Taken(calls, policy, n, k)| <= |Taken(calls, more, n, k)|
  {
    if n > 0 {
      MoreAnswersTakeMore(calls, policy, more, n - 1, k);
    }
  }

  /** Allow is optimal: on the same calls with an ordered clock, a policy that keeps at most `limit`
      admissions in every window never lets through more calls of a key, at any point of the run.
      Only a limit of zero over a window of no length is no bound at all. */
  lemma AllowIsOptimal<K(!new)>(cfg: Config, start: int, calls: seq<Call<K>>, policy: seq<bool>, n: nat, k: K)
    requires n <= |calls| && Monotone(calls) && Feasible(cfg, calls, policy)
    requires cfg.window > 0 || cfg.limit != 0
    ensures |Taken(calls, policy, n, k)| <= |Taken(calls, Answers(cfg, start, calls), n, k)|
  {
    var greedy := Answers(cfg, start, calls);
    forall n | 0 <= n < |calls|
      ensures greedy[n] <==> HasRoom(cfg, calls, greedy, n, 0)
    {
      AnswerIsRoom(cfg, start, calls, n);
    }
    if cfg.window > 0 {
      GreedyIsAhead(cfg, calls, greedy, policy, n, k);
    } else {
      assert WindowHolds(cfg, calls, policy, k, 0);
      forall i | 0 <= i < n
        ensures greedy[i]
      {
        NoWindowHasRoom(cfg, calls, greedy, i);
      }
      MoreAnswersTakeMore(calls, policy, greedy, n, k);
    }
  }

  /** In that one case the limiter lets nothing through, and letting everything through is feasible. */
  lemma NoWindowIsNoBound<K(!new)>(cfg: Config, start: int, calls: seq<Call<K>>)
    requires |calls| == 1 && cfg.window <= 0 && cfg.limit == 0
    ensures Feasible(cfg, calls, [true])
    ensures |Taken(calls, Answers(cfg, start, calls), 1, calls[0].key)| < |Taken(calls, [true], 1, calls[0].key)|
  {
    forall k, a
      ensures WindowHolds(cfg, calls, [true], k, a)
    {
      var ts := Taken(calls, [true], 1, k);
      CountEmptyUpTo(ts, a + 1, a + cfg.window, |ts|);
    }
    AnswerIsRoom(cfg, start, calls, 0);
    NoWindowHasRoom(cfg, calls, Answers(cfg, start, calls), 0);
    assert Taken(calls, [true], 0, calls[0].key) == [] == Taken(calls, Answers(cfg, start, calls), 0, calls[0].key);
  }

  /** The limiter's own answers are such a policy, so its admissions are the most possible. */
  lemma AnswersAreFeasible<K(!new)>(cfg: Config, start: int, calls: seq<Call<K>>)
    requires Monotone(calls) && cfg.limit >= 0
    ensures Feasible(cfg, calls, Answers(cfg, start, calls))
  {
    forall k, a
      ensures WindowHolds(cfg, calls, Answers(cfg, start, calls), k, a)
    {
      WindowBound(cfg, start, calls, k, 0, a + 1, a + cfg.window);
    }
  }

  // ---- The limiter of the public handlers ----

  /** Ten calls in fifteen minutes, with a sweep every five. */
  const PUBLIC_LIMIT := Config(10, 900_000_000_000, 300_000_000_000)

  /** With an ordered clock no caller gets through more than ten times in any quarter of an hour, and a
      caller with fewer than ten admissions in the last quarter of an hour always does. */
  lemma TenInAQuarterHour<K>(start: int, calls: seq<Call<K>>, k: K, lo: int, n: nat)
    requires Monotone(calls) && n < |calls|
    ensures CountIn(Taken(calls, Answers(PUBLIC_LIMIT, start, calls), |calls|, k), lo, lo + 899_999_999_999) <= 10
    ensures |Fresh(PlainHistory(PUBLIC_LIMIT, calls, n, calls[n].key), calls[n].now - 900_000_000_000)| < 10 ==>
              Answer(PUBLIC_LIMIT, start, calls, n)
  {
    WindowBound(PUBLIC_LIMIT, start, calls, k, 0, lo, lo + 899_999_999_999);
    AnswerIsPlain(PUBLIC_LIMIT, start, calls, n);
  }

  // ---- The sweep ----

  ghost predicate AllFrom(ts: seq<int>, lo: int) {
    forall i :: 0 <= i < |ts| ==> lo <= ts[i]
  }

  lemma {:induction false} FreshIsRecent(ts: seq<int>, cutoff: int, lo: int, n: nat)
    requires n <= |ts|
    ensures AllFrom(FreshUpTo(ts, cutoff, n), cutoff)
    ensures AllFrom(ts, lo) ==> AllFrom(FreshUpTo(ts, cutoff, n), lo)
  {
    if n > 0 {
      FreshIsRecent(ts, cutoff, lo, n - 1);
    }
  }

  /** Sweeps follow the clock: the last one is never longer ago than the sweep interval. */
  lemma {:induction false} SweepsFollowClock<K>(cfg: Config, start: int, calls: seq<Call<K>>, n: nat)
    requires 0 < n <= |calls| && Monotone(calls) && cfg.sweepInt >= 0 && start <= calls[0].now
    ensures LastSweep(cfg, start, calls, n) <= calls[n - 1].now <= LastSweep(cfg, start, calls, n) + cfg.sweepInt
  {
    if n > 1 {
      SweepsFollowClock(cfg, start, calls, n - 1);
    }
  }

  lemma {:induction false} ListsSinceSweep<K>(cfg: Config, start: int, calls: seq<Call<K>>, n: nat, k: K)
    requires n <= |calls| && Monotone(calls) && cfg.sweepInt >= 0 && cfg.window >= 0
    requires n > 0 ==> start <= calls[0].now
    ensures AllFrom(ListAfter(cfg, start, calls, n, k), LastSweep(cfg, start, calls, n) - cfg.window)
    decreases n
  {
    if n > 0 {
      var now, lo := calls[n - 1].now, LastSweep(cfg, start, calls, n) - cfg.window;
      var list, swept := ListAfter(cfg, start, calls, n - 1, k), Swept(cfg, start, calls, n - 1, k);
      ListsSinceSweep(cfg, start, calls, n - 1, k);
      SweepsFollowClock(cfg, start, calls, n);
      FreshIsRecent(list, now - cfg.window, lo, |list|);
      assert AllFrom(swept, lo);
      FreshIsRecent(swept, now - cfg.window, lo, |swept|);
    }
  }

  /** Idle callers are forgotten: after any call, no list of any key keeps an entry older than one window
      and one sweep interval. */
  lemma IdleKeysAreForgotten<K>(cfg: Config, start: int, calls: seq<Call<K>>, n: nat, k: K, i: nat)
    requires 0 < n <= |calls| && Monotone(calls) && cfg.sweepInt >= 0 && cfg.window >= 0 && start <= calls[0].now
    requires i < |ListAfter(cfg, start, calls, n, k)|
    ensures calls[n - 1].now - cfg.window - cfg.sweepInt <= ListAfter(cfg, start, calls, n, k)[i]
  {
    SweepsFollowClock(cfg, start, calls, n);
    ListsSinceSweep(cfg, start, calls, n, k);
  }
}
