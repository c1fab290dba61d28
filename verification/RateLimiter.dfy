/** ipRateLimiter with its map of slices: a slice is a backing array and a length, compaction
    writes into the same backing array, and an append allocates only when the array is full.
    The mutex makes each call one step; the clock reading is a parameter because it is taken
    before the lock, so readings may reach the lock out of order. */
module RateLimiter {
  import opened LimiterSpec
  import opened LimiterTheorems

  datatype Slice = Slice(buf: array<int>, len: nat)

  /** Go's `kept := ts[:0]` loop: keep the later entries at the front of the same array. */
  method Compact(s: Slice, cutoff: int) returns (kept: Slice)
    requires s.len <= s.buf.Length
    modifies s.buf
    ensures kept.buf == s.buf && kept.len <= s.len
    ensures s.buf[..kept.len] == Fresh(old(s.buf[..s.len]), cutoff)
  {
    var n := 0;
    ghost var was, front := s.buf[..s.len], [];
    for i := 0 to s.len
      invariant n == |front| <= i && front == Fresh(was[..i], cutoff)
      invariant forall j :: 0 <= j < n ==> s.buf[j] == front[j]
      invariant forall j :: i <= j < s.len ==> s.buf[j] == was[j]
    {
      var t := s.buf[i];
      FreshPush(was[..i], t, cutoff);
      assert was[..i + 1] == was[..i] + [t];
      if t > cutoff {
        s.buf[n] := t;
        n, front := n + 1, front + [t];
      }
    }
    assert was[..s.len] == was;
    kept := Slice(s.buf, n);
  }

  /** Go's `append`: in place while there is capacity, otherwise into a new, larger array. */
  method Append(s: Slice, t: int) returns (r: Slice)
    requires s.len <= s.buf.Length
    modifies s.buf
    ensures r.buf == s.buf || fresh(r.buf)
    ensures r.len == s.len + 1 <= r.buf.Length
    ensures r.buf[..r.len] == old(s.buf[..s.len]) + [t]
  {
    var buf := s.buf;
    if s.len == s.buf.Length {
      buf := new int[2 * s.len + 1];
      for i := 0 to s.len
        invariant forall j :: 0 <= j < i ==> buf[j] == s.buf[j]
        invariant s.buf[..] == old(s.buf[..])
      {
        buf[i] := s.buf[i];
      }
    }
    buf[s.len] := t;
    r := Slice(buf, s.len + 1);
    assert buf[..s.len] == old(s.buf[..s.len]);
    assert buf[..r.len] == buf[..s.len] + [t];
  }

  /** An absent key reads as an empty list. */
  ghost function ListOf<K>(m: map<K, seq<int>>, k: K): seq<int> {
    if k in m then m[k] else []
  }

  ghost function WithSwept<K>(m: map<K, seq<int>>, key: K, cutoff: int): map<K, seq<int>>
    requires key in m
  {
    var kept := Fresh(m[key], cutoff);
    if kept == [] then m - {key} else m[key := kept]
  }

  ghost function WithHit<K>(cfg: Config, m: map<K, seq<int>>, key: K, now: int): map<K, seq<int>> {
    m[key := HitList(cfg, ListOf(m, key), now)]
  }

  /** What happens to one list does not depend on what its key held when the others are known. */
  lemma SameSwept<K>(was: map<K, seq<int>>, mid: map<K, seq<int>>, key: K, cutoff: int)
    requires key in was && mid.Keys == was.Keys && forall k :: k in was && k != key ==> mid[k] == was[k]
    ensures WithSwept(was, key, cutoff) ==
            if Fresh(was[key], cutoff) == [] then mid - {key} else mid[key := Fresh(was[key], cutoff)]
  {
  }

  lemma SameHit<K>(cfg: Config, was: map<K, seq<int>>, mid: map<K, seq<int>>, key: K, now: int)
    requires mid.Keys == was.Keys && forall k :: k in was && k != key ==> mid[k] == was[k]
    ensures WithHit(cfg, was, key, now) == mid[key := HitList(cfg, ListOf(was, key), now)]
  {
  }

  /** Every key has the backing array it had. */
  ghost predicate OwnArrays<K(!new)>(hits: map<K, Slice>, was: map<K, Slice>) {
    forall k :: k in hits ==> k in was && hits[k].buf == was[k].buf
  }

  /** The keys not in `keys` have been swept: their lists are compacted, the empty ones deleted. */
  ghost predicate PartlySwept<K(!new)>(was: map<K, seq<int>>, m: map<K, seq<int>>, keys: set<K>, cutoff: int) {
    && keys <= m.Keys
    && (forall k :: ListOf(m, k) == if k in keys then ListOf(was, k) else Fresh(ListOf(was, k), cutoff))
    && (forall k :: k in m && k !in keys ==> m[k] != [])
  }

  /** What a call finds: every list swept when a sweep was due, and nothing changed otherwise. */
  ghost predicate SweepResult<K(!new)>(cfg: Config, was: map<K, seq<int>>, m: map<K, seq<int>>, due: bool, now: int) {
    && (forall k :: ListOf(m, k) == SweepList(cfg, ListOf(was, k), due, now))
    && (due ==> forall k :: k in m ==> m[k] != [])
  }

  lemma OneMoreSwept<K(!new)>(was: map<K, seq<int>>, m: map<K, seq<int>>, keys: set<K>, key: K, cutoff: int)
    requires key in keys && PartlySwept(was, m, keys, cutoff)
    ensures PartlySwept(was, WithSwept(m, key, cutoff), keys - {key}, cutoff)
  {
    var m' := WithSwept(m, key, cutoff);
    forall k
      ensures ListOf(m', k) == if k in keys - {key} then ListOf(was, k) else Fresh(ListOf(was, k), cutoff)
    {
      assert ListOf(m, k) == if k in keys then ListOf(was, k) else Fresh(ListOf(was, k), cutoff);
    }
  }

  /** Go's map from keys to slices. */
  class HitTable<K(==,!new)> {
    var hits: map<K, Slice>

    constructor ()
      ensures hits == map[]
    {
      hits := map[];
    }

    ghost function Buffers(): set<array<int>>
      reads this
    {
      set k | k in hits :: hits[k].buf
    }

    /** Every length fits its array, and no two keys share a backing array. */
    ghost predicate Separated()
      reads this
    {
      && (forall k :: k in hits ==> hits[k].len <= hits[k].buf.Length)
      && (forall k, k' :: k in hits && k' in hits && k != k' ==> hits[k].buf != hits[k'].buf)
    }

    /** What the slices hold, key by key. */
    ghost function Lists(): (m: map<K, seq<int>>)
      requires Separated()
      reads this, Buffers()
    {
      map k | k in hits :: hits[k].buf[..hits[k].len]
    }

    /** The periodic sweep: compact every list and delete the keys left empty. */
    method Sweep(cutoff: int)
      requires Separated()
      modifies this, Buffers()
      ensures Separated() && OwnArrays(hits, old(hits))
      ensures PartlySwept(old(Lists()), Lists(), {}, cutoff)
    {
      var keys := hits.Keys;
      ghost var was := Lists();
      while keys != {}
        invariant Separated() && OwnArrays(hits, old(hits))
        invariant PartlySwept(was, Lists(), keys, cutoff)
      {
        var k :| k in keys;
        OneMoreSwept(was, Lists(), keys, k, cutoff);
        SweepKey(k, cutoff);
        keys := keys - {k};
      }
    }

    /** Writing into the backing array of one key leaves what every other key holds. */
    twostate lemma OtherListsStay(key: K)
      requires old(Separated()) && hits == old(hits)
      requires forall b :: b in old(Buffers()) && (key in hits ==> b != hits[key].buf) ==> b[..] == old(b[..])
      ensures Separated() && Lists().Keys == old(Lists()).Keys
      ensures forall k :: k in hits && k != key ==> Lists()[k] == old(Lists())[k]
    {
      forall k | k in hits && k != key
        ensures Lists()[k] == old(Lists())[k]
      {
        var s := hits[k];
        assert s.buf in old(Buffers()) && s.buf[..] == old(s.buf[..]);
        assert s.buf[..s.len] == s.buf[..][..s.len];
        assert old(s.buf[..s.len]) == old(s.buf[..])[..s.len];
      }
    }

    /** Setting one key's slice, in an array that no other key uses. */
    method Put(key: K, s: Slice)
      requires Separated() && s.len <= s.buf.Length
      requires forall k :: k in hits && k != key ==> hits[k].buf != s.buf
      modifies this
      ensures Separated() && hits == old(hits)[key := s]
      ensures Lists() == old(Lists())[key := s.buf[..s.len]]
    {
      hits := hits[key := s];
    }

    method Drop(key: K)
      requires Separated()
      modifies this
      ensures Separated() && hits == old(hits) - {key}
      ensures Lists() == old(Lists()) - {key}
    {
      hits := hits - {key};
    }

    method SweepKey(key: K, cutoff: int)
      requires Separated() && key in hits
      modifies this, hits[key].buf
      ensures Separated() && OwnArrays(hits, old(hits))
      ensures Lists() == WithSwept(old(Lists()), key, cutoff)
    {
      ghost var was := Lists();
      var kept := Compact(hits[key], cutoff);
      OtherListsStay(key);
      SameSwept(was, Lists(), key, cutoff);
      if kept.len == 0 {
        Drop(key);
      } else {
        Put(key, kept);
      }
    }

    /** The part of Allow after the sweep. */
    method Hit(cfg: Config, key: K, now: int) returns (ok: bool)
      requires Separated()
      modifies this, Buffers()
      ensures Separated()
      ensures forall b :: b in Buffers() ==> b in old(Buffers()) || fresh(b)
      ensures ok <==> Admits(cfg, ListOf(old(Lists()), key), now)
      ensures Lists() == WithHit(cfg, old(Lists()), key, now)
    {
      var ts := Slot(key);
      ghost var was := Lists();
      var kept;
      ok, kept := HitSlice(cfg, ts, now);
      OtherListsStay(key);
      SameHit(cfg, was, Lists(), key, now);
      Put(key, kept);
    }

    /** The body of Allow: sweep when one is due, then the hit; `swept` is what the hit finds. */
    method Touch(cfg: Config, key: K, due: bool, now: int) returns (ok: bool, ghost swept: map<K, seq<int>>)
      requires Separated()
      modifies this, Buffers()
      ensures Separated()
      ensures forall b :: b in Buffers() ==> b in old(Buffers()) || fresh(b)
      ensures SweepResult(cfg, old(Lists()), swept, due, now)
      ensures ok <==> Admits(cfg, ListOf(swept, key), now)
      ensures Lists() == WithHit(cfg, swept, key, now)
    {
      if due {
        Sweep(now - cfg.window);
      }
      swept := Lists();
      ok := Hit(cfg, key, now);
    }

    /** Reading a missing key yields an empty slice. */
    method Slot(key: K) returns (ts: Slice)
      requires Separated()
      ensures ts.len <= ts.buf.Length && ts.buf[..ts.len] == ListOf(Lists(), key)
      ensures if key in hits then ts == hits[key] else fresh(ts.buf)
    {
      if key in hits {
        ts := hits[key];
      } else {
        var empty := new int[0];
        ts := Slice(empty, 0);
      }
    }
  }

  /** Compact one list and, below the limit, append the new time to it. */
  method HitSlice(cfg: Config, ts: Slice, now: int) returns (ok: bool, kept: Slice)
    requires ts.len <= ts.buf.Length
    modifies ts.buf
    ensures kept.len <= kept.buf.Length && (kept.buf == ts.buf || fresh(kept.buf))
    ensures ok <==> Admits(cfg, old(ts.buf[..ts.len]), now)
    ensures kept.buf[..kept.len] == HitList(cfg, old(ts.buf[..ts.len]), now)
  {
    kept := Compact(ts, now - cfg.window);
    ok := kept.len < cfg.limit;
    if ok {
      kept := Append(kept, now);
    }
  }

  /** The limiter's fields are those of the run of `calls`. */
  ghost predicate InRun<K(!new)>(cfg: Config, start: int, calls: seq<Call<K>>, lastSwp: int, m: map<K, seq<int>>) {
    && lastSwp == LastSweep(cfg, start, calls, |calls|)
    && forall k :: ListInRun(cfg, start, calls, m, k)
  }

  ghost predicate ListInRun<K>(cfg: Config, start: int, calls: seq<Call<K>>, m: map<K, seq<int>>, k: K) {
    ListOf(m, k) == ListAfter(cfg, start, calls, |calls|, k)
  }

  /** What the sweep and the call do to one list is what the run does to it. */
  lemma OneMoreAt<K>(cfg: Config, start: int, calls: seq<Call<K>>, call: Call<K>, list: seq<int>, k: K)
    requires list == ListAfter(cfg, start, calls, |calls|, k)
    ensures var more, due := calls + [call], call.now - LastSweep(cfg, start, calls, |calls|) > cfg.sweepInt;
            var swept := SweepList(cfg, list, due, call.now);
            && LastSweep(cfg, start, more, |more|) == (if due then call.now else LastSweep(cfg, start, calls, |calls|))
            && Swept(cfg, start, more, |calls|, k) == swept
            && ListAfter(cfg, start, more, |more|, k) == if call.key == k then HitList(cfg, swept, call.now) else swept
  {
    RunIsPrefixOnly(cfg, start, calls, calls + [call], |calls|, k);
  }

  /** What a call finds and what it leaves take the run one call further. */
  lemma OneMoreCall<K(!new)>(cfg: Config, start: int, calls: seq<Call<K>>, call: Call<K>, lastSwp: int,
                             was: map<K, seq<int>>, due: bool, swept: map<K, seq<int>>)
    requires InRun(cfg, start, calls, lastSwp, was)
    requires due <==> call.now - lastSwp > cfg.sweepInt
    requires SweepResult(cfg, was, swept, due, call.now)
    ensures Admits(cfg, ListOf(swept, call.key), call.now) <==> Answer(cfg, start, calls + [call], |calls|)
    ensures InRun(cfg, start, calls + [call], if due then call.now else lastSwp,
                  WithHit(cfg, swept, call.key, call.now))
  {
    assert ListInRun(cfg, start, calls, was, call.key);
    OneMoreAt(cfg, start, calls, call, ListOf(was, call.key), call.key);
    forall k
      ensures ListInRun(cfg, start, calls + [call], WithHit(cfg, swept, call.key, call.now), k)
    {
      assert ListInRun(cfg, start, calls, was, k);
      OneMoreAt(cfg, start, calls, call, ListOf(was, k), k);
    }
  }

  /** The limiter over any kind of key; the service uses strings. */
  class IpRateLimiter<K(==,!new)> {
    const cfg: Config
    const table: HitTable<K>
    var lastSwp: int
    ghost const start: int
    ghost var calls: seq<Call<K>> // every call so far, in lock order

    ghost predicate Valid()
      reads this, table, table.Buffers()
    {
      table.Separated() && InRun(cfg, start, calls, lastSwp, table.Lists())
    }

    constructor (limit: int, window: int, now: int)
      ensures Valid() && fresh(table) && calls == [] && start == now
      ensures cfg == Config(limit, window, 5 * 60 * 1_000_000_000)
    {
      cfg := Config(limit, window, 5 * 60 * 1_000_000_000);
      table := new HitTable();
      lastSwp := now;
      start := now;
      calls := [];
    }

    method Allow(key: K, now: int) returns (ok: bool)
      requires Valid()
      modifies this, table, table.Buffers()
      ensures Valid() && calls == old(calls) + [Call(key, now)]
      ensures ok <==> Answer(cfg, start, calls, |old(calls)|)
      ensures forall b :: b in table.Buffers() ==> b in old(table.Buffers()) || fresh(b)
      ensures now - old(lastSwp) > cfg.sweepInt ==>
                forall k :: k in table.hits && k != key ==> ListOf(table.Lists(), k) != []
    {
      var due := now - lastSwp > cfg.sweepInt;
      ghost var was, swept := table.Lists(), map[];
      ok, swept := table.Touch(cfg, key, due, now);
      ghost var after := table.Lists();
      OneMoreCall(cfg, start, calls, Call(key, now), lastSwp, was, due, swept);
      if due {
        lastSwp := now;
      }
      calls := calls + [Call(key, now)];
      assert table.Lists() == after;
    }
  }

  method NewPublicLimiter(now: int) returns (limiter: IpRateLimiter<string>)
    ensures limiter.Valid() && fresh(limiter) && limiter.calls == [] && limiter.start == now
    ensures limiter.cfg == PUBLIC_LIMIT
  {
    limiter := new IpRateLimiter(10, 15 * 60 * 1_000_000_000, now);
  }

  /** The key of a caller: an empty address counts as one shared caller. */
  method AllowIp(limiter: IpRateLimiter<string>, ip: string, now: int) returns (ok: bool)
    requires limiter.Valid()
    modifies limiter, limiter.table, limiter.table.Buffers()
    ensures limiter.Valid()
    ensures limiter.calls == old(limiter.calls) + [Call(if ip == "" then "unknown" else ip, now)]
    ensures ok <==> Answer(limiter.cfg, limiter.start, limiter.calls, |old(limiter.calls)|)
  {
    ok := limiter.Allow(if ip == "" then "unknown" else ip, now);
  }
}
