/** `rateLimit(key, limit, windowMs, now)`: a fixed-window counter per key, kept in a map
    that lives as long as the process. A key's window opens on its first call (or the first
    call at or after the window's end) and counts every call until the window ends; the
    count is never clamped. */
module RateLimit {
  import opened Common

  datatype Entry = Entry(count: int, resetAt: int)

  datatype Decision = Decision(ok: bool, remaining: int, resetAt: int)

  function Max(a: int, b: int): int { if a >= b then a else b }

  /** One call's decision and the entry it leaves for the key, given the key's entry. */
  function Step(existing: Option<Entry>, limit: int, windowMs: int, now: int): (r: (Decision, Entry))
    ensures existing.None? || now >= existing.value.resetAt ==>
              r.1 == Entry(1, now + windowMs) && r.0.ok && r.0.resetAt == now + windowMs
    ensures existing.Some? && now < existing.value.resetAt ==>
              && r.1 == Entry(existing.value.count + 1, existing.value.resetAt)
              && r.0.resetAt == existing.value.resetAt
              && (r.0.ok <==> r.1.count <= limit)
    ensures r.0.remaining == Max(0, limit - r.1.count) && r.0.remaining >= 0
    ensures r.0.resetAt == r.1.resetAt
    ensures windowMs > 0 ==> r.0.resetAt > now
  {
    if existing.None? || now >= existing.value.resetAt then
      (Decision(true, Max(0, limit - 1), now + windowMs), Entry(1, now + windowMs))
    else
      var count := existing.value.count + 1;
      (Decision(count <= limit, Max(0, limit - count), existing.value.resetAt),
       Entry(count, existing.value.resetAt))
  }

  function Lookup(store: map<string, Entry>, key: string): Option<Entry>
  {
    if key in store then Some(store[key]) else None
  }

  class RateLimiter {
    var store: map<string, Entry>

    constructor()
      ensures store == map[]
    {
      store := map[];
    }

    /** `rateLimit(key, limit, windowMs, now)`: writes the entry of `key` and nothing else. */
    method Check(key: string, limit: int, windowMs: int, now: int) returns (d: Decision)
      modifies this
      ensures d == Step(Lookup(old(store), key), limit, windowMs, now).0
      ensures store == old(store)[key := Step(Lookup(old(store), key), limit, windowMs, now).1]
    {
      if key !in store || now >= store[key].resetAt {
        var resetAt := now + windowMs;
        store := store[key := Entry(1, resetAt)];
        return Decision(true, Max(0, limit - 1), resetAt);
      }
      var existing := store[key];
      var count := existing.count + 1;
      existing := existing.(count := count);
      store := store[key := existing];
      var remaining := Max(0, limit - count);
      return Decision(count <= limit, remaining, existing.resetAt);
    }
  }

  /** The decisions of successive calls with one key at the times `nows`. */
  function Run(e: Option<Entry>, limit: int, windowMs: int, nows: seq<int>): (ds: seq<Decision>)
    ensures |ds| == |nows|
    decreases |nows|
  {
    if nows == [] then []
    else
      var step := Step(e, limit, windowMs, nows[0]);
      [step.0] + Run(Some(step.1), limit, windowMs, nows[1..])
  }

  /** Calls that keep inside an open window each add one to its count. */
  lemma {:induction false} RunInsideWindow(count: int, resetAt: int, limit: int, windowMs: int, nows: seq<int>)
    requires forall i :: 0 <= i < |nows| ==> nows[i] < resetAt
    ensures forall i :: 0 <= i < |nows| ==>
              Run(Some(Entry(count, resetAt)), limit, windowMs, nows)[i]
                == Decision(count + i + 1 <= limit, Max(0, limit - (count + i + 1)), resetAt)
    decreases |nows|
  {
    if nows != [] {
      RunInsideWindow(count + 1, resetAt, limit, windowMs, nows[1..]);
      var ds := Run(Some(Entry(count, resetAt)), limit, windowMs, nows);
      var rest := Run(Some(Entry(count + 1, resetAt)), limit, windowMs, nows[1..]);
      assert ds == [Decision(count + 1 <= limit, Max(0, limit - (count + 1)), resetAt)] + rest;
      forall i | 1 <= i < |ds|
        ensures ds[i] == Decision(count + i + 1 <= limit, Max(0, limit - (count + i + 1)), resetAt)
      {
        assert ds[i] == rest[i - 1];
      }
    }
  }

  /** In one window opened by the first call, with limit L, call i (from 0) is accepted
      exactly when i < L, with L - 1 - i calls remaining (never below 0); so the first L
      calls pass with L-1, …, 0 remaining and every later one in the window is refused. */
  lemma WindowAdmitsLimit(e: Option<Entry>, limit: int, windowMs: int, nows: seq<int>)
    requires |nows| >= 1 && (e.None? || nows[0] >= e.value.resetAt)
    requires forall i :: 0 <= i < |nows| ==> nows[i] < nows[0] + windowMs
    ensures var ds := Run(e, limit, windowMs, nows);
            forall i :: 0 <= i < |ds| ==>
              && (ds[i].ok <==> i < limit || i == 0)
              && ds[i].remaining == Max(0, limit - 1 - i)
              && ds[i].resetAt == nows[0] + windowMs
  {
    var ds := Run(e, limit, windowMs, nows);
    var rest := Run(Some(Entry(1, nows[0] + windowMs)), limit, windowMs, nows[1..]);
    assert ds == [Decision(true, Max(0, limit - 1), nows[0] + windowMs)] + rest;
    RunInsideWindow(1, nows[0] + windowMs, limit, windowMs, nows[1..]);
    forall i | 1 <= i < |ds|
      ensures && (ds[i].ok <==> i < limit || i == 0)
              && ds[i].remaining == Max(0, limit - 1 - i)
              && ds[i].resetAt == nows[0] + windowMs
    {
      assert ds[i] == rest[i - 1];
    }
  }
}
