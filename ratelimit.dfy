/**
 * The per-user rate limit of api.py: `rate_limit_storage` keeps, for each
 * user, the timestamps of the requests admitted during the last minute,
 * and `check_rate_limit` admits a request while fewer than ten remain.
 * Timestamps are seconds since the epoch, as reals; the clock reading is
 * a parameter.
 */
module RateLimit {

  /** RATE_LIMIT_PER_MINUTE. */
  const RateLimitPerMinute: nat := 10

  /** The window of `check_rate_limit`: one minute, in seconds. */
  const WindowSeconds: real := 60.0

  /** The timestamps strictly newer than the cutoff, in their stored order. */
  function Recent(ts: seq<real>, cutoff: real): (r: seq<real>)
    ensures |r| <= |ts|
    ensures forall t :: t in r <==> t in ts && t > cutoff
  {
    if ts == [] then []
    else (if ts[0] > cutoff then [ts[0]] else []) + Recent(ts[1..], cutoff)
  }

  /** Filtering with a later cutoff after an earlier one is filtering with the later one. */
  lemma {:induction false} RecentTwice(ts: seq<real>, c1: real, c2: real)
    requires c1 <= c2
    ensures Recent(Recent(ts, c1), c2) == Recent(ts, c2)
  {
    if ts != [] {
      RecentTwice(ts[1..], c1, c2);
      var head := if ts[0] > c1 then [ts[0]] else [];
      RecentAppend(head, Recent(ts[1..], c1), c2);
      assert Recent(head, c2) == (if ts[0] > c2 then [ts[0]] else []) by {
        if ts[0] > c1 {
          assert head[1..] == [];
        }
      }
    }
  }

  /** Filtering distributes over concatenation. */
  lemma {:induction false} RecentAppend(a: seq<real>, b: seq<real>, cutoff: real)
    ensures Recent(a + b, cutoff) == Recent(a, cutoff) + Recent(b, cutoff)
  {
    if a != [] {
      assert (a + b)[1..] == a[1..] + b;
      RecentAppend(a[1..], b, cutoff);
    } else {
      assert a + b == b;
    }
  }

  /** A list whose every timestamp is newer than the cutoff survives the filter unchanged. */
  lemma {:induction false} RecentKeepsNewer(ts: seq<real>, cutoff: real)
    requires forall i :: 0 <= i < |ts| ==> ts[i] > cutoff
    ensures Recent(ts, cutoff) == ts
  {
    if ts != [] {
      RecentKeepsNewer(ts[1..], cutoff);
    }
  }

  /** The answer of one `check_rate_limit` call and the user's list afterwards. */
  datatype Decision = Decision(allowed: bool, entries: seq<real>)

  /**
   * One `check_rate_limit` call on the user's stored list (an absent user
   * has the empty list) at clock reading `now`: the entries older than a
   * minute are dropped; the request is refused when ten or more remain,
   * otherwise it is admitted and its time appended.
   */
  function Admit(entries: seq<real>, now: real): (d: Decision)
    ensures d.allowed <==> |Recent(entries, now - WindowSeconds)| < RateLimitPerMinute
    ensures forall t :: t in d.entries ==> now - WindowSeconds < t
    ensures d.allowed ==> 0 < |d.entries| <= RateLimitPerMinute && d.entries[|d.entries| - 1] == now
    ensures !d.allowed ==> |d.entries| >= RateLimitPerMinute
  {
    var kept := Recent(entries, now - WindowSeconds);
    if |kept| >= RateLimitPerMinute then Decision(false, kept)
    else Decision(true, kept + [now])
  }

  /** The clock readings of successive calls never go backwards. */
  predicate Nondecreasing(times: seq<real>)
  {
    forall i, j :: 0 <= i < j < |times| ==> times[i] <= times[j]
  }

  /** One user's list, the times of the admitted requests, and every answer, after a run of calls. */
  datatype Trace = Trace(storage: seq<real>, admitted: seq<real>, answers: seq<bool>)

  /** The calls of one user at the given clock readings, from an empty store. */
  function Replay(times: seq<real>): (t: Trace)
    ensures |t.answers| == |times|
  {
    if times == [] then Trace([], [], [])
    else
      var prev := Replay(times[..|times| - 1]);
      var now := times[|times| - 1];
      var d := Admit(prev.storage, now);
      Trace(d.entries, if d.allowed then prev.admitted + [now] else prev.admitted,
            prev.answers + [d.allowed])
  }

  /**
   * With a clock that never goes backwards, the stored list after each call
   * is exactly the admitted requests of the last minute, and it never holds
   * more than ten of them.
   */
  lemma {:induction false} ReplayStoresLastMinute(times: seq<real>)
    requires |times| > 0 && Nondecreasing(times)
    ensures Replay(times).storage == Recent(Replay(times).admitted, times[|times| - 1] - WindowSeconds)
    ensures |Replay(times).storage| <= RateLimitPerMinute
  {
    var init := times[..|times| - 1];
    var now := times[|times| - 1];
    var cutoff := now - WindowSeconds;
    var prev := Replay(init);
    var d := Admit(prev.storage, now);
    if |init| == 0 {
      assert prev.admitted == [];
    } else {
      assert Nondecreasing(init);
      ReplayStoresLastMinute(init);
      var before := init[|init| - 1] - WindowSeconds;
      assert before <= cutoff;
      RecentTwice(prev.admitted, before, cutoff);
    }
    assert Recent(prev.storage, cutoff) == Recent(prev.admitted, cutoff);
    if d.allowed {
      RecentAppend(prev.admitted, [now], cutoff);
      assert Recent([now], cutoff) == [now] by {
        RecentKeepsNewer([now], cutoff);
      }
    }
  }

  /**
   * The promise of `check_rate_limit`: at the moment of any call, at most
   * ten requests of the user were admitted during the minute before it,
   * and a call is admitted exactly when fewer than ten were.
   */
  lemma AtMostTenPerMinute(times: seq<real>)
    requires |times| > 0 && Nondecreasing(times)
    ensures |Recent(Replay(times).admitted, times[|times| - 1] - WindowSeconds)| <= RateLimitPerMinute
    ensures Replay(times).answers[|times| - 1] <==>
      |Recent(Replay(times[..|times| - 1]).admitted, times[|times| - 1] - WindowSeconds)| < RateLimitPerMinute
  {
    ReplayStoresLastMinute(times);
    var init := times[..|times| - 1];
    var now := times[|times| - 1];
    var cutoff := now - WindowSeconds;
    var prev := Replay(init);
    if |init| == 0 {
      assert prev.admitted == [] && prev.storage == [];
    } else {
      assert Nondecreasing(init);
      ReplayStoresLastMinute(init);
      RecentTwice(prev.admitted, init[|init| - 1] - WindowSeconds, cutoff);
    }
  }

  /** `rate_limit_storage`, the in-memory dictionary from user id to timestamps. */
  class RateLimiter {
    var storage: map<int, seq<real>>

    /** Every user's list holds at most ten timestamps. */
    ghost predicate WithinLimit()
      reads this
    {
      forall u :: u in storage ==> |storage[u]| <= RateLimitPerMinute
    }

    /** The list a user has before a call: the stored one, or the empty one when absent. */
    function EntriesOf(userId: int): seq<real>
      reads this
    {
      if userId in storage then storage[userId] else []
    }

    /** The empty dictionary of a freshly started server. */
    constructor ()
      ensures storage == map[]
      ensures WithinLimit()
    {
      storage := map[];
    }

    /**
     * `check_rate_limit(user_id)` at clock reading `now`: only this user's
     * entry changes, to the list Admit computes, and the answer is Admit's;
     * the bound of ten per user is kept.
     */
    method CheckRateLimit(userId: int, now: real) returns (allowed: bool)
      modifies this
      ensures allowed == Admit(old(EntriesOf(userId)), now).allowed
      ensures storage == old(storage)[userId := Admit(old(EntriesOf(userId)), now).entries]
      ensures old(WithinLimit()) ==> WithinLimit()
    {
      var minuteAgo := now - WindowSeconds;
      if userId in storage {
        storage := storage[userId := Recent(storage[userId], minuteAgo)];
      } else {
        storage := storage[userId := []];
      }
      if |storage[userId]| >= RateLimitPerMinute {
        return false;
      }
      storage := storage[userId := storage[userId] + [now]];
      return true;
    }
  }
}
