/**
 * The broker's token bucket, one per session, driven by a clock that is not
 * trusted to move forward. Times are in milliseconds.
 */
module RateLimit {
  import opened Wrappers

  datatype Limit = Limit(capacity: real, refillPerSec: real)

  datatype Bucket = Bucket(tokens: real, last: real)

  /** The tokens refilled between two times; negative when the clock went back. */
  function Gain(from: real, to: real, limit: Limit): real {
    (to - from) / 1000.0 * limit.refillPerSec
  }

  function Refilled(b: Bucket, now: real, limit: Limit): real {
    var tokens := b.tokens + Gain(b.last, now, limit);
    if tokens < limit.capacity then tokens else limit.capacity
  }

  predicate Grants(b: Bucket, now: real, limit: Limit) {
    Refilled(b, now, limit) >= 1.0
  }

  function Spent(b: Bucket, now: real, limit: Limit): Bucket {
    Bucket(Refilled(b, now, limit) - (if Grants(b, now, limit) then 1.0 else 0.0), now)
  }

  /** The bucket of a session registered at `start`, after calls at the given times. */
  function After(start: real, calls: seq<real>, limit: Limit): Bucket {
    if calls == [] then Bucket(limit.capacity, start)
    else Spent(After(start, calls[..|calls| - 1], limit), calls[|calls| - 1], limit)
  }

  predicate Granted(start: real, calls: seq<real>, k: nat, limit: Limit)
    requires k < |calls|
  {
    Grants(After(start, calls[..k], limit), calls[k], limit)
  }

  /** How many of the calls from `i` on, up to but not including `j`, were granted. */
  function GrantCount(start: real, calls: seq<real>, i: nat, j: nat, limit: Limit): nat
    requires i <= j <= |calls|
    decreases j
  {
    if i == j then 0
    else GrantCount(start, calls, i, j - 1, limit) + if Granted(start, calls, j - 1, limit) then 1 else 0
  }

  /** When the bucket was last filled: at the call before, or at registration. */
  function LastTime(start: real, calls: seq<real>, i: nat): real
    requires i <= |calls|
  {
    if i == 0 then start else calls[i - 1]
  }

  lemma {:induction false} NeverOverfull(start: real, calls: seq<real>, limit: Limit)
    ensures After(start, calls, limit).tokens <= limit.capacity
    ensures After(start, calls, limit).last == LastTime(start, calls, |calls|)
  {
    if calls != [] {
      NeverOverfull(start, calls[..|calls| - 1], limit);
    }
  }

  lemma GainsAdd(a: real, b: real, c: real, limit: Limit)
    ensures Gain(a, b, limit) + Gain(b, c, limit) == Gain(a, c, limit)
  {
    var r := limit.refillPerSec;
    assert (c - a) / 1000.0 == (b - a) / 1000.0 + (c - b) / 1000.0;
  }

  lemma GainForward(a: real, b: real, limit: Limit)
    requires a <= b && limit.refillPerSec >= 0.0
    ensures Gain(a, b, limit) >= 0.0
  {
  }

  /** Every grant is paid for: tokens at `j` are at most those at `i`, refilled, less the grants between. */
  lemma {:induction false} GrantsArePaid(start: real, calls: seq<real>, i: nat, j: nat, limit: Limit)
    requires i <= j <= |calls|
    ensures After(start, calls[..j], limit).tokens + GrantCount(start, calls, i, j, limit) as real <=
            After(start, calls[..i], limit).tokens + Gain(LastTime(start, calls, i), LastTime(start, calls, j), limit)
    decreases j
  {
    if i < j {
      GrantsArePaid(start, calls, i, j - 1, limit);
      assert calls[..j][..j - 1] == calls[..j - 1];
      NeverOverfull(start, calls[..j - 1], limit);
      GainsAdd(LastTime(start, calls, i), LastTime(start, calls, j - 1), calls[j - 1], limit);
      hide Gain;
      var before := After(start, calls[..j - 1], limit);
      assert After(start, calls[..j], limit) == Spent(before, calls[j - 1], limit);
      assert before.last == LastTime(start, calls, j - 1);
    } else {
      NoTime(LastTime(start, calls, i), limit);
    }
  }

  lemma NoTime(t: real, limit: Limit)
    ensures Gain(t, t, limit) == 0.0
  {
  }

  lemma {:induction false} CountSplits(start: real, calls: seq<real>, i: nat, j: nat, k: nat, limit: Limit)
    requires i <= j <= k <= |calls|
    ensures GrantCount(start, calls, i, k, limit) ==
            GrantCount(start, calls, i, j, limit) + GrantCount(start, calls, j, k, limit)
    decreases k
  {
    hide Granted;
    if j < k {
      CountSplits(start, calls, i, j, k - 1, limit);
    }
  }

  /** What the calls from `i` up to but not including `j` may be granted at most, by the clock's own account. */
  function Allowance(calls: seq<real>, i: nat, j: nat, limit: Limit): real
    requires i < j <= |calls|
  {
    limit.capacity + Gain(calls[i], calls[j - 1], limit)
  }

  /** A call leaves no more than the capacity, less its own grant. */
  lemma LeftAfter(start: real, calls: seq<real>, i: nat, limit: Limit)
    requires i < |calls|
    ensures After(start, calls[..i + 1], limit).tokens + GrantCount(start, calls, i, i + 1, limit) as real <= limit.capacity
  {
    assert calls[..i + 1][..i] == calls[..i];
    assert GrantCount(start, calls, i, i, limit) == 0;
    hide Gain;
  }

  /**
   * From any call up to a granted one, grants never exceed the capacity plus the refill of
   * the time between the two, whatever the clock did in between.
   */
  lemma GrantedWithinRate(start: real, calls: seq<real>, i: nat, j: nat, limit: Limit)
    requires i < j <= |calls| && Granted(start, calls, j - 1, limit)
    ensures GrantCount(start, calls, i, j, limit) as real <= Allowance(calls, i, j, limit)
  {
    hide Gain;
    LeftAfter(start, calls, i, limit);
    GrantsArePaid(start, calls, i + 1, j, limit);
    CountSplits(start, calls, i, i + 1, j, limit);
    assert calls[..j][..j - 1] == calls[..j - 1];
  }

  /** The call at `k` is the last one granted before `j`. */
  predicate LastGrant(start: real, calls: seq<real>, k: nat, j: nat, limit: Limit)
    requires k < j <= |calls|
  {
    Granted(start, calls, k, limit) && GrantCount(start, calls, k + 1, j, limit) == 0
  }

  /**
   * Up to a refused call the bound fails exactly if, since the last grant, the clock has
   * gone back by more than that grant left unused of its own allowance; without any grant
   * since `i`, exactly if it has gone back by more than the whole capacity.
   */
  lemma RefusedBeyondRate(start: real, calls: seq<real>, i: nat, k: nat, j: nat, limit: Limit)
    requires i <= k < j <= |calls| && LastGrant(start, calls, k, j, limit)
    ensures GrantCount(start, calls, i, j, limit) == GrantCount(start, calls, i, k + 1, limit)
    ensures var unused := Allowance(calls, i, k + 1, limit) - GrantCount(start, calls, i, k + 1, limit) as real;
            && unused >= 0.0
            && (GrantCount(start, calls, i, j, limit) as real > Allowance(calls, i, j, limit) <==>
                Gain(calls[j - 1], calls[k], limit) > unused)
  {
    hide Gain, Granted;
    CountSplits(start, calls, i, k + 1, j, limit);
    GrantedWithinRate(start, calls, i, k + 1, limit);
    GainsAdd(calls[i], calls[j - 1], calls[k], limit);
  }

  lemma NoGrantBeyondRate(start: real, calls: seq<real>, i: nat, j: nat, limit: Limit)
    requires i < j <= |calls| && GrantCount(start, calls, i, j, limit) == 0
    ensures GrantCount(start, calls, i, j, limit) as real > Allowance(calls, i, j, limit) <==>
            Gain(calls[j - 1], calls[i], limit) > limit.capacity
  {
    hide Gain;
    GainsAdd(calls[i], calls[j - 1], calls[i], limit);
    NoTime(calls[i], limit);
  }

  /** The last call granted before `j`, if any was from `i` on. */
  lemma {:induction false} FindLastGrant(start: real, calls: seq<real>, i: nat, j: nat, limit: Limit) returns (k: nat)
    requires i < j <= |calls| && GrantCount(start, calls, i, j, limit) > 0
    ensures i <= k < j && LastGrant(start, calls, k, j, limit)
    decreases j
  {
    hide Granted;
    if Granted(start, calls, j - 1, limit) {
      k := j - 1;
      assert GrantCount(start, calls, j, j, limit) == 0;
    } else {
      k := FindLastGrant(start, calls, i, j - 1, limit);
    }
  }

  /**
   * The bound holds up to every call that does not come before the last granted one, by
   * its time: only a refused call to which the clock has gone back can break it.
   */
  lemma OnlyGoingBackBreaks(start: real, calls: seq<real>, i: nat, j: nat, limit: Limit)
    requires i < j <= |calls| && limit.refillPerSec >= 0.0 && limit.capacity >= 0.0
    requires forall k :: i <= k < j - 1 && Granted(start, calls, k, limit) ==> calls[k] <= calls[j - 1]
    requires calls[i] <= calls[j - 1]
    ensures GrantCount(start, calls, i, j, limit) as real <= Allowance(calls, i, j, limit)
  {
    hide Gain, Granted;
    GainForward(calls[i], calls[j - 1], limit);
    if GrantCount(start, calls, i, j, limit) > 0 {
      var k := FindLastGrant(start, calls, i, j, limit);
      RefusedBeyondRate(start, calls, i, k, j, limit);
      GainForward(calls[k], calls[j - 1], limit);
      GainsAdd(calls[k], calls[j - 1], calls[k], limit);
      NoTime(calls[k], limit);
    }
  }

  predicate Forward(start: real, calls: seq<real>) {
    forall k :: 0 <= k < |calls| ==> LastTime(start, calls, k) <= calls[k]
  }

  lemma {:induction false} ForwardOrder(start: real, calls: seq<real>, i: nat, j: nat)
    requires Forward(start, calls) && i <= j < |calls|
    ensures calls[i] <= calls[j]
    decreases j
  {
    if i < j {
      ForwardOrder(start, calls, i, j - 1);
      assert LastTime(start, calls, j) <= calls[j];
    }
  }

  /** Granted calls with a time in the window. */
  function GrantedIn(start: real, calls: seq<real>, n: nat, a: real, b: real, limit: Limit): nat
    requires n <= |calls|
  {
    if n == 0 then 0
    else GrantedIn(start, calls, n - 1, a, b, limit) +
         if a <= calls[n - 1] <= b && Granted(start, calls, n - 1, limit) then 1 else 0
  }

  /** If the window opens at the call `i`, it holds the grants from there on. */
  lemma {:induction false} GrantedFrom(start: real, calls: seq<real>, i: nat, n: nat, a: real, b: real, limit: Limit)
    requires i <= n <= |calls|
    requires forall k :: 0 <= k < i ==> calls[k] < a
    requires forall k :: i <= k < n ==> a <= calls[k] <= b
    ensures GrantedIn(start, calls, n, a, b, limit) == GrantCount(start, calls, i, n, limit)
    decreases n
  {
    hide Granted;
    if n > i {
      GrantedFrom(start, calls, i, n - 1, a, b, limit);
    } else if n > 0 {
      GrantedFrom(start, calls, i - 1, n - 1, a, b, limit);
    }
  }

  lemma {:induction false} StretchWithinRate(start: real, calls: seq<real>, i: nat, j: nat, a: real, b: real, limit: Limit)
    requires i <= j <= |calls| && Forward(start, calls) && limit.refillPerSec >= 0.0 && limit.capacity >= 0.0
    requires a <= b && (i < j ==> a <= calls[i] && calls[j - 1] <= b)
    ensures GrantCount(start, calls, i, j, limit) as real <= limit.capacity + Gain(a, b, limit)
    decreases j
  {
    hide Gain, Granted;
    GainForward(a, b, limit);
    if i < j {
      ForwardOrder(start, calls, i, j - 1);
      if Granted(start, calls, j - 1, limit) {
        GrantedWithinRate(start, calls, i, j, limit);
        GainsAdd(a, calls[i], calls[j - 1], limit);
        GainsAdd(a, calls[j - 1], b, limit);
        GainForward(a, calls[i], limit);
        GainForward(calls[j - 1], b, limit);
      } else {
        if i < j - 1 {
          ForwardOrder(start, calls, j - 2, j - 1);
        }
        StretchWithinRate(start, calls, i, j - 1, a, b, limit);
      }
    }
  }

  /** Under a clock that never goes back, no window of time sees more grants than the capacity plus its own refill. */
  lemma {:induction false} WindowWithinRate(start: real, calls: seq<real>, n: nat, a: real, b: real, limit: Limit)
    requires n <= |calls| && a <= b && Forward(start, calls) && limit.refillPerSec >= 0.0 && limit.capacity >= 0.0
    ensures GrantedIn(start, calls, n, a, b, limit) as real <= limit.capacity + Gain(a, b, limit)
    decreases n
  {
    hide Gain, Granted;
    if n > 0 && calls[n - 1] > b {
      WindowWithinRate(start, calls, n - 1, a, b, limit);
    } else {
      var i := WindowStart(start, calls, n, a);
      forall k | i <= k < n ensures calls[k] <= b {
        ForwardOrder(start, calls, k, n - 1);
      }
      GrantedFrom(start, calls, i, n, a, b, limit);
      StretchWithinRate(start, calls, i, n, a, b, limit);
    }
  }

  lemma {:induction false} WindowStart(start: real, calls: seq<real>, n: nat, a: real) returns (i: nat)
    requires n <= |calls| && Forward(start, calls)
    ensures i <= n && (forall k :: 0 <= k < i ==> calls[k] < a) && forall k :: i <= k < n ==> a <= calls[k]
    decreases n
  {
    if n == 0 {
      i := 0;
    } else if calls[n - 1] < a {
      forall k | 0 <= k < n ensures calls[k] < a {
        ForwardOrder(start, calls, k, n - 1);
      }
      i := n;
    } else {
      i := WindowStart(start, calls, n - 1, a);
    }
  }

  /**
   * The case of a refused call does arise when the clock goes back: two calls granted a
   * second apart, then one at the time of registration.
   */
  lemma BackwardClockBreaksBound()
    ensures var limit, calls := Limit(1.0, 1.0), [1000.0, 2000.0, 0.0];
            && LastGrant(0.0, calls, 1, 3, limit)
            && GrantCount(0.0, calls, 0, 3, limit) == 2 && Allowance(calls, 0, 3, limit) == 0.0
  {
    var limit, calls := Limit(1.0, 1.0), [1000.0, 2000.0, 0.0];
    var full, once, twice := Bucket(1.0, 0.0), Bucket(0.0, 1000.0), Bucket(0.0, 2000.0);
    assert Spent(full, 1000.0, limit) == once && Spent(once, 2000.0, limit) == twice;
    assert Grants(full, 1000.0, limit) && Grants(once, 2000.0, limit) && !Grants(twice, 0.0, limit);
    assert Gain(1000.0, 0.0, limit) == -1.0;
    hide Spent, Grants, Gain;
    assert calls[..0] == [] && calls[..1][..0] == [] && calls[..2][..1] == calls[..1];
    assert After(0.0, calls[..0], limit) == full;
    assert After(0.0, calls[..1], limit) == once;
    assert After(0.0, calls[..2], limit) == twice;
    hide After;
    assert GrantCount(0.0, calls, 0, 1, limit) == 1;
    assert GrantCount(0.0, calls, 0, 2, limit) == 2;
    assert GrantCount(0.0, calls, 2, 2, limit) == 0;
  }

  /** What may still be granted, at the time of the call `k`, out of a full bucket at `from` less the grants since the call `i`. */
  function Remaining(start: real, calls: seq<real>, from: real, i: nat, k: nat, limit: Limit): real
    requires i <= k < |calls|
  {
    limit.capacity + Gain(from, calls[k], limit) - GrantCount(start, calls, i, k, limit) as real
  }

  /** The bucket holds at least `x` for a call exactly if every stretch of calls up to it leaves as much. */
  lemma {:induction false} HoldsExactly(start: real, calls: seq<real>, k: nat, x: real, limit: Limit)
    requires k < |calls|
    ensures Refilled(After(start, calls[..k], limit), calls[k], limit) >= x <==>
            && limit.capacity >= x && Remaining(start, calls, start, 0, k, limit) >= x
            && forall i :: 0 <= i < k ==> Remaining(start, calls, calls[i], i, k, limit) >= x
    decreases k
  {
    hide Gain;
    if k == 0 {
      assert calls[..0] == [];
    } else {
      var last := k - 1;
      var granted: real := if Granted(start, calls, last, limit) then 1.0 else 0.0;
      var y := x + granted - Gain(calls[last], calls[k], limit);
      assert calls[..k][..last] == calls[..last];
      NeverOverfull(start, calls[..k], limit);
      HoldsExactly(start, calls, last, y, limit);
      CarriesOver(start, calls, start, 0, k, granted, limit);
      forall i | 0 <= i < last
        ensures Remaining(start, calls, calls[i], i, k, limit) >= x <==> Remaining(start, calls, calls[i], i, last, limit) >= y {
        CarriesOver(start, calls, calls[i], i, k, granted, limit);
      }
      assert GrantCount(start, calls, last, last, limit) == 0;
      assert Remaining(start, calls, calls[last], last, k, limit) >= x <==> limit.capacity >= y;
      hide Remaining, Granted, Refilled;
    }
  }

  lemma CarriesOver(start: real, calls: seq<real>, from: real, i: nat, k: nat, granted: real, limit: Limit)
    requires i < k < |calls| && granted == if Granted(start, calls, k - 1, limit) then 1.0 else 0.0
    ensures Remaining(start, calls, from, i, k, limit) ==
            Remaining(start, calls, from, i, k - 1, limit) + Gain(calls[k - 1], calls[k], limit) - granted
  {
    hide Gain, Granted;
    GainsAdd(from, calls[k - 1], calls[k], limit);
  }

  /**
   * A call is refused exactly if granting it would break the rate: some stretch of calls
   * ending with it, or all of them since registration, would have been granted more than
   * the capacity and the refill of its time.
   */
  lemma RefusedExactly(start: real, calls: seq<real>, k: nat, limit: Limit)
    requires k < |calls|
    ensures !Granted(start, calls, k, limit) <==>
            || 1.0 > limit.capacity
            || GrantCount(start, calls, 0, k, limit) as real + 1.0 > limit.capacity + Gain(start, calls[k], limit)
            || exists i :: 0 <= i < k && Exceeds(start, calls, i, k, limit)
  {
    HoldsExactly(start, calls, k, 1.0, limit);
    forall i | 0 <= i < k
      ensures Exceeds(start, calls, i, k, limit) <==> Remaining(start, calls, calls[i], i, k, limit) < 1.0 {
      hide Gain, Granted;
    }
    hide Gain, GrantCount, Refilled, Exceeds;
  }

  /** With one more grant, at the call `k`, the stretch from the call `i` on would see more than its allowance. */
  predicate Exceeds(start: real, calls: seq<real>, i: nat, k: nat, limit: Limit)
    requires i <= k < |calls|
  {
    GrantCount(start, calls, i, k, limit) as real + 1.0 > Allowance(calls, i, k + 1, limit)
  }

  /** Calls come no faster than the refill rate. */
  predicate Spaced(start: real, calls: seq<real>, limit: Limit) {
    (|calls| > 0 ==> start <= calls[0]) &&
    forall k :: 1 <= k < |calls| ==> Gain(calls[k - 1], calls[k], limit) >= 1.0
  }

  /** Such calls are never refused. */
  lemma {:induction false} SpacedNeverRefused(start: real, calls: seq<real>, k: nat, limit: Limit)
    requires limit.capacity >= 1.0 && limit.refillPerSec >= 0.0 && Spaced(start, calls, limit) && k < |calls|
    ensures Granted(start, calls, k, limit)
    decreases k
  {
    NeverOverfull(start, calls[..k], limit);
    hide Gain;
    if k == 0 {
      assert calls[..0] == [];
      GainForward(start, calls[0], limit);
    } else {
      SpacedNeverRefused(start, calls, k - 1, limit);
      assert calls[..k][..k - 1] == calls[..k - 1];
    }
  }

  // ------------------------------------------------------------------ the broker

  class Broker {
    const limit: Limit
    var buckets: map<string, Bucket>

    constructor (limit: Limit)
      ensures this.limit == limit && buckets == map[]
    {
      this.limit := limit;
      buckets := map[];
    }

    method Register(session: string, now: real)
      modifies this
      ensures buckets == old(buckets)[session := After(now, [], limit)]
    {
      buckets := buckets[session := Bucket(limit.capacity, now)];
    }

    method Unregister(session: string)
      modifies this
      ensures buckets == old(buckets) - {session}
    {
      buckets := buckets - {session};
    }

    /** Takes a token of the session's own bucket, or refuses; unknown sessions are always refused. */
    method Spend(session: string, now: real) returns (ok: bool)
      modifies this
      ensures session !in old(buckets) ==> !ok && buckets == old(buckets)
      ensures session in old(buckets) ==>
                && (ok <==> Grants(old(buckets)[session], now, limit))
                && buckets == old(buckets)[session := Spent(old(buckets)[session], now, limit)]
    {
      if session !in buckets { return false; }
      var bucket := buckets[session];
      var elapsed := (now - bucket.last) / 1000.0;
      var tokens := bucket.tokens + elapsed * limit.refillPerSec;
      assert tokens == bucket.tokens + Gain(bucket.last, now, limit);
      hide Gain;
      tokens := if tokens < limit.capacity then tokens else limit.capacity;
      bucket := Bucket(tokens, now);
      if tokens < 1.0 {
        buckets := buckets[session := bucket];
        return false;
      }
      buckets := buckets[session := bucket.(tokens := tokens - 1.0)];
      return true;
    }
  }
}
