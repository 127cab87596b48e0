/**
 * internal/backfill/ratelimit.go over real-valued time: a bucket refilled at a fixed
 * rate and asked for whole batches.
 */
module TokenBucket {
  import opened Common

  /** A clock that never runs back. */
  class Clock {
    var time: real
    /** The length of the last sleep asked for. */
    ghost var asked: real

    method Now() returns (t: real)
      modifies this`time
      ensures t == time && time >= old(time)
    {
      var d: real := *;
      time := if d > 0.0 then time + d else time;
      t := time;
    }

    /** Sleeps at least as long as asked, unless it is cancelled. */
    method Sleep(ctx: Context, d: real) returns (ok: bool)
      requires d >= 0.0
      modifies this, ctx
      ensures time >= old(time) && ctx.Since(old(ctx.fuel), old(ctx.faults), ok) && asked == d
      ensures ok ==> time >= old(time) + d && ctx.fuel < old(ctx.fuel)
    {
      asked := d;
      var stop := ctx.Err();
      var more := Now();
      ok := !stop;
      if ok {
        time := time + d;
      }
    }
  }

  function Refilled(tokens: real, elapsed: real, rate: real, burst: real): real {
    var t := tokens + rate * elapsed;
    if t > burst then burst else t
  }

  class RateLimiter {
    const clock: Clock
    const docsPerSec: real
    const burst: real
    var tokens: real
    var last: real
    /** Documents granted so far. */
    ghost var granted: real

    ghost predicate Valid() reads this, clock {
      burst > 0.0 && tokens <= burst && last <= clock.time && (docsPerSec > 0.0 ==> tokens >= 0.0)
    }

    constructor (clock: Clock, docsPerSec: real, burst: int)
      ensures Valid() && this.clock == clock && this.docsPerSec == docsPerSec
      ensures burst > 0 ==> this.burst == burst as real
      ensures burst <= 0 ==> this.burst == if docsPerSec > 0.0 then docsPerSec else 1.0
      ensures tokens == this.burst && last == clock.time && granted == 0.0
    {
      this.clock, this.docsPerSec := clock, docsPerSec;
      var b := if burst > 0 then burst as real else if docsPerSec > 0.0 then docsPerSec else 1.0;
      this.burst, tokens := b, b;
      last, granted := clock.time, 0.0;
    }

    /** What was granted since some earlier state is covered by its tokens and the refill since. */
    ghost predicate Covered(tokens0: real, last0: real, granted0: real) reads this {
      granted - granted0 + tokens <= tokens0 + docsPerSec * (last - last0)
    }

    /** The top of the loop in Wait: refill, and take what is asked for if it is there. */
    method TryTake(now: real, need: real) returns (ok: bool)
      requires Valid() && docsPerSec > 0.0 && last <= now <= clock.time && need > 0.0
      modifies this
      ensures Valid() && last == now && Covered(old(tokens), old(last), old(granted))
      ensures granted == if ok then old(granted) + need else old(granted)
      ensures ok <==> Refilled(old(tokens), now - old(last), docsPerSec, burst) >= need
      ensures !ok ==> tokens < need
    {
      RefillBound(tokens, now - last, docsPerSec, burst);
      tokens := Refilled(tokens, now - last, docsPerSec, burst);
      last := now;
      ok := tokens >= need;
      if ok {
        tokens := tokens - need;
        granted := granted + need;
      }
    }

    /**
     * Wait. A request within the burst is granted after at most one sleep of the
     * computed length, unless cancelled; a larger one is never granted.
     */
    method Wait(ctx: Context, n: int) returns (ok: bool, ghost sleeps: nat)
      requires Valid()
      modifies this, clock, ctx
      ensures Valid() && clock.time >= old(clock.time) && ctx.Since(old(ctx.fuel), old(ctx.faults), ok)
      ensures docsPerSec > 0.0 && n > 0 ==> Covered(old(tokens), old(last), old(granted))
      ensures granted >= old(granted)
      ensures docsPerSec <= 0.0 || n <= 0 ==> tokens == old(tokens) && last == old(last) && granted == old(granted)
      ensures ok && docsPerSec > 0.0 && n > 0 ==> n as real <= burst && granted == old(granted) + n as real
      ensures n as real <= burst ==> sleeps <= 1
    {
      sleeps := 0;
      if docsPerSec <= 0.0 || n <= 0 {
        var stop := ctx.Err();
        return !stop, 0;
      }
      var need, wait, done := n as real, 0.0, false;
      ok := true;
      while !done
        invariant Valid() && clock.time >= old(clock.time) && ctx.Since(old(ctx.fuel), old(ctx.faults), ok)
        invariant !done ==> ok
        invariant Covered(old(tokens), old(last), old(granted))
        invariant granted >= old(granted) && (!done ==> granted == old(granted))
        invariant done && ok ==> need <= burst && granted == old(granted) + need
        invariant need <= burst ==> sleeps <= 1
        invariant !done && sleeps > 0 && need <= burst ==> Ready(need, wait)
        decreases !done, ctx.fuel
      {
        ghost var t, l, g, s := tokens, last, granted, sleeps;
        ok, done, wait, sleeps := Attempt(ctx, need, wait, s);
        CoveredOn(docsPerSec, old(tokens), old(last), old(granted), t, l, g, tokens, last, granted);
      }
    }

    /** The sleep just taken is long enough for the request. */
    ghost predicate Ready(need: real, wait: real) reads this, clock {
      clock.time - last >= wait && Suffices(tokens, wait, docsPerSec, need)
    }

    /** One turn of the loop in Wait: try, and sleep for exactly what is missing when there is not enough. */
    method Attempt(ctx: Context, need: real, waited: real, ghost sleeps: nat)
      returns (ok: bool, done: bool, wait: real, ghost sleeps': nat)
      requires Valid() && docsPerSec > 0.0 && need > 0.0
      requires sleeps > 0 && need <= burst ==> Ready(need, waited)
      modifies this, clock, ctx
      ensures Valid() && clock.time >= old(clock.time) && Covered(old(tokens), old(last), old(granted))
      ensures ctx.Since(old(ctx.fuel), old(ctx.faults), ok)
      ensures granted == old(granted) ==> tokens + docsPerSec * clock.asked == need
      ensures granted >= old(granted)
      ensures !done ==> ok && ctx.fuel < old(ctx.fuel) && granted == old(granted) && sleeps' == sleeps + 1
      ensures !done && need <= burst ==> sleeps == 0 && Ready(need, wait)
      ensures done ==> sleeps' == sleeps && (ok ==> need <= burst && granted == old(granted) + need)
    {
      wait, sleeps' := waited, sleeps;
      var now := clock.Now();
      ghost var t, l := tokens, last;
      var taken := TryTake(now, need);
      if taken {
        var stop := ctx.Err();
        return !stop, true, wait, sleeps';
      }
      if need <= burst {
        Sufficient(t, now - l, docsPerSec, burst, need, waited);
      }
      wait := (need - tokens) / docsPerSec;
      WaitSuffices(tokens, need, docsPerSec);
      ok := clock.Sleep(ctx, wait);
      done := !ok;
      sleeps' := if ok then sleeps + 1 else sleeps;
    }
  }

  /**
   * Any requests at any times: what is granted never exceeds the burst plus the rate
   * times the time since the bucket was last looked at, and it covers all requests
   * that were not cancelled.
   */
  method Serve(r: RateLimiter, ctx: Context, requests: seq<int>) returns (oks: seq<bool>)
    requires r.Valid() && r.docsPerSec > 0.0
    modifies r, r.clock, ctx
    ensures |oks| == |requests| && r.granted >= old(r.granted) + Asked(requests, oks)
    ensures ctx.faults == old(ctx.faults) + Refused(oks)
    ensures r.Valid() && r.Covered(old(r.tokens), old(r.last), old(r.granted))
    ensures r.granted - old(r.granted) <= r.burst + r.docsPerSec * (r.clock.time - old(r.last))
  {
    oks := [];
    for i := 0 to |requests|
      invariant r.Valid() && r.Covered(old(r.tokens), old(r.last), old(r.granted)) && |oks| == i
      invariant r.granted >= old(r.granted) + Asked(requests[..i], oks) && ctx.faults == old(ctx.faults) + Refused(oks)
    {
      ghost var t, l, g := r.tokens, r.last, r.granted;
      var ok := ServeOne(r, ctx, requests[i]);
      CoveredOn(r.docsPerSec, old(r.tokens), old(r.last), old(r.granted), t, l, g, r.tokens, r.last, r.granted);
      AskedNext(requests, i, oks, ok);
      oks := oks + [ok];
    }
    assert requests[..|requests|] == requests;
    Bound(r.docsPerSec, r.granted - old(r.granted), r.tokens, old(r.tokens), r.burst, r.last - old(r.last),
          r.clock.time - old(r.last));
  }

  /** One request, at some later time. */
  method ServeOne(r: RateLimiter, ctx: Context, n: int) returns (ok: bool)
    requires r.Valid() && r.docsPerSec > 0.0
    modifies r, r.clock, ctx
    ensures r.Valid() && r.Covered(old(r.tokens), old(r.last), old(r.granted)) && r.granted >= old(r.granted)
    ensures ok && n > 0 ==> r.granted == old(r.granted) + n as real
    ensures ctx.Since(old(ctx.fuel), old(ctx.faults), ok)
  {
    var idle := r.clock.Now();
    ghost var sleeps;
    ok, sleeps := r.Wait(ctx, n);
  }

  /** The documents of the requests that were granted. */
  function Asked(requests: seq<int>, oks: seq<bool>): real
    requires |requests| == |oks|
  {
    if oks == [] then 0.0
    else
      var n := |oks| - 1;
      Asked(requests[..n], oks[..n]) + if oks[n] && requests[n] > 0 then requests[n] as real else 0.0
  }

  lemma AskedNext(requests: seq<int>, i: nat, oks: seq<bool>, ok: bool)
    requires i < |requests| && |oks| == i
    ensures Asked(requests[..i + 1], oks + [ok]) ==
              Asked(requests[..i], oks) + if ok && requests[i] > 0 then requests[i] as real else 0.0
    ensures Refused(oks + [ok]) == Refused(oks) + if ok then 0 else 1
  {
    assert requests[..i + 1][..i] == requests[..i] && (oks + [ok])[..i] == oks;
  }

  function Refused(oks: seq<bool>): nat {
    if oks == [] then 0 else Refused(oks[..|oks| - 1]) + if oks[|oks| - 1] then 0 else 1
  }

  lemma Later(rate: real, a: real, b: real, c: real)
    ensures rate * (b - a) + rate * (c - b) == rate * (c - a)
  {
  }

  lemma CoveredOn(rate: real, t0: real, l0: real, g0: real, t1: real, l1: real, g1: real, t2: real, l2: real, g2: real)
    requires g1 - g0 + t1 <= t0 + rate * (l1 - l0) && g2 - g1 + t2 <= t1 + rate * (l2 - l1)
    ensures g2 - g0 + t2 <= t0 + rate * (l2 - l0)
  {
    Later(rate, l0, l1, l2);
  }

  /** Waiting that long refills enough. */
  predicate Suffices(tokens: real, wait: real, rate: real, need: real) {
    tokens + rate * wait >= need
  }

  lemma Bound(rate: real, given: real, tokens: real, tokens0: real, burst: real, looked: real, passed: real)
    requires given + tokens <= tokens0 + rate * looked && 0.0 <= tokens && tokens0 <= burst
    requires rate >= 0.0 && looked <= passed
    ensures given <= burst + rate * passed
  {
    Slower(rate, looked, passed);
  }

  lemma Slower(rate: real, a: real, b: real)
    requires rate >= 0.0 && a <= b
    ensures rate * a <= rate * b
  {
  }

  lemma RefillBound(tokens: real, elapsed: real, rate: real, burst: real)
    requires rate > 0.0 && elapsed >= 0.0 && 0.0 <= tokens <= burst
    ensures 0.0 <= Refilled(tokens, elapsed, rate, burst) <= burst
    ensures Refilled(tokens, elapsed, rate, burst) <= tokens + rate * elapsed
  {
  }

  lemma Sufficient(tokens: real, elapsed: real, rate: real, burst: real, need: real, wait: real)
    requires rate > 0.0 && Refilled(tokens, elapsed, rate, burst) < need <= burst
    ensures elapsed < wait || !Suffices(tokens, wait, rate, need)
  {
    assert tokens + rate * elapsed < need;
    if elapsed >= wait {
      Slower(rate, wait, elapsed);
      assert tokens + rate * wait < need;
    }
  }

  lemma WaitSuffices(tokens: real, need: real, rate: real)
    requires rate > 0.0 && tokens < need
    ensures (need - tokens) / rate > 0.0 && tokens + rate * ((need - tokens) / rate) == need
  {
  }
}
