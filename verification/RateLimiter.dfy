/** The token bucket in front of the billing API: how many calls it lets through in any window
    of time. Times are integer nanoseconds; the refill is the exact floor. */
module RateLimiter {

  const SECOND := 1_000_000_000

  /** The tokens that accrue in `elapsed` nanoseconds, truncated. */
  function TokensFor(elapsed: nat, maxRPS: nat): (n: nat)
    ensures n * SECOND <= elapsed * maxRPS < (n + 1) * SECOND
  {
    elapsed * maxRPS / SECOND
  }

  datatype Bucket = Bucket(tokens: nat, lastFill: int)

  function Min(a: nat, b: nat): nat {
    if a <= b then a else b
  }

  /** The refill under the lock. */
  function Refill(maxRPS: nat, b: Bucket, now: int): Bucket
    requires now >= b.lastFill
  {
    var tokensToAdd := TokensFor(now - b.lastFill, maxRPS);
    if tokensToAdd > 0 then Bucket(Min(b.tokens + tokensToAdd, maxRPS), now) else b
  }

  /** One turn of the acquire loop. */
  function Turn(maxRPS: nat, b: Bucket, now: int): (Bucket, bool)
    requires now >= b.lastFill
  {
    var full := Refill(maxRPS, b, now);
    if full.tokens > 0 then (full.(tokens := full.tokens - 1), true) else (full, false)
  }

  class Limiter {
    const maxRPS: nat
    var tokens: nat
    var lastFill: int

    ghost predicate Valid()
      reads this
    {
      tokens <= maxRPS
    }

    ghost function State(): Bucket
      reads this
    {
      Bucket(tokens, lastFill)
    }

    constructor (maxRPS: nat, now: int)
      ensures Valid() && this.maxRPS == maxRPS && State() == Bucket(maxRPS, now)
    {
      this.maxRPS, tokens, lastFill := maxRPS, maxRPS, now;
    }

    /** The locked part of one turn of `acquire`; without a token the caller sleeps and retries.
        A turn succeeds exactly when a token is left over or at least one has accrued. */
    method TryAcquire(now: int) returns (granted: bool)
      requires Valid() && now >= lastFill
      modifies this
      ensures Valid()
      ensures (State(), granted) == Turn(maxRPS, old(State()), now)
      ensures granted <==> maxRPS > 0 && (old(tokens) > 0 || (now - old(lastFill)) * maxRPS >= 1_000_000_000)
      ensures var accrued := (now - old(lastFill)) * maxRPS / 1_000_000_000;
              var full := if old(tokens) + accrued <= maxRPS then old(tokens) + accrued else maxRPS;
              && tokens == (if granted then full - 1 else full)
              && lastFill == (if accrued > 0 then now else old(lastFill))
    {
      var tokensToAdd := TokensFor(now - lastFill, maxRPS);
      if tokensToAdd > 0 {
        tokens := tokens + tokensToAdd;
        if tokens > maxRPS {
          tokens := maxRPS;
        }
        lastFill := now;
      }
      if tokens > 0 {
        tokens := tokens - 1;
        return true;
      }
      return false;
    }
  }

  // ----- runs: the times of the turns ---------------------------------------------------

  predicate Monotone(from: int, times: seq<int>) {
    && (forall i :: 0 <= i < |times| ==> from <= times[i])
    && (forall i, j :: 0 <= i <= j < |times| ==> times[i] <= times[j])
  }

  /** The bucket after the turns, and the number of grants. */
  function Run(maxRPS: nat, b: Bucket, times: seq<int>): (Bucket, nat)
    requires Monotone(b.lastFill, times)
    decreases |times|
  {
    if times == [] then (b, 0)
    else
      var (b', granted) := Turn(maxRPS, b, times[0]);
      var (last, grants) := Run(maxRPS, b', times[1..]);
      (last, grants + if granted then 1 else 0)
  }

  /** What accrues in a span of time, in billionths of a token. */
  function Accrued(maxRPS: nat, from: int, to: int): (r: int)
    ensures from <= to ==> r >= 0
  {
    (to - from) * maxRPS
  }

  lemma AccruedAdds(maxRPS: nat, a: int, b: int, c: int)
    ensures Accrued(maxRPS, a, c) == Accrued(maxRPS, a, b) + Accrued(maxRPS, b, c)
  {
  }

  /** Tokens plus what has accrued since the last refill. */
  function Credit(maxRPS: nat, b: Bucket, now: int): int {
    b.tokens * SECOND + Accrued(maxRPS, b.lastFill, now)
  }

  lemma TurnCredit(maxRPS: nat, b: Bucket, now: int)
    requires now >= b.lastFill && b.tokens <= maxRPS
    ensures var (b', granted) := Turn(maxRPS, b, now);
            && b.lastFill <= b'.lastFill <= now && b'.tokens <= maxRPS
            && Credit(maxRPS, b', now) <= Credit(maxRPS, b, now) - (if granted then SECOND else 0)
            && Credit(maxRPS, b', now) + (if granted then SECOND else 0) < (maxRPS + 1) * SECOND
            && Credit(maxRPS, b', now) >= 0
  {
  }

  function End(start: int, times: seq<int>): int {
    if times == [] then start else times[|times| - 1]
  }

  /** A grant costs a token's credit, and credit accrues at the configured rate. */
  lemma {:induction false} GrantsCost(maxRPS: nat, b: Bucket, start: int, times: seq<int>)
    requires b.lastFill <= start && b.tokens <= maxRPS && Monotone(start, times)
    ensures Run(maxRPS, b, times).1 * SECOND <= Credit(maxRPS, b, start) + Accrued(maxRPS, start, End(start, times))
    decreases |times|
  {
    if times == [] {
      CreditNonNegative(maxRPS, b, start);
    } else {
      var now := times[0];
      var (b', granted) := Turn(maxRPS, b, now);
      TurnCredit(maxRPS, b, now);
      GrantsCost(maxRPS, b', now, times[1..]);
      AccruedAdds(maxRPS, b.lastFill, start, now);
      AccruedAdds(maxRPS, start, now, End(start, times));
      assert End(now, times[1..]) == End(start, times);
    }
  }

  lemma CreditNonNegative(maxRPS: nat, b: Bucket, now: int)
    requires now >= b.lastFill
    ensures Credit(maxRPS, b, now) >= 0
  {
  }

  function CeilDiv(a: nat, b: nat): nat
    requires b > 0
  {
    (a + b - 1) / b
  }

  lemma Rounding(grants: nat, maxRPS: nat, accrued: nat)
    requires grants * SECOND < (maxRPS + 1) * SECOND + accrued
    ensures grants <= maxRPS + CeilDiv(accrued, SECOND)
  {
  }

  lemma WindowCost(maxRPS: nat, b: Bucket, times: seq<int>)
    requires b.tokens <= maxRPS && times != [] && Monotone(b.lastFill, times)
    ensures Run(maxRPS, b, times).1 * SECOND < (maxRPS + 1) * SECOND + Accrued(maxRPS, times[0], times[|times| - 1])
  {
    var now := times[0];
    var (b', granted) := Turn(maxRPS, b, now);
    TurnCredit(maxRPS, b, now);
    GrantsCost(maxRPS, b', now, times[1..]);
    assert End(now, times[1..]) == times[|times| - 1];
  }

  /** In every window, from any reachable bucket: at most maxRPS + ceil(maxRPS * w) grants,
      where w is the time from the first turn of the window to the last, in seconds. */
  lemma WindowBound(maxRPS: nat, b: Bucket, times: seq<int>)
    requires b.tokens <= maxRPS && times != [] && Monotone(b.lastFill, times)
    ensures Run(maxRPS, b, times).1 <= maxRPS + CeilDiv(Accrued(maxRPS, times[0], times[|times| - 1]), SECOND)
  {
    WindowCost(maxRPS, b, times);
    Rounding(Run(maxRPS, b, times).1, maxRPS, Accrued(maxRPS, times[0], times[|times| - 1]));
  }

  lemma {:induction false} RunKeepsMaximum(maxRPS: nat, b: Bucket, times: seq<int>)
    requires b.tokens <= maxRPS && Monotone(b.lastFill, times)
    ensures Run(maxRPS, b, times).0.tokens <= maxRPS
    decreases |times|
  {
    if times != [] {
      TurnCredit(maxRPS, b, times[0]);
      RunKeepsMaximum(maxRPS, Turn(maxRPS, b, times[0]).0, times[1..]);
    }
  }

  lemma MonotoneSuffix(start: int, xs: seq<int>, ys: seq<int>)
    requires Monotone(start, xs + ys)
    ensures Monotone(start, ys)
  {
    forall i, j | 0 <= i <= j < |ys| ensures start <= ys[i] <= ys[j] {
      assert (xs + ys)[|xs| + i] == ys[i] && (xs + ys)[|xs| + j] == ys[j];
    }
  }

  /** The bound holds for every window of every run of a limiter. */
  lemma EveryWindow(maxRPS: nat, start: int, earlier: seq<int>, window: seq<int>)
    requires window != [] && Monotone(start, earlier + window)
    ensures Monotone(start, earlier) && Monotone(start, window)
    ensures Run(maxRPS, Bucket(maxRPS, start), earlier + window).1 - Run(maxRPS, Bucket(maxRPS, start), earlier).1
            <= maxRPS + CeilDiv(Accrued(maxRPS, window[0], window[|window| - 1]), SECOND)
    ensures var grants := Run(maxRPS, Bucket(maxRPS, start), earlier + window).1
                          - Run(maxRPS, Bucket(maxRPS, start), earlier).1;
            (grants - maxRPS - 1) * 1_000_000_000 < (window[|window| - 1] - window[0]) * maxRPS
  {
    var b := Bucket(maxRPS, start);
    RunAppend(maxRPS, b, earlier, window);
    MonotoneSuffix(start, earlier, window);
    RunKeepsMaximum(maxRPS, b, earlier);
    WindowBound(maxRPS, Run(maxRPS, b, earlier).0, window);
    WindowCost(maxRPS, Run(maxRPS, b, earlier).0, window);
  }

  // ----- the bound is attained ----------------------------------------------------------

  function Copies(t: int, k: nat): seq<int> {
    seq(k, _ => t)
  }

  lemma {:induction false} RunAppend(maxRPS: nat, b: Bucket, xs: seq<int>, ys: seq<int>)
    requires Monotone(b.lastFill, xs + ys)
    ensures Monotone(b.lastFill, xs) && Monotone(Run(maxRPS, b, xs).0.lastFill, ys)
    ensures Run(maxRPS, b, xs + ys).1 == Run(maxRPS, b, xs).1 + Run(maxRPS, Run(maxRPS, b, xs).0, ys).1
    decreases |xs|
  {
    forall i, j | 0 <= i <= j < |xs| ensures xs[i] <= xs[j] && b.lastFill <= xs[i] {
      assert (xs + ys)[i] <= (xs + ys)[j];
    }
    if xs == [] {
      assert xs + ys == ys;
    } else {
      assert (xs + ys)[1..] == xs[1..] + ys && (xs + ys)[0] == xs[0];
      RunAppend(maxRPS, Turn(maxRPS, b, xs[0]).0, xs[1..], ys);
    }
  }

  /** A full purse is spent at once. */
  lemma {:induction false} Burst(maxRPS: nat, t: int, k: nat)
    ensures Run(maxRPS, Bucket(k, t), Copies(t, k)) == (Bucket(0, t), k)
  {
    if k > 0 {
      assert Turn(maxRPS, Bucket(k, t), t) == (Bucket(k - 1, t), true);
      assert Copies(t, k)[1..] == Copies(t, k - 1);
      Burst(maxRPS, t, k - 1);
    }
  }

  lemma NextSecond(maxRPS: nat, t: int)
    requires maxRPS >= 1
    ensures var later := t + SECOND;
            Run(maxRPS, Bucket(0, t), Copies(later, maxRPS)) == (Bucket(0, later), maxRPS)
  {
    var later := t + SECOND;
    assert Accrued(maxRPS, t, later) == maxRPS * SECOND;
    assert Turn(maxRPS, Bucket(0, t), later) == (Bucket(maxRPS - 1, later), true);
    assert Copies(later, maxRPS)[1..] == Copies(later, maxRPS - 1);
    Burst(maxRPS, later, maxRPS - 1);
  }

  /** `maxRPS` turns at each of `w` successive seconds after `t`. */
  function EverySecond(maxRPS: nat, t: int, w: nat): seq<int>
    decreases w
  {
    if w == 0 then [] else Copies(t + SECOND, maxRPS) + EverySecond(maxRPS, t + SECOND, w - 1)
  }

  lemma {:induction false} EverySecondTimes(maxRPS: nat, t: int, w: nat)
    requires maxRPS >= 1
    ensures var times := EverySecond(maxRPS, t, w);
            Monotone(t, times) && (w > 0 ==> times != [] && times[|times| - 1] == t + w * SECOND)
    decreases w
  {
    if w > 0 {
      var rest := EverySecond(maxRPS, t + SECOND, w - 1);
      EverySecondTimes(maxRPS, t + SECOND, w - 1);
      MonotoneAfterCopies(t + SECOND, maxRPS, rest);
    }
  }

  lemma {:induction false} EverySecondGrants(maxRPS: nat, t: int, w: nat)
    requires maxRPS >= 1
    ensures Monotone(t, EverySecond(maxRPS, t, w))
    ensures Run(maxRPS, Bucket(0, t), EverySecond(maxRPS, t, w)).1 == Product(maxRPS, w)
    decreases w
  {
    EverySecondTimes(maxRPS, t, w);
    if w > 0 {
      EverySecondGrants(maxRPS, t + SECOND, w - 1);
      NextSecond(maxRPS, t);
      RunAppend(maxRPS, Bucket(0, t), Copies(t + SECOND, maxRPS), EverySecond(maxRPS, t + SECOND, w - 1));
    }
  }

  function Product(a: nat, b: nat): nat {
    if b == 0 then 0 else Product(a, b - 1) + a
  }

  lemma {:induction false} ProductIs(a: nat, b: nat)
    ensures Product(a, b) == a * b
  {
    if b > 0 {
      ProductIs(a, b - 1);
      assert a * b == a * (b - 1) + a;
    }
  }

  /** Starting from a full bucket, w whole seconds can see maxRPS + maxRPS * w grants: the
      window bound cannot be improved. */
  lemma WindowBoundAttained(maxRPS: nat, w: nat)
    requires maxRPS >= 1
    ensures var times := Copies(0, maxRPS) + EverySecond(maxRPS, 0, w);
            && times != [] && times[0] == 0 && times[|times| - 1] == w * SECOND && Monotone(0, times)
            && Run(maxRPS, Bucket(maxRPS, 0), times).1
               == maxRPS + CeilDiv(Accrued(maxRPS, 0, w * SECOND), SECOND)
  {
    EverySecondTimes(maxRPS, 0, w);
    EverySecondGrants(maxRPS, 0, w);
    ProductIs(maxRPS, w);
    MonotoneAfterCopies(0, maxRPS, EverySecond(maxRPS, 0, w));
    Burst(maxRPS, 0, maxRPS);
    RunAppend(maxRPS, Bucket(maxRPS, 0), Copies(0, maxRPS), EverySecond(maxRPS, 0, w));
    WholeSeconds(maxRPS, w);
  }

  lemma MonotoneAfterCopies(t: int, k: nat, rest: seq<int>)
    requires Monotone(t, rest)
    ensures Monotone(t, Copies(t, k) + rest)
  {
  }

  lemma WholeSeconds(maxRPS: nat, w: nat)
    ensures Accrued(maxRPS, 0, w * SECOND) == (maxRPS * w) * SECOND
    ensures CeilDiv(Accrued(maxRPS, 0, w * SECOND), SECOND) == maxRPS * w
  {
    assert Accrued(maxRPS, 0, w * SECOND) == (maxRPS * w) * SECOND;
    Ceiling(maxRPS * w);
  }

  lemma Ceiling(n: nat)
    ensures CeilDiv(n * SECOND, SECOND) == n
  {
  }

  // ----- no starvation ------------------------------------------------------------------

  /** No refill of the run is cut by the cap. */
  predicate Uncapped(maxRPS: nat, b: Bucket, times: seq<int>)
    requires Monotone(b.lastFill, times)
    decreases |times|
  {
    times == [] ||
    (b.tokens + TokensFor(times[0] - b.lastFill, maxRPS) <= maxRPS
     && Uncapped(maxRPS, Turn(maxRPS, b, times[0]).0, times[1..]))
  }

  /** What a turn grants and gains is at most what accrued between the two refills, and, the
      truncation forgetting less than half of it, at least half of that. */
  lemma TurnCredits(maxRPS: nat, b: Bucket, now: int)
    requires now >= b.lastFill && b.tokens + TokensFor(now - b.lastFill, maxRPS) <= maxRPS
    ensures var (b', granted) := Turn(maxRPS, b, now);
            var gained := b'.tokens - b.tokens + if granted then 1 else 0;
            && b.lastFill <= b'.lastFill <= now
            && gained * SECOND <= Accrued(maxRPS, b.lastFill, b'.lastFill) <= 2 * gained * SECOND
            && Accrued(maxRPS, b'.lastFill, now) < SECOND
  {
  }

  /** Throughput: over any run whose refills are not cut, the grants and the tokens gained are
      between half of what accrued, up to half a token, and all of it. */
  lemma {:induction false} Throughput(maxRPS: nat, b: Bucket, times: seq<int>)
    requires Monotone(b.lastFill, times) && Uncapped(maxRPS, b, times)
    ensures var (last, grants) := Run(maxRPS, b, times);
            var gained, accrued := grants + last.tokens - b.tokens, Accrued(maxRPS, b.lastFill, End(b.lastFill, times));
            gained * SECOND <= accrued < 2 * gained * SECOND + SECOND
  {
    CreditsAddUp(maxRPS, b, times);
    var last := Run(maxRPS, b, times).0;
    AccruedAdds(maxRPS, b.lastFill, last.lastFill, End(b.lastFill, times));
  }

  lemma {:induction false} CreditsAddUp(maxRPS: nat, b: Bucket, times: seq<int>)
    requires Monotone(b.lastFill, times) && Uncapped(maxRPS, b, times)
    ensures var (last, grants) := Run(maxRPS, b, times);
            var gained, accrued := grants + last.tokens - b.tokens, Accrued(maxRPS, b.lastFill, last.lastFill);
            && b.lastFill <= last.lastFill <= End(b.lastFill, times)
            && gained * SECOND <= accrued <= 2 * gained * SECOND
            && Accrued(maxRPS, last.lastFill, End(b.lastFill, times)) < SECOND
    decreases |times|
  {
    if times != [] {
      var now := times[0];
      var b' := Turn(maxRPS, b, now).0;
      TurnCredits(maxRPS, b, now);
      CreditsAddUp(maxRPS, b', times[1..]);
      AccruedAdds(maxRPS, b.lastFill, b'.lastFill, Run(maxRPS, b, times).0.lastFill);
      if times[1..] == [] {
        assert End(b.lastFill, times) == now;
      } else {
        assert End(b'.lastFill, times[1..]) == End(b.lastFill, times);
      }
    }
  }

  /** However often the callers retry, once a token's worth of time has passed since the last
      refill one of their turns has succeeded. */
  lemma {:induction false} NoStarvation(maxRPS: nat, b: Bucket, times: seq<int>)
    requires maxRPS >= 1 && times != [] && Monotone(b.lastFill, times)
    requires Accrued(maxRPS, b.lastFill, times[|times| - 1]) >= SECOND
    ensures Run(maxRPS, b, times).1 >= 1
    decreases |times|
  {
    var (b', granted) := Turn(maxRPS, b, times[0]);
    if !granted {
      assert b' == b && |times| > 1;
      NoStarvation(maxRPS, b, times[1..]);
    }
  }
}
