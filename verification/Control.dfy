/** Replay protection of control commands: the clock-skew test, the nonce cache with its
    time-to-live, and at-most-once acceptance over all interleavings. Times and durations are
    in nanoseconds; differences of times saturate at 64 bits and negation wraps. */
module Control {

  const MAX_DURATION := 0x7FFF_FFFF_FFFF_FFFF
  const MIN_DURATION := -0x8000_0000_0000_0000

  type Duration = n: int | -0x8000_0000_0000_0000 <= n <= 0x7FFF_FFFF_FFFF_FFFF

  /** `t.Sub(u)`. */
  function Sub(t: int, u: int): Duration {
    if t - u > MAX_DURATION then MAX_DURATION
    else if t - u < MIN_DURATION then MIN_DURATION
    else t - u
  }

  function Negate(d: Duration): Duration {
    if d == MIN_DURATION then MIN_DURATION else -d
  }

  /** The timestamp test of `Verify`. */
  predicate InWindow(now: int, timestamp: int, maxClockSkew: Duration) {
    var timeDiff := Sub(now, timestamp);
    (if timeDiff < 0 then Negate(timeDiff) else timeDiff) <= maxClockSkew
  }

  /** The test accepts exactly the timestamps within the skew, and those so far in the future
      that the difference saturates and its negation wraps. */
  lemma InWindowIff(now: int, timestamp: int, maxClockSkew: Duration)
    requires 0 <= maxClockSkew < MAX_DURATION
    ensures InWindow(now, timestamp, maxClockSkew)
       <==> -maxClockSkew <= now - timestamp <= maxClockSkew || now - timestamp <= MIN_DURATION
  {
  }

  // ----- the nonce cache ----------------------------------------------------------------

  type Cache = map<string, int>

  /** The entries that a cleanup at time `now` keeps. */
  function Survivors(cache: Cache, ttl: Duration, now: int): Cache {
    map n | n in cache && Sub(now, cache[n]) <= ttl :: cache[n]
  }

  /** An entry is kept exactly until it is older than the lifetime. */
  lemma SurvivesIff(cache: Cache, ttl: Duration, now: int, nonce: string)
    requires 0 <= ttl < MAX_DURATION
    ensures nonce in Survivors(cache, ttl, now) <==> nonce in cache && now - cache[nonce] <= ttl
    ensures nonce in Survivors(cache, ttl, now) ==> Survivors(cache, ttl, now)[nonce] == cache[nonce]
  {
  }

  class NonceCache {
    var cache: Cache
    const ttl: Duration

    constructor (ttl: Duration)
      ensures cache == map[] && this.ttl == ttl
    {
      cache := map[];
      this.ttl := ttl;
    }

    method Cleanup(now: int)
      modifies this
      ensures cache == Survivors(old(cache), ttl, now)
    {
      ghost var before := cache;
      var todo := cache.Keys;
      while todo != {}
        invariant todo <= before.Keys
        invariant forall n :: n in cache <==> n in before && (n in todo || Sub(now, before[n]) <= ttl)
        invariant forall n :: n in cache ==> cache[n] == before[n]
        decreases todo
      {
        var nonce :| nonce in todo;
        if Sub(now, cache[nonce]) > ttl {
          cache := cache - {nonce};
        }
        todo := todo - {nonce};
      }
    }

    /** Accepts a nonce that no unexpired entry carries, and remembers it with its timestamp. */
    method CheckAndStore(nonce: string, timestamp: int, now: int) returns (ok: bool)
      modifies this
      ensures ok <==> nonce !in Survivors(old(cache), ttl, now)
      ensures var kept := Survivors(old(cache), ttl, now);
              cache == if ok then kept[nonce := timestamp] else kept
    {
      Cleanup(now);
      if nonce in cache { return false; }
      cache := cache[nonce := timestamp];
      return true;
    }
  }

  /** A command as verification sees it; `genuine` says whether its signature verifies. */
  datatype Command = Command(nonce: string, timestamp: int, signed: bool, genuine: bool)

  datatype Verdict = EmptySecret | MissingSignature | OutsideWindow | Replayed | BadSignature | Accepted

  class Handler {
    const secret: string
    const maxClockSkew: Duration
    const nonces: NonceCache

    constructor (secret: string, maxClockSkew: Duration, ttl: Duration)
      ensures this.secret == secret && this.maxClockSkew == maxClockSkew
      ensures fresh(nonces) && nonces.cache == map[] && nonces.ttl == ttl
    {
      this.secret := secret;
      this.maxClockSkew := maxClockSkew;
      nonces := new NonceCache(ttl);
    }

    /** `Verify`, with its first clock read `now` and the later one under the cache's lock. The
        nonce is used up before the signature is looked at. */
    method Verify(cmd: Command, now: int, locked: int) returns (verdict: Verdict)
      modifies nonces
      ensures verdict ==
              if secret == "" then EmptySecret
              else if !cmd.signed then MissingSignature
              else if !InWindow(now, cmd.timestamp, maxClockSkew) then OutsideWindow
              else if cmd.nonce in Survivors(old(nonces.cache), nonces.ttl, locked) then Replayed
              else if cmd.genuine then Accepted else BadSignature
      ensures verdict in {EmptySecret, MissingSignature, OutsideWindow} ==> nonces.cache == old(nonces.cache)
      ensures verdict == Replayed ==> nonces.cache == Survivors(old(nonces.cache), nonces.ttl, locked)
      ensures verdict in {BadSignature, Accepted} ==>
                nonces.cache == Survivors(old(nonces.cache), nonces.ttl, locked)[cmd.nonce := cmd.timestamp]
    {
      if secret == "" { return EmptySecret; }
      if !cmd.signed { return MissingSignature; }
      if !InWindow(now, cmd.timestamp, maxClockSkew) { return OutsideWindow; }
      var ok := nonces.CheckAndStore(cmd.nonce, cmd.timestamp, locked);
      if !ok { return Replayed; }
      if !cmd.genuine { return BadSignature; }
      return Accepted;
    }
  }

  // ----- runs of concurrent verifications -----------------------------------------------

  /** `gap` bounds the time between the two clock reads of one verification. */
  datatype Config = Config(ttl: Duration, skew: Duration, gap: nat)

  type Thread = nat

  datatype Pending = Pending(cmd: Command, now: int)

  datatype State = State(cache: Cache, clock: int, pending: map<Thread, Pending>, accepted: seq<(string, int)>)

  datatype Step =
    | Begin(thread: Thread, cmd: Command, now: int)  // first clock read and skew test
    | Finish(thread: Thread, now: int)               // second clock read, cache and signature

  /** The clock does not run backwards. */
  predicate Enabled(c: Config, s: State, step: Step) {
    && step.now >= s.clock
    && match step
       case Begin(thread, cmd, _) => thread !in s.pending && cmd.signed
       case Finish(thread, now) => thread in s.pending && now - s.pending[thread].now <= c.gap
  }

  function Next(c: Config, s: State, step: Step): State
    requires Enabled(c, s, step)
  {
    match step
    case Begin(thread, cmd, now) =>
      if InWindow(now, cmd.timestamp, c.skew)
      then s.(clock := now, pending := s.pending[thread := Pending(cmd, now)])
      else s.(clock := now)
    case Finish(thread, now) =>
      var cmd := s.pending[thread].cmd;
      var kept := Survivors(s.cache, c.ttl, now);
      var done := s.(clock := now, pending := s.pending - {thread});
      if cmd.nonce in kept then done.(cache := kept)
      else if cmd.genuine then
        done.(cache := kept[cmd.nonce := cmd.timestamp], accepted := s.accepted + [(cmd.nonce, cmd.timestamp)])
      else done.(cache := kept[cmd.nonce := cmd.timestamp])
  }

  function Init(clock: int): State {
    State(map[], clock, map[], [])
  }

  predicate IsRun(c: Config, s: State, steps: seq<Step>)
    decreases |steps|
  {
    steps == [] || (Enabled(c, s, steps[0]) && IsRun(c, Next(c, s, steps[0]), steps[1..]))
  }

  function Run(c: Config, s: State, steps: seq<Step>): State
    requires IsRun(c, s, steps)
    decreases |steps|
  {
    if steps == [] then s else Run(c, Next(c, s, steps[0]), steps[1..])
  }

  /** A verification of a signed command is, in the run model, a `Begin` and, unless the command
      is outside the window, a `Finish`: it leaves the same cache, and accepts when they do. */
  method VerifyInSteps(h: Handler, cmd: Command, now: int, locked: int, ghost c: Config, ghost s: State, thread: Thread)
    returns (verdict: Verdict, ghost steps: seq<Step>)
    requires h.secret != "" && c.ttl == h.nonces.ttl && c.skew == h.maxClockSkew && s.cache == h.nonces.cache
    requires Enabled(c, s, Begin(thread, cmd, now)) && now <= locked <= now + c.gap
    modifies h.nonces
    ensures steps == if verdict == OutsideWindow then [Begin(thread, cmd, now)]
                     else [Begin(thread, cmd, now), Finish(thread, locked)]
    ensures IsRun(c, s, steps)
    ensures var t := Run(c, s, steps);
            && t.cache == h.nonces.cache
            && t.pending == s.pending
            && t.accepted == s.accepted + if verdict == Accepted then [(cmd.nonce, cmd.timestamp)] else []
  {
    verdict := h.Verify(cmd, now, locked);
    ghost var begun := Next(c, s, Begin(thread, cmd, now));
    if verdict == OutsideWindow {
      steps := [Begin(thread, cmd, now)];
      RunCons(c, s, steps[0], []);
    } else {
      steps := [Begin(thread, cmd, now), Finish(thread, locked)];
      RunCons(c, begun, steps[1], []);
      RunCons(c, s, steps[0], [steps[1]] + []);
      assert steps == [steps[0]] + ([steps[1]] + []);
    }
  }

  lemma RunCons(c: Config, s: State, step: Step, rest: seq<Step>)
    requires Enabled(c, s, step) && IsRun(c, Next(c, s, step), rest)
    ensures IsRun(c, s, [step] + rest)
    ensures Run(c, s, [step] + rest) == Run(c, Next(c, s, step), rest)
  {
    assert ([step] + rest)[1..] == rest;
  }

  /** No pair of nonce and timestamp has been accepted twice. */
  ghost predicate NoReplay(s: State) {
    forall i, j :: 0 <= i < j < |s.accepted| ==> s.accepted[i] != s.accepted[j]
  }

  ghost predicate AtMostOnce(c: Config) {
    forall clock: int, steps: seq<Step> ::
      IsRun(c, Init(clock), steps) ==> NoReplay(Run(c, Init(clock), steps))
  }

  /** An accepted pair is still cached, or too old to be accepted again. */
  ghost predicate Remembered(c: Config, s: State, pair: (string, int)) {
    || (pair.0 in s.cache && s.cache[pair.0] == pair.1)
    || s.clock - pair.1 > c.ttl
  }

  ghost predicate Inv(c: Config, s: State) {
    && NoReplay(s)
    && (forall pair :: pair in s.accepted ==> Remembered(c, s, pair))
    && (forall t :: t in s.pending ==> InWindow(s.pending[t].now, s.pending[t].cmd.timestamp, c.skew))
  }

  /** A pair that passed the skew test is not yet too old when its cache lookup happens. */
  lemma NotExpired(c: Config, s: State, thread: Thread, now: int)
    requires c.ttl >= c.skew + c.gap && 0 <= c.skew < MAX_DURATION
    requires Inv(c, s) && Enabled(c, s, Finish(thread, now))
    ensures now - s.pending[thread].cmd.timestamp <= c.ttl
  {
    InWindowIff(s.pending[thread].now, s.pending[thread].cmd.timestamp, c.skew);
  }

  lemma StepKeepsInv(c: Config, s: State, step: Step)
    requires c.ttl >= c.skew + c.gap && 0 <= c.skew < MAX_DURATION && c.ttl < MAX_DURATION
    requires Inv(c, s) && Enabled(c, s, step)
    ensures Inv(c, Next(c, s, step))
  {
    var t := Next(c, s, step);
    if step.Finish? {
      NotExpired(c, s, step.thread, step.now);
      var cmd := s.pending[step.thread].cmd;
      assert (cmd.nonce, cmd.timestamp) in s.accepted ==> Remembered(c, s, (cmd.nonce, cmd.timestamp));
      assert t.accepted == s.accepted || (cmd.nonce, cmd.timestamp) !in s.accepted;
      forall pair | pair in s.accepted ensures Remembered(c, t, pair) { assert Remembered(c, s, pair); }
    }
  }

  lemma {:induction false} RunKeepsInv(c: Config, s: State, steps: seq<Step>)
    requires c.ttl >= c.skew + c.gap && 0 <= c.skew < MAX_DURATION && c.ttl < MAX_DURATION
    requires Inv(c, s) && IsRun(c, s, steps)
    ensures Inv(c, Run(c, s, steps))
    decreases |steps|
  {
    if steps != [] {
      StepKeepsInv(c, s, steps[0]);
      RunKeepsInv(c, Next(c, s, steps[0]), steps[1..]);
    }
  }

  /** A cache that forgets too early lets a pair pass twice. */
  lemma ReplayWithShortTTL(c: Config)
    requires 0 <= c.skew && c.skew + c.gap < MAX_DURATION && c.ttl < c.skew + c.gap
    ensures !AtMostOnce(c)
  {
    var cmd := Command("n", 0, true, true);
    var a, b, d, e := Begin(0, cmd, 0), Finish(0, 0), Begin(0, cmd, c.skew), Finish(0, c.skew + c.gap);
    var s0 := Init(0);
    var s1 := Next(c, s0, a);
    var s2 := Next(c, s1, b);
    var s3 := Next(c, s2, d);
    var s4 := Next(c, s3, e);
    assert s4.accepted == [("n", 0), ("n", 0)];
    RunCons(c, s3, e, []);
    RunCons(c, s2, d, [e] + []);
    RunCons(c, s1, b, [d] + ([e] + []));
    RunCons(c, s0, a, [b] + ([d] + ([e] + [])));
    assert s4.accepted[0] == s4.accepted[1];
  }

  /** At-most-once acceptance in every interleaving and for every monotonic clock holds exactly
      when entries live at least as long as the skew plus the longest gap between the two
      clock reads of one verification. */
  lemma AtMostOnceIff(c: Config)
    requires 0 <= c.skew && c.skew + c.gap < MAX_DURATION && c.ttl < MAX_DURATION
    ensures AtMostOnce(c) <==> c.ttl >= c.skew + c.gap
  {
    if c.ttl >= c.skew + c.gap {
      forall clock: int, steps: seq<Step> | IsRun(c, Init(clock), steps) ensures NoReplay(Run(c, Init(clock), steps)) {
        RunKeepsInv(c, Init(clock), steps);
      }
    } else {
      ReplayWithShortTTL(c);
    }
  }
}
