/**
 The sliding-window-log rate limiter: one sorted set of accepted call times and one block entry per
 key, both with a time to live. Times are milliseconds, configured durations whole seconds.
 */
module RateLimiter {
  import opened Wrappers

  /** `blockDuration` 0 stands for "not configured": the window length is used instead. */
  datatype Config = Config(points: nat, duration: nat, blockDuration: nat) {
    function Window(): nat { duration * 1000 }
    function BlockSeconds(): nat { if blockDuration != 0 then blockDuration else duration }
    function Block(): nat { BlockSeconds() * 1000 }
  }

  /** The scores of the sorted set, oldest first, and the instant at which its EXPIRE fires. */
  datatype Log = Log(scores: seq<nat>, end: nat)

  /** The block key: its stored value and the instant at which its SETEX fires. */
  datatype Block = Block(until: nat, end: nat)

  datatype KeyState = KeyState(log: Option<Log>, block: Option<Block>)

  datatype RateLimitResult = RateLimitResult(
    allowed: bool, limit: nat, remaining: nat, reset: nat, retryAfter: Option<nat>)

  const FRESH := KeyState(None, None)

  function CeilSeconds(ms: nat): nat { (ms + 999) / 1000 }

  lemma CeilOfSeconds(s: nat)
    ensures CeilSeconds(s * 1000) == s
  {}

  /** ZREMRANGEBYSCORE 0 bound, seen from what it leaves. */
  function Keep(s: seq<nat>, bound: int): seq<nat> {
    if s == [] then []
    else if s[|s| - 1] > bound then Keep(s[..|s| - 1], bound) + [s[|s| - 1]]
    else Keep(s[..|s| - 1], bound)
  }

  function VisibleScores(log: Option<Log>, now: nat): seq<nat> {
    if log.Some? && now < log.value.end then log.value.scores else []
  }

  predicate Blocked(k: KeyState, now: nat) {
    k.block.Some? && now < k.block.value.end && now < k.block.value.until
  }

  /** What a call came to: turned away by a block, admitted, refused at the limit, or let through after a store
      error. */
  datatype Verdict = BlockedUntil(until: nat) | Admitted(count: nat) | LimitReached | FailedOpen {
    predicate Passes() { Admitted? || FailedOpen? }
  }

  datatype Outcome = Outcome(state: KeyState, verdict: Verdict)

  /** The script's part of a call: prune, count, and add the call when the limit is not reached. */
  function RunScript(c: Config, k: KeyState, now: nat): Outcome {
    var kept := Keep(VisibleScores(k.log, now), now - c.Window());
    if |kept| < c.points then
      Outcome(KeyState(Some(Log(kept + [now], now + (c.duration + 1) * 1000)), None), Admitted(|kept| + 1))
    else
      Outcome(KeyState(if kept == [] then None else Some(Log(kept, k.log.value.end)), None), LimitReached)
  }

  /** One whole call. A block of zero seconds makes SETEX fail, and the limiter then fails open. */
  function ConsumeKey(c: Config, k: KeyState, now: nat): Outcome {
    if Blocked(k, now) then Outcome(k, BlockedUntil(k.block.value.until))
    else
      var s := RunScript(c, k, now);
      if s.verdict.Admitted? then s
      else if c.BlockSeconds() == 0 then Outcome(s.state, FailedOpen)
      else Outcome(s.state.(block := Some(Block(now + c.Block(), now + c.Block()))), LimitReached)
  }

  /** What the caller is told. */
  function Report(c: Config, now: nat, v: Verdict): RateLimitResult {
    var reset := (now + c.Window()) / 1000;
    match v
    case BlockedUntil(until) =>
      RateLimitResult(false, c.points, 0, until / 1000, Some(if until > now then CeilSeconds(until - now) else 0))
    case Admitted(count) =>
      RateLimitResult(true, c.points, if count < c.points then c.points - count else 0, reset, None)
    case LimitReached => RateLimitResult(false, c.points, 0, reset, Some(c.BlockSeconds()))
    case FailedOpen => RateLimitResult(true, c.points, c.points, reset, None)
  }

  // ---------------------------------------------------------------- the service

  class RateLimiterService {
    var logs: map<string, Log>
    var blocks: map<string, Block>

    /** Per key, the times of all calls, and of the calls whose caller was told it is allowed. */
    ghost var calls: map<string, seq<nat>>
    ghost var allowed: map<string, seq<nat>>

    function KeyView(key: string): KeyState
      reads this
    {
      KeyState(if key in logs then Some(logs[key]) else None, if key in blocks then Some(blocks[key]) else None)
    }

    ghost function Times(key: string): seq<nat>
      reads this
    {
      if key in calls then calls[key] else []
    }

    ghost function AllowedTimes(key: string): seq<nat>
      reads this
    {
      if key in allowed then allowed[key] else []
    }

    /** The calls on a key have all come under this configuration, and in the order of their times. */
    ghost predicate Follows(key: string, c: Config)
      reads this
    {
      && NonDecreasing(Times(key))
      && KeyView(key) == After(c, Times(key))
      && AllowedTimes(key) == Accepted(c, Times(key))
    }

    constructor ()
      ensures forall key :: KeyView(key) == FRESH && Times(key) == AllowedTimes(key) == []
      ensures forall key, c :: Follows(key, c)
    {
      logs, blocks, calls, allowed := map[], map[], map[], map[];
    }

    /** The script, run atomically by the store. */
    method Eval(key: string, now: nat, windowStart: int, limit: nat, ttl: nat) returns (admitted: bool, current: nat)
      modifies this`logs
      ensures var kept := Keep(VisibleScores(old(KeyView(key)).log, now), windowStart);
              && admitted == (|kept| < limit)
              && current == (if admitted then |kept| + 1 else |kept|)
              && KeyView(key).log == (
                if admitted then Some(Log(kept + [now], now + ttl * 1000))
                else if kept == [] then None
                else Some(Log(kept, old(logs)[key].end)))
      ensures logs - {key} == old(logs) - {key}
    {
      // an expired key, or one whose last member is removed, no longer exists
      if key in logs {
        var kept := if now < logs[key].end then Keep(logs[key].scores, windowStart) else [];
        logs := if kept == [] then logs - {key} else logs[key := Log(kept, logs[key].end)];
      }
      current := if key in logs then |logs[key].scores| else 0;
      admitted := current < limit;
      if admitted {
        var members := if key in logs then logs[key].scores else [];
        logs := logs[key := Log(members + [now], now + ttl * 1000)];
        current := current + 1;
      }
    }

    method Decide(key: string, config: Config, now: nat) returns (r: RateLimitResult)
      modifies this`logs, this`blocks
      ensures KeyView(key) == ConsumeKey(config, old(KeyView(key)), now).state
      ensures r == Report(config, now, ConsumeKey(config, old(KeyView(key)), now).verdict)
      ensures logs - {key} == old(logs) - {key} && blocks - {key} == old(blocks) - {key}
    {
      hide Keep;
      if key in blocks && now < blocks[key].end {
        var blockedTimestamp := blocks[key].until;
        if now < blockedTimestamp {
          var retryAfter := CeilSeconds(blockedTimestamp - now);
          return RateLimitResult(false, config.points, 0, blockedTimestamp / 1000, Some(retryAfter));
        }
      }
      ghost var k := KeyView(key);
      blocks := blocks - {key};
      var allowed, current := Eval(key, now, now - config.Window(), config.points, config.duration + 1);
      KeepEmpty(now - config.Window());
      assert KeyView(key) == RunScript(config, k, now).state;
      assert RunScript(config, k, now).verdict == if allowed then Admitted(current) else LimitReached;
      var resetTime := (now + config.Window()) / 1000;
      if allowed {
        return RateLimitResult(true, config.points, config.points - current, resetTime, None);
      }
      if config.BlockSeconds() == 0 {
        return RateLimitResult(true, config.points, config.points, resetTime, None);
      }
      CeilOfSeconds(config.BlockSeconds());
      var seconds := CeilSeconds(config.Block());
      assert seconds == config.BlockSeconds() && seconds * 1000 == config.Block();
      blocks := blocks[key := Block(now + config.Block(), now + seconds * 1000)];
      return RateLimitResult(false, config.points, 0, resetTime, Some(seconds));
    }

    /** The bound is stated over what callers are told: as long as a key keeps its configuration and its calls come in
        time order, in no window of the configured length are more than `points` of them told they are allowed; a caller
        is allowed exactly when no block is live and the window has room, and is told how much room is left. */
    method Consume(key: string, config: Config, now: nat) returns (r: RateLimitResult)
      modifies this
      ensures KeyView(key) == ConsumeKey(config, old(KeyView(key)), now).state
      ensures r == Report(config, now, ConsumeKey(config, old(KeyView(key)), now).verdict)
      ensures logs - {key} == old(logs) - {key} && blocks - {key} == old(blocks) - {key}
      ensures calls == old(calls)[key := old(Times(key)) + [now]]
      ensures allowed == old(allowed)[key := old(AllowedTimes(key)) + if r.allowed then [now] else []]
      ensures old(Follows(key, config)) && Last(old(Times(key))) <= now ==>
                && Follows(key, config)
                && AtMost(config.points, AllowedTimes(key), config.duration * 1000)
                && var used := CountIn(old(AllowedTimes(key)), now - config.duration * 1000, now);
                   && (r.allowed <==>
                         !Blocked(old(KeyView(key)), now) && (config.BlockSeconds() == 0 || used < config.points))
                   && r.remaining == (if r.allowed && used + 1 < config.points then config.points - (used + 1) else 0)
    {
      hide Keep, After, Accepted, CountIn, NonDecreasing, ConsumeKey, Report, AtMost, Blocked;
      ghost var ts, follows := Times(key), Follows(key, config) && Last(Times(key)) <= now;
      AllowedExactlyWhenPassed(config, now, ConsumeKey(config, KeyView(key), now).verdict);
      if follows {
        NextCall(config, ts, now);
      }
      r := Decide(key, config, now);
      calls := calls[key := ts + [now]];
      allowed := allowed[key := AllowedTimes(key) + if r.allowed then [now] else []];
    }
  }

  // ---------------------------------------------------------------- runs

  predicate NonDecreasing(ts: seq<nat>) {
    forall i, j :: 0 <= i < j < |ts| ==> ts[i] <= ts[j]
  }

  /** The key after calls at the given times, starting from a fresh key. */
  function After(c: Config, ts: seq<nat>): KeyState {
    if ts == [] then FRESH else ConsumeKey(c, After(c, ts[..|ts| - 1]), ts[|ts| - 1]).state
  }

  /** How a call at `now` fares after calls at the given times. */
  function Answer(c: Config, ts: seq<nat>, now: nat): Verdict {
    ConsumeKey(c, After(c, ts), now).verdict
  }

  /** The times of the accepted calls. */
  function Accepted(c: Config, ts: seq<nat>): seq<nat> {
    if ts == [] then []
    else
      var before := ts[..|ts| - 1];
      if Answer(c, before, ts[|ts| - 1]).Passes() then Accepted(c, before) + [ts[|ts| - 1]] else Accepted(c, before)
  }

  /** How many of the times fall in (lo, hi]. */
  function CountIn(s: seq<nat>, lo: int, hi: int): nat {
    if s == [] then 0
    else CountIn(s[..|s| - 1], lo, hi) + if lo < s[|s| - 1] <= hi then 1 else 0
  }

  /** No window of this length holds more than `points` of the times. */
  ghost predicate AtMost(points: nat, s: seq<nat>, window: nat) {
    forall lo: int, hi: int :: hi - lo == window ==> CountIn(s, lo, hi) <= points
  }

  // ---------------------------------------------------------------- facts about Keep and CountIn

  predicate UpTo(s: seq<nat>, bound: int) {
    forall i :: 0 <= i < |s| ==> s[i] <= bound
  }

  lemma {:induction false} KeepTwice(s: seq<nat>, x: int, y: int)
    requires x <= y
    ensures Keep(Keep(s, x), y) == Keep(s, y)
  {
    if s != [] {
      KeepTwice(s[..|s| - 1], x, y);
      if s[|s| - 1] > x {
        var k := Keep(s[..|s| - 1], x) + [s[|s| - 1]];
        assert k[..|k| - 1] == Keep(s[..|s| - 1], x);
      }
    }
  }

  lemma {:induction false} KeepNone(s: seq<nat>, bound: int)
    requires UpTo(s, bound)
    ensures Keep(s, bound) == []
  {
    if s != [] {
      KeepNone(s[..|s| - 1], bound);
    }
  }

  lemma {:induction false} KeepCounts(s: seq<nat>, lo: int, hi: int)
    requires UpTo(s, hi)
    ensures |Keep(s, lo)| == CountIn(s, lo, hi)
  {
    if s != [] {
      KeepCounts(s[..|s| - 1], lo, hi);
    }
  }

  /** Moving the window's end to where the times end, and its start back, loses no time. */
  lemma {:induction false} CountMonotone(s: seq<nat>, lo: int, hi: int, lo': int, hi': int)
    requires lo' <= lo && UpTo(s, hi')
    ensures CountIn(s, lo, hi) <= CountIn(s, lo', hi')
  {
    if s != [] {
      CountMonotone(s[..|s| - 1], lo, hi, lo', hi');
    }
  }

  lemma {:induction false} EmptyWindow(s: seq<nat>, t: int)
    ensures CountIn(s, t, t) == 0
  {
    if s != [] {
      EmptyWindow(s[..|s| - 1], t);
    }
  }

  lemma KeepEmpty(bound: int)
    ensures Keep([], bound) == []
  {}

  lemma KeepAppend(s: seq<nat>, x: nat, bound: int)
    ensures Keep(s + [x], bound) == if x > bound then Keep(s, bound) + [x] else Keep(s, bound)
  {
    assert (s + [x])[..|s|] == s;
  }

  lemma CountAppend(s: seq<nat>, x: nat, lo: int, hi: int)
    ensures CountIn(s + [x], lo, hi) == CountIn(s, lo, hi) + if lo < x <= hi then 1 else 0
  {
    assert (s + [x])[..|s|] == s;
  }

  // ---------------------------------------------------------------- the log against the history

  /** The stored log has lost nothing that a call at `last` or later could still have to count. */
  ghost predicate Faithful(window: nat, log: Option<Log>, accepted: seq<nat>, last: nat) {
    && UpTo(accepted, last)
    && match log
       case None => Keep(accepted, last - window) == []
       case Some(l) =>
         && Keep(l.scores, last - window) == Keep(accepted, last - window)
         && UpTo(accepted, l.end - window)
  }

  /** Neither pruning nor the time to live of duration + 1 seconds drops an entry still in the window. */
  lemma FaithfulLater(window: nat, k: KeyState, accepted: seq<nat>, last: nat, now: nat)
    requires Faithful(window, k.log, accepted, last) && last <= now
    ensures Keep(VisibleScores(k.log, now), now - window) == Keep(accepted, now - window)
  {
    hide Keep;
    KeepTwice(accepted, last - window, now - window);
    KeepEmpty(now - window);
    if k.log.Some? {
      KeepTwice(k.log.value.scores, last - window, now - window);
      if k.log.value.end <= now {
        KeepNone(accepted, now - window);
      }
    }
  }

  /** Keeping `kept`, and adding `now` when the call is admitted, leaves a faithful log. */
  lemma FaithfulPruned(window: nat, end: nat, accepted: seq<nat>, now: nat)
    requires UpTo(accepted, now)
    ensures Keep(accepted, now - window) == [] ==> Faithful(window, None, accepted, now)
    ensures UpTo(accepted, end - window) ==>
              Faithful(window, Some(Log(Keep(accepted, now - window), end)), accepted, now)
    ensures now + window <= end ==>
              Faithful(window, Some(Log(Keep(accepted, now - window) + [now], end)), accepted + [now], now)
  {
    hide Keep;
    var bound := now - window;
    KeepTwice(accepted, bound, bound);
    KeepAppend(accepted, now, bound);
    KeepAppend(Keep(accepted, bound), now, bound);
  }

  lemma FaithfulScript(c: Config, k: KeyState, accepted: seq<nat>, last: nat, now: nat)
    requires Faithful(c.Window(), k.log, accepted, last) && last <= now
    ensures var s := RunScript(c, k, now);
            Faithful(c.Window(), s.state.log, if s.verdict.Passes() then accepted + [now] else accepted, now)
  {
    hide Keep;
    var window := c.Window();
    FaithfulLater(window, k, accepted, last, now);
    KeepEmpty(now - window);
    var kept := Keep(accepted, now - window);
    if |kept| < c.points {
      var end := now + (c.duration + 1) * 1000;
      assert end == now + window + 1000;
      FaithfulPruned(window, end, accepted, now);
      assert RunScript(c, k, now).state.log == Some(Log(kept + [now], end));
    } else if kept != [] {
      FaithfulPruned(window, k.log.value.end, accepted, now);
    } else {
      FaithfulPruned(window, 0, accepted, now);
    }
  }

  lemma FaithfulStep(c: Config, k: KeyState, accepted: seq<nat>, last: nat, now: nat)
    requires Faithful(c.Window(), k.log, accepted, last) && last <= now
    ensures var o := ConsumeKey(c, k, now);
            Faithful(c.Window(), o.state.log, if o.verdict.Passes() then accepted + [now] else accepted, now)
  {
    hide Keep;
    if Blocked(k, now) {
      var w := c.Window();
      KeepTwice(accepted, last - w, now - w);
      KeepEmpty(now - w);
      if k.log.Some? {
        KeepTwice(k.log.value.scores, last - w, now - w);
      }
    } else {
      FaithfulScript(c, k, accepted, last, now);
      if ConsumeKey(c, k, now).verdict.FailedOpen? {
        FaithfulLater(0, k, accepted, last, now);
        KeepNone(accepted, now);
        KeepNone(accepted + [now], now);
      }
    }
  }

  function Last(ts: seq<nat>): nat { if ts == [] then 0 else ts[|ts| - 1] }

  lemma {:induction false} RunFaithful(c: Config, ts: seq<nat>)
    requires NonDecreasing(ts)
    ensures Faithful(c.Window(), After(c, ts).log, Accepted(c, ts), Last(ts))
  {
    if ts != [] {
      var before := ts[..|ts| - 1];
      RunFaithful(c, before);
      FaithfulStep(c, After(c, before), Accepted(c, before), Last(before), Last(ts));
    }
  }

  // ---------------------------------------------------------------- main results

  /** The decision of a call, told from the history of accepted calls alone. */
  lemma AcceptedIff(c: Config, ts: seq<nat>, now: nat)
    requires NonDecreasing(ts) && Last(ts) <= now
    ensures Answer(c, ts, now).Passes() <==>
              && !Blocked(After(c, ts), now)
              && (c.BlockSeconds() == 0 || CountIn(Accepted(c, ts), now - c.duration * 1000, now) < c.points)
  {
    hide Keep, CountIn, After, Accepted, ConsumeKey, RunScript;
    var k, w := After(c, ts), c.Window();
    Decides(c, k, now);
    if c.BlockSeconds() != 0 {
      RunFaithful(c, ts);
      FaithfulLater(w, k, Accepted(c, ts), Last(ts), now);
      UpToLast(c, ts, now);
      KeepCounts(Accepted(c, ts), now - w, now);
    }
  }

  /** A call is decided by the block, by the limit, and by whether there is a block to set. */
  lemma Decides(c: Config, k: KeyState, now: nat)
    ensures ConsumeKey(c, k, now).verdict.Passes() <==>
              && !Blocked(k, now)
              && (c.BlockSeconds() == 0 || |Keep(VisibleScores(k.log, now), now - c.Window())| < c.points)
  {
    hide Keep;
  }

  lemma UpToLast(c: Config, ts: seq<nat>, now: nat)
    requires Faithful(c.Window(), After(c, ts).log, Accepted(c, ts), Last(ts)) && Last(ts) <= now
    ensures UpTo(Accepted(c, ts), now)
  {
    hide Keep, After, Accepted;
  }

  /** In no window of the configured length, wherever it is placed, are more than `points` calls accepted. */
  lemma {:induction false} SlidingWindowBound(c: Config, ts: seq<nat>, t: int)
    requires NonDecreasing(ts)
    ensures CountIn(Accepted(c, ts), t - c.duration * 1000, t) <= c.points
  {
    hide Keep, ConsumeKey;
    if c.BlockSeconds() == 0 {
      EmptyWindow(Accepted(c, ts), t);
    } else if ts != [] {
      SlidingWindowBound(c, ts[..|ts| - 1], t);
      if Answer(c, ts[..|ts| - 1], Last(ts)).Passes() {
        BoundStep(c, ts[..|ts| - 1], Last(ts), t, c.Window());
      }
    }
  }

  lemma BoundStep(c: Config, before: seq<nat>, now: nat, t: int, w: nat)
    requires NonDecreasing(before) && Last(before) <= now && c.BlockSeconds() != 0 && w == c.Window()
    requires CountIn(Accepted(c, before), t - w, t) <= c.points
    requires Answer(c, before, now).Passes()
    ensures CountIn(Accepted(c, before) + [now], t - w, t) <= c.points
  {
    hide Keep, CountIn, ConsumeKey;
    AcceptedIff(c, before, now);
    RunFaithful(c, before);
    CountAppend(Accepted(c, before), now, t - w, t);
    if t - w < now <= t {
      CountMonotone(Accepted(c, before), t - w, t, now - w, now);
    }
  }

  /** A caller is told it is allowed exactly when the call passes. */
  lemma AllowedExactlyWhenPassed(c: Config, now: nat, v: Verdict)
    ensures Report(c, now, v).allowed <==> v.Passes()
    ensures Report(c, now, v).limit == c.points
    ensures v.BlockedUntil? || v.LimitReached? <==> Report(c, now, v).retryAfter.Some?
  {}

  /** A caller that is allowed is told the points less the accepted calls in its window, this one included; one that
      is not is told there are none. */
  lemma RemainingIsTheRoomLeft(c: Config, ts: seq<nat>, now: nat)
    requires NonDecreasing(ts) && Last(ts) <= now
    ensures var r := Report(c, now, Answer(c, ts, now));
            var used := CountIn(Accepted(c, ts), now - c.duration * 1000, now);
            r.remaining == if r.allowed && used + 1 < c.points then c.points - (used + 1) else 0
  {
    hide Keep, CountIn, After, Accepted;
    var k, w := After(c, ts), c.Window();
    RunFaithful(c, ts);
    FaithfulLater(w, k, Accepted(c, ts), Last(ts), now);
    UpToLast(c, ts, now);
    KeepCounts(Accepted(c, ts), now - w, now);
    EmptyWindow(Accepted(c, ts), now);
  }

  /** What one more call in time order adds to a run. */
  lemma NextCall(c: Config, ts: seq<nat>, now: nat)
    requires NonDecreasing(ts) && Last(ts) <= now
    ensures NonDecreasing(ts + [now]) && After(c, ts + [now]) == ConsumeKey(c, After(c, ts), now).state
    ensures Accepted(c, ts + [now]) == Accepted(c, ts) + if Answer(c, ts, now).Passes() then [now] else []
    ensures AtMost(c.points, Accepted(c, ts + [now]), c.duration * 1000)
    ensures var r := Report(c, now, Answer(c, ts, now));
            var used := CountIn(Accepted(c, ts), now - c.duration * 1000, now);
            && (r.allowed <==> !Blocked(After(c, ts), now) && (c.BlockSeconds() == 0 || used < c.points))
            && r.remaining == if r.allowed && used + 1 < c.points then c.points - (used + 1) else 0
  {
    hide Keep, CountIn, ConsumeKey, Report, After, Accepted, AtMost, Blocked, NonDecreasing;
    InTimeOrder(ts, now);
    OneMoreCall(c, ts, now);
    OneMoreAccepted(c, ts, now);
    AcceptedIff(c, ts, now);
    AllowedExactlyWhenPassed(c, now, Answer(c, ts, now));
    RemainingIsTheRoomLeft(c, ts, now);
    WindowsOf(c, ts + [now]);
  }

  lemma InTimeOrder(ts: seq<nat>, now: nat)
    requires NonDecreasing(ts) && Last(ts) <= now
    ensures NonDecreasing(ts + [now])
  {}

  lemma OneMoreAccepted(c: Config, ts: seq<nat>, now: nat)
    ensures Accepted(c, ts + [now]) == Accepted(c, ts) + if Answer(c, ts, now).Passes() then [now] else []
  {
    hide ConsumeKey, After;
    assert (ts + [now])[..|ts|] == ts;
    assert Accepted(c, ts) + [] == Accepted(c, ts);
  }

  lemma WindowsOf(c: Config, ts: seq<nat>)
    requires NonDecreasing(ts)
    ensures AtMost(c.points, Accepted(c, ts), c.duration * 1000)
  {
    hide CountIn, Accepted;
    forall lo: int, hi: int | hi - lo == c.duration * 1000 ensures CountIn(Accepted(c, ts), lo, hi) <= c.points {
      SlidingWindowBound(c, ts, hi);
    }
  }

  /** The configured lengths: the window is `duration` seconds; a block is `blockDuration` seconds, or the window's
      length where none is configured. A refused caller is told the whole second in which its window, or the block it
      met, ends. */
  lemma ConfiguredLengths(c: Config, now: nat, v: Verdict)
    ensures c.Block() == 1000 * if c.blockDuration > 0 then c.blockDuration else c.duration
    ensures var end := if v.BlockedUntil? then v.until else now + 1000 * c.duration;
            Report(c, now, v).reset * 1000 <= end < Report(c, now, v).reset * 1000 + 1000
  {}

  /** A call refused because the limit is reached, as opposed to one met by a block. */
  predicate LimitRefusal(c: Config, ts: seq<nat>, now: nat) {
    Answer(c, ts, now).LimitReached?
  }

  /** A key blocked until `until`, as its value and its time to live both say. */
  predicate BlockedFor(k: KeyState, until: nat) { k.block == Some(Block(until, until)) }

  lemma BlockAnswers(c: Config, k: KeyState, until: nat, now: nat)
    requires BlockedFor(k, until) && now < until
    ensures ConsumeKey(c, k, now) == Outcome(k, BlockedUntil(until))
  {
    hide RunScript;
  }

  lemma RefusalBlocks(c: Config, k: KeyState, now: nat)
    requires ConsumeKey(c, k, now).verdict.LimitReached?
    ensures BlockedFor(ConsumeKey(c, k, now).state, now + c.Block())
  {
    hide RunScript;
  }

  lemma OneMoreCall(c: Config, ts: seq<nat>, now: nat)
    ensures After(c, ts + [now]) == ConsumeKey(c, After(c, ts), now).state
  {
    hide ConsumeKey;
    assert (ts + [now])[..|ts|] == ts;
  }

  /** Every call before the block's end is met by the block, and leaves the key as it was. */
  lemma {:induction false} BlockHolds(c: Config, ts: seq<nat>, refused: nat, during: seq<nat>)
    requires LimitRefusal(c, ts, refused)
    requires forall i :: 0 <= i < |during| ==> refused <= during[i] < refused + c.Block()
    ensures After(c, ts + [refused] + during) == After(c, ts + [refused])
    ensures forall m: nat :: refused <= m < refused + c.Block() ==>
              Answer(c, ts + [refused] + during, m) == BlockedUntil(refused + c.Block())
  {
    hide ConsumeKey, After;
    var k := After(c, ts + [refused]);
    OneMoreCall(c, ts, refused);
    RefusalBlocks(c, After(c, ts), refused);
    if during == [] {
      assert ts + [refused] + during == ts + [refused];
    } else {
      var shorter, last := during[..|during| - 1], during[|during| - 1];
      BlockHolds(c, ts, refused, shorter);
      OneMoreCall(c, ts + [refused] + shorter, last);
      assert ts + [refused] + during == ts + [refused] + shorter + [last];
      BlockAnswers(c, k, refused + c.Block(), last);
    }
    forall m: nat | refused <= m < refused + c.Block()
      ensures Answer(c, ts + [refused] + during, m) == BlockedUntil(refused + c.Block())
    {
      BlockAnswers(c, k, refused + c.Block(), m);
    }
  }

  /** A caller met by a block is told the fewest whole seconds that reach its end; the refused caller likewise. */
  lemma RetryAfterReachesBlockEnd(c: Config, now: nat, until: nat)
    requires now < until
    ensures var r := Report(c, now, BlockedUntil(until));
            !r.allowed && r.retryAfter.Some? && until <= now + r.retryAfter.value * 1000 < until + 1000
    ensures Report(c, now, LimitReached).retryAfter == Some(c.BlockSeconds()) && c.Block() == c.BlockSeconds() * 1000
  {}

  /** The first call at or after the block's end: accepted exactly when the window has room again. */
  lemma FirstAfterBlock(c: Config, ts: seq<nat>, refused: nat, during: seq<nat>, m: nat)
    requires NonDecreasing(ts + [refused] + during)
    requires LimitRefusal(c, ts, refused)
    requires forall i :: 0 <= i < |during| ==> refused <= during[i] < refused + c.Block()
    requires refused + c.Block() <= m
    ensures Answer(c, ts + [refused] + during, m).Passes() <==> CountIn(Accepted(c, ts), m - c.Window(), m) < c.points
  {
    hide Keep, CountIn, After, Accepted, ConsumeKey, NonDecreasing;
    var all, k1 := ts + [refused] + during, ts + [refused];
    assert all[..|ts| + 1] == k1 && k1[..|ts|] == ts;
    NonDecreasingPrefix(all, |ts| + 1);
    NonDecreasingPrefix(k1, |ts|);
    RefusedCall(c, ts, refused);
    BlockHolds(c, ts, refused, during);
    AcceptedIff(c, k1, m);
  }

  lemma RefusedCall(c: Config, ts: seq<nat>, refused: nat)
    requires LimitRefusal(c, ts, refused)
    ensures Accepted(c, ts + [refused]) == Accepted(c, ts) && c.BlockSeconds() != 0
    ensures forall m: nat :: refused + c.Block() <= m ==> !Blocked(After(c, ts + [refused]), m)
  {
    hide Keep, CountIn, RunScript;
    assert (ts + [refused])[..|ts|] == ts;
    OneMoreCall(c, ts, refused);
    RefusalBlocks(c, After(c, ts), refused);
  }

  lemma NonDecreasingPrefix(ts: seq<nat>, n: nat)
    requires NonDecreasing(ts) && n <= |ts|
    ensures NonDecreasing(ts[..n])
    ensures 0 < n < |ts| ==> ts[n - 1] <= ts[n]
  {}

  /** With a block at least as long as the window, the first call after the block is always accepted. */
  lemma BlockRecovery(c: Config, ts: seq<nat>, refused: nat, during: seq<nat>, m: nat)
    requires NonDecreasing(ts + [refused] + during)
    requires LimitRefusal(c, ts, refused)
    requires forall i :: 0 <= i < |during| ==> refused <= during[i] < refused + c.Block()
    requires refused + c.Block() <= m
    requires c.points >= 1 && c.Window() <= c.Block()
    ensures Answer(c, ts + [refused] + during, m).Passes()
  {
    hide Keep, CountIn;
    FirstAfterBlock(c, ts, refused, during, m);
    var all := ts + [refused] + during;
    assert ts == all[..|ts|] && all[|ts|] == refused;
    NonDecreasingPrefix(all, |ts|);
    RunFaithful(c, ts);
    assert UpTo(Accepted(c, ts), m - c.Window());
    KeepNone(Accepted(c, ts), m - c.Window());
    KeepCounts(Accepted(c, ts), m - c.Window(), m);
  }

  /**
   A block shorter than the window can refuse its caller again: with one point a minute and a block of one
   second, the call that comes as the first block ends meets the limit once more.
   */
  lemma ShortBlockRefusesAgain(c: Config, ts: seq<nat>)
    requires c == Config(1, 60, 1) && ts == [0]
    ensures LimitRefusal(c, ts, 0) && !Answer(c, ts + [0] + [], 1000).Passes()
  {
    hide Keep, CountIn, After, Accepted, CeilSeconds;
    FirstCall(c, ts);
    AcceptedIff(c, ts, 0);
    var all := ts + [0] + [];
    assert |all| == 2 && all[0] == 0 && all[1] == 0;
    FirstAfterBlock(c, ts, 0, [], 1000);
  }

  lemma FirstCall(c: Config, ts: seq<nat>)
    requires c.points == 1 && c.duration > 1 && ts == [0]
    ensures Accepted(c, ts) == [0] && !Blocked(After(c, ts), 0)
    ensures CountIn([0], 0 - c.Window(), 0) == 1 && CountIn([0], 1000 - c.Window(), 1000) == 1
  {
    assert ts[..0] == [];
    KeepEmpty(0 - c.Window());
    assert ConsumeKey(c, FRESH, 0) == RunScript(c, FRESH, 0);
  }
}
