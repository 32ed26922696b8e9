/**
 The token bucket in front of Announce (registry/registry/servicer/registry.py:43-92).

 A denied call stores the refilled tokens together with the old timestamp, so the same
 elapsed time is credited again on the next call. The usual bound "burst + rate * elapsed"
 therefore fails; the bound below, with one extra token per denial, is the one that holds,
 and the conservation law says where every token comes from.
 */
module RateLimiter {
  import opened Wrappers

  type Key = (string, string)

  datatype Bucket = Bucket(tokens: real, last: real)

  datatype Config = Config(rpm: nat, burst: int)

  function Rate(c: Config): real {
    c.rpm as real / 60.0
  }

  function Min(a: real, b: real): real {
    if a <= b then a else b
  }

  /** The bucket a call finds: a new key starts full. */
  function Found(c: Config, b: Option<Bucket>, now: real): Bucket {
    if b.Some? then b.value else Bucket(c.burst as real, now)
  }

  function Refilled(c: Config, b: Bucket, now: real): real {
    Min(c.burst as real, b.tokens + (now - b.last) * Rate(c))
  }

  predicate Allows(c: Config, b: Bucket, now: real) {
    Refilled(c, b, now) >= 1.0
  }

  function After(c: Config, b: Bucket, now: real): Bucket {
    var tokens := Refilled(c, b, now);
    if tokens >= 1.0 then Bucket(tokens - 1.0, now) else Bucket(tokens, b.last)
  }

  /** One question to the limiter. It touches no key but its own; a rate of 0 switches it off. */
  function Ask(c: Config, buckets: map<Key, Bucket>, key: Key, now: real): (bool, map<Key, Bucket>) {
    if c.rpm == 0 then (true, buckets) else
      var b := Found(c, if key in buckets then Some(buckets[key]) else None, now);
      (Allows(c, b, now), buckets[key := After(c, b, now)])
  }

  class Limiter {
    const config: Config
    var buckets: map<Key, Bucket>

    constructor (config: Config)
      ensures this.config == config && buckets == map[]
    {
      this.config := config;
      buckets := map[];
    }

    method IsAllowed(key: Key, now: real) returns (allowed: bool, retryAfter: real)
      modifies this
      ensures (allowed, buckets) == Ask(config, old(buckets), key, now)
      ensures allowed ==> retryAfter == 0.0
      ensures !allowed ==> retryAfter == (1.0 - buckets[key].tokens) / Rate(config)
    {
      if config.rpm == 0 {
        return true, 0.0;
      }
      var ratePerSec := Rate(config);
      var tokens, last := config.burst as real, now;
      if key in buckets {
        tokens, last := buckets[key].tokens, buckets[key].last;
      }
      var elapsed := now - last;
      tokens := Min(config.burst as real, tokens + elapsed * ratePerSec);
      assert tokens ==
             Refilled(config, Found(config, if key in buckets then Some(buckets[key]) else None, now), now);
      if tokens >= 1.0 {
        buckets := buckets[key := Bucket(tokens - 1.0, now)];
        return true, 0.0;
      }
      buckets := buckets[key := Bucket(tokens, last)];
      return false, (1.0 - tokens) / ratePerSec;
    }
  }

  // ----- the bucket with time measured in tokens -------------------------------------------

  function Refill(burst: real, b: Bucket, u: real): real {
    Min(burst, b.tokens + (u - b.last))
  }

  function Step(burst: real, b: Bucket, u: real): Bucket {
    var tokens := Refill(burst, b, u);
    if tokens >= 1.0 then Bucket(tokens - 1.0, u) else Bucket(tokens, b.last)
  }

  ghost predicate Ordered(us: seq<real>) {
    forall i, j :: 0 <= i <= j < |us| ==> us[i] <= us[j]
  }

  /** The bucket that the last of the calls finds; the first call creates it full. */
  function Finds(burst: real, us: seq<real>): Bucket
    requires us != []
    decreases |us|, 0
  {
    var k := |us| - 1;
    if k == 0 then Bucket(burst, us[0]) else Leaves(burst, us[..k])
  }

  /** The bucket that the last of the calls leaves. */
  function Leaves(burst: real, us: seq<real>): Bucket
    requires us != []
    decreases |us|, 1
  {
    Step(burst, Finds(burst, us), us[|us| - 1])
  }

  predicate Passes(burst: real, us: seq<real>)
    requires us != []
  {
    Refill(burst, Finds(burst, us), us[|us| - 1]) >= 1.0
  }

  function Passed(burst: real, us: seq<real>): nat {
    if us == [] then 0 else
      Passed(burst, us[..|us| - 1]) + if Passes(burst, us) then 1 else 0
  }

  function Refused(burst: real, us: seq<real>): nat {
    if us == [] then 0 else
      Refused(burst, us[..|us| - 1]) + if Passes(burst, us) then 0 else 1
  }

  /** Elapsed time credited again because a refused call did not advance the timestamp. */
  function Recredited(burst: real, us: seq<real>): real {
    if us == [] then 0.0 else
      var k := |us| - 1;
      Recredited(burst, us[..k]) + if Passes(burst, us) then 0.0 else us[k] - Finds(burst, us).last
  }

  /** Credit lost to the ceiling. */
  function Spilled(burst: real, us: seq<real>): real {
    if us == [] then 0.0 else
      var k, b := |us| - 1, Finds(burst, us);
      Spilled(burst, us[..k]) + (b.tokens + (us[k] - b.last) - Refill(burst, b, us[k]))
  }

  /** Tokens never leave [0, burst], and the stored time never passes the last call. */
  lemma {:induction false} TokensInRange(burst: real, us: seq<real>)
    requires us != [] && Ordered(us) && burst >= 1.0
    ensures 0.0 <= Leaves(burst, us).tokens <= burst
    ensures us[0] <= Leaves(burst, us).last <= us[|us| - 1]
  {
    var k := |us| - 1;
    if k > 0 {
      TokensInRange(burst, us[..k]);
    }
  }

  /**
   Conservation: passed calls, what the bucket is worth now and what spilled over add up to
   the burst, the elapsed time and the time credited twice.
   */
  lemma {:induction false} Conservation(burst: real, us: seq<real>)
    requires us != []
    ensures var now, b := us[|us| - 1], Leaves(burst, us);
            Passed(burst, us) as real + (b.tokens + (now - b.last)) + Spilled(burst, us) ==
              burst + (now - us[0]) + Recredited(burst, us)
  {
    var k := |us| - 1;
    if k == 0 {
      assert us[..0] == [];
    } else {
      Conservation(burst, us[..k]);
    }
  }

  /** Each refusal credits less than one token again, and nothing is spilled below zero. */
  lemma {:induction false} RecreditBound(burst: real, us: seq<real>)
    requires Ordered(us) && burst >= 1.0
    ensures 0.0 <= Recredited(burst, us) <= Refused(burst, us) as real && 0.0 <= Spilled(burst, us)
  {
    if us != [] {
      var k := |us| - 1;
      RecreditBound(burst, us[..k]);
      if k > 0 {
        TokensInRange(burst, us[..k]);
      }
    }
  }

  lemma PassedBound(burst: real, us: seq<real>)
    requires us != [] && Ordered(us) && burst >= 1.0
    ensures Passed(burst, us) as real <= burst + (us[|us| - 1] - us[0]) + Refused(burst, us) as real
  {
    Conservation(burst, us);
    RecreditBound(burst, us);
    TokensInRange(burst, us);
  }

  /** Calls at least one token apart always pass. */
  lemma {:induction false} TokenApartPasses(burst: real, us: seq<real>)
    requires us != [] && burst >= 1.0
    requires forall i :: 0 < i < |us| ==> us[i] - us[i - 1] >= 1.0
    ensures Passes(burst, us) && Leaves(burst, us).tokens >= 0.0 && Leaves(burst, us).last == us[|us| - 1]
    ensures Refused(burst, us) == 0
  {
    var k := |us| - 1;
    if k > 0 {
      TokenApartPasses(burst, us[..k]);
    } else {
      assert us[..0] == [];
    }
  }

  // ----- the limiter's own clock ----------------------------------------------------------------

  function Clock(c: Config, times: seq<real>): (us: seq<real>)
    ensures |us| == |times| && forall i :: 0 <= i < |us| ==> us[i] == Product(times[i], Rate(c))
  {
    if times == [] then [] else Clock(c, times[..|times| - 1]) + [Product(times[|times| - 1], Rate(c))]
  }

  function Product(a: real, r: real): real {
    a * r
  }

  function Scaled(c: Config, b: Bucket): Bucket {
    Bucket(b.tokens, b.last * Rate(c))
  }

  /** The bucket of one key after calls at these times. */
  function State(c: Config, times: seq<real>): Bucket
    requires times != []
    decreases |times|, 1
  {
    After(c, Before(c, times), times[|times| - 1])
  }

  function Before(c: Config, times: seq<real>): Bucket
    requires times != []
    decreases |times|, 0
  {
    var k := |times| - 1;
    Found(c, if k == 0 then None else Some(State(c, times[..k])), times[k])
  }

  // ----- calls of many keys ---------------------------------------------------------------------

  type Call = (Key, real)

  function Serve(c: Config, calls: seq<Call>): map<Key, Bucket> {
    if calls == [] then map[] else
      var k := |calls| - 1;
      Ask(c, Serve(c, calls[..k]), calls[k].0, calls[k].1).1
  }

  /** When one key called. */
  function TimesOf(calls: seq<Call>, key: Key): seq<real> {
    if calls == [] then [] else
      var k := |calls| - 1;
      TimesOf(calls[..k], key) + if calls[k].0 == key then [calls[k].1] else []
  }

  /**
   Main result: whatever the other keys do, a key's bucket is the one its own calls leave, and
   its next call is answered by that bucket.
   */
  lemma {:induction false} KeysAreIndependent(c: Config, calls: seq<Call>, key: Key, now: real)
    requires c.rpm > 0
    ensures var own := TimesOf(calls, key);
            && (key in Serve(c, calls) <==> own != [])
            && (own != [] ==> Serve(c, calls)[key] == State(c, own))
            && Ask(c, Serve(c, calls), key, now).0 == Allows(c, Before(c, own + [now]), now)
  {
    StateSnoc(c, TimesOf(calls, key), now);
    if calls != [] {
      var k := |calls| - 1;
      KeysAreIndependent(c, calls[..k], key, calls[k].1);
      StateSnoc(c, TimesOf(calls[..k], key), calls[k].1);
      assert TimesOf(calls[..k], key) + [] == TimesOf(calls[..k], key);
    }
  }

  lemma StateSnoc(c: Config, times: seq<real>, now: real)
    ensures Before(c, times + [now]) == Found(c, if times == [] then None else Some(State(c, times)), now)
    ensures State(c, times + [now]) == After(c, Before(c, times + [now]), now)
  {
    assert (times + [now])[..|times|] == times;
  }

  // ----- counting ---------------------------------------------------------------------------------

  /** How many of a key's calls were answered with this answer. */
  function Answers(c: Config, calls: seq<Call>, key: Key, answer: bool): nat {
    if calls == [] then 0 else
      var k := |calls| - 1;
      Answers(c, calls[..k], key, answer) +
        if calls[k].0 == key && Ask(c, Serve(c, calls[..k]), key, calls[k].1).0 == answer then 1 else 0
  }

  function AllowedCalls(c: Config, times: seq<real>): nat {
    if times == [] then 0 else
      var k := |times| - 1;
      AllowedCalls(c, times[..k]) + if Allows(c, Before(c, times), times[k]) then 1 else 0
  }

  function DeniedCalls(c: Config, times: seq<real>): nat {
    if times == [] then 0 else
      var k := |times| - 1;
      DeniedCalls(c, times[..k]) + if Allows(c, Before(c, times), times[k]) then 0 else 1
  }

  lemma StepScales(c: Config, b: Bucket, now: real)
    ensures Refilled(c, b, now) == Refill(c.burst as real, Scaled(c, b), now * Rate(c))
    ensures Scaled(c, After(c, b, now)) == Step(c.burst as real, Scaled(c, b), now * Rate(c))
  {
    Distribute(now, b.last, Rate(c));
  }

  lemma StateScales(c: Config, b: Bucket, f: Bucket, now: real, u: real)
    requires Scaled(c, b) == f && u == now * Rate(c)
    ensures Scaled(c, After(c, b, now)) == Step(c.burst as real, f, u)
    ensures Allows(c, b, now) == (Refill(c.burst as real, f, u) >= 1.0)
  {
    StepScales(c, b, now);
  }

  /** Measuring time in tokens changes no decision. */
  lemma {:induction false} RunScales(c: Config, times: seq<real>)
    requires times != []
    ensures Scaled(c, Before(c, times)) == Finds(c.burst as real, Clock(c, times))
    ensures Scaled(c, State(c, times)) == Leaves(c.burst as real, Clock(c, times))
    ensures Allows(c, Before(c, times), times[|times| - 1]) == Passes(c.burst as real, Clock(c, times))
  {
    var k := |times| - 1;
    var us := Clock(c, times);
    assert Scaled(c, Before(c, times)) == Finds(c.burst as real, us) by {
      if k > 0 {
        RunScales(c, times[..k]);
        assert us[..k] == Clock(c, times[..k]);
      }
    }
    StateScales(c, Before(c, times), Finds(c.burst as real, us), times[k], us[k]);
  }

  lemma {:induction false} CountsScale(c: Config, times: seq<real>)
    ensures AllowedCalls(c, times) == Passed(c.burst as real, Clock(c, times))
    ensures DeniedCalls(c, times) == Refused(c.burst as real, Clock(c, times))
  {
    if times != [] {
      var k := |times| - 1;
      RunScales(c, times);
      CountsScale(c, times[..k]);
      assert Clock(c, times)[..k] == Clock(c, times[..k]);
    }
  }

  lemma Stretch(a: real, b: real, r: real)
    requires a <= b && r >= 0.0
    ensures Product(a, r) <= Product(b, r)
  {
    assert (b - a) * r >= 0.0;
  }

  lemma ClockMonotone(c: Config, times: seq<real>, i: nat, j: nat)
    requires i < |times| && j < |times| && times[i] <= times[j]
    ensures Clock(c, times)[i] <= Clock(c, times)[j]
  {
    Stretch(times[i], times[j], Rate(c));
  }

  lemma ClockOrdered(c: Config, times: seq<real>)
    requires Ordered(times)
    ensures Ordered(Clock(c, times))
  {
    forall i, j | 0 <= i <= j < |times|
      ensures Clock(c, times)[i] <= Clock(c, times)[j]
    {
      ClockMonotone(c, times, i, j);
    }
  }

  /** What the limiter answered a key is what the key's own calls alone would be answered. */
  lemma {:induction false} AnswersOfOwnCalls(c: Config, calls: seq<Call>, key: Key)
    requires c.rpm > 0
    ensures Answers(c, calls, key, true) == AllowedCalls(c, TimesOf(calls, key))
    ensures Answers(c, calls, key, false) == DeniedCalls(c, TimesOf(calls, key))
  {
    if calls != [] {
      var k := |calls| - 1;
      var before := TimesOf(calls[..k], key);
      AnswersOfOwnCalls(c, calls[..k], key);
      KeysAreIndependent(c, calls[..k], key, calls[k].1);
      assert before + [] == before;
      assert (before + [calls[k].1])[..|before|] == before;
    }
  }

  /** Switched off, the limiter keeps no bucket and denies nothing. */
  lemma {:induction false} OffAllowsAll(c: Config, calls: seq<Call>, key: Key)
    requires c.rpm == 0
    ensures Serve(c, calls) == map[] && Answers(c, calls, key, false) == 0
    ensures Answers(c, calls, key, true) == |TimesOf(calls, key)|
  {
    if calls != [] {
      OffAllowsAll(c, calls[..|calls| - 1], key);
    }
  }

  /** Main result: whatever is called, every bucket's tokens stay in [0, burst]. */
  lemma StateInRange(c: Config, calls: seq<Call>, key: Key)
    requires Ordered(TimesOf(calls, key)) && c.burst >= 1
    ensures key in Serve(c, calls) ==> 0.0 <= Serve(c, calls)[key].tokens <= c.burst as real
  {
    if c.rpm == 0 {
      OffAllowsAll(c, calls, key);
    } else if key in Serve(c, calls) {
      var times := TimesOf(calls, key);
      KeysAreIndependent(c, calls, key, 0.0);
      ClockOrdered(c, times);
      RunScales(c, times);
      TokensInRange(c.burst as real, Clock(c, times));
    }
  }

  /** Main result: the bound that holds for every sequence of calls of every key. */
  lemma AllowedBound(c: Config, calls: seq<Call>, key: Key)
    requires c.rpm > 0 && c.burst >= 1 && TimesOf(calls, key) != [] && Ordered(TimesOf(calls, key))
    ensures var times := TimesOf(calls, key);
            Answers(c, calls, key, true) as real <=
              c.burst as real + Earned(c, times) + Answers(c, calls, key, false) as real
  {
    AnswersOfOwnCalls(c, calls, key);
    OwnBound(c, TimesOf(calls, key));
  }

  lemma OwnBound(c: Config, times: seq<real>)
    requires times != [] && Ordered(times) && c.burst >= 1
    ensures AllowedCalls(c, times) as real <= c.burst as real + Earned(c, times) + DeniedCalls(c, times) as real
  {
    ClockOrdered(c, times);
    CountsScale(c, times);
    PassedBound(c.burst as real, Clock(c, times));
    EarnedScales(c, times);
  }

  // ----- when the usual bound holds ------------------------------------------------------------------

  /** Every denied call came at the stored timestamp. */
  predicate Prompt(c: Config, times: seq<real>) {
    times == [] || (
      var k := |times| - 1;
      Prompt(c, times[..k]) && (!Allows(c, Before(c, times), times[k]) ==> times[k] == Before(c, times).last))
  }

  lemma {:induction false} PromptRecreditsNothing(c: Config, times: seq<real>)
    requires Prompt(c, times)
    ensures Recredited(c.burst as real, Clock(c, times)) == 0.0
  {
    if times != [] {
      var k := |times| - 1;
      var us := Clock(c, times);
      PromptRecreditsNothing(c, times[..k]);
      RunScales(c, times);
      assert us[..k] == Clock(c, times[..k]);
    }
  }

  /** Main result: without credit out of nothing the usual bound holds. */
  lemma UsualBoundWhenPrompt(c: Config, calls: seq<Call>, key: Key)
    requires c.rpm > 0 && c.burst >= 1 && TimesOf(calls, key) != [] && Ordered(TimesOf(calls, key))
    requires Prompt(c, TimesOf(calls, key))
    ensures var times := TimesOf(calls, key);
            Answers(c, calls, key, true) as real <= c.burst as real + Earned(c, times)
  {
    AnswersOfOwnCalls(c, calls, key);
    OwnUsualBound(c, TimesOf(calls, key));
  }

  lemma OwnUsualBound(c: Config, times: seq<real>)
    requires times != [] && Ordered(times) && c.burst >= 1 && Prompt(c, times)
    ensures AllowedCalls(c, times) as real <= c.burst as real + Earned(c, times)
  {
    var us := Clock(c, times);
    ClockOrdered(c, times);
    CountsScale(c, times);
    PromptRecreditsNothing(c, times);
    Conservation(c.burst as real, us);
    RecreditBound(c.burst as real, us);
    TokensInRange(c.burst as real, us);
    EarnedScales(c, times);
  }

  /** The tokens that the time between the first and the last call is worth, at rpm a minute. */
  function Earned(c: Config, times: seq<real>): real
    requires times != []
  {
    Product(times[|times| - 1] - times[0], c.rpm as real / 60.0)
  }

  lemma EarnedScales(c: Config, times: seq<real>)
    requires times != []
    ensures var us := Clock(c, times); Earned(c, times) == us[|us| - 1] - us[0]
  {
    Distribute(times[|times| - 1], times[0], Rate(c));
  }

  lemma Distribute(a: real, b: real, r: real)
    ensures (a - b) * r == a * r - b * r
  {
  }

  lemma {:induction false} LastCall(burst: real, us: seq<real>, u: real, b: Bucket)
    requires us != [] && Leaves(burst, us) == b
    ensures Leaves(burst, us + [u]) == Step(burst, b, u)
    ensures Passed(burst, us + [u]) == Passed(burst, us) + if Refill(burst, b, u) >= 1.0 then 1 else 0
  {
    assert (us + [u])[..|us|] == us;
  }

  /** The first n calls of a full bucket at one moment. */
  lemma {:induction false} BurstPasses(burst: real, us: seq<real>)
    requires us != [] && |us| as real <= burst && forall i :: 0 <= i < |us| ==> us[i] == 0.0
    ensures Leaves(burst, us) == Bucket(burst - |us| as real, 0.0) && Passed(burst, us) == |us|
  {
    var k := |us| - 1;
    if k == 0 {
      assert us[..0] == [];
    } else {
      BurstPasses(burst, us[..k]);
    }
  }

  /** The burst at 0, then calls 0.4, 0.5 and 0.55 tokens of time later. */
  function Overrun(burst: nat): (us: seq<real>)
    ensures |us| == burst + 3
  {
    seq(burst, _ => 0.0) + [0.4] + [0.5] + [0.55]
  }

  lemma OverrunPasses(burst: nat)
    requires burst >= 1
    ensures Passed(burst as real, Overrun(burst)) == burst + 1
  {
    var us, b := seq(burst, _ => 0.0), burst as real;
    BurstPasses(b, us);
    LastCall(b, us, 0.4, Bucket(0.0, 0.0));
    LastCall(b, us + [0.4], 0.5, Bucket(0.4, 0.0));
    LastCall(b, us + [0.4] + [0.5], 0.55, Bucket(0.9, 0.0));
  }

  function Seconds(c: Config, u: real): (t: real)
    requires c.rpm > 0
  {
    u * (60.0 / c.rpm as real)
  }

  lemma SecondsOf(c: Config, u: real)
    requires c.rpm > 0
    ensures Product(Seconds(c, u), Rate(c)) == u
  {
    var n := c.rpm as real;
    Inverse(n);
    assert u * (60.0 / n) * (n / 60.0) == u * ((60.0 / n) * (n / 60.0));
  }

  lemma Inverse(n: real)
    requires n > 0.0
    ensures (60.0 / n) * (n / 60.0) == 1.0
  {
    assert (60.0 / n) * n == 60.0;
    assert (60.0 / n) * (n / 60.0) == (60.0 / n) * n / 60.0;
  }

  lemma OverrunTimes(c: Config, times: seq<real>)
    requires c.rpm > 0 && c.burst >= 1 && |times| == c.burst + 3
    requires forall i :: 0 <= i < |times| ==> times[i] == Seconds(c, Overrun(c.burst)[i])
    ensures Ordered(times) && Clock(c, times) == Overrun(c.burst)
  {
    var us := Overrun(c.burst);
    forall i | 0 <= i < |times|
      ensures Clock(c, times)[i] == us[i]
    {
      SecondsOf(c, us[i]);
    }
    forall i, j | 0 <= i <= j < |times|
      ensures times[i] <= times[j]
    {
      Stretch(us[i], us[j], 60.0 / c.rpm as real);
    }
  }

  /** Main result: for every rate and burst some sequence of calls exceeds the usual bound. */
  lemma TextbookBoundFails(c: Config) returns (times: seq<real>)
    requires c.rpm > 0 && c.burst >= 1
    ensures times != [] && Ordered(times)
    ensures AllowedCalls(c, times) as real > c.burst as real + Earned(c, times)
  {
    times := seq(c.burst + 3, i requires 0 <= i < c.burst + 3 => Seconds(c, Overrun(c.burst)[i]));
    OverrunTimes(c, times);
    CountsScale(c, times);
    OverrunPasses(c.burst);
    EarnedScales(c, times);
  }

  /** What the bucket is worth at `now` if it had no ceiling. */
  function Worth(c: Config, b: Bucket, now: real): real {
    b.tokens + (now - b.last) * Rate(c)
  }

  /** A denied call makes credit out of nothing exactly when time has passed since the stored timestamp. */
  lemma DenialIsFreeIff(c: Config, b: Bucket, now: real)
    requires c.rpm > 0 && !Allows(c, b, now) && b.last <= now && c.burst >= 1
    ensures Worth(c, After(c, b, now), now) == Worth(c, b, now) <==> now == b.last
  {
    var gained := (now - b.last) * Rate(c);
    if now > b.last {
      assert gained > 0.0;
    }
    assert Refilled(c, b, now) == b.tokens + gained;
  }

  // ----- spacing and retrying -------------------------------------------------------------

  lemma OneTokenPerPeriod(c: Config, gap: real)
    requires c.rpm > 0 && gap >= 60.0 / c.rpm as real
    ensures gap * Rate(c) >= 1.0
  {
    var n := c.rpm as real;
    var period := 60.0 / n;
    assert period * n == 60.0;
    assert (gap - period) * n >= 0.0;
    assert gap * n >= 60.0;
    assert gap * Rate(c) == gap * n / 60.0;
  }

  /** Calls at least 60 / rpm seconds apart are at least one token apart. */
  lemma ClockSpaced(c: Config, times: seq<real>, i: nat)
    requires c.rpm > 0 && 0 < i < |times| && times[i] - times[i - 1] >= 60.0 / c.rpm as real
    ensures Clock(c, times)[i] - Clock(c, times)[i - 1] >= 1.0
  {
    OneTokenPerPeriod(c, times[i] - times[i - 1]);
    Distribute(times[i], times[i - 1], Rate(c));
  }

  /** Main result: calls at least 60 / rpm seconds apart are never denied. */
  lemma SpacedCallsPass(c: Config, times: seq<real>)
    requires times != [] && c.rpm > 0 && c.burst >= 1
    requires forall i :: 0 < i < |times| ==> times[i] - times[i - 1] >= 60.0 / c.rpm as real
    ensures DeniedCalls(c, times) == 0
  {
    var us := Clock(c, times);
    forall i | 0 < i < |us|
      ensures us[i] - us[i - 1] >= 1.0
    {
      ClockSpaced(c, times, i);
    }
    TokenApartPasses(c.burst as real, us);
    CountsScale(c, times);
  }

  /** Main result: a denied caller that waits `retry_after` is admitted -- exactly when the burst is at least 1. */
  lemma RetryAfterSuffices(c: Config, b: Bucket, now: real, later: real)
    requires c.rpm > 0 && !Allows(c, b, now) && b.last <= now
    requires later >= now + (1.0 - Refilled(c, b, now)) / Rate(c)
    ensures Allows(c, After(c, b, now), later) <==> c.burst >= 1
  {
    var r, tokens := Rate(c), Refilled(c, b, now);
    var wait := (1.0 - tokens) / r;
    WaitEarns(r, 1.0 - tokens, later - b.last);
    assert later - b.last >= wait;
    assert After(c, b, now) == Bucket(tokens, b.last);
  }

  lemma WaitEarns(r: real, missing: real, gap: real)
    requires r > 0.0 && gap >= missing / r
    ensures gap * r >= missing
  {
    var wait := missing / r;
    assert wait * r == missing;
    assert (gap - wait) * r >= 0.0;
  }
}
