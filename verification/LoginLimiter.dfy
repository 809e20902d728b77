/** The login token bucket with its eviction, against a limiter that never forgets
    (controller/internal/auth/limiter.go). Tokens and seconds are reals. */
module LoginLimiter {
  const BURST := 8.0
  const REFILL := 30.0
  const SWEEP_AFTER := 1800.0
  const MAX_TRACKED := 4096

  datatype Bucket = Bucket(tokens: real, lastSeen: real)

  type Buckets = map<string, Bucket>

  function Min(a: real, b: real): real { if a <= b then a else b }

  /** The tokens a bucket is worth at a later moment. */
  function Worth(b: Bucket, now: real): real { Min(b.tokens + (now - b.lastSeen) / REFILL, BURST) }

  function Sweep(bs: Buckets, now: real): Buckets {
    map k | k in bs && now - bs[k].lastSeen <= SWEEP_AFTER :: bs[k]
  }

  /** The table is full of others: the attempt of an unknown client fails closed. */
  predicate Saturated(bs: Buckets, client: string, now: real) {
    client !in Sweep(bs, now) && |Sweep(bs, now)| >= MAX_TRACKED
  }

  datatype Outcome = Outcome(buckets: Buckets, allowed: bool)

  function Attempt(bs: Buckets, client: string, now: real): Outcome {
    var kept := Sweep(bs, now);
    if Saturated(bs, client, now) then Outcome(kept, false)
    else
      var worth := if client in kept then Worth(kept[client], now) else BURST;
      if worth < 1.0 then Outcome(kept[client := Bucket(worth, now)], false)
      else Outcome(kept[client := Bucket(worth - 1.0, now)], true)
  }

  function Refunded(bs: Buckets, client: string): Buckets {
    if client in bs then bs[client := bs[client].(tokens := Min(bs[client].tokens + 1.0, BURST))] else bs
  }

  class LoginLimiter {
    var buckets: Buckets

    constructor ()
      ensures buckets == map[]
    {
      buckets := map[];
    }

    method SweepLocked(now: real)
      modifies this
      ensures buckets == Sweep(old(buckets), now)
    {
      var todo := buckets.Keys;
      while todo != {}
        invariant todo <= buckets.Keys
        invariant buckets == map k | k in old(buckets) && (k in todo || now - old(buckets)[k].lastSeen <= SWEEP_AFTER)
                               :: old(buckets)[k]
      {
        var key :| key in todo;
        todo := todo - {key};
        if now - buckets[key].lastSeen > SWEEP_AFTER {
          buckets := buckets - {key};
        }
      }
    }

    method Allow(client: string, now: real) returns (allowed: bool)
      modifies this
      ensures buckets == Attempt(old(buckets), client, now).buckets
      ensures allowed == Attempt(old(buckets), client, now).allowed
    {
      SweepLocked(now);
      if client !in buckets {
        if |buckets| >= MAX_TRACKED {
          return false;
        }
        buckets := buckets[client := Bucket(BURST, now)];
      }
      var entry := buckets[client];
      var replenished := (now - entry.lastSeen) / REFILL;
      entry := Bucket(Min(entry.tokens + replenished, BURST), now);
      if entry.tokens < 1.0 {
        buckets := buckets[client := entry];
        return false;
      }
      buckets := buckets[client := entry.(tokens := entry.tokens - 1.0)];
      return true;
    }

    method Refund(client: string)
      modifies this
      ensures buckets == Refunded(old(buckets), client)
    {
      if client in buckets {
        var entry := buckets[client];
        buckets := buckets[client := entry.(tokens := Min(entry.tokens + 1.0, BURST))];
      }
    }
  }

  // ---------- runs ----------

  datatype Op = Try(client: string, at: real) | GiveBack(client: string, at: real)

  function Step(bs: Buckets, op: Op): Buckets {
    match op
    case Try(c, at) => Attempt(bs, c, at).buckets
    case GiveBack(c, _) => Refunded(bs, c)
  }

  function After(bs: Buckets, ops: seq<Op>): Buckets {
    if ops == [] then bs else Step(After(bs, ops[..|ops| - 1]), ops[|ops| - 1])
  }

  /** The clock does not run backwards. */
  ghost predicate Ordered(start: real, ops: seq<Op>) {
    && (forall k :: 0 <= k < |ops| ==> start <= ops[k].at)
    && (forall j, k :: 0 <= j < k < |ops| ==> ops[j].at <= ops[k].at)
  }

  function Now(start: real, ops: seq<Op>): real { if ops == [] then start else ops[|ops| - 1].at }

  ghost predicate Sound(bs: Buckets, now: real) {
    && |bs| <= MAX_TRACKED
    && forall k :: k in bs ==> 0.0 <= bs[k].tokens <= BURST && bs[k].lastSeen <= now
  }

  lemma SweepShrinks(bs: Buckets, now: real)
    ensures |Sweep(bs, now)| <= |bs|
  {
    var kept := Sweep(bs, now);
    var gone := bs.Keys - kept.Keys;
    assert bs.Keys == kept.Keys + gone;
  }

  lemma StepSound(bs: Buckets, op: Op, now: real)
    requires Sound(bs, now) && now <= op.at
    ensures Sound(Step(bs, op), op.at)
  {
    if op.Try? {
      SweepShrinks(bs, op.at);
      var kept := Sweep(bs, op.at);
      var bs' := Attempt(bs, op.client, op.at).buckets;
      if !Saturated(bs, op.client, op.at) {
        assert bs'.Keys == kept.Keys + {op.client};
        if op.client in kept {
          assert bs'.Keys == kept.Keys;
        }
      }
    } else {
      var bs' := Refunded(bs, op.client);
      assert bs'.Keys == bs.Keys;
      assert |bs'| == |bs'.Keys| && |bs| == |bs.Keys|;
    }
  }

  lemma OrderedPrefix(start: real, ops: seq<Op>)
    requires Ordered(start, ops) && ops != []
    ensures Ordered(start, ops[..|ops| - 1])
    ensures Now(start, ops[..|ops| - 1]) <= ops[|ops| - 1].at
  {
  }

  /** The table never exceeds its bound, whoever tries. */
  lemma {:induction false} RunSound(bs: Buckets, start: real, ops: seq<Op>)
    requires Sound(bs, start) && Ordered(start, ops)
    ensures Sound(After(bs, ops), Now(start, ops))
  {
    if ops != [] {
      OrderedPrefix(start, ops);
      RunSound(bs, start, ops[..|ops| - 1]);
      StepSound(After(bs, ops[..|ops| - 1]), ops[|ops| - 1], Now(start, ops[..|ops| - 1]));
    }
  }

  // ---------- the limiter that never forgets ----------

  /** What a client may still spend at a moment; an unknown client has the full burst. */
  function Credit(bs: Buckets, client: string, now: real): real {
    if client in bs then Worth(bs[client], now) else BURST
  }

  /** The ideal limiter spends a whole token or does nothing, and forgets nobody. `blocked` stands for a
      fail-closed denial, which it does not decide itself. */
  function IdealAllows(ideal: Buckets, client: string, now: real, blocked: bool): bool {
    !blocked && Credit(ideal, client, now) >= 1.0
  }

  function IdealStep(ideal: Buckets, op: Op, blocked: bool): Buckets {
    match op
    case Try(c, at) =>
      if IdealAllows(ideal, c, at, blocked) then ideal[c := Bucket(Credit(ideal, c, at) - 1.0, at)] else ideal
    case GiveBack(c, at) => ideal[c := Bucket(Min(Credit(ideal, c, at) + 1.0, BURST), at)]
  }

  function Blocked(bs: Buckets, op: Op): bool { op.Try? && Saturated(bs, op.client, op.at) }

  function IdealAfter(bs: Buckets, ops: seq<Op>): Buckets {
    if ops == [] then bs
    else IdealStep(IdealAfter(bs, ops[..|ops| - 1]), ops[|ops| - 1],
                   Blocked(After(bs, ops[..|ops| - 1]), ops[|ops| - 1]))
  }

  /** Same credit for every client from now on. */
  ghost predicate Agree(bs: Buckets, ideal: Buckets, now: real) {
    && (forall c, t: real :: now <= t ==> Credit(bs, c, t) == Credit(ideal, c, t))
    && (forall c :: c in ideal ==> ideal[c].lastSeen <= now && 0.0 <= ideal[c].tokens <= BURST)
  }

  lemma SweepKeepsCredit(bs: Buckets, now: real, client: string, t: real)
    requires Sound(bs, now) && now <= t
    ensures Credit(Sweep(bs, now), client, t) == Credit(bs, client, t)
  {
  }

  lemma StepAgrees(bs: Buckets, ideal: Buckets, now: real, op: Op)
    requires Sound(bs, now) && Agree(bs, ideal, now) && now <= op.at
    ensures Agree(Step(bs, op), IdealStep(ideal, op, Blocked(bs, op)), op.at)
    ensures op.Try? ==> Attempt(bs, op.client, op.at).allowed == IdealAllows(ideal, op.client, op.at, Blocked(bs, op))
  {
    var bs', ideal' := Step(bs, op), IdealStep(ideal, op, Blocked(bs, op));
    assert Credit(bs, op.client, op.at) == Credit(ideal, op.client, op.at);
    forall c, t: real | op.at <= t ensures Credit(bs', c, t) == Credit(ideal', c, t) {
      assert Sound(bs, op.at);
      SweepKeepsCredit(bs, op.at, c, t);
      SweepKeepsCredit(bs, op.at, op.client, op.at);
      assert Credit(bs, c, t) == Credit(ideal, c, t);
    }
  }

  /** Every answer of the evicting limiter is the ideal one: sweeping, denied attempts and refunds of forgotten
      clients change nothing later, and only the fail-closed denials are its own. */
  lemma {:induction false} RefinesIdeal(bs: Buckets, start: real, ops: seq<Op>, client: string, now: real)
    requires Sound(bs, start) && Ordered(start, ops) && Now(start, ops) <= now
    ensures Agree(After(bs, ops), IdealAfter(bs, ops), Now(start, ops))
    ensures Attempt(After(bs, ops), client, now).allowed
            == IdealAllows(IdealAfter(bs, ops), client, now, Saturated(After(bs, ops), client, now))
  {
    if ops != [] {
      OrderedPrefix(start, ops);
      var front, op := ops[..|ops| - 1], ops[|ops| - 1];
      RefinesIdeal(bs, start, front, client, Now(start, front));
      RunSound(bs, start, front);
      StepAgrees(After(bs, front), IdealAfter(bs, front), Now(start, front), op);
    }
    RunSound(bs, start, ops);
    StepAgrees(After(bs, ops), IdealAfter(bs, ops), Now(start, ops), Try(client, now));
  }

  // ---------- credit, exactly ----------

  /** What one step does to the credit of any client, from then on: an allowed attempt costs its client exactly one
      token, a refund returns one up to eight, and nothing else changes anything. One token comes back every thirty
      seconds. An attempt is allowed if there is a token, unless its client is unknown and 4096 others tried in the last
      half hour. */
  lemma CreditExactly(bs: Buckets, now: real, op: Op, client: string, t: real)
    requires Sound(bs, now) && now <= op.at <= t
    ensures var credit, credit' := Credit(bs, client, t), Credit(Step(bs, op), client, t);
            credit' == if op.client != client then credit
                       else if op.GiveBack? then Min(credit + 1.0, 8.0)
                       else if Attempt(bs, client, op.at).allowed
                       then Min(Credit(bs, client, op.at) - 1.0 + (t - op.at) / 30.0, 8.0)
                       else credit
    ensures client !in bs ==> Credit(bs, client, t) == 8.0
    ensures op.Try? ==>
              var recent := set c | c in bs && op.at - bs[c].lastSeen <= 1800.0;
              Attempt(bs, op.client, op.at).allowed
              <==> Credit(bs, op.client, op.at) >= 1.0 && (op.client in recent || |recent| < 4096)
  {
    if op.Try? {
      var recent := set c | c in bs && op.at - bs[c].lastSeen <= 1800.0;
      assert recent == Sweep(bs, op.at).Keys;
      assert Sound(bs, op.at);
      SweepKeepsCredit(bs, op.at, client, t);
      SweepKeepsCredit(bs, op.at, client, op.at);
      SweepKeepsCredit(bs, op.at, op.client, op.at);
    }
  }

  function Again(client: string, now: real, n: nat): seq<Op> {
    if n == 0 then [] else Again(client, now, n - 1) + [Try(client, now)]
  }

  lemma OneMoreTry(bs: Buckets, front: seq<Op>, client: string, now: real)
    ensures After(bs, front + [Try(client, now)]) == Attempt(After(bs, front), client, now).buckets
    ensures Allowed(bs, front + [Try(client, now)], client)
         == Allowed(bs, front, client) + if Attempt(After(bs, front), client, now).allowed then 1 else 0
  {
    hide Attempt;
    assert (front + [Try(client, now)])[..|front|] == front;
  }

  function Left(n: nat): real { if n <= 8 then (8 - n) as real else 0.0 }

  lemma LeftStep(n: nat)
    requires n > 0
    ensures Left(n - 1) >= 1.0 <==> n <= 8
    ensures 0.0 <= Left(n - 1) <= 8.0 && Left(n) == if n <= 8 then Left(n - 1) - 1.0 else Left(n - 1)
    ensures Left(1) == 7.0
  {
  }

  /** After `n` attempts of a new client in one moment. */
  ghost predicate Tried(bs: Buckets, ops: seq<Op>, client: string, now: real, n: nat) {
    && Allowed(bs, ops, client) == (if n <= 8 then n else 8)
    && if n == 0 then After(bs, ops) == bs
       else client in After(bs, ops) && After(bs, ops)[client] == Bucket(Left(n), now)
  }

  lemma TriedAgain(bs: Buckets, front: seq<Op>, client: string, now: real, n: nat)
    requires client !in bs && |bs| < 4096 && n > 0 && Tried(bs, front, client, now, n - 1)
    ensures Tried(bs, front + [Try(client, now)], client, now, n)
  {
    hide Attempt;
    hide Allowed;
    hide After;
    hide Left;
    OneMoreTry(bs, front, client, now);
    LeftStep(n);
    if n == 1 {
      FirstTry(bs, client, now);
    } else {
      NextTry(After(bs, front), client, now);
    }
  }

  lemma {:induction false} ManyTries(bs: Buckets, client: string, now: real, n: nat)
    requires client !in bs && |bs| < 4096
    ensures Tried(bs, Again(client, now, n), client, now, n)
  {
    if n > 0 {
      hide Tried;
      ManyTries(bs, client, now, n - 1);
      TriedAgain(bs, Again(client, now, n - 1), client, now, n);
    }
  }

  /** The burst: a new client that tries again and again in one moment is allowed eight times. */
  lemma BurstOfEight(bs: Buckets, client: string, now: real, n: nat)
    requires client !in bs && |bs| < 4096
    ensures Allowed(bs, Again(client, now, n), client) == if n <= 8 then n else 8
  {
    ManyTries(bs, client, now, n);
    hide Allowed;
    hide After;
    hide Again;
  }

  lemma FirstTry(bs: Buckets, client: string, now: real)
    requires client !in bs && |bs| < 4096
    ensures var o := Attempt(bs, client, now); o.allowed && client in o.buckets && o.buckets[client] == Bucket(7.0, now)
  {
    SweepShrinks(bs, now);
  }

  lemma NextTry(bs: Buckets, client: string, now: real)
    requires client in bs && bs[client].lastSeen == now && 0.0 <= bs[client].tokens <= 8.0
    ensures var o, tokens := Attempt(bs, client, now), bs[client].tokens;
            && (o.allowed <==> tokens >= 1.0) && client in o.buckets
            && o.buckets[client] == Bucket(if tokens >= 1.0 then tokens - 1.0 else tokens, now)
  {
  }

  // ---------- rate ----------

  function Allowed(bs: Buckets, ops: seq<Op>, client: string): nat {
    if ops == [] then 0
    else
      var op := ops[|ops| - 1];
      Allowed(bs, ops[..|ops| - 1], client)
      + if op.Try? && op.client == client && Attempt(After(bs, ops[..|ops| - 1]), client, op.at).allowed then 1 else 0
  }

  function GivenBack(ops: seq<Op>, client: string): nat {
    if ops == [] then 0
    else GivenBack(ops[..|ops| - 1], client)
         + if ops[|ops| - 1].GiveBack? && ops[|ops| - 1].client == client then 1 else 0
  }

  lemma StepSpends(bs: Buckets, now: real, op: Op, client: string)
    requires Sound(bs, now) && now <= op.at
    ensures var spent := if op.Try? && op.client == client && Attempt(bs, client, op.at).allowed then 1.0 else 0.0;
            var back := if op.GiveBack? && op.client == client then 1.0 else 0.0;
            Credit(Step(bs, op), client, op.at) + spent - back <= Credit(bs, client, now) + (op.at - now) / REFILL
  {
  }

  lemma {:induction false} SpentWithinCredit(bs: Buckets, start: real, ops: seq<Op>, client: string)
    requires Sound(bs, start) && Ordered(start, ops)
    ensures (Allowed(bs, ops, client) - GivenBack(ops, client)) as real
            + Credit(After(bs, ops), client, Now(start, ops))
            <= Credit(bs, client, start) + (Now(start, ops) - start) / REFILL
  {
    if ops != [] {
      OrderedPrefix(start, ops);
      SpentWithinCredit(bs, start, ops[..|ops| - 1], client);
      RunSound(bs, start, ops[..|ops| - 1]);
      StepSpends(After(bs, ops[..|ops| - 1]), Now(start, ops[..|ops| - 1]), ops[|ops| - 1], client);
    }
  }

  /** In any window a client gets at most the burst plus the refill, net of refunds, across sweeps and re-creation. */
  lemma RateBound(bs: Buckets, start: real, ops: seq<Op>, client: string)
    requires Sound(bs, start) && Ordered(start, ops)
    ensures (Allowed(bs, ops, client) - GivenBack(ops, client)) as real <= BURST + (Now(start, ops) - start) / REFILL
  {
    SpentWithinCredit(bs, start, ops, client);
    RunSound(bs, start, ops);
  }

  // ---------- progress ----------

  /** The credit that has accrued since a denial, whatever the client still had. */
  lemma {:induction false} CreditAccrues(bs: Buckets, start: real, ops: seq<Op>, client: string, t: real)
    requires Sound(bs, start) && Ordered(start, ops) && Now(start, ops) <= t
    requires Allowed(bs, ops, client) == 0
    ensures Credit(After(bs, ops), client, t) >= Min((t - start) / REFILL, BURST)
  {
    if ops != [] {
      OrderedPrefix(start, ops);
      var front, op := ops[..|ops| - 1], ops[|ops| - 1];
      CreditAccrues(bs, start, front, client, t);
      RunSound(bs, start, front);
      if op.Try? {
        assert Sound(After(bs, front), op.at);
        SweepKeepsCredit(After(bs, front), op.at, client, t);
      }
    }
  }

  /** A client denied at `start` and not allowed since is allowed at any moment at least one refill later, exactly
      unless it has been forgotten and the table is full. */
  lemma AllowedAfterRetry(bs: Buckets, start: real, ops: seq<Op>, client: string, now: real)
    requires Sound(bs, start) && Ordered(start, ops) && Now(start, ops) <= now
    requires Allowed(bs, ops, client) == 0
    requires start + REFILL <= now
    ensures Attempt(After(bs, ops), client, now).allowed <==> !Saturated(After(bs, ops), client, now)
  {
    CreditAccrues(bs, start, ops, client, now);
    RunSound(bs, start, ops);
  }

  // ---------- the promise of RetryAfter fails for a forgotten client ----------

  function Only(tokens: real): Buckets { map["y" := Bucket(tokens, 0.0)] }

  function Name(k: nat): string { seq(k, _ => 'x') }

  function Flood(n: nat, at: real): seq<Op> { seq(n, k requires 0 <= k < n => Try(Name(k), at)) }

  ghost predicate Flooded(bs: Buckets, n: nat) {
    && |bs| == n
    && (forall k: string :: k in bs ==> |k| < n && k == Name(|k|) && bs[k].lastSeen == 3000.0)
  }

  lemma FloodStep(bs: Buckets, n: nat)
    requires n < MAX_TRACKED && (Flooded(bs, n) || (n == 0 && bs == Only(0.0)))
    ensures Flooded(Attempt(bs, Name(n), 3000.0).buckets, n + 1)
  {
    var kept := Sweep(bs, 3000.0);
    assert kept == if n == 0 then map[] else bs;
    assert |Name(n)| == n;
    assert Name(n) !in kept;
    var bs' := Attempt(bs, Name(n), 3000.0).buckets;
    assert bs'.Keys == kept.Keys + {Name(n)};
    assert |bs'| == |bs'.Keys| && |kept| == |kept.Keys|;
  }

  lemma {:induction false} FloodFills(n: nat)
    requires 1 <= n <= MAX_TRACKED
    ensures Flooded(After(Only(0.0), Flood(n, 3000.0)), n)
  {
    hide Attempt;
    hide Flooded;
    hide Only;
    assert Flood(n, 3000.0)[..n - 1] == Flood(n - 1, 3000.0);
    if n > 1 {
      FloodFills(n - 1);
    }
    FloodStep(After(Only(0.0), Flood(n - 1, 3000.0)), n - 1);
  }

  function Tries(n: nat): seq<Op> { seq(n, k requires 0 <= k < n => Try("y", 0.0)) }

  lemma LoneAttempt(tokens: real)
    requires 0.0 <= tokens <= BURST
    ensures Attempt(Only(tokens), "y", 0.0)
            == if tokens < 1.0 then Outcome(Only(tokens), false) else Outcome(Only(tokens - 1.0), true)
  {
    assert Sweep(Only(tokens), 0.0) == Only(tokens);
  }

  lemma FirstAttempt()
    ensures Attempt(map[], "y", 0.0) == Outcome(Only(BURST - 1.0), true)
  {
    assert Sweep(map[], 0.0) == map[];
  }

  lemma {:induction false} BurstIsSpent(n: nat)
    requires 1 <= n <= 8
    ensures After(map[], Tries(n)) == Only(BURST - n as real)
  {
    hide Attempt;
    hide Only;
    assert Tries(n)[..n - 1] == Tries(n - 1);
    if n > 1 {
      BurstIsSpent(n - 1);
      LoneAttempt(BURST - (n - 1) as real);
    } else {
      FirstAttempt();
    }
  }

  lemma FloodForgets()
    ensures !Attempt(After(Only(0.0), Flood(MAX_TRACKED, 3000.0)), "y", 3000.0).allowed
  {
    FloodFills(MAX_TRACKED);
    var bs := After(Only(0.0), Flood(MAX_TRACKED, 3000.0));
    assert Sweep(bs, 3000.0) == bs;
    assert "y" !in bs by {
      assert Name(|"y"|)[0] == 'x';
    }
  }

  /** A tracked client that has spent its burst, has just been denied, and waits far longer than `RetryAfter`, can
      still be denied. */
  lemma RetryCanFail()
    ensures var spent := After(map[], Tries(8));
            && Attempt(spent, "y", 0.0) == Outcome(spent, false) && "y" in spent
            && !Attempt(After(spent, Flood(MAX_TRACKED, 3000.0)), "y", 3000.0).allowed
  {
    hide Attempt;
    hide After;
    BurstIsSpent(8);
    LoneAttempt(0.0);
    FloodForgets();
  }
}
