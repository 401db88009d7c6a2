/** The token buckets: what one client can spend, and why forgetting full buckets changes nothing. */
module RateLimit {
  import opened Models

  const SWEEP_EVERY := 1024

  /** A bucket of `limit` units that fills from empty in `period` seconds. */
  datatype Rule = Rule(name: string, limit: nat, period: real) {
    ghost predicate Sound() {
      limit > 0 && period > 0.0
    }
  }

  datatype Bucket = Bucket(rule: Rule, tokens: real, since: real)

  /** By rule name and client. */
  type Buckets = map<(string, string), Bucket>

  datatype Request = Request(rule: Rule, key: string, cost: nat, now: real) {
    function Slot(): (string, string) {
      (rule.name, key)
    }
  }

  function Rate(rule: Rule): real
    requires rule.Sound()
  {
    rule.limit as real / rule.period
  }

  function Min(a: real, b: real): real {
    if a < b then a else b
  }

  /** Tokens a client has at a moment: what was left, refilled since, never more than the limit. */
  function Level(b: Buckets, rule: Rule, key: string, now: real): real
    requires rule.Sound()
  {
    if (rule.name, key) in b then
      var bucket := b[(rule.name, key)];
      Min(rule.limit as real, bucket.tokens + (now - bucket.since) * Rate(rule))
    else
      rule.limit as real
  }

  function Ceil(x: real): (n: int)
    ensures n as real - 1.0 < x <= n as real
  {
    -((-x).Floor)
  }

  /** `RateLimited.retry_after` */
  function RetryAfter(wait: real): int {
    var n := Ceil(wait);
    if n < 1 then 1 else n
  }

  /** Each name stands for one rule, and every bucket was filled under the rule of its name, at or before `now`. */
  ghost predicate Consistent(rules: map<string, Rule>, b: Buckets, now: real) {
    && (forall n :: n in rules ==> rules[n].name == n && rules[n].Sound())
    && (forall s :: s in b ==>
          s.0 in rules && b[s].rule == rules[s.0] && b[s].since <= now
          && 0.0 <= b[s].tokens <= b[s].rule.limit as real)
  }

  ghost predicate Ruled(rules: map<string, Rule>, rule: Rule) {
    rule.name in rules && rules[rule.name] == rule
  }

  // ---- One hit -----------------------------------------------------------------------------------------

  lemma RefillMore(rule: Rule, since: real, now: real, later: real)
    requires rule.Sound() && now <= later
    ensures Rate(rule) > 0.0
    ensures (later - since) * Rate(rule) == (now - since) * Rate(rule) + (later - now) * Rate(rule)
    ensures (later - now) * Rate(rule) >= 0.0
  {
    var r := Rate(rule);
    assert r * rule.period == rule.limit as real;
    assert r > 0.0;
    assert (later - since) * r == ((now - since) + (later - now)) * r;
  }

  lemma LevelBounds(rules: map<string, Rule>, b: Buckets, rule: Rule, key: string, now: real)
    requires Consistent(rules, b, now) && Ruled(rules, rule)
    ensures 0.0 <= Level(b, rule, key, now) <= rule.limit as real
  {
    if (rule.name, key) in b {
      var bucket := b[(rule.name, key)];
      RefillMore(rule, bucket.since, bucket.since, now);
    }
  }

  /** A level never grows faster than the rule refills. */
  lemma LevelGrows(rules: map<string, Rule>, b: Buckets, rule: Rule, key: string, now: real, later: real)
    requires Consistent(rules, b, now) && Ruled(rules, rule) && now <= later
    ensures rule.period > 0.0
    ensures var limit, refilled := rule.limit as real,
                                   Level(b, rule, key, now) + (later - now) * (rule.limit as real / rule.period);
      Level(b, rule, key, later) == if refilled < limit then refilled else limit
  {
    RefillMore(rule, now, now, later);
    if (rule.name, key) in b {
      RefillMore(rule, b[(rule.name, key)].since, now, later);
    }
  }

  lemma LevelGrowsAtMost(rules: map<string, Rule>, b: Buckets, rule: Rule, key: string, now: real, later: real)
    requires Consistent(rules, b, now) && Ruled(rules, rule) && rule.Sound() && now <= later
    ensures Level(b, rule, key, later) <= rule.limit as real
    ensures Level(b, rule, key, later) <= Level(b, rule, key, now) + (later - now) * Rate(rule)
  {
    hide Consistent, Level;
    LevelGrows(rules, b, rule, key, now, later);
  }

  function Spent(b: Buckets, q: Request): Buckets
    requires q.rule.Sound()
  {
    b[q.Slot() := Bucket(q.rule, Level(b, q.rule, q.key, q.now) - q.cost as real, q.now)]
  }

  function Affords(b: Buckets, q: Request): bool
    requires q.rule.Sound()
  {
    q.cost as real <= Level(b, q.rule, q.key, q.now)
  }

  lemma SpentIsConsistent(rules: map<string, Rule>, b: Buckets, q: Request)
    requires Consistent(rules, b, q.now) && Ruled(rules, q.rule) && Affords(b, q)
    ensures Consistent(rules, Spent(b, q), q.now)
  {
    LevelBounds(rules, b, q.rule, q.key, q.now);
    hide Level;
  }

  lemma SpentLevel(rules: map<string, Rule>, b: Buckets, q: Request, rule: Rule, key: string, later: real)
    requires Consistent(rules, b, q.now) && Ruled(rules, q.rule) && q.rule.Sound() && Affords(b, q)
    requires Ruled(rules, rule) && rule.Sound() && q.now <= later
    ensures Level(Spent(b, q), rule, key, later) ==
      if (rule.name, key) == q.Slot()
      then Min(rule.limit as real, Level(b, rule, key, q.now) - q.cost as real + (later - q.now) * Rate(rule))
      else Level(b, rule, key, later)
  {
  }

  /** Spending takes exactly the cost from that client under that rule, and nothing from anyone else. */
  lemma SpentLevels(rules: map<string, Rule>, b: Buckets, q: Request, rule: Rule, key: string, later: real)
    requires Consistent(rules, b, q.now) && Ruled(rules, q.rule) && Affords(b, q)
    requires Ruled(rules, rule) && q.now <= later
    ensures rule.period > 0.0
    ensures var limit, refilled := rule.limit as real, Level(b, rule, key, q.now) - q.cost as real
                                                       + (later - q.now) * (rule.limit as real / rule.period);
      Level(Spent(b, q), rule, key, later) ==
        if (rule.name, key) != (q.rule.name, q.key) then Level(b, rule, key, later)
        else if refilled < limit then refilled else limit
  {
    hide Level, Spent, Affords;
    RulesAreSound(rules, b, rule, q.now);
    SpentLevel(rules, b, q, rule, key, later);
  }

  // ---- Forgetting full buckets ---------------------------------------------------------------------------

  predicate Full(bucket: Bucket, now: real)
    requires bucket.rule.Sound()
  {
    bucket.tokens + (now - bucket.since) * bucket.rule.limit as real / bucket.rule.period >= bucket.rule.limit as real
  }

  /** The two limiters cannot be told apart from `now` on. */
  ghost predicate SameLevels(rules: map<string, Rule>, a: Buckets, b: Buckets, now: real) {
    forall n, key, later :: n in rules && rules[n].Sound() && now <= later ==>
      Level(a, rules[n], key, later) == Level(b, rules[n], key, later)
  }

  lemma FullStaysFull(rule: Rule, bucket: Bucket, now: real, later: real)
    requires rule.Sound() && bucket.rule == rule && Full(bucket, now) && now <= later
    ensures Min(rule.limit as real, bucket.tokens + (later - bucket.since) * Rate(rule)) == rule.limit as real
  {
    RefillMore(rule, bucket.since, now, later);
  }

  lemma ForgetLevel(rules: map<string, Rule>, b: Buckets, slot: (string, string), now: real, n: string, key: string,
                    later: real)
    requires Consistent(rules, b, now) && slot in b && b[slot].rule.Sound() && Full(b[slot], now)
    requires n in rules && rules[n].Sound() && now <= later
    ensures Level(b - {slot}, rules[n], key, later) == Level(b, rules[n], key, later)
  {
    hide Full;
    if (n, key) == slot {
      FullStaysFull(rules[n], b[slot], now, later);
    }
  }

  /** Dropping a bucket that has refilled changes nobody's level, now or later. */
  lemma ForgetFull(rules: map<string, Rule>, b: Buckets, slot: (string, string), now: real)
    requires Consistent(rules, b, now) && slot in b && b[slot].rule.Sound() && Full(b[slot], now)
    ensures Consistent(rules, b - {slot}, now) && SameLevels(rules, b - {slot}, b, now)
  {
    hide Full, Level, Rule.Sound;
    forall n, key, later | n in rules && rules[n].Sound() && now <= later
      ensures Level(b - {slot}, rules[n], key, later) == Level(b, rules[n], key, later)
    {
      ForgetLevel(rules, b, slot, now, n, key, later);
    }
  }

  lemma SameLevelsMore(rules: map<string, Rule>, a: Buckets, b: Buckets, c: Buckets, now: real)
    requires SameLevels(rules, a, b, now) && SameLevels(rules, b, c, now)
    ensures SameLevels(rules, a, c, now)
  {
    hide Level;
  }

  class RateLimiter {
    var buckets: Buckets
    var hits: nat

    constructor ()
      ensures buckets == map[] && hits == 0
    {
      buckets := map[];
      hits := 0;
    }

    /** `_sweep`: only full buckets go, and nobody's level changes. */
    method Sweep(now: real, ghost rules: map<string, Rule>)
      requires Consistent(rules, buckets, now)
      modifies this`buckets
      ensures Consistent(rules, buckets, now) && SameLevels(rules, buckets, old(buckets), now)
      ensures buckets.Keys <= old(buckets).Keys && forall s :: s in buckets ==> !FullAt(old(buckets), s, now)
      ensures forall s :: s in buckets ==> buckets[s] == old(buckets)[s]
    {
      hide Level, Full, SameLevels;
      var left := buckets.Keys;
      SameAsItself(rules, buckets, now);
      while left != {}
        invariant Consistent(rules, buckets, now) && SameLevels(rules, buckets, old(buckets), now)
        invariant left <= buckets.Keys <= old(buckets).Keys
        invariant forall s :: s in buckets ==> buckets[s] == old(buckets)[s]
        invariant forall s :: s in buckets && s !in left ==> !FullAt(old(buckets), s, now)
        decreases |left|
      {
        var slot :| slot in left;
        if Full(buckets[slot], now) {
          ForgetFull(rules, buckets, slot, now);
          SameLevelsMore(rules, buckets - {slot}, buckets, old(buckets), now);
          buckets := buckets - {slot};
        }
        left := left - {slot};
      }
    }

    /** `hit`: spends the cost, or says how long to wait having changed nothing. */
    method Hit(q: Request, ghost rules: map<string, Rule>) returns (retry: Option<int>)
      requires Consistent(rules, buckets, q.now) && Ruled(rules, q.rule)
      modifies this
      ensures Consistent(rules, buckets, q.now)
      ensures retry.None? <==> Affords(old(buckets), q)
      ensures retry.Some? ==> buckets == old(buckets) && hits == old(hits)
      ensures retry.Some? ==>
        retry.value == RetryAfter((q.cost as real - Level(old(buckets), q.rule, q.key, q.now)) / Rate(q.rule))
      ensures retry.None? ==> hits == old(hits) + 1
      ensures retry.None? ==> SameLevels(rules, buckets, Spent(old(buckets), q), q.now)
      ensures retry.None? && hits % 1024 != 0 ==> buckets == Spent(old(buckets), q)
      ensures retry.None? && hits % 1024 == 0 ==> forall s :: s in buckets ==> !FullAt(buckets, s, q.now)
    {
      hide Level, Full, SameLevels, Consistent;
      RulesAreSound(rules, buckets, q.rule, q.now);
      var rate := Rate(q.rule);
      var tokens := q.rule.limit as real;
      if q.Slot() in buckets {
        var bucket := buckets[q.Slot()];
        tokens := bucket.tokens + (q.now - bucket.since) * rate;
      }
      tokens := Min(q.rule.limit as real, tokens);
      LevelIs(buckets, q, tokens);
      if q.cost as real > tokens {
        return Some(RetryAfter((q.cost as real - tokens) / rate));
      }
      SpentIsConsistent(rules, buckets, q);
      buckets := buckets[q.Slot() := Bucket(q.rule, tokens - q.cost as real, q.now)];
      SameAsItself(rules, buckets, q.now);
      hits := hits + 1;
      if hits % SWEEP_EVERY == 0 {
        Sweep(q.now, rules);
      }
      retry := None;
    }
  }

  ghost predicate FullAt(b: Buckets, s: (string, string), now: real) {
    s in b && b[s].rule.Sound() && Full(b[s], now)
  }

  lemma SameAsItself(rules: map<string, Rule>, b: Buckets, now: real)
    ensures SameLevels(rules, b, b, now)
  {
  }

  lemma RulesAreSound(rules: map<string, Rule>, b: Buckets, rule: Rule, now: real)
    requires Consistent(rules, b, now) && Ruled(rules, rule)
    ensures rule.Sound()
  {
  }

  lemma LevelIs(b: Buckets, q: Request, tokens: real)
    requires q.rule.Sound()
    requires tokens == Min(q.rule.limit as real,
      if q.Slot() in b then b[q.Slot()].tokens + (q.now - b[q.Slot()].since) * Rate(q.rule) else q.rule.limit as real)
    ensures tokens == Level(b, q.rule, q.key, q.now)
  {
  }

  // ---- Whole runs, by a limiter that never forgets ---------------------------------------------------------

  ghost predicate SoundRun(rules: map<string, Rule>, reqs: seq<Request>) {
    && (forall n :: n in rules ==> rules[n].name == n && rules[n].Sound())
    && (forall i :: 0 <= i < |reqs| ==> Ruled(rules, reqs[i].rule) && reqs[i].rule.Sound())
    && (forall i, j :: 0 <= i < j < |reqs| ==> reqs[i].now <= reqs[j].now)
  }

  ghost predicate From(reqs: seq<Request>, start: real) {
    forall i :: 0 <= i < |reqs| ==> start <= reqs[i].now
  }

  /** The buckets after some requests, refused ones changing nothing. */
  ghost function After(b: Buckets, reqs: seq<Request>): Buckets
    requires forall i :: 0 <= i < |reqs| ==> reqs[i].rule.Sound()
  {
    var n := |reqs|;
    if n == 0 then b
    else
      var before := After(b, reqs[..n - 1]);
      if Affords(before, reqs[n - 1]) then Spent(before, reqs[n - 1]) else before
  }

  lemma FrontIsSound(rules: map<string, Rule>, reqs: seq<Request>, front: seq<Request>)
    requires SoundRun(rules, reqs) && |reqs| > 0 && front == reqs[..|reqs| - 1]
    ensures SoundRun(rules, front)
    ensures forall i :: 0 <= i < |front| ==> front[i].rule.Sound() && front[i].now <= reqs[|reqs| - 1].now
    ensures Ruled(rules, reqs[|reqs| - 1].rule) && reqs[|reqs| - 1].rule.Sound()
    ensures forall start :: From(reqs, start) ==> From(front, start) && start <= reqs[|reqs| - 1].now
  {
  }

  lemma ConsistentLater(rules: map<string, Rule>, b: Buckets, now: real, later: real)
    requires Consistent(rules, b, now) && now <= later
    ensures Consistent(rules, b, later)
  {
  }

  lemma {:induction false} AfterIsConsistent(rules: map<string, Rule>, b: Buckets, reqs: seq<Request>, start: real,
                                             now: real)
    requires SoundRun(rules, reqs) && From(reqs, start) && Consistent(rules, b, start) && start <= now
    requires forall i :: 0 <= i < |reqs| ==> reqs[i].now <= now
    ensures Consistent(rules, After(b, reqs), now)
  {
    hide Consistent, SoundRun, Spent, Affords, Ruled;
    if reqs == [] {
      ConsistentLater(rules, b, start, now);
    } else {
      var front, q := reqs[..|reqs| - 1], reqs[|reqs| - 1];
      FrontIsSound(rules, reqs, front);
      AfterIsConsistent(rules, b, front, start, q.now);
      var before := After(b, front);
      if Affords(before, q) {
        SpentIsConsistent(rules, before, q);
        ConsistentLater(rules, Spent(before, q), q.now, now);
      } else {
        ConsistentLater(rules, before, q.now, now);
      }
    }
  }

  /** Units granted to one client under one rule at times from `open` to `close`. */
  ghost function Units(b: Buckets, reqs: seq<Request>, rule: Rule, key: string, open: real, close: real): nat
    requires forall i :: 0 <= i < |reqs| ==> reqs[i].rule.Sound()
  {
    var n := |reqs|;
    if n == 0 then 0
    else
      var q := reqs[n - 1];
      Units(b, reqs[..n - 1], rule, key, open, close)
      + if Affords(After(b, reqs[..n - 1]), q) && q.Slot() == (rule.name, key) && open <= q.now <= close then q.cost
        else 0
  }

  /** What a window can have cost by the time of the last request. */
  ghost predicate Bounded(rule: Rule, open: real, close: real, last: real, level: real, units: nat)
    requires rule.Sound()
  {
    && (last < open ==> units == 0)
    && (open <= last <= close ==> units as real + level <= rule.limit as real + (last - open) * Rate(rule))
    && (close < last ==> units as real <= rule.limit as real + (close - open) * Rate(rule))
  }

  lemma BoundedMore(rule: Rule, open: real, close: real, last: real, level: real, units: nat,
                    now: real, refilled: real, spent: nat)
    requires rule.Sound() && open <= close && last <= now
    requires Bounded(rule, open, close, last, level, units)
    requires 0.0 <= level && refilled <= rule.limit as real
    requires refilled <= level + (now - last) * Rate(rule)
    requires open <= now <= close || spent == 0
    ensures Bounded(rule, open, close, now, refilled - spent as real, units + spent)
  {
    RefillMore(rule, open, open, close);
    if open <= last {
      RefillMore(rule, open, last, now);
      if last <= close {
        RefillMore(rule, open, last, close);
      }
    }
    if open <= now {
      RefillMore(rule, open, open, now);
    }
  }

  lemma BoundedFirst(rule: Rule, open: real, close: real, now: real, level: real, spent: nat)
    requires rule.Sound() && open <= close && level <= rule.limit as real
    requires open <= now <= close || spent == 0
    ensures Bounded(rule, open, close, now, level - spent as real, spent)
  {
    RefillMore(rule, open, open, close);
    if open <= now {
      RefillMore(rule, open, open, now);
    }
  }

  /** One request's effect on one client's level and bill. */
  lemma OneRequest(rules: map<string, Rule>, b: Buckets, q: Request, rule: Rule, key: string) returns (spent: nat)
    requires Consistent(rules, b, q.now) && Ruled(rules, q.rule) && Ruled(rules, rule)
    ensures spent == if Affords(b, q) && q.Slot() == (rule.name, key) then q.cost else 0
    ensures Level(if Affords(b, q) then Spent(b, q) else b, rule, key, q.now)
         == Level(b, rule, key, q.now) - spent as real
  {
    LevelBounds(rules, b, rule, key, q.now);
    RefillMore(rule, q.now, q.now, q.now);
    spent := if Affords(b, q) && q.Slot() == (rule.name, key) then q.cost else 0;
    if Affords(b, q) {
      SpentLevels(rules, b, q, rule, key, q.now);
    }
  }

  lemma BoundedNext(rule: Rule, open: real, close: real, last: real, level: real, units: nat,
                    now: real, refilled: real, cost: nat)
    requires rule.Sound() && open <= close && last <= now
    requires Bounded(rule, open, close, last, level, units)
    requires 0.0 <= level && refilled <= rule.limit as real
    requires refilled <= level + (now - last) * Rate(rule)
    ensures Bounded(rule, open, close, now, refilled - cost as real, units + if open <= now <= close then cost else 0)
  {
    hide Bounded, Rate;
    var spent := if open <= now <= close then cost else 0;
    BoundedMore(rule, open, close, last, level, units, now, refilled, spent);
    BoundedIgnores(rule, open, close, now, refilled - spent as real, refilled - cost as real, units + spent);
  }

  lemma {:induction false} RunIsBounded(rules: map<string, Rule>, b: Buckets, reqs: seq<Request>, start: real,
                                        rule: Rule, key: string, open: real, close: real)
    requires SoundRun(rules, reqs) && From(reqs, start) && Consistent(rules, b, start) && Ruled(rules, rule)
    requires rule.Sound() && open <= close && |reqs| > 0
    ensures var last := reqs[|reqs| - 1].now;
      Bounded(rule, open, close, last, Level(After(b, reqs), rule, key, last), Units(b, reqs, rule, key, open, close))
  {
    hide Consistent, SoundRun, Spent, Affords, Ruled, Bounded, Level, From, Rate;
    var front, q := reqs[..|reqs| - 1], reqs[|reqs| - 1];
    FrontIsSound(rules, reqs, front);
    AfterIsConsistent(rules, b, front, start, q.now);
    var before := After(b, front);
    LevelBounds(rules, before, rule, key, q.now);
    var cost := OneRequest(rules, before, q, rule, key);
    var spent := if open <= q.now <= close then cost else 0;
    var refilled := Level(before, rule, key, q.now);
    if front == [] {
      BoundedFirst(rule, open, close, q.now, refilled, spent);
      BoundedIgnores(rule, open, close, q.now, refilled - spent as real, refilled - cost as real, spent);
    } else {
      var last := front[|front| - 1].now;
      RunIsBounded(rules, b, front, start, rule, key, open, close);
      LastIsLast(rules, front, start);
      AfterIsConsistent(rules, b, front, start, last);
      LevelBounds(rules, before, rule, key, last);
      LevelGrowsAtMost(rules, before, rule, key, last, q.now);
      BoundedNext(rule, open, close, last, Level(before, rule, key, last), Units(b, front, rule, key, open, close),
                  q.now, refilled, cost);
    }
  }

  /** Outside the window the level does not matter. */
  lemma BoundedIgnores(rule: Rule, open: real, close: real, now: real, a: real, b: real, units: nat)
    requires rule.Sound() && Bounded(rule, open, close, now, a, units)
    requires open <= now <= close ==> a == b
    ensures Bounded(rule, open, close, now, b, units)
  {
  }

  lemma BoundedMeans(rule: Rule, open: real, close: real, last: real, level: real, units: nat)
    requires rule.Sound() && open <= close && Bounded(rule, open, close, last, level, units) && 0.0 <= level
    ensures units as real <= rule.limit as real + (close - open) * Rate(rule)
  {
    RefillMore(rule, open, open, close);
    if open <= last <= close {
      RefillMore(rule, open, last, close);
    }
  }

  /** No client is ever granted more in an interval than the limit and what refills over its length. */
  lemma WindowBound(rules: map<string, Rule>, reqs: seq<Request>, start: real, rule: Rule, key: string,
                    open: real, close: real)
    requires SoundRun(rules, reqs) && From(reqs, start) && Ruled(rules, rule) && rule.Sound() && open <= close
    ensures Units(map[], reqs, rule, key, open, close) as real
         <= rule.limit as real + (close - open) * (rule.limit as real / rule.period)
  {
    hide SoundRun, Spent, Affords, Level, After, Bounded, From;
    if reqs == [] {
      RefillMore(rule, open, open, close);
    } else {
      RunStarts(rules, reqs);
      LastIsLast(rules, reqs, start);
      RunIsBounded(rules, map[], reqs, start, rule, key, open, close);
      var last := reqs[|reqs| - 1].now;
      AfterIsConsistent(rules, map[], reqs, start, last);
      LevelBounds(rules, After(map[], reqs), rule, key, last);
      BoundedMeans(rule, open, close, last, Level(After(map[], reqs), rule, key, last),
                   Units(map[], reqs, rule, key, open, close));
    }
  }

  lemma RunStarts(rules: map<string, Rule>, reqs: seq<Request>)
    requires SoundRun(rules, reqs)
    ensures forall i :: 0 <= i < |reqs| ==> reqs[i].rule.Sound()
  {
  }

  lemma LastIsLast(rules: map<string, Rule>, reqs: seq<Request>, start: real)
    requires SoundRun(rules, reqs) && From(reqs, start) && reqs != []
    ensures start <= reqs[|reqs| - 1].now && forall i :: 0 <= i < |reqs| ==> reqs[i].now <= reqs[|reqs| - 1].now
    ensures Consistent(rules, map[], start)
  {
  }

  // ---- Waiting ---------------------------------------------------------------------------------------------

  /** Requests of others leave a client's level alone. */
  lemma {:induction false} OthersDoNotMatter(rules: map<string, Rule>, b: Buckets, reqs: seq<Request>, start: real,
                                             rule: Rule, key: string, later: real)
    requires SoundRun(rules, reqs) && From(reqs, start) && Consistent(rules, b, start)
    requires Ruled(rules, rule) && rule.Sound()
    requires forall i :: 0 <= i < |reqs| ==> reqs[i].Slot() != (rule.name, key) && reqs[i].now <= later
    ensures Level(After(b, reqs), rule, key, later) == Level(b, rule, key, later)
  {
    hide Consistent, SoundRun, Spent, Affords, Ruled, Level, From;
    if reqs != [] {
      var front, q := reqs[..|reqs| - 1], reqs[|reqs| - 1];
      FrontIsSound(rules, reqs, front);
      OthersDoNotMatter(rules, b, front, start, rule, key, later);
      AfterIsConsistent(rules, b, front, start, q.now);
      if Affords(After(b, front), q) {
        SpentLevels(rules, After(b, front), q, rule, key, later);
      }
    }
  }

  lemma WaitRefills(rule: Rule, missing: real, waited: real)
    requires rule.Sound() && waited >= RetryAfter(missing / Rate(rule)) as real && missing > 0.0
    ensures waited * Rate(rule) >= missing
  {
    RefillMore(rule, 0.0, 0.0, 0.0);
    assert missing / Rate(rule) * Rate(rule) == missing;
    assert waited >= missing / Rate(rule);
    assert waited * Rate(rule) >= missing / Rate(rule) * Rate(rule);
  }

  /** Waiting out `retry_after`, whatever others do meanwhile, is enough exactly when the cost fits the limit at all. */
  lemma WaitingWorksExactly(rules: map<string, Rule>, b: Buckets, q: Request, between: seq<Request>, later: real)
    requires Consistent(rules, b, q.now) && Ruled(rules, q.rule) && q.rule.Sound() && !Affords(b, q)
    requires SoundRun(rules, between) && From(between, q.now)
    requires forall i :: 0 <= i < |between| ==> between[i].Slot() != q.Slot() && between[i].now <= later
    requires later >= q.now + RetryAfter((q.cost as real - Level(b, q.rule, q.key, q.now)) / Rate(q.rule)) as real
    ensures Affords(After(b, between), q.(now := later)) <==> q.cost <= q.rule.limit
  {
    hide Consistent, SoundRun, Spent, Level, From, After;
    OthersDoNotMatter(rules, b, between, q.now, q.rule, q.key, later);
    LevelGrows(rules, b, q.rule, q.key, q.now, later);
    WaitRefills(q.rule, q.cost as real - Level(b, q.rule, q.key, q.now), later - q.now);
  }

  lemma WaitIsLeast(rule: Rule, missing: real, n: int)
    requires rule.Sound() && missing > 0.0 && n < RetryAfter(missing / Rate(rule))
    ensures n as real * Rate(rule) < missing
  {
    RefillMore(rule, 0.0, 0.0, 0.0);
    var wait := missing / Rate(rule);
    assert wait * Rate(rule) == missing;
    assert wait > 0.0;
    if n <= 0 {
      assert n as real * Rate(rule) <= 0.0;
    } else {
      assert n as real <= Ceil(wait) as real - 1.0 < wait;
      assert n as real * Rate(rule) < wait * Rate(rule);
    }
  }

  /** No whole number of seconds shorter than `retry_after` would have been enough. */
  lemma WaitingLessIsNotEnough(rules: map<string, Rule>, b: Buckets, q: Request, n: nat)
    requires Consistent(rules, b, q.now) && Ruled(rules, q.rule) && q.rule.Sound() && !Affords(b, q)
    requires n < RetryAfter((q.cost as real - Level(b, q.rule, q.key, q.now)) / Rate(q.rule))
    ensures !Affords(b, q.(now := q.now + n as real))
  {
    hide Consistent, Level, Rate;
    WaitIsLeast(q.rule, q.cost as real - Level(b, q.rule, q.key, q.now), n);
    LevelGrowsAtMost(rules, b, q.rule, q.key, q.now, q.now + n as real);
  }

  /** A client without a bucket has the whole limit. */
  lemma NewcomersHaveTheLimit(b: Buckets, rule: Rule, key: string, now: real)
    requires rule.Sound() && (rule.name, key) !in b
    ensures Level(b, rule, key, now) == rule.limit as real
  {
  }

  // ---- Forgetting changes no decision ------------------------------------------------------------------------

  /** What `Hit` promises of the buckets: unchanged when refused, and as good as spent when granted. */
  ghost predicate HitStep(rules: map<string, Rule>, b: Buckets, q: Request, after: Buckets)
    requires q.rule.Sound()
  {
    && Consistent(rules, after, q.now)
    && if Affords(b, q) then SameLevels(rules, after, Spent(b, q), q.now) else after == b
  }

  ghost predicate Sweeping(rules: map<string, Rule>, reqs: seq<Request>, states: seq<Buckets>)
    requires forall i :: 0 <= i < |reqs| ==> reqs[i].rule.Sound()
  {
    && |states| == |reqs| + 1 && states[0] == map[]
    && forall i :: 0 <= i < |reqs| ==>
         var next := i + 1;
         HitStep(rules, states[i], reqs[i], states[next])
  }

  lemma SameSpent(rules: map<string, Rule>, a: Buckets, b: Buckets, q: Request)
    requires Consistent(rules, a, q.now) && Consistent(rules, b, q.now) && Ruled(rules, q.rule) && q.rule.Sound()
    requires SameLevels(rules, a, b, q.now)
    ensures Affords(a, q) == Affords(b, q)
    ensures Affords(a, q) ==> SameLevels(rules, Spent(a, q), Spent(b, q), q.now)
  {
    hide Level, Spent;
    assert Level(a, rules[q.rule.name], q.key, q.now) == Level(b, rules[q.rule.name], q.key, q.now);
    if Affords(a, q) {
      forall n, key, later | n in rules && rules[n].Sound() && q.now <= later
        ensures Level(Spent(a, q), rules[n], key, later) == Level(Spent(b, q), rules[n], key, later)
      {
        SpentLevels(rules, a, q, rules[n], key, later);
        SpentLevels(rules, b, q, rules[n], key, later);
        assert Level(a, rules[n], key, later) == Level(b, rules[n], key, later);
        assert Level(a, rules[n], key, q.now) == Level(b, rules[n], key, q.now);
      }
    }
  }

  lemma SameLater(rules: map<string, Rule>, a: Buckets, b: Buckets, now: real, later: real)
    requires SameLevels(rules, a, b, now) && now <= later
    ensures SameLevels(rules, a, b, later)
  {
    hide Level;
  }

  lemma PrefixIsSound(rules: map<string, Rule>, reqs: seq<Request>, start: real, i: nat)
    requires SoundRun(rules, reqs) && From(reqs, start) && i < |reqs|
    ensures SoundRun(rules, reqs[..i]) && From(reqs[..i], start) && start <= reqs[i].now
    ensures forall k :: 0 <= k < i ==> reqs[..i][k].rule.Sound() && reqs[..i][k].now <= reqs[i].now
    ensures Ruled(rules, reqs[i].rule) && reqs[i].rule.Sound()
  {
  }

  /** Before every request the two limiters cannot be told apart. */
  lemma {:induction false} SweepingKeepsUp(rules: map<string, Rule>, reqs: seq<Request>, start: real,
                                           states: seq<Buckets>, i: nat)
    requires SoundRun(rules, reqs) && From(reqs, start) && i < |reqs|
    requires forall k :: 0 <= k < |reqs| ==> reqs[k].rule.Sound()
    requires Sweeping(rules, reqs, states)
    ensures forall k :: 0 <= k < i ==> reqs[..i][k].rule.Sound()
    ensures Consistent(rules, states[i], reqs[i].now) && Consistent(rules, After(map[], reqs[..i]), reqs[i].now)
    ensures SameLevels(rules, states[i], After(map[], reqs[..i]), reqs[i].now)
  {
    hide SoundRun, Spent, Affords, Level, From, SameLevels, Consistent, Ruled;
    PrefixIsSound(rules, reqs, start, i);
    Nothing(rules, reqs, start);
    AfterIsConsistent(rules, map[], reqs[..i], start, reqs[i].now);
    if i == 0 {
      ConsistentLater(rules, map[], start, reqs[i].now);
      SameAsItself(rules, map[], reqs[i].now);
      assert reqs[..i] == [];
    } else {
      var p, q := i - 1, reqs[i - 1];
      SweepingKeepsUp(rules, reqs, start, states, p);
      PrefixIsSound(rules, reqs, start, p);
      assert HitStep(rules, states[p], q, states[i]);
      SameSpent(rules, states[p], After(map[], reqs[..p]), q);
      assert reqs[..i][..p] == reqs[..p] && reqs[..i][p] == q;
      if Affords(states[p], q) {
        SameLevelsMore(rules, states[i], Spent(states[p], q), Spent(After(map[], reqs[..p]), q), q.now);
      }
      SameLater(rules, states[i], After(map[], reqs[..i]), q.now, reqs[i].now);
      ConsistentLater(rules, states[i], q.now, reqs[i].now);
    }
  }

  lemma Nothing(rules: map<string, Rule>, reqs: seq<Request>, start: real)
    requires SoundRun(rules, reqs)
    ensures Consistent(rules, map[], start)
  {
  }

  /** A limiter that forgets full buckets grants and refuses exactly as one that never forgets. */
  lemma SweepingDecidesTheSame(rules: map<string, Rule>, reqs: seq<Request>, start: real, states: seq<Buckets>, i: nat)
    requires SoundRun(rules, reqs) && From(reqs, start) && i < |reqs|
    requires forall k :: 0 <= k < |reqs| ==> reqs[k].rule.Sound()
    requires Sweeping(rules, reqs, states)
    ensures forall k :: 0 <= k < i ==> reqs[..i][k].rule.Sound()
    ensures Affords(states[i], reqs[i]) == Affords(After(map[], reqs[..i]), reqs[i])
  {
    hide SoundRun, Spent, Affords, Level, From, SameLevels, Consistent, HitStep;
    PrefixIsSound(rules, reqs, start, i);
    SweepingKeepsUp(rules, reqs, start, states, i);
    SameSpent(rules, states[i], After(map[], reqs[..i]), reqs[i]);
  }
}
