/** The token bucket of internal/server/http/ratelimit.go.

    A visitor that has been idle for ten minutes is dropped from the map and, should it
    come back, starts again with a full bucket.  The question answered here is when a
    client can tell: the limiter gives the same answers as one that never drops anybody
    exactly when nine refill gaps fit into the idle time.  Times are nanoseconds. */
module RateLimit {

  const MAX_TOKENS := 20
  const REFILL_RATE := 2
  const IDLE_LIMIT := 600_000_000_000

  datatype Visitor = Visitor(lastSeen: int, tokens: int)

  type Visitors = map<string, Visitor>

  datatype Event = Refill(at: int) | Request(ip: string, at: int)

  // ---------------------------------------------------------------- the limiter

  function Refilled(v: Visitor): Visitor {
    v.(tokens := if v.tokens + REFILL_RATE > MAX_TOKENS then MAX_TOKENS else v.tokens + REFILL_RATE)
  }

  /** One pass of the background loop: refill everybody, then drop the idle. */
  function Sweep(vs: Visitors, now: int): Visitors {
    map ip | ip in vs && now - vs[ip].lastSeen <= IDLE_LIMIT :: Refilled(vs[ip])
  }

  /** The visitor a request finds, before it pays. */
  function Arrive(vs: Visitors, ip: string, now: int): Visitor {
    Visitor(now, if ip in vs then vs[ip].tokens else MAX_TOKENS)
  }

  function Pay(v: Visitor): Visitor {
    if v.tokens <= 0 then v else v.(tokens := v.tokens - 1)
  }

  /** The shared map of one rateLimit middleware. */
  class Limiter {
    var visitors: Visitors

    constructor ()
      ensures visitors == map[]
    {
      visitors := map[];
    }

    method Tick(now: int)
      modifies this
      ensures visitors == Sweep(old(visitors), now)
    {
      var todo := visitors.Keys;
      while todo != {}
        invariant todo <= old(visitors.Keys)
        invariant todo <= visitors.Keys <= old(visitors.Keys)
        invariant forall ip :: ip in todo ==> visitors[ip] == old(visitors)[ip]
        invariant forall ip :: ip in old(visitors) && ip !in todo ==>
          (ip in visitors <==> ip in Sweep(old(visitors), now))
        invariant forall ip :: ip in visitors && ip !in todo ==> visitors[ip] == Refilled(old(visitors)[ip])
        decreases |todo|
      {
        var ip :| ip in todo;
        var v := visitors[ip];
        v := v.(tokens := v.tokens + REFILL_RATE);
        if v.tokens > MAX_TOKENS {
          v := v.(tokens := MAX_TOKENS);
        }
        visitors := visitors[ip := v];
        if now - v.lastSeen > IDLE_LIMIT {
          visitors := visitors - {ip};
        }
        todo := todo - {ip};
      }
    }

    method Admit(ip: string, now: int) returns (ok: bool)
      modifies this
      ensures ok <==> Arrive(old(visitors), ip, now).tokens > 0
      ensures visitors == old(visitors)[ip := Pay(Arrive(old(visitors), ip, now))]
    {
      var v := Visitor(now, MAX_TOKENS);
      if ip in visitors {
        v := visitors[ip];
      }
      v := v.(lastSeen := now);
      if v.tokens <= 0 {
        visitors := visitors[ip := v];
        return false;
      }
      v := v.(tokens := v.tokens - 1);
      visitors := visitors[ip := v];
      ok := true;
    }
  }

  // ---------------------------------------------------------------- runs

  /** Handles one event; keepIdle selects the reference limiter, which never drops a visitor. */
  function Step(vs: Visitors, e: Event, keepIdle: bool): Visitors {
    match e
    case Refill(now) => if keepIdle then map ip | ip in vs :: Refilled(vs[ip]) else Sweep(vs, now)
    case Request(ip, now) => vs[ip := Pay(Arrive(vs, ip, now))]
  }

  function Run(vs: Visitors, es: seq<Event>, keepIdle: bool): Visitors
    decreases |es|
  {
    if es == [] then vs else Run(Step(vs, es[0], keepIdle), es[1..], keepIdle)
  }

  /** The answers given to the requests of a run, in order. */
  function Answers(vs: Visitors, es: seq<Event>, keepIdle: bool): seq<bool>
    decreases |es|
  {
    if es == [] then []
    else
      (if es[0].Request? then [Arrive(vs, es[0].ip, es[0].at).tokens > 0] else [])
      + Answers(Step(vs, es[0], keepIdle), es[1..], keepIdle)
  }

  /** Time never runs backwards and consecutive refills are at most gap apart. */
  predicate Timed(es: seq<Event>, now: int, lastTick: int, gap: int) {
    es == [] ||
    (es[0].at >= now
     && (es[0].Refill? ==> es[0].at - lastTick <= gap)
     && Timed(es[1..], es[0].at, if es[0].Refill? then es[0].at else lastTick, gap))
  }

  function Refills(es: seq<Event>): nat {
    if es == [] then 0 else (if es[0].Refill? then 1 else 0) + Refills(es[1..])
  }

  /** How many requests of ip the limiter lets through. */
  function Admitted(vs: Visitors, es: seq<Event>, ip: string, keepIdle: bool): nat
    decreases |es|
  {
    if es == [] then 0
    else
      (if es[0].Request? && es[0].ip == ip && Arrive(vs, ip, es[0].at).tokens > 0 then 1 else 0)
      + Admitted(Step(vs, es[0], keepIdle), es[1..], ip, keepIdle)
  }

  // ---------------------------------------------------------------- eviction is unobservable

  /** A bucket below the brim owes at least as many refills as gaps have passed since it was used. */
  predicate Topped(v: Visitor, lastTick: int, gap: int) {
    0 <= v.tokens <= MAX_TOKENS
    && (v.tokens == MAX_TOKENS || lastTick - v.lastSeen <= gap * (v.tokens / 2))
  }

  /** The evicting map agrees with the full one; what it lacks is full there. */
  ghost predicate Similar(evicting: Visitors, full: Visitors, lastTick: int, gap: int) {
    (forall ip :: ip in evicting ==> ip in full && evicting[ip] == full[ip])
    && (forall ip :: ip in full ==> Topped(full[ip], lastTick, gap))
    && (forall ip :: ip in full && ip !in evicting ==> full[ip].tokens == MAX_TOKENS)
  }

  lemma ToppedRefill(v: Visitor, lastTick: int, now: int, gap: int)
    requires gap >= 0 && Topped(v, lastTick, gap) && now - lastTick <= gap
    ensures Topped(Refilled(v), now, gap)
  {
    if v.tokens + REFILL_RATE < MAX_TOKENS {
      var k := v.tokens / 2;
      assert (v.tokens + 2) / 2 == k + 1;
      assert gap * (k + 1) == gap * k + gap;
    }
  }

  /** A bucket that is not full was used at most nine gaps ago. */
  lemma NotFullIsRecent(v: Visitor, now: int, gap: int)
    requires gap >= 0 && Topped(v, now, gap) && v.tokens < MAX_TOKENS
    ensures now - v.lastSeen <= 9 * gap
  {
    assert gap * (9 - v.tokens / 2) >= 0;
  }

  lemma SimilarRefill(evicting: Visitors, full: Visitors, now: int, lastTick: int, gap: int)
    requires 0 <= 9 * gap <= IDLE_LIMIT && Similar(evicting, full, lastTick, gap)
    requires lastTick <= now && now - lastTick <= gap
    ensures Similar(Step(evicting, Refill(now), false), Step(full, Refill(now), true), now, gap)
  {
    var full' := Step(full, Refill(now), true);
    forall ip | ip in full'
      ensures Topped(full'[ip], now, gap)
      ensures now - full'[ip].lastSeen > IDLE_LIMIT ==> full'[ip].tokens == MAX_TOKENS
    {
      ToppedRefill(full[ip], lastTick, now, gap);
      if full'[ip].tokens < MAX_TOKENS {
        NotFullIsRecent(full'[ip], now, gap);
      }
    }
  }

  lemma SimilarRequest(evicting: Visitors, full: Visitors, ip: string, at: int, lastTick: int, gap: int)
    requires gap >= 0 && Similar(evicting, full, lastTick, gap) && lastTick <= at
    ensures Similar(Step(evicting, Request(ip, at), false), Step(full, Request(ip, at), true), lastTick, gap)
    ensures Arrive(evicting, ip, at).tokens == Arrive(full, ip, at).tokens
  {
    var v := Step(full, Request(ip, at), true)[ip];
    assert lastTick - v.lastSeen <= 0;
    assert gap * (v.tokens / 2) >= 0;
  }

  lemma SimilarStep(evicting: Visitors, full: Visitors, e: Event, now: int, lastTick: int, gap: int)
    requires 0 <= 9 * gap <= IDLE_LIMIT && Similar(evicting, full, lastTick, gap)
    requires lastTick <= now <= e.at && (e.Refill? ==> e.at - lastTick <= gap)
    ensures Similar(Step(evicting, e, false), Step(full, e, true), if e.Refill? then e.at else lastTick, gap)
    ensures e.Request? ==> Arrive(evicting, e.ip, e.at).tokens == Arrive(full, e.ip, e.at).tokens
  {
    match e
    case Refill(at) => SimilarRefill(evicting, full, at, lastTick, gap);
    case Request(ip, at) => SimilarRequest(evicting, full, ip, at, lastTick, gap);
  }

  lemma {:induction false} SimilarRuns(evicting: Visitors, full: Visitors, es: seq<Event>, now: int, lastTick: int,
                                       gap: int)
    requires 0 <= 9 * gap <= IDLE_LIMIT && Similar(evicting, full, lastTick, gap)
    requires lastTick <= now && Timed(es, now, lastTick, gap)
    ensures Answers(evicting, es, false) == Answers(full, es, true)
    ensures forall ip :: Admitted(evicting, es, ip, false) == Admitted(full, es, ip, true)
    decreases |es|
  {
    if es != [] {
      SimilarStep(evicting, full, es[0], now, lastTick, gap);
      SimilarRuns(Step(evicting, es[0], false), Step(full, es[0], true), es[1..],
                  es[0].at, if es[0].Refill? then es[0].at else lastTick, gap);
    }
  }

  // ---------------------------------------------------------------- and when it is not

  function Requests(ip: string, n: nat, at: int): seq<Event> {
    seq(n, _ => Request(ip, at))
  }

  function Ticks(n: nat, from: int, gap: int): seq<Event> {
    if n == 0 then [] else [Refill(from + gap)] + Ticks(n - 1, from + gap, gap)
  }

  /** Drain the bucket at time zero, wait nine gaps, ask nineteen times more. */
  function Witness(ip: string, gap: int): seq<Event> {
    Requests(ip, 20, 0) + Ticks(9, 0, gap) + Requests(ip, 19, 9 * gap)
  }

  lemma {:induction false} TimedConcat(a: seq<Event>, b: seq<Event>, now: int, lastTick: int, gap: int, now': int,
                                       lastTick': int)
    requires Timed(a, now, lastTick, gap) && Timed(b, now', lastTick', gap)
    requires a == [] ==> now == now'
    requires a != [] ==> a[|a| - 1].at == now'
    requires LastTick(a, lastTick) == lastTick'
    ensures Timed(a + b, now, lastTick, gap)
    decreases |a|
  {
    if a == [] {
      assert a + b == b;
    } else {
      assert (a + b)[1..] == a[1..] + b;
      TimedConcat(a[1..], b, a[0].at, if a[0].Refill? then a[0].at else lastTick, gap, now', lastTick');
    }
  }

  function LastTick(es: seq<Event>, lastTick: int): int {
    if es == [] then lastTick else LastTick(es[1..], if es[0].Refill? then es[0].at else lastTick)
  }

  lemma {:induction false} RequestsTimed(ip: string, n: nat, at: int, lastTick: int, gap: int)
    ensures Timed(Requests(ip, n, at), at, lastTick, gap) && LastTick(Requests(ip, n, at), lastTick) == lastTick
  {
    if n > 0 {
      assert Requests(ip, n, at)[1..] == Requests(ip, n - 1, at);
      RequestsTimed(ip, n - 1, at, lastTick, gap);
    }
  }

  lemma {:induction false} TicksTimed(n: nat, from: int, gap: int)
    requires gap >= 0
    ensures Timed(Ticks(n, from, gap), from, from, gap)
    ensures LastTick(Ticks(n, from, gap), from) == from + n * gap
    ensures n > 0 ==> Ticks(n, from, gap) != [] && Ticks(n, from, gap)[|Ticks(n, from, gap)| - 1].at == from + n * gap
  {
    if n > 0 {
      TicksTimed(n - 1, from + gap, gap);
      assert from + gap + (n - 1) * gap == from + n * gap;
      assert Ticks(n, from, gap)[1..] == Ticks(n - 1, from + gap, gap);
    }
  }

  lemma {:induction false} RunConcat(vs: Visitors, a: seq<Event>, b: seq<Event>, keepIdle: bool)
    ensures Run(vs, a + b, keepIdle) == Run(Run(vs, a, keepIdle), b, keepIdle)
    ensures Answers(vs, a + b, keepIdle) == Answers(vs, a, keepIdle) + Answers(Run(vs, a, keepIdle), b, keepIdle)
    decreases |a|
  {
    if a == [] {
      assert a + b == b;
    } else {
      assert (a + b)[1..] == a[1..] + b;
      RunConcat(Step(vs, a[0], keepIdle), a[1..], b, keepIdle);
    }
  }

  /** n requests at one instant take n tokens, or all there are. */
  lemma {:induction false} Drain(vs: Visitors, ip: string, n: nat, at: int, keepIdle: bool)
    requires vs.Keys <= {ip} && Arrive(vs, ip, at).tokens >= 0
    ensures var t := Arrive(vs, ip, at).tokens;
      && Answers(vs, Requests(ip, n, at), keepIdle) == seq(n, i => i < t)
      && (n > 0 ==> Run(vs, Requests(ip, n, at), keepIdle) == map[ip := Visitor(at, if n <= t then t - n else 0)])
    decreases n
  {
    var es := Requests(ip, n, at);
    var t := Arrive(vs, ip, at).tokens;
    if n > 0 {
      assert es[1..] == Requests(ip, n - 1, at);
      var vs' := Step(vs, es[0], keepIdle);
      assert vs' == map[ip := Pay(Arrive(vs, ip, at))];
      Drain(vs', ip, n - 1, at, keepIdle);
      if t > 0 {
        assert seq(n, i => i < t) == [true] + seq(n - 1, i => i < t - 1);
      } else {
        assert seq(n, i => i < t) == [false] + seq(n - 1, i => i < t);
      }
    }
  }

  /** n gaps bring a bucket 2n tokens; the evicting limiter keeps it until the idle limit is passed. */
  lemma {:induction false} Wait(ip: string, v: Visitor, n: nat, from: int, gap: int, keepIdle: bool)
    requires gap >= 0 && 0 <= v.tokens && v.tokens + 2 * n <= MAX_TOKENS && v.lastSeen <= from
    requires keepIdle || from + n * gap - v.lastSeen <= IDLE_LIMIT
    ensures Run(map[ip := v], Ticks(n, from, gap), keepIdle) == map[ip := v.(tokens := v.tokens + 2 * n)]
    ensures Answers(map[ip := v], Ticks(n, from, gap), keepIdle) == []
    decreases n
  {
    if n > 0 {
      assert from + n * gap == from + gap + (n - 1) * gap;
      assert (n - 1) * gap >= 0;
      var vs: Visitors := map[ip := v];
      var vs' := Step(vs, Refill(from + gap), keepIdle);
      assert vs' == map[ip := Refilled(v)];
      assert Ticks(n, from, gap)[1..] == Ticks(n - 1, from + gap, gap);
      Wait(ip, Refilled(v), n - 1, from + gap, gap, keepIdle);
    }
  }

  lemma {:induction false} SweepsKeepEmpty(n: nat, from: int, gap: int)
    ensures Run(map[], Ticks(n, from, gap), false) == map[]
    ensures Answers(map[], Ticks(n, from, gap), false) == []
  {
    if n > 0 {
      var vs: Visitors := map[];
      assert Step(vs, Refill(from + gap), false) == vs;
      assert Ticks(n, from, gap)[1..] == Ticks(n - 1, from + gap, gap);
      SweepsKeepEmpty(n - 1, from + gap, gap);
    }
  }

  /** Once nine gaps outlast the idle limit, nine gaps after v was last seen the evicting map is empty. */
  lemma {:induction false} WaitEvicts(ip: string, v: Visitor, n: nat, from: int, gap: int)
    requires gap >= 0 && from + n * gap - v.lastSeen > IDLE_LIMIT && from - v.lastSeen <= IDLE_LIMIT
    ensures Run(map[ip := v], Ticks(n, from, gap), false) == map[]
    ensures Answers(map[ip := v], Ticks(n, from, gap), false) == []
    decreases n
  {
    if n > 0 {
      var vs: Visitors := map[ip := v];
      var vs' := Step(vs, Refill(from + gap), false);
      assert Ticks(n, from, gap)[1..] == Ticks(n - 1, from + gap, gap);
      assert from + n * gap == from + gap + (n - 1) * gap;
      if from + gap - v.lastSeen > IDLE_LIMIT {
        assert vs' == map[];
        SweepsKeepEmpty(n - 1, from + gap, gap);
      } else {
        assert vs' == map[ip := Refilled(v)];
        WaitEvicts(ip, Refilled(v), n - 1, from + gap, gap);
      }
    }
  }

  lemma WitnessTimed(ip: string, gap: int)
    requires gap >= 0
    ensures Timed(Witness(ip, gap), 0, 0, gap)
  {
    RequestsTimed(ip, 20, 0, 0, gap);
    TicksTimed(9, 0, gap);
    RequestsTimed(ip, 19, 9 * gap, 9 * gap, gap);
    TimedConcat(Ticks(9, 0, gap), Requests(ip, 19, 9 * gap), 0, 0, gap, 9 * gap, 9 * gap);
    var rest := Ticks(9, 0, gap) + Requests(ip, 19, 9 * gap);
    TimedConcat(Requests(ip, 20, 0), rest, 0, 0, gap, 0, 0);
    assert Requests(ip, 20, 0) + rest == Witness(ip, gap);
  }

  lemma WitnessParts(ip: string, gap: int, keepIdle: bool)
    ensures var drained: Visitors := map[ip := Visitor(0, 0)];
      var wait := Ticks(9, 0, gap);
      Answers(map[], Witness(ip, gap), keepIdle)
      == seq(20, i => i < 20) + (Answers(drained, wait, keepIdle)
         + Answers(Run(drained, wait, keepIdle), Requests(ip, 19, 9 * gap), keepIdle))
  {
    var ask, wait, again := Requests(ip, 20, 0), Ticks(9, 0, gap), Requests(ip, 19, 9 * gap);
    Drain(map[], ip, 20, 0, keepIdle);
    RunConcat(map[], ask, wait + again, keepIdle);
    RunConcat(map[ip := Visitor(0, 0)], wait, again, keepIdle);
    assert ask + (wait + again) == Witness(ip, gap);
  }

  /** Dropped and started afresh, the visitor gets its nineteen requests. */
  lemma EvictedAnswers(ip: string, gap: int)
    requires gap >= 0 && 9 * gap > IDLE_LIMIT
    ensures var a := Answers(map[], Witness(ip, gap), false);
      |a| == 39 && a[38]
  {
    WitnessParts(ip, gap, false);
    WaitEvicts(ip, Visitor(0, 0), 9, 0, gap);
    Drain(map[], ip, 19, 9 * gap, false);
  }

  /** Kept, it has the eighteen tokens of nine refills and is refused once. */
  lemma KeptAnswers(ip: string, gap: int)
    requires gap >= 0
    ensures var a := Answers(map[], Witness(ip, gap), true);
      |a| == 39 && !a[38]
  {
    WitnessParts(ip, gap, true);
    Wait(ip, Visitor(0, 0), 9, 0, gap, true);
    Drain(map[ip := Visitor(0, 18)], ip, 19, 9 * gap, true);
  }

  // ---------------------------------------------------------------- main results

  /** Dropping idle visitors changes no answer of any run, for every run whose refills are at most
      gap apart, if and only if nine gaps fit into the idle limit (66.6 s; the loop sleeps 1 s). */
  lemma EvictionUnobservableIff(gap: int)
    requires gap >= 0
    ensures (forall es :: Timed(es, 0, 0, gap) ==> Answers(map[], es, false) == Answers(map[], es, true))
       <==> 9 * gap <= 600_000_000_000
  {
    if 9 * gap <= IDLE_LIMIT {
      forall es | Timed(es, 0, 0, gap)
        ensures Answers(map[], es, false) == Answers(map[], es, true)
      {
        SimilarRuns(map[], map[], es, 0, 0, gap);
      }
    } else {
      WitnessTimed("a", gap);
      EvictedAnswers("a", gap);
      KeptAnswers("a", gap);
    }
  }

  lemma {:induction false} FullBound(vs: Visitors, es: seq<Event>, ip: string)
    requires forall p :: p in vs ==> 0 <= vs[p].tokens <= MAX_TOKENS
    ensures Admitted(vs, es, ip, true) <= (if ip in vs then vs[ip].tokens else MAX_TOKENS) + 2 * Refills(es)
    decreases |es|
  {
    if es != [] {
      FullBound(Step(vs, es[0], true), es[1..], ip);
    }
  }

  lemma {:induction false} SimilarAfter(evicting: Visitors, full: Visitors, pre: seq<Event>, win: seq<Event>,
                                        now: int, lastTick: int, gap: int)
    returns (full': Visitors, now': int, lastTick': int)
    requires 0 <= 9 * gap <= IDLE_LIMIT && Similar(evicting, full, lastTick, gap)
    requires lastTick <= now && Timed(pre + win, now, lastTick, gap)
    ensures Similar(Run(evicting, pre, false), full', lastTick', gap)
    ensures lastTick' <= now' && Timed(win, now', lastTick', gap)
    decreases |pre|
  {
    if pre == [] {
      assert pre + win == win;
      full', now', lastTick' := full, now, lastTick;
    } else {
      assert (pre + win)[1..] == pre[1..] + win;
      SimilarStep(evicting, full, pre[0], now, lastTick, gap);
      full', now', lastTick' := SimilarAfter(Step(evicting, pre[0], false), Step(full, pre[0], true), pre[1..], win,
                                             pre[0].at, if pre[0].Refill? then pre[0].at else lastTick, gap);
    }
  }

  /** Every window of every run lets a client through at most 20 times plus twice per refill,
      although the limiter hands full buckets to visitors it has dropped. */
  lemma WindowBound(pre: seq<Event>, win: seq<Event>, ip: string, gap: int)
    requires 0 <= 9 * gap <= 600_000_000_000 && Timed(pre + win, 0, 0, gap)
    ensures Admitted(Run(map[], pre, false), win, ip, false) <= 20 + 2 * Refills(win)
  {
    var full, now, lastTick := SimilarAfter(map[], map[], pre, win, 0, 0, gap);
    SimilarRuns(Run(map[], pre, false), full, win, now, lastTick, gap);
    FullBound(full, win, ip);
  }

  /** With refills at most a second apart, as the loop has them, dropping idle visitors changes no answer. */
  lemma SecondsHideEviction(es: seq<Event>)
    requires Timed(es, 0, 0, 1_000_000_000)
    ensures Answers(map[], es, false) == Answers(map[], es, true)
  {
    SimilarRuns(map[], map[], es, 0, 0, 1_000_000_000);
  }

  // ---------------------------------------------------------------- what a client is sure to get

  /** What a client has left; a new one has a full bucket. */
  function Left(vs: Visitors, ip: string): int {
    if ip in vs then vs[ip].tokens else 20
  }

  predicate InBounds(vs: Visitors) {
    forall ip :: ip in vs ==> 0 <= vs[ip].tokens <= 20
  }

  lemma StepSpends(vs: Visitors, e: Event, ip: string, keepIdle: bool)
    requires InBounds(vs)
    ensures var vs' := Step(vs, e, keepIdle);
      && InBounds(vs')
      && Left(vs', ip) >= Left(vs, ip) - (if e.Request? && e.ip == ip && Left(vs, ip) > 0 then 1 else 0)
      && (e.Refill? ==> Left(vs', ip) >= (if Left(vs, ip) > 18 then 20 else Left(vs, ip) + 2))
  {
  }

  lemma {:induction false} RunSpends(vs: Visitors, es: seq<Event>, ip: string, keepIdle: bool)
    requires InBounds(vs)
    ensures InBounds(Run(vs, es, keepIdle))
    ensures Left(Run(vs, es, keepIdle), ip) >= Left(vs, ip) - Admitted(vs, es, ip, keepIdle)
    decreases |es|
  {
    if es != [] {
      StepSpends(vs, es[0], ip, keepIdle);
      RunSpends(Step(vs, es[0], keepIdle), es[1..], ip, keepIdle);
    }
  }

  /** In every run a client is let through as long as it has been let through fewer than 20 times. */
  lemma FirstTwentyGetThrough(es: seq<Event>, ip: string, at: int, keepIdle: bool)
    requires Admitted(map[], es, ip, keepIdle) < 20
    ensures Answers(Run(map[], es, keepIdle), [Request(ip, at)], keepIdle) == [true]
  {
    RunSpends(map[], es, ip, keepIdle);
    var vs := Run(map[], es, keepIdle);
    assert [Request(ip, at)][1..] == [];
    assert Answers(Step(vs, Request(ip, at), keepIdle), [], keepIdle) == [];
  }

  /** And after every refill at least twice more, however often before. */
  lemma TwoMoreAfterARefill(es: seq<Event>, ip: string, now: int, at: int, at': int, keepIdle: bool)
    ensures var vs := Step(Run(map[], es, keepIdle), Refill(now), keepIdle);
      Answers(vs, [Request(ip, at), Request(ip, at')], keepIdle) == [true, true]
  {
    RunSpends(map[], es, ip, keepIdle);
    var vs := Run(map[], es, keepIdle);
    StepSpends(vs, Refill(now), ip, keepIdle);
    var vs1 := Step(vs, Refill(now), keepIdle);
    var vs2 := Step(vs1, Request(ip, at), keepIdle);
    StepSpends(vs1, Request(ip, at), ip, keepIdle);
    assert [Request(ip, at), Request(ip, at')][1..] == [Request(ip, at')] && [Request(ip, at')][1..] == [];
    assert Answers(vs2, [Request(ip, at')], keepIdle) == [true] by {
      assert Answers(Step(vs2, Request(ip, at'), keepIdle), [], keepIdle) == [];
    }
  }
}
