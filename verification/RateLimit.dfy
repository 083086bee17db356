/** The fixed-window rate limiter: a bucket per key, reset when its window has passed and swept when
    there are many. Times are whole seconds; `Window` is Go's Truncate(time.Minute). */
module RateLimit {
  import opened Basics
  import opened Tallies

  function Window(now: nat): nat {
    now - now % 60
  }

  /** The start of the minute. */
  lemma WindowIsMinute(now: nat)
    ensures Window(now) <= now < Window(now) + 60 && Window(now) % 60 == 0
  {
  }

  datatype Bucket = Bucket(window: nat, count: nat)

  /** Which counter answered a request. A Redis failure sends it to the local one. */
  datatype Backend = Redis | Local

  /** One request: its key, and the clock as read by the counter that answered it. */
  datatype Hit = Hit(key: string, now: nat, backend: Backend)

  // ---- the obvious specification ----

  predicate Same(h: Hit, key: string, window: nat, backend: Backend) {
    h.key == key && Window(h.now) == window && h.backend == backend
  }

  /** How many of `hits` went to this counter, for this key, in this window. */
  function CountIn(hits: seq<Hit>, key: string, window: nat, backend: Backend): nat {
    if hits == [] then 0
    else
      CountIn(hits[..|hits| - 1], key, window, backend)
      + if Same(hits[|hits| - 1], key, window, backend) then 1 else 0
  }

  lemma CountNext(hits: seq<Hit>, h: Hit, key: string, window: nat, backend: Backend)
    ensures CountIn(hits + [h], key, window, backend) ==
            CountIn(hits, key, window, backend) + if Same(h, key, window, backend) then 1 else 0
  {
    assert (hits + [h])[..|hits + [h]| - 1] == hits;
  }

  predicate AllLocal(hits: seq<Hit>) {
    forall i :: 0 <= i < |hits| ==> hits[i].backend.Local?
  }

  /** The clock never goes back to an earlier minute. Within a minute it may. */
  predicate Monotone(hits: seq<Hit>) {
    forall i, j :: 0 <= i < j < |hits| ==> Window(hits[i].now) <= Window(hits[j].now)
  }

  function Latest(hits: seq<Hit>): nat {
    if hits == [] then 0 else Window(hits[|hits| - 1].now)
  }

  lemma {:induction false} NothingAhead(hits: seq<Hit>, key: string, window: nat, backend: Backend)
    requires Monotone(hits) && Latest(hits) < window
    ensures CountIn(hits, key, window, backend) == 0
  {
    if hits != [] {
      var front := hits[..|hits| - 1];
      assert front != [] ==> Latest(front) <= Latest(hits);
      NothingAhead(front, key, window, backend);
    }
  }

  // ---- the local counter ----

  /** What the buckets have to do with the requests so far. */
  ghost predicate Tracks(local: map<string, Bucket>, hits: seq<Hit>) {
    forall key {:trigger TracksAt(local, hits, key)} :: TracksAt(local, hits, key)
  }

  ghost predicate TracksAt(local: map<string, Bucket>, hits: seq<Hit>, key: string) {
    var counted := CountIn(hits, key, Latest(hits), Local);
    if key in local && local[key].window == Latest(hits) then local[key].count == counted > 0
    else counted == 0 && (key in local ==> local[key].window < Latest(hits))
  }

  /** How the shared Redis counter of (key, minute) takes an increment: it answers, or the reply is
      lost after the increment, or it is not reached (or not configured). It keeps a minute's counter
      for as long as that minute lasts. */
  datatype RedisReply = Answered | ReplyLost | Unreached

  /** A request with its verdict. */
  datatype Verdict = Verdict(hit: Hit, admitted: bool)

  /** The requests that the local counter has answered, the shared counters, and all verdicts given. */
  datatype Traffic = Traffic(hits: seq<Hit>, redis: map<(string, nat), nat>, verdicts: seq<Verdict>)

  /** The two steps of a request, between which others run: the Redis attempt, and the local count
      when that gave no answer. The verdict needs the count only and shares a step with it. */
  datatype Move =
    | Attempt(key: string, now: nat, reply: RedisReply)
    | Fallback(key: string, now: nat)

  function CounterOf(redis: map<(string, nat), nat>, key: string, window: nat): nat {
    if (key, window) in redis then redis[(key, window)] else 0
  }

  function Raised(redis: map<(string, nat), nat>, key: string, window: nat): map<(string, nat), nat> {
    redis[(key, window) := CounterOf(redis, key, window) + 1]
  }

  function Moved(l: Traffic, limit: int, m: Move): Traffic {
    match m
    case Attempt(key, now, reply) =>
      if reply.Unreached? then l
      else
        var redis := Raised(l.redis, key, Window(now));
        var verdict := Verdict(Hit(key, now, Redis), CounterOf(redis, key, Window(now)) <= limit);
        Traffic(l.hits, redis, if reply.Answered? then l.verdicts + [verdict] else l.verdicts)
    case Fallback(key, now) =>
      var h := Hit(key, now, Local);
      var count := CountAfter(l.hits, key, now);
      Traffic(l.hits + [h], l.redis, l.verdicts + [Verdict(h, count <= limit)])
  }

  /** What the local counter says to one more request. */
  function CountAfter(hits: seq<Hit>, key: string, now: nat): nat {
    Bumped(Played(hits), key, Window(now))[key].count
  }

  /** Any interleaving of the steps of any requests, from an empty limiter. */
  function Course(limit: int, moves: seq<Move>): Traffic {
    if moves == [] then Traffic([], map[], [])
    else Moved(Course(limit, moves[..|moves| - 1]), limit, moves[|moves| - 1])
  }

  class Limiter {
    var local: map<string, Bucket>
    var redis: map<(string, nat), nat>
    const limit: int
    /** Every request that the local counter has answered, and every verdict given. */
    ghost var hits: seq<Hit>
    ghost var verdicts: seq<Verdict>

    ghost function State(): Traffic
      reads this
    {
      Traffic(hits, redis, verdicts)
    }

    constructor (limit: int)
      ensures Valid() && Fair(State(), limit) && State() == Course(limit, [])
      ensures local == map[] && this.limit == limit
    {
      local, redis, hits, verdicts := map[], map[], [], [];
      this.limit := limit;
    }

    ghost predicate Valid()
      reads this
    {
      local == Played(hits) && AllLocal(hits)
    }

    /** Sweeps buckets of earlier windows once 512 keys are tracked. */
    method CleanupLocal(window: nat)
      modifies this`local
      ensures local == Swept(old(local), window)
    {
      if |local| < 512 {
        return;
      }
      var keys := local.Keys;
      ghost var before := local;
      while keys != {}
        invariant keys <= local.Keys <= before.Keys
        invariant forall key :: key in local ==> local[key] == before[key]
        invariant forall key :: key in before && key !in keys ==> (key in local <==> before[key].window >= window)
        decreases |keys|
      {
        var key :| key in keys;
        keys := keys - {key};
        if local[key].window < window {
          local := local - {key};
        }
      }
      assert local == Swept(before, window);
    }

    /** Counts one request. With a clock that does not go back to an earlier minute the answer is exactly
        the number of requests with this key in the current minute, this one included: neither the
        lazy reset nor the sweep shows. Whatever the clock does it is never more than that number,
        and it is that number if and only if each of those requests but the first has found the
        bucket of the one before. A sweep never takes a bucket of the current minute. */
    method IncrementLocal(key: string, now: nat) returns (count: nat)
      requires Valid()
      modifies this`local, this`hits
      ensures Valid() && hits == old(hits) + [Hit(key, now, Local)]
      ensures count == CountAfter(old(hits), key, now)
      ensures 1 <= count <= CountIn(hits, key, Window(now), Local)
      ensures count == CountIn(hits, key, Window(now), Local) <==> Unbroken(hits, key, Window(now))
      ensures Monotone(hits) ==> Unbroken(hits, key, Window(now))
      ensures Monotone(hits) ==> |local| <= 512 || |local| <= |KeysIn(hits, Window(now))|
      ensures forall k :: k in old(local) && old(local)[k].window == Window(now) ==> k in local
    {
      var window := Window(now);
      CleanupLocal(window);
      var value := if key in local then local[key] else Bucket(window, 0);
      if value.window != window {
        value := Bucket(window, 0);
      }
      value := value.(count := value.count + 1);
      local := local[key := value];
      count := value.count;
      assert local == Bumped(old(local), key, window);
      Counted(hits, key, now);
      hits := hits + [Hit(key, now, Local)];
    }

    /** The shared counter's increment, and its answer if there is one. */
    method Increment(key: string, now: nat, reply: RedisReply) returns (answer: Option<nat>)
      modifies this`redis
      ensures redis == (if reply.Unreached? then old(redis) else Raised(old(redis), key, Window(now)))
      ensures !reply.Unreached? ==>
                var slot := (key, Window(now));
                redis == old(redis)[slot := if slot in old(redis) then old(redis)[slot] + 1 else 1]
      ensures answer == (if reply.Answered? then Some(CounterOf(redis, key, Window(now))) else None)
    {
      if reply.Unreached? {
        return None;
      }
      redis := redis[(key, Window(now)) := CounterOf(redis, key, Window(now)) + 1];
      answer := if reply.Answered? then Some(redis[(key, Window(now))]) else None;
    }

    /** A request's first step: the verdict by the Redis count, if there is one. */
    method TryRedis(key: string, now: nat, reply: RedisReply) returns (admitted: Option<bool>)
      requires Valid() && Fair(State(), limit)
      modifies this`redis, this`verdicts
      ensures Valid() && Fair(State(), limit) && State() == Moved(old(State()), limit, Attempt(key, now, reply))
      ensures admitted == if reply.Answered? then Some(CounterOf(redis, key, Window(now)) <= limit) else None
    {
      MoveKeepsFair(State(), limit, Attempt(key, now, reply));
      var answer := Increment(key, now, reply);
      if answer.None? {
        return None;
      }
      verdicts := verdicts + [Verdict(Hit(key, now, Redis), answer.value <= limit)];
      admitted := Some(answer.value <= limit);
    }

    /** Its second step, when Redis gave no count: the verdict by the local count. */
    method FallBack(key: string, now: nat) returns (admitted: bool)
      requires Valid() && Fair(State(), limit)
      modifies this`local, this`hits, this`verdicts
      ensures Valid() && Fair(State(), limit) && State() == Moved(old(State()), limit, Fallback(key, now))
      ensures admitted <==> CountAfter(old(hits), key, now) <= limit
      ensures Unbroken(hits, key, Window(now)) ==> (admitted <==> CountIn(hits, key, Window(now), Local) <= limit)
    {
      MoveKeepsFair(State(), limit, Fallback(key, now));
      Counted(hits, key, now);
      var count := IncrementLocal(key, now);
      admitted := count <= limit;
      verdicts := verdicts + [Verdict(Hit(key, now, Local), admitted)];
    }

    /** One request, alone: the Redis count, or the local count if Redis gives none; refused above the
        limit. `now` is the clock at the Redis attempt, `later` at the local one. */
    method Middleware(key: string, now: nat, later: nat, reply: RedisReply) returns (admitted: bool)
      requires Valid() && Fair(State(), limit)
      modifies this
      ensures Valid() && Fair(State(), limit)
      ensures var first := Moved(old(State()), limit, Attempt(key, now, reply));
              State() == if reply.Answered? then first else Moved(first, limit, Fallback(key, later))
      ensures reply.Answered? ==> (admitted <==> CounterOf(redis, key, Window(now)) <= limit)
      ensures !reply.Answered? ==> (admitted <==> CountAfter(old(hits), key, later) <= limit)
      ensures !reply.Answered? && Unbroken(hits, key, Window(later)) ==>
                (admitted <==> CountIn(hits, key, Window(later), Local) <= limit)
    {
      var answer := TryRedis(key, now, reply);
      if answer.Some? {
        return answer.value;
      }
      admitted := FallBack(key, later);
    }
  }

  // ---- what the verdicts amount to ----

  /** A limit below zero admits nothing, like zero. */
  function Cap(limit: int): nat { if limit < 0 then 0 else limit }

  function AdmittedIn(verdicts: seq<Verdict>, key: string, window: nat, backend: Backend): nat {
    if verdicts == [] then 0
    else
      var last := verdicts[|verdicts| - 1];
      AdmittedIn(verdicts[..|verdicts| - 1], key, window, backend)
      + if last.admitted && Same(last.hit, key, window, backend) then 1 else 0
  }

  /** Per key and window the local counter, where its count is exact, admits exactly min(requests,
      limit), and the shared one at most the limit. */
  ghost predicate FairAt(l: Traffic, limit: int, key: string, window: nat) {
    && (Unbroken(l.hits, key, window) ==>
          AdmittedIn(l.verdicts, key, window, Local) == Min(CountIn(l.hits, key, window, Local), Cap(limit)))
    && AdmittedIn(l.verdicts, key, window, Redis) <= Min(CounterOf(l.redis, key, window), Cap(limit))
  }

  ghost predicate Fair(l: Traffic, limit: int) {
    forall key, window {:trigger FairAt(l, limit, key, window)} :: FairAt(l, limit, key, window)
  }

  lemma AdmittedNext(verdicts: seq<Verdict>, v: Verdict, key: string, window: nat, backend: Backend)
    ensures AdmittedIn(verdicts + [v], key, window, backend) ==
            AdmittedIn(verdicts, key, window, backend)
            + if v.admitted && Same(v.hit, key, window, backend) then 1 else 0
  {
    assert (verdicts + [v])[..|verdicts + [v]| - 1] == verdicts;
  }

  /** One step of any request keeps the account fair. */
  lemma MoveKeepsFair(l: Traffic, limit: int, m: Move)
    requires Fair(l, limit) && AllLocal(l.hits)
    ensures Fair(Moved(l, limit, m), limit) && AllLocal(Moved(l, limit, m).hits)
  {
    var l' := Moved(l, limit, m);
    forall key, window ensures FairAt(l', limit, key, window) {
      assert FairAt(l, limit, key, window);
      if m.Fallback? {
        FallbackKeepsFairAt(l, limit, m, key, window);
      } else if m.reply.Answered? {
        AdmittedNext(l.verdicts, l'.verdicts[|l.verdicts|], key, window, Local);
        AdmittedNext(l.verdicts, l'.verdicts[|l.verdicts|], key, window, Redis);
      } else {
        assert l'.verdicts == l.verdicts;
      }
    }
  }

  lemma FallbackKeepsFairAt(l: Traffic, limit: int, m: Move, key: string, window: nat)
    requires FairAt(l, limit, key, window) && AllLocal(l.hits) && m.Fallback?
    ensures FairAt(Moved(l, limit, m), limit, key, window)
  {
    var h := Hit(m.key, m.now, Local);
    var v := Verdict(h, CountAfter(l.hits, m.key, m.now) <= limit);
    Counted(l.hits, m.key, m.now);
    AdmittedNext(l.verdicts, v, key, window, Local);
    AdmittedNext(l.verdicts, v, key, window, Redis);
    CountNext(l.hits, h, key, window, Local);
    UnbrokenNext(l.hits, h, key, window);
  }

  lemma {:induction false} CourseIsFair(limit: int, moves: seq<Move>)
    ensures Fair(Course(limit, moves), limit) && AllLocal(Course(limit, moves).hits)
  {
    if moves != [] {
      CourseIsFair(limit, moves[..|moves| - 1]);
      MoveKeepsFair(Course(limit, moves[..|moves| - 1]), limit, moves[|moves| - 1]);
    }
  }

  // ---- the counters count requests ----

  /** A Redis attempt for this key in this minute that reaches the counter. */
  predicate Counts(m: Move, key: string, window: nat) {
    m.Attempt? && m.key == key && window <= m.now < window + 60 && !m.reply.Unreached?
  }

  function Attempts(moves: seq<Move>, key: string, window: nat): nat {
    if moves == [] then 0
    else
      Attempts(moves[..|moves| - 1], key, window)
      + if Counts(moves[|moves| - 1], key, window) then 1 else 0
  }

  predicate NoReplyLost(moves: seq<Move>, key: string, window: nat) {
    forall m :: m in moves && Counts(m, key, window) ==> m.reply.Answered?
  }

  function Fallbacks(moves: seq<Move>, key: string, window: nat): nat {
    if moves == [] then 0
    else
      var last := moves[|moves| - 1];
      Fallbacks(moves[..|moves| - 1], key, window)
      + if last.Fallback? && last.key == key && window <= last.now < window + 60 then 1 else 0
  }

  lemma InWindow(now: nat, window: nat)
    requires window % 60 == 0
    ensures Window(now) == window <==> window <= now < window + 60
  {
    var a, b := now / 60, window / 60;
    assert Window(now) == 60 * a && window == 60 * b;
  }

  /** In every interleaving the shared counter of a key and minute is the number of its attempts that
      reached Redis, answered or not, and the local one has seen exactly its fallbacks. */
  lemma {:induction false} CountersCountRequests(limit: int, moves: seq<Move>, key: string, window: nat)
    requires window % 60 == 0
    ensures CounterOf(Course(limit, moves).redis, key, window) == Attempts(moves, key, window)
    ensures CountIn(Course(limit, moves).hits, key, window, Local) == Fallbacks(moves, key, window)
  {
    if moves != [] {
      var front, last := moves[..|moves| - 1], moves[|moves| - 1];
      CountersCountRequests(limit, front, key, window);
      InWindow(last.now, window);
      if last.Fallback? {
        CountNext(Course(limit, front).hits, Hit(last.key, last.now, Local), key, window, Local);
      }
    }
  }

  /** One step admits by Redis at most its own request, and that if the counter is within the limit. */
  lemma MoveAdmits(l: Traffic, limit: int, m: Move, key: string, window: nat)
    requires window % 60 == 0
    ensures var l' := Moved(l, limit, m);
            AdmittedIn(l'.verdicts, key, window, Redis) ==
              AdmittedIn(l.verdicts, key, window, Redis) +
                if Counts(m, key, window) && m.reply.Answered? && CounterOf(l'.redis, key, window) <= limit then 1
                else 0
  {
    InWindow(m.now, window);
    var l' := Moved(l, limit, m);
    if l'.verdicts != l.verdicts {
      AdmittedNext(l.verdicts, l'.verdicts[|l.verdicts|], key, window, Redis);
    }
  }

  /** With no reply lost exactly min(requests, limit) of a key and minute are admitted by Redis. */
  lemma {:induction false} RedisAdmitsUpToLimit(limit: int, moves: seq<Move>, key: string, window: nat)
    requires window % 60 == 0 && NoReplyLost(moves, key, window)
    ensures AdmittedIn(Course(limit, moves).verdicts, key, window, Redis) ==
            Min(Attempts(moves, key, window), Cap(limit))
  {
    if moves != [] {
      var front, last := moves[..|moves| - 1], moves[|moves| - 1];
      assert last in moves && forall m :: m in front ==> m in moves;
      RedisAdmitsUpToLimit(limit, front, key, window);
      CountersCountRequests(limit, moves, key, window);
      MoveAdmits(Course(limit, front), limit, last, key, window);
    }
  }

  /** And of the fallbacks as many, where the local count is exact. */
  lemma LocalAdmitsUpToLimit(limit: int, moves: seq<Move>, key: string, window: nat)
    requires window % 60 == 0 && Unbroken(Course(limit, moves).hits, key, window)
    ensures AdmittedIn(Course(limit, moves).verdicts, key, window, Local) ==
            Min(Fallbacks(moves, key, window), Cap(limit))
  {
    CourseIsFair(limit, moves);
    assert FairAt(Course(limit, moves), limit, key, window);
    CountersCountRequests(limit, moves, key, window);
  }

  /** A request whose reply comes is admitted if and only if it is one of the first `limit` that have
      reached Redis for its key and minute. */
  lemma AnswerIsByRank(limit: int, moves: seq<Move>, key: string, now: nat)
    ensures var before := Course(limit, moves);
            var after := Moved(before, limit, Attempt(key, now, Answered));
            var admitted := Attempts(moves, key, Window(now)) < limit;
            after.verdicts == before.verdicts + [Verdict(Hit(key, now, Redis), admitted)]
  {
    WindowIsMinute(now);
    CountersCountRequests(limit, moves, key, Window(now));
  }

  // ---- any 60 seconds ----

  /** Requests with this key that were admitted at a time in [from, from + 60). */
  function AdmittedWithin(verdicts: seq<Verdict>, key: string, from: nat): nat {
    if verdicts == [] then 0
    else
      var last := verdicts[|verdicts| - 1];
      AdmittedWithin(verdicts[..|verdicts| - 1], key, from)
      + if last.admitted && last.hit.key == key && from <= last.hit.now < from + 60 then 1 else 0
  }

  /** The definition by recursion counts places in the list of verdicts. */
  lemma {:induction false} AdmittedWithinCounts(verdicts: seq<Verdict>, key: string, from: nat)
    ensures AdmittedWithin(verdicts, key, from) ==
            |set i | && 0 <= i < |verdicts| && verdicts[i].admitted && verdicts[i].hit.key == key
                     && from <= verdicts[i].hit.now < from + 60|
  {
    var places := set i | && 0 <= i < |verdicts| && verdicts[i].admitted && verdicts[i].hit.key == key
                          && from <= verdicts[i].hit.now < from + 60;
    if verdicts != [] {
      var front, last := verdicts[..|verdicts| - 1], verdicts[|verdicts| - 1];
      AdmittedWithinCounts(front, key, from);
      var before := set i | && 0 <= i < |front| && front[i].admitted && front[i].hit.key == key
                            && from <= front[i].hit.now < from + 60;
      assert forall i :: 0 <= i < |front| ==> verdicts[i] == front[i];
      var added := if last.admitted && last.hit.key == key && from <= last.hit.now < from + 60 then {|front|} else {};
      assert places == before + added;
      assert |front| !in before;
    }
  }

  lemma {:induction false} WithinTwoWindows(verdicts: seq<Verdict>, key: string, from: nat)
    ensures var w := Window(from);
            AdmittedWithin(verdicts, key, from) <=
              AdmittedIn(verdicts, key, w, Local) + AdmittedIn(verdicts, key, w + 60, Local)
              + AdmittedIn(verdicts, key, w, Redis) + AdmittedIn(verdicts, key, w + 60, Redis)
  {
    if verdicts != [] {
      WithinTwoWindows(verdicts[..|verdicts| - 1], key, from);
      var now := verdicts[|verdicts| - 1].hit.now;
      if from <= now < from + 60 { NearbyWindow(from, now); }
    }
  }

  lemma NearbyWindow(from: nat, now: nat)
    requires from <= now < from + 60
    ensures Window(now) == Window(from) || Window(now) == Window(from) + 60
  {
    assert now == 60 * (now / 60) + now % 60 && from == 60 * (from / 60) + from % 60;
  }

  lemma FairIsBounded(l: Traffic, limit: int, key: string, from: nat)
    requires Fair(l, limit) && Unbroken(l.hits, key, Window(from)) && Unbroken(l.hits, key, Window(from) + 60)
    ensures var w := Window(from);
            AdmittedIn(l.verdicts, key, w, Local) + AdmittedIn(l.verdicts, key, w, Redis) <= 2 * Cap(limit)
    ensures AdmittedWithin(l.verdicts, key, from) <= 4 * Cap(limit)
    ensures (forall v :: v in l.verdicts ==> v.hit.backend.Local?) ==>
              AdmittedWithin(l.verdicts, key, from) <= 2 * Cap(limit)
  {
    var w := Window(from);
    assert FairAt(l, limit, key, w) && FairAt(l, limit, key, w + 60);
    WithinTwoWindows(l.verdicts, key, from);
    if forall v :: v in l.verdicts ==> v.hit.backend.Local? {
      NoRedis(l.verdicts, key, w);
      NoRedis(l.verdicts, key, w + 60);
    }
  }

  /** Rolling bounds for every interleaving, while no bucket of the key's two minutes is reset or
      swept, so always while the local clock does not go back to an earlier minute: one aligned
      minute admits at most twice the limit per key when Redis and the local fallback share it, any
      60 seconds at most four times the limit, and at most twice when only the local counter answers. */
  lemma {:induction false} RollingBounds(limit: int, moves: seq<Move>, key: string, from: nat)
    requires var hits := Course(limit, moves).hits;
             Unbroken(hits, key, Window(from)) && Unbroken(hits, key, Window(from) + 60)
    ensures var verdicts, w := Course(limit, moves).verdicts, Window(from);
            && AdmittedIn(verdicts, key, w, Local) + AdmittedIn(verdicts, key, w, Redis) <= 2 * Cap(limit)
            && AdmittedWithin(verdicts, key, from) <= 4 * Cap(limit)
            && ((forall v :: v in verdicts ==> v.hit.backend.Local?) ==>
                  AdmittedWithin(verdicts, key, from) <= 2 * Cap(limit))
  {
    CourseIsFair(limit, moves);
    FairIsBounded(Course(limit, moves), limit, key, from);
  }

  lemma {:induction false} NoRedis(verdicts: seq<Verdict>, key: string, window: nat)
    requires forall v :: v in verdicts ==> v.hit.backend.Local?
    ensures AdmittedIn(verdicts, key, window, Redis) == 0
  {
    if verdicts != [] {
      assert verdicts[|verdicts| - 1] in verdicts;
      NoRedis(verdicts[..|verdicts| - 1], key, window);
    }
  }

  // ---- exactly when the local count is exact ----

  /** The buckets that a sequence of requests leaves behind. */
  function Played(hits: seq<Hit>): map<string, Bucket> {
    if hits == [] then map[]
    else
      var last := hits[|hits| - 1];
      Bumped(Played(hits[..|hits| - 1]), last.key, Window(last.now))
  }

  /** Request `n` finds its key's bucket still there, and still of its own minute. */
  predicate Resumes(hits: seq<Hit>, n: nat)
    requires n < |hits|
  {
    var kept := Swept(Played(hits[..n]), Window(hits[n].now));
    hits[n].key in kept && kept[hits[n].key].window == Window(hits[n].now)
  }

  ghost predicate UnbrokenAt(hits: seq<Hit>, key: string, window: nat, n: nat)
    requires n < |hits|
  {
    Same(hits[n], key, window, Local) && CountIn(hits[..n], key, window, Local) > 0 ==> Resumes(hits, n)
  }

  /** Each request of `key` in `window` but the first has resumed the bucket: none was reset or swept. */
  ghost predicate Unbroken(hits: seq<Hit>, key: string, window: nat) {
    forall n {:trigger UnbrokenAt(hits, key, window, n)} :: 0 <= n < |hits| ==> UnbrokenAt(hits, key, window, n)
  }

  lemma UnbrokenNext(hits: seq<Hit>, h: Hit, key: string, window: nat)
    ensures Unbroken(hits + [h], key, window) <==>
            Unbroken(hits, key, window) && UnbrokenAt(hits + [h], key, window, |hits|)
  {
    var hits' := hits + [h];
    forall n | 0 <= n < |hits| ensures UnbrokenAt(hits', key, window, n) <==> UnbrokenAt(hits, key, window, n) {
      assert hits'[..n] == hits[..n];
    }
    assert Unbroken(hits', key, window) ==>
             forall n {:trigger UnbrokenAt(hits, key, window, n)} :: 0 <= n < |hits| ==>
               UnbrokenAt(hits', key, window, n);
  }

  lemma {:induction false} UnusedIsUnbroken(hits: seq<Hit>, key: string, window: nat)
    requires CountIn(hits, key, window, Local) == 0
    ensures Unbroken(hits, key, window)
  {
    if hits != [] {
      var front, h := hits[..|hits| - 1], hits[|hits| - 1];
      assert hits == front + [h] && hits[..|front|] == front;
      UnusedIsUnbroken(front, key, window);
      UnbrokenNext(front, h, key, window);
    }
  }

  /** The exact condition, for every run and every clock: a bucket holds the number of requests of its
      key in its minute if and only if each of them but the first resumed it. It never holds more. */
  lemma {:induction false} ExactIffUnbroken(hits: seq<Hit>, key: string)
    requires AllLocal(hits)
    requires key in Played(hits)
    ensures var bucket := Played(hits)[key];
            var counted := CountIn(hits, key, bucket.window, Local);
            && 0 < bucket.count <= counted
            && (bucket.count == counted <==> Unbroken(hits, key, bucket.window))
  {
    var front, h := hits[..|hits| - 1], hits[|hits| - 1];
    assert hits == front + [h] && hits[..|front|] == front;
    var window := Played(hits)[key].window;
    CountNext(front, h, key, window, Local);
    UnbrokenNext(front, h, key, window);
    if key in Played(front) {
      ExactIffUnbroken(front, key);
    }
    if CountIn(front, key, window, Local) == 0 {
      UnusedIsUnbroken(front, key, window);
    }
  }

  lemma {:induction false} PlayedTracks(hits: seq<Hit>)
    requires Monotone(hits) && AllLocal(hits)
    ensures Tracks(Played(hits), hits)
  {
    if hits != [] {
      var front, h := hits[..|hits| - 1], hits[|hits| - 1];
      assert hits == front + [h];
      PlayedTracks(front);
      StaysTracked(Played(front), front, h.key, h.now);
    }
  }

  lemma LastIsUnbroken(hits: seq<Hit>)
    requires hits != [] && Monotone(hits) && AllLocal(hits)
    ensures Unbroken(hits, hits[|hits| - 1].key, Latest(hits))
  {
    var key := hits[|hits| - 1].key;
    PlayedTracks(hits);
    assert TracksAt(Played(hits), hits, key);
    ExactIffUnbroken(hits, key);
  }

  /** A clock that does not go back to an earlier minute meets the condition, for all keys and minutes. */
  lemma {:induction false} MonotoneIsUnbroken(hits: seq<Hit>, key: string, window: nat)
    requires Monotone(hits) && AllLocal(hits)
    ensures Unbroken(hits, key, window)
  {
    if hits != [] {
      var front, h := hits[..|hits| - 1], hits[|hits| - 1];
      assert hits == front + [h];
      MonotoneIsUnbroken(front, key, window);
      UnbrokenNext(front, h, key, window);
      if Same(h, key, window, Local) { LastIsUnbroken(hits); }
    }
  }

  // ---- the same condition, on the requests alone ----

  function KeysUsed(hits: seq<Hit>): set<string> {
    set i | 0 <= i < |hits| :: hits[i].key
  }

  /** The minute of the last request with this key. */
  function LastWindow(hits: seq<Hit>, key: string): Option<nat> {
    if hits == [] then None
    else if hits[|hits| - 1].key == key then Some(Window(hits[|hits| - 1].now))
    else LastWindow(hits[..|hits| - 1], key)
  }

  /** Once in this minute, the key is never used in another. */
  predicate Stays(hits: seq<Hit>, key: string, window: nat) {
    forall i, j :: 0 <= i < j < |hits| && Same(hits[i], key, window, Local) && hits[j].key == key ==>
      Window(hits[j].now) == window
  }

  /** No request with this key in another minute lies between two of them in this minute. */
  predicate Together(hits: seq<Hit>, key: string, window: nat) {
    forall k :: 0 <= k < |hits| && Same(hits[k], key, window, Local) ==> Stays(hits[..k], key, window)
  }

  /** With fewer than 512 keys nothing is swept: each key used has the bucket of its last minute. */
  lemma {:induction false} FewKeysKept(hits: seq<Hit>, key: string)
    requires |KeysUsed(hits)| < 512
    ensures Played(hits).Keys <= KeysUsed(hits)
    ensures (if key in Played(hits) then Some(Played(hits)[key].window) else None) == LastWindow(hits, key)
  {
    if hits != [] {
      var front, h := hits[..|hits| - 1], hits[|hits| - 1];
      assert hits == front + [h];
      FewKeysBefore(front, h);
      assert h.key in KeysUsed(hits);
      FewKeysKept(front, key);
      SubsetSize(Played(front).Keys, KeysUsed(front));
    }
  }

  lemma {:induction false} LastWindowIsLast(hits: seq<Hit>, key: string)
    ensures LastWindow(hits, key).Some? ==>
              exists j :: && 0 <= j < |hits| && hits[j].key == key && LastWindow(hits, key) == Some(Window(hits[j].now))
                          && forall k :: j < k < |hits| ==> hits[k].key != key
    ensures LastWindow(hits, key).None? ==> forall k :: 0 <= k < |hits| ==> hits[k].key != key
  {
    if hits != [] && hits[|hits| - 1].key != key {
      LastWindowIsLast(hits[..|hits| - 1], key);
    }
  }

  lemma {:induction false} CountedIsThere(hits: seq<Hit>, key: string, window: nat)
    ensures CountIn(hits, key, window, Local) > 0 <==> exists i :: 0 <= i < |hits| && Same(hits[i], key, window, Local)
  {
    if hits != [] {
      var front, h := hits[..|hits| - 1], hits[|hits| - 1];
      assert hits == front + [h];
      CountedIsThere(front, key, window);
    }
  }

  lemma TogetherNext(hits: seq<Hit>, h: Hit, key: string, window: nat)
    ensures Together(hits + [h], key, window) <==>
            Together(hits, key, window) && (Same(h, key, window, Local) ==> Stays(hits, key, window))
  {
    var hits' := hits + [h];
    assert hits'[..|hits|] == hits;
    forall k | 0 <= k < |hits| ensures hits'[k] == hits[k] && hits'[..k] == hits[..k] {
    }
  }

  /** So the last request with the key tells. */
  lemma StaysIffLast(hits: seq<Hit>, key: string, window: nat)
    requires AllLocal(hits) && Together(hits, key, window) && CountIn(hits, key, window, Local) > 0
    ensures Stays(hits, key, window) <==> LastWindow(hits, key) == Some(window)
  {
    CountedIsThere(hits, key, window);
    LastWindowIsLast(hits, key);
    var i :| 0 <= i < |hits| && Same(hits[i], key, window, Local);
    var j :| && 0 <= j < |hits| && hits[j].key == key && LastWindow(hits, key) == Some(Window(hits[j].now))
             && forall k :: j < k < |hits| ==> hits[k].key != key;
    if Window(hits[j].now) == window {
      assert Same(hits[j], key, window, Local);
      StaysFurther(hits, key, window, j);
    }
  }

  lemma StaysFurther(hits: seq<Hit>, key: string, window: nat, j: nat)
    requires j < |hits| && Stays(hits[..j], key, window) && Same(hits[j], key, window, Local)
    requires forall k :: j < k < |hits| ==> hits[k].key != key
    ensures Stays(hits, key, window)
  {
    var before := hits[..j];
    forall m, n | 0 <= m < n < |hits| && Same(hits[m], key, window, Local) && hits[n].key == key
      ensures Window(hits[n].now) == window
    {
      if n < j { assert before[m] == hits[m] && before[n] == hits[n]; }
    }
  }

  lemma UnusedStays(hits: seq<Hit>, key: string, window: nat)
    requires CountIn(hits, key, window, Local) == 0
    ensures Stays(hits, key, window)
  {
    CountedIsThere(hits, key, window);
  }

  /** With fewer than 512 keys the exact condition speaks of the requests alone: the count is exact if
      and only if no request of the key in another minute lies between two in this one. */
  lemma {:induction false} FewKeysUnbrokenIffTogether(hits: seq<Hit>, key: string, window: nat)
    requires AllLocal(hits) && |KeysUsed(hits)| < 512
    ensures Unbroken(hits, key, window) <==> Together(hits, key, window)
  {
    if hits != [] {
      var front, h := hits[..|hits| - 1], hits[|hits| - 1];
      assert hits == front + [h];
      FewKeysBefore(front, h);
      FewKeysUnbrokenIffTogether(front, key, window);
      UnbrokenNext(front, h, key, window);
      TogetherNext(front, h, key, window);
      if Same(h, key, window, Local) && Together(front, key, window) {
        if CountIn(front, key, window, Local) > 0 {
          StaysIffLast(front, key, window);
          FewKeysResume(front, h);
        } else {
          UnusedStays(front, key, window);
        }
        assert hits[..|front|] == front;
      }
    }
  }

  lemma FewKeysBefore(front: seq<Hit>, h: Hit)
    ensures KeysUsed(front) <= KeysUsed(front + [h]) && |KeysUsed(front)| <= |KeysUsed(front + [h])|
  {
    assert forall i :: 0 <= i < |front| ==> (front + [h])[i] == front[i];
    SubsetSize(KeysUsed(front), KeysUsed(front + [h]));
  }

  lemma {:induction false} FewKeysResume(front: seq<Hit>, h: Hit)
    requires |KeysUsed(front)| < 512
    ensures Resumes(front + [h], |front|) <==> LastWindow(front, h.key) == Some(Window(h.now))
  {
    assert (front + [h])[..|front|] == front;
    FewKeysKept(front, h.key);
    SubsetSize(Played(front).Keys, KeysUsed(front));
  }

  /** Exact boundary of the count: let exact buckets see one call for `key` in a minute before the
      latest one, and then one in the latest again. That answer is exact if and only if the key had no
      call in the latest minute before the clock went back. */
  lemma {:induction false} StepBackExactIffUnused(local: map<string, Bucket>, hits: seq<Hit>, key: string,
                                                       back: nat, now: nat)
    requires Tracks(local, hits) && Window(back) < Latest(hits) == Window(now)
    ensures var hits' := hits + [Hit(key, back, Local)] + [Hit(key, now, Local)];
            var local' := Bumped(Bumped(local, key, Window(back)), key, Window(now));
            local'[key].count == CountIn(hits', key, Window(now), Local) <==>
              CountIn(hits, key, Window(now), Local) == 0
  {
    var first, second := Hit(key, back, Local), Hit(key, now, Local);
    CountNext(hits, first, key, Window(now), Local);
    CountNext(hits + [first], second, key, Window(now), Local);
    assert Bumped(local, key, Window(back))[key].window == Window(back);
  }

  /** So one step back of the clock to an earlier minute can make the counter forget a request. */
  lemma ClockStepBackForgets(key: string)
    ensures var hits := [Hit(key, 60, Local), Hit(key, 0, Local), Hit(key, 60, Local)];
            var local := Bumped(Bumped(Bumped(map[], key, 60), key, 0), key, 60);
            local[key].count == 1 && CountIn(hits, key, 60, Local) == 2
  {
    var a, b, c := Hit(key, 60, Local), Hit(key, 0, Local), Hit(key, 60, Local);
    CountNext([], a, key, 60, Local);
    CountNext([a], b, key, 60, Local);
    CountNext([a, b], c, key, 60, Local);
    assert [] + [a] == [a] && [a] + [b] == [a, b] && [a, b] + [c] == [a, b, c];
  }

  function Swept(local: map<string, Bucket>, window: nat): map<string, Bucket> {
    if |local| < 512 then local else map key | key in local && local[key].window >= window :: local[key]
  }

  /** Below 512 keys nothing is swept; from there on exactly the buckets of earlier minutes are. */
  lemma SweptDropsEarlier(local: map<string, Bucket>, window: nat, key: string)
    ensures |local| < 512 ==> Swept(local, window) == local
    ensures |local| >= 512 ==> (key in Swept(local, window) <==> key in local && local[key].window >= window)
    ensures key in Swept(local, window) ==> Swept(local, window)[key] == local[key]
  {
  }

  /** One call of the local counter, as a function. */
  function Bumped(local: map<string, Bucket>, key: string, window: nat): map<string, Bucket> {
    var kept := Swept(local, window);
    var count := if key in kept && kept[key].window == window then kept[key].count else 0;
    kept[key := Bucket(window, count + 1)]
  }

  /** The keys that were used in a window. */
  function KeysIn(hits: seq<Hit>, window: nat): set<string> {
    set i | 0 <= i < |hits| && Window(hits[i].now) == window :: hits[i].key
  }

  lemma {:induction false} CountedIsUsed(hits: seq<Hit>, key: string, window: nat, backend: Backend)
    requires CountIn(hits, key, window, backend) > 0
    ensures key in KeysIn(hits, window)
  {
    var last := hits[|hits| - 1];
    if !Same(last, key, window, backend) {
      CountedIsUsed(hits[..|hits| - 1], key, window, backend);
      assert KeysIn(hits[..|hits| - 1], window) <= KeysIn(hits, window);
    }
  }

  /** The buckets stay exact when the clock does not go back to an earlier minute. */
  lemma StaysTracked(local: map<string, Bucket>, hits: seq<Hit>, key: string, now: nat)
    requires Tracks(local, hits) && Monotone(hits + [Hit(key, now, Local)])
    ensures var hits', local' := hits + [Hit(key, now, Local)], Bumped(local, key, Window(now));
            && Latest(hits) <= Window(now)
            && Tracks(local', hits') && local'[key].count == CountIn(hits', key, Window(now), Local)
  {
    var h := Hit(key, now, Local);
    var hits', local' := hits + [h], Bumped(local, key, Window(now));
    assert forall i, j :: 0 <= i < j < |hits| ==> hits[i] == hits'[i] && hits[j] == hits'[j];
    assert hits != [] ==> Window(hits'[|hits| - 1].now) <= Window(hits'[|hits|].now);
    forall k {:trigger TracksAt(local', hits', k)} ensures TracksAt(local', hits', k) {
      KeyStaysTracked(local, hits, key, now, k);
    }
    assert TracksAt(local', hits', key);
  }

  lemma KeyStaysTracked(local: map<string, Bucket>, hits: seq<Hit>, key: string, now: nat, k: string)
    requires TracksAt(local, hits, k) && Monotone(hits) && Latest(hits) <= Window(now)
    ensures TracksAt(Bumped(local, key, Window(now)), hits + [Hit(key, now, Local)], k)
  {
    CountNext(hits, Hit(key, now, Local), k, Window(now), Local);
    if Latest(hits) < Window(now) { NothingAhead(hits, k, Window(now), Local); }
  }

  /** What the counter answers to one more request. */
  lemma Counted(hits: seq<Hit>, key: string, now: nat)
    requires AllLocal(hits)
    ensures var h := Hit(key, now, Local);
            var hits', local' := hits + [h], Played(hits + [h]);
            var counted := CountIn(hits', key, Window(now), Local);
            && local' == Bumped(Played(hits), key, Window(now))
            && (forall k :: k in Played(hits) && Played(hits)[k].window == Window(now) ==> k in local')
            && 1 <= local'[key].count <= counted
            && (local'[key].count == counted <==> Unbroken(hits', key, Window(now)))
            && (Monotone(hits') ==>
                  && Unbroken(hits', key, Window(now))
                  && (|local'| <= 512 || |local'| <= |KeysIn(hits', Window(now))|))
  {
    var hits' := hits + [Hit(key, now, Local)];
    assert hits'[..|hits|] == hits;
    ExactIffUnbroken(hits', key);
    if Monotone(hits') {
      assert forall i, j :: 0 <= i < j < |hits| ==> hits[i] == hits'[i] && hits[j] == hits'[j];
      LastIsUnbroken(hits');
      PlayedTracks(hits);
      assert hits != [] ==> Window(hits'[|hits| - 1].now) <= Window(hits'[|hits|].now);
      BoundedBySweep(Played(hits), hits, key, now);
    }
  }

  lemma BoundedBySweep(local: map<string, Bucket>, hits: seq<Hit>, key: string, now: nat)
    requires Tracks(local, hits) && Latest(hits) <= Window(now)
    ensures var hits', local' := hits + [Hit(key, now, Local)], Bumped(local, key, Window(now));
            |local'| <= 512 || |local'| <= |KeysIn(hits', Window(now))|
  {
    var hits', local', window := hits + [Hit(key, now, Local)], Bumped(local, key, Window(now)), Window(now);
    var kept := Swept(local, window);
    if |local| < 512 {
      assert local'.Keys == kept.Keys + {key};
    } else {
      forall k | k in local'.Keys ensures k in KeysIn(hits', window) {
        if k == key {
          assert hits'[|hits|].key == key;
        } else {
          assert TracksAt(local, hits, k);
          CountedIsUsed(hits, k, window, Local);
          assert forall i :: 0 <= i < |hits| ==> hits'[i] == hits[i];
        }
      }
      SubsetSize(local'.Keys, KeysIn(hits', window));
    }
  }
}
