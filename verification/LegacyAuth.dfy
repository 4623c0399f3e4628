/**
 * The legacy auth cache of Auth.handleAESMiddleware: a least-recently-used map with a time
 * to live, combined with request coalescing, so that requests with a key in flight wait
 * for the one authenticate call.
 *
 * A key is the digest of the authorization header, so equal keys carry equal credentials;
 * a request without a key (cache off, or not a bearer token) authenticates on its own.
 * Plugins call back once and the request handlers do not throw.
 */
module LegacyAuth {
  import opened Common

  /** Digests; never empty. */
  type Key = nat

  /** Requests are numbered in order of arrival. */
  type Request = nat

  datatype User = User(name: Option<string>, groups: seq<string>, token: Option<string>)

  /** What authenticate calls back with: an error or no user is `None`. */
  type Result = Option<User>

  datatype Entry = Entry(expiresAt: int, user: User)

  /** The JavaScript Map `legacyAuthCache`: `order` lists its keys as it iterates. */
  datatype Cache = Cache(order: seq<Key>, entries: map<Key, Entry>)

  /** `tokenKey` is the key of the generated token, if the credentials behind a digest carry one. */
  datatype Config = Config(ttlMs: int, maxEntries: nat, tokenKey: Key -> Option<string>)

  predicate Sane(config: Config) {
    config.ttlMs > 0 && config.maxEntries > 0
  }

  // ---------------------------------------------------------------- the map

  ghost predicate WellFormed(c: Cache) {
    Distinct(c.order) && forall k :: k in c.order <==> k in c.entries
  }

  function Remove(order: seq<Key>, k: Key): seq<Key> {
    if order == [] then []
    else if order[0] == k then order[1..]
    else [order[0]] + Remove(order[1..], k)
  }

  function Delete(c: Cache, k: Key): Cache {
    Cache(Remove(c.order, k), c.entries - {k})
  }

  /** Map.set: a key already there keeps its place, a new one goes last. */
  function Put(c: Cache, k: Key, e: Entry): Cache {
    Cache(if k in c.order then c.order else c.order + [k], c.entries[k := e])
  }

  /** The user with the key of the generated token, when the credentials carry one. */
  function Decorate(tokenKey: Option<string>, user: User): User {
    if tokenKey.Some? then user.(token := tokenKey) else user
  }

  // getLegacyAuthCacheEntry
  function Get(c: Cache, key: Key, now: int): (Cache, Option<User>) {
    if key !in c.entries then (c, None)
    else if c.entries[key].expiresAt <= now then (Delete(c, key), None)
    else (Put(Delete(c, key), key, c.entries[key]), Some(c.entries[key].user))
  }

  // A key deleted and put again goes last, and nothing else changes.
  lemma PutLast(c: Cache, key: Key)
    requires WellFormed(c) && key in c.entries
    ensures var t := Put(Delete(c, key), key, c.entries[key]);
            t.order != [] && t.order[|t.order| - 1] == key && t.entries == c.entries
  {
    RemoveIs(c.order, key);
  }

  // The cache without its oldest key.
  function DropFirst(c: Cache): Cache
    requires c.order != []
  {
    Cache(c.order[1..], c.entries - {c.order[0]})
  }

  // The loop that drops the oldest keys while there are too many.
  function Evict(c: Cache, maxEntries: nat): Cache
    decreases |c.order|
  {
    if |c.order| > maxEntries then Evict(DropFirst(c), maxEntries) else c
  }

  // setLegacyAuthCacheEntry
  function Set(config: Config, c: Cache, key: Key, user: User, now: int): Cache {
    Evict(Put(c, key, Entry(now + config.ttlMs, user)), config.maxEntries)
  }

  // ---------------------------------------------------------------- the class

  /** How handleAESMiddleware deals with an arriving request. */
  datatype Decision = Hit(user: User) | Waits | Leads

  /** A user object, which whoever holds it may write to. */
  class RemoteUser {
    var user: User

    constructor (user: User)
      ensures this.user == user
    {
      this.user := user;
    }
  }

  /** cloneRemoteUser: another object, equal and with nothing shared. */
  method CloneRemoteUser(user: RemoteUser) returns (copy: RemoteUser)
    ensures fresh(copy) && copy.user == user.user
  {
    copy := new RemoteUser(user.user);
  }

  datatype Stored = Stored(expiresAt: int, user: RemoteUser)

  class AuthCache {
    const config: Config
    var order: seq<Key>
    var entries: map<Key, Stored>
    var waiters: map<Key, seq<Request>>

    constructor (config: Config)
      ensures this.config == config && Value() == Cache([], map[]) && waiters == map[] && Owned() == {}
    {
      this.config := config;
      order, entries, waiters := [], map[], map[];
    }

    /** The user objects in the cache. */
    ghost function Owned(): set<RemoteUser>
      reads this
    {
      set k | k in entries :: entries[k].user
    }

    ghost function Value(): Cache
      reads this, Owned()
    {
      Cache(order, map k | k in entries :: Entry(entries[k].expiresAt, entries[k].user.user))
    }

    method DeleteKey(k: Key)
      requires WellFormed(Value())
      modifies this
      ensures Value() == Delete(old(Value()), k) && waiters == old(waiters)
      ensures entries == old(entries) - {k}
    {
      order, entries := Remove(order, k), entries - {k};
    }

    method PutKey(k: Key, e: Stored)
      modifies this
      ensures Value() == Put(old(Value()), k, Entry(e.expiresAt, e.user.user)) && waiters == old(waiters)
      ensures entries == old(entries)[k := e]
    {
      if k !in order {
        order := order + [k];
      }
      entries := entries[k := e];
    }

    /** A hit hands out a copy: the object is new, so the cache does not hold it. */
    method GetEntry(key: Key, now: int) returns (user: RemoteUser?)
      requires WellFormed(Value())
      modifies this
      ensures (Value(), if user == null then None else Some(user.user)) == Get(old(Value()), key, now)
      ensures user != null <==> key in old(entries) && now < old(entries)[key].expiresAt
      ensures user != null ==>
                && fresh(user) && user.user == old(entries[key].user.user)
                && entries == old(entries) && order != [] && order[|order| - 1] == key
      ensures user == null ==> entries == old(entries) - {key}
      ensures Owned() <= old(Owned()) && waiters == old(waiters)
    {
      if key !in entries {
        return null;
      }
      var entry := entries[key];
      ghost var c := Value();
      assert c.entries[key] == Entry(entry.expiresAt, entry.user.user);
      PutLast(c, key);
      DeleteKey(key);
      if entry.expiresAt <= now {
        return null;
      }
      PutKey(key, entry);
      user := CloneRemoteUser(entry.user);
      assert Value() == Put(Delete(c, key), key, c.entries[key]);
      assert entries == old(entries);
    }

    /** The cache keeps a copy: whatever it did not hold before, it holds only if it made it. */
    method SetEntry(key: Key, user: RemoteUser, now: int)
      modifies this
      ensures Value() == Set(config, old(Value()), key, old(user.user), now) && waiters == old(waiters)
      ensures fresh(Owned() - old(Owned()))
      ensures 0 < config.maxEntries && |old(order)| <= config.maxEntries && old(WellFormed(Value())) ==>
                && key in Value().entries
                && Value().entries[key] == Entry(now + config.ttlMs, old(user.user))
    {
      ghost var c, given := Value(), user.user;
      if 0 < config.maxEntries && |order| <= config.maxEntries && WellFormed(c) {
        SetStores(config, c, key, given, now);
      }
      var copy := CloneRemoteUser(user);
      assert Value() == old(Value());
      PutKey(key, Stored(now + config.ttlMs, copy));
      ghost var put := Value();
      while |order| > config.maxEntries
        invariant Evict(Value(), config.maxEntries) == Evict(put, config.maxEntries)
        invariant waiters == old(waiters)
        invariant Owned() <= old(Owned()) + {copy}
        decreases |order|
      {
        DropOldest();
      }
    }

    method DropOldest()
      requires order != []
      modifies this
      ensures Value() == DropFirst(old(Value())) && waiters == old(waiters)
      ensures Owned() <= old(Owned())
    {
      var oldest := order[0];
      order, entries := order[1..], entries - {oldest};
    }

    /** The start of handleAESMiddleware: cache, then waiters. */
    method Handle(request: Request, key: Option<Key>, now: int) returns (decision: Decision, user: RemoteUser?)
      requires WellFormed(Value())
      modifies this
      ensures (Value(), waiters, decision) == Arrive(old(Value()), old(waiters), request, key, now)
      ensures decision.Hit? <==> key.Some? && key.value in old(entries) && now < old(entries)[key.value].expiresAt
      ensures decision.Hit? ==>
                && user != null && fresh(user) && user.user == decision.user == old(entries[key.value].user.user)
      ensures decision.Waits? <==> !decision.Hit? && key.Some? && key.value in old(waiters)
      ensures waiters == if decision.Hit? || key.None? then old(waiters)
                         else if decision.Leads? then old(waiters)[key.value := []]
                         else old(waiters)[key.value := old(waiters)[key.value] + [request]]
      ensures Owned() <= old(Owned())
    {
      user := null;
      if key.None? {
        return Leads, null;
      }
      user := GetEntry(key.value, now);
      if user != null {
        return Hit(user.user), user;
      }
      ghost var c := Value();
      if key.value !in waiters {
        waiters := waiters[key.value := []];
        assert Value() == c;
        return Leads, null;
      }
      waiters := waiters[key.value := waiters[key.value] + [request]];
      assert Value() == c;
      return Waits, null;
    }

    // A success of the leader is cached, with the key of its token when the credentials carry one.
    method CacheResult(key: Key, result: RemoteUser, now: int)
      modifies this
      ensures Value() == Set(config, old(Value()), key, Decorate(config.tokenKey(key), old(result.user)), now)
      ensures waiters == old(waiters) && fresh(Owned() - old(Owned()))
    {
      var user := result;
      if config.tokenKey(key).Some? {
        user := new RemoteUser(Decorate(config.tokenKey(key), result.user));
        assert Value() == old(Value());
      }
      SetEntry(key, user, now);
    }

    // The leader is answered, then its waiters in order.
    method AnswerAll(leader: Request, key: Option<Key>) returns (answered: seq<Request>)
      modifies this`waiters
      ensures answered == [leader] + (if key.Some? && key.value in old(waiters) then old(waiters)[key.value] else [])
      ensures waiters == if key.Some? then old(waiters) - {key.value} else old(waiters)
    {
      answered := [leader];
      if key.Some? {
        var waiting := if key.value in waiters then waiters[key.value] else [];
        waiters := waiters - {key.value};
        for i := 0 to |waiting|
          invariant answered == [leader] + waiting[..i]
        {
          answered := answered + [waiting[i]];
        }
        assert waiting[..|waiting|] == waiting;
      }
    }

    /** onAuthComplete of a leader: cache the user, answer the leader, then its waiters. */
    method Complete(leader: Request, key: Option<Key>, result: RemoteUser?, now: int) returns (answered: seq<Request>)
      modifies this
      ensures var came := if result == null then None else Some(old(result.user));
              (Value(), waiters, answered) == Finish(config, old(Value()), old(waiters), leader, key, came, now)
      ensures fresh(Owned() - old(Owned()))
    {
      ghost var came := if result == null then None else Some(result.user);
      if key.Some? && result != null {
        CacheResult(key.value, result, now);
      }
      ghost var c := Value();
      assert c == Finish(config, old(Value()), old(waiters), leader, key, came, now).0;
      answered := AnswerAll(leader, key);
      assert Value() == c && [leader] + [] == [leader];
    }
  }

  /** A handler that writes to a user the cache does not hold, such as a hit, changes no later answer. */
  method HandlerWrites(cache: AuthCache, user: RemoteUser, written: User)
    requires user !in cache.Owned()
    modifies user
    ensures cache.Value() == old(cache.Value()) && cache.Owned() == old(cache.Owned())
  {
    user.user := written;
  }

  function Arrive(c: Cache, waiters: map<Key, seq<Request>>, request: Request, key: Option<Key>, now: int)
    : (Cache, map<Key, seq<Request>>, Decision)
  {
    if key.None? then (c, waiters, Leads)
    else
      var (c', cached) := Get(c, key.value, now);
      if cached.Some? then (c', waiters, Hit(cached.value))
      else if key.value !in waiters then (c', waiters[key.value := []], Leads)
      else (c', waiters[key.value := waiters[key.value] + [request]], Waits)
  }

  function Finish(config: Config, c: Cache, waiters: map<Key, seq<Request>>, leader: Request, key: Option<Key>,
      result: Result, now: int)
    : (Cache, map<Key, seq<Request>>, seq<Request>)
  {
    if key.None? then (c, waiters, [leader])
    else
      (if result.Some? then Set(config, c, key.value, Decorate(config.tokenKey(key.value), result.value), now) else c,
       waiters - {key.value},
       [leader] + (if key.value in waiters then waiters[key.value] else []))
  }

  // ---------------------------------------------------------------- runs

  datatype Arrival = Arrival(key: Option<Key>, ownTokenKey: Option<string>)

  /** A reply: the cached user, or what the authenticate call of `leader` came to for this request. */
  datatype Reply = FromCache(user: User, at: int) | FromLeader(leader: Request, outcome: Option<User>)

  /** A success of authenticate for a key, as it was cached. */
  datatype Login = Login(key: Key, user: User, at: int)

  /**
   * History, never read by a step: who leads each key, the replies and their order, the
   * results of the leaders, the uses of cached keys and the logins.
   */
  datatype State = State(
    cache: Cache,
    waiters: map<Key, seq<Request>>,
    flights: set<Request>,
    now: int,
    arrivals: seq<Arrival>,
    leaders: map<Key, Request>,
    replies: map<Request, Reply>,
    replied: seq<Request>,
    results: map<Request, Result>,
    uses: seq<Key>,
    logins: seq<Login>)

  datatype Action =
    | Arrives(arrival: Arrival, now: int)
    | Completes(leader: Request, result: Result, now: int)

  function Start(now: int): State {
    State(Cache([], map[]), map[], {}, now, [], map[], map[], [], map[], [], [])
  }

  function TokenKeyOf(config: Config, a: Arrival): Option<string> {
    if a.key.Some? then config.tokenKey(a.key.value) else a.ownTokenKey
  }

  function Outcome(config: Config, a: Arrival, result: Result): Option<User> {
    if result.Some? then Some(Decorate(TokenKeyOf(config, a), result.value)) else None
  }

  function ReplyAll(config: Config, s: State, answered: seq<Request>, leader: Request, result: Result)
    : map<Request, Reply>
  {
    if answered == [] then s.replies
    else
      var r := answered[|answered| - 1];
      ReplyAll(config, s, answered[..|answered| - 1], leader, result)
        [r := FromLeader(leader, if r < |s.arrivals| then Outcome(config, s.arrivals[r], result) else None)]
  }

  /** One action: a request arrives, or the plugin calls back for a leader in flight. */
  function Apply(config: Config, s: State, a: Action): State {
    if a.now < s.now then s
    else
      match a
      case Arrives(arrival, now) => ApplyArrival(s, arrival, now)
      case Completes(leader, result, now) =>
        if leader in s.flights && leader < |s.arrivals| then ApplyCompletion(config, s, leader, result, now) else s
  }

  function ApplyArrival(s: State, arrival: Arrival, now: int): State {
    var r := |s.arrivals|;
    var (cache, waiters, decision) := Arrive(s.cache, s.waiters, r, arrival.key, now);
    var t := s.(cache := cache, waiters := waiters, now := now, arrivals := s.arrivals + [arrival]);
    match decision
    case Hit(user) =>
      t.(replies := s.replies[r := FromCache(user, now)],
         replied := s.replied + [r],
         uses := s.uses + [arrival.key.value])
    case Waits => t
    case Leads =>
      t.(flights := s.flights + {r},
         leaders := if arrival.key.Some? then s.leaders[arrival.key.value := r] else s.leaders)
  }

  function ApplyCompletion(config: Config, s: State, leader: Request, result: Result, now: int): State
    requires leader < |s.arrivals|
  {
    var key := s.arrivals[leader].key;
    var (cache, waiters, answered) := Finish(config, s.cache, s.waiters, leader, key, result, now);
    var t := s.(cache := cache, waiters := waiters, now := now, flights := s.flights - {leader},
                leaders := if key.Some? then s.leaders - {key.value} else s.leaders,
                replies := ReplyAll(config, s, answered, leader, result), replied := s.replied + answered,
                results := s.results[leader := result]);
    if key.Some? && result.Some? then
      t.(uses := s.uses + [key.value],
         logins := s.logins + [Login(key.value, Decorate(config.tokenKey(key.value), result.value), now)])
    else t
  }

  function Exec(config: Config, s: State, acts: seq<Action>): State {
    if acts == [] then s
    else Apply(config, Exec(config, s, acts[..|acts| - 1]), acts[|acts| - 1])
  }

  // ---------------------------------------------------------------- map lemmas

  lemma {:induction false} RemoveIs(order: seq<Key>, k: Key)
    requires Distinct(order)
    ensures Distinct(Remove(order, k))
    ensures forall x :: x in Remove(order, k) <==> x in order && x != k
    ensures |Remove(order, k)| == |order| - (if k in order then 1 else 0)
  {
    if order != [] && order[0] != k {
      RemoveIs(order[1..], k);
      assert order == [order[0]] + order[1..];
      assert order[0] !in order[1..];
    }
  }

  lemma GetKeepsWellFormed(c: Cache, key: Key, now: int)
    requires WellFormed(c)
    ensures WellFormed(Get(c, key, now).0)
  {
    RemoveIs(c.order, key);
  }

  // What is cached stays cached while others make room, being the newest, and is what was given.
  lemma SetStores(config: Config, c: Cache, key: Key, user: User, now: int)
    requires 0 < config.maxEntries && |c.order| <= config.maxEntries && WellFormed(c)
    ensures var after := Set(config, c, key, user, now);
            key in after.entries && after.entries[key] == Entry(now + config.ttlMs, user)
  {
    var put := Put(c, key, Entry(now + config.ttlMs, user));
    if key in c.order {
      assert Evict(put, config.maxEntries) == put;
    } else {
      assert put.order[|put.order| - 1] == key;
      assert |put.order| > config.maxEntries ==> Evict(put, config.maxEntries) == DropFirst(put) by {
        assert |DropFirst(put).order| <= config.maxEntries;
      }
    }
  }

  /** Between two hits of a key the first one's object may be written to; the second is what was cached all the same. */
  method HitTwice(cache: AuthCache, key: Key, first: int, second: int, written: User)
    returns (one: RemoteUser?, two: RemoteUser?)
    requires WellFormed(cache.Value())
    modifies cache
    ensures one != null <==> key in old(cache.entries) && first < old(cache.entries)[key].expiresAt
    ensures two != null <==> one != null && second < old(cache.entries)[key].expiresAt
    ensures two != null ==> one != two && two.user == old(cache.entries[key].user.user)
  {
    GetKeepsWellFormed(cache.Value(), key, first);
    one := cache.GetEntry(key, first);
    if one != null {
      HandlerWrites(cache, one, written);
    }
    two := cache.GetEntry(key, second);
  }

  /** The position of the last use of a key, -1 without one. */
  function LastUse(uses: seq<Key>, k: Key): int {
    if uses == [] then -1
    else if uses[|uses| - 1] == k then |uses| - 1
    else LastUse(uses[..|uses| - 1], k)
  }

  lemma {:induction false} LastUseIsBounded(uses: seq<Key>, k: Key)
    ensures LastUse(uses, k) < |uses|
  {
    if uses != [] && uses[|uses| - 1] != k {
      LastUseIsBounded(uses[..|uses| - 1], k);
    }
  }

  lemma UseOf(uses: seq<Key>, k: Key, x: Key)
    ensures LastUse(uses + [k], x) == if x == k then |uses| else LastUse(uses, x)
  {
    assert (uses + [k])[..|uses|] == uses;
  }

  // Map order is recency order.
  ghost predicate InUseOrder(order: seq<Key>, uses: seq<Key>) {
    forall i, j :: 0 <= i < j < |order| ==> LastUse(uses, order[i]) < LastUse(uses, order[j])
  }

  lemma {:induction false} RemoveKeepsUseOrder(order: seq<Key>, k: Key, uses: seq<Key>)
    requires Distinct(order) && InUseOrder(order, uses)
    ensures InUseOrder(Remove(order, k), uses)
  {
    if order != [] && order[0] != k {
      RemoveKeepsUseOrder(order[1..], k, uses);
      RemoveIs(order[1..], k);
      var rest := Remove(order[1..], k);
      forall j | 0 <= j < |rest| ensures LastUse(uses, order[0]) < LastUse(uses, rest[j]) {
        assert rest[j] in order[1..];
      }
    }
  }

  // Using a key that is not in the order puts it last.
  lemma {:induction false} AppendKeepsUseOrder(order: seq<Key>, k: Key, uses: seq<Key>)
    requires Distinct(order) && InUseOrder(order, uses) && k !in order
    ensures InUseOrder(order + [k], uses + [k])
  {
    forall i, j | 0 <= i < j < |order| + 1
      ensures LastUse(uses + [k], (order + [k])[i]) < LastUse(uses + [k], (order + [k])[j])
    {
      UseOf(uses, k, (order + [k])[i]);
      UseOf(uses, k, (order + [k])[j]);
      LastUseIsBounded(uses, order[i]);
    }
  }

  // ---------------------------------------------------------------- the cache over runs

  // An entry is what some authenticate call answered for its key.
  ghost predicate Backed(config: Config, logins: seq<Login>, now: int, key: Key, e: Entry) {
    exists h :: 0 <= h < |logins| && logins[h].key == key && logins[h].user == e.user
      && logins[h].at <= now && e.expiresAt == logins[h].at + config.ttlMs
  }

  // Map order is recency order, and every entry is backed; the size is another matter.
  ghost predicate EntriesOk(config: Config, c: Cache, uses: seq<Key>, logins: seq<Login>, now: int) {
    && WellFormed(c)
    && InUseOrder(c.order, uses)
    && (forall k :: k in c.entries ==> Backed(config, logins, now, k, c.entries[k]))
  }

  lemma {:induction false} DeleteKeepsEntries(config: Config, c: Cache, uses: seq<Key>, logins: seq<Login>, now: int,
      k: Key)
    requires EntriesOk(config, c, uses, logins, now)
    ensures EntriesOk(config, Delete(c, k), uses, logins, now)
    ensures |Delete(c, k).order| == |c.order| - (if k in c.entries then 1 else 0)
  {
    RemoveIs(c.order, k);
    RemoveKeepsUseOrder(c.order, k, uses);
  }

  lemma {:induction false} PutKeepsEntries(config: Config, c: Cache, uses: seq<Key>, logins: seq<Login>, now: int,
      k: Key, e: Entry)
    requires EntriesOk(config, c, uses, logins, now) && k !in c.entries && Backed(config, logins, now, k, e)
    ensures EntriesOk(config, Put(c, k, e), uses + [k], logins, now)
    ensures |Put(c, k, e).order| == |c.order| + 1
  {
    AppendKeepsUseOrder(c.order, k, uses);
    assert (c.order + [k])[|c.order|] == k;
    assert forall i :: 0 <= i < |c.order| ==> (c.order + [k])[i] == c.order[i];
  }

  lemma BackedLater(config: Config, logins: seq<Login>, more: seq<Login>, now: int, later: int, key: Key, e: Entry)
    requires Backed(config, logins, now, key, e) && now <= later
    ensures Backed(config, logins + more, later, key, e)
  {
    var h :| 0 <= h < |logins| && logins[h].key == key && logins[h].user == e.user
      && logins[h].at <= now && e.expiresAt == logins[h].at + config.ttlMs;
    assert (logins + more)[h] == logins[h];
  }

  lemma {:induction false} EntriesOkLater(
    config: Config, c: Cache, uses: seq<Key>, logins: seq<Login>, more: seq<Login>, now: int, later: int)
    requires EntriesOk(config, c, uses, logins, now) && now <= later
    ensures EntriesOk(config, c, uses, logins + more, later)
  {
    forall k | k in c.entries ensures Backed(config, logins + more, later, k, c.entries[k]) {
      BackedLater(config, logins, more, now, later, k, c.entries[k]);
    }
  }

  // The keys dropped were used before all keys kept.
  ghost predicate DropsOldest(before: Cache, after: Cache, uses: seq<Key>) {
    forall k, x :: k in before.entries && k !in after.entries && x in after.entries ==>
      LastUse(uses, k) < LastUse(uses, x)
  }

  lemma TailKeepsUseOrder(order: seq<Key>, uses: seq<Key>)
    requires Distinct(order) && InUseOrder(order, uses) && order != []
    ensures Distinct(order[1..]) && InUseOrder(order[1..], uses)
    ensures forall x :: x in order[1..] <==> x in order && x != order[0]
    ensures forall x :: x in order[1..] ==> LastUse(uses, order[0]) < LastUse(uses, x)
  {
    var tail := order[1..];
    forall i, j | 0 <= i < j < |tail| ensures tail[i] != tail[j] && LastUse(uses, tail[i]) < LastUse(uses, tail[j]) {
      assert tail[i] == order[i + 1] && tail[j] == order[j + 1];
    }
    forall x | x in tail ensures x in order && x != order[0] && LastUse(uses, order[0]) < LastUse(uses, x) {
      var i :| 0 <= i < |tail| && tail[i] == x;
      assert order[i + 1] == x;
    }
    forall x | x in order && x != order[0] ensures x in tail {
      var i :| 0 <= i < |order| && order[i] == x;
      assert tail[i - 1] == x;
    }
  }

  lemma DropFirstKeepsEntries(config: Config, c: Cache, uses: seq<Key>, logins: seq<Login>, now: int)
    requires EntriesOk(config, c, uses, logins, now) && c.order != []
    ensures EntriesOk(config, DropFirst(c), uses, logins, now)
    ensures forall x :: x in DropFirst(c).entries ==> LastUse(uses, c.order[0]) < LastUse(uses, x)
  {
    TailKeepsUseOrder(c.order, uses);
  }

  lemma {:induction false} EvictKeepsEntries(config: Config, c: Cache, uses: seq<Key>, logins: seq<Login>, now: int)
    requires EntriesOk(config, c, uses, logins, now)
    ensures var after := Evict(c, config.maxEntries);
            && EntriesOk(config, after, uses, logins, now)
            && |after.order| == (if |c.order| > config.maxEntries then config.maxEntries else |c.order|)
            && (forall k :: k in after.entries ==> k in c.entries && after.entries[k] == c.entries[k])
            && DropsOldest(c, after, uses)
    decreases |c.order|
  {
    if |c.order| > config.maxEntries {
      DropFirstKeepsEntries(config, c, uses, logins, now);
      EvictKeepsEntries(config, DropFirst(c), uses, logins, now);
    }
  }

  ghost predicate CacheOk(config: Config, c: Cache, waiters: map<Key, seq<Request>>, uses: seq<Key>,
      logins: seq<Login>, now: int)
  {
    && EntriesOk(config, c, uses, logins, now)
    && |c.order| <= config.maxEntries
    && (forall k :: k in waiters ==> k !in c.entries)
  }

  lemma {:induction false} ArrivalKeepsCache(
    config: Config, c: Cache, waiters: map<Key, seq<Request>>, uses: seq<Key>, logins: seq<Login>, now: int,
    request: Request, key: Option<Key>, later: int)
    requires CacheOk(config, c, waiters, uses, logins, now) && now <= later
    ensures var (c', waiters', decision) := Arrive(c, waiters, request, key, later);
            CacheOk(config, c', waiters', if decision.Hit? then uses + [key.value] else uses, logins, later)
  {
    assert logins + [] == logins;
    EntriesOkLater(config, c, uses, logins, [], now, later);
    if key.Some? {
      DeleteKeepsEntries(config, c, uses, logins, later, key.value);
      if key.value in c.entries && c.entries[key.value].expiresAt > later {
        PutKeepsEntries(config, Delete(c, key.value), uses, logins, later, key.value, c.entries[key.value]);
      }
    }
  }

  // One more entry, used just now.
  ghost predicate PutOk(config: Config, c: Cache, put: Cache, uses: seq<Key>, logins: seq<Login>, now: int, key: Key) {
    && EntriesOk(config, put, uses, logins, now)
    && |put.order| == |c.order| + 1 && put.entries.Keys == c.entries.Keys + {key}
  }

  lemma PutLogin(
    config: Config, c: Cache, uses: seq<Key>, logins: seq<Login>, now: int, key: Key, user: User, later: int)
    requires EntriesOk(config, c, uses, logins, now) && now <= later && key !in c.entries
    ensures PutOk(config, c, Put(c, key, Entry(later + config.ttlMs, user)),
                  uses + [key], logins + [Login(key, user, later)], later, key)
  {
    var logins' := logins + [Login(key, user, later)];
    EntriesOkLater(config, c, uses, logins, [Login(key, user, later)], now, later);
    assert logins'[|logins|] == Login(key, user, later);
    PutKeepsEntries(config, c, uses, logins', later, key, Entry(later + config.ttlMs, user));
  }

  lemma EvictOne(config: Config, c: Cache, put: Cache, uses: seq<Key>, logins: seq<Login>, now: int, key: Key)
    requires PutOk(config, c, put, uses, logins, now, key) && |c.order| <= config.maxEntries
    ensures SetOk(config, c, put, Evict(put, config.maxEntries), uses, logins, now, key)
  {
    EvictKeepsEntries(config, put, uses, logins, now);
    var after := Evict(put, config.maxEntries);
    assert after.entries.Keys <= put.entries.Keys;
  }

  // The entries after caching a success, whatever the waiters.
  ghost predicate SetOk(config: Config, c: Cache, put: Cache, after: Cache, uses: seq<Key>, logins: seq<Login>,
      now: int, key: Key)
  {
    && EntriesOk(config, after, uses, logins, now)
    && DropsOldest(put, after, uses)
    && |after.order| == (if |c.order| == config.maxEntries then |c.order| else |c.order| + 1)
    && (forall k :: k in after.entries ==> k == key || k in c.entries)
  }

  lemma SetKeepsEntries(config: Config, c: Cache, uses: seq<Key>, logins: seq<Login>, now: int, key: Key, user: User,
      later: int)
    requires EntriesOk(config, c, uses, logins, now)
             && |c.order| <= config.maxEntries && now <= later && key !in c.entries
    ensures var put := Put(c, key, Entry(later + config.ttlMs, user));
            SetOk(config, c, put, Evict(put, config.maxEntries),
                  uses + [key], logins + [Login(key, user, later)], later, key)
  {
    var put := Put(c, key, Entry(later + config.ttlMs, user));
    PutLogin(config, c, uses, logins, now, key, user, later);
    EvictOne(config, c, put, uses + [key], logins + [Login(key, user, later)], later, key);
  }

  lemma LoginKeepsCache(
    config: Config, c: Cache, waiters: map<Key, seq<Request>>, uses: seq<Key>, logins: seq<Login>, now: int,
    key: Key, user: User, later: int)
    requires CacheOk(config, c, waiters, uses, logins, now) && now <= later && key in waiters
    ensures var after := Set(config, c, key, user, later);
            && CacheOk(config, after, waiters - {key}, uses + [key], logins + [Login(key, user, later)], later)
            && DropsOldest(Put(c, key, Entry(later + config.ttlMs, user)), after, uses + [key])
            && |after.order| == (if |c.order| == config.maxEntries then |c.order| else |c.order| + 1)
  {
    var put := Put(c, key, Entry(later + config.ttlMs, user));
    assert Set(config, c, key, user, later) == Evict(put, config.maxEntries);
    SetKeepsEntries(config, c, uses, logins, now, key, user, later);
    WaitersStayOut(c, Evict(put, config.maxEntries), waiters, key);
  }

  lemma WaitersStayOut(c: Cache, after: Cache, waiters: map<Key, seq<Request>>, key: Key)
    requires forall k :: k in waiters ==> k !in c.entries
    requires forall k :: k in after.entries ==> k == key || k in c.entries
    ensures forall k :: k in waiters - {key} ==> k !in after.entries
  {
  }

  // ---------------------------------------------------------------- requests over runs

  ghost predicate KeyIs(s: State, r: Request, k: Key) {
    r < |s.arrivals| && s.arrivals[r].key == Some(k)
  }

  // Leaders in flight and keys with waiters correspond, one to one.
  ghost predicate OneLeader(s: State) {
    && s.leaders.Keys == s.waiters.Keys
    && (forall k :: k in s.leaders ==> s.leaders[k] in s.flights && KeyIs(s, s.leaders[k], k))
    && (forall r :: r in s.flights ==> r < |s.arrivals|)
    && (forall r, k :: r in s.flights && KeyIs(s, r, k) ==> k in s.leaders && s.leaders[k] == r)
  }

  ghost predicate WaitsIn(s: State, k: Key, r: Request) {
    k in s.waiters && r in s.waiters[k]
  }

  // An arrived request is replied to, or leads, or waits under its key; never two of these.
  ghost predicate Accounted(s: State) {
    EachSomewhere(s) && WaitersAreOpen(s) && FlightsAreOpen(s)
  }

  ghost predicate EachSomewhere(s: State) {
    forall r: Request :: r < |s.arrivals| ==> r in s.replies || r in s.flights || exists k :: WaitsIn(s, k, r)
  }

  ghost predicate WaitersAreOpen(s: State) {
    && (forall k, r :: WaitsIn(s, k, r) ==> KeyIs(s, r, k) && r !in s.flights && r !in s.replies)
    && (forall k :: k in s.waiters ==> Distinct(s.waiters[k]))
  }

  ghost predicate FlightsAreOpen(s: State) {
    && (forall r :: r in s.flights ==> r !in s.replies)
    && (forall r :: r in s.replies ==> r < |s.arrivals|)
  }

  // Each request was replied to once, as its record says.
  ghost predicate RepliedOnce(s: State) {
    Distinct(s.replied) && forall r :: r in s.replied <==> r in s.replies
  }

  // The leader's call is the request's own, or one for the same key.
  ghost predicate SharesLead(s: State, r: Request, leader: Request)
    requires r < |s.arrivals| && leader < |s.arrivals|
  {
    leader == r || (s.arrivals[r].key.Some? && s.arrivals[leader].key == s.arrivals[r].key)
  }

  // A reply is a fresh enough cached user, or what the leader's authenticate call came to.
  ghost predicate ReplyOk(config: Config, s: State, r: Request) {
    && r in s.replies && r < |s.arrivals|
    && match s.replies[r]
       case FromCache(user, at) =>
         && s.arrivals[r].key.Some?
         && exists h :: 0 <= h < |s.logins| && s.logins[h].key == s.arrivals[r].key.value && s.logins[h].user == user
              && s.logins[h].at <= at < s.logins[h].at + config.ttlMs
       case FromLeader(leader, outcome) =>
         && leader < |s.arrivals| && leader in s.results
         && SharesLead(s, r, leader)
         && outcome == Outcome(config, s.arrivals[r], s.results[leader])
  }

  ghost predicate Inv(config: Config, s: State) {
    && CacheOk(config, s.cache, s.waiters, s.uses, s.logins, s.now)
    && OneLeader(s)
    && Accounted(s)
    && RepliedOnce(s)
    && (forall r :: r in s.results ==> r in s.replies)
    && (forall r :: r in s.replies ==> ReplyOk(config, s, r))
  }

  // ---------------------------------------------------------------- preservation

  // A step only adds to the records replies depend on.
  ghost predicate Extends(s: State, t: State) {
    && |s.arrivals| <= |t.arrivals| && (forall i :: 0 <= i < |s.arrivals| ==> t.arrivals[i] == s.arrivals[i])
    && |s.logins| <= |t.logins| && (forall i :: 0 <= i < |s.logins| ==> t.logins[i] == s.logins[i])
    && (forall l :: l in s.results ==> l in t.results && t.results[l] == s.results[l])
  }

  // A reply already given stays right as the run goes on.
  lemma {:induction false} ReplyStaysOk(config: Config, s: State, t: State, r: Request)
    requires ReplyOk(config, s, r) && r in t.replies && t.replies[r] == s.replies[r]
    requires Extends(s, t)
    ensures ReplyOk(config, t, r)
  {
    if s.replies[r].FromCache? {
      var h :|
        && 0 <= h < |s.logins|
        && s.logins[h].key == s.arrivals[r].key.value
        && s.logins[h].user == s.replies[r].user
        && s.logins[h].at <= s.replies[r].at < s.logins[h].at + config.ttlMs;
      assert t.logins[h] == s.logins[h];
    }
  }

  // The requests part of the invariant.
  ghost predicate RequestsOk(s: State) {
    OneLeader(s) && Accounted(s) && RepliedOnce(s)
  }

  // The request numbered r joins s.
  ghost predicate Joins(s: State, t: State, arrival: Arrival) {
    t.arrivals == s.arrivals + [arrival]
  }

  lemma {:induction false} JoinKeepsKeys(s: State, t: State, arrival: Arrival)
    requires Joins(s, t, arrival)
    ensures forall q: Request, k :: q < |s.arrivals| ==> KeyIs(t, q, k) == KeyIs(s, q, k)
    ensures t.arrivals[|s.arrivals|] == arrival
  {
  }

  lemma {:induction false} AppendIsFresh(rs: seq<Request>, r: Request)
    requires Distinct(rs) && r !in rs
    ensures Distinct(rs + [r]) && forall q :: q in rs + [r] <==> q in rs || q == r
  {
  }

  // The request joining is replied to at once.
  ghost predicate GetsReply(s: State, t: State, arrival: Arrival, reply: Reply) {
    && Joins(s, t, arrival)
    && t.waiters == s.waiters && t.flights == s.flights && t.leaders == s.leaders
    && t.replies == s.replies[|s.arrivals| := reply] && t.replied == s.replied + [|s.arrivals|]
  }

  lemma {:induction false} HitKeepsRequests(s: State, t: State, arrival: Arrival, reply: Reply)
    requires RequestsOk(s) && GetsReply(s, t, arrival, reply)
    ensures RequestsOk(t)
  {
    var r := |s.arrivals|;
    JoinKeepsKeys(s, t, arrival);
    AppendIsFresh(s.replied, r);
    forall q: Request | q < |t.arrivals| ensures q in t.replies || q in t.flights || exists k :: WaitsIn(t, k, q) {
      if q < r && q !in s.replies && q !in s.flights {
        var k :| WaitsIn(s, k, q);
        assert WaitsIn(t, k, q);
      }
    }
    forall k, q | WaitsIn(t, k, q) ensures KeyIs(t, q, k) && q !in t.flights && q !in t.replies {
      assert WaitsIn(s, k, q);
    }
  }

  // The request numbered r becomes a leader.
  ghost predicate BecomesLeader(s: State, t: State, arrival: Arrival) {
    && Joins(s, t, arrival)
    && t.flights == s.flights + {|s.arrivals|} && t.replies == s.replies && t.replied == s.replied
    && (arrival.key.Some? ==> arrival.key.value !in s.waiters)
    && t.waiters == (if arrival.key.Some? then s.waiters[arrival.key.value := []] else s.waiters)
    && t.leaders == (if arrival.key.Some? then s.leaders[arrival.key.value := |s.arrivals|] else s.leaders)
  }

  lemma {:induction false} LeadKeepsLeaders(s: State, t: State, arrival: Arrival)
    requires RequestsOk(s) && BecomesLeader(s, t, arrival)
    ensures OneLeader(t)
  {
    JoinKeepsKeys(s, t, arrival);
    forall k | k in t.leaders ensures t.leaders[k] in t.flights && KeyIs(t, t.leaders[k], k) {
      if k in s.leaders && arrival.key != Some(k) {
        assert KeyIs(s, s.leaders[k], k);
      }
    }
    forall q, k | q in t.flights && KeyIs(t, q, k) ensures k in t.leaders && t.leaders[k] == q {
      if q != |s.arrivals| {
        assert KeyIs(s, q, k);
      }
    }
  }

  lemma {:induction false} LeadKeepsAccounts(s: State, t: State, arrival: Arrival)
    requires RequestsOk(s) && BecomesLeader(s, t, arrival)
    ensures Accounted(t)
  {
    var r := |s.arrivals|;
    JoinKeepsKeys(s, t, arrival);
    forall q: Request | q < |t.arrivals| ensures q in t.replies || q in t.flights || exists k :: WaitsIn(t, k, q) {
      if q < r && q !in s.replies && q !in s.flights {
        var k :| WaitsIn(s, k, q);
        assert WaitsIn(t, k, q);
      }
    }
    forall k, q | WaitsIn(t, k, q) ensures KeyIs(t, q, k) && q !in t.flights && q !in t.replies {
      assert WaitsIn(s, k, q);
    }
  }

  lemma LeadKeepsRequests(s: State, t: State, arrival: Arrival)
    requires RequestsOk(s) && BecomesLeader(s, t, arrival)
    ensures RequestsOk(t)
  {
    LeadKeepsLeaders(s, t, arrival);
    LeadKeepsAccounts(s, t, arrival);
  }

  // The request joining waits for the leader of its key.
  ghost predicate StartsWaiting(s: State, t: State, arrival: Arrival, key: Key) {
    && Joins(s, t, arrival)
    && arrival.key == Some(key) && key in s.waiters
    && t.waiters == s.waiters[key := s.waiters[key] + [|s.arrivals|]]
    && t.flights == s.flights && t.leaders == s.leaders && t.replies == s.replies && t.replied == s.replied
  }

  lemma {:induction false} WaitKeepsRequests(s: State, t: State, arrival: Arrival, key: Key)
    requires RequestsOk(s) && StartsWaiting(s, t, arrival, key)
    ensures RequestsOk(t)
  {
    var r := |s.arrivals|;
    JoinKeepsKeys(s, t, arrival);
    forall q | q in s.waiters[key] ensures q < r {
      assert WaitsIn(s, key, q);
    }
    AppendIsFresh(s.waiters[key], r);
    forall q: Request | q < |t.arrivals| ensures q in t.replies || q in t.flights || exists k :: WaitsIn(t, k, q) {
      if q == r {
        assert WaitsIn(t, key, r);
      } else if q !in s.replies && q !in s.flights {
        var k :| WaitsIn(s, k, q);
        assert WaitsIn(t, k, q);
      }
    }
    forall k, q | WaitsIn(t, k, q) ensures KeyIs(t, q, k) && q !in t.flights && q !in t.replies {
      if q != r || k != key {
        assert WaitsIn(s, k, q);
      }
    }
  }

  // What an arrival does to the requests.
  lemma ArrivalIs(s: State, arrival: Arrival, now: int)
    ensures var t := ApplyArrival(s, arrival, now);
            match Arrive(s.cache, s.waiters, |s.arrivals|, arrival.key, now).2
            case Hit(user) => GetsReply(s, t, arrival, FromCache(user, now))
            case Waits => arrival.key.Some? && StartsWaiting(s, t, arrival, arrival.key.value)
            case Leads => BecomesLeader(s, t, arrival)
  {
  }

  lemma ArrivalKeepsRequests(s: State, arrival: Arrival, now: int)
    requires RequestsOk(s)
    ensures RequestsOk(ApplyArrival(s, arrival, now))
  {
    var t := ApplyArrival(s, arrival, now);
    ArrivalIs(s, arrival, now);
    match Arrive(s.cache, s.waiters, |s.arrivals|, arrival.key, now).2 {
      case Hit(user) => HitKeepsRequests(s, t, arrival, FromCache(user, now));
      case Waits => WaitKeepsRequests(s, t, arrival, arrival.key.value);
      case Leads => LeadKeepsRequests(s, t, arrival);
    }
  }

  lemma ArrivalExtends(s: State, arrival: Arrival, now: int)
    ensures var t := ApplyArrival(s, arrival, now);
            && Extends(s, t) && t.results == s.results
            && (t.replies == s.replies ||
                exists user :: Arrive(s.cache, s.waiters, |s.arrivals|, arrival.key, now).2 == Hit(user)
                  && t.replies == s.replies[|s.arrivals| := FromCache(user, now)])
  {
  }

  lemma ArrivalKeepsReplies(config: Config, s: State, arrival: Arrival, now: int)
    requires Inv(config, s) && s.now <= now
    ensures var t := ApplyArrival(s, arrival, now);
            (forall q :: q in t.replies ==> ReplyOk(config, t, q)) && (forall q :: q in t.results ==> q in t.replies)
  {
    var t := ApplyArrival(s, arrival, now);
    ArrivalExtends(s, arrival, now);
    forall q | q in t.replies ensures ReplyOk(config, t, q) {
      if q == |s.arrivals| {
        assert q !in s.replies;
        HitIsBacked(config, s, arrival, now);
      } else {
        ReplyStaysOk(config, s, t, q);
      }
    }
  }

  lemma ArrivalKeepsInv(config: Config, s: State, arrival: Arrival, now: int)
    requires Inv(config, s) && s.now <= now
    ensures Inv(config, ApplyArrival(s, arrival, now))
  {
    ArrivalKeepsRequests(s, arrival, now);
    ArrivalKeepsCache(config, s.cache, s.waiters, s.uses, s.logins, s.now, |s.arrivals|, arrival.key, now);
    ArrivalKeepsReplies(config, s, arrival, now);
  }

  // A hit is a user cached for the key less than the time to live ago.
  lemma {:induction false} HitIsBacked(config: Config, s: State, arrival: Arrival, now: int)
    requires Inv(config, s) && s.now <= now
    requires Arrive(s.cache, s.waiters, |s.arrivals|, arrival.key, now).2.Hit?
    ensures ReplyOk(config, ApplyArrival(s, arrival, now), |s.arrivals|)
  {
    var key := arrival.key.value;
    var e := s.cache.entries[key];
    assert Backed(config, s.logins, s.now, key, e);
    var h :| 0 <= h < |s.logins| && s.logins[h].key == key && s.logins[h].user == e.user
      && s.logins[h].at <= s.now && e.expiresAt == s.logins[h].at + config.ttlMs;
    var t := ApplyArrival(s, arrival, now);
    assert t.logins[h] == s.logins[h];
    assert t.arrivals[|s.arrivals|] == arrival;
  }

  // ---------------------------------------------------------------- completions

  lemma {:induction false} ReplyAllIs(config: Config, s: State, answered: seq<Request>, leader: Request, result: Result)
    requires forall r :: r in answered ==> r < |s.arrivals|
    ensures var replies := ReplyAll(config, s, answered, leader, result);
            && (forall r :: r in replies <==> r in s.replies || r in answered)
            && (forall r :: r in answered ==>
                  r in replies && r < |s.arrivals|
                    && replies[r] == FromLeader(leader, Outcome(config, s.arrivals[r], result)))
            && (forall r :: r in s.replies && r !in answered ==> r in replies && replies[r] == s.replies[r])
  {
    if answered != [] {
      var before, last := answered[..|answered| - 1], answered[|answered| - 1];
      assert answered == before + [last];
      assert forall r :: r in before ==> r in answered;
      ReplyAllIs(config, s, before, leader, result);
    }
  }

  // Those a completion answers: the leader and the waiters of its key, none replied to yet.
  lemma {:induction false} AnsweredAreOpen(s: State, leader: Request)
    requires RequestsOk(s) && leader in s.flights
    ensures var answered := AnsweredBy(s, leader);
            && Distinct(answered)
            && (forall r :: r in answered ==> r < |s.arrivals| && r !in s.replies && (r == leader || r !in s.flights))
            && (forall r :: r in answered ==> SharesLead(s, r, leader))
  {
    var answered := AnsweredBy(s, leader);
    var key := s.arrivals[leader].key;
    if key.Some? {
      assert KeyIs(s, leader, key.value);
      forall r | r in s.waiters[key.value] ensures KeyIs(s, r, key.value) && r !in s.flights && r !in s.replies {
        assert WaitsIn(s, key.value, r);
      }
    }
  }

  function AnsweredBy(s: State, leader: Request): seq<Request>
    requires leader < |s.arrivals|
  {
    var key := s.arrivals[leader].key;
    [leader] + (if key.Some? && key.value in s.waiters then s.waiters[key.value] else [])
  }

  lemma {:induction false} JoinRepeats(a: seq<Request>, b: seq<Request>)
    requires Distinct(a) && Distinct(b) && forall r :: r in b ==> r !in a
    ensures Distinct(a + b)
  {
    forall i, j | 0 <= i < j < |a + b| ensures (a + b)[i] != (a + b)[j] {
      if i < |a| <= j {
        assert (a + b)[j] in b;
      }
    }
  }

  lemma {:induction false} CompletionKeepsLeaders(s: State, t: State, leader: Request, key: Option<Key>)
    requires RequestsOk(s) && leader in s.flights && key == s.arrivals[leader].key && t.arrivals == s.arrivals
    requires t.flights == s.flights - {leader}
    requires t.waiters == if key.Some? then s.waiters - {key.value} else s.waiters
    requires t.leaders == if key.Some? then s.leaders - {key.value} else s.leaders
    ensures OneLeader(t)
  {
    assert forall r, k :: KeyIs(t, r, k) == KeyIs(s, r, k);
    if key.Some? {
      assert KeyIs(s, leader, key.value);
    }
    forall k | k in t.leaders ensures t.leaders[k] in t.flights && KeyIs(t, t.leaders[k], k) {
      assert KeyIs(s, s.leaders[k], k);
    }
  }

  // What a completion does to the requests.
  ghost predicate Answers(s: State, t: State, leader: Request, key: Option<Key>) {
    && leader < |s.arrivals| && key == s.arrivals[leader].key && t.arrivals == s.arrivals
    && t.flights == s.flights - {leader}
    && t.waiters == (if key.Some? then s.waiters - {key.value} else s.waiters)
    && t.leaders == (if key.Some? then s.leaders - {key.value} else s.leaders)
    && t.replied == s.replied + AnsweredBy(s, leader)
    && forall r: Request :: r in t.replies <==> r in s.replies || r in AnsweredBy(s, leader)
  }

  // Waiters of another key go on waiting, those of the leader's key are answered.
  lemma WaitsOnOrIsAnswered(s: State, t: State, leader: Request, key: Option<Key>, k: Key, q: Request)
    requires Answers(s, t, leader, key) && WaitsIn(s, k, q)
    ensures q in t.replies || WaitsIn(t, k, q)
  {
    if key == Some(k) {
      assert q in AnsweredBy(s, leader);
    }
  }

  lemma AnsweringKeepsSomewhere(s: State, t: State, leader: Request, key: Option<Key>)
    requires EachSomewhere(s) && Answers(s, t, leader, key)
    ensures EachSomewhere(t)
  {
    assert leader in AnsweredBy(s, leader);
    forall q: Request | q < |t.arrivals| ensures q in t.replies || q in t.flights || exists k :: WaitsIn(t, k, q) {
      if q !in s.replies && q !in s.flights {
        var k :| WaitsIn(s, k, q);
        WaitsOnOrIsAnswered(s, t, leader, key, k, q);
      }
    }
  }

  lemma AnsweringKeepsWaiters(s: State, t: State, leader: Request, key: Option<Key>)
    requires RequestsOk(s) && leader in s.flights && Answers(s, t, leader, key)
    ensures WaitersAreOpen(t)
  {
    AnsweredAreOpen(s, leader);
    forall k, q | WaitsIn(t, k, q) ensures KeyIs(t, q, k) && q !in t.flights && q !in t.replies {
      assert WaitsIn(s, k, q) && KeyIs(s, q, k);
    }
  }

  lemma AnsweringKeepsFlights(s: State, t: State, leader: Request, key: Option<Key>)
    requires RequestsOk(s) && leader in s.flights && Answers(s, t, leader, key)
    ensures FlightsAreOpen(t)
  {
    AnsweredAreOpen(s, leader);
  }

  lemma CompletionAnswers(config: Config, s: State, leader: Request, result: Result, now: int)
    requires RequestsOk(s) && leader in s.flights
    ensures Answers(s, ApplyCompletion(config, s, leader, result, now), leader, s.arrivals[leader].key)
  {
    AnsweredAreOpen(s, leader);
    ReplyAllIs(config, s, AnsweredBy(s, leader), leader, result);
    if s.arrivals[leader].key.Some? {
      assert KeyIs(s, leader, s.arrivals[leader].key.value);
    }
  }

  lemma CompletionKeepsRequests(config: Config, s: State, leader: Request, result: Result, now: int)
    requires RequestsOk(s) && leader in s.flights
    ensures RequestsOk(ApplyCompletion(config, s, leader, result, now))
  {
    var t, key := ApplyCompletion(config, s, leader, result, now), s.arrivals[leader].key;
    CompletionAnswers(config, s, leader, result, now);
    CompletionKeepsLeaders(s, t, leader, key);
    AnsweringKeepsSomewhere(s, t, leader, key);
    AnsweringKeepsWaiters(s, t, leader, key);
    AnsweringKeepsFlights(s, t, leader, key);
    AnsweredAreOpen(s, leader);
    JoinRepeats(s.replied, AnsweredBy(s, leader));
  }

  lemma {:induction false} CompletionKeepsCache(config: Config, s: State, leader: Request, result: Result, now: int)
    requires Inv(config, s) && leader in s.flights && s.now <= now
    ensures var t := ApplyCompletion(config, s, leader, result, now);
            CacheOk(config, t.cache, t.waiters, t.uses, t.logins, t.now)
  {
    var key := s.arrivals[leader].key;
    assert s.logins + [] == s.logins;
    EntriesOkLater(config, s.cache, s.uses, s.logins, [], s.now, now);
    if key.Some? && result.Some? {
      assert KeyIs(s, leader, key.value);
      LoginKeepsCache(config, s.cache, s.waiters, s.uses, s.logins, s.now, key.value,
                      Decorate(config.tokenKey(key.value), result.value), now);
    }
  }

  // The replies after a completion: those before, and the leader's result for those it answers.
  ghost predicate Completed(config: Config, s: State, t: State, leader: Request, result: Result) {
    && leader < |s.arrivals| && t.arrivals == s.arrivals
    && t.results == s.results[leader := result]
    && |s.logins| <= |t.logins| && (forall i :: 0 <= i < |s.logins| ==> t.logins[i] == s.logins[i])
    && (forall r :: r in t.replies <==> r in s.replies || r in AnsweredBy(s, leader))
    && (forall r :: r in AnsweredBy(s, leader) ==>
          && r < |s.arrivals| && r !in s.replies && SharesLead(s, r, leader)
          && r in t.replies && t.replies[r] == FromLeader(leader, Outcome(config, s.arrivals[r], result)))
    && (forall r :: r in s.replies ==> r in t.replies && t.replies[r] == s.replies[r])
  }

  lemma {:induction false} CompletionIs(config: Config, s: State, leader: Request, result: Result, now: int)
    requires RequestsOk(s) && leader in s.flights
    ensures Completed(config, s, ApplyCompletion(config, s, leader, result, now), leader, result)
  {
    AnsweredAreOpen(s, leader);
    ReplyAllIs(config, s, AnsweredBy(s, leader), leader, result);
  }

  lemma {:induction false} CompletionKeepsReplies(config: Config, s: State, t: State, leader: Request, result: Result)
    requires Inv(config, s) && leader in s.flights && Completed(config, s, t, leader, result)
    ensures (forall r :: r in t.replies ==> ReplyOk(config, t, r)) && (forall l :: l in t.results ==> l in t.replies)
  {
    assert leader in AnsweredBy(s, leader);
    assert leader !in s.results;
    forall r | r in t.replies ensures ReplyOk(config, t, r) {
      if r in s.replies {
        assert ReplyOk(config, s, r);
        ReplyStaysOk(config, s, t, r);
      }
    }
  }

  lemma {:induction false} CompletionKeepsInv(config: Config, s: State, leader: Request, result: Result, now: int)
    requires Inv(config, s) && leader in s.flights && s.now <= now
    ensures Inv(config, ApplyCompletion(config, s, leader, result, now))
  {
    CompletionKeepsRequests(config, s, leader, result, now);
    CompletionKeepsCache(config, s, leader, result, now);
    CompletionIs(config, s, leader, result, now);
    CompletionKeepsReplies(config, s, ApplyCompletion(config, s, leader, result, now), leader, result);
  }

  lemma {:induction false} ExecKeepsInv(config: Config, now: int, acts: seq<Action>)
    ensures Inv(config, Exec(config, Start(now), acts))
  {
    if acts != [] {
      var s, a := Exec(config, Start(now), acts[..|acts| - 1]), acts[|acts| - 1];
      ExecKeepsInv(config, now, acts[..|acts| - 1]);
      if a.now >= s.now {
        match a {
          case Arrives(arrival, at) => ArrivalKeepsInv(config, s, arrival, at);
          case Completes(leader, result, at) =>
            if leader in s.flights {
              CompletionKeepsInv(config, s, leader, result, at);
            }
        }
      }
    }
  }

  // ---------------------------------------------------------------- who answers a request

  ghost predicate WaitsFor(s: State, r: Request, l: Request, k: Key) {
    WaitsIn(s, k, r) && k in s.leaders && s.leaders[k] == l
  }

  // Request r is led by l: it is l in flight, or waits for l in flight, or was answered with l's result.
  ghost predicate Led(config: Config, s: State, r: Request, l: Request) {
    || (r == l && r in s.flights)
    || (l in s.flights && exists k :: WaitsFor(s, r, l, k))
    || AnsweredByLeader(config, s, r, l)
  }

  ghost predicate AnsweredByLeader(config: Config, s: State, r: Request, l: Request) {
    && r < |s.arrivals| && r in s.replies && l in s.results
    && s.replies[r] == FromLeader(l, Outcome(config, s.arrivals[r], s.results[l]))
  }

  // A step keeps the replies given and the results known.
  ghost predicate Remembers(s: State, t: State) {
    && Extends(s, t)
    && forall r :: r in s.replies ==> r in t.replies && t.replies[r] == s.replies[r]
  }

  lemma ArrivalRemembers(config: Config, s: State, arrival: Arrival, now: int)
    requires Inv(config, s)
    ensures Remembers(s, ApplyArrival(s, arrival, now))
  {
    ArrivalExtends(s, arrival, now);
  }

  lemma CompletionRemembers(config: Config, s: State, leader: Request, result: Result, now: int)
    requires Inv(config, s) && leader in s.flights
    ensures Remembers(s, ApplyCompletion(config, s, leader, result, now))
  {
    CompletionIs(config, s, leader, result, now);
    assert leader !in s.results;
  }

  lemma AnswerStays(config: Config, s: State, t: State, r: Request, l: Request)
    requires AnsweredByLeader(config, s, r, l) && Remembers(s, t)
    ensures AnsweredByLeader(config, t, r, l)
  {
  }

  lemma ArrivalKeepsWait(s: State, arrival: Arrival, now: int, r: Request, l: Request, k: Key)
    requires WaitsFor(s, r, l, k)
    ensures WaitsFor(ApplyArrival(s, arrival, now), r, l, k)
  {
    ArrivalIs(s, arrival, now);
  }

  lemma ArrivalKeepsFlights(s: State, arrival: Arrival, now: int)
    ensures s.flights <= ApplyArrival(s, arrival, now).flights
  {
  }

  lemma ArrivalKeepsLed(config: Config, s: State, arrival: Arrival, now: int, r: Request, l: Request)
    requires Inv(config, s) && Led(config, s, r, l)
    ensures Led(config, ApplyArrival(s, arrival, now), r, l)
  {
    ArrivalKeepsFlights(s, arrival, now);
    if AnsweredByLeader(config, s, r, l) {
      ArrivalRemembers(config, s, arrival, now);
      AnswerStays(config, s, ApplyArrival(s, arrival, now), r, l);
    } else if k :| WaitsFor(s, r, l, k) {
      ArrivalKeepsWait(s, arrival, now, r, l, k);
    }
  }

  // Whoever waits for the leader is answered with its result, whoever waits for another goes on waiting.
  lemma CompletionKeepsWait(config: Config, s: State, leader: Request, result: Result, now: int, r: Request,
      l: Request, k: Key)
    requires Inv(config, s) && leader in s.flights && l in s.flights && WaitsFor(s, r, l, k)
    ensures var t := ApplyCompletion(config, s, leader, result, now);
            if l == leader then AnsweredByLeader(config, t, r, l) else l in t.flights && WaitsFor(t, r, l, k)
  {
    var t := ApplyCompletion(config, s, leader, result, now);
    CompletionAnswers(config, s, leader, result, now);
    assert KeyIs(s, l, k);
    if l == leader {
      assert r in AnsweredBy(s, leader);
      CompletionIs(config, s, leader, result, now);
    } else {
      assert s.arrivals[leader].key == Some(k) ==> KeyIs(s, leader, k);
    }
  }

  lemma CompletionAnswersLeader(config: Config, s: State, leader: Request, result: Result, now: int)
    requires Inv(config, s) && leader in s.flights
    ensures AnsweredByLeader(config, ApplyCompletion(config, s, leader, result, now), leader, leader)
  {
    assert leader in AnsweredBy(s, leader);
    CompletionIs(config, s, leader, result, now);
  }

  lemma CompletionKeepsLed(config: Config, s: State, leader: Request, result: Result, now: int, r: Request, l: Request)
    requires Inv(config, s) && leader in s.flights && Led(config, s, r, l)
    ensures Led(config, ApplyCompletion(config, s, leader, result, now), r, l)
  {
    var t := ApplyCompletion(config, s, leader, result, now);
    assert t.flights == s.flights - {leader};
    if AnsweredByLeader(config, s, r, l) {
      CompletionRemembers(config, s, leader, result, now);
      AnswerStays(config, s, t, r, l);
    } else if r == l && r in s.flights {
      CompletionAnswersLeader(config, s, leader, result, now);
    } else {
      var k :| WaitsFor(s, r, l, k);
      CompletionKeepsWait(config, s, leader, result, now, r, l, k);
    }
  }

  lemma ApplyKeepsLed(config: Config, s: State, a: Action, r: Request, l: Request)
    requires Inv(config, s) && Led(config, s, r, l)
    ensures Led(config, Apply(config, s, a), r, l)
  {
    if a.now >= s.now {
      match a {
        case Arrives(arrival, at) => ArrivalKeepsLed(config, s, arrival, at, r, l);
        case Completes(leader, result, at) =>
          if leader in s.flights {
            CompletionKeepsLed(config, s, leader, result, at, r, l);
          }
      }
    }
  }

  lemma ApplyRemembers(config: Config, s: State, a: Action)
    requires Inv(config, s)
    ensures Remembers(s, Apply(config, s, a))
  {
    if a.now >= s.now {
      match a {
        case Arrives(arrival, at) => ArrivalRemembers(config, s, arrival, at);
        case Completes(leader, result, at) =>
          if leader in s.flights {
            CompletionRemembers(config, s, leader, result, at);
          }
      }
    }
  }

  lemma {:induction false} ExecKeepsLed(config: Config, now: int, before: seq<Action>, after: seq<Action>, r: Request,
      l: Request)
    requires Led(config, Exec(config, Start(now), before), r, l)
    ensures Led(config, Exec(config, Start(now), before + after), r, l)
  {
    if after == [] {
      assert before + after == before;
    } else {
      var init, a := after[..|after| - 1], after[|after| - 1];
      ExecKeepsLed(config, now, before, init, r, l);
      ExecKeepsInv(config, now, before + init);
      ExecNext(config, now, before, after);
      ApplyKeepsLed(config, Exec(config, Start(now), before + init), a, r, l);
    }
  }

  lemma ExecNext(config: Config, now: int, before: seq<Action>, after: seq<Action>)
    requires after != []
    ensures Exec(config, Start(now), before + after)
         == Apply(config, Exec(config, Start(now), before + after[..|after| - 1]), after[|after| - 1])
  {
    InitOfSum(before, after);
  }

  lemma InitOfSum<T>(a: seq<T>, b: seq<T>)
    requires b != []
    ensures (a + b)[..|a + b| - 1] == a + b[..|b| - 1] && (a + b)[|a + b| - 1] == b[|b| - 1]
  {
  }

  lemma {:induction false} ExecKeepsReply(config: Config, now: int, before: seq<Action>, after: seq<Action>, r: Request)
    requires r in Exec(config, Start(now), before).replies
    ensures var s, t := Exec(config, Start(now), before), Exec(config, Start(now), before + after);
            r in t.replies && t.replies[r] == s.replies[r]
  {
    if after == [] {
      assert before + after == before;
    } else {
      var init, a := after[..|after| - 1], after[|after| - 1];
      ExecKeepsReply(config, now, before, init, r);
      ExecKeepsInv(config, now, before + init);
      ExecNext(config, now, before, after);
      ApplyRemembers(config, Exec(config, Start(now), before + init), a);
    }
  }

  // ---------------------------------------------------------------- main results

  /** No key ever has two authenticate calls in flight. */
  lemma {:induction false} OneFlightPerKey(config: Config, now: int, acts: seq<Action>, a: Request, b: Request)
    requires var s := Exec(config, Start(now), acts);
             && a in s.flights && b in s.flights && a < |s.arrivals| && b < |s.arrivals|
             && s.arrivals[a].key.Some? && s.arrivals[a].key == s.arrivals[b].key
    ensures a == b
  {
    ExecKeepsInv(config, now, acts);
    var s := Exec(config, Start(now), acts);
    var k := s.arrivals[a].key.value;
    assert KeyIs(s, a, k) && KeyIs(s, b, k);
  }

  /** A key in flight is never in the cache. */
  lemma {:induction false} FlightIsNotCached(config: Config, now: int, acts: seq<Action>, leader: Request)
    requires var s := Exec(config, Start(now), acts);
             leader in s.flights && leader < |s.arrivals| && s.arrivals[leader].key.Some?
    ensures var s := Exec(config, Start(now), acts);
            s.arrivals[leader].key.value !in s.cache.entries
  {
    ExecKeepsInv(config, now, acts);
    var s := Exec(config, Start(now), acts);
    assert KeyIs(s, leader, s.arrivals[leader].key.value);
  }

  lemma WaitersHaveFlights(s: State)
    requires OneLeader(s)
    ensures s.waiters.Keys != {} ==> s.flights != {}
  {
    if k :| k in s.waiters {
      assert s.leaders[k] in s.flights;
    }
  }

  /**
   * No request is replied to twice, every reply goes to an arrived request, and once no
   * authenticate call is in flight every arrived request has been replied to.
   */
  lemma {:induction false} EveryRequestIsRepliedOnce(config: Config, now: int, acts: seq<Action>)
    ensures var s := Exec(config, Start(now), acts);
            && Distinct(s.replied)
            && (forall r :: r in s.replied ==> r < |s.arrivals|)
            && (s.flights == {} ==> forall r: Request :: r < |s.arrivals| ==> r in s.replied)
  {
    ExecKeepsInv(config, now, acts);
    var s := Exec(config, Start(now), acts);
    WaitersHaveFlights(s);
    if s.flights == {} {
      assert forall k, r :: !WaitsIn(s, k, r);
    }
  }

  // What an arriving request is in for: its cached user, its own call, or the call in flight for its key.
  ghost predicate Placed(config: Config, s: State, arrival: Arrival, at: int, t: State) {
    var r := |s.arrivals|;
    match Arrive(s.cache, s.waiters, r, arrival.key, at).2
    case Hit(user) => r in t.replies && t.replies[r] == FromCache(user, at)
    case Leads => Led(config, t, r, r)
    case Waits =>
      && arrival.key.Some? && arrival.key.value in s.leaders
      && s.leaders[arrival.key.value] in s.flights
      && Led(config, t, r, s.leaders[arrival.key.value])
  }

  lemma ArrivalPlaces(config: Config, s: State, arrival: Arrival, at: int)
    requires Inv(config, s)
    ensures Placed(config, s, arrival, at, ApplyArrival(s, arrival, at))
  {
    var t := ApplyArrival(s, arrival, at);
    ArrivalIs(s, arrival, at);
    if Arrive(s.cache, s.waiters, |s.arrivals|, arrival.key, at).2.Waits? {
      var k := arrival.key.value;
      assert WaitsFor(t, |s.arrivals|, s.leaders[k], k);
    }
  }

  /**
   * A request is answered from the cache on arrival, or it is led, from its arrival and through
   * every continuation of the run, by its own authenticate call or by the one in flight for its
   * key when it arrived: it waits for that call and is answered with what that call came to.
   */
  lemma RequestIsLedByItsFlight(config: Config, now: int, before: seq<Action>, arrival: Arrival, at: int,
      after: seq<Action>)
    requires Exec(config, Start(now), before).now <= at
    ensures Placed(config, Exec(config, Start(now), before), arrival, at,
                   Exec(config, Start(now), before + [Arrives(arrival, at)] + after))
  {
    var s, upto := Exec(config, Start(now), before), before + [Arrives(arrival, at)];
    var r := |s.arrivals|;
    assert before + [] == before && [Arrives(arrival, at)][..0] == [];
    ExecNext(config, now, before, [Arrives(arrival, at)]);
    ExecKeepsInv(config, now, before);
    ArrivalPlaces(config, s, arrival, at);
    match Arrive(s.cache, s.waiters, r, arrival.key, at).2 {
      case Hit(user) => ExecKeepsReply(config, now, upto, after, r);
      case Leads => ExecKeepsLed(config, now, upto, after, r, r);
      case Waits => ExecKeepsLed(config, now, upto, after, r, s.leaders[arrival.key.value]);
    }
  }

  // The reply to a request, seen from the state it arrived in.
  ghost predicate RepliedRightly(config: Config, s: State, arrival: Arrival, at: int, t: State) {
    var r := |s.arrivals|;
    match Arrive(s.cache, s.waiters, r, arrival.key, at).2
    case Hit(user) =>
      && r in t.replies && t.replies[r] == FromCache(user, at) && arrival.key.Some?
      && exists h :: 0 <= h < |t.logins| && t.logins[h].key == arrival.key.value && t.logins[h].user == user
           && t.logins[h].at <= at < t.logins[h].at + config.ttlMs
    case Leads => AnsweredByLeader(config, t, r, r)
    case Waits =>
      && arrival.key.Some? && arrival.key.value in s.leaders
      && s.leaders[arrival.key.value] in s.flights
      && AnsweredByLeader(config, t, r, s.leaders[arrival.key.value])
  }

  // The action a request arrived with.
  lemma {:induction false} ArrivalOf(config: Config, now: int, acts: seq<Action>, r: Request) returns (i: nat)
    requires r < |Exec(config, Start(now), acts).arrivals|
    ensures i < |acts| && acts[i].Arrives? && Exec(config, Start(now), acts[..i]).now <= acts[i].now
    ensures |Exec(config, Start(now), acts[..i]).arrivals| == r
    ensures Exec(config, Start(now), acts).arrivals[r] == acts[i].arrival
  {
    i := |acts| - 1;
    var init := acts[..i];
    ArrivalsGrow(config, Exec(config, Start(now), init), acts[i]);
    if r < |Exec(config, Start(now), init).arrivals| {
      i := ArrivalOf(config, now, init, r);
      assert acts[..i] == init[..i];
    }
  }

  lemma ArrivalsGrow(config: Config, s: State, a: Action)
    ensures Apply(config, s, a).arrivals ==
            if a.Arrives? && s.now <= a.now then s.arrivals + [a.arrival] else s.arrivals
  {
  }

  /**
   * Single flight: every reply goes back to the arrival of its request, and is the user cached
   * for the key then, equal to what authenticate answered less than the time to live before,
   * or what the request's own authenticate call came to, or what the one in flight for its key
   * at that moment came to.
   */
  lemma RepliesAreRight(config: Config, now: int, acts: seq<Action>, r: Request) returns (i: nat)
    requires r in Exec(config, Start(now), acts).replies
    ensures i < |acts| && acts[i].Arrives? && |Exec(config, Start(now), acts[..i]).arrivals| == r
    ensures RepliedRightly(config, Exec(config, Start(now), acts[..i]), acts[i].arrival, acts[i].now,
                           Exec(config, Start(now), acts))
  {
    ExecKeepsInv(config, now, acts);
    i := ArrivalOf(config, now, acts, r);
    assert acts == acts[..i] + [Arrives(acts[i].arrival, acts[i].now)] + acts[i + 1..];
    RequestIsLedByItsFlight(config, now, acts[..i], acts[i].arrival, acts[i].now, acts[i + 1..]);
    var s, t := Exec(config, Start(now), acts[..i]), Exec(config, Start(now), acts);
    PlacedIsRight(config, s, acts[i].arrival, acts[i].now, t);
  }

  lemma PlacedIsRight(config: Config, s: State, arrival: Arrival, at: int, t: State)
    requires Inv(config, t) && Placed(config, s, arrival, at, t)
    requires |s.arrivals| in t.replies && t.arrivals[|s.arrivals|] == arrival
    ensures RepliedRightly(config, s, arrival, at, t)
  {
    var r := |s.arrivals|;
    assert ReplyOk(config, t, r);
    assert forall l, k :: !WaitsFor(t, r, l, k) by {
      assert forall k :: !WaitsIn(t, k, r);
    }
  }

  // ---------------------------------------------------------------- when a request is answered from the cache

  /** The last success for a key, -1 without one. */
  function LastLogin(logins: seq<Login>, k: Key): int
    ensures -1 <= LastLogin(logins, k) < |logins|
    ensures LastLogin(logins, k) >= 0 ==> logins[LastLogin(logins, k)].key == k
  {
    if logins == [] then -1
    else if logins[|logins| - 1].key == k then |logins| - 1
    else LastLogin(logins[..|logins| - 1], k)
  }

  /** The keys that were dropped to make room, by a success for them or for another key, after their last success. */
  ghost function Evicted(config: Config, now: int, acts: seq<Action>): set<Key> {
    if acts == [] then {}
    else
      var init := acts[..|acts| - 1];
      EvictedNext(Evicted(config, now, init), Exec(config, Start(now), init), Exec(config, Start(now), acts))
  }

  ghost function EvictedNext(before: set<Key>, s: State, t: State): set<Key> {
    if |t.logins| <= |s.logins| then before
    else
      var key := t.logins[|t.logins| - 1].key;
      (before - {key}) + (s.cache.entries.Keys + {key} - t.cache.entries.Keys)
  }

  // An entry is the last success for its key; a success without an entry was evicted or has expired.
  ghost predicate EntryIsLast(
    config: Config, c: Cache, logins: seq<Login>, now: int, evicted: set<Key>, k: Key)
  {
    var h := LastLogin(logins, k);
    if k in c.entries
    then h >= 0 && k !in evicted && c.entries[k] == Entry(logins[h].at + config.ttlMs, logins[h].user)
    else h < 0 || k in evicted || logins[h].at + config.ttlMs <= now
  }

  ghost predicate LastCached(config: Config, s: State, evicted: set<Key>, k: Key) {
    EntryIsLast(config, s.cache, s.logins, s.now, evicted, k)
  }

  ghost predicate AllCached(config: Config, s: State, evicted: set<Key>) {
    forall k: Key :: LastCached(config, s, evicted, k)
  }

  lemma ArrivalKeepsCached(config: Config, s: State, arrival: Arrival, at: int, evicted: set<Key>, k: Key)
    requires LastCached(config, s, evicted, k) && s.now <= at
    ensures LastCached(config, ApplyArrival(s, arrival, at), evicted, k)
  {
  }

  lemma LoginKeepsLast(logins: seq<Login>, login: Login, k: Key)
    ensures LastLogin(logins + [login], k) == if login.key == k then |logins| else LastLogin(logins, k)
  {
    assert (logins + [login])[..|logins|] == logins;
  }

  lemma {:induction false} EvictKeepsValues(c: Cache, maxEntries: nat)
    ensures forall k :: k in Evict(c, maxEntries).entries ==>
              k in c.entries && Evict(c, maxEntries).entries[k] == c.entries[k]
    decreases |c.order|
  {
    if |c.order| > maxEntries {
      EvictKeepsValues(DropFirst(c), maxEntries);
    }
  }

  lemma SetKeepsCached(config: Config, c: Cache, logins: seq<Login>, now: int, evicted: set<Key>, k: Key,
      login: Login)
    requires EntryIsLast(config, c, logins, now, evicted, k) && now <= login.at
    ensures var after := Set(config, c, login.key, login.user, login.at);
            EntryIsLast(config, after, logins + [login], login.at,
                        (evicted - {login.key}) + (c.entries.Keys + {login.key} - after.entries.Keys), k)
  {
    LoginKeepsLast(logins, login, k);
    EvictKeepsValues(Put(c, login.key, Entry(login.at + config.ttlMs, login.user)), config.maxEntries);
    assert k != login.key && LastLogin(logins, k) >= 0 ==>
             (logins + [login])[LastLogin(logins, k)] == logins[LastLogin(logins, k)];
  }

  lemma CompletionCaches(config: Config, s: State, leader: Request, result: Result, at: int)
    requires leader < |s.arrivals|
    ensures var key, t := s.arrivals[leader].key, ApplyCompletion(config, s, leader, result, at);
            && t.now == at
            && if key.Some? && result.Some?
               then
                 var user := Decorate(config.tokenKey(key.value), result.value);
                 && t.cache == Set(config, s.cache, key.value, user, at)
                 && t.logins == s.logins + [Login(key.value, user, at)]
               else t.cache == s.cache && t.logins == s.logins
  {
  }

  lemma CompletionKeepsCached(
    config: Config, s: State, t: State, leader: Request, result: Result, at: int, evicted: set<Key>, k: Key)
    requires LastCached(config, s, evicted, k) && s.now <= at && leader < |s.arrivals|
    requires t == ApplyCompletion(config, s, leader, result, at)
    ensures LastCached(config, t, EvictedNext(evicted, s, t), k)
  {
    var key := s.arrivals[leader].key;
    CompletionCaches(config, s, leader, result, at);
    if key.Some? && result.Some? {
      var login := Login(key.value, Decorate(config.tokenKey(key.value), result.value), at);
      SetKeepsCached(config, s.cache, s.logins, s.now, evicted, k, login);
      assert t.logins[|t.logins| - 1] == login;
    }
  }

  lemma {:induction false} ExecKeepsCached(config: Config, now: int, acts: seq<Action>)
    ensures AllCached(config, Exec(config, Start(now), acts), Evicted(config, now, acts))
  {
    if acts != [] {
      var init, a := acts[..|acts| - 1], acts[|acts| - 1];
      var s, evicted := Exec(config, Start(now), init), Evicted(config, now, init);
      ExecKeepsCached(config, now, init);
      forall k: Key ensures LastCached(config, Exec(config, Start(now), acts), Evicted(config, now, acts), k) {
        assert LastCached(config, s, evicted, k);
        if a.now >= s.now {
          match a {
            case Arrives(arrival, at) => ArrivalKeepsCached(config, s, arrival, at, evicted, k);
            case Completes(leader, result, at) =>
              if leader in s.flights && leader < |s.arrivals| {
                CompletionKeepsCached(config, s, Exec(config, Start(now), acts), leader, result, at, evicted, k);
              }
          }
        }
      }
    }
  }

  /**
   * A request is answered from the cache exactly when the last success for its key is younger
   * than the time to live and was not dropped to make room; it gets the user of that success.
   */
  lemma FreshKeyIsAnsweredFromCache(config: Config, now: int, acts: seq<Action>, k: Key, own: Option<string>, at: int)
    requires Exec(config, Start(now), acts).now <= at
    ensures var s := Exec(config, Start(now), acts);
            var t := Exec(config, Start(now), acts + [Arrives(Arrival(Some(k), own), at)]);
            var r, h := |s.arrivals|, LastLogin(s.logins, k);
            && (r in t.replies <==>
                h >= 0 && at < s.logins[h].at + config.ttlMs && k !in Evicted(config, now, acts))
            && (r in t.replies ==> t.replies[r] == FromCache(s.logins[h].user, at))
  {
    var s, a := Exec(config, Start(now), acts), Arrives(Arrival(Some(k), own), at);
    assert (acts + [a])[..|acts|] == acts;
    ExecKeepsInv(config, now, acts);
    ExecKeepsCached(config, now, acts);
    CachedIsAnswered(config, s, Evicted(config, now, acts), k, own, at);
  }

  lemma CachedIsAnswered(config: Config, s: State, evicted: set<Key>, k: Key, own: Option<string>, at: int)
    requires Inv(config, s) && AllCached(config, s, evicted) && s.now <= at
    ensures var t, r, h := ApplyArrival(s, Arrival(Some(k), own), at), |s.arrivals|, LastLogin(s.logins, k);
            && (r in t.replies <==> h >= 0 && at < s.logins[h].at + config.ttlMs && k !in evicted)
            && (r in t.replies ==> t.replies[r] == FromCache(s.logins[h].user, at))
  {
    assert LastCached(config, s, evicted, k);
    assert |s.arrivals| !in s.replies;
  }

  /** A request is told the user authenticate gave, with the key of its own token where its credentials carry one. */
  lemma OutcomeIs(config: Config, a: Arrival, result: Result)
    ensures var outcome, own := Outcome(config, a, result), TokenKeyOf(config, a);
            && (outcome.Some? <==> result.Some?)
            && (result.Some? ==>
                  && outcome.value.name == result.value.name && outcome.value.groups == result.value.groups
                  && outcome.value.token == if own.Some? then own else result.value.token)
    ensures TokenKeyOf(config, a) == match a.key { case Some(k) => config.tokenKey(k) case None => a.ownTokenKey }
  {
  }

  /** The cache never outgrows its maximum, and it iterates in order of last use. */
  lemma {:induction false} MapOrderIsRecencyOrder(config: Config, now: int, acts: seq<Action>)
    ensures var s := Exec(config, Start(now), acts);
            && WellFormed(s.cache) && |s.cache.order| <= config.maxEntries
            && InUseOrder(s.cache.order, s.uses)
  {
    ExecKeepsInv(config, now, acts);
  }

  /**
   * When a success is cached, the key itself is kept, the cache is full or has grown by
   * one, and whatever was dropped to make room was used before everything that stays.
   */
  lemma {:induction false} EvictionDropsLeastRecentlyUsed(config: Config, now: int, acts: seq<Action>,
      leader: Request, user: User, at: int)
    requires Sane(config)
    requires var s := Exec(config, Start(now), acts);
             && s.now <= at && leader in s.flights && leader < |s.arrivals| && s.arrivals[leader].key.Some?
    ensures var s := Exec(config, Start(now), acts);
            var t := Apply(config, s, Completes(leader, Some(user), at));
            && s.arrivals[leader].key.value in t.cache.entries
            && |t.cache.order| ==
               (if |s.cache.order| == config.maxEntries then |s.cache.order| else |s.cache.order| + 1)
            && DropsOldest(s.cache, t.cache, t.uses)
  {
    ExecKeepsInv(config, now, acts);
    var s := Exec(config, Start(now), acts);
    var key := s.arrivals[leader].key.value;
    assert KeyIs(s, leader, key);
    LoginEvicts(config, s.cache, s.waiters, s.uses, s.logins, s.now, key, Decorate(config.tokenKey(key), user), at);
  }

  lemma {:induction false} LoginEvicts(
    config: Config, c: Cache, waiters: map<Key, seq<Request>>, uses: seq<Key>, logins: seq<Login>, now: int,
    key: Key, user: User, later: int)
    requires Sane(config) && CacheOk(config, c, waiters, uses, logins, now) && now <= later && key in waiters
    ensures var after := Set(config, c, key, user, later);
            && key in after.entries
            && |after.order| == (if |c.order| == config.maxEntries then |c.order| else |c.order| + 1)
            && DropsOldest(c, after, uses + [key])
  {
    LoginKeepsCache(config, c, waiters, uses, logins, now, key, user, later);
    NewestStays(config, c, uses, key, Entry(later + config.ttlMs, user));
  }

  lemma {:induction false} NewestStays(config: Config, c: Cache, uses: seq<Key>, key: Key, e: Entry)
    requires config.maxEntries > 0 && key !in c.entries && WellFormed(c)
    ensures key in Evict(Put(c, key, e), config.maxEntries).entries
  {
    LastStays(Put(c, key, e), config.maxEntries);
  }

  lemma {:induction false} LastStays(c: Cache, maxEntries: nat)
    requires maxEntries > 0 && |c.order| > 0 && Distinct(c.order) && c.order[|c.order| - 1] in c.entries
    ensures c.order[|c.order| - 1] in Evict(c, maxEntries).entries
    decreases |c.order|
  {
    if |c.order| > maxEntries {
      LastStays(DropFirst(c), maxEntries);
    }
  }
}
