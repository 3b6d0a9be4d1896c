/**
 * The part of a Redis server the program relies on, as a value (`Db`) and a
 * client handle (`Client`) whose methods are the commands it sends.
 *
 * Lists live in `lists`; Redis deletes a list when its last element goes, so
 * a key is present exactly when its list is non-empty (`Db.Valid`). String
 * keys written with SET NX PX are `leases`: a token and the millisecond at
 * which the key expires. PUBLISH appends to `published`.
 */
module Redis {
  import opened Wrappers

  datatype Lease = Lease(token: string, expiresAt: int)

  datatype Message = Message(channel: string, payload: string)

  function Reverse<T>(s: seq<T>): seq<T> {
    seq(|s|, i requires 0 <= i < |s| => s[|s| - 1 - i])
  }

  /** LPUSH semantics: each argument in turn is inserted at the head. */
  function PushAll(xs: seq<string>, list: seq<string>): seq<string> {
    if xs == [] then list else PushAll(xs[1..], [xs[0]] + list)
  }

  /** LPUSH key x1 .. xn leaves xn .. x1 in front of the old list. */
  lemma {:induction false} PushAllIsReversedPrefix(xs: seq<string>, list: seq<string>)
    ensures PushAll(xs, list) == Reverse(xs) + list
  {
    if xs != [] {
      PushAllIsReversedPrefix(xs[1..], [xs[0]] + list);
      assert Reverse(xs) == Reverse(xs[1..]) + [xs[0]];
    }
  }

  lemma ReverseSameElements<T>(s: seq<T>)
    ensures multiset(Reverse(s)) == multiset(s)
    ensures s != [] ==> Reverse(s)[0] == s[|s| - 1]
  {
    if s != [] {
      var t := s[..|s| - 1];
      assert s == t + [s[|s| - 1]];
      assert Reverse(s) == [s[|s| - 1]] + Reverse(t);
      ReverseSameElements(t);
    }
  }

  /** LREM key 0 x: every occurrence of x goes, the rest keep their order. */
  function RemoveAll(s: seq<string>, x: string): (r: seq<string>)
    ensures x !in r
    ensures forall y :: y in r ==> y in s
    ensures |r| <= |s|
  {
    if s == [] then [] else (if s[0] == x then [] else [s[0]]) + RemoveAll(s[1..], x)
  }

  /** LREM works element by element, so it distributes over concatenation. */
  lemma {:induction false} RemoveAllConcat(a: seq<string>, b: seq<string>, x: string)
    ensures RemoveAll(a + b, x) == RemoveAll(a, x) + RemoveAll(b, x)
  {
    if a == [] {
      assert a + b == b;
    } else {
      assert (a + b)[0] == a[0] && (a + b)[1..] == a[1..] + b;
      RemoveAllConcat(a[1..], b, x);
    }
  }

  /** LREM with count 0 deletes all copies of x and no other element. */
  lemma {:induction false} RemoveAllCounts(s: seq<string>, x: string)
    ensures multiset(RemoveAll(s, x)) == multiset(s)[x := 0]
  {
    if s != [] {
      RemoveAllCounts(s[1..], x);
      assert s == [s[0]] + s[1..];
    }
  }

  /** LREM of an absent value leaves the list as it was. */
  lemma {:induction false} RemoveAllAbsent(s: seq<string>, x: string)
    requires x !in s
    ensures RemoveAll(s, x) == s
  {
    if s != [] {
      RemoveAllAbsent(s[1..], x);
    }
  }

  datatype Db = Db(lists: map<string, seq<string>>, leases: map<string, Lease>, published: seq<Message>)
  {
    /** Redis never keeps an empty list. */
    ghost predicate Valid() {
      forall k | k in lists :: lists[k] != []
    }

    /** LRANGE key 0 -1: an absent key reads as the empty list. */
    function List(key: string): seq<string> {
      if key in lists then lists[key] else []
    }

    function LeaseAt(key: string): Option<Lease> {
      if key in leases then Some(leases[key]) else None
    }

    /** Nothing stored under `key` differs between this and `other`. */
    predicate SameAt(other: Db, key: string) {
      List(key) == other.List(key) && LeaseAt(key) == other.LeaseAt(key)
    }

    predicate Exists(key: string) {
      key in lists
    }

    /** A SET PX key is visible until its expiry instant. */
    predicate Held(key: string, now: int) {
      key in leases && now < leases[key].expiresAt
    }

    /** Writes a list back, deleting the key when the list became empty. */
    function Store(key: string, xs: seq<string>): (d: Db)
      ensures Valid() ==> d.Valid()
      ensures d.List(key) == xs && d.Exists(key) == (xs != [])
      ensures forall k :: k != key ==> d.List(k) == List(k) && (d.Exists(k) <==> Exists(k))
      ensures d.leases == leases && d.published == published
    {
      if xs == [] then Db(lists - {key}, leases, published) else Db(lists[key := xs], leases, published)
    }

    /** DEL k1 .. kn */
    function Del(keys: set<string>): (d: Db)
      ensures Valid() ==> d.Valid()
    {
      Db(lists - keys, leases - keys, published)
    }

    function LPush(key: string, xs: seq<string>): Db {
      Store(key, PushAll(xs, List(key)))
    }

    function LRem(key: string, x: string): Db {
      Store(key, RemoveAll(List(key), x))
    }

    /** LPOP (and BLPOP once an element is there): drops the head. */
    function LPop(key: string): Db {
      if List(key) == [] then this else Store(key, List(key)[1..])
    }

    /** SET key token NX PX ttl: succeeds exactly when no live lease is there. */
    function SetNX(key: string, token: string, now: int, ttl: int): Db {
      if Held(key, now) then this else Db(lists, leases[key := Lease(token, now + ttl)], published)
    }

    /** The compare-and-delete unlock script: GET key == token then DEL key. */
    function Unlock(key: string, token: string, now: int): Db {
      if Held(key, now) && leases[key].token == token then Db(lists, leases - {key}, published) else this
    }

    function Publish(channel: string, payload: string): Db {
      Db(lists, leases, published + [Message(channel, payload)])
    }
  }

  /** EXISTS reports 0 exactly when the list is empty. */
  lemma ExistsIffNonEmpty(db: Db, key: string)
    requires db.Valid()
    ensures db.Exists(key) <==> db.List(key) != []
  {
  }

  /** A connection to the shared server; each method is one command. */
  class Client {
    var db: Db

    ghost predicate Valid()
      reads this
    {
      db.Valid()
    }

    constructor (initial: Db)
      requires initial.Valid()
      ensures Valid() && db == initial
    {
      db := initial;
    }

    method Exists(key: string) returns (n: int)
      ensures n == if db.Exists(key) then 1 else 0
    {
      n := if key in db.lists then 1 else 0;
    }

    method Del(keys: set<string>)
      requires Valid()
      modifies this
      ensures Valid() && db == old(db).Del(keys)
    {
      db := db.Del(keys);
    }

    method LRange(key: string) returns (xs: seq<string>)
      ensures xs == db.List(key)
    {
      xs := db.List(key);
    }

    method LLen(key: string) returns (n: nat)
      ensures n == |db.List(key)|
    {
      n := |db.List(key)|;
    }

    /** LPUSH needs at least one element (Redis rejects a bare key). */
    method LPush(key: string, xs: seq<string>) returns (n: nat)
      requires Valid() && xs != []
      modifies this
      ensures Valid() && db == old(db).LPush(key, xs)
      ensures n == |db.List(key)|
    {
      db := db.LPush(key, xs);
      n := |db.List(key)|;
    }

    method LRem(key: string, x: string) returns (removed: nat)
      requires Valid()
      modifies this
      ensures Valid() && db == old(db).LRem(key, x)
      ensures removed == multiset(old(db).List(key))[x]
    {
      var before := db.List(key);
      RemoveAllCounts(before, x);
      removed := multiset(before)[x];
      db := db.LRem(key, x);
      assert multiset(before) == multiset(RemoveAll(before, x)) + multiset{}[x := removed];
    }

    /**
     * BLPOP with a timeout: the head when the list has one; otherwise the
     * wait expires and the reply is nil (nothing else can push meanwhile in
     * this sequential model).
     */
    method BLPop(key: string) returns (popped: Option<string>)
      requires Valid()
      modifies this
      ensures Valid() && db == old(db).LPop(key)
      ensures popped == if old(db).List(key) == [] then None else Some(old(db).List(key)[0])
    {
      var xs := db.List(key);
      popped := if xs == [] then None else Some(xs[0]);
      db := db.LPop(key);
    }

    method SetNX(key: string, token: string, now: int, ttl: int) returns (acquired: bool)
      requires Valid()
      modifies this
      ensures Valid() && db == old(db).SetNX(key, token, now, ttl)
      ensures acquired == !old(db).Held(key, now)
    {
      acquired := !db.Held(key, now);
      db := db.SetNX(key, token, now, ttl);
    }

    /** EVAL of the unlock script; replies 1 when it deleted the key, else 0. */
    method RunUnlockScript(key: string, token: string, now: int) returns (deleted: int)
      requires Valid()
      modifies this
      ensures Valid() && db == old(db).Unlock(key, token, now)
      ensures deleted == if old(db).Held(key, now) && old(db).leases[key].token == token then 1 else 0
    {
      deleted := if db.Held(key, now) && db.leases[key].token == token then 1 else 0;
      db := db.Unlock(key, token, now);
    }

    method Publish(channel: string, payload: string)
      requires Valid()
      modifies this
      ensures Valid() && db == old(db).Publish(channel, payload)
    {
      db := db.Publish(channel, payload);
    }
  }
}
