/**
 * The pool of language-server clients, one per workspace
 * (`backends/lsp_pool.py`, `LSPPool`), with least-recently-used eviction.
 *
 * The access order lists the workspaces oldest first: a hit moves its
 * workspace to the back, a miss appends one, and a miss at capacity first
 * evicts the front one and shuts its client down. Each operation that
 * changes the pool holds the pool's lock; `get_pool_stats` reads without it.
 * Every operation, `Stats` included, is modelled as one atomic step.
 */
module LspPools {
  import opened Wrappers
  import opened Sequences
  import opened Json
  import opened Strings
  import opened Utf8
  import opened PosixPath
  import opened Configs
  import opened LspClient

  // ---------------------------------------------------------------------
  // The access order

  /** The index of the first occurrence of `x` in `s`. */
  function FirstIndex<T(==)>(s: seq<T>, x: T): (i: nat)
    requires x in s
    ensures i < |s| && s[i] == x && x !in s[..i]
  {
    if s[0] == x then 0
    else
      var k := FirstIndex(s[1..], x);
      assert s[..k + 1] == [s[0]] + s[1..][..k];
      k + 1
  }

  /** `list.remove(x)`: `s` without the first occurrence of `x`. */
  function Remove<T(==)>(s: seq<T>, x: T): seq<T>
    requires x in s
  {
    var i := FirstIndex(s, x);
    s[..i] + s[i + 1..]
  }

  /** `_update_access_order`: `x` moves to (or joins) the back; the others keep their order. */
  function Touch<T(==)>(s: seq<T>, x: T): seq<T> {
    (if x in s then Remove(s, x) else s) + [x]
  }

  /**
   * The order after a miss for `x` while the pool holds `size` clients: the
   * front is evicted when `size` has reached `max` and there is a front.
   */
  function Admit<T>(s: seq<T>, x: T, size: nat, max: int): seq<T> {
    (if size >= max && s != [] then s[1..] else s) + [x]
  }

  /** How many clients the pool can hold: `max_instances`, and at least one. */
  function Capacity(max: int): nat {
    if max < 1 then 1 else max
  }

  /** Without repetitions, removing `x` leaves every other element, once, in the same order. */
  lemma RemoveOthers<T>(s: seq<T>, x: T)
    requires Distinct(s) && x in s
    ensures var r := Remove(s, x);
      |r| == |s| - 1 && Distinct(r) && (forall y :: y in r <==> y in s && y != x)
  {
    var i := FirstIndex(s, x);
    var r := Remove(s, x);
    assert r == s[..i] + s[i + 1..];
    forall a, b | 0 <= a < b < |r| ensures r[a] != r[b] {
      var a' := if a < i then a else a + 1;
      var b' := if b < i then b else b + 1;
      assert r[a] == s[a'] && r[b] == s[b'];
    }
    forall y ensures y in r <==> y in s && y != x {
      if y in r {
        var k :| 0 <= k < |r| && r[k] == y;
        var k' := if k < i then k else k + 1;
        assert s[k'] == y && k' != i;
      }
      if y in s && y != x {
        var k :| 0 <= k < |s| && s[k] == y;
        assert k != i;
        if k < i { assert r[k] == y; } else { assert r[k - 1] == y; }
      }
    }
  }

  /**
   * A touched order ends with `x`, holds what it held plus `x`, keeps its
   * length when `x` was there, and repeats nothing.
   */
  lemma TouchMovesToBack<T>(s: seq<T>, x: T)
    requires Distinct(s)
    ensures var t := Touch(s, x);
      |t| > 0 && t[|t| - 1] == x
      && (forall y :: y in t <==> y in s || y == x)
      && Distinct(t)
      && (x in s ==> |t| == |s|) && (x !in s ==> t == s + [x])
  {
    var t := Touch(s, x);
    var r := if x in s then Remove(s, x) else s;
    if x in s {
      RemoveOthers(s, x);
    }
    assert t == r + [x];
    forall a, b | 0 <= a < b < |t| ensures t[a] != t[b] {
      if b == |t| - 1 {
        assert t[a] == r[a];
      }
    }
  }

  /**
   * A miss for an absent `x` in an order that lists the pool's `size`
   * clients: the front leaves when the pool is full, `x` joins at the back,
   * and the order still repeats nothing and fits the capacity.
   */
  lemma AdmitEvictsFront<T>(s: seq<T>, x: T, max: int)
    requires Distinct(s) && x !in s && |s| <= Capacity(max)
    ensures var t := Admit(s, x, |s|, max);
      Distinct(t) && |t| <= Capacity(max) && t[|t| - 1] == x
      && (forall y :: y in t <==> y == x || (y in s && !(|s| >= max && y == s[0])))
  {
    var r := if |s| >= max && s != [] then s[1..] else s;
    var t := Admit(s, x, |s|, max);
    assert t == r + [x];
    if |s| >= max && s != [] {
      forall y | y in s && y != s[0] ensures y in r {
        var k :| 0 <= k < |s| && s[k] == y;
        assert k != 0 && r[k - 1] == y;
      }
      forall y | y in r ensures y in s && y != s[0] {
        var k :| 0 <= k < |r| && r[k] == y;
        assert s[k + 1] == y;
      }
    }
    forall a, b | 0 <= a < b < |t| ensures t[a] != t[b] {
      if b < |t| - 1 {
        assert t[a] == r[a] && t[b] == r[b];
        if |s| >= max && s != [] {
          assert r[a] == s[a + 1] && r[b] == s[b + 1];
        }
      } else {
        assert t[a] in r;
      }
    }
  }

  /**
   * The access orders the pool's own examples walk through: three misses
   * fill a pool of three, a hit on the oldest moves it to the back, and a
   * fourth workspace then evicts the one that has become oldest.
   */
  lemma LruScenario(w1: Path, w2: Path, w3: Path, w4: Path)
    requires w1 != w2 && w1 != w3 && w1 != w4 && w2 != w3 && w2 != w4 && w3 != w4
    ensures Admit(Admit(Admit([], w1, 0, 3), w2, 1, 3), w3, 2, 3) == [w1, w2, w3]
    ensures Touch([w1, w2, w3], w1) == [w2, w3, w1]
    ensures Admit([w2, w3, w1], w4, 3, 3) == [w3, w1, w4]
  {
    assert FirstIndex([w1, w2, w3], w1) == 0;
    assert [w1, w2, w3][1..] == [w2, w3];
    assert [w2, w3, w1][1..] == [w3, w1];
  }

  // ---------------------------------------------------------------------
  // Settings

  /**
   * `max_instances or int(os.getenv("PYRIGHT_MCP_LSP_POOL_SIZE", "3"))`: a
   * missing or zero argument falls back to the variable; `None` when `int()`
   * raises ValueError on it.
   */
  function MaxInstances(arg: Option<int>, env: Env): Option<int> {
    if arg.Some? && arg.value != 0 then arg else PyInt(GetEnv(env, PoolSizeVar, "3"))
  }

  /** `idle_timeout or config.lsp_timeout`: a missing or zero argument falls back to the configuration. */
  function IdleTimeout(arg: Option<real>, config: Config): real {
    if arg.Some? && arg.value != 0.0 then arg.value else config.lspTimeout
  }

  /** Zero means "not given" for both settings, and the pool size defaults to three. */
  lemma SettingsFallBack(env: Env, config: Config, n: int, t: real)
    ensures MaxInstances(Some(0), env) == MaxInstances(None, env)
    ensures PoolSizeVar !in env ==> MaxInstances(None, env) == Some(3)
    ensures n != 0 ==> MaxInstances(Some(n), env) == Some(n)
    ensures IdleTimeout(Some(0.0), config) == IdleTimeout(None, config) == config.lspTimeout
    ensures t != 0.0 ==> IdleTimeout(Some(t), config) == t
  {
    PyIntOfDigits("3");
  }

  /** The pool's usage figures (`get_pool_stats`); the hit rate is exact, not rounded to three places. */
  datatype PoolStats = PoolStats(
    activeInstances: nat,
    maxInstances: int,
    workspaces: seq<string>,
    cacheHitRate: real,
    evictionCount: nat,
    workspaceSwitches: nat)

  /** Hits over all `get_client` calls, 0 before the first. */
  function HitRate(hits: nat, switches: nat): (rate: real)
    ensures hits + switches == 0 ==> rate == 0.0
    ensures hits + switches > 0 ==> rate * (hits + switches) as real == hits as real
  {
    if hits + switches == 0 then 0.0 else hits as real / (hits + switches) as real
  }

  /** The hit rate is a fraction: 0 exactly without hits, 1 exactly when every call hit. */
  lemma HitRateBounds(hits: nat, switches: nat)
    ensures 0.0 <= HitRate(hits, switches) <= 1.0
    ensures HitRate(hits, switches) == 0.0 <==> hits == 0
    ensures HitRate(hits, switches) == 1.0 <==> hits > 0 && switches == 0
  {
    if hits + switches > 0 {
      var n := (hits + switches) as real;
      assert HitRate(hits, switches) * n == hits as real;
    }
  }

  /** `str(ws)` for each workspace, in order. */
  function PathStrings(ws: seq<Path>): (ss: seq<string>)
    ensures |ss| == |ws| && forall i :: 0 <= i < |ws| ==> ss[i] == ToString(ws[i])
  {
    if ws == [] then [] else [ToString(ws[0])] + PathStrings(ws[1..])
  }

  // ---------------------------------------------------------------------
  // The pool

  /** The client filed under `p` is valid and owns objects of its own inside `R`, none of them `pool`. */
  ghost predicate OwnsEntry(m: map<Path, LSPClient>, R: set<object>, pool: object, p: Path)
    requires p in m
    reads R - {pool}
  {
    var c := m[p];
    c in R && c.Repr() <= R && pool !in c.Repr() && c.Valid()
  }

  /** Every client of `m` is owned inside `R`, and no two clients share an object. */
  ghost predicate OwnedMap(m: map<Path, LSPClient>, R: set<object>, pool: object)
    reads R - {pool}
  {
    && (forall p {:trigger OwnsEntry(m, R, pool, p)} | p in m :: OwnsEntry(m, R, pool, p))
    && (forall p, q {:trigger m[p].Repr(), m[q].Repr()} | p in m && q in m && p != q :: m[p].Repr() !! m[q].Repr())
  }

  /** Filing a valid client with objects of its own keeps the ownership. */
  lemma OwnedAdd(m: map<Path, LSPClient>, R: set<object>, pool: object, root: Path, c: LSPClient)
    requires OwnedMap(m, R, pool) && root !in m
    requires c.Valid() && c.Repr() !! R && pool !in c.Repr()
    ensures OwnedMap(m[root := c], R + c.Repr(), pool)
  {
    var m', R' := m[root := c], R + c.Repr();
    forall p | p in m' ensures OwnsEntry(m', R', pool, p) {
      if p != root {
        assert OwnsEntry(m, R, pool, p);
      }
    }
    forall p, q | p in m' && q in m' && p != q ensures m'[p].Repr() !! m'[q].Repr() {
      if p != root {
        assert OwnsEntry(m, R, pool, p);
      }
      if q != root {
        assert OwnsEntry(m, R, pool, q);
      }
    }
  }

  /** Taking a client out, with its objects, keeps the ownership of the others. */
  lemma OwnedRemove(m: map<Path, LSPClient>, R: set<object>, pool: object, k: Path)
    requires OwnedMap(m, R, pool) && k in m
    ensures OwnedMap(m - {k}, R - m[k].Repr(), pool)
  {
    var m', R' := m - {k}, R - m[k].Repr();
    forall p | p in m' ensures OwnsEntry(m', R', pool, p) {
      assert OwnsEntry(m, R, pool, p) && m[p].Repr() !! m[k].Repr();
    }
  }

  class LSPPool {
    /** `_max_instances`. */
    const maxInstances: int
    /** `_idle_timeout`, handed to every client the pool creates. */
    const idleTimeout: real
    /** What every new client is built with: the configured command, the process id, the JSON reader. */
    const command: seq<string>
    const pid: int
    const parseJson: string -> Option<Json>

    /** `_clients`. */
    var clients: map<Path, LSPClient>
    /** `_access_order`, oldest first. */
    var order: seq<Path>
    /** `_stats`. */
    var evictions: nat
    var switches: nat
    var hits: nat

    ghost var Repr: set<object>

    /** Each client is valid and owns a footprint of its own, inside the pool's. */
    ghost predicate Owns(p: Path)
      requires p in clients
      reads this`clients, this`Repr, Repr - {this}
    {
      OwnsEntry(clients, Repr, this, p)
    }

    ghost predicate Valid()
      reads this, Repr
    {
      && this in Repr
      && clients.Keys == (set p | p in order)
      && Distinct(order)
      && |order| <= Capacity(maxInstances)
      && Owned()
    }

    /** Every client is owned, and no two clients share an object. */
    ghost predicate Owned()
      reads this`clients, this`Repr, Repr - {this}
    {
      OwnedMap(clients, Repr, this)
    }

    constructor (maxInstances: int, idleTimeout: real, config: Config, pid: int, parseJson: string -> Option<Json>)
      ensures Valid() && fresh(Repr)
      ensures this.maxInstances == maxInstances && this.idleTimeout == idleTimeout
      ensures command == config.lspCommand && this.pid == pid && this.parseJson == parseJson
      ensures clients == map[] && order == [] && evictions == 0 && switches == 0 && hits == 0
    {
      this.maxInstances := maxInstances;
      this.idleTimeout := idleTimeout;
      command := config.lspCommand;
      this.pid := pid;
      this.parseJson := parseJson;
      clients := map[];
      order := [];
      evictions := 0;
      switches := 0;
      hits := 0;
      Repr := {this};
    }

    /**
     * `get_client`: the workspace's client, created on a miss. A miss at
     * capacity first evicts the least recently used workspace; that
     * client's server writes `farewell` while it is being shut down.
     */
    method GetClient(root: Path, farewell: seq<byte>) returns (c: LSPClient)
      requires Valid()
      modifies Repr
      ensures Valid() && fresh(Repr - old(Repr))
      ensures root in old(clients) ==>
        c == old(clients[root]) && clients == old(clients) && order == Touch(old(order), root)
        && hits == old(hits) + 1 && switches == old(switches) && evictions == old(evictions)
      ensures root !in old(clients) ==>
        fresh(c) && c.Idle() && c.idleTimeout == idleTimeout && c.command == command
        && order == Admit(old(order), root, |old(clients)|, maxInstances)
        && clients[root] == c
        && hits == old(hits) && switches == old(switches) + 1
        && evictions == old(evictions) + (if |old(clients)| >= maxInstances && old(order) != [] then 1 else 0)
      ensures root !in old(clients) && |old(clients)| >= maxInstances && old(order) != [] ==>
        old(clients[order[0]]).Idle() && old(order)[0] !in clients
      ensures forall p | p in clients && p != root :: p in old(clients) && clients[p] == old(clients[p])
    {
      if root in clients {
        c := Hit(root);
      } else {
        c := Miss(root, farewell);
      }
    }

    /** A workspace the pool has: its client, now the most recently used. */
    method Hit(root: Path) returns (c: LSPClient)
      requires Valid() && root in clients
      modifies this
      ensures Valid() && Repr == old(Repr)
      ensures c == old(clients[root]) && clients == old(clients) && order == Touch(old(order), root)
      ensures hits == old(hits) + 1 && switches == old(switches) && evictions == old(evictions)
    {
      c := clients[root];
      var t := Touch(order, root);
      assert (set p | p in t) == (set p | p in order) && |t| == |order| && Distinct(t) by {
        TouchMovesToBack(order, root);
      }
      hits := hits + 1;
      order := t;
      assert Owned();
      assert clients.Keys == (set p | p in order);
      assert Distinct(order);
    }

    /** A workspace the pool lacks: evict at capacity, then file a fresh client. */
    method Miss(root: Path, farewell: seq<byte>) returns (c: LSPClient)
      requires Valid() && root !in clients
      modifies Repr
      ensures Valid() && fresh(Repr - old(Repr))
      ensures fresh(c) && c.Idle() && c.idleTimeout == idleTimeout && c.command == command
      ensures order == Admit(old(order), root, |old(clients)|, maxInstances)
      ensures clients[root] == c
      ensures hits == old(hits) && switches == old(switches) + 1
      ensures evictions == old(evictions) + (if |old(clients)| >= maxInstances && old(order) != [] then 1 else 0)
      ensures |old(clients)| >= maxInstances && old(order) != [] ==>
        old(clients[order[0]]).Idle() && old(order)[0] !in clients
      ensures forall p | p in clients && p != root :: p in old(clients) && clients[p] == old(clients[p])
    {
      assert |clients| == |order| by {
        assert clients.Keys == set p | p in order;
        DistinctCard(order);
      }
      if |clients| >= maxInstances {
        if order != [] {
          assert Owns(order[0]);
        }
        EvictLru(farewell);
      }
      ghost var kept := Repr;
      assert kept <= old(Repr);
      c := new LSPClient(idleTimeout, command, pid, parseJson);
      Add(root, c);
      assert Repr - old(Repr) <= c.Repr();
    }

    /** Files a fresh client under a workspace the pool does not have, at the back of the order, and counts the switch. */
    method Add(root: Path, c: LSPClient)
      requires Valid() && root !in clients
      requires |order| < Capacity(maxInstances)
      requires c.Repr() !! Repr && c.Valid()
      modifies this
      ensures Valid() && Repr == old(Repr) + c.Repr()
      ensures clients == old(clients)[root := c] && order == old(order) + [root]
      ensures hits == old(hits) && switches == old(switches) + 1 && evictions == old(evictions)
    {
      assert this !in c.Repr();
      OwnedAdd(clients, Repr, this, root, c);
      AppendBack(order, root);
      clients := clients[root := c];
      order := order + [root];
      Repr := Repr + c.Repr();
      switches := switches + 1;
    }

    /** The objects of the least recently used client, which an eviction shuts down. */
    ghost function LruRepr(): set<object>
      reads this
    {
      if order != [] && order[0] in clients then clients[order[0]].Repr() else {}
    }

    /**
     * `_evict_lru`: the oldest workspace leaves the order and the map and
     * its client is shut down (the client catches every failure of its
     * own shutdown). With an empty order nothing happens.
     */
    method EvictLru(farewell: seq<byte>)
      requires Valid()
      modifies this, LruRepr()
      ensures Valid() && Repr == old(Repr) - old(LruRepr())
      ensures hits == old(hits) && switches == old(switches)
      ensures old(order) == [] ==> clients == old(clients) && order == old(order) && evictions == old(evictions)
      ensures old(order) != [] ==>
        var lru := old(order)[0];
        order == old(order)[1..] && clients == old(clients) - {lru} && evictions == old(evictions) + 1
        && old(clients[lru]).Idle()
    {
      if order == [] {
        return;
      }
      var client := Pop();
      Retire(client, farewell);
    }

    /** Takes the least recently used workspace out of the pool, handing back its client. */
    method Pop() returns (client: LSPClient)
      requires Valid() && order != []
      modifies this
      ensures Valid() && Repr == old(Repr) - client.Repr()
      ensures client == old(clients[order[0]]) && client.Repr() == old(LruRepr())
      ensures client.Valid() && client.Repr() !! Repr
      ensures order == old(order)[1..] && clients == old(clients) - {old(order)[0]}
      ensures evictions == old(evictions) + 1 && hits == old(hits) && switches == old(switches)
    {
      var lru := order[0];
      client := clients[lru];
      assert Owns(lru);
      OwnedRemove(clients, Repr, this, lru);
      DropFront(order);
      order := order[1..];
      clients := clients - {lru};
      evictions := evictions + 1;
      Repr := Repr - client.Repr();
    }

    /**
     * `shutdown_all`: every client is shut down (the server of workspace
     * `p` writing `farewell(p)` meanwhile), then the pool is empty; the
     * counters are kept. Calling it again finds nothing to shut down.
     */
    method ShutdownAll(farewell: Path -> seq<byte>)
      requires Valid()
      modifies Repr
      ensures Valid() && Repr == {this} && clients == map[] && order == []
      ensures hits == old(hits) && switches == old(switches) && evictions == old(evictions)
      ensures forall p | p in old(clients) :: old(clients)[p].Idle()
    {
      var m, ws := clients, order;
      forall p | p in m ensures m[p].Repr() <= Repr - {this} && m[p].Valid() {
        assert Owns(p);
      }
      ghost var footprint := Repr - {this};
      clients, order, Repr := map[], [], {this};
      RetireAll(m, ws, farewell, footprint);
    }

    /** `get_pool_stats`: the pool's figures, the workspaces in recency order. */
    function Stats(): (s: PoolStats)
      requires Valid()
      reads this, Repr
      ensures s.activeInstances == |s.workspaces| == |order| <= Capacity(maxInstances)
      ensures forall i :: 0 <= i < |order| ==> s.workspaces[i] == ToString(order[i])
      ensures s.maxInstances == maxInstances && s.evictionCount == evictions && s.workspaceSwitches == switches
      ensures s.activeInstances == |clients|
      ensures s.cacheHitRate == HitRate(hits, switches)
      ensures hits + switches == 0 ==> s.cacheHitRate == 0.0
      ensures hits + switches > 0 ==> s.cacheHitRate * (hits + switches) as real == hits as real
      ensures 0.0 <= s.cacheHitRate <= 1.0 && (s.cacheHitRate == 0.0 <==> hits == 0)
    {
      DistinctCard(order);
      HitRateBounds(hits, switches);
      PoolStats(|clients|, maxInstances, PathStrings(order), HitRate(hits, switches), evictions, switches)
    }
  }

  /** Shuts a client down and, whatever state it was in, leaves it idle. */
  method Retire(c: LSPClient, farewell: seq<byte>)
    requires c.Valid()
    modifies c.Repr()
    ensures c.Valid() && c.Idle()
  {
    c.Shutdown(farewell);
  }

  /**
   * Shuts down, in the order of `ws`, each client of `m`: the clients own
   * pairwise disjoint parts of `footprint`.
   */
  method RetireAll(m: map<Path, LSPClient>, ws: seq<Path>, farewell: Path -> seq<byte>, ghost footprint: set<object>)
    requires forall p | p in m :: m[p].Repr() <= footprint && m[p].Valid()
    requires forall p, q {:trigger m[p].Repr(), m[q].Repr()} | p in m && q in m && p != q :: m[p].Repr() !! m[q].Repr()
    requires Distinct(ws) && forall p :: p in m <==> p in ws
    modifies footprint
    ensures forall p | p in m :: m[p].Idle()
  {
    var i := 0;
    while i < |ws|
      invariant 0 <= i <= |ws|
      invariant forall j | 0 <= j < i :: m[ws[j]].Idle()
      invariant forall j | i <= j < |ws| :: m[ws[j]].Valid()
    {
      var c := m[ws[i]];
      Retire(c, farewell(ws[i]));
      forall j | 0 <= j < |ws| && j != i ensures m[ws[j]].Repr() !! c.Repr() {
        assert ws[j] != ws[i];
      }
      i := i + 1;
    }
    forall p | p in m ensures m[p].Idle() {
      var j :| 0 <= j < |ws| && ws[j] == p;
    }
  }
}
