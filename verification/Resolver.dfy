/**
 The resolver: a table of queries counting the answers still due, a cache of
 names filled by the answers, and the one notification that each client gets.
 */
module Resolvers {
  import opened Basics
  import opened DnsWords
  import opened DnsMessages
  import opened NameCache

  type Client = nat

  /** One entry of `resQueries`; `resolvers` counts the stored sockets. */
  datatype ResQuery = ResQuery(prefs: AddrPref, clients: seq<Client>, resolvers: nat)

  /** A call of `resolved` on a client, or of `notResolved`. */
  datatype Notice = Notice(client: Client, addr: Option<Words>)

  datatype Core = Core(queries: map<uint16, ResQuery>, cache: map<Bytes, NameList>, request: uint16)

  const NO_QUERIES := Core(map[], map[], 0)

  predicate CacheInRange(cache: map<Bytes, NameList>) {
    forall n | n in cache :: InRange(cache[n])
  }

  predicate Sound(c: Core) {
    CacheInRange(c.cache) && forall id | id in c.queries :: c.queries[id].clients != []
  }

  /** The types that are asked for, each over a socket of its own. */
  function QueryTypes(prefs: AddrPref): seq<uint16> {
    (if prefs != Ipv4Only then [TYPE_AAAA] else []) + (if prefs != Ipv6Only then [TYPE_A] else [])
  }

  /** Just the families that the client wants are asked for, over as many sockets as its query has client entries. */
  lemma AsksForFamilies(client: Client, prefs: AddrPref, v4: Bytes, v6: Bytes)
    requires |v4| == 4 && |v6| == 16 && v6[..12] != MAPPED_HEAD
    ensures TYPE_A in QueryTypes(prefs) <==> InFamily(prefs, Mapped(v4))
    ensures TYPE_AAAA in QueryTypes(prefs) <==> InFamily(prefs, v6)
    ensures |NewQuery(client, prefs).clients| == |QueryTypes(prefs)| && NewQuery(client, prefs).prefs == prefs
  {
    assert Mapped(v4)[..12] == MAPPED_HEAD;
  }

  /** An AAAA query unless only IPv4 is wanted, and an A query unless only IPv6 is. */
  function NewQuery(client: Client, prefs: AddrPref): ResQuery {
    ResQuery(prefs,
             (if prefs != Ipv4Only then [client] else []) + (if prefs != Ipv6Only then [client] else []),
             if prefs != Ipv6Only then 1 else 0)
  }

  function AfterResolve(c: Core, client: Client, name: Bytes, prefs: AddrPref): (Core, Option<Notice>)
    requires Sound(c)
  {
    if name in c.cache then
      var (l, addr) := AfterGet(c.cache[name], prefs);
      (c.(cache := c.cache[name := l]), Some(Notice(client, addr)))
    else
      (c.(queries := c.queries[c.request := NewQuery(client, prefs)], request := (c.request + 1) % 0x1_0000), None)
  }

  function Learn(cache: map<Bytes, NameList>, ans: Qanswer): map<Bytes, NameList> {
    if ans.valid then cache[ans.name := AfterPut(if ans.name in cache then cache[ans.name] else NO_NAMES, ans.addr)]
    else cache
  }

  lemma LearnKeepsRange(cache: map<Bytes, NameList>, ans: Qanswer)
    requires CacheInRange(cache)
    ensures CacheInRange(Learn(cache, ans))
  {
  }

  /** What a look-up of a name gives, and the cache after it. */
  function LookUp(cache: map<Bytes, NameList>, name: Bytes, prefs: AddrPref): (map<Bytes, NameList>, Option<Words>)
    requires CacheInRange(cache)
  {
    if name in cache then
      var (l, addr) := AfterGet(cache[name], prefs);
      (cache[name := l], addr)
    else (cache, None)
  }

  function AfterComplete(c: Core, reqNo: uint16, ans: Qanswer): (Core, Option<Notice>)
    requires Sound(c)
  {
    if reqNo !in c.queries then (c, None)
    else
      var q := c.queries[reqNo];
      var client, rest := q.clients[|q.clients| - 1], q.clients[..|q.clients| - 1];
      LearnKeepsRange(c.cache, ans);
      var cache := Learn(c.cache, ans);
      if rest != [] then (c.(queries := c.queries[reqNo := q.(clients := rest)], cache := cache), None)
      else
        var (cache', addr) := LookUp(cache, ans.name, q.prefs);
        (c.(queries := c.queries - {reqNo}, cache := cache'), Some(Notice(client, addr)))
  }

  /** The entries of the table from the query that timed out to the end of the iteration; none if it is not there. */
  predicate Iteration(c: Core, queryId: uint16, victims: seq<uint16>) {
    && (if queryId in c.queries then victims != [] && victims[0] == queryId else victims == [])
    && (forall i | 0 <= i < |victims| :: victims[i] in c.queries)
    && (forall i, j | 0 <= i < j < |victims| :: victims[i] != victims[j])
  }

  /** `resolvers.back()` is undefined for a query that stored no socket. */
  predicate TimeoutDefined(c: Core, queryId: uint16, victims: seq<uint16>)
    requires Iteration(c, queryId, victims)
  {
    forall i | 0 <= i < |victims| :: c.queries[victims[i]].resolvers > 0
  }

  function AfterTimeout(c: Core, queryId: uint16, victims: seq<uint16>): (Core, Option<Notice>)
    requires Sound(c) && Iteration(c, queryId, victims)
  {
    if victims == [] then (c, None)
    else
      var last := c.queries[victims[|victims| - 1]].clients;
      (c.(queries := c.queries - (set id | id in victims)), Some(Notice(last[|last| - 1], None)))
  }

  lemma StepsKeepSound(c: Core, client: Client, name: Bytes, prefs: AddrPref, reqNo: uint16, ans: Qanswer, victims: seq<uint16>)
    requires Sound(c)
    ensures Sound(AfterResolve(c, client, name, prefs).0)
    ensures Sound(AfterComplete(c, reqNo, ans).0)
    ensures Iteration(c, reqNo, victims) ==> Sound(AfterTimeout(c, reqNo, victims).0)
  {
    LearnKeepsRange(c.cache, ans);
  }

  // ------------------------------------------------------------ the class

  class ResolverImpl {
    var resQueries: map<uint16, ResQuery>
    var byName: map<Bytes, Names>
    var request: uint16

    ghost predicate Valid()
      reads this, byName.Values
    {
      && (forall n | n in byName :: byName[n].Valid())
      && (forall m, n | m in byName && n in byName && m != n :: byName[m] != byName[n])
      && (forall id | id in resQueries :: resQueries[id].clients != [])
    }

    ghost function Cache(): map<Bytes, NameList>
      reads this`byName, byName.Values
    {
      map n | n in byName :: byName[n].View()
    }

    ghost function View(): Core
      reads this, byName.Values
    {
      Core(resQueries, Cache(), request)
    }

    constructor ()
      ensures Valid() && View() == NO_QUERIES
    {
      resQueries, byName, request := map[], map[], 0;
    }

    /** `asked` are the types for which sockets were made. */
    method Resolve(client: Client, name: Bytes, prefs: AddrPref) returns (notice: Option<Notice>, asked: seq<uint16>)
      requires Valid()
      modifies this, byName.Values
      ensures Valid() && fresh(byName.Values - old(byName.Values))
      ensures (View(), notice) == AfterResolve(old(View()), client, name, prefs)
      ensures asked == if name in old(byName) then [] else QueryTypes(prefs)
    {
      notice, asked := None, [];
      if name in byName {
        var addr := Find(name, prefs);
        notice := Some(Notice(client, addr));
      } else {
        var q := ResQuery(prefs, [], 0);
        if prefs != Ipv4Only {
          q := q.(clients := q.clients + [client]);
          asked := asked + [TYPE_AAAA];
        }
        if prefs != Ipv6Only {
          q := q.(clients := q.clients + [client], resolvers := q.resolvers + 1);
          asked := asked + [TYPE_A];
        }
        assert q == NewQuery(client, prefs);
        resQueries := resQueries[request := q];
        request := (request + 1) % 0x1_0000;
        assert Cache() == old(Cache());
      }
    }

    /** Makes sure that the name has an entry. */
    method Entry(name: Bytes)
      requires Valid()
      modifies this`byName
      ensures Valid() && fresh(byName.Values - old(byName.Values)) && name in byName
      ensures Cache() == if name in old(Cache()) then old(Cache()) else old(Cache())[name := NO_NAMES]
    {
      if name !in byName {
        var names := new Names();
        byName := byName[name := names];
      }
    }

    /** Stores the addresses of a valid answer under its name. */
    method Store(ans: Qanswer)
      requires Valid()
      modifies this`byName, byName.Values
      ensures Valid() && fresh(byName.Values - old(byName.Values))
      ensures Cache() == Learn(old(Cache()), ans)
    {
      if ans.valid {
        Entry(ans.name);
        AddTo(ans.name, ans.addr);
      }
    }

    method AddTo(name: Bytes, more: seq<Words>)
      requires Valid() && name in byName
      modifies byName[name]
      ensures Valid() && Cache() == old(Cache())[name := AfterPut(old(Cache())[name], more)]
    {
      byName[name].Put(more);
    }

    method Find(name: Bytes, prefs: AddrPref) returns (addr: Option<Words>)
      requires Valid()
      modifies byName.Values
      ensures Valid() && (Cache(), addr) == LookUp(old(Cache()), name, prefs)
    {
      addr := None;
      if name in byName {
        assert byName[name] in byName.Values;
        addr := byName[name].Get(prefs);
        assert Cache() == old(Cache())[name := byName[name].View()];
      } else {
        assert Cache() == old(Cache());
      }
    }

    method RequestComplete(reqNo: uint16, ans: Qanswer) returns (notice: Option<Notice>)
      requires Valid()
      modifies this, byName.Values
      ensures Valid() && fresh(byName.Values - old(byName.Values))
      ensures (View(), notice) == AfterComplete(old(View()), reqNo, ans)
    {
      notice := None;
      if reqNo !in resQueries {
        return;
      }
      LearnKeepsRange(Cache(), ans);
      Store(ans);
      if |resQueries[reqNo].clients| > 1 {
        PopClient(reqNo);
      } else {
        notice := Finish(reqNo, ans.name);
      }
    }

    /** An answer that is not the last one. */
    method PopClient(reqNo: uint16)
      requires Valid() && reqNo in resQueries && |resQueries[reqNo].clients| > 1
      modifies this`resQueries
      ensures Valid() && Cache() == old(Cache())
      ensures var q := old(resQueries)[reqNo];
              resQueries == old(resQueries)[reqNo := q.(clients := q.clients[..|q.clients| - 1])]
    {
      var q := resQueries[reqNo];
      resQueries := resQueries[reqNo := q.(clients := q.clients[..|q.clients| - 1])];
    }

    /** The last answer: the query is erased and its client told. */
    method Finish(reqNo: uint16, name: Bytes) returns (notice: Option<Notice>)
      requires Valid() && reqNo in resQueries && |resQueries[reqNo].clients| == 1
      modifies this`resQueries, byName.Values
      ensures Valid() && resQueries == old(resQueries) - {reqNo}
      ensures var q, r := old(resQueries)[reqNo], LookUp(old(Cache()), name, old(resQueries)[reqNo].prefs);
              Cache() == r.0 && notice == Some(Notice(q.clients[0], r.1))
    {
      var q := resQueries[reqNo];
      var addr := Find(name, q.prefs);
      resQueries := resQueries - {reqNo};
      notice := Some(Notice(q.clients[0], addr));
    }

    /**
     `victims` is what the iteration meets from the query on. Answers whether
     the loop is defined, which it is not once it meets a query without a socket.
     */
    method QueryTimedout(queryId: uint16, victims: seq<uint16>) returns (defined: bool, notice: Option<Notice>)
      requires Valid() && Iteration(View(), queryId, victims)
      modifies this`resQueries
      ensures defined <==> TimeoutDefined(old(View()), queryId, victims)
      ensures defined ==> Valid() && (View(), notice) == AfterTimeout(old(View()), queryId, victims)
    {
      notice := None;
      if queryId !in resQueries {
        return true, None;
      }
      for i := 0 to |victims|
        invariant forall j | 0 <= j < i :: old(resQueries)[victims[j]].resolvers > 0
        invariant resQueries == old(resQueries) - (set id | id in victims[..i])
        invariant i > 0 ==> (var last := old(resQueries)[victims[i - 1]].clients; notice == Some(Notice(last[|last| - 1], None)))
      {
        assert victims[i] !in victims[..i];
        var q := resQueries[victims[i]];
        notice := Some(Notice(q.clients[|q.clients| - 1], None));
        if q.resolvers == 0 {
          return false, notice;
        }
        resQueries := resQueries - {victims[i]};
        assert victims[..i + 1] == victims[..i] + [victims[i]];
      }
      assert victims[..|victims|] == victims;
      assert resQueries == old(resQueries) - (set id | id in victims) && Cache() == old(Cache());
      defined := true;
    }
  }
}
