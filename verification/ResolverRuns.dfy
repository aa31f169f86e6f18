/**
 The resolver over whole runs: who is told what, where the addresses come from,
 and which clients are never told.
 */
module ResolverRuns {
  import opened Basics
  import opened DnsWords
  import opened DnsMessages
  import opened NameCache
  import opened Resolvers

  /** What was looked up for a client, after how many logged answers; nothing for a timeout. */
  datatype Told = Told(client: Client, addr: Option<Words>, name: Option<Bytes>, prefs: AddrPref, at: nat)

  /** A client waits on a query, was told by an entry of the list, or left the table without being told. */
  datatype Status = Waiting(id: uint16) | ToldBy(entry: nat) | Lost

  /**
   The n-th call of `resolve` is made for client n, whose status is `clients[n]`.
   `log` holds the valid answers that were taken, `due` the sockets still to
   answer and `failed` those that reported an error.
   */
  datatype System = System(
    core: Core,
    clients: seq<Status>,
    told: seq<Told>,
    log: seq<Qanswer>,
    due: multiset<uint16>,
    failed: multiset<uint16>)

  datatype Step =
    | Resolve(name: Bytes, prefs: AddrPref)
    | Complete(reqNo: uint16, ans: Qanswer)
    | Fail(reqNo: uint16)
    | Timeout(queryId: uint16, victims: seq<uint16>)

  function Start(): System {
    System(NO_QUERIES, [], [], [], multiset{}, multiset{})
  }

  predicate Enabled(y: System, step: Step) {
    match step
    case Resolve(_, _) => true
    case Complete(reqNo, _) => reqNo in y.due
    case Fail(reqNo) => reqNo in y.due
    case Timeout(id, victims) => Iteration(y.core, id, victims) && TimeoutDefined(y.core, id, victims)
  }

  /** How many answers a query waits for. */
  function Expected(prefs: AddrPref): nat {
    |QueryTypes(prefs)|
  }

  /** The clients waiting on the given queries are lost. */
  function Drop(clients: seq<Status>, ids: seq<uint16>): seq<Status> {
    seq(|clients|, t requires 0 <= t < |clients| =>
      if clients[t].Waiting? && clients[t].id in ids then Lost else clients[t])
  }

  function Tell(y: System, core: Core, log: seq<Qanswer>, t: Told): System {
    y.(core := core, log := log, told := y.told + [t],
       clients := if t.client < |y.clients| then y.clients[t.client := ToldBy(|y.told|)] else y.clients)
  }

  function Apply(y: System, step: Step): System
    requires Sound(y.core) && Enabled(y, step)
  {
    var c := y.core;
    match step
    case Resolve(name, prefs) =>
      var client := |y.clients|;
      var (core, notice) := AfterResolve(c, client, name, prefs);
      if notice.Some? then
        Tell(y.(clients := y.clients + [Lost]), core, y.log, Told(client, notice.value.addr, Some(name), prefs, |y.log|))
      else y.(core := core, clients := Drop(y.clients, [c.request]) + [Waiting(c.request)],
              due := y.due[c.request := y.due[c.request] + Expected(prefs)],
              failed := y.failed[c.request := 0])
    case Complete(reqNo, ans) =>
      var (core, notice) := AfterComplete(c, reqNo, ans);
      var log := if reqNo in c.queries && ans.valid then y.log + [ans] else y.log;
      var z := y.(due := y.due - multiset{reqNo});
      if notice.Some? then
        Tell(z, core, log, Told(notice.value.client, notice.value.addr, Some(ans.name), c.queries[reqNo].prefs, |log|))
      else z.(core := core, log := log)
    case Fail(reqNo) => y.(due := y.due - multiset{reqNo}, failed := y.failed + multiset{reqNo})
    case Timeout(id, victims) =>
      var (core, notice) := AfterTimeout(c, id, victims);
      if notice.Some? then
        Tell(y.(clients := Drop(y.clients, victims)), core, y.log,
             Told(notice.value.client, None, None, c.queries[victims[|victims| - 1]].prefs, |y.log|))
      else y
  }

  function Asked(step: Step): seq<AddrPref> {
    if step.Resolve? then [step.prefs] else []
  }

  /** The preferences that the clients asked for, the n-th of them by client n. */
  function Asks(steps: seq<Step>): seq<AddrPref> {
    if steps == [] then [] else Asked(steps[0]) + Asks(steps[1..])
  }

  lemma ApplyKeepsSound(y: System, step: Step)
    requires Sound(y.core) && Enabled(y, step)
    ensures Sound(Apply(y, step).core)
  {
    var none := Qanswer(false, 0, [], [], None);
    match step
    case Resolve(name, prefs) => StepsKeepSound(y.core, |y.clients|, name, prefs, 0, none, []);
    case Complete(reqNo, ans) => StepsKeepSound(y.core, 0, [], AnyAddr, reqNo, ans, []);
    case Fail(_) =>
    case Timeout(id, victims) => StepsKeepSound(y.core, 0, [], AnyAddr, id, none, victims);
  }

  predicate Possible(y: System, steps: seq<Step>)
    requires Sound(y.core)
    decreases |steps|
  {
    steps == [] || (Enabled(y, steps[0]) && (ApplyKeepsSound(y, steps[0]); Possible(Apply(y, steps[0]), steps[1..])))
  }

  function Run(y: System, steps: seq<Step>): (z: System)
    requires Sound(y.core) && Possible(y, steps)
    ensures Sound(z.core)
    decreases |steps|
  {
    if steps == [] then y
    else
      ApplyKeepsSound(y, steps[0]);
      Run(Apply(y, steps[0]), steps[1..])
  }

  // ------------------------------------------------ every client, once

  type Table = map<uint16, ResQuery>

  ghost predicate OneOwner(q: ResQuery) {
    q.clients != [] && forall i | 0 <= i < |q.clients| :: q.clients[i] == LastClient(q)
  }

  function LastClient(q: ResQuery): Client
    requires q.clients != []
  {
    q.clients[|q.clients| - 1]
  }

  /** The status of each client agrees with the table and with what was told. */
  ghost predicate Agree(table: Table, clients: seq<Status>, told: seq<Told>) {
    && (forall id | id in table ::
          OneOwner(table[id]) && LastClient(table[id]) < |clients| && clients[LastClient(table[id])] == Waiting(id))
    && (forall t: nat | t < |clients| && clients[t].Waiting? ::
          clients[t].id in table && table[clients[t].id].clients != [] && LastClient(table[clients[t].id]) == t)
    && (forall t: nat | t < |clients| && clients[t].ToldBy? ::
          clients[t].entry < |told| && told[clients[t].entry].client == t)
    && (forall i: nat | i < |told| :: told[i].client < |clients| && clients[told[i].client] == ToldBy(i))
  }

  ghost predicate Tracked(y: System) {
    Sound(y.core) && Agree(y.core.queries, y.clients, y.told)
  }

  lemma TellNew(table: Table, clients: seq<Status>, told: seq<Told>, t: Told)
    requires Agree(table, clients, told) && t.client == |clients|
    ensures Agree(table, clients + [ToldBy(|told|)], told + [t])
  {
  }

  lemma TellOwner(table: Table, clients: seq<Status>, told: seq<Told>, id: uint16, t: Told)
    requires Agree(table, clients, told) && id in table && t.client == LastClient(table[id])
    ensures t.client < |clients| && Agree(table - {id}, clients[t.client := ToldBy(|told|)], told + [t])
  {
  }

  lemma TellLost(table: Table, clients: seq<Status>, told: seq<Told>, t: Told)
    requires Agree(table, clients, told) && t.client < |clients| && clients[t.client] == Lost
    ensures Agree(table, clients[t.client := ToldBy(|told|)], told + [t])
  {
  }

  lemma DropQueries(table: Table, clients: seq<Status>, told: seq<Told>, ids: seq<uint16>)
    requires Agree(table, clients, told)
    ensures Agree(table - (set id | id in ids), Drop(clients, ids), told)
  {
  }

  lemma AddQuery(table: Table, clients: seq<Status>, told: seq<Told>, id: uint16, prefs: AddrPref)
    requires Agree(table, clients, told) && id !in table
    ensures Agree(table[id := NewQuery(|clients|, prefs)], clients + [Waiting(id)], told)
  {
  }

  lemma PopClient(table: Table, clients: seq<Status>, told: seq<Told>, id: uint16)
    requires Agree(table, clients, told) && id in table && |table[id].clients| > 1
    ensures var q := table[id];
            Agree(table[id := q.(clients := q.clients[..|q.clients| - 1])], clients, told)
  {
    var q := table[id];
    var p := q.(clients := q.clients[..|q.clients| - 1]);
    assert forall i | 0 <= i < |p.clients| :: p.clients[i] == q.clients[i];
  }

  lemma CachedKeepsTracked(y: System, name: Bytes, prefs: AddrPref)
    requires Tracked(y) && name in y.core.cache
    ensures Tracked(Apply(y, Resolve(name, prefs)))
  {
    var z := Apply(y, Resolve(name, prefs));
    ApplyKeepsSound(y, Resolve(name, prefs));
    TellNew(y.core.queries, y.clients, y.told, z.told[|y.told|]);
    assert z.clients == y.clients + [ToldBy(|y.told|)];
  }

  lemma ReplaceQuery(table: Table, clients: seq<Status>, told: seq<Told>, id: uint16, prefs: AddrPref)
    requires Agree(table, clients, told)
    ensures Agree(table[id := NewQuery(|clients|, prefs)], Drop(clients, [id]) + [Waiting(id)], told)
  {
    var rest, dropped := table - (set i | i in [id]), Drop(clients, [id]);
    DropQueries(table, clients, told, [id]);
    AddQuery(rest, dropped, told, id, prefs);
    assert table[id := NewQuery(|clients|, prefs)] == rest[id := NewQuery(|clients|, prefs)];
  }

  lemma AskedKeepsTracked(y: System, name: Bytes, prefs: AddrPref)
    requires Tracked(y) && name !in y.core.cache
    ensures Tracked(Apply(y, Resolve(name, prefs)))
  {
    ApplyKeepsSound(y, Resolve(name, prefs));
    ReplaceQuery(y.core.queries, y.clients, y.told, y.core.request, prefs);
  }

  lemma CompleteKeepsTracked(y: System, reqNo: uint16, ans: Qanswer)
    requires Tracked(y) && Enabled(y, Complete(reqNo, ans))
    ensures Tracked(Apply(y, Complete(reqNo, ans)))
  {
    var z, table := Apply(y, Complete(reqNo, ans)), y.core.queries;
    ApplyKeepsSound(y, Complete(reqNo, ans));
    if reqNo in table {
      if |table[reqNo].clients| > 1 {
        PopClient(table, y.clients, y.told, reqNo);
      } else {
        TellOwner(table, y.clients, y.told, reqNo, z.told[|y.told|]);
      }
    }
  }

  lemma TimeoutKeepsTracked(y: System, id: uint16, victims: seq<uint16>)
    requires Tracked(y) && Enabled(y, Timeout(id, victims))
    ensures Tracked(Apply(y, Timeout(id, victims)))
  {
    var z := Apply(y, Timeout(id, victims));
    ApplyKeepsSound(y, Timeout(id, victims));
    if victims != [] {
      DropQueries(y.core.queries, y.clients, y.told, victims);
      TellLost(z.core.queries, Drop(y.clients, victims), y.told, z.told[|y.told|]);
    }
  }

  lemma StepKeepsTracked(y: System, step: Step)
    requires Tracked(y) && Enabled(y, step)
    ensures Tracked(Apply(y, step))
  {
    match step
    case Resolve(name, prefs) =>
      if name in y.core.cache {
        CachedKeepsTracked(y, name, prefs);
      } else {
        AskedKeepsTracked(y, name, prefs);
      }
    case Complete(reqNo, ans) => CompleteKeepsTracked(y, reqNo, ans);
    case Fail(_) =>
    case Timeout(id, victims) => TimeoutKeepsTracked(y, id, victims);
  }

  lemma {:induction false} RunKeepsTracked(y: System, steps: seq<Step>)
    requires Tracked(y) && Possible(y, steps)
    ensures Tracked(Run(y, steps))
    decreases |steps|
  {
    if steps != [] {
      StepKeepsTracked(y, steps[0]);
      RunKeepsTracked(Apply(y, steps[0]), steps[1..]);
    }
  }

  /**
   On every run, whatever answers, errors, timeouts and reused request numbers:
   no client is told twice, no client still in the table was told, and a client
   that is neither in the table nor lost was told.
   */
  lemma ToldAtMostOnce(steps: seq<Step>)
    requires Possible(Start(), steps)
    ensures var z := Run(Start(), steps);
            && (forall i, j | 0 <= i < j < |z.told| :: z.told[i].client != z.told[j].client)
            && (forall i, id | 0 <= i < |z.told| && id in z.core.queries :: z.told[i].client !in z.core.queries[id].clients)
            && (forall t: nat | t < |z.clients| && z.clients[t] != Lost ::
                  (exists i :: 0 <= i < |z.told| && z.told[i].client == t)
                  || (exists id :: id in z.core.queries && t in z.core.queries[id].clients))
  {
    RunKeepsTracked(Start(), steps);
    var z := Run(Start(), steps);
    forall t: nat | t < |z.clients| && z.clients[t].Waiting?
      ensures exists id :: id in z.core.queries && t in z.core.queries[id].clients
    {
      assert LastClient(z.core.queries[z.clients[t].id]) in z.core.queries[z.clients[t].id].clients;
    }
  }

  // ------------------------------------------------ what was asked for

  /** Queries and notices carry the preference with which their client called `resolve`. */
  ghost predicate Prefer(table: Table, told: seq<Told>, asks: seq<AddrPref>) {
    && (forall id | id in table :: PrefersAs(table[id], asks))
    && (forall i | 0 <= i < |told| :: told[i].client < |asks| && told[i].prefs == asks[told[i].client])
  }

  /** A socket is stored for a query unless its client asked for IPv6 only. */
  ghost predicate PrefersAs(q: ResQuery, asks: seq<AddrPref>) {
    && q.clients != [] && LastClient(q) < |asks| && q.prefs == asks[LastClient(q)]
    && (q.resolvers > 0 <==> q.prefs != Ipv6Only)
  }

  ghost predicate AsAsked(y: System, asks: seq<AddrPref>) {
    Tracked(y) && |asks| == |y.clients| && Prefer(y.core.queries, y.told, asks)
  }

  lemma PopPrefers(table: Table, told: seq<Told>, asks: seq<AddrPref>, id: uint16)
    requires Prefer(table, told, asks) && id in table && |table[id].clients| > 1 && OneOwner(table[id])
    ensures var q := table[id];
            Prefer(table[id := q.(clients := q.clients[..|q.clients| - 1])], told, asks)
  {
    var q := table[id];
    assert LastClient(q.(clients := q.clients[..|q.clients| - 1])) == LastClient(q);
  }

  lemma ResolvePrefers(y: System, name: Bytes, prefs: AddrPref, asks: seq<AddrPref>)
    requires Sound(y.core) && |asks| == |y.clients| && Prefer(y.core.queries, y.told, asks)
    ensures var z := Apply(y, Resolve(name, prefs));
            |z.clients| == |y.clients| + 1 && Prefer(z.core.queries, z.told, asks + [prefs])
  {
    assert NewQuery(|y.clients|, prefs).clients != [] && LastClient(NewQuery(|y.clients|, prefs)) == |y.clients|;
  }

  lemma ResolveKeepsAsked(y: System, name: Bytes, prefs: AddrPref, asks: seq<AddrPref>)
    requires AsAsked(y, asks)
    ensures AsAsked(Apply(y, Resolve(name, prefs)), asks + [prefs])
  {
    StepKeepsTracked(y, Resolve(name, prefs));
    ResolvePrefers(y, name, prefs, asks);
  }

  lemma CompletePrefers(y: System, reqNo: uint16, ans: Qanswer, asks: seq<AddrPref>)
    requires Sound(y.core) && Prefer(y.core.queries, y.told, asks) && Enabled(y, Complete(reqNo, ans))
    requires reqNo in y.core.queries ==> OneOwner(y.core.queries[reqNo])
    ensures var z := Apply(y, Complete(reqNo, ans));
            |z.clients| == |y.clients| && Prefer(z.core.queries, z.told, asks)
  {
    if reqNo in y.core.queries && |y.core.queries[reqNo].clients| > 1 {
      PopPrefers(y.core.queries, y.told, asks, reqNo);
    }
  }

  lemma CompleteKeepsAsked(y: System, reqNo: uint16, ans: Qanswer, asks: seq<AddrPref>)
    requires AsAsked(y, asks) && Enabled(y, Complete(reqNo, ans))
    ensures AsAsked(Apply(y, Complete(reqNo, ans)), asks)
  {
    CompleteKeepsTracked(y, reqNo, ans);
    CompletePrefers(y, reqNo, ans, asks);
  }

  lemma TimeoutKeepsAsked(y: System, id: uint16, victims: seq<uint16>, asks: seq<AddrPref>)
    requires AsAsked(y, asks) && Enabled(y, Timeout(id, victims))
    ensures AsAsked(Apply(y, Timeout(id, victims)), asks)
  {
    TimeoutKeepsTracked(y, id, victims);
  }

  lemma StepKeepsAsked(y: System, step: Step, asks: seq<AddrPref>)
    requires AsAsked(y, asks) && Enabled(y, step)
    ensures AsAsked(Apply(y, step), asks + Asked(step))
  {
    assert asks + [] == asks;
    match step
    case Resolve(name, prefs) => ResolveKeepsAsked(y, name, prefs, asks);
    case Complete(reqNo, ans) => CompleteKeepsAsked(y, reqNo, ans, asks);
    case Timeout(id, victims) => TimeoutKeepsAsked(y, id, victims, asks);
    case Fail(_) => StepKeepsTracked(y, step);
  }

  lemma {:induction false} RunKeepsAsked(y: System, steps: seq<Step>, asks: seq<AddrPref>)
    requires AsAsked(y, asks) && Possible(y, steps)
    ensures AsAsked(Run(y, steps), asks + Asks(steps))
    decreases |steps|
  {
    if steps == [] {
      assert asks + [] == asks;
    } else {
      StepKeepsAsked(y, steps[0], asks);
      RunKeepsAsked(Apply(y, steps[0]), steps[1..], asks + Asked(steps[0]));
      Associate(asks, Asked(steps[0]), Asks(steps[1..]));
    }
  }

  /** On every run each client is looked up for with the very preference that it asked for. */
  lemma ToldAsAsked(steps: seq<Step>)
    requires Possible(Start(), steps)
    ensures var z := Run(Start(), steps);
            && |Asks(steps)| == |z.clients|
            && (forall i | 0 <= i < |z.told| ::
                  z.told[i].client < |Asks(steps)| && z.told[i].prefs == Asks(steps)[z.told[i].client])
  {
    RunKeepsAsked(Start(), steps, []);
    assert [] + Asks(steps) == Asks(steps);
  }

  /** A query of a client that asked for IPv6 only. */
  ghost predicate ForIpv6Only(y: System, asks: seq<AddrPref>, id: uint16) {
    exists t: nat :: t < |asks| && t < |y.clients| && y.clients[t] == Waiting(id) && asks[t] == Ipv6Only
  }

  lemma SocketlessIff(y: System, asks: seq<AddrPref>, id: uint16)
    requires AsAsked(y, asks) && id in y.core.queries
    ensures y.core.queries[id].resolvers == 0 <==> ForIpv6Only(y, asks, id)
  {
    var t := LastClient(y.core.queries[id]);
    assert y.clients[t] == Waiting(id);
  }

  /** On every run a timeout is undefined exactly when it sweeps up a query of a client that asked for IPv6 only. */
  lemma TimeoutUndefinedIff(steps: seq<Step>, id: uint16, victims: seq<uint16>)
    requires Possible(Start(), steps) && Iteration(Run(Start(), steps).core, id, victims)
    ensures !TimeoutDefined(Run(Start(), steps).core, id, victims)
       <==> exists i :: 0 <= i < |victims| && ForIpv6Only(Run(Start(), steps), Asks(steps), victims[i])
  {
    var z := Run(Start(), steps);
    RunKeepsAsked(Start(), steps, []);
    assert [] + Asks(steps) == Asks(steps);
    forall i | 0 <= i < |victims|
      ensures z.core.queries[victims[i]].resolvers == 0 <==> ForIpv6Only(z, Asks(steps), victims[i])
    {
      SocketlessIff(z, Asks(steps), victims[i]);
    }
  }
}
