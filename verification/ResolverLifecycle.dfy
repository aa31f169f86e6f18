/**
 The life of a query: it is answered by the last socket due if no socket failed,
 and the clients that are never told are exactly those whose query was swept away
 by another one's timeout or whose request number was taken again.
 */
module ResolverLifecycle {
  import opened Basics
  import opened DnsWords
  import opened DnsMessages
  import opened NameCache
  import opened Resolvers
  import opened ResolverRuns

  // ------------------------------------------------- answers still due

  /** A new query takes a request number that is neither in the table nor awaited by a socket. */
  predicate Fresh(y: System, step: Step) {
    step.Resolve? && step.name !in y.core.cache ==> y.core.request !in y.core.queries && y.due[y.core.request] == 0
  }

  predicate AllFresh(y: System, steps: seq<Step>)
    requires Sound(y.core) && Possible(y, steps)
    decreases |steps|
  {
    steps == [] || (Fresh(y, steps[0]) && (ApplyKeepsSound(y, steps[0]); AllFresh(Apply(y, steps[0]), steps[1..])))
  }

  /** Each query holds one client entry for every socket that has not answered. */
  ghost predicate Counted(y: System) {
    forall id | id in y.core.queries :: |y.core.queries[id].clients| == y.due[id] + y.failed[id]
  }

  lemma ResolveKeepsCounted(y: System, name: Bytes, prefs: AddrPref)
    requires Sound(y.core) && Counted(y) && Fresh(y, Resolve(name, prefs))
    ensures Counted(Apply(y, Resolve(name, prefs)))
  {
    assert |NewQuery(|y.clients|, prefs).clients| == Expected(prefs);
  }

  lemma CompleteKeepsCounted(y: System, reqNo: uint16, ans: Qanswer)
    requires Sound(y.core) && Counted(y) && Enabled(y, Complete(reqNo, ans))
    ensures Counted(Apply(y, Complete(reqNo, ans)))
  {
  }

  lemma StepKeepsCounted(y: System, step: Step)
    requires Sound(y.core) && Counted(y) && Enabled(y, step) && Fresh(y, step)
    ensures Counted(Apply(y, step))
  {
    match step
    case Resolve(name, prefs) => ResolveKeepsCounted(y, name, prefs);
    case Complete(reqNo, ans) => CompleteKeepsCounted(y, reqNo, ans);
    case Fail(_) =>
    case Timeout(_, _) =>
  }

  lemma {:induction false} RunKeepsCounted(y: System, steps: seq<Step>)
    requires Sound(y.core) && Counted(y) && Possible(y, steps) && AllFresh(y, steps)
    ensures Counted(Run(y, steps))
    decreases |steps|
  {
    if steps != [] {
      ApplyKeepsSound(y, steps[0]);
      StepKeepsCounted(y, steps[0]);
      RunKeepsCounted(Apply(y, steps[0]), steps[1..]);
    }
  }

  /**
   While no outstanding request number is reused, a query holds exactly as many
   client entries as there are sockets that did not answer, never zero, and an
   answer completes it, telling its client, exactly when it is the last one due
   and no socket of the query failed.
   */
  lemma ToldOnLastAnswer(steps: seq<Step>, reqNo: uint16, ans: Qanswer)
    requires Possible(Start(), steps) && AllFresh(Start(), steps)
    requires Enabled(Run(Start(), steps), Complete(reqNo, ans))
    ensures var y := Run(Start(), steps);
            var z := Apply(y, Complete(reqNo, ans));
            && (forall id | id in y.core.queries :: |y.core.queries[id].clients| == y.due[id] + y.failed[id] > 0)
            && (|z.told| == |y.told| + 1 <==> reqNo in y.core.queries && y.due[reqNo] == 1 && y.failed[reqNo] == 0)
            && (reqNo in y.core.queries && reqNo !in z.core.queries <==> |z.told| == |y.told| + 1)
  {
    RunKeepsCounted(Start(), steps);
  }

  /** Until the numbers wrap round, those in use are below the next one. */
  ghost predicate NumbersBelow(y: System) {
    |y.clients| < 0x1_0000 ==>
      && y.core.request <= |y.clients|
      && (forall id | id in y.core.queries :: id < y.core.request)
      && (forall id | id in y.due :: id < y.core.request)
  }

  lemma ResolveKeepsNumbers(y: System, name: Bytes, prefs: AddrPref)
    requires Sound(y.core) && NumbersBelow(y)
    ensures NumbersBelow(Apply(y, Resolve(name, prefs)))
  {
  }

  lemma CompleteKeepsNumbers(y: System, reqNo: uint16, ans: Qanswer)
    requires Sound(y.core) && Enabled(y, Complete(reqNo, ans)) && NumbersBelow(y)
    ensures NumbersBelow(Apply(y, Complete(reqNo, ans)))
  {
  }

  lemma TimeoutKeepsNumbers(y: System, id: uint16, victims: seq<uint16>)
    requires Sound(y.core) && Enabled(y, Timeout(id, victims)) && NumbersBelow(y)
    ensures NumbersBelow(Apply(y, Timeout(id, victims)))
  {
  }

  lemma StepKeepsNumbers(y: System, step: Step)
    requires Sound(y.core) && Enabled(y, step) && NumbersBelow(y)
    ensures NumbersBelow(Apply(y, step))
  {
    match step
    case Resolve(name, prefs) => ResolveKeepsNumbers(y, name, prefs);
    case Complete(reqNo, ans) => CompleteKeepsNumbers(y, reqNo, ans);
    case Timeout(id, victims) => TimeoutKeepsNumbers(y, id, victims);
    case Fail(_) =>
  }

  lemma EachCallMakesAClient(y: System, step: Step)
    requires Sound(y.core) && Enabled(y, step)
    ensures |Apply(y, step).clients| == |y.clients| + |Asked(step)|
  {
  }

  lemma {:induction false} FewAreFresh(y: System, steps: seq<Step>)
    requires Sound(y.core) && Possible(y, steps) && NumbersBelow(y) && |y.clients| + |Asks(steps)| <= 0x1_0000
    ensures AllFresh(y, steps)
    decreases |steps|
  {
    if steps != [] {
      StepKeepsNumbers(y, steps[0]);
      EachCallMakesAClient(y, steps[0]);
      ApplyKeepsSound(y, steps[0]);
      FewAreFresh(Apply(y, steps[0]), steps[1..]);
    }
  }

  /** As long as no more than 65536 clients have asked, no outstanding request number is reused. */
  lemma FreshWhileFewAsked(steps: seq<Step>)
    requires Possible(Start(), steps) && |Asks(steps)| <= 0x1_0000
    ensures AllFresh(Start(), steps)
  {
    FewAreFresh(Start(), steps);
  }

  // ----------------------------------------------------- clients lost

  function Owner(y: System, id: uint16): Client
    requires id in y.core.queries && y.core.queries[id].clients != []
  {
    LastClient(y.core.queries[id])
  }

  /** The step takes no query out of the table without telling its client. */
  predicate Gentle(y: System, step: Step) {
    match step
    case Resolve(name, _) => name !in y.core.cache ==> y.core.request !in y.core.queries
    case Timeout(_, victims) => |victims| <= 1
    case _ => true
  }

  /** The clients whose query the step takes out of the table without telling them. */
  ghost predicate Forgets(y: System, step: Step, t: nat)
    requires Sound(y.core) && Enabled(y, step)
  {
    match step
    case Resolve(name, _) => name !in y.core.cache && y.core.request in y.core.queries && t == Owner(y, y.core.request)
    case Timeout(_, victims) => exists i :: 0 <= i < |victims| - 1 && t == Owner(y, victims[i])
    case _ => false
  }

  ghost predicate IsLost(y: System, t: nat) {
    t < |y.clients| && y.clients[t] == Lost
  }

  lemma ResolveLoses(y: System, name: Bytes, prefs: AddrPref, t: nat)
    requires Tracked(y)
    ensures IsLost(Apply(y, Resolve(name, prefs)), t) <==> IsLost(y, t) || Forgets(y, Resolve(name, prefs), t)
  {
    if t < |y.clients| && name !in y.core.cache {
      assert Drop(y.clients, [y.core.request])[t]
          == if y.clients[t].Waiting? && y.clients[t].id in [y.core.request] then Lost else y.clients[t];
    }
  }

  lemma TimeoutLoses(y: System, id: uint16, victims: seq<uint16>, t: nat)
    requires Tracked(y) && Enabled(y, Timeout(id, victims))
    ensures IsLost(Apply(y, Timeout(id, victims)), t) <==> IsLost(y, t) || Forgets(y, Timeout(id, victims), t)
  {
    if victims != [] && t < |y.clients| {
      var n := |victims| - 1;
      var last := Owner(y, victims[n]);
      assert y.clients[last] == Waiting(victims[n]);
      var dropped := Drop(y.clients, victims);
      assert dropped[t] == if y.clients[t].Waiting? && y.clients[t].id in victims then Lost else y.clients[t];
      assert Apply(y, Timeout(id, victims)).clients == dropped[last := ToldBy(|y.told|)];
      if y.clients[t].Waiting? && y.clients[t].id in victims {
        var i :| 0 <= i < |victims| && victims[i] == y.clients[t].id;
        assert t == Owner(y, victims[i]);
      }
      forall i | 0 <= i < n ensures y.clients[Owner(y, victims[i])] == Waiting(victims[i]) && victims[i] != victims[n] {
      }
    }
  }

  /** One step loses exactly the clients that it forgets, and no lost client is ever told. */
  lemma StepLoses(y: System, step: Step, t: nat)
    requires Tracked(y) && Enabled(y, step)
    ensures IsLost(Apply(y, step), t) <==> IsLost(y, t) || Forgets(y, step, t)
  {
    match step
    case Resolve(name, prefs) => ResolveLoses(y, name, prefs, t);
    case Timeout(id, victims) => TimeoutLoses(y, id, victims, t);
    case Complete(reqNo, ans) =>
      if reqNo in y.core.queries {
        assert y.clients[Owner(y, reqNo)] == Waiting(reqNo);
      }
    case Fail(_) =>
  }

  /** A step that is not gentle forgets someone. */
  lemma RoughForgets(y: System, step: Step) returns (t: nat)
    requires Tracked(y) && Enabled(y, step) && !Gentle(y, step)
    ensures Forgets(y, step, t)
  {
    t := if step.Resolve? then Owner(y, y.core.request) else Owner(y, step.victims[0]);
  }

  predicate AllGentle(y: System, steps: seq<Step>)
    requires Sound(y.core) && Possible(y, steps)
    decreases |steps|
  {
    steps == [] || (Gentle(y, steps[0]) && (ApplyKeepsSound(y, steps[0]); AllGentle(Apply(y, steps[0]), steps[1..])))
  }

  lemma {:induction false} LostForever(y: System, steps: seq<Step>, t: nat)
    requires Tracked(y) && Possible(y, steps) && IsLost(y, t)
    ensures IsLost(Run(y, steps), t)
    decreases |steps|
  {
    if steps != [] {
      StepKeepsTracked(y, steps[0]);
      StepLoses(y, steps[0], t);
      LostForever(Apply(y, steps[0]), steps[1..], t);
    }
  }

  ghost predicate NoneLost(y: System) {
    forall t: nat :: !IsLost(y, t)
  }

  lemma {:induction false} NoneLostIffGentle(y: System, steps: seq<Step>)
    requires Tracked(y) && Possible(y, steps) && NoneLost(y)
    ensures NoneLost(Run(y, steps)) <==> AllGentle(y, steps)
    decreases |steps|
  {
    if steps != [] {
      var z := Apply(y, steps[0]);
      StepKeepsTracked(y, steps[0]);
      if Gentle(y, steps[0]) {
        forall t: nat ensures !IsLost(z, t) {
          StepLoses(y, steps[0], t);
        }
        NoneLostIffGentle(z, steps[1..]);
      } else {
        var t := RoughForgets(y, steps[0]);
        StepLoses(y, steps[0], t);
        LostForever(z, steps[1..], t);
      }
    }
  }

  ghost predicate WasTold(y: System, t: nat) {
    exists i :: 0 <= i < |y.told| && y.told[i].client == t
  }

  ghost predicate InTable(y: System, t: nat) {
    exists id :: id in y.core.queries && t in y.core.queries[id].clients
  }

  lemma ServedOrLost(y: System, t: nat)
    requires Tracked(y) && t < |y.clients|
    ensures WasTold(y, t) || InTable(y, t) <==> !IsLost(y, t)
  {
    match y.clients[t]
    case Waiting(id) => assert LastClient(y.core.queries[id]) in y.core.queries[id].clients;
    case ToldBy(_) =>
    case Lost =>
      forall id | id in y.core.queries ensures t !in y.core.queries[id].clients {
        assert y.clients[LastClient(y.core.queries[id])] == Waiting(id);
      }
  }

  /**
   Every client was told or is still in the table exactly on the runs where no
   timeout sweeps further queries away and no request number is taken again
   while its query is in the table.
   */
  lemma EveryClientServedIffGentle(steps: seq<Step>)
    requires Possible(Start(), steps)
    ensures var z := Run(Start(), steps);
            (forall t: nat | t < |z.clients| :: WasTold(z, t) || InTable(z, t)) <==> AllGentle(Start(), steps)
  {
    var z := Run(Start(), steps);
    NoneLostIffGentle(Start(), steps);
    RunKeepsTracked(Start(), steps);
    forall t: nat | t < |z.clients| ensures WasTold(z, t) || InTable(z, t) <==> !IsLost(z, t) {
      ServedOrLost(z, t);
    }
  }

  /** Two queries and one timeout whose iteration meets both: the first client is never told. */
  lemma SweptUpRun(name: Bytes)
    ensures var steps := [Resolve(name, Ipv4Only), Resolve(name, Ipv4Only), Timeout(0, [0, 1])];
            && Possible(Start(), steps)
            && IsLost(Run(Start(), steps), 0) && !WasTold(Run(Start(), steps), 0) && !InTable(Run(Start(), steps), 0)
  {
    var ask, sweep := Resolve(name, Ipv4Only), Timeout(0, [0, 1]);
    var y := Apply(Start(), ask);
    var z := Apply(y, ask);
    var last := Apply(z, sweep);
    Prepend(z, sweep, []);
    Prepend(y, ask, [sweep]);
    Prepend(Start(), ask, [ask, sweep]);
    assert [sweep] + [] == [sweep] && [ask] + [sweep] == [ask, sweep] && [ask] + [ask, sweep] == [ask, ask, sweep];
    RunKeepsTracked(Start(), [ask, ask, sweep]);
    ServedOrLost(last, 0);
  }

  lemma Prepend(y: System, step: Step, rest: seq<Step>)
    requires Sound(y.core) && Enabled(y, step) && Sound(Apply(y, step).core) && Possible(Apply(y, step), rest)
    ensures Possible(y, [step] + rest) && Run(y, [step] + rest) == Run(Apply(y, step), rest)
  {
    assert ([step] + rest)[1..] == rest;
  }
}
