/**
 Where the addresses come from: the cache is the logged answers sorted by name,
 and a client is told an address exactly when some answer logged by then, under
 the name that was looked up, has one that meets the preference of the query.
 */
module ResolverProvenance {
  import opened Basics
  import opened DnsWords
  import opened DnsMessages
  import opened NameCache
  import opened Resolvers
  import opened ResolverRuns

  /** The addresses of the answers for a name, in the order they came. */
  function Collect(log: seq<Qanswer>, name: Bytes): seq<Words> {
    if log == [] then []
    else
      var last := log[|log| - 1];
      Collect(log[..|log| - 1], name) + if last.name == name then last.addr else []
  }

  predicate IsNamed(log: seq<Qanswer>, name: Bytes) {
    exists j :: 0 <= j < |log| && log[j].name == name
  }

  /** The answer carries the name and an address whose network octets are of the family. */
  predicate Offers(ans: Qanswer, name: Bytes, prefs: AddrPref, a: Words) {
    ans.valid && ans.name == name && a in ans.addr && InFamily(prefs, Memory(a))
  }

  predicate AllValid(log: seq<Qanswer>) {
    forall j | 0 <= j < |log| :: log[j].valid
  }

  /** The names of the cache are those of the log, with the addresses that the log has for them. */
  ghost predicate Filed(cache: map<Bytes, NameList>, log: seq<Qanswer>) {
    && CacheInRange(cache) && AllValid(log)
    && (forall n | n in cache :: IsNamed(log, n) && cache[n].addrs == Collect(log, n))
    && (forall j | 0 <= j < |log| :: log[j].name in cache)
  }

  /** A look-up under these addresses gives one that meets the preference if there is one. */
  predicate Explains(addrs: seq<Words>, prefs: AddrPref, addr: Option<Words>) {
    if addr.Some? then addr.value in addrs && Meets(prefs, addr.value)
    else forall a | a in addrs :: !Meets(prefs, a)
  }

  ghost predicate EntryExplained(log: seq<Qanswer>, t: Told) {
    && t.at <= |log|
    && (if t.name.Some? then Explains(Collect(log[..t.at], t.name.value), t.prefs, t.addr) else t.addr.None?)
  }

  ghost predicate Explained(y: System) {
    Filed(y.core.cache, y.log) && forall i | 0 <= i < |y.told| :: EntryExplained(y.log, y.told[i])
  }

  lemma {:induction false} NoEntryNoAddress(log: seq<Qanswer>, name: Bytes)
    requires !IsNamed(log, name)
    ensures Collect(log, name) == []
  {
    if log != [] {
      var before := log[..|log| - 1];
      assert log[|log| - 1].name != name;
      assert !IsNamed(before, name) by {
        forall j | 0 <= j < |before| ensures before[j].name != name {
          assert before[j] == log[j];
        }
      }
      NoEntryNoAddress(before, name);
    }
  }

  lemma NamedStays(log: seq<Qanswer>, ans: Qanswer, name: Bytes)
    requires IsNamed(log, name)
    ensures IsNamed(log + [ans], name)
  {
    var j :| 0 <= j < |log| && log[j].name == name;
    assert (log + [ans])[j].name == name;
  }

  lemma LearnFiles(cache: map<Bytes, NameList>, log: seq<Qanswer>, ans: Qanswer)
    requires Filed(cache, log) && ans.valid
    ensures Filed(Learn(cache, ans), log + [ans])
  {
    var more, cache' := log + [ans], Learn(cache, ans);
    assert more[..|log|] == log;
    LearnKeepsRange(cache, ans);
    assert more[|log|].name == ans.name;
    if ans.name !in cache {
      NoEntryNoAddress(log, ans.name);
    }
    forall n | n in cache' ensures IsNamed(more, n) && cache'[n].addrs == Collect(more, n) {
      if n in cache {
        NamedStays(log, ans, n);
      }
    }
  }

  lemma LookUpKeepsFiled(cache: map<Bytes, NameList>, log: seq<Qanswer>, name: Bytes, prefs: AddrPref)
    requires Filed(cache, log)
    ensures Filed(LookUp(cache, name, prefs).0, log)
    ensures Explains(Collect(log, name), prefs, LookUp(cache, name, prefs).1)
  {
    if name in cache {
      var l := cache[name];
      var (l', addr) := AfterGet(l, prefs);
      assert l'.addrs == l.addrs;
      if addr.None? {
        forall a | a in l.addrs ensures !Meets(prefs, a) {
          var i :| 0 <= i < |l.addrs| && l.addrs[i] == a;
        }
      }
    } else {
      NoEntryNoAddress(log, name);
    }
  }

  /** What was explained stays explained as the log grows. */
  lemma LogGrows(log: seq<Qanswer>, more: seq<Qanswer>, t: Told)
    requires EntryExplained(log, t) && log <= more
    ensures EntryExplained(more, t)
  {
    assert more[..t.at] == log[..t.at];
  }

  /** Extending the log and the list of what was told by one explained entry. */
  lemma TellKeepsExplained(y: System, z: System)
    requires Explained(y) && y.log <= z.log && Filed(z.core.cache, z.log)
    requires |y.told| <= |z.told| <= |y.told| + 1 && z.told[..|y.told|] == y.told
    requires |z.told| > |y.told| ==> EntryExplained(z.log, z.told[|y.told|])
    ensures Explained(z)
  {
    forall i | 0 <= i < |z.told| ensures EntryExplained(z.log, z.told[i]) {
      if i < |y.told| {
        assert z.told[i] == z.told[..|y.told|][i] == y.told[i];
        LogGrows(y.log, z.log, y.told[i]);
      }
    }
  }

  lemma LearnKeepsFiled(cache: map<Bytes, NameList>, log: seq<Qanswer>, ans: Qanswer)
    requires Filed(cache, log)
    ensures Filed(Learn(cache, ans), if ans.valid then log + [ans] else log)
  {
    if ans.valid {
      LearnFiles(cache, log, ans);
    }
  }

  lemma CompleteKeepsExplained(y: System, reqNo: uint16, ans: Qanswer)
    requires Sound(y.core) && Explained(y) && Enabled(y, Complete(reqNo, ans))
    ensures Explained(Apply(y, Complete(reqNo, ans)))
  {
    var z := Apply(y, Complete(reqNo, ans));
    if reqNo in y.core.queries {
      AnswerKeepsExplained(y, reqNo, ans);
    } else {
      TellKeepsExplained(y, z);
    }
  }

  /** A notice after a look-up in the whole log, or none. */
  lemma TellLookedUp(y: System, z: System, name: Bytes)
    requires Explained(y) && y.log <= z.log && Filed(z.core.cache, z.log)
    requires |z.told| <= |y.told| + 1 && y.told <= z.told
    requires |z.told| > |y.told| ==>
               var t := z.told[|y.told|];
               t.at == |z.log| && t.name == Some(name) && Explains(Collect(z.log, name), t.prefs, t.addr)
    ensures Explained(z)
  {
    assert z.log[..|z.log|] == z.log;
    TellKeepsExplained(y, z);
  }

  lemma AnswerKeepsExplained(y: System, reqNo: uint16, ans: Qanswer)
    requires Sound(y.core) && Explained(y) && Enabled(y, Complete(reqNo, ans)) && reqNo in y.core.queries
    ensures Explained(Apply(y, Complete(reqNo, ans)))
  {
    var z, q := Apply(y, Complete(reqNo, ans)), y.core.queries[reqNo];
    var cache := Learn(y.core.cache, ans);
    LearnKeepsFiled(y.core.cache, y.log, ans);
    if |q.clients| == 1 {
      LookUpKeepsFiled(cache, z.log, ans.name, q.prefs);
    }
    TellLookedUp(y, z, ans.name);
  }

  lemma StepKeepsExplained(y: System, step: Step)
    requires Sound(y.core) && Explained(y) && Enabled(y, step)
    ensures Explained(Apply(y, step))
  {
    match step
    case Resolve(name, prefs) =>
      LookUpKeepsFiled(y.core.cache, y.log, name, prefs);
      TellLookedUp(y, Apply(y, step), name);
    case Complete(reqNo, ans) => CompleteKeepsExplained(y, reqNo, ans);
    case Fail(_) =>
    case Timeout(_, _) => TellKeepsExplained(y, Apply(y, step));
  }

  lemma {:induction false} RunKeepsExplained(y: System, steps: seq<Step>)
    requires Sound(y.core) && Explained(y) && Possible(y, steps)
    ensures Explained(Run(y, steps))
    decreases |steps|
  {
    if steps != [] {
      ApplyKeepsSound(y, steps[0]);
      StepKeepsExplained(y, steps[0]);
      RunKeepsExplained(Apply(y, steps[0]), steps[1..]);
    }
  }

  lemma {:induction false} InCollect(log: seq<Qanswer>, name: Bytes, a: Words)
    ensures a in Collect(log, name) <==> exists j :: 0 <= j < |log| && log[j].name == name && a in log[j].addr
  {
    if log != [] {
      var n := |log| - 1;
      var before := log[..n];
      InCollect(before, name, a);
      if j :| 0 <= j < |log| && log[j].name == name && a in log[j].addr {
        if j < n {
          assert before[j] == log[j];
        }
      }
      if j :| 0 <= j < |before| && before[j].name == name && a in before[j].addr {
        assert log[j] == before[j];
      }
    }
  }

  /** A notice after the look-up of `name` for a client that asked for `prefs`. */
  ghost predicate FromAnswers(log: seq<Qanswer>, name: Bytes, prefs: AddrPref, addr: Option<Words>) {
    match addr
    case Some(a) => exists j :: 0 <= j < |log| && Offers(log[j], name, prefs, a)
    case None => forall j, a | 0 <= j < |log| && a in log[j].addr :: !Offers(log[j], name, prefs, a)
  }

  lemma ExplainedFromAnswers(log: seq<Qanswer>, name: Bytes, prefs: AddrPref, addr: Option<Words>)
    requires AllValid(log) && Explains(Collect(log, name), prefs, addr)
    ensures FromAnswers(log, name, prefs, addr)
  {
    match addr
    case Some(a) =>
      InCollect(log, name, a);
      MeetsIff(prefs, a);
      var j :| 0 <= j < |log| && log[j].name == name && a in log[j].addr;
      assert Offers(log[j], name, prefs, a);
    case None =>
      forall j, a | 0 <= j < |log| && a in log[j].addr ensures !Offers(log[j], name, prefs, a) {
        InCollect(log, name, a);
        MeetsIff(prefs, a);
      }
  }

  /**
   Provenance: on every run, a client that was told after a look-up got an address
   exactly when some valid answer taken before, carrying the name looked up, had
   one of the family with which this client called `resolve`, and the address is
   such a one; a timeout never gives an address.
   */
  lemma AddressesComeFromAnswers(steps: seq<Step>, i: nat)
    requires Possible(Start(), steps) && i < |Run(Start(), steps).told|
    ensures var z := Run(Start(), steps);
            var t := z.told[i];
            && t.at <= |z.log| && t.client < |Asks(steps)|
            && if t.name.Some? then FromAnswers(z.log[..t.at], t.name.value, Asks(steps)[t.client], t.addr) else t.addr.None?
  {
    RunKeepsExplained(Start(), steps);
    ToldAsAsked(steps);
    var z := Run(Start(), steps);
    var t := z.told[i];
    assert EntryExplained(z.log, t);
    if t.name.Some? {
      ExplainedFromAnswers(z.log[..t.at], t.name.value, t.prefs, t.addr);
    }
  }

  /**
   On every run a client that asks is told at once, without a query, exactly when
   an answer with that name was taken; otherwise it waits for a query, which
   leaves what was told as it was.
   */
  lemma KnownNamesAreToldAtOnce(steps: seq<Step>, name: Bytes, prefs: AddrPref)
    requires Possible(Start(), steps)
    ensures var y := Run(Start(), steps);
            var z, client := Apply(y, Resolve(name, prefs)), |y.clients|;
            && |z.clients| == client + 1
            && (IsNamed(y.log, name) ==>
                  z.core.queries == y.core.queries && z.clients[client] == ToldBy(|y.told|)
                  && |z.told| == |y.told| + 1 && z.told[|y.told|].client == client && z.told[|y.told|].name == Some(name))
            && (!IsNamed(y.log, name) ==>
                  z.told == y.told && z.clients[client] == Waiting(y.core.request)
                  && y.core.request in z.core.queries && LastClient(z.core.queries[y.core.request]) == client)
  {
    RunKeepsExplained(Start(), steps);
    var y := Run(Start(), steps);
    if j :| 0 <= j < |y.log| && y.log[j].name == name {
      assert y.log[j].name in y.core.cache;
    } else {
      assert name !in y.core.cache;
    }
  }
}
