/**
 The addresses stored under one name, handed out round robin among those that
 meet a preference.
 */
module NameCache {
  import opened Basics
  import opened DnsWords

  datatype AddrPref = AnyAddr | Ipv4Only | Ipv6Only

  /** `last` is `lastAccessIndex`. */
  datatype NameList = NameList(last: nat, addrs: seq<Words>)

  const NO_NAMES := NameList(0, [])

  predicate Meets(pref: AddrPref, a: Words) {
    match pref
    case AnyAddr => true
    case Ipv4Only => IsMapped(a)
    case Ipv6Only => !IsMapped(a)
  }

  predicate InRange(l: NameList) {
    l.last < |l.addrs| || l.last == 0
  }

  /** The first index from `from` to before `to` whose address meets the preference. */
  function FirstMatch(addrs: seq<Words>, pref: AddrPref, from: nat, to: nat): (r: Option<nat>)
    requires to <= |addrs|
    ensures r.None? ==> (forall i | from <= i < to :: !Meets(pref, addrs[i]))
    ensures r.Some? ==> from <= r.value < to && Meets(pref, addrs[r.value])
    ensures r.Some? ==> (forall i | from <= i < r.value :: !Meets(pref, addrs[i]))
    decreases if from < to then to - from else 0
  {
    if from >= to then None
    else if Meets(pref, addrs[from]) then Some(from)
    else FirstMatch(addrs, pref, from + 1, to)
  }

  /** The first match in cyclic order from just after the last access, that index being the last one looked at. */
  function Next(l: NameList, pref: AddrPref): (r: Option<nat>)
    requires InRange(l)
    ensures r.Some? <==> exists i :: 0 <= i < |l.addrs| && Meets(pref, l.addrs[i])
    ensures r.Some? ==> r.value < |l.addrs| && Meets(pref, l.addrs[r.value])
  {
    if l.addrs == [] then None
    else
      var later := FirstMatch(l.addrs, pref, l.last + 1, |l.addrs|);
      if later.Some? then later else FirstMatch(l.addrs, pref, 0, l.last + 1)
  }

  /** The n-th index looked at is the answer when it is the first one to match. */
  lemma NextIsFirst(l: NameList, pref: AddrPref, i: nat)
    requires InRange(l) && i < |l.addrs| && Meets(pref, l.addrs[i])
    requires forall j | l.last < j < |l.addrs| && (i <= l.last || j < i) :: !Meets(pref, l.addrs[j])
    requires i <= l.last ==> forall j | 0 <= j < i :: !Meets(pref, l.addrs[j])
    ensures Next(l, pref) == Some(i)
  {
    var later := FirstMatch(l.addrs, pref, l.last + 1, |l.addrs|);
    assert later.Some? <==> i > l.last;
  }

  function AfterGet(l: NameList, pref: AddrPref): (NameList, Option<Words>)
    requires InRange(l)
  {
    var r := Next(l, pref);
    if r.None? then (l, None) else (l.(last := r.value), Some(l.addrs[r.value]))
  }

  function AfterPut(l: NameList, more: seq<Words>): NameList {
    l.(addrs := l.addrs + more)
  }

  class Names {
    var lastAccessIndex: nat
    var addrs: seq<Words>

    predicate Valid()
      reads this
    {
      InRange(View())
    }

    function View(): NameList
      reads this
    {
      NameList(lastAccessIndex, addrs)
    }

    constructor ()
      ensures Valid() && View() == NO_NAMES
    {
      lastAccessIndex, addrs := 0, [];
    }

    method Get(prefs: AddrPref) returns (addr: Option<Words>)
      requires Valid()
      modifies this
      ensures Valid() && (View(), addr) == AfterGet(old(View()), prefs)
    {
      addr := None;
      var num := |addrs|;
      if num == 0 {
        return;
      }
      var once := false;
      var i := lastAccessIndex;
      while !once || i != lastAccessIndex
        invariant View() == old(View()) && addr == None && 0 <= i < num
        invariant !once ==> i >= lastAccessIndex && forall j | lastAccessIndex < j <= i :: !Meets(prefs, addrs[j])
        invariant once ==> i <= lastAccessIndex && (forall j | lastAccessIndex < j < num :: !Meets(prefs, addrs[j]))
                           && (forall j | 0 <= j <= i :: !Meets(prefs, addrs[j]))
        decreases !once, num - i
      {
        i := i + 1;
        if i >= num {
          i := 0;
          once := true;
        }
        var isIpv4 := IsMapped(addrs[i]);
        if prefs == AnyAddr || (isIpv4 && prefs == Ipv4Only) {
          addr := Some(addrs[i]);
          break;
        } else if !isIpv4 && prefs == Ipv6Only {
          addr := Some(addrs[i]);
          break;
        }
      }
      if addr.Some? {
        NextIsFirst(View(), prefs, i);
      }
      lastAccessIndex := i;
    }

    method Put(more: seq<Words>)
      requires Valid()
      modifies this
      ensures Valid() && View() == AfterPut(old(View()), more)
    {
      for k := 0 to |more|
        invariant lastAccessIndex == old(lastAccessIndex) && addrs == old(addrs) + more[..k]
      {
        addrs := addrs + [more[k]];
      }
    }
  }

  // ------------------------------------------------------------ families

  /** What a preference asks of the network octets of an address. */
  predicate InFamily(pref: AddrPref, octets: Bytes)
    requires |octets| == 16
  {
    match pref
    case AnyAddr => true
    case Ipv4Only => octets[..12] == MAPPED_HEAD
    case Ipv6Only => octets[..12] != MAPPED_HEAD
  }

  lemma MeetsIff(pref: AddrPref, a: Words)
    ensures Meets(pref, a) <==> InFamily(pref, Memory(a))
  {
    MappedIffHead(a);
  }

  /** A call hands out a stored address of the family asked for, in network octets, or there is none. */
  lemma GetGivesFamily(l: NameList, pref: AddrPref)
    requires InRange(l)
    ensures match AfterGet(l, pref).1
            case Some(a) => a in l.addrs && InFamily(pref, Memory(a))
            case None => forall a | a in l.addrs :: !InFamily(pref, Memory(a))
  {
    forall a: Words ensures Meets(pref, a) <==> InFamily(pref, Memory(a)) {
      MeetsIff(pref, a);
    }
    if AfterGet(l, pref).1.None? {
      forall a | a in l.addrs ensures !InFamily(pref, Memory(a)) {
        var i :| 0 <= i < |l.addrs| && l.addrs[i] == a;
      }
    }
  }

  // ------------------------------------------------------------ fairness

  /** The matching indexes below `k`, in order. */
  function Matches(addrs: seq<Words>, pref: AddrPref, k: nat): seq<nat>
    requires k <= |addrs|
  {
    if k == 0 then [] else Matches(addrs, pref, k - 1) + if Meets(pref, addrs[k - 1]) then [k - 1] else []
  }

  lemma {:induction false} MatchesAreSorted(addrs: seq<Words>, pref: AddrPref, k: nat)
    requires k <= |addrs|
    ensures forall j | 0 <= j < |Matches(addrs, pref, k)| :: Matches(addrs, pref, k)[j] < k
    ensures forall i, j | 0 <= i < j < |Matches(addrs, pref, k)| :: Matches(addrs, pref, k)[i] < Matches(addrs, pref, k)[j]
  {
    if k > 0 {
      MatchesAreSorted(addrs, pref, k - 1);
    }
  }

  lemma {:induction false} MatchIndex(addrs: seq<Words>, pref: AddrPref, k: nat, i: nat) returns (j: nat)
    requires i < k <= |addrs| && Meets(pref, addrs[i])
    ensures j < |Matches(addrs, pref, k)| && Matches(addrs, pref, k)[j] == i
  {
    if i == k - 1 {
      j := |Matches(addrs, pref, k - 1)|;
    } else {
      j := MatchIndex(addrs, pref, k - 1, i);
    }
  }

  function AllMatches(l: NameList, pref: AddrPref): seq<nat> {
    Matches(l.addrs, pref, |l.addrs|)
  }

  /** How many matches the last access has passed. */
  function Rank(l: NameList, pref: AddrPref): nat
    requires l.last < |l.addrs|
  {
    |Matches(l.addrs, pref, l.last + 1)|
  }

  lemma {:induction false} MatchesGrow(addrs: seq<Words>, pref: AddrPref, i: nat, k: nat)
    requires i <= k <= |addrs|
    ensures Matches(addrs, pref, i) <= Matches(addrs, pref, k)
    decreases k - i
  {
    if i < k {
      MatchesGrow(addrs, pref, i, k - 1);
      assert Matches(addrs, pref, k - 1) <= Matches(addrs, pref, k);
    }
  }

  lemma {:induction false} NoMatchBetween(addrs: seq<Words>, pref: AddrPref, i: nat, k: nat)
    requires i <= k <= |addrs| && forall j | i <= j < k :: !Meets(pref, addrs[j])
    ensures Matches(addrs, pref, i) == Matches(addrs, pref, k)
    decreases k - i
  {
    if i < k {
      NoMatchBetween(addrs, pref, i, k - 1);
    }
  }

  /** A scan finds the next of all matches, or there is none in its range. */
  lemma FirstMatchIsNext(addrs: seq<Words>, pref: AddrPref, from: nat, to: nat)
    requires from <= to <= |addrs|
    ensures var r, before, all := FirstMatch(addrs, pref, from, to), Matches(addrs, pref, from), Matches(addrs, pref, |addrs|);
            && |before| <= |all|
            && (r.Some? ==> |before| < |all| && all[|before|] == r.value && |Matches(addrs, pref, r.value + 1)| == |before| + 1)
            && (r.None? ==> Matches(addrs, pref, to) == before)
  {
    var r := FirstMatch(addrs, pref, from, to);
    MatchesGrow(addrs, pref, from, |addrs|);
    if r.Some? {
      NoMatchBetween(addrs, pref, from, r.value);
      MatchesGrow(addrs, pref, r.value + 1, |addrs|);
      assert Matches(addrs, pref, r.value + 1) == Matches(addrs, pref, from) + [r.value];
    } else {
      NoMatchBetween(addrs, pref, from, to);
    }
  }

  /** The place after `k` steps round a circle of `m` places, starting after `passed` of them. */
  function Turn(passed: nat, k: nat, m: nat): (place: nat)
    requires passed <= m && 0 < m
    ensures place < m
  {
    if k == 0 then (if passed == m then 0 else passed) else Onward(Turn(passed, k - 1, m), m)
  }

  function Onward(place: nat, m: nat): (next: nat)
    requires place < m
    ensures next < m
  {
    if place + 1 == m then 0 else place + 1
  }

  /** One `get` takes the match after those passed, or the first one when all are passed. */
  lemma GetTakesNextMatch(l: NameList, pref: AddrPref)
    requires l.last < |l.addrs| && AllMatches(l, pref) != []
    ensures var ms, p := AllMatches(l, pref), Rank(l, pref);
            && p <= |ms|
            && Next(l, pref) == Some(ms[Turn(p, 0, |ms|)])
            && Rank(AfterGet(l, pref).0, pref) == Turn(p, 0, |ms|) + 1
  {
    FirstMatchIsNext(l.addrs, pref, l.last + 1, |l.addrs|);
    FirstMatchIsNext(l.addrs, pref, 0, l.last + 1);
  }

  /** The list after `k` calls of `get` with one preference. */
  function AfterGets(l: NameList, pref: AddrPref, k: nat): (z: NameList)
    requires InRange(l)
    ensures InRange(z) && z.addrs == l.addrs
  {
    if k == 0 then l else AfterGet(AfterGets(l, pref, k - 1), pref).0
  }

  /** The index that the k-th of several calls hands out, counting from 0. */
  function Given(l: NameList, pref: AddrPref, k: nat): Option<nat>
    requires InRange(l)
  {
    Next(AfterGets(l, pref, k), pref)
  }

  /** One call moves one place further round the circle of matches. */
  lemma GetTurns(l: NameList, pref: AddrPref)
    requires l.last < |l.addrs| && AllMatches(l, pref) != []
    ensures var m, z := |AllMatches(l, pref)|, AfterGet(l, pref).0;
            Rank(l, pref) <= m && Rank(z, pref) <= m && Turn(Rank(z, pref), 0, m) == Onward(Turn(Rank(l, pref), 0, m), m)
  {
    GetTakesNextMatch(l, pref);
  }

  lemma {:induction false} CallsTurn(l: NameList, pref: AddrPref, k: nat)
    requires l.last < |l.addrs| && AllMatches(l, pref) != []
    ensures var m, z := |AllMatches(l, pref)|, AfterGets(l, pref, k);
            Rank(l, pref) <= m && Rank(z, pref) <= m && Turn(Rank(z, pref), 0, m) == Turn(Rank(l, pref), k, m)
    decreases k
  {
    if k == 0 {
      GetTurns(l, pref);
    } else {
      CallsTurn(l, pref, k - 1);
      GetTurns(AfterGets(l, pref, k - 1), pref);
    }
  }

  /** Consecutive calls go through the matches in cyclic order, from the one after the last access. */
  lemma RoundRobin(l: NameList, pref: AddrPref, k: nat)
    requires l.last < |l.addrs| && AllMatches(l, pref) != []
    ensures var ms, p := AllMatches(l, pref), Rank(l, pref);
            p <= |ms| && Given(l, pref, k) == Some(ms[Turn(p, k, |ms|)])
  {
    CallsTurn(l, pref, k);
    GetTakesNextMatch(AfterGets(l, pref, k), pref);
  }

  lemma {:induction false} TurnValue(passed: nat, k: nat, m: nat)
    requires passed <= m && 0 < m && k < m
    ensures var start := Turn(passed, 0, m);
            Turn(passed, k, m) == if start + k < m then start + k else start + k - m
    decreases k
  {
    if k > 0 {
      TurnValue(passed, k - 1, m);
    }
  }

  lemma TurnReaches(passed: nat, place: nat, m: nat) returns (k: nat)
    requires passed <= m && place < m
    ensures k < m && Turn(passed, k, m) == place
  {
    var start := Turn(passed, 0, m);
    k := if start <= place then place - start else place + m - start;
    TurnValue(passed, k, m);
  }

  /**
   Fairness: when m stored addresses meet the preference, any m consecutive calls
   hand out every one of them, and no one twice.
   */
  lemma EachMatchOnce(l: NameList, pref: AddrPref)
    requires l.last < |l.addrs| && AllMatches(l, pref) != []
    ensures var m := |AllMatches(l, pref)|;
            && (forall i | 0 <= i < |l.addrs| && Meets(pref, l.addrs[i]) :: exists k :: 0 <= k < m && Given(l, pref, k) == Some(i))
            && (forall j, k | 0 <= j < k < m :: Given(l, pref, j) != Given(l, pref, k))
  {
    var m := |AllMatches(l, pref)|;
    forall i | 0 <= i < |l.addrs| && Meets(pref, l.addrs[i])
      ensures exists k :: 0 <= k < m && Given(l, pref, k) == Some(i)
    {
      var k := MatchIsGiven(l, pref, i);
    }
    forall j, k | 0 <= j < k < m ensures Given(l, pref, j) != Given(l, pref, k) {
      NoMatchTwice(l, pref, j, k);
    }
  }

  lemma MatchIsGiven(l: NameList, pref: AddrPref, i: nat) returns (k: nat)
    requires l.last < |l.addrs| && i < |l.addrs| && Meets(pref, l.addrs[i])
    ensures k < |AllMatches(l, pref)| && Given(l, pref, k) == Some(i)
  {
    var ms, p := AllMatches(l, pref), Rank(l, pref);
    var j := MatchIndex(l.addrs, pref, |l.addrs|, i);
    MatchesGrow(l.addrs, pref, l.last + 1, |l.addrs|);
    k := TurnReaches(p, j, |ms|);
    RoundRobin(l, pref, k);
  }

  lemma NoMatchTwice(l: NameList, pref: AddrPref, j: nat, k: nat)
    requires l.last < |l.addrs| && j < k < |AllMatches(l, pref)|
    ensures Given(l, pref, j) != Given(l, pref, k)
  {
    var m, p := |AllMatches(l, pref)|, Rank(l, pref);
    RoundRobin(l, pref, j);
    RoundRobin(l, pref, k);
    TurnValue(p, j, m);
    TurnValue(p, k, m);
    var a, b := Turn(p, j, m), Turn(p, k, m);
    if a < b {
      MatchesDiffer(l.addrs, pref, a, b);
    } else {
      MatchesDiffer(l.addrs, pref, b, a);
    }
  }

  lemma MatchesDiffer(addrs: seq<Words>, pref: AddrPref, a: nat, b: nat)
    requires a < b < |Matches(addrs, pref, |addrs|)|
    ensures Matches(addrs, pref, |addrs|)[a] != Matches(addrs, pref, |addrs|)[b]
  {
    MatchesAreSorted(addrs, pref, |addrs|);
  }
}
