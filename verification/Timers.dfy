/**
 The pending timers: one index by date, one by owner, and the view that both
 implement, a map from (owner, event id) to deadline.
 */
module TimerIndex {
  import opened Basics

  /** An event of an owner, compared by the two identities only. */
  datatype Key = Key(owner: nat, id: nat)

  datatype Row = Row(owner: nat, tp: int, id: nat)

  type Pending = map<Key, int>

  /** What the timers ask of the engine: nothing, to forget its event, or to arm for an event after a delay. */
  datatype ArmCall = Keep | Disarm | Arm(key: Key, delay: int)

  // ------------------------------------------------------ the simple map

  ghost predicate Distinct(p: Pending) {
    forall j, k | j in p && k in p && p[j] == p[k] :: j == k
  }

  /** Another timer than `key` has this date. */
  ghost predicate Clash(p: Pending, key: Key, date: int) {
    exists k :: k in p && k != key && p[k] == date
  }

  ghost predicate Earliest(p: Pending, k: Key) {
    k in p && forall j | j in p :: p[k] <= p[j]
  }

  lemma {:induction false} EarliestExists(p: Pending)
    requires p != map[]
    ensures exists k :: Earliest(p, k)
  {
    var some :| some in p;
    var rest := p - {some};
    assert forall j | j in p :: j == some || j in rest;
    if rest == map[] {
      assert Earliest(p, some);
    } else {
      EarliestExists(rest);
      var other :| Earliest(rest, other);
      assert Earliest(p, if p[some] <= p[other] then some else other);
    }
  }

  /** The key of the earliest timer. */
  ghost function Head(p: Pending): (head: Option<Key>)
    ensures head.None? <==> p == map[]
    ensures head.Some? ==> Earliest(p, head.value)
  {
    if p == map[] then None
    else
      EarliestExists(p);
      var k :| Earliest(p, k);
      Some(k)
  }

  ghost function ArmHead(p: Pending, now: int): ArmCall {
    match Head(p)
    case None => Disarm
    case Some(k) => Arm(k, Max(1, p[k] - now))
  }

  /** The trigger is set exactly when the identity of the earliest timer changed. */
  ghost function Rearm(before: Pending, after: Pending, now: int): ArmCall {
    if Head(before) == Head(after) then Keep else ArmHead(after, now)
  }

  ghost function Without(p: Pending, owner: nat): Pending {
    map k | k in p && k.owner != owner :: p[k]
  }

  ghost predicate IsLeast(dates: set<int>, d: int) {
    d in dates && forall e | e in dates :: d <= e
  }

  function LeastDate(dates: set<int>): (d: int)
    requires dates != {}
    ensures d in dates && forall e | e in dates :: d <= e
  {
    LeastDateExists(dates);
    var d :| d in dates && forall e | e in dates :: d <= e;
    d
  }

  lemma NoDate(dates: set<int>)
    requires forall d :: d !in dates
    ensures dates == {}
  {
    var none: set<int> := {};
    assert forall d :: d in dates <==> d in none;
    assert dates == none;
  }

  lemma SomeDate(dates: set<int>)
    requires dates != {}
    ensures exists d :: d in dates
  {
    if forall d :: d !in dates {
      NoDate(dates);
      assert false;
    }
  }

  lemma {:induction false} LeastDateExists(dates: set<int>)
    requires dates != {}
    ensures exists d :: IsLeast(dates, d)
  {
    SomeDate(dates);
    var some :| some in dates;
    var rest := dates - {some};
    if rest == {} {
      assert dates == {some};
      assert IsLeast(dates, some);
    } else {
      LeastDateExists(rest);
      var other :| IsLeast(rest, other);
      assert forall e | e in dates :: e == some || e in rest;
      assert IsLeast(dates, if some <= other then some else other);
    }
  }

  // ---------------------------------------------------------- the class

  function KeyOf(r: Row): Key {
    Key(r.owner, r.id)
  }

  ghost predicate ByDateHolds(byDate: map<int, Key>, p: Pending) {
    && (forall d | d in byDate :: byDate[d] in p && p[byDate[d]] == d)
    && (forall k | k in p :: p[k] in byDate && byDate[p[k]] == k)
  }

  ghost predicate ByOwnerHolds(byOwner: seq<Row>, p: Pending) {
    && (forall i | 0 <= i < |byOwner| :: KeyOf(byOwner[i]) in p && p[KeyOf(byOwner[i])] == byOwner[i].tp)
    && (forall k | k in p :: Row(k.owner, p[k], k.id) in byOwner)
    && (forall i, j | 0 <= i < j < |byOwner| :: KeyOf(byOwner[i]) != KeyOf(byOwner[j]))
  }

  lemma {:induction false} DatesCount(byDate: map<int, Key>, p: Pending)
    requires ByDateHolds(byDate, p)
    ensures |byDate| == |p|
    decreases |p|
  {
    if p != map[] {
      var k :| k in p;
      DatesWithout(byDate, p, k);
      OneLess(p, k);
      OneLess(byDate, p[k]);
      DatesCount(byDate - {p[k]}, p - {k});
    } else {
      NoDate(byDate.Keys);
    }
  }

  lemma OneLess<K, V>(m: map<K, V>, k: K)
    requires k in m
    ensures |m - {k}| == |m| - 1
  {
    assert m.Keys == (m - {k}).Keys + {k};
  }

  lemma DatesWithout(byDate: map<int, Key>, p: Pending, k: Key)
    requires ByDateHolds(byDate, p) && k in p
    ensures p[k] in byDate && ByDateHolds(byDate - {p[k]}, p - {k})
  {
    var byDate', p' := byDate - {p[k]}, p - {k};
    forall d | d in byDate' ensures byDate'[d] in p' && p'[byDate'[d]] == d {
      assert byDate[d] in p && p[byDate[d]] == d;
    }
    forall j | j in p' ensures p'[j] in byDate' && byDate'[p'[j]] == j {
      assert p[j] in byDate && byDate[p[j]] == j && byDate[p[k]] == k;
    }
  }

  lemma {:induction false} RowsCount(byOwner: seq<Row>, p: Pending)
    requires ByOwnerHolds(byOwner, p)
    ensures |byOwner| == |p|
    decreases |byOwner|
  {
    if byOwner == [] {
      assert forall k | k in p :: Row(k.owner, p[k], k.id) in byOwner;
      assert p == map[];
    } else {
      RowsWithout(byOwner, p);
      OneLess(p, KeyOf(byOwner[0]));
      RowsCount(byOwner[1..], p - {KeyOf(byOwner[0])});
    }
  }

  lemma RowsWithout(byOwner: seq<Row>, p: Pending)
    requires ByOwnerHolds(byOwner, p) && byOwner != []
    ensures ByOwnerHolds(byOwner[1..], p - {KeyOf(byOwner[0])})
  {
    var k, rest := KeyOf(byOwner[0]), byOwner[1..];
    var p' := p - {k};
    forall j | j in p' ensures Row(j.owner, p'[j], j.id) in rest {
      assert Row(j.owner, p[j], j.id) in byOwner;
      var i :| 0 <= i < |byOwner| && byOwner[i] == Row(j.owner, p[j], j.id);
      assert rest[i - 1] == byOwner[i];
    }
    forall i | 0 <= i < |rest| ensures KeyOf(rest[i]) in p' && p'[KeyOf(rest[i])] == rest[i].tp {
      assert rest[i] == byOwner[i + 1];
    }
  }

  /** Both indexes have as many entries as the map. */
  lemma SizesAgree(byDate: map<int, Key>, byOwner: seq<Row>, p: Pending)
    requires ByDateHolds(byDate, p) && ByOwnerHolds(byOwner, p)
    ensures |byDate| == |p| == |byOwner|
  {
    DatesCount(byDate, p);
    RowsCount(byOwner, p);
  }

  class Timers {
    var timesByDate: map<int, Key>
    var timersByOwner: seq<Row>
    ghost var pending: Pending

    ghost predicate Valid()
      reads this
    {
      ByDateHolds(timesByDate, pending) && ByOwnerHolds(timersByOwner, pending)
    }

    constructor ()
      ensures Valid() && pending == map[]
    {
      timesByDate, timersByOwner, pending := map[], [], map[];
    }

    method GetStartEvent() returns (head: Option<Key>)
      requires Valid()
      ensures head == Head(pending)
    {
      if |timesByDate| > 0 {
        head := Some(timesByDate[LeastDate(timesByDate.Keys)]);
      } else {
        SizesAgree(timesByDate, timersByOwner, pending);
        head := None;
      }
    }

    /** Arms for the earliest timer, at the earliest 1 ns from `now`. */
    method SetTrigger(now: int) returns (arm: ArmCall)
      requires Valid()
      ensures arm == ArmHead(pending, now)
    {
      var head := GetStartEvent();
      match head
      case Some(k) =>
        arm := Arm(k, Max(1, LeastDate(timesByDate.Keys) - now));
      case None =>
        arm := Disarm;
    }

    /** Answers the deadline that was set, or `now` if there was none. */
    method RemoveTimer(owner: nat, id: nat, now: int) returns (prevTp: int)
      requires Valid()
      modifies this
      ensures Valid() && pending == old(pending) - {Key(owner, id)}
      ensures prevTp == if Key(owner, id) in old(pending) then old(pending)[Key(owner, id)] else now
    {
      prevTp := now;
      EraseDates(owner, id);
      var i := 0;
      while i < |timersByOwner| && !(timersByOwner[i].owner == owner && timersByOwner[i].id == id)
        invariant 0 <= i <= |timersByOwner|
        invariant forall j | 0 <= j < i :: KeyOf(timersByOwner[j]) != Key(owner, id)
      {
        i := i + 1;
      }
      pending := pending - {Key(owner, id)};
      if i != |timersByOwner| {
        prevTp := timersByOwner[i].tp;
        EraseRow(i);
      }
      // The size assertion of the program.
      SizesAgree(timesByDate, timersByOwner, pending);
      assert |timesByDate| == |timersByOwner|;
    }

    /** For every entry of the owner, erases the date it is filed under if the event there is the given one. */
    method EraseDates(owner: nat, id: nat)
      requires Valid()
      modifies this`timesByDate
      ensures ByDateHolds(timesByDate, pending - {Key(owner, id)})
    {
      var i := 0;
      while i < |timersByOwner|
        invariant 0 <= i <= |timersByOwner|
        invariant forall d | d in timesByDate :: d in old(timesByDate) && timesByDate[d] == old(timesByDate)[d]
        invariant forall d | d in old(timesByDate) && old(timesByDate)[d] != Key(owner, id) :: d in timesByDate
        invariant forall j | 0 <= j < i && KeyOf(timersByOwner[j]) == Key(owner, id) :: timersByOwner[j].tp !in timesByDate
      {
        var bo := timersByOwner[i];
        if bo.owner == owner && bo.tp in timesByDate && timesByDate[bo.tp].id == id {
          timesByDate := timesByDate - {bo.tp};
        }
        i := i + 1;
      }
      if Key(owner, id) in pending {
        assert Row(owner, pending[Key(owner, id)], id) in timersByOwner;
      }
    }

    method EraseRow(i: nat)
      requires i < |timersByOwner| && ByOwnerHolds(timersByOwner, pending[KeyOf(timersByOwner[i]) := timersByOwner[i].tp])
      requires KeyOf(timersByOwner[i]) !in pending
      modifies this`timersByOwner
      ensures ByOwnerHolds(timersByOwner, pending)
    {
      RowErased(timersByOwner, i, pending);
      timersByOwner := timersByOwner[..i] + timersByOwner[i + 1..];
    }

    /**
     `alive` tells whether the owner still exists. The program's assertion traps
     (`ok` is false) exactly when another timer has the very same date.
     */
    method SetTimer(key: Key, alive: bool, now: int, timeout: int, later: int) returns (ok: bool, left: int, arm: ArmCall)
      requires Valid()
      modifies this
      ensures !alive ==> ok && unchanged(this) && left == 0 && arm == Keep
      ensures alive ==> (ok <==> !Clash(old(pending), key, now + timeout))
      ensures alive ==> left == (if key in old(pending) then old(pending)[key] - later else 0)
      ensures alive && ok ==> Valid() && pending == old(pending)[key := now + timeout]
      ensures alive && ok ==> arm == Rearm(old(pending), pending, later)
    {
      ok, left, arm := true, 0, Keep;
      if alive {
        var prevTp;
        ok, prevTp, arm := Reset(key, now + timeout, later);
        left := prevTp - later;
      }
    }

    /** `SetTimer` for an owner that exists. */
    method Reset(key: Key, when: int, later: int) returns (ok: bool, prevTp: int, arm: ArmCall)
      requires Valid()
      modifies this
      ensures ok <==> !Clash(old(pending), key, when)
      ensures prevTp == if key in old(pending) then old(pending)[key] else later
      ensures ok ==> Valid() && pending == old(pending)[key := when] && arm == Rearm(old(pending), pending, later)
    {
      arm := Keep;
      var oldStartEvent := GetStartEvent();
      prevTp := RemoveTimer(key.owner, key.id, later);
      ClashWithout(old(pending), key, when);
      ok := Emplace(key, when);
      if ok {
        assert pending == old(pending)[key := when];
        arm := TriggerIfChanged(oldStartEvent, later);
      }
    }

    /** Sets the trigger if the identity of the earliest timer is not the old one. */
    method TriggerIfChanged(oldStartEvent: Option<Key>, now: int) returns (arm: ArmCall)
      requires Valid()
      ensures arm == if oldStartEvent == Head(pending) then Keep else ArmHead(pending, now)
    {
      arm := Keep;
      var newStartEvent := GetStartEvent();
      if oldStartEvent != newStartEvent {
        arm := SetTrigger(now);
      }
    }

    /** Files a new timer under both indexes; answers false where the program's size assertion traps. */
    method Emplace(key: Key, when: int) returns (ok: bool)
      requires Valid() && key !in pending
      modifies this
      ensures ok <==> !Clash(old(pending), key, when)
      ensures ok ==> Valid() && pending == old(pending)[key := when]
    {
      SizesAgree(timesByDate, timersByOwner, pending);
      InsertHolds(timesByDate, timersByOwner, pending, key, when);
      timersByOwner := timersByOwner + [Row(key.owner, when, key.id)];
      if when !in timesByDate {
        timesByDate := timesByDate[when := key];
        pending := pending[key := when];
        SizesAgree(timesByDate, timersByOwner, pending);
      } else {
        assert pending[timesByDate[when]] == when;
      }
      ok := |timesByDate| == |timersByOwner|;
    }

    method CancelTimer(key: Key, alive: bool, now: int) returns (left: int, arm: ArmCall)
      requires Valid()
      modifies this
      ensures Valid() && pending == if alive then old(pending) - {key} else old(pending)
      ensures left == if alive && key in old(pending) then old(pending)[key] - now else 0
      ensures arm == Rearm(old(pending), pending, now)
    {
      left, arm := 0, Keep;
      if alive {
        var oldStartEvent := GetStartEvent();
        var prevTp := RemoveTimer(key.owner, key.id, now);
        left := prevTp - now;
        arm := TriggerIfChanged(oldStartEvent, now);
      }
    }

    method CancelAllTimers(owner: nat, now: int) returns (arm: ArmCall)
      requires Valid()
      modifies this
      ensures Valid() && pending == Without(old(pending), owner)
      ensures arm == Rearm(old(pending), pending, now)
    {
      var oldStartEvent := GetStartEvent();
      EraseOwner(owner);
      // The size assertion of the program.
      SizesAgree(timesByDate, timersByOwner, pending);
      assert |timesByDate| == |timersByOwner|;
      arm := TriggerIfChanged(oldStartEvent, now);
    }

    method EraseOwner(owner: nat)
      requires Valid()
      modifies this
      ensures Valid() && pending == Without(old(pending), owner)
    {
      EraseOwnerDates(owner);
      RowsErased(timersByOwner, pending, owner);
      EraseOwnerRows(owner);
      pending := Without(pending, owner);
    }

    /** For every entry of the owner, erases the date it is filed under. */
    method EraseOwnerDates(owner: nat)
      requires Valid()
      modifies this`timesByDate
      ensures ByDateHolds(timesByDate, Without(pending, owner))
    {
      var i := 0;
      while i < |timersByOwner|
        invariant 0 <= i <= |timersByOwner|
        invariant forall d | d in timesByDate :: d in old(timesByDate) && timesByDate[d] == old(timesByDate)[d]
        invariant forall d | d in old(timesByDate) && old(timesByDate)[d].owner != owner :: d in timesByDate
        invariant forall j | 0 <= j < i && timersByOwner[j].owner == owner :: timersByOwner[j].tp !in timesByDate
      {
        if timersByOwner[i].owner == owner {
          timesByDate := timesByDate - {timersByOwner[i].tp};
        }
        i := i + 1;
      }
      DatesErased(old(timesByDate), timersByOwner, pending, timesByDate, owner);
    }

    method EraseOwnerRows(owner: nat)
      modifies this`timersByOwner
      ensures timersByOwner == OthersOf(old(timersByOwner), owner)
    {
      var i := 0;
      var rest: seq<Row> := [];
      while i < |timersByOwner|
        invariant 0 <= i <= |timersByOwner|
        invariant rest == OthersOf(timersByOwner[..i], owner)
      {
        var bo := timersByOwner[i];
        if bo.owner != owner {
          rest := rest + [bo];
        }
        assert timersByOwner[..i + 1][..i] == timersByOwner[..i];
        i := i + 1;
      }
      assert timersByOwner[..|timersByOwner|] == timersByOwner;
      timersByOwner := rest;
    }

    method HandleTimerExpired(now: int) returns (arm: ArmCall, key: Key)
      requires Valid() && pending != map[]
      modifies this
      ensures Head(old(pending)) == Some(key)
      ensures Valid() && pending == old(pending) - {key}
      ensures arm == ArmHead(pending, now)
    {
      var head := GetStartEvent();
      key := head.value;
      var prevTp := RemoveTimer(key.owner, key.id, now);
      arm := SetTrigger(now);
    }
  }

  lemma Erased<T>(s: seq<T>, i: nat)
    requires i < |s|
    ensures var rest := s[..i] + s[i + 1..];
            && (forall j | 0 <= j < |rest| :: rest[j] == s[if j < i then j else j + 1])
            && (forall x | x in s && x != s[i] :: x in rest)
  {
    var rest := s[..i] + s[i + 1..];
    forall x | x in s && x != s[i] ensures x in rest {
      var j :| 0 <= j < |s| && s[j] == x;
      assert rest[if j < i then j else j - 1] == x;
    }
  }

  lemma DatesErased(byDate: map<int, Key>, byOwner: seq<Row>, p: Pending, left: map<int, Key>, owner: nat)
    requires ByDateHolds(byDate, p) && ByOwnerHolds(byOwner, p)
    requires forall d | d in left :: d in byDate && left[d] == byDate[d]
    requires forall d | d in byDate && byDate[d].owner != owner :: d in left
    requires forall j | 0 <= j < |byOwner| && byOwner[j].owner == owner :: byOwner[j].tp !in left
    ensures ByDateHolds(left, Without(p, owner))
  {
    forall d | d in left ensures left[d].owner != owner {
      var k := byDate[d];
      assert Row(k.owner, p[k], k.id) in byOwner;
    }
  }

  /** The rows of all other owners, in order. */
  function OthersOf(rows: seq<Row>, owner: nat): seq<Row> {
    if rows == [] then []
    else
      var last := rows[|rows| - 1];
      OthersOf(rows[..|rows| - 1], owner) + if last.owner != owner then [last] else []
  }

  lemma {:induction false} OthersAre(rows: seq<Row>, owner: nat)
    ensures forall r | r in OthersOf(rows, owner) :: r in rows && r.owner != owner
    ensures forall r | r in rows && r.owner != owner :: r in OthersOf(rows, owner)
  {
    if rows != [] {
      OthersAre(rows[..|rows| - 1], owner);
      assert rows == rows[..|rows| - 1] + [rows[|rows| - 1]];
    }
  }

  predicate OwnKeys(rows: seq<Row>) {
    forall i, j | 0 <= i < j < |rows| :: KeyOf(rows[i]) != KeyOf(rows[j])
  }

  lemma {:induction false} OthersKeepKeys(rows: seq<Row>, owner: nat)
    requires OwnKeys(rows)
    ensures OwnKeys(OthersOf(rows, owner))
  {
    if rows != [] {
      var before := rows[..|rows| - 1];
      OthersKeepKeys(before, owner);
      OthersAre(before, owner);
      forall r | r in OthersOf(before, owner) ensures KeyOf(r) != KeyOf(rows[|rows| - 1]) {
        var i :| 0 <= i < |before| && before[i] == r;
        assert rows[i] == r;
      }
    }
  }

  lemma RowsErased(byOwner: seq<Row>, p: Pending, owner: nat)
    requires ByOwnerHolds(byOwner, p)
    ensures ByOwnerHolds(OthersOf(byOwner, owner), Without(p, owner))
  {
    var rest := OthersOf(byOwner, owner);
    OthersAre(byOwner, owner);
    OthersKeepKeys(byOwner, owner);
    forall k | k in Without(p, owner) ensures Row(k.owner, p[k], k.id) in rest {
      assert Row(k.owner, p[k], k.id) in byOwner;
    }
    forall i | 0 <= i < |rest| ensures KeyOf(rest[i]) in Without(p, owner) && p[KeyOf(rest[i])] == rest[i].tp {
      assert rest[i] in byOwner;
    }
  }

  lemma RowErased(byOwner: seq<Row>, i: nat, p: Pending)
    requires i < |byOwner| && KeyOf(byOwner[i]) !in p && ByOwnerHolds(byOwner, p[KeyOf(byOwner[i]) := byOwner[i].tp])
    ensures ByOwnerHolds(byOwner[..i] + byOwner[i + 1..], p)
  {
    Erased(byOwner, i);
    assert forall k | k in p :: k in p[KeyOf(byOwner[i]) := byOwner[i].tp];
  }

  lemma ClashWithout(p: Pending, key: Key, date: int)
    ensures Clash(p - {key}, key, date) <==> Clash(p, key, date)
  {
    if k :| k in p && k != key && p[k] == date {
      assert k in p - {key};
    }
  }

  lemma InsertHolds(byDate: map<int, Key>, byOwner: seq<Row>, p: Pending, key: Key, when: int)
    requires ByDateHolds(byDate, p) && ByOwnerHolds(byOwner, p) && key !in p
    ensures when !in byDate ==> ByDateHolds(byDate[when := key], p[key := when])
    ensures ByOwnerHolds(byOwner + [Row(key.owner, when, key.id)], p[key := when])
  {
    var rows := byOwner + [Row(key.owner, when, key.id)];
    forall k | k in p[key := when] ensures Row(k.owner, p[key := when][k], k.id) in rows {
      if k == key {
        assert rows[|byOwner|] == Row(key.owner, when, key.id);
      } else {
        assert Row(k.owner, p[k], k.id) in byOwner;
      }
    }
  }
}
