/**
 The pattern search of the proxy, and what the proxy makes of the header that a
 client has sent so far.
 */
module Patterns {
  import opened Basics

  const QUESTION_MARK: byte := 63
  const CR: byte := 13
  const LF: byte := 10
  const BLANK_LINE: Bytes := [CR, LF, CR, LF]
  const CONNECT: Bytes := [67, 79, 78, 78, 69, 67, 84, 32]

  /** `tolower` of the C locale. */
  function Lower(b: byte): byte {
    if 65 <= b <= 90 then b + 32 else b
  }

  predicate Hits(b: byte, p: byte) {
    Lower(b) == Lower(p) || p == QUESTION_MARK
  }

  predicate SameLetter(upper: byte, lower: byte) {
    65 <= upper <= 90 && lower == upper + 32
  }

  /** An octet fits itself, the same letter in the other case, and a question mark in the pattern. */
  lemma HitsIff(b: byte, p: byte)
    ensures Hits(b, p) <==> b == p || SameLetter(b, p) || SameLetter(p, b) || p == 63
  {
  }

  /** `pattern` stands in `data` at `at`, up to case and with wild cards. */
  ghost predicate Occurs(data: Bytes, at: int, pattern: Bytes) {
    0 <= at && at + |pattern| <= |data| && forall k | 0 <= k < |pattern| :: Hits(data[at + k], pattern[k])
  }

  /** The loop from `pos` on, `matchPos` octets being matched since `matchBegin`; two positions, the ends if nothing is found. */
  function Scan(data: Bytes, pattern: Bytes, pos: nat, matchBegin: nat, matchPos: nat): (nat, nat)
    requires pos <= |data| && (pos < |data| ==> matchPos < |pattern|)
    decreases |data| - pos
  {
    if pos == |data| then (|data|, |data|)
    else if Hits(data[pos], pattern[matchPos]) then
      if matchPos + 1 == |pattern| then (matchBegin, pos) else Scan(data, pattern, pos + 1, matchBegin, matchPos + 1)
    else Scan(data, pattern, pos + 1, pos, 0)
  }

  method FindFirstPattern(data: Bytes, pattern: Bytes) returns (first: nat, second: nat)
    requires data != [] ==> pattern != []
    ensures (first, second) == Scan(data, pattern, 0, 0, 0)
  {
    var matchPos, matchBegin, pos := 0, 0, 0;
    while pos != |data|
      invariant 0 <= pos <= |data| && 0 <= matchBegin && 0 <= matchPos && (pos < |data| ==> matchPos < |pattern|)
      invariant Scan(data, pattern, pos, matchBegin, matchPos) == Scan(data, pattern, 0, 0, 0)
      decreases |data| - pos
    {
      if Lower(data[pos]) == Lower(pattern[matchPos]) || pattern[matchPos] == QUESTION_MARK {
        matchPos := matchPos + 1;
        if matchPos == |pattern| {
          return matchBegin, pos;
        }
      } else {
        matchBegin, matchPos := pos, 0;
      }
      pos := pos + 1;
    }
    return |data|, |data|;
  }

  /** Where `first` ends up for a match that ends at `second`: at the match if that is at the very beginning, else one before it. */
  function FirstOf(pattern: Bytes, second: nat): int {
    if second + 1 == |pattern| then 0 else second - |pattern|
  }

  lemma {:induction false} ScanIsSound(data: Bytes, pattern: Bytes, pos: nat, matchBegin: nat, matchPos: nat)
    requires pos <= |data| && matchPos < |pattern| && matchPos <= pos
    requires forall k | 0 <= k < matchPos :: Hits(data[pos - matchPos + k], pattern[k])
    requires matchBegin == if pos == matchPos then 0 else pos - matchPos - 1
    ensures var (first, second) := Scan(data, pattern, pos, matchBegin, matchPos);
            if second == |data| then first == |data|
            else second < |data| && Occurs(data, second + 1 - |pattern|, pattern) && first == FirstOf(pattern, second)
    decreases |data| - pos
  {
    if pos < |data| {
      if !Hits(data[pos], pattern[matchPos]) {
        ScanIsSound(data, pattern, pos + 1, pos, 0);
      } else if matchPos + 1 < |pattern| {
        ScanIsSound(data, pattern, pos + 1, matchBegin, matchPos + 1);
      } else {
        assert forall k | 0 <= k < |pattern| :: Hits(data[pos + 1 - |pattern| + k], pattern[k]);
      }
    }
  }

  /**
   What the search returns: the ends, or a `second` at the last octet of an
   occurrence, with `first` one before it unless it is at the very beginning.
   Comparing the two tells whether something was found, except for a pattern of
   one octet that is met at once.
   */
  lemma FoundIsOccurrence(data: Bytes, pattern: Bytes)
    requires pattern != []
    ensures var (first, second) := Scan(data, pattern, 0, 0, 0);
            && (second != |data| ==> second < |data| && Occurs(data, second + 1 - |pattern|, pattern) && first == FirstOf(pattern, second))
            && (second == |data| ==> first == |data|)
            && (first == second <==> second == |data| || (|pattern| == 1 && second == 0))
  {
    ScanIsSound(data, pattern, 0, 0, 0);
  }

  /** What was found is found again when more follows. */
  lemma {:induction false} ScanIgnoresMore(data: Bytes, more: Bytes, pattern: Bytes, pos: nat, matchBegin: nat, matchPos: nat)
    requires pos <= |data| && matchPos < |pattern|
    requires Scan(data, pattern, pos, matchBegin, matchPos).1 < |data|
    ensures Scan(data + more, pattern, pos, matchBegin, matchPos) == Scan(data, pattern, pos, matchBegin, matchPos)
    decreases |data| - pos
  {
    if !Hits(data[pos], pattern[matchPos]) {
      ScanIgnoresMore(data, more, pattern, pos + 1, pos, 0);
    } else if matchPos + 1 < |pattern| {
      ScanIgnoresMore(data, more, pattern, pos + 1, matchBegin, matchPos + 1);
    }
  }

  // ------------------------------------------------- what is found, exactly

  /** `pattern` fits `data` at `at` for `k` octets, but not for the next one. */
  ghost predicate BreaksAfter(data: Bytes, pattern: Bytes, at: nat, k: nat) {
    && k < |pattern| && at + k < |data| && !Hits(data[at + k], pattern[k])
    && forall i | 0 <= i < k :: Hits(data[at + i], pattern[i])
  }

  /** The search tries to match at `at`: at the beginning, and right after each octet that broke an earlier try. */
  ghost predicate Tried(data: Bytes, pattern: Bytes, at: nat)
    decreases at
  {
    at == 0 || exists s: nat :: s < at && Tried(data, pattern, s) && BreaksAfter(data, pattern, s, at - 1 - s)
  }

  lemma BreaksOnce(data: Bytes, pattern: Bytes, at: nat, j: nat, k: nat)
    requires BreaksAfter(data, pattern, at, j) && BreaksAfter(data, pattern, at, k)
    ensures j == k
  {
  }

  /** The tries form a chain: a later one comes after the octet that broke this one. */
  lemma {:induction false} TriesChain(data: Bytes, pattern: Bytes, s: nat, at: nat) returns (k: nat)
    requires Tried(data, pattern, s) && Tried(data, pattern, at) && s < at
    ensures BreaksAfter(data, pattern, s, k) && s + k < at
    decreases s + at
  {
    var t: nat :| t < at && Tried(data, pattern, t) && BreaksAfter(data, pattern, t, at - 1 - t);
    k := at - 1 - t;
    if t == s {
    } else if s < t {
      k := TriesChain(data, pattern, s, t);
    } else {
      var j := TriesChain(data, pattern, t, s);
      BreaksOnce(data, pattern, t, j, k);
      assert false;
    }
  }

  /** A set of places in which every broken try leads to the next one, and no place lies in between. */
  ghost predicate AreTries(data: Bytes, pattern: Bytes, tries: iset<nat>) {
    && 0 in tries
    && (forall s: nat, k: nat | s in tries && BreaksAfter(data, pattern, s, k) :: s + k + 1 in tries)
    && (forall s: nat, at: nat {:trigger BreaksBefore(data, pattern, s, at)} | s in tries && at in tries && s < at ::
          BreaksBefore(data, pattern, s, at))
  }

  ghost predicate BreaksBefore(data: Bytes, pattern: Bytes, s: nat, at: nat) {
    exists k: nat :: BreaksAfter(data, pattern, s, k) && s + k < at
  }

  ghost function Tries(data: Bytes, pattern: Bytes): iset<nat> {
    iset at: nat | Tried(data, pattern, at)
  }

  lemma TriesAreTries(data: Bytes, pattern: Bytes)
    ensures AreTries(data, pattern, Tries(data, pattern))
  {
    var tries := Tries(data, pattern);
    forall s: nat, k: nat | s in tries && BreaksAfter(data, pattern, s, k) ensures s + k + 1 in tries {
      assert s + k + 1 - 1 - s == k;
    }
    forall s: nat, at: nat | s in tries && at in tries && s < at ensures BreaksBefore(data, pattern, s, at) {
      var k := TriesChain(data, pattern, s, at);
    }
  }

  /** Where the search stands: `matchPos` octets before `pos` fit, from a place that it tries. */
  ghost predicate Trying(data: Bytes, pattern: Bytes, tries: iset<nat>, pos: nat, matchPos: nat) {
    && matchPos <= pos <= |data| && matchPos < |pattern| && pos - matchPos in tries
    && forall k | 0 <= k < matchPos :: Hits(data[pos - matchPos + k], pattern[k])
  }

  lemma NextTry(data: Bytes, pattern: Bytes, tries: iset<nat>, pos: nat, matchPos: nat)
    requires AreTries(data, pattern, tries) && Trying(data, pattern, tries, pos, matchPos)
    requires pos < |data| && !Hits(data[pos], pattern[matchPos])
    ensures Trying(data, pattern, tries, pos + 1, 0)
    ensures forall at: nat | at in tries && at > pos - matchPos :: at > pos
  {
    var s: nat := pos - matchPos;
    assert BreaksAfter(data, pattern, s, matchPos);
    forall at: nat | at in tries && at > s ensures at > pos {
      assert BreaksBefore(data, pattern, s, at);
      var k: nat :| BreaksAfter(data, pattern, s, k) && s + k < at;
      BreaksOnce(data, pattern, s, k, matchPos);
    }
  }

  lemma {:induction false} FoundIsTried(data: Bytes, pattern: Bytes, tries: iset<nat>, pos: nat, matchBegin: nat, matchPos: nat)
    requires AreTries(data, pattern, tries) && Trying(data, pattern, tries, pos, matchPos)
    ensures var second := Scan(data, pattern, pos, matchBegin, matchPos).1;
            second < |data| ==> second + 1 >= |pattern| && second + 1 - |pattern| in tries
    decreases |data| - pos
  {
    if pos < |data| {
      if !Hits(data[pos], pattern[matchPos]) {
        NextTry(data, pattern, tries, pos, matchPos);
        FoundIsTried(data, pattern, tries, pos + 1, pos, 0);
      } else if matchPos + 1 < |pattern| {
        FoundIsTried(data, pattern, tries, pos + 1, matchBegin, matchPos + 1);
      }
    }
  }

  /** A try at which the pattern occurs cannot lie behind one that has run into the end of the data. */
  lemma NotAtTheEnd(data: Bytes, pattern: Bytes, tries: iset<nat>, pos: nat, matchPos: nat, at: nat)
    requires AreTries(data, pattern, tries) && Trying(data, pattern, tries, pos, matchPos)
    requires at in tries && at >= pos - matchPos && Occurs(data, at, pattern)
    ensures pos < |data|
  {
    var s: nat := pos - matchPos;
    if at > s {
      assert BreaksBefore(data, pattern, s, at);
      var k: nat :| BreaksAfter(data, pattern, s, k) && s + k < at;
      assert k >= matchPos;
    }
  }

  lemma {:induction false} TriedIsFound(data: Bytes, pattern: Bytes, tries: iset<nat>, pos: nat, matchBegin: nat, matchPos: nat,
                                        at: nat)
    requires AreTries(data, pattern, tries) && Trying(data, pattern, tries, pos, matchPos)
    requires at in tries && at >= pos - matchPos && Occurs(data, at, pattern)
    ensures Scan(data, pattern, pos, matchBegin, matchPos).1 < |data|
    decreases |data| - pos
  {
    NotAtTheEnd(data, pattern, tries, pos, matchPos, at);
    if !Hits(data[pos], pattern[matchPos]) {
      NextTry(data, pattern, tries, pos, matchPos);
      assert at != pos - matchPos;
      TriedIsFound(data, pattern, tries, pos + 1, pos, 0, at);
    } else if matchPos + 1 < |pattern| {
      TriedIsFound(data, pattern, tries, pos + 1, matchBegin, matchPos + 1, at);
    }
  }

  /**
   What the search finds, exactly: it succeeds if and only if the pattern occurs
   where it is tried, and then the occurrence it ends at is one of these.
   */
  lemma FoundIffTried(data: Bytes, pattern: Bytes)
    requires pattern != []
    ensures var second := Scan(data, pattern, 0, 0, 0).1;
            && (second < |data| <==> exists at: nat :: Tried(data, pattern, at) && Occurs(data, at, pattern))
            && (second < |data| ==> second + 1 >= |pattern| && Tried(data, pattern, second + 1 - |pattern|))
  {
    var second, tries := Scan(data, pattern, 0, 0, 0).1, Tries(data, pattern);
    TriesAreTries(data, pattern);
    FoundIsOccurrence(data, pattern);
    FoundIsTried(data, pattern, tries, 0, 0, 0);
    forall at: nat | Tried(data, pattern, at) && Occurs(data, at, pattern) ensures second < |data| {
      assert at in tries;
      TriedIsFound(data, pattern, tries, 0, 0, 0, at);
    }
  }

  // ------------------------------------------------------- the blank line

  /** How many octets of a blank line are matched after `n` octets; 4 once it was found. */
  function Matched(data: Bytes, n: nat): (m: nat)
    requires n <= |data|
    ensures m <= 4
  {
    if n == 0 then 0
    else
      var m := Matched(data, n - 1);
      if m == 4 then 4 else if data[n - 1] == BLANK_LINE[m] then m + 1 else 0
  }

  lemma BlankHits(b: byte, m: nat)
    requires m < 4
    ensures Hits(b, BLANK_LINE[m]) <==> b == BLANK_LINE[m]
  {
  }

  lemma {:induction false} StaysMatched(data: Bytes, n: nat, more: nat)
    requires n <= more <= |data| && Matched(data, n) == 4
    ensures Matched(data, more) == 4
    decreases more
  {
    if n < more {
      StaysMatched(data, n, more - 1);
    }
  }

  lemma {:induction false} ScanMatches(data: Bytes, pos: nat, matchBegin: nat)
    requires pos <= |data| && Matched(data, pos) < 4
    ensures Scan(data, BLANK_LINE, pos, matchBegin, Matched(data, pos)).1 < |data| <==> Matched(data, |data|) == 4
    decreases |data| - pos
  {
    if pos < |data| {
      var m := Matched(data, pos);
      BlankHits(data[pos], m);
      if Matched(data, pos + 1) == 4 {
        StaysMatched(data, pos + 1, |data|);
      } else {
        ScanMatches(data, pos + 1, if m + 1 == Matched(data, pos + 1) then matchBegin else pos);
      }
    }
  }

  /** The number of carriage returns right before `at`. */
  function Crs(data: Bytes, at: nat): nat
    requires at <= |data|
  {
    if at == 0 || data[at - 1] != CR then 0 else 1 + Crs(data, at - 1)
  }

  predicate Odd(n: nat) {
    n % 2 == 1
  }

  /** An odd number of octets is matched exactly after an odd run of carriage returns. */
  lemma {:induction false} ParityOfMatch(data: Bytes, n: nat)
    requires n <= |data| && Matched(data, n) < 4
    ensures Odd(Matched(data, n)) <==> Odd(Crs(data, n))
  {
    if n > 0 {
      ParityOfMatch(data, n - 1);
    }
  }

  lemma BlankOccurs(data: Bytes, at: nat)
    ensures Occurs(data, at, BLANK_LINE) <==>
            at + 4 <= |data| && data[at] == CR && data[at + 1] == LF && data[at + 2] == CR && data[at + 3] == LF
  {
    if at + 4 <= |data| {
      forall k | 0 <= k < 4 ensures Hits(data[at + k], BLANK_LINE[k]) <==> data[at + k] == BLANK_LINE[k] {
        BlankHits(data[at + k], k);
      }
      assert BLANK_LINE[0] == CR && BLANK_LINE[1] == LF && BLANK_LINE[2] == CR && BLANK_LINE[3] == LF;
      if Occurs(data, at, BLANK_LINE) {
        assert data[at + 0] == BLANK_LINE[0] && data[at + 1] == BLANK_LINE[1];
        assert data[at + 2] == BLANK_LINE[2] && data[at + 3] == BLANK_LINE[3];
      }
    }
  }

  /** The first blank line that is matched stands after an even run of carriage returns. */
  lemma {:induction false} MatchedIsEven(data: Bytes, n: nat) returns (at: nat)
    requires n <= |data| && Matched(data, n) == 4
    ensures Occurs(data, at, BLANK_LINE) && !Odd(Crs(data, at))
  {
    if Matched(data, n - 1) == 4 {
      at := MatchedIsEven(data, n - 1);
    } else {
      assert Matched(data, n - 1) == 3;
      assert Matched(data, n - 2) == 2;
      assert Matched(data, n - 3) == 1;
      assert Matched(data, n - 4) == 0;
      at := n - 4;
      BlankOccurs(data, at);
      ParityOfMatch(data, at);
    }
  }

  lemma EvenIsMatched(data: Bytes, at: nat)
    requires Occurs(data, at, BLANK_LINE) && !Odd(Crs(data, at))
    ensures Matched(data, at + 4) == 4
  {
    BlankOccurs(data, at);
    if Matched(data, at) < 4 {
      ParityOfMatch(data, at);
      if Matched(data, at) == 2 {
        assert Matched(data, at + 1) == 3 && Matched(data, at + 2) == 4;
        StaysMatched(data, at + 2, at + 4);
      } else {
        assert Matched(data, at + 1) == 1 && Matched(data, at + 2) == 2 && Matched(data, at + 3) == 3;
      }
    } else {
      StaysMatched(data, at, at + 4);
    }
  }

  // -------------------------------------------------------------- headers

  /** What the proxy does with the header so far; `initial` is what it hands to the remote side. */
  datatype Verdict = TooShort | NoBlankLine | Open(initial: Bytes, connect: bool)

  function Judge(header: Bytes): Verdict {
    if |header| < 4 then TooShort
    else
      var (first, second) := Scan(header, BLANK_LINE, 0, 0, 0);
      FoundIsOccurrence(header, BLANK_LINE);
      if first == second then NoBlankLine
      else
        var c := Scan(header, CONNECT, 0, 0, 0);
        if c.0 != c.1 then Open(header[second + 1..], true) else Open(header, false)
  }

  /** Where the initial bytes begin: at the start, or for CONNECT right after a blank line, the first one found. */
  ghost predicate InitialFrom(header: Bytes, from: nat) {
    && Judge(header).Open? && from <= |header| && Judge(header).initial == header[from..]
    && (if Judge(header).connect then from >= 4 && Occurs(header, from - 4, BLANK_LINE) else from == 0)
  }

  /**
   A header is only opened when it holds a blank line, and then all of it is handed
   over, or for CONNECT exactly what follows the first blank line found.
   */
  lemma HeaderIsHandedOver(header: Bytes) returns (end: nat, from: nat)
    requires Judge(header).Open?
    ensures 4 <= end <= |header| && Occurs(header, end - 4, BLANK_LINE)
    ensures InitialFrom(header, from) && from == if Judge(header).connect then end else 0
  {
    FoundIsOccurrence(header, BLANK_LINE);
    end := Scan(header, BLANK_LINE, 0, 0, 0).1 + 1;
    from := if Judge(header).connect then end else 0;
  }

  /** The search for CONNECT succeeds in these headers. */
  ghost predicate AsksToConnect(header: Bytes) {
    exists at: nat :: Tried(header, CONNECT, at) && Occurs(header, at, CONNECT)
  }

  /** Which requests are handled as CONNECT, exactly: those whose header has the word where the search tries it. */
  lemma ConnectIffAsked(header: Bytes)
    requires Judge(header).Open?
    ensures Judge(header).connect <==> AsksToConnect(header)
  {
    FoundIsOccurrence(header, CONNECT);
    FoundIffTried(header, CONNECT);
  }

  /** A header that was opened once would be opened again with more bytes after it. */
  lemma OpensAgain(header: Bytes, more: Bytes)
    requires Judge(header).Open?
    ensures Judge(header + more).Open?
  {
    FoundIsOccurrence(header, BLANK_LINE);
    FoundIsOccurrence(header + more, BLANK_LINE);
    ScanIgnoresMore(header, more, BLANK_LINE, 0, 0, 0);
  }

  /**
   Which headers are opened, exactly: those with a blank line that stands after an
   even number of carriage returns, none in particular. The others are refused, but
   for those that are shorter than a blank line.
   */
  lemma OpenIffEvenBlankLine(header: Bytes)
    ensures Judge(header).Open? <==> exists at: nat :: Occurs(header, at, BLANK_LINE) && !Odd(Crs(header, at))
    ensures Judge(header).TooShort? <==> |header| < 4
  {
    FoundIsOccurrence(header, BLANK_LINE);
    ScanMatches(header, 0, 0);
    if Matched(header, |header|) == 4 {
      var at := MatchedIsEven(header, |header|);
      assert Occurs(header, at, BLANK_LINE) && !Odd(Crs(header, at));
    }
    forall at: nat | Occurs(header, at, BLANK_LINE) && !Odd(Crs(header, at)) ensures Matched(header, |header|) == 4 {
      EvenIsMatched(header, at);
      StaysMatched(header, at + 4, |header|);
    }
  }

  /** An input whose one blank line, after a single carriage return, is missed. */
  lemma OccurrenceIsMissed()
    ensures var header: Bytes := [CR, CR, LF, CR, LF];
            Occurs(header, 1, BLANK_LINE) && Judge(header) == NoBlankLine
  {
    var header: Bytes := [CR, CR, LF, CR, LF];
    OpenIffEvenBlankLine(header);
    forall at: nat | Occurs(header, at, BLANK_LINE) ensures Odd(Crs(header, at)) {
      assert at <= 1;
      BlankOccurs(header, at);
      assert Crs(header, 0) == 0 && Crs(header, 1) == 1;
    }
    BlankOccurs(header, 1);
  }
}
