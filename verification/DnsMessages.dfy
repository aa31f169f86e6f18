/**
 DNS messages: the query that `resolve` builds and the walk of `decode` over a
 response.
 */
module DnsMessages {
  import opened Basics
  import opened DnsWords
  import opened DnsNames
  import DnsFlags

  const HEADER_SIZE: nat := 12
  const INTERNET: uint16 := 1
  const TYPE_A: uint16 := 1
  const TYPE_AAAA: uint16 := 28

  /** `Qanswer`; `ttl` is in seconds, and unset when there was no record. */
  datatype Qanswer = Qanswer(valid: bool, reqNo: uint16, name: Bytes, addr: seq<Words>, ttl: Option<uint32>)

  // ------------------------------------------------------------- resolve

  /** Words in network order. */
  function Encoded(words: seq<uint16>): (s: Bytes)
    ensures |s| == 2 * |words|
  {
    if words == [] then [] else WordBytes(words[0]) + Encoded(words[1..])
  }

  function HeaderWords(id: uint16, flags: uint16, qd: uint16, an: uint16, ns: uint16, ar: uint16): seq<uint16> {
    [id, flags, qd, an, ns, ar]
  }

  function Query(reqNo: uint16, name: Bytes, qType: uint16): Bytes
    requires |name| < NPOS
  {
    Encoded(HeaderWords(reqNo, DnsFlags.RECURSION_DESIRED as int, 1, 0, 0, 0)) + (EncodedName(name) + Encoded([qType, INTERNET]))
  }

  method PushWords(words: seq<uint16>, query: Bytes) returns (stream: Bytes)
    ensures stream == query + Encoded(words)
  {
    stream := query;
    for i := 0 to |words|
      invariant stream + Encoded(words[i..]) == query + Encoded(words)
    {
      Associate(stream, WordBytes(words[i]), Encoded(words[i + 1..]));
      stream := stream + WordBytes(words[i]);
    }
    assert stream + [] == stream;
  }

  method Resolve(reqNo: uint16, name: Bytes, qType: uint16) returns (query: Bytes)
    requires |name| < NPOS
    ensures query == Query(reqNo, name, qType)
  {
    var reqFlags := DnsFlags.QueryFlags();
    var header := HeaderWords(reqNo, reqFlags as int, 1, 0, 0, 0);
    query := PushWords(header, []);
    assert [] + Encoded(header) == Encoded(header);
    query := EncodeName(name, query);
    query := PushWords([qType, INTERNET], query);
    Associate(Encoded(header), EncodedName(name), Encoded([qType, INTERNET]));
  }

  // -------------------------------------------------------------- decode

  /** The counts and the number of a header; all zero when the message is too short. */
  datatype Header = Header(id: uint16, flags: uint16, qdcount: uint16, ancount: uint16, nscount: uint16, arcount: uint16)

  function WordAt(data: Bytes, pos: nat): uint16
    requires pos + 2 <= |data|
  {
    Word(data[pos], data[pos + 1])
  }

  function DecodedHeader(data: Bytes): Header {
    if |data| >= HEADER_SIZE then
      Header(WordAt(data, 0), WordAt(data, 2), WordAt(data, 4), WordAt(data, 6), WordAt(data, 8), WordAt(data, 10))
    else Header(0, 0, 0, 0, 0, 0)
  }

  /** After a question, or None where the walk steps past the end of the message. */
  function PastQuestion(data: Bytes, curPos: nat): (r: Option<NameRead>)
    ensures r.Some? ==> r.value.curPos <= |data|
  {
    var n := DecodedName(data, curPos);
    if n.None? || n.value.curPos + 4 > |data| then None
    else Some(NameRead(n.value.name, n.value.curPos + 4))
  }

  type NameReader = nat -> Option<NameRead>

  function QuestionReader(data: Bytes): NameReader {
    (curPos: nat) => PastQuestion(data, curPos)
  }

  /** The question loop over `count` questions, `step` reading one. */
  function PastQuestions(step: NameReader, curPos: nat, count: nat, name: Bytes): Option<NameRead>
    decreases count
  {
    if count == 0 then Some(NameRead(name, curPos))
    else
      var q := step(curPos);
      if q.None? then None else PastQuestions(step, q.value.curPos, count - 1, q.value.name)
  }

  /** What one record yields; the cursor may end past the message. */
  datatype RecordRead = RecordRead(addr: seq<Words>, ttl: uint32, curPos: nat)

  function PastRecord(data: Bytes, curPos: nat): Option<RecordRead> {
    var n := DecodedName(data, curPos);
    if n.None? || n.value.curPos + 10 > |data| then None
    else
      var p := n.value.curPos;
      var qtype, qclass, rdlength := WordAt(data, p), WordAt(data, p + 2), WordAt(data, p + 8);
      var ttl := DoubleWord(data[p + 4], data[p + 5], data[p + 6], data[p + 7]);
      if qclass == INTERNET && rdlength == 4 && qtype == TYPE_A then
        if p + 14 > |data| then None
        else Some(RecordRead([FromIpV4(data[p + 10..p + 14])], ttl, p + 10 + 4 + rdlength))
      else if qclass == INTERNET && rdlength == 16 && qtype == TYPE_AAAA then
        if p + 26 > |data| then None
        else Some(RecordRead([FromNetOrder(data[p + 10..p + 26])], ttl, p + 10 + 16 + rdlength))
      else Some(RecordRead([], ttl, p + 10 + rdlength))
  }

  datatype RecordsRead = RecordsRead(addr: seq<Words>, ttl: Option<uint32>, curPos: nat)

  type Reader = nat -> Option<RecordRead>

  function RecordReader(data: Bytes): Reader {
    (curPos: nat) => PastRecord(data, curPos)
  }

  /** The answer loop over `count` records, `step` reading one. */
  function PastRecords(step: Reader, curPos: nat, count: nat): Option<RecordsRead>
    decreases count
  {
    if count == 0 then Some(RecordsRead([], None, curPos))
    else
      var first := step(curPos);
      if first.None? then None
      else Gathered(first.value.addr, Some(first.value.ttl), PastRecords(step, first.value.curPos, count - 1))
  }

  /** The result of a walk that already found some addresses. */
  function Gathered(addr: seq<Words>, ttl: Option<uint32>, r: Option<RecordsRead>): Option<RecordsRead> {
    if r.None? then None
    else Some(RecordsRead(addr + r.value.addr, if r.value.ttl.Some? then r.value.ttl else ttl, r.value.curPos))
  }

  datatype Decoding = Decoding(answer: Qanswer, curPos: nat)

  function Decoded(data: Bytes): Option<Decoding> {
    var h := DecodedHeader(data);
    var q := PastQuestions(QuestionReader(data), HEADER_SIZE, h.qdcount, []);
    if q.None? then None
    else
      var a := PastRecords(RecordReader(data), q.value.curPos, h.ancount);
      if a.None? then None
      else Some(Decoding(Qanswer(a.value.addr != [], h.id, q.value.name, a.value.addr, a.value.ttl), a.value.curPos))
  }

  method DecodeHeader(data: Bytes) returns (header: Header)
    ensures header == DecodedHeader(data)
  {
    var d: seq<uint16> := [0, 0, 0, 0, 0, 0];
    if |data| >= HEADER_SIZE {
      for i := 0 to 6
        invariant |d| == 6
        invariant forall j | 0 <= j < i :: d[j] == WordAt(data, j * 2)
      {
        d := d[i := Word(data[i * 2], data[i * 2 + 1])];
      }
      assert d[0] == WordAt(data, 0 * 2) && d[1] == WordAt(data, 1 * 2) && d[2] == WordAt(data, 2 * 2);
      assert d[3] == WordAt(data, 3 * 2) && d[4] == WordAt(data, 4 * 2) && d[5] == WordAt(data, 5 * 2);
    }
    header := Header(d[0], d[1], d[2], d[3], d[4], d[5]);
  }

  /** None where the program would read past the end of the message. */
  method Decode(data: Bytes) returns (reply: Option<Qanswer>)
    ensures reply == if Decoded(data).None? then None else Some(Decoded(data).value.answer)
  {
    var header := DecodeHeader(data);
    var q := ReadQuestions(data, header.qdcount);
    if q.None? {
      return None;
    }
    var a := ReadRecords(data, q.value.curPos, header.ancount, RecordReader(data));
    if a.None? {
      return None;
    }
    reply := Some(Qanswer(a.value.addr != [], header.id, q.value.name, a.value.addr, a.value.ttl));
  }

  method ReadQuestions(data: Bytes, count: nat) returns (r: Option<NameRead>)
    ensures r == PastQuestions(QuestionReader(data), HEADER_SIZE, count, [])
  {
    var curPos: nat, name: Bytes := HEADER_SIZE, [];
    ghost var step := QuestionReader(data);
    for i := 0 to count
      invariant PastQuestions(step, HEADER_SIZE, count, []) == PastQuestions(step, curPos, count - i, name)
    {
      var n := DecodeName(data, curPos);
      if n.None? || n.value.curPos + 4 > |data| {
        return None;
      }
      name, curPos := n.value.name, n.value.curPos + 4;
    }
    r := Some(NameRead(name, curPos));
  }

  /** `step` reads the records of `data`. */
  ghost predicate Reads(step: Reader, data: Bytes) {
    forall p: nat {:trigger PastRecord(data, p)} :: step(p) == PastRecord(data, p)
  }

  method ReadRecords(data: Bytes, start: nat, count: nat, ghost step: Reader) returns (r: Option<RecordsRead>)
    requires Reads(step, data)
    ensures r == PastRecords(step, start, count)
  {
    var curPos: nat, addr: seq<Words>, ttl: Option<uint32> := start, [], None;
    GatheredNothing(PastRecords(step, start, count));
    for i := 0 to count
      invariant PastRecords(step, start, count) == Gathered(addr, ttl, PastRecords(step, curPos, count - i))
    {
      var first := ReadRecord(data, curPos, step);
      if first.None? {
        return None;
      }
      RecordsStep(step, curPos, count - i, first.value, addr, ttl);
      addr, ttl, curPos := addr + first.value.addr, Some(first.value.ttl), first.value.curPos;
    }
    assert addr + [] == addr;
    r := Some(RecordsRead(addr, ttl, curPos));
  }

  /** The body of the answer loop: the name, the fixed fields and, for an Internet address, its octets. */
  method ReadRecord(data: Bytes, start: nat, ghost step: Reader) returns (r: Option<RecordRead>)
    requires Reads(step, data)
    ensures r == step(start)
  {
    assert step(start) == PastRecord(data, start);
    var n := DecodeName(data, start);
    if n.None? || n.value.curPos + 10 > |data| {
      return None;
    }
    var curPos := n.value.curPos;
    var qtype, qclass := WordAt(data, curPos), WordAt(data, curPos + 2);
    var ttl := DoubleWord(data[curPos + 4], data[curPos + 5], data[curPos + 6], data[curPos + 7]);
    var rdlength := WordAt(data, curPos + 8);
    curPos := curPos + 10;
    var addr: seq<Words> := [];
    if qclass == INTERNET {
      if rdlength == 4 && qtype == TYPE_A {
        if curPos + 4 > |data| {
          return None;
        }
        addr := [FromIpV4(data[curPos..curPos + 4])];
        curPos := curPos + 4;
      } else if rdlength == 16 && qtype == TYPE_AAAA {
        if curPos + 16 > |data| {
          return None;
        }
        addr := [FromNetOrder(data[curPos..curPos + 16])];
        curPos := curPos + 16;
      }
    }
    curPos := curPos + rdlength;
    r := Some(RecordRead(addr, ttl, curPos));
  }

  lemma GatheredNothing(r: Option<RecordsRead>)
    ensures Gathered([], None, r) == r
  {
    if r.Some? {
      assert [] + r.value.addr == r.value.addr;
    }
  }

  lemma RecordsStep(step: Reader, curPos: nat, count: nat, first: RecordRead, addr: seq<Words>, ttl: Option<uint32>)
    requires count > 0 && step(curPos) == Some(first)
    ensures Gathered(addr, ttl, PastRecords(step, curPos, count))
         == Gathered(addr + first.addr, Some(first.ttl), PastRecords(step, first.curPos, count - 1))
  {
    GatheredStep(addr, ttl, first.addr, first.ttl, PastRecords(step, first.curPos, count - 1));
  }

  lemma GatheredStep(addr: seq<Words>, ttl: Option<uint32>, more: seq<Words>, next: uint32, r: Option<RecordsRead>)
    ensures Gathered(addr, ttl, Gathered(more, Some(next), r)) == Gathered(addr + more, Some(next), r)
  {
    if r.Some? {
      assert addr + (more + r.value.addr) == addr + more + r.value.addr;
    }
  }

  // ------------------------------------------------- well-formed messages

  datatype Question = Question(name: WireName, qtype: uint16, qclass: uint16)

  datatype Record = Record(name: WireName, rtype: uint16, rclass: uint16, ttl: uint32, rdata: Bytes)

  predicate LegalQuestions(qs: seq<Question>) {
    forall i | 0 <= i < |qs| :: LegalWire(qs[i].name) && Readable(qs[i].name)
  }

  predicate LegalRecords(rs: seq<Record>) {
    forall i | 0 <= i < |rs| :: LegalWire(rs[i].name) && Readable(rs[i].name) && |rs[i].rdata| < 0x1_0000
  }

  /** An Internet A or AAAA record of the right length. */
  predicate IsAddress(r: Record) {
    r.rclass == INTERNET && ((r.rtype == TYPE_A && |r.rdata| == 4) || (r.rtype == TYPE_AAAA && |r.rdata| == 16))
  }

  function AddressOf(r: Record): Words
    requires IsAddress(r)
  {
    if r.rtype == TYPE_A then FromIpV4(r.rdata) else FromNetOrder(r.rdata)
  }

  /** A question as in section 4.1.2 of RFC 1035. */
  function QuestionBytes(q: Question): Bytes
    requires LegalWire(q.name)
  {
    WireBytes(q.name) + Encoded([q.qtype, q.qclass])
  }

  function QuestionsBytes(qs: seq<Question>): Bytes
    requires LegalQuestions(qs)
  {
    if qs == [] then [] else QuestionBytes(qs[0]) + QuestionsBytes(qs[1..])
  }

  /** The fields between the name and the data of a record (section 4.1.3 of RFC 1035). */
  function FixedFields(r: Record): seq<uint16>
    requires |r.rdata| < 0x1_0000
  {
    [r.rtype, r.rclass, r.ttl / 0x1_0000, r.ttl % 0x1_0000, |r.rdata|]
  }

  function RecordBytes(r: Record): Bytes
    requires LegalWire(r.name) && |r.rdata| < 0x1_0000
  {
    WireBytes(r.name) + (Encoded(FixedFields(r)) + r.rdata)
  }

  function RecordsBytes(rs: seq<Record>): Bytes
    requires LegalRecords(rs)
  {
    if rs == [] then [] else RecordBytes(rs[0]) + RecordsBytes(rs[1..])
  }

  /** A message with its questions and answers, followed by other sections. */
  datatype Message = Message(id: uint16, flags: uint16, questions: seq<Question>, answers: seq<Record>,
                             nscount: uint16, arcount: uint16, others: Bytes)

  predicate LegalMessage(m: Message) {
    LegalQuestions(m.questions) && LegalRecords(m.answers) && |m.questions| < 0x1_0000 && |m.answers| < 0x1_0000
  }

  function MessageHeader(m: Message): seq<uint16>
    requires LegalMessage(m)
  {
    HeaderWords(m.id, m.flags, |m.questions|, |m.answers|, m.nscount, m.arcount)
  }

  function MessageBytes(m: Message): Bytes
    requires LegalMessage(m)
  {
    Encoded(MessageHeader(m)) + (QuestionsBytes(m.questions) + (RecordsBytes(m.answers) + m.others))
  }

  /** Where the k-th answer begins. */
  function AnswerOffset(m: Message, k: nat): nat
    requires LegalMessage(m) && k <= |m.answers|
  {
    HEADER_SIZE + |QuestionsBytes(m.questions)| + |RecordsBytes(m.answers[..k])|
  }

  lemma {:induction false} WordsAt(data: Bytes, pos: nat, words: seq<uint16>)
    requires IsAt(data, pos, Encoded(words))
    ensures forall i | 0 <= i < |words| :: pos + 2 * i + 2 <= |data| && WordAt(data, pos + 2 * i) == words[i]
    decreases |words|
  {
    if words != [] {
      IsAtSplits(data, pos, WordBytes(words[0]), Encoded(words[1..]));
      WordsAt(data, pos + 2, words[1..]);
      assert data[pos + 0] == WordBytes(words[0])[0] && data[pos + 1] == WordBytes(words[0])[1];
      forall i | 0 <= i < |words| ensures pos + 2 * i + 2 <= |data| && WordAt(data, pos + 2 * i) == words[i] {
        if i > 0 {
          assert WordAt(data, pos + 2 + 2 * (i - 1)) == words[1..][i - 1];
        }
      }
    }
  }

  lemma QuestionIsPassed(data: Bytes, pos: nat, q: Question)
    requires LegalWire(q.name) && Readable(q.name) && IsAt(data, pos, QuestionBytes(q))
    ensures PastQuestion(data, pos) == Some(NameRead(Text(q.name), pos + |QuestionBytes(q)|))
  {
    IsAtSplits(data, pos, WireBytes(q.name), Encoded([q.qtype, q.qclass]));
    ReadableIsRead(data, pos, q.name);
  }

  /** The text of the last question, or `name` if there is none. */
  function LastText(qs: seq<Question>, name: Bytes): (last: Bytes)
    ensures qs != [] ==> last == Text(qs[|qs| - 1].name)
  {
    if qs == [] then name else LastText(qs[1..], Text(qs[0].name))
  }

  /** `step` passes the questions one by one from `pos` on. */
  ghost predicate Passes(step: NameReader, pos: nat, qs: seq<Question>)
    requires LegalQuestions(qs)
    decreases |qs|
  {
    qs != [] ==>
      var next := pos + |QuestionBytes(qs[0])|;
      step(pos) == Some(NameRead(Text(qs[0].name), next)) && Passes(step, next, qs[1..])
  }

  lemma {:induction false} QuestionsPass(data: Bytes, pos: nat, qs: seq<Question>)
    requires LegalQuestions(qs) && IsAt(data, pos, QuestionsBytes(qs))
    ensures Passes(QuestionReader(data), pos, qs)
    decreases |qs|
  {
    if qs != [] {
      IsAtSplits(data, pos, QuestionBytes(qs[0]), QuestionsBytes(qs[1..]));
      QuestionIsPassed(data, pos, qs[0]);
      QuestionsPass(data, pos + |QuestionBytes(qs[0])|, qs[1..]);
    }
  }

  lemma {:induction false} QuestionsArePassed(step: NameReader, pos: nat, qs: seq<Question>, name: Bytes)
    requires LegalQuestions(qs) && Passes(step, pos, qs)
    ensures PastQuestions(step, pos, |qs|, name) == Some(NameRead(LastText(qs, name), pos + |QuestionsBytes(qs)|))
    decreases |qs|
  {
    if qs != [] {
      var next, text := pos + |QuestionBytes(qs[0])|, Text(qs[0].name);
      assert PastQuestions(step, pos, |qs|, name) == PastQuestions(step, next, |qs| - 1, text);
      QuestionsArePassed(step, next, qs[1..], text);
      assert |QuestionsBytes(qs)| == |QuestionBytes(qs[0])| + |QuestionsBytes(qs[1..])|;
    }
  }

  lemma FieldsAt(data: Bytes, p: nat, r: Record)
    requires |r.rdata| < 0x1_0000 && IsAt(data, p, Encoded(FixedFields(r)) + r.rdata)
    ensures p + 10 + |r.rdata| <= |data|
    ensures WordAt(data, p) == r.rtype && WordAt(data, p + 2) == r.rclass && WordAt(data, p + 8) == |r.rdata|
    ensures DoubleWord(data[p + 4], data[p + 5], data[p + 6], data[p + 7]) == r.ttl
    ensures data[p + 10..p + 10 + |r.rdata|] == r.rdata
  {
    var w := FixedFields(r);
    IsAtSplits(data, p, Encoded(w), r.rdata);
    FiveWords(data, p, w);
    TwoWords(data[p + 4], data[p + 5], data[p + 6], data[p + 7], r.ttl);
  }

  lemma FiveWords(data: Bytes, p: nat, w: seq<uint16>)
    requires |w| == 5 && IsAt(data, p, Encoded(w))
    ensures p + 10 <= |data|
    ensures WordAt(data, p) == w[0] && WordAt(data, p + 2) == w[1] && WordAt(data, p + 4) == w[2]
    ensures WordAt(data, p + 6) == w[3] && WordAt(data, p + 8) == w[4]
  {
    WordsAt(data, p, w);
    assert WordAt(data, p + 2 * 0) == w[0] && WordAt(data, p + 2 * 1) == w[1] && WordAt(data, p + 2 * 2) == w[2];
    assert WordAt(data, p + 2 * 3) == w[3] && WordAt(data, p + 2 * 4) == w[4];
  }

  lemma TwoWords(d0: byte, d1: byte, d2: byte, d3: byte, d: uint32)
    requires Word(d0, d1) == d / 0x1_0000 && Word(d2, d3) == d % 0x1_0000
    ensures DoubleWord(d0, d1, d2, d3) == d
  {
  }

  /** What is read of a record that ends at `end`. */
  function RecordOf(r: Record, end: nat): RecordRead {
    RecordRead(if IsAddress(r) then [AddressOf(r)] else [], r.ttl, end + if IsAddress(r) then |r.rdata| else 0)
  }

  /** One record at its true offset: an address is returned, but the cursor then passes its data twice. */
  lemma RecordIsPassed(data: Bytes, pos: nat, r: Record)
    requires LegalWire(r.name) && Readable(r.name) && |r.rdata| < 0x1_0000 && IsAt(data, pos, RecordBytes(r))
    ensures PastRecord(data, pos)
         == Some(RecordOf(r, pos + |RecordBytes(r)|))
  {
    var p := pos + |WireBytes(r.name)|;
    IsAtSplits(data, pos, WireBytes(r.name), Encoded(FixedFields(r)) + r.rdata);
    FieldsAt(data, p, r);
    ReadableIsRead(data, pos, r.name);
    assert |RecordBytes(r)| == |WireBytes(r.name)| + 10 + |r.rdata|;
    FieldsDecide(data, pos, p, r);
  }

  lemma FieldsDecide(data: Bytes, pos: nat, p: nat, r: Record)
    requires DecodedName(data, pos).Some? && DecodedName(data, pos).value.curPos == p
    requires p + 10 + |r.rdata| <= |data| && |r.rdata| < 0x1_0000
    requires WordAt(data, p) == r.rtype && WordAt(data, p + 2) == r.rclass && WordAt(data, p + 8) == |r.rdata|
    requires DoubleWord(data[p + 4], data[p + 5], data[p + 6], data[p + 7]) == r.ttl
    requires data[p + 10..p + 10 + |r.rdata|] == r.rdata
    ensures PastRecord(data, pos)
         == Some(RecordOf(r, p + 10 + |r.rdata|))
  {
  }

  lemma {:induction false} RecordsAppend(a: seq<Record>, b: seq<Record>)
    requires LegalRecords(a) && LegalRecords(b)
    ensures LegalRecords(a + b) && RecordsBytes(a + b) == RecordsBytes(a) + RecordsBytes(b)
  {
    if a == [] {
      assert a + b == b;
    } else {
      RecordsAppend(a[1..], b);
      assert (a + b)[1..] == a[1..] + b;
      Associate(RecordBytes(a[0]), RecordsBytes(a[1..]), RecordsBytes(b));
    }
  }

  lemma HeaderPart(m: Message)
    requires LegalMessage(m)
    ensures DecodedHeader(MessageBytes(m)) == MessageHead(m)
  {
    var data, h := MessageBytes(m), MessageHeader(m);
    IsAtSplits(data, 0, Encoded(h), QuestionsBytes(m.questions) + (RecordsBytes(m.answers) + m.others));
    WordsAt(data, 0, h);
    assert WordAt(data, 0 + 2 * 0) == h[0] && WordAt(data, 0 + 2 * 1) == h[1] && WordAt(data, 0 + 2 * 2) == h[2];
    assert WordAt(data, 0 + 2 * 3) == h[3] && WordAt(data, 0 + 2 * 4) == h[4] && WordAt(data, 0 + 2 * 5) == h[5];
  }

  lemma BodyParts(m: Message)
    requires LegalMessage(m)
    ensures IsAt(MessageBytes(m), HEADER_SIZE, QuestionsBytes(m.questions))
    ensures IsAt(MessageBytes(m), AnswerOffset(m, 0), RecordsBytes(m.answers))
  {
    var data, answers := MessageBytes(m), RecordsBytes(m.answers) + m.others;
    IsAtSplits(data, 0, Encoded(MessageHeader(m)), QuestionsBytes(m.questions) + answers);
    IsAtSplits(data, HEADER_SIZE, QuestionsBytes(m.questions), answers);
    IsAtSplits(data, AnswerOffset(m, 0), RecordsBytes(m.answers), m.others);
  }

  /** Each answer stands at its offset, right before the next one's. */
  lemma AnswerAt(m: Message, k: nat)
    requires LegalMessage(m) && k < |m.answers|
    ensures IsAt(MessageBytes(m), AnswerOffset(m, 0), RecordsBytes(m.answers[..k]))
    ensures IsAt(MessageBytes(m), AnswerOffset(m, k), RecordBytes(m.answers[k]))
    ensures AnswerOffset(m, k + 1) == AnswerOffset(m, k) + |RecordBytes(m.answers[k])|
  {
    var data, r := MessageBytes(m), m.answers[k];
    var before, after := m.answers[..k], m.answers[k + 1..];
    BodyParts(m);
    assert before + ([r] + after) == m.answers;
    RecordsAppend(before, [r] + after);
    IsAtSplits(data, AnswerOffset(m, 0), RecordsBytes(before), RecordsBytes([r] + after));
    assert ([r] + after)[1..] == after;
    IsAtSplits(data, AnswerOffset(m, k), RecordBytes(r), RecordsBytes(after));
    OffsetGrows(m, k);
  }

  lemma OffsetGrows(m: Message, k: nat)
    requires LegalMessage(m) && k < |m.answers|
    ensures AnswerOffset(m, k + 1) == AnswerOffset(m, k) + |RecordBytes(m.answers[k])|
  {
    assert m.answers[..k + 1] == m.answers[..k] + [m.answers[k]];
    RecordsAppend(m.answers[..k], [m.answers[k]]);
    assert RecordsBytes([m.answers[k]]) == RecordBytes(m.answers[k]) + [];
  }

  /** What the walk makes of the k-th answer when it starts at its true offset. */
  function AnswerRead(m: Message, k: nat): RecordRead
    requires LegalMessage(m) && k < |m.answers|
  {
    RecordOf(m.answers[k], AnswerOffset(m, k + 1))
  }

  lemma AnswerIsRead(m: Message, k: nat)
    requires LegalMessage(m) && k < |m.answers|
    ensures PastRecord(MessageBytes(m), AnswerOffset(m, k)) == Some(AnswerRead(m, k))
  {
    AnswerAt(m, k);
    RecordIsPassed(MessageBytes(m), AnswerOffset(m, k), m.answers[k]);
  }

  function MessageHead(m: Message): Header
    requires LegalMessage(m)
  {
    Header(m.id, m.flags, |m.questions|, |m.answers|, m.nscount, m.arcount)
  }

  /** The text of the last question, if any, and where the answers begin. */
  function LastQuestion(m: Message): NameRead
    requires LegalMessage(m)
  {
    NameRead(LastText(m.questions, []), AnswerOffset(m, 0))
  }

  lemma FirstOffset(m: Message)
    requires LegalMessage(m)
    ensures AnswerOffset(m, 0) == HEADER_SIZE + |QuestionsBytes(m.questions)|
  {
    assert m.answers[..0] == [];
  }

  lemma QuestionsPart(m: Message)
    requires LegalMessage(m)
    ensures PastQuestions(QuestionReader(MessageBytes(m)), HEADER_SIZE, |m.questions|, []) == Some(LastQuestion(m))
  {
    BodyParts(m);
    FirstOffset(m);
    QuestionsPass(MessageBytes(m), HEADER_SIZE, m.questions);
    QuestionsArePassed(QuestionReader(MessageBytes(m)), HEADER_SIZE, m.questions, []);
  }

  lemma DecodedParts(data: Bytes, h: Header, q: NameRead, a: RecordsRead)
    requires DecodedHeader(data) == h && PastQuestions(QuestionReader(data), HEADER_SIZE, h.qdcount, []) == Some(q)
    requires PastRecords(RecordReader(data), q.curPos, h.ancount) == Some(a)
    ensures Decoded(data) == Some(Decoding(Qanswer(a.addr != [], h.id, q.name, a.addr, a.ttl), a.curPos))
  {
  }

  // ------------------------------------------------------ the answer walk

  /** Where the walk stands before the k-th record, if it gets there. */
  function CursorAt(step: Reader, pos: nat, k: nat): Option<nat>
    decreases k
  {
    if k == 0 then Some(pos)
    else
      var r := step(pos);
      if r.None? then None else CursorAt(step, r.value.curPos, k - 1)
  }

  function AllAddresses(steps: seq<RecordRead>): seq<Words> {
    if steps == [] then [] else steps[0].addr + AllAddresses(steps[1..])
  }

  /** `step` steps the k-th record when it starts at the k-th offset. */
  ghost predicate ReadsAt(step: Reader, offsets: seq<nat>, steps: seq<RecordRead>) {
    |offsets| == |steps| && forall k | 0 <= k < |steps| :: step(offsets[k]) == Some(steps[k])
  }

  /** Every record but the last leaves the cursor at the next offset. */
  ghost predicate Chained(offsets: seq<nat>, steps: seq<RecordRead>)
    requires |offsets| == |steps|
  {
    forall k | 0 <= k < |steps| - 1 :: steps[k].curPos == offsets[k + 1]
  }

  lemma {:induction false} ChainedWalk(step: Reader, offsets: seq<nat>, steps: seq<RecordRead>)
    requires ReadsAt(step, offsets, steps) && steps != [] && Chained(offsets, steps)
    ensures var r := PastRecords(step, offsets[0], |steps|);
            var last := steps[|steps| - 1];
            r.Some? && r.value.addr == AllAddresses(steps) && r.value.ttl == Some(last.ttl) && r.value.curPos == last.curPos
    decreases |steps|
  {
    if |steps| == 1 {
      assert PastRecords(step, steps[0].curPos, 0) == Some(RecordsRead([], None, steps[0].curPos));
      assert steps[1..] == [];
    } else {
      ChainedWalk(step, offsets[1..], steps[1..]);
    }
  }

  lemma {:induction false} CursorStep(step: Reader, pos: nat, k: nat, c: nat, r: RecordRead)
    requires CursorAt(step, pos, k) == Some(c) && step(c) == Some(r)
    ensures CursorAt(step, pos, k + 1) == Some(r.curPos)
    decreases k
  {
    if k > 0 {
      CursorStep(step, step(pos).value.curPos, k - 1, c, r);
    }
  }

  lemma {:induction false} ChainedCursor(step: Reader, offsets: seq<nat>, steps: seq<RecordRead>, k: nat)
    requires ReadsAt(step, offsets, steps) && Chained(offsets, steps) && k < |steps|
    ensures CursorAt(step, offsets[0], k) == Some(offsets[k])
    decreases k
  {
    if k > 0 {
      ChainedCursor(step, offsets, steps, k - 1);
      CursorStep(step, offsets[0], k - 1, offsets[k - 1], steps[k - 1]);
    }
  }

  ghost predicate AllAt(step: Reader, offsets: seq<nat>)
    requires offsets != []
  {
    forall k | 0 <= k < |offsets| :: CursorAt(step, offsets[0], k) == Some(offsets[k])
  }

  lemma AllAtIffChained(step: Reader, offsets: seq<nat>, steps: seq<RecordRead>)
    requires ReadsAt(step, offsets, steps) && steps != []
    ensures AllAt(step, offsets) <==> Chained(offsets, steps)
  {
    if Chained(offsets, steps) {
      forall k | 0 <= k < |offsets| ensures CursorAt(step, offsets[0], k) == Some(offsets[k]) {
        ChainedCursor(step, offsets, steps, k);
      }
    } else if AllAt(step, offsets) {
      var k :| 0 <= k < |steps| - 1 && steps[k].curPos != offsets[k + 1];
      CursorStep(step, offsets[0], k, offsets[k], steps[k]);
      assert false;
    }
  }

  function TrueOffsets(m: Message): seq<nat>
    requires LegalMessage(m)
  {
    seq(|m.answers|, k requires 0 <= k < |m.answers| => AnswerOffset(m, k))
  }

  function AnswerReads(m: Message): seq<RecordRead>
    requires LegalMessage(m)
  {
    seq(|m.answers|, k requires 0 <= k < |m.answers| => AnswerRead(m, k))
  }

  lemma AnswersAreRead(m: Message)
    requires LegalMessage(m)
    ensures ReadsAt(RecordReader(MessageBytes(m)), TrueOffsets(m), AnswerReads(m))
  {
    forall k | 0 <= k < |m.answers|
      ensures RecordReader(MessageBytes(m))(TrueOffsets(m)[k]) == Some(AnswerReads(m)[k])
    {
      AnswerIsRead(m, k);
    }
  }

  predicate NoEarlyAddress(m: Message) {
    forall i | 0 <= i < |m.answers| - 1 :: !IsAddress(m.answers[i])
  }

  lemma ChainedIffNoEarlyAddress(m: Message)
    requires LegalMessage(m)
    ensures Chained(TrueOffsets(m), AnswerReads(m)) <==> NoEarlyAddress(m)
  {
    forall k | 0 <= k < |m.answers| - 1
      ensures AnswerReads(m)[k].curPos == TrueOffsets(m)[k + 1] <==> !IsAddress(m.answers[k])
    {
      assert AnswerReads(m)[k] == AnswerRead(m, k) && TrueOffsets(m)[k + 1] == AnswerOffset(m, k + 1);
    }
  }

  /** The walk starts every record at its true offset exactly when no address record is followed by another record. */
  lemma TrueOffsetsIffNoEarlyAddress(m: Message)
    requires LegalMessage(m) && m.answers != []
    ensures AllAt(RecordReader(MessageBytes(m)), TrueOffsets(m)) <==> NoEarlyAddress(m)
  {
    AnswersAreRead(m);
    ChainedIffNoEarlyAddress(m);
    AllAtIffChained(RecordReader(MessageBytes(m)), TrueOffsets(m), AnswerReads(m));
  }

  /** The addresses of a list of records, in order. */
  function Addresses(rs: seq<Record>): seq<Words> {
    if rs == [] then [] else (if IsAddress(rs[0]) then [AddressOf(rs[0])] else []) + Addresses(rs[1..])
  }

  lemma {:induction false} ReadsGiveAddresses(rs: seq<Record>, steps: seq<RecordRead>)
    requires |rs| == |steps|
    requires forall k | 0 <= k < |rs| :: steps[k].addr == if IsAddress(rs[k]) then [AddressOf(rs[k])] else []
    ensures AllAddresses(steps) == Addresses(rs)
  {
    if rs != [] {
      ReadsGiveAddresses(rs[1..], steps[1..]);
    }
  }

  lemma AnswersPart(m: Message) returns (walk: RecordsRead)
    requires LegalMessage(m) && m.answers != [] && NoEarlyAddress(m)
    ensures PastRecords(RecordReader(MessageBytes(m)), AnswerOffset(m, 0), |m.answers|) == Some(walk)
    ensures walk.addr == Addresses(m.answers) && walk.ttl == Some(m.answers[|m.answers| - 1].ttl)
  {
    var step := RecordReader(MessageBytes(m));
    AnswersAreRead(m);
    ChainedIffNoEarlyAddress(m);
    ChainedWalk(step, TrueOffsets(m), AnswerReads(m));
    ReadsGiveAddresses(m.answers, AnswerReads(m));
    walk := PastRecords(step, AnswerOffset(m, 0), |m.answers|).value;
  }

  /**
   Answer walk: a response with any questions and records in which no address
   record is followed by another one decodes to exactly the addresses it holds,
   under its number, the text of its last question and the last time to live.
   */
  lemma AddressesAreDecoded(m: Message)
    requires LegalMessage(m) && m.answers != [] && NoEarlyAddress(m)
    ensures var d := Decoded(MessageBytes(m));
            && d.Some?
            && d.value.answer.reqNo == m.id && d.value.answer.name == LastQuestion(m).name
            && d.value.answer.addr == Addresses(m.answers)
            && d.value.answer.ttl == Some(m.answers[|m.answers| - 1].ttl)
            && d.value.answer.valid == (Addresses(m.answers) != [])
  {
    HeaderPart(m);
    QuestionsPart(m);
    var walk := AnswersPart(m);
    DecodedParts(MessageBytes(m), MessageHead(m), LastQuestion(m), walk);
  }

  /** With the one address last, that is the one address returned. */
  lemma {:induction false} LastAddressOnly(rs: seq<Record>)
    requires rs != [] && forall i | 0 <= i < |rs| :: IsAddress(rs[i]) <==> i == |rs| - 1
    ensures Addresses(rs) == [AddressOf(rs[|rs| - 1])]
  {
    if |rs| > 1 {
      LastAddressOnly(rs[1..]);
    } else {
      assert rs[1..] == [];
    }
  }

  /**
   A response whose one address record is its last answer gives exactly that
   address, and `get` gives back its network bytes, in mapped form for IPv4.
   */
  lemma LastAddressIsDecoded(m: Message)
    requires LegalMessage(m) && m.answers != []
    requires forall i | 0 <= i < |m.answers| :: IsAddress(m.answers[i]) <==> i == |m.answers| - 1
    ensures var d, last := Decoded(MessageBytes(m)), m.answers[|m.answers| - 1];
            && d.Some? && d.value.answer.valid && d.value.answer.reqNo == m.id
            && d.value.answer.addr == [AddressOf(last)]
            && Memory(AddressOf(last)) == if last.rtype == TYPE_A then Mapped(last.rdata) else last.rdata
  {
    var last := m.answers[|m.answers| - 1];
    AddressesAreDecoded(m);
    LastAddressOnly(m.answers);
    if last.rtype == TYPE_A {
      V4ReadsBack(last.rdata);
    } else {
      V6ReadsBack(last.rdata);
    }
  }

  lemma DataEnds(m: Message)
    requires LegalMessage(m)
    ensures |MessageBytes(m)| == AnswerOffset(m, |m.answers|) + |m.others|
  {
    assert m.answers[..|m.answers|] == m.answers;
  }

  /** Two A records, the second one under a bare pointer and with a time to live below 2^24 s, at the end of the message. */
  predicate TwoAddresses(m: Message) {
    && LegalMessage(m) && |m.answers| == 2 && m.others == []
    && (forall k | 0 <= k < 2 :: IsAddress(m.answers[k]) && m.answers[k].rtype == TYPE_A)
    && m.answers[1].name.labels == [] && m.answers[1].name.end.Pointer? && m.answers[1].ttl < 0x100_0000
  }

  /** The octets where the walk expects the second record: the class of that record and the first octet of its time to live. */
  lemma MistakenName(m: Message)
    requires TwoAddresses(m)
    ensures var data, at := MessageBytes(m), AnswerOffset(m, 1) + 4;
            |data| == at + 12 && data[at] == 0 && data[at + 1] == 1 && data[at + 2] == 0
  {
    var data, r, p := MessageBytes(m), m.answers[1], AnswerOffset(m, 1) + 2;
    AnswerAt(m, 1);
    assert |WireBytes(r.name)| == 2;
    IsAtSplits(data, p - 2, WireBytes(r.name), Encoded(FixedFields(r)) + r.rdata);
    FieldsAt(data, p, r);
    DataEnds(m);
    SmallWords(data[p + 2], data[p + 3], data[p + 4], data[p + 5], data[p + 6], data[p + 7]);
  }

  lemma SmallWords(c0: byte, c1: byte, d0: byte, d1: byte, d2: byte, d3: byte)
    ensures Word(c0, c1) == 1 ==> c0 == 0 && c1 == 1
    ensures DoubleWord(d0, d1, d2, d3) < 0x100_0000 ==> d0 == 0
  {
  }

  /** There the decoder reads a name of one dot, and the fixed fields of a record do not fit any more. */
  lemma RunsOff(data: Bytes, at: nat)
    requires |data| == at + 12 && data[at] == 0 && data[at + 1] == 1 && data[at + 2] == 0
    ensures PastRecord(data, at).None?
  {
    assert DecodeFrom(data, at + 2, 1) == Some(NameRead([], at + 3));
    assert DecodeFrom(data, at + 1, 0) == Some(NameRead([DOT] + [], at + 3));
  }

  lemma WalkFails(data: Bytes, h: Header, q: NameRead)
    requires DecodedHeader(data) == h && PastQuestions(QuestionReader(data), HEADER_SIZE, h.qdcount, []) == Some(q)
    requires PastRecords(RecordReader(data), q.curPos, h.ancount).None?
    ensures Decoded(data).None?
  {
  }

  lemma FirstRecordPassed(m: Message, step: Reader)
    requires TwoAddresses(m) && Reads(step, MessageBytes(m))
    ensures step(AnswerOffset(m, 0)) == Some(AnswerRead(m, 0))
    ensures AnswerRead(m, 0).curPos == AnswerOffset(m, 1) + 4
  {
    AnswerIsRead(m, 0);
  }

  lemma SecondRecordMissed(m: Message, step: Reader)
    requires TwoAddresses(m) && Reads(step, MessageBytes(m))
    ensures step(AnswerOffset(m, 1) + 4).None?
  {
    MistakenName(m);
    RunsOff(MessageBytes(m), AnswerOffset(m, 1) + 4);
  }

  lemma TwoStepsFail(step: Reader, pos: nat, first: RecordRead)
    requires step(pos) == Some(first) && step(first.curPos).None?
    ensures PastRecords(step, pos, 2).None?
  {
    assert PastRecords(step, first.curPos, 1).None?;
  }

  lemma SecondRecordFails(m: Message, step: Reader)
    requires TwoAddresses(m) && Reads(step, MessageBytes(m))
    ensures PastRecords(step, AnswerOffset(m, 0), 2).None?
  {
    FirstRecordPassed(m, step);
    SecondRecordMissed(m, step);
    TwoStepsFail(step, AnswerOffset(m, 0), AnswerRead(m, 0));
  }

  /**
   What the double advance does to a usual compressed response with two A records:
   the walk runs off the end of the message instead of giving either address.
   */
  lemma TwoAddressesRunOff(m: Message)
    requires TwoAddresses(m)
    ensures Decoded(MessageBytes(m)).None?
  {
    HeaderPart(m);
    QuestionsPart(m);
    SecondRecordFails(m, RecordReader(MessageBytes(m)));
    WalkFails(MessageBytes(m), MessageHead(m), LastQuestion(m));
  }

  // ------------------------------------------------------- the round trip

  /** A query is the message with one question, for the Internet class, that asks for recursion. */
  lemma QueryIsMessage(reqNo: uint16, labels: seq<Bytes>, qType: uint16) returns (m: Message)
    requires LegalLabels(labels) && |labels| >= 2 && |Join(labels)| < NPOS
    requires forall i | 0 <= i < |labels| :: NoZeroOctet(labels[i])
    ensures m == Message(reqNo, DnsFlags.RECURSION_DESIRED as int, [Question(WireName(labels, Zero), qType, INTERNET)], [], 0, 0, [])
    ensures LegalMessage(m) && MessageBytes(m) == Query(reqNo, Join(labels), qType)
    ensures AnswerOffset(m, 0) == |MessageBytes(m)|
  {
    var q := Question(WireName(labels, Zero), qType, INTERNET);
    m := Message(reqNo, DnsFlags.RECURSION_DESIRED as int, [q], [], 0, 0, []);
    EncodesIffTwoLabels(labels);
    assert QuestionsBytes([q]) == QuestionBytes(q) + [] == QuestionBytes(q);
    assert QuestionBytes(q) + ([] + []) == QuestionBytes(q);
  }

  /**
   Round trip: for every name of two or more legal labels without zero octets,
   decoding the query gives back its number and its name, and ends at the end.
   */
  lemma QueryRoundTrip(reqNo: uint16, labels: seq<Bytes>, qType: uint16)
    requires LegalLabels(labels) && |labels| >= 2 && |Join(labels)| < NPOS
    requires forall i | 0 <= i < |labels| :: NoZeroOctet(labels[i])
    ensures var query := Query(reqNo, Join(labels), qType);
            Decoded(query) == Some(Decoding(Qanswer(false, reqNo, Join(labels), [], None), |query|))
  {
    var m := QueryIsMessage(reqNo, labels, qType);
    TextIsJoin(labels);
    HeaderPart(m);
    QuestionsPart(m);
    var end := AnswerOffset(m, 0);
    DecodedParts(MessageBytes(m), MessageHead(m), LastQuestion(m), RecordsRead([], None, end));
  }
}
