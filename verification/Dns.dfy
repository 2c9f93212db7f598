/** The DNS responder (https-proxy/https-proxy.cpp:390-488, 548-599): every query for an IPv4 address is answered
    with the same one. The answer is built by appending bytes and patching a count; here it is read back by a parser
    of section 4.1 of RFC 1035, name compression included. */
module Dns {
  import opened Bits

  // ----- messages, by section 4.1 of RFC 1035 -----

  type Labels = seq<seq<byte>>

  datatype Question = Question(name: Labels, qtype: nat, qclass: nat)

  datatype Record = Record(name: Labels, rtype: nat, rclass: nat, ttl: nat, data: seq<byte>)

  datatype Message = Message(id: nat, flags: nat, questions: seq<Question>, answers: seq<Record>,
      authorities: seq<Record>, additionals: seq<Record>)

  /** What was read, and where what follows starts. */
  datatype Read<T> = Bad | Got(value: T, next: nat)

  function U16At(m: seq<byte>, pos: nat): (r: nat)
    requires pos + 2 <= |m|
    ensures r < 65536
  {
    Word(m[pos], m[pos + 1])
  }

  /** A name: labels up to an empty one, or up to a pointer to a name that starts before this one. */
  function ReadName(m: seq<byte>, start: nat, pos: nat): Read<Labels>
    requires start <= pos
    decreases start, |m| - pos
  {
    if pos >= |m| then Bad
    else if m[pos] == 0 then Got([], pos + 1)
    else if m[pos] < 64 then
      var next := pos + 1 + m[pos];
      if next > |m| then Bad
      else
        match ReadName(m, start, next)
        case Bad => Bad
        case Got(labels, n) => Got([m[pos + 1..next]] + labels, n)
    else if m[pos] >= 192 && pos + 1 < |m| then
      var target := Word(m[pos] - 192, m[pos + 1]);
      if target >= start then Bad
      else
        match ReadName(m, target, target)
        case Bad => Bad
        case Got(labels, _) => Got(labels, pos + 2)
    else Bad
  }

  function ReadQuestion(m: seq<byte>, pos: nat): Read<Question> {
    match ReadName(m, pos, pos)
    case Bad => Bad
    case Got(name, n) => if n + 4 > |m| then Bad else Got(Question(name, U16At(m, n), U16At(m, n + 2)), n + 4)
  }

  function ReadQuestions(m: seq<byte>, pos: nat, count: nat): Read<seq<Question>>
    decreases count
  {
    if count == 0 then Got([], pos)
    else
      match ReadQuestion(m, pos)
      case Bad => Bad
      case Got(q, n) =>
        match ReadQuestions(m, n, count - 1)
        case Bad => Bad
        case Got(qs, end) => Got([q] + qs, end)
  }

  function ReadRecord(m: seq<byte>, pos: nat): Read<Record> {
    match ReadName(m, pos, pos)
    case Bad => Bad
    case Got(name, n) =>
      if n + 10 > |m| || n + 10 + U16At(m, n + 8) > |m| then Bad
      else
        var end := n + 10 + U16At(m, n + 8);
        Got(Record(name, U16At(m, n), U16At(m, n + 2), U16At(m, n + 4) * 65536 + U16At(m, n + 6), m[n + 10..end]), end)
  }

  function ReadRecords(m: seq<byte>, pos: nat, count: nat): Read<seq<Record>>
    decreases count
  {
    if count == 0 then Got([], pos)
    else
      match ReadRecord(m, pos)
      case Bad => Bad
      case Got(r, n) =>
        match ReadRecords(m, n, count - 1)
        case Bad => Bad
        case Got(rs, end) => Got([r] + rs, end)
  }

  /** The message at the start of these bytes. */
  function Parse(m: seq<byte>): Read<Message> {
    if |m| < 12 then Bad
    else
      match ReadQuestions(m, 12, U16At(m, 4))
      case Bad => Bad
      case Got(questions, a) =>
        match ReadRecords(m, a, U16At(m, 6))
        case Bad => Bad
        case Got(answers, b) =>
          match ReadRecords(m, b, U16At(m, 8))
          case Bad => Bad
          case Got(authorities, c) =>
            match ReadRecords(m, c, U16At(m, 10))
            case Bad => Bad
            case Got(additionals, d) => Got(Message(U16At(m, 0), U16At(m, 2), questions, answers, authorities,
                additionals), d)
  }

  // ----- the response -----

  /** What the responder makes of the name at pos: where type and class start. It takes labels of any length below
      192. */
  function SkipName(query: seq<byte>, length: nat, pos: nat): Read<()>
    requires length <= |query|
    decreases length - pos
  {
    if pos >= length then Got((), pos)
    else if query[pos] == 0 then Got((), pos + 1)
    else if query[pos] >= 192 then Got((), if pos + 2 < length && query[pos + 2] == 0 then pos + 3 else pos + 2)
    else if pos + query[pos] + 1 >= length then Bad
    else SkipName(query, length, pos + query[pos] + 1)
  }

  /** Where the question at pos ends. */
  function NextQuestion(query: seq<byte>, length: nat, pos: nat): (r: Read<()>)
    requires pos < length <= |query|
    ensures r.Got? ==> pos + 5 <= r.next <= length
  {
    SkipMoves(query, length, pos);
    match SkipName(query, length, pos)
    case Bad => Bad
    case Got(_, n) => if n + 4 > length then Bad else Got((), n + 4)
  }

  lemma {:induction false} SkipMoves(query: seq<byte>, length: nat, pos: nat)
    requires pos < length <= |query|
    ensures SkipName(query, length, pos).Got? ==> SkipName(query, length, pos).next > pos
    decreases length - pos
  {
    if query[pos] != 0 && query[pos] < 192 && pos + query[pos] + 1 < length {
      SkipMoves(query, length, pos + query[pos] + 1);
    }
  }

  predicate Wanted(query: seq<byte>, end: nat)
    requires 4 <= end <= |query|
  {
    U16At(query, end - 4) == 1 && U16At(query, end - 2) == 1
  }

  function IpBytes(ip: nat): (r: seq<byte>)
    requires ip < 0x1_0000_0000
    ensures |r| == 4
  {
    [ip / 16777216, ip / 65536 % 256, ip / 256 % 256, ip % 256]
  }

  /** An answer whose name points back to the question's, as far as a byte can tell where that is. */
  function Answer(start: nat, ip: nat): (r: seq<byte>)
    requires ip < 0x1_0000_0000
    ensures |r| == 16
  {
    [0xc0, start % 256, 0, 1, 0, 1, 0, 0, 0, 60, 0, 4] + IpBytes(ip)
  }

  /** A copy of the question from pos to end, and the answer to it. */
  function Reply(query: seq<byte>, pos: nat, end: nat, ip: nat, size: nat): seq<byte>
    requires pos + 4 <= end <= |query| && ip < 0x1_0000_0000
  {
    query[pos..end] + (if Wanted(query, end) then Answer(size, ip) else [])
  }

  datatype Parts = Refused | Parts(bytes: seq<byte>, answers: nat)

  /** What is appended for the questions from pos on, at most n of them, to a response of the given size. */
  function Questions(query: seq<byte>, length: nat, ip: nat, pos: nat, n: nat, size: nat): (r: Parts)
    requires length <= |query| && ip < 0x1_0000_0000
    ensures r.Parts? ==> r.answers <= n
    decreases n
  {
    if n == 0 || pos >= length then Parts([], 0)
    else
      match NextQuestion(query, length, pos)
      case Bad => Refused
      case Got(_, end) =>
        var mine := Reply(query, pos, end, ip, size);
        After(mine, if Wanted(query, end) then 1 else 0, Questions(query, length, ip, end, n - 1, size + |mine|))
  }

  /** The header of a response: the query's id and number of questions. */
  function ResponseHeader(query: seq<byte>, answers: nat): (r: seq<byte>)
    requires |query| >= 12 && answers < 65536
    ensures |r| == 12
  {
    query[..2] + [0x81, 0x80] + query[4..6] + [answers / 256, answers % 256, 0, 0, 0, 0]
  }

  /** The four bits of the flags behind the topmost. */
  function Opcode(query: seq<byte>): nat
    requires |query| >= 12
  {
    query[2] / 8 % 16
  }

  function Response(query: seq<byte>, length: nat, ip: nat): seq<byte>
    requires 12 <= |query| && length <= |query| && ip < 0x1_0000_0000
  {
    if Opcode(query) != 0 || U16At(query, 4) == 0 then []
    else
      match Questions(query, length, ip, 12, U16At(query, 4), 12)
      case Refused => []
      case Parts(bytes, answers) => ResponseHeader(query, answers) + bytes
  }

  /** The loop over the labels of one name, and the null byte behind them. */
  method SkipLabels(query: seq<byte>, length: nat, from: nat) returns (ok: bool, pos: nat)
    requires from < length <= |query|
    ensures if ok then SkipName(query, length, from) == Got((), pos) else SkipName(query, length, from) == Bad
  {
    ok, pos := true, from;
    while pos < length && query[pos] != 0
      invariant from <= pos && SkipName(query, length, pos) == SkipName(query, length, from)
      decreases length - pos
    {
      var labelLen := query[pos];
      if labelLen >= 192 {
        pos := pos + 2;
        break;
      }
      pos := pos + labelLen + 1;
      if pos >= length {
        ok := false;
        return;
      }
    }
    if pos < length && query[pos] == 0 {
      pos := pos + 1;
    }
  }

  /** The fixed fields of a response's header; how many answers it has is not known yet. */
  method StartResponse(query: seq<byte>) returns (response: seq<byte>)
    requires 12 <= |query|
    ensures response == ResponseHeader(query, 0)
  {
    response := query[..12];
    response := response[2 := 0x81][3 := 0x80];
    response := response[6 := 0][7 := 0][8 := 0][9 := 0][10 := 0][11 := 0];
    assert response[..2] == query[..2] && response[4..6] == query[4..6];
    assert response == response[..2] + response[2..4] + response[4..6] + response[6..];
  }

  /** One question is copied, and answered if it asks for an address. */
  method AnswerQuestion(query: seq<byte>, start: nat, pos: nat, ip: nat, was: seq<byte>) returns (response: seq<byte>)
    requires start + 4 <= pos <= |query| && ip < 0x1_0000_0000
    ensures response == was + Reply(query, start, pos, ip, |was|)
  {
    response := was + query[start..pos];
    if U16At(query, pos - 4) == 1 && U16At(query, pos - 2) == 1 {
      response := response + [0xc0, |was| % 256] + [0, 1] + [0, 1] + [0, 0, 0, 60] + [0, 4];
      response := response + [ip / 16777216, ip / 65536 % 256, ip / 256 % 256, ip % 256];
      assert response == was + (query[start..pos] + Answer(|was|, ip));
    }
  }

  /** The response so far: the header, and what the questions before pos have led to. */
  ghost predicate SoFar(query: seq<byte>, length: nat, ip: nat, response: seq<byte>, answers: nat, pos: nat, left: nat)
    requires 12 <= |query| && length <= |query| && ip < 0x1_0000_0000
  {
    && |response| >= 12 && response[..12] == ResponseHeader(query, 0) && left <= U16At(query, 4)
       && answers <= U16At(query, 4) - left
    && Questions(query, length, ip, 12, U16At(query, 4), 12) == After(response[12..], answers,
       Questions(query, length, ip, pos, left, |response|))
  }

  lemma NextSoFar(query: seq<byte>, length: nat, ip: nat, response: seq<byte>, answers: nat, pos: nat, left: nat,
      end: nat)
    requires 12 <= |query| && length <= |query| && ip < 0x1_0000_0000 && pos < length && left > 0
    requires SoFar(query, length, ip, response, answers, pos, left) && NextQuestion(query, length, pos) == Got((), end)
    ensures SoFar(query, length, ip, response + Reply(query, pos, end, ip, |response|),
        answers + (if Wanted(query, end) then 1 else 0), end, left - 1)
  {
    hide NextQuestion, Reply, ResponseHeader, U16At;
    var mine := Reply(query, pos, end, ip, |response|);
    assert (response + mine)[12..] == response[12..] + mine && (response + mine)[..12] == response[..12];
    match Questions(query, length, ip, end, left - 1, |response + mine|)
    case Refused =>
    case Parts(b, a) =>
      assert response[12..] + (mine + b) == response[12..] + mine + b;
  }

  /** build_dns_response. */
  method BuildDnsResponse(query: seq<byte>, length: nat, ip: nat) returns (response: seq<byte>)
    requires 12 <= |query| && length <= |query| && ip < 0x1_0000_0000
    ensures response == Response(query, length, ip)
  {
    hide SkipName, U16At, Reply, Wanted, ResponseHeader, Opcode;
    var flags, questions := U16At(query, 2), U16At(query, 4);
    FlagBits(query);
    if flags / 0x800 % 16 != 0 || questions == 0 {
      return [];
    }
    response := StartResponse(query);
    var answerCount: nat, pos: nat, q: nat := 0, 12, 0;
    StartSoFar(query, length, ip, response);
    while q < questions && pos < length
      invariant q <= questions && SoFar(query, length, ip, response, answerCount, pos, questions - q)
      decreases questions - q
    {
      var start := pos;
      var ok;
      ok, pos := SkipLabels(query, length, pos);
      if !ok || pos + 4 > length {
        return [];
      }
      pos := pos + 4;
      NextSoFar(query, length, ip, response, answerCount, start, questions - q, pos);
      response := AnswerQuestion(query, start, pos, ip, response);
      answerCount := answerCount + (if Wanted(query, pos) then 1 else 0);
      q := q + 1;
    }
    HeaderPatched(query, response, answerCount);
    response := response[6 := answerCount / 256][7 := answerCount % 256];
  }

  lemma FlagBits(query: seq<byte>)
    requires 12 <= |query|
    ensures U16At(query, 2) / 0x800 % 16 == Opcode(query)
  {
  }

  /** Nothing is sent for an operation other than a standard query, or without a question. */
  lemma NoReply(query: seq<byte>, length: nat, ip: nat)
    requires 12 <= |query| && length <= |query| && ip < 0x1_0000_0000
    requires 8 <= query[2] % 128 || query[4] == query[5] == 0
    ensures Response(query, length, ip) == []
  {
    hide Questions;
    TopBits(query[2]);
  }

  lemma TopBits(b: byte)
    ensures b / 8 % 16 == 0 <==> b % 128 < 8
  {
    assert b == b / 128 * 128 + b % 128 && b % 128 == b % 128 / 8 * 8 + b % 8;
    assert b / 8 == b / 128 * 16 + b % 128 / 8;
  }

  lemma StartSoFar(query: seq<byte>, length: nat, ip: nat, response: seq<byte>)
    requires 12 <= |query| && length <= |query| && ip < 0x1_0000_0000 && response == ResponseHeader(query, 0)
    ensures SoFar(query, length, ip, response, 0, 12, U16At(query, 4))
  {
    hide Questions, ResponseHeader, U16At;
    match Questions(query, length, ip, 12, U16At(query, 4), 12)
    case Refused =>
    case Parts(b, a) =>
      assert response[12..] + b == b;
  }

  /** Parts behind others. */
  function After(bytes: seq<byte>, answers: nat, rest: Parts): Parts {
    match rest
    case Refused => Refused
    case Parts(b, a) => Parts(bytes + b, answers + a)
  }

  lemma HeaderPatched(query: seq<byte>, response: seq<byte>, answers: nat)
    requires |query| >= 12 && answers < 65536 && |response| >= 12 && response[..12] == ResponseHeader(query, 0)
    ensures response[6 := answers / 256][7 := answers % 256] == ResponseHeader(query, answers) + response[12..]
  {
  }

  // ----- what the response says -----

  ghost predicate LabelsOk(labels: Labels) {
    forall i :: 0 <= i < |labels| ==> 0 < |labels[i]| < 64
  }

  ghost predicate QuestionOk(q: Question) {
    LabelsOk(q.name) && q.qtype < 65536 && q.qclass < 65536
  }

  ghost function NameBytes(labels: Labels): (r: seq<byte>)
    requires LabelsOk(labels)
    ensures |r| > 0
  {
    if labels == [] then [0] else [|labels[0]|] + labels[0] + NameBytes(labels[1..])
  }

  /** A question without compression. */
  ghost function QuestionBytes(q: Question): (r: seq<byte>)
    requires QuestionOk(q)
  {
    NameBytes(q.name) + [q.qtype / 256, q.qtype % 256, q.qclass / 256, q.qclass % 256]
  }

  ghost predicate Holds(m: seq<byte>, pos: nat, s: seq<byte>) {
    pos + |s| <= |m| && m[pos..pos + |s|] == s
  }

  lemma HoldsParts(m: seq<byte>, pos: nat, a: seq<byte>, b: seq<byte>)
    requires Holds(m, pos, a + b)
    ensures Holds(m, pos, a) && Holds(m, pos + |a|, b)
  {
    var s := m[pos..pos + |a + b|];
    assert s[..|a|] == a && s[|a|..] == b;
    assert s[..|a|] == m[pos..pos + |a|] && s[|a|..] == m[pos + |a|..pos + |a| + |b|];
  }

  lemma FirstLabel(m: seq<byte>, pos: nat, labels: Labels)
    requires LabelsOk(labels) && Holds(m, pos, NameBytes(labels))
    ensures labels == [] ==> m[pos] == 0
    ensures labels != [] ==>
              var next := pos + 1 + |labels[0]|;
              && m[pos] == |labels[0]| && next < |m| && m[pos + 1..next] == labels[0]
                 && Holds(m, next, NameBytes(labels[1..]))
              && |NameBytes(labels)| == 1 + |labels[0]| + |NameBytes(labels[1..])|
  {
    if labels == [] {
      assert m[pos..pos + 1][0] == 0;
    } else {
      HoldsLabel(m, pos, labels[0], NameBytes(labels[1..]));
    }
  }

  /** Behind its length byte a label's bytes, and behind them the rest. */
  lemma HoldsLabel(m: seq<byte>, pos: nat, part: seq<byte>, rest: seq<byte>)
    requires |part| < 256
    ensures Holds(m, pos, [|part|] + part + rest) <==>
              var next := pos + 1 + |part|;
              next <= |m| && m[pos] == |part| && m[pos + 1..next] == part && Holds(m, next, rest)
  {
    var next := pos + 1 + |part|;
    if Holds(m, pos, [|part|] + part + rest) {
      HoldsParts(m, pos, [|part|] + part, rest);
      HoldsParts(m, pos, [|part|], part);
      assert m[pos..pos + 1][0] == |part|;
    }
    if next <= |m| && m[pos] == |part| && m[pos + 1..next] == part && Holds(m, next, rest) {
      assert m[pos..next + |rest|] == [m[pos]] + m[pos + 1..next] + m[next..next + |rest|];
    }
  }

  /** An uncompressed name is read back. */
  lemma {:induction false} ReadPrinted(m: seq<byte>, start: nat, pos: nat, labels: Labels)
    requires LabelsOk(labels) && Holds(m, pos, NameBytes(labels)) && start <= pos
    ensures ReadName(m, start, pos) == Got(labels, pos + |NameBytes(labels)|)
    decreases |labels|
  {
    hide Holds, NameBytes;
    FirstLabel(m, pos, labels);
    NameEnds(m, pos, labels);
    if labels != [] {
      ReadPrinted(m, start, pos + 1 + |labels[0]|, labels[1..]);
      assert [labels[0]] + labels[1..] == labels;
    }
  }

  lemma NameEnds(m: seq<byte>, pos: nat, labels: Labels)
    requires LabelsOk(labels) && Holds(m, pos, NameBytes(labels))
    ensures pos < pos + |NameBytes(labels)| <= |m| && (labels == [] ==> |NameBytes(labels)| == 1)
  {
  }

  /** The responder skips it as a whole. */
  lemma {:induction false} SkipPrinted(query: seq<byte>, length: nat, pos: nat, labels: Labels)
    requires LabelsOk(labels) && Holds(query, pos, NameBytes(labels)) && pos + |NameBytes(labels)| <= length <= |query|
    ensures SkipName(query, length, pos) == Got((), pos + |NameBytes(labels)|)
    decreases |labels|
  {
    hide Holds, NameBytes;
    FirstLabel(query, pos, labels);
    NameEnds(query, pos, labels);
    if labels != [] {
      SkipPrinted(query, length, pos + 1 + |labels[0]|, labels[1..]);
    }
  }

  /** A message that ends inside the name is refused. */
  lemma {:induction false} SkipCut(query: seq<byte>, length: nat, pos: nat, labels: Labels)
    requires LabelsOk(labels) && pos < length <= |query| && query[pos..length] <= NameBytes(labels)
        && length < pos + |NameBytes(labels)|
    ensures SkipName(query, length, pos) == Bad
    decreases |labels|
  {
    var s := query[pos..length];
    assert s[0] == query[pos];
    if labels != [] {
      var n := 1 + |labels[0]|;
      assert query[pos] == |labels[0]|;
      if pos + n < length {
        assert s[n..] == query[pos + n..length] && NameBytes(labels)[n..] == NameBytes(labels[1..]);
        SkipCut(query, length, pos + n, labels[1..]);
      }
    }
  }

  lemma ReadPrintedQuestion(m: seq<byte>, pos: nat, q: Question)
    requires QuestionOk(q) && Holds(m, pos, QuestionBytes(q))
    ensures ReadQuestion(m, pos) == Got(q, pos + |QuestionBytes(q)|)
  {
    hide NameBytes, LabelsOk, ReadName;
    var tail := [q.qtype / 256, q.qtype % 256, q.qclass / 256, q.qclass % 256];
    HoldsParts(m, pos, NameBytes(q.name), tail);
    ReadPrinted(m, pos, pos, q.name);
    TailNumbers(m, pos + |NameBytes(q.name)|, q.qtype, q.qclass);
  }

  lemma TailNumbers(m: seq<byte>, pos: nat, a: nat, b: nat)
    requires a < 65536 && b < 65536 && Holds(m, pos, [a / 256, a % 256, b / 256, b % 256])
    ensures pos + 4 <= |m| && U16At(m, pos) == a && U16At(m, pos + 2) == b
  {
    var s := m[pos..pos + 4];
    assert s[0] == m[pos] && s[1] == m[pos + 1] && s[2] == m[pos + 2] && s[3] == m[pos + 3];
  }

  /** An address in network order. */
  ghost predicate Address(data: seq<byte>, ip: nat) {
    |data| == 4 && (data[0] as nat) * 0x100_0000 + (data[1] as nat) * 0x1_0000 + (data[2] as nat) * 0x100
        + data[3] as nat == ip
  }

  /** The answers that a question deserves: for an internet address, one, good for a minute. */
  ghost predicate Answered(q: Question, ip: nat, answers: seq<Record>) {
    if q.qtype == 1 && q.qclass == 1 then
      && |answers| == 1 && Address(answers[0].data, ip)
      && answers[0].name == q.name && answers[0].rtype == 1 && answers[0].rclass == 1 && answers[0].ttl == 60
    else answers == []
  }

  lemma InOrder(ip: nat)
    requires ip < 0x1_0000_0000
    ensures Address(IpBytes(ip), ip)
  {
    var high, low := ip / 0x1_0000, ip % 0x1_0000;
    HalfBytes(ip);
    assert high == high / 256 * 256 + high % 256 && low == low / 256 * 256 + low % 256;
  }

  lemma HalfBytes(ip: nat)
    ensures ip / 0x100_0000 == ip / 0x1_0000 / 256
    ensures ip / 0x100 % 256 == ip % 0x1_0000 / 256 && ip % 256 == ip % 0x1_0000 % 256
  {
    var high, low := ip / 0x1_0000, ip % 0x1_0000;
    assert ip == high * 0x1_0000 + low && low == low / 256 * 256 + low % 256;
    assert ip / 0x100 == high * 256 + low / 256;
  }

  // ----- several questions -----

  ghost predicate AllOk(qs: seq<Question>) {
    forall i :: 0 <= i < |qs| ==> QuestionOk(qs[i])
  }

  ghost function AllBytes(qs: seq<Question>): seq<byte>
    requires AllOk(qs)
  {
    if qs == [] then [] else QuestionBytes(qs[0]) + AllBytes(qs[1..])
  }

  ghost predicate ForAddress(q: Question) {
    q.qtype == 1 && q.qclass == 1
  }

  ghost function Deserved(qs: seq<Question>): (n: nat)
    ensures n <= |qs|
  {
    if qs == [] then 0 else (if ForAddress(qs[0]) then 1 else 0) + Deserved(qs[1..])
  }

  /** The record at pos is an internet address, and its name is a pointer to the given place. */
  ghost predicate AnswerAt(m: seq<byte>, pos: nat, target: nat, ip: nat) {
    && pos + 16 <= |m| && m[pos] >= 192 && Word(m[pos] - 192, m[pos + 1]) == target && U16At(m, pos + 2) == 1
       && U16At(m, pos + 4) == 1
    && U16At(m, pos + 6) == 0 && U16At(m, pos + 8) == 60 && U16At(m, pos + 10) == 4
       && Address(m[pos + 12..pos + 16], ip)
  }

  /** From pos to its end a message holds these questions, each for an address followed by its answer. The pointer
      in the answer keeps the low eight bits of where the question is. */
  ghost predicate Alternates(m: seq<byte>, pos: nat, qs: seq<Question>, ip: nat)
    decreases |qs|
  {
    if qs == [] then pos == |m|
    else
      match ReadQuestion(m, pos)
      case Bad => false
      case Got(q, n) =>
        q == qs[0] && if ForAddress(q) then AnswerAt(m, n, pos % 256, ip) && Alternates(m, n + 16, qs[1..], ip)
            else Alternates(m, n, qs[1..], ip)
  }

  ghost function Mixed(qs: seq<Question>, ip: nat, pos: nat): seq<byte>
    requires AllOk(qs) && ip < 0x1_0000_0000
  {
    if qs == [] then []
    else
      var mine := QuestionBytes(qs[0]) + (if ForAddress(qs[0]) then Answer(pos, ip) else []);
      mine + Mixed(qs[1..], ip, pos + |mine|)
  }

  lemma QuestionSkipped(query: seq<byte>, length: nat, pos: nat, q: Question)
    requires length <= |query| && QuestionOk(q) && Holds(query[..length], pos, QuestionBytes(q))
    ensures var end := pos + |QuestionBytes(q)|;
            && pos < length && NextQuestion(query, length, pos) == Got((), end) && query[pos..end] == QuestionBytes(q)
            && (Wanted(query, end) <==> ForAddress(q))
  {
    hide NameBytes, LabelsOk, SkipName;
    var tail := [q.qtype / 256, q.qtype % 256, q.qclass / 256, q.qclass % 256];
    var end := pos + |QuestionBytes(q)|;
    assert query[..length][pos..end] == query[pos..end];
    HoldsParts(query, pos, NameBytes(q.name), tail);
    TailNumbers(query, end - 4, q.qtype, q.qclass);
    SkipPrinted(query, length, pos, q.name);
  }

  /** What is appended for questions without compression. */
  lemma {:induction false} MixedParts(query: seq<byte>, length: nat, ip: nat, pos: nat, qs: seq<Question>, size: nat)
    requires length <= |query| && ip < 0x1_0000_0000 && AllOk(qs) && Holds(query[..length], pos, AllBytes(qs))
    ensures Questions(query, length, ip, pos, |qs|, size) == Parts(Mixed(qs, ip, size), Deserved(qs))
    decreases |qs|
  {
    hide QuestionBytes, QuestionOk, NextQuestion, Answer, Wanted;
    if qs != [] {
      var q, end := qs[0], pos + |QuestionBytes(qs[0])|;
      HoldsParts(query[..length], pos, QuestionBytes(q), AllBytes(qs[1..]));
      QuestionSkipped(query, length, pos, q);
      MixedParts(query, length, ip, end, qs[1..], size + |Reply(query, pos, end, ip, size)|);
    }
  }

  lemma AnswerHeld(m: seq<byte>, pos: nat, start: nat, ip: nat)
    requires ip < 0x1_0000_0000 && Holds(m, pos, Answer(start, ip))
    ensures AnswerAt(m, pos, start % 256, ip)
  {
    hide IpBytes;
    InOrder(ip);
    var s := m[pos..pos + 16];
    assert s == Answer(start, ip);
    forall i | 0 <= i < 12 ensures m[pos + i] == [0xc0, start % 256, 0, 1, 0, 1, 0, 0, 0, 60, 0, 4][i] {
      assert m[pos + i] == s[i] == Answer(start, ip)[i];
    }
    assert m[pos] == 0xc0 && m[pos + 1] == start % 256;
    assert m[pos + 2] == 0 && m[pos + 3] == 1 && m[pos + 4] == 0 && m[pos + 5] == 1;
    assert m[pos + 6] == 0 && m[pos + 7] == 0 && m[pos + 8] == 0 && m[pos + 9] == 60 && m[pos + 10] == 0
        && m[pos + 11] == 4;
    assert s[12..] == IpBytes(ip) && s[12..] == m[pos + 12..pos + 16];
  }

  lemma {:induction false} MixedRead(m: seq<byte>, pos: nat, qs: seq<Question>, ip: nat)
    requires ip < 0x1_0000_0000 && AllOk(qs) && Holds(m, pos, Mixed(qs, ip, pos)) && |m| == pos + |Mixed(qs, ip, pos)|
    ensures Alternates(m, pos, qs, ip)
    decreases |qs|
  {
    hide QuestionBytes, QuestionOk, Answer, ReadQuestion, AnswerAt, Holds;
    if qs != [] {
      var q := qs[0];
      var answer := if ForAddress(q) then Answer(pos, ip) else [];
      var mine := QuestionBytes(q) + answer;
      HoldsParts(m, pos, mine, Mixed(qs[1..], ip, pos + |mine|));
      HoldsParts(m, pos, QuestionBytes(q), answer);
      ReadPrintedQuestion(m, pos, q);
      if ForAddress(q) {
        AnswerHeld(m, pos + |QuestionBytes(q)|, pos, ip);
      }
      MixedRead(m, pos + |mine|, qs[1..], ip);
    }
  }

  /** For every query with any number of uncompressed questions, whatever follows them, the response holds them in
      order, each one for an address followed by its answer, and counts the answers. */
  lemma EveryQuestion(query: seq<byte>, length: nat, ip: nat, qs: seq<Question>)
    requires 12 <= length <= |query| && ip < 0x1_0000_0000 && AllOk(qs) && Holds(query[..length], 12, AllBytes(qs))
    requires Opcode(query) == 0 && U16At(query, 4) == |qs| > 0
    ensures var r := Response(query, length, ip);
            && |r| >= 12 && r[..2] == query[..2] && U16At(r, 2) == 0x8180 && U16At(r, 4) == |qs|
               && U16At(r, 6) == Deserved(qs)
            && U16At(r, 8) == U16At(r, 10) == 0 && Alternates(r, 12, qs, ip)
  {
    hide AllBytes, Mixed, Alternates, Questions, U16At;
    MixedParts(query, length, ip, 12, qs, 12);
    var r, k, b := Response(query, length, ip), Deserved(qs), Mixed(qs, ip, 12);
    assert r == ResponseHeader(query, k) + b && r[12..] == b;
    HeaderNumbers(query, k, r);
    assert r[12..12 + |b|] == b;
    MixedRead(r, 12, qs, ip);
  }

  /** An answer whose question starts in the first 256 bytes has the question's name. */
  lemma NamedRight(m: seq<byte>, start: nat, pos: nat, q: Question, ip: nat)
    requires ReadQuestion(m, start).Got? && ReadQuestion(m, start).value == q && start < pos && start < 256
    requires AnswerAt(m, pos, start % 256, ip)
    ensures ReadRecord(m, pos) == Got(Record(q.name, 1, 1, 60, m[pos + 12..pos + 16]), pos + 16)
  {
    hide U16At, Address;
    assert ReadName(m, start, start).Got? && ReadName(m, start, start).value == q.name;
    assert ReadName(m, pos, pos) == Got(q.name, pos + 2);
  }

  // ----- one question -----

  /** For every query with one uncompressed question, whatever follows it, the response is a message of section
      4.1 of RFC 1035 with the same id and question, and one answer holding the address in network order exactly if an
      internet address was asked for. */
  lemma OneQuestion(query: seq<byte>, length: nat, ip: nat, q: Question)
    requires 12 <= length <= |query| && ip < 0x1_0000_0000 && QuestionOk(q)
        && Holds(query[..length], 12, QuestionBytes(q))
    requires Opcode(query) == 0 && U16At(query, 4) == 1
    ensures var r := Response(query, length, ip);
            match Parse(r)
            case Bad => false
            case Got(m, end) =>
              && end == |r| && m.id == U16At(query, 0) && m.flags == 0x8180 && m.questions == [q]
                 && Answered(q, ip, m.answers)
              && m.authorities == m.additionals == []
  {
    hide QuestionBytes, QuestionOk, Response, ReadQuestion, ReadRecord, AnswerAt, Address, U16At;
    var r := Response(query, length, ip);
    assert AllBytes([q]) == QuestionBytes(q) + [] == QuestionBytes(q);
    EveryQuestion(query, length, ip, [q]);
    SameId(query, r);
    var n := ReadQuestion(r, 12).next;
    assert [q][1..] == [] && Deserved([q][1..]) == 0;
    assert ReadQuestions(r, n, 0) == Got([], n) && [q] + [] == [q];
    if ForAddress(q) {
      var end := n + 16;
      QuestionMoves(r, 12);
      NamedRight(r, 12, n, q, ip);
      OneRecord(r, n, end);
      RightAddress(r, n, ip);
    }
  }

  lemma SameId(query: seq<byte>, r: seq<byte>)
    requires |query| >= 2 && |r| >= 2 && r[..2] == query[..2]
    ensures U16At(r, 0) == U16At(query, 0)
  {
    assert r[0] == r[..2][0] && r[1] == r[..2][1];
  }

  lemma QuestionMoves(m: seq<byte>, pos: nat)
    requires ReadQuestion(m, pos).Got?
    ensures ReadQuestion(m, pos).next > pos
  {
    NameMoves(m, pos, pos);
  }

  lemma {:induction false} NameMoves(m: seq<byte>, start: nat, pos: nat)
    requires start <= pos && ReadName(m, start, pos).Got?
    ensures ReadName(m, start, pos).next > pos
    decreases |m| - pos
  {
    if pos < |m| && 0 < m[pos] < 64 && pos + 1 + m[pos] <= |m| {
      NameMoves(m, start, pos + 1 + m[pos]);
    }
  }

  lemma OneRecord(m: seq<byte>, pos: nat, end: nat)
    requires ReadRecord(m, pos).Got? && ReadRecord(m, pos).next == end
    ensures ReadRecords(m, pos, 1) == Got([ReadRecord(m, pos).value], end)
  {
    hide ReadRecord;
    assert ReadRecords(m, end, 0) == Got([], end);
    var r := ReadRecord(m, pos).value;
    assert [r] + [] == [r];
  }

  lemma RightAddress(m: seq<byte>, pos: nat, ip: nat)
    requires AnswerAt(m, pos, 12, ip)
    ensures pos + 16 <= |m| && Address(m[pos + 12..pos + 16], ip)
  {
    hide Address, U16At;
  }

  lemma HeaderNumbers(query: seq<byte>, answers: nat, r: seq<byte>)
    requires |query| >= 12 && answers < 65536 && |r| >= 12 && r[..12] == ResponseHeader(query, answers)
    ensures U16At(r, 0) == U16At(query, 0) && U16At(r, 2) == 0x8180 && U16At(r, 4) == U16At(query, 4)
    ensures U16At(r, 6) == answers && U16At(r, 8) == 0 && U16At(r, 10) == 0
  {
    var h := r[..12];
    assert forall i :: 0 <= i < 12 ==> r[i] == h[i];
  }

  /** A message that ends inside its only question is not answered. */
  lemma CutQuestion(query: seq<byte>, length: nat, ip: nat, q: Question)
    requires 12 < length <= |query| && ip < 0x1_0000_0000 && QuestionOk(q)
    requires query[12..length] <= QuestionBytes(q) && length < 12 + |QuestionBytes(q)| && U16At(query, 4) == 1
    ensures Response(query, length, ip) == []
  {
    hide NameBytes, LabelsOk, SkipName, U16At;
    var s, name := query[12..length], NameBytes(q.name);
    if |s| < |name| {
      assert s <= name;
      SkipCut(query, length, 12, q.name);
    } else {
      assert QuestionBytes(q)[..|name|] == name && s[..|name|] == name;
      assert s[..|name|] == query[12..12 + |name|];
      SkipPrinted(query, length, 12, q.name);
    }
  }

  /** A message with nothing behind its header announces a question that its response repeats without having it. */
  lemma HeaderOnly(query: seq<byte>, length: nat, ip: nat)
    requires length <= 12 <= |query| && ip < 0x1_0000_0000 && Opcode(query) == 0 && U16At(query, 4) > 0
    ensures Response(query, length, ip) == ResponseHeader(query, 0) && Parse(Response(query, length, ip)) == Bad
  {
    hide U16At, ResponseHeader;
    var r := ResponseHeader(query, 0);
    assert r + [] == r && r[..12] == r;
    HeaderNumbers(query, 0, r);
  }

  // ----- exactly when it can be read -----

  /** No compression pointer stands where the responder looks for a label. */
  ghost predicate NoPointer(query: seq<byte>, length: nat, pos: nat)
    requires length <= |query|
    decreases length - pos
  {
    pos < length && query[pos] != 0 ==>
      query[pos] < 192 && (pos + query[pos] + 1 < length ==> NoPointer(query, length, pos + query[pos] + 1))
  }

  lemma HoldsEnd(m: seq<byte>, pos: nat)
    requires pos < |m| && m[pos] == 0
    ensures Holds(m, pos, NameBytes([]))
  {
    assert m[pos..pos + 1] == [0];
  }

  /** A name that can be read from the reply is one that the responder skipped as a whole. */
  lemma {:induction false} ReadIsSkipped(query: seq<byte>, length: nat, r: seq<byte>, pos: nat, start: nat, end: nat)
    requires start <= pos < length <= |query| && NoPointer(query, length, pos)
        && SkipName(query, length, pos) == Got((), end)
    requires end <= length && end <= |r| && (forall i :: pos <= i < end ==> r[i] == query[i])
        && ReadName(r, start, pos).Got?
    ensures var labels := ReadName(r, start, pos).value;
            LabelsOk(labels) && Holds(query, pos, NameBytes(labels)) && end == pos + |NameBytes(labels)|
    decreases length - pos
  {
    hide Holds;
    SkipMoves(query, length, pos);
    var labels := ReadName(r, start, pos).value;
    if query[pos] == 0 {
      HoldsEnd(query, pos);
    } else {
      var next := pos + query[pos] + 1;
      SkipMoves(query, length, next);
      ReadIsSkipped(query, length, r, next, start, end);
      var rest := ReadName(r, start, next).value;
      assert labels[0] == r[pos + 1..next] == query[pos + 1..next] && labels[1..] == rest;
      HoldsLabel(query, pos, labels[0], NameBytes(rest));
    }
  }

  lemma ParsedQuestion(r: seq<byte>)
    requires Parse(r).Got? && U16At(r, 4) == 1
    ensures ReadName(r, 12, 12).Got?
  {
    hide ReadName, ReadRecords, U16At;
  }

  /** The reply to a single question that is not refused: the header, the question as it came, and perhaps an answer. */
  lemma ReplyShape(query: seq<byte>, length: nat, ip: nat)
    requires 12 < length <= |query| && ip < 0x1_0000_0000 && Opcode(query) == 0 && U16At(query, 4) == 1
    ensures var r := Response(query, length, ip);
            match NextQuestion(query, length, 12)
            case Bad => r == []
            case Got(_, end) => |r| >= end && U16At(r, 4) == 1 && forall i :: 12 <= i < end ==> r[i] == query[i]
  {
    hide U16At, SkipName, Answer, ResponseHeader;
    match NextQuestion(query, length, 12)
    case Bad =>
    case Got(_, end) =>
      var mine := Reply(query, 12, end, ip, 12);
      var k := if Wanted(query, end) then 1 else 0;
      assert Questions(query, length, ip, end, 0, 12 + |mine|) == Parts([], 0);
      assert mine + [] == mine;
      var r := Response(query, length, ip);
      assert r == ResponseHeader(query, k) + mine;
      HeaderNumbers(query, k, r);
  }

  /** For one question without compression, the response can be read exactly if the message holds a well-formed
      question. */
  lemma WhenReadable(query: seq<byte>, length: nat, ip: nat)
    requires 12 <= |query| && length <= |query| && ip < 0x1_0000_0000 && Opcode(query) == 0 && U16At(query, 4) == 1
        && NoPointer(query, length, 12)
    ensures Parse(Response(query, length, ip)).Got? <==>
              exists q :: QuestionOk(q) && Holds(query[..length], 12, QuestionBytes(q))
  {
    hide U16At, Parse, Response, ReadName, SkipName, QuestionBytes;
    var r := Response(query, length, ip);
    if q :| QuestionOk(q) && Holds(query[..length], 12, QuestionBytes(q)) {
      OneQuestion(query, length, ip, q);
    } else if Parse(r).Got? {
      NonEmpty(r);
      if length <= 12 {
        HeaderOnly(query, length, ip);
      } else {
        ReplyShape(query, length, ip);
        ParsedQuestion(r);
        var end := NextQuestion(query, length, 12).next;
        SkippedTo(query, length, end);
        ReadIsSkipped(query, length, r, 12, 12, end - 4);
        var q := Question(ReadName(r, 12, 12).value, U16At(query, end - 4), U16At(query, end - 2));
        QuestionHeld(query, length, q, end);
      }
      assert false;
    }
  }

  lemma SkippedTo(query: seq<byte>, length: nat, end: nat)
    requires 12 < length <= |query| && NextQuestion(query, length, 12) == Got((), end)
    ensures SkipName(query, length, 12) == Got((), end - 4)
  {
    hide SkipName;
    var s := SkipName(query, length, 12);
    assert s.value == ();
  }

  lemma NonEmpty(r: seq<byte>)
    requires Parse(r).Got?
    ensures r != []
  {
  }

  lemma QuestionHeld(query: seq<byte>, length: nat, q: Question, end: nat)
    requires 16 <= end <= length <= |query| && LabelsOk(q.name) && Holds(query, 12, NameBytes(q.name))
        && end - 4 == 12 + |NameBytes(q.name)|
    requires q.qtype == U16At(query, end - 4) && q.qclass == U16At(query, end - 2)
    ensures QuestionOk(q) && Holds(query[..length], 12, QuestionBytes(q))
  {
    hide NameBytes, LabelsOk, U16At;
    var x, name := query[..length], NameBytes(q.name);
    TwoParts(query, end - 4);
    TwoParts(query, end - 2);
    assert [q.qtype / 256, q.qtype % 256, q.qclass / 256, q.qclass % 256] == query[end - 4..end];
    assert x[12..end] == query[12..12 + |name|] + query[end - 4..end];
  }

  lemma TwoParts(m: seq<byte>, pos: nat)
    requires pos + 2 <= |m|
    ensures U16At(m, pos) / 256 == m[pos] && U16At(m, pos) % 256 == m[pos + 1]
  {
  }

  /** A label of 64 to 191 bytes, which no message may have, is copied into a response that cannot be read. */
  lemma LongLabel(query: seq<byte>, length: nat, ip: nat)
    requires 12 < length <= |query| && ip < 0x1_0000_0000 && Opcode(query) == 0 && U16At(query, 4) == 1
    requires 64 <= query[12] < 192 && NextQuestion(query, length, 12).Got?
    ensures Response(query, length, ip) != [] && Parse(Response(query, length, ip)) == Bad
  {
    hide U16At, Parse, Response, SkipName;
    var r := Response(query, length, ip);
    ReplyShape(query, length, ip);
    if Parse(r).Got? {
      ParsedQuestion(r);
    }
  }

  // ----- its size -----

  lemma {:induction false} QuestionsSize(query: seq<byte>, length: nat, ip: nat, pos: nat, n: nat, size: nat)
    requires length <= |query| && ip < 0x1_0000_0000
    ensures var p := Questions(query, length, ip, pos, n, size); p.Parts? && pos <= length ==>
        5 * |p.bytes| <= 21 * (length - pos)
    decreases n
  {
    hide NextQuestion, Wanted, Answer;
    if n > 0 && pos < length {
      var next := NextQuestion(query, length, pos);
      if next.Got? {
        QuestionsSize(query, length, ip, next.next, n - 1, size + |Reply(query, pos, next.next, ip, size)|);
      }
    }
  }

  /** Whatever the message holds, every question takes five bytes of it and adds sixteen: the response's size fits
      the 16 bits of a frame's length. */
  lemma ResponseSize(query: seq<byte>, length: nat, ip: nat)
    requires 12 <= |query| && length <= |query| && ip < 0x1_0000_0000
    ensures var r := Response(query, length, ip); 5 * |r| <= 60 + (if length < 12 then 0 else 21 * (length - 12))
  {
    hide U16At;
    if length > 12 {
      QuestionsSize(query, length, ip, 12, U16At(query, 4), 12);
    }
  }

  /** The TCP session's answer to a message of the given length behind its two length bytes. */
  method HandleQuery(buffer: seq<byte>, length: nat, ip: nat) returns (frame: seq<byte>)
    requires |buffer| == 514 && length <= 512 && ip < 0x1_0000_0000
    ensures var r := Response(buffer[2..], length, ip);
            if r == [] then frame == [] else |frame| == 2 + |r| && U16At(frame, 0) == |r| && frame[2..] == r
  {
    hide Response;
    var response := BuildDnsResponse(buffer[2..], length, ip);
    if response == [] {
      return [];
    }
    ResponseSize(buffer[2..], length, ip);
    var responseLength := |response| % 65536;
    frame := [responseLength / 256, responseLength % 256] + response;
  }
}
