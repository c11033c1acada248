/** The FastCGI client: what it writes to a php-fpm pool, and what it makes of
    the records that come back. */
module FastCgi {
  import opened Wrappers
  import opened Names

  const BEGIN_REQUEST: byte := 1
  const END_REQUEST: byte := 3
  const PARAMS: byte := 4
  const STDIN: byte := 5
  const STDOUT: byte := 6
  const RESPONDER: byte := 1
  const REQUEST_ID: nat := 1
  const CHUNK: nat := 0x8000
  const MAX_CONTENT: nat := 0xFFFF

  type Pair = (Bytes, Bytes)

  // ---- name-value pairs ----

  function Low(n: nat): byte {
    (n % 256) as byte
  }

  /** One byte below 128; otherwise four, of the length as 32 bits, with the high
      bit set. */
  function EncodeLen(len: nat): (r: Bytes)
    ensures |r| == if len < 128 then 1 else 4
  {
    if len < 128 then [len as byte] else
    var l := len % 0x1_0000_0000;
    [(if l / 0x100_0000 < 128 then l / 0x100_0000 + 128 else l / 0x100_0000) as byte, Low(l / 0x1_0000), Low(l / 0x100), Low(l)]
  }

  function EncodePair(p: Pair): Bytes {
    EncodeLen(|p.0|) + EncodeLen(|p.1|) + p.0 + p.1
  }

  function EncodePairs(ps: seq<Pair>): Bytes
    decreases |ps|
  {
    if ps == [] then [] else EncodePair(ps[0]) + EncodePairs(ps[1..])
  }

  /** A length as section 3.4 of the FastCGI 1.0 specification reads it, and what
      follows it. */
  function DecodeLen(b: Bytes): Option<(nat, Bytes)> {
    if b == [] then None
    else if b[0] < 128 then Some((b[0] as nat, b[1..]))
    else if |b| < 4 then None
    else Some(((b[0] as nat - 128) * 0x100_0000 + b[1] as nat * 0x1_0000 + b[2] as nat * 0x100 + b[3] as nat, b[4..]))
  }

  function DecodePair(b: Bytes): Option<(Pair, Bytes)> {
    match DecodeLen(b)
    case None => None
    case Some((n, b1)) =>
      match DecodeLen(b1)
      case None => None
      case Some((v, b2)) => if |b2| < n + v then None else Some(((b2[..n], b2[n..n + v]), b2[n + v..]))
  }

  lemma DecodeShrinks(b: Bytes)
    ensures DecodeLen(b).Some? ==> |DecodeLen(b).value.1| < |b|
    ensures DecodePair(b).Some? ==> |DecodePair(b).value.1| < |b|
  {
  }

  function DecodePairs(b: Bytes): Option<seq<Pair>>
    decreases |b|
  {
    if b == [] then Some([]) else
    DecodeShrinks(b);
    match DecodePair(b)
    case None => None
    case Some((p, rest)) =>
      match DecodePairs(rest)
      case None => None
      case Some(ps) => Some([p] + ps)
  }

  /** A length decodes to itself exactly when it is below 2^31. */
  lemma LenRoundTripsIff(len: nat, rest: Bytes)
    ensures DecodeLen(EncodeLen(len) + rest) == Some((len, rest)) <==> len < 0x8000_0000
  {
    var b := EncodeLen(len) + rest;
    if len < 128 {
      assert b[1..] == rest;
    } else {
      assert b[4..] == rest;
      var l := len % 0x1_0000_0000;
      assert b[0] as nat >= 128;
      ByBytes(l);
    }
  }

  lemma ByBytes(l: nat)
    requires l < 0x1_0000_0000
    ensures l == l / 0x100_0000 * 0x100_0000 + l / 0x1_0000 % 256 * 0x1_0000 + l / 0x100 % 256 * 0x100 + l % 256
    ensures l / 0x100_0000 < 256
  {
    assert l / 0x100 == l / 0x1_0000 * 256 + l / 0x100 % 256;
    assert l / 0x1_0000 == l / 0x100_0000 * 256 + l / 0x1_0000 % 256;
  }

  predicate Small(p: Pair) {
    |p.0| < 0x8000_0000 && |p.1| < 0x8000_0000
  }

  lemma PairRoundTrips(p: Pair, rest: Bytes)
    requires Small(p)
    ensures DecodePair(EncodePair(p) + rest) == Some((p, rest))
  {
    hide EncodeLen, DecodeLen;
    var (n, v) := p;
    var tail := n + v + rest;
    assert EncodePair(p) + rest == EncodeLen(|n|) + (EncodeLen(|v|) + tail);
    LenRoundTripsIff(|n|, EncodeLen(|v|) + tail);
    LenRoundTripsIff(|v|, tail);
    assert tail[..|n|] == n && tail[|n|..|n| + |v|] == v && tail[|n| + |v|..] == rest;
  }

  /** Every list of parameters with lengths below 2^31 decodes to itself. */
  lemma {:induction false} PairsRoundTrip(ps: seq<Pair>)
    requires forall i | 0 <= i < |ps| :: Small(ps[i])
    ensures DecodePairs(EncodePairs(ps)) == Some(ps)
    decreases |ps|
  {
    hide EncodePair, DecodePair;
    if ps != [] {
      PairRoundTrips(ps[0], EncodePairs(ps[1..]));
      PairsRoundTrip(ps[1..]);
      EncodedIsSomething(ps[0]);
      assert ps == [ps[0]] + ps[1..];
    }
  }

  lemma EncodedIsSomething(p: Pair)
    ensures |EncodePair(p)| > 0
  {
  }

  // ---- records ----

  /** A record as section 3.3 of the FastCGI 1.0 specification lays it out. */
  datatype Record = Record(version: byte, rtype: byte, id: nat, content: Bytes, padding: Bytes, reserved: byte)

  predicate Framed(r: Record) {
    r.id < 0x1_0000 && |r.content| <= MAX_CONTENT && |r.padding| < 256
  }

  function Head(r: Record): (b: Bytes)
    requires Framed(r)
    ensures |b| == 8
  {
    [r.version, r.rtype, (r.id / 256) as byte, Low(r.id), (|r.content| / 256) as byte, Low(|r.content|),
     |r.padding| as byte, r.reserved]
  }

  function Wire(r: Record): Bytes
    requires Framed(r)
  {
    Head(r) + r.content + r.padding
  }

  function WireAll(rs: seq<Record>): Bytes
    requires forall i | 0 <= i < |rs| :: Framed(rs[i])
    decreases |rs|
  {
    if rs == [] then [] else Wire(rs[0]) + WireAll(rs[1..])
  }

  /** The record at the front of `b`, and what follows it. */
  function DecodeRecord(b: Bytes): Option<(Record, Bytes)> {
    if |b| < 8 then None else
    var len, pad := b[4] as nat * 256 + b[5] as nat, b[6] as nat;
    if |b| < 8 + len + pad then None else
    Some((Record(b[0], b[1], b[2] as nat * 256 + b[3] as nat, b[8..8 + len], b[8 + len..8 + len + pad], b[7]),
          b[8 + len + pad..]))
  }

  function DecodeRecords(b: Bytes): Option<seq<Record>>
    decreases |b|
  {
    if b == [] then Some([]) else
    match DecodeRecord(b)
    case None => None
    case Some((r, rest)) =>
      match DecodeRecords(rest)
      case None => None
      case Some(rs) => Some([r] + rs)
  }

  lemma RecordRoundTrips(r: Record, rest: Bytes)
    requires Framed(r)
    ensures DecodeRecord(Wire(r) + rest) == Some((r, rest))
  {
    var b := Wire(r) + rest;
    var len, pad := |r.content|, |r.padding|;
    assert b[..8] == Head(r);
    assert b[4] as nat * 256 + b[5] as nat == len && b[6] as nat == pad;
    assert b[8..8 + len] == r.content;
    assert b[8 + len..8 + len + pad] == r.padding;
    assert b[8 + len + pad..] == rest;
  }

  lemma {:induction false} RecordsRoundTrip(rs: seq<Record>)
    requires forall i | 0 <= i < |rs| :: Framed(rs[i])
    ensures DecodeRecords(WireAll(rs)) == Some(rs)
    decreases |rs|
  {
    hide DecodeRecord, Wire;
    if rs != [] {
      RecordRoundTrips(rs[0], WireAll(rs[1..]));
      RecordsRoundTrip(rs[1..]);
      WireIsSomething(rs[0]);
      assert rs == [rs[0]] + rs[1..];
    }
  }

  lemma WireIsSomething(r: Record)
    requires Framed(r)
    ensures |Wire(r)| >= 8
  {
  }

  lemma {:induction false} WireMore(rs: seq<Record>, r: Record)
    requires (forall i | 0 <= i < |rs| :: Framed(rs[i])) && Framed(r)
    ensures WireAll(rs + [r]) == WireAll(rs) + Wire(r)
    decreases |rs|
  {
    hide Wire;
    if rs == [] {
      assert rs + [r] == [r] && [r][1..] == [];
      assert WireAll([]) == [] && Wire(r) + [] == Wire(r);
    } else {
      WireMore(rs[1..], r);
      assert (rs + [r])[1..] == rs[1..] + [r] && (rs + [r])[0] == rs[0];
    }
  }

  // ---- the other side ----

  /** A stream of one type, up to its empty record: its contents joined, and what
      follows. */
  function Collect(rs: seq<Record>, rtype: nat, id: nat): Option<(Bytes, seq<Record>)>
    decreases |rs|
  {
    if rs == [] || rs[0].version != 1 || rs[0].rtype as nat != rtype || rs[0].id != id then None
    else if rs[0].content == [] then Some(([], rs[1..]))
    else
      match Collect(rs[1..], rtype, id)
      case None => None
      case Some((more, rest)) => Some((rs[0].content + more, rest))
  }

  /** What an application makes of a request's records, with the numbers of section
      8 of the FastCGI 1.0 specification: version 1; a begin record, type 1, for the
      responder, role 1, with the flag to keep the connection not set; the
      parameters, type 4, and the body, type 5, each up to an empty record; and
      nothing after that. */
  function PeerReads(rs: seq<Record>): Option<(seq<Pair>, Bytes)> {
    if rs == [] || rs[0].version != 1 || rs[0].rtype != 1 || rs[0].id == 0 || |rs[0].content| != 8 then None
    else if rs[0].content[0] as nat * 256 + rs[0].content[1] as nat != 1 || rs[0].content[2] % 2 == 1 then None
    else
      match Collect(rs[1..], 4, rs[0].id)
      case None => None
      case Some((parameters, rest)) =>
        match Collect(rest, 5, rs[0].id)
        case None => None
        case Some((body, end)) =>
          if end != [] || DecodePairs(parameters).None? then None else Some((DecodePairs(parameters).value, body))
  }

  /** What it makes of the bytes. */
  function PeerReadsBytes(b: Bytes): Option<(seq<Pair>, Bytes)> {
    if DecodeRecords(b).None? then None else PeerReads(DecodeRecords(b).value)
  }

  /** The contents of the records of one type, in order. */
  function OfType(rs: seq<Record>, rtype: nat): Bytes
    decreases |rs|
  {
    if rs == [] then [] else (if rs[0].rtype as nat == rtype then rs[0].content else []) + OfType(rs[1..], rtype)
  }

  // ---- what a request sends ----

  /** A record of ours: version 1, one request, no padding. */
  function Ours(rtype: byte, content: Bytes): Record {
    Record(1, rtype, REQUEST_ID, content, [], 0)
  }

  const BEGIN_BODY: Bytes := [0, RESPONDER, 0, 0, 0, 0, 0, 0]

  function Contents(rs: seq<Record>): Bytes
    decreases |rs|
  {
    if rs == [] then [] else rs[0].content + Contents(rs[1..])
  }

  /** `rs` carries `data` in order, in records of the given type, none empty and
      each full but the last. */
  ghost predicate Carries(rs: seq<Record>, rtype: byte, data: Bytes) {
    && (forall i | 0 <= i < |rs| :: rs[i] == Ours(rtype, rs[i].content) && 0 < |rs[i].content| <= CHUNK)
    && AllFull(rs, |rs| - 1)
    && Contents(rs) == data
  }

  /** The first `n` of `rs` hold 32 KiB each. */
  ghost predicate AllFull(rs: seq<Record>, n: int) {
    forall i | 0 <= i < |rs| && i < n :: |rs[i].content| == 32768
  }

  lemma {:induction false} ContentsMore(rs: seq<Record>, r: Record)
    ensures Contents(rs + [r]) == Contents(rs) + r.content
    decreases |rs|
  {
    if rs == [] {
      assert rs + [r] == [r] && [r][1..] == [];
    } else {
      ContentsMore(rs[1..], r);
      assert (rs + [r])[1..] == rs[1..] + [r];
    }
  }

  lemma NothingCarried(rtype: byte)
    ensures Carries([], rtype, []) && AllFull([], 0)
  {
  }

  lemma CarriesMore(rs: seq<Record>, rtype: byte, data: Bytes, chunk: Bytes)
    requires Carries(rs, rtype, data) && AllFull(rs, |rs|) && 0 < |chunk| <= CHUNK
    ensures |chunk| == CHUNK ==> AllFull(rs + [Ours(rtype, chunk)], |rs| + 1)
    ensures Carries(rs + [Ours(rtype, chunk)], rtype, data + chunk)
  {
    ContentsMore(rs, Ours(rtype, chunk));
  }

  datatype IoError = RecordTooLarge | UnexpectedEnd

  /** One connection: the bytes written so far, and those still to be read before
      the other side closes. */
  class Connection {
    var sent: Bytes
    var incoming: Bytes

    constructor (incoming: Bytes)
      ensures sent == [] && this.incoming == incoming
    {
      sent, this.incoming := [], incoming;
    }

    method WriteRecord(rtype: byte, content: Bytes) returns (r: Result<(), IoError>)
      modifies `sent
      ensures r.Ok? <==> |content| <= 0xFFFF
      ensures sent == if r.Ok? then old(sent) + Wire(Ours(rtype, content)) else old(sent)
    {
      if |content| > MAX_CONTENT { return Err(RecordTooLarge); }
      var len := |content|;
      var header: Bytes := [1, rtype, (REQUEST_ID / 256) as byte, Low(REQUEST_ID), (len / 256) as byte, Low(len), 0, 0];
      assert Wire(Ours(rtype, content)) == header + content;
      assert sent + header + content == sent + (header + content);
      sent := sent + header;
      sent := sent + content;
      return Ok(());
    }

    /** A payload of any size, in records of at most 32 KiB. */
    method WriteStream(rtype: byte, data: Bytes) returns (ghost rs: seq<Record>)
      modifies `sent
      ensures Carries(rs, rtype, data) && forall i | 0 <= i < |rs| :: Framed(rs[i])
      ensures sent == old(sent) + WireAll(rs)
    {
      hide Wire, WireAll, Carries, AllFull;
      rs := [];
      var done := 0;
      NothingCarried(rtype);
      WireNothing();
      while done < |data|
        invariant done <= |data| && Carries(rs, rtype, data[..done]) && forall i | 0 <= i < |rs| :: Framed(rs[i])
        invariant sent == old(sent) + WireAll(rs) && (done < |data| ==> AllFull(rs, |rs|))
      {
        var next := if done + CHUNK < |data| then done + CHUNK else |data|;
        var chunk := data[done..next];
        ghost var record := Ours(rtype, chunk);
        WireMore(rs, record);
        CarriesMore(rs, rtype, data[..done], chunk);
        assert data[..next] == data[..done] + chunk;
        var written := WriteRecord(rtype, chunk);
        assert old(sent) + WireAll(rs) + Wire(record) == old(sent) + (WireAll(rs) + Wire(record));
        rs := rs + [record];
        done := next;
      }
      assert data[..done] == data;
    }

    method WriteRequest(parameters: seq<Pair>, body: Bytes)
      modifies `sent
      ensures exists ps, ss :: SentRequest(old(sent), sent, parameters, body, ps, ss)
    {
      hide Wire, Carries, WireAll;
      ghost var was := sent;
      var begin := WriteRecord(BEGIN_REQUEST, BEGIN_BODY);
      assert |BEGIN_BODY| == 8 && begin.Ok?;
      var bytes: Bytes := [];
      for i := 0 to |parameters|
        invariant bytes == EncodePairs(parameters[..i])
        invariant sent == was + Wire(Ours(BEGIN_REQUEST, BEGIN_BODY))
      {
        EncodeMore(parameters[..i], parameters[i]);
        assert parameters[..i + 1] == parameters[..i] + [parameters[i]];
        bytes := bytes + EncodePair(parameters[i]);
      }
      assert parameters[..|parameters|] == parameters;
      ghost var ps := WriteStream(PARAMS, bytes);
      var endParams := WriteRecord(PARAMS, []);
      ghost var ss := WriteStream(STDIN, body);
      var endBody := WriteRecord(STDIN, []);
      Assembled(was, ps, ss);
      assert SentRequest(was, sent, parameters, body, ps, ss);
    }

    /** `read_exact`: all of `n` bytes, or what is left is consumed and the read
        fails. */
    method ReadExact(n: nat) returns (got: Option<Bytes>)
      modifies `incoming
      ensures got.Some? <==> n <= |old(incoming)|
      ensures got.Some? ==> got.value == old(incoming)[..n] && incoming == old(incoming)[n..]
      ensures got.None? ==> incoming == []
    {
      if n > |incoming| {
        incoming := [];
        return None;
      }
      got := Some(incoming[..n]);
      incoming := incoming[n..];
    }

    /** Reads records until the request ends; what comes back is the STDOUT
        stream. A connection that closes early is an error, unless it closes
        inside the last record's padding. */
    method ReadResponse() returns (r: Result<Bytes, IoError>)
      modifies `incoming
      ensures r == Response(old(incoming))
    {
      hide Response, Prepend, AfterRecord, Whole, ContentEnd, TypeOf;
      var stdout: Bytes := [];
      NothingFirst(Response(incoming));
      while true
        invariant Response(old(incoming)) == Prepend(stdout, Response(incoming))
        decreases |incoming|
      {
        ResponseStep(incoming, stdout);
        ghost var b := incoming;
        if |b| >= 8 { ReadInTurn(b); } else { TooShort(b); }
        var header := ReadExact(8);
        if header.None? { return Err(UnexpectedEnd); }
        var rtype := header.value[1];
        var contentLen := header.value[4] as nat * 256 + header.value[5] as nat;
        var padding := header.value[6] as nat;
        var content: Bytes := [];
        if contentLen > 0 {
          var got := ReadExact(contentLen);
          if got.None? { return Err(UnexpectedEnd); }
          content := got.value;
        }
        if padding > 0 {
          var _ := ReadExact(padding);
        }
        if rtype == STDOUT {
          stdout := stdout + content;
        } else if rtype == END_REQUEST {
          return Ok(stdout);
        }
      }
    }

    /** One request: everything written, then the response read. */
    method Request(parameters: seq<Pair>, body: Bytes) returns (r: Result<Bytes, IoError>)
      modifies this
      ensures exists ps, ss :: SentRequest(old(sent), sent, parameters, body, ps, ss)
      ensures old(sent) <= sent
      ensures (forall i | 0 <= i < |parameters| :: Small(parameters[i])) ==>
        PeerReadsBytes(sent[|old(sent)|..]) == Some((parameters, body))
      ensures r == Response(old(incoming))
    {
      hide SentRequest, PeerReadsBytes;
      WriteRequest(parameters, body);
      ghost var ps, ss :| SentRequest(old(sent), sent, parameters, body, ps, ss);
      WrittenAfter(old(sent), sent, parameters, body, ps, ss);
      r := ReadResponse();
      assert SentRequest(old(sent), sent, parameters, body, ps, ss);
    }
  }

  // ---- what a response means ----

  function Prepend(out: Bytes, r: Result<Bytes, IoError>): Result<Bytes, IoError> {
    match r
    case Ok(more) => Ok(out + more)
    case Err(_) => r
  }

  /** The header fields the reader uses, when there are eight bytes. */
  function TypeOf(b: Bytes): byte
    requires |b| >= 8
  {
    b[1]
  }

  function ContentEnd(b: Bytes): nat
    requires |b| >= 8
  {
    8 + (b[4] as nat * 256 + b[5] as nat)
  }

  function AfterRecord(b: Bytes): Bytes
    requires |b| >= 8
  {
    var end := ContentEnd(b) + b[6] as nat;
    if end <= |b| then b[end..] else []
  }

  /** The reader, record by record. */
  function Response(b: Bytes): Result<Bytes, IoError>
    decreases |b|
  {
    if |b| < 8 || |b| < ContentEnd(b) then Err(UnexpectedEnd)
    else if TypeOf(b) == END_REQUEST then Ok([])
    else Prepend(if TypeOf(b) == STDOUT then b[8..ContentEnd(b)] else [], Response(AfterRecord(b)))
  }

  lemma PrependTwice(a: Bytes, b: Bytes, r: Result<Bytes, IoError>)
    ensures Prepend(a, Prepend(b, r)) == Prepend(a + b, r)
    ensures Prepend([], r) == r
  {
    if r.Ok? { assert a + (b + r.value) == a + b + r.value && [] + r.value == r.value; }
  }

  predicate Whole(b: Bytes) {
    |b| >= 8 && |b| >= ContentEnd(b)
  }

  lemma ResponseStep(b: Bytes, out: Bytes)
    ensures !Whole(b) ==> Prepend(out, Response(b)) == Err(UnexpectedEnd)
    ensures Whole(b) && TypeOf(b) == END_REQUEST ==> Prepend(out, Response(b)) == Ok(out)
    ensures Whole(b) && TypeOf(b) == STDOUT ==>
      Prepend(out, Response(b)) == Prepend(out + b[8..ContentEnd(b)], Response(AfterRecord(b)))
    ensures Whole(b) && TypeOf(b) != STDOUT && TypeOf(b) != END_REQUEST ==>
      Prepend(out, Response(b)) == Prepend(out, Response(AfterRecord(b)))
  {
    hide AfterRecord, TypeOf;
    if Whole(b) {
      var more := if TypeOf(b) == STDOUT then b[8..ContentEnd(b)] else [];
      PrependTwice(out, more, Response(AfterRecord(b)));
      assert out + [] == out;
    }
  }

  /** Reading header, content and padding in turn leaves what follows the record. */
  lemma ReadInTurn(b: Bytes)
    requires |b| >= 8
    ensures var len, pad := ContentEnd(b) - 8, b[6] as nat;
      && len == b[..8][4] as nat * 256 + b[..8][5] as nat && TypeOf(b) == b[..8][1] && pad == b[..8][6] as nat
      && (len <= |b[8..]| <==> Whole(b))
      && (Whole(b) ==> b[8..][..len] == b[8..ContentEnd(b)] && b[8..][len..] == b[ContentEnd(b)..])
      && (Whole(b) ==> AfterRecord(b) == if pad <= |b[ContentEnd(b)..]| then b[ContentEnd(b)..][pad..] else [])
      && (len == 0 ==> b[8..ContentEnd(b)] == [] && b[ContentEnd(b)..] == b[8..])
      && b[ContentEnd(b) - len..] == b[8..]
  {
  }

  /** The STDOUT contents, in order. */
  function Stdout(rs: seq<Record>): Bytes
    decreases |rs|
  {
    if rs == [] then [] else (if rs[0].rtype == STDOUT then rs[0].content else []) + Stdout(rs[1..])
  }

  ghost predicate Running(rs: seq<Record>) {
    forall i | 0 <= i < |rs| :: Framed(rs[i]) && rs[i].rtype != END_REQUEST
  }

  lemma HeadFields(r: Record, rest: Bytes)
    requires Framed(r)
    ensures var b := Wire(r) + rest;
      |b| >= ContentEnd(b) && TypeOf(b) == r.rtype && b[8..ContentEnd(b)] == r.content && AfterRecord(b) == rest
  {
    RecordRoundTrips(r, rest);
    var b := Wire(r) + rest;
    assert b[8 + |r.content| + |r.padding|..] == rest;
  }

  /** Any records, however padded, up to the first END_REQUEST: the response is
      exactly their STDOUT contents, whatever follows, even if the end record's
      padding is cut short. */
  lemma {:induction false} ResponseIsStdout(rs: seq<Record>, end: Record, rest: Bytes)
    requires Running(rs) && Framed(end) && end.rtype == END_REQUEST
    ensures Response(WireAll(rs) + Head(end) + end.content + rest) == Ok(Stdout(rs))
    decreases |rs|
  {
    if rs == [] {
      var bare := end.(padding := []);
      var b := Head(end) + end.content + rest;
      assert WireAll(rs) + Head(end) + end.content + rest == b;
      assert b[..8] == Head(end);
      assert b[4] as nat * 256 + b[5] as nat == |end.content|;
    } else {
      hide Wire, Head, Response;
      var tail := WireAll(rs[1..]) + Head(end) + end.content + rest;
      assert WireAll(rs) + Head(end) + end.content + rest == Wire(rs[0]) + tail;
      HeadFields(rs[0], tail);
      ResponseStep(Wire(rs[0]) + tail, []);
      ResponseIsStdout(rs[1..], end, rest);
      assert [] + Stdout(rs) == Stdout(rs) && [] + rs[0].content == rs[0].content;
      NothingFirst(Response(Wire(rs[0]) + tail));
      NothingFirst(Response(tail));
    }
  }

  lemma NothingFirst(r: Result<Bytes, IoError>)
    ensures Prepend([], r) == r
  {
    PrependTwice([], [], r);
  }

  /** The end record at the front of `b`; what its padding held does not matter. */
  lemma EndAtFront(b: Bytes) returns (end: Record)
    requires Whole(b) && TypeOf(b) == END_REQUEST
    ensures Framed(end) && end.rtype == END_REQUEST && b == Head(end) + end.content + b[ContentEnd(b)..]
  {
    SplitFields(b);
    end := Record(b[0], b[1], b[2] as nat * 256 + b[3] as nat, b[8..ContentEnd(b)], Zeros(b[6] as nat), b[7]);
    assert Head(end) == b[..8];
    assert b == b[..8] + b[8..ContentEnd(b)] + b[ContentEnd(b)..];
  }

  lemma RecordAtFront(b: Bytes) returns (r: Record)
    requires Whole(b) && ContentEnd(b) + b[6] as nat <= |b|
    ensures Framed(r) && r.rtype == TypeOf(b) && r.content == b[8..ContentEnd(b)] && b == Wire(r) + AfterRecord(b)
  {
    SplitFields(b);
    var end := ContentEnd(b) + b[6] as nat;
    r := Record(b[0], b[1], b[2] as nat * 256 + b[3] as nat, b[8..ContentEnd(b)], b[ContentEnd(b)..end], b[7]);
    assert Head(r) == b[..8];
    assert b == b[..8] + b[8..ContentEnd(b)] + b[ContentEnd(b)..end] + b[end..];
  }

  /** The other way round: whenever the reader succeeds, what it read was such
      records and an END_REQUEST, and it returned exactly their STDOUT. */
  lemma {:induction false} SuccessMeansEnded(b: Bytes) returns (rs: seq<Record>, end: Record, rest: Bytes)
    requires Response(b).Ok?
    ensures Running(rs) && Framed(end) && end.rtype == END_REQUEST
    ensures b == WireAll(rs) + Head(end) + end.content + rest && Response(b) == Ok(Stdout(rs))
    decreases |b|
  {
    hide Response, Wire, Head, WireAll, AfterRecord, ContentEnd, Stdout;
    OkStep(b);
    if TypeOf(b) == END_REQUEST {
      end := EndAtFront(b);
      rs, rest := [], b[ContentEnd(b)..];
      NothingRead(Head(end));
    } else {
      var r := RecordAtFront(b);
      Smaller(b);
      var tail: seq<Record>;
      tail, end, rest := SuccessMeansEnded(AfterRecord(b));
      rs := [r] + tail;
      ReadBefore(r, tail, Head(end) + end.content + rest);
      assert WireAll(tail) + Head(end) + end.content + rest == WireAll(tail) + (Head(end) + end.content + rest);
      assert WireAll(rs) + Head(end) + end.content + rest == WireAll(rs) + (Head(end) + end.content + rest);
    }
  }

  lemma OkStep(b: Bytes)
    requires Response(b).Ok?
    ensures Whole(b)
    ensures TypeOf(b) == END_REQUEST ==> Response(b) == Ok([])
    ensures TypeOf(b) != END_REQUEST ==>
      && ContentEnd(b) + b[6] as nat <= |b| && Response(AfterRecord(b)).Ok?
      && Response(b) == Ok((if TypeOf(b) == STDOUT then b[8..ContentEnd(b)] else []) + Response(AfterRecord(b)).value)
  {
    EmptyIsAnError();
  }

  lemma NothingRead(head: Bytes)
    ensures WireAll([]) + head == head && Stdout([]) == [] && Running([])
  {
  }

  lemma ReadBefore(r: Record, tail: seq<Record>, more: Bytes)
    requires Running(tail) && Framed(r) && r.rtype != END_REQUEST
    ensures Running([r] + tail)
    ensures WireAll([r] + tail) + more == Wire(r) + (WireAll(tail) + more)
    ensures Stdout([r] + tail) == (if r.rtype == STDOUT then r.content else []) + Stdout(tail)
  {
    hide Wire;
    assert ([r] + tail)[1..] == tail;
  }

  lemma Smaller(b: Bytes)
    requires |b| >= 8
    ensures |AfterRecord(b)| < |b|
  {
  }

  lemma TooShort(b: Bytes)
    requires |b| < 8
    ensures !Whole(b)
  {
  }

  function Zeros(n: nat): Bytes {
    seq(n, i requires 0 <= i < n => 0)
  }

  lemma EmptyIsAnError()
    ensures Response([]).Err?
  {
  }

  lemma SplitFields(b: Bytes)
    requires |b| >= 8
    ensures var len := b[4] as nat * 256 + b[5] as nat; var id := b[2] as nat * 256 + b[3] as nat;
      b[..8] == [b[0], b[1], (id / 256) as byte, Low(id), (len / 256) as byte, Low(len), b[6], b[7]]
  {
  }

  /** The whole message: the begin record, the parameters, their empty terminator,
      the body, its empty terminator. */
  function Message(ps: seq<Record>, ss: seq<Record>): seq<Record> {
    [Ours(BEGIN_REQUEST, BEGIN_BODY)] + ps + [Ours(PARAMS, [])] + ss + [Ours(STDIN, [])]
  }

  ghost predicate SentRequest(before: Bytes, after: Bytes, parameters: seq<Pair>, body: Bytes,
                              ps: seq<Record>, ss: seq<Record>) {
    && Carries(ps, PARAMS, EncodePairs(parameters)) && Carries(ss, STDIN, body)
    && (forall i | 0 <= i < |Message(ps, ss)| :: Framed(Message(ps, ss)[i]))
    && after == before + WireAll(Message(ps, ss))
  }

  lemma {:induction false} EncodeMore(ps: seq<Pair>, p: Pair)
    ensures EncodePairs(ps + [p]) == EncodePairs(ps) + EncodePair(p)
    decreases |ps|
  {
    hide EncodePair;
    if ps == [] {
      assert ps + [p] == [p] && [p][1..] == [];
      assert EncodePairs([]) == [] && EncodePair(p) + [] == EncodePair(p);
    } else {
      EncodeMore(ps[1..], p);
      assert (ps + [p])[1..] == ps[1..] + [p] && (ps + [p])[0] == ps[0];
    }
  }

  lemma {:induction false} WireConcat(a: seq<Record>, b: seq<Record>)
    requires (forall i | 0 <= i < |a| :: Framed(a[i])) && (forall i | 0 <= i < |b| :: Framed(b[i]))
    ensures WireAll(a + b) == WireAll(a) + WireAll(b)
    decreases |a|
  {
    hide Wire;
    if a == [] {
      assert a + b == b;
    } else {
      WireConcat(a[1..], b);
      assert (a + b)[1..] == a[1..] + b && (a + b)[0] == a[0];
    }
  }

  lemma Assembled(was: Bytes, ps: seq<Record>, ss: seq<Record>)
    requires (forall i | 0 <= i < |ps| :: Framed(ps[i])) && (forall i | 0 <= i < |ss| :: Framed(ss[i]))
    ensures forall i | 0 <= i < |Message(ps, ss)| :: Framed(Message(ps, ss)[i])
    ensures was + Wire(Ours(BEGIN_REQUEST, BEGIN_BODY)) + WireAll(ps) + Wire(Ours(PARAMS, [])) + WireAll(ss)
            + Wire(Ours(STDIN, [])) == was + WireAll(Message(ps, ss))
  {
    hide Wire, WireAll;
    var b, p, s := Ours(BEGIN_REQUEST, BEGIN_BODY), Ours(PARAMS, []), Ours(STDIN, []);
    WireNothing();
    WireMore([], b);
    assert [] + [b] == [b] && [] + Wire(b) == Wire(b);
    WireConcat([b], ps);
    WireMore([b] + ps, p);
    WireConcat([b] + ps + [p], ss);
    WireMore([b] + ps + [p] + ss, s);
    var w := Wire(b) + WireAll(ps) + Wire(p) + WireAll(ss) + Wire(s);
    assert WireAll(Message(ps, ss)) == w;
    assert was + Wire(b) + WireAll(ps) + Wire(p) + WireAll(ss) + Wire(s) == was + w;
  }

  lemma WireNothing()
    ensures WireAll([]) == []
  {
  }

  /** What any FastCGI peer reads from a request: the records split apart again,
      the parameter records carrying exactly the pairs and the STDIN records
      exactly the body, with no empty record before either terminator. */
  lemma RequestRoundTrips(sent: Bytes, parameters: seq<Pair>, body: Bytes, ps: seq<Record>, ss: seq<Record>)
    requires SentRequest([], sent, parameters, body, ps, ss)
    requires forall i | 0 <= i < |parameters| :: Small(parameters[i])
    ensures DecodeRecords(sent) == Some(Message(ps, ss))
    ensures DecodePairs(Contents(ps)) == Some(parameters) && Contents(ss) == body
    ensures (forall r | r in ps :: r.rtype == 4 && r.id == 1 && 0 < |r.content| <= 32768) && AllFull(ps, |ps| - 1)
    ensures (forall r | r in ss :: r.rtype == 5 && r.id == 1 && 0 < |r.content| <= 32768) && AllFull(ss, |ss| - 1)
  {
    hide WireAll, DecodeRecords, DecodePairs, EncodePairs;
    assert [] + WireAll(Message(ps, ss)) == WireAll(Message(ps, ss));
    RecordsRoundTrip(Message(ps, ss));
    PairsRoundTrip(parameters);
  }

  lemma {:induction false} CollectsWhatIsCarried(rs: seq<Record>, rtype: byte, data: Bytes, rest: seq<Record>)
    requires Carries(rs, rtype, data)
    ensures Collect(rs + [Ours(rtype, [])] + rest, rtype as nat, 1) == Some((data, rest))
    decreases |rs|
  {
    var end := Ours(rtype, []);
    if rs == [] {
      assert rs + [end] + rest == [end] + rest && ([end] + rest)[1..] == rest;
    } else {
      assert (rs + [end] + rest)[1..] == rs[1..] + [end] + rest;
      assert (rs + [end] + rest)[0] == rs[0];
      CarriesRest(rs, rtype, data);
      CollectsWhatIsCarried(rs[1..], rtype, Contents(rs[1..]), rest);
    }
  }

  lemma CarriesRest(rs: seq<Record>, rtype: byte, data: Bytes)
    requires Carries(rs, rtype, data) && rs != []
    ensures Carries(rs[1..], rtype, Contents(rs[1..])) && data == rs[0].content + Contents(rs[1..])
    ensures rs[0] == Ours(rtype, rs[0].content) && rs[0].content != []
  {
    forall i | 0 <= i < |rs[1..]|
      ensures rs[1..][i] == rs[i + 1]
    {
    }
  }

  /** Any application that goes by the specification's numbers reads exactly the pairs
      and the body. */
  lemma PeerReadsTheRequest(sent: Bytes, parameters: seq<Pair>, body: Bytes, ps: seq<Record>, ss: seq<Record>)
    requires SentRequest([], sent, parameters, body, ps, ss)
    requires forall i | 0 <= i < |parameters| :: Small(parameters[i])
    ensures PeerReadsBytes(sent) == Some((parameters, body))
  {
    hide WireAll, DecodeRecords, DecodePairs, EncodePairs, Collect;
    RequestRoundTrips(sent, parameters, body, ps, ss);
    PairsRoundTrip(parameters);
    var m := Message(ps, ss);
    var begin, mid, end := Ours(BEGIN_REQUEST, BEGIN_BODY), Ours(PARAMS, []), Ours(STDIN, []);
    assert m[0] == begin && m[1..] == ps + [mid] + (ss + [end]);
    CollectsWhatIsCarried(ps, PARAMS, EncodePairs(parameters), ss + [end]);
    CollectsWhatIsCarried(ss, STDIN, body, []);
    assert ss + [end] + [] == ss + [end];
  }

  lemma WrittenAfter(before: Bytes, after: Bytes, parameters: seq<Pair>, body: Bytes, ps: seq<Record>, ss: seq<Record>)
    requires SentRequest(before, after, parameters, body, ps, ss)
    ensures before <= after
    ensures (forall i | 0 <= i < |parameters| :: Small(parameters[i])) ==>
      PeerReadsBytes(after[|before|..]) == Some((parameters, body))
  {
    hide WireAll, PeerReadsBytes, Carries;
    var wire := WireAll(Message(ps, ss));
    assert after == before + wire && after[|before|..] == wire && [] + wire == wire;
    if forall i | 0 <= i < |parameters| :: Small(parameters[i]) {
      PeerReadsTheRequest(wire, parameters, body, ps, ss);
    }
  }

  /** The response by those numbers: the contents of the records of type 6 up to the
      first of type 3. */
  lemma {:induction false} ResponseIsTypeSix(rs: seq<Record>, end: Record, rest: Bytes)
    requires (forall i | 0 <= i < |rs| :: Framed(rs[i]) && rs[i].rtype != 3) && Framed(end) && end.rtype == 3
    ensures Response(WireAll(rs) + Head(end) + end.content + rest) == Ok(OfType(rs, 6))
  {
    hide WireAll, Head;
    ResponseIsStdout(rs, end, rest);
    StdoutIsTypeSix(rs);
  }

  lemma {:induction false} StdoutIsTypeSix(rs: seq<Record>)
    ensures Stdout(rs) == OfType(rs, 6)
    decreases |rs|
  {
    if rs != [] { StdoutIsTypeSix(rs[1..]); }
  }
}
