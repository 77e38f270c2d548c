// The frp control framing of internal/msg/msg.go: one type byte, an eight-byte
// big-endian length, the body.
module Framing {
  import opened Wrappers
  import opened Bytes
  import opened Streams

  const HEADER_SIZE := 9
  const MAX_BODY_SIZE := 10240
  const MAX_POOLED_BUF_SIZE := 65536
  const NEW_BUF_SIZE := 4096

  // The ten message types, with the fields the server acts on. Absent is the nil
  // Message, which has no wire type.
  datatype Message =
    | Login(runId: string, poolCount: int)
    | LoginResp(runId: string, error: string)
    | NewProxy(proxyName: string, proxyType: string, customDomains: seq<string>, locations: seq<string>)
    | NewProxyResp(proxyName: string, remoteAddr: string, error: string)
    | CloseProxy(proxyName: string)
    | ReqWorkConn(count: int)
    | NewWorkConn(runId: string)
    | StartWorkConn(proxyName: string)
    | Ping
    | Pong(error: string)
    | Absent

  datatype Kind = KLogin | KLoginResp | KNewProxy | KNewProxyResp | KCloseProxy | KReqWorkConn
                | KNewWorkConn | KStartWorkConn | KPing | KPong

  datatype ReadResult = Ok(m: Message) | Eof | BadLength(length: int) | UnknownType(t: Byte) | BadBody

  datatype WriteResult = Written | NoType | NoBody | WriteFailed

  // TypeOf
  function TypeOf(m: Message): Option<Byte> {
    match m
    case Login(_, _) => Some(0x6f)
    case LoginResp(_, _) => Some(0x31)
    case NewProxy(_, _, _, _) => Some(0x70)
    case NewProxyResp(_, _, _) => Some(0x32)
    case CloseProxy(_) => Some(0x63)
    case ReqWorkConn(_) => Some(0x72)
    case NewWorkConn(_) => Some(0x77)
    case StartWorkConn(_) => Some(0x73)
    case Ping => Some(0x68)
    case Pong(_) => Some(0x34)
    case Absent => None
  }

  // typeTo: which message a type byte makes.
  function TypeTo(t: Byte): Option<Kind> {
    if t == 0x6f then Some(KLogin)
    else if t == 0x31 then Some(KLoginResp)
    else if t == 0x70 then Some(KNewProxy)
    else if t == 0x32 then Some(KNewProxyResp)
    else if t == 0x63 then Some(KCloseProxy)
    else if t == 0x72 then Some(KReqWorkConn)
    else if t == 0x77 then Some(KNewWorkConn)
    else if t == 0x73 then Some(KStartWorkConn)
    else if t == 0x68 then Some(KPing)
    else if t == 0x34 then Some(KPong)
    else None
  }

  function KindOf(m: Message): Option<Kind> {
    match m
    case Login(_, _) => Some(KLogin)
    case LoginResp(_, _) => Some(KLoginResp)
    case NewProxy(_, _, _, _) => Some(KNewProxy)
    case NewProxyResp(_, _, _) => Some(KNewProxyResp)
    case CloseProxy(_) => Some(KCloseProxy)
    case ReqWorkConn(_) => Some(KReqWorkConn)
    case NewWorkConn(_) => Some(KNewWorkConn)
    case StartWorkConn(_) => Some(KStartWorkConn)
    case Ping => Some(KPing)
    case Pong(_) => Some(KPong)
    case Absent => None
  }

  // The body codec (JSON in the original).
  datatype Codec = Codec(marshal: Message -> Option<seq<Byte>>, unmarshal: (Kind, seq<Byte>) -> Option<Message>)

  // Unmarshalling a marshalled body into a message of its own type gives it back.
  ghost predicate Inverts(c: Codec) {
    forall m: Message :: m != Absent && c.marshal(m).Some? ==>
      c.unmarshal(KindOf(m).value, c.marshal(m).value) == Some(m)
  }

  function Frame(t: Byte, body: seq<Byte>): seq<Byte> {
    [t] + BigEndian(|body|, 8) + body
  }

  // What WriteMsg sends for m, if it gets that far.
  function Encode(c: Codec, m: Message): Option<seq<Byte>> {
    if TypeOf(m).None? || c.marshal(m).None? then None
    else Some(Frame(TypeOf(m).value, c.marshal(m).value))
  }

  // ReadMsg on a byte stream: the result and what is left to read.
  function Parse(c: Codec, s: seq<Byte>): (ReadResult, seq<Byte>) {
    if |s| < HEADER_SIZE then (Eof, [])
    else
      var u := FromBigEndian(s[1..HEADER_SIZE]);
      var length := if u < UINT64_LIMIT then ToInt64(u) else -1;
      var rest := s[HEADER_SIZE..];
      if length < 0 || length > MAX_BODY_SIZE then (BadLength(length), rest)
      else if TypeTo(s[0]).None? then (UnknownType(s[0]), rest)
      else if |rest| < length then (Eof, [])
      else
        match c.unmarshal(TypeTo(s[0]).value, rest[..length])
        case None => (BadBody, rest[length..])
        case Some(m) => (Ok(m), rest[length..])
  }

  // ---- the pooled buffers ---------------------------------------------------------

  // sync.Pool of byte slices. A buffer comes back with whatever was last written to it;
  // the pool may also drop buffers and make new ones.
  class BufPool {
    var bufs: set<array<Byte>>

    constructor ()
      ensures bufs == {}
    {
      bufs := {};
    }

    method Get() returns (buf: array<Byte>)
      modifies this
      ensures fresh(buf) || buf in old(bufs)
      ensures bufs <= old(bufs) && buf !in bufs
    {
      if bufs == {} {
        buf := new Byte[NEW_BUF_SIZE];
      } else {
        buf :| buf in bufs;
        bufs := bufs - {buf};
      }
    }

    method Put(buf: array<Byte>)
      modifies this
      ensures bufs == old(bufs) + (if buf.Length <= MAX_POOLED_BUF_SIZE then {buf} else {})
    {
      if buf.Length <= MAX_POOLED_BUF_SIZE {
        bufs := bufs + {buf};
      }
    }
  }

  // bufio.Writer over an io.Writer that may fail: what reached the connection, what is
  // still buffered, and the sticky error.
  class BufWriter {
    var emitted: seq<Byte>
    var buffered: seq<Byte>
    var broken: bool

    constructor ()
      ensures emitted == [] && buffered == [] && !broken
    {
      emitted, buffered, broken := [], [], false;
    }

    ghost function Content(): seq<Byte>
      reads this
    {
      emitted + buffered
    }

    // Accepts p, passing on any amount from the front; on an error part of p is lost.
    method Write(p: seq<Byte>) returns (ok: bool)
      modifies this
      ensures ok <==> !broken
      ensures old(broken) ==> broken && emitted == old(emitted) && buffered == old(buffered)
      ensures old(emitted) <= emitted
      ensures ok ==> Content() == old(Content()) + p
      ensures !ok ==> old(Content()) <= Content() <= old(Content()) + p
    {
      if broken {
        return false;
      }
      ghost var before := Content();
      ok := *;
      broken := !ok;
      var kept := |p|;
      if !ok {
        kept :| 0 <= kept <= |p|;
      }
      var all := buffered + p[..kept];
      var out: nat :| out <= |all|;
      emitted, buffered := emitted + all[..out], all[out..];
      assert all[..out] + all[out..] == all;
      assert Content() == before + p[..kept];
      assert p[..|p|] == p;
    }

    method Flush() returns (ok: bool)
      modifies this
      ensures ok <==> !broken
      ensures old(broken) ==> broken
      ensures old(emitted) <= emitted && Content() == old(Content())
      ensures ok ==> buffered == []
    {
      if broken {
        return false;
      }
      ok := *;
      if ok {
        emitted, buffered := emitted + buffered, [];
      } else {
        broken := true;
        var out: nat :| out <= |buffered|;
        assert buffered[..out] + buffered[out..] == buffered;
        emitted, buffered := emitted + buffered[..out], buffered[out..];
      }
    }
  }

  // ---- WriteMsg and ReadMsg ---------------------------------------------------------

  // binary.BigEndian.PutUint64 at buf[1..9].
  method PutUint64(buf: array<Byte>, n: nat)
    requires buf.Length >= HEADER_SIZE && n < UINT64_LIMIT
    modifies buf
    ensures buf[1..HEADER_SIZE] == BigEndian(n, 8)
    ensures buf[0] == old(buf[0]) && buf[HEADER_SIZE..] == old(buf[HEADER_SIZE..])
  {
    var i := 8;
    var rest := n;
    ghost var low: seq<Byte> := [];
    while i > 0
      invariant 0 <= i <= 8 && buf[i + 1..HEADER_SIZE] == low
      invariant BigEndian(rest, i) + low == BigEndian(n, 8)
      invariant buf[0] == old(buf[0]) && buf[HEADER_SIZE..] == old(buf[HEADER_SIZE..])
    {
      buf[i] := (rest % 256) as Byte;
      low := [(rest % 256) as Byte] + low;
      assert BigEndian(rest, i) == BigEndian(rest / 256, i - 1) + [(rest % 256) as Byte];
      rest := rest / 256;
      i := i - 1;
    }
    assert BigEndian(rest, 0) + low == low;
  }

  // Lays out a whole frame in the front of buf.
  method FillFrame(buf: array<Byte>, t: Byte, body: seq<Byte>)
    requires buf.Length >= HEADER_SIZE + |body| && |body| < UINT64_LIMIT
    modifies buf
    ensures buf[..HEADER_SIZE + |body|] == Frame(t, body)
  {
    buf[0] := t;
    PutUint64(buf, |body|);
    forall i | 0 <= i < |body| {
      buf[HEADER_SIZE + i] := body[i];
    }
    var need := HEADER_SIZE + |body|;
    assert buf[..need] == buf[..1] + buf[1..HEADER_SIZE] + buf[HEADER_SIZE..need];
    assert buf[HEADER_SIZE..need] == body;
  }

  // Writes exactly the encoding of m, whatever the pooled buffer held before.
  method WriteMsg(c: Codec, pool: BufPool, w: BufWriter, m: Message) returns (r: WriteResult)
    requires c.marshal(m).Some? ==> |c.marshal(m).value| < INT64_LIMIT - HEADER_SIZE
    modifies pool, pool.bufs, w
    ensures Encode(c, m).None? <==> r.NoType? || r.NoBody?
    ensures Encode(c, m).None? ==>
              w.emitted == old(w.emitted) && w.buffered == old(w.buffered) && w.broken == old(w.broken)
    ensures Encode(c, m).Some? ==> (r.Written? <==> !w.broken) && old(w.emitted) <= w.emitted
    ensures r.Written? ==> w.Content() == old(w.Content()) + Encode(c, m).value
    ensures r.WriteFailed? ==> old(w.Content()) <= w.Content() <= old(w.Content()) + Encode(c, m).value
    ensures fresh(pool.bufs - old(pool.bufs))
  {
    var t := TypeOf(m);
    if t.None? {
      return NoType;
    }
    var body := c.marshal(m);
    if body.None? {
      return NoBody;
    }
    var need := HEADER_SIZE + |body.value|;
    var buf := pool.Get();
    if buf.Length < need {
      buf := new Byte[need];
    }
    FillFrame(buf, t.value, body.value);
    var ok := w.Write(buf[..need]);
    pool.Put(buf);
    r := if ok then Written else WriteFailed;
  }

  // The type byte and the length as an int64.
  method ReadHeader(conn: Conn) returns (ok: bool, t: Byte, length: int)
    modifies conn
    ensures ok <==> |old(conn.Stream())| >= HEADER_SIZE
    ensures ok ==>
              var s := old(conn.Stream());
              && t == s[0] && conn.Stream() == s[HEADER_SIZE..]
              && FromBigEndian(s[1..HEADER_SIZE]) < UINT64_LIMIT
              && length == ToInt64(FromBigEndian(s[1..HEADER_SIZE]))
    ensures !ok ==> conn.Stream() == []
  {
    ghost var s := conn.Stream();
    t, length := 0, 0;
    var typeBuf := new Byte[1];
    ok := conn.ReadFull(typeBuf, 1);
    if !ok {
      return;
    }
    assert typeBuf[0] == s[0] by { assert typeBuf[..1][0] == s[..1][0]; }
    t := typeBuf[0];
    var lenBuf := new Byte[8];
    ok := conn.ReadFull(lenBuf, 8);
    if !ok {
      return;
    }
    assert lenBuf[..] == lenBuf[..8] == s[1..][..8] == s[1..HEADER_SIZE];
    assert s[1..][8..] == s[HEADER_SIZE..];
    FromBigEndianBound(lenBuf[..]);
    Pow256Of8();
    length := ToInt64(FromBigEndian(lenBuf[..]));
  }

  // Reads one message, as Parse does, whatever the pooled buffer held before.
  method ReadMsg(c: Codec, pool: BufPool, conn: Conn) returns (r: ReadResult)
    modifies pool, pool.bufs, conn
    ensures r == Parse(c, old(conn.Stream())).0
    ensures conn.Stream() == Parse(c, old(conn.Stream())).1
    ensures fresh(pool.bufs - old(pool.bufs))
  {
    var ok, t, length := ReadHeader(conn);
    if !ok {
      return Eof;
    }
    if length < 0 || length > MAX_BODY_SIZE {
      return BadLength(length);
    }
    var kind := TypeTo(t);
    if kind.None? {
      return UnknownType(t);
    }
    var body := pool.Get();
    if body.Length < length {
      body := new Byte[length];
    }
    ok := conn.ReadFull(body, length);
    if !ok {
      pool.Put(body);
      return Eof;
    }
    var m := c.unmarshal(kind.value, body[..length]);
    pool.Put(body);
    r := if m.None? then BadBody else Ok(m.value);
  }

  // ---- what the framing promises -------------------------------------------------------

  // TypeOf and typeTo are inverse on the ten types, and distinct types have distinct bytes.
  lemma TypesInverse(m: Message, t: Byte)
    ensures m != Absent ==> TypeOf(m).Some? && TypeTo(TypeOf(m).value) == KindOf(m)
    ensures TypeTo(t).Some? <==> exists x: Message :: TypeOf(x) == Some(t)
  {
    if TypeTo(t).Some? {
      var x :=
        match TypeTo(t).value
        case KLogin => Login("", 0)
        case KLoginResp => LoginResp("", "")
        case KNewProxy => NewProxy("", "", [], [])
        case KNewProxyResp => NewProxyResp("", "", "")
        case KCloseProxy => CloseProxy("")
        case KReqWorkConn => ReqWorkConn(0)
        case KNewWorkConn => NewWorkConn("")
        case KStartWorkConn => StartWorkConn("")
        case KPing => Ping
        case KPong => Pong("");
      assert TypeOf(x) == Some(t);
    }
  }

  // The letters of the frp protocol.
  lemma TypeLetters(m: Message)
    ensures var letter := TypeOf(m);
            && (m.Login? <==> letter == Some('o' as int as Byte))
            && (m.LoginResp? <==> letter == Some('1' as int as Byte))
            && (m.NewProxy? <==> letter == Some('p' as int as Byte))
            && (m.NewProxyResp? <==> letter == Some('2' as int as Byte))
            && (m.CloseProxy? <==> letter == Some('c' as int as Byte))
            && (m.ReqWorkConn? <==> letter == Some('r' as int as Byte))
            && (m.NewWorkConn? <==> letter == Some('w' as int as Byte))
            && (m.StartWorkConn? <==> letter == Some('s' as int as Byte))
            && (m.Ping? <==> letter == Some('h' as int as Byte))
            && (m.Pong? <==> letter == Some('4' as int as Byte))
  {
  }

  // On the wire: the type byte, the eight bytes of the length with the most significant
  // first, the body.
  lemma FrameLayout(t: Byte, body: seq<Byte>, i: nat)
    requires i < HEADER_SIZE + |body|
    ensures |Frame(t, body)| == 9 + |body|
    ensures Frame(t, body)[i] as int ==
            if i == 0 then t as int
            else if i < 9 then ShiftBytes(|body|, 8 - i) % 256
            else body[i - 9] as int
  {
    if 0 < i < 9 {
      BigEndianAt(|body|, 8, i - 1);
    }
  }

  lemma FrameParts(t: Byte, body: seq<Byte>, rest: seq<Byte>)
    requires |body| < INT64_LIMIT
    ensures var s := Frame(t, body) + rest;
            && s[0] == t && |s| == HEADER_SIZE + |body| + |rest|
            && FromBigEndian(s[1..HEADER_SIZE]) == |body|
            && s[HEADER_SIZE..] == body + rest
  {
    var length := BigEndian(|body|, 8);
    var s := Frame(t, body) + rest;
    assert s == [t] + (length + (body + rest));
    assert s[1..] == length + (body + rest);
    assert s[1..HEADER_SIZE] == s[1..][..8] == length;
    assert s[HEADER_SIZE..] == s[1..][8..] == body + rest;
    Pow256Of8();
    BigEndianRoundTrip(|body|, 8);
  }

  // A written message reads back, consuming exactly its own bytes, if and only if its
  // body is within the limit: WriteMsg itself enforces none.
  lemma RoundTrip(c: Codec, m: Message, rest: seq<Byte>)
    requires Inverts(c) && Encode(c, m).Some? && |c.marshal(m).value| < INT64_LIMIT
    ensures Parse(c, Encode(c, m).value + rest) == (Ok(m), rest) <==> |c.marshal(m).value| <= MAX_BODY_SIZE
  {
    var body := c.marshal(m).value;
    FrameParts(TypeOf(m).value, body, rest);
    TypesInverse(m, 0);
    assert (body + rest)[..|body|] == body && (body + rest)[|body|..] == rest;
  }

  function EncodeAll(c: Codec, ms: seq<Message>): seq<Byte>
    requires forall m | m in ms :: Encode(c, m).Some?
  {
    if ms == [] then [] else Encode(c, ms[0]).value + EncodeAll(c, ms[1..])
  }

  // Reads n messages off a stream, stopping at the first error.
  function ParseMany(c: Codec, s: seq<Byte>, n: nat): (seq<ReadResult>, seq<Byte>)
    decreases n
  {
    if n == 0 then ([], s)
    else
      var (r, rest) := Parse(c, s);
      if !r.Ok? then ([r], rest)
      else
        var (rs, last) := ParseMany(c, rest, n - 1);
        ([r] + rs, last)
  }

  function AllOk(ms: seq<Message>): seq<ReadResult> {
    if ms == [] then [] else [Ok(ms[0])] + AllOk(ms[1..])
  }

  lemma ParseOne(c: Codec, s: seq<Byte>, n: nat, m: Message, rest: seq<Byte>)
    requires n > 0 && Parse(c, s) == (Ok(m), rest)
    ensures ParseMany(c, s, n) == ([Ok(m)] + ParseMany(c, rest, n - 1).0, ParseMany(c, rest, n - 1).1)
  {
  }

  // Any concatenation of written messages reads back as the same messages.
  lemma {:induction false} SelfDelimiting(c: Codec, ms: seq<Message>, rest: seq<Byte>)
    requires Inverts(c)
    requires forall m | m in ms :: Encode(c, m).Some? && |c.marshal(m).value| <= MAX_BODY_SIZE
    ensures ParseMany(c, EncodeAll(c, ms) + rest, |ms|) == (AllOk(ms), rest)
  {
    if ms == [] {
      assert EncodeAll(c, ms) + rest == rest;
    } else {
      var more := EncodeAll(c, ms[1..]) + rest;
      RoundTrip(c, ms[0], more);
      assert EncodeAll(c, ms) + rest == Encode(c, ms[0]).value + more;
      ParseOne(c, EncodeAll(c, ms) + rest, |ms|, ms[0], more);
      SelfDelimiting(c, ms[1..], rest);
    }
  }

  // A type byte nobody knows is refused with only the header consumed, if the length is not.
  lemma UnknownTypeRefused(c: Codec, t: Byte, n: nat, rest: seq<Byte>)
    requires n <= MAX_BODY_SIZE && forall x: Message :: TypeOf(x) != Some(t)
    ensures Parse(c, [t] + BigEndian(n, 8) + rest) == (UnknownType(t), rest)
  {
    var s := [t] + BigEndian(n, 8) + rest;
    assert s[1..HEADER_SIZE] == BigEndian(n, 8) && s[HEADER_SIZE..] == rest;
    Pow256Of8();
    BigEndianRoundTrip(n, 8);
    TypesInverse(Ping, t);
  }

  // A length that is negative as int64 or above the limit is refused with only the
  // header consumed.
  lemma BadLengthRefused(c: Codec, t: Byte, u: nat, rest: seq<Byte>)
    requires u < UINT64_LIMIT
    ensures var s := [t] + BigEndian(u, 8) + rest;
            Parse(c, s) == (BadLength(ToInt64(u)), rest) <==> u >= INT64_LIMIT || u > MAX_BODY_SIZE
  {
    var s := [t] + BigEndian(u, 8) + rest;
    assert s[1..HEADER_SIZE] == BigEndian(u, 8);
    assert s[HEADER_SIZE..] == rest;
    Pow256Of8();
    BigEndianRoundTrip(u, 8);
  }
}
