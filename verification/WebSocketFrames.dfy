// The WebSocket frame printer and parser of test/compat/capture/capture.go (sections
// 5.2 and 5.3 of RFC 6455), with the reader's buffer and the slices handed out of it.
module WebSocketFrames {
  import opened Bytes
  import opened Streams

  const TEXT_FIN: Byte := 0x81
  const MASK_KEY: seq<Byte> := [0x12, 0x34, 0x56, 0x78]
  const READ_SIZE := 4096

  // ---- exclusive or ---------------------------------------------------------------------

  function Pow2(k: nat): nat {
    if k == 0 then 1 else 2 * Pow2(k - 1)
  }

  // The low k bits of a ^ b.
  function XorBits(a: nat, b: nat, k: nat): (r: nat)
    ensures r < Pow2(k)
  {
    if k == 0 then 0 else (a % 2 + b % 2) % 2 + 2 * XorBits(a / 2, b / 2, k - 1)
  }

  function Xor(a: Byte, b: Byte): Byte {
    assert Pow2(8) == 256;
    XorBits(a as nat, b as nat, 8) as Byte
  }

  lemma Halves(bit: nat, rest: nat)
    requires bit < 2
    ensures (bit + 2 * rest) % 2 == bit && (bit + 2 * rest) / 2 == rest
  {
  }

  lemma BitTwice(a: nat, b: nat)
    ensures ((a % 2 + b % 2) % 2 + b % 2) % 2 == a % 2 && a == a % 2 + 2 * (a / 2)
  {
  }

  lemma {:induction false} XorBitsTwice(a: nat, b: nat, k: nat)
    requires a < Pow2(k)
    ensures XorBits(XorBits(a, b, k), b, k) == a
  {
    if k > 0 {
      XorBitsTwice(a / 2, b / 2, k - 1);
      Halves((a % 2 + b % 2) % 2, XorBits(a / 2, b / 2, k - 1));
      BitTwice(a, b);
    }
  }

  function Bit(x: nat, i: nat): nat {
    if i == 0 then x % 2 else Bit(x / 2, i - 1)
  }

  // Exclusive or: a bit is set exactly where the two differ.
  lemma {:induction false} XorBitsAt(a: nat, b: nat, k: nat, i: nat)
    requires i < k
    ensures Bit(XorBits(a, b, k), i) == 1 <==> Bit(a, i) != Bit(b, i)
  {
    var rest := XorBits(a / 2, b / 2, k - 1);
    Halves((a % 2 + b % 2) % 2, rest);
    if i > 0 {
      XorBitsAt(a / 2, b / 2, k - 1, i - 1);
    }
  }

  lemma XorAt(a: Byte, b: Byte, i: nat)
    requires i < 8
    ensures Bit(Xor(a, b) as nat, i) == 1 <==> Bit(a as nat, i) != Bit(b as nat, i)
  {
    assert Pow2(8) == 256;
    XorBitsAt(a as nat, b as nat, 8, i);
  }

  lemma XorTwice(a: Byte, b: Byte)
    ensures Xor(Xor(a, b), b) == a
  {
    assert Pow2(8) == 256;
    XorBitsTwice(a as nat, b as nat, 8);
  }

  function Masked(p: seq<Byte>, key: seq<Byte>): (r: seq<Byte>)
    requires |key| == 4
    ensures |r| == |p| && forall i | 0 <= i < |p| :: r[i] == Xor(p[i], key[i % 4])
  {
    seq(|p|, i requires 0 <= i < |p| => Xor(p[i], key[i % 4]))
  }

  lemma MaskTwice(p: seq<Byte>, key: seq<Byte>)
    requires |key| == 4
    ensures Masked(Masked(p, key), key) == p
  {
    forall i | 0 <= i < |p| ensures Masked(Masked(p, key), key)[i] == p[i] {
      XorTwice(p[i], key[i % 4]);
    }
  }

  // ---- the client frame --------------------------------------------------------------------

  // The masked bit and the length: in seven bits, or 126 and two bytes, or 127 and eight.
  function LengthBytes(n: nat): seq<Byte> {
    if n < 126 then [(n + 128) as Byte]
    else if n <= 0xffff then [254] + BigEndian(n, 2)
    else [255] + BigEndian(n, 8)
  }

  function ClientFrame(payload: seq<Byte>): seq<Byte> {
    [TEXT_FIN] + LengthBytes(|payload|) + MASK_KEY + Masked(payload, MASK_KEY)
  }

  // The eight-byte length, most significant byte first.
  method LongLength(n: nat) returns (out: seq<Byte>)
    ensures out == BigEndian(n, 8)
  {
    out := [];
    var i := 8;
    while i > 0
      invariant 0 <= i <= 8
      invariant out == BigEndian(ShiftBytes(n, i), 8 - i)
    {
      i := i - 1;
      out := out + [(ShiftBytes(n, i) % 256) as Byte];
    }
  }

  // buildClientTextFrame
  method BuildClientTextFrame(payload: seq<Byte>) returns (out: seq<Byte>)
    ensures out == ClientFrame(payload)
  {
    var plen := |payload|;
    out := [TEXT_FIN];
    if plen < 126 {
      out := out + [(plen + 128) as Byte];
    } else if plen <= 0xffff {
      out := out + [254, (plen / 256) as Byte, (plen % 256) as Byte];
      assert BigEndian(plen / 256, 1) == BigEndian(plen / 256 / 256, 0) + [(plen / 256 % 256) as Byte];
    } else {
      var long := LongLength(plen);
      out := out + [255] + long;
    }
    assert out == [TEXT_FIN] + LengthBytes(plen);
    out := out + MASK_KEY;
    var masked := new Byte[plen];
    for i := 0 to plen
      invariant forall j | 0 <= j < i :: masked[j] == Xor(payload[j], MASK_KEY[j % 4])
    {
      masked[i] := Xor(payload[i], MASK_KEY[i % 4]);
    }
    assert masked[..] == Masked(payload, MASK_KEY);
    out := out + masked[..];
  }

  // ---- parsing, on values ---------------------------------------------------------------------

  // Panic is the out-of-range slice of a length that is negative as an int.
  datatype Parsed = Frame(opcode: Byte, payload: seq<Byte>, rest: seq<Byte>) | Eof | Panic

  function ExtendedBytes(short: nat): nat {
    if short == 126 then 2 else if short == 127 then 8 else 0
  }

  // What follows the length u: the masking key, if any, and the payload.
  function ParseBody(opcode: Byte, masked: bool, u: nat, t: seq<Byte>): Parsed {
    if masked && |t| < 4 then Eof
    else if u >= INT64_LIMIT then Panic
    else
      var body := if masked then t[4..] else t;
      if |body| < u then Eof
      else Frame(opcode, if masked then Masked(body[..u], t[..4]) else body[..u], body[u..])
  }

  // The frame at the front of s.
  function Parse(s: seq<Byte>): Parsed {
    if |s| < 2 then Eof
    else
      var short := s[1] as nat % 128;
      var ext := ExtendedBytes(short);
      var t := s[2..];
      if |t| < ext then Eof
      else ParseBody(s[0] % 16, s[1] >= 128, if ext == 0 then short else FromBigEndian(t[..ext]), t[ext..])
  }

  // A length field at the front of s, in whatever form, that a reader takes for n.
  predicate Carries(s: seq<Byte>, n: nat) {
    s != [] &&
    var short := s[0] as nat % 128;
    var ext := ExtendedBytes(short);
    |s| >= 1 + ext && n == if ext == 0 then short else FromBigEndian(s[1..1 + ext])
  }

  // All three forms read back.
  lemma LengthRoundTrip(n: nat, rest: seq<Byte>)
    requires n < INT64_LIMIT
    ensures var s := LengthBytes(n) + rest;
            s[0] >= 128 && |LengthBytes(n)| == 1 + ExtendedBytes(s[0] as nat % 128) && Carries(s, n)
  {
    var s := LengthBytes(n) + rest;
    Pow256Of8();
    if n >= 126 {
      var ext := if n <= 0xffff then 2 else 8;
      BigEndianRoundTrip(n, ext);
      assert s[1..1 + ext] == BigEndian(n, ext);
    }
  }

  // Minimal: whatever a reader takes for n is at least as long.
  lemma LengthMinimal(s: seq<Byte>, n: nat)
    requires Carries(s, n)
    ensures |LengthBytes(n)| <= 1 + ExtendedBytes(s[0] as nat % 128)
  {
    var ext := ExtendedBytes(s[0] as nat % 128);
    FromBigEndianBound(s[1..1 + ext]);
    Pow256Of8();
  }

  // So no masked frame with the same payload takes fewer bytes than the built one.
  lemma FrameMinimal(s: seq<Byte>)
    requires Parse(s).Frame? && s[1] >= 128
    ensures |s| - |Parse(s).rest| >= |ClientFrame(Parse(s).payload)|
  {
    var t := s[1..];
    var short := t[0] as nat % 128;
    var ext := ExtendedBytes(short);
    assert s[2..][..ext] == t[1..1 + ext];
    var u := if ext == 0 then short else FromBigEndian(s[2..][..ext]);
    LengthMinimal(t, u);
  }

  // ---- frames of any kind -----------------------------------------------------------------

  // A frame as a peer may send it: any first byte, masked by a key or not (no key), and
  // its length in any form that can carry it, not only the shortest.
  datatype Wire = Wire(b0: Byte, key: seq<Byte>, form: nat, payload: seq<Byte>)

  predicate WireOk(x: Wire) {
    && |x.payload| < INT64_LIMIT && (x.key == [] || |x.key| == 4) && x.form <= 2
    && (x.form == 0 ==> |x.payload| < 126) && (x.form == 1 ==> |x.payload| < 0x1_0000)
  }

  function LengthField(n: nat, form: nat, masked: bool): seq<Byte>
    requires form <= 2 && (form == 0 ==> n < 126)
  {
    var flag := if masked then 128 else 0;
    if form == 0 then [(n + flag) as Byte]
    else if form == 1 then [(126 + flag) as Byte] + BigEndian(n, 2)
    else [(127 + flag) as Byte] + BigEndian(n, 8)
  }

  function WireBytes(x: Wire): seq<Byte>
    requires WireOk(x)
  {
    [x.b0] + LengthField(|x.payload|, x.form, x.key != []) + BodyBytes(x)
  }

  lemma FieldCarries(n: nat, form: nat, masked: bool, rest: seq<Byte>)
    requires n < INT64_LIMIT && form <= 2 && (form == 0 ==> n < 126) && (form == 1 ==> n < 0x1_0000)
    ensures var field := LengthField(n, form, masked);
            && Carries(field + rest, n) && |field| == 1 + ExtendedBytes(field[0] as nat % 128)
            && (field[0] >= 128 <==> masked)
  {
    Pow256Of8();
    if form > 0 {
      var ext := if form == 1 then 2 else 8;
      BigEndianRoundTrip(n, ext);
      assert (LengthField(n, form, masked) + rest)[1..1 + ext] == BigEndian(n, ext);
    }
  }

  // What follows the length field: the key, and the payload under it.
  lemma BodyParses(x: Wire, rest: seq<Byte>)
    requires WireOk(x)
    ensures var t := BodyBytes(x) + rest;
            ParseBody(x.b0 % 16, x.key != [], |x.payload|, t) == Frame(x.b0 % 16, x.payload, rest)
  {
    if x.key == [] {
      var t := BodyBytes(x) + rest;
      assert BodyBytes(x) == x.payload;
      assert t[..|x.payload|] == x.payload && t[|x.payload|..] == rest;
    } else {
      var masked := Masked(x.payload, x.key);
      var t := BodyBytes(x) + rest;
      assert t[..4] == x.key && t[4..] == masked + rest;
      assert t[4..][..|x.payload|] == masked && t[4..][|x.payload|..] == rest;
      MaskTwice(x.payload, x.key);
    }
  }

  lemma HeadParses(b0: Byte, field: seq<Byte>, n: nat, t: seq<Byte>)
    requires field != [] && Carries(field + t, n) && |field| == 1 + ExtendedBytes(field[0] as nat % 128)
    ensures Parse([b0] + (field + t)) == ParseBody(b0 % 16, field[0] >= 128, n, t)
  {
    var s := [b0] + (field + t);
    var ext := |field| - 1;
    assert s[1] == field[0] && s[2..] == field[1..] + t;
    assert s[2..][..ext] == (field + t)[1..1 + ext] && s[2..][ext..] == t;
  }

  lemma Regroup(a: seq<Byte>, b: seq<Byte>, c: seq<Byte>, d: seq<Byte>)
    ensures a + b + c + d == a + (b + (c + d))
  {
  }

  function BodyBytes(x: Wire): seq<Byte>
    requires WireOk(x)
  {
    x.key + if x.key == [] then x.payload else Masked(x.payload, x.key)
  }

  // Every frame parses to its opcode and payload, consuming exactly its own bytes.
  lemma WireRoundTrip(x: Wire, rest: seq<Byte>)
    requires WireOk(x)
    ensures Parse(WireBytes(x) + rest) == Frame(x.b0 % 16, x.payload, rest)
  {
    var field := LengthField(|x.payload|, x.form, x.key != []);
    var t := BodyBytes(x) + rest;
    FieldCarries(|x.payload|, x.form, x.key != [], t);
    BodyParses(x, rest);
    HeadParses(x.b0, field, |x.payload|, t);
    Regroup([x.b0], field, BodyBytes(x), rest);
  }

  // A frame cut short anywhere is the end of the stream, never a frame.
  lemma CutWire(x: Wire, part: seq<Byte>)
    requires WireOk(x) && part <= WireBytes(x) && |part| < |WireBytes(x)|
    ensures Parse(part).Eof?
  {
    var (n, s) := (|x.payload|, WireBytes(x));
    var field := LengthField(n, x.form, x.key != []);
    FieldCarries(n, x.form, x.key != [], BodyBytes(x));
    Regroup([x.b0], field, BodyBytes(x), []);
    assert s + [] == s && BodyBytes(x) + [] == BodyBytes(x);
    assert s == [x.b0] + (field + BodyBytes(x));
    if |part| >= 1 + |field| {
      var ext := |field| - 1;
      var t := part[2..][ext..];
      assert part[0] == x.b0 && part[1] == field[0];
      assert part[2..][..ext] == s[2..][..ext] == (field + BodyBytes(x))[1..1 + ext];
      assert |t| < |BodyBytes(x)|;
    } else if |part| >= 2 {
      assert part[1] == field[0];
    }
  }

  // A length that is negative as an int makes the reader panic, once the key is there.
  lemma NegativeLengthPanics(b0: Byte, u: nat, key: seq<Byte>, rest: seq<Byte>)
    requires INT64_LIMIT <= u < UINT64_LIMIT && (key == [] || |key| == 4)
    ensures Parse([b0] + ([if key == [] then 127 else 255] + BigEndian(u, 8) + (key + rest))) == Panic
  {
    var field: seq<Byte> := [if key == [] then 127 else 255] + BigEndian(u, 8);
    var t := key + rest;
    Pow256Of8();
    BigEndianRoundTrip(u, 8);
    assert (field + t)[1..9] == BigEndian(u, 8);
    HeadParses(b0, field, u, t);
  }

  // The built client frame is one of them: text, final, masked, in the shortest form.
  function ClientWire(payload: seq<Byte>): (x: Wire)
    requires |payload| < INT64_LIMIT
    ensures WireOk(x)
  {
    Wire(TEXT_FIN, MASK_KEY, if |payload| < 126 then 0 else if |payload| <= 0xffff then 1 else 2, payload)
  }

  // FIN set and no reserved bit (first byte), the mask bit (second byte), opcode 1.
  lemma ClientFrameIsWire(payload: seq<Byte>)
    requires |payload| < INT64_LIMIT
    ensures ClientFrame(payload) == WireBytes(ClientWire(payload))
    ensures ClientFrame(payload)[0] as nat == 128 + 1 && ClientFrame(payload)[1] as nat >= 128
  {
    var x := ClientWire(payload);
    assert LengthField(|payload|, x.form, true) == LengthBytes(|payload|);
    assert BodyBytes(x) == MASK_KEY + Masked(payload, MASK_KEY);
  }

  // A built frame parses to opcode 1 and its payload, consuming exactly its own bytes.
  lemma FrameRoundTrip(payload: seq<Byte>, rest: seq<Byte>)
    requires |payload| < INT64_LIMIT
    ensures Parse(ClientFrame(payload) + rest) == Frame(1, payload, rest)
  {
    ClientFrameIsWire(payload);
    WireRoundTrip(ClientWire(payload), rest);
  }

  // ---- the reader ---------------------------------------------------------------------------------

  // A Go slice: part of an array that others may hold too.
  datatype Slice = Slice(a: array<Byte>, off: nat, len: nat)

  ghost predicate InBounds(x: Slice) {
    x.off + x.len <= x.a.Length
  }

  ghost function Content(x: Slice): seq<Byte>
    requires InBounds(x)
    reads x.a
  {
    x.a[x.off..x.off + x.len]
  }

  class BufReader {
    const conn: Conn
    // b.buf is buf[lo..hi]; what lies before lo has been handed out.
    var buf: array<Byte>
    var lo: nat
    var hi: nat

    constructor (conn: Conn)
      ensures Valid() && this.conn == conn && fresh(buf) && Pending() == conn.Stream()
    {
      this.conn := conn;
      buf := new Byte[0];
      lo, hi := 0, 0;
    }

    ghost predicate Valid()
      reads this
    {
      lo <= hi <= buf.Length
    }

    // Everything the reader can still return.
    ghost function Pending(): seq<Byte>
      requires Valid()
      reads this, buf, conn
    {
      buf[lo..hi] + conn.Stream()
    }

    // append(b.buf, data...): in place while the array has room, else into a new array.
    // Neither touches bytes already handed out.
    method Append(data: seq<Byte>)
      requires Valid()
      modifies this, buf
      ensures Valid() && buf[lo..hi] == old(buf[lo..hi]) + data
      ensures old(buf)[..old(hi)] == old(buf[..hi])
      ensures if buf == old(buf) then lo == old(lo) && hi == old(hi) + |data| else fresh(buf)
    {
      if hi + |data| <= buf.Length {
        forall i | 0 <= i < |data| {
          buf[hi + i] := data[i];
        }
        hi := hi + |data|;
      } else {
        var n := hi - lo;
        var grown := new Byte[2 * (n + |data|)];
        forall i | 0 <= i < n {
          grown[i] := buf[lo + i];
        }
        assert grown[..n] == buf[lo..hi];
        forall i | 0 <= i < |data| {
          grown[n + i] := data[i];
        }
        assert grown[n..n + |data|] == data;
        assert grown[..n + |data|] == grown[..n] + grown[n..n + |data|];
        assert grown[..n] == buf[lo..hi];
        buf, lo, hi := grown, 0, n + |data|;
      }
    }

    // readN's loop: reads until n bytes are buffered, or EOF comes first.
    method Fill(n: nat) returns (ok: bool)
      requires Valid()
      modifies this, buf, conn
      ensures Valid() && Pending() == old(Pending())
      ensures if ok then n <= hi - lo else |Pending()| < n
      ensures old(buf)[..old(lo)] == old(buf[..lo])
      ensures if buf == old(buf) then lo == old(lo) else fresh(buf)
    {
      var eof := false;
      while hi - lo < n
        invariant Valid() && Pending() == old(Pending())
        invariant old(buf)[..old(lo)] == old(buf[..lo])
        invariant if buf == old(buf) then lo == old(lo) && hi >= old(hi) else fresh(buf)
        decreases if hi - lo < n then 1 + conn.Reads() else 0
      {
        var data;
        ghost var before := buf[lo..hi];
        data, eof := conn.Read(READ_SIZE);
        Append(data);
        assert before + (data + conn.Stream()) == (before + data) + conn.Stream();
        if eof && hi - lo < n {
          return false;
        }
      }
      ok := true;
    }

    // readN for n >= 0: the next n bytes as a slice of the buffer, or an error.
    method ReadN(n: nat) returns (ok: bool, out: Slice)
      requires Valid()
      modifies this, buf, conn
      ensures Valid() && (ok <==> n <= |old(Pending())|)
      ensures ok ==> n <= lo && out == Slice(buf, lo - n, n) && Content(out) == old(Pending())[..n]
      ensures ok ==> Pending() == old(Pending())[n..]
      ensures old(buf)[..old(lo)] == old(buf[..lo])
      ensures if buf == old(buf) then lo >= old(lo) && (ok ==> lo - n == old(lo)) else fresh(buf)
    {
      out := Slice(buf, 0, 0);
      ok := Fill(n);
      if ok {
        ghost var (here, later) := (buf[lo..hi], conn.Stream());
        assert (here + later)[..n] == here[..n] == buf[lo..lo + n];
        assert (here + later)[n..] == here[n..] + later && here[n..] == buf[lo + n..hi];
        out := Slice(buf, lo, n);
        lo := lo + n;
      }
    }
  }

  // ---- reading one frame ------------------------------------------------------------------------

  // The first two bytes.
  method ReadHead(br: BufReader) returns (ok: bool, b0: Byte, b1: Byte)
    requires br.Valid()
    modifies br, br.buf, br.conn
    ensures br.Valid() && (ok <==> 2 <= |old(br.Pending())|)
    ensures ok ==> b0 == old(br.Pending())[0] && b1 == old(br.Pending())[1] && br.Pending() == old(br.Pending())[2..]
    ensures old(br.buf)[..old(br.lo)] == old(br.buf[..br.lo])
    ensures if br.buf == old(br.buf) then br.lo >= old(br.lo) else fresh(br.buf)
  {
    b0, b1 := 0, 0;
    var hdr;
    ok, hdr := br.ReadN(2);
    if ok {
      ghost var bytes := Content(hdr);
      b0, b1 := hdr.a[hdr.off], hdr.a[hdr.off + 1];
      assert b0 == bytes[0] && b1 == bytes[1];
    }
  }

  // The extended length, most significant byte first.
  method ReadLength(br: BufReader, short: nat) returns (ok: bool, u: nat)
    requires br.Valid() && short < 128
    modifies br, br.buf, br.conn
    ensures br.Valid() && (ok <==> ExtendedBytes(short) <= |old(br.Pending())|)
    ensures ok ==>
              var ext := ExtendedBytes(short);
              && u == (if ext == 0 then short else FromBigEndian(old(br.Pending())[..ext]))
              && br.Pending() == old(br.Pending())[ext..]
    ensures old(br.buf)[..old(br.lo)] == old(br.buf[..br.lo])
    ensures if br.buf == old(br.buf) then br.lo >= old(br.lo) else fresh(br.buf)
  {
    ok, u := true, short;
    var n := ExtendedBytes(short);
    if n > 0 {
      var ext;
      ok, ext := br.ReadN(n);
      if ok {
        ghost var bytes := Content(ext);
        u := 0;
        for i := 0 to n
          invariant u == FromBigEndian(bytes[..i])
        {
          assert ext.a[ext.off + i] == bytes[i] && bytes[..i + 1][..i] == bytes[..i];
          u := u * 256 + ext.a[ext.off + i] as nat;
        }
        assert bytes[..n] == bytes;
      }
    }
  }

  // payload[i] ^= mask[i % 4], in the reader's own buffer.
  method UnmaskInPlace(payload: Slice, mask: Slice)
    requires InBounds(payload) && InBounds(mask) && mask.len == 4
    requires mask.a == payload.a ==> mask.off + 4 <= payload.off
    modifies payload.a
    ensures Content(payload) == Masked(old(Content(payload)), old(Content(mask)))
    ensures payload.a[..payload.off] == old(payload.a[..payload.off])
    ensures payload.a[payload.off + payload.len..] == old(payload.a[payload.off + payload.len..])
  {
    var a := payload.a;
    ghost var (before, key) := (Content(payload), Content(mask));
    for i := 0 to payload.len
      invariant a[..payload.off] == old(a[..payload.off])
      invariant a[payload.off + payload.len..] == old(a[payload.off + payload.len..])
      invariant Content(mask) == key
      invariant forall j | 0 <= j < payload.len ::
                  a[payload.off + j] == if j < i then Xor(before[j], key[j % 4]) else before[j]
    {
      assert mask.a[mask.off + i % 4] == key[i % 4];
      a[payload.off + i] := Xor(a[payload.off + i], mask.a[mask.off + i % 4]);
    }
    assert Content(payload) == Masked(before, key);
  }

  // What a caller gets: a frame whose payload is a slice of the reader's buffer.
  datatype ReadResult = Read(opcode: Byte, payload: Slice) | ReadEof | ReadPanic

  // r is what parsing produced, its payload the last thing handed out.
  ghost predicate Delivers(r: ReadResult, p: Parsed, br: BufReader)
    requires br.Valid()
    reads br, br.buf, br.conn, if r.Read? then {r.payload.a} else {}
  {
    match p
    case Eof => r.ReadEof?
    case Panic => r.ReadPanic?
    case Frame(opcode, payload, rest) =>
      && r.Read? && r.opcode == opcode && br.Pending() == rest
      && r.payload.a == br.buf && r.payload.off + r.payload.len == br.lo && InBounds(r.payload)
      && Content(r.payload) == payload
  }

  method ReadPlain(br: BufReader, opcode: Byte, u: nat) returns (r: ReadResult)
    requires br.Valid()
    modifies br, br.buf, br.conn
    ensures br.Valid() && Delivers(r, ParseBody(opcode, false, u, old(br.Pending())), br)
    ensures old(br.buf)[..old(br.lo)] == old(br.buf[..br.lo])
    ensures if br.buf == old(br.buf) then br.lo >= old(br.lo) else fresh(br.buf)
    ensures r.Read? && r.payload.a == old(br.buf) ==> r.payload.off >= old(br.lo)
  {
    if u >= INT64_LIMIT {
      return ReadPanic;
    }
    var ok, payload := br.ReadN(u);
    r := if ok then Read(opcode, payload) else ReadEof;
  }

  // The payload, read while the masking key is still a slice handed out before it.
  method ReadAfterKey(br: BufReader, mask: Slice, u: nat) returns (ok: bool, payload: Slice)
    requires br.Valid() && InBounds(mask) && mask.a == br.buf && mask.off + mask.len == br.lo
    modifies br, br.buf, br.conn
    ensures br.Valid() && (ok <==> u <= |old(br.Pending())|)
    ensures Content(mask) == old(Content(mask))
    ensures ok ==> InBounds(payload) && payload.a == br.buf && payload.off + payload.len == br.lo && payload.len == u
    ensures ok ==> Content(payload) == old(br.Pending())[..u] && br.Pending() == old(br.Pending())[u..]
    ensures ok && payload.a == mask.a ==> payload.off == mask.off + mask.len
    ensures old(br.buf)[..old(br.lo)] == old(br.buf[..br.lo])
    ensures if br.buf == old(br.buf) then br.lo >= old(br.lo) else fresh(br.buf)
  {
    ghost var handed := br.buf[..br.lo];
    assert Content(mask) == handed[mask.off..];
    ok, payload := br.ReadN(u);
    assert mask.a[..mask.off + mask.len] == handed;
    assert Content(mask) == handed[mask.off..];
  }

  // Unmasking the slice handed out last leaves the unread bytes and the older ones alone.
  method UnmaskLast(br: BufReader, payload: Slice, mask: Slice)
    requires br.Valid() && InBounds(payload) && InBounds(mask) && mask.len == 4
    requires payload.a == br.buf && payload.off + payload.len == br.lo
    requires mask.a == payload.a ==> mask.off + 4 <= payload.off
    modifies br.buf
    ensures Content(payload) == Masked(old(Content(payload)), old(Content(mask)))
    ensures br.Pending() == old(br.Pending())
    ensures br.buf[..payload.off] == old(br.buf[..payload.off])
  {
    ghost var tail := br.buf[br.lo..];
    UnmaskInPlace(payload, mask);
    assert br.buf[br.lo..br.hi] == br.buf[br.lo..][..br.hi - br.lo] == tail[..br.hi - br.lo];
    assert old(br.buf[br.lo..br.hi]) == tail[..br.hi - br.lo];
  }

  // What a payload of length u behind the given key comes to.
  function ParseKeyed(opcode: Byte, key: seq<Byte>, u: nat, t: seq<Byte>): Parsed
    requires |key| == 4
  {
    if |t| < u then Eof else Frame(opcode, Masked(t[..u], key), t[u..])
  }

  method ReadKeyed(br: BufReader, opcode: Byte, mask: Slice, u: nat) returns (r: ReadResult)
    requires br.Valid() && InBounds(mask) && mask.a == br.buf && mask.off + mask.len == br.lo && mask.len == 4
    modifies br, br.buf, br.conn
    ensures br.Valid() && Delivers(r, ParseKeyed(opcode, old(Content(mask)), u, old(br.Pending())), br)
    ensures old(br.buf)[..old(br.lo)] == old(br.buf[..br.lo])
    ensures if br.buf == old(br.buf) then br.lo >= old(br.lo) else fresh(br.buf)
    ensures r.Read? && r.payload.a == old(br.buf) ==> r.payload.off >= old(br.lo)
  {
    var ok, payload := ReadAfterKey(br, mask, u);
    if !ok {
      return ReadEof;
    }
    ghost var (a, lo, handed) := (old(br.buf), old(br.lo), old(br.buf[..br.lo]));
    ghost var front := br.buf[..payload.off];
    UnmaskLast(br, payload, mask);
    if a == br.buf {
      assert a[..lo] == front[..lo] == handed;
    }
    r := Read(opcode, payload);
  }

  // The key is read and kept as a slice of the buffer while the payload is read and
  // unmasked in that same buffer; nothing already handed out and nothing unread changes.
  method ReadMasked(br: BufReader, opcode: Byte, u: nat) returns (r: ReadResult)
    requires br.Valid()
    modifies br, br.buf, br.conn
    ensures br.Valid() && Delivers(r, ParseBody(opcode, true, u, old(br.Pending())), br)
    ensures old(br.buf)[..old(br.lo)] == old(br.buf[..br.lo])
    ensures if br.buf == old(br.buf) then br.lo >= old(br.lo) else fresh(br.buf)
    ensures r.Read? && r.payload.a == old(br.buf) ==> r.payload.off >= old(br.lo)
  {
    ghost var (a, lo) := (br.buf, br.lo);
    var ok, mask := br.ReadN(4);
    if !ok {
      return ReadEof;
    }
    if u >= INT64_LIMIT {
      return ReadPanic;
    }
    ghost var handed := br.buf[..br.lo];
    r := ReadKeyed(br, opcode, mask, u);
    assert a[..lo] == old(br.buf[..br.lo]) by {
      if a == mask.a {
        assert a[..lo] == handed[..lo];
      }
    }
  }

  // Everything before the masking key.
  method ReadHeader(br: BufReader) returns (ok: bool, b0: Byte, b1: Byte, u: nat)
    requires br.Valid()
    modifies br, br.buf, br.conn
    ensures br.Valid()
    ensures ok ==> Parse(old(br.Pending())) == ParseBody(b0 % 16, b1 >= 128, u, br.Pending())
    ensures !ok ==> Parse(old(br.Pending())).Eof?
    ensures old(br.buf)[..old(br.lo)] == old(br.buf[..br.lo])
    ensures if br.buf == old(br.buf) then br.lo >= old(br.lo) else fresh(br.buf)
  {
    ghost var (a, lo) := (br.buf, br.lo);
    ok, b0, b1 := ReadHead(br);
    u := 0;
    if ok {
      ghost var (b, front) := (br.buf, br.buf[..br.lo]);
      ok, u := ReadLength(br, b1 as nat % 128);
      if a == b {
        assert a[..lo] == front[..lo];
      }
    }
  }

  // readServerFrame
  method ReadServerFrame(br: BufReader) returns (r: ReadResult)
    requires br.Valid()
    modifies br, br.buf, br.conn
    ensures br.Valid() && Delivers(r, Parse(old(br.Pending())), br)
    ensures old(br.buf)[..old(br.lo)] == old(br.buf[..br.lo])
    ensures if br.buf == old(br.buf) then br.lo >= old(br.lo) else fresh(br.buf)
    ensures r.Read? && r.payload.a == old(br.buf) ==> r.payload.off >= old(br.lo)
  {
    ghost var (a, lo) := (br.buf, br.lo);
    var ok, b0, b1, u := ReadHeader(br);
    if !ok {
      return ReadEof;
    }
    ghost var (b, front) := (br.buf, br.buf[..br.lo]);
    if b1 >= 128 {
      r := ReadMasked(br, b0 % 16, u);
    } else {
      r := ReadPlain(br, b0 % 16, u);
    }
    if a == b {
      assert a[..lo] == front[..lo];
    }
  }

  // ---- many frames -----------------------------------------------------------------------------------

  function WireStream(xs: seq<Wire>): seq<Byte>
    requires forall x | x in xs :: WireOk(x)
  {
    if xs == [] then [] else WireBytes(xs[0]) + WireStream(xs[1..])
  }

  // A frame read earlier still has its payload, out of reach of later reads.
  ghost predicate Kept(r: ReadResult, x: Wire, br: BufReader)
    reads br, if r.Read? then {r.payload.a} else {}
  {
    && r.Read? && r.opcode == x.b0 % 16 && InBounds(r.payload) && Content(r.payload) == x.payload
    && (r.payload.a == br.buf ==> r.payload.off + r.payload.len <= br.lo)
  }

  ghost predicate AllKept(frames: seq<ReadResult>, xs: seq<Wire>, br: BufReader)
    reads br, set j | 0 <= j < |frames| && frames[j].Read? :: frames[j].payload.a
  {
    |frames| <= |xs| && forall j | 0 <= j < |frames| :: Kept(frames[j], xs[j], br)
  }

  lemma PartOfPrefix(x: Slice, lo: nat)
    requires x.off + x.len <= lo <= x.a.Length
    ensures InBounds(x) && Content(x) == x.a[..lo][x.off..x.off + x.len]
  {
  }

  method ReadFrame(br: BufReader, ghost x: Wire, ghost rest: seq<Byte>, ghost frames: seq<ReadResult>,
                   ghost xs: seq<Wire>)
      returns (r: ReadResult)
    requires br.Valid() && WireOk(x) && br.Pending() == WireBytes(x) + rest
    requires AllKept(frames, xs, br)
    modifies br, br.buf, br.conn
    ensures br.Valid() && br.Pending() == rest && Kept(r, x, br) && AllKept(frames, xs, br)
    ensures br.buf == old(br.buf) || fresh(br.buf)
  {
    WireRoundTrip(x, rest);
    ghost var (a, lo, handed) := (br.buf, br.lo, br.buf[..br.lo]);
    forall j | 0 <= j < |frames| && frames[j].payload.a == a
      ensures xs[j].payload == handed[frames[j].payload.off..frames[j].payload.off + frames[j].payload.len]
    {
      assert Kept(frames[j], xs[j], br);
      PartOfPrefix(frames[j].payload, lo);
    }
    r := ReadServerFrame(br);
    assert a[..lo] == handed;
    forall j | 0 <= j < |frames| ensures Kept(frames[j], xs[j], br) {
      var y := frames[j].payload;
      assert old(Kept(frames[j], xs[j], br));
      if y.a == a {
        PartOfPrefix(y, lo);
      }
    }
  }

  lemma WireStreamStep(xs: seq<Wire>, i: nat, rest: seq<Byte>)
    requires i < |xs| && forall x | x in xs :: WireOk(x)
    ensures WireStream(xs[i..]) + rest == WireBytes(xs[i]) + (WireStream(xs[i + 1..]) + rest)
  {
    assert xs[i..][0] == xs[i] && xs[i..][1..] == xs[i + 1..];
  }

  // Reading back any list of frames, masked or not and in any length form, however the
  // bytes were chunked: the same opcodes and payloads, all of them still intact when the
  // last one has been read.
  method ReadWires(br: BufReader, ghost xs: seq<Wire>, n: nat, ghost rest: seq<Byte>)
      returns (frames: seq<ReadResult>)
    requires br.Valid() && n == |xs| && forall x | x in xs :: WireOk(x)
    requires br.Pending() == WireStream(xs) + rest
    modifies br, br.buf, br.conn
    ensures br.Valid() && br.Pending() == rest && |frames| == n && AllKept(frames, xs, br)
  {
    frames := [];
    assert xs[0..] == xs;
    for i := 0 to n
      invariant br.Valid() && |frames| == i && br.Pending() == WireStream(xs[i..]) + rest
      invariant AllKept(frames, xs, br)
      invariant br.buf == old(br.buf) || fresh(br.buf)
    {
      var r := ReadNext(br, xs, i, rest, frames);
      frames := frames + [r];
    }
    assert WireStream(xs[n..]) + rest == rest;
  }

  method ReadNext(br: BufReader, ghost xs: seq<Wire>, ghost i: nat, ghost rest: seq<Byte>,
                  ghost frames: seq<ReadResult>)
      returns (r: ReadResult)
    requires br.Valid() && |frames| == i < |xs| && forall x | x in xs :: WireOk(x)
    requires br.Pending() == WireStream(xs[i..]) + rest && AllKept(frames, xs, br)
    modifies br, br.buf, br.conn
    ensures br.Valid() && br.Pending() == WireStream(xs[i + 1..]) + rest && AllKept(frames + [r], xs, br)
    ensures br.buf == old(br.buf) || fresh(br.buf)
  {
    WireStreamStep(xs, i, rest);
    r := ReadFrame(br, xs[i], WireStream(xs[i + 1..]) + rest, frames, xs);
  }

  function ClientFrames(payloads: seq<seq<Byte>>): seq<Byte> {
    if payloads == [] then [] else ClientFrame(payloads[0]) + ClientFrames(payloads[1..])
  }

  function ClientWires(payloads: seq<seq<Byte>>): seq<Wire>
    requires forall p | p in payloads :: |p| < INT64_LIMIT
  {
    seq(|payloads|, i requires 0 <= i < |payloads| => ClientWire(payloads[i]))
  }

  lemma {:induction false} ClientStream(payloads: seq<seq<Byte>>)
    requires forall p | p in payloads :: |p| < INT64_LIMIT
    ensures ClientFrames(payloads) == WireStream(ClientWires(payloads))
  {
    if payloads != [] {
      ClientFrameIsWire(payloads[0]);
      ClientStream(payloads[1..]);
      assert ClientWires(payloads)[1..] == ClientWires(payloads[1..]);
    }
  }

  // In particular, any list of built frames: text, with the same payloads.
  method ReadFrames(br: BufReader, ghost payloads: seq<seq<Byte>>, n: nat, ghost rest: seq<Byte>)
      returns (frames: seq<ReadResult>)
    requires br.Valid() && n == |payloads| && forall p | p in payloads :: |p| < INT64_LIMIT
    requires br.Pending() == ClientFrames(payloads) + rest
    modifies br, br.buf, br.conn
    ensures br.Valid() && br.Pending() == rest && |frames| == n && AllKept(frames, ClientWires(payloads), br)
  {
    ClientStream(payloads);
    frames := ReadWires(br, ClientWires(payloads), n, rest);
  }

  lemma KeptText(frames: seq<ReadResult>, payloads: seq<seq<Byte>>, br: BufReader, j: nat)
    requires j < |frames| && forall p | p in payloads :: |p| < INT64_LIMIT
    requires AllKept(frames, ClientWires(payloads), br)
    ensures frames[j].Read? && frames[j].opcode == 1
    ensures InBounds(frames[j].payload) && Content(frames[j].payload) == payloads[j]
  {
    assert Kept(frames[j], ClientWires(payloads)[j], br);
  }
}
