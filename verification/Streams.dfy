// A connection as its reader sees it: bytes arriving in chunks of any size, ended by
// EOF, which may or may not come together with the last bytes.
module Streams {
  import opened Bytes

  class Conn {
    var chunks: seq<seq<Byte>>
    const eager: bool

    constructor (chunks: seq<seq<Byte>>, eager: bool)
      ensures this.chunks == chunks && this.eager == eager
    {
      this.chunks, this.eager := chunks, eager;
    }

    // Everything still to come.
    ghost function Stream(): seq<Byte>
      reads this
    {
      Concat(chunks)
    }

    // How many Reads may still return something other than EOF.
    ghost function Reads(): nat
      reads this
    {
      |chunks| + |Stream()|
    }

    // At most max bytes of the next chunk; eof when nothing follows.
    method Read(max: nat) returns (data: seq<Byte>, eof: bool)
      requires max > 0
      modifies this
      ensures data + Stream() == old(Stream()) && |data| <= max
      ensures eof ==> Stream() == []
      ensures !eof ==> Reads() < old(Reads())
    {
      if chunks == [] {
        data, eof := [], true;
      } else if |chunks[0]| <= max {
        data := chunks[0];
        chunks := chunks[1..];
        eof := eager && chunks == [];
      } else {
        data, eof := chunks[0][..max], false;
        ghost var before := chunks;
        chunks := [chunks[0][max..]] + chunks[1..];
        assert chunks[1..] == before[1..];
        assert before[0] == data + chunks[0];
      }
    }

    // io.ReadFull into the front of a buffer: all n bytes or an error.
    method ReadFull(buf: array<Byte>, n: nat) returns (ok: bool)
      requires n <= buf.Length
      modifies this, buf
      ensures ok <==> n <= |old(Stream())|
      ensures ok ==> buf[..n] == old(Stream())[..n] && Stream() == old(Stream())[n..]
      ensures !ok ==> Stream() == []
    {
      var got: nat := 0;
      var eof := false;
      while got < n && !eof
        invariant got <= n && got + |Stream()| == |old(Stream())|
        invariant buf[..got] + Stream() == old(Stream())
        invariant eof ==> Stream() == []
        decreases !eof, Reads()
      {
        var data;
        data, eof := Read(n - got);
        ghost var front := buf[..got];
        forall i | 0 <= i < |data| {
          buf[got + i] := data[i];
        }
        assert buf[..got + |data|] == front + data;
        assert front + (data + Stream()) == (front + data) + Stream();
        got := got + |data|;
      }
      ok := got == n;
      if ok {
        assert old(Stream())[..n] == buf[..n];
        assert old(Stream())[n..] == Stream();
      }
    }
  }
}
