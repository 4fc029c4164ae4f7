/**
 * Streaming a transcode with a promised length: the client gets exactly that many bytes, cut off or filled up
 * with zeros, and the cache file beside it gets the whole output.
 */
module SizedWriter {
  newtype byte = x | 0 <= x < 256

  function Min(a: int, b: int): int {
    if a < b then a else b
  }

  function Max(a: int, b: int): int {
    if a < b then b else a
  }

  /** The bytes that `size` leaves room for. */
  function Clip(output: seq<byte>, size: int): (kept: seq<byte>)
    ensures |kept| == Min(|output|, Max(size, 0)) && kept <= output
  {
    output[..Min(|output|, Max(size, 0))]
  }

  function Zeros(n: int): (zeros: seq<byte>)
    ensures |zeros| == Max(n, 0) && forall b | b in zeros :: b == 0
  {
    seq(Max(n, 0), _ => 0)
  }

  function Joined(chunks: seq<seq<byte>>): seq<byte> {
    if chunks == [] then [] else Joined(chunks[..|chunks| - 1]) + chunks[|chunks| - 1]
  }

  lemma {:induction false} JoinedGrows(chunks: seq<seq<byte>>, i: nat)
    requires i <= |chunks|
    ensures Joined(chunks[..i]) <= Joined(chunks)
    decreases |chunks| - i
  {
    if i == |chunks| {
      assert chunks[..i] == chunks;
    } else {
      assert chunks[..i + 1][..i] == chunks[..i];
      JoinedGrows(chunks, i + 1);
    }
  }

  /** Clipping chunk by chunk is clipping the whole. */
  lemma ClipMore(output: seq<byte>, chunk: seq<byte>, size: int)
    ensures var kept := Clip(output, size); kept + Clip(chunk, size - |kept|) == Clip(output + chunk, size)
  {
  }

  /** The response: what the client has received, and how much more it takes before the connection breaks. */
  class Client {
    var got: seq<byte>
    var room: nat

    constructor (room: nat)
      ensures got == [] && this.room == room
    {
      got, this.room := [], room;
    }

    method Write(p: seq<byte>) returns (n: nat, ok: bool)
      modifies this
      ensures n == Min(|p|, old(room)) && ok == (n == |p|)
      ensures got == old(got) + p[..n] && room == old(room) - n
    {
      n := Min(|p|, room);
      got, room := got + p[..n], room - n;
      ok := n == |p|;
    }
  }

  class File {
    var bytes: seq<byte>

    constructor ()
      ensures bytes == []
    {
      bytes := [];
    }

    method Write(p: seq<byte>)
      modifies this
      ensures bytes == old(bytes) + p
    {
      bytes := bytes + p;
    }
  }

  class Writer {
    const client: Client
    const size: int
    var written: int

    constructor (client: Client, size: int)
      ensures this.client == client && this.size == size && written == 0
    {
      this.client, this.size, written := client, size, 0;
    }

    /** Says it took everything, whether or not the client was given all of it. */
    method Write(p: seq<byte>) returns (n: nat, ok: bool)
      requires written >= 0
      modifies this, client
      ensures var keep := Clip(p, size - old(written));
              && ok == (|keep| <= old(client.room))
              && (if ok then n == |p| && client.got == old(client.got) + keep && client.room == old(client.room) - |keep| && written == old(written) + |keep|
                  else client.got == old(client.got) + keep[..old(client.room)] && client.room == 0 && written == old(written) + old(client.room))
    {
      var keep := p;
      var rem := size - written;
      if |keep| > rem {
        keep := keep[..Max(rem, 0)];
      }
      assert keep == Clip(p, size - written);
      n, ok := client.Write(keep);
      written := written + n;
      if ok {
        n := |p|;
      }
    }

    method Pad() returns (ok: bool)
      requires written >= 0
      modifies client
      ensures ok == (size - written <= old(client.room))
      ensures ok ==> client.got == old(client.got) + Zeros(size - written)
    {
      if written >= size {
        assert Zeros(size - written) == [];
        return true;
      }
      var n: nat;
      n, ok := client.Write(Zeros(size - written));
      assert ok ==> Zeros(size - written)[..n] == Zeros(size - written);
    }
  }

  /** io.MultiWriter on the client and the cache file. */
  method WriteBoth(w: Writer, file: File, p: seq<byte>) returns (ok: bool)
    requires w.written >= 0
    modifies w, w.client, file
    ensures var keep := Clip(p, w.size - old(w.written));
            && ok == (|keep| <= old(w.client.room))
            && (ok ==> w.client.got == old(w.client.got) + keep && w.client.room == old(w.client.room) - |keep| && w.written == old(w.written) + |keep|)
            && file.bytes == if ok then old(file.bytes) + p else old(file.bytes)
  {
    var n: nat;
    n, ok := w.Write(p);
    if !ok { return; }
    if n != |p| { return false; }
    file.Write(p);
  }

  /**
   * The transcoder's output, chunk by chunk. It is cut off at the promised size for the client only, and fails
   * exactly when the connection breaks before that.
   */
  method Stream(w: Writer, file: File, chunks: seq<seq<byte>>) returns (ok: bool)
    requires w.written == 0 && w.client.got == [] && file.bytes == []
    modifies w, w.client, file
    ensures ok == (|Clip(Joined(chunks), w.size)| <= old(w.client.room))
    ensures file.bytes <= Joined(chunks)
    ensures ok ==> file.bytes == Joined(chunks) && w.client.got == Clip(Joined(chunks), w.size) && w.written == |w.client.got|
    ensures ok ==> w.client.room == old(w.client.room) - |w.client.got|
  {
    for i := 0 to |chunks|
      invariant file.bytes == Joined(chunks[..i]) && w.client.got == Clip(Joined(chunks[..i]), w.size)
      invariant w.written == |w.client.got| && w.client.room == old(w.client.room) - |w.client.got|
    {
      assert chunks[..i + 1][..i] == chunks[..i];
      ClipMore(Joined(chunks[..i]), chunks[i], w.size);
      JoinedGrows(chunks, i);
      JoinedGrows(chunks, i + 1);
      ok := WriteBoth(w, file, chunks[i]);
      if !ok { return; }
    }
    assert chunks[..|chunks|] == chunks;
    ok := true;
  }

  /**
   * For any chunking: over a connection that lasts, the client gets exactly `size` bytes, the start of the
   * output and then zeros, while the cache file gets all of the output.
   */
  method ServeStream(client: Client, file: File, size: int, chunks: seq<seq<byte>>) returns (ok: bool)
    requires client.got == [] && file.bytes == []
    modifies client, file
    ensures ok == (Max(size, 0) <= old(client.room))
    ensures ok ==> file.bytes == Joined(chunks)
    ensures ok ==> client.got == Clip(Joined(chunks), size) + Zeros(size - |Joined(chunks)|) && |client.got| == Max(size, 0)
  {
    var w := new Writer(client, size);
    ok := Stream(w, file, chunks);
    if ok {
      ok := w.Pad();
    }
  }
}
