/** Reading frames from a socket that delivers its stream in arbitrary pieces: whatever the pieces,
    the reader computes what LanFrames.ReadFrom says about the stream as a whole. */
module LanSocket {
  import opened Options
  import opened Bytes
  import opened LanFrames

  function Joined(chunks: seq<bytes>): bytes {
    if chunks == [] then [] else chunks[0] + Joined(chunks[1..])
  }

  /** A connected socket: the pieces it will deliver, none of them empty, and then the end. */
  class Socket {
    var chunks: seq<bytes>

    ghost predicate Valid()
      reads this
    {
      forall i :: 0 <= i < |chunks| ==> chunks[i] != []
    }

    ghost function Pending(): bytes
      reads this
    {
      Joined(chunks)
    }

    /** At most max bytes of the next piece; nothing only at the end of the stream. */
    method Recv(max: nat) returns (chunk: bytes)
      requires Valid() && max > 0
      modifies this
      ensures Valid() && |chunk| <= max
      ensures chunk + Pending() == old(Pending())
      ensures chunk == [] <==> old(Pending()) == []
    {
      if chunks == [] {
        return [];
      }
      var first := chunks[0];
      if |first| <= max {
        chunk := first;
        chunks := chunks[1..];
      } else {
        chunk := first[..max];
        ghost var before := Joined(chunks);
        var rest := [first[max..]] + chunks[1..];
        assert rest[1..] == chunks[1..];
        assert first == chunk + first[max..];
        assert chunk + (first[max..] + Joined(chunks[1..])) == before;
        chunks := rest;
      }
    }
  }

  const RECV_LIMIT: nat := 65536

  /** One end of a link: a socket and the bytes received but not yet used. */
  class Link {
    const socket: Socket
    var buf: bytes

    constructor (socket: Socket)
      ensures this.socket == socket && buf == []
    {
      this.socket := socket;
      buf := [];
    }

    ghost function Stream(): bytes
      reads this, socket
    {
      buf + socket.Pending()
    }

    /** Exactly n bytes from the front of the stream, or the end of it. */
    method ReadExact(n: nat) returns (out: Option<bytes>)
      requires socket.Valid()
      modifies this`buf, socket
      ensures socket.Valid()
      ensures out.Some? <==> n <= |old(Stream())|
      ensures out.Some? ==> out.value == old(Stream())[..n] && Stream() == old(Stream())[n..]
      ensures out.None? ==> Stream() == old(Stream())
    {
      while |buf| < n
        invariant socket.Valid()
        invariant Stream() == old(Stream())
        decreases |socket.Pending()|
      {
        ghost var before, pending := buf, socket.Pending();
        var chunk := socket.Recv(if n - |buf| < RECV_LIMIT then n - |buf| else RECV_LIMIT);
        if chunk == [] {
          assert pending == [];
          return None;
        }
        buf := buf + chunk;
        assert before + (chunk + socket.Pending()) == before + chunk + socket.Pending();
      }
      out := Some(buf[..n]);
      buf := buf[n..];
    }

    /** Fills the window that the search for a prefix looks at. */
    method FillWindow() returns (full: bool)
      requires socket.Valid()
      modifies this`buf, socket
      ensures socket.Valid() && Stream() == old(Stream())
      ensures full <==> |old(Stream())| >= WINDOW
      ensures full ==> |buf| >= WINDOW
    {
      while |buf| < WINDOW
        invariant socket.Valid()
        invariant Stream() == old(Stream())
        decreases |socket.Pending()|
      {
        ghost var before, pending := buf, socket.Pending();
        var chunk := socket.Recv(RECV_LIMIT);
        if chunk == [] {
          assert pending == [];
          return false;
        }
        buf := buf + chunk;
        assert before + (chunk + socket.Pending()) == before + chunk + socket.Pending();
      }
      full := true;
    }

    lemma WindowOfStream()
      requires |buf| >= WINDOW
      ensures Stream()[..WINDOW] == buf[..WINDOW]
    {
    }

    lemma DropFront(n: nat)
      requires n <= |buf|
      ensures buf[n..] + socket.Pending() == Stream()[n..]
    {
    }

    /** Drops bytes until a frame prefix is in front. */
    method Resynchronize() returns (found: bool)
      requires socket.Valid()
      modifies this`buf, socket
      ensures socket.Valid()
      ensures (found, Stream()) == Resync(old(Stream()))
      ensures found ==> |buf| >= 4
    {
      while true
        invariant socket.Valid()
        invariant Resync(Stream()) == Resync(old(Stream()))
        decreases |Stream()|
      {
        var full := FillWindow();
        if !full {
          return false;
        }
        WindowOfStream();
        var i55 := Find(buf[..WINDOW], PREFIX_55AA, 0);
        var i66 := Find(buf[..WINDOW], PREFIX_6699, 0);
        if i55 == 0 || i66 == 0 {
          return true;
        }
        if i55 > 0 && (i66 < 0 || i55 <= i66) {
          DropFront(i55);
          buf := buf[i55..];
          return true;
        }
        if i66 > 0 {
          DropFront(i66);
          buf := buf[i66..];
          return true;
        }
        DropFront(1);
        buf := buf[1..];
      }
    }

    /** Reads one frame: the result and what is left depend on the stream alone, not on how it was
        cut into pieces. */
    method ReadFrame(c: Crypto, key: Option<bytes>, noRetcode: bool) returns (r: Read)
      requires socket.Valid()
      modifies this`buf, socket
      ensures socket.Valid()
      ensures (r, Stream()) == ReadFrom(c, key, noRetcode, old(Stream()))
    {
      var found := Resynchronize();
      if !found {
        return EndOfStream;
      }
      assert buf[..4] == Stream()[..4];
      if buf[..4] == PREFIX_55AA {
        r := Read55AA(c, key, noRetcode);
      } else {
        r := Read6699(c, key, noRetcode);
      }
    }

    method Read55AA(c: Crypto, key: Option<bytes>, noRetcode: bool) returns (r: Read)
      requires socket.Valid()
      modifies this`buf, socket
      ensures socket.Valid()
      ensures (r, Stream()) == ReadBody55AA(c, key, noRetcode, old(Stream()))
    {
      var header := ReadExact(HEADER_LEN_55AA);
      if header.None? {
        return EndOfStream;
      }
      var length := Field(header.value, 12);
      if length > MAX_PAYLOAD_LENGTH {
        return OverCap;
      }
      var body := ReadExact(length);
      if body.None? {
        return EndOfStream;
      }
      return Accept55AA(c, key, noRetcode, header.value, body.value);
    }

    method Read6699(c: Crypto, key: Option<bytes>, noRetcode: bool) returns (r: Read)
      requires socket.Valid()
      modifies this`buf, socket
      ensures socket.Valid()
      ensures (r, Stream()) == ReadBody6699(c, key, noRetcode, old(Stream()))
    {
      var header := ReadExact(HEADER_LEN_6699);
      if header.None? {
        return EndOfStream;
      }
      var length := Field(header.value, 14);
      if length > MAX_PAYLOAD_LENGTH {
        return OverCap;
      }
      ghost var rest := Stream();
      var body := ReadExact(length);
      if body.None? {
        return EndOfStream;
      }
      var suffix := ReadExact(4);
      if suffix.None? {
        return EndOfStream;
      }
      assert rest[length..][4..] == rest[length + 4..];
      return Accept6699(c, key, noRetcode, header.value, body.value);
    }

    /** Repeated reads return what the stream as a whole says, read by read. */
    method ReadFrames(c: Crypto, key: Option<bytes>, noRetcode: bool, count: nat)
      returns (frames: seq<Read>)
      requires socket.Valid()
      modifies this`buf, socket
      ensures socket.Valid()
      ensures (frames, Stream()) == ReadMany(c, key, noRetcode, old(Stream()), count)
    {
      frames := [];
      hide ReadFrom;
      assert [] + ReadMany(c, key, noRetcode, Stream(), count).0
          == ReadMany(c, key, noRetcode, Stream(), count).0;
      for i := 0 to count
        invariant socket.Valid()
        invariant var (more, left) := ReadMany(c, key, noRetcode, Stream(), count - i);
                  (frames + more, left) == ReadMany(c, key, noRetcode, old(Stream()), count)
      {
        ReadManyMore(c, key, noRetcode, Stream(), count - i, frames);
        hide ReadMany;
        var frame := ReadFrame(c, key, noRetcode);
        frames := frames + [frame];
      }
      assert frames + [] == frames;
    }
  }

  /** Frames of both formats that were packed, joined and cut into any pieces come out of the link
      unchanged and in order, and the bytes after them stay unread. */
  method ReceiveAll(
    link: Link, c: Crypto, key: Option<bytes>, noRetcode: bool, ghost sent: seq<Sent>,
    ghost rest: bytes, count: nat)
    returns (frames: seq<Read>)
    requires link.socket.Valid() && c.Lawful() && key != Some([])
    requires AllSendable(c, key, noRetcode, sent) && count == |sent|
    requires link.Stream() == Wire(c, key, noRetcode, sent) + rest
    modifies link`buf, link.socket
    ensures frames == AllReceived(sent) && link.Stream() == rest
  {
    StreamReadsBack(c, key, noRetcode, sent, rest);
    frames := link.ReadFrames(c, key, noRetcode, count);
  }
}
