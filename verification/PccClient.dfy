/** The client of hw5_os/pcc_client.c, and a whole exchange between client and server. */
module PccClient {
  import opened PrintableCount
  import opened Descriptors
  import opened PccServer

  /** A 32-bit value stored in a signed variable. */
  function AsInt(v: int): (i: int) {
    if v < TWO31 then v else v - TWO32
  }

  /** What becomes of a client: it prints a count, exits with an error, reads the end of the stream over and over, or
      waits for ever in one read. */
  datatype Fate = Printed(count: nat) | Exited | Spinning | Waiting

  /** Sends all of the data, in however many pieces. */
  method WriteAll(sock: Descriptor, data: seq<Byte>) returns (failed: bool)
    modifies sock`sent
    ensures !failed ==> sock.sent == old(sock.sent) + data
    ensures sock.steady ==> !failed
  {
    var written := 0;
    failed := false;
    while written < |data|
      invariant 0 <= written <= |data| && sock.sent == old(sock.sent) + data[..written]
      decreases |data| - written
    {
      var r := sock.Write(data[written..]);
      if r < 0 { return true; }
      ReadOn(data, written, r);
      written := written + r;
    }
  }

  /** Whether adding one more buffer to a total below `limit` stays within a signed 32-bit variable. */
  predicate NoOverflow(limit: int) {
    limit <= 0 || limit + BUFFER_SIZE <= TWO31
  }

  /** Fills the buffer from the file and sends what was read; nothing is read exactly at the end of the file. */
  method SendBuffer(sock: Descriptor, file: Descriptor, buffer: array<Byte>) returns (r: nat, failed: bool)
    requires sock != file && !file.open && buffer.Length == BUFFER_SIZE
    modifies sock`sent, file`incoming, buffer
    ensures r <= BUFFER_SIZE && r <= |old(file.incoming)| && file.incoming == old(file.incoming)[r..]
    ensures !failed ==> sock.sent == old(sock.sent) + old(file.incoming)[..r] && (r == 0 ==> file.incoming == [])
    ensures sock.steady && file.steady ==> !failed
  {
    var got, _ := file.Read(buffer, 0, BUFFER_SIZE);
    r, failed := 0, got < 0;
    if got > 0 {
      r := got;
      failed := WriteAll(sock, buffer[..r]);
    }
  }

  /** Sends the file from its start, a buffer at a time, until the total read reaches `limit`. */
  method WriteFile(sock: Descriptor, file: Descriptor, limit: int) returns (failed: bool, ghost k: nat)
    requires sock != file && !file.open && -TWO31 <= limit < TWO31
    modifies sock`sent, file`incoming
    ensures k <= |old(file.incoming)|
    ensures !failed ==> sock.sent == old(sock.sent) + old(file.incoming)[..k]
    ensures !failed && limit <= |old(file.incoming)| ==> limit <= k
    ensures limit <= 0 ==> k == 0
    ensures NoOverflow(limit) && limit > 0 ==> k < limit + BUFFER_SIZE
    ensures sock.steady && file.steady ==> !failed
  {
    var buffer := new Byte[BUFFER_SIZE](i => 0);
    var total := 0;
    k, failed := 0, false;
    while total < limit
      invariant k <= |old(file.incoming)| && file.incoming == old(file.incoming)[k..]
      invariant sock.sent == old(sock.sent) + old(file.incoming)[..k]
      invariant -TWO31 <= total < TWO31 && total <= k && (k < TWO31 ==> total == k)
      invariant limit <= 0 ==> k == 0
      invariant NoOverflow(limit) && limit > 0 ==> k < limit + BUFFER_SIZE
      decreases |file.incoming|
    {
      var r;
      r, failed := SendBuffer(sock, file, buffer);
      if failed { return; }
      if r == 0 { break; }
      ReadOn(old(file.incoming), k, r);
      total := AsInt(total + r);
      k := k + r;
    }
  }

  /** Announces the length modulo 2^32, then sends the file: all of it below 2^31 bytes, and less of it from there on.
      */
  method SendFile(sock: Descriptor, file: Descriptor) returns (failed: bool, ghost k: nat)
    requires sock != file && !file.open
    modifies sock`sent, file`incoming
    ensures k <= |old(file.incoming)|
    ensures !failed ==> sock.sent == old(sock.sent) + ToWire(Wrap(|old(file.incoming)|)) + old(file.incoming)[..k]
    ensures !failed && |old(file.incoming)| < TWO31 ==> k == |old(file.incoming)|
    ensures Wrap(|old(file.incoming)|) >= TWO31 || Wrap(|old(file.incoming)|) == 0 ==> k == 0
    ensures !failed && Wrap(|old(file.incoming)|) < TWO31 ==> Wrap(|old(file.incoming)|) <= k
    ensures |old(file.incoming)| >= TWO31 && NoOverflow(AsInt(Wrap(|old(file.incoming)|))) ==> k < |old(file.incoming)|
    ensures sock.steady && file.steady ==> !failed
  {
    var length := Wrap(|file.incoming|);
    k := 0;
    failed := WriteAll(sock, ToWire(length));
    if failed { return; }
    failed, k := WriteFile(sock, file, AsInt(length));
  }

  /** Reads the four bytes of the count. A read of zero bytes changes nothing, so at the end of the stream it repeats
      for ever; where the server keeps its end open but sends nothing more, the read never returns. */
  method ReadResult(sock: Descriptor) returns (fate: Fate)
    modifies sock`incoming
    ensures fate.Printed? ==> |old(sock.incoming)| >= 4 && fate.count == FromWire(old(sock.incoming)[..4])
    ensures sock.steady && |old(sock.incoming)| >= 4 ==> fate.Printed?
    ensures sock.steady && |old(sock.incoming)| < 4 ==> fate == if sock.open then Waiting else Spinning
  {
    var word := new Byte[4](i => 0);
    var got := 0;
    while got < 4
      invariant got <= 4 && got <= |old(sock.incoming)|
      invariant word[..got] == old(sock.incoming)[..got]
      invariant sock.incoming == old(sock.incoming)[got..]
    {
      var r, waits := sock.Read(word, got, 4 - got);
      if waits { return Waiting; }
      if r < 0 { return Exited; }
      if r == 0 { return Spinning; }
      ReadOn(old(sock.incoming), got, r);
      got := got + r;
    }
    assert word[..] == word[..4];
    fate := Printed(FromWire(word[..]));
  }

  /** The server's half of an exchange and the client's wait for the count, given the bytes the client has sent. The
      client keeps its end open meanwhile; the server closes its own unless it waits for ever. */
  method Exchange(server: Server, input: seq<Byte>, ghost done: seq<Byte>) returns (fate: Fate, ghost c: nat)
    requires server.Valid() && Tallies(server.total[..], done) && |input| >= 4
    modifies server.total, server.client, server.buffer
    ensures 4 + c <= |input|
    ensures Sufficient(input) ==> FromWire(input[..4]) <= c
    ensures Sufficient(input) && FromWire(input[..4]) + BUFFER_SIZE <= TWO32 ==> c < FromWire(input[..4]) + BUFFER_SIZE
    ensures Sufficient(input) ==> fate == Printed(Wrap(Printables(input[4..4 + c])))
    ensures Sufficient(input) ==> Tallies(server.total[..], done + input[4..4 + c])
    ensures Short(input) ==> fate == Waiting && c == 0 && server.total[..] == old(server.total[..])
  {
    var conn := new Descriptor(input, true, true);
    var status, session := server.Serve(conn, done);
    c := if status.Done? then |session.stream| else 0;
    var down := new Descriptor(conn.sent, true, status.Stuck?);
    fate := ReadResult(down);
    if status.Done? {
      WireRoundTrip(session.reply);
      assert conn.sent[..4] == conn.sent;
    }
  }

  /** A client and the server, over a connection that delivers everything in pieces of any size; `c` bytes get counted.
      Below 2^31 bytes that is the whole file. A longer file is counted only up to its announced length, or up to one
      buffer more. Where the announced length is negative as an `int` the client sends nothing after it, and client
      and server wait for each other for ever. */
  method CountFile(server: Server, contents: seq<Byte>, ghost done: seq<Byte>) returns (fate: Fate, ghost c: nat)
    requires server.Valid() && Tallies(server.total[..], done)
    modifies server.total, server.client, server.buffer
    ensures if |contents| < 0x8000_0000 then c == |contents| else c < |contents|
    ensures fate == Waiting <==> |contents| % 0x1_0000_0000 >= 0x8000_0000
    ensures fate == Waiting ==> server.total[..] == old(server.total[..])
    ensures fate != Waiting ==>
      |contents| % 0x1_0000_0000 <= c && (c == 0 || c < |contents| % 0x1_0000_0000 + 1024)
    ensures fate != Waiting ==> fate == Printed(Printables(contents[..c]))
    ensures fate != Waiting ==> Tallies(server.total[..], done + contents[..c])
  {
    var file := new Descriptor(contents, true, false);
    var up := new Descriptor([], true, true);
    var failed, k := SendFile(up, file);
    ghost var size := Wrap(|contents|);
    WireRoundTrip(size);
    assert up.sent == ToWire(size) + contents[..k];
    assert up.sent[..4] == ToWire(size);
    fate, c := Exchange(server, up.sent, done);
    assert up.sent[4..4 + c] == contents[..c];
    PrintablesBound(contents[..c]);
  }
}
