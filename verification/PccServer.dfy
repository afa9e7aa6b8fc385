/** The counting server of hw5_os/pcc_server.c. */
module PccServer {
  import opened PrintableCount
  import opened Descriptors

  /** A session that completed, with everything read after the size and the count sent back; one that the server
      gave up; or one in which it waits for ever for bytes that do not come. */
  datatype Session = Completed(stream: seq<Byte>, reply: nat) | Dropped | Pending

  /** The bytes counted in completed sessions, oldest first. */
  function Served(sessions: seq<Session>): seq<Byte> {
    if sessions == [] then []
    else
      var rest := Served(sessions[..|sessions| - 1]);
      match sessions[|sessions| - 1]
      case Completed(stream, _) => rest + stream
      case _ => rest
  }

  function Replied(sessions: seq<Session>): nat {
    if sessions == [] then 0
    else
      var rest := Replied(sessions[..|sessions| - 1]);
      match sessions[|sessions| - 1]
      case Completed(_, reply) => rest + reply
      case _ => rest
  }

  /** A completed session counted at least what was announced, and replied with the count of what it read. */
  ghost predicate Faithful(session: Session, input: seq<Byte>) {
    session.Completed? ==>
      && 4 + |session.stream| <= |input|
      && session.stream == input[4..4 + |session.stream|]
      && FromWire(input[..4]) <= |session.stream|
      && (FromWire(input[..4]) + BUFFER_SIZE <= TWO32 ==> |session.stream| < FromWire(input[..4]) + BUFFER_SIZE)
      && ReplyRight(session)
  }

  /** What a session leaves behind: the reply went out in full just if it completed, and a completed session has
      consumed the size and its stream. */
  ghost predicate Observed(session: Session, input: seq<Byte>, rest: seq<Byte>, sent: seq<Byte>) {
    if session.Completed?
    then session.reply < TWO32 && sent == ToWire(session.reply) && 4 + |session.stream| <= |input|
      && rest == input[4 + |session.stream|..]
    else |sent| < 4
  }

  /** The client sends fewer bytes than it announces, or not even a size. */
  predicate Short(input: seq<Byte>) {
    |input| < 4 || FromWire(input[..4]) > |input| - 4
  }

  /** The client sends at least the number of bytes it announces, and not so many more that the 32-bit total wraps. */
  predicate Sufficient(input: seq<Byte>) {
    |input| >= 4 && Enough(FromWire(input[..4]), |input| - 4)
  }

  predicate Enough(size: nat, length: nat) {
    size <= length && (size + BUFFER_SIZE <= TWO32 || length < TWO32)
  }

  /** A stream that ends while the 32-bit total is still below the announced size was not enough. */
  lemma RunsDry(size: nat, length: nat)
    requires Wrap(length) < size && (size + BUFFER_SIZE <= TWO32 ==> length < size + BUFFER_SIZE)
    ensures !Enough(size, length)
  {
  }

  ghost predicate RepliesRight(sessions: seq<Session>) {
    forall i :: 0 <= i < |sessions| ==> ReplyRight(sessions[i])
  }

  predicate ReplyRight(session: Session) {
    session.Completed? ==> session.reply == Wrap(Printables(session.stream))
  }

  /** Replies fall short of the bytes counted by a multiple of 2^32. */
  lemma {:induction false} RepliesWrap(sessions: seq<Session>) returns (k: nat)
    requires RepliesRight(sessions)
    ensures Printables(Served(sessions)) == Replied(sessions) + k * TWO32
  {
    k := 0;
    if sessions != [] {
      var front, last := sessions[..|sessions| - 1], sessions[|sessions| - 1];
      k := RepliesWrap(front);
      assert ReplyRight(last);
      if last.Completed? {
        PrintablesConcat(Served(front), last.stream);
        var q := Wraps(Printables(last.stream));
        k := k + q;
      }
    }
  }

  /** Replies and counted bytes agree. */
  lemma RepliesCountServedBytes(sessions: seq<Session>)
    requires RepliesRight(sessions)
    ensures Wrap(Replied(sessions)) == Wrap(Printables(Served(sessions)))
  {
    var k := RepliesWrap(sessions);
    WrapDrops(Replied(sessions), k);
  }

  /** Totals that hold just the completed sessions add up to the counts replied in them. */
  lemma TotalsMatchReplies(cells: seq<nat>, sessions: seq<Session>)
    requires Tallies(cells, Served(sessions)) && RepliesRight(sessions)
    ensures Wrap(SumFirst(cells, CELLS)) == Wrap(Replied(sessions))
  {
    RepliesCountServedBytes(sessions);
    TalliesSum(cells, Served(sessions));
  }

  class Server {
    const total: array<nat>
    const client: array<nat>
    const buffer: array<Byte>

    ghost predicate Valid()
      reads this
    {
      && total.Length == client.Length == CELLS && buffer.Length == BUFFER_SIZE
      && total != client
    }

    constructor ()
      ensures Valid() && fresh(total) && fresh(client) && fresh(buffer)
      ensures Tallies(total[..], [])
    {
      total := new nat[CELLS](i => 0);
      client := new nat[CELLS](i => 0);
      buffer := new Byte[BUFFER_SIZE](i => 0);
    }

    method CountOne(c: Byte, ghost seen: seq<Byte>)
      requires Valid() && IsPrintable(c) && Tallies(client[..], seen)
      modifies client
      ensures Tallies(client[..], seen + [c])
    {
      TalliesAppend(client[..], seen, c);
      var cell := c as int - MIN_PRINTABLE;
      client[cell] := Wrap(client[cell] + 1);
      assert client[..] == old(client[..])[cell := Wrap(old(client[cell]) + 1)];
    }

    /** Counts the first `n` bytes of the buffer, one cell per printable value. */
    method UpdateClient(n: nat, ghost seen: seq<Byte>) returns (count: nat)
      requires Valid() && n <= BUFFER_SIZE && Tallies(client[..], seen)
      modifies client
      ensures Tallies(client[..], seen + buffer[..n])
      ensures count == Printables(buffer[..n])
    {
      count := 0;
      assert seen + buffer[..0] == seen;
      for i := 0 to n
        invariant Tallies(client[..], seen + buffer[..i])
        invariant count == Printables(buffer[..i])
      {
        var c := buffer[i];
        assert buffer[..i + 1] == buffer[..i] + [c];
        assert seen + buffer[..i + 1] == seen + buffer[..i] + [c];
        if IsPrintable(c) {
          CountOne(c, seen + buffer[..i]);
          count := count + 1;
        } else {
          TalliesAppend(client[..], seen + buffer[..i], c);
        }
      }
    }

    method UpdateTotal(ghost done: seq<Byte>, ghost seen: seq<Byte>)
      requires Valid() && Tallies(total[..], done) && Tallies(client[..], seen)
      modifies total
      ensures Tallies(total[..], done + seen)
    {
      for i := 0 to CELLS
        invariant forall j :: 0 <= j < i ==> total[j] == Wrap(CellCount(done + seen, j))
        invariant forall j :: i <= j < CELLS ==> total[j] == Wrap(CellCount(done, j))
        invariant Tallies(client[..], seen)
      {
        CellAdds(done, seen, i);
        total[i] := Wrap(total[i] + client[i]);
      }
    }

    method ResetClient()
      requires Valid()
      modifies client
      ensures Tallies(client[..], [])
    {
      for i := 0 to CELLS
        invariant forall j :: 0 <= j < i ==> client[j] == 0
      {
        client[i] := 0;
      }
    }

    /** Reads exactly four bytes, whatever pieces they arrive in. */
    method ReadStreamSize(conn: Descriptor) returns (size: nat, status: Status)
      requires Valid()
      modifies conn`incoming
      ensures status.Done? ==> |old(conn.incoming)| >= 4 && size == FromWire(old(conn.incoming)[..4])
      ensures status.Done? ==> conn.incoming == old(conn.incoming)[4..]
      ensures status.Stuck? ==> conn.open && |old(conn.incoming)| < 4
      ensures conn.steady ==> (status.Done? <==> |old(conn.incoming)| >= 4) && (status.Failed? ==> !conn.open)
    {
      var word := new Byte[4](i => 0);
      var got := 0;
      while got < 4
        invariant got <= 4 && got <= |old(conn.incoming)|
        invariant word[..got] == old(conn.incoming)[..got]
        invariant conn.incoming == old(conn.incoming)[got..]
      {
        var r, waits := conn.Read(word, got, 4 - got);
        if waits { return 0, Stuck; }
        if r <= 0 { return 0, Failed; }
        ReadOn(old(conn.incoming), got, r);
        got := got + r;
      }
      assert word[..] == word[..4];
      size, status := FromWire(word[..]), Done;
    }

    /** Reads and counts whatever one read delivers. */
    method CountPiece(conn: Descriptor, ghost seen: seq<Byte>) returns (r: int, n: nat, waits: bool)
      requires Valid() && Tallies(client[..], seen)
      modifies client, buffer, conn`incoming
      ensures r <= BUFFER_SIZE && r <= |old(conn.incoming)| && (conn.steady ==> r >= 0)
      ensures (r == 0 ==> conn.incoming == [] && waits == conn.open) && (waits ==> r == 0)
      ensures r <= 0 ==> conn.incoming == old(conn.incoming) && Tallies(client[..], seen)
      ensures r > 0 ==> conn.incoming == old(conn.incoming)[r..] && n == Printables(old(conn.incoming)[..r])
      ensures r > 0 ==> Tallies(client[..], seen + old(conn.incoming)[..r])
    {
      r, waits := conn.Read(buffer, 0, BUFFER_SIZE);
      n := 0;
      if r > 0 { n := UpdateClient(r, seen); }
    }

    /** Counts at least the announced number of bytes. The running total wraps like the 32-bit variable it is. */
    method ReadStream(size: nat, conn: Descriptor) returns (count: nat, status: Status, ghost stream: seq<Byte>)
      requires Valid() && size < TWO32 && Tallies(client[..], [])
      modifies client, buffer, conn`incoming
      ensures |stream| <= |old(conn.incoming)| && stream == old(conn.incoming)[..|stream|]
      ensures conn.incoming == old(conn.incoming)[|stream|..] && Tallies(client[..], stream)
      ensures status.Done? ==> size <= |stream| && (size + BUFFER_SIZE <= TWO32 ==> |stream| < size + BUFFER_SIZE)
      ensures status.Done? ==> count == Wrap(Printables(stream))
      ensures status.Stuck? ==> conn.open && !Enough(size, |old(conn.incoming)|)
      ensures conn.steady && Enough(size, |old(conn.incoming)|) ==> status.Done?
      ensures conn.steady && status.Failed? ==> !conn.open
    {
      var got := 0;
      count, status, stream := 0, Done, [];
      while got < size
        invariant |stream| <= |old(conn.incoming)| && stream == old(conn.incoming)[..|stream|]
        invariant conn.incoming == old(conn.incoming)[|stream|..]
        invariant Tallies(client[..], stream)
        invariant got == Wrap(|stream|) && count == Wrap(Printables(stream))
        invariant size + BUFFER_SIZE <= TWO32 ==> |stream| < size + BUFFER_SIZE
        decreases |conn.incoming|
      {
        ghost var piece := conn.incoming;
        var r, n, waits := CountPiece(conn, stream);
        if r == 0 { RunsDry(size, |stream|); }
        if waits { return 0, Stuck, stream; }
        if r <= 0 { return 0, Failed, stream; }
        ReadOn(old(conn.incoming), |stream|, r);
        TotalsAppend(stream, piece[..r]);
        got := Wrap(got + r);
        count := Wrap(count + n);
        stream := stream + piece[..r];
      }
    }

    /** Sends all four bytes or fails with fewer sent. */
    method SendCount(conn: Descriptor, data: seq<Byte>) returns (failed: bool)
      requires |data| == 4 && conn.sent == []
      modifies conn`sent
      ensures !failed <==> conn.sent == data
      ensures |conn.sent| <= 4 && conn.sent == data[..|conn.sent|]
      ensures conn.steady ==> !failed
    {
      var written := 0;
      failed := false;
      while written < 4
        invariant 0 <= written <= 4 && conn.sent == data[..written]
        decreases 4 - written
      {
        var r := conn.Write(data[written..]);
        if r <= 0 { return true; }
        written := written + r;
      }
    }

    /** One accepted connection. Only a session whose reply went out in full reaches the totals. The server waits for
        ever only on a client that keeps its end open and has not sent what it announced. */
    method Serve(conn: Descriptor, ghost done: seq<Byte>) returns (status: Status, ghost session: Session)
      requires Valid() && conn.sent == [] && Tallies(total[..], done)
      modifies total, client, buffer, conn
      ensures (status.Done? <==> session.Completed?) && (status.Stuck? <==> session.Pending?)
      ensures Faithful(session, old(conn.incoming))
      ensures Observed(session, old(conn.incoming), conn.incoming, conn.sent)
      ensures status.Done? ==> Tallies(total[..], done + session.stream)
      ensures !status.Done? ==> total[..] == old(total[..])
      ensures status.Stuck? ==> conn.open && conn.sent == [] && !Sufficient(old(conn.incoming))
      ensures conn.steady && Sufficient(old(conn.incoming)) ==> status.Done?
      ensures conn.steady && Short(old(conn.incoming)) ==> status == if conn.open then Stuck else Failed
    {
      ghost var input := conn.incoming;
      var size;
      size, status := ReadStreamSize(conn);
      session := if status.Stuck? then Pending else Dropped;
      if !status.Done? { return; }
      ResetClient();
      var count, read, stream := ReadStream(size, conn);
      if !read.Done? { return read, if read.Stuck? then Pending else Dropped; }
      var unsent := SendCount(conn, ToWire(count));
      if unsent { return Failed, Dropped; }
      UpdateTotal(done, stream);
      ReadOn(input, 4, |stream|);
      assert stream == input[4..4 + |stream|];
      session := Completed(stream, count);
    }

    /** The server's main loop over the connections it accepts, in order. It serves all of them, or waits for ever on
        one and never reaches the next. Whether a session completed can be seen on its connection, and the totals
        hold the completed sessions and nothing else. */
    method Run(conns: seq<Descriptor>) returns (status: Status, ghost sessions: seq<Session>)
      requires Valid() && Tallies(total[..], [])
      requires forall i, j :: 0 <= i < j < |conns| ==> conns[i] != conns[j]
      requires forall i :: 0 <= i < |conns| ==> conns[i].sent == []
      modifies total, client, buffer, conns
      ensures |sessions| <= |conns| && (status.Done? ==> |sessions| == |conns|) && !status.Failed?
      ensures status.Stuck? ==> sessions != [] && sessions[|sessions| - 1].Pending?
      ensures forall i :: 0 <= i < |sessions| ==> SessionOf(conns[i], old(conns[i].incoming), sessions[i])
      ensures forall i :: 0 <= i < |sessions| && sessions[i].Pending? ==> status.Stuck? && i == |sessions| - 1
      ensures forall i :: |sessions| <= i < |conns| ==> conns[i].sent == []
      ensures forall i :: |sessions| <= i < |conns| ==> conns[i].incoming == old(conns[i].incoming)
      ensures Tallies(total[..], Served(sessions))
      ensures Wrap(SumFirst(total[..], CELLS)) == Wrap(Replied(sessions))
    {
      status, sessions := Done, [];
      var i := 0;
      while i < |conns| && status.Done?
        invariant 0 <= i <= |conns| && |sessions| == i && !status.Failed?
        invariant status.Stuck? ==> i > 0 && sessions[i - 1].Pending?
        invariant forall j :: 0 <= j < i ==> SessionOf(conns[j], old(conns[j].incoming), sessions[j])
        invariant forall j :: 0 <= j < i && sessions[j].Pending? ==> status.Stuck? && j == i - 1
        invariant forall j :: i <= j < |conns| ==> conns[j].sent == [] && conns[j].incoming == old(conns[j].incoming)
        invariant Tallies(total[..], Served(sessions))
        decreases |conns| - i
      {
        ghost var was := sessions;
        var one, session := Serve(conns[i], Served(sessions));
        if one.Stuck? { status := Stuck; }
        sessions := sessions + [session];
        assert sessions[..i] == was;
        i := i + 1;
      }
      forall j | 0 <= j < |sessions|
        ensures ReplyRight(sessions[j])
      {
        assert SessionOf(conns[j], old(conns[j].incoming), sessions[j]);
      }
      TotalsMatchReplies(total[..], sessions);
    }
  }

  /** What is true of a served connection and its session. */
  ghost predicate SessionOf(conn: Descriptor, input: seq<Byte>, session: Session)
    reads conn
  {
    && Faithful(session, input) && Observed(session, input, conn.incoming, conn.sent)
    && (session.Pending? ==> conn.open && !Sufficient(input))
    && (conn.steady && Sufficient(input) ==> session.Completed?)
    && (conn.steady && Short(input) ==> session == if conn.open then Pending else Dropped)
  }
}
