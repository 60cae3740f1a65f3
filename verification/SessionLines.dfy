/** The line reader of a local session (pcbridge/daemon.py, `_Lines`): the stream may deliver
    its bytes in any pieces. */
module SessionLines {
  import opened Wrappers
  import opened Utf8
  import opened Newlines

  const MAX_LINE: nat := 67108864
  const LF: Byte := 10

  /** One delivery of the stream; an empty one means its end. */
  type Chunk = c: seq<Byte> | 1 <= |c| <= 65536 witness [0]

  datatype Reader = Reader(buf: seq<Byte>, chunks: seq<Chunk>)

  datatype Error = LineTooLong

  function Join(chunks: seq<Chunk>): seq<Byte> {
    if chunks == [] then [] else chunks[0] + Join(chunks[1..])
  }

  /** All that is still to come. */
  function Rest(r: Reader): seq<Byte> {
    r.buf + Join(r.chunks)
  }

  /** Where the first line ends, its newline included. */
  function LineEnd(data: seq<Byte>): nat {
    AfterNth(data, LF, 1)
  }

  /** The length of the first line without its newline. */
  function LineLength(data: seq<Byte>): nat {
    if LF in data && LineEnd(data) > 0 then LineEnd(data) - 1 else |data|
  }

  function Read(r: Reader): Result<(seq<Byte>, Reader), Error>
    decreases |r.chunks|
  {
    if LF in r.buf then Ok((r.buf[..LineEnd(r.buf)], r.(buf := r.buf[LineEnd(r.buf)..])))
    else if |r.buf| > MAX_LINE then Err(LineTooLong)
    else if r.chunks == [] then Ok((r.buf, r.(buf := [])))
    else Read(Reader(r.buf + r.chunks[0], r.chunks[1..]))
  }

  function Lines(data: seq<Byte>): seq<seq<Byte>>
    decreases |data|
  {
    if data == [] then []
    else if LineEnd(data) == 0 then [data]
    else [data[..LineEnd(data)]] + Lines(data[LineEnd(data)..])
  }

  predicate AllShort(data: seq<Byte>) {
    forall i :: 0 <= i < |Lines(data)| ==> LineLength(Lines(data)[i]) <= MAX_LINE
  }

  /** The lines from now on until the stream ends. */
  function ReadAll(r: Reader): Result<seq<seq<Byte>>, Error>
    decreases |Rest(r)|
  {
    match Read(r)
    case Err(e) => Err(e)
    case Ok((line, next)) =>
      if line == [] || |Rest(next)| >= |Rest(r)| then Ok([])
      else match ReadAll(next)
        case Err(e) => Err(e)
        case Ok(more) => Ok([line] + more)
  }

  lemma {:induction false} EndOfLine(data: seq<Byte>)
    ensures LF in data ==> LineEnd(data) > 0 && data[LineEnd(data) - 1] == LF && LF !in data[..LineEnd(data) - 1]
    ensures LF !in data ==> LineEnd(data) == |data|
    ensures data != [] ==> LineEnd(data) > 0
  {
    CountIn(data, LF);
    AfterNthCounts(data, LF, 1);
    if LF in data {
      var e := LineEnd(data);
      assert data[..e] == data[..e - 1] + [data[e - 1]];
      CountSnoc(data[..e - 1], LF);
      CountIn(data[..e - 1], LF);
    }
  }

  lemma EndInFront(a: seq<Byte>, b: seq<Byte>)
    requires LF in a
    ensures LineEnd(a + b) == LineEnd(a)
  {
    CountIn(a, LF);
    AfterNthSkips(a, b, LF, 1);
  }

  lemma EndBehind(a: seq<Byte>, b: seq<Byte>)
    requires LF !in a
    ensures LineEnd(a + b) == |a| + LineEnd(b)
  {
    CountIn(a, LF);
    AfterNthSkips(a, b, LF, 1);
  }

  lemma FoundEnd(buf: seq<Byte>, i: nat)
    requires i < |buf| && buf[i] == LF && LF !in buf[0..i]
    ensures LineEnd(buf) == i + 1
  {
    FoundNext(buf, LF, 0, i);
  }

  lemma TakeFront(a: seq<Byte>, b: seq<Byte>, n: nat)
    requires n <= |a|
    ensures (a + b)[..n] == a[..n] && (a + b)[n..] == a[n..] + b
  {
  }

  lemma RestOfNext(buf: seq<Byte>, chunks: seq<Chunk>)
    requires chunks != []
    ensures Rest(Reader(buf + chunks[0], chunks[1..])) == Rest(Reader(buf, chunks))
  {
    Assoc(buf, chunks[0], Join(chunks[1..]));
  }

  /** What a read gives depends on the bytes alone, not on how they are delivered: the first
      line. It fails only for a line longer than the limit. */
  lemma {:induction false} ReadGivesTheFirstLine(r: Reader)
    ensures var data := Rest(r);
            match Read(r)
            case Ok((line, next)) => line == data[..LineEnd(data)] && Rest(next) == data[LineEnd(data)..]
            case Err(_) => LineLength(data) > MAX_LINE
    decreases |r.chunks|
  {
    var data := Rest(r);
    EndOfLine(r.buf);
    EndOfLine(data);
    if LF in r.buf {
      EndInFront(r.buf, Join(r.chunks));
      TakeFront(r.buf, Join(r.chunks), LineEnd(r.buf));
    } else if |r.buf| > MAX_LINE {
      EndBehind(r.buf, Join(r.chunks));
      EndOfLine(Join(r.chunks));
    } else if r.chunks == [] {
      assert data == r.buf;
    } else {
      RestOfNext(r.buf, r.chunks);
      ReadGivesTheFirstLine(Reader(r.buf + r.chunks[0], r.chunks[1..]));
    }
  }

  /** A stream cut into single bytes. */
  function Bytewise(data: seq<Byte>): seq<Chunk> {
    if data == [] then [] else [[data[0]]] + Bytewise(data[1..])
  }

  lemma {:induction false} BytewiseJoins(data: seq<Byte>)
    ensures Join(Bytewise(data)) == data
  {
    if data != [] {
      BytewiseJoins(data[1..]);
      assert Bytewise(data)[1..] == Bytewise(data[1..]);
      assert [data[0]] + data[1..] == data;
    }
  }

  lemma {:induction false} BytewiseFails(buf: seq<Byte>, data: seq<Byte>)
    requires LF !in buf && LineLength(buf + data) > MAX_LINE
    ensures Read(Reader(buf, Bytewise(data))).Err?
    decreases |data|
  {
    EndOfLine(buf + data);
    assert data == [] ==> buf + data == buf;
    if |buf| <= MAX_LINE && data != [] {
      assert (buf + [data[0]]) + data[1..] == buf + data;
      assert Bytewise(data)[1..] == Bytewise(data[1..]);
      EndBehind(buf, data);
      assert AfterNth(data[1..], LF, 0) == 0;
      assert data[0] == LF ==> LineEnd(data) == 1;
      BytewiseFails(buf + [data[0]], data[1..]);
    }
  }

  /** The first line of a stream is read whatever the delivery exactly when it is within the
      limit. */
  lemma ReadableExactlyWithinTheLimit(data: seq<Byte>)
    ensures (forall chunks: seq<Chunk> :: Join(chunks) == data ==> Read(Reader([], chunks)).Ok?) <==> LineLength(data) <= MAX_LINE
  {
    if LineLength(data) <= MAX_LINE {
      forall chunks: seq<Chunk> | Join(chunks) == data
        ensures Read(Reader([], chunks)).Ok?
      {
        assert [] + Join(chunks) == data;
        ReadGivesTheFirstLine(Reader([], chunks));
      }
    } else {
      assert [] + data == data;
      BytewiseFails([], data);
      BytewiseJoins(data);
    }
  }

  /** The first line on its own is as long as it is in front of the others. */
  lemma FirstAlone(data: seq<Byte>)
    ensures LineLength(data[..LineEnd(data)]) == LineLength(data)
  {
    EndOfLine(data);
    var line := data[..LineEnd(data)];
    if LF in data {
      assert line[|line| - 1] == LF;
      EndInFront(line, data[LineEnd(data)..]);
      assert line + data[LineEnd(data)..] == data;
    } else {
      assert line == data;
    }
  }

  lemma FirstOfLines(data: seq<Byte>)
    requires data != [] && AllShort(data)
    ensures LineLength(data) <= MAX_LINE && AllShort(data[LineEnd(data)..])
    ensures Lines(data) == [data[..LineEnd(data)]] + Lines(data[LineEnd(data)..])
  {
    EndOfLine(data);
    var more := Lines(data[LineEnd(data)..]);
    assert Lines(data)[0] == data[..LineEnd(data)];
    FirstAlone(data);
    assert forall i :: 0 <= i < |more| ==> more[i] == Lines(data)[i + 1];
  }

  function Flatten(lines: seq<seq<Byte>>): seq<Byte> {
    if lines == [] then [] else lines[0] + Flatten(lines[1..])
  }

  /** One newline, at its end. */
  predicate IsLine(line: seq<Byte>) {
    line != [] && line[|line| - 1] == LF && LF !in line[..|line| - 1]
  }

  lemma FirstIsLine(data: seq<Byte>)
    requires data != []
    ensures 0 < LineEnd(data) <= |data|
    ensures LF in data ==> IsLine(data[..LineEnd(data)])
    ensures LF !in data ==> data[..LineEnd(data)] == data && data[LineEnd(data)..] == []
  {
    EndOfLine(data);
    assert data[..LineEnd(data)][..LineEnd(data) - 1] == data[..LineEnd(data) - 1];
  }

  lemma LinesSplit(data: seq<Byte>)
    requires data != [] && LineEnd(data) > 0
    ensures Lines(data) == [data[..LineEnd(data)]] + Lines(data[LineEnd(data)..])
    ensures data[..LineEnd(data)] + data[LineEnd(data)..] == data
  {
  }

  lemma FlattenFirst(line: seq<Byte>, more: seq<seq<Byte>>)
    ensures Flatten([line] + more) == line + Flatten(more)
  {
    assert ([line] + more)[1..] == more;
  }

  /** The lines are the stream; each ends at its newline, but for a rest without one. */
  lemma {:induction false} LinesAreTheStream(data: seq<Byte>)
    ensures Flatten(Lines(data)) == data
    ensures forall i :: 0 <= i < |Lines(data)| - 1 ==> IsLine(Lines(data)[i])
    ensures Lines(data) != [] ==> var last := Lines(data)[|Lines(data)| - 1]; IsLine(last) || (last != [] && LF !in last)
    decreases |data|
  {
    if data != [] {
      FirstIsLine(data);
      LinesSplit(data);
      LinesAreTheStream(data[LineEnd(data)..]);
      FlattenFirst(data[..LineEnd(data)], Lines(data[LineEnd(data)..]));
    }
  }

  /** A session sees the same lines for every delivery of a stream whose lines are within the
      limit. */
  lemma {:induction false} SameLinesForEveryDelivery(r: Reader)
    requires AllShort(Rest(r))
    ensures ReadAll(r) == Ok(Lines(Rest(r)))
    decreases |Rest(r)|
  {
    var data := Rest(r);
    ReadGivesTheFirstLine(r);
    EndOfLine(data);
    if data == [] {
      assert LineLength(data) == 0;
    } else {
      FirstOfLines(data);
      SameLinesForEveryDelivery(Read(r).value.1);
    }
  }

  class LineReader {
    var buf: seq<Byte>
    /** The deliveries the stream still has. */
    var stream: seq<Chunk>

    ghost function Now(): Reader
      reads this
    {
      Reader(buf, stream)
    }

    constructor (stream: seq<Chunk>)
      ensures Now() == Reader([], stream)
    {
      buf, this.stream := [], stream;
    }

    method Receive() returns (chunk: seq<Byte>)
      modifies this`stream
      ensures old(stream) == [] ==> chunk == [] && stream == []
      ensures old(stream) != [] ==> chunk == old(stream)[0] && stream == old(stream)[1..]
    {
      if stream == [] {
        return [];
      }
      chunk := stream[0];
      stream := stream[1..];
    }

    /** The first line of the buffer, if it holds one. */
    method TakeLine() returns (line: Option<seq<Byte>>)
      modifies this`buf
      ensures line.Some? <==> LF in old(buf)
      ensures line.Some? ==> line.value == old(buf)[..LineEnd(old(buf))] && buf == old(buf)[LineEnd(old(buf))..]
      ensures line.None? ==> buf == old(buf)
    {
      var i := Find(buf, LF, 0);
      if i < 0 {
        assert buf[0..] == buf;
        return None;
      }
      FoundEnd(buf, i);
      line := Some(buf[..i + 1]);
      buf := buf[i + 1..];
    }

    method ReadLine() returns (r: Result<seq<Byte>, Error>)
      modifies this
      ensures match Read(old(Now()))
              case Ok((line, next)) => r == Ok(line) && Now() == next
              case Err(e) => r == Err(e)
    {
      while true
        invariant Read(Now()) == Read(old(Now()))
        decreases |stream|
      {
        var line := TakeLine();
        if line.Some? {
          return Ok(line.value);
        }
        if |buf| > MAX_LINE {
          return Err(LineTooLong);
        }
        var chunk := Receive();
        if chunk == [] {
          var rest := buf;
          buf := [];
          return Ok(rest);
        }
        buf := buf + chunk;
      }
    }
  }
}
