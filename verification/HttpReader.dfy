/** cpp_inference/inference_core.cpp: the two-phase request reader over a connection that hands out its
    bytes in pieces of any size. */
module HttpReader {
  import opened Wrappers
  import opened Numbers
  import opened Text

  const TERMINATOR := "\r\n\r\n"
  const LENGTH_HEADER := "Content-Length:"
  const BUFFER_SIZE := 4096
  const SAFETY_CAP := 64 * 1024

  /** The size of one `recv`: at least one byte while any is left, at most the buffer; 0 means closed. */
  function PieceSize(available: nat, limit: nat, sizes: seq<nat>): nat {
    var wanted := if sizes == [] then limit else sizes[0];
    Min(available, if wanted == 0 || wanted > limit then limit else wanted)
  }

  function Later(sizes: seq<nat>): seq<nat> { if sizes == [] then [] else sizes[1..] }

  /** `incoming` is what will still arrive before the peer closes or the connection fails, `sizes` how it
      is cut into pieces. */
  class Connection {
    var incoming: string
    var sizes: seq<nat>

    constructor (stream: string, sizes: seq<nat>)
      ensures incoming == stream && this.sizes == sizes
    {
      incoming, this.sizes := stream, sizes;
    }

    method Recv(limit: nat) returns (data: string)
      requires limit > 0
      modifies this
      ensures data + incoming == old(incoming) && sizes == Later(old(sizes))
      ensures |data| == PieceSize(|old(incoming)|, limit, old(sizes)) <= limit
      ensures data == "" <==> old(incoming) == ""
    {
      var n := PieceSize(|incoming|, limit, sizes);
      data, incoming, sizes := incoming[..n], incoming[n..], Later(sizes);
    }
  }

  lemma Regroup(a: string, b: string, c: string)
    ensures (a + b) + c == a + (b + c)
  {
  }

  /** Reads exactly `expected` bytes, whatever the pieces, or everything there is if that is less; it never
      takes more from the connection. */
  method ReadAvailableData(conn: Connection, expected: nat) returns (ok: bool, output: string)
    modifies conn
    ensures ok <==> expected <= |old(conn.incoming)|
    ensures |output| == Min(expected, |old(conn.incoming)|)
    ensures output + conn.incoming == old(conn.incoming)
  {
    output := "";
    while |output| < expected
      invariant |output| <= expected
      invariant output + conn.incoming == old(conn.incoming)
      decreases expected - |output|
    {
      var data := conn.Recv(Min(BUFFER_SIZE, expected - |output|));
      if data == "" {
        return false, output;
      }
      Regroup(output, data, conn.incoming);
      output := output + data;
    }
    ok := true;
  }

  /** The number of bytes at which phase one has enough: the whole header block, or more than the cap. */
  function StopLength(stream: string): (n: nat)
    ensures 0 < n <= SAFETY_CAP + 1
  {
    match Find(stream, TERMINATOR, 0)
    case Some(h) => Min(h + 4, SAFETY_CAP + 1)
    case None => SAFETY_CAP + 1
  }

  /** How many bytes have come when there are enough, or the connection is closed. */
  function Stops(stopAt: nat, available: nat, got: nat, sizes: seq<nat>): (n: nat)
    requires got <= available && got < stopAt
    ensures got <= n <= available && n < stopAt + BUFFER_SIZE
    decreases available - got
  {
    var more := PieceSize(available - got, BUFFER_SIZE, sizes);
    if more == 0 || got + more >= stopAt then got + more
    else Stops(stopAt, available, got + more, Later(sizes))
  }

  /** How many bytes phase one holds when it stops. */
  function PhaseOne(stream: string, sizes: seq<nat>): nat { Stops(StopLength(stream), |stream|, 0, sizes) }

  datatype Declared = Absent | Malformed | Length(bytes: nat)

  /** The Content-Length of a header block, as the reader finds it. */
  function DeclaredLength(header: string): Declared {
    match Find(header, LENGTH_HEADER, 0)
    case None => Absent
    case Some(position) =>
      var start := position + |LENGTH_HEADER|;
      var line := match Find(header, "\r\n", start)
                  case Some(end) => header[start..end]
                  case None => header[start..];
      match Stoul(Trim(line))
      case None => Malformed
      case Some(n) => Length(n)
  }

  /** How the length is read from a header block; the properties below hold for any way of doing it. */
  type LengthParser = string -> Declared

  /** What the reader returns after phase one stopped with `n` bytes of the stream; None is the exception
      of a malformed length. Without a terminator it either hit the cap or found the connection closed. */
  function Result(lengthOf: LengthParser, stream: string, n: nat): Option<string>
    requires n <= |stream|
  {
    var request := stream[..n];
    match Find(request, TERMINATOR, 0)
    case None => if n <= SAFETY_CAP || !lengthOf(request).Malformed? then Some(request) else None
    case Some(h) => Completed(stream, n, h + 4, lengthOf(request[..h]))
  }

  /** Phase two, for a body starting at `bodyStart`. */
  function Completed(stream: string, n: nat, bodyStart: nat, declared: Declared): Option<string>
    requires n <= |stream|
  {
    match declared
    case Absent => Some(stream[..n])
    case Malformed => None
    case Length(bytes) =>
      if n < bodyStart + bytes <= |stream| then Some(stream[..bodyStart + bytes]) else Some(stream[..n])
  }

  lemma StopsWhenEnough(stream: string, n: nat)
    requires n <= |stream|
    ensures n >= StopLength(stream) <==> Find(stream[..n], TERMINATOR, 0).Some? || n > SAFETY_CAP
  {
    PrefixFind(stream, TERMINATOR, n);
  }

  /** What `n` bytes followed by the rest of the stream say about stopping there. */
  lemma Split(request: string, rest: string)
    ensures request == (request + rest)[..|request|] && rest == (request + rest)[|request|..]
    ensures |request| >= StopLength(request + rest) <==> Find(request, TERMINATOR, 0).Some? || |request| > SAFETY_CAP
  {
    assert request == (request + rest)[..|request|];
    StopsWhenEnough(request + rest, |request|);
  }

  /** The two tests that end the first loop. */
  method EnoughRead(request: string, ghost rest: string) returns (enough: bool)
    ensures enough <==> |request| >= StopLength(request + rest)
  {
    Split(request, rest);
    enough := Find(request, TERMINATOR, 0).Some? || |request| > SAFETY_CAP;
  }

  /** The first loop of read_http_request; `closed` when the connection ended first. */
  method ReadHead(conn: Connection) returns (closed: bool, request: string)
    modifies conn
    ensures request + conn.incoming == old(conn.incoming)
    ensures |request| == PhaseOne(old(conn.incoming), old(conn.sizes))
    ensures closed <==> |request| < StopLength(old(conn.incoming))
  {
    hide StopLength;
    ghost var stream := conn.incoming;
    ghost var stopAt := StopLength(stream);
    request := "";
    while true
      invariant request + conn.incoming == stream && |request| < stopAt
      invariant Stops(stopAt, |stream|, |request|, conn.sizes) == PhaseOne(stream, old(conn.sizes))
      decreases |conn.incoming|
    {
      var data := conn.Recv(BUFFER_SIZE);
      if data == "" {
        return true, request;
      }
      Regroup(request, data, conn.incoming);
      request := request + data;
      var enough := EnoughRead(request, conn.incoming);
      if enough {
        return false, request;
      }
    }
  }

  /** Appends the part of the declared body that phase one did not bring. */
  method CompleteBody(conn: Connection, request: string, bodyStart: nat, bytes: nat) returns (whole: string)
    requires bodyStart <= |request|
    modifies conn
    ensures var stream := request + old(conn.incoming);
            Some(whole) == Completed(stream, |request|, bodyStart, Length(bytes))
    ensures whole + conn.incoming == request + old(conn.incoming) || conn.incoming == ""
  {
    ghost var stream := request + conn.incoming;
    assert stream[..|request|] == request;
    whole := request;
    if |request| - bodyStart < bytes {
      var ok, rest := ReadAvailableData(conn, bytes - (|request| - bodyStart));
      if ok {
        Regroup(request, rest, conn.incoming);
        whole := request + rest;
        assert whole == stream[..bodyStart + bytes];
      }
    }
  }

  method ReadHttpRequest(conn: Connection) returns (result: Option<string>)
    modifies conn
    ensures result == Result(DeclaredLength, old(conn.incoming), PhaseOne(old(conn.incoming), old(conn.sizes)))
    ensures result.Some? ==> result.value + conn.incoming == old(conn.incoming) || conn.incoming == ""
  {
    ghost var stream := conn.incoming;
    var closed, request := ReadHead(conn);
    Split(request, conn.incoming);
    if closed {
      return Some(request);
    }
    var terminator := Find(request, TERMINATOR, 0);
    if terminator.None? {
      var declared := DeclaredLength(request);
      return if declared.Malformed? then None else Some(request);
    }
    var declared := DeclaredLength(request[..terminator.value]);
    match declared {
      case Absent => result := Some(request);
      case Malformed => result := None;
      case Length(bytes) =>
        var whole := CompleteBody(conn, request, terminator.value + 4, bytes);
        result := Some(whole);
    }
  }

  /** Safety for any byte stream and any pieces: the result is a prefix of the stream, and longer than
      what phase one held only to complete exactly the declared length. */
  lemma ReaderSafety(lengthOf: LengthParser, stream: string, sizes: seq<nat>)
    ensures var n := PhaseOne(stream, sizes);
            var result := Result(lengthOf, stream, n);
            && n <= 65536 + 4096
            && (result.Some? ==> n <= |result.value| <= |stream| && result.value == stream[..|result.value|])
            && (result.Some? && n < |result.value| ==>
                  exists h :: Find(stream[..n], TERMINATOR, 0) == Some(h)
                              && lengthOf(stream[..h]) == Length(|result.value| - (h + 4)))
  {
    var n := PhaseOne(stream, sizes);
    var found := Find(stream[..n], TERMINATOR, 0);
    if found.Some? {
      assert stream[..n][..found.value] == stream[..found.value];
    }
  }

  // Fragmentation.

  /** The stream starts with a header block of length `h` that ends before the safety cap does and whose
      declared length, or its absence, can be read. */
  ghost predicate WellFormed(lengthOf: LengthParser, stream: string, h: nat) {
    && Find(stream, TERMINATOR, 0) == Some(h)
    && h + 4 <= 65537
    && !lengthOf(stream[..h]).Malformed?
  }

  /** The end of the declared body; a missing header is treated like a length of zero. */
  function RequestEnd(lengthOf: LengthParser, stream: string, h: nat): nat
    requires h <= |stream|
  {
    match lengthOf(stream[..h])
    case Length(bytes) => h + 4 + bytes
    case _ => h + 4
  }

  /** The most bytes that phase one can hold. */
  function MostHeld(stream: string): nat { Min(|stream|, StopLength(stream) + 4095) }

  lemma {:induction false} StopsRange(stopAt: nat, available: nat, got: nat, sizes: seq<nat>)
    requires got < stopAt && got <= available
    ensures Min(stopAt, available) <= Stops(stopAt, available, got, sizes) <= Min(available, stopAt + BUFFER_SIZE - 1)
    decreases available - got
  {
    var more := PieceSize(available - got, BUFFER_SIZE, sizes);
    if more > 0 && got + more < stopAt {
      StopsRange(stopAt, available, got + more, Later(sizes));
    }
  }

  /** Every stopping point in that range is the outcome of some fragmentation. */
  lemma {:induction false} StopsReaches(stopAt: nat, available: nat, got: nat, n: nat) returns (sizes: seq<nat>)
    requires got < stopAt <= n <= available && n < stopAt + BUFFER_SIZE
    ensures Stops(stopAt, available, got, sizes) == n
    decreases stopAt - got
  {
    if got + 1 == stopAt {
      sizes := [n - got];
    } else {
      var rest := StopsReaches(stopAt, available, got + 1, n);
      sizes := [1] + rest;
      assert Later(sizes) == rest;
    }
  }

  lemma PhaseOneRange(stream: string, sizes: seq<nat>)
    ensures Min(StopLength(stream), |stream|) <= PhaseOne(stream, sizes) <= MostHeld(stream)
  {
    StopsRange(StopLength(stream), |stream|, 0, sizes);
  }

  lemma ResultAt(lengthOf: LengthParser, stream: string, h: nat, n: nat)
    requires WellFormed(lengthOf, stream, h) && h + 4 <= n <= |stream|
    ensures var end := RequestEnd(lengthOf, stream, h);
            Result(lengthOf, stream, n) == Some(stream[..if n < end <= |stream| then end else n])
  {
    PrefixFind(stream, TERMINATOR, n);
    assert stream[..n][..h] == stream[..h];
  }

  /** Fragmentation independence: a stream that is its head and exactly the declared body is returned
      whole, however it is cut into pieces. */
  lemma WholeRequestReturned(lengthOf: LengthParser, stream: string, h: nat, sizes: seq<nat>)
    requires WellFormed(lengthOf, stream, h) && |stream| == RequestEnd(lengthOf, stream, h)
    ensures Result(lengthOf, stream, PhaseOne(stream, sizes)) == Some(stream)
  {
    PhaseOneRange(stream, sizes);
    ResultAt(lengthOf, stream, h, PhaseOne(stream, sizes));
    assert stream[..|stream|] == stream;
  }

  /** The text that is searched for the length when phase one stopped with `n` bytes. */
  function HeaderAt(stream: string, n: nat): string
    requires n <= |stream|
  {
    match Find(stream[..n], TERMINATOR, 0)
    case None => stream[..n]
    case Some(h) => stream[..n][..h]
  }

  /** The stream ends where reading stops at the earliest; or no length can be read wherever reading stops; or
      the declared body is there and no single `recv` can run past its end. */
  ghost predicate PiecesDoNotMatter(lengthOf: LengthParser, stream: string) {
    || |stream| <= StopLength(stream)
    || (forall n | StopLength(stream) <= n <= MostHeld(stream) :: lengthOf(HeaderAt(stream, n)).Malformed?)
    || exists h :: WellFormed(lengthOf, stream, h) && MostHeld(stream) <= RequestEnd(lengthOf, stream, h) <= |stream|
  }

  /** Once reading stopped with enough bytes, an unreadable length is an exception and anything else keeps
      what was read. */
  lemma ResultShape(lengthOf: LengthParser, stream: string, n: nat)
    requires StopLength(stream) <= n <= |stream|
    ensures var result := Result(lengthOf, stream, n);
            && (result.None? <==> lengthOf(HeaderAt(stream, n)).Malformed?)
            && (result.Some? ==> n <= |result.value|)
  {
    StopsWhenEnough(stream, n);
  }

  lemma SameResult(lengthOf: LengthParser, stream: string, n: nat, m: nat)
    requires PiecesDoNotMatter(lengthOf, stream)
    requires Min(StopLength(stream), |stream|) <= n <= MostHeld(stream)
    requires Min(StopLength(stream), |stream|) <= m <= MostHeld(stream)
    ensures Result(lengthOf, stream, n) == Result(lengthOf, stream, m)
  {
    if |stream| > StopLength(stream) {
      ResultShape(lengthOf, stream, n);
      ResultShape(lengthOf, stream, m);
      if h :| WellFormed(lengthOf, stream, h) && MostHeld(stream) <= RequestEnd(lengthOf, stream, h) <= |stream| {
        ResultAt(lengthOf, stream, h, n);
        ResultAt(lengthOf, stream, h, m);
      }
    }
  }

  /** Otherwise two stopping points tell the pieces apart: one with a readable length and one without, or else
      the first and the last. */
  lemma Dependent(lengthOf: LengthParser, stream: string) returns (n: nat, m: nat)
    requires !PiecesDoNotMatter(lengthOf, stream)
    ensures StopLength(stream) <= n <= MostHeld(stream) && StopLength(stream) <= m <= MostHeld(stream)
    ensures Result(lengthOf, stream, n) != Result(lengthOf, stream, m)
  {
    var least, most := StopLength(stream), MostHeld(stream);
    if k :| least <= k <= most && lengthOf(HeaderAt(stream, k)).Malformed? {
      n :| least <= n <= most && !lengthOf(HeaderAt(stream, n)).Malformed?;
      m := k;
      ResultShape(lengthOf, stream, n);
      ResultShape(lengthOf, stream, m);
    } else {
      n, m := least, most;
      ResultShape(lengthOf, stream, n);
      ResultShape(lengthOf, stream, m);
      PrefixFind(stream, TERMINATOR, n);
      var head := Find(stream, TERMINATOR, 0);
      if head.Some? && head.value + 4 <= SAFETY_CAP + 1 {
        assert stream[..n][..head.value] == stream[..head.value];
        ResultAt(lengthOf, stream, head.value, n);
        ResultAt(lengthOf, stream, head.value, m);
      }
    }
  }

  /** Two fragmentations of one stream never disagree exactly when the pieces do not matter; for every stream. */
  lemma IndependenceExactlyWhen(lengthOf: LengthParser, stream: string)
    ensures PiecesDoNotMatter(lengthOf, stream)
            <==> forall sizes, others ::
                   Result(lengthOf, stream, PhaseOne(stream, sizes))
                       == Result(lengthOf, stream, PhaseOne(stream, others))
  {
    if PiecesDoNotMatter(lengthOf, stream) {
      forall sizes, others
        ensures Result(lengthOf, stream, PhaseOne(stream, sizes)) == Result(lengthOf, stream, PhaseOne(stream, others))
      {
        PhaseOneRange(stream, sizes);
        PhaseOneRange(stream, others);
        SameResult(lengthOf, stream, PhaseOne(stream, sizes), PhaseOne(stream, others));
      }
    } else {
      var n, m := Dependent(lengthOf, stream);
      var sizes := StopsReaches(StopLength(stream), |stream|, 0, n);
      var others := StopsReaches(StopLength(stream), |stream|, 0, m);
      assert Result(lengthOf, stream, PhaseOne(stream, sizes)) != Result(lengthOf, stream, PhaseOne(stream, others));
    }
  }

  // A Content-Length line.

  lemma LineEndFound(header: string, start: nat, value: string, tail: string)
    requires start <= |header| && header[start..] == value + tail
    requires '\r' !in value && (tail == "" || (|tail| >= 2 && tail[..2] == "\r\n"))
    ensures Find(header, "\r\n", start) == if tail == "" then None else Some(start + |value|)
  {
    FindFirst(header, "\r\n", start);
    forall i | start <= i && (tail == "" || i < start + |value|)
      ensures !OccursAt(header, "\r\n", i)
    {
      if i < |header| {
        assert header[i] == header[start..][i - start] == value[i - start];
      }
      Mismatch(header, "\r\n", i, 0);
    }
    if tail != "" {
      assert header[start + |value|] == header[start..][|value|] == tail[..2][0];
      assert header[start + |value| + 1] == header[start..][|value| + 1] == tail[..2][1];
      FindIs(header, "\r\n", start, start + |value|);
    }
  }

  lemma NameFoundAfter(before: string, rest: string)
    requires Find(before, LENGTH_HEADER, 0).None?
    ensures Find(before + (LENGTH_HEADER + rest), LENGTH_HEADER, 0) == Some(|before|)
  {
    var header := before + LENGTH_HEADER + rest;
    assert header == before + (LENGTH_HEADER + rest);
    forall i | 0 <= i < |before|
      ensures !OccursAt(header, LENGTH_HEADER, i)
    {
      var offset := |before| - i;
      if offset < |LENGTH_HEADER| {
        NameDoesNotOverlapItself(offset);
        assert header[i + offset] == LENGTH_HEADER[0];
        Mismatch(header, LENGTH_HEADER, i, offset);
      } else {
        FindFirst(before, LENGTH_HEADER, 0);
        assert header[..|before|] == before;
        OccursInPrefix(header, LENGTH_HEADER, |before|, i);
      }
    }
    OccursBetween(before, LENGTH_HEADER, rest);
    FindIs(header, LENGTH_HEADER, 0, |before|);
  }

  lemma NameDoesNotOverlapItself(offset: nat)
    requires 0 < offset < |LENGTH_HEADER|
    ensures LENGTH_HEADER[offset] != LENGTH_HEADER[0]
  {
  }

  /** The end of a header block after the value of a line: nothing, or more lines. */
  predicate LineEnds(tail: string) { tail == "" || (|tail| >= 2 && tail[..2] == "\r\n") }

  /** The value of the first Content-Length line decides, whatever lines precede and follow it. */
  lemma ValueDecides(before: string, value: string, tail: string)
    requires Find(before, "Content-Length:", 0).None? && '\r' !in value && LineEnds(tail)
    ensures DeclaredLength(before + ("Content-Length:" + (value + tail)))
         == match Stoul(Trim(value))
            case None => Malformed
            case Some(n) => Length(n)
  {
    hide Find, Stoul, Trim;
    var start := |before| + |LENGTH_HEADER|;
    var header := before + ("Content-Length:" + (value + tail));
    NameFoundAfter(before, value + tail);
    assert header[start..] == value + tail;
    LineEndFound(header, start, value, tail);
    assert header[start..start + |value|] == value;
    assert tail == "" ==> header[start..] == value;
  }

  /** A header block with lines `before`, one Content-Length line and whatever follows it. */
  function HeadWithLength(before: string, pad: string, n: nat, trail: string, tail: string): string {
    before + ("Content-Length:" + (pad + Decimal(n) + trail + tail))
  }

  /** The length read from a header block is the number in its first Content-Length line, whatever blanks
      surround it. */
  lemma LengthIsRead(before: string, pad: string, n: nat, trail: string, tail: string)
    requires Find(before, "Content-Length:", 0).None? && AllIn(pad, " \t") && AllIn(trail, " \t") && LineEnds(tail)
    requires n < 0x1_0000_0000_0000_0000
    ensures DeclaredLength(HeadWithLength(before, pad, n, trail, tail)) == Length(n)
  {
    ValueShape(pad, n, trail);
    ValueDecides(before, pad + Decimal(n) + trail, tail);
  }

  lemma ValueShape(pad: string, n: nat, trail: string)
    requires AllIn(pad, " \t") && AllIn(trail, " \t") && n < 0x1_0000_0000_0000_0000
    ensures var value := pad + Decimal(n) + trail;
            '\r' !in value && Stoul(Trim(value)) == Some(n)
  {
    hide Decimal, SignedPrefix, Trim;
    var digits := Decimal(n);
    forall i | 0 <= i < |digits|
      ensures digits[i] != '\r' && digits[i] !in " \t\r\n"
    {
      assert digits[i] in digits;
      DigitShape(digits[i]);
    }
    TrimIs(pad, digits, trail);
    DecimalConverts(n, "");
    assert digits + "" == digits;
  }

  lemma DigitShape(c: char)
    requires c in DIGITS
    ensures c != '\r' && c !in " \t\r\n"
  {
  }

  /** A value that does not start with a number cannot be read. */
  lemma WordIsMalformed(before: string, pad: string, word: string, tail: string)
    requires Find(before, "Content-Length:", 0).None? && AllIn(pad, " \t") && LineEnds(tail)
    requires forall i | 0 <= i < |word| :: 'a' <= word[i] <= 'z'
    ensures DeclaredLength(before + ("Content-Length:" + (pad + word + tail))) == Malformed
  {
    hide Find, Stoul, Trim, SignedPrefix;
    assert pad + word + "" == pad + word;
    TrimIs(pad, word, "");
    WordIsNoNumber(word);
    ValueDecides(before, pad + word, tail);
  }

  lemma WordIsNoNumber(word: string)
    requires forall i | 0 <= i < |word| :: 'a' <= word[i] <= 'z'
    ensures Stoul(word) == None
  {
    hide SignedPrefix;
    assert NumberParts("", "", "", word);
    SignedPrefixReads("", "", "", word);
    assert "" + "" + "" + word == word;
  }

  // Whole reads, for every fragmentation.

  /** A request without a length, such as a plain GET, comes back as it is. */
  lemma HeadReturned(stream: string, h: nat, sizes: seq<nat>)
    requires Find(stream, "\r\n\r\n", 0) == Some(h) && h + 4 == |stream| <= 65537
    requires Find(stream[..h], "Content-Length:", 0).None?
    ensures Result(DeclaredLength, stream, PhaseOne(stream, sizes)) == Some(stream)
  {
    WholeRequestReturned(DeclaredLength, stream, h, sizes);
  }

  /** A message with a Content-Length line that tells the truth comes back whole. */
  lemma MessageReturned(before: string, pad: string, trail: string, tail: string, body: string, sizes: seq<nat>)
    requires Find(before, "Content-Length:", 0).None? && AllIn(pad, " \t") && AllIn(trail, " \t") && LineEnds(tail)
    requires |body| < 0x1_0000_0000_0000_0000
    requires var head := HeadWithLength(before, pad, |body|, trail, tail);
             Find(head + "\r\n\r\n", "\r\n\r\n", 0) == Some(|head|) && |head| + 4 <= 65537
    ensures var stream := HeadWithLength(before, pad, |body|, trail, tail) + "\r\n\r\n" + body;
            Result(DeclaredLength, stream, PhaseOne(stream, sizes)) == Some(stream)
  {
    hide HeadWithLength, DeclaredLength, Result, PhaseOne, Find;
    var head := HeadWithLength(before, pad, |body|, trail, tail);
    var stream := head + TERMINATOR + body;
    LengthIsRead(before, pad, |body|, trail, tail);
    assert stream[..|head| + 4] == head + TERMINATOR;
    PrefixFind(stream, TERMINATOR, |head| + 4);
    assert stream[..|head|] == head;
    WholeRequestReturned(DeclaredLength, stream, |head|, sizes);
  }

  /** A head whose length cannot be read ends in the exception, whatever follows. */
  lemma UnreadableLengthThrows(stream: string, h: nat, sizes: seq<nat>)
    requires Find(stream, "\r\n\r\n", 0) == Some(h) && h + 4 <= 65537 && DeclaredLength(stream[..h]) == Malformed
    ensures Result(DeclaredLength, stream, PhaseOne(stream, sizes)) == None
  {
    var n := PhaseOne(stream, sizes);
    PhaseOneRange(stream, sizes);
    PrefixFind(stream, TERMINATOR, n);
    assert stream[..n][..h] == stream[..h];
    ResultShape(DeclaredLength, stream, n);
  }

  /** A connection that closes before the head is complete, and before the cap, leaves what came. */
  lemma ClosedEarlyReturned(lengthOf: LengthParser, stream: string, sizes: seq<nat>)
    requires Find(stream, "\r\n\r\n", 0).None? && |stream| <= 65536
    ensures Result(lengthOf, stream, PhaseOne(stream, sizes)) == Some(stream)
  {
    PhaseOneRange(stream, sizes);
    assert stream[..|stream|] == stream;
  }

  /** A body that the peer does not finish is dropped but for what came with the head. */
  lemma CutBodyReturned(lengthOf: LengthParser, stream: string, h: nat, sizes: seq<nat>)
    requires WellFormed(lengthOf, stream, h) && |stream| < RequestEnd(lengthOf, stream, h)
    ensures Result(lengthOf, stream, PhaseOne(stream, sizes)) == Some(stream[..PhaseOne(stream, sizes)])
  {
    PhaseOneRange(stream, sizes);
    ResultAt(lengthOf, stream, h, PhaseOne(stream, sizes));
  }
}
