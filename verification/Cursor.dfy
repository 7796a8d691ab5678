/** The append-only cursor log of `persistence/src/cursor.rs`, byte by byte. The serializer is a parameter: it puts
    a record on one non-blank line that reads back, as JSON with newlines escaped does (RFC 8259, section 7). */
module Cursor {
  import opened Prelude

  newtype byte = x: int | 0 <= x < 256

  const NEWLINE: byte := 10

  /** Decoding stands for the UTF-8 check and the JSON parser together. */
  datatype Codec<!T> = Codec(encode: T -> seq<byte>, decode: seq<byte> -> Option<T>)

  datatype ParseError = ParseError

  predicate IsBlank(b: byte) { b == 32 || 9 <= b <= 13 }

  function TrimEnd(s: seq<byte>): seq<byte> {
    if s != [] && IsBlank(s[|s| - 1]) then TrimEnd(s[..|s| - 1]) else s
  }

  ghost predicate OneLiner<T(!new)>(c: Codec<T>) {
    forall r ::
      && NEWLINE !in c.encode(r)
      && c.encode(r) != [] && !IsBlank(c.encode(r)[|c.encode(r)| - 1])
      && c.decode(c.encode(r)) == Some(r)
  }

  function Line<T>(c: Codec<T>, r: T): seq<byte> { c.encode(r) + [NEWLINE] }

  /** What appending these records to an empty file leaves in it. */
  function Content<T>(c: Codec<T>, records: seq<T>): seq<byte> {
    if records == [] then [] else Line(c, records[0]) + Content(c, records[1..])
  }

  /** How many bytes a line read takes: up to and with the first newline, or all there is. */
  function LineLength(s: seq<byte>): (n: nat)
    ensures n <= |s| && (s != [] ==> n > 0)
  {
    if s == [] then 0 else if s[0] == NEWLINE then 1 else 1 + LineLength(s[1..])
  }

  function Prepend<T>(records: seq<T>, rest: Result<seq<T>, ParseError>): Result<seq<T>, ParseError> {
    match rest case Ok(more) => Ok(records + more) case Err(e) => Err(e)
  }

  /** The records a run of bytes reads as: blank lines skipped, the first bad line an error. */
  function Parse<T>(c: Codec<T>, s: seq<byte>): Result<seq<T>, ParseError>
    decreases |s|
  {
    if s == [] then Ok([])
    else
      var n := LineLength(s);
      var line, rest := TrimEnd(s[..n]), s[n..];
      if line == [] then Parse(c, rest)
      else
        match c.decode(line)
        case None => Err(ParseError)
        case Some(r) => Prepend([r], Parse(c, rest))
  }

  lemma PrependNone<T>(rest: Result<seq<T>, ParseError>)
    ensures Prepend([], rest) == rest
  {
    assert rest.Ok? ==> [] + rest.value == rest.value;
  }

  lemma PrependTwice<T>(a: seq<T>, b: seq<T>, rest: Result<seq<T>, ParseError>)
    ensures Prepend(a, Prepend(b, rest)) == Prepend(a + b, rest)
  {
    assert rest.Ok? ==> a + (b + rest.value) == (a + b) + rest.value;
  }

  /** The start of the file has been read up to a position, giving these records. */
  predicate ReadSoFar<T(==)>(c: Codec<T>, start: seq<byte>, records: seq<T>, unread: seq<byte>) {
    Parse(c, start) == Prepend(records, Parse(c, unread))
  }

  lemma ReadNothing<T>(c: Codec<T>, start: seq<byte>)
    ensures ReadSoFar(c, start, [], start)
  {
    PrependNone(Parse(c, start));
  }

  lemma ReadOneLine<T>(c: Codec<T>, start: seq<byte>, records: seq<T>, unread: seq<byte>)
    requires unread != [] && ReadSoFar(c, start, records, unread)
    ensures var n := LineLength(unread);
            var line := TrimEnd(unread[..n]);
              if line == [] then ReadSoFar(c, start, records, unread[n..])
              else if c.decode(line) == None then Parse(c, start) == Err(ParseError)
              else ReadSoFar(c, start, records + [c.decode(line).value], unread[n..])
  {
    hide TrimEnd;
    var n := LineLength(unread);
    var line := TrimEnd(unread[..n]);
    if line != [] && c.decode(line).Some? {
      PrependTwice(records, [c.decode(line).value], Parse(c, unread[n..]));
    }
  }

  lemma ReadItAll<T>(c: Codec<T>, start: seq<byte>, records: seq<T>)
    requires ReadSoFar(c, start, records, [])
    ensures Parse(c, start) == Ok(records)
  {
    assert records + [] == records;
  }

  // ---------- The file object ----------

  class CursorFile<T> {
    const codec: Codec<T>
    var file: Option<seq<byte>>

    constructor (codec: Codec<T>)
      ensures this.codec == codec && file == None
    {
      this.codec, file := codec, None;
    }

    function Bytes(): seq<byte>
      reads this
    {
      if file.Some? then file.value else []
    }

    /** Write one line at the end, creating the file if need be, and report the new length. */
    method Append(r: T) returns (offset: nat)
      modifies this`file
      ensures file == Some(old(Bytes()) + Line(codec, r)) && offset == |Bytes()|
    {
      var line := codec.encode(r);
      line := line + [NEWLINE];
      file := Some(Bytes() + line);
      offset := |file.value|;
    }

    /** Every record from a byte offset on; past the end, and in a file not there yet, there are none. */
    method ReadFrom(offset: nat) returns (result: Result<seq<T>, ParseError>)
      ensures result == Parse(codec, if offset <= |Bytes()| then Bytes()[offset..] else [])
    {
      if file == None {
        return Ok([]);
      }
      hide Parse, TrimEnd, LineLength, ReadSoFar;
      var pos, records := offset, [];
      var bytes := file.value;
      if pos > |bytes| {
        pos := |bytes|;
      }
      ghost var start := bytes[pos..];
      ReadNothing(codec, start);
      while pos < |bytes|
        invariant pos <= |bytes|
        invariant ReadSoFar(codec, start, records, bytes[pos..])
      {
        var unread := bytes[pos..];
        ReadOneLine(codec, start, records, unread);
        var n := LineLength(unread);
        var line := TrimEnd(unread[..n]);
        assert unread[n..] == bytes[pos + n..];
        pos := pos + n;
        if line == [] {
          continue;
        }
        var record := codec.decode(line);
        if record == None {
          return Err(ParseError);
        }
        records := records + [record.value];
      }
      assert bytes[pos..] == [];
      ReadItAll(codec, start, records);
      return Ok(records);
    }

    method ReadAll() returns (result: Result<seq<T>, ParseError>)
      ensures result == Parse(codec, Bytes())
    {
      assert Bytes()[0..] == Bytes();
      result := ReadFrom(0);
    }

    method CurrentOffset() returns (offset: nat)
      ensures offset == |Bytes()|
    {
      offset := if file.Some? then |file.value| else 0;
    }
  }

  // ---------- Round trips ----------

  lemma {:induction false} FirstLine(s: seq<byte>, rest: seq<byte>)
    requires NEWLINE !in s
    ensures LineLength(s + [NEWLINE] + rest) == |s| + 1
  {
    var all := s + [NEWLINE] + rest;
    if s != [] {
      FirstLine(s[1..], rest);
      assert all[1..] == s[1..] + [NEWLINE] + rest;
    }
  }

  lemma {:induction false} LastLine(s: seq<byte>)
    requires NEWLINE !in s
    ensures LineLength(s) == |s|
  {
    if s != [] {
      LastLine(s[1..]);
    }
  }

  lemma TrimLine(s: seq<byte>)
    requires s != [] && !IsBlank(s[|s| - 1])
    ensures TrimEnd(s) == s && TrimEnd(s + [NEWLINE]) == s
  {
    assert (s + [NEWLINE])[..|s|] == s;
  }

  /** Bytes without a newline, then a newline: the first line is those bytes trimmed, the rest reads as ever. */
  lemma ParseLine<T>(c: Codec<T>, s: seq<byte>, rest: seq<byte>)
    requires NEWLINE !in s
    ensures var line := TrimEnd(s + [NEWLINE]);
            Parse(c, s + [NEWLINE] + rest) ==
            if line == [] then Parse(c, rest)
            else if c.decode(line) == None then Err(ParseError)
            else Prepend([c.decode(line).value], Parse(c, rest))
  {
    var all := s + [NEWLINE] + rest;
    FirstLine(s, rest);
    assert all[..|s| + 1] == s + [NEWLINE] && all[|s| + 1..] == rest;
  }

  /** Whole records at the front read back, whatever follows them. */
  lemma {:induction false} ParseContent<T(!new)>(c: Codec<T>, records: seq<T>, rest: seq<byte>)
    requires OneLiner(c)
    ensures Parse(c, Content(c, records) + rest) == Prepend(records, Parse(c, rest))
  {
    if records == [] {
      assert Content(c, records) + rest == rest;
      PrependNone(Parse(c, rest));
    } else {
      var r, more := records[0], records[1..];
      TrimLine(c.encode(r));
      UnfoldContent(c, records, rest);
      assert NEWLINE !in c.encode(r) && c.decode(c.encode(r)) == Some(r) && c.encode(r) != [];
      ParseContent(c, more, rest);
      hide Parse, TrimEnd, Prepend, Content, OneLiner;
      ParseLine(c, c.encode(r), Content(c, more) + rest);
      PrependTwice([r], more, Parse(c, rest));
      assert [r] + more == records;
    }
  }

  lemma UnfoldContent<T>(c: Codec<T>, records: seq<T>, rest: seq<byte>)
    requires records != []
    ensures Content(c, records) + rest == c.encode(records[0]) + [NEWLINE] + (Content(c, records[1..]) + rest)
  {
  }

  /** Reading everything returns exactly the records appended. */
  lemma ReadAllRoundTrip<T(!new)>(c: Codec<T>, records: seq<T>)
    requires OneLiner(c)
    ensures Parse(c, Content(c, records)) == Ok(records)
  {
    ParseContent(c, records, []);
    assert Content(c, records) + [] == Content(c, records);
    assert records + [] == records;
  }

  lemma {:induction false} ContentAppends<T>(c: Codec<T>, a: seq<T>, b: seq<T>)
    ensures Content(c, a + b) == Content(c, a) + Content(c, b)
  {
    if a == [] {
      assert a + b == b;
    } else {
      hide Line;
      ContentAppends(c, a[1..], b);
      assert (a + b)[1..] == a[1..] + b && (a + b)[0] == a[0];
      var line := Line(c, a[0]);
      assert line + (Content(c, a[1..]) + Content(c, b)) == (line + Content(c, a[1..])) + Content(c, b);
    }
  }

  /** The offset the k-th append reports. */
  function Offset<T>(c: Codec<T>, records: seq<T>, k: nat): nat
    requires k <= |records|
  {
    |Content(c, records[..k])|
  }

  /** One more append adds its line to the content, so that the offsets are those reported on the way. */
  lemma OneMore<T>(c: Codec<T>, records: seq<T>, r: T)
    ensures Content(c, records + [r]) == Content(c, records) + Line(c, r)
  {
    ContentAppends(c, records, [r]);
    assert [r][1..] == [];
    assert Line(c, r) + [] == Line(c, r);
  }

  /** Resuming from the offset of the k-th append returns exactly the records after it. */
  lemma ResumeRoundTrip<T(!new)>(c: Codec<T>, records: seq<T>, k: nat)
    requires OneLiner(c) && k <= |records|
    ensures Offset(c, records, k) <= |Content(c, records)|
    ensures Parse(c, Content(c, records)[Offset(c, records, k)..]) == Ok(records[k..])
  {
    hide Content, Parse, OneLiner;
    ContentAppends(c, records[..k], records[k..]);
    assert records == records[..k] + records[k..];
    var front, back := Content(c, records[..k]), Content(c, records[k..]);
    assert (front + back)[|front|..] == back;
    ReadAllRoundTrip(c, records[k..]);
  }

  /** Offsets strictly increase, and each stands just after a newline. */
  lemma OffsetsAreBoundaries<T>(c: Codec<T>, records: seq<T>, j: nat, k: nat)
    requires j < k <= |records|
    ensures Offset(c, records, j) < Offset(c, records, k) <= |Content(c, records)|
    ensures Content(c, records)[Offset(c, records, k) - 1] == NEWLINE
  {
    hide Content;
    ContentAppends(c, records[..k], records[k..]);
    assert records == records[..k] + records[k..];
    ContentAppends(c, records[..j], records[j..k - 1]);
    assert records[..k - 1] == records[..j] + records[j..k - 1];
    OneMore(c, records[..k - 1], records[k - 1]);
    assert records[..k] == records[..k - 1] + [records[k - 1]];
    var front, back := Content(c, records[..k]), Content(c, records[k..]);
    assert (front + back)[|front| - 1] == front[|front| - 1];
  }

  // ---------- A crash inside an append ----------

  /** The first k bytes of a record's line, short of the newline. */
  function Part<T>(c: Codec<T>, x: T, k: nat): seq<byte>
    requires k <= |c.encode(x)|
  {
    c.encode(x)[..k]
  }

  ghost predicate StartsBare<T(!new)>(c: Codec<T>) {
    forall x :: c.encode(x) != [] && !IsBlank(c.encode(x)[0])
  }

  ghost predicate NoPartReads<T(!new)>(c: Codec<T>) {
    forall x, k :: 0 < k < |c.encode(x)| ==> c.decode(Part(c, x, k)) == None
  }

  ghost predicate NoPartAndWholeReads<T(!new)>(c: Codec<T>) {
    forall x, k, r :: 0 < k <= |c.encode(x)| ==> c.decode(Part(c, x, k) + c.encode(r)) == None
  }

  ghost predicate NoWholeAndPartReads<T(!new)>(c: Codec<T>) {
    forall x, r, k :: 0 < k <= |c.encode(r)| ==> c.decode(c.encode(x) + Part(c, r, k)) == None
  }

  /** Records are JSON objects on one line, as every logged record is: part of one does not parse, nor does part of
      one, or all of it, run into another (RFC 8259, sections 2 and 4). */
  ghost predicate Objects<T(!new)>(c: Codec<T>) {
    OneLiner(c) && StartsBare(c) && NoPartReads(c) && NoPartAndWholeReads(c) && NoWholeAndPartReads(c)
  }

  datatype Unit = Unit

  function EmptyObject(u: Unit): seq<byte> { [123, 125] }

  function ReadEmptyObject(s: seq<byte>): Option<Unit> {
    if |s| == 2 && s[0] == 123 && s[1] == 125 then Some(Unit) else None
  }

  /** Such serializers exist: the empty object is one. */
  lemma EmptyObjectIsObject()
    ensures Objects(Codec(EmptyObject, ReadEmptyObject))
  {
    var c := Codec(EmptyObject, ReadEmptyObject);
    forall u: Unit
      ensures |c.encode(u)| == 2 && NEWLINE !in c.encode(u) && c.decode(c.encode(u)) == Some(u)
      ensures c.encode(u)[0] == 123 && c.encode(u)[1] == 125
    {
      assert u.Unit?;
      assert ReadEmptyObject(EmptyObject(u)) == Some(u);
    }
  }

  lemma PartHasNoNewline<T(!new)>(c: Codec<T>, x: T, k: nat)
    requires OneLiner(c) && k <= |c.encode(x)|
    ensures NEWLINE !in Part(c, x, k)
  {
    assert NEWLINE !in c.encode(x);
  }

  /** Trimming part of a record leaves part of it, and something if there was something. */
  lemma {:induction false} TrimmedPart<T(!new)>(c: Codec<T>, x: T, k: nat) returns (j: nat)
    requires StartsBare(c) && k <= |c.encode(x)|
    ensures j <= k && (j == 0 <==> k == 0) && TrimEnd(Part(c, x, k)) == Part(c, x, j)
  {
    j := k;
    var part := Part(c, x, k);
    if k > 0 && IsBlank(part[k - 1]) {
      assert c.encode(x)[0] == part[0];
      assert part[..k - 1] == Part(c, x, k - 1);
      j := TrimmedPart(c, x, k - 1);
    }
  }

  lemma {:induction false} TrimAfter(front: seq<byte>, s: seq<byte>)
    requires TrimEnd(s) != []
    ensures TrimEnd(front + s) == front + TrimEnd(s)
  {
    var all := front + s;
    if s != [] && IsBlank(s[|s| - 1]) {
      assert all[..|all| - 1] == front + s[..|s| - 1];
      TrimAfter(front, s[..|s| - 1]);
    }
  }

  /** Bytes without a newline after whole records: nothing if blank, else one more line. */
  lemma LastLineReads<T(!new)>(c: Codec<T>, records: seq<T>, torn: seq<byte>)
    requires OneLiner(c) && NEWLINE !in torn
    ensures var line := TrimEnd(torn);
            Parse(c, Content(c, records) + torn) ==
            if line == [] then Ok(records)
            else if c.decode(line) == None then Err(ParseError)
            else Ok(records + [c.decode(line).value])
  {
    ParseContent(c, records, torn);
    LastLine(torn);
    assert torn[..|torn|] == torn && torn[|torn|..] == [];
    assert records + [] == records;
    hide OneLiner, Content, TrimEnd;
    assert Parse(c, []) == Ok([]);
    assert forall x: T :: Prepend([x], Ok([])) == Ok([x]) by { assert forall x: T :: [x] + [] == [x]; }
  }

  /** Cut short inside an append, a log still reads back exactly if none of the record's bytes, or all of them,
      arrived; the newline alone may be missing. */
  lemma TornAppendReads<T(!new)>(c: Codec<T>, records: seq<T>, x: T, k: nat)
    requires Objects(c) && k <= |c.encode(x)|
    ensures Parse(c, Content(c, records) + Part(c, x, k)) ==
            if k == 0 then Ok(records) else if k == |c.encode(x)| then Ok(records + [x]) else Err(ParseError)
  {
    hide Parse, Content;
    PartHasNoNewline(c, x, k);
    LastLineReads(c, records, Part(c, x, k));
    var j := TrimmedPart(c, x, k);
    if k == |c.encode(x)| {
      WholePart(c, x);
    } else if k > 0 {
      assert c.decode(Part(c, x, j)) == None;
    }
    hide TrimEnd;
  }

  lemma WholePart<T(!new)>(c: Codec<T>, x: T)
    requires OneLiner(c)
    ensures Part(c, x, |c.encode(x)|) == c.encode(x) == TrimEnd(c.encode(x)) && c.decode(c.encode(x)) == Some(x)
  {
    TrimLine(c.encode(x));
  }

  lemma FusedBytes<T>(c: Codec<T>, front: seq<byte>, torn: seq<byte>, r: T, more: seq<T>, rest: seq<byte>)
    ensures front + torn + (Content(c, [r] + more) + rest)
         == front + (torn + c.encode(r) + [NEWLINE] + (Content(c, more) + rest))
  {
    assert ([r] + more)[1..] == more;
    assert Content(c, [r] + more) == Line(c, r) + Content(c, more);
    assert torn + (c.encode(r) + [NEWLINE] + Content(c, more) + rest)
        == torn + c.encode(r) + [NEWLINE] + (Content(c, more) + rest);
  }

  /** Any part left behind spoils whatever is appended after it. */
  lemma FusedLineFails<T(!new)>(c: Codec<T>, records: seq<T>, x: T, k: nat, r: T, more: seq<T>, rest: seq<byte>)
    requires Objects(c) && 0 < k <= |c.encode(x)|
    ensures Parse(c, Content(c, records) + Part(c, x, k) + (Content(c, [r] + more) + rest)) == Err(ParseError)
  {
    var torn := Part(c, x, k);
    var line := torn + c.encode(r);
    assert c.decode(line) == None;
    PartHasNoNewline(c, x, k);
    assert NEWLINE !in c.encode(r) && c.encode(r) != [] && !IsBlank(c.encode(r)[|c.encode(r)| - 1]);
    assert line[|line| - 1] == c.encode(r)[|c.encode(r)| - 1];
    TrimLine(line);
    hide Parse, Content, TrimEnd, Objects, OneLiner;
    FusedBytes(c, Content(c, records), torn, r, more, rest);
    ParseContent(c, records, line + [NEWLINE] + (Content(c, more) + rest));
    ParseLine(c, line, Content(c, more) + rest);
  }

  /** After an append cut short and further appends, the log reads back, and then exactly, if and only if none of
      the record's bytes had arrived. */
  lemma TornAppendFuses<T(!new)>(c: Codec<T>, records: seq<T>, x: T, k: nat, r: T, more: seq<T>)
    requires Objects(c) && k <= |c.encode(x)|
    ensures var read := Parse(c, Content(c, records) + Part(c, x, k) + Content(c, [r] + more));
              (read.Ok? <==> k == 0) && (read.Ok? ==> read.value == records + [r] + more)
  {
    hide Parse, Content, Objects;
    if k == 0 {
      assert Content(c, records) + Part(c, x, 0) + Content(c, [r] + more)
          == Content(c, records) + Content(c, [r] + more);
      ContentAppends(c, records, [r] + more);
      assert records + ([r] + more) == records + [r] + more;
      assert OneLiner(c) by { PartsOfObjects(c); }
      ReadAllRoundTrip(c, records + [r] + more);
    } else {
      FusedLineFails(c, records, x, k, r, more, []);
      assert Content(c, [r] + more) + [] == Content(c, [r] + more);
    }
  }

  lemma PartsOfObjects<T(!new)>(c: Codec<T>)
    requires Objects(c)
    ensures OneLiner(c) && StartsBare(c)
  {
  }

  /** Whether bytes were left behind shows in the last byte of the file, before anything is appended. */
  lemma TornShowsAtTheEnd<T(!new)>(c: Codec<T>, records: seq<T>, x: T, k: nat)
    requires OneLiner(c) && k <= |c.encode(x)|
    ensures var bytes := Content(c, records) + Part(c, x, k);
            k == 0 <==> bytes == [] || bytes[|bytes| - 1] == NEWLINE
  {
    PartHasNoNewline(c, x, k);
    var bytes := Content(c, records) + Part(c, x, k);
    if k > 0 {
      assert bytes[|bytes| - 1] == Part(c, x, k)[k - 1];
    } else if records != [] {
      OffsetsAreBoundaries(c, records, 0, |records|);
      assert records[..|records|] == records && bytes == Content(c, records);
    }
  }

  // ---------- What a torn append does to later runs ----------

  /** What one run of the daemon appends if it gets to, and how much of one more record arrives before the run is
      cut short. */
  datatype Session<T> = Session(appended: seq<T>, torn: T, at: nat)

  function Written<T>(c: Codec<T>, s: Session<T>): seq<byte> {
    Content(c, s.appended) + Part(c, s.torn, if s.at <= |c.encode(s.torn)| then s.at else |c.encode(s.torn)|)
  }

  /** Every cycle reads the whole position log first and ends there if it does not parse. */
  function AfterSession<T>(c: Codec<T>, bytes: seq<byte>, s: Session<T>): seq<byte> {
    if Parse(c, bytes).Err? then bytes else bytes + Written(c, s)
  }

  function AfterSessions<T>(c: Codec<T>, bytes: seq<byte>, sessions: seq<Session<T>>): seq<byte>
    decreases |sessions|
  {
    if sessions == [] then bytes else AfterSessions(c, AfterSession(c, bytes, sessions[0]), sessions[1..])
  }

  lemma {:induction false} StuckForGood<T>(c: Codec<T>, bytes: seq<byte>, sessions: seq<Session<T>>)
    requires Parse(c, bytes).Err?
    ensures AfterSessions(c, bytes, sessions) == bytes
    decreases |sessions|
  {
    if sessions != [] {
      hide Parse;
      StuckForGood(c, bytes, sessions[1..]);
    }
  }

  /** With only its newline missing, a record is spoilt by the first bytes that follow. */
  lemma WholeThenWritten<T(!new)>(c: Codec<T>, records: seq<T>, x: T, s: Session<T>)
    requires Objects(c) && Written(c, s) != []
    ensures Parse(c, Content(c, records) + Part(c, x, |c.encode(x)|) + Written(c, s)).Err?
  {
    var j := if s.at <= |c.encode(s.torn)| then s.at else |c.encode(s.torn)|;
    var part := Part(c, s.torn, j);
    assert c.encode(x) != [] by { assert OneLiner(c); }
    if s.appended != [] {
      var r, more := s.appended[0], s.appended[1..];
      assert s.appended == [r] + more;
      hide Parse, Content, Objects;
      FusedLineFails(c, records, x, |c.encode(x)|, r, more, part);
    } else {
      assert Written(c, s) == part;
      WholeThenPart(c, records, x, s.torn, j);
    }
  }

  lemma WholeThenPart<T(!new)>(c: Codec<T>, records: seq<T>, x: T, r: T, j: nat)
    requires Objects(c) && 0 < j <= |c.encode(r)|
    ensures Parse(c, Content(c, records) + Part(c, x, |c.encode(x)|) + Part(c, r, j)).Err?
  {
    var i := TrimmedPart(c, r, j);
    assert c.decode(c.encode(x) + Part(c, r, i)) == None;
    WholePart(c, x);
    PartHasNoNewline(c, r, j);
    assert NEWLINE !in c.encode(x);
    TrimAfter(c.encode(x), Part(c, r, j));
    hide Parse, Content, TrimEnd, Objects;
    assert OneLiner(c) by { PartsOfObjects(c); }
    LastLineReads(c, records, c.encode(x) + Part(c, r, j));
    assert Content(c, records) + (c.encode(x) + Part(c, r, j)) == Content(c, records) + c.encode(x) + Part(c, r, j);
  }

  /** One torn line stops every later cycle: from then on the log is read exactly if only the newline was missing and
      no later run has written anything; otherwise it never parses again. */
  lemma {:induction false} TornLogStopsLaterCycles<T(!new)>(c: Codec<T>, records: seq<T>, x: T, k: nat,
                                                           sessions: seq<Session<T>>)
    requires Objects(c) && 0 < k <= |c.encode(x)|
    ensures Parse(c, AfterSessions(c, Content(c, records) + Part(c, x, k), sessions)).Ok? <==>
            k == |c.encode(x)| && forall s :: s in sessions ==> Written(c, s) == []
    decreases |sessions|
  {
    var bytes := Content(c, records) + Part(c, x, k);
    TornAppendReads(c, records, x, k);
    hide Parse, Content, Objects, Written;
    if k < |c.encode(x)| {
      StuckForGood(c, bytes, sessions);
    } else if sessions != [] {
      var s, rest := sessions[0], sessions[1..];
      assert forall t :: t in sessions <==> t == s || t in rest by { assert sessions == [s] + rest; }
      if Written(c, s) == [] {
        assert bytes + Written(c, s) == bytes;
        TornLogStopsLaterCycles(c, records, x, k, rest);
      } else {
        WholeThenWritten(c, records, x, s);
        StuckForGood(c, bytes + Written(c, s), rest);
      }
    }
  }

  lemma WrittenWhole<T>(c: Codec<T>, s: Session<T>)
    requires s.at == 0
    ensures Written(c, s) == Content(c, s.appended)
  {
  }

  // ---------- A file whose directory entry is lost ----------

  /** The directory is never synced, so between runs the file may also vanish, whatever was synced into it. */
  datatype Step<T> = Ran(session: Session<T>) | EntryLost

  function AfterSteps<T>(c: Codec<T>, bytes: seq<byte>, steps: seq<Step<T>>): seq<byte>
    decreases |steps|
  {
    if steps == [] then bytes
    else
      match steps[0]
      case Ran(s) => AfterSteps(c, AfterSession(c, bytes, s), steps[1..])
      case EntryLost => AfterSteps(c, [], steps[1..])
  }

  /** What was appended since the file was last lost. */
  function Kept<T>(records: seq<T>, steps: seq<Step<T>>): seq<T>
    decreases |steps|
  {
    if steps == [] then records
    else
      match steps[0]
      case Ran(s) => Kept(records + s.appended, steps[1..])
      case EntryLost => Kept([], steps[1..])
  }

  function AllAppended<T>(steps: seq<Step<T>>): seq<T> {
    if steps == [] then []
    else (if steps[0].Ran? then steps[0].session.appended else []) + AllAppended(steps[1..])
  }

  predicate Untorn<T>(steps: seq<Step<T>>) {
    forall i :: 0 <= i < |steps| && steps[i].Ran? ==> steps[i].session.at == 0
  }

  /** As long as no run is cut short inside an append, every later run reads exactly what was appended since the file
      was last lost. */
  lemma {:induction false} UntornLogKeepsAll<T(!new)>(c: Codec<T>, records: seq<T>, steps: seq<Step<T>>)
    requires OneLiner(c) && Untorn(steps)
    ensures Parse(c, AfterSteps(c, Content(c, records), steps)) == Ok(Kept(records, steps))
    decreases |steps|
  {
    hide Parse, OneLiner, Content, Written;
    ReadAllRoundTrip(c, records);
    if steps != [] {
      match steps[0] {
        case Ran(s) =>
          WrittenWhole(c, s);
          ContentAppends(c, records, s.appended);
          UntornLogKeepsAll(c, records + s.appended, steps[1..]);
        case EntryLost =>
          NoContent(c);
          UntornLogKeepsAll(c, [], steps[1..]);
      }
    }
  }

  lemma NoContent<T>(c: Codec<T>)
    ensures Content(c, []) == []
  {
  }

  /** The file is only ever lost with nothing in it. */
  predicate LostEmpty<T(==)>(records: seq<T>, steps: seq<Step<T>>)
    decreases |steps|
  {
    if steps == [] then true
    else
      match steps[0]
      case Ran(s) => LostEmpty(records + s.appended, steps[1..])
      case EntryLost => records == [] && LostEmpty([], steps[1..])
  }

  /** Everything appended, each append acknowledged only after a sync, is still there exactly if the file was never
      lost with something in it. */
  lemma {:induction false} NothingLostIff<T>(records: seq<T>, steps: seq<Step<T>>)
    ensures |Kept(records, steps)| <= |records + AllAppended(steps)|
    ensures Kept(records, steps) == records + AllAppended(steps) <==> LostEmpty(records, steps)
    decreases |steps|
  {
    if steps == [] {
      assert records + [] == records;
    } else {
      match steps[0] {
        case Ran(s) =>
          NothingLostIff(records + s.appended, steps[1..]);
          assert records + s.appended + AllAppended(steps[1..]) == records + (s.appended + AllAppended(steps[1..]));
        case EntryLost =>
          NothingLostIff([], steps[1..]);
          assert [] + AllAppended(steps[1..]) == AllAppended(steps[1..]);
          assert records == [] ==> records + AllAppended(steps[1..]) == AllAppended(steps[1..]);
      }
    }
  }
}
