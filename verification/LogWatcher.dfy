/** The log watcher: an io.Writer that turns chunks of bytes into lines and dispatches them. */
module LogWatcher {
  newtype Byte = x: int | 0 <= x < 256
  type Text = seq<Byte>

  const NEWLINE: Byte := 10
  const RETURN: Byte := 13
  const BRACE: Byte := 123

  /** Foreign parts: trimming of white space, and decoding of a JSON line to its message when its level
      is error. */
  datatype Decoded = NotJson | Json(error: bool, message: string)

  datatype Reader = Reader(trim: Text -> Text, decode: Text -> Decoded)

  /** Lines are replicated to the logger; errors found in JSON lines go to the alert channel. */
  datatype Event = Logged(line: Text) | Alerted(message: string)

  function Clean(line: Text): Text {
    if |line| > 0 && line[|line| - 1] == RETURN then line[..|line| - 1] else line
  }

  function Dispatch(w: Reader, line: Text): seq<Event> {
    if line == [] then []
    else
      match (if line[0] == BRACE then w.decode(line) else NotJson)
      case NotJson => [Logged(line)]
      case Json(error, message) => [Logged(line)] + (if error then [Alerted(message)] else [])
  }

  /** A line that is not empty but all white space: its first byte is read after trimming. */
  predicate Blank(w: Reader, line: Text) { Clean(line) != [] && w.trim(Clean(line)) == [] }

  function LineEvents(w: Reader, line: Text): seq<Event> {
    if Clean(line) == [] then [] else Dispatch(w, w.trim(Clean(line)))
  }

  // ---------- Lines of a whole text ----------

  function Index(s: Text): (i: nat)
    ensures i <= |s| && (forall j | 0 <= j < i :: s[j] != NEWLINE) && (i < |s| ==> s[i] == NEWLINE)
  {
    if s == [] || s[0] == NEWLINE then 0 else 1 + Index(s[1..])
  }

  /** The complete lines, without their newlines. */
  function Lines(s: Text): seq<Text> {
    var i := Index(s);
    if i == |s| then [] else [s[..i]] + Lines(s[i + 1..])
  }

  /** What follows the last newline. */
  function Rest(s: Text): Text {
    var i := Index(s);
    if i == |s| then s else Rest(s[i + 1..])
  }

  function Join(lines: seq<Text>, rest: Text): Text {
    if lines == [] then rest else lines[0] + [NEWLINE] + Join(lines[1..], rest)
  }

  lemma IndexIs(line: Text, tail: Text)
    requires NEWLINE !in line
    ensures var s := line + [NEWLINE] + tail;
            Index(s) == |line| < |s| && s[..|line|] == line && s[|line| + 1..] == tail
  {
    hide Index;
    var s := line + [NEWLINE] + tail;
    assert s[|line|] == NEWLINE;
    assert forall j | 0 <= j < |line| :: s[j] == line[j];
  }

  /** A text with a newline starts with a line. */
  lemma FirstLine(s: Text) returns (line: Text, tail: Text)
    requires Index(s) < |s|
    ensures line == s[..Index(s)] && tail == s[Index(s) + 1..] && NEWLINE !in line && s == line + [NEWLINE] + tail
  {
    hide Index;
    line, tail := s[..Index(s)], s[Index(s) + 1..];
  }

  lemma LinesStep(line: Text, tail: Text)
    requires NEWLINE !in line
    ensures Lines(line + [NEWLINE] + tail) == [line] + Lines(tail) && Rest(line + [NEWLINE] + tail) == Rest(tail)
  {
    hide Index;
    IndexIs(line, tail);
  }

  /** Splitting loses nothing. */
  lemma {:induction false} JoinLines(s: Text)
    ensures Join(Lines(s), Rest(s)) == s && NEWLINE !in Rest(s)
    ensures forall k | 0 <= k < |Lines(s)| :: NEWLINE !in Lines(s)[k]
    decreases |s|
  {
    hide Index;
    if Index(s) < |s| {
      var line, tail := FirstLine(s);
      JoinLines(tail);
      LinesStep(line, tail);
      hide Lines, Rest;
      assert Lines(s)[1..] == Lines(tail);
    }
  }

  /** And it is the only splitting. */
  lemma {:induction false} LinesUnique(lines: seq<Text>, rest: Text)
    requires NEWLINE !in rest && forall k | 0 <= k < |lines| :: NEWLINE !in lines[k]
    ensures Lines(Join(lines, rest)) == lines && Rest(Join(lines, rest)) == rest
  {
    hide Index;
    if lines != [] {
      LinesUnique(lines[1..], rest);
      LinesStep(lines[0], Join(lines[1..], rest));
    }
  }

  // ---------- Reading a text ----------

  /** The events dispatched, whether the watcher survived, and the bytes kept for the next write. */
  datatype Outcome = Outcome(events: seq<Event>, alive: bool, rest: Text)

  function Before(es: seq<Event>, o: Outcome): Outcome { o.(events := es + o.events) }

  function Read(w: Reader, s: Text): Outcome {
    var i := Index(s);
    if i == |s| then Outcome([], true, s)
    else if Blank(w, s[..i]) then Outcome([], false, [])
    else Before(LineEvents(w, s[..i]), Read(w, s[i + 1..]))
  }

  function AllEvents(w: Reader, lines: seq<Text>): seq<Event> {
    if lines == [] then [] else LineEvents(w, lines[0]) + AllEvents(w, lines[1..])
  }

  lemma ReadStep(w: Reader, line: Text, tail: Text)
    requires NEWLINE !in line
    ensures Read(w, line + [NEWLINE] + tail)
            == if Blank(w, line) then Outcome([], false, []) else Before(LineEvents(w, line), Read(w, tail))
  {
    hide Index, Blank, LineEvents;
    IndexIs(line, tail);
  }

  /** The watcher survives a text exactly when no line is blank; it has then dispatched every line. */
  lemma {:induction false} ReadIsLines(w: Reader, s: Text)
    ensures Read(w, s).alive <==> forall k | 0 <= k < |Lines(s)| :: !Blank(w, Lines(s)[k])
    ensures Read(w, s).alive ==> Read(w, s).events == AllEvents(w, Lines(s)) && Read(w, s).rest == Rest(s)
    decreases |s|
  {
    hide Index, Blank, LineEvents;
    if Index(s) < |s| {
      var line, tail := FirstLine(s);
      ReadIsLines(w, tail);
      LinesStep(line, tail);
      ReadStep(w, line, tail);
      hide Read, Lines, Rest;
      assert Lines(s)[0] == line && Lines(s)[1..] == Lines(tail);
      assert forall k | 0 <= k < |Lines(tail)| :: Lines(s)[k + 1] == Lines(tail)[k];
    }
  }

  /** Reading in two parts is reading at once. */
  lemma {:induction false} ReadChunks(w: Reader, a: Text, b: Text)
    ensures Read(w, a + b) == if Read(w, a).alive then Before(Read(w, a).events, Read(w, Read(w, a).rest + b))
            else Read(w, a)
    decreases |a|
  {
    hide Index, Blank, LineEvents, Read;
    if Index(a) < |a| {
      var line, tail := FirstLine(a);
      ReadChunks(w, tail, b);
      ReadStep(w, line, tail);
      ReadStep(w, line, tail + b);
      assert line + [NEWLINE] + tail + b == line + [NEWLINE] + (tail + b);
      BeforeBefore(LineEvents(w, line), Read(w, tail).events, Read(w, Read(w, tail).rest + b));
    } else {
      NoNewline(w, a);
      assert Before([], Read(w, a + b)) == Read(w, a + b);
    }
  }

  lemma {:induction false} RestHasNoNewline(w: Reader, s: Text)
    ensures NEWLINE !in Read(w, s).rest
    decreases |s|
  {
    hide Index, Blank, LineEvents;
    var i := Index(s);
    if i < |s| { RestHasNoNewline(w, s[i + 1..]); }
  }

  lemma NoNewline(w: Reader, s: Text)
    requires NEWLINE !in s
    ensures Read(w, s) == Outcome([], true, s)
  {}

  // ---------- The watcher ----------

  class Watcher {
    const reader: Reader
    var remainder: Text
    /** What has been logged and alerted so far. */
    var events: seq<Event>

    constructor (reader: Reader)
      ensures this.reader == reader && remainder == [] && events == []
    {
      this.reader, remainder, events := reader, [], [];
    }

    /** Write; on a blank line the first byte of an empty string is read, which panics. */
    method Write(p: Text) returns (n: nat, panicked: bool)
      requires NEWLINE !in remainder
      modifies this
      ensures NEWLINE !in remainder
      ensures var o := Read(reader, old(remainder) + p);
              panicked == !o.alive && remainder == o.rest && events == old(events) + o.events
                  && (!panicked ==> n == |p|)
    {
      hide Read, Index, Blank, LineEvents, Dispatch;
      ghost var whole := Read(reader, remainder + p);
      RestHasNoNewline(reader, remainder + p);
      if |p| == 0 {
        assert remainder + p == remainder;
        NoNewline(reader, remainder);
        return 0, false;
      }
      var offset := 0;
      assert Before([], whole) == whole && remainder + p[0..] == remainder + p;
      while true
        invariant offset <= |p| && NEWLINE !in remainder && old(events) <= events
        invariant whole == Before(events[|old(events)|..], Read(reader, remainder + p[offset..]))
        decreases |p| - offset
      {
        ghost var unread, done := remainder + p[offset..], events[|old(events)|..];
        var idx := Index(p[offset..]);
        if idx == |p[offset..]| {
          remainder := remainder + p[offset..];
          NoNewline(reader, remainder);
          return |p|, false;
        }
        var line := remainder + p[offset..offset + idx];
        remainder := [];
        offset := offset + idx + 1;
        assert unread == line + [NEWLINE] + p[offset..] && [] + p[offset..] == p[offset..];
        ReadStep(reader, line, p[offset..]);
        var ok, some := HandleLine(reader, line);
        if !ok { return offset, true; }
        BeforeBefore(done, some, Read(reader, p[offset..]));
        events := events + some;
        assert events[|old(events)|..] == done + some;
      }
    }
  }

  lemma BeforeBefore(a: seq<Event>, b: seq<Event>, o: Outcome)
    ensures Before(a, Before(b, o)) == Before(a + b, o)
  {
    assert a + (b + o.events) == a + b + o.events;
  }

  /** One complete line. */
  method HandleLine(w: Reader, raw: Text) returns (ok: bool, events: seq<Event>)
    ensures ok <==> !Blank(w, raw)
    ensures ok ==> events == LineEvents(w, raw)
  {
    var line := raw;
    if |line| > 0 && line[|line| - 1] == RETURN {
      line := line[..|line| - 1];
    }
    if |line| == 0 { return true, []; }
    var str := w.trim(line);
    if |str| == 0 { return false, []; }
    events := [Logged(str)];
    if str[0] == BRACE {
      match w.decode(str)
      case NotJson =>
      case Json(error, message) =>
        if error {
          events := events + [Alerted(message)];
        }
    }
    ok := true;
  }

  // ---------- Every way of splitting a stream into writes ----------

  function Concat(chunks: seq<Text>): Text {
    if chunks == [] then [] else Concat(chunks[..|chunks| - 1]) + chunks[|chunks| - 1]
  }

  /** Any sequence of writes does what one write of all the bytes does, up to the first panic. */
  method WriteAll(w: Watcher, chunks: seq<Text>) returns (panicked: bool)
    requires w.remainder == []
    modifies w
    ensures var o := Read(w.reader, Concat(chunks));
            panicked == !o.alive && w.remainder == o.rest && w.events == old(w.events) + o.events
  {
    hide Read;
    assert chunks[..0] == [];
    NoNewline(w.reader, []);
    for i := 0 to |chunks|
      invariant NEWLINE !in w.remainder
      invariant Read(w.reader, Concat(chunks[..i])).alive
      invariant w.remainder == Read(w.reader, Concat(chunks[..i])).rest
      invariant w.events == old(w.events) + Read(w.reader, Concat(chunks[..i])).events
    {
      assert chunks[..i + 1][..i] == chunks[..i];
      ReadChunks(w.reader, Concat(chunks[..i]), chunks[i]);
      var n;
      n, panicked := w.Write(chunks[i]);
      if panicked {
        DeadStays(w.reader, chunks, i + 1);
        return;
      }
    }
    assert chunks[..|chunks|] == chunks;
    panicked := false;
  }

  lemma {:induction false} DeadStays(w: Reader, chunks: seq<Text>, i: nat)
    requires i <= |chunks| && !Read(w, Concat(chunks[..i])).alive
    ensures Read(w, Concat(chunks)) == Read(w, Concat(chunks[..i]))
    decreases |chunks| - i
  {
    hide Read;
    if i < |chunks| {
      assert chunks[..i + 1][..i] == chunks[..i];
      ReadChunks(w, Concat(chunks[..i]), chunks[i]);
      DeadStays(w, chunks, i + 1);
    } else {
      assert chunks[..i] == chunks;
    }
  }

  /** A line of one space, with a trimming that removes spaces, stops the watcher. */
  lemma SpaceLinePanics(w: Reader)
    requires w.trim([32]) == []
    ensures !Read(w, [32, NEWLINE]).alive
  {
    assert Index([32, NEWLINE]) == 1 by {
      assert Index([32, NEWLINE][1..]) == 0;
    }
    assert [32, NEWLINE][..1] == [32];
  }
}
