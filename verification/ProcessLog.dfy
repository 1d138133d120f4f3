/** The log writer behind a sidecar's stdout and stderr: it cuts the stream into lines, however
    the stream arrives. */
module ProcessLog {
  import opened Collections
  import opened Text

  /** What the writer holds, and the lines it has forwarded to the log. */
  datatype Writer = Writer(buf: Bytes, lastLine: Bytes, log: seq<Bytes>)

  const EMPTY := Writer([], [], [])

  /** strings.TrimRight(line, "\r"). */
  function StripReturns(line: Bytes): Bytes {
    if line != [] && line[|line| - 1] == '\r' then StripReturns(line[..|line| - 1]) else line
  }

  function Emit(w: Writer, line: Bytes): Writer {
    var trimmed := TrimSpace(StripReturns(line));
    if trimmed == [] then w else w.(lastLine := trimmed, log := w.log + [trimmed])
  }

  predicate HasLine(w: Writer) {
    IndexByte(w.buf, '\n') < |w.buf|
  }

  /** Forwards the first complete line of the buffer. */
  function Advance(w: Writer): Writer
    requires HasLine(w)
  {
    var i := IndexByte(w.buf, '\n');
    Emit(w.(buf := w.buf[i + 1..]), w.buf[..i])
  }

  /** Forwards every complete line of the buffer. */
  function Drain(w: Writer): Writer
    decreases |w.buf|
  {
    if HasLine(w) then Drain(Advance(w)) else w
  }

  function Written(w: Writer, p: Bytes): Writer {
    Drain(w.(buf := w.buf + p))
  }

  function Flushed(w: Writer): Writer {
    if w.buf == [] then w else Emit(w.(buf := []), w.buf)
  }

  class ProcLogWriter {
    var buf: Bytes
    var lastLine: Bytes
    var log: seq<Bytes>

    ghost function State(): Writer
      reads this
    {
      Writer(buf, lastLine, log)
    }

    constructor ()
      ensures State() == EMPTY
    {
      buf, lastLine, log := [], [], [];
    }

    method EmitLine(line: Bytes)
      modifies this
      ensures State() == Emit(old(State()), line)
    {
      var trimmed := TrimSpace(StripReturns(line));
      if trimmed == [] {
        return;
      }
      lastLine := trimmed;
      log := log + [trimmed];
    }

    method Write(p: Bytes) returns (n: nat)
      modifies this
      ensures State() == Written(old(State()), p) && n == |p|
    {
      buf := buf + p;
      while true
        invariant Drain(State()) == Written(old(State()), p)
        decreases |buf|
      {
        var i := IndexByte(buf, '\n');
        if i == |buf| {
          break;
        }
        var line := buf[..i];
        buf := buf[i + 1..];
        EmitLine(line);
      }
      n := |p|;
    }

    method Flush()
      modifies this
      ensures State() == Flushed(old(State()))
    {
      if buf != [] {
        var line := buf;
        buf := [];
        EmitLine(line);
      }
    }
  }

  // ---------------------------------------------------------------- what the lines are

  /** The lines of a text that are not blank, trimmed. */
  function NonBlank(lines: seq<Bytes>): seq<Bytes> {
    if lines == [] then []
    else (if TrimSpace(lines[0]) == [] then [] else [TrimSpace(lines[0])]) + NonBlank(lines[1..])
  }

  function LastOf(log: seq<Bytes>): Bytes {
    if log == [] then [] else log[|log| - 1]
  }

  function Whole(chunks: seq<Bytes>): Bytes {
    if chunks == [] then [] else chunks[0] + Whole(chunks[1..])
  }

  function WrittenAll(w: Writer, chunks: seq<Bytes>): Writer
    decreases |chunks|
  {
    if chunks == [] then w else WrittenAll(Written(w, chunks[0]), chunks[1..])
  }

  lemma {:induction false} StrippingReturnsIsTrimming(line: Bytes)
    ensures TrimSpace(StripReturns(line)) == TrimSpace(line)
    decreases |line|
  {
    if line != [] && line[|line| - 1] == '\r' {
      var l := line[..|line| - 1];
      assert l + "\r" == line;
      TrimIgnoresSpaceBehind(l, "\r");
      StrippingReturnsIsTrimming(l);
    }
  }

  lemma {:induction false} NonBlankConcat(a: seq<Bytes>, b: seq<Bytes>)
    ensures NonBlank(a + b) == NonBlank(a) + NonBlank(b)
    decreases |a|
  {
    if a == [] {
      assert a + b == b;
    } else {
      assert (a + b)[1..] == a[1..] + b;
      NonBlankConcat(a[1..], b);
    }
  }

  lemma {:induction false} EmitForwards(w: Writer, line: Bytes)
    ensures var next := Emit(w, line);
      && next.buf == w.buf && next.log == w.log + NonBlank([line])
      && (LastOf(w.log) == w.lastLine ==> LastOf(next.log) == next.lastLine)
  {
    StrippingReturnsIsTrimming(line);
    assert NonBlank([line][1..]) == [];
  }

  /** All parts but the unfinished last one. */
  function Complete(b: Bytes): seq<Bytes> {
    Split(b, '\n')[..|Split(b, '\n')| - 1]
  }

  function Unfinished(b: Bytes): Bytes {
    Split(b, '\n')[|Split(b, '\n')| - 1]
  }

  lemma {:induction false} CompleteStep(b: Bytes)
    ensures var i := IndexByte(b, '\n');
      if i == |b| then Complete(b) == [] && Unfinished(b) == b
      else Complete(b) == [b[..i]] + Complete(b[i + 1..]) && Unfinished(b) == Unfinished(b[i + 1..])
  {
  }

  lemma {:induction false} AdvanceForwards(w: Writer)
    requires HasLine(w)
    ensures Advance(w).log + NonBlank(Complete(Advance(w).buf)) == w.log + NonBlank(Complete(w.buf))
    ensures Unfinished(Advance(w).buf) == Unfinished(w.buf)
  {
    var b, i := w.buf, IndexByte(w.buf, '\n');
    var line, rest := b[..i], b[i + 1..];
    CompleteStep(b);
    EmitForwards(w.(buf := rest), line);
    calc {
      Advance(w).log + NonBlank(Complete(rest));
      (w.log + NonBlank([line])) + NonBlank(Complete(rest));
      { ConcatAssoc(w.log, NonBlank([line]), NonBlank(Complete(rest))); }
      w.log + (NonBlank([line]) + NonBlank(Complete(rest)));
      { NonBlankConcat([line], Complete(rest)); }
      w.log + NonBlank(Complete(b));
    }
  }

  /** Draining forwards all lines of the buffer but the unfinished last one, which stays. */
  lemma {:induction false} DrainForwardsLines(w: Writer)
    ensures Drain(w).log == w.log + NonBlank(Complete(w.buf))
    ensures Drain(w).buf == Unfinished(w.buf) && '\n' !in Drain(w).buf
    decreases |w.buf|
  {
    if HasLine(w) {
      AdvanceForwards(w);
      DrainForwardsLines(Advance(w));
    } else {
      CompleteStep(w.buf);
      assert w.buf[..|w.buf|] == w.buf;
      ConcatNil(w.log);
    }
  }

  lemma {:induction false} DrainRemembersLast(w: Writer)
    requires LastOf(w.log) == w.lastLine
    ensures LastOf(Drain(w).log) == Drain(w).lastLine
    decreases |w.buf|
  {
    if HasLine(w) {
      var i := IndexByte(w.buf, '\n');
      EmitForwards(w.(buf := w.buf[i + 1..]), w.buf[..i]);
      DrainRemembersLast(Advance(w));
    }
  }

  /** Bytes appended behind a newline do not move it. */
  lemma {:induction false} AppendBehindNewline(b: Bytes, q: Bytes)
    requires IndexByte(b, '\n') < |b|
    ensures var i := IndexByte(b, '\n');
      IndexByte(b + q, '\n') == i && (b + q)[..i] == b[..i] && (b + q)[i + 1..] == b[i + 1..] + q
  {
    var i := IndexByte(b, '\n');
    IndexByteAfter(b[..i], '\n', b[i + 1..] + q);
    assert b + q == b[..i] + ['\n'] + (b[i + 1..] + q);
  }

  lemma {:induction false} EmitKeepsBuffer(w: Writer, x: Bytes, line: Bytes)
    ensures Emit(w.(buf := x), line) == Emit(w, line).(buf := x) && Emit(w, line).buf == w.buf
  {
  }

  lemma {:induction false} AdvanceAppend(w: Writer, q: Bytes)
    requires HasLine(w)
    ensures HasLine(w.(buf := w.buf + q))
    ensures Advance(w.(buf := w.buf + q)) == Advance(w).(buf := Advance(w).buf + q)
  {
    var b, i := w.buf, IndexByte(w.buf, '\n');
    AppendBehindNewline(b, q);
    EmitKeepsBuffer(w, b[i + 1..], b[..i]);
    EmitKeepsBuffer(w, b[i + 1..] + q, b[..i]);
  }

  lemma {:induction false} DrainTwice(w: Writer, q: Bytes)
    ensures Written(Drain(w), q) == Drain(w.(buf := w.buf + q))
    decreases |w.buf|
  {
    if HasLine(w) {
      calc {
        Written(Drain(w), q);
        Written(Drain(Advance(w)), q);
      == { DrainTwice(Advance(w), q); }
        Drain(Advance(w).(buf := Advance(w).buf + q));
      == { AdvanceAppend(w, q); }
        Drain(w.(buf := w.buf + q));
      }
    }
  }

  /** A cut between two writes does not show. */
  lemma {:induction false} WriteTwice(w: Writer, p: Bytes, q: Bytes)
    ensures Written(Written(w, p), q) == Written(w, p + q)
  {
    DrainTwice(w.(buf := w.buf + p), q);
    assert w.buf + p + q == w.buf + (p + q);
  }

  lemma {:induction false} ChunksAreOneWrite(w: Writer, chunks: seq<Bytes>)
    requires '\n' !in w.buf
    ensures WrittenAll(w, chunks) == Written(w, Whole(chunks))
    decreases |chunks|
  {
    if chunks == [] {
      IndexByteAfter(w.buf, '\n', []);
      assert w.buf + [] == w.buf;
    } else {
      DrainForwardsLines(w.(buf := w.buf + chunks[0]));
      ChunksAreOneWrite(Written(w, chunks[0]), chunks[1..]);
      WriteTwice(w, chunks[0], Whole(chunks[1..]));
    }
  }

  lemma {:induction false} FlushForwards(w: Writer)
    ensures Flushed(w).log == w.log + NonBlank([w.buf]) && Flushed(w).buf == []
    ensures LastOf(w.log) == w.lastLine ==> LastOf(Flushed(w).log) == Flushed(w).lastLine
  {
    EmitForwards(w.(buf := []), w.buf);
    assert NonBlank([w.buf][1..]) == [];
  }

  /** However the child's output is cut into writes: between writes no newline stays buffered, and
      after one flush the forwarded lines are exactly the non-blank trimmed lines of the whole
      stream, in order, the last of them remembered. */
  lemma {:induction false} LinesSurviveChunking(chunks: seq<Bytes>)
    ensures var w := WrittenAll(EMPTY, chunks);
      && '\n' !in w.buf
      && Flushed(w).log == NonBlank(Split(Whole(chunks), '\n'))
      && Flushed(w).lastLine == LastOf(Flushed(w).log)
      && Flushed(w).buf == []
  {
    ChunksAreOneWrite(EMPTY, chunks);
    ConcatNil(Whole(chunks));
    OneWriteForwards(Whole(chunks));
  }

  lemma {:induction false} OneWriteForwards(text: Bytes)
    ensures var w := Drain(Writer(text, [], []));
      && '\n' !in w.buf
      && Flushed(w).log == NonBlank(Split(text, '\n'))
      && Flushed(w).lastLine == LastOf(Flushed(w).log)
      && Flushed(w).buf == []
  {
    var w := Drain(Writer(text, [], []));
    DrainForwardsLines(Writer(text, [], []));
    DrainRemembersLast(Writer(text, [], []));
    FlushForwards(w);
    ConcatNil(NonBlank(Complete(text)));
    calc {
      Flushed(w).log;
      NonBlank(Complete(text)) + NonBlank([Unfinished(text)]);
      { NonBlankConcat(Complete(text), [Unfinished(text)]); }
      NonBlank(Complete(text) + [Unfinished(text)]);
      { LastApart(Split(text, '\n')); }
      NonBlank(Split(text, '\n'));
    }
  }
}
