/** Whole lines out of two interleaved streams of chunks (apps/server/src/exec-lines.ts). */
module ExecLines {
  import opened Requests
  import opened Text

  /** `text.split("\n")`. */
  function Lines(text: string): (r: seq<string>)
    ensures r != []
  {
    Split(text, '\n')
  }

  predicate Blank(s: string) { forall i :: 0 <= i < |s| ==> IsSpace(s[i]) }

  /** Blank is what trimming leaves nothing of. */
  lemma BlankIff(s: string)
    ensures Blank(s) <==> Trim(s) == ""
  {
    var a, b := TrimIs(s);
    if a < b {
      assert !IsSpace(s[a]);
    }
  }

  /** The lines of a whole text; what follows the last newline only when it is not blank. */
  function LinesOf(text: string): seq<string> {
    var pieces := Lines(text);
    var last := pieces[|pieces| - 1];
    pieces[..|pieces| - 1] + (if Blank(last) then [] else [last])
  }

  /** The logged lines, joined again, are the text; but for white space after its last newline,
      which is all that is ever lost. */
  lemma LinesOfIs(text: string)
    ensures var lines := LinesOf(text);
      && (forall i :: 0 <= i < |lines| ==> '\n' !in lines[i])
      && if lines != [] && Trim(Left(text)) != "" then Join(lines, "\n") == text && lines[|lines| - 1] == Left(text)
         else Trim(Left(text)) == "" && text == Join(lines + [Left(text)], "\n")
  {
    SplitIs(text, '\n');
    BlankIff(Left(text));
    var pieces := Lines(text);
    if Blank(Left(text)) {
      assert LinesOf(text) + [Left(text)] == pieces;
    } else {
      assert LinesOf(text) == pieces;
    }
  }

  /** What has been cut off a text, and the incomplete line left. */
  function Whole(text: string): seq<string> { Lines(text)[..|Lines(text)| - 1] }

  function Left(text: string): string { Lines(text)[|Lines(text)| - 1] }

  function Prepend(c: char, pieces: seq<string>): seq<string>
    requires pieces != []
  {
    if c == '\n' then [""] + pieces else [[c] + pieces[0]] + pieces[1..]
  }

  lemma SplitCons(c: char, text: string)
    ensures Lines([c] + text) == Prepend(c, Lines(text))
  {
    assert ([c] + text)[1..] == text;
  }

  /** The pieces of two texts in a row: the last of one and the first of the other are one. */
  function Glue(p: seq<string>, q: seq<string>): (r: seq<string>)
    requires p != [] && q != []
    ensures |r| == |p| + |q| - 1
  {
    p[..|p| - 1] + [p[|p| - 1] + q[0]] + q[1..]
  }

  lemma PrependGlue(c: char, p: seq<string>, q: seq<string>)
    requires p != [] && q != []
    ensures Prepend(c, Glue(p, q)) == Glue(Prepend(c, p), q)
  {
    var x, y := Prepend(c, Glue(p, q)), Glue(Prepend(c, p), q);
    forall i | 0 <= i < |x| ensures x[i] == y[i] {
    }
  }

  lemma {:induction false} SplitGlues(a: string, b: string)
    ensures Lines(a + b) == Glue(Lines(a), Lines(b))
  {
    if a == [] {
      assert a + b == b && "" + Lines(b)[0] == Lines(b)[0];
      assert Glue(Lines(a), Lines(b)) == [Lines(b)[0]] + Lines(b)[1..];
    } else {
      SplitGlues(a[1..], b);
      assert a + b == [a[0]] + (a[1..] + b) && a == [a[0]] + a[1..];
      SplitCons(a[0], a[1..] + b);
      SplitCons(a[0], a[1..]);
      PrependGlue(a[0], Lines(a[1..]), Lines(b));
    }
  }

  /** Splitting can be resumed: only the incomplete line matters to what comes after. */
  lemma SplitResumes(a: string, b: string)
    ensures Lines(a + b) == Whole(a) + Lines(Left(a) + b)
  {
    SplitIs(a, '\n');
    SplitPiece(Left(a), "", '\n');
    SplitGlues(a, b);
    SplitGlues(Left(a), b);
  }

  type Chunks = seq<(Stream, string)>

  function TextOf(chunks: Chunks, stream: Stream): string {
    if chunks == [] then ""
    else
      TextOf(chunks[..|chunks| - 1], stream)
      + (if chunks[|chunks| - 1].0 == stream then chunks[|chunks| - 1].1 else "")
  }

  /** The logged lines of one stream. */
  function LoggedOn(log: seq<(string, Stream)>, stream: Stream): seq<string> {
    if log == [] then []
    else LoggedOn(log[..|log| - 1], stream) + (if log[|log| - 1].1 == stream then [log[|log| - 1].0] else [])
  }

  lemma LoggedMore(log: seq<(string, Stream)>, line: string, stream: Stream)
    ensures LoggedOn(log + [(line, stream)], stream) == LoggedOn(log, stream) + [line]
    ensures forall other :: other != stream ==> LoggedOn(log + [(line, stream)], other) == LoggedOn(log, other)
  {
    assert (log + [(line, stream)])[..|log|] == log;
  }

  /** The chunk callback and its two buffers. */
  class LineSplitter {
    var stdout: string
    var stderr: string
    var log: seq<(string, Stream)>

    ghost function Buffered(stream: Stream): string
      reads this
    {
      match stream
      case Stdout => stdout
      case Stderr => stderr
    }

    constructor ()
      ensures stdout == "" && stderr == "" && log == []
    {
      stdout, stderr, log := "", "", [];
    }

    method OnChunk(stream: Stream, data: string)
      modifies this
      ensures Buffered(stream) == Left(old(Buffered(stream)) + data)
      ensures LoggedOn(log, stream) == old(LoggedOn(log, stream)) + Whole(old(Buffered(stream)) + data)
      ensures forall other :: other != stream ==>
                Buffered(other) == old(Buffered(other)) && LoggedOn(log, other) == old(LoggedOn(log, other))
    {
      ghost var start := log;
      var text := (match stream case Stdout => stdout case Stderr => stderr) + data;
      var lines := Lines(text);
      var last := lines[|lines| - 1];
      match stream {
        case Stdout => stdout := last;
        case Stderr => stderr := last;
      }
      lines := lines[..|lines| - 1];
      for i := 0 to |lines|
        invariant LoggedOn(log, stream) == LoggedOn(start, stream) + lines[..i]
        invariant forall other :: other != stream ==> LoggedOn(log, other) == LoggedOn(start, other)
        invariant Buffered(stream) == last
        invariant forall other :: other != stream ==> Buffered(other) == old(Buffered(other))
      {
        LoggedMore(log, lines[i], stream);
        assert lines[..i + 1] == lines[..i] + [lines[i]];
        log := log + [(lines[i], stream)];
      }
    }

    method Finish()
      modifies this`log
      ensures forall s :: LoggedOn(log, s) ==
                old(LoggedOn(log, s)) + (if Blank(Buffered(s)) then [] else [Buffered(s)])
    {
      if !Blank(stdout) {
        log := log + [(stdout, Stdout)];
      }
      if !Blank(stderr) {
        log := log + [(stderr, Stderr)];
      }
    }
  }

  /** A stream's buffer and log after `text` of it has come in. */
  predicate Caught(buffered: string, logged: seq<string>, text: string) {
    buffered == Left(text) && logged == Whole(text)
  }

  lemma CaughtMore(buffered: string, logged: seq<string>, text: string, data: string)
    requires Caught(buffered, logged, text)
    ensures Caught(Left(buffered + data), logged + Whole(buffered + data), text + data)
  {
    SplitResumes(text, data);
  }

  lemma TextMore(chunks: Chunks, i: nat)
    requires i < |chunks|
    ensures var (stream, data) := chunks[i];
      TextOf(chunks[..i + 1], stream) == TextOf(chunks[..i], stream) + data
      && forall other :: other != stream ==> TextOf(chunks[..i + 1], other) == TextOf(chunks[..i], other)
  {
    assert chunks[..i + 1][..i] == chunks[..i];
  }

  /** However the two streams are cut into chunks and interleaved, each stream's log is its
      whole text cut into lines, and owes nothing to the other stream. */
  method RunStreamingLines(chunks: Chunks) returns (log: seq<(string, Stream)>)
    ensures LoggedOn(log, Stdout) == LinesOf(TextOf(chunks, Stdout))
    ensures LoggedOn(log, Stderr) == LinesOf(TextOf(chunks, Stderr))
  {
    var splitter := new LineSplitter();
    for i := 0 to |chunks|
      invariant Caught(splitter.stdout, LoggedOn(splitter.log, Stdout), TextOf(chunks[..i], Stdout))
      invariant Caught(splitter.stderr, LoggedOn(splitter.log, Stderr), TextOf(chunks[..i], Stderr))
    {
      var (stream, data) := chunks[i];
      TextMore(chunks, i);
      CaughtMore(splitter.Buffered(stream), LoggedOn(splitter.log, stream), TextOf(chunks[..i], stream), data);
      splitter.OnChunk(stream, data);
      assert stream == Stdout ==> splitter.Buffered(Stderr) == splitter.stderr;
      assert stream == Stderr ==> splitter.Buffered(Stdout) == splitter.stdout;
    }
    assert chunks[..|chunks|] == chunks;
    splitter.Finish();
    log := splitter.log;
  }
}
