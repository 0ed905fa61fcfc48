/**
 * Newline framing, as both ends of the plugin sockets do it: text arrives in chunks that
 * need not align with lines, and complete lines are cut from the front of a buffer
 * (`plugins/lib/pool-server.ts`, `plugins/lib/pool-executor.ts`).
 */
module LineFraming {
  /** The complete lines of `line + s`, where `line` is a line read so far. */
  function Cut(line: string, s: string): seq<string>
    decreases |s|
  {
    if s == [] then []
    else if s[0] == '\n' then [line] + Cut("", s[1..])
    else Cut(line + [s[0]], s[1..])
  }

  /** The unfinished line after `line + s`. */
  function Left(line: string, s: string): string
    decreases |s|
  {
    if s == [] then line
    else if s[0] == '\n' then Left("", s[1..])
    else Left(line + [s[0]], s[1..])
  }

  /** The complete lines of a text, without their newlines. */
  function Lines(s: string): seq<string> { Cut("", s) }

  /** What follows the last newline. */
  function Rest(s: string): string { Left("", s) }

  /** Lines with their newlines, put together again. */
  function Join(lines: seq<string>): string {
    if lines == [] then "" else lines[0] + "\n" + Join(lines[1..])
  }

  ghost predicate NoNewlines(lines: seq<string>) {
    forall i :: 0 <= i < |lines| ==> '\n' !in lines[i]
  }

  lemma {:induction false} CutHasNoNewlines(line: string, s: string)
    requires '\n' !in line
    ensures NoNewlines(Cut(line, s)) && '\n' !in Left(line, s)
    decreases |s|
  {
    if s == [] {
    } else {
      CutHasNoNewlines(if s[0] == '\n' then "" else line + [s[0]], s[1..]);
    }
  }

  lemma {:induction false} CutLosesNothing(line: string, s: string)
    ensures Join(Cut(line, s)) + Left(line, s) == line + s
    decreases |s|
  {
    if s == [] {
    } else if s[0] == '\n' {
      CutLosesNothing("", s[1..]);
      JoinNewline(line, s, Cut("", s[1..]), Left("", s[1..]));
    } else {
      CutLosesNothing(line + [s[0]], s[1..]);
      assert line + [s[0]] + s[1..] == line + s;
    }
  }

  lemma {:induction false} JoinNewline(line: string, s: string, lines: seq<string>, left: string)
    requires s != [] && s[0] == '\n' && Join(lines) + left == "" + s[1..]
    ensures Join([line] + lines) + left == line + s
  {
    JoinCons(line, lines);
    Regroup(line, Join(lines), left);
    assert line + "\n" + s[1..] == line + s;
    assert "" + s[1..] == s[1..];
  }

  lemma {:induction false} Regroup(line: string, lines: string, left: string)
    ensures line + "\n" + lines + left == line + "\n" + (lines + left)
  {}

  lemma {:induction false} JoinCons(line: string, lines: seq<string>)
    ensures Join([line] + lines) == line + "\n" + Join(lines)
  {
    assert ([line] + lines)[1..] == lines;
  }

  /** Framing loses nothing and cuts exactly at newlines. */
  lemma LinesAndRest(s: string)
    ensures Join(Lines(s)) + Rest(s) == s
    ensures NoNewlines(Lines(s)) && '\n' !in Rest(s)
  {
    CutLosesNothing("", s);
    CutHasNoNewlines("", s);
  }

  lemma {:induction false} CutAppend(line: string, a: string, b: string)
    ensures Cut(line, a + b) == Cut(line, a) + Cut(Left(line, a), b)
    ensures Left(line, a + b) == Left(Left(line, a), b)
    decreases |a|
  {
    if a == [] {
      assert a + b == b;
    } else {
      assert (a + b)[1..] == a[1..] + b;
      CutAppend(if a[0] == '\n' then "" else line + [a[0]], a[1..], b);
    }
  }

  lemma {:induction false} CutNothing(line: string, s: string)
    requires '\n' !in s
    ensures Cut(line, s) == [] && Left(line, s) == line + s
    decreases |s|
  {
    if s == [] {
    } else {
      CutNothing(line + [s[0]], s[1..]);
      assert line + [s[0]] + s[1..] == line + s;
    }
  }

  /** Cutting a text's lines early, before the rest of it has arrived, changes nothing. */
  lemma Resume(a: string, b: string)
    ensures Lines(a + b) == Lines(a) + Lines(Rest(a) + b)
    ensures Rest(a + b) == Rest(Rest(a) + b)
  {
    var r := Rest(a);
    CutAppend("", a, b);
    LinesAndRest(a);
    CutNothing("", r);
    assert "" + r == r;
    CutAppend("", r, b);
  }

  /** The other direction: lines sent with their newlines are the lines received. */
  lemma {:induction false} LinesOfJoin(lines: seq<string>, rest: string)
    requires NoNewlines(lines) && '\n' !in rest
    ensures Lines(Join(lines) + rest) == lines && Rest(Join(lines) + rest) == rest
    decreases |lines|
  {
    if lines == [] {
      assert "" + rest == rest;
      CutNothing("", rest);
    } else {
      var head, tail := lines[0], Join(lines[1..]) + rest;
      assert Join(lines) + rest == head + ("\n" + tail);
      assert ("\n" + tail)[1..] == tail;
      assert "" + head == head;
      CutNothing("", head);
      CutAppend("", head, "\n" + tail);
      LinesOfJoin(lines[1..], rest);
    }
  }

  /** `indexOf('\n')`, with the length standing for "not found". */
  function NewlineAt(s: string): (i: nat)
    ensures i <= |s|
    ensures i < |s| ==> s[i] == '\n'
    ensures '\n' !in s[..i]
  {
    if s == [] || s[0] == '\n' then 0
    else
      var i := 1 + NewlineAt(s[1..]);
      assert s[..i] == [s[0]] + s[1..][..i - 1];
      i
  }

  /** One turn of the extraction loop. */
  lemma {:induction false} TakeLine(s: string)
    ensures var i := NewlineAt(s);
      if i == |s| then Lines(s) == [] && Rest(s) == s
      else Lines(s) == [s[..i]] + Lines(s[i + 1..]) && Rest(s) == Rest(s[i + 1..])
  {
    var i := NewlineAt(s);
    CutNothing("", s[..i]);
    assert "" + s[..i] == s[..i];
    if i == |s| {
      assert s[..i] == s;
    } else {
      assert s == s[..i] + s[i..] && s[i..][1..] == s[i + 1..];
      CutAppend("", s[..i], s[i..]);
    }
  }

  class LineBuffer {
    var buffer: string

    constructor ()
      ensures buffer == ""
    {
      buffer := "";
    }

    /** The extraction loop: cut complete lines from the front while there are any. */
    method Feed(data: string) returns (lines: seq<string>)
      modifies this
      ensures lines == Lines(old(buffer) + data) && buffer == Rest(old(buffer) + data)
    {
      buffer := buffer + data;
      lines := [];
      var newlineIndex := NewlineAt(buffer);
      while newlineIndex < |buffer|
        invariant newlineIndex == NewlineAt(buffer)
        invariant lines + Lines(buffer) == Lines(old(buffer) + data)
        invariant Rest(buffer) == Rest(old(buffer) + data)
        decreases |buffer|
      {
        TakeLine(buffer);
        var line := buffer[..newlineIndex];
        buffer := buffer[newlineIndex + 1..];
        lines := lines + [line];
        newlineIndex := NewlineAt(buffer);
      }
      TakeLine(buffer);
    }
  }

  function Concat(chunks: seq<string>): string {
    if chunks == [] then "" else chunks[0] + Concat(chunks[1..])
  }

  /** Lines cut chunk by chunk, from a buffer that already holds `buffer`. */
  function FeedAll(buffer: string, chunks: seq<string>): (seq<string>, string)
    decreases |chunks|
  {
    if chunks == [] then ([], buffer)
    else
      var (lines, rest) := FeedAll(Rest(buffer + chunks[0]), chunks[1..]);
      (Lines(buffer + chunks[0]) + lines, rest)
  }

  /** However the text is chunked, the same lines come out and the same rest stays. */
  lemma {:induction false} ChunkingIsInvisible(buffer: string, chunks: seq<string>)
    requires '\n' !in buffer
    ensures FeedAll(buffer, chunks) == (Lines(buffer + Concat(chunks)), Rest(buffer + Concat(chunks)))
    decreases |chunks|
  {
    if chunks == [] {
      assert buffer + "" == buffer && "" + buffer == buffer;
      CutNothing("", buffer);
    } else {
      var head, tail := buffer + chunks[0], Concat(chunks[1..]);
      assert buffer + Concat(chunks) == head + tail;
      LinesAndRest(head);
      ChunkingIsInvisible(Rest(head), chunks[1..]);
      Resume(head, tail);
    }
  }
}
