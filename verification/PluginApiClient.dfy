/**
 * The request bookkeeping of the plugin-side API client (`PluginAPIImpl` in
 * `plugins/lib/pool-executor.ts`): requests wait in `pending`, each with a timer, until a
 * response line, a timeout, a write error or the loss of the socket settles them.
 */
module PluginApiClient {
  import opened Options
  import opened LineFraming

  datatype Outcome = Result(value: nat) | RemoteError(value: nat) | TimedOut | WriteFailed | SocketLost

  /** A JavaScript promise: the first settlement counts, later ones are ignored. */
  datatype Promise = Unsettled | Settled(outcome: Outcome)

  /** A response line that parses: `requestId` and either `result` or `error`. */
  datatype Response = Response(requestId: string, outcome: Outcome)

  /** `JSON.parse` and destructuring; `None` where either throws. */
  type Parser = string -> Option<Response>

  datatype State = State(
    pending: set<string>, timers: set<string>, promises: map<string, Promise>,
    socketBuffer: string)

  function Init(): State {
    State({}, {}, map[], "")
  }

  datatype Event =
    | Register(id: string)       // the promise executor of `send`, for a fresh request id
    | Data(chunk: string)
    | TimerFires(id: string)
    | WriteError(id: string)     // the callback of `socket.write`, with an error
    | SocketGone                 // the socket's error or close handler
    | Close                      // `close()`

  function Settle(promises: map<string, Promise>, id: string, outcome: Outcome): map<string, Promise> {
    if id in promises && promises[id].Unsettled? then promises[id := Settled(outcome)] else promises
  }

  /** `clearTimeout`, settle, and remove from `pending`, as every path does in some order. */
  function Conclude(s: State, id: string, outcome: Outcome): State {
    s.(pending := s.pending - {id}, timers := s.timers - {id}, promises := Settle(s.promises, id, outcome))
  }

  function OnLine(parse: Parser, s: State, line: string): State {
    if line == "" then s
    else match parse(line)
      case None => s
      case Some(r) => if r.requestId in s.pending then Conclude(s, r.requestId, r.outcome) else s
  }

  function OnLines(parse: Parser, s: State, lines: seq<string>): State
    decreases |lines|
  {
    if lines == [] then s else OnLines(parse, OnLine(parse, s, lines[0]), lines[1..])
  }

  function OnData(parse: Parser, s: State, chunk: string): State {
    var text := s.socketBuffer + chunk;
    OnLines(parse, s.(socketBuffer := Rest(text)), Lines(text))
  }

  /** Reject everything that is pending. */
  function RejectAll(s: State): State {
    s.(pending := {}, timers := s.timers - s.pending,
       promises := map id | id in s.promises ::
         if id in s.pending && s.promises[id].Unsettled? then Settled(SocketLost) else s.promises[id])
  }

  function Do(parse: Parser, s: State, ev: Event): State {
    match ev
    case Register(id) =>
      if id in s.promises then s
      else s.(pending := s.pending + {id}, timers := s.timers + {id}, promises := s.promises[id := Unsettled])
    case Data(chunk) => OnData(parse, s, chunk)
    case TimerFires(id) => if id in s.timers then Conclude(s, id, TimedOut) else s
    case WriteError(id) => Conclude(s, id, WriteFailed)
    case SocketGone => RejectAll(s).(socketBuffer := "")
    case Close => s.(socketBuffer := "")
  }

  function Run(parse: Parser, s: State, evs: seq<Event>): State
    decreases |evs|
  {
    if evs == [] then s else Run(parse, Do(parse, s, evs[0]), evs[1..])
  }

  // ------------------------------------------------------------------ settlement

  /** Waiting, unsettled and timed are the same thing. */
  ghost predicate Consistent(s: State) {
    && (forall id :: id in s.pending <==> id in s.promises && s.promises[id].Unsettled?)
    && s.timers == s.pending
    && '\n' !in s.socketBuffer
  }

  /** Settled requests keep their outcome, and requests that have left `pending` stay out. */
  ghost predicate Later(s: State, t: State) {
    && (forall id :: id in s.promises ==> id in t.promises)
    && (forall id :: id in s.promises && s.promises[id].Settled? ==> t.promises[id] == s.promises[id])
    && (forall id :: id in s.promises && id !in s.pending ==> id !in t.pending)
  }

  lemma ConcludeKeeps(s: State, id: string, outcome: Outcome)
    requires Consistent(s)
    ensures Consistent(Conclude(s, id, outcome)) && Later(s, Conclude(s, id, outcome))
  {}

  lemma LaterTrans(s: State, t: State, u: State)
    requires Later(s, t) && Later(t, u)
    ensures Later(s, u)
  {}

  lemma {:induction false} LinesKeep(parse: Parser, s: State, lines: seq<string>)
    requires Consistent(s)
    ensures var t := OnLines(parse, s, lines);
      Consistent(t) && Later(s, t) && t.socketBuffer == s.socketBuffer
    decreases |lines|
  {
    if lines == [] {
    } else {
      var t := OnLine(parse, s, lines[0]);
      if lines[0] != "" && parse(lines[0]).Some? {
        ConcludeKeeps(s, parse(lines[0]).value.requestId, parse(lines[0]).value.outcome);
      }
      LinesKeep(parse, t, lines[1..]);
      LaterTrans(s, t, OnLines(parse, t, lines[1..]));
    }
  }

  lemma DoKeeps(parse: Parser, s: State, ev: Event)
    requires Consistent(s)
    ensures Consistent(Do(parse, s, ev)) && Later(s, Do(parse, s, ev))
  {
    match ev
    case Data(chunk) =>
      LinesAndRest(s.socketBuffer + chunk);
      LinesKeep(parse, s.(socketBuffer := Rest(s.socketBuffer + chunk)), Lines(s.socketBuffer + chunk));
    case TimerFires(id) => ConcludeKeeps(s, id, TimedOut);
    case WriteError(id) => ConcludeKeeps(s, id, WriteFailed);
    case _ =>
  }

  lemma {:induction false} RunKeeps(parse: Parser, s: State, evs: seq<Event>)
    requires Consistent(s)
    ensures Consistent(Run(parse, s, evs)) && Later(s, Run(parse, s, evs))
    decreases |evs|
  {
    if evs == [] {
    } else {
      DoKeeps(parse, s, evs[0]);
      RunKeeps(parse, Do(parse, s, evs[0]), evs[1..]);
      LaterTrans(s, Do(parse, s, evs[0]), Run(parse, Do(parse, s, evs[0]), evs[1..]));
    }
  }

  /**
   * Under every interleaving of responses, timeouts, write errors, socket losses and
   * closes: a request is pending exactly while its promise is unsettled and exactly while
   * its timer is armed; and from any point on, a settled request keeps its outcome and a
   * request that has left `pending` never comes back.
   */
  lemma {:induction false} SettlesOnce(parse: Parser, before: seq<Event>, after: seq<Event>)
    ensures var s := Run(parse, Init(), before);
      Consistent(s) && Later(s, Run(parse, s, after))
  {
    RunKeeps(parse, Init(), before);
    RunKeeps(parse, Run(parse, Init(), before), after);
  }

  // ------------------------------------------------------------------ the outcome

  /** What the first response line for `id` says. */
  function LineVerdict(parse: Parser, lines: seq<string>, id: string): Option<Outcome>
    decreases |lines|
  {
    if lines == [] then None
    else
      var r := if lines[0] == "" then None else parse(lines[0]);
      if r.Some? && r.value.requestId == id then Some(r.value.outcome) else LineVerdict(parse, lines[1..], id)
  }

  /** What an event decides about request `id`, given the text buffered before it. */
  function Verdict(parse: Parser, buffer: string, ev: Event, id: string): Option<Outcome> {
    match ev
    case Data(chunk) => LineVerdict(parse, Lines(buffer + chunk), id)
    case TimerFires(i) => if i == id then Some(TimedOut) else None
    case WriteError(i) => if i == id then Some(WriteFailed) else None
    case SocketGone => Some(SocketLost)
    case _ => None
  }

  function Buffered(buffer: string, ev: Event): string {
    if ev.Data? then Rest(buffer + ev.chunk) else if ev.SocketGone? || ev.Close? then "" else buffer
  }

  /** The decision of the first event that makes one. */
  function FirstVerdict(parse: Parser, buffer: string, evs: seq<Event>, id: string): Option<Outcome>
    decreases |evs|
  {
    if evs == [] then None
    else
      var v := Verdict(parse, buffer, evs[0], id);
      if v.Some? then v else FirstVerdict(parse, Buffered(buffer, evs[0]), evs[1..], id)
  }

  /** A waiting request after a verdict, or after none. */
  function Decided(v: Option<Outcome>): Promise {
    match v case Some(outcome) => Settled(outcome) case None => Unsettled
  }

  lemma {:induction false} LinesDecide(parse: Parser, s: State, lines: seq<string>, id: string)
    requires Consistent(s) && id in s.pending
    ensures var t := OnLines(parse, s, lines);
      id in t.promises && t.promises[id] == Decided(LineVerdict(parse, lines, id))
    decreases |lines|
  {
    if lines == [] {
    } else {
      var t := OnLine(parse, s, lines[0]);
      assert t == OnLines(parse, s, [lines[0]]) by { assert [lines[0]][1..] == []; }
      LinesKeep(parse, s, [lines[0]]);
      LinesKeep(parse, t, lines[1..]);
      if id in t.pending {
        LinesDecide(parse, t, lines[1..], id);
      }
    }
  }

  lemma EventDecides(parse: Parser, s: State, ev: Event, id: string)
    requires Consistent(s) && id in s.pending
    ensures var t := Do(parse, s, ev);
      && t.socketBuffer == Buffered(s.socketBuffer, ev)
      && id in t.promises && t.promises[id] == Decided(Verdict(parse, s.socketBuffer, ev, id))
  {
    if ev.Data? {
      var text := s.socketBuffer + ev.chunk;
      LinesAndRest(text);
      LinesKeep(parse, s.(socketBuffer := Rest(text)), Lines(text));
      LinesDecide(parse, s.(socketBuffer := Rest(text)), Lines(text), id);
    }
  }

  lemma {:induction false} RunDecides(parse: Parser, s: State, evs: seq<Event>, id: string)
    requires Consistent(s) && id in s.pending
    ensures var t := Run(parse, s, evs);
      id in t.promises && t.promises[id] == Decided(FirstVerdict(parse, s.socketBuffer, evs, id))
    decreases |evs|
  {
    if evs == [] {
    } else {
      var t := Do(parse, s, evs[0]);
      DoKeeps(parse, s, evs[0]);
      EventDecides(parse, s, evs[0], id);
      if id in t.pending {
        RunDecides(parse, t, evs[1..], id);
      } else {
        RunKeeps(parse, t, evs[1..]);
      }
    }
  }

  /** Events after some events. */
  lemma {:induction false} RunAppend(parse: Parser, s: State, a: seq<Event>, b: seq<Event>)
    ensures Run(parse, s, a + b) == Run(parse, Run(parse, s, a), b)
    decreases |a|
  {
    if a == [] {
      assert a + b == b;
    } else {
      assert (a + b)[1..] == a[1..] + b;
      RunAppend(parse, Do(parse, s, a[0]), a[1..], b);
    }
  }

  /**
   * The outcome of a request, whatever else goes on: a request registered under a fresh id
   * ends with what the first later event that concerns it says, be that a response line
   * completed by any chunk, its timeout, its write error or the loss of the socket; without
   * such an event it is still waiting.
   */
  lemma {:induction false} FirstEventDecides(parse: Parser, before: seq<Event>, after: seq<Event>, id: string)
    requires id !in Run(parse, Init(), before).promises
    ensures var s, t := Run(parse, Init(), before), Run(parse, Init(), before + [Register(id)] + after);
      id in t.promises && t.promises[id] == Decided(FirstVerdict(parse, s.socketBuffer, after, id))
  {
    var s := Run(parse, Init(), before);
    RunKeeps(parse, Init(), before);
    RunAppend(parse, Init(), before, [Register(id)]);
    assert [Register(id)][1..] == [];
    var s' := Do(parse, s, Register(id));
    DoKeeps(parse, s, Register(id));
    RunAppend(parse, Init(), before + [Register(id)], after);
    RunDecides(parse, s', after, id);
  }

  /** An id is fresh as long as nobody has registered it. */
  lemma {:induction false} FreshUntilRegistered(parse: Parser, s: State, evs: seq<Event>, id: string)
    ensures id in Run(parse, s, evs).promises <==> id in s.promises || Register(id) in evs
    decreases |evs|
  {
    if evs == [] {
    } else {
      assert evs == [evs[0]] + evs[1..];
      PromisesGrow(parse, s, evs[0]);
      FreshUntilRegistered(parse, Do(parse, s, evs[0]), evs[1..], id);
    }
  }

  lemma {:induction false} PromisesGrow(parse: Parser, s: State, ev: Event)
    ensures Do(parse, s, ev).promises.Keys == s.promises.Keys + if ev.Register? then {ev.id} else {}
  {
    if ev.Data? {
      LinesKeepKeys(parse, s.(socketBuffer := Rest(s.socketBuffer + ev.chunk)), Lines(s.socketBuffer + ev.chunk));
    }
  }

  lemma {:induction false} LinesKeepKeys(parse: Parser, s: State, lines: seq<string>)
    ensures OnLines(parse, s, lines).promises.Keys == s.promises.Keys
    decreases |lines|
  {
    if lines == [] {
    } else {
      LinesKeepKeys(parse, OnLine(parse, s, lines[0]), lines[1..]);
    }
  }

  // ------------------------------------------------------------------ chunking

  lemma {:induction false} OnLinesAppend(parse: Parser, s: State, a: seq<string>, b: seq<string>)
    ensures OnLines(parse, s, a + b) == OnLines(parse, OnLines(parse, s, a), b)
    decreases |a|
  {
    if a == [] {
      assert a + b == b;
    } else {
      assert (a + b)[1..] == a[1..] + b;
      OnLinesAppend(parse, OnLine(parse, s, a[0]), a[1..], b);
    }
  }

  /** Handling lines does not look at the buffer. */
  lemma {:induction false} BufferIsIndependent(parse: Parser, s: State, lines: seq<string>, buffer: string)
    ensures OnLines(parse, s.(socketBuffer := buffer), lines) == OnLines(parse, s, lines).(socketBuffer := buffer)
    decreases |lines|
  {
    if lines == [] {
    } else {
      BufferIsIndependent(parse, OnLine(parse, s, lines[0]), lines[1..], buffer);
    }
  }

  /** Two chunks have the effect of one, on the whole state of the client. */
  lemma TwoChunks(parse: Parser, s: State, a: string, b: string)
    ensures OnData(parse, OnData(parse, s, a), b) == OnData(parse, s, a + b)
  {
    var text := s.socketBuffer + a;
    var s1 := OnLines(parse, s, Lines(text));
    assert s.socketBuffer + (a + b) == text + b;
    Resume(text, b);
    BufferIsIndependent(parse, s, Lines(text), Rest(text));
    var more := Lines(Rest(text) + b);
    BufferIsIndependent(parse, s1, more, Rest(Rest(text) + b));
    BufferIsIndependent(parse, s, Lines(text + b), Rest(text + b));
    OnLinesAppend(parse, s, Lines(text), more);
  }

  function Chunks(chunks: seq<string>): seq<Event> {
    seq(|chunks|, i requires 0 <= i < |chunks| => Data(chunks[i]))
  }

  /** However a response text is chunked, the client ends up in the same state. */
  lemma {:induction false} ChunkingIsInvisible(parse: Parser, s: State, chunks: seq<string>)
    requires chunks != []
    ensures Run(parse, s, Chunks(chunks)) == Do(parse, s, Data(Concat(chunks)))
    decreases |chunks|
  {
    var rest := chunks[1..];
    assert Chunks(chunks)[1..] == Chunks(rest);
    if rest == [] {
      assert chunks[0] + "" == chunks[0];
    } else {
      ChunkingIsInvisible(parse, Do(parse, s, Data(chunks[0])), rest);
      TwoChunks(parse, s, chunks[0], Concat(rest));
    }
  }

  /** The state once the complete lines in the buffer have been handled. */
  function WorkOff(parse: Parser, s: State): State {
    OnLines(parse, s.(socketBuffer := Rest(s.socketBuffer)), Lines(s.socketBuffer))
  }

  /** Handling the first line early leaves the same work. */
  lemma NextLine(parse: Parser, s: State)
    requires NewlineAt(s.socketBuffer) < |s.socketBuffer|
    ensures var i := NewlineAt(s.socketBuffer);
      var next := OnLine(parse, s.(socketBuffer := s.socketBuffer[i + 1..]), s.socketBuffer[..i]);
      WorkOff(parse, next) == WorkOff(parse, s)
  {
    var i := NewlineAt(s.socketBuffer);
    var line, rest := s.socketBuffer[..i], s.socketBuffer[i + 1..];
    TakeLine(s.socketBuffer);
    assert ([line] + Lines(rest))[1..] == Lines(rest);
  }

  // ------------------------------------------------------------------ the class

  class Client {
    var pending: set<string>
    var timers: set<string>
    var promises: map<string, Promise>
    var socketBuffer: string

    function Current(): State
      reads this
    {
      State(pending, timers, promises, socketBuffer)
    }

    constructor ()
      ensures Current() == Init()
    {
      pending, timers, promises, socketBuffer := {}, {}, map[], "";
    }

    /** A resolver's `resolve` or `reject`, followed by the removal from `pending`. */
    method SettlePending(id: string, outcome: Outcome)
      modifies this
      ensures Current() == Conclude(old(Current()), id, outcome)
    {
      timers := timers - {id};
      if id in promises && promises[id].Unsettled? {
        promises := promises[id := Settled(outcome)];
      }
      pending := pending - {id};
    }

    /** One complete line: settle the request it answers, if it is still pending. */
    method HandleLine(parse: Parser, line: string)
      modifies this
      ensures Current() == OnLine(parse, old(Current()), line)
    {
      if line != "" {
        var parsed := parse(line);
        if parsed.Some? && parsed.value.requestId in pending {
          SettlePending(parsed.value.requestId, parsed.value.outcome);
        }
      }
    }

    method HandleSocketData(parse: Parser, data: string)
      modifies this
      ensures Current() == OnData(parse, old(Current()), data)
    {
      socketBuffer := socketBuffer + data;
      var newlineIndex := NewlineAt(socketBuffer);
      while newlineIndex < |socketBuffer|
        invariant newlineIndex == NewlineAt(socketBuffer)
        invariant WorkOff(parse, Current()) == OnData(parse, old(Current()), data)
        decreases |socketBuffer|
      {
        NextLine(parse, Current());
        var line := socketBuffer[..newlineIndex];
        socketBuffer := socketBuffer[newlineIndex + 1..];
        HandleLine(parse, line);
        newlineIndex := NewlineAt(socketBuffer);
      }
      TakeLine(socketBuffer);
    }

    method RejectAllPending()
      requires Consistent(Current())
      modifies this
      ensures Current() == RejectAll(old(Current()))
    {
      var remaining := pending;
      while remaining != {}
        invariant pending == remaining <= old(pending) && timers == remaining
        invariant socketBuffer == old(socketBuffer)
        invariant promises == map id | id in old(promises) ::
          if id in old(pending) && id !in remaining then Settled(SocketLost) else old(promises)[id]
        decreases remaining
      {
        var id :| id in remaining;
        SettlePending(id, SocketLost);
        remaining := remaining - {id};
      }
    }
  }
}
