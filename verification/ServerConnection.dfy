/**
 * One connection of the pool server (`handleConnection` in `plugins/lib/pool-server.ts`):
 * a framing buffer, a queue of lines, and an asynchronous drain loop guarded only by a
 * shared promise variable.
 *
 * JavaScript is modelled by its continuations. An `await` on an unresolved promise parks
 * the caller; when the promise resolves, the parked callers become microtasks in the
 * order in which they began to wait. `runToCompletion` says that microtasks are drained
 * before the next socket event, as Node.js does.
 */
module ServerConnection {
  import opened Options
  import opened LineFraming

  const MAX_BUFFER_SIZE: nat := 10 * 1024 * 1024

  predicate JsSpace(c: char) {
    c == ' ' || c == '\t' || c == '\n' || c == '\r' || c == '\U{000B}' || c == '\U{000C}' || c == '\U{00A0}'
    || c == '\U{1680}' || '\U{2000}' <= c <= '\U{200A}' || c == '\U{2028}' || c == '\U{2029}'
    || c == '\U{202F}' || c == '\U{205F}' || c == '\U{3000}' || c == '\U{FEFF}'
  }

  /** `!line.trim()`. */
  predicate Blank(line: string) {
    forall c <- line :: JsSpace(c)
  }

  /** What was offered to the socket for a line: a handler's response, or a parse error. */
  datatype Reply = Handled(response: nat) | ParseError
  datatype Written = Written(line: string, reply: Reply)

  /** A suspended `processQueue` call: the one that started the loop, or one that found it busy. */
  datatype Call = Call(promise: nat, owner: bool)

  /**
   * `loops` maps the promise of each drain loop that is waiting for a handler to the line
   * being handled. `parked` are the calls waiting on unresolved promises, `ready` the
   * microtasks. `received` is the history of accepted characters.
   */
  datatype Conn = Conn(
    buffer: string, pending: seq<string>, processing: Option<nat>,
    loops: map<nat, string>, nextPromise: nat, parked: seq<Call>, ready: seq<Call>,
    destroyed: bool, written: seq<Written>, received: string)

  function Init(): Conn {
    Conn("", [], None, map[], 0, [], [], false, [], "")
  }

  datatype Event =
    | Data(chunk: string)
    | HandlerDone(promise: nat, response: nat)
    | Microtask

  /** Calls waiting on a promise, and the others. */
  function On(calls: seq<Call>, promise: nat, same: bool): seq<Call> {
    if calls == [] then []
    else (if (calls[0].promise == promise) == same then [calls[0]] else []) + On(calls[1..], promise, same)
  }

  /** `await promise`. */
  function Await(c: Conn, call: Call): Conn {
    if call.promise in c.loops then c.(parked := c.parked + [call]) else c.(ready := c.ready + [call])
  }

  /** The drain loop from its test on, up to the next handler or its end. */
  function Drain(accepts: string -> bool, c: Conn, promise: nat): Conn
    decreases |c.pending|
  {
    if c.pending == [] then
      c.(loops := c.loops - {promise}, parked := On(c.parked, promise, false),
         ready := c.ready + On(c.parked, promise, true))
    else
      var line := c.pending[0];
      var c' := c.(pending := c.pending[1..]);
      if Blank(line) then Drain(accepts, c', promise)
      else if !accepts(line) then Drain(accepts, c'.(written := c.written + [Written(line, ParseError)]), promise)
      else c'.(loops := c.loops[promise := line])
  }

  /** The part of `processQueue` after the wait. */
  function StartIfPending(accepts: string -> bool, c: Conn): Conn {
    if c.pending == [] then c
    else
      var id := c.nextPromise;
      var c' := Drain(accepts, c.(nextPromise := id + 1), id);
      Await(c'.(processing := Some(id)), Call(id, true))
  }

  function ProcessQueue(accepts: string -> bool, c: Conn): Conn {
    if c.processing.Some? then Await(c, Call(c.processing.value, false)) else StartIfPending(accepts, c)
  }

  function OnData(accepts: string -> bool, c: Conn, chunk: string): Conn {
    var text := c.buffer + chunk;
    if |text| > MAX_BUFFER_SIZE then c.(buffer := text, destroyed := true)
    else
      ProcessQueue(accepts, c.(buffer := Rest(text), pending := c.pending + Lines(text),
                               received := c.received + chunk))
  }

  function Do(runToCompletion: bool, accepts: string -> bool, c: Conn, ev: Event): Conn {
    match ev
    case Data(chunk) =>
      if c.destroyed || (runToCompletion && c.ready != []) then c else OnData(accepts, c, chunk)
    case HandlerDone(promise, response) =>
      if promise !in c.loops then c
      else Drain(accepts, c.(written := c.written + [Written(c.loops[promise], Handled(response))]), promise)
    case Microtask =>
      if c.ready == [] then c
      else
        var c' := c.(ready := c.ready[1..]);
        if c.ready[0].owner then c'.(processing := None) else StartIfPending(accepts, c')
  }

  function Run(runToCompletion: bool, accepts: string -> bool, c: Conn, evs: seq<Event>): Conn
    decreases |evs|
  {
    if evs == [] then c else Run(runToCompletion, accepts, Do(runToCompletion, accepts, c, evs[0]), evs[1..])
  }

  // ------------------------------------------------------------------ what is answered

  function NonBlank(lines: seq<string>): seq<string> {
    if lines == [] then []
    else (if Blank(lines[0]) then [] else [lines[0]]) + NonBlank(lines[1..])
  }

  function Answered(written: seq<Written>): seq<string> {
    seq(|written|, i requires 0 <= i < |written| => written[i].line)
  }

  /** The line a single active loop is working on. */
  ghost function InHand(c: Conn): seq<string> {
    if c.processing.Some? && c.processing.value in c.loops then [c.loops[c.processing.value]] else []
  }

  /** Accepted lines get their handler's response, the others a parse error. */
  ghost predicate RepliesFit(accepts: string -> bool, written: seq<Written>) {
    forall i :: 0 <= i < |written| ==> (written[i].reply.Handled? <==> accepts(written[i].line))
  }

  /** Answered, in hand, and waiting lines are the lines received, in order. */
  ghost predicate Complete(accepts: string -> bool, c: Conn) {
    && (!c.destroyed ==> c.buffer == Rest(c.received))
    && Answered(c.written) + InHand(c) + NonBlank(c.pending) == NonBlank(Lines(c.received))
    && RepliesFit(accepts, c.written)
    && (forall p :: p in c.loops ==> accepts(c.loops[p]))
  }

  /** All calls are waiters. */
  ghost predicate Waiters(calls: seq<Call>) {
    forall i :: 0 <= i < |calls| ==> !calls[i].owner
  }

  /** Nothing to do; a loop is running; or a loop has ended and its waiters are resuming. */
  ghost predicate Idle(c: Conn) {
    c.loops == map[] && c.pending == [] && c.parked == [] && c.processing.None? && Waiters(c.ready)
  }

  ghost predicate Busy(c: Conn) {
    && c.processing.Some? && c.loops.Keys == {c.processing.value} && c.ready == []
    && c.processing.value < c.nextPromise
    && |c.parked| > 0 && c.parked[0].owner && Waiters(c.parked[1..])
    && forall i :: 0 <= i < |c.parked| ==> c.parked[i].promise == c.processing.value
  }

  ghost predicate Ending(c: Conn) {
    && c.loops == map[] && c.pending == [] && c.parked == [] && c.processing.Some?
    && |c.ready| > 0 && c.ready[0].owner && Waiters(c.ready[1..])
  }

  ghost predicate Serial(c: Conn) {
    Idle(c) || Busy(c) || Ending(c)
  }

  // ------------------------------------------------------------------ the drain loop

  /** The line that loop `promise` has in hand. */
  ghost function Current(c: Conn, promise: nat): seq<string> {
    if promise in c.loops then [c.loops[promise]] else []
  }

  lemma AnsweredSnoc(written: seq<Written>, w: Written)
    ensures Answered(written + [w]) == Answered(written) + [w.line]
  {}

  /** A loop answers the lines it takes, in order. */
  lemma {:induction false} DrainAnswers(accepts: string -> bool, c: Conn, promise: nat)
    ensures var d := Drain(accepts, c, promise);
      Answered(d.written) + Current(d, promise) + NonBlank(d.pending) == Answered(c.written) + NonBlank(c.pending)
    decreases |c.pending|
  {
    if c.pending == [] {
    } else {
      var line := c.pending[0];
      var c' := c.(pending := c.pending[1..]);
      if Blank(line) {
        DrainAnswers(accepts, c', promise);
        assert NonBlank(c.pending) == NonBlank(c'.pending);
      } else {
        assert Answered(c.written) + [line] + NonBlank(c'.pending) == Answered(c.written) + NonBlank(c.pending);
        if !accepts(line) {
          AnsweredSnoc(c.written, Written(line, ParseError));
          DrainAnswers(accepts, c'.(written := c.written + [Written(line, ParseError)]), promise);
        }
      }
    }
  }

  lemma {:induction false} DrainFits(accepts: string -> bool, c: Conn, promise: nat)
    requires RepliesFit(accepts, c.written)
    ensures RepliesFit(accepts, Drain(accepts, c, promise).written)
    decreases |c.pending|
  {
    if c.pending == [] {
    } else {
      var line := c.pending[0];
      var c' := c.(pending := c.pending[1..]);
      if Blank(line) {
        DrainFits(accepts, c', promise);
      } else if !accepts(line) {
        DrainFits(accepts, c'.(written := c.written + [Written(line, ParseError)]), promise);
      }
    }
  }

  /** It stops only with a handler running or with the queue empty, and touches nothing else. */
  lemma {:induction false} DrainStops(accepts: string -> bool, c: Conn, promise: nat)
    ensures var d := Drain(accepts, c, promise);
      && d.buffer == c.buffer && d.received == c.received && d.destroyed == c.destroyed
      && d.processing == c.processing && d.nextPromise == c.nextPromise
      && (promise in d.loops ==>
            d.loops == c.loops[promise := d.loops[promise]] && accepts(d.loops[promise])
            && d.parked == c.parked && d.ready == c.ready)
      && (promise !in d.loops ==>
            d.loops == c.loops - {promise} && d.pending == []
            && d.parked == On(c.parked, promise, false) && d.ready == c.ready + On(c.parked, promise, true))
    decreases |c.pending|
  {
    if c.pending == [] {
    } else {
      var line := c.pending[0];
      var c' := c.(pending := c.pending[1..]);
      if Blank(line) {
        DrainStops(accepts, c', promise);
      } else if !accepts(line) {
        DrainStops(accepts, c'.(written := c.written + [Written(line, ParseError)]), promise);
      }
    }
  }

  lemma {:induction false} DrainSafe(accepts: string -> bool, c: Conn, promise: nat)
    requires forall p :: p in c.loops ==> accepts(c.loops[p])
    ensures var d := Drain(accepts, c, promise);
      && d.buffer == c.buffer && d.received == c.received && d.destroyed == c.destroyed
      && forall p :: p in d.loops ==> accepts(d.loops[p])
  {
    DrainStops(accepts, c, promise);
  }

  lemma {:induction false} AllOn(calls: seq<Call>, promise: nat)
    requires forall i :: 0 <= i < |calls| ==> calls[i].promise == promise
    ensures On(calls, promise, true) == calls && On(calls, promise, false) == []
    decreases |calls|
  {
    if calls == [] {
    } else {
      AllOn(calls[1..], promise);
    }
  }

  ghost predicate Good(accepts: string -> bool, c: Conn) {
    Serial(c) && Complete(accepts, c)
  }

  /** A call that may start a loop: none is running, and no microtask is left if there are lines. */
  ghost predicate MayStart(c: Conn) {
    && c.loops == map[] && c.parked == [] && c.processing.None? && Waiters(c.ready)
    && (c.pending != [] ==> c.ready == [])
  }

  lemma {:induction false} StartedIsSerial(d: Conn, id: nat)
    requires d.parked == [] && d.ready == [] && id < d.nextPromise
    requires if id in d.loops then d.loops.Keys == {id} else d.loops == map[] && d.pending == []
    ensures Serial(Await(d.(processing := Some(id)), Call(id, true)))
  {
    var e := Await(d.(processing := Some(id)), Call(id, true));
    if id in d.loops {
      assert e.parked == [Call(id, true)];
      assert Busy(e);
    } else {
      assert e.ready == [Call(id, true)];
      assert Ending(e);
    }
  }

  /** A loop with no other calls around. */
  lemma {:induction false} DrainAlone(accepts: string -> bool, c: Conn, promise: nat)
    requires c.loops == map[] && c.parked == [] && c.ready == []
    ensures var d := Drain(accepts, c, promise);
      && d.parked == [] && d.ready == [] && d.nextPromise == c.nextPromise
      && if promise in d.loops then d.loops.Keys == {promise} else d.loops == map[] && d.pending == []
  {
    DrainStops(accepts, c, promise);
    assert On(c.parked, promise, true) == On(c.parked, promise, false) == [];
  }

  lemma {:induction false} StartKeepsSerial(accepts: string -> bool, c: Conn)
    requires MayStart(c)
    ensures Serial(StartIfPending(accepts, c))
  {
    if c.pending == [] {
      assert Idle(c);
    } else {
      var id := c.nextPromise;
      var d := Drain(accepts, c.(nextPromise := id + 1), id);
      DrainAlone(accepts, c.(nextPromise := id + 1), id);
      StartedIsSerial(d, id);
      assert StartIfPending(accepts, c) == Await(d.(processing := Some(id)), Call(id, true));
    }
  }

  lemma StartedIsComplete(accepts: string -> bool, d: Conn, id: nat)
    requires Answered(d.written) + Current(d, id) + NonBlank(d.pending) == NonBlank(Lines(d.received))
    requires RepliesFit(accepts, d.written) && (forall p :: p in d.loops ==> accepts(d.loops[p]))
    requires !d.destroyed ==> d.buffer == Rest(d.received)
    ensures Complete(accepts, Await(d.(processing := Some(id)), Call(id, true)))
  {}

  lemma StartKeepsComplete(accepts: string -> bool, c: Conn)
    requires c.loops == map[] && c.processing.None? && Complete(accepts, c)
    ensures Complete(accepts, StartIfPending(accepts, c))
  {
    if c.pending != [] {
      var id := c.nextPromise;
      DrainAnswers(accepts, c.(nextPromise := id + 1), id);
      DrainFits(accepts, c.(nextPromise := id + 1), id);
      DrainSafe(accepts, c.(nextPromise := id + 1), id);
      var d := Drain(accepts, c.(nextPromise := id + 1), id);
      assert InHand(c) == [] && Answered(c.written) + [] == Answered(c.written);
      StartedIsComplete(accepts, d, id);
    }
  }

  lemma {:induction false} NonBlankAppend(a: seq<string>, b: seq<string>)
    ensures NonBlank(a + b) == NonBlank(a) + NonBlank(b)
    decreases |a|
  {
    if a == [] {
      assert a + b == b;
    } else {
      assert (a + b)[1..] == a[1..] + b;
      NonBlankAppend(a[1..], b);
    }
  }

  /** A chunk's lines join the queue. */
  lemma ChunkArrives(accepts: string -> bool, c: Conn, chunk: string)
    requires Complete(accepts, c) && !c.destroyed
    ensures Complete(accepts, c.(buffer := Rest(c.buffer + chunk), pending := c.pending + Lines(c.buffer + chunk),
                                 received := c.received + chunk))
  {
    Resume(c.received, chunk);
    var more := Lines(c.buffer + chunk);
    NonBlankAppend(c.pending, more);
    NonBlankAppend(Lines(c.received), more);
    assert Answered(c.written) + InHand(c) + (NonBlank(c.pending) + NonBlank(more))
      == Answered(c.written) + InHand(c) + NonBlank(c.pending) + NonBlank(more);
  }

  lemma DataKeepsGood(accepts: string -> bool, c: Conn, chunk: string)
    requires Good(accepts, c) && c.ready == [] && !c.destroyed
    ensures Good(accepts, OnData(accepts, c, chunk))
  {
    var text := c.buffer + chunk;
    if |text| <= MAX_BUFFER_SIZE {
      var c' := c.(buffer := Rest(text), pending := c.pending + Lines(text), received := c.received + chunk);
      ChunkArrives(accepts, c, chunk);
      if c.processing.Some? {
        assert Busy(c);
        assert Busy(OnData(accepts, c, chunk));
      } else {
        StartKeepsSerial(accepts, c');
        StartKeepsComplete(accepts, c');
      }
    }
  }

  lemma HandlerKeepsGood(accepts: string -> bool, c: Conn, promise: nat, response: nat)
    requires Good(accepts, c) && promise in c.loops
    ensures Good(accepts, Do(true, accepts, c, HandlerDone(promise, response)))
  {
    assert Busy(c) && c.processing.value == promise;
    var w := Written(c.loops[promise], Handled(response));
    var c' := c.(written := c.written + [w]);
    AnsweredSnoc(c.written, w);
    DrainAnswers(accepts, c', promise);
    DrainFits(accepts, c', promise);
    DrainStops(accepts, c', promise);
    AllOn(c.parked, promise);
    var d := Drain(accepts, c', promise);
    assert InHand(c) == [w.line];
    if promise in d.loops {
      assert Busy(d);
    } else {
      assert Ending(d);
    }
  }

  lemma DoKeepsGood(accepts: string -> bool, c: Conn, ev: Event)
    requires Good(accepts, c)
    ensures Good(accepts, Do(true, accepts, c, ev))
  {
    match ev
    case Data(chunk) => if !c.destroyed && c.ready == [] { DataKeepsGood(accepts, c, chunk); }
    case HandlerDone(promise, response) =>
      if promise in c.loops { HandlerKeepsGood(accepts, c, promise, response); }
    case Microtask =>
      if c.ready != [] && !c.ready[0].owner {
        assert c.pending == [];
      }
  }

  lemma {:induction false} RunKeepsGood(accepts: string -> bool, c: Conn, evs: seq<Event>)
    requires Good(accepts, c)
    ensures Good(accepts, Run(true, accepts, c, evs))
    decreases |evs|
  {
    if evs == [] {
    } else {
      DoKeepsGood(accepts, c, evs[0]);
      RunKeepsGood(accepts, Do(true, accepts, c, evs[0]), evs[1..]);
    }
  }

  // ------------------------------------------------------------------ which response

  /** The lines that got a handler's response, each with the response. */
  function Responses(written: seq<Written>): seq<(string, nat)> {
    if written == [] then []
    else
      var front, last := written[..|written| - 1], written[|written| - 1];
      if last.reply.Handled? then Responses(front) + [(last.line, last.reply.response)] else Responses(front)
  }

  /** The completion an event is: the line its handler was started on, and what it returned. */
  function Completion(c: Conn, ev: Event): seq<(string, nat)> {
    if ev.HandlerDone? && ev.promise in c.loops then [(c.loops[ev.promise], ev.response)] else []
  }

  /** The handlers that completed in a run: the line each was started on, and what it returned. */
  function Completions(runToCompletion: bool, accepts: string -> bool, c: Conn, evs: seq<Event>): seq<(string, nat)>
    decreases |evs|
  {
    if evs == [] then []
    else
      Completion(c, evs[0])
      + Completions(runToCompletion, accepts, Do(runToCompletion, accepts, c, evs[0]), evs[1..])
  }

  lemma {:induction false} ResponsesSnoc(written: seq<Written>, w: Written)
    ensures Responses(written + [w]) ==
      Responses(written) + if w.reply.Handled? then [(w.line, w.reply.response)] else []
  {
    assert (written + [w])[..|written + [w]| - 1] == written;
  }

  lemma {:induction false} DrainResponds(accepts: string -> bool, c: Conn, promise: nat)
    ensures Responses(Drain(accepts, c, promise).written) == Responses(c.written)
    decreases |c.pending|
  {
    if c.pending == [] {
    } else {
      var line := c.pending[0];
      var c' := c.(pending := c.pending[1..]);
      if Blank(line) {
        DrainResponds(accepts, c', promise);
      } else if !accepts(line) {
        ResponsesSnoc(c.written, Written(line, ParseError));
        DrainResponds(accepts, c'.(written := c.written + [Written(line, ParseError)]), promise);
      }
    }
  }

  lemma {:induction false} StartResponds(accepts: string -> bool, c: Conn)
    ensures Responses(StartIfPending(accepts, c).written) == Responses(c.written)
  {
    DrainResponds(accepts, c.(nextPromise := c.nextPromise + 1), c.nextPromise);
  }

  lemma {:induction false} DoResponds(runToCompletion: bool, accepts: string -> bool, c: Conn, ev: Event)
    ensures Responses(Do(runToCompletion, accepts, c, ev).written) == Responses(c.written) + Completion(c, ev)
  {
    match ev
    case Data(chunk) =>
      var text := c.buffer + chunk;
      StartResponds(accepts, c.(buffer := Rest(text), pending := c.pending + Lines(text),
                                received := c.received + chunk));
    case HandlerDone(promise, response) =>
      if promise in c.loops {
        var w := Written(c.loops[promise], Handled(response));
        ResponsesSnoc(c.written, w);
        DrainResponds(accepts, c.(written := c.written + [w]), promise);
      }
    case Microtask =>
      if c.ready != [] {
        StartResponds(accepts, c.(ready := c.ready[1..]));
      }
  }

  lemma {:induction false} Regroup(a: seq<(string, nat)>, b: seq<(string, nat)>, c: seq<(string, nat)>)
    ensures a + b + c == a + (b + c)
  {}

  /** Each line that is handled gets the response of its own handler, in the order of completion. */
  lemma {:induction false} ResponsesAreTheHandlers(runToCompletion: bool, accepts: string -> bool,
                                                   c: Conn, evs: seq<Event>)
    ensures Responses(Run(runToCompletion, accepts, c, evs).written)
      == Responses(c.written) + Completions(runToCompletion, accepts, c, evs)
    decreases |evs|
  {
    if evs == [] {
    } else {
      var d := Do(runToCompletion, accepts, c, evs[0]);
      DoResponds(runToCompletion, accepts, c, evs[0]);
      ResponsesAreTheHandlers(runToCompletion, accepts, d, evs[1..]);
      Regroup(Responses(c.written), Completion(c, evs[0]), Completions(runToCompletion, accepts, d, evs[1..]));
    }
  }

  /**
   * For every sequence of chunks, handler completions and microtasks: at most one drain
   * loop is active; the answers written are one per non-blank line received, in order,
   * each fitting its line; the handlers' responses are written in the order in which the
   * handlers completed, each with the line it was started on; and whenever no handler is
   * running, no line is left over.
   */
  lemma {:induction false} AnswersInOrder(accepts: string -> bool, evs: seq<Event>)
    ensures var c := Run(true, accepts, Init(), evs);
      && |c.loops| <= 1
      && Answered(c.written) <= NonBlank(Lines(c.received))
      && RepliesFit(accepts, c.written)
      && Responses(c.written) == Completions(true, accepts, Init(), evs)
      && (c.loops == map[] ==> c.pending == [] && Answered(c.written) == NonBlank(Lines(c.received)))
      && (!c.destroyed ==> c.buffer == Rest(c.received))
  {
    RunKeepsGood(accepts, Init(), evs);
    ResponsesAreTheHandlers(true, accepts, Init(), evs);
    var c := Run(true, accepts, Init(), evs);
    if Busy(c) {
      assert |c.loops.Keys| == 1;
    } else {
      assert InHand(c) == [] && Answered(c.written) + [] + [] == Answered(c.written);
    }
  }

  // ------------------------------------------------------------------ what is received

  lemma {:induction false} RunLast(accepts: string -> bool, c: Conn, evs: seq<Event>)
    requires evs != []
    ensures Run(true, accepts, c, evs) == Do(true, accepts, Run(true, accepts, c, evs[..|evs| - 1]), evs[|evs| - 1])
    decreases |evs|
  {
    var front := evs[..|evs| - 1];
    if front != [] {
      RunLast(accepts, Do(true, accepts, c, evs[0]), evs[1..]);
      assert evs[1..][..|evs[1..]| - 1] == front[1..];
    }
  }

  /** A chunk that arrives: the socket is not destroyed, and no microtask is left. */
  predicate Arrives(c: Conn, ev: Event) {
    ev.Data? && !c.destroyed && c.ready == []
  }

  /** The chunk and the unfinished line before it exceed 10 MB. */
  predicate Overflows(received: string, ev: Event) {
    ev.Data? && |Rest(received)| + |ev.chunk| > 10485760
  }

  /** All text that arrived before the chunk that was too much. */
  function Text(accepts: string -> bool, evs: seq<Event>): string
    decreases |evs|
  {
    if evs == [] then ""
    else
      var front, last := evs[..|evs| - 1], evs[|evs| - 1];
      if Arrives(Run(true, accepts, Init(), front), last) && !Overflows(Text(accepts, front), last)
      then Text(accepts, front) + last.chunk else Text(accepts, front)
  }

  ghost predicate OverflowsAt(accepts: string -> bool, evs: seq<Event>, k: nat) {
    && k < |evs| && Arrives(Run(true, accepts, Init(), evs[..k]), evs[k])
    && Overflows(Text(accepts, evs[..k]), evs[k])
  }

  lemma {:induction false} DrainReceives(accepts: string -> bool, c: Conn)
    ensures StartIfPending(accepts, c).received == c.received && StartIfPending(accepts, c).destroyed == c.destroyed
  {
    if c.pending != [] {
      DrainStops(accepts, c.(nextPromise := c.nextPromise + 1), c.nextPromise);
    }
  }

  lemma {:induction false} DoReceives(accepts: string -> bool, c: Conn, ev: Event)
    requires !c.destroyed ==> c.buffer == Rest(c.received)
    ensures var d := Do(true, accepts, c, ev);
      && d.received == (if Arrives(c, ev) && !Overflows(c.received, ev) then c.received + ev.chunk else c.received)
      && (d.destroyed <==> c.destroyed || (Arrives(c, ev) && Overflows(c.received, ev)))
  {
    match ev
    case Data(chunk) =>
      var text := c.buffer + chunk;
      DrainReceives(accepts, c.(buffer := Rest(text), pending := c.pending + Lines(text),
                                received := c.received + chunk));
    case HandlerDone(promise, response) =>
      if promise in c.loops {
        DrainStops(accepts, c.(written := c.written + [Written(c.loops[promise], Handled(response))]), promise);
      }
    case Microtask =>
      if c.ready != [] {
        DrainReceives(accepts, c.(ready := c.ready[1..]));
      }
  }

  ghost predicate EverOverflows(accepts: string -> bool, evs: seq<Event>) {
    exists k: nat :: OverflowsAt(accepts, evs, k)
  }

  lemma {:induction false} OverflowLast(accepts: string -> bool, evs: seq<Event>)
    requires evs != []
    ensures var front, last := evs[..|evs| - 1], evs[|evs| - 1];
      EverOverflows(accepts, evs) <==>
        || EverOverflows(accepts, front)
        || (Arrives(Run(true, accepts, Init(), front), last) && Overflows(Text(accepts, front), last))
  {
    var front := evs[..|evs| - 1];
    forall k: nat | k < |front| ensures OverflowsAt(accepts, evs, k) <==> OverflowsAt(accepts, front, k) {
      assert evs[..k] == front[..k];
    }
    if EverOverflows(accepts, front) {
      var k: nat :| OverflowsAt(accepts, front, k);
      assert OverflowsAt(accepts, evs, k);
    } else if Arrives(Run(true, accepts, Init(), front), evs[|front|])
           && Overflows(Text(accepts, front), evs[|front|]) {
      assert OverflowsAt(accepts, evs, |front|);
    }
  }

  lemma {:induction false} BufferIsRest(accepts: string -> bool, evs: seq<Event>)
    ensures var c := Run(true, accepts, Init(), evs); !c.destroyed ==> c.buffer == Rest(c.received)
  {
    AnswersInOrder(accepts, evs);
  }

  /**
   * In every run the lines answered are those of all text that arrived, up to the first chunk
   * that brings an unfinished line over 10 MB; that chunk, and nothing else, destroys the socket.
   */
  lemma {:induction false} ReceivesUntilOverflow(accepts: string -> bool, evs: seq<Event>)
    ensures var c := Run(true, accepts, Init(), evs);
      c.received == Text(accepts, evs) && (c.destroyed <==> EverOverflows(accepts, evs))
    decreases |evs|
  {
    if evs == [] {
    } else {
      var front, last := evs[..|evs| - 1], evs[|evs| - 1];
      ReceivesUntilOverflow(accepts, front);
      BufferIsRest(accepts, front);
      RunLast(accepts, Init(), evs);
      DoReceives(accepts, Run(true, accepts, Init(), front), last);
      OverflowLast(accepts, evs);
    }
  }

  // ------------------------------------------------------------------ without run-to-completion

  /** Accepted, not blank, and short enough to be sent as one line. */
  ghost predicate Usable(accepts: string -> bool, line: string) {
    accepts(line) && !Blank(line) && '\n' !in line && |line| < MAX_BUFFER_SIZE
  }

  lemma OneLine(line: string)
    requires '\n' !in line
    ensures Lines("" + (line + "\n")) == [line] && Rest("" + (line + "\n")) == ""
  {
    assert Join([line]) == line + "\n" + Join([]) by { assert [line][1..] == []; }
    assert Join([line]) + "" == "" + (line + "\n");
    LinesOfJoin([line], "");
  }

  /** A microtask that finds lines pending and starts a loop on the first of them. */
  lemma StartTakes(accepts: string -> bool, c: Conn, line: string)
    requires c.pending != [] && c.pending[0] == line && Usable(accepts, line)
    ensures StartIfPending(accepts, c) ==
      c.(pending := c.pending[1..], nextPromise := c.nextPromise + 1, processing := Some(c.nextPromise),
         loops := c.loops[c.nextPromise := line], parked := c.parked + [Call(c.nextPromise, true)])
  {}

  /** A line is handled; two more arrive before anyone resumes; then all resume. */
  function Overlap(line: string): seq<Event> {
    var data := Data(line + "\n");
    [data, HandlerDone(0, 0)] + [data, data] + [Microtask, Microtask, Microtask]
  }

  /** The line arrives on a fresh connection, and its handler starts. */
  lemma {:induction false} FirstArrives(accepts: string -> bool, line: string)
    requires Usable(accepts, line)
    ensures var c := Do(false, accepts, Init(), Data(line + "\n"));
      && c.buffer == "" && !c.destroyed && c.pending == [] && c.processing == Some(0)
      && c.loops == map[0 := line] && c.parked == [Call(0, true)] && c.ready == [] && c.nextPromise == 1
  {
    OneLine(line);
    assert [] + [line] == [line];
    StartTakes(accepts, Init().(pending := [line], received := "" + (line + "\n")), line);
  }

  /** The handler finishes, and the loop's owner becomes a microtask. */
  lemma {:induction false} FirstEnds(accepts: string -> bool, c: Conn)
    requires c.pending == [] && 0 in c.loops && c.loops.Keys == {0} && c.parked == [Call(0, true)] && c.ready == []
    ensures var d := Do(false, accepts, c, HandlerDone(0, 0));
      && d.buffer == c.buffer && d.destroyed == c.destroyed && d.processing == c.processing
      && d.loops == map[] && d.pending == [] && d.ready == [Call(0, true)]
  {
    AllOn(c.parked, 0);
  }

  /** A line that finds the finished loop's promise still set joins the queue and waits for it. */
  lemma {:induction false} LateArrives(accepts: string -> bool, c: Conn, line: string)
    requires Usable(accepts, line) && c.buffer == "" && !c.destroyed && c.processing == Some(0) && c.loops == map[]
    ensures var d := Do(false, accepts, c, Data(line + "\n"));
      && d.buffer == "" && !d.destroyed && d.processing == Some(0) && d.loops == map[]
      && d.pending == c.pending + [line] && d.ready == c.ready + [Call(0, false)]
  {
    OneLine(line);
  }

  lemma {:induction false} RunAppend(accepts: string -> bool, c: Conn, a: seq<Event>, b: seq<Event>)
    ensures Run(false, accepts, c, a + b) == Run(false, accepts, Run(false, accepts, c, a), b)
    decreases |a|
  {
    if a == [] {
      assert a + b == b;
    } else {
      assert (a + b)[1..] == a[1..] + b;
      RunAppend(accepts, Do(false, accepts, c, a[0]), a[1..], b);
    }
  }

  lemma {:induction false} RunPair(accepts: string -> bool, c: Conn, e: Event, f: Event)
    ensures Run(false, accepts, c, [e, f]) == Do(false, accepts, Do(false, accepts, c, e), f)
  {
    var evs := [e, f];
    assert evs[1..] == [f] && evs[1..][1..] == [];
    assert Run(false, accepts, c, evs) == Run(false, accepts, Do(false, accepts, c, e), evs[1..]);
  }

  /** The connection just after the loop on the first line has ended. */
  ghost predicate JustEnded(c: Conn) {
    && c.buffer == "" && !c.destroyed && c.processing == Some(0) && c.loops == map[]
    && c.pending == [] && c.ready == [Call(0, true)]
  }

  lemma {:induction false} HandleOne(accepts: string -> bool, line: string)
    requires Usable(accepts, line)
    ensures JustEnded(Run(false, accepts, Init(), [Data(line + "\n"), HandlerDone(0, 0)]))
  {
    var c := Do(false, accepts, Init(), Data(line + "\n"));
    FirstArrives(accepts, line);
    FirstEnds(accepts, c);
    RunPair(accepts, Init(), Data(line + "\n"), HandlerDone(0, 0));
  }

  lemma {:induction false} QueueTwo(accepts: string -> bool, c: Conn, line: string)
    requires Usable(accepts, line) && JustEnded(c)
    ensures var d := Run(false, accepts, c, [Data(line + "\n"), Data(line + "\n")]);
      && d.loops == map[] && d.pending == [line, line]
      && d.ready == [Call(0, true), Call(0, false), Call(0, false)]
  {
    var data := Data(line + "\n");
    LateArrives(accepts, c, line);
    LateArrives(accepts, Do(false, accepts, c, data), line);
    RunPair(accepts, c, data, data);
  }

  /** Two calls that resume late each find a line, and neither looks at the promise again. */
  lemma {:induction false} TwoLoops(accepts: string -> bool, line: string)
    requires Usable(accepts, line)
    ensures |Run(false, accepts, Init(), Overlap(line)).loops| == 2
  {
    var data := Data(line + "\n");
    var first, more, resume := [data, HandlerDone(0, 0)], [data, data], [Microtask, Microtask, Microtask];
    HandleOne(accepts, line);
    var c := Run(false, accepts, Init(), first);
    QueueTwo(accepts, c, line);
    RunAppend(accepts, Init(), first, more);
    RunAppend(accepts, Init(), first + more, resume);
    ResumeTwice(accepts, Run(false, accepts, c, more), line);
  }

  /** A call that resumes and finds a line starts a loop on it. */
  lemma {:induction false} ResumeOne(accepts: string -> bool, c: Conn, line: string)
    requires Usable(accepts, line) && c.ready != [] && !c.ready[0].owner && c.pending != [] && c.pending[0] == line
    ensures var d := Do(false, accepts, c, Microtask);
      && d.ready == c.ready[1..] && d.pending == c.pending[1..] && d.nextPromise == c.nextPromise + 1
      && d.loops == c.loops[c.nextPromise := line]
  {
    StartTakes(accepts, c.(ready := c.ready[1..]), line);
  }

  lemma {:induction false} ResumeTwice(accepts: string -> bool, c: Conn, line: string)
    requires Usable(accepts, line) && c.loops == map[] && c.pending == [line, line]
    requires c.ready == [Call(0, true), Call(0, false), Call(0, false)]
    ensures |Run(false, accepts, c, [Microtask, Microtask, Microtask]).loops| == 2
  {
    var c1 := Do(false, accepts, c, Microtask);
    assert c1 == c.(ready := c.ready[1..], processing := None);
    assert [Microtask, Microtask, Microtask][1..] == [Microtask, Microtask];
    ResumeBoth(accepts, c1, line);
  }

  lemma {:induction false} ResumeBoth(accepts: string -> bool, c: Conn, line: string)
    requires Usable(accepts, line) && c.loops == map[] && c.pending == [line, line]
    requires c.ready == [Call(0, false), Call(0, false)]
    ensures |Run(false, accepts, c, [Microtask, Microtask]).loops| == 2
  {
    ResumeOne(accepts, c, line);
    ResumeOne(accepts, Do(false, accepts, c, Microtask), line);
    RunPair(accepts, c, Microtask, Microtask);
    var loops := Run(false, accepts, c, [Microtask, Microtask]).loops;
    assert loops.Keys == {c.nextPromise, c.nextPromise + 1};
    assert |loops| == |loops.Keys| == 2;
  }
}
