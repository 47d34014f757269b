/**
 The response writer behind RequestTimeout, shared by the handler and the timeout path. Each method holds the
 lock, so an execution is some interleaving of whole calls with the end of the request's context.
 */
module TimeoutWriter {
  type Headers = map<string, seq<string>>

  datatype StatusLine = StatusLine(status: int, headers: Headers)

  /** What has been handed to the underlying writer: the status lines with the headers they carry, and the body. */
  datatype Output = Output(lines: seq<StatusLine>, body: string)

  datatype Context = Live | DeadlineExceeded | Canceled

  const NOTHING := Output([], "")
  const ENVELOPE_BODY := "{\"data\":null,\"error\":{\"code\":\"REQUEST_TIMEOUT\",\"message\":\"Request timed out\"}}\n"

  datatype State = State(context: Context, header: Headers, timedOut: bool, wroteHeader: bool, base: Headers, out: Output)

  datatype Step =
    | SetHeader(key: string, values: seq<string>)
    | DeleteHeader(key: string)
    | WriteHeader(status: int)
    | Write(bytes: string)
    | Deadline
    | Cancel
    | Timeout

  predicate Expired(s: State) {
    s.timedOut || s.context == DeadlineExceeded
  }

  function HeaderWritten(s: State, status: int): State {
    s.(base := s.base + s.header, wroteHeader := true,
       out := Output(s.out.lines + [StatusLine(status, s.base + s.header)], s.out.body))
  }

  function Appended(s: State, bytes: string): State {
    s.(out := Output(s.out.lines, s.out.body + bytes))
  }

  function Envelope(base: Headers): Output {
    Output([StatusLine(504, base["Content-Type" := ["application/json; charset=utf-8"]])], ENVELOPE_BODY)
  }

  /** Steps the writer takes. */
  function Next(s: State, step: Step): State {
    match step
    case SetHeader(key, values) => s.(header := s.header[key := values])
    case DeleteHeader(key) => s.(header := s.header - {key})
    case WriteHeader(status) => if Expired(s) || s.wroteHeader then s.(timedOut := true) else HeaderWritten(s, status)
    case Write(bytes) =>
      if Expired(s) then s.(timedOut := true)
      else Appended(if s.wroteHeader then s else HeaderWritten(s, 200), bytes)
    case Deadline => if s.context.Live? then s.(context := DeadlineExceeded) else s
    case Cancel => if s.context.Live? then s.(context := Canceled) else s
    case Timeout =>
      if s.wroteHeader then s.(timedOut := true)
      else
        var e := Envelope(s.base);
        s.(timedOut := true, wroteHeader := true, base := e.lines[0].headers, out := Output(s.out.lines + e.lines, s.out.body + e.body))
  }

  /** The timeout path runs only once the deadline has ended the context. */
  predicate Enabled(s: State, step: Step) {
    step.Timeout? ==> s.context.DeadlineExceeded?
  }

  /** What the client is served once the request has ended: net/http sends 200 by itself when no status line was sent. */
  function Served(out: Output, headers: Headers): Output {
    if out.lines == [] then Output([StatusLine(200, headers)], out.body) else out
  }

  /** That implicit answer: no body, and only the headers set outside the handler. */
  function EmptyOk(base: Headers): Output {
    Output([StatusLine(200, base)], "")
  }

  // ---------------------------------------------------------------- the writer itself

  /** The server's writer, as far as it is used. */
  class ResponseWriter {
    var header: Headers
    var lines: seq<StatusLine>
    var body: string

    constructor (header: Headers)
      ensures this.header == header && lines == [] && body == ""
    {
      this.header := header;
      lines := [];
      body := "";
    }

    method WriteHeader(status: int)
      modifies `lines
      ensures lines == old(lines) + [StatusLine(status, header)]
    {
      lines := lines + [StatusLine(status, header)];
    }

    method Write(bytes: string)
      modifies `body
      ensures body == old(body) + bytes
    {
      body := body + bytes;
    }

    /** What net/http does when the handler has returned: a status line, if none was sent. */
    method FinishRequest()
      modifies `lines
      ensures Output(lines, body) == Served(old(Output(lines, body)), header)
    {
      if |lines| == 0 {
        WriteHeader(200);
      }
    }

    method Fail504()
      modifies this
      ensures header == Envelope(old(header)).lines[0].headers
      ensures lines == old(lines) + Envelope(old(header)).lines && body == old(body) + ENVELOPE_BODY
    {
      header := header["Content-Type" := ["application/json; charset=utf-8"]];
      WriteHeader(504);
      Write(ENVELOPE_BODY);
    }
  }

  /** Copies each of the handler's header fields over those already set. */
  method Overlay<K(==), V>(dst0: map<K, V>, src: map<K, V>) returns (dst: map<K, V>)
    ensures dst == dst0 + src
  {
    dst := dst0;
    var keys := src.Keys;
    while keys != {}
      invariant keys <= src.Keys
      invariant forall k :: k in dst <==> k in dst0 || (k in src && k !in keys)
      invariant forall k :: k in dst ==> dst[k] == if k in src && k !in keys then src[k] else dst0[k]
      decreases |keys|
    {
      var key :| key in keys;
      dst := dst[key := src[key]];
      keys := keys - {key};
    }
  }

  class Writer {
    const w: ResponseWriter
    var header: Headers
    var context: Context
    var timedOut: bool
    var wroteHeader: bool

    ghost function Abs(): State
      reads this, w
    {
      State(context, header, timedOut, wroteHeader, w.header, Output(w.lines, w.body))
    }

    constructor (w: ResponseWriter)
      ensures this.w == w && Abs() == State(Live, map[], false, false, w.header, Output(w.lines, w.body))
    {
      this.w := w;
      header := map[];
      context := Live;
      timedOut := false;
      wroteHeader := false;
    }

    method IsExpired() returns (r: bool)
      ensures r == Expired(Abs())
    {
      return timedOut || context == DeadlineExceeded;
    }

    method WriteHeaderLocked(status: int)
      modifies this, w
      ensures Abs() == HeaderWritten(old(Abs()), status)
    {
      var dst := Overlay(w.header, header);
      w.header := dst;
      wroteHeader := true;
      w.WriteHeader(status);
    }

    method WriteHeader(status: int)
      modifies this, w
      ensures Abs() == Next(old(Abs()), Step.WriteHeader(status))
    {
      var expired := IsExpired();
      if expired || wroteHeader {
        timedOut := true;
        return;
      }
      WriteHeaderLocked(status);
    }

    /** The result tells the handler whether its bytes were taken: all of them or none. */
    method Write(bytes: string) returns (taken: bool)
      modifies this, w
      ensures Abs() == Next(old(Abs()), Step.Write(bytes))
      ensures w.body == old(w.body) + if taken then bytes else ""
      ensures taken <==> !Expired(old(Abs()))
    {
      var expired := IsExpired();
      if expired {
        timedOut := true;
        return false;
      }
      if !wroteHeader {
        WriteHeaderLocked(200);
      }
      w.Write(bytes);
      return true;
    }

    method Timeout()
      modifies this, w
      ensures Abs() == Next(old(Abs()), Step.Timeout)
    {
      if wroteHeader {
        timedOut := true;
        return;
      }
      timedOut := true;
      wroteHeader := true;
      w.Fail504();
    }
  }

  // ---------------------------------------------------------------- executions

  function Start(base: Headers): State {
    State(Live, map[], false, false, base, NOTHING)
  }

  function Run(base: Headers, steps: seq<Step>): State {
    if steps == [] then Start(base) else Next(Run(base, steps[..|steps| - 1]), steps[|steps| - 1])
  }

  predicate Possible(base: Headers, steps: seq<Step>) {
    forall i :: 0 <= i < |steps| ==> Enabled(Run(base, steps[..i]), steps[i])
  }

  /** The handler's own output: what its calls alone would send, with its headers laid over those already set. */
  datatype Reply = Reply(header: Headers, started: bool, out: Output)

  function Begun(base: Headers, r: Reply, status: int): Reply {
    if r.started then r else r.(started := true, out := Output([StatusLine(status, base + r.header)], r.out.body))
  }

  function DirectNext(base: Headers, r: Reply, step: Step): Reply {
    match step
    case SetHeader(key, values) => r.(header := r.header[key := values])
    case DeleteHeader(key) => r.(header := r.header - {key})
    case WriteHeader(status) => Begun(base, r, status)
    case Write(bytes) => var b := Begun(base, r, 200); b.(out := Output(b.out.lines, b.out.body + bytes))
    case _ => r
  }

  function Direct(base: Headers, steps: seq<Step>): Reply {
    if steps == [] then Reply(map[], false, NOTHING)
    else DirectNext(base, Direct(base, steps[..|steps| - 1]), steps[|steps| - 1])
  }

  /** While nothing has expired the writer has sent exactly the handler's own output. */
  ghost predicate InStep(base: Headers, s: State, d: Reply) {
    s.out == d.out && s.wroteHeader == d.started && s.header == d.header && (!s.wroteHeader ==> s.base == base && s.out == NOTHING)
  }

  /** Afterwards its output is fixed, and so is the first part of the handler's. */
  ghost predicate Settled(base: Headers, s: State, d: Reply) {
    if s.wroteHeader then s.out == Envelope(base) || (d.started && s.out.lines == d.out.lines && |s.out.lines| == 1 && s.out.body <= d.out.body)
    else s.out == NOTHING && s.base == base
  }

  ghost predicate Related(base: Headers, s: State, d: Reply) {
    |d.out.lines| == (if d.started then 1 else 0) &&
    if Expired(s) then Settled(base, s, d) else InStep(base, s, d)
  }

  lemma KeepsRelated(base: Headers, s: State, d: Reply, step: Step)
    requires Related(base, s, d) && Enabled(s, step)
    ensures Related(base, Next(s, step), DirectNext(base, d, step))
  {
    var t, e := Next(s, step), DirectNext(base, d, step);
    if Expired(s) {
      assert Settled(base, t, e);
    } else {
      assert step.WriteHeader? && s.wroteHeader ==> t.timedOut && e == d;
      if !Expired(t) {
        assert InStep(base, t, e);
      } else {
        assert Settled(base, t, e);
      }
    }
  }

  lemma {:induction false} AlwaysRelated(base: Headers, steps: seq<Step>)
    requires Possible(base, steps)
    ensures Related(base, Run(base, steps), Direct(base, steps))
  {
    if steps != [] {
      var before := steps[..|steps| - 1];
      assert forall i :: 0 <= i < |before| ==> before[..i] == steps[..i];
      AlwaysRelated(base, before);
      KeepsRelated(base, Run(base, before), Direct(base, before), steps[|steps| - 1]);
    }
  }

  /** What the client has been served if the request ends after these steps. */
  function Client(base: Headers, steps: seq<Step>): Output {
    Served(Run(base, steps).out, Run(base, steps).base)
  }

  /** The handler's status line and a first part of its body. */
  predicate IsFirstPart(a: Output, b: Output) {
    a.lines == b.lines && a.body <= b.body
  }

  /**
   * Whatever the interleaving the client is served one status line, and one of three things: the 504 envelope alone,
   * a first part of the handler's own output, or, if the writer sent nothing, the server's empty 200.
   */
  lemma NeverMixed(base: Headers, steps: seq<Step>)
    requires Possible(base, steps)
    ensures var out, client := Run(base, steps).out, Client(base, steps);
            && |client.lines| == 1 && |out.lines| <= 1
            && (if out.lines == [] then client == EmptyOk(base)
                else client == Envelope(base) || IsFirstPart(client, Direct(base, steps).out))
  {
    AlwaysRelated(base, steps);
  }

  // ---------------------------------------------------------------- what a handler that beats the deadline gets

  /** A call that asks for the status line to be sent. */
  predicate Starts(step: Step) {
    step.WriteHeader? || step.Write?
  }

  ghost predicate Started(steps: seq<Step>) {
    exists h :: 0 <= h < |steps| && Starts(steps[h])
  }

  /** A WriteHeader after the status line was already asked for. */
  ghost predicate Superfluous(steps: seq<Step>, i: nat) {
    i < |steps| && steps[i].WriteHeader? && Started(steps[..i])
  }

  ghost predicate Misused(steps: seq<Step>) {
    exists i :: Superfluous(steps, i)
  }

  ghost predicate Loses(steps: seq<Step>) {
    exists j :: 0 <= j < |steps| && steps[j].Write? && steps[j].bytes != "" && Misused(steps[..j])
  }

  lemma StartedSnoc(steps: seq<Step>)
    requires steps != []
    ensures Started(steps) <==> Started(steps[..|steps| - 1]) || Starts(steps[|steps| - 1])
  {
    var before := steps[..|steps| - 1];
    if Started(before) {
      var h :| 0 <= h < |before| && Starts(before[h]);
      assert Starts(steps[h]);
    }
  }

  lemma MisusedSnoc(steps: seq<Step>)
    requires steps != []
    ensures Misused(steps) <==> Misused(steps[..|steps| - 1]) || Superfluous(steps, |steps| - 1)
  {
    var before := steps[..|steps| - 1];
    assert forall i :: 0 <= i < |before| ==> before[..i] == steps[..i];
    if Misused(before) {
      var i :| Superfluous(before, i);
      assert Superfluous(steps, i);
    }
    if Misused(steps) && !Superfluous(steps, |steps| - 1) {
      var i :| Superfluous(steps, i);
      assert Superfluous(before, i);
    }
  }

  lemma LosesSnoc(steps: seq<Step>)
    requires steps != []
    ensures var last := steps[|steps| - 1];
            Loses(steps) <==> Loses(steps[..|steps| - 1]) || (last.Write? && last.bytes != "" && Misused(steps[..|steps| - 1]))
  {
    var before := steps[..|steps| - 1];
    assert forall i :: 0 <= i < |before| ==> before[..i] == steps[..i];
    if Loses(before) {
      var j :| 0 <= j < |before| && before[j].Write? && before[j].bytes != "" && Misused(before[..j]);
      assert steps[j].Write?;
    }
  }

  ghost predicate Undisturbed(base: Headers, s: State, d: Reply, started: bool, misused: bool, loses: bool) {
    s.context != DeadlineExceeded && s.wroteHeader == d.started == started && s.timedOut == misused &&
    (loses ==> misused) && (misused ==> started) &&
    s.header == d.header && (!started ==> s.base == base && s.out == d.out == NOTHING) &&
    s.out.lines == d.out.lines && s.out.body <= d.out.body && (s.out.body == d.out.body <==> !loses)
  }

  lemma StaysUndisturbed(base: Headers, s: State, d: Reply, started: bool, misused: bool, loses: bool, step: Step)
    requires Undisturbed(base, s, d, started, misused, loses) && Enabled(s, step) && !step.Deadline?
    ensures Undisturbed(base, Next(s, step), DirectNext(base, d, step), started || Starts(step),
                        misused || (step.WriteHeader? && started), loses || (step.Write? && step.bytes != "" && misused))
  {
  }

  /** Without a deadline the output falls short of the handler's own exactly when bytes follow a superfluous WriteHeader. */
  lemma {:induction false} CompleteIff(base: Headers, steps: seq<Step>)
    requires Possible(base, steps) && forall i :: 0 <= i < |steps| ==> !steps[i].Deadline?
    ensures Undisturbed(base, Run(base, steps), Direct(base, steps), Started(steps), Misused(steps), Loses(steps))
    ensures Run(base, steps).out == Direct(base, steps).out <==> !Loses(steps)
  {
    if steps != [] {
      var before := steps[..|steps| - 1];
      assert forall i :: 0 <= i < |before| ==> before[..i] == steps[..i];
      CompleteIff(base, before);
      StartedSnoc(steps);
      MisusedSnoc(steps);
      LosesSnoc(steps);
      StaysUndisturbed(base, Run(base, before), Direct(base, before), Started(before), Misused(before), Loses(before), steps[|steps| - 1]);
    }
  }

  /** What the client would be served if the handler's calls went straight to the server's writer. */
  function ServedAlone(base: Headers, steps: seq<Step>): Output {
    Served(Direct(base, steps).out, base + Direct(base, steps).header)
  }

  /**
   * Without a deadline the client is served what the handler's calls alone would give, if and only if no bytes follow a
   * superfluous WriteHeader and the handler starts a response or sets no header that matters: headers set by a handler
   * that writes nothing are lost.
   */
  lemma ServedCompleteIff(base: Headers, steps: seq<Step>)
    requires Possible(base, steps) && forall i :: 0 <= i < |steps| ==> !steps[i].Deadline?
    ensures Client(base, steps) == ServedAlone(base, steps) <==>
            !Loses(steps) && (Started(steps) || base + Direct(base, steps).header == base)
  {
    CompleteIff(base, steps);
    AlwaysRelated(base, steps);
  }

  // ---------------------------------------------------------------- whether the writer answers at all

  /** Step i has a status line sent, if none was: the timeout path, or a handler call that the deadline has not overtaken. */
  predicate Answers(base: Headers, steps: seq<Step>, i: nat) {
    i < |steps| && (steps[i].Timeout? || (Starts(steps[i]) && Run(base, steps[..i]).context != DeadlineExceeded))
  }

  ghost predicate Answered(base: Headers, steps: seq<Step>) {
    exists i :: Answers(base, steps, i)
  }

  lemma AnsweredSnoc(base: Headers, steps: seq<Step>)
    requires steps != []
    ensures Answered(base, steps) <==> Answered(base, steps[..|steps| - 1]) || Answers(base, steps, |steps| - 1)
  {
    var before := steps[..|steps| - 1];
    assert forall i :: 0 <= i < |before| ==> before[..i] == steps[..i];
    if Answered(base, before) {
      var i :| Answers(base, before, i);
      assert Answers(base, steps, i);
    }
    if Answered(base, steps) && !Answers(base, steps, |steps| - 1) {
      var i :| Answers(base, steps, i);
      assert Answers(base, before, i);
    }
  }

  predicate Sent(s: State, answered: bool) {
    s.wroteHeader == answered && (answered <==> s.out.lines != []) && (s.timedOut && !answered ==> s.context == DeadlineExceeded)
  }

  lemma SentStep(s: State, step: Step, answered: bool)
    requires Sent(s, answered) && Enabled(s, step)
    ensures Sent(Next(s, step), answered || step.Timeout? || (Starts(step) && s.context != DeadlineExceeded))
  {
  }

  /**
   * The writer sends a response exactly when the timeout path runs or the handler starts one in time. Otherwise, when
   * a handler only starts after the deadline and returns before the timeout path is chosen, the client is served the
   * server's empty 200, whatever the handler meant to answer.
   */
  lemma {:induction false} AnsweredIff(base: Headers, steps: seq<Step>)
    requires Possible(base, steps)
    ensures Sent(Run(base, steps), Answered(base, steps))
    ensures Run(base, steps).out.lines != [] <==> Answered(base, steps)
    ensures !Answered(base, steps) ==> Client(base, steps) == EmptyOk(base)
  {
    if steps != [] {
      var before := steps[..|steps| - 1];
      assert forall i :: 0 <= i < |before| ==> before[..i] == steps[..i];
      AnsweredIff(base, before);
      AnsweredSnoc(base, steps);
      SentStep(Run(base, before), steps[|steps| - 1], Answered(base, before));
    }
    AlwaysRelated(base, steps);
  }

  /** So a request that timed out, whose handler answers 404 too late, can be served an empty 200. */
  lemma EmptyOkHappens(base: Headers)
    ensures var steps := [Deadline, WriteHeader(404)];
            && Possible(base, steps) && Client(base, steps) == EmptyOk(base)
            && |Direct(base, steps).out.lines| == 1 && Direct(base, steps).out.lines[0].status == 404
  {
    var steps := [Deadline, WriteHeader(404)];
    assert steps[..1] == [Deadline] && steps[..1][..0] == [];
    assert Run(base, steps[..1]) == Next(Start(base), Deadline);
    assert Run(base, steps) == Next(Run(base, steps[..1]), WriteHeader(404));
    assert Direct(base, steps) == DirectNext(base, Direct(base, steps[..1]), WriteHeader(404));
    assert Direct(base, steps[..1]) == DirectNext(base, Reply(map[], false, NOTHING), Deadline);
  }

  // ---------------------------------------------------------------- what the answers are

  /** Nothing that follows the timeout path reaches the client. */
  lemma {:induction false} TimeoutIsLast(base: Headers, steps: seq<Step>, more: seq<Step>)
    ensures var s, t := Run(base, steps + [Step.Timeout]), Run(base, steps + [Step.Timeout] + more);
            t.timedOut && t.wroteHeader && t.out == s.out && t.base == s.base
    decreases |more|
  {
    var until := steps + [Step.Timeout];
    assert until[..|steps|] == steps;
    if more == [] {
      assert until + more == until;
    } else {
      TimeoutIsLast(base, steps, more[..|more| - 1]);
      assert (until + more)[..|until + more| - 1] == until + more[..|more| - 1];
    }
  }

  /**
   * A request that times out before anything was sent is answered 504 with a JSON error and its content type, beside the headers
   * set outside the handler; the handler's own are left out.
   */
  lemma TimeoutAnswers(base: Headers, steps: seq<Step>, more: seq<Step>)
    requires Possible(base, steps) && !Answered(base, steps)
    ensures Client(base, steps + [Step.Timeout] + more) ==
              Output([StatusLine(504, base["Content-Type" := ["application/json; charset=utf-8"]])],
                     "{\"data\":null,\"error\":{\"code\":\"REQUEST_TIMEOUT\",\"message\":\"Request timed out\"}}\n")
  {
    AnsweredIff(base, steps);
    AlwaysRelated(base, steps);
    TimeoutIsLast(base, steps, more);
    assert (steps + [Step.Timeout])[..|steps|] == steps;
  }

  /** A handler that just writes, before any deadline, is answered 200 with its headers over those already set, and its bytes. */
  lemma WriteAnswers(base: Headers, key: string, values: seq<string>, bytes: string)
    ensures Client(base, [SetHeader(key, values), Step.Write(bytes)]) == Output([StatusLine(200, base[key := values])], bytes)
  {
    var steps := [SetHeader(key, values), Step.Write(bytes)];
    assert steps[..1] == [SetHeader(key, values)] && steps[..1][..0] == [];
    assert Run(base, steps[..1]) == Next(Start(base), SetHeader(key, values));
    assert Run(base, steps) == Next(Run(base, steps[..1]), Step.Write(bytes));
    assert map[][key := values] == map[key := values];
    assert base + map[key := values] == base[key := values];
  }

  /** And one that says a status first is answered that status. */
  lemma StatusAnswers(base: Headers, status: int, bytes: string)
    ensures Client(base, [Step.WriteHeader(status), Step.Write(bytes)]) == Output([StatusLine(status, base)], bytes)
  {
    var steps := [Step.WriteHeader(status), Step.Write(bytes)];
    assert steps[..1] == [Step.WriteHeader(status)] && steps[..1][..0] == [];
    assert Run(base, steps[..1]) == Next(Start(base), Step.WriteHeader(status));
    assert Run(base, steps) == Next(Run(base, steps[..1]), Step.Write(bytes));
    assert base + map[] == base;
  }
}
