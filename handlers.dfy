/** The two stream session loops (`postfix`, `dovecot`) and the connection
    wrapper around them (`cope_with`), in src/handler.go.

    What one loop iteration does with a frame is `LineStep`; a whole session
    is `Session.SessionRun` over it. The methods `Postfix`, `Dovecot` and
    `CopeWith` are the loops themselves, proved to do exactly that; the
    lemmas below state what the source promises about a session, for each
    codec. */
module Handlers {
  import opened Wire
  import opened Split
  import opened Codec
  import opened Session

  /** Which handler a `BuffHandler` was built with; the auth-lookup codec
      carries the serialiser it uses for `OK` data (`json.Marshal`). */
  datatype Protocol = Socketmap | AuthLookup(marshal: Data -> Option<Bytes>)

  function ReplyTo(proto: Protocol, o: Outcome): Reply
  {
    match proto
    case Socketmap => SocketmapReply(o)
    case AuthLookup(marshal) => AuthReply(o, marshal)
  }

  /** The query a frame puts to the backend, if any. */
  function LineQuery(proto: Protocol, line: Bytes): Option<Query>
  {
    match proto
    case Socketmap => SocketmapQuery(line)
    case AuthLookup(_) =>
      match ClassifyAuthLine(line)
      case Lookup(q) => Some(q)
      case _ => None
  }

  /** A frame the loop gets through without an index panic. */
  predicate Parses(proto: Protocol, line: Bytes)
  {
    match proto
    case Socketmap => SocketmapQuery(line).Some?
    case AuthLookup(_) => ClassifyAuthLine(line) != Unparsable
  }

  /** One full exchange: refresh, query, reply, and either the second
      refresh or the panic right after a fatal reply. */
  function Exchange(q: Query, r: Reply): Step
  {
    Step([Refresh, Sent(r.payload)] + (if r.fatal then [] else [Refresh]), [q], r.fatal)
  }

  /** One iteration over `line`, the backend having been called `n` times. */
  function LineStep(proto: Protocol, answer: (nat, Query) -> Outcome, line: Bytes, n: nat): Step
  {
    match proto
    case Socketmap =>
      (match SocketmapQuery(line)
       case None => Step([Refresh], [], true)
       case Some(q) => Exchange(q, SocketmapReply(answer(n, q))))
    case AuthLookup(marshal) =>
      match ClassifyAuthLine(line)
      case Unparsable => Step([Refresh], [], true)
      case Handshake => Step([Refresh], [], false)
      case Rejected => Step([Refresh, Sent("F")], [], false)
      case Lookup(q) => Exchange(q, AuthReply(answer(n, q), marshal))
  }

  /** The step function of a handler talking to a backend that answers
      `answer`. */
  function Handler(proto: Protocol, answer: (nat, Query) -> Outcome): (Bytes, nat) -> Step
  {
    (line: Bytes, n: nat) => LineStep(proto, answer, line, n)
  }

  function Ask(proto: Protocol): Bytes -> Option<Query>
  {
    (line: Bytes) => LineQuery(proto, line)
  }

  function Ok(proto: Protocol): Bytes -> bool
  {
    (line: Bytes) => Parses(proto, line)
  }

  /** Whether the reply to call `m`, asking `q`, ends the session. */
  function Fatal(proto: Protocol, answer: (nat, Query) -> Outcome): (nat, Query) -> bool
  {
    (m: nat, q: Query) => ReplyTo(proto, answer(m, q)).fatal
  }

  // ---------------------------------------------------------------------
  // One step
  // ---------------------------------------------------------------------

  /** What one iteration does: it puts the frame's query, if any; it never
      closes the connection; it panics exactly when the frame does not
      parse or the reply is fatal; a query gets exactly the codec's reply,
      and a socketmap frame without a query gets none. */
  lemma StepFacts(proto: Protocol, answer: (nat, Query) -> Outcome, line: Bytes, n: nat)
    ensures var s := LineStep(proto, answer, line, n);
      s.queries == AsSeq(LineQuery(proto, line)) &&
      Closed !in s.events &&
      (s.stop <==> !Parses(proto, line) || (|s.queries| == 1 && ReplyTo(proto, answer(n, s.queries[0])).fatal)) &&
      (s.queries != [] ==> Payloads(s.events) == [ReplyTo(proto, answer(n, s.queries[0])).payload]) &&
      (proto.Socketmap? && s.queries == [] ==> Payloads(s.events) == [])
  {
    var s := LineStep(proto, answer, line, n);
    if s.queries != [] {
      var r := ReplyTo(proto, answer(n, s.queries[0]));
      var more: seq<Event> := if r.fatal then [] else [Refresh];
      assert s.events == [Refresh, Sent(r.payload)] + more;
      PayloadsConcat([Refresh, Sent(r.payload)], more);
      assert [Refresh, Sent(r.payload)][1..] == [Sent(r.payload)];
      assert Payloads(more) == [];
    } else if proto.Socketmap? {
      assert s.events == [Refresh];
    }
  }

  /** The hypotheses of the generic session lemmas hold for both handlers. */
  lemma HandlerFacts(proto: Protocol, answer: (nat, Query) -> Outcome)
    ensures Asks(Handler(proto, answer), Ask(proto))
    ensures StopsOnFault(Handler(proto, answer), Ok(proto), Fatal(proto, answer))
    ensures forall l, m :: Closed !in Handler(proto, answer)(l, m).events
  {
    forall l, m ensures Handler(proto, answer)(l, m).queries == AsSeq(Ask(proto)(l)) &&
      Closed !in Handler(proto, answer)(l, m).events
    {
      StepFacts(proto, answer, l, m);
    }
    forall l, m ensures var s := Handler(proto, answer)(l, m);
      |s.queries| <= 1 &&
      (s.stop <==> !Ok(proto)(l) || (|s.queries| == 1 && Fatal(proto, answer)(m, s.queries[0])))
    {
      StepFacts(proto, answer, l, m);
    }
  }

  // ---------------------------------------------------------------------
  // The session loops
  // ---------------------------------------------------------------------

  lemma Concat3<T>(a: seq<T>, b: seq<T>, c: seq<T>)
    ensures (a + b) + c == a + (b + c)
  {
  }

  /** One iteration of the `postfix` loop over `line`: refresh the deadline,
      split off the verb, ask the backend, write the reply, and refresh
      again unless the reply was fatal. `stop` is the panic. */
  method PostfixIteration(db: Backend, line: Bytes, conn: Conn) returns (stop: bool)
    modifies db, conn
    ensures var s := Handler(Socketmap, db.answer)(line, |old(db.asked)|);
      conn.trace == old(conn.trace) + s.events && db.asked == old(db.asked) + s.queries && stop == s.stop
  {
    conn.SetExpire();
    var msg := SplitN(line, ' ', 2);
    if |msg| < 2 {
      // msg[1] is out of range: the panic unwinds to cope_with
      return true;
    }
    var q := Query(msg[0], Text(msg[1]));
    var o := db.Request(q);
    var reply := SocketmapReply(o);
    conn.Write(reply.payload);
    if reply.fatal {
      return true;
    }
    conn.SetExpire();
    stop := false;
  }

  /** One iteration of the `dovecot` loop over `line`: refresh the
      deadline, skip `H` lines, answer "F" to lines that are not `L` lines,
      and otherwise split the lookup, ask the backend, write the reply, and
      refresh again unless the reply was fatal. `stop` is the panic. */
  method DovecotIteration(db: Backend, marshal: Data -> Option<Bytes>, line: Bytes, conn: Conn)
    returns (stop: bool)
    modifies db, conn
    ensures var s := Handler(AuthLookup(marshal), db.answer)(line, |old(db.asked)|);
      conn.trace == old(conn.trace) + s.events && db.asked == old(db.asked) + s.queries && stop == s.stop
  {
    conn.SetExpire();
    if |line| == 0 {
      // data[0] is out of range
      return true;
    }
    if line[0] == 'H' {
      return false;
    }
    if line[0] != 'L' {
      conn.Write("F");
      return false;
    }
    var msg := SplitN(line[1..], '/', 3);
    if |msg| < 3 {
      // msg[1] or msg[2] is out of range
      return true;
    }
    var q := Query(msg[1], Fields(map["context" := msg[0], "object" := msg[2]]));
    var o := db.Request(q);
    var reply := AuthReply(o, marshal);
    conn.Write(reply.payload);
    if reply.fatal {
      return true;
    }
    conn.SetExpire();
    stop := false;
  }

  /** `postfix`: the socketmap session over the frames the scanner yields. */
  method Postfix(db: Backend, frames: seq<Bytes>, tail: StreamEnd, conn: Conn) returns (end: End)
    modifies db, conn
    ensures var r := SessionRun(Handler(Socketmap, db.answer), frames, tail, |old(db.asked)|);
      conn.trace == old(conn.trace) + r.events && db.asked == old(db.asked) + r.queries && end == r.end
  {
    ghost var step := Handler(Socketmap, db.answer);
    ghost var whole := SessionRun(step, frames, tail, |db.asked|);
    ghost var evs: seq<Event> := [];
    ghost var qs: seq<Query> := [];
    ghost var n: nat := |db.asked|;
    Start(step, frames, tail, n);
    var i := 0;
    while i < |frames|
      invariant Midway(step, frames, tail, whole, i, n, evs, qs)
      invariant conn.trace == old(conn.trace) + evs && db.asked == old(db.asked) + qs && n == |db.asked|
    {
      ghost var s := step(frames[i], n);
      Advance(step, frames, tail, whole, i, n, evs, qs, s);
      Concat3(old(conn.trace), evs, s.events);
      Concat3(old(db.asked), qs, s.queries);
      var stop := PostfixIteration(db, frames[i], conn);
      if stop {
        return Aborted;
      }
      evs, qs, n := evs + s.events, qs + s.queries, n + |s.queries|;
      i := i + 1;
    }
    Finish(step, frames, tail, whole, n, evs, qs);
    // `decoder.Err()` once the scanner stops: a timeout panics
    end := EndOf(tail);
  }

  /** `dovecot`: the auth-lookup session over the frames the scanner yields. */
  method Dovecot(db: Backend, marshal: Data -> Option<Bytes>, frames: seq<Bytes>, tail: StreamEnd, conn: Conn)
    returns (end: End)
    modifies db, conn
    ensures var r := SessionRun(Handler(AuthLookup(marshal), db.answer), frames, tail, |old(db.asked)|);
      conn.trace == old(conn.trace) + r.events && db.asked == old(db.asked) + r.queries && end == r.end
  {
    ghost var step := Handler(AuthLookup(marshal), db.answer);
    ghost var whole := SessionRun(step, frames, tail, |db.asked|);
    ghost var evs: seq<Event> := [];
    ghost var qs: seq<Query> := [];
    ghost var n: nat := |db.asked|;
    Start(step, frames, tail, n);
    var i := 0;
    while i < |frames|
      invariant Midway(step, frames, tail, whole, i, n, evs, qs)
      invariant conn.trace == old(conn.trace) + evs && db.asked == old(db.asked) + qs && n == |db.asked|
    {
      ghost var s := step(frames[i], n);
      Advance(step, frames, tail, whole, i, n, evs, qs, s);
      Concat3(old(conn.trace), evs, s.events);
      Concat3(old(db.asked), qs, s.queries);
      var stop := DovecotIteration(db, marshal, frames[i], conn);
      if stop {
        return Aborted;
      }
      evs, qs, n := evs + s.events, qs + s.queries, n + |s.queries|;
      i := i + 1;
    }
    Finish(step, frames, tail, whole, n, evs, qs);
    // `decoder.Err()` once the scanner stops: a timeout panics
    end := EndOf(tail);
  }

  /** `cope_with`: run the handler on the connection, then close it, on
      the normal return and after a recovered panic alike. */
  method CopeWith(proto: Protocol, db: Backend, frames: seq<Bytes>, tail: StreamEnd, conn: Conn)
    returns (end: End)
    modifies db, conn
    ensures var r := SessionRun(Handler(proto, db.answer), frames, tail, |old(db.asked)|);
      conn.trace == old(conn.trace) + r.events + [Closed] &&
      db.asked == old(db.asked) + r.queries && end == r.end
    ensures Closed !in old(conn.trace) ==>
      multiset(conn.trace)[Closed] == 1 && conn.trace[|conn.trace| - 1] == Closed
  {
    match proto {
      case Socketmap =>
        end := Postfix(db, frames, tail, conn);
      case AuthLookup(marshal) =>
        end := Dovecot(db, marshal, frames, tail, conn);
    }
    conn.Close();
    if Closed !in old(conn.trace) {
      ClosedOnce(old(conn.trace), proto, db.answer, frames, tail, |old(db.asked)|);
    }
  }

  // ---------------------------------------------------------------------
  // What a session promises
  // ---------------------------------------------------------------------

  /** The connection wrapper closes the connection exactly once, and last,
      whether the session ended cleanly or aborted. */
  lemma ClosedOnce(pre: seq<Event>, proto: Protocol, answer: (nat, Query) -> Outcome,
                   frames: seq<Bytes>, tail: StreamEnd, n: nat)
    requires Closed !in pre
    ensures var t := pre + SessionRun(Handler(proto, answer), frames, tail, n).events + [Closed];
      multiset(t)[Closed] == 1 && t[|t| - 1] == Closed
  {
    HandlerFacts(proto, answer);
    RunNeverCloses(Handler(proto, answer), frames, tail, n);
    var evs := SessionRun(Handler(proto, answer), frames, tail, n).events;
    assert multiset(pre + evs) == multiset(pre) + multiset(evs);
  }

  /** A session reads a prefix of the frames, and the queries it puts to the
      backend are exactly those of the frames it read, in order; a clean end
      means it read all of them. */
  lemma SessionQueries(proto: Protocol, answer: (nat, Query) -> Outcome,
                       frames: seq<Bytes>, tail: StreamEnd, n: nat)
    ensures var r := SessionRun(Handler(proto, answer), frames, tail, n);
      r.consumed <= |frames| &&
      r.queries == Lookups(Ask(proto), frames[..r.consumed]) &&
      (r.end == Clean ==> r.consumed == |frames|)
  {
    HandlerFacts(proto, answer);
    RunQueries(Handler(proto, answer), Ask(proto), frames, tail, n);
  }

  /** A fatal reply ("TIMEOUT error in backend", "F") is the last thing a
      session writes: its query is the last one put, and the session panics. */
  lemma SessionFatalIsLast(proto: Protocol, answer: (nat, Query) -> Outcome,
                           frames: seq<Bytes>, tail: StreamEnd, n: nat)
    ensures var r := SessionRun(Handler(proto, answer), frames, tail, n);
      forall k :: 0 <= k < |r.queries| && ReplyTo(proto, answer(n + k, r.queries[k])).fatal ==>
        k == |r.queries| - 1 && r.end == Aborted
  {
    HandlerFacts(proto, answer);
    RunFatalIsLast(Handler(proto, answer), Ok(proto), Fatal(proto, answer), frames, tail, n);
  }

  /** A frame that panics the loop is the last one it reads. */
  lemma SessionUnparsedIsLast(proto: Protocol, answer: (nat, Query) -> Outcome,
                              frames: seq<Bytes>, tail: StreamEnd, n: nat)
    ensures var r := SessionRun(Handler(proto, answer), frames, tail, n);
      r.consumed <= |frames| &&
      forall k :: 0 <= k < r.consumed && !Parses(proto, frames[k]) ==> k == r.consumed - 1 && r.end == Aborted
  {
    HandlerFacts(proto, answer);
    RunUnparsedIsLast(Handler(proto, answer), Ok(proto), Fatal(proto, answer), frames, tail, n);
  }

  /** A session that leaves frames unread panicked, on a frame that does not
      parse or on a fatal reply to its last query. */
  lemma SessionStopsEarly(proto: Protocol, answer: (nat, Query) -> Outcome,
                          frames: seq<Bytes>, tail: StreamEnd, n: nat)
    ensures var r := SessionRun(Handler(proto, answer), frames, tail, n);
      r.consumed < |frames| ==>
        r.consumed > 0 && r.end == Aborted &&
        (!Parses(proto, frames[r.consumed - 1]) ||
         (r.queries != [] && ReplyTo(proto, answer(n + |r.queries| - 1, r.queries[|r.queries| - 1])).fatal))
  {
    HandlerFacts(proto, answer);
    RunStopsEarly(Handler(proto, answer), Ok(proto), Fatal(proto, answer), frames, tail, n);
  }

  /** A session returns normally exactly when every frame parsed, no reply
      was fatal, and the scanner stopped at end of stream or on a read error
      other than a timeout. */
  lemma SessionCleanIff(proto: Protocol, answer: (nat, Query) -> Outcome,
                        frames: seq<Bytes>, tail: StreamEnd, n: nat)
    ensures var r := SessionRun(Handler(proto, answer), frames, tail, n);
      r.end == Clean <==>
        (forall k :: 0 <= k < |frames| ==> Parses(proto, frames[k])) &&
        (forall k :: 0 <= k < |r.queries| ==> !ReplyTo(proto, answer(n + k, r.queries[k])).fatal) &&
        (tail == Eof || tail == ReadError(false))
  {
    HandlerFacts(proto, answer);
    RunCleanIff(Handler(proto, answer), Ok(proto), Fatal(proto, answer), frames, tail, n);
  }

  /** Socketmap: one reply per query, in order, each the codec's reply to
      the backend's answer; and the k-th query comes from the k-th frame. */
  lemma SocketmapRepliesInOrder(answer: (nat, Query) -> Outcome, frames: seq<Bytes>, tail: StreamEnd, n: nat)
    ensures var r := SessionRun(Handler(Socketmap, answer), frames, tail, n);
      var sent := Payloads(r.events);
      |sent| == |r.queries| <= |frames| &&
      forall k :: 0 <= k < |r.queries| ==>
        SocketmapQuery(frames[k]) == Some(r.queries[k]) && sent[k] == SocketmapReply(answer(n + k, r.queries[k])).payload
  {
    var step := Handler(Socketmap, answer);
    var reply := (m: nat, q: Query) => SocketmapReply(answer(m, q)).payload;
    HandlerFacts(Socketmap, answer);
    forall l, m ensures Payloads(step(l, m).events) ==
      if Ask(Socketmap)(l).Some? then [reply(m, Ask(Socketmap)(l).value)] else []
    {
      StepFacts(Socketmap, answer, l, m);
    }
    forall l, m ensures Ask(Socketmap)(l).None? ==> step(l, m).stop {
    }
    RunRepliesInOrder(step, Ask(Socketmap), reply, frames, tail, n);
  }

  // ---------------------------------------------------------------------
  // One frame at a time
  // ---------------------------------------------------------------------

  /** A session that reads no frame does nothing to the connection: the
      first deadline refresh comes only after the first frame is read. */
  lemma NoFrameNoRefresh(proto: Protocol, answer: (nat, Query) -> Outcome, tail: StreamEnd, n: nat)
    ensures SessionRun(Handler(proto, answer), [], tail, n) == Run([], [], 0, EndOf(tail))
  {
  }

  /** Socketmap: a line `verb obj` asks the backend for `obj` under `verb`,
      writes the codec's reply to its answer and goes on unless it was
      fatal. */
  lemma SocketmapLineExchange(answer: (nat, Query) -> Outcome, verb: Bytes, obj: Bytes, rest: seq<Bytes>,
                              tail: StreamEnd, n: nat)
    requires ' ' !in verb
    ensures var q := Query(verb, Text(obj));
      var reply := SocketmapReply(answer(n, q));
      SessionRun(Handler(Socketmap, answer), [verb + " " + obj] + rest, tail, n) ==
        if reply.fatal then Run([Refresh, Sent(reply.payload)], [q], 1, Aborted)
        else Then([Refresh, Sent(reply.payload), Refresh], [q], 1, SessionRun(Handler(Socketmap, answer), rest, tail, n + 1))
  {
    var line := verb + " " + obj;
    var q := Query(verb, Text(obj));
    SocketmapQueryOf(verb, obj);
    assert Handler(Socketmap, answer)(line, n) == Exchange(q, SocketmapReply(answer(n, q)));
    SessionRunCons(Handler(Socketmap, answer), line, rest, tail, n);
  }

  /** Socketmap: a line without a space aborts the session before any query
      or reply. */
  lemma SocketmapSpacelessAborts(answer: (nat, Query) -> Outcome, line: Bytes, rest: seq<Bytes>,
                                 tail: StreamEnd, n: nat)
    requires ' ' !in line
    ensures SessionRun(Handler(Socketmap, answer), [line] + rest, tail, n) == Run([Refresh], [], 1, Aborted)
  {
    SocketmapQueryParses(line);
    assert Handler(Socketmap, answer)(line, n) == Step([Refresh], [], true);
    SessionRunCons(Handler(Socketmap, answer), line, rest, tail, n);
  }

  lemma AuthLookupStep(marshal: Data -> Option<Bytes>, answer: (nat, Query) -> Outcome,
                        ctx: Bytes, verb: Bytes, obj: Bytes, n: nat)
    requires '/' !in ctx && '/' !in verb
    ensures var q := Query(verb, Fields(map["context" := ctx, "object" := obj]));
      Handler(AuthLookup(marshal), answer)("L" + ctx + "/" + verb + "/" + obj, n) ==
        Exchange(q, AuthReply(answer(n, q), marshal))
  {
    AuthQueryOf(ctx, verb, obj);
  }

  /** Auth-lookup: `L<context>/<verb>/<object>` asks the backend, writes the
      codec's reply to its answer and goes on unless it was fatal. */
  lemma AuthLineExchange(marshal: Data -> Option<Bytes>, answer: (nat, Query) -> Outcome,
                         ctx: Bytes, verb: Bytes, obj: Bytes, rest: seq<Bytes>, tail: StreamEnd, n: nat)
    requires '/' !in ctx && '/' !in verb
    ensures var q := Query(verb, Fields(map["context" := ctx, "object" := obj]));
      var reply := AuthReply(answer(n, q), marshal);
      var step := Handler(AuthLookup(marshal), answer);
      SessionRun(step, ["L" + ctx + "/" + verb + "/" + obj] + rest, tail, n) ==
        if reply.fatal then Run([Refresh, Sent(reply.payload)], [q], 1, Aborted)
        else Then([Refresh, Sent(reply.payload), Refresh], [q], 1, SessionRun(step, rest, tail, n + 1))
  {
    var line := "L" + ctx + "/" + verb + "/" + obj;
    AuthLookupStep(marshal, answer, ctx, verb, obj, n);
    SessionRunCons(Handler(AuthLookup(marshal), answer), line, rest, tail, n);
  }

  /** Auth-lookup: an `H` line is read and nothing else happens; the
      session goes on with the next line. */
  lemma AuthHandshakeSkipped(marshal: Data -> Option<Bytes>, answer: (nat, Query) -> Outcome,
                             line: Bytes, rest: seq<Bytes>, tail: StreamEnd, n: nat)
    requires |line| > 0 && line[0] == 'H'
    ensures var step := Handler(AuthLookup(marshal), answer);
      SessionRun(step, [line] + rest, tail, n) == Then([Refresh], [], 1, SessionRun(step, rest, tail, n))
  {
    assert Handler(AuthLookup(marshal), answer)(line, n) == Step([Refresh], [], false);
    SessionRunCons(Handler(AuthLookup(marshal), answer), line, rest, tail, n);
  }

  /** Auth-lookup: a line starting with another byte than `H` or `L` gets
      exactly "F", puts no query, and the session goes on. */
  lemma AuthRejectedContinues(marshal: Data -> Option<Bytes>, answer: (nat, Query) -> Outcome,
                              line: Bytes, rest: seq<Bytes>, tail: StreamEnd, n: nat)
    requires |line| > 0 && line[0] != 'H' && line[0] != 'L'
    ensures var step := Handler(AuthLookup(marshal), answer);
      SessionRun(step, [line] + rest, tail, n) == Then([Refresh, Sent("F")], [], 1, SessionRun(step, rest, tail, n))
  {
    assert Handler(AuthLookup(marshal), answer)(line, n) == Step([Refresh, Sent("F")], [], false);
    SessionRunCons(Handler(AuthLookup(marshal), answer), line, rest, tail, n);
  }

  /** Auth-lookup: an empty line, or an `L` line with fewer than two `/`,
      aborts the session before any query or reply. */
  lemma AuthShortLineAborts(marshal: Data -> Option<Bytes>, answer: (nat, Query) -> Outcome,
                            line: Bytes, rest: seq<Bytes>, tail: StreamEnd, n: nat)
    requires |line| == 0 ||
      (line[0] == 'L' && forall i, j :: 1 <= i < j < |line| && line[i] == '/' ==> line[j] != '/')
    ensures SessionRun(Handler(AuthLookup(marshal), answer), [line] + rest, tail, n) == Run([Refresh], [], 1, Aborted)
  {
    if |line| > 0 {
      var t := line[1..];
      forall i, j | 0 <= i < j < |t| && t[i] == '/' ensures t[j] != '/' {
        assert t[i] == line[i + 1] && t[j] == line[j + 1];
      }
      AuthQueryParses(t);
    }
    assert Handler(AuthLookup(marshal), answer)(line, n) == Step([Refresh], [], true);
    SessionRunCons(Handler(AuthLookup(marshal), answer), line, rest, tail, n);
  }
}
