/** The shape both stream session loops share (`postfix` and `dovecot` in
    src/handler.go): read a frame, refresh the idle deadline, maybe query the
    backend and write one reply, refresh again, and go on; a panic anywhere
    ends the session. What one iteration does is a `Step`, chosen by the
    codec in use; `SessionRun` strings the steps of all frames together.

    The lemmas here hold for every step function with the stated
    properties; module `Handlers` instantiates them with the two codecs. */
module Session {
  import opened Wire

  /** What one loop iteration does: its connection events, the queries it
      puts to the backend (at most one), and whether it panics. */
  datatype Step = Step(events: seq<Event>, queries: seq<Query>, stop: bool)

  /** A whole session: connection events, backend queries, the number of
      frames read, and how it ended. */
  datatype Run = Run(events: seq<Event>, queries: seq<Query>, consumed: nat, end: End)

  function Then(evs: seq<Event>, qs: seq<Query>, k: nat, r: Run): Run
  {
    Run(evs + r.events, qs + r.queries, k + r.consumed, r.end)
  }

  /** After the last frame: end of stream and a read error that is not a
      timeout return quietly; a timeout panics. */
  function EndOf(tail: StreamEnd): End
  {
    match tail
    case Eof => Clean
    case ReadError(timeout) => if timeout then Aborted else Clean
  }

  /** The session over `frames`, `step(line, n)` being what one iteration
      does with `line` once the backend has been called `n` times. */
  function SessionRun(step: (Bytes, nat) -> Step, frames: seq<Bytes>, tail: StreamEnd, n: nat): Run
    decreases |frames|
  {
    if frames == [] then Run([], [], 0, EndOf(tail))
    else
      var s := step(frames[0], n);
      if s.stop then Run(s.events, s.queries, 1, Aborted)
      else Then(s.events, s.queries, 1, SessionRun(step, frames[1..], tail, n + |s.queries|))
  }

  /** The payloads written, in order. */
  function Payloads(evs: seq<Event>): seq<Bytes>
  {
    if evs == [] then []
    else (if evs[0].Sent? then [evs[0].payload] else []) + Payloads(evs[1..])
  }

  function AsSeq<T>(o: Option<T>): seq<T>
  {
    match o
    case None => []
    case Some(x) => [x]
  }

  /** The queries `lines` put to the backend, in order, were each of them
      processed. */
  function Lookups(ask: Bytes -> Option<Query>, lines: seq<Bytes>): seq<Query>
  {
    if lines == [] then [] else AsSeq(ask(lines[0])) + Lookups(ask, lines[1..])
  }

  /** A step puts to the backend exactly the query `ask` finds in its line. */
  ghost predicate Asks(step: (Bytes, nat) -> Step, ask: Bytes -> Option<Query>)
  {
    forall l, m :: step(l, m).queries == AsSeq(ask(l))
  }

  /** A step puts at most one query, and panics exactly when its line does
      not parse (`ok`) or its query got a fatal reply. */
  ghost predicate StopsOnFault(step: (Bytes, nat) -> Step, ok: Bytes -> bool, fatal: (nat, Query) -> bool)
  {
    forall l, m :: |step(l, m).queries| <= 1 &&
      (step(l, m).stop <==> !ok(l) || (|step(l, m).queries| == 1 && fatal(m, step(l, m).queries[0])))
  }

  // ---------------------------------------------------------------------
  // Unfolding
  // ---------------------------------------------------------------------

  lemma {:induction false} PayloadsConcat(a: seq<Event>, b: seq<Event>)
    ensures Payloads(a + b) == Payloads(a) + Payloads(b)
  {
    if a == [] {
      assert a + b == b;
    } else {
      var head: seq<Bytes> := if a[0].Sent? then [a[0].payload] else [];
      assert (a + b)[0] == a[0];
      assert (a + b)[1..] == a[1..] + b;
      PayloadsConcat(a[1..], b);
      assert Payloads(a + b) == head + (Payloads(a[1..]) + Payloads(b));
      assert Payloads(a) == head + Payloads(a[1..]);
      assert head + (Payloads(a[1..]) + Payloads(b)) == (head + Payloads(a[1..])) + Payloads(b);
    }
  }

  lemma SessionRunAt(step: (Bytes, nat) -> Step, frames: seq<Bytes>, i: nat, tail: StreamEnd, n: nat)
    requires i < |frames|
    ensures SessionRun(step, frames[i..], tail, n) ==
      var s := step(frames[i], n);
      if s.stop then Run(s.events, s.queries, 1, Aborted)
      else Then(s.events, s.queries, 1, SessionRun(step, frames[i + 1..], tail, n + |s.queries|))
  {
    assert frames[i..][0] == frames[i];
    assert frames[i..][1..] == frames[i + 1..];
  }

  /** A session over `line` followed by `rest`, one step unfolded. */
  lemma SessionRunCons(step: (Bytes, nat) -> Step, line: Bytes, rest: seq<Bytes>, tail: StreamEnd, n: nat)
    ensures SessionRun(step, [line] + rest, tail, n) ==
      if step(line, n).stop then Run(step(line, n).events, step(line, n).queries, 1, Aborted)
      else Then(step(line, n).events, step(line, n).queries, 1,
                SessionRun(step, rest, tail, n + |step(line, n).queries|))
  {
    assert ([line] + rest)[0] == line;
    assert ([line] + rest)[1..] == rest;
  }

  lemma ThenThen(e1: seq<Event>, q1: seq<Query>, k1: nat, e2: seq<Event>, q2: seq<Query>, k2: nat, r: Run)
    ensures Then(e1, q1, k1, Then(e2, q2, k2, r)) == Then(e1 + e2, q1 + q2, k1 + k2, r)
  {
    assert e1 + (e2 + r.events) == (e1 + e2) + r.events;
    assert q1 + (q2 + r.queries) == (q1 + q2) + r.queries;
  }

  /** A loop that has read `i` frames, done `evs`, put `qs` and called the
      backend `n` times in all is on its way to `whole`. */
  ghost predicate Midway(step: (Bytes, nat) -> Step, frames: seq<Bytes>, tail: StreamEnd, whole: Run,
                         i: nat, n: nat, evs: seq<Event>, qs: seq<Query>)
  {
    i <= |frames| && whole == Then(evs, qs, i, SessionRun(step, frames[i..], tail, n))
  }

  lemma Start(step: (Bytes, nat) -> Step, frames: seq<Bytes>, tail: StreamEnd, n: nat)
    ensures Midway(step, frames, tail, SessionRun(step, frames, tail, n), 0, n, [], [])
  {
    assert frames[0..] == frames;
  }

  /** A loop iteration that goes on moves the part of `whole` already done
      forward by one frame; one that panics completes it. */
  lemma Advance(step: (Bytes, nat) -> Step, frames: seq<Bytes>, tail: StreamEnd, whole: Run,
                i: nat, n: nat, evs: seq<Event>, qs: seq<Query>, s: Step)
    requires Midway(step, frames, tail, whole, i, n, evs, qs) && i < |frames| && s == step(frames[i], n)
    ensures s.stop ==> whole == Run(evs + s.events, qs + s.queries, i + 1, Aborted)
    ensures !s.stop ==> Midway(step, frames, tail, whole, i + 1, n + |s.queries|, evs + s.events, qs + s.queries)
  {
    SessionRunAt(step, frames, i, tail, n);
    if !s.stop {
      ThenThen(evs, qs, i, s.events, s.queries, 1, SessionRun(step, frames[i + 1..], tail, n + |s.queries|));
    }
  }

  /** Once every frame is read, `whole` is done but for how the scanner
      stopped. */
  lemma Finish(step: (Bytes, nat) -> Step, frames: seq<Bytes>, tail: StreamEnd, whole: Run,
               n: nat, evs: seq<Event>, qs: seq<Query>)
    requires Midway(step, frames, tail, whole, |frames|, n, evs, qs)
    ensures whole == Run(evs, qs, |frames|, EndOf(tail))
  {
    assert frames[|frames|..] == [];
    assert evs + [] == evs && qs + [] == qs;
  }

  // ---------------------------------------------------------------------
  // Properties of every session
  // ---------------------------------------------------------------------

  /** A session whose steps never close the connection never closes it. */
  lemma {:induction false} RunNeverCloses(step: (Bytes, nat) -> Step, frames: seq<Bytes>, tail: StreamEnd, n: nat)
    requires forall l, m :: Closed !in step(l, m).events
    ensures Closed !in SessionRun(step, frames, tail, n).events
    decreases |frames|
  {
    if frames != [] {
      var s := step(frames[0], n);
      if !s.stop {
        RunNeverCloses(step, frames[1..], tail, n + |s.queries|);
      }
    }
  }

  /** A session reads a prefix of the frames, the queries it puts are
      exactly those of the frames it read, in order, and a clean end means
      it read them all. */
  lemma {:induction false} RunQueries(step: (Bytes, nat) -> Step, ask: Bytes -> Option<Query>,
                                      frames: seq<Bytes>, tail: StreamEnd, n: nat)
    requires Asks(step, ask)
    ensures var r := SessionRun(step, frames, tail, n);
      r.consumed <= |frames| &&
      r.queries == Lookups(ask, frames[..r.consumed]) &&
      (r.end == Clean ==> r.consumed == |frames|)
    decreases |frames|
  {
    var r := SessionRun(step, frames, tail, n);
    if frames != [] {
      var s := step(frames[0], n);
      assert s.queries == AsSeq(ask(frames[0]));
      assert frames[..1][1..] == [];
      assert Lookups(ask, frames[..1]) == AsSeq(ask(frames[0])) + Lookups(ask, []);
      if s.stop {
        assert r == Run(s.events, s.queries, 1, Aborted);
      } else {
        var rest := SessionRun(step, frames[1..], tail, n + |s.queries|);
        assert r == Then(s.events, s.queries, 1, rest);
        RunQueries(step, ask, frames[1..], tail, n + |s.queries|);
        assert frames[..r.consumed][1..] == frames[1..][..rest.consumed];
        assert frames[..r.consumed][0] == frames[0];
        assert Lookups(ask, frames[..r.consumed]) ==
          AsSeq(ask(frames[0])) + Lookups(ask, frames[1..][..rest.consumed]);
      }
    }
  }


  /** Every frame read parses. */
  ghost predicate AllOk(ok: Bytes -> bool, lines: seq<Bytes>)
  {
    forall k :: 0 <= k < |lines| ==> ok(lines[k])
  }

  /** No query got a fatal reply, the first being call number `n`. */
  ghost predicate NoneFatal(fatal: (nat, Query) -> bool, n: nat, qs: seq<Query>)
  {
    forall k :: 0 <= k < |qs| ==> !fatal(n + k, qs[k])
  }

  lemma AllOkCons(ok: Bytes -> bool, lines: seq<Bytes>)
    requires lines != []
    ensures AllOk(ok, lines) <==> ok(lines[0]) && AllOk(ok, lines[1..])
  {
    forall k | 1 <= k < |lines| ensures lines[k] == lines[1..][k - 1] {
    }
  }

  lemma NoneFatalCons(fatal: (nat, Query) -> bool, n: nat, a: seq<Query>, b: seq<Query>)
    requires |a| <= 1
    ensures NoneFatal(fatal, n, a + b) <==> (a != [] ==> !fatal(n, a[0])) && NoneFatal(fatal, n + |a|, b)
  {
    forall k | 0 <= k < |b| ensures (a + b)[|a| + k] == b[k] {
    }
    if a != [] {
      assert (a + b)[0] == a[0];
    }
  }

  /** A fatal reply is the last one: the query it answers is the run's
      last, and the run aborted. */
  ghost predicate FatalIsLast(fatal: (nat, Query) -> bool, n: nat, r: Run)
  {
    forall k :: 0 <= k < |r.queries| && fatal(n + k, r.queries[k]) ==> k == |r.queries| - 1 && r.end == Aborted
  }

  lemma {:induction false} RunFatalIsLast(step: (Bytes, nat) -> Step, ok: Bytes -> bool, fatal: (nat, Query) -> bool,
                                          frames: seq<Bytes>, tail: StreamEnd, n: nat)
    requires StopsOnFault(step, ok, fatal)
    ensures FatalIsLast(fatal, n, SessionRun(step, frames, tail, n))
    decreases |frames|
  {
    if frames != [] {
      var s := step(frames[0], n);
      assert |s.queries| <= 1;
      if !s.stop {
        var m := n + |s.queries|;
        var rest := SessionRun(step, frames[1..], tail, m);
        RunFatalIsLast(step, ok, fatal, frames[1..], tail, m);
        var qs := s.queries + rest.queries;
        forall k | 0 <= k < |qs| && fatal(n + k, qs[k]) ensures k == |qs| - 1 && rest.end == Aborted {
          if k >= |s.queries| {
            var j := k - |s.queries|;
            assert qs[k] == rest.queries[j];
            assert n + k == m + j;
            assert fatal(m + j, rest.queries[j]);
            assert j == |rest.queries| - 1;
            assert rest.end == Aborted;
          }
        }
      }
    }
  }

  /** A frame that does not parse is the last one read, and the session
      aborted on it. */
  lemma {:induction false} RunUnparsedIsLast(step: (Bytes, nat) -> Step, ok: Bytes -> bool, fatal: (nat, Query) -> bool,
                                             frames: seq<Bytes>, tail: StreamEnd, n: nat)
    requires StopsOnFault(step, ok, fatal)
    ensures var r := SessionRun(step, frames, tail, n);
      r.consumed <= |frames| &&
      forall k :: 0 <= k < r.consumed && !ok(frames[k]) ==> k == r.consumed - 1 && r.end == Aborted
    decreases |frames|
  {
    if frames != [] {
      var s := step(frames[0], n);
      if !s.stop {
        var m := n + |s.queries|;
        var rest := SessionRun(step, frames[1..], tail, m);
        RunUnparsedIsLast(step, ok, fatal, frames[1..], tail, m);
        forall k | 0 <= k < 1 + rest.consumed && !ok(frames[k]) ensures k == rest.consumed && rest.end == Aborted {
          assert k > 0;
          assert frames[k] == frames[1..][k - 1];
        }
      }
    }
  }

  /** A run that leaves frames unread aborted, on a frame that did not
      parse or on a fatal reply to its last query. */
  ghost predicate StopExplained(ok: Bytes -> bool, fatal: (nat, Query) -> bool, frames: seq<Bytes>, n: nat, r: Run)
  {
    r.consumed < |frames| ==>
      r.consumed > 0 && r.end == Aborted &&
      (!ok(frames[r.consumed - 1]) ||
       (r.queries != [] && fatal(n + |r.queries| - 1, r.queries[|r.queries| - 1])))
  }

  /** A session that stops before the last frame aborted, on a frame that
      did not parse or on a fatal reply to its last query. */
  lemma {:induction false} RunStopsEarly(step: (Bytes, nat) -> Step, ok: Bytes -> bool, fatal: (nat, Query) -> bool,
                                         frames: seq<Bytes>, tail: StreamEnd, n: nat)
    requires StopsOnFault(step, ok, fatal)
    ensures StopExplained(ok, fatal, frames, n, SessionRun(step, frames, tail, n))
    decreases |frames|
  {
    var r := SessionRun(step, frames, tail, n);
    if frames != [] {
      var s := step(frames[0], n);
      assert |s.queries| <= 1;
      if s.stop {
        assert r == Run(s.events, s.queries, 1, Aborted);
        assert !ok(frames[0]) || (|s.queries| == 1 && fatal(n, s.queries[0]));
        if ok(frames[0]) {
          assert r.queries[|r.queries| - 1] == s.queries[0];
        }
        assert StopExplained(ok, fatal, frames, n, r);
      } else {
        var m := n + |s.queries|;
        var rest := SessionRun(step, frames[1..], tail, m);
        assert r == Then(s.events, s.queries, 1, rest);
        RunStopsEarly(step, ok, fatal, frames[1..], tail, m);
        if r.consumed < |frames| {
          assert rest.consumed < |frames[1..]|;
          assert frames[1..][rest.consumed - 1] == frames[r.consumed - 1];
          if rest.queries != [] {
            assert r.queries[|r.queries| - 1] == rest.queries[|rest.queries| - 1];
            assert n + |r.queries| - 1 == m + |rest.queries| - 1;
          }
        }
        assert StopExplained(ok, fatal, frames, n, r);
      }
    }
  }


  /** A session ends cleanly exactly when every frame parsed, no reply was
      fatal and the scanner stopped at end of stream or on a read error that
      is not a timeout. */
  lemma {:induction false} RunCleanIff(step: (Bytes, nat) -> Step, ok: Bytes -> bool, fatal: (nat, Query) -> bool,
                                       frames: seq<Bytes>, tail: StreamEnd, n: nat)
    requires StopsOnFault(step, ok, fatal)
    ensures var r := SessionRun(step, frames, tail, n);
      r.end == Clean <==> AllOk(ok, frames) && NoneFatal(fatal, n, r.queries) && EndOf(tail) == Clean
    decreases |frames|
  {
    if frames != [] {
      var s := step(frames[0], n);
      assert |s.queries| <= 1;
      AllOkCons(ok, frames);
      if s.stop {
        if ok(frames[0]) {
          assert s.queries[0] == SessionRun(step, frames, tail, n).queries[0];
        }
      } else {
        var m := n + |s.queries|;
        var rest := SessionRun(step, frames[1..], tail, m);
        RunCleanIff(step, ok, fatal, frames[1..], tail, m);
        NoneFatalCons(fatal, n, s.queries, rest.queries);
      }
    }
  }

  /** One reply per query, in order: the k-th query comes from the k-th
      line and the k-th payload is `reply` to it, the first being call
      number `n`. */
  ghost predicate RepliesMatch(ask: Bytes -> Option<Query>, reply: (nat, Query) -> Bytes,
                               lines: seq<Bytes>, n: nat, qs: seq<Query>, sent: seq<Bytes>)
  {
    |sent| == |qs| <= |lines| &&
    forall k :: 0 <= k < |qs| ==> ask(lines[k]) == Some(qs[k]) && sent[k] == reply(n + k, qs[k])
  }

  lemma RepliesMatchCons(ask: Bytes -> Option<Query>, reply: (nat, Query) -> Bytes,
                         lines: seq<Bytes>, n: nat, q: Query, qs: seq<Query>, sent: seq<Bytes>)
    requires lines != [] && ask(lines[0]) == Some(q)
    requires RepliesMatch(ask, reply, lines[1..], n + 1, qs, sent)
    ensures RepliesMatch(ask, reply, lines, n, [q] + qs, [reply(n, q)] + sent)
  {
    var qs' := [q] + qs;
    var sent' := [reply(n, q)] + sent;
    forall k | 1 <= k < |qs'| ensures ask(lines[k]) == Some(qs'[k]) && sent'[k] == reply(n + k, qs'[k]) {
      assert qs'[k] == qs[k - 1] && sent'[k] == sent[k - 1];
      assert lines[k] == lines[1..][k - 1];
    }
  }

  /** When every line either stops the session or yields a query answered
      by exactly one reply, a session writes one reply per query, in order,
      and its k-th query comes from its k-th frame. */
  lemma {:induction false} RunRepliesInOrder(step: (Bytes, nat) -> Step, ask: Bytes -> Option<Query>,
                                             reply: (nat, Query) -> Bytes,
                                             frames: seq<Bytes>, tail: StreamEnd, n: nat)
    requires Asks(step, ask)
    requires forall l, m :: Payloads(step(l, m).events) == if ask(l).Some? then [reply(m, ask(l).value)] else []
    requires forall l, m :: ask(l).None? ==> step(l, m).stop
    ensures var r := SessionRun(step, frames, tail, n);
      RepliesMatch(ask, reply, frames, n, r.queries, Payloads(r.events))
    decreases |frames|
  {
    var r := SessionRun(step, frames, tail, n);
    if frames == [] {
      assert r.queries == [] && r.events == [];
    } else {
      var s := step(frames[0], n);
      var sent := Payloads(s.events);
      assert s.queries == AsSeq(ask(frames[0]));
      assert sent == if ask(frames[0]).Some? then [reply(n, ask(frames[0]).value)] else [];
      if s.stop {
        assert r.queries == s.queries && r.events == s.events;
        if ask(frames[0]).Some? {
          var q := ask(frames[0]).value;
          RepliesMatchCons(ask, reply, frames, n, q, [], []);
          assert s.queries == [q] + [] && sent == [reply(n, q)] + [];
        }
      } else {
        var q := ask(frames[0]).value;
        var rest := SessionRun(step, frames[1..], tail, n + 1);
        assert r.queries == [q] + rest.queries && r.events == s.events + rest.events;
        RunRepliesInOrder(step, ask, reply, frames[1..], tail, n + 1);
        PayloadsConcat(s.events, rest.events);
        RepliesMatchCons(ask, reply, frames, n, q, rest.queries, Payloads(rest.events));
      }
    }
  }
}
