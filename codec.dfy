/** The two stream codecs of the handler, one frame at a time: how a frame
    becomes a backend `Query` and how a backend outcome becomes the reply
    payload (`postfix` and `dovecot` in src/handler.go). */
module Codec {
  import opened Wire
  import opened Split

  const TimeoutReply: Bytes := "TIMEOUT error in backend"
  const NotFoundReply: Bytes := "NOTFOUND "

  /** What a reply tells the client: the value found, a negative lookup, or
      a failure of the backend (its call failed, or it answered something
      the codec cannot pass on). */
  datatype Answer = Found(value: Bytes) | Missing | Unavailable

  // ---------------------------------------------------------------------
  // Socketmap (`postfix`)
  // ---------------------------------------------------------------------

  /** `bytes.SplitN(line, " ", 2)`, then `Verb: msg[0]`, `Object: msg[1]`.
      A line without a space has no `msg[1]`: the index panics (None). */
  function SocketmapQuery(line: Bytes): Option<Query>
  {
    var msg := SplitN(line, ' ', 2);
    if |msg| < 2 then None else Some(Query(msg[0], Text(msg[1])))
  }

  /** A line yields a query exactly when it holds a space; the verb is the
      bytes before the first space and carries none, the object is all the
      rest, further spaces included. */
  lemma SocketmapQueryParses(line: Bytes)
    ensures SocketmapQuery(line).Some? <==> ' ' in line
    ensures SocketmapQuery(line).Some? ==>
      var q := SocketmapQuery(line).value;
      q.obj.Text? && ' ' !in q.verb && line == q.verb + " " + q.obj.text
  {
    SplitNJoin(line, ' ', 2);
    SplitNWellCut(line, ' ', 2);
    var msg := SplitN(line, ' ', 2);
    if |msg| == 2 {
      assert msg[1..] == [msg[1]];
      assert line == msg[0] + [' '] + msg[1];
      assert line[|msg[0]|] == ' ';
    }
  }

  /** The converse: any verb without a space and any object come back out
      of the line they form. */
  lemma SocketmapQueryOf(verb: Bytes, obj: Bytes)
    requires ' ' !in verb
    ensures SocketmapQuery(verb + " " + obj) == Some(Query(verb, Text(obj)))
  {
    var parts := [verb, obj];
    assert parts[1..] == [obj];
    assert Join(parts, ' ') == verb + " " + obj;
    JoinSplitN(parts, ' ', 2);
  }

  /** Nothing keeps the verb from being empty: a frame that starts with a
      space is the query of verb "" for the rest. */
  lemma SocketmapEmptyVerb(obj: Bytes)
    ensures SocketmapQuery(" " + obj) == Some(Query("", Text(obj)))
  {
    SocketmapQueryOf("", obj);
    assert "" + " " + obj == " " + obj;
  }

  /** What a backend outcome means on the socketmap side: only an `OK` with
      string data is a value, and only `KO` is a negative lookup. */
  function SocketmapAnswer(o: Outcome): Answer
  {
    match o
    case Failed => Unavailable
    case Res(status, data) =>
      if status == "OK" then (if data.Str? then Found(data.s) else Unavailable)
      else if status == "KO" then Missing
      else Unavailable
  }

  /** The reply `postfix` writes for one backend outcome, and whether it
      panics right after writing it. */
  function SocketmapReply(o: Outcome): Reply
  {
    match o
    case Failed => Reply(TimeoutReply, true)
    case Res(status, data) =>
      match status
      case "OK" =>
        (match data
         case Str(d) => Reply("OK " + d, false)
         case _ => Reply(TimeoutReply, true))
      case "KO" => Reply(NotFoundReply, false)
      case _ => Reply(TimeoutReply, true)
  }

  /** The socketmap wire form of each answer. */
  function SocketmapWire(a: Answer): Bytes
  {
    match a
    case Found(v) => "OK " + v
    case Missing => NotFoundReply
    case Unavailable => TimeoutReply
  }

  /** How a socketmap client reads a reply. */
  function ReadSocketmapReply(p: Bytes): Option<Answer>
  {
    if |p| >= 3 && p[..3] == "OK " then Some(Found(p[3..]))
    else if p == NotFoundReply then Some(Missing)
    else if p == TimeoutReply then Some(Unavailable)
    else None
  }

  /** The reply is the wire form of what the outcome means, and it is fatal
      exactly when it reports the backend unavailable: `OK` with string `d`
      gives "OK " + d, `KO` gives "NOTFOUND ", everything else gives
      "TIMEOUT error in backend" and ends the session. */
  lemma SocketmapReplyMeaning(o: Outcome)
    ensures SocketmapReply(o).payload == SocketmapWire(SocketmapAnswer(o))
    ensures SocketmapReply(o).fatal <==> SocketmapAnswer(o) == Unavailable
  {
  }

  /** A client recovers every answer from its wire form. */
  lemma SocketmapWireRoundTrip(a: Answer)
    ensures ReadSocketmapReply(SocketmapWire(a)) == Some(a)
  {
    match a
    case Found(v) =>
      assert ("OK " + v)[..3] == "OK ";
      assert ("OK " + v)[3..] == v;
    case Missing =>
      assert NotFoundReply[..3][0] == 'N';
    case Unavailable =>
      assert TimeoutReply[..3][0] == 'T';
  }

  // ---------------------------------------------------------------------
  // Auth-lookup (`dovecot`)
  // ---------------------------------------------------------------------

  /** How `dovecot` treats a frame: `H` lines are skipped, lines starting
      with another byte than `H` or `L` are rejected, `L` lines are
      lookups; the empty line (`data[0]`) and an `L` line the split leaves
      short (`msg[1]`, `msg[2]`) panic. */
  datatype AuthLine = Handshake | Rejected | Lookup(q: Query) | Unparsable

  /** `bytes.SplitN(rest, "/", 3)` into context, verb and object. */
  function AuthQuery(rest: Bytes): Option<Query>
  {
    var msg := SplitN(rest, '/', 3);
    if |msg| < 3 then None
    else Some(Query(msg[1], Fields(map["context" := msg[0], "object" := msg[2]])))
  }

  function ClassifyAuthLine(line: Bytes): AuthLine
  {
    if |line| == 0 then Unparsable
    else if line[0] == 'H' then Handshake
    else if line[0] != 'L' then Rejected
    else match AuthQuery(line[1..])
      case None => Unparsable
      case Some(q) => Lookup(q)
  }

  /** The separator occurs at most once in `a + [c] + b` when neither part
      holds it. */
  lemma OneSeparator(a: Bytes, c: char, b: Bytes)
    requires c !in a && c !in b
    ensures var s := a + [c] + b;
      forall i, j :: 0 <= i < j < |s| && s[i] == c ==> s[j] != c
  {
    var s := a + [c] + b;
    forall i, j | 0 <= i < j < |s| && s[i] == c ensures s[j] != c {
      if i == |a| {
        assert s[j] == b[j - |a| - 1];
      }
    }
  }

  /** The text after `L` yields a query exactly when it holds two `/`:
      the verb is the middle field, the object the map of `context` (before
      the first `/`) and `object` (after the second, further `/` included). */
  lemma AuthQueryParses(rest: Bytes)
    ensures AuthQuery(rest).None? <==>
      forall i, j :: 0 <= i < j < |rest| && rest[i] == '/' ==> rest[j] != '/'
    ensures AuthQuery(rest).Some? ==>
      var q := AuthQuery(rest).value;
      q.obj.Fields? && q.obj.fields.Keys == {"context", "object"} &&
      '/' !in q.obj.fields["context"] && '/' !in q.verb &&
      rest == q.obj.fields["context"] + "/" + q.verb + "/" + q.obj.fields["object"]
  {
    SplitNJoin(rest, '/', 3);
    SplitNWellCut(rest, '/', 3);
    var msg := SplitN(rest, '/', 3);
    if |msg| == 1 {
      assert rest == msg[0];
    } else if |msg| == 2 {
      assert msg[1..] == [msg[1]];
      assert rest == msg[0] + ['/'] + msg[1];
      OneSeparator(msg[0], '/', msg[1]);
    } else {
      assert msg[1..][1..] == [msg[2]];
      assert Join(msg[1..], '/') == msg[1] + ['/'] + msg[2];
      assert rest == msg[0] + "/" + msg[1] + "/" + msg[2];
      assert rest[|msg[0]|] == '/';
      assert rest[|msg[0]| + 1 + |msg[1]|] == '/';
    }
  }

  /** The converse: `L<a>/<b>/<c>` with no `/` in `a` or `b` is the lookup of
      verb `b` with context `a` and object `c`. */
  lemma AuthQueryOf(a: Bytes, b: Bytes, c: Bytes)
    requires '/' !in a && '/' !in b
    ensures ClassifyAuthLine("L" + a + "/" + b + "/" + c) ==
      Lookup(Query(b, Fields(map["context" := a, "object" := c])))
  {
    var rest := a + "/" + b + "/" + c;
    var line := "L" + a + "/" + b + "/" + c;
    JoinThree(a, b, c);
    JoinSplitN([a, b, c], '/', 3);
    assert AuthQuery(rest) == Some(Query(b, Fields(map["context" := a, "object" := c])));
    assert line == "L" + rest;
    assert line[1..] == rest;
  }

  /** Nothing keeps the verb from being empty here either: `L<a>//<c>` is
      the lookup of verb "". */
  lemma AuthEmptyVerb(a: Bytes, c: Bytes)
    requires '/' !in a
    ensures ClassifyAuthLine("L" + a + "//" + c) ==
      Lookup(Query("", Fields(map["context" := a, "object" := c])))
  {
    AuthQueryOf(a, "", c);
    assert "L" + a + "/" + "" + "/" + c == "L" + a + "//" + c;
  }

  lemma JoinThree(a: Bytes, b: Bytes, c: Bytes)
    ensures Join([a, b, c], '/') == a + "/" + b + "/" + c
  {
    var parts := [a, b, c];
    assert parts[1..] == [b, c] && parts[1..][1..] == [c];
    assert Join(parts[1..], '/') == b + "/" + c;
  }

  /** What a backend outcome means on the auth-lookup side: `OK` is a value
      once its data serialises, `KO` is a negative lookup. */
  function AuthAnswer(o: Outcome, marshal: Data -> Option<Bytes>): Answer
  {
    match o
    case Failed => Unavailable
    case Res(status, data) =>
      if status == "OK" then (if marshal(data).Some? then Found(marshal(data).value) else Unavailable)
      else if status == "KO" then Missing
      else Unavailable
  }

  /** The reply `dovecot` writes for one backend outcome (`marshal` stands
      for `json.Marshal`), and whether it panics right after writing it. */
  function AuthReply(o: Outcome, marshal: Data -> Option<Bytes>): Reply
  {
    match o
    case Failed => Reply("F", true)
    case Res(status, data) =>
      match status
      case "OK" =>
        (match marshal(data)
         case None => Reply("F", true)
         case Some(js) => Reply("O" + js, false))
      case "KO" => Reply("N", false)
      case _ => Reply("F", true)
  }

  /** The auth-lookup wire form of each answer. */
  function AuthWire(a: Answer): Bytes
  {
    match a
    case Found(v) => "O" + v
    case Missing => "N"
    case Unavailable => "F"
  }

  /** How an auth-lookup client reads a reply. */
  function ReadAuthReply(p: Bytes): Option<Answer>
  {
    if p == "N" then Some(Missing)
    else if p == "F" then Some(Unavailable)
    else if |p| >= 1 && p[0] == 'O' then Some(Found(p[1..]))
    else None
  }

  /** The reply is the wire form of what the outcome means, fatal exactly
      when it reports a failure: `OK` serialised as `js` gives "O" + js, `KO`
      gives "N", everything else gives "F" and ends the session. */
  lemma AuthReplyMeaning(o: Outcome, marshal: Data -> Option<Bytes>)
    ensures AuthReply(o, marshal).payload == AuthWire(AuthAnswer(o, marshal))
    ensures AuthReply(o, marshal).fatal <==> AuthAnswer(o, marshal) == Unavailable
  {
  }

  /** A client recovers every answer from its wire form. */
  lemma AuthWireRoundTrip(a: Answer)
    ensures ReadAuthReply(AuthWire(a)) == Some(a)
  {
    if a.Found? {
      assert ("O" + a.value)[1..] == a.value;
    }
  }
}
