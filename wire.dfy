/** The values the handler exchanges with its clients and with the backend.
    Go's `string` and `[]byte` are both byte sequences; here both are Dafny
    strings in which each character stands for one byte (no encoding is
    involved anywhere in the handler). */
module Wire {

  datatype Option<+T> = None | Some(value: T)

  /** One frame, one reply payload, one Go string. */
  type Bytes = string

  /** The `Object` of a `Query`: a string (socketmap) or a
      `map[string]string` (auth-lookup and HTTP). */
  datatype QueryObject = Text(text: Bytes) | Fields(fields: map<string, Bytes>)

  /** A `Query` as handed to the backend. */
  datatype Query = Query(verb: Bytes, obj: QueryObject)

  /** The `Data` of a backend response, a decoded JSON value: a string, an
      object (`map[string]interface{}`), or anything else (numbers,
      booleans, arrays, null), which no codec inspects further. */
  datatype Data = Str(s: Bytes) | Obj(members: map<string, Data>) | OtherData

  /** What one backend call yields: the call itself failed (`err != nil`),
      or a response with its status string ("OK", "KO", or anything) and
      its data. */
  datatype Outcome = Failed | Res(status: Bytes, data: Data)

  /** One reply selected by a stream codec, and whether the session must
      stop after writing it (the source panics right after such a reply). */
  datatype Reply = Reply(payload: Bytes, fatal: bool)

  /** How a session loop ended: it returned, or it panicked and the
      connection wrapper recovered. */
  datatype End = Clean | Aborted

  /** What the frame scanner reports once it stops yielding frames. */
  datatype StreamEnd = Eof | ReadError(timeout: bool)

  /** What a session does to its connection, in order. */
  datatype Event = Refresh | Sent(payload: Bytes) | Closed

  /** The backend (`HTTPDB`), seen from the handler: an oracle for the
      outcome of the n-th call, and the log of the queries it was asked. */
  class Backend {
    const answer: (nat, Query) -> Outcome
    var asked: seq<Query>

    constructor (answer: (nat, Query) -> Outcome)
      ensures this.answer == answer && asked == []
    {
      this.answer := answer;
      asked := [];
    }

    /** `db.Request(q)`. */
    method Request(q: Query) returns (o: Outcome)
      modifies this
      ensures asked == old(asked) + [q]
      ensures o == answer(|old(asked)|, q)
    {
      o := answer(|asked|, q);
      asked := asked + [q];
    }
  }

  /** An accepted stream connection: everything the handler does to it is
      appended to `trace`. */
  class Conn {
    var trace: seq<Event>

    constructor ()
      ensures trace == []
    {
      trace := [];
    }

    /** `set_expire`: push the idle deadline forward. */
    method SetExpire()
      modifies this
      ensures trace == old(trace) + [Refresh]
    {
      trace := trace + [Refresh];
    }

    /** The `encoder` callback: `con.Write(Transport.Encode(d))`, the
        framing being left abstract. */
    method Write(d: Bytes)
      modifies this
      ensures trace == old(trace) + [Sent(d)]
    {
      trace := trace + [Sent(d)];
    }

    method Close()
      modifies this
      ensures trace == old(trace) + [Closed]
    {
      trace := trace + [Closed];
    }
  }
}
