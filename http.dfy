/** The HTTP side of the handler (`ServeHTTP` in src/handler.go): the auth
    request headers that nginx sends become one `nginx` query to the
    backend, and the backend's answer becomes the status and the headers of
    the HTTP response. */
module Http {
  import opened Wire

  /** Request headers: each name with its values, in order. */
  type Header = map<string, seq<string>>

  /** `Header.Get`: the first value of `name`, or "" when there is none. */
  function Get(h: Header, name: string): string
  {
    if name in h && h[name] != [] then h[name][0] else ""
  }

  /** The request headers passed on to the backend, in the order they are
      read. */
  const Forwarded: seq<string> := ["auth-user", "auth-pass", "auth-protocol", "auth-login-attempt", "client-ip"]

  /** The field each forwarded header is stored under in the query. */
  const Rename: map<string, string> := map[
    "auth-user" := "user",
    "auth-pass" := "pass",
    "auth-protocol" := "protocol",
    "auth-login-attempt" := "attempt",
    "client-ip" := "client"]

  /** What the header loop has collected after reading `names`. */
  function Collected(req: Header, names: seq<string>): map<string, Bytes>
    requires forall k :: 0 <= k < |names| ==> names[k] in Rename
  {
    if names == [] then map[]
    else
      var last := names[|names| - 1];
      Collected(req, names[..|names| - 1])[Rename[last] := Get(req, last)]
  }

  /** The fields of the `nginx` query: user, pass, protocol, attempt and
      client, each the first value of its request header or "". */
  function NginxFields(req: Header): map<string, Bytes>
  {
    map[
      "user" := Get(req, "auth-user"),
      "pass" := Get(req, "auth-pass"),
      "protocol" := Get(req, "auth-protocol"),
      "attempt" := Get(req, "auth-login-attempt"),
      "client" := Get(req, "client-ip")]
  }

  /** One field per forwarded header, holding that header's first value. */
  lemma NginxFieldsMeaning(req: Header)
    ensures NginxFields(req).Keys == {"user", "pass", "protocol", "attempt", "client"}
    ensures forall k :: k in Rename ==> NginxFields(req)[Rename[k]] == Get(req, k)
  {
    assert Rename.Keys == {"auth-user", "auth-pass", "auth-protocol", "auth-login-attempt", "client-ip"};
  }

  /** The header loop reads `Forwarded` one header at a time. */
  method CollectFields(req: Header) returns (data: map<string, Bytes>)
    ensures data == NginxFields(req)
  {
    data := map[];
    var i := 0;
    while i < |Forwarded|
      invariant 0 <= i <= |Forwarded|
      invariant data == Collected(req, Forwarded[..i])
    {
      var h := Forwarded[i];
      assert Forwarded[..i + 1][..i] == Forwarded[..i];
      data := data[Rename[h] := Get(req, h)];
      i := i + 1;
    }
    assert Forwarded[..i] == Forwarded;
    CollectedForwarded(req);
  }

  /** Collecting every forwarded header gives exactly the query fields. */
  lemma CollectedForwarded(req: Header)
    ensures Collected(req, Forwarded) == NginxFields(req)
  {
    var f1, f2, f3, f4 := Forwarded[..1], Forwarded[..2], Forwarded[..3], Forwarded[..4];
    assert f1[..0] == [] && f2[..1] == f1 && f3[..2] == f2 && f4[..3] == f3 && Forwarded[..4] == f4;
    assert Collected(req, f1) == map["user" := Get(req, "auth-user")];
    assert Collected(req, f2) == Collected(req, f1)["pass" := Get(req, "auth-pass")];
    assert Collected(req, f3) == Collected(req, f2)["protocol" := Get(req, "auth-protocol")];
    assert Collected(req, f4) == Collected(req, f3)["attempt" := Get(req, "auth-login-attempt")];
    assert Collected(req, Forwarded) == Collected(req, f4)["client" := Get(req, "client-ip")];
  }

  /** The query `ServeHTTP` puts to the backend. */
  function NginxQuery(req: Header): Query
  {
    Query("nginx", Fields(NginxFields(req)))
  }

  // ---------------------------------------------------------------------
  // The response
  // ---------------------------------------------------------------------

  /** What went out on the wire: the status line and the headers as they
      were when it was written. */
  datatype Response = Response(status: int, headers: map<string, string>)

  /** An `http.ResponseWriter`: the header map the handler fills in, and the
      response once `WriteHeader` has sent it. */
  class ResponseWriter {
    var header: map<string, string>
    var sent: Option<Response>

    constructor ()
      ensures header == map[] && sent == None
    {
      header := map[];
      sent := None;
    }

    /** `Header().Set(k, v)`. */
    method Set(k: string, v: string)
      modifies this
      ensures header == old(header)[k := v] && sent == old(sent)
    {
      header := header[k := v];
    }

    /** `WriteHeader(code)`: the first call sends the status and the headers
        set so far; a later call is ignored. */
    method WriteHeader(code: int)
      modifies this
      ensures header == old(header)
      ensures sent == if old(sent) == None then Some(Response(code, old(header))) else old(sent)
    {
      if sent == None {
        sent := Some(Response(code, header));
      }
    }
  }

  const StatusOK := 200
  const StatusInternalServerError := 500

  /** The headers of a granted login: the backend's `host` and `port`. */
  function Granted(host: string, port: string): map<string, string>
  {
    map["Auth-Status" := "OK", "Auth-Server" := host, "Auth-Port" := port]
  }

  /** The headers of a refused login. */
  const Refused: map<string, string> := map["Auth-Status" := "Invalid login or password", "Auth-Wait" := "5"]

  /** `data[key].(string)` succeeds. */
  predicate HasString(m: map<string, Data>, key: string)
  {
    key in m && m[key].Str?
  }

  /** The response `ServeHTTP` sends for the backend's outcome `o`, the
      writer holding headers `h0` before: `None` when it sends nothing,
      which happens when an `OK` object lacks a string `host` or `port`
      (the type assertion panics before anything is written). */
  function Render(h0: map<string, string>, o: Outcome): Option<Response>
  {
    match o
    case Failed => Some(Response(StatusInternalServerError, h0))
    case Res(status, data) =>
      if status == "OK" then
        match data
        case Obj(m) =>
          if HasString(m, "host") && HasString(m, "port")
          then Some(Response(StatusOK, h0 + Granted(m["host"].s, m["port"].s)))
          else None
        case _ => Some(Response(StatusInternalServerError, h0))
      else if status == "KO" then
        if data.Obj? then Some(Response(StatusOK, h0 + Refused))
        else Some(Response(StatusInternalServerError, h0))
      else Some(Response(StatusInternalServerError, h0))
  }

  /** `for h, v := range r_data { hres.Header().Set(h, v) }`: Go visits the
      map in no fixed order; whatever the order, the writer ends up with
      every pair of `r_data` over what it held, and sends nothing. */
  method SetAll(w: ResponseWriter, r_data: map<string, string>)
    modifies w
    ensures w.header == old(w.header) + r_data && w.sent == old(w.sent)
  {
    var todo := r_data.Keys;
    while todo != {}
      invariant todo <= r_data.Keys
      invariant w.header == old(w.header) + (map k | k in r_data && k !in todo :: r_data[k])
      invariant w.sent == old(w.sent)
      decreases todo
    {
      var k :| k in todo;
      w.Set(k, r_data[k]);
      todo := todo - {k};
    }
    assert (map k | k in r_data && k !in todo :: r_data[k]) == r_data;
  }

  /** The answer to the backend's outcome `res`. `panicked` is the panic
      that follows: a failed backend call, an unexpected status or data
      shape, or an `OK` object without a string `host` or `port`. */
  method Respond(w: ResponseWriter, res: Outcome) returns (panicked: bool)
    requires w.sent == None
    modifies w
    ensures w.sent == Render(old(w.header), res)
    ensures w.header == if w.sent.Some? then w.sent.value.headers else old(w.header)
    ensures panicked <==> w.sent == None || w.sent.value.status != StatusOK
  {
    if res.Failed? {
      w.WriteHeader(StatusInternalServerError);
      return true;
    }
    if res.status == "OK" {
      if !res.data.Obj? {
        w.WriteHeader(StatusInternalServerError);
        return true;
      }
      var m := res.data.members;
      if !HasString(m, "host") || !HasString(m, "port") {
        // `data["host"].(string)` or `data["port"].(string)` panics
        return true;
      }
      SetAll(w, Granted(m["host"].s, m["port"].s));
      w.WriteHeader(StatusOK);
      return false;
    }
    if res.status == "KO" {
      if !res.data.Obj? {
        w.WriteHeader(StatusInternalServerError);
        return true;
      }
      SetAll(w, Refused);
      w.WriteHeader(StatusOK);
      return false;
    }
    w.WriteHeader(StatusInternalServerError);
    return true;
  }

  /** `ServeHTTP`: collect the forwarded headers, ask the backend, and
      answer; the deferred `recover` turns the panic into `panicked`. */
  method ServeHTTP(w: ResponseWriter, db: Backend, req: Header) returns (panicked: bool)
    requires w.sent == None
    modifies w, db
    ensures db.asked == old(db.asked) + [NginxQuery(req)]
    ensures w.sent == Render(old(w.header), db.answer(|old(db.asked)|, NginxQuery(req)))
    ensures w.header == if w.sent.Some? then w.sent.value.headers else old(w.header)
    ensures panicked <==> w.sent == None || w.sent.value.status != StatusOK
  {
    var data := CollectFields(req);
    var res := db.Request(Query("nginx", Fields(data)));
    panicked := Respond(w, res);
  }

  // ---------------------------------------------------------------------
  // What a response means
  // ---------------------------------------------------------------------

  /** A login is granted (status 200 with `Auth-Status: OK`) exactly when
      the backend said `OK` with an object holding string `host` and
      `port`, which come back as `Auth-Server` and `Auth-Port`. */
  lemma RenderGrants(h0: map<string, string>, o: Outcome)
    ensures (Render(h0, o).Some? && Render(h0, o).value.status == StatusOK &&
             Render(h0, o).value.headers["Auth-Status"] == "OK") <==>
      o.Res? && o.status == "OK" && o.data.Obj? && HasString(o.data.members, "host") && HasString(o.data.members, "port")
    ensures o.Res? && o.status == "OK" && o.data.Obj? && HasString(o.data.members, "host") && HasString(o.data.members, "port") ==>
      var hs := Render(h0, o).value.headers;
      hs["Auth-Server"] == o.data.members["host"].s && hs["Auth-Port"] == o.data.members["port"].s
  {
    if o.Res? && o.status == "KO" && o.data.Obj? {
      assert Render(h0, o).value.headers["Auth-Status"] == "Invalid login or password";
    }
  }

  /** A login is refused (status 200, `Auth-Status: Invalid login or
      password`, `Auth-Wait: 5`) exactly when the backend said `KO` with
      an object. */
  lemma RenderRefuses(h0: map<string, string>, o: Outcome)
    ensures (Render(h0, o).Some? && Render(h0, o).value.status == StatusOK &&
             Render(h0, o).value.headers["Auth-Status"] == "Invalid login or password") <==>
      o.Res? && o.status == "KO" && o.data.Obj?
    ensures o.Res? && o.status == "KO" && o.data.Obj? ==> Render(h0, o).value.headers["Auth-Wait"] == "5"
  {
    if o.Res? && o.status == "OK" && o.data.Obj? && HasString(o.data.members, "host") && HasString(o.data.members, "port") {
      assert Render(h0, o).value.headers["Auth-Status"] == "OK";
    }
  }

  /** Status 500 goes out, with no header added, exactly when the backend
      call failed, the status is neither `OK` nor `KO`, or the data is not
      an object. */
  lemma RenderFails(h0: map<string, string>, o: Outcome)
    ensures (Render(h0, o).Some? && Render(h0, o).value.status == StatusInternalServerError) <==>
      o.Failed? || (o.status != "OK" && o.status != "KO") || !o.data.Obj?
    ensures Render(h0, o).Some? && Render(h0, o).value.status == StatusInternalServerError ==>
      Render(h0, o).value.headers == h0
  {
  }

  /** Nothing is sent exactly when an `OK` object lacks a string `host` or
      `port`; otherwise the status is 200 or 500. */
  lemma RenderSilent(h0: map<string, string>, o: Outcome)
    ensures Render(h0, o).None? <==>
      o.Res? && o.status == "OK" && o.data.Obj? &&
      !(HasString(o.data.members, "host") && HasString(o.data.members, "port"))
    ensures Render(h0, o).Some? ==> Render(h0, o).value.status in {StatusOK, StatusInternalServerError}
  {
  }
}
