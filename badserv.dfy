/**
 The request handler of main.go: the action dispatcher `service.ServeHTTP`, the
 `close` and `slow-write` actions that take over the raw connection, `writeStrs`,
 and the two id counters (per request and per accepted connection).
 */
module BadServ {
  import opened Wrappers
  import opened Decimal
  import opened Http1
  import opened NetHttp
  import opened Context
  import opened Atomic

  /** The fixed document served by default and by slow-write (152 bytes). */
  const Limerick: string :=
    "In the realm of requests and replies,\nHTTP with its status denies.\nWith a 404 frown,\nIt turns users to clowns,\nAs they search for the page that belies.\n"

  /** The pause before each byte of the slow response, in milliseconds. */
  const SleepMs: nat := 100

  // ---------------------------------------------------------------- writeStrs

  /** The strings joined in order. */
  function Concat(strs: seq<string>): string {
    if strs == [] then [] else Concat(strs[..|strs| - 1]) + strs[|strs| - 1]
  }

  /** Joining two lists of strings is joining their joins. */
  lemma {:induction false} ConcatAppend(a: seq<string>, b: seq<string>)
    ensures Concat(a + b) == Concat(a) + Concat(b)
    decreases |b|
  {
    if b != [] {
      var b' := b[..|b| - 1];
      assert (a + b)[..|a + b| - 1] == a + b';
      ConcatAppend(a, b');
    } else {
      assert a + b == a;
    }
  }

  /** `writeStrs`: writes each string to `b`, in order. */
  method WriteStrs(b: StringBuffer, strs: seq<string>)
    modifies b
    ensures b.contents == old(b.contents) + Concat(strs)
  {
    for i := 0 to |strs|
      invariant b.contents == old(b.contents) + Concat(strs[..i])
    {
      b.WriteString(strs[i]);
      assert strs[..i + 1][..i] == strs[..i];
    }
    assert strs[..|strs|] == strs;
  }

  // ---------------------------------------------------------------- the slow-write response

  /** The pieces `slowWrite` passes to `writeStrs`, before the document itself. */
  function SlowHeaderParts(host: string): seq<string> {
    ["HTTP/1.1 200 OK\r\n",
     "Host: ", host, "\r\n",
     "Content-Length: ", Itoa(|Limerick|), "\r\n",
     "Content-Type: text/plain\r\n\r\n"]
  }

  /** The bytes `slowWrite` sends. */
  function SlowResponse(host: string): string {
    Concat(SlowHeaderParts(host)) + Limerick
  }

  /** The document is 152 bytes, which `strconv.Itoa` spells "152". */
  lemma LimerickLength()
    ensures |Limerick| == 152 && Itoa(|Limerick|) == "152"
  {
    assert Itoa(152) == "152";
  }

  /** One more piece joined on. */
  lemma ConcatSnoc(p: seq<string>, x: string)
    ensures Concat(p + [x]) == Concat(p) + x
  {
    assert (p + [x])[..|p|] == p;
  }

  /** Eight pieces joined in order. */
  lemma ConcatEight(a0: string, a1: string, a2: string, a3: string, a4: string, a5: string, a6: string, a7: string)
    ensures Concat([a0, a1, a2, a3, a4, a5, a6, a7]) == a0 + a1 + a2 + a3 + a4 + a5 + a6 + a7
  {
    ConcatSnoc([], a0);
    assert [] + [a0] == [a0];
    ConcatSnoc([a0], a1);
    assert [a0] + [a1] == [a0, a1];
    ConcatSnoc([a0, a1], a2);
    assert [a0, a1] + [a2] == [a0, a1, a2];
    ConcatSnoc([a0, a1, a2], a3);
    assert [a0, a1, a2] + [a3] == [a0, a1, a2, a3];
    ConcatSnoc([a0, a1, a2, a3], a4);
    assert [a0, a1, a2, a3] + [a4] == [a0, a1, a2, a3, a4];
    ConcatSnoc([a0, a1, a2, a3, a4], a5);
    assert [a0, a1, a2, a3, a4] + [a5] == [a0, a1, a2, a3, a4, a5];
    ConcatSnoc([a0, a1, a2, a3, a4, a5], a6);
    assert [a0, a1, a2, a3, a4, a5] + [a6] == [a0, a1, a2, a3, a4, a5, a6];
    ConcatSnoc([a0, a1, a2, a3, a4, a5, a6], a7);
    assert [a0, a1, a2, a3, a4, a5, a6] + [a7] == [a0, a1, a2, a3, a4, a5, a6, a7];
  }

  /** The header block is the pieces joined in order. */
  lemma HeaderBlockText(host: string)
    ensures Concat(SlowHeaderParts(host)) ==
      "HTTP/1.1 200 OK\r\n" + "Host: " + host + "\r\n" + "Content-Length: " + "152" + "\r\n" + "Content-Type: text/plain\r\n\r\n"
  {
    LimerickLength();
    ConcatEight("HTTP/1.1 200 OK\r\n", "Host: ", host, "\r\n", "Content-Length: ", "152", "\r\n", "Content-Type: text/plain\r\n\r\n");
  }

  /** The three fields `slowWrite` declares. */
  function SlowFields(host: string): seq<Field> {
    [Field("Host", host), Field("Content-Length", Itoa(|Limerick|)), Field("Content-Type", "text/plain")]
  }

  /** Three field lines, written out. */
  lemma ThreeFieldLines(f0: Field, f1: Field, f2: Field)
    ensures FieldLines([f0, f1, f2]) ==
      f0.name + ": " + f0.value + CRLF + (f1.name + ": " + f1.value + CRLF + (f2.name + ": " + f2.value + CRLF))
  {
    var l0, l1, l2 := f0.name + ": " + f0.value + CRLF, f1.name + ": " + f1.value + CRLF, f2.name + ": " + f2.value + CRLF;
    assert [f2][1..] == [];
    assert FieldLines([f2]) == l2 + [];
    assert [f1, f2][1..] == [f2];
    assert FieldLines([f1, f2]) == l1 + l2;
    assert [f0, f1, f2][1..] == [f1, f2];
    assert FieldLines([f0, f1, f2]) == l0 + (l1 + l2);
  }

  /** The pieces of the header block regroup into a status line, field lines and the empty line. */
  lemma Regroup(status: string, n0: string, v0: string, n1: string, v1: string, n2: string, v2: string, body: string)
    ensures (status + CRLF) + (n0 + ": ") + v0 + CRLF + (n1 + ": ") + v1 + CRLF + (n2 + ": " + v2 + CRLF + CRLF) + body
         == status + CRLF + FieldLines([Field(n0, v0), Field(n1, v1), Field(n2, v2)]) + CRLF + body
  {
    ThreeFieldLines(Field(n0, v0), Field(n1, v1), Field(n2, v2));
  }

  /** The response is a status line, the three fields and the document, framed as section 2.1 of RFC 9112 says. */
  lemma SlowResponseFraming(host: string)
    ensures SlowResponse(host) == "HTTP/1.1 200 OK" + CRLF + FieldLines(SlowFields(host)) + CRLF + Limerick
  {
    HeaderBlockText(host);
    LimerickLength();
    assert "HTTP/1.1 200 OK\r\n" == "HTTP/1.1 200 OK" + CRLF;
    assert "Host: " == "Host" + ": ";
    assert "Content-Length: " == "Content-Length" + ": ";
    assert "Content-Type: text/plain\r\n\r\n" == "Content-Type" + ": " + "text/plain" + CRLF + CRLF;
    Regroup("HTTP/1.1 200 OK", "Host", host, "Content-Length", "152", "Content-Type", "text/plain", Limerick);
  }

  /**
   A `req.Host` as the handler can receive it: no control byte, no space and no DEL (it may
   be empty). The Host header is checked by net/http, and a host taken from an absolute-form
   request target is checked by URL parsing, which still lets bytes of 0x80 and above through.
   */
  predicate ValidHost(host: string) {
    forall i :: 0 <= i < |host| ==> ' ' < host[i] && host[i] != '\U{7f}'
  }

  /** A host with bytes beyond ASCII (the two bytes of UTF-8 `ä`) still gets a parseable slow response. */
  lemma NonAsciiHostParses()
    ensures var host := "ex\U{c3}\U{a4}mple";
      ParseResponse(SlowResponse(host)) == Some(Message(StatusLine("HTTP/1.1", 200, "OK"), SlowFields(host), Limerick))
  {
    SlowResponseParses("ex\U{c3}\U{a4}mple");
  }

  /** The status line of section 4 of RFC 9112: version HTTP/1.1, code 200, reason OK. */
  lemma StatusLineText()
    ensures WellFormedStatus(StatusLine("HTTP/1.1", 200, "OK"))
    ensures StatusText(StatusLine("HTTP/1.1", 200, "OK")) == "HTTP/1.1 200 OK"
  {
    assert Itoa(200) == "200";
  }

  /** Each of the three fields can be carried on a field line. */
  lemma SlowFieldsWellFormed(host: string)
    requires ValidHost(host)
    ensures forall i :: 0 <= i < |SlowFields(host)| ==> WellFormedField(SlowFields(host)[i])
  {
    LimerickLength();
    var fs := SlowFields(host);
    assert WellFormedField(fs[0]);
    LiteralFieldsWellFormed();
  }

  /** The two fixed fields can be carried on field lines. */
  lemma LiteralFieldsWellFormed()
    ensures WellFormedField(Field("Content-Length", "152"))
    ensures WellFormedField(Field("Content-Type", "text/plain"))
  {
    ContentLengthWellFormed();
    ContentTypeWellFormed();
  }

  /** `Content-Length: 152` fits on a field line. */
  lemma ContentLengthWellFormed()
    ensures WellFormedField(Field("Content-Length", "152"))
  {
    var name := "Content-Length";
    assert ':' !in name && ' ' !in name && '\t' !in name && '\r' !in name;
  }

  /** `Content-Type: text/plain` fits on a field line. */
  lemma ContentTypeWellFormed()
    ensures WellFormedField(Field("Content-Type", "text/plain"))
  {
    var name, value := "Content-Type", "text/plain";
    assert ':' !in name && ' ' !in name && '\t' !in name && '\r' !in name;
    assert '\r' !in value;
  }

  /** A client reading the slow response finds the status line, the three fields in order, and the document as body. */
  lemma SlowResponseParses(host: string)
    requires ValidHost(host)
    ensures ParseResponse(SlowResponse(host)) == Some(Message(StatusLine("HTTP/1.1", 200, "OK"), SlowFields(host), Limerick))
  {
    SlowResponseFraming(host);
    SlowFieldsWellFormed(host);
    StatusLineText();
    ParseResponseRoundTrip(StatusLine("HTTP/1.1", 200, "OK"), SlowFields(host), Limerick);
  }

  /** The declared Content-Length is the length of the body that follows the header block. */
  lemma DeclaredLengthIsBodyLength(host: string)
    requires ValidHost(host)
    ensures ParseResponse(SlowResponse(host)).Some?
    ensures var m := ParseResponse(SlowResponse(host)).value; ContentLength(m.fields) == Some(|m.body|)
  {
    SlowResponseParses(host);
    LimerickLength();
    var fields := SlowFields(host);
    assert Lower("Host") != Lower("Content-Length");
    assert FieldValue(fields, "Content-Length") == FieldValue(fields[1..], "Content-Length");
    assert FieldValue(fields[1..], "Content-Length") == Some("152");
    assert ParseDecimal("152") == 152 by {
      ParseItoa(152);
    }
  }

  // ---------------------------------------------------------------- the slow-write loop

  /** One round of the loop whose flush succeeds: sleep, buffer the byte, and send it. */
  function Round(c: char): seq<Event> {
    [Slept(SleepMs), Buffered(c), Transmitted([c])]
  }

  /** The events of the write loop when every flush of `s` succeeds: sleep, buffer one byte, send it, per byte. */
  function Paced(s: string): (r: seq<Event>)
    ensures |r| == 3 * |s|
  {
    if s == [] then [] else Paced(s[..|s| - 1]) + Round(s[|s| - 1])
  }

  /** Byte `i` of `s` is buffered in the `i`-th round, right after its sleep, and its flush sends exactly that byte. */
  lemma {:induction false} PacedShape(s: string)
    ensures forall i :: 0 <= i < |s| ==>
      && Paced(s)[3 * i] == Slept(SleepMs)
      && Paced(s)[3 * i + 1] == Buffered(s[i])
      && Paced(s)[3 * i + 2] == Transmitted([s[i]])
  {
    if s != [] {
      var p := s[..|s| - 1];
      PacedShape(p);
      forall i | 0 <= i < |s|
        ensures Paced(s)[3 * i] == Slept(SleepMs) && Paced(s)[3 * i + 1] == Buffered(s[i]) && Paced(s)[3 * i + 2] == Transmitted([s[i]])
      {
        if i < |p| {
          assert s[i] == p[i];
        }
      }
    }
  }

  /** One round sends exactly its byte. */
  lemma SentRound(c: char)
    ensures Sent(Round(c)) == [c]
  {
    var round := Round(c);
    assert Sent(round[..1]) == [] by {
      assert round[..1][..0] == [];
    }
    assert Sent(round[..2]) == [] by {
      assert round[..2][..1] == round[..1];
    }
  }

  /** One more round of the loop extends the paced events by that round's three. */
  lemma PacedStep(s: string, i: nat)
    requires i < |s|
    ensures Paced(s[..i + 1]) == Paced(s[..i]) + Round(s[i])
  {
    assert s[..i + 1][..i] == s[..i];
  }

  /** A client of the loop receives exactly the bytes it paced out. */
  lemma {:induction false} SentPaced(s: string)
    ensures Sent(Paced(s)) == s
  {
    if s != [] {
      var p, c := s[..|s| - 1], s[|s| - 1];
      calc {
        Sent(Paced(s));
        Sent(Paced(p) + Round(c));
        { SentAppend(Paced(p), Round(c)); }
        Sent(Paced(p)) + Sent(Round(c));
        { SentPaced(p); SentRound(c); }
        p + [c];
        s;
      }
    }
  }

  /** How many of `n` socket writes succeed when the connection accepts `budget` more. */
  function Accepted(n: nat, budget: Option<nat>): (k: nat)
    ensures k <= n
    ensures k < n <==> budget.Some? && budget.value < n
    ensures k < n ==> k == budget.value
  {
    if budget.Some? && budget.value < n then budget.value else n
  }

  /** The round whose flush fails: the byte is buffered, the socket refuses it, and the writer keeps the error. */
  function FailedRound(b: char): seq<Event> {
    [Slept(SleepMs), Buffered(b), TransmitFailed([b])]
  }

  /**
   The events of the write loop when the connection accepts `budget` more socket writes:
   the paced bytes up to the first failed flush, that round, and then, if a byte remains,
   one more sleep and the write that returns the writer's stored error.
   */
  function LoopEvents(resp: string, budget: Option<nat>): seq<Event> {
    var k := Accepted(|resp|, budget);
    Paced(resp[..k]) + LoopTail(resp, k)
  }

  /** What follows the paced bytes when `k` of them were sent. */
  function LoopTail(resp: string, k: nat): seq<Event>
    requires k <= |resp|
  {
    if k == |resp| then []
    else if k + 1 == |resp| then FailedRound(resp[k])
    else FailedRound(resp[k]) + [Slept(SleepMs), WriteRefused(resp[k + 1])]
  }

  /** How many socket writes the loop makes over `n` bytes: one per flushed byte, up to and including the first that fails. */
  function LoopAttempts(n: nat, budget: Option<nat>): (r: nat)
    ensures r <= n
  {
    var k := Accepted(n, budget);
    if k < n then k + 1 else n
  }

  /** The byte at which the loop reports an error: the one after the first failed flush, if there is one. */
  function LoopError(n: nat, budget: Option<nat>): (r: Option<nat>)
    ensures r.Some? ==> 0 < r.value < n
  {
    var k := Accepted(n, budget);
    if k + 1 < n then Some(k + 1) else None
  }

  /** What `slowWrite` does on a hijacked connection: the write loop, then the deferred Close. */
  function SlowWriteEvents(resp: string, budget: Option<nat>): seq<Event> {
    LoopEvents(resp, budget) + [Closed]
  }

  /** The client receives a prefix of the response: all of it when no socket write fails, else the bytes before the failed one. */
  lemma SlowWriteDelivers(resp: string, budget: Option<nat>)
    ensures Sent(SlowWriteEvents(resp, budget)) == resp[..Accepted(|resp|, budget)]
    ensures budget.None? || |resp| <= budget.value ==> Sent(SlowWriteEvents(resp, budget)) == resp
  {
    var k := Accepted(|resp|, budget);
    var tail: seq<Event>;
    if k < |resp| {
      tail := LoopTail(resp, k) + [Closed];
      assert SlowWriteEvents(resp, budget) == Paced(resp[..k]) + tail;
      assert forall i :: 0 <= i < |tail| ==> !tail[i].Transmitted?;
    } else {
      tail := [Closed];
      assert SlowWriteEvents(resp, budget) == Paced(resp[..k]) + tail by {
        assert LoopEvents(resp, budget) == Paced(resp[..k]) + [];
      }
      assert resp[..k] == resp;
    }
    SentAppend(Paced(resp[..k]), tail);
    SentPaced(resp[..k]);
    SentNoWrites(tail);
  }

  /**
   The loop notices a lost byte one round late: a reported error at byte `i` means the client
   has exactly the bytes before `i - 1`, and a reported success means at most the last byte is missing.
   */
  lemma SlowWriteReports(resp: string, budget: Option<nat>)
    ensures var e := LoopError(|resp|, budget);
      e.Some? ==> Sent(SlowWriteEvents(resp, budget)) == resp[..e.value - 1]
    ensures var sent := Sent(SlowWriteEvents(resp, budget));
      LoopError(|resp|, budget).None? <==> sent <= resp && |resp| <= |sent| + 1
  {
    SlowWriteDelivers(resp, budget);
  }

  /** When only the last socket write fails, the client misses the last byte and `slowWrite` still reports success. */
  lemma LastByteLostSilently(resp: string)
    requires resp != []
    ensures LoopError(|resp|, Some(|resp| - 1)).None?
    ensures Sent(SlowWriteEvents(resp, Some(|resp| - 1))) == resp[..|resp| - 1]
  {
    SlowWriteDelivers(resp, Some(|resp| - 1));
  }

  /** The errors `closeConn` and `slowWrite` return. */
  datatype HandlerError =
    | HijackError(cause: string) // "hijacking connection: %w"
    | WriteError(index: nat)     // "writing response: %w", at this byte of the response

  /** The events after `i` rounds of the loop when `k` flushes succeed. */
  function Progress(resp: string, k: nat, i: nat): seq<Event>
    requires i <= k + 1 && i <= |resp| && k <= |resp|
  {
    if i <= k then Paced(resp[..i]) else Paced(resp[..k]) + FailedRound(resp[k])
  }

  /** Round `i` of the loop adds a paced round before the first failed flush and the failed round at it. */
  lemma ProgressStep(resp: string, k: nat, i: nat)
    requires i <= k && i < |resp| && k <= |resp|
    ensures Progress(resp, k, i + 1) == Progress(resp, k, i) + if i < k then Round(resp[i]) else FailedRound(resp[i])
  {
    if i < k {
      PacedStep(resp, i);
    }
  }

  /** Where the loop stops at a refused write, it has produced all of `LoopEvents`. */
  lemma ProgressRefused(resp: string, budget: Option<nat>)
    requires Accepted(|resp|, budget) + 1 < |resp|
    ensures var k := Accepted(|resp|, budget);
      Progress(resp, k, k + 1) + [Slept(SleepMs), WriteRefused(resp[k + 1])] == LoopEvents(resp, budget)
  {
  }

  /** Where the loop runs to the end of the response, it has produced all of `LoopEvents`. */
  lemma ProgressRunOut(resp: string, budget: Option<nat>)
    requires |resp| <= Accepted(|resp|, budget) + 1
    ensures Progress(resp, Accepted(|resp|, budget), |resp|) == LoopEvents(resp, budget)
  {
    var k := Accepted(|resp|, budget);
    if k == |resp| {
      assert resp[..k] == resp;
    }
  }

  /**
   One round of the loop: sleep, write the byte, and, if the write succeeded, flush it
   together with whatever was still buffered, ignoring the flush's result. Returns whether
   the write succeeded.
   */
  method PaceByte(w: BufWriter, b: char) returns (written: bool)
    modifies w, w.conn
    ensures written == !old(w.broken)
    ensures old(w.broken) ==>
      && w.conn.events == old(w.conn.events) + [Slept(SleepMs), WriteRefused(b)]
      && w.conn.attempts == old(w.conn.attempts)
      && w.broken && w.buffered == old(w.buffered)
    ensures !old(w.broken) ==>
      var sent := w.conn.Accepts(old(w.conn.attempts));
      var data := old(w.buffered) + [b];
      && w.conn.events == old(w.conn.events) + [Slept(SleepMs), Buffered(b), if sent then Transmitted(data) else TransmitFailed(data)]
      && w.conn.attempts == old(w.conn.attempts) + 1
      && w.buffered == (if sent then [] else data)
      && w.broken == !sent
    // from an empty buffer, the round is a paced round or the failed one
    ensures !old(w.broken) && old(w.buffered) == [] ==>
      w.conn.events == old(w.conn.events) + if w.conn.Accepts(old(w.conn.attempts)) then Round(b) else FailedRound(b)
  {
    w.conn.Sleep(SleepMs);
    written := w.Write(b);
    if !written {
      return;
    }
    var flushed := w.Flush();
    assert old(w.buffered) == [] ==> old(w.buffered) + [b] == [b];
  }

  /**
   The loop of `slowWrite` over the writer `Hijack` returned: for each byte, sleep, write it,
   and flush, ignoring the flush's result; on the first write that fails, stop and report its index.
   */
  method PaceOut(w: BufWriter, resp: string) returns (failed: Option<nat>)
    requires w.buffered == [] && !w.broken
    modifies w, w.conn
    ensures var budget := old(w.conn.Budget());
      && w.conn.events == old(w.conn.events) + LoopEvents(resp, budget)
      && w.conn.attempts == old(w.conn.attempts) + LoopAttempts(|resp|, budget)
      && failed == LoopError(|resp|, budget)
    ensures var k := Accepted(|resp|, old(w.conn.Budget()));
      && w.broken == (k < |resp|)
      && w.buffered == (if k < |resp| then [resp[k]] else [])
  {
    ghost var budget := w.conn.Budget();
    ghost var k := Accepted(|resp|, budget);
    ghost var a0 := w.conn.attempts;
    ghost var e0 := w.conn.events;
    for i := 0 to |resp|
      invariant i <= k + 1
      invariant w.conn.events == e0 + Progress(resp, k, i)
      invariant w.conn.attempts == a0 + (if i <= k then i else k + 1)
      invariant w.buffered == (if i <= k then [] else [resp[k]])
      invariant w.broken == (k < i)
    {
      assert w.conn.Accepts(a0 + i) <==> i < k;
      var written := PaceByte(w, resp[i]);
      if !written {
        ProgressRefused(resp, budget);
        assert w.conn.events == e0 + LoopEvents(resp, budget);
        return Some(i);
      }
      ProgressStep(resp, k, i);
    }
    ProgressRunOut(resp, budget);
    return None;
  }

  /** The response `slowWrite` assembles in a `bytes.Buffer` before sending it. */
  method BuildSlowResponse(host: string) returns (resp: string)
    ensures resp == SlowResponse(host)
  {
    var buf := new StringBuffer();
    var parts := SlowHeaderParts(host);
    WriteStrs(buf, parts);
    assert buf.contents == Concat(parts);
    buf.WriteString(Limerick);
    resp := buf.contents;
  }

  /** `slowWrite`: hijack the connection, build the response, pace it out, and close the connection. */
  method SlowWrite(rw: ResponseWriter, host: string) returns (err: Option<HandlerError>)
    modifies rw, rw.conn
    ensures rw.replies == old(rw.replies)
    ensures var h := HijackResult(old(rw.hijacked), rw.hijackFailure);
      if h.Some? then
        && err == Some(HijackError(h.value))
        && rw.hijacked == old(rw.hijacked)
        && rw.conn.events == old(rw.conn.events)
        && rw.conn.attempts == old(rw.conn.attempts)
      else
        var resp := SlowResponse(host);
        var budget := old(rw.conn.Budget());
        var e := LoopError(|resp|, budget);
        && rw.hijacked
        && rw.conn.events == old(rw.conn.events) + SlowWriteEvents(resp, budget)
        && rw.conn.attempts == old(rw.conn.attempts) + LoopAttempts(|resp|, budget)
        && err == (if e.Some? then Some(WriteError(e.value)) else None)
  {
    var w, hijackErr := rw.Hijack();
    if hijackErr.Some? {
      return Some(HijackError(hijackErr.value));
    }
    // `defer conn.Close()`: the connection is closed on both paths below
    var resp := BuildSlowResponse(host);
    var failed := PaceOut(w, resp);
    rw.conn.Close();
    if failed.Some? {
      return Some(WriteError(failed.value));
    }
    return None;
  }

  /** `closeConn`: hijack and close the connection, writing nothing. */
  method CloseConn(rw: ResponseWriter) returns (err: Option<HandlerError>)
    modifies rw, rw.conn
    ensures rw.replies == old(rw.replies)
    ensures rw.conn.attempts == old(rw.conn.attempts)
    ensures var h := HijackResult(old(rw.hijacked), rw.hijackFailure);
      if h.Some? then
        err == Some(HijackError(h.value)) && rw.hijacked == old(rw.hijacked) && rw.conn.events == old(rw.conn.events)
      else
        err.None? && rw.hijacked && rw.conn.events == old(rw.conn.events) + [Closed]
  {
    var w, hijackErr := rw.Hijack();
    if hijackErr.Some? {
      return Some(HijackError(hijackErr.value));
    }
    rw.conn.Close();
    return None;
  }

  // ---------------------------------------------------------------- the dispatcher

  /** A request as the handler sees it, with the outcome of `httputil.DumpRequest` (an error message, or None). */
  datatype Request = Request(host: string, query: map<string, seq<string>>, dumpError: Option<string>, ctx: Context)

  /** `url.Values.Get`: the first value for `key`, or "" when there is none. */
  function QueryGet(query: map<string, seq<string>>, key: string): string {
    if key in query && |query[key]| > 0 then query[key][0] else ""
  }

  /** The action the request asks for. */
  function Action(req: Request): string {
    QueryGet(req.query, "action")
  }

  /** Without a dump failure, the default document is served exactly when `action` is absent, has no value, or its first value is empty. */
  lemma DefaultServing(req: Request)
    requires req.dumpError.None?
    ensures Route(req.dumpError, Action(req)) == ServeLimerick
        <==> "action" !in req.query || req.query["action"] == [] || req.query["action"][0] == ""
  {
  }

  /** Only the first value of `action` counts: a request with one picks the branch that value names. */
  lemma FirstActionCounts(req: Request, first: string, rest: seq<string>)
    requires req.dumpError.None? && "action" in req.query && req.query["action"] == [first] + rest
    ensures Route(req.dumpError, Action(req)) == Route(None, first)
  {
  }

  const KnownActions: set<string> := {"", "hang", "close", "slow-write"}

  /** The branches of `ServeHTTP`. */
  datatype Branch = BadInput(cause: string) | ServeLimerick | Hang | CloseConnection | WriteSlowly | UnknownAction

  /** The decision table: a dump failure wins; otherwise the action value picks the branch. */
  function Route(dumpError: Option<string>, action: string): (b: Branch)
    ensures dumpError.Some? <==> b.BadInput?
    ensures dumpError.Some? ==> b == BadInput(dumpError.value)
    ensures b == ServeLimerick <==> dumpError.None? && action == ""
    ensures b == Hang <==> dumpError.None? && action == "hang"
    ensures b == CloseConnection <==> dumpError.None? && action == "close"
    ensures b == WriteSlowly <==> dumpError.None? && action == "slow-write"
    ensures b == UnknownAction <==> dumpError.None? && action !in KnownActions
  {
    if dumpError.Some? then BadInput(dumpError.value)
    else if action == "" then ServeLimerick
    else if action == "hang" then Hang
    else if action == "close" then CloseConnection
    else if action == "slow-write" then WriteSlowly
    else UnknownAction
  }

  /**
   What one request leaves behind: replies through the ResponseWriter, whether it was hijacked,
   and the raw connection's events and number of socket writes.
   */
  datatype Outcome = Outcome(replies: seq<Reply>, hijacked: bool, wire: seq<Event>, writes: nat)

  /**
   What `ServeHTTP` does with a fresh ResponseWriter, given what the libraries do: why Hijack
   fails (None when it works) and how many more writes the client accepts (None for all).
   */
  function Serve(req: Request, hijackFailure: Option<string>, budget: Option<nat>): (o: Outcome)
    // only close and slow-write take the raw connection, and only when Hijack works
    ensures o.hijacked <==> hijackFailure.None? && Route(req.dumpError, Action(req)) in {CloseConnection, WriteSlowly}
    // once hijacked, nothing goes through the ResponseWriter; otherwise the raw connection is untouched
    ensures o.hijacked ==> o.replies == []
    ensures !o.hijacked ==> o.wire == [] && o.writes == 0 && |o.replies| == (if Route(req.dumpError, Action(req)) == Hang then 0 else 1)
    // whatever reaches the client over the raw connection is a prefix of the slow response
    ensures Sent(o.wire) <= SlowResponse(req.host)
    ensures req.dumpError.Some? ==> o.replies == [ErrorReply(400, "bad request: " + req.dumpError.value)]
    ensures Route(req.dumpError, Action(req)) == ServeLimerick ==> o.replies == [Content("limeric.txt", Limerick)]
    ensures Route(req.dumpError, Action(req)) == UnknownAction ==> o.replies == [ErrorReply(400, "unknown action")]
    ensures Route(req.dumpError, Action(req)) == CloseConnection ==>
      if hijackFailure.None? then o.wire == [Closed] && o.writes == 0 && Sent(o.wire) == []
      else o.replies == [ErrorReply(500, "can't properly close connection")]
    ensures Route(req.dumpError, Action(req)) == WriteSlowly ==>
      if hijackFailure.None? then
        o.wire == SlowWriteEvents(SlowResponse(req.host), budget)
        && o.writes == LoopAttempts(|SlowResponse(req.host)|, budget)
        && Sent(o.wire) == SlowResponse(req.host)[..Accepted(|SlowResponse(req.host)|, budget)]
      else o.replies == [ErrorReply(500, "can't properly write response")]
  {
    match Route(req.dumpError, Action(req))
    case BadInput(cause) => Outcome([ErrorReply(400, "bad request: " + cause)], false, [], 0)
    case ServeLimerick => Outcome([Content("limeric.txt", Limerick)], false, [], 0)
    case Hang => Outcome([], false, [], 0)
    case CloseConnection =>
      if hijackFailure.Some? then
        Outcome([ErrorReply(500, "can't properly close connection")], false, [], 0)
      else
        SentNoWrites([Closed]);
        Outcome([], true, [Closed], 0)
    case WriteSlowly =>
      if hijackFailure.Some? then Outcome([ErrorReply(500, "can't properly write response")], false, [], 0)
      else
        var resp := SlowResponse(req.host);
        SlowWriteDelivers(resp, budget);
        // a failed write makes ServeHTTP call http.Error, which the hijacked writer drops
        Outcome([], true, SlowWriteEvents(resp, budget), LoopAttempts(|resp|, budget))
    case UnknownAction => Outcome([ErrorReply(400, "unknown action")], false, [], 0)
  }

  /** `service`: the handler, owning the request-id counter. */
  class Service {
    const counter: AtomicInt64

    constructor ()
      ensures fresh(counter) && counter.value == 0
    {
      counter := new AtomicInt64();
    }

    /**
     `ServeHTTP`: takes the next request id into the request's context, then dispatches.
     net/http hands every request a ResponseWriter that has not been hijacked.
     */
    method ServeHTTP(rw: ResponseWriter, req: Request) returns (ctx: Context)
      requires !rw.hijacked
      modifies counter, rw, rw.conn
      ensures counter.value == WrapAdd(old(counter.value), 1)
      ensures ctx == WithValue(req.ctx, RequestIdKey, Int64Val(counter.value))
      ensures var o := Serve(req, rw.hijackFailure, old(rw.conn.Budget()));
        rw.replies == old(rw.replies) + o.replies
        && rw.hijacked == o.hijacked
        && rw.conn.events == old(rw.conn.events) + o.wire
        && rw.conn.attempts == old(rw.conn.attempts) + o.writes
    {
      var id := counter.Add(1);
      ctx := WithValue(req.ctx, RequestIdKey, Int64Val(id));

      if req.dumpError.Some? {
        rw.Error(400, "bad request: " + req.dumpError.value);
        return;
      }

      var action := QueryGet(req.query, "action");
      if action == "" {
        rw.ServeContent("limeric.txt", Limerick);
      } else if action == "hang" {
        // blocks until ctx is done; nothing is written
        return;
      } else if action == "close" {
        var err := CloseConn(rw);
        if err.Some? {
          rw.Error(500, "can't properly close connection");
        }
        return;
      } else if action == "slow-write" {
        var err := SlowWrite(rw, req.host);
        if err.Some? {
          rw.Error(500, "can't properly write response");
        }
      } else {
        rw.Error(400, "unknown action");
      }
    }
  }

  /** The server's `ConnContext` hook, which closes over the connection-id counter `connIDs`. */
  class ConnContextHook {
    const connIDs: AtomicInt64

    constructor ()
      ensures fresh(connIDs) && connIDs.value == 0
    {
      connIDs := new AtomicInt64();
    }

    /** Called once per accepted connection: the next connection id goes into the connection's context. */
    method ConnContext(parent: Context) returns (ctx: Context)
      modifies connIDs
      ensures connIDs.value == WrapAdd(old(connIDs.value), 1)
      ensures ctx == WithValue(parent, ConnIdKey, Int64Val(connIDs.value))
    {
      var id := connIDs.Add(1);
      ctx := WithValue(parent, ConnIdKey, Int64Val(id));
    }
  }

  // ---------------------------------------------------------------- ids over a server's life

  /**
   The request ids of a server's life: one `service` (main.go creates it with a zero counter)
   serves `reqs` one after another, each on its own connection; the `i`-th request's context
   carries the `i + 1`-th value of the counter, which is `i + 1` while it fits in an int64.
   */
  method ServeAll(reqs: seq<Request>) returns (ctxs: seq<Context>)
    ensures |ctxs| == |reqs|
    ensures forall i :: 0 <= i < |reqs| ==> ctxs[i] == WithValue(reqs[i].ctx, RequestIdKey, Int64Val(Issued(i + 1)))
    ensures forall i :: 0 <= i < |reqs| && i < MaxInt64 ==> Int64At(ctxs[i], RequestIdKey) == Some((i + 1) as int64)
  {
    var srv := new Service();
    ctxs := [];
    for i := 0 to |reqs|
      invariant srv.counter.value == Issued(i)
      invariant |ctxs| == i
      invariant forall j :: 0 <= j < i ==> ctxs[j] == WithValue(reqs[j].ctx, RequestIdKey, Int64Val(Issued(j + 1)))
    {
      var conn := new Conn(None);
      var rw := new ResponseWriter(conn, None);
      var ctx := srv.ServeHTTP(rw, reqs[i]);
      ctxs := ctxs + [ctx];
    }
    forall i | 0 <= i < |reqs| && i < MaxInt64
      ensures Int64At(ctxs[i], RequestIdKey) == Some((i + 1) as int64)
    {
      IssuedCounts(i + 1);
    }
  }

  /**
   The connection ids of a server's life: the `ConnContext` hook runs once per accepted
   connection, whose base contexts are `parents`; the `i`-th connection's context carries
   the `i + 1`-th value of `connIDs`, which is `i + 1` while it fits in an int64.
   */
  method AcceptAll(parents: seq<Context>) returns (ctxs: seq<Context>)
    ensures |ctxs| == |parents|
    ensures forall i :: 0 <= i < |parents| ==> ctxs[i] == WithValue(parents[i], ConnIdKey, Int64Val(Issued(i + 1)))
    ensures forall i :: 0 <= i < |parents| && i < MaxInt64 ==> Int64At(ctxs[i], ConnIdKey) == Some((i + 1) as int64)
  {
    var hook := new ConnContextHook();
    ctxs := [];
    for i := 0 to |parents|
      invariant hook.connIDs.value == Issued(i)
      invariant |ctxs| == i
      invariant forall j :: 0 <= j < i ==> ctxs[j] == WithValue(parents[j], ConnIdKey, Int64Val(Issued(j + 1)))
    {
      var ctx := hook.ConnContext(parents[i]);
      ctxs := ctxs + [ctx];
    }
    forall i | 0 <= i < |parents| && i < MaxInt64
      ensures Int64At(ctxs[i], ConnIdKey) == Some((i + 1) as int64)
    {
      IssuedCounts(i + 1);
    }
  }
}
