/**
 The parts of Go's net/http, net, bufio and bytes/strings packages that main.go drives,
 as opaque collaborators: the client connection (whose socket writes may fail from some
 write on), the buffered writer over it, the ResponseWriter with its Hijack escape hatch,
 and an in-memory string buffer. Only their observable effects are modelled.
 */
module NetHttp {
  import opened Wrappers

  /**
   What happens on a client connection, in order. The handler's `time.Sleep` calls are
   logged here too, so that the pacing of writes can be stated; their duration is a
   number, not elapsed time.
   */
  datatype Event =
    | Slept(ms: nat)                 // the handler slept this long
    | Buffered(b: char)              // `w.Write`: one byte copied into the bufio buffer
    | WriteRefused(b: char)          // `w.Write` returned the writer's sticky error; nothing buffered
    | Transmitted(data: string)      // a flush wrote these bytes to the socket
    | TransmitFailed(data: string)   // a flush's socket write failed: these bytes are not delivered
    | Closed                         // the connection was closed

  /** The bytes the client receives: those of the successful socket writes, in order. */
  function Sent(events: seq<Event>): string {
    if events == [] then []
    else Sent(events[..|events| - 1]) + (match events[|events| - 1] case Transmitted(d) => d case _ => [])
  }

  /** What a client gets from a log appended to another. */
  lemma {:induction false} SentAppend(a: seq<Event>, b: seq<Event>)
    ensures Sent(a + b) == Sent(a) + Sent(b)
    decreases |b|
  {
    if b != [] {
      var b' := b[..|b| - 1];
      assert (a + b)[..|a + b| - 1] == a + b';
      SentAppend(a, b');
    } else {
      assert a + b == a;
    }
  }

  /** A log with no successful socket write delivers nothing. */
  lemma {:induction false} SentNoWrites(events: seq<Event>)
    requires forall i :: 0 <= i < |events| ==> !events[i].Transmitted?
    ensures Sent(events) == []
  {
    if events != [] {
      SentNoWrites(events[..|events| - 1]);
    }
  }

  /**
   A client connection (the `net.Conn` that `Hijack` hands over). Socket writes are numbered
   from 0 at the hijack; replies that went through the ResponseWriter before are not counted.
   */
  class Conn {
    /** The first socket write the peer does not accept (it went away), or None if it accepts them all; every later one fails too. */
    const failAt: Option<nat>
    var attempts: nat
    var events: seq<Event>

    constructor (failAt: Option<nat>)
      ensures this.failAt == failAt && attempts == 0 && events == []
    {
      this.failAt := failAt;
      attempts := 0;
      events := [];
    }

    /** Whether socket write number `i` succeeds. */
    predicate Accepts(i: nat) {
      failAt.None? || i < failAt.value
    }

    /** How many further socket writes will succeed; None for no limit. */
    function Budget(): (r: Option<nat>)
      reads this
      ensures r.None? <==> failAt.None?
      ensures forall j: nat :: attempts <= j ==> (Accepts(j) <==> r.None? || j - attempts < r.value)
    {
      if failAt.None? then None
      else Some(if attempts <= failAt.value then failAt.value - attempts else 0)
    }

    /** One write of `data` to the socket. */
    method Write(data: string) returns (ok: bool)
      modifies this
      ensures ok == Accepts(old(attempts))
      ensures attempts == old(attempts) + 1
      ensures events == old(events) + [if ok then Transmitted(data) else TransmitFailed(data)]
    {
      ok := Accepts(attempts);
      attempts := attempts + 1;
      events := events + [if ok then Transmitted(data) else TransmitFailed(data)];
    }

    method Close()
      modifies this`events
      ensures events == old(events) + [Closed]
    {
      events := events + [Closed];
    }

    /** `time.Sleep(ms)` by the handler that holds this connection. */
    method Sleep(ms: nat)
      modifies this`events
      ensures events == old(events) + [Slept(ms)]
    {
      events := events + [Slept(ms)];
    }
  }

  /**
   The `bufio.Writer` over the connection that `Hijack` returns: writes go into its buffer,
   a flush sends the buffer to the socket, and once a flush has failed the writer keeps that
   error and refuses every later write and flush.
   */
  class BufWriter {
    const conn: Conn
    var buffered: string
    var broken: bool

    constructor (conn: Conn)
      ensures this.conn == conn && buffered == [] && !broken
    {
      this.conn := conn;
      buffered := [];
      broken := false;
    }

    /** `Write` of one byte: buffered, unless an earlier flush failed. */
    method Write(b: char) returns (ok: bool)
      modifies this`buffered, conn`events
      ensures ok == !broken
      ensures buffered == if ok then old(buffered) + [b] else old(buffered)
      ensures conn.events == old(conn.events) + [if ok then Buffered(b) else WriteRefused(b)]
    {
      ok := !broken;
      if ok {
        buffered := buffered + [b];
      }
      conn.events := conn.events + [if ok then Buffered(b) else WriteRefused(b)];
    }

    /** `Flush`: the stored error if there is one; nothing to do on an empty buffer; else one socket write of the buffer. */
    method Flush() returns (ok: bool)
      modifies this, conn
      ensures old(broken) ==>
        && !ok && broken && buffered == old(buffered)
        && conn.events == old(conn.events) && conn.attempts == old(conn.attempts)
      ensures !old(broken) && old(buffered) == [] ==>
        && ok && !broken && buffered == []
        && conn.events == old(conn.events) && conn.attempts == old(conn.attempts)
      ensures !old(broken) && old(buffered) != [] ==>
        && ok == conn.Accepts(old(conn.attempts))
        && conn.attempts == old(conn.attempts) + 1
        && conn.events == old(conn.events) + [if ok then Transmitted(old(buffered)) else TransmitFailed(old(buffered))]
        && buffered == (if ok then [] else old(buffered))
        && broken == !ok
    {
      if broken {
        return false;
      }
      if buffered == [] {
        return true;
      }
      ok := conn.Write(buffered);
      if ok {
        buffered := [];
      } else {
        broken := true;
      }
    }
  }

  /** What a handler sends through the ResponseWriter abstraction. */
  datatype Reply =
    | Content(name: string, body: string)   // http.ServeContent of a named document
    | ErrorReply(status: nat, text: string) // http.Error with a status code and message

  /** The text of net/http's ErrHijacked. */
  const ErrHijacked: string := "http: connection has been hijacked"

  /** The outcome of `Hijack` on a writer: it fails once the writer has been hijacked, or for the writer's own reason. */
  function HijackResult(hijacked: bool, failure: Option<string>): (r: Option<string>)
    ensures hijacked ==> r.Some?
    ensures r.None? <==> !hijacked && failure.None?
  {
    if hijacked then Some(ErrHijacked) else failure
  }

  /** An http.ResponseWriter for one request on `conn`. */
  class ResponseWriter {
    const conn: Conn
    /** Why `Hijack` fails on this writer (it does not support hijacking, say); None if it succeeds. */
    const hijackFailure: Option<string>
    var hijacked: bool
    var replies: seq<Reply>

    constructor (conn: Conn, hijackFailure: Option<string>)
      ensures this.conn == conn && this.hijackFailure == hijackFailure
      ensures !hijacked && replies == []
    {
      this.conn := conn;
      this.hijackFailure := hijackFailure;
      hijacked := false;
      replies := [];
    }

    /**
     `http.NewResponseController(rw).Hijack()`: on success the handler owns `conn`, gets a
     fresh buffered writer over it, and the ResponseWriter is done.
     */
    method Hijack() returns (w: BufWriter?, err: Option<string>)
      modifies this`hijacked
      ensures err == HijackResult(old(hijacked), hijackFailure)
      ensures hijacked == (old(hijacked) || err.None?)
      ensures err.None? <==> w != null
      ensures w != null ==> fresh(w) && w.conn == conn && w.buffered == [] && !w.broken
    {
      err := HijackResult(hijacked, hijackFailure);
      if err.None? {
        hijacked := true;
        w := new BufWriter(conn);
      } else {
        w := null;
      }
    }

    /** `http.Error`: after a hijack net/http refuses to write, so nothing reaches the client. */
    method Error(status: nat, text: string)
      modifies this`replies
      ensures replies == if hijacked then old(replies) else old(replies) + [ErrorReply(status, text)]
    {
      if !hijacked {
        replies := replies + [ErrorReply(status, text)];
      }
    }

    /** `http.ServeContent` of a fixed document. */
    method ServeContent(name: string, body: string)
      modifies this`replies
      ensures replies == if hijacked then old(replies) else old(replies) + [Content(name, body)]
    {
      if !hijacked {
        replies := replies + [Content(name, body)];
      }
    }
  }

  /** A `bytes.Buffer` or `strings.Builder` seen as an `io.StringWriter`. */
  class StringBuffer {
    var contents: string

    constructor ()
      ensures contents == []
    {
      contents := [];
    }

    method WriteString(s: string)
      modifies this
      ensures contents == old(contents) + s
    {
      contents := contents + s;
    }
  }
}
