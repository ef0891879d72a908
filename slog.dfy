/**
 The log-record decorator of log.go: `slogMeta` wraps a `slog.Handler` and, before
 forwarding each record, appends the request id and the connection id it finds in the
 record's context.
 */
module Slog {
  import opened Wrappers
  import opened Atomic
  import opened Context

  /** An attribute value; only the int64 kind matters here, other values are carried as text. */
  datatype AttrValue = Int64Value(i: int64) | StringValue(s: string) | OtherValue(text: string)

  datatype Attr = Attr(key: string, value: AttrValue)

  /** A `slog.Record`: its message, level and attributes in the order they were added (time and caller left out). */
  datatype Record = Record(message: string, level: int, attrs: seq<Attr>) {
    /** `record.Add(key, value)` with one key and an int64 value: appends one attribute. */
    function Add(key: string, value: AttrValue): Record {
      Record(message, level, attrs + [Attr(key, value)])
    }
  }

  /** The value of the first attribute with key `key`, if any. */
  function Find(attrs: seq<Attr>, key: string): (r: Option<AttrValue>)
    ensures r.None? <==> forall i :: 0 <= i < |attrs| ==> attrs[i].key != key
    ensures r.Some? ==> exists i :: 0 <= i < |attrs| && attrs[i] == Attr(key, r.value)
  {
    if attrs == [] then None
    else if attrs[0].key == key then Some(attrs[0].value)
    else match Find(attrs[1..], key)
      case None => None
      case Some(v) => assert attrs[1..][0] == attrs[1]; Some(v)
  }

  /** Finding in a list extended at the end looks in the extension only when the list lacks the key. */
  lemma {:induction false} FindAppend(a: seq<Attr>, b: seq<Attr>, key: string)
    ensures Find(a + b, key) == if Find(a, key).Some? then Find(a, key) else Find(b, key)
  {
    if a != [] {
      assert (a + b)[1..] == a[1..] + b;
      FindAppend(a[1..], b, key);
    } else {
      assert a + b == b;
    }
  }

  /**
   The record `slogMeta.Handle` forwards: `request_id` appended when the context holds an
   int64 under the request-id key, then `conn_id` likewise for the connection-id key.
   */
  function WithIds(ctx: Context, record: Record): (r: Record)
    ensures r.message == record.message && r.level == record.level
    // the record's own attributes come first, unchanged
    ensures |record.attrs| <= |r.attrs| && r.attrs[..|record.attrs|] == record.attrs
    // one attribute per id found, and no other
    ensures |r.attrs| == |record.attrs| + (if Int64At(ctx, RequestIdKey).Some? then 1 else 0)
                                        + (if Int64At(ctx, ConnIdKey).Some? then 1 else 0)
    ensures Int64At(ctx, RequestIdKey).Some? ==>
      r.attrs[|record.attrs|] == Attr("request_id", Int64Value(Int64At(ctx, RequestIdKey).value))
    ensures Int64At(ctx, ConnIdKey).Some? ==>
      r.attrs[|r.attrs| - 1] == Attr("conn_id", Int64Value(Int64At(ctx, ConnIdKey).value))
  {
    var withRequest :=
      match Int64At(ctx, RequestIdKey)
      case Some(id) => record.Add("request_id", Int64Value(id))
      case None => record;
    match Int64At(ctx, ConnIdKey)
    case Some(id) => withRequest.Add("conn_id", Int64Value(id))
    case None => withRequest
  }

  /** The attributes `Handle` appends for the ids in `ctx`, in order. */
  function IdAttrs(ctx: Context): seq<Attr> {
    (match Int64At(ctx, RequestIdKey) case Some(id) => [Attr("request_id", Int64Value(id))] case None => [])
    + (match Int64At(ctx, ConnIdKey) case Some(id) => [Attr("conn_id", Int64Value(id))] case None => [])
  }

  /** Decorating appends exactly the id attributes. */
  lemma WithIdsAppends(ctx: Context, record: Record)
    ensures WithIds(ctx, record).attrs == record.attrs + IdAttrs(ctx)
  {
  }

  /** Finding the ids among the appended attributes. */
  lemma FindIdAttrs(ctx: Context)
    ensures Find(IdAttrs(ctx), "request_id") == (match Int64At(ctx, RequestIdKey) case Some(id) => Some(Int64Value(id)) case None => None)
    ensures Find(IdAttrs(ctx), "conn_id") == (match Int64At(ctx, ConnIdKey) case Some(id) => Some(Int64Value(id)) case None => None)
  {
  }

  /**
   A record without its own `request_id` carries one after decoration exactly when the
   context holds an int64 request id, and then with that value; likewise `conn_id`.
   */
  lemma IdsFound(ctx: Context, record: Record)
    requires Find(record.attrs, "request_id").None? && Find(record.attrs, "conn_id").None?
    ensures Find(WithIds(ctx, record).attrs, "request_id") ==
      (match Int64At(ctx, RequestIdKey) case Some(id) => Some(Int64Value(id)) case None => None)
    ensures Find(WithIds(ctx, record).attrs, "conn_id") ==
      (match Int64At(ctx, ConnIdKey) case Some(id) => Some(Int64Value(id)) case None => None)
  {
    WithIdsAppends(ctx, record);
    FindAppend(record.attrs, IdAttrs(ctx), "request_id");
    FindAppend(record.attrs, IdAttrs(ctx), "conn_id");
    FindIdAttrs(ctx);
  }

  /**
   A log record made while serving a request, whose context is the connection's context
   (`ConnContext`), then whatever layers net/http adds that do not bind the connection-id key,
   then the request id on top (`ServeHTTP`), ends with `request_id` and then `conn_id`,
   carrying the two ids.
   */
  lemma {:induction false} RequestRecordIds(parent: Context, connId: int64, layers: seq<(Key, Dyn)>, requestId: int64, record: Record)
    requires forall i :: 0 <= i < |layers| ==> layers[i].0 != ConnIdKey
    ensures var ctx := WithValue(Stack(WithValue(parent, ConnIdKey, Int64Val(connId)), layers), RequestIdKey, Int64Val(requestId));
      WithIds(ctx, record).attrs == record.attrs + [Attr("request_id", Int64Value(requestId)), Attr("conn_id", Int64Value(connId))]
  {
    var conn := WithValue(parent, ConnIdKey, Int64Val(connId));
    var ctx := WithValue(Stack(conn, layers), RequestIdKey, Int64Val(requestId));
    assert Int64At(ctx, ConnIdKey) == Some(connId) by {
      ValueThroughLayers(conn, layers, ConnIdKey);
    }
    assert IdAttrs(ctx) == [Attr("request_id", Int64Value(requestId)), Attr("conn_id", Int64Value(connId))];
    WithIdsAppends(ctx, record);
  }

  /**
   The wrapped handler: it records what it is given, and its error (None for success) is
   some function of the context and the record, which the decorator does not see into.
   */
  class Handler {
    const answer: (Context, Record) -> Option<string>
    var handled: seq<(Context, Record)>

    constructor (answer: (Context, Record) -> Option<string>)
      ensures this.answer == answer && handled == []
    {
      this.answer := answer;
      handled := [];
    }

    method Handle(ctx: Context, record: Record) returns (err: Option<string>)
      modifies this
      ensures handled == old(handled) + [(ctx, record)]
      ensures err == answer(ctx, record)
    {
      handled := handled + [(ctx, record)];
      err := answer(ctx, record);
    }
  }

  /** `slogMeta`, embedding the handler it decorates. */
  class SlogMeta {
    const inner: Handler

    constructor (inner: Handler)
      ensures this.inner == inner
    {
      this.inner := inner;
    }

    /** `Handle`: adds the ids found in `ctx`, then forwards to the wrapped handler with the same context and returns its error. */
    method Handle(ctx: Context, record: Record) returns (err: Option<string>)
      modifies inner
      ensures inner.handled == old(inner.handled) + [(ctx, WithIds(ctx, record))]
      ensures err == inner.answer(ctx, WithIds(ctx, record))
    {
      var rec := record;
      var reqId := Int64At(ctx, RequestIdKey);
      if reqId.Some? {
        rec := rec.Add("request_id", Int64Value(reqId.value));
      }
      var connId := Int64At(ctx, ConnIdKey);
      if connId.Some? {
        rec := rec.Add("conn_id", Int64Value(connId.value));
      }
      err := inner.Handle(ctx, rec);
    }
  }
}
