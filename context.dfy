/**
 Go's `context.Context` as far as main.go and log.go use it: a chain of
 `context.WithValue` layers looked up innermost first. Values are Go `any`
 values, of which only the dynamic type int64 matters here.
 */
module Context {
  import opened Wrappers
  import opened Atomic

  /** Context keys: the two key types of log.go, and the keys other code (net/http itself) stores. */
  datatype Key = RequestIdKey | ConnIdKey | OtherKey(name: string)

  /** A Go `any` value stored in a context, tagged with its dynamic type. */
  datatype Dyn = Int64Val(i: int64) | IntVal(n: int) | StringVal(s: string)

  datatype Context = Background | WithValue(parent: Context, key: Key, val: Dyn)

  /** The keys bound anywhere in the chain. */
  function Keys(ctx: Context): set<Key> {
    match ctx
    case Background => {}
    case WithValue(p, k, _) => Keys(p) + {k}
  }

  /** `ctx.Value(key)`: the value of the innermost layer with that key; None stands for Go's nil. */
  function Value(ctx: Context, key: Key): (r: Option<Dyn>)
    ensures r.None? <==> key !in Keys(ctx)
    ensures ctx.WithValue? && ctx.key == key ==> r == Some(ctx.val)
    ensures ctx.WithValue? && ctx.key != key ==> r == Value(ctx.parent, key)
  {
    match ctx
    case Background => None
    case WithValue(p, k, v) => if k == key then Some(v) else Value(p, key)
  }

  /** `ctx` with `layers` of `context.WithValue` on top, the last one outermost. */
  function Stack(ctx: Context, layers: seq<(Key, Dyn)>): Context {
    if layers == [] then ctx
    else WithValue(Stack(ctx, layers[..|layers| - 1]), layers[|layers| - 1].0, layers[|layers| - 1].1)
  }

  /** Layers that do not bind `key` leave its value as it is underneath them. */
  lemma {:induction false} ValueThroughLayers(ctx: Context, layers: seq<(Key, Dyn)>, key: Key)
    requires forall i :: 0 <= i < |layers| ==> layers[i].0 != key
    ensures Value(Stack(ctx, layers), key) == Value(ctx, key)
  {
    if layers != [] {
      ValueThroughLayers(ctx, layers[..|layers| - 1], key);
    }
  }

  /** `ctx.Value(key).(int64)` in its comma-ok form: a value of any other type, or none, gives not-ok. */
  function Int64At(ctx: Context, key: Key): (r: Option<int64>)
    ensures r.Some? <==> Value(ctx, key).Some? && Value(ctx, key).value.Int64Val?
    ensures r.Some? ==> Value(ctx, key) == Some(Int64Val(r.value))
  {
    match Value(ctx, key)
    case Some(Int64Val(i)) => Some(i)
    case _ => None
  }
}
