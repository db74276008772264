/** The dynamically typed values that flow through channels, and the
    exceptions the engine can raise. */
module Values {
  import opened Wrappers

  /** A Python value as far as the engine inspects it. Dictionary keys are
      values too, so the keyless subscription dict `{None: v}` is
      representable; entries keep insertion order, as Python dicts do. */
  datatype Value =
    | VNone
    | VBool(b: bool)
    | VInt(i: int)
    | VStr(s: string)
    | VList(items: seq<Value>)
    | VTuple(items: seq<Value>)
    | VDict(entries: seq<(Value, Value)>)

  /** The exceptions raised by the core. `TaskError` stands for whatever a
      process raised while it ran. */
  datatype Error =
    | ValueError(msg: string)
    | InvalidUpdateError
    | EmptyChannelError
    | KeyError(key: string)
    | TypeError(msg: string)
    | RuntimeError(msg: string)
    | TaskError(msg: string)

  /** The dict key of an optional subscription key: `None` or the string. */
  function KeyValue(key: Option<string>): (v: Value)
    ensures key.None? <==> v == VNone
    ensures key.Some? ==> v == VStr(key.value)
  {
    match key
    case None => VNone
    case Some(k) => VStr(k)
  }

  /** What `for v in value` iterates over: the items of a list or tuple, the
      one-character strings of a string, the keys of a dict; anything else
      raises TypeError. */
  function Iterate(v: Value): (r: Result<seq<Value>, Error>)
    ensures (v.VList? || v.VTuple?) ==> r == Success(v.items)
    ensures v.VStr? ==> r.Success? && |r.value| == |v.s|
                        && forall i | 0 <= i < |v.s| :: r.value[i] == VStr([v.s[i]])
    ensures v.VDict? ==> r.Success? && |r.value| == |v.entries|
                         && forall i | 0 <= i < |v.entries| :: r.value[i] == v.entries[i].0
    ensures r.Failure? <==> (v.VNone? || v.VBool? || v.VInt?)
  {
    match v
    case VList(items) => Success(items)
    case VTuple(items) => Success(items)
    case VStr(s) => Success(seq(|s|, i requires 0 <= i < |s| => VStr([s[i]])))
    case VDict(entries) => Success(seq(|entries|, i requires 0 <= i < |entries| => entries[i].0))
    case _ => Failure(TypeError("object is not iterable"))
  }
}
