/** The declarative builders of `Channel`: a subscription becomes a process
    description (`ChannelInvoke` / `ChannelBatch`), a write target list
    becomes a `ChannelWrite`. */
module Builders {
  import opened Wrappers
  import opened Values
  import opened Seqs

  /** `subscribe_to` accepts one channel name or a sequence of them. */
  datatype Subscription = One(name: string) | Many(names: seq<string>)

  /** A process as the scheduler sees it. `ChannelInvoke.channels` is the
      mapping from dict key to channel name (key `None` for the keyless
      single subscription); `ChannelBatch` is `subscribe_to_each`. */
  datatype Process =
    | ChannelInvoke(channels: seq<(Option<string>, string)>, triggers: seq<string>)
    | ChannelBatch(channel: string, key: Option<string>)

  function Keys(m: seq<(Option<string>, string)>): seq<Option<string>> {
    seq(|m|, i requires 0 <= i < |m| => m[i].0)
  }

  /** The identity mapping `{c: c for c in cs}`: one entry per distinct
      channel, in first-occurrence order. */
  function IdentityMapping(cs: seq<string>): (m: seq<(Option<string>, string)>)
    ensures |m| == |Dedup(cs)|
    ensures forall i | 0 <= i < |m| :: m[i] == (Some(Dedup(cs)[i]), Dedup(cs)[i])
  {
    var d := Dedup(cs);
    seq(|d|, i requires 0 <= i < |d| => (Some(d[i]), d[i]))
  }

  /** `Channel.subscribe_to(channels, key)`. */
  function SubscribeTo(channels: Subscription, key: Option<string>): (r: Result<Process, Error>)
    ensures r.Failure? <==> channels.Many? && key.Some?
    ensures r.Failure? ==> r.error.ValueError?
    ensures r.Success? ==> r.value.ChannelInvoke? && Distinct(Keys(r.value.channels))
    ensures channels.One? ==>
              r == Success(ChannelInvoke([(key, channels.name)], [channels.name]))
    ensures channels.Many? && r.Success? ==>
              && r.value.triggers == channels.names
              && r.value.channels == IdentityMapping(channels.names)
              && (forall e | e in r.value.channels :: e.0 == Some(e.1))
              && (forall c :: c in channels.names <==> (Some(c), c) in r.value.channels)
  {
    match channels
    case One(c) => Success(ChannelInvoke([(key, c)], [c]))
    case Many(cs) =>
      if key.Some? then Failure(ValueError("Can't specify a key when subscribing to multiple channels"))
      else
        var m := IdentityMapping(cs);
        assert Keys(m) == seq(|m|, i requires 0 <= i < |m| => Some(Dedup(cs)[i]));
        assert forall c :: c in cs ==> (Some(c), c) in m by {
          forall c | c in cs ensures (Some(c), c) in m {
            var i :| 0 <= i < |Dedup(cs)| && Dedup(cs)[i] == c;
            assert m[i] == (Some(c), c);
          }
        }
        Success(ChannelInvoke(m, cs))
  }

  /** What a keyword write target may be: a callable (function or runnable)
      mapping the process output to the value written, or any other value. */
  datatype WriteValue = Constant(v: Value) | Callable(f: Value -> Value)

  /** `m` behaves as the write value `w` says: it returns the constant for
      every input, or agrees with the callable on every input. */
  ghost predicate Behaves(m: Value -> Value, w: WriteValue) {
    match w
    case Constant(v) => forall x :: m(x) == v
    case Callable(f) => forall x :: m(x) == f(x)
  }

  /** `_coerce_write_value`: a non-callable value becomes the constant
      function returning it; a callable is kept. */
  function CoerceWriteValue(w: WriteValue): (m: Value -> Value)
    ensures Behaves(m, w)
  {
    match w
    case Constant(v) => (_ => v)
    case Callable(f) => f
  }

  /** A write specification: target channel and optional mapper. */
  datatype ChannelWrite = ChannelWrite(channels: seq<(string, Option<Value -> Value>)>)

  /** `Channel.write_to(*channels, **kwargs)`; `kwargs` in keyword order. */
  function WriteTo(channels: seq<string>, kwargs: seq<(string, WriteValue)>): (r: ChannelWrite)
    ensures |r.channels| == |channels| + |kwargs|
    ensures forall i | 0 <= i < |channels| ::
              r.channels[i].0 == channels[i] && r.channels[i].1 == None
    ensures forall i | 0 <= i < |kwargs| ::
              && r.channels[|channels| + i].0 == kwargs[i].0
              && r.channels[|channels| + i].1.Some?
              && Behaves(r.channels[|channels| + i].1.value, kwargs[i].1)
  {
    ChannelWrite(
      seq(|channels|, i requires 0 <= i < |channels| => (channels[i], None))
      + seq(|kwargs|, i requires 0 <= i < |kwargs| => (kwargs[i].0, Some(CoerceWriteValue(kwargs[i].1)))))
  }
}
