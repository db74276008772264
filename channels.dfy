/** The channel abstraction: a channel receives, once per step, the list of
    values written to it (`update`) and can be read (`get`), which raises
    EmptyChannelError when it holds nothing. Two variants are modelled. */
module Channels {
  import opened Wrappers
  import opened Values

  /** `LastValue` keeps the one value of the last step that wrote it.
      `Inbox` keeps the batch of the last step; `None` until the first update. */
  datatype Channel =
    | LastValue(current: Option<Value>)
    | Inbox(batch: Option<seq<Value>>)

  datatype ChannelKind = LastValueKind | InboxKind

  function KindOf(ch: Channel): ChannelKind {
    match ch
    case LastValue(_) => LastValueKind
    case Inbox(_) => InboxKind
  }

  /** `channel.get()`: the value, or EmptyChannelError. An inbox yields the
      tuple of values of its last update. */
  function Get(ch: Channel): Result<Value, Error> {
    match ch
    case LastValue(None) => Failure(EmptyChannelError)
    case LastValue(Some(v)) => Success(v)
    case Inbox(None) => Failure(EmptyChannelError)
    case Inbox(Some(b)) => Success(VTuple(b))
  }

  /** A fresh channel of the given kind, as a new invocation creates it. */
  function Empty(kind: ChannelKind): (ch: Channel)
    ensures KindOf(ch) == kind
    ensures Get(ch) == Failure(EmptyChannelError)
  {
    match kind
    case LastValueKind => LastValue(None)
    case InboxKind => Inbox(None)
  }

  /** A LastValue channel refuses more than one value in a step. */
  predicate Rejects(ch: Channel, vals: seq<Value>) {
    ch.LastValue? && |vals| > 1
  }

  /** The channel after an accepted `update(vals)`. */
  function Updated(ch: Channel, vals: seq<Value>): (r: Channel)
    requires !Rejects(ch, vals)
    ensures KindOf(r) == KindOf(ch)
    ensures ch.Inbox? ==> Get(r) == Success(VTuple(vals))
    ensures ch.LastValue? && |vals| == 1 ==> Get(r) == Success(vals[0])
    ensures ch.LastValue? && vals == [] ==> Get(r) == Get(ch)
  {
    match ch
    case LastValue(_) => if vals == [] then ch else LastValue(Some(vals[0]))
    case Inbox(_) => Inbox(Some(vals))
  }

  /** `channel.update(vals)`: InvalidUpdateError exactly when rejected. */
  function Update(ch: Channel, vals: seq<Value>): (r: Result<Channel, Error>)
    ensures r.Failure? <==> Rejects(ch, vals)
    ensures r.Failure? ==> r.error == InvalidUpdateError
    ensures r.Success? ==> r.value == Updated(ch, vals)
  {
    if Rejects(ch, vals) then Failure(InvalidUpdateError) else Success(Updated(ch, vals))
  }
}
