/** The barrier commit of one superstep (`_apply_writes`): buffered writes
    are grouped by channel, each declared channel receives one `update`, and
    the version of every channel that received writes rises by one. */
module Writes {
  import opened Wrappers
  import opened Values
  import opened Channels
  import opened Seqs

  /** A buffered write: target channel name and value. */
  type Write = (string, Value)

  /** The one reserved channel name; processes may not write to it. */
  const IS_LAST_STEP: string := "is_last_step"
  const RESERVED: set<string> := {IS_LAST_STEP}

  /** A channel's version in `checkpoint["versions"]`, a defaultdict(int). */
  function Ver(versions: map<string, int>, c: string): int {
    if c in versions then versions[c] else 0
  }

  /** The values written to `c`, in submission order. */
  function ValuesFor(writes: seq<Write>, c: string): seq<Value>
    decreases |writes|
  {
    if writes == [] then []
    else
      var last := writes[|writes| - 1];
      ValuesFor(writes[..|writes| - 1], c) + (if last.0 == c then [last.1] else [])
  }

  function Names(writes: seq<Write>): seq<string> {
    seq(|writes|, i requires 0 <= i < |writes| => writes[i].0)
  }

  predicate NoReserved(writes: seq<Write>) {
    forall i | 0 <= i < |writes| :: writes[i].0 !in RESERVED
  }

  /** The reserved entry committed at every barrier. */
  function LastStepWrite(forStep: int, limit: int): Write {
    (IS_LAST_STEP, VBool(forStep + 1 == limit))
  }

  datatype Committed = Committed(channels: map<string, Channel>, versions: map<string, int>)

  /** Some declared channel refuses the values grouped for it. */
  ghost predicate AnyRejects(channels: map<string, Channel>, all: seq<Write>) {
    exists c | c in channels :: Rejects(channels[c], ValuesFor(all, c))
  }

  /** Every declared channel after its one `update`. */
  ghost function UpdatedChannels(channels: map<string, Channel>, all: seq<Write>): (r: map<string, Channel>)
    requires !AnyRejects(channels, all)
    ensures r.Keys == channels.Keys
    ensures forall c | c in r :: r[c] == Updated(channels[c], ValuesFor(all, c))
  {
    map c | c in channels :: Updated(channels[c], ValuesFor(all, c))
  }

  /** The versions after bumping every declared channel that was written. */
  ghost function BumpedVersions(channels: map<string, Channel>, versions: map<string, int>,
                                all: seq<Write>): (r: map<string, int>)
    ensures forall c :: Ver(r, c) == if c in channels && ValuesFor(all, c) != [] then Ver(versions, c) + 1
                                     else Ver(versions, c)
  {
    versions + map c | c in channels && ValuesFor(all, c) != [] :: Ver(versions, c) + 1
  }

  /** The state after committing `writes` at the barrier before step
      `forStep`, or the exception the commit raises. */
  ghost function Commit(channels: map<string, Channel>, versions: map<string, int>,
                        writes: seq<Write>, forStep: int, limit: int): Result<Committed, Error>
  {
    if !NoReserved(writes) then Failure(ValueError("Can't write to reserved channel " + IS_LAST_STEP))
    else
      var all := writes + [LastStepWrite(forStep, limit)];
      if AnyRejects(channels, all) then Failure(InvalidUpdateError)
      else Success(Committed(UpdatedChannels(channels, all), BumpedVersions(channels, versions, all)))
  }

  /** The list `pending_writes_by_channel[c]` (a defaultdict(list)). */
  function Group(grouped: map<string, seq<Value>>, c: string): seq<Value> {
    if c in grouped then grouped[c] else []
  }

  /** `pending_writes_by_channel[w.0].append(w.1)`. */
  function Appended(grouped: map<string, seq<Value>>, w: Write): map<string, seq<Value>> {
    grouped[w.0 := Group(grouped, w.0) + [w.1]]
  }

  /** After the first `i` writes, `order` and `grouped` are what the
      grouping loop has built. */
  ghost predicate Grouping(writes: seq<Write>, i: nat, order: seq<string>, grouped: map<string, seq<Value>>)
    requires i <= |writes|
  {
    && NoReserved(writes[..i])
    && order == Dedup(Names(writes[..i]))
    && (forall c :: c in grouped <==> c in order)
    && (forall c :: Group(grouped, c) == ValuesFor(writes[..i], c))
  }

  /** The grouping loop of `_apply_writes`: `order` is the dict's key order,
      `grouped[c]` the list appended for `c`; stops at a reserved name. */
  method GroupByChannel(writes: seq<Write>)
    returns (order: seq<string>, grouped: map<string, seq<Value>>, reserved: Option<string>)
    ensures reserved.Some? <==> !NoReserved(writes)
    ensures reserved.Some? ==> reserved.value in RESERVED
    ensures reserved.None? ==> order == Dedup(Names(writes))
    ensures reserved.None? ==> forall c :: c in grouped <==> c in order
    ensures reserved.None? ==> forall c :: Group(grouped, c) == ValuesFor(writes, c)
  {
    order, grouped := [], map[];
    for i := 0 to |writes|
      invariant Grouping(writes, i, order, grouped)
    {
      var (chan, val) := writes[i];
      if chan in RESERVED {
        assert !NoReserved(writes);
        return order, grouped, Some(chan);
      }
      GroupingStep(writes, i, order, grouped);
      if chan !in grouped {
        order := order + [chan];
      }
      grouped := Appended(grouped, writes[i]);
    }
    assert writes[..|writes|] == writes;
    reserved := None;
  }

  lemma GroupingStep(writes: seq<Write>, i: nat, order: seq<string>, grouped: map<string, seq<Value>>)
    requires i < |writes| && writes[i].0 !in RESERVED
    requires Grouping(writes, i, order, grouped)
    ensures Grouping(writes, i + 1, if writes[i].0 in grouped then order else order + [writes[i].0],
                     Appended(grouped, writes[i]))
  {
    var w := writes[i];
    var order' := if w.0 in grouped then order else order + [w.0];
    var grouped' := Appended(grouped, w);
    assert writes[..i + 1] == writes[..i] + [w];
    var pre := writes[..i + 1];
    assert NoReserved(pre) by {
      forall j | 0 <= j < |pre| ensures pre[j].0 !in RESERVED {
        if j < i { assert pre[j] == writes[..i][j]; }
      }
    }
    assert order' == Dedup(Names(writes[..i + 1])) by {
      DedupStep(writes, i);
    }
    assert forall c :: c in grouped' <==> c in order';
    assert forall c :: Group(grouped', c) == ValuesFor(writes[..i + 1], c) by {
      forall c ensures Group(grouped', c) == ValuesFor(writes[..i + 1], c) {
        assert (writes[..i + 1])[..i] == writes[..i];
      }
    }
  }

  lemma DedupStep(writes: seq<Write>, i: nat)
    requires i < |writes|
    ensures Dedup(Names(writes[..i + 1])) == if writes[i].0 in Dedup(Names(writes[..i]))
                                             then Dedup(Names(writes[..i]))
                                             else Dedup(Names(writes[..i])) + [writes[i].0]
  {
    var s := Names(writes[..i + 1]);
    assert s[..|s| - 1] == Names(writes[..i]);
    assert s[|s| - 1] == writes[i].0;
  }

  lemma {:induction false} ValuesForAppend(writes: seq<Write>, extra: seq<Write>, c: string)
    ensures ValuesFor(writes + extra, c) == ValuesFor(writes, c) + ValuesFor(extra, c)
    decreases |extra|
  {
    if extra != [] {
      var n := |extra| - 1;
      assert (writes + extra)[..|writes + extra| - 1] == writes + extra[..n];
      ValuesForAppend(writes, extra[..n], c);
    } else {
      assert writes + extra == writes;
    }
  }

  /** A channel receives values exactly when some write targets it. */
  lemma {:induction false} ValuesForEmpty(writes: seq<Write>, c: string)
    ensures ValuesFor(writes, c) == [] <==> c !in Names(writes)
    decreases |writes|
  {
    if writes != [] {
      var n := |writes| - 1;
      assert Names(writes) == Names(writes[..n]) + [writes[n].0];
      ValuesForEmpty(writes[..n], c);
    }
  }

  /** Two writes to one channel give it at least two values. */
  lemma {:induction false} TwoWritesTwoValues(writes: seq<Write>, i: nat, j: nat)
    requires i < j < |writes| && writes[i].0 == writes[j].0
    ensures |ValuesFor(writes, writes[i].0)| >= 2
    decreases |writes|
  {
    var n := |writes| - 1;
    var c := writes[i].0;
    if j < n {
      TwoWritesTwoValues(writes[..n], i, j);
    } else {
      ValuesForEmpty(writes[..n], c);
      assert Names(writes[..n])[i] == c;
    }
  }

  /** Writes that avoid reserved names never reach `is_last_step`. */
  lemma {:induction false} NoReservedNoLastStep(writes: seq<Write>)
    requires NoReserved(writes)
    ensures ValuesFor(writes, IS_LAST_STEP) == []
  {
    ValuesForEmpty(writes, IS_LAST_STEP);
  }

  /** A write to a reserved channel is refused before anything changes. */
  lemma CommitRejectsReserved(channels: map<string, Channel>, versions: map<string, int>,
                              writes: seq<Write>, forStep: int, limit: int, i: nat)
    requires i < |writes| && writes[i].0 == IS_LAST_STEP
    ensures Commit(channels, versions, writes, forStep, limit)
            == Failure(ValueError("Can't write to reserved channel " + IS_LAST_STEP))
  {
    assert !NoReserved(writes);
  }

  /** `is_last_step` is always committed with the single value
      `forStep + 1 == limit`, and counts as written. */
  lemma CommitSetsIsLastStep(channels: map<string, Channel>, versions: map<string, int>,
                             writes: seq<Write>, forStep: int, limit: int)
    requires Commit(channels, versions, writes, forStep, limit).Success?
    requires IS_LAST_STEP in channels
    ensures var r := Commit(channels, versions, writes, forStep, limit).value;
            && r.channels[IS_LAST_STEP] == Updated(channels[IS_LAST_STEP], [VBool(forStep + 1 == limit)])
            && Ver(r.versions, IS_LAST_STEP) == Ver(versions, IS_LAST_STEP) + 1
  {
    NoReservedNoLastStep(writes);
    ValuesForAppend(writes, [LastStepWrite(forStep, limit)], IS_LAST_STEP);
    assert ValuesFor([LastStepWrite(forStep, limit)], IS_LAST_STEP) == [VBool(forStep + 1 == limit)] by {
      assert [LastStepWrite(forStep, limit)][..0] == [];
    }
  }

  /** Every other declared channel gets one update carrying the values
      written to it in submission order, and its version rises by exactly 1
      iff it was written; undeclared channels are dropped; no channel is
      added or removed. */
  lemma CommitUpdatesEachChannelOnce(channels: map<string, Channel>, versions: map<string, int>,
                                     writes: seq<Write>, forStep: int, limit: int, c: string)
    requires Commit(channels, versions, writes, forStep, limit).Success?
    requires c != IS_LAST_STEP
    ensures var r := Commit(channels, versions, writes, forStep, limit).value;
            && r.channels.Keys == channels.Keys
            && (c in channels ==> r.channels[c] == Updated(channels[c], ValuesFor(writes, c)))
            && (c in channels && c in Names(writes) ==> Ver(r.versions, c) == Ver(versions, c) + 1)
            && (c !in channels || c !in Names(writes) ==> Ver(r.versions, c) == Ver(versions, c))
  {
    var all := writes + [LastStepWrite(forStep, limit)];
    var r := Commit(channels, versions, writes, forStep, limit).value;
    assert r == Committed(UpdatedChannels(channels, all), BumpedVersions(channels, versions, all));
    ValuesForAppend(writes, [LastStepWrite(forStep, limit)], c);
    assert ValuesFor([LastStepWrite(forStep, limit)], c) == [] by {
      assert [LastStepWrite(forStep, limit)][..0] == [];
    }
    assert ValuesFor(all, c) == ValuesFor(writes, c);
    ValuesForEmpty(writes, c);
  }

  /** Two writes to one LastValue channel in a step raise InvalidUpdateError. */
  lemma LastValueRejectsTwoWriters(channels: map<string, Channel>, versions: map<string, int>,
                                   writes: seq<Write>, forStep: int, limit: int, i: nat, j: nat)
    requires NoReserved(writes)
    requires i < j < |writes| && writes[i].0 == writes[j].0
    requires writes[i].0 in channels && channels[writes[i].0].LastValue?
    ensures Commit(channels, versions, writes, forStep, limit) == Failure(InvalidUpdateError)
  {
    var c := writes[i].0;
    var all := writes + [LastStepWrite(forStep, limit)];
    TwoWritesTwoValues(writes, i, j);
    ValuesForAppend(writes, [LastStepWrite(forStep, limit)], c);
    assert Rejects(channels[c], ValuesFor(all, c));
  }

  /** After a commit an inbox holds exactly the batch written in this step,
      whatever it held before. */
  lemma InboxHoldsStepBatch(channels: map<string, Channel>, versions: map<string, int>,
                            writes: seq<Write>, forStep: int, limit: int, c: string)
    requires Commit(channels, versions, writes, forStep, limit).Success?
    requires c in channels && channels[c].Inbox? && c != IS_LAST_STEP
    ensures Get(Commit(channels, versions, writes, forStep, limit).value.channels[c])
            == Success(VTuple(ValuesFor(writes, c)))
  {
    CommitUpdatesEachChannelOnce(channels, versions, writes, forStep, limit, c);
  }
}
