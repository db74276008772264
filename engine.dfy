/** The mutable state of one run: the channels and the checkpoint's
    `versions` and `seen`, updated in place by the barrier commit
    (`_apply_writes`) and by task preparation (`_prepare_next_tasks`). */
module Engine {
  import opened Wrappers
  import opened Values
  import opened Seqs
  import opened Channels
  import opened Builders
  import opened Writes
  import opened Tasks

  datatype Snapshot = Snapshot(channels: map<string, Channel>, versions: map<string, int>, seen: Seen)

  /** The channels of a fresh run, all empty. */
  function EmptyChannels(kinds: map<string, ChannelKind>): (r: map<string, Channel>)
    ensures r.Keys == kinds.Keys
    ensures forall c | c in r :: KindOf(r[c]) == kinds[c] && Get(r[c]).Failure?
  {
    map c | c in kinds :: Empty(kinds[c])
  }

  /** The grouping with the reserved `is_last_step` entry added: distinct
      names, each mapped to the values written to it, and a name listed
      exactly when it received values. */
  lemma WithLastStep(writes: seq<Write>, forStep: int, limit: int,
                     order: seq<string>, grouped: map<string, seq<Value>>)
    requires NoReserved(writes)
    requires order == Dedup(Names(writes))
    requires forall c :: c in grouped <==> c in order
    requires forall c :: Group(grouped, c) == ValuesFor(writes, c)
    ensures var all := writes + [LastStepWrite(forStep, limit)];
            var order' := order + [IS_LAST_STEP];
            var grouped' := grouped[IS_LAST_STEP := [VBool(forStep + 1 == limit)]];
            && Distinct(order')
            && (forall c :: Group(grouped', c) == ValuesFor(all, c))
            && (forall c :: c in order' <==> ValuesFor(all, c) != [])
  {
    LastStepDistinct(writes, order);
    LastStepGroups(writes, forStep, limit, grouped);
    LastStepNames(writes, forStep, limit, order);
  }

  lemma LastStepDistinct(writes: seq<Write>, order: seq<string>)
    requires NoReserved(writes)
    requires order == Dedup(Names(writes))
    ensures Distinct(order + [IS_LAST_STEP])
  {
    NoReservedNoLastStep(writes);
    ValuesForEmpty(writes, IS_LAST_STEP);
    assert IS_LAST_STEP !in order;
  }

  lemma LastStepGroups(writes: seq<Write>, forStep: int, limit: int, grouped: map<string, seq<Value>>)
    requires NoReserved(writes)
    requires forall c :: Group(grouped, c) == ValuesFor(writes, c)
    ensures var grouped' := grouped[IS_LAST_STEP := [VBool(forStep + 1 == limit)]];
            forall c :: Group(grouped', c) == ValuesFor(writes + [LastStepWrite(forStep, limit)], c)
  {
    var last := LastStepWrite(forStep, limit);
    NoReservedNoLastStep(writes);
    forall c ensures ValuesFor(writes + [last], c) == ValuesFor(writes, c) + (if c == IS_LAST_STEP then [last.1] else []) {
      ValuesForLast(writes, last, c);
    }
  }

  lemma LastStepNames(writes: seq<Write>, forStep: int, limit: int, order: seq<string>)
    requires order == Dedup(Names(writes))
    ensures forall c :: c in order + [IS_LAST_STEP] <==> ValuesFor(writes + [LastStepWrite(forStep, limit)], c) != []
  {
    var last := LastStepWrite(forStep, limit);
    forall c ensures c in order + [IS_LAST_STEP] <==> ValuesFor(writes + [last], c) != [] {
      ValuesForLast(writes, last, c);
      ValuesForEmpty(writes, c);
    }
  }

  /** One more write adds its value to its own channel only. */
  lemma ValuesForLast(writes: seq<Write>, w: Write, c: string)
    ensures ValuesFor(writes + [w], c) == ValuesFor(writes, c) + (if c == w.0 then [w.1] else [])
  {
    var all := writes + [w];
    assert all[..|all| - 1] == writes;
    assert all[|all| - 1] == w;
  }

  /** After the first `j` names of `order` are applied: exactly the declared
      ones among them are updated, accepted their values and have their
      version one higher; everything else is untouched. */
  ghost predicate Applied(ch0: map<string, Channel>, v0: map<string, int>, all: seq<Write>,
                          order: seq<string>, j: nat,
                          channels: map<string, Channel>, versions: map<string, int>, updated: set<string>)
    requires j <= |order|
  {
    && channels.Keys == ch0.Keys
    && updated == (set c | c in order[..j] && c in ch0)
    && (forall c | c in updated :: !Rejects(ch0[c], ValuesFor(all, c)))
    && (forall c | c in ch0 :: channels[c] == if c in updated then Updated(ch0[c], ValuesFor(all, c)) else ch0[c])
    && versions.Keys == v0.Keys + updated
    && (forall c | c in versions :: versions[c] == if c in updated then Ver(v0, c) + 1 else v0[c])
  }

  /** One iteration of the update loop keeps `Applied`, or raises
      InvalidUpdateError because a declared channel refuses its values. */
  lemma AppliedStep(ch0: map<string, Channel>, v0: map<string, int>, all: seq<Write>,
                    order: seq<string>, j: nat, grouped: map<string, seq<Value>>,
                    channels: map<string, Channel>, versions: map<string, int>, updated: set<string>)
    requires j < |order| && Distinct(order)
    requires forall c :: Group(grouped, c) == ValuesFor(all, c)
    requires Applied(ch0, v0, all, order, j, channels, versions, updated)
    ensures order[j] !in channels ==> Applied(ch0, v0, all, order, j + 1, channels, versions, updated)
    ensures order[j] in channels ==>
              var chan := order[j];
              var res := Update(channels[chan], Group(grouped, chan));
              && (res.Failure? ==> res.error == InvalidUpdateError && AnyRejects(ch0, all))
              && (res.Success? ==>
                    Applied(ch0, v0, all, order, j + 1, channels[chan := res.value],
                            versions[chan := Ver(versions, chan) + 1], updated + {chan}))
  {
    var chan := order[j];
    assert order[..j + 1] == order[..j] + [chan];
    assert chan !in order[..j];
    if chan in channels {
      assert channels[chan] == ch0[chan];
      assert Group(grouped, chan) == ValuesFor(all, chan);
      if !Rejects(ch0[chan], ValuesFor(all, chan)) {
        AppliedUpdate(ch0, v0, all, order, j, channels, versions, updated);
      }
    } else {
      assert (set c | c in order[..j + 1] && c in ch0) == (set c | c in order[..j] && c in ch0);
    }
  }

  lemma AppliedUpdate(ch0: map<string, Channel>, v0: map<string, int>, all: seq<Write>,
                      order: seq<string>, j: nat,
                      channels: map<string, Channel>, versions: map<string, int>, updated: set<string>)
    requires j < |order| && order[j] !in order[..j] && order[j] in ch0
    requires !Rejects(ch0[order[j]], ValuesFor(all, order[j]))
    requires Applied(ch0, v0, all, order, j, channels, versions, updated)
    ensures var chan := order[j];
            Applied(ch0, v0, all, order, j + 1, channels[chan := Updated(ch0[chan], ValuesFor(all, chan))],
                    versions[chan := Ver(versions, chan) + 1], updated + {chan})
  {
    var chan := order[j];
    assert order[..j + 1] == order[..j] + [chan];
    assert chan !in updated;
    assert Ver(versions, chan) == Ver(v0, chan);
    var v' := versions[chan := Ver(versions, chan) + 1];
    assert v'.Keys == v0.Keys + (updated + {chan});
  }

  /** When every name has been applied, the updated channels are exactly the
      declared ones that received values, none refused them, and the
      versions are exactly the bumped ones. */
  lemma AppliedAll(ch0: map<string, Channel>, v0: map<string, int>, all: seq<Write>,
                   order: seq<string>, channels: map<string, Channel>, versions: map<string, int>,
                   updated: set<string>)
    requires forall c :: c in order <==> ValuesFor(all, c) != []
    requires Applied(ch0, v0, all, order, |order|, channels, versions, updated)
    ensures forall c | c in ch0 :: c in updated <==> ValuesFor(all, c) != []
    ensures !AnyRejects(ch0, all)
    ensures versions == BumpedVersions(ch0, v0, all)
    ensures channels.Keys == ch0.Keys
    ensures forall c | c in channels ::
              channels[c] == if c in updated then Updated(ch0[c], ValuesFor(all, c)) else ch0[c]
  {
    assert order[..|order|] == order;
    assert forall c | c in ch0 :: c in updated <==> ValuesFor(all, c) != [];
    assert !AnyRejects(ch0, all) by {
      forall c | c in ch0 ensures !Rejects(ch0[c], ValuesFor(all, c)) {
        if c !in updated { assert ValuesFor(all, c) == []; }
      }
    }
    BumpedAll(ch0, v0, all, versions, updated);
  }

  lemma BumpedAll(ch0: map<string, Channel>, v0: map<string, int>, all: seq<Write>,
                  versions: map<string, int>, updated: set<string>)
    requires forall c | c in ch0 :: c in updated <==> ValuesFor(all, c) != []
    requires updated <= ch0.Keys
    requires versions.Keys == v0.Keys + updated
    requires forall c | c in versions :: versions[c] == if c in updated then Ver(v0, c) + 1 else v0[c]
    ensures versions == BumpedVersions(ch0, v0, all)
  {
    var b := BumpedVersions(ch0, v0, all);
    var bumps := map c | c in ch0 && ValuesFor(all, c) != [] :: Ver(v0, c) + 1;
    assert b == v0 + bumps;
    assert bumps.Keys == updated;
    assert versions.Keys == b.Keys;
    forall c | c in versions ensures versions[c] == b[c] {
      if c in updated { assert b[c] == bumps[c]; }
    }
  }

  class Engine {
    var channels: map<string, Channel>
    var versions: map<string, int>
    var seen: Seen

    /** A run starting from the empty checkpoint. */
    constructor (kinds: map<string, ChannelKind>)
      ensures channels == EmptyChannels(kinds)
      ensures versions == map[] && seen == map[]
    {
      channels := EmptyChannels(kinds);
      versions := map[];
      seen := map[];
    }

    function Snap(): Snapshot
      reads this
    {
      Snapshot(channels, versions, seen)
    }

    /** `_apply_writes(checkpoint, channels, writes, config, forStep)`: the
        result is the commit `Commit` describes; a reserved write changes
        nothing; `seen` is not touched. */
    method ApplyWrites(writes: seq<Write>, limit: int, forStep: int) returns (err: Option<Error>)
      modifies this
      ensures var c := Commit(old(channels), old(versions), writes, forStep, limit);
              && (c.Failure? ==> err == Some(c.error))
              && (c.Success? ==> err == None && channels == c.value.channels && versions == c.value.versions)
      ensures !NoReserved(writes) ==> channels == old(channels) && versions == old(versions)
      ensures seen == old(seen)
    {
      var order, grouped, reserved := GroupByChannel(writes);
      if reserved.Some? {
        return Some(ValueError("Can't write to reserved channel " + reserved.value));
      }
      ghost var all := writes + [LastStepWrite(forStep, limit)];
      WithLastStep(writes, forStep, limit, order, grouped);
      order := order + [IS_LAST_STEP];
      grouped := grouped[IS_LAST_STEP := [VBool(forStep + 1 == limit)]];
      var updated;
      err, updated := UpdateWritten(order, grouped, all);
      if err.Some? {
        return;
      }
      ghost var ch1 := channels;
      NotifyUnwritten(updated);
      assert channels == UpdatedChannels(old(channels), all) by {
        forall c | c in old(channels) ensures channels[c] == Updated(old(channels)[c], ValuesFor(all, c)) {
          if c !in updated {
            assert ch1[c] == old(channels)[c];
          }
        }
      }
    }

    /** The loop over the grouped names: each declared one gets its single
        `update(vals)` and its version bump; the first refusal raises. */
    method UpdateWritten(order: seq<string>, grouped: map<string, seq<Value>>, ghost all: seq<Write>)
      returns (err: Option<Error>, updated: set<string>)
      modifies this
      requires Distinct(order)
      requires forall c :: Group(grouped, c) == ValuesFor(all, c)
      requires forall c :: c in order <==> ValuesFor(all, c) != []
      ensures err.Some? ==> err == Some(InvalidUpdateError) && AnyRejects(old(channels), all)
      ensures err.None? ==> && (forall c | c in old(channels) :: c in updated <==> ValuesFor(all, c) != [])
                            && !AnyRejects(old(channels), all)
                            && versions == BumpedVersions(old(channels), old(versions), all)
                            && channels.Keys == old(channels).Keys
                            && (forall c | c in channels ::
                                  channels[c] == if c in updated then Updated(old(channels)[c], ValuesFor(all, c))
                                                 else old(channels)[c])
      ensures seen == old(seen)
    {
      ghost var ch0, v0 := channels, versions;
      var chs, vs := channels, versions;
      updated := {};
      for j := 0 to |order|
        invariant Applied(ch0, v0, all, order, j, chs, vs, updated)
        invariant seen == old(seen)
      {
        var chan := order[j];
        AppliedStep(ch0, v0, all, order, j, grouped, chs, vs, updated);
        if chan in chs {
          var res := Update(chs[chan], Group(grouped, chan));
          if res.Failure? {
            // the channels updated so far keep their new values
            channels, versions := chs, vs;
            return Some(res.error), updated;
          }
          chs := chs[chan := res.value];
          vs := vs[chan := Ver(vs, chan) + 1];
          updated := updated + {chan};
        }
      }
      AppliedAll(ch0, v0, all, order, chs, vs, updated);
      channels, versions := chs, vs;
      err := None;
    }

    /** `for chan in channels: if chan not in updated: update([])`. */
    method NotifyUnwritten(updated: set<string>)
      modifies this
      ensures channels.Keys == old(channels).Keys
      ensures forall c | c in channels ::
                channels[c] == if c in updated then old(channels)[c] else Updated(old(channels)[c], [])
      ensures versions == old(versions) && seen == old(seen)
    {
      var remaining := channels.Keys;
      while remaining != {}
        invariant remaining <= old(channels).Keys && channels.Keys == old(channels).Keys
        invariant versions == old(versions) && seen == old(seen)
        invariant forall c | c in channels ::
                    channels[c] == if c in updated || c in remaining then old(channels)[c]
                                   else Updated(old(channels)[c], [])
        decreases |remaining|
      {
        var chan :| chan in remaining;
        if chan !in updated {
          channels := channels[chan := Updated(channels[chan], [])];
        }
        remaining := remaining - {chan};
      }
    }

    /** `_prepare_next_tasks(checkpoint, processes, channels)`: the tasks and
        the new `seen` are those `NextTasks` describes; channels and
        versions are only read. */
    method PrepareNextTasks(procs: seq<(string, Process)>) returns (r: Result<seq<Task>, Error>)
      modifies this
      ensures var spec := NextTasks(procs, old(versions), old(seen), old(channels));
              && (spec.Failure? ==> r == Failure(spec.error))
              && (spec.Success? ==> r == Success(spec.value.0) && seen == spec.value.1)
      ensures channels == old(channels) && versions == old(versions)
    {
      var tasks: seq<Task> := [];
      assert procs[0..] == procs;
      ghost var spec := NextTasks(procs, versions, seen, channels);
      assert Prefixed([], spec) == spec by {
        if spec.Success? { assert [] + spec.value.0 == spec.value.0; }
      }
      for i := 0 to |procs|
        invariant channels == old(channels) && versions == old(versions)
        invariant NextTasks(procs, versions, old(seen), channels)
                  == Prefixed(tasks, NextTasks(procs[i..], versions, seen, channels))
      {
        ghost var rest := procs[i..];
        assert rest[1..] == procs[i + 1..];
        var (name, p) := procs[i];
        var s := SeenOf(seen, name);
        if Triggered(p, versions, s) {
          var input := TaskInput(p, channels);
          if input.Failure? {
            assert NextTasks(rest, versions, seen, channels) == Failure(input.error);
            return Failure(input.error);
          }
          PrefixedStep(tasks, Task(name, p, input.value),
                       NextTasks(procs[i + 1..], versions, seen[name := MarkSeen(p, versions, s)], channels));
          tasks := tasks + [Task(name, p, input.value)];
          seen := seen[name := MarkSeen(p, versions, s)];
        }
      }
      assert Prefixed(tasks, NextTasks(procs[|procs|..], versions, seen, channels)) == Success((tasks, seen)) by {
        assert procs[|procs|..] == [];
        assert tasks + [] == tasks;
      }
      r := Success(tasks);
    }
  }

  lemma PrefixedStep(tasks: seq<Task>, t: Task, rest: Result<(seq<Task>, Seen), Error>)
    ensures Prefixed(tasks, Prefixed([t], rest)) == Prefixed(tasks + [t], rest)
  {
    if rest.Success? {
      assert tasks + ([t] + rest.value.0) == (tasks + [t]) + rest.value.0;
    }
  }

  /** `tasks` followed by the outcome of preparing the remaining processes. */
  function Prefixed(tasks: seq<Task>, rest: Result<(seq<Task>, Seen), Error>): Result<(seq<Task>, Seen), Error> {
    match rest
    case Failure(e) => Failure(e)
    case Success((ts, seen)) => Success((tasks + ts, seen))
  }
}
