/** The `PregelLoop` state machine: entering restores a checkpoint, each
    `tick` either consumes the input, or (once every task has written)
    commits the writes in task order, and then decides whether to stop
    (out of steps, no tasks, interrupt) or to run the next tasks. The
    collaborators from the algorithm module are parameters. */
module Loop {
  import opened Wrappers
  import opened Values
  import opened Channels

  datatype Status = Pending | Done | InterruptBefore | InterruptAfter | OutOfSteps

  function StatusName(s: Status): string {
    match s
    case Pending => "pending"
    case Done => "done"
    case InterruptBefore => "interrupt_before"
    case InterruptAfter => "interrupt_after"
    case OutOfSteps => "out_of_steps"
  }

  /** The reserved process name under which `first` records what the
      interrupted run had seen. */
  const INTERRUPT: string := "__interrupt__"

  /** The input still to be consumed, or `INPUT_DONE`. */
  datatype LoopInput = Given(value: Value) | InputDone

  /** The checkpoint fields the loop itself reads and writes. */
  datatype Checkpoint = Checkpoint(channelVersions: map<string, int>, versionsSeen: map<string, map<string, int>>)

  type Write = (string, Value)

  /** A prepared task: its id, its process name and the writes recorded on it. */
  datatype PregelTask = PregelTask(id: string, name: string, writes: seq<Write>)

  /** `(task_id, channel, value)`. */
  type PendingWrite = (string, string, Value)

  datatype Source = InputSource | LoopSource

  /** The checkpoint metadata: where it came from and the step it was taken at. */
  datatype Metadata = Metadata(source: Option<Source>, step: int)

  /** What the checkpointer returns for a thread. */
  datatype Saved = Saved(checkpoint: Checkpoint, metadata: Metadata, pendingWrites: seq<PendingWrite>)

  /** The collaborators of the loop, as functions: `prepare_next_tasks`,
      `apply_writes`, `should_interrupt`, `map_input`, `create_checkpoint`
      and the channel restoration of `ChannelsManager`. */
  datatype Algo = Algo(
    prepare: (Checkpoint, map<string, Channel>, int) -> (Checkpoint, seq<PregelTask>),
    apply: (Checkpoint, map<string, Channel>, seq<Write>) -> (Checkpoint, map<string, Channel>),
    shouldInterrupt: (Checkpoint, seq<string>, seq<PregelTask>) -> bool,
    mapInput: Value -> seq<Write>,
    createCheckpoint: (Checkpoint, map<string, Channel>, int) -> Checkpoint,
    restore: Checkpoint -> map<string, Channel>)

  /** What stays fixed for the life of a loop. */
  datatype Env = Env(algo: Algo, recursionLimit: int, hasCheckpointer: bool)

  datatype LoopState = LoopState(
    status: Status,
    step: int,
    input: LoopInput,
    checkpoint: Checkpoint,
    channels: map<string, Channel>,
    tasks: seq<PregelTask>,
    pendingWrites: seq<PendingWrite>,
    metadata: Metadata)

  /** `__enter__`: the saved checkpoint, or the empty one at step -2. */
  function Entered(input: LoopInput, saved: Option<Saved>, env: Env): (s: LoopState)
    ensures s.status == Pending && s.input == input && s.tasks == []
    ensures saved.None? ==> s.step == -1 && s.pendingWrites == []
    ensures saved.None? ==> s.checkpoint == Checkpoint(map[], map[]) && s.metadata == Metadata(None, -2)
    ensures saved.Some? ==> s.step == saved.value.metadata.step + 1
    ensures saved.Some? ==> && s.checkpoint == saved.value.checkpoint
                            && s.metadata == saved.value.metadata
                            && s.pendingWrites == saved.value.pendingWrites
    ensures s.channels == env.algo.restore(s.checkpoint)
  {
    var sv := if saved.Some? then saved.value else Saved(Checkpoint(map[], map[]), Metadata(None, -2), []);
    LoopState(Pending, sv.metadata.step + 1, input, sv.checkpoint, env.algo.restore(sv.checkpoint),
              [], sv.pendingWrites, sv.metadata)
  }

  /** `put_checkpoint`: with a checkpointer, a new checkpoint is created and
      the metadata stamped with the current step is kept; in every case the
      step advances by one. */
  function PutCheckpointSpec(s: LoopState, source: Source, env: Env): (r: LoopState)
    ensures r.step == s.step + 1
    ensures env.hasCheckpointer ==> r.metadata == Metadata(Some(source), s.step)
    ensures env.hasCheckpointer ==> r.checkpoint == env.algo.createCheckpoint(s.checkpoint, s.channels, s.step)
    ensures !env.hasCheckpointer ==> r == s.(step := s.step + 1)
    ensures r.status == s.status && r.input == s.input && r.tasks == s.tasks
            && r.pendingWrites == s.pendingWrites && r.channels == s.channels
  {
    var stamped := Metadata(Some(source), s.step);
    var s1 := if env.hasCheckpointer
              then s.(metadata := stamped, checkpoint := env.algo.createCheckpoint(s.checkpoint, s.channels, s.step))
              else s;
    s1.(step := s.step + 1)
  }

  /** `versions_seen[INTERRUPT]` after `first` without input: the current
      version of every channel that has one. */
  function InterruptSeen(cp: Checkpoint, channels: map<string, Channel>): (r: map<string, int>)
    ensures forall k | k in channels && k in cp.channelVersions :: k in r && r[k] == cp.channelVersions[k]
    ensures forall k | k in r && (k !in channels || k !in cp.channelVersions) ::
              INTERRUPT in cp.versionsSeen && k in cp.versionsSeen[INTERRUPT] && r[k] == cp.versionsSeen[INTERRUPT][k]
    ensures INTERRUPT in cp.versionsSeen ==> forall k | k in cp.versionsSeen[INTERRUPT] :: k in r
  {
    var prior := if INTERRUPT in cp.versionsSeen then cp.versionsSeen[INTERRUPT] else map[];
    prior + map k | k in channels && k in cp.channelVersions :: cp.channelVersions[k]
  }

  /** `first`: input writes are committed after discarding unfinished tasks
      and checkpointed; no input marks the current versions as seen by the
      interrupt. Either way the input is consumed. */
  function FirstSpec(s: LoopState, env: Env): (r: LoopState)
    ensures r.input == InputDone
    ensures r.status == s.status && r.tasks == s.tasks && r.pendingWrites == s.pendingWrites
    ensures s.input.InputDone? || env.algo.mapInput(s.input.value) == [] ==>
              && r.channels == s.channels && r.step == s.step && r.metadata == s.metadata
              && r.checkpoint.channelVersions == s.checkpoint.channelVersions
              && r.checkpoint.versionsSeen == s.checkpoint.versionsSeen[INTERRUPT := InterruptSeen(s.checkpoint, s.channels)]
    ensures s.input.Given? && env.algo.mapInput(s.input.value) != [] ==> r.step == s.step + 1
    ensures s.input.Given? && env.algo.mapInput(s.input.value) != [] ==>
              var (cp, chs) := env.algo.apply(env.algo.prepare(s.checkpoint, s.channels, s.step).0, s.channels,
                                              env.algo.mapInput(s.input.value));
              && r.channels == chs
              && r == PutCheckpointSpec(s.(checkpoint := cp, channels := chs), InputSource, env).(input := InputDone)
              && (env.hasCheckpointer ==> r.metadata.source == Some(InputSource))
  {
    var inputWrites := if s.input.Given? then env.algo.mapInput(s.input.value) else [];
    if inputWrites != [] then
      var (cp, _) := env.algo.prepare(s.checkpoint, s.channels, s.step);
      var (cp', chs) := env.algo.apply(cp, s.channels, inputWrites);
      PutCheckpointSpec(s.(checkpoint := cp', channels := chs), InputSource, env).(input := InputDone)
    else
      var cp := s.checkpoint.(versionsSeen := s.checkpoint.versionsSeen[INTERRUPT := InterruptSeen(s.checkpoint, s.channels)]);
      s.(checkpoint := cp, input := InputDone)
  }

  /** The writes recorded for task `tid`, in `put_writes` order. */
  function WritesOf(pws: seq<PendingWrite>, tid: string): seq<Write>
    decreases |pws|
  {
    if pws == [] then []
    else
      var last := pws[|pws| - 1];
      WritesOf(pws[..|pws| - 1], tid) + (if last.0 == tid then [(last.1, last.2)] else [])
  }

  /** The ids of the tasks that have written. */
  function WrittenIds(pws: seq<PendingWrite>): set<string> {
    set w | w in pws :: w.0
  }

  function Concat(ws: seq<seq<Write>>): seq<Write>
    decreases |ws|
  {
    if ws == [] then [] else ws[0] + Concat(ws[1..])
  }

  /** All pending writes, task by task in task order. */
  function WritesInTaskOrder(tasks: seq<PregelTask>, pws: seq<PendingWrite>): seq<Write> {
    Concat(seq(|tasks|, i requires 0 <= i < |tasks| => WritesOf(pws, tasks[i].id)))
  }

  /** The first task with id `tid`, if any. */
  function FindTask(tasks: seq<PregelTask>, tid: string): (r: Option<nat>)
    ensures r.Some? ==> r.value < |tasks| && tasks[r.value].id == tid
                        && forall j | 0 <= j < r.value :: tasks[j].id != tid
    ensures r.None? ==> forall j | 0 <= j < |tasks| :: tasks[j].id != tid
    decreases |tasks|
  {
    if tasks == [] then None
    else if tasks[0].id == tid then Some(0)
    else
      match FindTask(tasks[1..], tid)
      case None => None
      case Some(i) => Some(i + 1)
  }

  /** One pending write appended to the first task with its id. */
  function AttachOne(tasks: seq<PregelTask>, pw: PendingWrite): (r: seq<PregelTask>)
    ensures |r| == |tasks|
  {
    match FindTask(tasks, pw.0)
    case None => tasks
    case Some(i) => tasks[i := tasks[i].(writes := tasks[i].writes + [(pw.1, pw.2)])]
  }

  /** Every pending write from a previous loop attached to its task. */
  function Attach(tasks: seq<PregelTask>, pws: seq<PendingWrite>): (r: seq<PregelTask>)
    ensures |r| == |tasks|
    decreases |pws|
  {
    if pws == [] then tasks else AttachOne(Attach(tasks, pws[..|pws| - 1]), pws[|pws| - 1])
  }

  /** From the step-limit check on: stop out of steps, or prepare; stop when
      nothing is prepared; attach earlier writes; stop on an interrupt
      before; otherwise the tasks are ready to run. */
  function Continue(s: LoopState, env: Env, interruptBefore: seq<string>): (r: (Result<bool, Error>, LoopState))
    ensures r.0.Success?
    ensures s.step > env.recursionLimit ==> r == (Success(false), s.(status := OutOfSteps))
    ensures r.1.input == s.input && r.1.step == s.step && r.1.channels == s.channels
            && r.1.pendingWrites == s.pendingWrites && r.1.metadata == s.metadata
    ensures r.0 == Success(true) ==> r.1.status == s.status && r.1.tasks != [] && s.step <= env.recursionLimit
    ensures r.0 == Success(false) ==> r.1.status in {OutOfSteps, Done, InterruptBefore}
    ensures s.step <= env.recursionLimit ==>
              var (cp, ts) := env.algo.prepare(s.checkpoint, s.channels, s.step);
              && (ts == [] ==> r == (Success(false), s.(checkpoint := cp, tasks := [], status := Done)))
              && (ts != [] ==>
                    && r.1.checkpoint == cp
                    && r.1.tasks == Attach(ts, s.pendingWrites)
                    && r.1.status == (if env.algo.shouldInterrupt(s.checkpoint, interruptBefore, r.1.tasks)
                                      then InterruptBefore else s.status)
                    && (r.0 == Success(true) <==> !env.algo.shouldInterrupt(s.checkpoint, interruptBefore, r.1.tasks)))
  {
    if s.step > env.recursionLimit then (Success(false), s.(status := OutOfSteps))
    else
      var (cp, tasks) := env.algo.prepare(s.checkpoint, s.channels, s.step);
      if tasks == [] then (Success(false), s.(checkpoint := cp, tasks := tasks, status := Done))
      else
        var attached := if s.pendingWrites != [] then Attach(tasks, s.pendingWrites) else tasks;
        var s1 := s.(checkpoint := cp, tasks := attached);
        if env.algo.shouldInterrupt(s.checkpoint, interruptBefore, attached) then
          (Success(false), s1.(status := InterruptBefore))
        else (Success(true), s1)
  }

  /** `tick`. */
  function TickSpec(s: LoopState, env: Env, interruptAfter: seq<string>, interruptBefore: seq<string>)
    : (Result<bool, Error>, LoopState)
  {
    if s.status != Pending then
      (Failure(RuntimeError("Cannot tick when status is " + StatusName(s.status))), s)
    else if s.input.Given? then
      Continue(FirstSpec(s, env), env, interruptBefore)
    else if |WrittenIds(s.pendingWrites)| == |s.tasks| then
      var writes := WritesInTaskOrder(s.tasks, s.pendingWrites);
      var (cp, chs) := env.algo.apply(s.checkpoint, s.channels, writes);
      var s1 := PutCheckpointSpec(s.(checkpoint := cp, channels := chs, pendingWrites := []), LoopSource, env);
      if env.algo.shouldInterrupt(s1.checkpoint, interruptAfter, s1.tasks) then
        (Success(false), s1.(status := InterruptAfter))
      else Continue(s1, env, interruptBefore)
    else (Success(false), s)
  }

  /** `(task_id, k, v)` for each write, in order. */
  function Tagged(taskId: string, writes: seq<Write>): (r: seq<PendingWrite>)
    ensures |r| == |writes|
    ensures forall i | 0 <= i < |writes| :: r[i] == (taskId, writes[i].0, writes[i].1)
  {
    seq(|writes|, i requires 0 <= i < |writes| => (taskId, writes[i].0, writes[i].1))
  }

  class PregelLoop {
    const env: Env
    var status: Status
    var step: int
    var input: LoopInput
    var checkpoint: Checkpoint
    var channels: map<string, Channel>
    var tasks: seq<PregelTask>
    var pendingWrites: seq<PendingWrite>
    var metadata: Metadata

    function State(): LoopState
      reads this
    {
      LoopState(status, step, input, checkpoint, channels, tasks, pendingWrites, metadata)
    }

    /** `PregelLoop(...).__enter__()`. */
    constructor (input: LoopInput, saved: Option<Saved>, env: Env)
      ensures this.env == env
      ensures State() == Entered(input, saved, env)
    {
      this.env := env;
      var sv := if saved.Some? then saved.value else Saved(Checkpoint(map[], map[]), Metadata(None, -2), []);
      this.input := input;
      checkpoint := sv.checkpoint;
      metadata := sv.metadata;
      pendingWrites := sv.pendingWrites;
      channels := env.algo.restore(sv.checkpoint);
      tasks := [];
      status := Pending;
      step := sv.metadata.step + 1;
    }

    /** `put_writes`: one pending write per write, in order. */
    method PutWrites(taskId: string, writes: seq<Write>)
      modifies this
      ensures State() == old(State()).(pendingWrites := old(pendingWrites) + Tagged(taskId, writes))
    {
      pendingWrites := pendingWrites + Tagged(taskId, writes);
    }

    /** `put_checkpoint`. */
    method PutCheckpoint(source: Source)
      modifies this
      ensures State() == PutCheckpointSpec(old(State()), source, env)
    {
      if env.hasCheckpointer {
        metadata := Metadata(Some(source), step);
        checkpoint := env.algo.createCheckpoint(checkpoint, channels, step);
      }
      step := step + 1;
    }

    /** `first`. */
    method First()
      modifies this
      ensures State() == FirstSpec(old(State()), env)
    {
      var inputWrites := if input.Given? then env.algo.mapInput(input.value) else [];
      if inputWrites != [] {
        var (cp, _) := env.algo.prepare(checkpoint, channels, step);
        var (cp', chs) := env.algo.apply(cp, channels, inputWrites);
        checkpoint, channels := cp', chs;
        PutCheckpoint(InputSource);
      } else {
        var seen := MarkInterruptSeen(checkpoint, channels);
        checkpoint := checkpoint.(versionsSeen := checkpoint.versionsSeen[INTERRUPT := seen]);
      }
      input := InputDone;
    }

    /** `tick`. */
    method Tick(interruptAfter: seq<string>, interruptBefore: seq<string>) returns (r: Result<bool, Error>)
      modifies this
      ensures (r, State()) == TickSpec(old(State()), env, interruptAfter, interruptBefore)
    {
      if status != Pending {
        return Failure(RuntimeError("Cannot tick when status is " + StatusName(status)));
      }
      if input.Given? {
        First();
      } else if |WrittenIds(pendingWrites)| == |tasks| {
        var writes := OrderedWrites(tasks, pendingWrites);
        var (cp, chs) := env.algo.apply(checkpoint, channels, writes);
        checkpoint, channels := cp, chs;
        pendingWrites := [];
        PutCheckpoint(LoopSource);
        if env.algo.shouldInterrupt(checkpoint, interruptAfter, tasks) {
          status := InterruptAfter;
          return Success(false);
        }
      } else {
        return Success(false);
      }
      ghost var s := State();
      if step > env.recursionLimit {
        status := OutOfSteps;
        return Success(false);
      }
      var prev := checkpoint;
      var (cp, next) := env.algo.prepare(checkpoint, channels, step);
      checkpoint, tasks := cp, next;
      if tasks == [] {
        status := Done;
        return Success(false);
      }
      if pendingWrites != [] {
        tasks := AttachPendingWrites(tasks, pendingWrites);
      }
      if env.algo.shouldInterrupt(prev, interruptBefore, tasks) {
        status := InterruptBefore;
        return Success(false);
      }
      return Success(true);
    }
  }

  /** `grouped.get(tid, [])`. */
  function GroupOf(grouped: map<string, seq<Write>>, tid: string): seq<Write> {
    if tid in grouped then grouped[tid] else []
  }

  /** `grouped.setdefault(pw.0, []).append((pw.1, pw.2))`. */
  function AppendedTo(grouped: map<string, seq<Write>>, pw: PendingWrite): map<string, seq<Write>> {
    grouped[pw.0 := GroupOf(grouped, pw.0) + [(pw.1, pw.2)]]
  }

  /** `grouped` holds the writes of the first `i` pending writes, per task. */
  ghost predicate GroupedUpTo(pws: seq<PendingWrite>, i: nat, grouped: map<string, seq<Write>>)
    requires i <= |pws|
  {
    forall tid :: GroupOf(grouped, tid) == WritesOf(pws[..i], tid)
  }

  /** The grouping loop: each task id maps to its writes in `put_writes`
      order. */
  method GroupPendingWrites(pws: seq<PendingWrite>) returns (grouped: map<string, seq<Write>>)
    ensures forall tid :: GroupOf(grouped, tid) == WritesOf(pws, tid)
  {
    grouped := map[];
    for i := 0 to |pws|
      invariant GroupedUpTo(pws, i, grouped)
    {
      GroupedStep(pws, i, grouped);
      grouped := AppendedTo(grouped, pws[i]);
    }
    assert pws[..|pws|] == pws;
  }

  lemma GroupedStep(pws: seq<PendingWrite>, i: nat, grouped: map<string, seq<Write>>)
    requires i < |pws| && GroupedUpTo(pws, i, grouped)
    ensures GroupedUpTo(pws, i + 1, AppendedTo(grouped, pws[i]))
  {
    assert pws[..i + 1][..i] == pws[..i];
    forall tid ensures GroupOf(AppendedTo(grouped, pws[i]), tid) == WritesOf(pws[..i + 1], tid) {
      assert GroupOf(grouped, tid) == WritesOf(pws[..i], tid);
    }
  }

  /** `[(k, v) for t in tasks for k, v in grouped.get(t.id, [])]`. */
  method OrderedWrites(tasks: seq<PregelTask>, pws: seq<PendingWrite>) returns (writes: seq<Write>)
    ensures writes == WritesInTaskOrder(tasks, pws)
  {
    var grouped := GroupPendingWrites(pws);
    writes := [];
    ghost var parts := seq(|tasks|, i requires 0 <= i < |tasks| => WritesOf(pws, tasks[i].id));
    assert parts[0..] == parts;
    for j := 0 to |tasks|
      invariant writes + Concat(parts[j..]) == Concat(parts)
    {
      assert parts[j..] == [parts[j]] + parts[j + 1..];
      assert writes + Concat(parts[j..]) == (writes + parts[j]) + Concat(parts[j + 1..]);
      writes := writes + GroupOf(grouped, tasks[j].id);
    }
    assert parts[|tasks|..] == [];
    assert writes + [] == writes;
  }

  /** The loop attaching earlier pending writes to the freshly prepared tasks. */
  method AttachPendingWrites(tasks: seq<PregelTask>, pws: seq<PendingWrite>) returns (r: seq<PregelTask>)
    ensures r == Attach(tasks, pws)
  {
    r := tasks;
    for i := 0 to |pws|
      invariant r == Attach(tasks, pws[..i])
    {
      assert pws[..i + 1][..i] == pws[..i];
      var (tid, k, v) := pws[i];
      var found := FindTask(r, tid);
      if found.Some? {
        var t := found.value;
        r := r[t := r[t].(writes := r[t].writes + [(k, v)])];
      }
    }
    assert pws[..|pws|] == pws;
  }

  /** The interrupt's seen map once the channels outside `remaining` have
      been visited. */
  function MarkedExcept(cp: Checkpoint, channels: map<string, Channel>, base: map<string, int>,
                        remaining: set<string>): map<string, int>
  {
    base + map k | k in channels && k !in remaining && k in cp.channelVersions :: cp.channelVersions[k]
  }

  /** Visiting one more channel updates its entry, if it has a version, and
      nothing else. */
  lemma MarkedStep(cp: Checkpoint, channels: map<string, Channel>, base: map<string, int>,
                   remaining: set<string>, k: string)
    requires k in remaining && remaining <= channels.Keys
    ensures MarkedExcept(cp, channels, base, remaining - {k}) ==
            if k in cp.channelVersions then MarkedExcept(cp, channels, base, remaining)[k := cp.channelVersions[k]]
            else MarkedExcept(cp, channels, base, remaining)
  {
    var before := MarkedExcept(cp, channels, base, remaining);
    var after := MarkedExcept(cp, channels, base, remaining - {k});
    var expected := if k in cp.channelVersions then before[k := cp.channelVersions[k]] else before;
    assert after.Keys == expected.Keys;
    forall c | c in after ensures after[c] == expected[c] {
    }
  }

  /** Before any channel is visited the map is the prior one; after all of
      them it is the interrupt's new seen map. */
  lemma MarkedEnds(cp: Checkpoint, channels: map<string, Channel>, base: map<string, int>)
    ensures MarkedExcept(cp, channels, base, channels.Keys) == base
    ensures base == (if INTERRUPT in cp.versionsSeen then cp.versionsSeen[INTERRUPT] else map[]) ==>
              MarkedExcept(cp, channels, base, {}) == InterruptSeen(cp, channels)
  {
    var visited := MarkedExcept(cp, channels, base, channels.Keys);
    assert visited.Keys == base.Keys;
  }

  /** `for k in channels: if k in channel_versions: seen[k] = version`. */
  method MarkInterruptSeen(cp: Checkpoint, channels: map<string, Channel>) returns (seen: map<string, int>)
    ensures seen == InterruptSeen(cp, channels)
  {
    seen := if INTERRUPT in cp.versionsSeen then cp.versionsSeen[INTERRUPT] else map[];
    ghost var base := seen;
    var remaining := channels.Keys;
    MarkedEnds(cp, channels, base);
    while remaining != {}
      invariant remaining <= channels.Keys
      invariant seen == MarkedExcept(cp, channels, base, remaining)
      decreases |remaining|
    {
      var k :| k in remaining;
      MarkedStep(cp, channels, base, remaining, k);
      if k in cp.channelVersions {
        seen := seen[k := cp.channelVersions[k]];
      }
      remaining := remaining - {k};
    }
    assert remaining == {};
  }

  // Properties of `tick`

  /** What one tick can do: refuse when the loop has stopped; otherwise
      consume the input, advance the step by at most one, and return true
      only with tasks ready to run within the recursion limit. A tick that
      returns false and leaves the loop pending changed nothing. */
  lemma TickOutcome(s: LoopState, env: Env, interruptAfter: seq<string>, interruptBefore: seq<string>)
    ensures var (r, t) := TickSpec(s, env, interruptAfter, interruptBefore);
            s.status != Pending ==> r == Failure(RuntimeError("Cannot tick when status is " + StatusName(s.status))) && t == s
    ensures var (r, t) := TickSpec(s, env, interruptAfter, interruptBefore);
            s.status == Pending ==> r.Success? && t.input == InputDone
    ensures var (r, t) := TickSpec(s, env, interruptAfter, interruptBefore);
            r == Success(true) ==> t.status == Pending && t.tasks != [] && t.step <= env.recursionLimit
    ensures var (r, t) := TickSpec(s, env, interruptAfter, interruptBefore);
            r == Success(false) && t.status == Pending ==> t == s
    ensures var (r, t) := TickSpec(s, env, interruptAfter, interruptBefore);
            t.step == s.step || t.step == s.step + 1
  {
    if s.status == Pending && s.input.Given? {
      var f := FirstSpec(s, env);
      assert f.step == s.step || f.step == s.step + 1;
      assert f.status == Pending;
    }
  }

  /** After the input is consumed, a tick waits until as many distinct task
      ids have written as there are tasks; then it commits the writes in
      task order, clears them and checkpoints one step further on. */
  lemma TickCommitsWhenAllWritten(s: LoopState, env: Env, interruptAfter: seq<string>, interruptBefore: seq<string>)
    requires s.status == Pending && s.input == InputDone
    ensures |WrittenIds(s.pendingWrites)| != |s.tasks| ==>
              TickSpec(s, env, interruptAfter, interruptBefore) == (Success(false), s)
    ensures var (_, t) := TickSpec(s, env, interruptAfter, interruptBefore);
            |WrittenIds(s.pendingWrites)| == |s.tasks| ==>
              && t.channels == env.algo.apply(s.checkpoint, s.channels, WritesInTaskOrder(s.tasks, s.pendingWrites)).1
              && t.pendingWrites == [] && t.step == s.step + 1
    ensures var (cp, chs) := env.algo.apply(s.checkpoint, s.channels, WritesInTaskOrder(s.tasks, s.pendingWrites));
            var s1 := PutCheckpointSpec(s.(checkpoint := cp, channels := chs, pendingWrites := []), LoopSource, env);
            |WrittenIds(s.pendingWrites)| == |s.tasks| ==>
              && (env.algo.shouldInterrupt(s1.checkpoint, interruptAfter, s.tasks) ==>
                    var (r, t) := TickSpec(s, env, interruptAfter, interruptBefore);
                    && r == Success(false) && t == s1.(status := InterruptAfter) && t.tasks == s.tasks)
              && (!env.algo.shouldInterrupt(s1.checkpoint, interruptAfter, s.tasks) ==>
                    TickSpec(s, env, interruptAfter, interruptBefore) == Continue(s1, env, interruptBefore))
  {
  }

  // Properties of the pending writes

  lemma {:induction false} WritesOfAppend(pws: seq<PendingWrite>, more: seq<PendingWrite>, tid: string)
    ensures WritesOf(pws + more, tid) == WritesOf(pws, tid) + WritesOf(more, tid)
    decreases |more|
  {
    if more == [] {
      assert pws + more == pws;
    } else {
      var init := more[..|more| - 1];
      assert (pws + more)[..|pws + more| - 1] == pws + init;
      WritesOfAppend(pws, init, tid);
    }
  }

  lemma {:induction false} WritesOfTagged(taskId: string, writes: seq<Write>, tid: string)
    ensures WritesOf(Tagged(taskId, writes), tid) == if tid == taskId then writes else []
    decreases |writes|
  {
    if writes != [] {
      var init := writes[..|writes| - 1];
      assert Tagged(taskId, writes)[..|writes| - 1] == Tagged(taskId, init);
      WritesOfTagged(taskId, init, tid);
      assert writes == init + [writes[|writes| - 1]];
    }
  }

  /** `put_writes` records the task's writes after its earlier ones and
      adds nothing to any other task. */
  lemma PutWritesRecords(pws: seq<PendingWrite>, taskId: string, writes: seq<Write>, tid: string)
    ensures WritesOf(pws + Tagged(taskId, writes), tid) == WritesOf(pws, tid) + if tid == taskId then writes else []
  {
    WritesOfAppend(pws, Tagged(taskId, writes), tid);
    WritesOfTagged(taskId, writes, tid);
  }

  /** A task counts as having written once it recorded at least one write;
      a task that records none is not counted. */
  lemma PutWritesCounts(pws: seq<PendingWrite>, taskId: string, writes: seq<Write>)
    ensures WrittenIds(pws + Tagged(taskId, writes)) == WrittenIds(pws) + if writes == [] then {} else {taskId}
  {
    var tagged := Tagged(taskId, writes);
    if writes != [] {
      assert tagged[0] in pws + tagged;
    }
  }

  /** The writes committed by a tick do not depend on the order in which
      two different tasks called `put_writes`. */
  lemma CommitOrderIgnoresInterleaving(tasks: seq<PregelTask>, pws: seq<PendingWrite>,
                                        a: string, wa: seq<Write>, b: string, wb: seq<Write>)
    requires a != b
    ensures WritesInTaskOrder(tasks, pws + Tagged(a, wa) + Tagged(b, wb))
         == WritesInTaskOrder(tasks, pws + Tagged(b, wb) + Tagged(a, wa))
  {
    forall tid ensures WritesOf(pws + Tagged(a, wa) + Tagged(b, wb), tid) == WritesOf(pws + Tagged(b, wb) + Tagged(a, wa), tid) {
      PutWritesRecords(pws, a, wa, tid);
      PutWritesRecords(pws + Tagged(a, wa), b, wb, tid);
      PutWritesRecords(pws, b, wb, tid);
      PutWritesRecords(pws + Tagged(b, wb), a, wa, tid);
    }
    var ab := pws + Tagged(a, wa) + Tagged(b, wb);
    var ba := pws + Tagged(b, wb) + Tagged(a, wa);
    assert seq(|tasks|, i requires 0 <= i < |tasks| => WritesOf(ab, tasks[i].id))
        == seq(|tasks|, i requires 0 <= i < |tasks| => WritesOf(ba, tasks[i].id));
  }

  lemma {:induction false} InWritesOf(pws: seq<PendingWrite>, j: nat)
    requires j < |pws|
    ensures (pws[j].1, pws[j].2) in WritesOf(pws, pws[j].0)
    decreases |pws|
  {
    if j < |pws| - 1 {
      var init := pws[..|pws| - 1];
      assert init[j] == pws[j];
      InWritesOf(init, j);
    }
  }

  lemma {:induction false} FromWritesOf(pws: seq<PendingWrite>, tid: string, x: Write)
    requires x in WritesOf(pws, tid)
    ensures exists j | 0 <= j < |pws| :: pws[j] == (tid, x.0, x.1)
    decreases |pws|
  {
    var init := pws[..|pws| - 1];
    var last := pws[|pws| - 1];
    if x in WritesOf(init, tid) {
      FromWritesOf(init, tid, x);
      var j :| 0 <= j < |init| && init[j] == (tid, x.0, x.1);
      assert pws[j] == init[j];
    } else {
      assert pws[|pws| - 1] == (tid, x.0, x.1);
    }
  }

  lemma {:induction false} InConcat(ws: seq<seq<Write>>, i: nat, x: Write)
    requires i < |ws| && x in ws[i]
    ensures x in Concat(ws)
    decreases |ws|
  {
    if i > 0 {
      assert ws[1..][i - 1] == ws[i];
      InConcat(ws[1..], i - 1, x);
    }
  }

  lemma {:induction false} FromConcat(ws: seq<seq<Write>>, x: Write)
    requires x in Concat(ws)
    ensures exists i | 0 <= i < |ws| :: x in ws[i]
    decreases |ws|
  {
    if x !in ws[0] {
      FromConcat(ws[1..], x);
      var i :| 0 <= i < |ws[1..]| && x in ws[1..][i];
      assert ws[i + 1] == ws[1..][i];
    }
  }

  /** Nothing is lost and nothing invented on commit: a write reaches the
      channels exactly when some pending write of one of the current tasks
      carries it. */
  lemma CommittedWrites(tasks: seq<PregelTask>, pws: seq<PendingWrite>, x: Write)
    ensures x in WritesInTaskOrder(tasks, pws) <==>
            exists i, j | 0 <= i < |tasks| && 0 <= j < |pws| :: pws[j] == (tasks[i].id, x.0, x.1)
  {
    var parts := seq(|tasks|, i requires 0 <= i < |tasks| => WritesOf(pws, tasks[i].id));
    if x in Concat(parts) {
      FromConcat(parts, x);
      var i :| 0 <= i < |parts| && x in parts[i];
      FromWritesOf(pws, tasks[i].id, x);
    }
    if exists i, j | 0 <= i < |tasks| && 0 <= j < |pws| :: pws[j] == (tasks[i].id, x.0, x.1) {
      var i, j :| 0 <= i < |tasks| && 0 <= j < |pws| && pws[j] == (tasks[i].id, x.0, x.1);
      InWritesOf(pws, j);
      InConcat(parts, i, x);
    }
  }

  // Properties of attaching earlier writes to prepared tasks

  predicate DistinctIds(tasks: seq<PregelTask>) {
    forall i, j | 0 <= i < j < |tasks| :: tasks[i].id != tasks[j].id
  }

  /** With distinct task ids, every task receives exactly its own earlier
      writes, in order, after the writes it already had; ids and names are
      unchanged. */
  lemma {:induction false} AttachGivesEachTaskItsWrites(tasks: seq<PregelTask>, pws: seq<PendingWrite>)
    requires DistinctIds(tasks)
    ensures var r := Attach(tasks, pws);
            forall i | 0 <= i < |tasks| :: r[i] == tasks[i].(writes := tasks[i].writes + WritesOf(pws, tasks[i].id))
    decreases |pws|
  {
    if pws != [] {
      var init := pws[..|pws| - 1];
      var pw := pws[|pws| - 1];
      AttachGivesEachTaskItsWrites(tasks, init);
      var prior := Attach(tasks, init);
      forall i | 0 <= i < |tasks| ensures AttachOne(prior, pw)[i] == tasks[i].(writes := tasks[i].writes + WritesOf(pws, tasks[i].id)) {
        match FindTask(prior, pw.0)
        case None =>
        case Some(k) =>
          if k != i {
            assert prior[k].id == tasks[k].id;
            assert tasks[i].id != tasks[k].id;
          }
      }
    }
  }
}
