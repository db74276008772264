/** The sequential step loop of `Pregel._transform` and `Pregel.invoke`:
    commit the input at step 0, then for at most `recursion_limit` steps
    prepare tasks, run them on a snapshot of the channels, commit their
    writes at the barrier and emit the output channel when it was written. */
module Pregel {
  import opened Wrappers
  import opened Values
  import opened Channels
  import opened Builders
  import opened Writes
  import opened Tasks
  import opened Engine

  /** A graph: processes in registration order, the declared channels and
      their kinds, the input channel and the output channel. */
  datatype Graph = Graph(procs: seq<(string, Process)>, kinds: map<string, ChannelKind>,
                         input: string, output: string)

  /** Running one task: the writes it sends, or the exception it raises. A
      task may read any channel, and sees the channels as they were at the
      start of the step. */
  type Executor = (Task, map<string, Channel>) -> Result<seq<Write>, Error>

  /** The outcome of a run: the emitted output values, the number of steps
      that ran, whether the run stopped because no task was scheduled, and
      the final state. */
  datatype Run = Run(outputs: seq<Value>, steps: nat, quiescent: bool, final: Snapshot)

  function Concat(ws: seq<seq<Write>>): seq<Write>
    decreases |ws|
  {
    if ws == [] then [] else ws[0] + Concat(ws[1..])
  }

  /** All tasks of a step, in task order: the writes of all of them, or the
      error of the first one that fails. */
  function RunTasks(exec: Executor, tasks: seq<Task>, snapshot: map<string, Channel>): (r: Result<seq<Write>, Error>)
    ensures r.Failure? <==> exists i | 0 <= i < |tasks| :: exec(tasks[i], snapshot).Failure?
    ensures r.Failure? ==> exists i | 0 <= i < |tasks| ::
              && exec(tasks[i], snapshot) == Failure(r.error)
              && forall k | 0 <= k < i :: exec(tasks[k], snapshot).Success?
    ensures r.Success? ==> r.value == Concat(seq(|tasks|, i requires 0 <= i < |tasks| => exec(tasks[i], snapshot).value))
    decreases |tasks|
  {
    if tasks == [] then Success([])
    else
      var w :- exec(tasks[0], snapshot);
      var rest := RunTasks(exec, tasks[1..], snapshot);
      assert forall i | 1 <= i < |tasks| :: tasks[i] == tasks[1..][i - 1];
      if rest.Failure? then
        Failure(rest.error)
      else
        assert forall i | 0 <= i < |tasks| :: exec(tasks[i], snapshot).Success?;
        var outs := seq(|tasks|, i requires 0 <= i < |tasks| => exec(tasks[i], snapshot).value);
        assert outs[0] == w;
        assert outs[1..] == seq(|tasks| - 1, i requires 0 <= i < |tasks| - 1 => exec(tasks[1..][i], snapshot).value);
        Success(w + rest.value)
  }

  /** The tasks run one after another, their writes collected in order; the
      first failure ends the step. */
  method RunStep(exec: Executor, tasks: seq<Task>, snapshot: map<string, Channel>) returns (r: Result<seq<Write>, Error>)
    ensures r == RunTasks(exec, tasks, snapshot)
  {
    var pending: seq<Write> := [];
    assert tasks[0..] == tasks;
    ghost var spec := RunTasks(exec, tasks, snapshot);
    assert Then([], spec) == spec by {
      if spec.Success? { assert [] + spec.value == spec.value; }
    }
    for i := 0 to |tasks|
      invariant RunTasks(exec, tasks, snapshot) == Then(pending, RunTasks(exec, tasks[i..], snapshot))
    {
      assert tasks[i..][1..] == tasks[i + 1..];
      var w := exec(tasks[i], snapshot);
      if w.Failure? {
        return Failure(w.error);
      }
      ThenStep(pending, w.value, RunTasks(exec, tasks[i + 1..], snapshot));
      pending := pending + w.value;
    }
    assert tasks[|tasks|..] == [];
    assert pending + [] == pending;
    r := Success(pending);
  }

  /** `pending` followed by the writes of the remaining tasks. */
  function Then(pending: seq<Write>, rest: Result<seq<Write>, Error>): Result<seq<Write>, Error> {
    if rest.Failure? then rest else Success(pending + rest.value)
  }

  lemma ThenStep(pending: seq<Write>, w: seq<Write>, rest: Result<seq<Write>, Error>)
    ensures Then(pending, Then(w, rest)) == Then(pending + w, rest)
  {
    if rest.Success? {
      assert pending + (w + rest.value) == (pending + w) + rest.value;
    }
  }

  /** `map_input` for a single input channel: every input chunk is a write
      to it. */
  function InputWrites(input: string, chunks: seq<Value>): (r: seq<Write>)
    ensures |r| == |chunks|
    ensures forall i | 0 <= i < |chunks| :: r[i] == (input, chunks[i])
  {
    seq(|chunks|, i requires 0 <= i < |chunks| => (input, chunks[i]))
  }

  /** `map_output` for a single output channel: its value is emitted when a
      write of this step targeted it, and nothing otherwise. */
  function OutputFor(output: string, writes: seq<Write>, channels: map<string, Channel>): (r: Result<seq<Value>, Error>)
    ensures output !in Names(writes) ==> r == Success([])
    ensures output in Names(writes) ==> r == (if output in channels then Success([ReadChannel(channels, output).value])
                                              else Failure(KeyError(output)))
  {
    if output in Names(writes) then
      var v :- ReadChannel(channels, output);
      Success([v])
    else Success([])
  }

  /** The steps from `step` on, starting in state `s` with `outputs`
      already emitted. */
  ghost function Steps(g: Graph, exec: Executor, limit: int, step: nat, s: Snapshot, outputs: seq<Value>)
    : Result<Run, Error>
    decreases limit - step
  {
    if step >= limit then Success(Run(outputs, step, false, s))
    else
      var prepared :- NextTasks(g.procs, s.versions, s.seen, s.channels);
      var (tasks, seen') := prepared;
      if tasks == [] then Success(Run(outputs, step, true, s.(seen := seen')))
      else
        var writes :- RunTasks(exec, tasks, s.channels);
        var c :- Commit(s.channels, s.versions, writes, step + 1, limit);
        var out :- OutputFor(g.output, writes, c.channels);
        Steps(g, exec, limit, step + 1, Snapshot(c.channels, c.versions, seen'), outputs + out)
  }

  /** One step of `Steps` that scheduled tasks, ran them and committed
      their writes hands over to the next step. */
  lemma StepsNext(g: Graph, exec: Executor, limit: int, step: nat, s: Snapshot, outputs: seq<Value>,
                  tasks: seq<Task>, seen': Seen, writes: seq<Write>,
                  c: Committed, out: seq<Value>)
    requires step < limit
    requires NextTasks(g.procs, s.versions, s.seen, s.channels) == Success((tasks, seen'))
    requires tasks != []
    requires RunTasks(exec, tasks, s.channels) == Success(writes)
    requires Commit(s.channels, s.versions, writes, step + 1, limit) == Success(c)
    requires OutputFor(g.output, writes, c.channels) == Success(out)
    ensures Steps(g, exec, limit, step, s, outputs)
            == Steps(g, exec, limit, step + 1, Snapshot(c.channels, c.versions, seen'), outputs + out)
  {
  }

  /** What `_transform` does with the input chunks and `recursion_limit`. */
  ghost function TransformSpec(g: Graph, exec: Executor, chunks: seq<Value>, limit: int): Result<Run, Error> {
    if limit < 1 then Failure(ValueError("recursion_limit must be at least 1"))
    else
      var c :- Commit(EmptyChannels(g.kinds), map[], InputWrites(g.input, chunks), 0, limit);
      Steps(g, exec, limit, 0, Snapshot(c.channels, c.versions, map[]), [])
  }

  /** `Pregel._transform`, run sequentially. */
  method Transform(g: Graph, exec: Executor, chunks: seq<Value>, limit: int) returns (r: Result<Run, Error>)
    ensures r == TransformSpec(g, exec, chunks, limit)
    ensures limit < 1 ==> r == Failure(ValueError("recursion_limit must be at least 1"))
  {
    if limit < 1 {
      return Failure(ValueError("recursion_limit must be at least 1"));
    }
    var e := new Engine(g.kinds);
    var err := e.ApplyWrites(InputWrites(g.input, chunks), limit, 0);
    if err.Some? {
      return Failure(err.value);
    }
    var outputs: seq<Value> := [];
    var step: nat := 0;
    ghost var goal := TransformSpec(g, exec, chunks, limit);
    assert goal == Steps(g, exec, limit, step, e.Snap(), outputs);
    while step < limit
      invariant step <= limit
      invariant goal == TransformSpec(g, exec, chunks, limit)
      invariant goal == Steps(g, exec, limit, step, e.Snap(), outputs)
      decreases limit - step
    {
      ghost var s := e.Snap();
      var prepared := e.PrepareNextTasks(g.procs);
      if prepared.Failure? {
        return Failure(prepared.error);
      }
      var tasks := prepared.value;
      if tasks == [] {
        return Success(Run(outputs, step, true, e.Snap()));
      }
      var pending := RunStep(exec, tasks, e.channels);
      if pending.Failure? {
        return Failure(pending.error);
      }
      err := e.ApplyWrites(pending.value, limit, step + 1);
      if err.Some? {
        return Failure(err.value);
      }
      var out := OutputFor(g.output, pending.value, e.channels);
      if out.Failure? {
        return Failure(out.error);
      }
      StepsNext(g, exec, limit, step, s, outputs, tasks, e.seen, pending.value,
                Committed(e.channels, e.versions), out.value);
      outputs := outputs + out.value;
      step := step + 1;
    }
    r := Success(Run(outputs, step, false, e.Snap()));
  }

  /** The last emitted output, or None when nothing was emitted. */
  function Latest(outputs: seq<Value>): (v: Value)
    ensures outputs == [] ==> v == VNone
    ensures outputs != [] ==> v == outputs[|outputs| - 1]
  {
    if outputs == [] then VNone else outputs[|outputs| - 1]
  }

  /** `Pregel.invoke`: run on the single input and keep the latest output. */
  method Invoke(g: Graph, exec: Executor, input: Value, limit: int) returns (r: Result<Value, Error>)
    ensures var t := TransformSpec(g, exec, [input], limit);
            && (t.Failure? ==> r == Failure(t.error))
            && (t.Success? ==> r == Success(Latest(t.value.outputs)))
  {
    var t := Transform(g, exec, [input], limit);
    if t.Failure? {
      return Failure(t.error);
    }
    var outputs := t.value.outputs;
    var latest := VNone;
    for i := 0 to |outputs|
      invariant latest == Latest(outputs[..i])
    {
      latest := outputs[i];
    }
    assert outputs[..|outputs|] == outputs;
    r := Success(latest);
  }

  /** The loop runs at most `recursion_limit` steps and, unless it stopped
      because no task was scheduled, exactly that many; it does not raise
      when the limit is reached. Each step emits at most one output, and
      what was emitted stays emitted. */
  lemma {:induction false} StepsBounded(g: Graph, exec: Executor, limit: int, step: nat, s: Snapshot,
                                        outputs: seq<Value>)
    requires step <= limit
    requires Steps(g, exec, limit, step, s, outputs).Success?
    ensures var r := Steps(g, exec, limit, step, s, outputs).value;
            && step <= r.steps <= limit
            && (!r.quiescent ==> r.steps == limit)
            && |r.outputs| <= |outputs| + (r.steps - step)
            && outputs <= r.outputs
    decreases limit - step
  {
    if step < limit {
      var prepared := NextTasks(g.procs, s.versions, s.seen, s.channels).value;
      if prepared.0 != [] {
        var writes := RunTasks(exec, prepared.0, s.channels).value;
        var c := Commit(s.channels, s.versions, writes, step + 1, limit).value;
        var out := OutputFor(g.output, writes, c.channels).value;
        StepsNext(g, exec, limit, step, s, outputs, prepared.0, prepared.1, writes, c, out);
        StepsBounded(g, exec, limit, step + 1, Snapshot(c.channels, c.versions, prepared.1), outputs + out);
      }
    }
  }

  /** A run that stops early stops in a state where preparing again would
      schedule nothing and leave `seen` as it is. */
  lemma {:induction false} QuiescentIsSettled(g: Graph, exec: Executor, limit: int, step: nat, s: Snapshot,
                                              outputs: seq<Value>)
    requires Steps(g, exec, limit, step, s, outputs).Success?
    requires Steps(g, exec, limit, step, s, outputs).value.quiescent
    ensures var f := Steps(g, exec, limit, step, s, outputs).value.final;
            NextTasks(g.procs, f.versions, f.seen, f.channels) == Success(([], f.seen))
    decreases limit - step
  {
    var prepared := NextTasks(g.procs, s.versions, s.seen, s.channels).value;
    if prepared.0 == [] {
      NoTasksNothingTriggered(g.procs, s.versions, s.seen, s.channels);
    } else {
      var writes := RunTasks(exec, prepared.0, s.channels).value;
      var c := Commit(s.channels, s.versions, writes, step + 1, limit).value;
      var out := OutputFor(g.output, writes, c.channels).value;
      QuiescentIsSettled(g, exec, limit, step + 1, Snapshot(c.channels, c.versions, prepared.1), outputs + out);
    }
  }

  /** `_transform` raises ValueError for a limit below 1; otherwise a
      successful run took at most `limit` steps, exactly `limit` unless it
      ended quiescent, emitted at most one output per step, and a quiescent
      run ends where no process is triggered. */
  lemma TransformBounded(g: Graph, exec: Executor, chunks: seq<Value>, limit: int)
    requires TransformSpec(g, exec, chunks, limit).Success?
    ensures var r := TransformSpec(g, exec, chunks, limit).value;
            && 1 <= limit
            && r.steps <= limit
            && (!r.quiescent ==> r.steps == limit)
            && |r.outputs| <= r.steps
            && (r.quiescent ==> NextTasks(g.procs, r.final.versions, r.final.seen, r.final.channels)
                                == Success(([], r.final.seen)))
  {
    var c := Commit(EmptyChannels(g.kinds), map[], InputWrites(g.input, chunks), 0, limit).value;
    var s := Snapshot(c.channels, c.versions, map[]);
    StepsBounded(g, exec, limit, 0, s, []);
    if TransformSpec(g, exec, chunks, limit).value.quiescent {
      QuiescentIsSettled(g, exec, limit, 0, s, []);
    }
  }

  /** A step in which a task fails raises that task's error (the first
      failing one in task order) before its writes reach the barrier. */
  lemma FailingTaskAborts(g: Graph, exec: Executor, limit: int, step: nat, s: Snapshot,
                          outputs: seq<Value>, i: nat)
    requires step < limit
    requires NextTasks(g.procs, s.versions, s.seen, s.channels).Success?
    requires var tasks := NextTasks(g.procs, s.versions, s.seen, s.channels).value.0;
             && i < |tasks| && exec(tasks[i], s.channels).Failure?
             && forall k | 0 <= k < i :: exec(tasks[k], s.channels).Success?
    ensures var tasks := NextTasks(g.procs, s.versions, s.seen, s.channels).value.0;
            Steps(g, exec, limit, step, s, outputs) == Failure(exec(tasks[i], s.channels).error)
  {
    var tasks := NextTasks(g.procs, s.versions, s.seen, s.channels).value.0;
    FirstFailure(exec, tasks, s.channels, i);
  }

  /** The error of a step is the one of its first failing task. */
  lemma {:induction false} FirstFailure(exec: Executor, tasks: seq<Task>, snapshot: map<string, Channel>, i: nat)
    requires i < |tasks| && exec(tasks[i], snapshot).Failure?
    requires forall k | 0 <= k < i :: exec(tasks[k], snapshot).Success?
    ensures RunTasks(exec, tasks, snapshot) == Failure(exec(tasks[i], snapshot).error)
    decreases i
  {
    if i > 0 {
      assert tasks[1..][i - 1] == tasks[i];
      FirstFailure(exec, tasks[1..], snapshot, i - 1);
    }
  }
}
