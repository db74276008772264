# Pregel superstep engine — a Dafny model

This project models the core of the `permchain` / `langgraph` Pregel engine.
A graph of processes ("chains") talks through named channels. The
computation runs in supersteps:

- **Preparing tasks.** Every process with a trigger channel whose version
  rose above the version it last saw gets a task. The task's input is read
  from the channels.
- **Running and committing.** The tasks run against an unchanging view of
  the channels, and their writes are buffered. At the barrier the writes are
  grouped by channel and committed, so each channel gets one `update`. The
  reserved `is_last_step` channel is also committed, and the version of
  every written channel rises by one.
- **Output.** The output channel is emitted when it was written in the step.
- **Stopping.** The loop stops when no process is triggered, or after
  `recursion_limit` steps.

The second half of the model covers the newer `PregelLoop` state machine
(`langgraph/pregel/loop.py`):

- `__enter__` restores a checkpoint.
- Each `tick` either consumes the input, or, once as many distinct task ids
  have written as there are tasks, commits the pending writes in task order
  and checkpoints. It then decides
  whether to stop or to run the next tasks.
- `put_writes` records the writes of a task.
- `put_checkpoint` advances the step.

It also covers `get_new_channel_versions`.

Modules, one per file:

- `wrappers.dfy` — `Option` and `Result`.
- `values.dfy` — the dynamically typed values and the exceptions raised.
- `seqs.dfy` — de-duplication in first-occurrence order, which is how a
  Python dict orders its keys.
- `channels.dfy` — `LastValue` and `Inbox` channels, with `get` and `update`.
- `builders.dfy` — `Channel.subscribe_to`, `subscribe_to_each`, `write_to`
  and `_coerce_write_value`.
- `writes.dfy` — the barrier commit of `_apply_writes`, as the ghost function
  `Commit`, plus the grouping loop.
- `tasks.dfy` — `_read_channel` and `_prepare_next_tasks`, as the function
  `NextTasks`.
- `engine.dfy` — class `Engine`, whose fields are the channels and the
  checkpoint's `versions` and `seen`. Its methods `ApplyWrites` and
  `PrepareNextTasks` update these fields in place, and each is proved equal
  to `Commit` or `NextTasks`.
- `pregel.dfy` — the step loop of `_transform`, as the method `Transform`
  proved against `TransformSpec`, and `invoke`.
- `utils.dfy` — `get_new_channel_versions`.
- `loop.dfy` — `PregelLoop`:
  - a class whose methods are proved equal to pure transition functions over
    `LoopState`;
  - the helper loops of `tick` and `first`;
  - the lemmas about ticking and pending writes.

Behaviour of the code worth noting:

- **Reaching the limit.** `_transform` runs `for step in range(recursion_limit)`
  and leaves the loop early only when no task is prepared
  (`permchain/pregel/__init__.py:233-238`). Reaching the limit ends the run
  without an error.
- **No output.** `invoke` keeps the last chunk that `stream` yielded, starting
  from `None` (`permchain/pregel/__init__.py:397-400`), so a run that emits
  nothing returns `None`.
- **Two writers in one step.** Two writes in one step to a `LastValue`
  channel make the commit raise `InvalidUpdateError`
  (`tests/test_pregel_async.py:239-241`).
- **Empty subscribed channels.** `_read_channel` returns `None` for an empty
  channel whatever its `catch` argument
  (`permchain/pregel/__init__.py:497-503`). The `except EmptyChannelError`
  around the subscription reads therefore never fires, and a triggered
  subscription process is always scheduled, with `None` for each empty
  channel.

## Model

| member | source | states |
|---|---|---|
| Values.Iterate | permchain/pregel/__init__.py:579-580 | `for v in val` goes over the items of a list or tuple, the characters of a string and the keys of a dict. Any other value raises TypeError. |
| Seqs.Dedup | permchain/pregel/__init__.py:108 | The keys of `{chan: chan for chan in channels}`: each element of the input exactly once, with no repetition. |
| Seqs.DedupFirstOccurrence | permchain/pregel/__init__.py:108 | Those keys come in the order of their first occurrence in the input. |
| Channels.Updated | tests/test_pregel_async.py:259-261 | After an accepted update, an Inbox returns the tuple of this step's values. A LastValue returns its single new value, or keeps its old one when it got none. The kind of channel never changes. |
| Channels.Update | tests/test_pregel_async.py:239-241 | `update` raises InvalidUpdateError exactly when a LastValue channel receives more than one value in a step. |
| Builders.IdentityMapping | permchain/pregel/__init__.py:108 | The mapping for several channels has one `(c, c)` entry per distinct channel, in first-occurrence order. |
| Builders.SubscribeTo | permchain/pregel/__init__.py:94-111 | With several channels and a key, it raises ValueError, and in no other case. One channel gives `{key: channel}` with that channel as the only trigger. Several channels give the identity mapping, in first-occurrence order with distinct keys, and all of them are triggers in the order given. |
| Builders.CoerceWriteValue | permchain/pregel/__init__.py:76-79 | A callable is kept as it is. Any other value becomes the function that returns that value for every input. |
| Builders.WriteTo | permchain/pregel/__init__.py:119-130 | The positional channels come first, in order and without a mapper. Then come the keyword targets in order, each with a mapper that behaves as its coerced value. |
| Writes.GroupByChannel | permchain/pregel/__init__.py:513-518 | The grouping loop raises for the first write to a reserved channel. Otherwise it gives every written channel, in first-write order, with its values in submission order. |
| Writes.ValuesForEmpty | permchain/pregel/__init__.py:515-518 | A channel's group is empty exactly when no write targets it. |
| Writes.TwoWritesTwoValues | permchain/pregel/__init__.py:515-518 | Two writes to one channel put at least two values in its group. |
| Writes.NoReservedNoLastStep | permchain/pregel/__init__.py:515-518 | Writes that avoid the reserved names never put anything in `is_last_step`'s group. |
| Writes.BumpedVersions | permchain/pregel/__init__.py:527-531 | A channel's version rises by one exactly when it is declared and was written. Every other version is kept. |
| Writes.UpdatedChannels | permchain/pregel/__init__.py:527-537 | Every declared channel gets exactly one update, holding the values grouped for it (possibly none). No channel is added or removed. |
| Writes.CommitRejectsReserved | permchain/pregel/__init__.py:515-517 | A write to `is_last_step` makes the commit raise ValueError. |
| Writes.CommitSetsIsLastStep | permchain/pregel/__init__.py:521-523 | `is_last_step` always receives the single value `for_step + 1 == recursion_limit`, and its version rises. |
| Writes.CommitUpdatesEachChannelOnce | permchain/pregel/__init__.py:525-537 | Each other declared channel receives exactly the values written to it, in order. Its version rises by one if and only if it was written. Writes to undeclared channels are dropped. The set of channels is unchanged. |
| Writes.LastValueRejectsTwoWriters | tests/test_pregel_async.py:239-241 | Two writes in one step to a LastValue channel make the commit raise InvalidUpdateError. |
| Writes.InboxHoldsStepBatch | tests/test_pregel_async.py:259-261 | After a commit an Inbox holds exactly the batch written to it in that step. |
| Tasks.ReadChannel | permchain/pregel/__init__.py:497-503 | An undeclared channel raises KeyError. An empty channel reads as None. Any other channel gives its value. |
| Tasks.MarkSeen | permchain/pregel/__init__.py:570-572 | After a task is scheduled, the process has seen the current version of each of its triggers and is no longer triggered. Its other entries are kept. |
| Tasks.ReadAll | permchain/pregel/__init__.py:555-560 | The subscription dict has one entry per mapping entry, in order, each holding the value read. The read fails exactly when some subscribed channel is undeclared, and then with KeyError for the first such channel. |
| Tasks.WrapEach | permchain/pregel/__init__.py:579-580 | Each batch element `v` becomes `{key: v}`, in order. |
| Tasks.TaskInput | permchain/pregel/__init__.py:555-580 | A keyless single subscription gets the bare value, and any other subscription a dict with one entry per subscribed channel. A batch process gets the inbox's tuple; with a key, each element is wrapped as `{key: v}`. Reading an empty batch channel raises EmptyChannelError, and an undeclared one raises KeyError. |
| Tasks.TaskInputReads | permchain/pregel/__init__.py:555-580 | A subscription process's input is the dict of the values `ReadAll` reads, and it fails exactly when that read does, with its error. A keyed batch process fails exactly when the channel's value cannot be iterated, with TypeError; otherwise it gets every element wrapped as `{key: v}`. |
| Tasks.NextTasksExactly | permchain/pregel/__init__.py:540-585 | The prepared tasks are exactly the triggered processes, in registration order. Each task carries the process registered under its name and the input read for it. A process's `seen` moves to its trigger versions if and only if it was scheduled. |
| Tasks.NextTasksFails | permchain/pregel/__init__.py:548-585 | Preparing raises if and only if some triggered process's input cannot be read. The error is that of the first such process in registration order. |
| Tasks.NextTasksNames | permchain/pregel/__init__.py:548-552 | The task names are the scheduled process names. |
| Tasks.NextTasksInputs | permchain/pregel/__init__.py:555-580 | Every task carries the input read for its process, and that process is the one registered under the task's name. |
| Tasks.NextTasksSeen | permchain/pregel/__init__.py:570-572 | `seen` changes only for scheduled processes, and for them it changes to their trigger versions. |
| Tasks.ScheduledIgnoresOtherSeen | permchain/pregel/__init__.py:549 | Updating one process's `seen` does not change whether any other process is triggered. |
| Tasks.NothingTriggeredNoTasks | permchain/pregel/__init__.py:548-585 | When no process is triggered, there are no tasks and `seen` is unchanged. |
| Tasks.NoTasksNothingTriggered | permchain/pregel/__init__.py:548-585 | Conversely, no tasks means no process was triggered and `seen` is unchanged. |
| Tasks.PrepareTwice | permchain/pregel/__init__.py:570-572 | Preparing again without a commit in between schedules nothing. |
| Tasks.ScheduledIff | permchain/pregel/__init__.py:552 | A process is scheduled if and only if one of its trigger versions is above what it has seen. |
| Engine.EmptyChannels | permchain/pregel/__init__.py:215-217 | A fresh run has exactly the declared channels, each of its declared kind and empty. |
| Engine.WithLastStep | permchain/pregel/__init__.py:521-523 | Adding the reserved entry keeps the grouped names distinct and the values per channel correct. |
| Engine.AppliedStep | permchain/pregel/__init__.py:527-531 | Each pass of the update loop either updates one declared channel and bumps its version, or raises InvalidUpdateError because that channel refuses its values. |
| Engine.AppliedAll | permchain/pregel/__init__.py:527-533 | After the loop, the updated channels are exactly the declared ones that were written, none refused, and the versions are the bumped ones. |
| Engine.Engine.constructor | permchain/pregel/__init__.py:212-217 | A run starts with empty channels, no versions and nothing seen. |
| Engine.Engine.ApplyWrites | permchain/pregel/__init__.py:506-537 | `_apply_writes` leaves the channels and versions that `Commit` describes, or raises its error. A reserved write changes nothing. `seen` is untouched. |
| Engine.Engine.UpdateWritten | permchain/pregel/__init__.py:525-533 | Every grouped name that is declared gets one update and one version bump. The first refusal raises InvalidUpdateError. |
| Engine.Engine.NotifyUnwritten | permchain/pregel/__init__.py:534-537 | Every channel that was not updated gets `update([])`. |
| Engine.Engine.PrepareNextTasks | permchain/pregel/__init__.py:540-585 | `_prepare_next_tasks` returns the tasks of `NextTasks` and moves `seen` to its result. It only reads the channels and versions. |
| Pregel.RunTasks | permchain/pregel/__init__.py:248-270 | A step fails if and only if some task fails, and then with the error of the first failing task. Otherwise its writes are those of every task, in task order. |
| Pregel.RunStep | permchain/pregel/__init__.py:243-270 | Running the tasks one by one and collecting their writes gives `RunTasks`. |
| Pregel.InputWrites | permchain/pregel/__init__.py:221 | Every input chunk becomes one write to the input channel, in order. |
| Pregel.OutputFor | permchain/pregel/__init__.py:278-280 | The output channel's value is emitted exactly when a write of the step targeted it. |
| Pregel.Transform | permchain/pregel/__init__.py:200-280 | `_transform` raises ValueError for a limit below 1. Otherwise it commits the input at step 0 and then runs the steps as `TransformSpec` describes. |
| Pregel.Latest | permchain/pregel/__init__.py:397-400 | The last emitted output, or None when nothing was emitted. |
| Pregel.Invoke | permchain/pregel/__init__.py:391-400 | `invoke` returns the latest output of the run on its input, or raises the run's error. |
| Pregel.StepsBounded | permchain/pregel/__init__.py:233-238 | A run takes at most `recursion_limit` steps, and exactly that many unless it stopped because nothing was triggered. It does not raise at the limit. Each step emits at most one output, and earlier outputs are kept. |
| Pregel.QuiescentIsSettled | permchain/pregel/__init__.py:234-238 | A run that stops early stops in a state where no process is triggered. |
| Pregel.TransformBounded | permchain/pregel/__init__.py:208-238 | A successful run had a limit of at least 1 and stayed within it, emitted at most one output per step, and if it stopped early, stopped settled. |
| Pregel.FailingTaskAborts | permchain/pregel/__init__.py:265-270 | A failing task makes the run raise its error, before the step's writes reach the barrier. |
| Pregel.FirstFailure | permchain/pregel/__init__.py:478-485 | The error raised is that of the first failing task in task order. |
| Utils.GetNewChannelVersions | libs/langgraph/langgraph/pregel/utils.py:13-28 | An empty previous map gives the current versions. Otherwise it keeps exactly the channels whose version is above the previous one (0 when missing), with their current versions. |
| Utils.UnchangedHasNothingNew | libs/langgraph/langgraph/pregel/utils.py:17-24 | Comparing a non-empty map with itself finds nothing new. |
| Utils.CatchUp | libs/langgraph/langgraph/pregel/utils.py:17-28 | After the new versions are merged into the previous map, asking again finds nothing new, for any two maps. |
| Loop.Entered | libs/langgraph/langgraph/pregel/loop.py:96-124 | Entering leaves the loop pending, with no tasks, at the saved step plus one. The saved checkpoint, metadata and pending writes are restored, and the channels are restored from that checkpoint. Without a saved checkpoint it starts at step -1 from the empty checkpoint, with metadata at step -2 and no pending writes. |
| Loop.PregelLoop.constructor | libs/langgraph/langgraph/pregel/loop.py:96-124 | `__enter__` sets the state `Entered` describes. |
| Loop.PutCheckpointSpec | libs/langgraph/langgraph/pregel/loop.py:275-314 | The step always rises by one. With a checkpointer, a new checkpoint is created from the current checkpoint, channels and step, and the metadata is stamped with the source and the old step. Without one, nothing else changes. |
| Loop.PregelLoop.PutCheckpoint | libs/langgraph/langgraph/pregel/loop.py:275-314 | `put_checkpoint` sets the state `PutCheckpointSpec` describes. |
| Loop.InterruptSeen | libs/langgraph/langgraph/pregel/loop.py:249-255 | Every channel that has a version is recorded as seen by the interrupt at that version. Every earlier entry of the interrupt is kept, and keeps its value unless the channel has a version. |
| Loop.MarkInterruptSeen | libs/langgraph/langgraph/pregel/loop.py:252-255 | The loop over the channels builds exactly `InterruptSeen`. |
| Loop.FirstSpec | libs/langgraph/langgraph/pregel/loop.py:225-257 | `first` always consumes the input. With input writes, it discards the unfinished tasks through `prepare`, applies the writes to the channels and checkpoints with source `input`, one step further on. Without them, it records the current versions as seen by the interrupt and leaves the channels, step and metadata as they were. |
| Loop.PregelLoop.First | libs/langgraph/langgraph/pregel/loop.py:225-257 | `first` sets the state `FirstSpec` describes. |
| Loop.FindTask | libs/langgraph/langgraph/pregel/loop.py:215 | Finds the first task with the given id, or reports that there is none. |
| Loop.Continue | libs/langgraph/langgraph/pregel/loop.py:186-223 | Past the recursion limit the loop stops out of steps, before anything is prepared. Otherwise the prepared checkpoint is kept. No prepared tasks sets the status to done. Otherwise the tasks get their earlier writes attached, and the loop is interrupted before running exactly when `should_interrupt` says so; if it is not interrupted the result is true. |
| Loop.PregelLoop.Tick | libs/langgraph/langgraph/pregel/loop.py:135-223 | `tick` returns and sets what `TickSpec` describes. |
| Loop.PregelLoop.PutWrites | libs/langgraph/langgraph/pregel/loop.py:259-260 | `put_writes` appends one `(task_id, channel, value)` per write, in order, and changes nothing else. |
| Loop.Tagged | libs/langgraph/langgraph/pregel/loop.py:260 | Each write is tagged with the task id, in order. |
| Loop.TickOutcome | libs/langgraph/langgraph/pregel/loop.py:135-223 | A stopped loop refuses to tick with RuntimeError and stays the same. A pending loop consumes its input and advances at most one step. True means tasks are ready within the limit. A false result that leaves the loop pending changed nothing. |
| Loop.TickCommitsWhenAllWritten | libs/langgraph/langgraph/pregel/loop.py:146-184 | The loop waits until as many distinct task ids have written as there are tasks. Then it commits the writes in task order, clears them and checkpoints. If `should_interrupt` then holds for `interrupt_after`, the tick returns False with status `interrupt_after` and prepares nothing; otherwise it goes on as `Continue` describes. |
| Loop.GroupPendingWrites | libs/langgraph/langgraph/pregel/loop.py:150-152 | Each task id is mapped to its writes, in `put_writes` order. |
| Loop.OrderedWrites | libs/langgraph/langgraph/pregel/loop.py:150-153 | The committed writes are those of each task in task order. |
| Loop.AttachPendingWrites | libs/langgraph/langgraph/pregel/loop.py:213-216 | The loop over earlier writes attaches each of them as `Attach` describes. |
| Loop.WritesOfAppend | libs/langgraph/langgraph/pregel/loop.py:150-152 | A task's writes from two runs of pending writes are its writes from each, concatenated. |
| Loop.WritesOfTagged | libs/langgraph/langgraph/pregel/loop.py:260 | The writes recorded by one `put_writes` belong to that task only. |
| Loop.PutWritesRecords | libs/langgraph/langgraph/pregel/loop.py:259-260 | `put_writes` adds the task's writes after its earlier ones, and nothing to any other task. |
| Loop.PutWritesCounts | libs/langgraph/langgraph/pregel/loop.py:146-147 | A task counts as having written once it recorded at least one write. A call with no writes is not counted. |
| Loop.CommitOrderIgnoresInterleaving | libs/langgraph/langgraph/pregel/loop.py:150-153 | The committed writes do not depend on the order in which two different tasks called `put_writes`. |
| Loop.CommittedWrites | libs/langgraph/langgraph/pregel/loop.py:150-153 | A write is committed if and only if some pending write of a current task carries it. |
| Loop.AttachGivesEachTaskItsWrites | libs/langgraph/langgraph/pregel/loop.py:213-216 | With distinct ids, each task receives exactly its own earlier writes, in order, after those it had. Ids and names are unchanged. |

## Left out

- Concurrency, the thread and async executors, `step_timeout` and its TimeoutError, and `_atransform`: tasks run one after another in task order. With FIRST_EXCEPTION the executor may report a different failing task than the first one in order; the model raises the first.
- Tasks run as an abstract `Executor` function of the task and a snapshot of the channels. Reads through `CONFIG_KEY_READ` during a step see that snapshot. What runnables compute is not modelled.
- Checkpoint savers, `create_checkpoint` and the save points in `_transform` are not modelled. Callbacks, run managers, `debug` printing and stream modes are left out too.
- `map_input` and `map_output` from `io.py` are not part of this model. They are modelled only for a single input and a single output channel name.
- Channel types other than `LastValue` and `Inbox` are not modelled. The channel implementations are not part of this model. Their `get`/`update` behaviour is the one the tests rely on.
- Reserved channels: only `is_last_step` is modelled, because the reserved-channel enumeration is not part of this model.
- The zero and empty entries that Python `defaultdict` lookups insert into `versions` and `seen` are not modelled. Every read goes through a default instead, which gives the same values.
- Engine.Engine.ApplyWrites: on InvalidUpdateError the source has already updated some channels. The model does not say which, only that the error is raised.
- Engine.Engine.PrepareNextTasks: on a failed read, the `seen` entries already updated are left unspecified.
- Pregel.Transform: outputs that were yielded before a later step raised are not returned alongside the error.
- `validate_chains_channels` and the Pydantic validation of `Pregel` are not modelled, and neither is `ChannelWrite` execution (`write.py`).
- The collaborators of `PregelLoop` are abstract functions in `Loop.Algo`: `prepare_next_tasks`, `apply_writes`, `should_interrupt`, `map_input`, `create_checkpoint` and the `ChannelsManager` restore. The versions they use are theirs.
- Loop.PutCheckpointSpec: the checkpoint metadata's `writes` field is not modelled. Neither are the checkpoint config, `thread_ts`, the submitted saver calls or the debug stream.
- Loop.PregelLoop.PutWrites: the background `checkpointer.put_writes` call is not modelled.
- Loop.PregelLoop.Tick: the `values` stream output and `output_keys` are not modelled.
- The managed values are not modelled. `__exit__` is not modelled either.
- Loop.Entered: the source leaves `tasks` unset after `__enter__`. `first` discards the tasks it prepares, so `tasks` is first set by the prepare step of a tick (`libs/langgraph/langgraph/pregel/loop.py:193`). The model starts with an empty task list. It also allows entering with the input already consumed, in which case that empty list is what the first tick reads.
- `find_subgraph_pregel` in `utils.py`, the Kafka scheduler, `connection.py` and the examples are outside this model.
- Utils.GetNewChannelVersions: versions are integers, so the null version is 0. Other version types are not modelled.
