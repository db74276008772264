/** Task preparation (`_prepare_next_tasks`, `_read_channel`): which
    processes run in the next step, what input each receives, and what each
    has seen afterwards. */
module Tasks {
  import opened Wrappers
  import opened Values
  import opened Seqs
  import opened Channels
  import opened Builders
  import opened Writes

  /** `checkpoint["seen"]`: per process, the channel versions it last ran on. */
  type Seen = map<string, map<string, int>>

  /** A scheduled run of process `name` on `input`. */
  datatype Task = Task(name: string, proc: Process, input: Value)

  /** `checkpoint["seen"][name]`, a defaultdict of defaultdicts. */
  function SeenOf(seen: Seen, name: string): map<string, int> {
    if name in seen then seen[name] else map[]
  }

  /** `_read_channel`: an undeclared channel raises KeyError, an empty one
      reads as None, any other yields its value. */
  function ReadChannel(channels: map<string, Channel>, chan: string): (r: Result<Value, Error>)
    ensures r.Failure? <==> chan !in channels
    ensures r.Failure? ==> r.error == KeyError(chan)
    ensures chan in channels && Get(channels[chan]).Failure? ==> r == Success(VNone)
    ensures chan in channels && Get(channels[chan]).Success? ==> r == Get(channels[chan])
  {
    if chan !in channels then Failure(KeyError(chan))
    else
      match Get(channels[chan])
      case Success(v) => Success(v)
      case Failure(_) => Success(VNone)
  }

  /** The channels whose versions can wake the process. */
  function TriggerChannels(p: Process): seq<string> {
    match p
    case ChannelInvoke(_, triggers) => triggers
    case ChannelBatch(channel, _) => [channel]
  }

  /** Some trigger channel has a newer version than the process has seen. */
  predicate Triggered(p: Process, versions: map<string, int>, s: map<string, int>) {
    exists c | c in TriggerChannels(p) :: Ver(versions, c) > Ver(s, c)
  }

  /** `seen.update({chan: versions[chan] for chan in triggers})`; after it
      the process is no longer triggered, and other entries are kept. */
  function MarkSeen(p: Process, versions: map<string, int>, s: map<string, int>): (r: map<string, int>)
    ensures forall c | c in TriggerChannels(p) :: Ver(r, c) == Ver(versions, c)
    ensures forall c | c !in TriggerChannels(p) :: Ver(r, c) == Ver(s, c)
    ensures !Triggered(p, versions, r)
  {
    s + map c | c in TriggerChannels(p) :: Ver(versions, c)
  }

  /** `{k: _read_channel(channels, chan) for k, chan in mapping}`; the first
      undeclared channel raises KeyError. */
  function ReadAll(m: seq<(Option<string>, string)>, channels: map<string, Channel>)
    : (r: Result<seq<(Value, Value)>, Error>)
    ensures r.Failure? <==> exists i | 0 <= i < |m| :: m[i].1 !in channels
    ensures r.Failure? ==> exists i | 0 <= i < |m| ::
              && m[i].1 !in channels && r.error == KeyError(m[i].1)
              && forall j | 0 <= j < i :: m[j].1 in channels
    ensures r.Success? ==> |r.value| == |m|
    ensures r.Success? ==> forall i | 0 <= i < |m| ::
              r.value[i] == (KeyValue(m[i].0), ReadChannel(channels, m[i].1).value)
    decreases |m|
  {
    if m == [] then Success([])
    else
      var v :- ReadChannel(channels, m[0].1);
      var rest := ReadAll(m[1..], channels);
      assert forall i | 1 <= i < |m| :: m[i] == m[1..][i - 1];
      if rest.Failure? then
        assert exists i | 1 <= i < |m| ::
                 && m[i].1 !in channels && rest.error == KeyError(m[i].1)
                 && forall j | 0 <= j < i :: m[j].1 in channels by {
          var i :| 0 <= i < |m[1..]| && m[1..][i].1 !in channels && rest.error == KeyError(m[1..][i].1)
                   && forall j | 0 <= j < i :: m[1..][j].1 in channels;
          assert m[i + 1] == m[1..][i];
          assert forall j | 1 <= j < i + 1 :: m[j].1 in channels by {
            forall j | 1 <= j < i + 1 ensures m[j].1 in channels {
              assert m[j] == m[1..][j - 1];
            }
          }
        }
        Failure(rest.error)
      else
        Success([(KeyValue(m[0].0), v)] + rest.value)
  }

  /** `[{key: v} for v in batch]`. */
  function WrapEach(k: string, items: seq<Value>): (r: seq<Value>)
    ensures |r| == |items|
    ensures forall i | 0 <= i < |items| :: r[i] == VDict([(VStr(k), items[i])])
  {
    seq(|items|, i requires 0 <= i < |items| => VDict([(VStr(k), items[i])]))
  }

  /** The input a scheduled process receives. A subscription process gets
      the dict of its subscribed values, or the value itself when its only
      key is `None`; a batch process gets the inbox's tuple, or each element
      wrapped as `{key: v}`. */
  function TaskInput(p: Process, channels: map<string, Channel>): (r: Result<Value, Error>)
    ensures p.ChannelInvoke? && |p.channels| == 1 && p.channels[0].0.None? ==>
              r == ReadChannel(channels, p.channels[0].1)
    ensures p.ChannelInvoke? && Keys(p.channels) != [None] && r.Success? ==>
              r.value.VDict? && |r.value.entries| == |p.channels|
    ensures p.ChannelBatch? && p.channel !in channels ==> r == Failure(KeyError(p.channel))
    ensures p.ChannelBatch? && p.channel in channels && Get(channels[p.channel]).Failure? ==>
              r == Get(channels[p.channel])
    ensures p.ChannelBatch? && p.key.None? && p.channel in channels ==> r == Get(channels[p.channel])
    ensures p.ChannelBatch? && p.key.Some? && p.channel in channels
            && channels[p.channel].Inbox? && channels[p.channel].batch.Some? ==>
              r == Success(VList(WrapEach(p.key.value, channels[p.channel].batch.value)))
  {
    match p
    case ChannelInvoke(m, _) =>
      var vals :- ReadAll(m, channels);
      if Keys(m) == [None] then Success(vals[0].1) else Success(VDict(vals))
    case ChannelBatch(c, key) =>
      if c !in channels then Failure(KeyError(c))
      else
        var v :- Get(channels[c]);
        match key
        case None => Success(v)
        case Some(k) =>
          var items :- Iterate(v);
          Success(VList(WrapEach(k, items)))
  }

  /** What a task's input is made of: a subscription process gets the dict
      of the values `ReadAll` reads, and fails exactly when that read does;
      a keyed batch process gets each element of the channel's value
      wrapped as `{key: v}`, and raises TypeError when that value cannot be
      iterated. */
  lemma TaskInputReads(p: Process, channels: map<string, Channel>)
    ensures var r := TaskInput(p, channels);
            p.ChannelInvoke? ==>
              && (r.Failure? <==> ReadAll(p.channels, channels).Failure?)
              && (r.Failure? ==> r.error == ReadAll(p.channels, channels).error)
              && (Keys(p.channels) != [None] && r.Success? ==> r.value == VDict(ReadAll(p.channels, channels).value))
    ensures var r := TaskInput(p, channels);
            p.ChannelBatch? && p.key.Some? && p.channel in channels && Get(channels[p.channel]).Success? ==>
              var items := Iterate(Get(channels[p.channel]).value);
              && (r.Failure? <==> items.Failure?)
              && (r.Failure? ==> r.error == items.error && r.error.TypeError?)
              && (r.Success? ==> r.value == VList(WrapEach(p.key.value, items.value)))
  {
  }

  /** The tasks for the next step, in process registration order, and the
      updated `seen`; the first input that cannot be read raises. */
  function NextTasks(procs: seq<(string, Process)>, versions: map<string, int>, seen: Seen,
                     channels: map<string, Channel>): Result<(seq<Task>, Seen), Error>
    decreases |procs|
  {
    if procs == [] then Success(([], seen))
    else
      var (name, p) := procs[0];
      var s := SeenOf(seen, name);
      if Triggered(p, versions, s) then
        var input :- TaskInput(p, channels);
        var rest :- NextTasks(procs[1..], versions, seen[name := MarkSeen(p, versions, s)], channels);
        Success(([Task(name, p, input)] + rest.0, rest.1))
      else NextTasks(procs[1..], versions, seen, channels)
  }

  function ProcNames(procs: seq<(string, Process)>): seq<string> {
    seq(|procs|, i requires 0 <= i < |procs| => procs[i].0)
  }

  function TaskNames(tasks: seq<Task>): seq<string> {
    seq(|tasks|, i requires 0 <= i < |tasks| => tasks[i].name)
  }

  /** The names of the processes that are triggered, in registration order:
      the independent description of who runs. */
  function Scheduled(procs: seq<(string, Process)>, versions: map<string, int>, seen: Seen): (r: seq<string>)
    ensures forall n | n in r :: n in ProcNames(procs)
    decreases |procs|
  {
    if procs == [] then []
    else
      var rest := Scheduled(procs[1..], versions, seen);
      assert forall n | n in ProcNames(procs[1..]) :: n in ProcNames(procs) by {
        forall n | n in ProcNames(procs[1..]) ensures n in ProcNames(procs) {
          var i :| 0 <= i < |procs| - 1 && ProcNames(procs[1..])[i] == n;
          assert ProcNames(procs)[i + 1] == n;
        }
      }
      assert ProcNames(procs)[0] == procs[0].0;
      (if Triggered(procs[0].1, versions, SeenOf(seen, procs[0].0)) then [procs[0].0] else []) + rest
  }

  /** Process names are the keys of a mapping, hence distinct. */
  predicate UniqueNames(procs: seq<(string, Process)>) {
    forall i, j | 0 <= i < j < |procs| :: procs[i].0 != procs[j].0
  }

  lemma UniqueNamesTail(procs: seq<(string, Process)>)
    requires procs != [] && UniqueNames(procs)
    ensures UniqueNames(procs[1..])
    ensures forall i | 0 <= i < |procs| - 1 :: procs[1..][i].0 != procs[0].0
  {
  }

  /** Updating `seen` for one process does not change what the processes
      after it see, when names are distinct. */
  lemma {:induction false} ScheduledIgnoresOtherSeen(procs: seq<(string, Process)>, versions: map<string, int>,
                                                     seen: Seen, name: string, s: map<string, int>)
    requires forall i | 0 <= i < |procs| :: procs[i].0 != name
    ensures Scheduled(procs, versions, seen[name := s]) == Scheduled(procs, versions, seen)
    decreases |procs|
  {
    if procs != [] {
      assert SeenOf(seen[name := s], procs[0].0) == SeenOf(seen, procs[0].0);
      ScheduledIgnoresOtherSeen(procs[1..], versions, seen, name, s);
    }
  }

  /** The prepared tasks are exactly the triggered processes, in
      registration order; each gets the input read for it; each process's
      `seen` moves to the current trigger versions iff it was scheduled, and
      every other entry of `seen` stays as it was. */
  lemma {:induction false} NextTasksExactly(procs: seq<(string, Process)>, versions: map<string, int>,
                                            seen: Seen, channels: map<string, Channel>)
    requires UniqueNames(procs)
    requires NextTasks(procs, versions, seen, channels).Success?
    ensures var r := NextTasks(procs, versions, seen, channels).value;
            && TaskNames(r.0) == Scheduled(procs, versions, seen)
            && (forall t | t in r.0 :: Success(t.input) == TaskInput(t.proc, channels) && (t.name, t.proc) in procs)
            && (forall i | 0 <= i < |procs| ::
                  SeenOf(r.1, procs[i].0)
                  == if Triggered(procs[i].1, versions, SeenOf(seen, procs[i].0))
                     then MarkSeen(procs[i].1, versions, SeenOf(seen, procs[i].0))
                     else SeenOf(seen, procs[i].0))
            && (forall n | n !in ProcNames(procs) :: SeenOf(r.1, n) == SeenOf(seen, n))
  {
    NextTasksNames(procs, versions, seen, channels);
    NextTasksInputs(procs, versions, seen, channels);
    NextTasksSeen(procs, versions, seen, channels);
  }

  lemma {:induction false} NextTasksNames(procs: seq<(string, Process)>, versions: map<string, int>,
                                          seen: Seen, channels: map<string, Channel>)
    requires UniqueNames(procs)
    requires NextTasks(procs, versions, seen, channels).Success?
    ensures TaskNames(NextTasks(procs, versions, seen, channels).value.0) == Scheduled(procs, versions, seen)
    decreases |procs|
  {
    if procs != [] {
      var (name, p) := procs[0];
      var s := SeenOf(seen, name);
      UniqueNamesTail(procs);
      var tail := procs[1..];
      if Triggered(p, versions, s) {
        var seen' := seen[name := MarkSeen(p, versions, s)];
        NextTasksNames(tail, versions, seen', channels);
        ScheduledIgnoresOtherSeen(tail, versions, seen, name, MarkSeen(p, versions, s));
        var r := NextTasks(procs, versions, seen, channels).value;
        var rest := NextTasks(tail, versions, seen', channels).value;
        assert r.0 == [Task(name, p, TaskInput(p, channels).value)] + rest.0;
        assert TaskNames(r.0) == [name] + TaskNames(rest.0);
      } else {
        NextTasksNames(tail, versions, seen, channels);
      }
    }
  }

  lemma {:induction false} NextTasksInputs(procs: seq<(string, Process)>, versions: map<string, int>,
                                           seen: Seen, channels: map<string, Channel>)
    requires NextTasks(procs, versions, seen, channels).Success?
    ensures forall t | t in NextTasks(procs, versions, seen, channels).value.0 ::
              Success(t.input) == TaskInput(t.proc, channels) && (t.name, t.proc) in procs
    decreases |procs|
  {
    if procs != [] {
      var (name, p) := procs[0];
      var s := SeenOf(seen, name);
      var seen' := if Triggered(p, versions, s) then seen[name := MarkSeen(p, versions, s)] else seen;
      NextTasksInputs(procs[1..], versions, seen', channels);
      forall x | x in procs[1..] ensures x in procs {
        var k :| 0 <= k < |procs[1..]| && procs[1..][k] == x;
        assert procs[k + 1] == x;
      }
    }
  }

  lemma {:induction false} NextTasksSeen(procs: seq<(string, Process)>, versions: map<string, int>,
                                         seen: Seen, channels: map<string, Channel>)
    requires UniqueNames(procs)
    requires NextTasks(procs, versions, seen, channels).Success?
    ensures var r := NextTasks(procs, versions, seen, channels).value;
            && (forall i | 0 <= i < |procs| ::
                  SeenOf(r.1, procs[i].0)
                  == if Triggered(procs[i].1, versions, SeenOf(seen, procs[i].0))
                     then MarkSeen(procs[i].1, versions, SeenOf(seen, procs[i].0))
                     else SeenOf(seen, procs[i].0))
            && (forall n | n !in ProcNames(procs) :: SeenOf(r.1, n) == SeenOf(seen, n))
    decreases |procs|
  {
    if procs != [] {
      var (name, p) := procs[0];
      var s := SeenOf(seen, name);
      UniqueNamesTail(procs);
      var tail := procs[1..];
      var r := NextTasks(procs, versions, seen, channels).value;
      assert forall i | 1 <= i < |procs| :: procs[i] == tail[i - 1];
      assert forall n | n in ProcNames(tail) :: n in ProcNames(procs) by {
        forall n | n in ProcNames(tail) ensures n in ProcNames(procs) {
          var i :| 0 <= i < |tail| && ProcNames(tail)[i] == n;
          assert ProcNames(procs)[i + 1] == n;
        }
      }
      assert name !in ProcNames(tail) by {
        forall j | 0 <= j < |tail| ensures ProcNames(tail)[j] != name { }
      }
      assert ProcNames(procs)[0] == name;
      var seen' := SeenAfterFirst(procs, versions, seen);
      NextTasksUnfoldSeen(procs, versions, seen, channels);
      NextTasksSeen(tail, versions, seen', channels);
      forall i | 0 <= i < |tail| ensures SeenOf(seen', tail[i].0) == SeenOf(seen, tail[i].0) {
        assert tail[i].0 != name;
      }
    }
  }

  /** Process `i` is triggered and its input cannot be read. */
  predicate ReadFails(procs: seq<(string, Process)>, versions: map<string, int>, seen: Seen,
                      channels: map<string, Channel>, i: nat)
    requires i < |procs|
  {
    Triggered(procs[i].1, versions, SeenOf(seen, procs[i].0)) && TaskInput(procs[i].1, channels).Failure?
  }

  /** `seen` as the first process leaves it for the ones after it. */
  function SeenAfterFirst(procs: seq<(string, Process)>, versions: map<string, int>, seen: Seen): Seen
    requires procs != []
  {
    var s := SeenOf(seen, procs[0].0);
    if Triggered(procs[0].1, versions, s) then seen[procs[0].0 := MarkSeen(procs[0].1, versions, s)] else seen
  }

  lemma NextTasksUnfold(procs: seq<(string, Process)>, versions: map<string, int>,
                        seen: Seen, channels: map<string, Channel>)
    requires procs != []
    ensures var r := NextTasks(procs, versions, seen, channels);
            var rest := NextTasks(procs[1..], versions, SeenAfterFirst(procs, versions, seen), channels);
            && (ReadFails(procs, versions, seen, channels, 0) ==> r == Failure(TaskInput(procs[0].1, channels).error))
            && (!ReadFails(procs, versions, seen, channels, 0) ==>
                  (r.Failure? <==> rest.Failure?) && (r.Failure? ==> r.error == rest.error))
  {
  }

  lemma NextTasksUnfoldSeen(procs: seq<(string, Process)>, versions: map<string, int>,
                            seen: Seen, channels: map<string, Channel>)
    requires procs != [] && NextTasks(procs, versions, seen, channels).Success?
    ensures NextTasks(procs[1..], versions, SeenAfterFirst(procs, versions, seen), channels).Success?
    ensures NextTasks(procs, versions, seen, channels).value.1
            == NextTasks(procs[1..], versions, SeenAfterFirst(procs, versions, seen), channels).value.1
  {
  }

  lemma ReadFailsShift(procs: seq<(string, Process)>, versions: map<string, int>,
                       seen: Seen, channels: map<string, Channel>)
    requires procs != [] && UniqueNames(procs)
    ensures forall k | 0 <= k < |procs| - 1 ::
              ReadFails(procs[1..], versions, SeenAfterFirst(procs, versions, seen), channels, k)
              == ReadFails(procs, versions, seen, channels, k + 1)
  {
    var seen' := SeenAfterFirst(procs, versions, seen);
    forall k | 0 <= k < |procs| - 1
      ensures ReadFails(procs[1..], versions, seen', channels, k) == ReadFails(procs, versions, seen, channels, k + 1)
    {
      assert procs[1..][k] == procs[k + 1];
      assert procs[k + 1].0 != procs[0].0;
      assert SeenOf(seen', procs[k + 1].0) == SeenOf(seen, procs[k + 1].0);
    }
  }

  /** Preparing raises exactly when some triggered process's input cannot be
      read, and then with the error of the first such process in
      registration order. */
  lemma {:induction false} NextTasksFails(procs: seq<(string, Process)>, versions: map<string, int>,
                                          seen: Seen, channels: map<string, Channel>)
    requires UniqueNames(procs)
    ensures NextTasks(procs, versions, seen, channels).Failure? <==>
            exists i | 0 <= i < |procs| :: ReadFails(procs, versions, seen, channels, i)
    ensures NextTasks(procs, versions, seen, channels).Failure? ==>
            exists i | 0 <= i < |procs| ::
              && ReadFails(procs, versions, seen, channels, i)
              && NextTasks(procs, versions, seen, channels).error == TaskInput(procs[i].1, channels).error
              && forall j | 0 <= j < i :: !ReadFails(procs, versions, seen, channels, j)
    decreases |procs|
  {
    if procs != [] {
      UniqueNamesTail(procs);
      var tail := procs[1..];
      var seen' := SeenAfterFirst(procs, versions, seen);
      NextTasksFails(tail, versions, seen', channels);
      ReadFailsShift(procs, versions, seen, channels);
      NextTasksUnfold(procs, versions, seen, channels);
      var r := NextTasks(procs, versions, seen, channels);
      var rest := NextTasks(tail, versions, seen', channels);
      if !ReadFails(procs, versions, seen, channels, 0) {
        if exists i | 0 <= i < |procs| :: ReadFails(procs, versions, seen, channels, i) {
          var i :| 0 <= i < |procs| && ReadFails(procs, versions, seen, channels, i);
          assert ReadFails(tail, versions, seen', channels, i - 1);
        }
        if rest.Failure? {
          var k :| 0 <= k < |tail| && ReadFails(tail, versions, seen', channels, k)
                   && rest.error == TaskInput(tail[k].1, channels).error
                   && forall j | 0 <= j < k :: !ReadFails(tail, versions, seen', channels, j);
          assert procs[k + 1] == tail[k];
          assert forall j | 0 <= j < k + 1 :: !ReadFails(procs, versions, seen, channels, j) by {
            forall j | 0 <= j < k + 1 ensures !ReadFails(procs, versions, seen, channels, j) {
              if j > 0 { assert !ReadFails(tail, versions, seen', channels, j - 1); }
            }
          }
          assert ReadFails(procs, versions, seen, channels, k + 1);
        }
      }
    }
  }

  /** When nothing is triggered, preparing yields no task and leaves `seen`
      as it is. */
  lemma {:induction false} NothingTriggeredNoTasks(procs: seq<(string, Process)>, versions: map<string, int>,
                                                   seen: Seen, channels: map<string, Channel>)
    requires forall i | 0 <= i < |procs| :: !Triggered(procs[i].1, versions, SeenOf(seen, procs[i].0))
    ensures NextTasks(procs, versions, seen, channels) == Success(([], seen))
    decreases |procs|
  {
    if procs != [] {
      assert forall i | 0 <= i < |procs| - 1 :: procs[1..][i] == procs[i + 1];
      NothingTriggeredNoTasks(procs[1..], versions, seen, channels);
    }
  }

  /** An empty task list means `seen` is unchanged and no process was
      triggered. */
  lemma {:induction false} NoTasksNothingTriggered(procs: seq<(string, Process)>, versions: map<string, int>,
                                                   seen: Seen, channels: map<string, Channel>)
    requires NextTasks(procs, versions, seen, channels).Success?
    requires NextTasks(procs, versions, seen, channels).value.0 == []
    ensures NextTasks(procs, versions, seen, channels).value.1 == seen
    ensures forall i | 0 <= i < |procs| :: !Triggered(procs[i].1, versions, SeenOf(seen, procs[i].0))
    decreases |procs|
  {
    if procs != [] {
      assert forall i | 0 <= i < |procs| - 1 :: procs[1..][i] == procs[i + 1];
      NoTasksNothingTriggered(procs[1..], versions, seen, channels);
    }
  }

  /** Preparing twice with no commit in between schedules nothing the second
      time, and leaves `seen` where the first call put it. */
  lemma PrepareTwice(procs: seq<(string, Process)>, versions: map<string, int>,
                     seen: Seen, channels: map<string, Channel>)
    requires UniqueNames(procs)
    requires NextTasks(procs, versions, seen, channels).Success?
    ensures var seen' := NextTasks(procs, versions, seen, channels).value.1;
            NextTasks(procs, versions, seen', channels) == Success(([], seen'))
  {
    var seen' := NextTasks(procs, versions, seen, channels).value.1;
    NextTasksExactly(procs, versions, seen, channels);
    NothingTriggeredNoTasks(procs, versions, seen', channels);
  }

  /** A process is scheduled iff one of its trigger channels has a version
      above the one it has seen. */
  lemma {:induction false} ScheduledIff(procs: seq<(string, Process)>, versions: map<string, int>,
                                        seen: Seen, i: nat)
    requires UniqueNames(procs) && i < |procs|
    ensures procs[i].0 in Scheduled(procs, versions, seen)
            <==> Triggered(procs[i].1, versions, SeenOf(seen, procs[i].0))
    decreases |procs|
  {
    UniqueNamesTail(procs);
    var tail := procs[1..];
    if i == 0 {
      assert procs[0].0 !in ProcNames(tail) by {
        forall j | 0 <= j < |tail| ensures ProcNames(tail)[j] != procs[0].0 { }
      }
    } else {
      assert procs[i] == tail[i - 1];
      ScheduledIff(tail, versions, seen, i - 1);
    }
  }
}
