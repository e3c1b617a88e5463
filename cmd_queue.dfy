/**
  The command queue that drives the image pipeline: commands are
  registered under the name of the file they produce, together with the
  names they depend on, and `run` starts them, at most `nThreads` at a
  time, as soon as every dependency is ready, waits for them, and stops
  launching at the first failing pass.

  The two things outside the program are inputs: the files that exist
  (`disk`, a set of paths, fixed for one call) and the processes, given
  by `spawn`, which says for each command how many polls report it still
  running before it reports its exit status.
 */
module CmdQueue {
  import opened Wrappers
  import opened PyText

  /** An argument vector, as given to `subprocess.Popen`. */
  type Cmd = seq<string>

  /** A pending entry of `queue`: the triple `(fn, deps, cmd)`. */
  datatype Job = Job(fn: string, deps: seq<string>, cmd: Cmd)

  /** A started process as `poll()` sees it: None for `polls` more polls, then the exit status `code`. */
  datatype Proc = Proc(polls: nat, code: int)

  /** An entry of the `tasks` table of `run`: the process making `fn` with `cmd`. */
  datatype Task = Task(fn: string, cmd: Cmd, proc: Proc)

  // ---------------------------------------------------------------------
  // Readiness
  // ---------------------------------------------------------------------

  /**
    A dependency is satisfied when the readiness table says it is ready;
    only a name the table does not know is judged by the file system.
   */
  predicate Satisfied(dep: string, ready: map<string, bool>, disk: set<string>)
  {
    if dep in ready then ready[dep] else dep in disk
  }

  predicate Runnable(deps: seq<string>, ready: map<string, bool>, disk: set<string>)
  {
    forall i :: 0 <= i < |deps| ==> Satisfied(deps[i], ready, disk)
  }

  /** The inner loop of `next`: every dependency is ready, or unknown to the table and present on disk. */
  method DepsSatisfied(deps: seq<string>, ready: map<string, bool>, disk: set<string>) returns (ok: bool)
    ensures ok <==> forall i :: 0 <= i < |deps| ==>
      (deps[i] in ready && ready[deps[i]]) || (deps[i] !in ready && deps[i] in disk)
  {
    ok := true;
    for i := 0 to |deps|
      invariant ok <==> forall j :: 0 <= j < i ==> Satisfied(deps[j], ready, disk)
    {
      var dep := deps[i];
      if dep in ready {
        ok := ok && ready[dep];
      } else {
        ok := ok && dep in disk;
      }
    }
  }

  /** A name the queue registered and that has not finished blocks its dependents, whether or not its file exists. */
  lemma RegisteredBlocks(deps: seq<string>, ready: map<string, bool>, disk: set<string>, i: nat)
    requires i < |deps| && deps[i] in ready && !ready[deps[i]]
    ensures !Runnable(deps, ready, disk) && !Runnable(deps, ready, disk + {deps[i]})
  {
  }

  /** Readiness only grows: no name disappears and no ready name becomes unready. */
  predicate Grows(before: map<string, bool>, after: map<string, bool>)
  {
    forall k :: k in before ==> k in after && (before[k] ==> after[k])
  }

  /** More ready names never make a runnable entry blocked. */
  lemma {:induction false} RunnableMonotone(deps: seq<string>, r1: map<string, bool>, r2: map<string, bool>, disk: set<string>)
    requires Grows(r1, r2) && Runnable(deps, r1, disk)
    requires forall k :: k in r2 && k !in r1 ==> r2[k]
    ensures Runnable(deps, r2, disk)
  {
    forall i | 0 <= i < |deps| ensures Satisfied(deps[i], r2, disk) {
      assert Satisfied(deps[i], r1, disk);
    }
  }

  // ---------------------------------------------------------------------
  // Selecting the next command
  // ---------------------------------------------------------------------

  /** The position, in the iteration order of `queue`, of the first entry whose dependencies are all satisfied. */
  function FirstRunnable(order: seq<string>, queue: map<string, Job>, ready: map<string, bool>, disk: set<string>): (r: Option<nat>)
    requires forall i :: 0 <= i < |order| ==> order[i] in queue
    ensures r.Some? ==> r.value < |order| && Runnable(queue[order[r.value]].deps, ready, disk)
    ensures forall j :: 0 <= j < |order| && (r.None? || j < r.value) ==> !Runnable(queue[order[j]].deps, ready, disk)
  {
    if order == [] then None
    else if Runnable(queue[order[0]].deps, ready, disk) then Some(0)
    else
      match FirstRunnable(order[1..], queue, ready, disk)
      case None => None
      case Some(i) => Some(i + 1)
  }

  /** Nothing is selected exactly when no pending entry at all can start. */
  lemma NothingRunnable(order: seq<string>, queue: map<string, Job>, ready: map<string, bool>, disk: set<string>)
    requires forall k :: k in queue <==> k in order
    ensures FirstRunnable(order, queue, ready, disk).None? <==> forall k :: k in queue ==> !Runnable(queue[k].deps, ready, disk)
  {
    var r := FirstRunnable(order, queue, ready, disk);
    if r.None? {
      forall k | k in queue ensures !Runnable(queue[k].deps, ready, disk) {
        var j :| 0 <= j < |order| && order[j] == k;
      }
    } else {
      assert order[r.value] in queue;
    }
  }

  /** `del self.queue[k]` on the iteration order: the entry leaves, the others keep their order. */
  function RemoveAt(order: seq<string>, i: nat): (r: seq<string>)
    requires i < |order| && Distinct(order)
    ensures Distinct(r) && |r| == |order| - 1
    ensures forall k :: k in r <==> k in order && k != order[i]
  {
    var r := order[..i] + order[i + 1..];
    assert forall a :: 0 <= a < |r| ==> r[a] == order[if a < i then a else a + 1];
    assert forall k :: k in order && k != order[i] ==> k in r by {
      forall k | k in order && k != order[i] ensures k in r {
        var a :| 0 <= a < |order| && order[a] == k;
        assert r[if a < i then a else a - 1] == k;
      }
    }
    r
  }

  /**
    What `next` does to the queue: with p the first runnable position, the
    job `(fn, cmd)` at p is returned and leaves the queue; with none,
    nothing is returned and nothing changes.
   */
  predicate Took(order0: seq<string>, queue0: map<string, Job>, ready: map<string, bool>, disk: set<string>,
                 job: Option<(string, Cmd)>, order1: seq<string>, queue1: map<string, Job>)
    requires Distinct(order0) && forall i :: 0 <= i < |order0| ==> order0[i] in queue0
  {
    match FirstRunnable(order0, queue0, ready, disk)
    case None => job.None? && order1 == order0 && queue1 == queue0
    case Some(p) =>
      job == Some((order0[p], queue0[order0[p]].cmd)) && order1 == RemoveAt(order0, p) && queue1 == queue0 - {order0[p]}
  }

  /** A returned job was pending, had all its dependencies satisfied, and is gone from the queue; nothing else changed. */
  lemma TookMeaning(order0: seq<string>, queue0: map<string, Job>, ready: map<string, bool>, disk: set<string>,
                    job: Option<(string, Cmd)>, order1: seq<string>, queue1: map<string, Job>)
    requires Distinct(order0) && (forall k :: k in queue0 <==> k in order0)
    requires Took(order0, queue0, ready, disk, job, order1, queue1)
    ensures job.None? <==> forall k :: k in queue0 ==> !Runnable(queue0[k].deps, ready, disk)
    ensures job.None? ==> queue1 == queue0
    ensures job.Some? ==> (job.value.0 in queue0 && Runnable(queue0[job.value.0].deps, ready, disk) &&
      job.value.1 == queue0[job.value.0].cmd && queue1 == queue0 - {job.value.0})
  {
    NothingRunnable(order0, queue0, ready, disk);
  }

  // ---------------------------------------------------------------------
  // The tasks table
  // ---------------------------------------------------------------------

  /** The names of the tasks, with multiplicity. */
  function Names(tasks: seq<Task>): multiset<string>
  {
    if tasks == [] then multiset{} else Names(tasks[..|tasks| - 1]) + multiset{tasks[|tasks| - 1].fn}
  }

  /** The names of the tasks, as a set. */
  function Fns(tasks: seq<Task>): set<string>
  {
    if tasks == [] then {} else Fns(tasks[..|tasks| - 1]) + {tasks[|tasks| - 1].fn}
  }

  /** A name is in the table, as a multiset, exactly when some task carries it. */
  lemma {:induction false} NamesFns(tasks: seq<Task>)
    ensures forall k :: k in Names(tasks) <==> k in Fns(tasks)
  {
    if tasks != [] {
      NamesFns(tasks[..|tasks| - 1]);
    }
  }

  /** The table with the task of t's name replaced by t, in place. */
  function Replace(tasks: seq<Task>, t: Task): (r: seq<Task>)
    ensures |r| == |tasks| && Fns(r) == if t.fn in Fns(tasks) then Fns(tasks) else Fns(tasks) - {t.fn}
    ensures forall i :: 0 <= i < |tasks| ==> r[i] == if tasks[i].fn == t.fn then t else tasks[i]
  {
    if tasks == [] then []
    else
      var last := tasks[|tasks| - 1];
      var r := Replace(tasks[..|tasks| - 1], t);
      r + [if last.fn == t.fn then t else last]
  }

  /** `tasks[fn] = task`: a new name is added last, a known one is replaced where it stands. */
  function Put(tasks: seq<Task>, t: Task): (r: seq<Task>)
    ensures Fns(r) == Fns(tasks) + {t.fn}
    ensures |r| == if t.fn in Fns(tasks) then |tasks| else |tasks| + 1
  {
    if t.fn in Fns(tasks) then Replace(tasks, t) else tasks + [t]
  }

  /** The poll answer of a process: its exit status once it has no polls left. */
  function Poll(p: Proc): Option<int>
  {
    if p.polls == 0 then Some(p.code) else None
  }

  /** A task after a poll that found it still running. */
  function Tick(t: Task): Task
    requires t.proc.polls > 0
  {
    t.(proc := t.proc.(polls := t.proc.polls - 1))
  }

  /** The `done` list of `check_tasks`: the tasks whose poll reports an exit status, in table order. */
  function Done(tasks: seq<Task>): seq<Task>
  {
    if tasks == [] then []
    else
      var t := tasks[|tasks| - 1];
      Done(tasks[..|tasks| - 1]) + if Poll(t.proc).Some? then [t] else []
  }

  /** The table left by `check_tasks`: the tasks still running, each one poll nearer to its exit. */
  function Polled(tasks: seq<Task>): seq<Task>
  {
    if tasks == [] then []
    else
      var t := tasks[|tasks| - 1];
      Polled(tasks[..|tasks| - 1]) + if Poll(t.proc).Some? then [] else [Tick(t)]
  }

  /**
    The first loop of `check_tasks`: every task is polled once; those
    reporting an exit status are collected in table order, and the
    others stay in the table, one poll nearer to their exit.
   */
  method PollTasks(tasks: seq<Task>) returns (done: seq<Task>, still: seq<Task>)
    ensures done == Done(tasks) && still == Polled(tasks)
  {
    done, still := [], [];
    for i := 0 to |tasks|
      invariant done == Done(tasks[..i]) && still == Polled(tasks[..i])
    {
      var t := tasks[i];
      assert tasks[..i + 1][..i] == tasks[..i];
      if Poll(t.proc).Some? {
        done := done + [t];
      } else {
        // the poll found it running: it stays in the table
        still := still + [Tick(t)];
      }
    }
    assert tasks[..|tasks|] == tasks;
  }

  /** The polls still ahead: every task must be polled at least once more. */
  function Load(tasks: seq<Task>): nat
  {
    if tasks == [] then 0 else Load(tasks[..|tasks| - 1]) + tasks[|tasks| - 1].proc.polls + 1
  }

  /**
    One pass of polling splits the table: the finished tasks leave it and
    the others stay, so no task is lost or duplicated.
   */
  lemma {:induction false} PollSplit(tasks: seq<Task>)
    ensures Names(Done(tasks)) + Names(Polled(tasks)) == Names(tasks)
    ensures |Done(tasks)| + |Polled(tasks)| == |tasks|
  {
    if tasks != [] {
      var init, t := tasks[..|tasks| - 1], tasks[|tasks| - 1];
      PollSplit(init);
      assert Names(tasks) == Names(init) + multiset{t.fn};
      if Poll(t.proc).Some? {
        assert Done(tasks) == Done(init) + [t] && Polled(tasks) == Polled(init);
        NamesSnoc(Done(init), t);
        AddToSplit(Names(Done(init)), Names(Polled(init)), Names(init), multiset{t.fn});
      } else {
        assert Done(tasks) == Done(init) && Polled(tasks) == Polled(init) + [Tick(t)];
        NamesSnoc(Polled(init), Tick(t));
        AddToSplit(Names(Polled(init)), Names(Done(init)), Names(init), multiset{t.fn});
      }
    }
  }

  /** One more name on either side of a split is one more name in the whole. */
  lemma AddToSplit(a: multiset<string>, b: multiset<string>, whole: multiset<string>, x: multiset<string>)
    requires a + b == whole
    ensures (a + x) + b == whole + x && b + (a + x) == whole + x
  {
  }

  /** A task added last adds its name once. */
  lemma NamesSnoc(s: seq<Task>, t: Task)
    ensures Names(s + [t]) == Names(s) + multiset{t.fn}
  {
    assert (s + [t])[..|s|] == s;
  }

  /** Every pass over a non-empty table brings the processes nearer to their exits. */
  lemma {:induction false} PollProgress(tasks: seq<Task>)
    ensures Load(Polled(tasks)) + |tasks| == Load(tasks)
  {
    if tasks != [] {
      var init, t := tasks[..|tasks| - 1], tasks[|tasks| - 1];
      PollProgress(init);
      assert Load(tasks) == Load(init) + t.proc.polls + 1;
      if Poll(t.proc).None? {
        var p := Polled(init) + [Tick(t)];
        assert Polled(tasks) == p;
        assert p[..|p| - 1] == Polled(init);
        assert Load(p) == Load(Polled(init)) + t.proc.polls;
      } else {
        assert Polled(tasks) == Polled(init);
      }
    }
  }

  /** The finished tasks are tasks of the table whose poll reported an exit status. */
  lemma {:induction false} DoneFinished(tasks: seq<Task>)
    ensures forall i :: 0 <= i < |Done(tasks)| ==> Done(tasks)[i] in tasks && Poll(Done(tasks)[i].proc).Some?
  {
    if tasks != [] {
      var init := tasks[..|tasks| - 1];
      DoneFinished(init);
      assert forall u :: u in init ==> u in tasks;
    }
  }

  /** Position i holds a failed task and every finished task after it succeeded. */
  predicate LastFailingAt(done: seq<Task>, i: int)
  {
    0 <= i < |done| && done[i].proc.code != 0 && forall j :: i < j < |done| ==> done[j].proc.code == 0
  }

  /** The `error` of `check_tasks`: the last finished task whose exit status is not zero. */
  function LastFailure(done: seq<Task>): (r: Option<Task>)
    ensures r.None? <==> forall i :: 0 <= i < |done| ==> done[i].proc.code == 0
    ensures r.Some? ==> r.value.proc.code != 0 && exists i :: LastFailingAt(done, i) && done[i] == r.value
  {
    if done == [] then None
    else if done[|done| - 1].proc.code != 0 then
      assert LastFailingAt(done, |done| - 1);
      Some(done[|done| - 1])
    else
      var init := done[..|done| - 1];
      var r := LastFailure(init);
      assert r.Some? ==> exists i :: LastFailingAt(done, i) && done[i] == r.value by {
        if r.Some? {
          var i :| LastFailingAt(init, i) && init[i] == r.value;
          forall j | i < j < |done| ensures done[j].proc.code == 0 {
            if j < |init| { assert done[j] == init[j] && init[j].proc.code == 0; } else { assert j == |done| - 1; }
          }
          assert done[i] == init[i];
        }
      }
      r
  }

  /** `self.ready[task['fn']] = True` for every finished task. */
  function MarkReady(ready: map<string, bool>, done: seq<Task>): (r: map<string, bool>)
    ensures r.Keys == ready.Keys + Fns(done)
    ensures forall k :: k in Fns(done) ==> r[k]
    ensures forall k :: k in ready && k !in Fns(done) ==> r[k] == ready[k]
  {
    if done == [] then ready
    else
      var init := done[..|done| - 1];
      MarkReady(ready, init)[done[|done| - 1].fn := true]
  }

  /** Looking at one more finished task: it becomes the error if it failed, and is marked ready. */
  lemma CheckOne(done: seq<Task>, j: nat, ready: map<string, bool>)
    requires j < |done|
    ensures LastFailure(done[..j + 1]) == if done[j].proc.code != 0 then Some(done[j]) else LastFailure(done[..j])
    ensures MarkReady(ready, done[..j + 1]) == MarkReady(ready, done[..j])[done[j].fn := true]
  {
    assert done[..j + 1][..j] == done[..j];
  }

  // ---------------------------------------------------------------------
  // What a run does, step by step
  // ---------------------------------------------------------------------

  /** The steps of `run` that touch the outside world, recorded for the contract of `run`. */
  datatype Event =
    | Launched(fn: string, running: nat)        // `Popen(cmd)` for fn while `running` tasks ran
    | CacheHit(fn: string)                      // fn existed already: marked ready, nothing started
    | Exited(fn: string, code: int, draining: bool)  // a poll reported the exit status of fn's process
    | Stuck                                     // commands remain, none can start and none runs

  /** The exit events one pass of `check_tasks` observes, in the order of `done`. */
  function Exits(done: seq<Task>, draining: bool): (evs: seq<Event>)
    ensures |evs| == |done|
    ensures forall i :: 0 <= i < |done| ==> evs[i] == Exited(done[i].fn, done[i].proc.code, draining)
  {
    if done == [] then []
    else Exits(done[..|done| - 1], draining) + [Exited(done[|done| - 1].fn, done[|done| - 1].proc.code, draining)]
  }

  predicate Failure(e: Event) { e.Exited? && e.code != 0 }

  /** Once a process has failed, nothing is started any more. */
  predicate Latched(trace: seq<Event>)
  {
    forall i, j :: 0 <= i < j < |trace| && Failure(trace[i]) ==> !trace[j].Launched? && !trace[j].CacheHit?
  }

  /** The names of the started processes, with multiplicity. */
  function Started(trace: seq<Event>): multiset<string>
  {
    if trace == [] then multiset{}
    else Started(trace[..|trace| - 1]) + if trace[|trace| - 1].Launched? then multiset{trace[|trace| - 1].fn} else multiset{}
  }

  /** The names of the processes whose exit was observed, with multiplicity. */
  function Finished(trace: seq<Event>): multiset<string>
  {
    if trace == [] then multiset{}
    else Finished(trace[..|trace| - 1]) + if trace[|trace| - 1].Exited? then multiset{trace[|trace| - 1].fn} else multiset{}
  }

  /** The names taken out of the queue, one per launch or cache hit, with multiplicity. */
  function Taken(trace: seq<Event>): multiset<string>
  {
    if trace == [] then multiset{}
    else
      var e := trace[|trace| - 1];
      Taken(trace[..|trace| - 1]) + if e.Launched? || e.CacheHit? then multiset{e.fn} else multiset{}
  }

  /** The readiness table after the recorded steps: a cache hit or an exit marks its name ready, nothing else changes it. */
  function Replay(ready: map<string, bool>, trace: seq<Event>): map<string, bool>
  {
    if trace == [] then ready
    else
      var e := trace[|trace| - 1];
      var r := Replay(ready, trace[..|trace| - 1]);
      if e.CacheHit? || e.Exited? then r[e.fn := true] else r
  }

  lemma {:induction false} CountAppend(a: seq<Event>, b: seq<Event>)
    ensures Started(a + b) == Started(a) + Started(b)
    ensures Finished(a + b) == Finished(a) + Finished(b)
    ensures Taken(a + b) == Taken(a) + Taken(b)
  {
    if b != [] {
      var binit := b[..|b| - 1];
      assert (a + b)[..|a + b| - 1] == a + binit;
      CountAppend(a, binit);
    } else {
      assert a + b == a;
    }
  }

  /** A pass of exits starts and takes nothing, and finishes exactly the tasks it reports. */
  lemma {:induction false} ExitsCount(done: seq<Task>, draining: bool)
    ensures Started(Exits(done, draining)) == multiset{} && Taken(Exits(done, draining)) == multiset{}
    ensures Finished(Exits(done, draining)) == Names(done)
  {
    if done != [] {
      var init := done[..|done| - 1];
      ExitsCount(init, draining);
      var e := Exits(done, draining);
      assert e[..|e| - 1] == Exits(init, draining);
    }
  }

  /** Replaying one more event. */
  lemma ReplaySnoc(ready: map<string, bool>, trace: seq<Event>, e: Event)
    ensures Replay(ready, trace + [e]) == if e.CacheHit? || e.Exited? then Replay(ready, trace)[e.fn := true] else Replay(ready, trace)
  {
    assert (trace + [e])[..|trace|] == trace;
  }

  /** Replaying the exits of a pass marks the finished names ready, as `check_tasks` does. */
  lemma {:induction false} ReplayExits(ready: map<string, bool>, trace: seq<Event>, done: seq<Task>, draining: bool)
    ensures Replay(ready, trace + Exits(done, draining)) == MarkReady(Replay(ready, trace), done)
  {
    if done == [] {
      assert trace + Exits(done, draining) == trace;
    } else {
      var init, t := done[..|done| - 1], done[|done| - 1];
      ReplayExits(ready, trace, init, draining);
      var e := Exited(t.fn, t.proc.code, draining);
      assert trace + Exits(done, draining) == (trace + Exits(init, draining)) + [e];
      ReplaySnoc(ready, trace + Exits(init, draining), e);
    }
  }

  /** The replayed table only grows, and every name of a cache hit or an exit is ready in it. */
  lemma {:induction false} ReplayMarks(ready: map<string, bool>, trace: seq<Event>)
    ensures Grows(ready, Replay(ready, trace)) && MarkedOk(trace, Replay(ready, trace))
  {
    if trace != [] {
      var init := trace[..|trace| - 1];
      ReplayMarks(ready, init);
      assert forall i :: 0 <= i < |init| ==> trace[i] == init[i];
    }
  }

  /** Taking one more pending name out of the queue adds it to the names taken. */
  lemma TakeOne(queue0: map<string, Job>, queue: map<string, Job>, fn: string)
    requires fn in queue && queue.Keys <= queue0.Keys
    ensures multiset(queue0.Keys - (queue - {fn}).Keys) == multiset(queue0.Keys - queue.Keys) + multiset{fn}
  {
    assert queue0.Keys - (queue - {fn}).Keys == (queue0.Keys - queue.Keys) + {fn};
    assert fn !in queue0.Keys - queue.Keys;
  }

  /** A launch starts one process, adds its task, and takes its name. */
  lemma LaunchCounts(trace: seq<Event>, tasks: seq<Task>, t: Task)
    requires Balanced(trace, tasks)
    ensures Balanced(trace + [Launched(t.fn, |tasks|)], tasks + [t])
    ensures Taken(trace + [Launched(t.fn, |tasks|)]) == Taken(trace) + multiset{t.fn}
  {
    var e := Launched(t.fn, |tasks|);
    CountAppend(trace, [e]);
    assert Started([e]) == multiset{t.fn} && Finished([e]) == multiset{} && Taken([e]) == multiset{t.fn} by {
      assert [e][..0] == [];
    }
    NamesSnoc(tasks, t);
  }

  /** A cache hit starts and finishes nothing, and takes its name. */
  lemma HitCounts(trace: seq<Event>, tasks: seq<Task>, fn: string)
    requires Balanced(trace, tasks)
    ensures Balanced(trace + [CacheHit(fn)], tasks)
    ensures Taken(trace + [CacheHit(fn)]) == Taken(trace) + multiset{fn}
  {
    var e := CacheHit(fn);
    CountAppend(trace, [e]);
    assert Started([e]) == multiset{} && Finished([e]) == multiset{} && Taken([e]) == multiset{fn} by {
      assert [e][..0] == [];
    }
  }

  /** A new task running the command registered under its name keeps the table faithful to the registrations. */
  lemma TasksSnoc(tasks: seq<Task>, t: Task, queue0: map<string, Job>, spawn: Cmd -> Proc)
    requires TasksOk(tasks, queue0, spawn)
    requires t.fn in queue0 && t.cmd == queue0[t.fn].cmd && t.proc == spawn(t.cmd)
    ensures TasksOk(tasks + [t], queue0, spawn)
  {
  }

  // ---------------------------------------------------------------------
  // What `run` computes
  // ---------------------------------------------------------------------

  /** The state `run` works on: the pending names in iteration order, the queue, the readiness table and the tasks table. */
  datatype Sched = Sched(order: seq<string>, queue: map<string, Job>, ready: map<string, bool>, tasks: seq<Task>)

  /** Each pending name is listed once in the iteration order and is filed under its own name. */
  ghost predicate Pending(s: Sched)
  {
    Distinct(s.order) && (forall k :: k in s.queue <==> k in s.order) && (forall k :: k in s.queue ==> s.queue[k].fn == k)
  }

  /**
    One `start_task`: the first runnable pending command leaves the queue;
    an existing output is marked ready, otherwise its process enters the
    table. None when no pending command can start.
   */
  function Start(s: Sched, disk: set<string>, spawn: Cmd -> Proc): (r: Option<Sched>)
    requires Pending(s)
    ensures r.None? <==> forall k :: k in s.queue ==> !Runnable(s.queue[k].deps, s.ready, disk)
    ensures r.Some? ==> Pending(r.value) && |r.value.order| == |s.order| - 1 && |r.value.tasks| <= |s.tasks| + 1
  {
    NothingRunnable(s.order, s.queue, s.ready, disk);
    match FirstRunnable(s.order, s.queue, s.ready, disk)
    case None => None
    case Some(p) =>
      var fn := s.order[p];
      var cmd := s.queue[fn].cmd;
      var order, queue := RemoveAt(s.order, p), s.queue - {fn};
      if fn in disk then Some(Sched(order, queue, s.ready[fn := true], s.tasks))
      else Some(Sched(order, queue, s.ready, Put(s.tasks, Task(fn, cmd, spawn(cmd)))))
  }

  /**
    The launch loop of `run`: `start_task` while fewer than n tasks run and
    commands are pending. The flag is true when nothing could start and
    nothing runs, so the run gives up.
   */
  function Launches(s: Sched, disk: set<string>, spawn: Cmd -> Proc, n: int): (r: (bool, Sched))
    requires Pending(s)
    ensures Pending(r.1) && (r.1 == s || |r.1.order| < |s.order|)
    ensures r.0 ==> r.1.tasks == [] && r.1.order != [] && forall k :: k in r.1.queue ==> !Runnable(r.1.queue[k].deps, r.1.ready, disk)
    ensures !r.0 ==> |r.1.tasks| >= n || r.1.order == [] || forall k :: k in r.1.queue ==> !Runnable(r.1.queue[k].deps, r.1.ready, disk)
    ensures !r.0 && r.1 == s && s.order != [] && n > 0 ==> s.tasks != []
    ensures |s.tasks| <= n ==> |r.1.tasks| <= n
    decreases |s.order|
  {
    if |s.tasks| < n && s.order != [] then
      match Start(s, disk, spawn)
      case None => (s.tasks == [], s)
      case Some(s') => Launches(s', disk, spawn, n)
    else (false, s)
  }

  /** One `check_tasks`: the error of the pass and the state it leaves. */
  function PollPass(s: Sched): (r: (Option<Task>, Sched))
    ensures r.1.order == s.order && r.1.queue == s.queue && |r.1.tasks| <= |s.tasks|
    ensures Load(r.1.tasks) + |s.tasks| == Load(s.tasks)
  {
    PollSplit(s.tasks);
    PollProgress(s.tasks);
    (LastFailure(Done(s.tasks)), s.(ready := MarkReady(s.ready, Done(s.tasks)), tasks := Polled(s.tasks)))
  }

  /** The polling of the main loop: passes until a slot is free or a pass reports an error. */
  function Awaits(s: Sched, n: int): (r: (Option<Task>, Sched))
    requires n > 0 && |s.tasks| <= n
    ensures r.1.order == s.order && r.1.queue == s.queue && (|r.1.tasks| < n || r.0.Some?)
    ensures Load(r.1.tasks) <= Load(s.tasks) && (s.tasks != [] ==> Load(r.1.tasks) < Load(s.tasks))
    decreases Load(s.tasks)
  {
    var p := PollPass(s);
    if |p.1.tasks| == n && p.0.None? then Awaits(p.1, n) else p
  }

  /**
    The main loop of `run`: whether it gave up, the error it stopped on, and
    the state it leaves. It stops stuck, with an error, or with nothing
    pending and a slot free.
   */
  function MainRun(s: Sched, disk: set<string>, spawn: Cmd -> Proc, n: int): (r: (bool, Option<Task>, Sched))
    requires Pending(s) && (n > 0 || s.queue == map[]) && (s.tasks == [] || |s.tasks| < n)
    ensures Pending(r.2)
    ensures r.0 ==> r.1.None? && r.2.tasks == [] && r.2.order != [] && forall k :: k in r.2.queue ==> !Runnable(r.2.queue[k].deps, r.2.ready, disk)
    ensures !r.0 ==> r.1.Some? || (r.2.order == [] && (r.2.tasks == [] || |r.2.tasks| < n))
    decreases |s.order|, Load(s.tasks)
  {
    if s.order == [] then (false, None, s)
    else
      assert s.order[0] in s.queue;
      var l := Launches(s, disk, spawn, n);
      if l.0 then (true, None, l.1)
      else
        var a := Awaits(l.1, n);
        if a.0.Some? then (false, a.0, a.1) else MainRun(a.1, disk, spawn, n)
  }

  /** The drain loop of `run`: passes until no task runs, their errors ignored. */
  function Drained(s: Sched): (r: Sched)
    ensures r.order == s.order && r.queue == s.queue && r.tasks == []
    decreases Load(s.tasks)
  {
    if s.tasks == [] then s else Drained(PollPass(s).1)
  }

  /**
    What `run` returns, and the state it leaves: false when it gave up or
    its main loop stopped on an error; otherwise true, once every process
    still running has been waited for.
   */
  function RunResult(s: Sched, disk: set<string>, spawn: Cmd -> Proc, n: int): (r: (bool, Sched))
    requires Pending(s) && s.tasks == [] && (n > 0 || s.queue == map[])
    ensures Pending(r.1) && r.1.tasks == []
    ensures r.0 ==> r.1.order == []
  {
    var m := MainRun(s, disk, spawn, n);
    if m.0 then (false, m.2) else (m.1.None?, Drained(m.2))
  }

  /** A drain pass leaves what is still to be drained. */
  lemma DrainedStep(s: Sched, after: Sched)
    requires s.tasks != [] && after == s.(ready := MarkReady(s.ready, Done(s.tasks)), tasks := Polled(s.tasks))
    ensures Drained(s) == Drained(after)
  {
  }

  /** Two commands "a" and "b" with no dependencies, "a" registered first, nothing ready yet. */
  function TwoJobs(): Sched
  {
    Sched(["a", "b"], map["a" := Job("a", [], ["a"]), "b" := Job("b", [], ["b"])], map["a" := false, "b" := false], [])
  }

  /** A name not yet in the table is added after the others. */
  lemma PutNew(tasks: seq<Task>, t: Task)
    requires t.fn !in Fns(tasks)
    ensures Put(tasks, t) == tasks + [t]
  {
  }

  /** Each of the two names is listed once and filed under itself. */
  lemma TwoPending()
    ensures Pending(TwoJobs())
  {
    var s := TwoJobs();
    assert "a" != "b";
    assert forall k :: k in s.queue <==> k in s.order;
  }

  /** The first start takes "a", the first command in the iteration order. */
  lemma FirstOfTwo(spawn: Cmd -> Proc)
    ensures Start(TwoJobs(), {}, spawn) == Some(Sched(["b"], TwoJobs().queue - {"a"}, TwoJobs().ready, [Task("a", ["a"], spawn(["a"]))]))
  {
    var s := TwoJobs();
    assert Runnable([], s.ready, {});
    assert FirstRunnable(s.order, s.queue, s.ready, {}) == Some(0);
    assert RemoveAt(s.order, 0) == ["b"];
    assert Fns([]) == {};
  }

  /** The second start takes "b" and leaves nothing pending. */
  lemma SecondOfTwo(spawn: Cmd -> Proc)
    ensures var ta := Task("a", ["a"], spawn(["a"]));
      Start(Sched(["b"], TwoJobs().queue - {"a"}, TwoJobs().ready, [ta]), {}, spawn) ==
      Some(Sched([], map[], TwoJobs().ready, [ta, Task("b", ["b"], spawn(["b"]))]))
  {
    var ta, tb := Task("a", ["a"], spawn(["a"])), Task("b", ["b"], spawn(["b"]));
    var s1 := Sched(["b"], TwoJobs().queue - {"a"}, TwoJobs().ready, [ta]);
    assert Runnable([], s1.ready, {});
    assert FirstRunnable(s1.order, s1.queue, s1.ready, {}) == Some(0);
    assert RemoveAt(s1.order, 0) == [];
    assert [ta][..0] == [];
    assert Fns([ta]) == {"a"};
    assert "b" != "a";
    PutNew([ta], tb);
    assert [ta] + [tb] == [ta, tb];
    assert s1.queue - {"b"} == map[];
  }

  /** On two threads the launch loop starts both commands, "a" first, and leaves nothing pending. */
  lemma TwoLaunched(spawn: Cmd -> Proc)
    ensures Launches(TwoJobs(), {}, spawn, 2) ==
      (false, Sched([], map[], TwoJobs().ready, [Task("a", ["a"], spawn(["a"])), Task("b", ["b"], spawn(["b"]))]))
  {
    var ta, tb := Task("a", ["a"], spawn(["a"])), Task("b", ["b"], spawn(["b"]));
    var s1 := Sched(["b"], TwoJobs().queue - {"a"}, TwoJobs().ready, [ta]);
    var s2 := Sched([], map[], TwoJobs().ready, [ta, tb]);
    FirstOfTwo(spawn);
    SecondOfTwo(spawn);
    assert Launches(s2, {}, spawn, 2) == (false, s2);
    assert Launches(s1, {}, spawn, 2) == (false, s2);
  }

  /** One pass of polling over a table of two tasks. */
  lemma PollTwo(t0: Task, t1: Task)
    ensures Done([t0, t1]) == (if Poll(t0.proc).Some? then [t0] else []) + (if Poll(t1.proc).Some? then [t1] else [])
    ensures Polled([t0, t1]) == (if Poll(t0.proc).Some? then [] else [Tick(t0)]) + (if Poll(t1.proc).Some? then [] else [Tick(t1)])
  {
    assert [t0, t1][..1] == [t0] && [t0][..0] == [];
    assert Done([t0]) == if Poll(t0.proc).Some? then [t0] else [];
    assert Polled([t0]) == if Poll(t0.proc).Some? then [] else [Tick(t0)];
  }

  /**
    On two threads both commands start at once. When "a" fails at the first
    poll, that pass of the main loop reports it and `run` returns false.
   */
  lemma FailureInMainLoop(spawn: Cmd -> Proc)
    requires spawn(["a"]) == Proc(0, 1) && spawn(["b"]) == Proc(0, 0)
    ensures !RunResult(TwoJobs(), {}, spawn, 2).0
  {
    var ta, tb := Task("a", ["a"], Proc(0, 1)), Task("b", ["b"], Proc(0, 0));
    var s2 := Sched([], map[], TwoJobs().ready, [ta, tb]);
    TwoPending();
    TwoLaunched(spawn);
    PollTwo(ta, tb);
    assert Done([ta, tb]) == [ta, tb] && Polled([ta, tb]) == [] by {
      assert [ta] + [tb] == [ta, tb];
    }
    assert LastFailure([ta, tb]) == Some(ta) by {
      assert [ta, tb][..1] == [ta];
    }
    var p := PollPass(s2);
    assert p.0 == Some(ta) && p.1.tasks == [];
    assert Awaits(s2, 2) == p;
    assert MainRun(TwoJobs(), {}, spawn, 2) == (false, Some(ta), p.1);
  }

  /**
    The same two commands, but "a" fails one poll later: the first pass sees
    only "b" finish, a slot is free and nothing is pending, so the main loop
    ends without an error. The drain then sees "a" fail, and `run` still
    returns true.
   */
  lemma FailureWhileDraining(spawn: Cmd -> Proc)
    requires spawn(["a"]) == Proc(1, 1) && spawn(["b"]) == Proc(0, 0)
    ensures RunResult(TwoJobs(), {}, spawn, 2).0
  {
    var ta, tb := Task("a", ["a"], Proc(1, 1)), Task("b", ["b"], Proc(0, 0));
    var s2 := Sched([], map[], TwoJobs().ready, [ta, tb]);
    TwoPending();
    TwoLaunched(spawn);
    PollTwo(ta, tb);
    assert Done([ta, tb]) == [tb] && Polled([ta, tb]) == [Tick(ta)] by {
      assert [] + [tb] == [tb] && [Tick(ta)] + [] == [Tick(ta)];
    }
    assert LastFailure([tb]) == None;
    var s3 := Sched([], map[], MarkReady(s2.ready, [tb]), [Tick(ta)]);
    assert PollPass(s2) == (None, s3);
    assert Awaits(s2, 2) == (None, s3);
    assert Pending(s3);
    assert MainRun(s3, {}, spawn, 2) == (false, None, s3);
    assert MainRun(TwoJobs(), {}, spawn, 2) == (false, None, s3);
  }

  // ---------------------------------------------------------------------
  // The queue object
  // ---------------------------------------------------------------------

  class CommandQueue {
    /** The most commands that run at once. */
    const nThreads: int
    /** The readiness table: false from `add` until the name's command is over. */
    var ready: map<string, bool>
    /** The pending commands, by output name. */
    var queue: map<string, Job>
    /** The order in which `self.queue.keys()` lists the pending names. */
    var order: seq<string>

    ghost predicate Valid()
      reads this
    {
      Distinct(order) && (forall k :: k in queue <==> k in order) && (forall k :: k in queue ==> queue[k].fn == k)
    }

    constructor (nThreads: int)
      ensures Valid() && this.nThreads == nThreads
      ensures ready == map[] && queue == map[] && order == []
    {
      this.nThreads := nThreads;
      ready := map[];
      queue := map[];
      order := [];
    }

    /**
      `add`: registers a command under the name of its output and marks that
      name not ready. A name still pending fails the assertion and nothing
      changes.
     */
    method Add(fn: string, deps: seq<string>, cmd: Cmd) returns (accepted: bool)
      requires Valid()
      modifies this
      ensures Valid()
      ensures accepted == (fn !in old(queue))
      ensures accepted ==> queue == old(queue)[fn := Job(fn, deps, cmd)] && ready == old(ready)[fn := false]
      ensures accepted ==> order == old(order) + [fn]
      ensures !accepted ==> queue == old(queue) && ready == old(ready) && order == old(order)
    {
      if fn in queue {
        return false;
      }
      queue := queue[fn := Job(fn, deps, cmd)];
      ready := ready[fn := false];
      order := order + [fn];
      return true;
    }

    /** The state of the queue together with a tasks table, as `run` sees it. */
    function Snapshot(tasks: seq<Task>): Sched
      reads this
    {
      Sched(order, queue, ready, tasks)
    }

    /** `waiting`: the number of pending commands. */
    function Waiting(): (n: nat)
      reads this
      requires Valid()
      ensures n == |order|
    {
      KeysCount(order, queue.Keys);
      |queue|
    }

    /**
      `next`: the first pending command, in the order of the keys, whose
      dependencies are all satisfied is taken out of the queue and returned.
     */
    method Next(disk: set<string>) returns (job: Option<(string, Cmd)>)
      requires Valid()
      modifies this
      ensures Valid() && ready == old(ready)
      ensures Took(old(order), old(queue), ready, disk, job, order, queue)
    {
      var i := 0;
      while i < |order|
        invariant queue == old(queue) && order == old(order) && ready == old(ready)
        invariant 0 <= i <= |order|
        invariant forall j :: 0 <= j < i ==> !Runnable(queue[order[j]].deps, ready, disk)
      {
        var k := order[i];
        var entry := queue[k];
        var ok := DepsSatisfied(entry.deps, ready, disk);
        if ok {
          assert FirstRunnable(order, queue, ready, disk) == Some(i);
          queue := queue - {k};
          order := RemoveAt(order, i);
          return Some((entry.fn, entry.cmd));
        }
        i := i + 1;
      }
      assert FirstRunnable(order, queue, ready, disk).None?;
      return None;
    }

    /**
      `start_task`: takes the next runnable command; if its output exists
      already it is only marked ready, otherwise its process is started and
      entered in the tasks table.
     */
    method StartTask(tasks: seq<Task>, disk: set<string>, spawn: Cmd -> Proc) returns (job: Option<(string, Cmd)>, tasks': seq<Task>)
      requires Valid()
      modifies this
      ensures Valid()
      ensures Took(old(order), old(queue), old(ready), disk, job, order, queue)
      ensures job.None? ==> ready == old(ready) && tasks' == tasks
      ensures job.Some? && job.value.0 in disk ==> ready == old(ready)[job.value.0 := true] && tasks' == tasks
      ensures job.Some? && job.value.0 !in disk ==>
        ready == old(ready) && tasks' == Put(tasks, Task(job.value.0, job.value.1, spawn(job.value.1)))
    {
      job := Next(disk);
      tasks' := tasks;
      if job.Some? {
        var (fn, cmd) := job.value;
        if fn in disk {
          ready := ready[fn := true];
        } else {
          var proc := spawn(cmd);
          tasks' := Put(tasks, Task(fn, cmd, proc));
        }
      }
    }

    /**
      `check_tasks`: polls every task; the finished ones leave the table and
      are marked ready whatever their exit status, and the last finished one
      with a non-zero status is returned.
     */
    method CheckTasks(tasks: seq<Task>) returns (error: Option<Task>, tasks': seq<Task>)
      modifies this
      ensures queue == old(queue) && order == old(order)
      ensures ready == MarkReady(old(ready), Done(tasks))
      ensures tasks' == Polled(tasks)
      ensures error == LastFailure(Done(tasks))
    {
      var done;
      done, tasks' := PollTasks(tasks);
      error := None;
      for j := 0 to |done|
        invariant error == LastFailure(done[..j]) && ready == MarkReady(old(ready), done[..j])
        invariant queue == old(queue) && order == old(order)
      {
        var t := done[j];
        CheckOne(done, j, old(ready));
        if t.proc.code != 0 {
          error := Some(t);
        }
        ready := ready[t.fn := true];
      }
      assert done[..|done|] == done;
    }


    /** The invariant of the main loop of `run`, relative to the readiness table and queue the run started from. */
    ghost predicate Running(ready0: map<string, bool>, queue0: map<string, Job>, tasks: seq<Task>, trace: seq<Event>,
                            disk: set<string>, spawn: Cmd -> Proc)
      reads this
    {
      Valid() && Kept(ready0, queue0, ready, queue) && (forall k :: k in Fns(tasks) ==> k !in queue) &&
      (tasks == [] || |tasks| <= nThreads) && MainLoop(trace) && Recorded(trace, ready0, queue0, ready, queue, tasks, disk, nThreads, spawn)
    }

    /**
      The launch loop of `run`: while fewer than `nThreads` tasks run and
      commands are pending, `start_task`. When nothing can start it stops;
      with nothing running either, the run is stuck.
     */
    method LaunchReady(tasks: seq<Task>, disk: set<string>, spawn: Cmd -> Proc,
                       ghost ready0: map<string, bool>, ghost queue0: map<string, Job>, ghost trace: seq<Event>)
      returns (stuck: bool, tasks': seq<Task>, ghost trace': seq<Event>)
      requires Running(ready0, queue0, tasks, trace, disk, spawn) && NoFailure(trace) && nThreads > 0 && |order| > 0
      modifies this
      ensures Running(ready0, queue0, tasks', trace', disk, spawn) && NoFailure(trace')
      ensures stuck ==> tasks' == [] && queue != map[] && forall k :: k in queue ==> !Runnable(queue[k].deps, ready, disk)
      ensures !stuck ==> |tasks'| == nThreads || Waiting() == 0 || forall k :: k in queue ==> !Runnable(queue[k].deps, ready, disk)
      ensures !stuck ==> |order| < old(|order|) || (|order| == old(|order|) && Load(tasks') == Load(tasks) && tasks' != [])
      ensures Launches(old(Snapshot(tasks)), disk, spawn, nThreads) == (stuck, Snapshot(tasks'))
    {
      tasks', trace' := tasks, trace;
      ghost var launched := false;
      while Waiting() > 0 && |tasks'| < nThreads
        invariant Running(ready0, queue0, tasks', trace', disk, spawn) && NoFailure(trace')
        invariant Launches(Snapshot(tasks'), disk, spawn, nThreads) == Launches(old(Snapshot(tasks)), disk, spawn, nThreads)
        invariant launched ==> |order| < old(|order|)
        invariant !launched ==> |order| == old(|order|) && tasks' == tasks
        decreases |order|
      {
        var job;
        job, tasks', trace' := LaunchNext(tasks', disk, spawn, ready0, queue0, trace');
        if job.None? {
          if |tasks'| == 0 && Waiting() > 0 {
            // the commands left can never start
            assert order[0] in queue;
            return true, tasks', trace';
          } else {
            break;
          }
        }
        launched := true;
      }
      stuck := false;
    }

    /** One `start_task` of the launch loop, recorded as a cache hit or a launch. */
    method LaunchNext(tasks: seq<Task>, disk: set<string>, spawn: Cmd -> Proc,
                      ghost ready0: map<string, bool>, ghost queue0: map<string, Job>, ghost trace: seq<Event>)
      returns (job: Option<(string, Cmd)>, tasks': seq<Task>, ghost trace': seq<Event>)
      requires Running(ready0, queue0, tasks, trace, disk, spawn) && NoFailure(trace) && |tasks| < nThreads
      modifies this
      ensures Running(ready0, queue0, tasks', trace', disk, spawn) && NoFailure(trace')
      ensures Took(old(order), old(queue), old(ready), disk, job, order, queue)
      ensures job.None? ==> ready == old(ready) && tasks' == tasks && trace' == trace
      ensures job.Some? && job.value.0 in disk ==>
        ready == old(ready)[job.value.0 := true] && tasks' == tasks && trace' == trace + [CacheHit(job.value.0)]
      ensures job.Some? && job.value.0 !in disk ==>
        ready == old(ready) && tasks' == tasks + [Task(job.value.0, job.value.1, spawn(job.value.1))] &&
        trace' == trace + [Launched(job.value.0, |tasks|)]
      ensures job.None? ==> order == old(order) && queue == old(queue) && forall k :: k in queue ==> !Runnable(queue[k].deps, ready, disk)
      ensures job.Some? ==> |order| < old(|order|)
      ensures Start(old(Snapshot(tasks)), disk, spawn) == if job.None? then None else Some(Snapshot(tasks'))
    {
      ghost var order1, queue1, ready1 := order, queue, ready;
      var started;
      job, started := StartTask(tasks, disk, spawn);
      TookMeaning(order1, queue1, ready1, disk, job, order, queue);
      tasks', trace' := tasks, trace;
      if job.Some? {
        var fn := job.value.0;
        StartStep(trace, ready0, queue0, ready1, queue1, tasks, disk, nThreads, spawn, fn, job.value.1, ready, started);
        trace' := trace + [if fn in disk then CacheHit(fn) else Launched(fn, |tasks|)];
        tasks' := started;
      }
    }

    /** One `check_tasks` of the main loop, recorded. */
    method Check(tasks: seq<Task>, disk: set<string>, spawn: Cmd -> Proc,
                 ghost ready0: map<string, bool>, ghost queue0: map<string, Job>, ghost trace: seq<Event>)
      returns (error: Option<Task>, tasks': seq<Task>, ghost trace': seq<Event>)
      requires Running(ready0, queue0, tasks, trace, disk, spawn) && NoFailure(trace)
      modifies this
      ensures Running(ready0, queue0, tasks', trace', disk, spawn) && (error.None? <==> NoFailure(trace'))
      ensures trace' == trace + Exits(Done(tasks), false) && tasks' == Polled(tasks)
      ensures ready == MarkReady(old(ready), Done(tasks)) && error == LastFailure(Done(tasks))
      ensures queue == old(queue) && order == old(order) && Load(tasks') + |tasks| == Load(tasks)
      ensures PollPass(old(Snapshot(tasks))) == (error, Snapshot(tasks'))
    {
      ghost var ready1 := ready;
      error, tasks' := CheckTasks(tasks);
      PassStep(trace, ready0, queue0, ready1, queue, tasks, disk, nThreads, spawn, false);
      PassShrinks(tasks);
      PollProgress(tasks);
      MainPass(trace, Done(tasks));
      trace' := trace + Exits(Done(tasks), false);
    }

    /**
      The polling of the main loop: one `check_tasks`, repeated while every
      slot is taken and no error came back; it records only exits.
     */
    method AwaitSlot(tasks: seq<Task>, disk: set<string>, spawn: Cmd -> Proc,
                     ghost ready0: map<string, bool>, ghost queue0: map<string, Job>, ghost trace: seq<Event>)
      returns (error: Option<Task>, tasks': seq<Task>, ghost trace': seq<Event>)
      requires Running(ready0, queue0, tasks, trace, disk, spawn) && NoFailure(trace) && nThreads > 0
      modifies this
      ensures Running(ready0, queue0, tasks', trace', disk, spawn) && (error.None? <==> NoFailure(trace'))
      ensures |tasks'| < nThreads || error.Some?
      ensures ExitsAfter(trace, trace', false)
      ensures queue == old(queue) && order == old(order)
      ensures Load(tasks') <= Load(tasks) && (tasks != [] ==> Load(tasks') < Load(tasks))
      ensures Awaits(old(Snapshot(tasks)), nThreads) == (error, Snapshot(tasks'))
    {
      error, tasks', trace' := Check(tasks, disk, spawn, ready0, queue0, trace);
      ExitsAfterPass(trace, trace, Done(tasks), false);
      while |tasks'| == nThreads && error.None?
        invariant Running(ready0, queue0, tasks', trace', disk, spawn) && (error.None? <==> NoFailure(trace'))
        invariant ExitsAfter(trace, trace', false)
        invariant queue == old(queue) && order == old(order)
        invariant Load(tasks') <= Load(tasks) && (tasks != [] ==> Load(tasks') < Load(tasks))
        invariant Awaits(old(Snapshot(tasks)), nThreads) ==
          if |tasks'| == nThreads && error.None? then Awaits(Snapshot(tasks'), nThreads) else (error, Snapshot(tasks'))
        decreases Load(tasks')
      {
        ghost var before := trace';
        ghost var running := tasks';
        error, tasks', trace' := Check(tasks', disk, spawn, ready0, queue0, trace');
        ExitsAfterPass(trace, before, Done(running), false);
      }
    }

    /** The drain loop of `run`: `check_tasks` until no task runs, its answers ignored; it records only drain exits. */
    method Drain(tasks: seq<Task>, disk: set<string>, spawn: Cmd -> Proc,
                 ghost ready0: map<string, bool>, ghost queue0: map<string, Job>, ghost trace: seq<Event>)
      returns (ghost trace': seq<Event>)
      requires Valid() && Kept(ready0, queue0, ready, queue) && Recorded(trace, ready0, queue0, ready, queue, tasks, disk, nThreads, spawn)
      modifies this
      ensures Valid() && Kept(ready0, queue0, ready, queue) && Recorded(trace', ready0, queue0, ready, queue, [], disk, nThreads, spawn)
      ensures ExitsAfter(trace, trace', true)
      ensures queue == old(queue) && order == old(order)
      ensures (Stuck in trace' <==> Stuck in trace) && (OnlyDrainFailures(trace') <==> OnlyDrainFailures(trace))
      ensures ready == Drained(old(Snapshot(tasks))).ready
    {
      var running := tasks;
      trace' := trace;
      while |running| > 0
        invariant Valid() && Kept(ready0, queue0, ready, queue) && Recorded(trace', ready0, queue0, ready, queue, running, disk, nThreads, spawn)
        invariant ExitsAfter(trace, trace', true)
        invariant queue == old(queue) && order == old(order)
        invariant (Stuck in trace' <==> Stuck in trace) && (OnlyDrainFailures(trace') <==> OnlyDrainFailures(trace))
        invariant Drained(Snapshot(running)) == Drained(old(Snapshot(tasks)))
        decreases Load(running)
      {
        ghost var before, ready1, snap := running, ready, Snapshot(running);
        var _, rest := CheckTasks(running);
        DrainedStep(snap, Snapshot(rest));
        PassStep(trace', ready0, queue0, ready1, queue, before, disk, nThreads, spawn, true);
        PollProgress(before);
        DrainPass(trace', Done(before));
        ExitsAfterPass(trace, trace', Done(before), true);
        trace' := trace' + Exits(Done(before), true);
        running := rest;
      }
    }

    /**
      The main loop of `run`: starts commands while fewer than `nThreads`
      run and some can start, then polls, and repeats until nothing is
      pending or a pass of polling has seen a failure. With commands
      pending, none runnable and none running, it gives up at once.
     */
    method Schedule(disk: set<string>, spawn: Cmd -> Proc)
      returns (stuck: bool, error: Option<Task>, tasks: seq<Task>, ghost trace: seq<Event>)
      requires Valid() && (nThreads > 0 || queue == map[])
      modifies this
      ensures Running(old(ready), old(queue), tasks, trace, disk, spawn) && (error.None? <==> NoFailure(trace))
      ensures stuck ==> NoFailure(trace) && tasks == [] && queue != map[] && forall k :: k in queue ==> !Runnable(queue[k].deps, ready, disk)
      ensures !stuck ==> error.Some? || (Waiting() == 0 && (tasks == [] || |tasks| < nThreads))
      ensures MainRun(old(Snapshot([])), disk, spawn, nThreads) == (stuck, error, Snapshot(tasks))
    {
      tasks, error, trace := [], None, [];
      ghost var ready0, queue0, total := ready, queue, MainRun(Snapshot([]), disk, spawn, nThreads);
      RunningAtStart(disk, spawn);
      while Waiting() > 0 && error.None?
        invariant Running(ready0, queue0, tasks, trace, disk, spawn) && (error.None? <==> NoFailure(trace))
        invariant nThreads > 0 || queue0 == map[]
        invariant error.None? ==> tasks == [] || |tasks| < nThreads
        invariant total == if error.None? then MainRun(Snapshot(tasks), disk, spawn, nThreads) else (false, error, Snapshot(tasks))
        decreases |order|, Load(tasks)
      {
        assert order[0] in queue && order[0] in queue0;
        stuck, error, tasks, trace := Round(tasks, disk, spawn, ready0, queue0, trace);
        if stuck {
          return;
        }
      }
      stuck := false;
    }

    /** Before the main loop nothing has happened: no events, no tasks, the queue as given. */
    lemma RunningAtStart(disk: set<string>, spawn: Cmd -> Proc)
      requires Valid()
      ensures Running(ready, queue, [], [], disk, spawn)
    {
      assert queue.Keys - queue.Keys == {};
    }

    /** One round of the main loop of `run`: the launch loop, then the polling. */
    method Round(tasks: seq<Task>, disk: set<string>, spawn: Cmd -> Proc,
                 ghost ready0: map<string, bool>, ghost queue0: map<string, Job>, ghost trace: seq<Event>)
      returns (stuck: bool, error: Option<Task>, tasks': seq<Task>, ghost trace': seq<Event>)
      requires Running(ready0, queue0, tasks, trace, disk, spawn) && NoFailure(trace) && nThreads > 0 && |order| > 0
      requires tasks == [] || |tasks| < nThreads
      modifies this
      ensures Running(ready0, queue0, tasks', trace', disk, spawn) && (error.None? <==> NoFailure(trace'))
      ensures stuck ==> error.None? && tasks' == [] && queue != map[] && forall k :: k in queue ==> !Runnable(queue[k].deps, ready, disk)
      ensures !stuck ==> error.Some? || |tasks'| < nThreads
      ensures !stuck ==> |order| < old(|order|) || (|order| == old(|order|) && Load(tasks') < Load(tasks))
      ensures MainRun(old(Snapshot(tasks)), disk, spawn, nThreads) ==
        if stuck then (true, None, Snapshot(tasks'))
        else if error.Some? then (false, error, Snapshot(tasks'))
        else MainRun(Snapshot(tasks'), disk, spawn, nThreads)
    {
      ghost var s := Snapshot(tasks);
      stuck, tasks', trace' := LaunchReady(tasks, disk, spawn, ready0, queue0, trace);
      error := None;
      if stuck {
        return;
      }
      ghost var s1 := Snapshot(tasks');
      error, tasks', trace' := AwaitSlot(tasks', disk, spawn, ready0, queue0, trace');
      assert s.order[0] in s.queue;
    }

    /**
      `run`: the main loop, then, unless it got stuck, a wait for every
      process still running, ignoring how those end.

      The ghost `trace` records what the run did: the verdict is false
      exactly when it got stuck or a failure was seen before draining.
     */
    method Run(disk: set<string>, spawn: Cmd -> Proc) returns (ok: bool, ghost trace: seq<Event>)
      requires Valid() && (nThreads > 0 || queue == map[])
      modifies this
      ensures Valid() && Grows(old(ready), ready)
      ensures forall k :: k in queue ==> k in old(queue) && queue[k] == old(queue)[k]
      ensures ok <==> Stuck !in trace && forall i :: 0 <= i < |trace| && Failure(trace[i]) ==> trace[i].draining
      ensures ok ==> queue == map[]
      ensures Stuck in trace ==> trace[|trace| - 1] == Stuck && Stuck !in trace[..|trace| - 1]
      ensures Stuck in trace ==> queue != map[] && forall k :: k in queue ==> !Runnable(queue[k].deps, ready, disk)
      ensures Taken(trace) == multiset(old(queue).Keys - queue.Keys)
      ensures StartsOk(trace, old(ready), old(queue), disk)
      ensures LaunchesOk(trace, old(queue), queue, disk, nThreads) && HitsOk(trace, old(queue), queue, disk)
      ensures Latched(trace) && DrainsLast(trace, queue)
      ensures Started(trace) == Finished(trace) && ExitsOk(trace, old(queue), spawn)
      ensures StartedFirst(trace) && RunningCounted(trace)
      ensures ready == Replay(old(ready), trace) && MarkedOk(trace, ready)
      ensures RunResult(old(Snapshot([])), disk, spawn, nThreads) == (ok, Snapshot([]))
    {
      var stuck, error, tasks;
      stuck, error, tasks, trace := Schedule(disk, spawn);
      if stuck {
        StuckStep(trace, old(ready), old(queue), ready, queue, disk, nThreads, spawn);
        trace := trace + [Stuck];
        ReplayMarks(old(ready), trace);
        return false, trace;
      }
      ghost var main := trace;
      trace := Drain(tasks, disk, spawn, old(ready), old(queue), trace);
      DrainShape(main, trace, queue);
      ReplayMarks(old(ready), trace);
      return error.None?, trace;
    }
  }

  /** Giving up: the record holds with the final `Stuck`, which is the only one, and no drain event precedes it. */
  lemma StuckStep(trace: seq<Event>, ready0: map<string, bool>, queue0: map<string, Job>, ready: map<string, bool>,
                  queue: map<string, Job>, disk: set<string>, n: int, spawn: Cmd -> Proc)
    requires Recorded(trace, ready0, queue0, ready, queue, [], disk, n, spawn) && MainLoop(trace) && NoFailure(trace)
    ensures Recorded(trace + [Stuck], ready0, queue0, ready, queue, [], disk, n, spawn)
    ensures (trace + [Stuck])[..|trace|] == trace && Stuck !in trace
    ensures DrainsLast(trace + [Stuck], queue)
  {
    StuckLast(trace, queue);
    CountAppend(trace, [Stuck]);
    assert Taken([Stuck]) == multiset{} by { assert [Stuck][..0] == []; }
    LatchedSnoc(trace, Stuck);
    SnocOk(trace, Stuck, queue0, queue, queue, disk, n, spawn);
    StartsSnoc(trace, Stuck, ready0, queue0, disk);
    ReplaySnoc(ready0, trace, Stuck);
    SnocOrder(trace, Stuck, [], []);
    assert (trace + [Stuck])[..|trace|] == trace;
  }

  /** A main loop that gave up has no drain events, so the drain trivially comes last. */
  lemma StuckLast(trace: seq<Event>, queue: map<string, Job>)
    requires MainLoop(trace)
    ensures DrainsLast(trace + [Stuck], queue)
  {
    var t' := trace + [Stuck];
    forall i | 0 <= i < |t'| && t'[i].Exited?
      ensures !t'[i].draining
    {
      assert i < |trace| && t'[i] == trace[i];
    }
  }

  /** Every task's name is among the names of the table. */
  lemma {:induction false} FnsHas(tasks: seq<Task>)
    ensures forall i :: 0 <= i < |tasks| ==> tasks[i].fn in Fns(tasks)
  {
    if tasks != [] {
      FnsHas(tasks[..|tasks| - 1]);
    }
  }

  /** The state only moved forward: readiness grew and the queue only lost entries. */
  ghost predicate Kept(ready0: map<string, bool>, queue0: map<string, Job>, ready: map<string, bool>, queue: map<string, Job>)
  {
    Grows(ready0, ready) && forall k :: k in queue ==> k in queue0 && queue[k] == queue0[k]
  }

  /** Every started process has exited or is still in the table. */
  ghost predicate Balanced(trace: seq<Event>, tasks: seq<Task>)
  {
    Started(trace) == Finished(trace) + Names(tasks)
  }

  /**
    At every point of the run, the exits seen so far are exits of processes
    started before them: no prefix has finished more than it started.
   */
  ghost predicate StartedFirst(trace: seq<Event>)
  {
    Finished(trace) <= Started(trace) && (trace != [] ==> StartedFirst(trace[..|trace| - 1]))
  }

  /** Each launch records how many processes were running then: those started before it and not yet seen to exit. */
  ghost predicate RunningCounted(trace: seq<Event>)
  {
    trace != [] ==>
      var init, e := trace[..|trace| - 1], trace[|trace| - 1];
      RunningCounted(init) && (e.Launched? ==> e.running == |Started(init)| - |Finished(init)|)
  }

  /** The two records above, stated at every index of the trace. */
  lemma {:induction false} OrderedPrefixes(trace: seq<Event>)
    requires StartedFirst(trace) && RunningCounted(trace)
    ensures forall i :: 0 <= i <= |trace| ==> Finished(trace[..i]) <= Started(trace[..i])
    ensures forall i :: 0 <= i < |trace| && trace[i].Launched? ==> trace[i].running == |Started(trace[..i])| - |Finished(trace[..i])|
  {
    if trace == [] {
      assert trace[..0] == trace;
    } else {
      var init := trace[..|trace| - 1];
      OrderedPrefixes(init);
      forall i | 0 <= i <= |trace|
        ensures Finished(trace[..i]) <= Started(trace[..i])
      {
        if i < |trace| {
          assert trace[..i] == init[..i];
        } else {
          assert trace[..i] == trace;
        }
      }
      forall i | 0 <= i < |trace| && trace[i].Launched?
        ensures trace[i].running == |Started(trace[..i])| - |Finished(trace[..i])|
      {
        if i < |init| {
          assert trace[..i] == init[..i] && trace[i] == init[i];
        } else {
          assert trace[..i] == init;
        }
      }
    }
  }

  /** The table holds one name per task. */
  lemma {:induction false} NamesSize(tasks: seq<Task>)
    ensures |Names(tasks)| == |tasks|
  {
    if tasks != [] {
      NamesSize(tasks[..|tasks| - 1]);
    }
  }

  /** A balanced record has seen no more exits than launches, and the difference is the size of the table. */
  lemma BalancedCounts(trace: seq<Event>, tasks: seq<Task>)
    requires Balanced(trace, tasks)
    ensures Finished(trace) <= Started(trace) && |Started(trace)| - |Finished(trace)| == |tasks|
  {
    NamesSize(tasks);
  }

  /** An event that is not part of a polling pass keeps every exit after its launch, and a launch records the size of the table. */
  lemma SnocOrder(trace: seq<Event>, e: Event, tasks: seq<Task>, tasks': seq<Task>)
    requires StartedFirst(trace) && RunningCounted(trace) && Balanced(trace, tasks) && Balanced(trace + [e], tasks')
    requires e.Launched? ==> e.running == |tasks|
    ensures StartedFirst(trace + [e]) && RunningCounted(trace + [e])
  {
    BalancedCounts(trace + [e], tasks');
    BalancedCounts(trace, tasks);
    assert (trace + [e])[..|trace|] == trace;
  }

  /** The exits of a polling pass each follow their launch: the pass only reports processes of the table. */
  lemma PassOrder(trace: seq<Event>, tasks: seq<Task>, draining: bool)
    requires StartedFirst(trace) && RunningCounted(trace) && Balanced(trace, tasks)
    ensures StartedFirst(trace + Exits(Done(tasks), draining)) && RunningCounted(trace + Exits(Done(tasks), draining))
  {
    PollSplit(tasks);
    ExitsOrder(trace, Done(tasks), draining);
  }

  /** Reporting exits of processes still running keeps every exit after its launch, and launches no process. */
  lemma {:induction false} ExitsOrder(trace: seq<Event>, done: seq<Task>, draining: bool)
    requires StartedFirst(trace) && RunningCounted(trace) && Finished(trace) + Names(done) <= Started(trace)
    ensures StartedFirst(trace + Exits(done, draining)) && RunningCounted(trace + Exits(done, draining))
  {
    if done == [] {
      assert trace + Exits(done, draining) == trace;
    } else {
      var init, t := done[..|done| - 1], done[|done| - 1];
      var e := Exited(t.fn, t.proc.code, draining);
      var pre := trace + Exits(init, draining);
      assert trace + Exits(done, draining) == pre + [e] by {
        assert Exits(done, draining) == Exits(init, draining) + [e];
      }
      ExitRoom(trace, done, draining);
      ExitsOrder(trace, init, draining);
      ExitSnoc(pre, e);
    }
  }

  /** Before the last exit of a pass is reported, its process is still among those started and not seen to exit. */
  lemma ExitRoom(trace: seq<Event>, done: seq<Task>, draining: bool)
    requires done != [] && Finished(trace) + Names(done) <= Started(trace)
    ensures Finished(trace) + Names(done[..|done| - 1]) <= Started(trace)
    ensures Finished(trace + Exits(done[..|done| - 1], draining)) + multiset{done[|done| - 1].fn} <= Started(trace + Exits(done[..|done| - 1], draining))
  {
    var init := done[..|done| - 1];
    assert Names(done) == Names(init) + multiset{done[|done| - 1].fn};
    CountAppend(trace, Exits(init, draining));
    ExitsCount(init, draining);
  }

  /** The exit of a process started and not yet seen to exit keeps every exit after its launch. */
  lemma ExitSnoc(trace: seq<Event>, e: Event)
    requires StartedFirst(trace) && RunningCounted(trace) && e.Exited? && Finished(trace) + multiset{e.fn} <= Started(trace)
    ensures StartedFirst(trace + [e]) && RunningCounted(trace + [e])
  {
    assert (trace + [e])[..|trace|] == trace;
    CountAppend(trace, [e]);
    assert Started([e]) == multiset{} && Finished([e]) == multiset{e.fn} by {
      assert [e][..0] == [];
    }
  }

  /** Every launch happened below the limit, for a name taken out of the queue whose output did not exist. */
  predicate LaunchesOk(trace: seq<Event>, queue0: map<string, Job>, queue: map<string, Job>, disk: set<string>, n: int)
  {
    forall i :: 0 <= i < |trace| && trace[i].Launched? ==>
      trace[i].running < n && trace[i].fn !in disk && trace[i].fn in queue0 && trace[i].fn !in queue
  }

  /** Every cache hit was a name taken out of the queue whose output existed. */
  predicate HitsOk(trace: seq<Event>, queue0: map<string, Job>, queue: map<string, Job>, disk: set<string>)
  {
    forall i :: 0 <= i < |trace| && trace[i].CacheHit? ==> trace[i].fn in disk && trace[i].fn in queue0 && trace[i].fn !in queue
  }

  /** Every name that was a cache hit or whose process exited is ready. */
  predicate MarkedOk(trace: seq<Event>, ready: map<string, bool>)
  {
    forall i :: 0 <= i < |trace| && (trace[i].CacheHit? || trace[i].Exited?) ==> trace[i].fn in ready && ready[trace[i].fn]
  }

  /**
    Every launch and every cache hit took a registered command whose
    dependencies were all satisfied by the readiness table of that moment,
    the table replayed up to that event.
   */
  predicate StartsOk(trace: seq<Event>, ready0: map<string, bool>, queue0: map<string, Job>, disk: set<string>)
  {
    forall i :: 0 <= i < |trace| && (trace[i].Launched? || trace[i].CacheHit?) ==>
      trace[i].fn in queue0 && Runnable(queue0[trace[i].fn].deps, Replay(ready0, trace[..i]), disk)
  }

  /** Every exit status recorded is the status the process of the name's registered command exits with. */
  predicate ExitsOk(trace: seq<Event>, queue0: map<string, Job>, spawn: Cmd -> Proc)
  {
    forall i :: 0 <= i < |trace| && trace[i].Exited? ==>
      trace[i].fn in queue0 && trace[i].code == spawn(queue0[trace[i].fn].cmd).code
  }

  /** Every task runs the command registered under its name, and its process exits with that command's status. */
  predicate TasksOk(tasks: seq<Task>, queue0: map<string, Job>, spawn: Cmd -> Proc)
  {
    forall t :: t in tasks ==> t.fn in queue0 && t.cmd == queue0[t.fn].cmd && t.proc.code == spawn(t.cmd).code
  }

  /**
    What the recorded steps say of the state they led to: the readiness
    table is the replay of the trace, and the names gone from the queue
    are exactly those launched or hit, each once.
   */
  ghost predicate Recorded(trace: seq<Event>, ready0: map<string, bool>, queue0: map<string, Job>, ready: map<string, bool>,
                           queue: map<string, Job>, tasks: seq<Task>, disk: set<string>, n: int, spawn: Cmd -> Proc)
  {
    Latched(trace) && Balanced(trace, tasks) && StartedFirst(trace) && RunningCounted(trace) && LaunchesOk(trace, queue0, queue, disk, n) && HitsOk(trace, queue0, queue, disk) &&
    ready == Replay(ready0, trace) && Taken(trace) == multiset(queue0.Keys - queue.Keys) &&
    StartsOk(trace, ready0, queue0, disk) && ExitsOk(trace, queue0, spawn) && TasksOk(tasks, queue0, spawn)
  }

  predicate NoFailure(trace: seq<Event>) { forall i :: 0 <= i < |trace| ==> !Failure(trace[i]) }

  /** Every failure in the trace was seen while draining. */
  predicate OnlyDrainFailures(trace: seq<Event>) { forall i :: 0 <= i < |trace| && Failure(trace[i]) ==> trace[i].draining }

  /** The main loop records no drain events and never gets stuck. */
  predicate MainLoop(trace: seq<Event>)
  {
    Stuck !in trace && forall i :: 0 <= i < |trace| && trace[i].Exited? ==> !trace[i].draining
  }

  /** `after` is `before` followed by exit events only, all of them seen while draining or all not. */
  predicate ExitsAfter(before: seq<Event>, after: seq<Event>, draining: bool)
  {
    |before| <= |after| && after[..|before|] == before &&
    forall i :: |before| <= i < |after| ==> after[i].Exited? && after[i].draining == draining
  }

  /**
    Draining comes last: after an exit seen while draining only such exits
    follow, and draining began with the queue empty or after a failure.
   */
  predicate DrainsLast(trace: seq<Event>, queue: map<string, Job>)
  {
    forall i :: 0 <= i < |trace| && trace[i].Exited? && trace[i].draining ==>
      (forall j :: i < j < |trace| ==> trace[j].Exited? && trace[j].draining) &&
      (queue == map[] || exists j :: 0 <= j < i && Failure(trace[j]))
  }

  /** A pass appends its exits after the ones already appended. */
  lemma ExitsAfterPass(trace: seq<Event>, before: seq<Event>, done: seq<Task>, draining: bool)
    requires ExitsAfter(trace, before, draining)
    ensures ExitsAfter(trace, before + Exits(done, draining), draining)
  {
    var evs := Exits(done, draining);
    var after := before + evs;
    assert after[..|before|] == before;
    assert after[..|trace|] == before[..|trace|];
    forall i | |trace| <= i < |after| ensures after[i].Exited? && after[i].draining == draining {
      if i < |before| {
        assert after[i] == before[i];
      } else {
        assert after[i] == evs[i - |before|];
      }
    }
  }

  /** A main loop that ended with the queue empty or a failure, followed by drain exits, leaves the drain last. */
  lemma DrainShape(main: seq<Event>, trace: seq<Event>, queue: map<string, Job>)
    requires MainLoop(main) && ExitsAfter(main, trace, true)
    requires queue == map[] || !NoFailure(main)
    ensures DrainsLast(trace, queue)
  {
    forall i | 0 <= i < |trace| && trace[i].Exited? && trace[i].draining
      ensures (forall j :: i < j < |trace| ==> trace[j].Exited? && trace[j].draining)
      ensures queue == map[] || exists j :: 0 <= j < i && Failure(trace[j])
    {
      if queue != map[] {
        var j :| 0 <= j < |main| && Failure(main[j]);
        assert trace[j] == main[j];
      }
    }
  }

  /** Appending one event that is not an exit keeps a failure-free trace latched. */
  lemma LatchedSnoc(trace: seq<Event>, e: Event)
    requires NoFailure(trace)
    ensures Latched(trace + [e])
  {
  }

  /** Appending exit events never breaks the latch. */
  lemma LatchedExits(trace: seq<Event>, done: seq<Task>, draining: bool)
    requires Latched(trace)
    ensures Latched(trace + Exits(done, draining))
  {
    var evs := Exits(done, draining);
    var t' := trace + evs;
    forall i, j | 0 <= i < j < |t'| && Failure(t'[i]) ensures !t'[j].Launched? && !t'[j].CacheHit? {
      if j >= |trace| {
        assert t'[j] == evs[j - |trace|];
      } else {
        assert t'[i] == trace[i] && t'[j] == trace[j];
      }
    }
  }

  /** The per-event conditions hold of a trace with one more event, not an exit, when they hold of the trace and of the event. */
  lemma SnocOk(trace: seq<Event>, e: Event, queue0: map<string, Job>, queue: map<string, Job>, queue': map<string, Job>,
               disk: set<string>, n: int, spawn: Cmd -> Proc)
    requires LaunchesOk(trace, queue0, queue, disk, n) && HitsOk(trace, queue0, queue, disk) && ExitsOk(trace, queue0, spawn)
    requires queue'.Keys <= queue.Keys && !e.Exited?
    requires e.Launched? ==> e.running < n && e.fn !in disk && e.fn in queue0 && e.fn !in queue'
    requires e.CacheHit? ==> e.fn in disk && e.fn in queue0 && e.fn !in queue'
    ensures LaunchesOk(trace + [e], queue0, queue', disk, n) && HitsOk(trace + [e], queue0, queue', disk)
    ensures ExitsOk(trace + [e], queue0, spawn)
  {
    var t' := trace + [e];
    assert forall i :: 0 <= i < |trace| ==> t'[i] == trace[i];
    assert t'[|trace|] == e;
  }

  /** A start whose dependencies the current readiness satisfies keeps every start justified. */
  lemma StartsSnoc(trace: seq<Event>, e: Event, ready0: map<string, bool>, queue0: map<string, Job>, disk: set<string>)
    requires StartsOk(trace, ready0, queue0, disk)
    requires e.Launched? || e.CacheHit? ==> e.fn in queue0 && Runnable(queue0[e.fn].deps, Replay(ready0, trace), disk)
    ensures StartsOk(trace + [e], ready0, queue0, disk)
  {
    var t' := trace + [e];
    forall i | 0 <= i < |t'| && (t'[i].Launched? || t'[i].CacheHit?)
      ensures t'[i].fn in queue0 && Runnable(queue0[t'[i].fn].deps, Replay(ready0, t'[..i]), disk)
    {
      if i < |trace| {
        assert t'[i] == trace[i] && t'[..i] == trace[..i];
      } else {
        assert t'[..i] == trace;
      }
    }
  }

  /**
    One `start_task` that took the runnable pending name fn: recorded as a
    cache hit when its output exists and as a launch otherwise, it keeps
    the invariant of the main loop.
   */
  lemma StartStep(trace: seq<Event>, ready0: map<string, bool>, queue0: map<string, Job>, ready1: map<string, bool>,
                  queue1: map<string, Job>, tasks: seq<Task>, disk: set<string>, n: int, spawn: Cmd -> Proc,
                  fn: string, cmd: Cmd, ready: map<string, bool>, started: seq<Task>)
    requires Recorded(trace, ready0, queue0, ready1, queue1, tasks, disk, n, spawn) && NoFailure(trace) && MainLoop(trace)
    requires Kept(ready0, queue0, ready1, queue1) && (forall k :: k in Fns(tasks) ==> k !in queue1) && |tasks| < n
    requires fn in queue1 && Runnable(queue1[fn].deps, ready1, disk) && cmd == queue1[fn].cmd
    requires fn in disk ==> ready == ready1[fn := true] && started == tasks
    requires fn !in disk ==> ready == ready1 && started == Put(tasks, Task(fn, cmd, spawn(cmd)))
    ensures fn !in disk ==> started == tasks + [Task(fn, cmd, spawn(cmd))]
    ensures var t' := trace + [if fn in disk then CacheHit(fn) else Launched(fn, |tasks|)];
      Recorded(t', ready0, queue0, ready, queue1 - {fn}, started, disk, n, spawn) && NoFailure(t') && MainLoop(t')
    ensures Kept(ready0, queue0, ready, queue1 - {fn}) && (forall k :: k in Fns(started) ==> k !in queue1 - {fn}) && |started| <= n
  {
    var e := if fn in disk then CacheHit(fn) else Launched(fn, |tasks|);
    if fn in disk {
      CacheHitStep(trace, ready0, queue0, ready1, queue1, tasks, disk, n, spawn, fn);
    } else {
      var t := Task(fn, cmd, spawn(cmd));
      assert started == tasks + [t];
      LaunchStep(trace, ready0, queue0, ready1, queue1, tasks, disk, n, spawn, t);
    }
    var t' := trace + [e];
    assert forall i :: 0 <= i < |trace| ==> t'[i] == trace[i];
  }

  /** A cache hit of a pending, runnable name keeps the record true after it is marked ready and leaves the queue. */
  lemma CacheHitStep(trace: seq<Event>, ready0: map<string, bool>, queue0: map<string, Job>, ready: map<string, bool>,
                     queue: map<string, Job>, tasks: seq<Task>, disk: set<string>, n: int, spawn: Cmd -> Proc, fn: string)
    requires Recorded(trace, ready0, queue0, ready, queue, tasks, disk, n, spawn) && NoFailure(trace)
    requires fn in disk && fn in queue && queue.Keys <= queue0.Keys && fn in queue0 && Runnable(queue0[fn].deps, ready, disk)
    ensures Recorded(trace + [CacheHit(fn)], ready0, queue0, ready[fn := true], queue - {fn}, tasks, disk, n, spawn)
  {
    var e := CacheHit(fn);
    HitCounts(trace, tasks, fn);
    TakeOne(queue0, queue, fn);
    LatchedSnoc(trace, e);
    SnocOk(trace, e, queue0, queue, queue - {fn}, disk, n, spawn);
    StartsSnoc(trace, e, ready0, queue0, disk);
    ReplaySnoc(ready0, trace, e);
    SnocOrder(trace, e, tasks, tasks);
  }

  /** A launch below the limit of a pending, runnable name keeps the record true with the new task in the table. */
  lemma LaunchStep(trace: seq<Event>, ready0: map<string, bool>, queue0: map<string, Job>, ready: map<string, bool>,
                   queue: map<string, Job>, tasks: seq<Task>, disk: set<string>, n: int, spawn: Cmd -> Proc, t: Task)
    requires Recorded(trace, ready0, queue0, ready, queue, tasks, disk, n, spawn) && NoFailure(trace)
    requires t.fn !in disk && t.fn in queue && queue.Keys <= queue0.Keys && |tasks| < n
    requires t.fn in queue0 && t.cmd == queue0[t.fn].cmd && t.proc == spawn(t.cmd) && Runnable(queue0[t.fn].deps, ready, disk)
    ensures Recorded(trace + [Launched(t.fn, |tasks|)], ready0, queue0, ready, queue - {t.fn}, tasks + [t], disk, n, spawn)
  {
    var e := Launched(t.fn, |tasks|);
    LaunchCounts(trace, tasks, t);
    TakeOne(queue0, queue, t.fn);
    TasksSnoc(tasks, t, queue0, spawn);
    LatchedSnoc(trace, e);
    SnocOk(trace, e, queue0, queue, queue - {t.fn}, disk, n, spawn);
    StartsSnoc(trace, e, ready0, queue0, disk);
    ReplaySnoc(ready0, trace, e);
    SnocOrder(trace, e, tasks, tasks + [t]);
  }

  /** Recording a polling pass keeps the record true of the state the pass leaves. */
  lemma PassStep(trace: seq<Event>, ready0: map<string, bool>, queue0: map<string, Job>, ready: map<string, bool>,
                 queue: map<string, Job>, tasks: seq<Task>, disk: set<string>, n: int, spawn: Cmd -> Proc, draining: bool)
    requires Recorded(trace, ready0, queue0, ready, queue, tasks, disk, n, spawn)
    ensures Recorded(trace + Exits(Done(tasks), draining), ready0, queue0, MarkReady(ready, Done(tasks)), queue, Polled(tasks), disk, n, spawn)
  {
    PassBalanced(trace, tasks, draining);
    LatchedExits(trace, Done(tasks), draining);
    PassEventsOk(trace, ready0, queue0, queue, Done(tasks), disk, n, draining);
    ReplayExits(ready0, trace, Done(tasks), draining);
    TasksPass(tasks, queue0, spawn);
    ExitsOkExits(trace, Done(tasks), draining, queue0, spawn);
    PassOrder(trace, tasks, draining);
  }

  /** The processes of a pass leave the table as their exits enter the trace, and no name is taken. */
  lemma PassBalanced(trace: seq<Event>, tasks: seq<Task>, draining: bool)
    requires Balanced(trace, tasks)
    ensures Balanced(trace + Exits(Done(tasks), draining), Polled(tasks))
    ensures Taken(trace + Exits(Done(tasks), draining)) == Taken(trace)
  {
    CountAppend(trace, Exits(Done(tasks), draining));
    ExitsCount(Done(tasks), draining);
    PollSplit(tasks);
  }

  /** The exits of a pass are not starts, so the earlier launches and hits keep their conditions. */
  lemma PassEventsOk(trace: seq<Event>, ready0: map<string, bool>, queue0: map<string, Job>, queue: map<string, Job>,
                     done: seq<Task>, disk: set<string>, n: int, draining: bool)
    requires LaunchesOk(trace, queue0, queue, disk, n) && HitsOk(trace, queue0, queue, disk) && StartsOk(trace, ready0, queue0, disk)
    ensures var t' := trace + Exits(done, draining);
      LaunchesOk(t', queue0, queue, disk, n) && HitsOk(t', queue0, queue, disk) && StartsOk(t', ready0, queue0, disk)
  {
    var evs := Exits(done, draining);
    var t' := trace + evs;
    forall i | 0 <= i < |t'|
      ensures t'[i].Launched? ==> t'[i].running < n && t'[i].fn !in disk && t'[i].fn in queue0 && t'[i].fn !in queue
      ensures t'[i].CacheHit? ==> t'[i].fn in disk && t'[i].fn in queue0 && t'[i].fn !in queue
      ensures (t'[i].Launched? || t'[i].CacheHit?) ==>
        t'[i].fn in queue0 && Runnable(queue0[t'[i].fn].deps, Replay(ready0, t'[..i]), disk)
    {
      if i < |trace| {
        assert t'[i] == trace[i] && t'[..i] == trace[..i];
      } else {
        assert t'[i] == evs[i - |trace|];
      }
    }
  }

  /** Polling keeps every task's command and exit status: the finished and the still-running tasks keep them. */
  lemma {:induction false} TasksPass(tasks: seq<Task>, queue0: map<string, Job>, spawn: Cmd -> Proc)
    requires TasksOk(tasks, queue0, spawn)
    ensures TasksOk(Done(tasks), queue0, spawn) && TasksOk(Polled(tasks), queue0, spawn)
  {
    if tasks != [] {
      var init, t := tasks[..|tasks| - 1], tasks[|tasks| - 1];
      assert forall u :: u in init ==> u in tasks;
      TasksPass(init, queue0, spawn);
      assert t in tasks;
    }
  }

  /** The exits of a pass report the statuses of the commands registered under their names. */
  lemma ExitsOkExits(trace: seq<Event>, done: seq<Task>, draining: bool, queue0: map<string, Job>, spawn: Cmd -> Proc)
    requires ExitsOk(trace, queue0, spawn) && TasksOk(done, queue0, spawn)
    ensures ExitsOk(trace + Exits(done, draining), queue0, spawn)
  {
    var evs := Exits(done, draining);
    var t' := trace + evs;
    forall i | 0 <= i < |t'| && t'[i].Exited?
      ensures t'[i].fn in queue0 && t'[i].code == spawn(queue0[t'[i].fn].cmd).code
    {
      if i < |trace| {
        assert t'[i] == trace[i];
      } else {
        assert t'[i] == evs[i - |trace|];
        assert done[i - |trace|] in done;
      }
    }
  }

  /** The table after a pass holds only names it held before, and no more tasks. */
  lemma PassShrinks(tasks: seq<Task>)
    ensures forall k :: k in Fns(Polled(tasks)) ==> k in Fns(tasks)
    ensures |Polled(tasks)| <= |tasks|
  {
    PollSplit(tasks);
    NamesFns(Polled(tasks));
    NamesFns(tasks);
  }

  /** A pass of the main loop keeps its trace free of drain events and fails exactly when `check_tasks` returns an error. */
  lemma MainPass(trace: seq<Event>, done: seq<Task>)
    requires MainLoop(trace) && NoFailure(trace)
    ensures MainLoop(trace + Exits(done, false))
    ensures NoFailure(trace + Exits(done, false)) <==> LastFailure(done).None?
  {
    var evs := Exits(done, false);
    var t' := trace + evs;
    assert forall i :: |trace| <= i < |t'| ==> t'[i] == evs[i - |trace|];
    if LastFailure(done).Some? {
      var i :| 0 <= i < |done| && done[i].proc.code != 0;
      assert Failure(t'[|trace| + i]);
    }
  }

  /** A drain pass adds only drain events. */
  lemma DrainPass(trace: seq<Event>, done: seq<Task>)
    ensures Stuck !in trace ==> Stuck !in trace + Exits(done, true)
    ensures OnlyDrainFailures(trace + Exits(done, true)) <==> OnlyDrainFailures(trace)
  {
    var evs := Exits(done, true);
    var t' := trace + evs;
    assert forall i :: |trace| <= i < |t'| ==> t'[i] == evs[i - |trace|];
    assert forall i :: 0 <= i < |trace| ==> t'[i] == trace[i];
  }

  /** A list of distinct names has as many entries as the set of its names. */
  lemma {:induction false} KeysCount(order: seq<string>, keys: set<string>)
    requires Distinct(order) && forall k :: k in keys <==> k in order
    ensures |keys| == |order|
  {
    if order != [] {
      var init, x := order[..|order| - 1], order[|order| - 1];
      assert order == init + [x];
      assert x !in init;
      KeysCount(init, keys - {x});
    }
  }
}
