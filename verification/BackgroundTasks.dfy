/** BackgroundTaskManager (src-tauri/src/background.rs): bounded retention of the most recent tasks. */
module BackgroundTasks {
  import opened Base

  datatype TaskStatus = Pending | Running | Completed | Failed | Cancelled

  datatype Task = Task(
    id: string,
    name: string,
    status: TaskStatus,
    progress: Option<nat>,
    error: Option<string>,
    createdAt: int,
    updatedAt: int)

  type Tasks = map<string, Task>

  /** after is before without its oldest tasks, down to max, ties broken any way. */
  ghost predicate KeepsNewest(before: Tasks, after: Tasks, max: nat) {
    && |after| == Min(|before|, max)
    && after.Keys <= before.Keys
    && (forall id | id in after :: after[id] == before[id])
    && (forall gone, kept | gone in before.Keys - after.Keys && kept in after :: before[gone].createdAt <= before[kept].createdAt)
  }

  lemma {:induction false} OldestExists(tasks: Tasks) returns (id: string)
    requires tasks != map[]
    ensures id in tasks && forall other | other in tasks :: tasks[id].createdAt <= tasks[other].createdAt
    decreases |tasks|
  {
    id :| id in tasks;
    var rest := tasks - {id};
    assert |rest| == |tasks| - 1 by { assert rest.Keys == tasks.Keys - {id}; }
    if rest != map[] {
      var other := OldestExists(rest);
      assert forall x | x in tasks :: x == id || x in rest;
      if tasks[other].createdAt < tasks[id].createdAt {
        id := other;
      }
    }
  }

  /** The parts of a task that updates leave alone. */
  predicate IsRecordOf(task: Task, made: Task) {
    task.id == made.id && task.name == made.name && task.createdAt == made.createdAt
  }

  /** Creation stamps increase, ids are never reused. */
  ghost predicate Clocked(created: seq<Task>) {
    forall i, j | 0 <= i < j < |created| :: created[i].createdAt < created[j].createdAt && created[i].id != created[j].id
  }

  function Ids(ts: seq<Task>): set<string> {
    set i | 0 <= i < |ts| :: ts[i].id
  }

  /** The map has exactly the tasks of ts, possibly updated since. */
  ghost predicate Holds(ts: seq<Task>, tasks: Tasks) {
    tasks.Keys == Ids(ts) && forall i | 0 <= i < |ts| :: IsRecordOf(tasks[ts[i].id], ts[i])
  }

  /** The max most recently created tasks, all of them if fewer. */
  function Recent(created: seq<Task>, max: nat): seq<Task> {
    created[|created| - Min(|created|, max)..]
  }

  class BackgroundTaskManager {
    var tasks: Tasks
    const maxTasks: nat := 100
    /** Every task ever created, in order of creation. */
    ghost var created: seq<Task>

    /** Tasks are filed under their own ids, at most 100 of them. */
    ghost predicate Valid()
      reads this
    {
      |tasks| <= 100 && forall id | id in tasks :: tasks[id].id == id
    }

    /** Stamps and ids have been fresh so far, and the map has exactly the most recent tasks. */
    ghost predicate Retains()
      reads this
    {
      Clocked(created) && Holds(Recent(created, 100), tasks)
    }

    constructor ()
      ensures Valid() && Retains() && created == [] && tasks == map[]
    {
      tasks, created := map[], [];
    }

    /** The eviction loop: sort by creation, drop the first, until the map is small enough. */
    method Cleanup()
      modifies this`tasks
      ensures KeepsNewest(old(tasks), tasks, 100)
    {
      while |tasks| > maxTasks
        invariant |tasks| >= Min(|old(tasks)|, maxTasks) && tasks.Keys <= old(tasks).Keys
        invariant |tasks| <= |old(tasks)|
        invariant forall id | id in tasks :: tasks[id] == old(tasks)[id]
        invariant forall gone, kept | gone in old(tasks).Keys - tasks.Keys && kept in tasks ::
                    old(tasks)[gone].createdAt <= old(tasks)[kept].createdAt
      {
        ghost var candidate := OldestExists(tasks);
        var oldest :| oldest in tasks && forall other | other in tasks :: tasks[oldest].createdAt <= tasks[other].createdAt;
        assert (tasks - {oldest}).Keys == tasks.Keys - {oldest};
        tasks := tasks - {oldest};
      }
    }

    /**
     `create`, given the id and the clock reading it uses; None is the panic when the new task is
     not found. Whatever the clock, the newest tasks are kept; with a fresh id and a stamp later
     than all before, the map still has exactly the most recent tasks, the new one among them.
     */
    method Create(name: string, id: string, now: int) returns (task: Option<Task>)
      requires Valid()
      modifies this
      ensures var made := Task(id, name, Pending, None, None, now, now);
              && Valid() && created == old(created) + [made]
              && KeepsNewest(old(tasks)[id := made], tasks, 100)
              && task == (if id in tasks then Some(made) else None)
      ensures old(Retains()) && (forall t | t in old(created) :: t.id != id && t.createdAt < now) ==>
                Retains() && task.Some? && id !in old(tasks)
    {
      hide Clocked, Holds, Recent;
      var made := Task(id, name, Pending, None, None, now, now);
      tasks := tasks[id := made];
      Cleanup();
      created := created + [made];
      task := if id in tasks then Some(tasks[id]) else None;
      if old(Retains()) && (forall t | t in old(created) :: t.id != id && t.createdAt < now) {
        CreateKeepsRecent(old(created), made, old(tasks), tasks, maxTasks);
      }
    }

    method SetStatus(id: string, status: TaskStatus, now: int)
      requires Valid()
      modifies this`tasks
      ensures Valid() && (old(Retains()) ==> Retains())
      ensures tasks == if id !in old(tasks) then old(tasks)
                       else old(tasks)[id := old(tasks)[id].(status := status, updatedAt := now)]
    {
      if id in tasks {
        ghost var before := tasks;
        tasks := tasks[id := tasks[id].(status := status, updatedAt := now)];
        UpdateKeeps(Recent(created, maxTasks), before, id, tasks[id]);
      }
    }

    method SetProgress(id: string, progress: nat, now: int)
      requires Valid()
      modifies this`tasks
      ensures Valid() && (old(Retains()) ==> Retains())
      ensures tasks == if id !in old(tasks) then old(tasks)
                       else old(tasks)[id := old(tasks)[id].(progress := Some(progress), updatedAt := now)]
    {
      if id in tasks {
        ghost var before := tasks;
        tasks := tasks[id := tasks[id].(progress := Some(progress), updatedAt := now)];
        UpdateKeeps(Recent(created, maxTasks), before, id, tasks[id]);
      }
    }

    method Fail(id: string, error: string, now: int)
      requires Valid()
      modifies this`tasks
      ensures Valid() && (old(Retains()) ==> Retains())
      ensures tasks == if id !in old(tasks) then old(tasks)
                       else old(tasks)[id := old(tasks)[id].(status := Failed, error := Some(error), updatedAt := now)]
    {
      if id in tasks {
        ghost var before := tasks;
        tasks := tasks[id := tasks[id].(status := Failed, error := Some(error), updatedAt := now)];
        UpdateKeeps(Recent(created, maxTasks), before, id, tasks[id]);
      }
    }
  }

  /** Updating a task in place changes neither the size of the map nor which tasks it has. */
  lemma UpdateKeeps(ts: seq<Task>, tasks: Tasks, id: string, task: Task)
    requires id in tasks && IsRecordOf(task, tasks[id])
    ensures |tasks[id := task]| == |tasks|
    ensures Holds(ts, tasks) ==> Holds(ts, tasks[id := task])
  {
    assert tasks[id := task].Keys == tasks.Keys;
  }

  lemma {:induction false} IdsAreCounted(ts: seq<Task>)
    requires Clocked(ts)
    ensures |Ids(ts)| == |ts|
  {
    if ts != [] {
      var init, last := ts[..|ts| - 1], ts[|ts| - 1];
      IdsAreCounted(init);
      assert Ids(ts) == Ids(init) + {last.id};
    }
  }

  /** With increasing stamps, any eviction order leaves exactly the most recent tasks. */
  lemma EvictionKeepsRecent(ts: seq<Task>, before: Tasks, after: Tasks, max: nat)
    requires Clocked(ts) && Holds(ts, before) && KeepsNewest(before, after, max)
    ensures Holds(Recent(ts, max), after)
  {
    hide Ids, Clocked, KeepsNewest, Holds, IsRecordOf;
    EvictionKeepsKeys(ts, before, after, max);
    var cut, recent := |ts| - Min(|ts|, max), Recent(ts, max);
    forall i | 0 <= i < |recent| ensures recent[i].id in after && IsRecordOf(after[recent[i].id], recent[i]) {
      assert recent[i] == ts[cut + i];
      IdAt(recent, i);
      assert recent[i].id in after.Keys;
      KeptRecord(ts, before, after, max, cut + i);
    }
    HoldsIf(recent, after);
  }

  lemma KeptRecord(ts: seq<Task>, before: Tasks, after: Tasks, max: nat, i: nat)
    requires Holds(ts, before) && KeepsNewest(before, after, max)
    requires i < |ts| && ts[i].id in after
    ensures IsRecordOf(after[ts[i].id], ts[i])
  {
  }

  lemma HoldsIf(ts: seq<Task>, tasks: Tasks)
    requires tasks.Keys == Ids(ts)
    requires forall i | 0 <= i < |ts| :: ts[i].id in tasks && IsRecordOf(tasks[ts[i].id], ts[i])
    ensures Holds(ts, tasks)
  {
  }

  lemma EvictionKeepsKeys(ts: seq<Task>, before: Tasks, after: Tasks, max: nat)
    requires Clocked(ts) && Holds(ts, before) && KeepsNewest(before, after, max)
    ensures after.Keys == Ids(Recent(ts, max))
  {
    hide Ids, Clocked, KeepsNewest, Holds, IsRecordOf;
    var cut, recent := |ts| - Min(|ts|, max), Recent(ts, max);
    SizesAgree(ts, before, after, max);
    if Ids(recent) <= after.Keys {
      SubsetOfSameSize(Ids(recent), after.Keys);
    } else {
      var id :| id in Ids(recent) && id !in after;
      var j := IndexOf(recent, id);
      assert recent[j] == ts[cut + j];
      OldOnesAreGone(ts, before, after, max, cut + j);
      forall x | x in after.Keys ensures x in Ids(recent) {
        var k := IndexOf(ts, x);
        assert recent[k - cut] == ts[k];
        IdAt(recent, k - cut);
      }
      SubsetOfSameSize(after.Keys, Ids(recent));
    }
  }

  lemma SizesAgree(ts: seq<Task>, before: Tasks, after: Tasks, max: nat)
    requires Clocked(ts) && Holds(ts, before) && KeepsNewest(before, after, max)
    ensures |after.Keys| == |Ids(Recent(ts, max))| && after.Keys <= Ids(ts)
  {
    hide Ids;
    IdsAreCounted(ts);
    IdsAreCounted(Recent(ts, max));
    assert |before.Keys| == |before|;
  }

  lemma IndexOf(ts: seq<Task>, id: string) returns (i: nat)
    requires id in Ids(ts)
    ensures i < |ts| && ts[i].id == id
  {
    i :| 0 <= i < |ts| && ts[i].id == id;
  }

  lemma IdAt(ts: seq<Task>, i: nat)
    requires i < |ts|
    ensures ts[i].id in Ids(ts)
  {
  }

  lemma OldOnesAreGone(ts: seq<Task>, before: Tasks, after: Tasks, max: nat, j: nat)
    requires Clocked(ts) && Holds(ts, before) && KeepsNewest(before, after, max)
    requires j < |ts| && ts[j].id !in after
    ensures forall k | 0 <= k < j :: ts[k].id !in after
  {
    assert ts[j].id in Ids(ts);
    forall k | 0 <= k < j ensures ts[k].id !in after {
      assert before[ts[j].id].createdAt > before[ts[k].id].createdAt;
    }
  }

  lemma CreateKeepsRecent(created: seq<Task>, task: Task, before: Tasks, after: Tasks, max: nat)
    requires Clocked(created) && Holds(Recent(created, max), before) && max > 0
    requires forall t | t in created :: t.id != task.id && t.createdAt < task.createdAt
    requires KeepsNewest(before[task.id := task], after, max)
    ensures Clocked(created + [task]) && Holds(Recent(created + [task], max), after)
    ensures task.id in after && task.id !in before
  {
    hide Ids, Holds, KeepsNewest;
    var window := Recent(created, max);
    var ts, all := window + [task], before[task.id := task];
    InsertHolds(window, task, before);
    EvictionKeepsRecent(ts, all, after, max);
    RecentOfRecent(created, task, max);
    IdAt(Recent(ts, max), |Recent(ts, max)| - 1);
    HoldsKeys(Recent(ts, max), after);
  }

  lemma HoldsKeys(ts: seq<Task>, tasks: Tasks)
    requires Holds(ts, tasks)
    ensures tasks.Keys == Ids(ts)
  {
  }

  lemma InsertHolds(ts: seq<Task>, task: Task, before: Tasks)
    requires Holds(ts, before) && forall t | t in ts :: t.id != task.id
    ensures task.id !in before && Holds(ts + [task], before[task.id := task])
  {
    var more := ts + [task];
    assert more[|ts|] == task && forall i | 0 <= i < |ts| :: more[i] == ts[i];
    assert Ids(more) == Ids(ts) + {task.id};
  }

  /** Forgetting what is outside the window first does not change the next window. */
  lemma RecentOfRecent(created: seq<Task>, task: Task, max: nat)
    requires max > 0
    ensures Recent(Recent(created, max) + [task], max) == Recent(created + [task], max)
    ensures Recent(created + [task], max) != [] && Recent(created + [task], max)[|Recent(created + [task], max)| - 1] == task
  {
    var n := |created|;
    if n < max {
      assert Recent(created, max) == created;
    } else {
      assert Recent(created, max) == created[n - max..];
      assert (created[n - max..] + [task])[1..] == (created + [task])[n + 1 - max..];
    }
  }

  lemma {:induction false} SubsetOfSameSize<T>(a: set<T>, b: set<T>)
    requires a <= b && |a| == |b|
    ensures a == b
  {
    assert |b - a| == 0;
  }

  lemma OneGone<T>(a: set<T>, b: set<T>)
    requires b <= a && |b| + 1 == |a|
    ensures exists x :: a - b == {x}
  {
    assert |a - b| == 1;
    var x :| x in a - b;
    SubsetOfSameSize({x}, a - b);
    assert a - b == {x};
  }

  /**
   Without the clock assumption: the new task survives every tie-break exactly when there was
   room or some task held is strictly older; otherwise `create` may find nothing to return.
   */
  lemma NewTaskSurvives(before: Tasks, task: Task, max: nat)
    requires |before| <= max && task.id !in before
    ensures (forall after | KeepsNewest(before[task.id := task], after, max) :: task.id in after)
       <==> |before| < max || exists id | id in before :: before[id].createdAt < task.createdAt
  {
    var all := before[task.id := task];
    assert all.Keys == before.Keys + {task.id} && |all| == |before| + 1;
    if |before| < max {
      forall after | KeepsNewest(all, after, max) ensures task.id in after {
        SubsetOfSameSize(after.Keys, all.Keys);
      }
    } else if exists id | id in before :: before[id].createdAt < task.createdAt {
      var older :| older in before && before[older].createdAt < task.createdAt;
      forall after | KeepsNewest(all, after, max) ensures task.id in after {
        if task.id !in after {
          OneGone(all.Keys, after.Keys);
          assert false;
        }
      }
    } else {
      assert KeepsNewest(all, before, max);
    }
  }
}
