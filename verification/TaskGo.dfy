// pkg/taskgo/taskgo.go: the task manager as an object, each method one critical section.
module TaskGo {
  import opened Bytes
  import opened Errors
  import Spec = TaskSpec

  class TaskState {
    const taskName: string
    var doneAt: nat
    var err: Option<Failure>

    constructor (taskName: string)
      ensures this.taskName == taskName && doneAt == 0 && err == None
    {
      this.taskName, this.doneAt, this.err := taskName, 0, None;
    }
  }

  datatype Filter = All | OnlyUnfinished | OnlyFinished

  datatype WaitResult = AllDone | TimedOut(unfinished: seq<string>)

  const STOPED: int := 2

  ghost predicate NoDuplicates<T>(s: seq<T>) {
    forall i, j :: 0 <= i < j < |s| ==> s[i] != s[j]
  }

  ghost function Infos(tasks: map<string, TaskState>): map<string, Spec.Info>
    reads tasks.Values
  {
    map n | n in tasks :: Spec.Info(tasks[n].doneAt, tasks[n].err)
  }

  /** Two names never share a state when every task is filed under its own name. */
  ghost predicate FiledByName(tasks: map<string, TaskState>) {
    forall n | n in tasks :: tasks[n].taskName == n
  }

  method Finish(ghost tasks: map<string, TaskState>, ts: TaskState, err: Option<Failure>, now: nat)
    requires FiledByName(tasks) && ts.taskName in tasks && tasks[ts.taskName] == ts
    modifies ts
    ensures Infos(tasks) == old(Infos(tasks))[ts.taskName := Spec.Info(now, err)]
  {
    ts.err, ts.doneAt := err, now;
  }

  class Manager {
    var tasks: map<string, TaskState>
    var status: int
    var tasksNum: int
    var doneCh: nat
    ghost var sent: nat
    ghost var atStop: set<string>

    ghost predicate Valid()
      reads this, tasks.Values
    {
      FiledByName(tasks) && Spec.Inv(Abs())
    }

    ghost function Abs(): Spec.State<string>
      reads this, tasks.Values
    {
      Spec.State(Infos(tasks), tasksNum, status == STOPED, doneCh, sent, atStop)
    }

    constructor ()
      ensures Valid() && Abs() == Spec.Empty()
    {
      tasks, status, tasksNum, doneCh, sent, atStop := map[], 0, 0, 0, 0, {};
      new;
      Spec.EmptyInv<string>();
      assert Infos(tasks) == map[];
    }

    /** Registers a task; the goroutine that runs it ends with one call of Done on `ts`. */
    method Go(name: string) returns (r: Spec.GoResult, ts: TaskState?)
      requires Valid() && |Abs().Unfinished()| < MAX_INT32
      modifies this
      ensures Valid()
      ensures (Abs(), r) == Spec.Go(old(Abs()), name)
      ensures r.Started? <==> ts != null
      ensures r.Started? ==> fresh(ts) && tasks == old(tasks)[name := ts]
      ensures r.Started? <==> old(status) != STOPED && name !in old(tasks)
      ensures r.IsStopped? <==> old(status) == STOPED
      ensures !r.Started? ==> tasks == old(tasks) && Abs() == old(Abs())
    {
      Spec.GoInv(Abs(), name);
      if status == STOPED { return Spec.IsStopped, null; }
      if name in tasks { return Spec.AlreadyRunning, null; }
      ts := new TaskState(name);
      ghost var infos := Infos(tasks);
      assert infos == old(Infos(tasks));
      tasks, tasksNum, r := tasks[name := ts], tasksNum + 1, Spec.Started;
      assert Infos(tasks) == infos[name := Spec.Info(0, None)];
    }

    /** The end of a task: never panics, and its send never finds doneCh full. */
    method Done(ts: TaskState, err: Option<Failure>, now: nat)
      requires Valid() && ts.taskName in tasks && tasks[ts.taskName] == ts && ts.doneAt == 0 && now > 0
      modifies this, ts
      ensures Valid() && tasks == old(tasks)
      ensures Spec.Done(old(Abs()), ts.taskName, err, now) == Spec.Returned(Abs())
    {
      ghost var name := ts.taskName;
      ghost var t' := Spec.DoneFields(Abs(), name, err, now);
      Finish(tasks, ts, err, now);
      tasksNum := tasksNum - 1;
      assert tasksNum >= 0;
      if status == STOPED && tasksNum == 0 {
        assert doneCh < 1;
        doneCh, sent := doneCh + 1, sent + 1;
      }
      assert Infos(tasks) == t'.tasks && tasksNum == t'.num && (status == STOPED) == t'.stopped;
      assert doneCh == t'.tokens && sent == t'.sent && atStop == t'.atStop;
    }

    /** First part of StopAndWait: only one caller ever gets `first`. */
    method MarkStopped() returns (first: bool)
      requires Valid()
      modifies this
      ensures Valid() && (Abs(), first) == Spec.Stop(old(Abs())) && tasks == old(tasks)
    {
      Spec.StopInv(Abs());
      if status == STOPED { return false; }
      atStop := Abs().Unfinished();
      status, first := STOPED, true;
    }

    /** Second part of StopAndWait: it blocks until the timer has expired or doneCh holds a value. */
    method Await(expired: bool) returns (r: WaitResult)
      requires Valid() && status == STOPED && (expired || doneCh > 0)
      modifies this
      ensures Valid() && tasks == old(tasks) && (r.TimedOut? <==> expired)
      ensures r.AllDone? ==> Abs().Finished() == Abs().tasks.Keys && Spec.Step(old(Abs()), Spec.TakeOp) == Some(Abs())
      ensures r.TimedOut? ==> Abs() == old(Abs()) && NoDuplicates(r.unfinished)
                              && (forall n :: n in r.unfinished <==> n in Abs().Unfinished())
    {
      if expired {
        var names := IterTasks(OnlyUnfinished);
        return TimedOut(names);
      }
      Spec.StepInv(Abs(), Spec.TakeOp);
      doneCh := doneCh - 1;
      assert forall n | n in Abs().tasks :: n !in Abs().Unfinished();
      return AllDone;
    }

    ghost function Selected(f: Filter): set<string>
      reads this, tasks.Values
    {
      match f
      case All => Abs().tasks.Keys
      case OnlyUnfinished => Abs().Unfinished()
      case OnlyFinished => Abs().Finished()
    }

    /** Lists the selected names in the map's arbitrary order, each once. */
    method IterTasks(f: Filter) returns (names: seq<string>)
      ensures NoDuplicates(names)
      ensures forall n :: n in names <==> n in Selected(f)
    {
      names := [];
      var todo := tasks.Keys;
      while todo != {}
        invariant todo <= tasks.Keys && NoDuplicates(names)
        invariant forall n :: n in names <==> n in Selected(f) && n !in todo
        decreases |todo|
      {
        var name :| name in todo;
        todo := todo - {name};
        if f == All || (f == OnlyUnfinished) == (tasks[name].doneAt == 0) {
          names := names + [name];
        }
      }
    }

    /** The unfinished and the finished names partition all names. */
    lemma ListingsPartition()
      ensures Selected(OnlyUnfinished) + Selected(OnlyFinished) == Selected(All)
      ensures Selected(OnlyUnfinished) !! Selected(OnlyFinished)
    {
    }
  }
}
