/** The task manager object, one caller at a time: `_get_next_task`, `add_task`, `_execute_task`
    and the scheduling of the periodic jobs. */
module TaskManager {
  import TaskScheduler

  type Level = TaskScheduler.Level

  class Task {
    const job: TaskScheduler.Job
    const level: Level
    const maxRetries: int
    var retryCount: int
    var scheduledFor: int

    /** Creates the task object that `t` describes. */
    constructor (t: TaskScheduler.Task)
      ensures job == t.job && level == t.level && maxRetries == t.maxRetries
      ensures retryCount == t.retryCount && scheduledFor == t.scheduledFor
    {
      job, level, maxRetries := t.job, t.level, t.maxRetries;
      retryCount, scheduledFor := t.retryCount, t.scheduledFor;
    }

    /** The object's fields as a value of the interleaved model. */
    function View(): TaskScheduler.Task
      reads this
    {
      TaskScheduler.NewTask(job, level, retryCount, maxRetries, scheduledFor)
    }
  }

  class BackgroundTaskManager {
    var queues: seq<seq<Task>>
    var succeeded: nat
    var failed: nat

    predicate Valid()
      reads this
    {
      |queues| == 4
    }

    constructor ()
      ensures Valid() && queues == [[], [], [], []] && succeeded == failed == 0
    {
      queues := [[], [], [], []];
      succeeded, failed := 0, 0;
    }

    predicate HeadDue(l: Level, now: int)
      requires Valid()
      reads this, if queues[l] != [] then {queues[l][0]} else {}
    {
      queues[l] != [] && queues[l][0].scheduledFor <= now
    }

    /** The head of the highest-priority queue whose head is due; everything else stays in order.
        `at` is the level it came from. */
    method GetNextTask(now: int) returns (task: Task?, ghost at: nat)
      requires Valid()
      modifies this`queues
      ensures Valid() && at <= 4
      ensures forall l: Level :: l < at ==> !old(HeadDue(l, now))
      ensures task == null <==> at == 4
      ensures task == null ==> queues == old(queues)
      ensures task != null ==>
        && old(HeadDue(at, now)) && task == old(queues[at][0])
        && queues == old(queues)[at := old(queues[at])[1..]]
    {
      for l := 0 to 4
        invariant queues == old(queues)
        invariant forall m: Level :: m < l ==> !old(HeadDue(m, now))
      {
        if queues[l] != [] {
          var t := queues[l][0];
          queues := queues[l := queues[l][1..]];
          if t.scheduledFor <= now {
            return t, l;
          } else {
            queues := queues[l := [t] + queues[l]];
            assert queues[l] == old(queues)[l];
          }
        }
      }
      return null, 4;
    }

    method AddTask(task: Task)
      requires Valid()
      modifies this`queues
      ensures Valid() && queues == old(queues)[task.level := old(queues)[task.level] + [task]]
    {
      queues := queues[task.level := queues[task.level] + [task]];
    }

    /** What becomes of an executed task, whose function raised or not: it is retried, later and with
        one retry fewer to go, exactly if it raised with retries left. */
    method ExecuteTask(task: Task, raised: bool, now: int)
      requires Valid()
      modifies this, task
      ensures Valid()
      ensures succeeded == old(succeeded) + (if raised then 0 else 1)
      ensures failed == old(failed) + (if raised then 1 else 0)
      ensures
        if raised && old(task.retryCount) < task.maxRetries then
          && task.retryCount == old(task.retryCount) + 1
          && task.scheduledFor == now + 120_000_000 * (old(task.retryCount) + 1)
          && task.scheduledFor == TaskScheduler.Failed(old(task.View()), now, now).scheduledFor
          && queues == old(queues)[task.level := old(queues)[task.level] + [task]]
        else
          task.View() == old(task.View()) && queues == old(queues)
    {
      if !raised {
        succeeded := succeeded + 1;
      } else {
        failed := failed + 1;
        if task.retryCount < task.maxRetries {
          task.retryCount := task.retryCount + 1;
          task.scheduledFor := now + TaskScheduler.Backoff(task.retryCount);
          AddTask(task);
        }
      }
    }

    /** `start`: indexing at once at high priority, transaction retry in ten minutes at medium. */
    method SchedulePeriodicTasks(now: int)
      requires Valid()
      modifies this`queues
      ensures Valid() && queues[0] == old(queues)[0] && queues[3] == old(queues)[3]
      ensures |queues[1]| == |old(queues)[1]| + 1 && |queues[2]| == |old(queues)[2]| + 1
      ensures queues[1][..|old(queues)[1]|] == old(queues)[1] && queues[2][..|old(queues)[2]|] == old(queues)[2]
      ensures fresh(queues[1][|old(queues)[1]|]) && fresh(queues[2][|old(queues)[2]|])
      ensures queues[1][|old(queues)[1]|].View() == TaskScheduler.FirstCopy(TaskScheduler.CollectionIndexing, now)
      ensures queues[2][|old(queues)[2]|].View() == TaskScheduler.FirstCopy(TaskScheduler.FailedTransactionRetry, now)
      ensures queues[1][|old(queues)[1]|].scheduledFor == now
      ensures queues[2][|old(queues)[2]|].scheduledFor == now + 600_000_000
      ensures queues[1][|old(queues)[1]|].job.CollectionIndexing? && queues[2][|old(queues)[2]|].job.FailedTransactionRetry?
    {
      var indexing := new Task(TaskScheduler.NewTask(TaskScheduler.CollectionIndexing, TaskScheduler.HIGH, 0, 3, now));
      AddTask(indexing);
      var retry := new Task(
        TaskScheduler.NewTask(TaskScheduler.FailedTransactionRetry, TaskScheduler.MEDIUM, 0, 3, now + 10 * TaskScheduler.MINUTE));
      AddTask(retry);
    }

    /** The `finally` block of a periodic job adds a new task object, whatever the job did: indexing at HIGH for
        fifteen minutes later, transaction retry at MEDIUM for thirty. */
    method RunPeriodicJob(job: TaskScheduler.Job, raises: bool, now: int) returns (raised: bool)
      requires Valid() && !job.OneShot?
      modifies this`queues
      ensures Valid() && raised == raises
      ensures
        var l: Level := if job.CollectionIndexing? then 1 else 2;
        && queues == old(queues)[l := queues[l]]
        && |queues[l]| == |old(queues)[l]| + 1 && queues[l][..|old(queues)[l]|] == old(queues)[l]
        && fresh(queues[l][|old(queues)[l]|])
        && queues[l][|old(queues)[l]|].View() == TaskScheduler.NextCopy(job, now)
        && queues[l][|old(queues)[l]|].job == job && queues[l][|old(queues)[l]|].level == l
        && queues[l][|old(queues)[l]|].scheduledFor == now + (if job.CollectionIndexing? then 900_000_000 else 1_800_000_000)
        && queues[l][|old(queues)[l]|].retryCount == 0 && queues[l][|old(queues)[l]|].maxRetries == 3
    {
      raised := raises;
      if job.CollectionIndexing? {
        var copy := new Task(TaskScheduler.NewTask(job, TaskScheduler.HIGH, 0, 3, now + 15 * TaskScheduler.MINUTE));
        AddTask(copy);
      } else {
        var copy := new Task(TaskScheduler.NewTask(job, TaskScheduler.MEDIUM, 0, 3, now + 30 * TaskScheduler.MINUTE));
        AddTask(copy);
      }
    }
  }
}
