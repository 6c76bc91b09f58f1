/**
 * SequentialExecutor (helpers/serialexecutor/executor.go): registers
 * periodic tasks, and on Start queues them once each, highest priority
 * first, for a single worker. Tasks are values here; `id` stands for the
 * identity of the *Task pointer. The worker goroutine and the timers that
 * re-queue a task after its interval are not part of this model.
 */
module SerialExecutor {
  import opened Wrappers

  datatype Task = Task(id: nat, hasAction: bool, interval: int, priority: int)

  datatype AddError = NilTask | NilAction | NonPositiveInterval | AddWhileRunning

  /** Add's checks on the task itself, in the order the source makes them. */
  function CheckTask(task: Option<Task>): (e: Option<AddError>)
    ensures e.None? <==> task.Some? && task.value.hasAction && task.value.interval > 0
    ensures task.None? ==> e == Some(NilTask)
    ensures task.Some? && !task.value.hasAction ==> e == Some(NilAction)
    ensures task.Some? && task.value.hasAction && task.value.interval <= 0 ==> e == Some(NonPositiveInterval)
  {
    if task.None? then Some(NilTask)
    else if !task.value.hasAction then Some(NilAction)
    else if task.value.interval <= 0 then Some(NonPositiveInterval)
    else None
  }

  /** Highest priority first. */
  predicate SortedByPriority(s: seq<Task>) {
    forall i, j :: 0 <= i < j < |s| ==> s[i].priority >= s[j].priority
  }

  /** A task of at least every priority in a sorted sequence can go in front of it. */
  lemma ConsSorted(x: Task, rest: seq<Task>)
    requires SortedByPriority(rest)
    requires forall y :: y in rest ==> y.priority <= x.priority
    ensures SortedByPriority([x] + rest)
  {
    forall i, j | 0 <= i < j < |[x] + rest|
      ensures ([x] + rest)[i].priority >= ([x] + rest)[j].priority
    {
      if i > 0 {
        assert ([x] + rest)[i] == rest[i - 1];
      }
      assert ([x] + rest)[j] == rest[j - 1];
      assert rest[j - 1] in rest;
    }
  }

  /** The head of a sorted sequence has the highest priority. */
  lemma HeadIsHighest(s: seq<Task>)
    requires s != [] && SortedByPriority(s)
    ensures forall y :: y in s ==> y.priority <= s[0].priority
    ensures SortedByPriority(s[1..])
  {
    forall y | y in s ensures y.priority <= s[0].priority {
      var k :| 0 <= k < |s| && s[k] == y;
    }
  }

  /** Inserts `t` into a priority-sorted sequence, after every task of higher or equal priority. */
  function Insert(t: Task, s: seq<Task>): (r: seq<Task>)
    requires SortedByPriority(s)
    ensures forall x :: x in r <==> x in s || x == t
    ensures SortedByPriority(r)
    ensures multiset(r) == multiset(s) + multiset{t}
    ensures |r| == |s| + 1
  {
    if s == [] then [t]
    else
      HeadIsHighest(s);
      if s[0].priority >= t.priority then
        var rest := Insert(t, s[1..]);
        assert s == [s[0]] + s[1..];
        ConsSorted(s[0], rest);
        [s[0]] + rest
      else
        ConsSorted(t, s);
        [t] + s
  }

  /** The tasks in descending priority order (slices.SortFunc with b.priority - a.priority). */
  function SortByPriority(s: seq<Task>): (r: seq<Task>)
    ensures SortedByPriority(r)
    ensures multiset(r) == multiset(s)
    ensures |r| == |s|
  {
    if s == [] then []
    else
      assert s == [s[0]] + s[1..];
      Insert(s[0], SortByPriority(s[1..]))
  }

  /** The executor's own test: priorities 2, 1, 3 added in that order run as 3, 2, 1. */
  lemma PriorityOrderExample(t1: Task, t2: Task, t3: Task)
    requires t1.priority == 1 && t2.priority == 2 && t3.priority == 3
    ensures SortByPriority([t2, t1, t3]) == [t3, t2, t1]
  {
    assert [t2, t1, t3][1..] == [t1, t3];
    assert [t1, t3][1..] == [t3];
    SortOne(t3);
    InsertBelow(t1, t3);
    InsertBetween(t2, t3, t1);
  }

  lemma SortOne(t: Task)
    ensures SortByPriority([t]) == [t]
  {
    assert [t][1..] == [];
  }

  lemma InsertBelow(t: Task, high: Task)
    requires t.priority <= high.priority
    ensures Insert(t, [high]) == [high, t]
  {
    assert [high][1..] == [];
  }

  lemma InsertBetween(t: Task, high: Task, low: Task)
    requires low.priority < t.priority <= high.priority
    ensures Insert(t, [high, low]) == [high, t, low]
  {
    var s := [high, low];
    assert s[0] == high && s[1..] == [low];
    SortedPair(high, low);
    InsertKeepsHead(t, s);
    InsertAbove(t, low);
    assert [high] + [t, low] == [high, t, low];
  }

  lemma SortedPair(high: Task, low: Task)
    requires low.priority <= high.priority
    ensures SortedByPriority([high, low])
  {
  }

  /** A task of lower or equal priority is inserted behind the head. */
  lemma InsertKeepsHead(t: Task, s: seq<Task>)
    requires SortedByPriority(s) && s != [] && t.priority <= s[0].priority
    ensures SortedByPriority(s[1..])
    ensures Insert(t, s) == [s[0]] + Insert(t, s[1..])
  {
    HeadIsHighest(s);
  }

  lemma InsertAbove(t: Task, low: Task)
    requires low.priority < t.priority
    ensures Insert(t, [low]) == [t, low]
  {
  }

  class SequentialExecutor {
    var running: bool
    var tasks: seq<Task>
    /** The queue channel's buffered contents, in the order the worker receives them. */
    var queue: seq<Task>
    /** The queue channel's capacity. */
    var capacity: nat
    /** Whether the queue was closed and the context cancelled by Stop. */
    var closed: bool

    /** While running, the queue holds at most its capacity. */
    predicate Valid()
      reads this
    {
      running ==> |queue| <= capacity && !closed
    }

    constructor ()
      ensures Valid()
      ensures !running && tasks == [] && queue == [] && capacity == 0 && !closed
    {
      running := false;
      tasks := [];
      queue := [];
      capacity := 0;
      closed := false;
    }

    /** Add: validates the task, then appends it unless the executor is running. */
    method Add(task: Option<Task>) returns (err: Option<AddError>)
      requires Valid()
      modifies this
      ensures Valid()
      ensures CheckTask(task).Some? ==> err == CheckTask(task) && unchanged(this)
      ensures CheckTask(task).None? && old(running) ==> err == Some(AddWhileRunning) && unchanged(this)
      ensures err.None? <==> CheckTask(task).None? && !old(running)
      ensures err.None? ==> tasks == old(tasks) + [task.value]
      ensures running == old(running) && queue == old(queue) && capacity == old(capacity) && closed == old(closed)
    {
      err := CheckTask(task);
      if err.Some? {
        return;
      }
      if running {
        return Some(AddWhileRunning);
      }
      tasks := tasks + [task.value];
    }

    /**
     * Start: a no-op when running; otherwise sorts the tasks by descending
     * priority and queues each of them once, in that order, on a queue whose
     * capacity is the number of tasks.
     */
    method Start()
      requires Valid()
      modifies this
      ensures Valid()
      ensures old(running) ==> unchanged(this)
      ensures !old(running) ==> (running && !closed && tasks == SortByPriority(old(tasks)))
      ensures !old(running) ==> queue == tasks && capacity == |old(tasks)|
    {
      if running {
        return;
      }
      var sorted := SortByPriority(tasks);
      tasks := sorted;
      var q: seq<Task> := [];
      var i := 0;
      while i < |sorted|
        invariant 0 <= i <= |sorted|
        invariant q == sorted[..i]
      {
        q := q + [sorted[i]];
        i := i + 1;
      }
      assert sorted[..|sorted|] == sorted;
      queue := q;
      capacity := |sorted|;
      closed := false;
      running := true;
    }

    /** Stop: a no-op when not running; otherwise stops, cancels and closes the queue. */
    method Stop()
      requires Valid()
      modifies this
      ensures Valid()
      ensures !old(running) ==> unchanged(this)
      ensures old(running) ==> !running && closed
      ensures tasks == old(tasks) && queue == old(queue) && capacity == old(capacity)
    {
      if !running {
        return;
      }
      running := false;
      closed := true;
    }
  }

  /** Start queues every registered task exactly once, highest priority first. */
  lemma StartQueuesEachOnce(tasks: seq<Task>)
    ensures multiset(SortByPriority(tasks)) == multiset(tasks)
    ensures SortedByPriority(SortByPriority(tasks))
    ensures forall t :: t in SortByPriority(tasks) <==> t in tasks
  {
    var r := SortByPriority(tasks);
    forall t
      ensures t in r <==> t in tasks
    {
      assert t in r <==> t in multiset(r);
      assert t in tasks <==> t in multiset(tasks);
    }
  }
}
