/**
 * The task list component: the status/priority filter over the store's
 * tasks, the status cycle behind the "Change Status" button, the two filter
 * selects and the confirmation-gated delete.
 */
module TaskListComponent {
  import opened Tasks

  // ---------------------------------------------------------------------------
  // The filter predicate
  // ---------------------------------------------------------------------------

  /** The component's `filter` state; `None` is an absent criterion. */
  datatype Filter = Filter(status: Option<Status>, priority: Option<Priority>)

  /** The initial state `{}`: no criterion at all. */
  const NoFilter := Filter(None, None)

  /** A task passes when each criterion is absent or equal to the task's field. */
  predicate Matches(f: Filter, t: Task) {
    && (f.status.None? || t.status == f.status.value)
    && (f.priority.None? || t.priority == f.priority.value)
  }

  /** `filteredTasks`: the tasks that pass `f`, in the order of `tasks`. */
  function FilteredTasks(tasks: seq<Task>, f: Filter): (r: seq<Task>)
    ensures |r| <= |tasks|
  {
    if tasks == [] then []
    else if Matches(f, tasks[0]) then [tasks[0]] + FilteredTasks(tasks[1..], f)
    else FilteredTasks(tasks[1..], f)
  }

  /** `xs` can be obtained from `ys` by dropping elements, without reordering the rest. */
  ghost predicate IsSubsequence<T>(xs: seq<T>, ys: seq<T>)
    decreases |ys|
  {
    || xs == []
    || (&& ys != []
        && ((xs[0] == ys[0] && IsSubsequence(xs[1..], ys[1..])) || IsSubsequence(xs, ys[1..])))
  }

  /**
   * Soundness and completeness: a task is kept exactly when it is in the
   * list and passes the filter.
   */
  lemma {:induction false} FilteredMembership(tasks: seq<Task>, f: Filter, t: Task)
    ensures t in FilteredTasks(tasks, f) <==> t in tasks && Matches(f, t)
  {
    if tasks != [] {
      FilteredMembership(tasks[1..], f, t);
      assert tasks == [tasks[0]] + tasks[1..];
    }
  }

  /** `FilteredMembership` for every task at once. */
  lemma FilteredMembershipAll(tasks: seq<Task>, f: Filter)
    ensures forall t :: t in FilteredTasks(tasks, f) <==> t in tasks && Matches(f, t)
  {
    forall t {
      FilteredMembership(tasks, f, t);
    }
  }

  /** With neither criterion the list is shown as it is. */
  lemma {:induction false} NoFilterKeepsAll(tasks: seq<Task>)
    ensures FilteredTasks(tasks, NoFilter) == tasks
  {
    if tasks != [] {
      NoFilterKeepsAll(tasks[1..]);
      assert tasks == [tasks[0]] + tasks[1..];
    }
  }

  /** Filtering keeps the relative order of the tasks it keeps. */
  lemma {:induction false} FilteredIsSubsequence(tasks: seq<Task>, f: Filter)
    ensures IsSubsequence(FilteredTasks(tasks, f), tasks)
  {
    if tasks != [] {
      FilteredIsSubsequence(tasks[1..], f);
      var r := FilteredTasks(tasks, f);
      if Matches(f, tasks[0]) {
        assert r[0] == tasks[0] && r[1..] == FilteredTasks(tasks[1..], f);
      }
    }
  }

  /** Each task is kept exactly as many times as it occurs, if it passes, and never otherwise. */
  lemma {:induction false} FilteredCount(tasks: seq<Task>, f: Filter, t: Task)
    ensures multiset(FilteredTasks(tasks, f))[t] == if Matches(f, t) then multiset(tasks)[t] else 0
  {
    if tasks != [] {
      FilteredCount(tasks[1..], f, t);
      assert tasks == [tasks[0]] + tasks[1..];
    }
  }

  /** Filtering a list with a first element decides on that element, then filters the rest. */
  lemma FilterCons(t: Task, rest: seq<Task>, f: Filter)
    ensures FilteredTasks([t] + rest, f) == (if Matches(f, t) then [t] else []) + FilteredTasks(rest, f)
  {
    var l := [t] + rest;
    assert l[0] == t && l[1..] == rest;
  }

  /** The filter works element by element: filtering a concatenation filters each part. */
  lemma {:induction false} FilterOverConcat(a: seq<Task>, b: seq<Task>, f: Filter)
    ensures FilteredTasks(a + b, f) == FilteredTasks(a, f) + FilteredTasks(b, f)
  {
    if a == [] {
      assert a + b == b;
    } else {
      var t, rest := a[0], a[1..];
      FilterOverConcat(rest, b, f);
      assert a == [t] + rest;
      assert a + b == [t] + (rest + b);
      FilterCons(t, rest, f);
      FilterCons(t, rest + b, f);
      var head := if Matches(f, t) then [t] else [];
      assert head + FilteredTasks(rest, f) + FilteredTasks(b, f) == head + (FilteredTasks(rest, f) + FilteredTasks(b, f));
    }
  }

  /** Filtering an already filtered list changes nothing. */
  lemma {:induction false} FilterIdempotent(tasks: seq<Task>, f: Filter)
    ensures FilteredTasks(FilteredTasks(tasks, f), f) == FilteredTasks(tasks, f)
  {
    if tasks != [] {
      FilterIdempotent(tasks[1..], f);
    }
  }

  /** Filtering by both criteria is filtering by status, then by priority. */
  lemma {:induction false} CriteriaCompose(tasks: seq<Task>, s: Option<Status>, p: Option<Priority>)
    ensures FilteredTasks(tasks, Filter(s, p)) == FilteredTasks(FilteredTasks(tasks, Filter(s, None)), Filter(None, p))
  {
    if tasks != [] {
      CriteriaCompose(tasks[1..], s, p);
    }
  }

  // ---------------------------------------------------------------------------
  // The status cycle
  // ---------------------------------------------------------------------------

  /** `statusMap`: todo goes to in-progress, in-progress to done, done back to todo. */
  function NextStatus(s: Status): (r: Status)
    ensures r != s
  {
    match s
    case Todo => InProgress
    case InProgress => Done
    case Done => Todo
  }

  /** Three presses of "Change Status" give back the original status, and no fewer do. */
  lemma StatusCycleHasPeriodThree(s: Status)
    ensures NextStatus(NextStatus(NextStatus(s))) == s
    ensures NextStatus(NextStatus(s)) != s
  {
  }

  /** Every status is reached from `todo`, so a new task can be moved to any state. */
  lemma StatusCycleReachesAll(s: Status)
    ensures s == Todo || s == NextStatus(Todo) || s == NextStatus(NextStatus(Todo))
  {
  }

  // ---------------------------------------------------------------------------
  // The filter selects
  // ---------------------------------------------------------------------------

  /** The label of a status in the select and in the store's data. */
  function StatusName(s: Status): (r: string)
    ensures r != ""
  {
    match s
    case Todo => "todo"
    case InProgress => "in-progress"
    case Done => "done"
  }

  /** The label of a priority. */
  function PriorityName(p: Priority): (r: string)
    ensures r != ""
  {
    match p
    case Low => "low"
    case Medium => "medium"
    case High => "high"
  }

  /** The values of the status select's options: "" (all statuses) and one per status. */
  predicate IsStatusOption(v: string) {
    v == "" || exists s: Status :: v == StatusName(s)
  }

  /** The values of the priority select's options: "" (all priorities) and one per priority. */
  predicate IsPriorityOption(v: string) {
    v == "" || exists p: Priority :: v == PriorityName(p)
  }

  /** The option the status select shows for a criterion: `filter.status || ""`. */
  function StatusOptionOf(c: Option<Status>): (v: string)
    ensures IsStatusOption(v)
    ensures v == "" <==> c.None?
  {
    match c
    case None => ""
    case Some(s) => StatusName(s)
  }

  /** The option the priority select shows for a criterion: `filter.priority || ""`. */
  function PriorityOptionOf(c: Option<Priority>): (v: string)
    ensures IsPriorityOption(v)
    ensures v == "" <==> c.None?
  {
    match c
    case None => ""
    case Some(p) => PriorityName(p)
  }

  /** The criterion a chosen status option sets: `e.target.value || undefined`. */
  function StatusCriterion(v: string): (c: Option<Status>)
    requires IsStatusOption(v)
    ensures c.None? <==> v == ""
    ensures c.Some? ==> StatusName(c.value) == v
  {
    if v == "" then None
    else if v == "todo" then Some(Todo)
    else if v == "in-progress" then Some(InProgress)
    else Some(Done)
  }

  /** The criterion a chosen priority option sets. */
  function PriorityCriterion(v: string): (c: Option<Priority>)
    requires IsPriorityOption(v)
    ensures c.None? <==> v == ""
    ensures c.Some? ==> PriorityName(c.value) == v
  {
    if v == "" then None
    else if v == "low" then Some(Low)
    else if v == "medium" then Some(Medium)
    else Some(High)
  }

  /** The status select shows the criterion it sets, and sets the criterion it shows. */
  lemma StatusOptionRoundTrip(c: Option<Status>, v: string)
    ensures StatusCriterion(StatusOptionOf(c)) == c
    ensures IsStatusOption(v) ==> StatusOptionOf(StatusCriterion(v)) == v
  {
    if c.Some? {
      StatusNameInjective(StatusCriterion(StatusOptionOf(c)).value, c.value);
    }
  }

  /** The priority select shows the criterion it sets, and sets the criterion it shows. */
  lemma PriorityOptionRoundTrip(c: Option<Priority>, v: string)
    ensures PriorityCriterion(PriorityOptionOf(c)) == c
    ensures IsPriorityOption(v) ==> PriorityOptionOf(PriorityCriterion(v)) == v
  {
    if c.Some? {
      PriorityNameInjective(PriorityCriterion(PriorityOptionOf(c)).value, c.value);
    }
  }

  /** Distinct statuses have distinct labels. */
  lemma StatusNameInjective(s: Status, t: Status)
    ensures StatusName(s) == StatusName(t) ==> s == t
  {
    if s != t {
      assert StatusName(s)[0] != StatusName(t)[0] || |StatusName(s)| != |StatusName(t)|;
    }
  }

  /** Distinct priorities have distinct labels. */
  lemma PriorityNameInjective(p: Priority, q: Priority)
    ensures PriorityName(p) == PriorityName(q) ==> p == q
  {
    if p != q {
      assert PriorityName(p)[0] != PriorityName(q)[0];
    }
  }

  // ---------------------------------------------------------------------------
  // The component
  // ---------------------------------------------------------------------------

  /** What the list component may ask of the store: status-only updates and deletes. */
  predicate IsListRequest(r: StoreRequest) {
    || (r.UpdateTask? && r.patch.status.Some? && r.patch == StatusPatch(r.patch.status.value))
    || r.DeleteTask?
  }

  /**
   * The list component: the store's tasks as last read, the filter state and
   * the log of requests the component has sent to the store.
   */
  class TaskList {
    var tasks: seq<Task>
    var filter: Filter
    var requests: seq<StoreRequest>

    /** Every request sent is a status-only update or a delete. */
    ghost predicate Valid()
      reads this
    {
      forall r :: r in requests ==> IsListRequest(r)
    }

    /** A fresh component over the store's tasks: no criterion, nothing sent. */
    constructor (tasks: seq<Task>)
      ensures this.tasks == tasks && filter == NoFilter && requests == []
      ensures Valid()
    {
      this.tasks := tasks;
      filter := NoFilter;
      requests := [];
    }

    /** `filteredTasks`, the tasks the component renders. */
    function Visible(): (r: seq<Task>)
      reads this
      ensures forall t :: t in r <==> t in tasks && Matches(filter, t)
    {
      FilteredMembershipAll(tasks, filter);
      FilteredTasks(tasks, filter)
    }

    /** The status select's `onChange`: sets or clears the status criterion, keeps the priority one. */
    method SelectStatus(v: string)
      requires Valid() && IsStatusOption(v)
      modifies this`filter
      ensures Valid()
      ensures filter.status == StatusCriterion(v)
      ensures filter.priority == old(filter.priority)
    {
      filter := filter.(status := StatusCriterion(v));
    }

    /** The priority select's `onChange`: sets or clears the priority criterion, keeps the status one. */
    method SelectPriority(v: string)
      requires Valid() && IsPriorityOption(v)
      modifies this`filter
      ensures Valid()
      ensures filter.priority == PriorityCriterion(v)
      ensures filter.status == old(filter.status)
    {
      filter := filter.(priority := PriorityCriterion(v));
    }

    /** `handleStatusChange` for a rendered task: asks the store to move it to the next status. */
    method ChangeStatus(task: Task)
      requires Valid() && task in Visible()
      modifies this`requests
      ensures Valid()
      ensures requests == old(requests) + [UpdateTask(task.id, StatusPatch(NextStatus(task.status)))]
    {
      requests := requests + [UpdateTask(task.id, StatusPatch(NextStatus(task.status)))];
    }

    /**
     * `handleDelete` for a rendered task; `confirmed` is the user's answer to
     * the confirmation dialog. Only a confirmed delete reaches the store.
     */
    method Delete(task: Task, confirmed: bool)
      requires Valid() && task in Visible()
      modifies this`requests
      ensures Valid()
      ensures confirmed ==> requests == old(requests) + [DeleteTask(task.id)]
      ensures !confirmed ==> requests == old(requests)
    {
      if confirmed {
        requests := requests + [DeleteTask(task.id)];
      }
    }
  }
}
