/**
 * The administrator board (`App`): the master task list, the nine columns
 * derived from it, and the operations that change them. Each operation
 * returns the new state instead of mutating it; persisting the list, the
 * notification toasts and the clock are outside the model, so the fresh id
 * is a parameter.
 */
module App {
  import opened Wrappers
  import opened Text
  import opened Tasks
  import opened Seqs
  import opened Kanban
  import opened DragDrop
  import opened Dashboard

  /** The master list and the columns shown for it. */
  datatype Board = Board(tasks: seq<Task>, buckets: Buckets)

  /** The state after a change to the master list followed by `filterTasks`. */
  function Refresh(tasks: seq<Task>): (r: Board)
    ensures r.tasks == tasks
    ensures forall b :: Bucket(r.buckets, b) == Filter(InBucket(b), tasks)
  {
    Board(tasks, FilterTasks(tasks))
  }

  // ----- Adding a task -----

  /**
   * The creation form. `dueDate` is the chosen date's ISO timestamp, or None
   * when no date is chosen; an empty text field is the empty string.
   */
  datatype TaskForm = TaskForm(
    title: string,
    description: string,
    area: string,
    priority: string,
    dueDate: Option<string>,
    estimatedPay: int)

  /** Every control is required, and the pay may not be negative. */
  predicate FormValid(f: TaskForm) {
    && f.title != ""
    && f.description != ""
    && f.area != ""
    && f.priority != ""
    && f.dueDate.Some?
    && f.estimatedPay >= 0
  }

  /** The form after a successful submission: defaults for area, priority and pay, the rest cleared. */
  const ResetForm: TaskForm := TaskForm("", "", INGENIERIA, MEDIA, None, 0)

  datatype Submission = Submission(board: Board, form: TaskForm)

  /**
   * `addTask`: a valid form appends a new task to the end of the master list,
   * with the given id, status "asignada", the submitted fields and the date
   * part of the timestamp; the columns are rebuilt and the form is reset. An
   * invalid form changes nothing.
   */
  function AddTask(b: Board, f: TaskForm, freshId: int): (r: Submission)
    ensures !FormValid(f) ==> r == Submission(b, f)
    ensures FormValid(f) ==>
      && |r.board.tasks| == |b.tasks| + 1
      && r.board.tasks[..|b.tasks|] == b.tasks
      && r.board.buckets == FilterTasks(r.board.tasks)
      && r.form == ResetForm
    ensures FormValid(f) ==>
      var t := r.board.tasks[|b.tasks|];
      && t.id == freshId
      && t.status == ASIGNADA
      && t.title == f.title && t.description == f.description
      && t.area == f.area && t.priority == f.priority
      && t.estimatedPay == f.estimatedPay
      && t.dueDate <= f.dueDate.value && 'T' !in t.dueDate
      && (|t.dueDate| < |f.dueDate.value| ==> f.dueDate.value[|t.dueDate|] == 'T')
  {
    if FormValid(f) then
      var t := Task(freshId, f.title, f.description, f.area, f.priority, ASIGNADA,
                    BeforeFirst(f.dueDate.value, 'T'), f.estimatedPay);
      assert (b.tasks + [t])[..|b.tasks|] == b.tasks;
      Submission(Refresh(b.tasks + [t]), ResetForm)
    else
      Submission(b, f)
  }

  /** Submitting the freshly reset form again adds nothing. */
  lemma ResetFormRejected(b: Board, freshId: int)
    ensures !FormValid(ResetForm)
    ensures AddTask(b, ResetForm, freshId) == Submission(b, ResetForm)
  {
  }

  /**
   * A new task with a recognised area and priority goes to the END of its
   * column (the columns are rebuilt from the master list, where it was
   * appended); every other column is what `filterTasks` makes of the old list.
   */
  lemma AddTaskLandsLastInColumn(b: Board, f: TaskForm, freshId: int, c: BucketId)
    requires FormValid(f)
    ensures var r := AddTask(b, f, freshId).board;
            var t := r.tasks[|b.tasks|];
            Bucket(r.buckets, c) == Bucket(FilterTasks(b.tasks), c) + (if Classify(t) == Some(c) then [t] else [])
  {
    var r := AddTask(b, f, freshId).board;
    var t := r.tasks[|b.tasks|];
    assert r.tasks == b.tasks + [t];
    FilterAppend(InBucket(c), b.tasks, [t]);
    FilterSingleton(InBucket(c), t);
    ClassifyIff(t, c);
  }

  // ----- Deleting a task -----

  function NotId(id: int): Task -> bool {
    (t: Task) => t.id != id
  }

  /**
   * `deleteTask`: drops every task with the deleted task's id from the master
   * list and rebuilds the columns; the column name the view passes is not used.
   */
  function DeleteTask(b: Board, task: Task, listName: string): (r: Board)
    ensures forall i :: 0 <= i < |r.tasks| ==> r.tasks[i].id != task.id && r.tasks[i] in b.tasks
    ensures forall i :: 0 <= i < |b.tasks| && b.tasks[i].id != task.id ==> b.tasks[i] in r.tasks
    ensures forall t :: multiset(r.tasks)[t] == if t.id != task.id then multiset(b.tasks)[t] else 0
    ensures r.buckets == FilterTasks(r.tasks)
  {
    FilterMultiset(NotId(task.id), b.tasks);
    Refresh(Filter(NotId(task.id), b.tasks))
  }

  /** Deleting twice is deleting once, whatever column names are passed. */
  lemma DeleteTaskIdempotent(b: Board, task: Task, listName: string, otherName: string)
    ensures DeleteTask(DeleteTask(b, task, listName), task, otherName) == DeleteTask(b, task, otherName)
  {
    FilterIdempotent(NotId(task.id), b.tasks);
  }

  /** The tasks that survive keep their relative order. */
  lemma DeleteTaskKeepsOrder(front: seq<Task>, back: seq<Task>, bs: Buckets, task: Task, listName: string)
    ensures DeleteTask(Board(front + back, bs), task, listName).tasks
         == DeleteTask(Board(front, bs), task, listName).tasks + DeleteTask(Board(back, bs), task, listName).tasks
  {
    FilterAppend(NotId(task.id), front, back);
  }

  /** Deleting an id that is not on the board leaves the master list as it was. */
  lemma DeleteAbsentTask(b: Board, task: Task, listName: string)
    requires forall i :: 0 <= i < |b.tasks| ==> b.tasks[i].id != task.id
    ensures DeleteTask(b, task, listName) == Refresh(b.tasks)
  {
    FilterKeepsAll(NotId(task.id), b.tasks);
  }

  // ----- Status change reported by the worker dashboard -----

  /**
   * `onUserTaskStatusChanged`: the first task with the event's id takes the new
   * status and the columns are rebuilt; when no task has that id nothing at
   * all changes.
   */
  function OnUserTaskStatusChanged(b: Board, ev: StatusChangedEvent): (r: Board)
    ensures (forall i :: 0 <= i < |b.tasks| ==> b.tasks[i].id != ev.taskId) ==> r == b
    ensures |r.tasks| == |b.tasks|
    ensures forall k :: 0 <= k < |b.tasks| && b.tasks[k].id == ev.taskId && (forall j :: 0 <= j < k ==> b.tasks[j].id != ev.taskId) ==>
              && r.tasks[k] == b.tasks[k].(status := ev.newStatus)
              && (forall i :: 0 <= i < |b.tasks| && i != k ==> r.tasks[i] == b.tasks[i])
              && r.buckets == FilterTasks(r.tasks)
  {
    var k := FindIndex(b.tasks, ev.taskId);
    if k == -1 then b
    else Refresh(b.tasks[k := b.tasks[k].(status := ev.newStatus)])
  }

  /**
   * The dashboard and the board agree: when the worker changes the status of a
   * task that is the board's first task with that id, the board's copy ends up
   * equal to the dashboard's changed copy.
   */
  lemma StatusChangeReachesBoard(b: Board, u: UserTask, newStatus: string, k: nat)
    requires k < |b.tasks| && b.tasks[k] == FromUserTask(u)
    requires forall j :: 0 <= j < k ==> b.tasks[j].id != u.id
    ensures var change := ChangeStatus(u, newStatus);
            OnUserTaskStatusChanged(b, change.event).tasks[k] == FromUserTask(change.task)
  {
  }

  // ----- Drag and drop -----

  /** `getContainerNameByList`: the lower-cased area followed by the priority. */
  function ContainerName(area: string, priority: string): (r: string)
    ensures |r| == |area| + |priority|
    ensures r[|area|..] == priority
    ensures forall i :: 0 <= i < |area| ==> r[i] == LowerChar(area[i])
  {
    ToLower(area) + priority
  }

  /** The area `updateTaskAfterDrop` assigns: chosen by the prefix of the container name. */
  function DropArea(t: Task): string {
    var name := ContainerName(t.area, t.priority);
    if StartsWith(name, "ingenieria") then INGENIERIA
    else if StartsWith(name, "logistica") then LOGISTICA
    else MARKETING
  }

  /** The priority `updateTaskAfterDrop` assigns: chosen by the suffix of the container name. */
  function DropPriority(t: Task): string {
    var name := ContainerName(t.area, t.priority);
    if EndsWith(name, "Alta") then ALTA
    else if EndsWith(name, "Media") then MEDIA
    else BAJA
  }

  /**
   * The lower-cased area names keep their accents ("ingeniería", "logística"),
   * so neither unaccented prefix test can succeed: a task of any of the three
   * areas is always given MARKETING.
   */
  lemma DropAreaIsMarketing(t: Task)
    requires IsArea(t.area)
    ensures DropArea(t) == MARKETING
  {
    var name := ContainerName(t.area, t.priority);
    if t.area == INGENIERIA {
      assert name[8] == 'í' != "ingenieria"[8];
      assert name[0] != "logistica"[0];
    } else if t.area == LOGISTICA {
      assert name[0] != "ingenieria"[0];
      assert name[3] == 'í' != "logistica"[3];
    } else {
      assert name[0] != "ingenieria"[0] && name[0] != "logistica"[0];
    }
  }

  /**
   * The priority test only sees the task's own priority, because a lower-cased
   * area never holds the capital letters the suffixes start with; so the
   * priority is decided by the priority text alone.
   */
  lemma DropPriorityBySuffix(t: Task)
    ensures DropPriority(t) == if EndsWith(t.priority, "Alta") then ALTA
                               else if EndsWith(t.priority, "Media") then MEDIA
                               else BAJA
  {
    EndsWithAfterLower(t.area, t.priority, "Alta");
    EndsWithAfterLower(t.area, t.priority, "Media");
  }

  /** One of the three priorities is given back unchanged. */
  lemma DropKeepsPriority(t: Task)
    requires IsPriority(t.priority)
    ensures DropPriority(t) == t.priority
  {
    DropPriorityBySuffix(t);
    assert !EndsWith(BAJA, "Alta") && !EndsWith(BAJA, "Media") && !EndsWith(MEDIA, "Alta");
  }

  /**
   * `updateTaskAfterDrop`: the first task of the master list with the dropped
   * task's id takes the area and priority computed from the dropped task;
   * every other task, and every other field, is left as it was.
   */
  function UpdateTaskAfterDrop(tasks: seq<Task>, dropped: Task): (r: seq<Task>)
    ensures |r| == |tasks|
    ensures (forall i :: 0 <= i < |tasks| ==> tasks[i].id != dropped.id) ==> r == tasks
    ensures forall k :: 0 <= k < |tasks| && tasks[k].id == dropped.id && (forall j :: 0 <= j < k ==> tasks[j].id != dropped.id) ==>
              && r[k] == tasks[k].(area := DropArea(dropped), priority := DropPriority(dropped))
              && (forall i :: 0 <= i < |tasks| && i != k ==> r[i] == tasks[i])
  {
    var k := FindIndex(tasks, dropped.id);
    if k == -1 then tasks
    else tasks[k := tasks[k].(area := DropArea(dropped), priority := DropPriority(dropped))]
  }

  /** The drop event: the two columns and the positions in them. */
  datatype DropEvent = DropEvent(previousContainer: BucketId, container: BucketId, previousIndex: nat, currentIndex: nat)

  /** The positions name an item of the source column and a place in the target column. */
  predicate ValidDrop(bs: Buckets, ev: DropEvent) {
    if ev.previousContainer == ev.container then
      ev.previousIndex < |Bucket(bs, ev.container)| && ev.currentIndex < |Bucket(bs, ev.container)|
    else
      ev.previousIndex < |Bucket(bs, ev.previousContainer)| && ev.currentIndex <= |Bucket(bs, ev.container)|
  }

  /** The item the user picked up. */
  function Picked(bs: Buckets, ev: DropEvent): Task
    requires ValidDrop(bs, ev)
  {
    Bucket(bs, ev.previousContainer)[ev.previousIndex]
  }

  /** The column surgery of `onDrop`: a move within one column or a transfer between two. */
  function DropColumns(bs: Buckets, ev: DropEvent): (r: Buckets)
    requires ValidDrop(bs, ev)
    ensures ev.currentIndex < |Bucket(r, ev.container)|
    ensures Bucket(r, ev.container)[ev.currentIndex] == Picked(bs, ev)
    ensures forall c :: c != ev.previousContainer && c != ev.container ==> Bucket(r, c) == Bucket(bs, c)
    ensures ev.previousContainer == ev.container ==>
              multiset(Bucket(r, ev.container)) == multiset(Bucket(bs, ev.container))
    ensures ev.previousContainer != ev.container ==>
              && |Bucket(r, ev.previousContainer)| == |Bucket(bs, ev.previousContainer)| - 1
              && |Bucket(r, ev.container)| == |Bucket(bs, ev.container)| + 1
    ensures ev.previousContainer == ev.container ==>
              RemoveAt(Bucket(r, ev.container), ev.currentIndex) == RemoveAt(Bucket(bs, ev.container), ev.previousIndex)
    ensures ev.previousContainer != ev.container ==>
              && Bucket(r, ev.previousContainer) == RemoveAt(Bucket(bs, ev.previousContainer), ev.previousIndex)
              && RemoveAt(Bucket(r, ev.container), ev.currentIndex) == Bucket(bs, ev.container)
  {
    if ev.previousContainer == ev.container then
      WithBucket(bs, ev.container, MoveItem(Bucket(bs, ev.container), ev.previousIndex, ev.currentIndex))
    else
      var moved := TransferItem(Bucket(bs, ev.previousContainer), Bucket(bs, ev.container), ev.previousIndex, ev.currentIndex);
      WithBucket(WithBucket(bs, ev.previousContainer, moved.source), ev.container, moved.target)
  }

  /**
   * `onDrop`: rearrange the columns, then run `updateTaskAfterDrop` on the item
   * now at the drop position. The columns hold the same task objects as the
   * master list, so when that item's id is found in the list the rewrite is
   * also seen in the column; the columns are not rebuilt.
   */
  function OnDrop(b: Board, ev: DropEvent): (r: Board)
    requires ValidDrop(b.buckets, ev)
    ensures r.tasks == UpdateTaskAfterDrop(b.tasks, Picked(b.buckets, ev))
    ensures forall c :: c != ev.previousContainer && c != ev.container ==> Bucket(r.buckets, c) == Bucket(b.buckets, c)
    ensures ev.currentIndex < |Bucket(r.buckets, ev.container)|
    ensures Bucket(r.buckets, ev.container)[ev.currentIndex].id == Picked(b.buckets, ev).id
    ensures ev.previousContainer == ev.container ==>
              |Bucket(r.buckets, ev.container)| == |Bucket(b.buckets, ev.container)|
    ensures ev.previousContainer != ev.container ==>
              && |Bucket(r.buckets, ev.previousContainer)| == |Bucket(b.buckets, ev.previousContainer)| - 1
              && |Bucket(r.buckets, ev.container)| == |Bucket(b.buckets, ev.container)| + 1
    ensures ev.previousContainer != ev.container ==>
              Bucket(r.buckets, ev.previousContainer) == Bucket(DropColumns(b.buckets, ev), ev.previousContainer)
    ensures RemoveAt(Bucket(r.buckets, ev.container), ev.currentIndex)
         == RemoveAt(Bucket(DropColumns(b.buckets, ev), ev.container), ev.currentIndex)
    ensures var p := Picked(b.buckets, ev);
            Bucket(r.buckets, ev.container)[ev.currentIndex]
              == if FindIndex(b.tasks, p.id) == -1 then p else p.(area := DropArea(p), priority := DropPriority(p))
  {
    var cols := DropColumns(b.buckets, ev);
    var dropped := Bucket(cols, ev.container)[ev.currentIndex];
    var rewritten := dropped.(area := DropArea(dropped), priority := DropPriority(dropped));
    var target := Bucket(cols, ev.container)[ev.currentIndex := rewritten];
    if FindIndex(b.tasks, dropped.id) == -1 then
      Board(b.tasks, cols)
    else
      Board(UpdateTaskAfterDrop(b.tasks, dropped), WithBucket(cols, ev.container, target))
  }

  /**
   * Where a dropped task really ends up: a task of the three areas and
   * priorities that is on the master list comes out of a drop as a MARKETING
   * task of its old priority, whatever column it was dropped on, and the next
   * rebuild of the columns puts it in the MARKETING column of that priority.
   */
  lemma DropMovesToMarketing(b: Board, ev: DropEvent, k: nat)
    requires ValidDrop(b.buckets, ev)
    requires Recognised(Picked(b.buckets, ev))
    requires k < |b.tasks| && b.tasks[k].id == Picked(b.buckets, ev).id
    requires forall j :: 0 <= j < k ==> b.tasks[j].id != b.tasks[k].id
    ensures var t := Picked(b.buckets, ev);
            var r := OnDrop(b, ev);
            && r.tasks[k].area == MARKETING
            && r.tasks[k].priority == t.priority
            && r.tasks[k] in Bucket(FilterTasks(r.tasks), BucketId(Marketing, ParsePriority(t.priority)))
  {
    var t := Picked(b.buckets, ev);
    var r := OnDrop(b, ev);
    DropAreaIsMarketing(t);
    DropKeepsPriority(t);
    var c := BucketId(Marketing, ParsePriority(t.priority));
    ClassifyIff(r.tasks[k], c);
    FilterTasksMembership(r.tasks, r.tasks[k], c);
  }

  // ----- The worker's view of the board -----

  function InArea(area: string): Task -> bool {
    (t: Task) => t.area == area
  }

  /**
   * `getUserTasks`: the worker-side copies of the tasks of one area, in
   * master-list order; each copy occurs as often as its task does.
   */
  function GetUserTasks(tasks: seq<Task>, userArea: string): (r: seq<UserTask>)
    ensures |r| <= |tasks|
    ensures forall i :: 0 <= i < |r| ==> r[i].area == userArea && FromUserTask(r[i]) in tasks
    ensures forall i :: 0 <= i < |tasks| && tasks[i].area == userArea ==> ToUserTask(tasks[i]) in r
    ensures forall u :: multiset(r)[u] == if u.area == userArea then multiset(tasks)[FromUserTask(u)] else 0
  {
    UserTasksMultiset(tasks, userArea);
    UserTasksCover(tasks, userArea);
    ToUserTasks(Filter(InArea(userArea), tasks))
  }

  lemma UserTasksMultiset(tasks: seq<Task>, userArea: string)
    ensures forall u :: multiset(ToUserTasks(Filter(InArea(userArea), tasks)))[u]
                        == if u.area == userArea then multiset(tasks)[FromUserTask(u)] else 0
  {
    FilterMultiset(InArea(userArea), tasks);
    ToUserTasksMultiset(Filter(InArea(userArea), tasks));
  }

  lemma UserTasksCover(tasks: seq<Task>, userArea: string)
    ensures forall i :: 0 <= i < |tasks| && tasks[i].area == userArea ==> ToUserTask(tasks[i]) in ToUserTasks(Filter(InArea(userArea), tasks))
  {
    var mine := Filter(InArea(userArea), tasks);
    forall i | 0 <= i < |tasks| && tasks[i].area == userArea
      ensures ToUserTask(tasks[i]) in ToUserTasks(mine)
    {
      var j :| 0 <= j < |mine| && mine[j] == tasks[i];
      assert ToUserTasks(mine)[j] == ToUserTask(tasks[i]);
    }
  }

  /** The worker's view of a concatenation is the concatenation of the views: master-list order is kept. */
  lemma GetUserTasksKeepsOrder(front: seq<Task>, back: seq<Task>, userArea: string)
    ensures GetUserTasks(front + back, userArea) == GetUserTasks(front, userArea) + GetUserTasks(back, userArea)
  {
    FilterAppend(InArea(userArea), front, back);
    var all := GetUserTasks(front + back, userArea);
    var f := GetUserTasks(front, userArea);
    var g := GetUserTasks(back, userArea);
    var mine := Filter(InArea(userArea), front + back);
    var n := |Filter(InArea(userArea), front)|;
    assert |all| == |f| + |g|;
    forall i | 0 <= i < |all|
      ensures all[i] == (f + g)[i]
    {
      if i < n {
        assert all[i] == ToUserTask(mine[i]) == f[i];
      } else {
        assert all[i] == ToUserTask(mine[i]) == g[i - n];
      }
    }
  }
}
