/**
 * The worker dashboard: the lookup tables it renders with, the per-status
 * views and counts, the pay total, and the status change it reports back to
 * the board.
 */
module Dashboard {
  import opened Tasks
  import opened Seqs

  /** Colour of a priority chip; anything outside the three priorities is grey. */
  function PriorityColor(p: string): string {
    if p == ALTA then "#d32f2f"
    else if p == MEDIA then "#f57c00"
    else if p == BAJA then "#388e3c"
    else "#9e9e9e"
  }

  /** Icon name of a status; anything outside the three statuses gets the help icon. */
  function StatusIcon(s: string): string {
    if s == ASIGNADA then "assignment"
    else if s == EN_PROCESO then "schedule"
    else if s == COMPLETADA then "check_circle"
    else "help"
  }

  /** Display label of a status; anything outside the three statuses is shown as it is. */
  function StatusLabel(s: string): string {
    if s == ASIGNADA then "Asignada"
    else if s == EN_PROCESO then "En Proceso"
    else if s == COMPLETADA then "Completada"
    else s
  }

  /** The three priorities get three different colours, and every other value the grey default. */
  lemma PriorityColorsDistinct(p: string)
    ensures PriorityColor(ALTA) != PriorityColor(MEDIA)
    ensures PriorityColor(MEDIA) != PriorityColor(BAJA)
    ensures PriorityColor(ALTA) != PriorityColor(BAJA)
    ensures IsPriority(p) <==> PriorityColor(p) != "#9e9e9e"
  {
  }

  /**
   * The icon and label tables give the three statuses three different icons
   * and three different labels; the icon table answers "help" exactly off the
   * three statuses, and the label table is the identity there.
   */
  lemma StatusLookupsDistinct(s: string)
    ensures StatusIcon(ASIGNADA) != StatusIcon(EN_PROCESO) && StatusIcon(EN_PROCESO) != StatusIcon(COMPLETADA)
    ensures StatusIcon(ASIGNADA) != StatusIcon(COMPLETADA)
    ensures StatusLabel(ASIGNADA) != StatusLabel(EN_PROCESO) && StatusLabel(EN_PROCESO) != StatusLabel(COMPLETADA)
    ensures StatusLabel(ASIGNADA) != StatusLabel(COMPLETADA)
    ensures IsStatus(s) <==> StatusIcon(s) != "help"
    ensures !IsStatus(s) ==> StatusLabel(s) == s
  {
  }

  function HasStatus(s: string): UserTask -> bool {
    (u: UserTask) => u.status == s
  }

  /** The worker's tasks with status `s`, in their original order. */
  function TasksByStatus(tasks: seq<UserTask>, s: string): (r: seq<UserTask>)
    ensures |r| <= |tasks|
    ensures forall i :: 0 <= i < |r| ==> r[i].status == s && r[i] in tasks
    ensures forall i :: 0 <= i < |tasks| && tasks[i].status == s ==> tasks[i] in r
    ensures forall u :: multiset(r)[u] == if u.status == s then multiset(tasks)[u] else 0
  {
    FilterMultiset(HasStatus(s), tasks);
    Filter(HasStatus(s), tasks)
  }

  /** The status view of a concatenation is the concatenation of the views: original order is kept. */
  lemma TasksByStatusKeepsOrder(front: seq<UserTask>, back: seq<UserTask>, s: string)
    ensures TasksByStatus(front + back, s) == TasksByStatus(front, s) + TasksByStatus(back, s)
  {
    FilterAppend(HasStatus(s), front, back);
  }

  /** Number of the worker's tasks with status `s`. */
  function StatsCount(tasks: seq<UserTask>, s: string): (n: nat)
    ensures n <= |tasks|
    ensures n == |TasksByStatus(tasks, s)|
  {
    |TasksByStatus(tasks, s)|
  }

  /**
   * When every task carries one of the three statuses, the three counts shown
   * on the dashboard add up to the number of tasks.
   */
  lemma {:induction false} StatsCountsSum(tasks: seq<UserTask>)
    requires forall i :: 0 <= i < |tasks| ==> IsStatus(tasks[i].status)
    ensures StatsCount(tasks, ASIGNADA) + StatsCount(tasks, EN_PROCESO) + StatsCount(tasks, COMPLETADA) == |tasks|
  {
    if |tasks| > 0 {
      StatsCountsSum(tasks[1..]);
      assert ASIGNADA != EN_PROCESO && EN_PROCESO != COMPLETADA && ASIGNADA != COMPLETADA by {
        assert ASIGNADA[0] != EN_PROCESO[0] && EN_PROCESO[0] != COMPLETADA[0] && ASIGNADA[0] != COMPLETADA[0];
      }
    }
  }

  /** Reference total of the estimated pay, summed from the front. */
  function SumPay(tasks: seq<UserTask>): int {
    if |tasks| == 0 then 0 else tasks[0].estimatedPay + SumPay(tasks[1..])
  }

  /** Adding one more task to the list adds exactly its pay to the total. */
  lemma {:induction false} SumPayAppend(tasks: seq<UserTask>, u: UserTask)
    ensures SumPay(tasks + [u]) == SumPay(tasks) + u.estimatedPay
  {
    if |tasks| == 0 {
      assert tasks + [u] == [u];
    } else {
      assert (tasks + [u])[1..] == tasks[1..] + [u];
      SumPayAppend(tasks[1..], u);
    }
  }

  /** With no negative pay on the list, the total is not negative. */
  lemma {:induction false} SumPayNonNegative(tasks: seq<UserTask>)
    requires forall i :: 0 <= i < |tasks| ==> tasks[i].estimatedPay >= 0
    ensures SumPay(tasks) >= 0
  {
    if |tasks| > 0 {
      SumPayNonNegative(tasks[1..]);
    }
  }

  /** `getTotalEstimatedPay`: the left-to-right `reduce` over the worker's tasks, starting from 0. */
  method TotalEstimatedPay(tasks: seq<UserTask>) returns (total: int)
    ensures total == SumPay(tasks)
    ensures |tasks| == 0 ==> total == 0
    ensures (forall i :: 0 <= i < |tasks| ==> tasks[i].estimatedPay >= 0) ==> total >= 0
  {
    total := 0;
    var i := 0;
    while i < |tasks|
      invariant 0 <= i <= |tasks|
      invariant total == SumPay(tasks[..i])
    {
      SumPayAppend(tasks[..i], tasks[i]);
      assert tasks[..i + 1] == tasks[..i] + [tasks[i]];
      total := total + tasks[i].estimatedPay;
      i := i + 1;
    }
    assert tasks[..i] == tasks;
    if forall k :: 0 <= k < |tasks| ==> tasks[k].estimatedPay >= 0 {
      SumPayNonNegative(tasks);
    }
  }

  /** What the dashboard does when the worker picks a new status for a task. */
  datatype StatusChange = StatusChange(task: UserTask, event: StatusChangedEvent)

  /**
   * `changeStatus`: the task takes the new status, keeps every other field, and
   * the event sent to the board names that task and that status.
   */
  function ChangeStatus(task: UserTask, newStatus: string): (r: StatusChange)
    ensures r.task.status == newStatus && r.task.(status := task.status) == task
    ensures r.event.taskId == task.id == r.task.id && r.event.newStatus == newStatus
  {
    StatusChange(task.(status := newStatus), StatusChangedEvent(task.id, newStatus))
  }
}
