/**
 * The task record shared by the administrator board and the worker
 * dashboard, its enumerated field values, and lookup by id.
 *
 * Area, priority and status are typed as string unions in the source, but
 * the values that reach them at run time come from form controls, query
 * parameters and JSON read back from storage, so they are modelled as
 * strings; the enumerated values are the constants below.
 */
module Tasks {

  const INGENIERIA: string := "INGENIERÍA"
  const LOGISTICA: string := "LOGÍSTICA"
  const MARKETING: string := "MARKETING"

  const ALTA: string := "Alta"
  const MEDIA: string := "Media"
  const BAJA: string := "Baja"

  const ASIGNADA: string := "asignada"
  const EN_PROCESO: string := "en_proceso"
  const COMPLETADA: string := "completada"

  predicate IsArea(a: string) {
    a == INGENIERIA || a == LOGISTICA || a == MARKETING
  }

  predicate IsPriority(p: string) {
    p == ALTA || p == MEDIA || p == BAJA
  }

  predicate IsStatus(s: string) {
    s == ASIGNADA || s == EN_PROCESO || s == COMPLETADA
  }

  /** An administrator-side task (`ITask`). Pay is a whole amount. */
  datatype Task = Task(
    id: int,
    title: string,
    description: string,
    area: string,
    priority: string,
    status: string,
    dueDate: string,
    estimatedPay: int)

  /** The worker-side copy of a task (`UserTask`): the same eight fields, declared in another order. */
  datatype UserTask = UserTask(
    id: int,
    title: string,
    area: string,
    priority: string,
    status: string,
    dueDate: string,
    estimatedPay: int,
    description: string)

  /** Copies every field of a task into the worker-side record. */
  function ToUserTask(t: Task): (u: UserTask)
    ensures FromUserTask(u) == t
  {
    UserTask(t.id, t.title, t.area, t.priority, t.status, t.dueDate, t.estimatedPay, t.description)
  }

  /** The worker-side copies of a list of tasks, position by position. */
  function ToUserTasks(ts: seq<Task>): (r: seq<UserTask>)
    ensures |r| == |ts|
    ensures forall i :: 0 <= i < |ts| ==> r[i] == ToUserTask(ts[i])
  {
    if |ts| == 0 then [] else [ToUserTask(ts[0])] + ToUserTasks(ts[1..])
  }

  /** A copy occurs among the copies exactly as often as its original occurs among the tasks. */
  lemma {:induction false} ToUserTasksMultiset(ts: seq<Task>)
    ensures forall u :: multiset(ToUserTasks(ts))[u] == multiset(ts)[FromUserTask(u)]
  {
    if |ts| > 0 {
      ToUserTasksMultiset(ts[1..]);
      assert ts == [ts[0]] + ts[1..];
      assert ToUserTasks(ts) == [ToUserTask(ts[0])] + ToUserTasks(ts[1..]);
      forall u
        ensures multiset(ToUserTasks(ts))[u] == multiset(ts)[FromUserTask(u)]
      {
        assert u == ToUserTask(ts[0]) <==> FromUserTask(u) == ts[0];
      }
    }
  }

  /** Copies every field of a worker-side record back into a task. */
  function FromUserTask(u: UserTask): Task {
    Task(u.id, u.title, u.description, u.area, u.priority, u.status, u.dueDate, u.estimatedPay)
  }

  /** The worker's request to change a task's status (`ITaskStatusChangedEvent`). */
  datatype StatusChangedEvent = StatusChangedEvent(taskId: int, newStatus: string)

  /** `tasks.findIndex(t => t.id === id)`: the first index holding `id`, or -1. */
  function FindIndex(tasks: seq<Task>, id: int): (r: int)
    ensures -1 <= r < |tasks|
    ensures r == -1 <==> forall i :: 0 <= i < |tasks| ==> tasks[i].id != id
    ensures r >= 0 ==> tasks[r].id == id && forall j :: 0 <= j < r ==> tasks[j].id != id
  {
    if |tasks| == 0 then -1
    else if tasks[0].id == id then 0
    else
      var k := FindIndex(tasks[1..], id);
      if k == -1 then -1 else k + 1
  }

  // The areas and priorities as closed enumerations, naming the board's columns.

  datatype AreaKey = Ingenieria | Logistica | Marketing {
    function Name(): (r: string)
      ensures IsArea(r)
    {
      match this
      case Ingenieria => INGENIERIA
      case Logistica => LOGISTICA
      case Marketing => MARKETING
    }
  }

  datatype PriorityKey = Alta | Media | Baja {
    function Name(): (r: string)
      ensures IsPriority(r)
    {
      match this
      case Alta => ALTA
      case Media => MEDIA
      case Baja => BAJA
    }
  }

  /** Reading a priority name back gives the enumeration value it names. */
  function ParsePriority(p: string): (r: PriorityKey)
    requires IsPriority(p)
    ensures r.Name() == p
  {
    if p == ALTA then Alta
    else if p == MEDIA then Media
    else Baja
  }
}
