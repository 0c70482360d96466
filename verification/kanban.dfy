/**
 * The nine columns of the administrator board, one per area and priority,
 * and `filterTasks`, which rebuilds them from the master task list.
 */
module Kanban {
  import opened Wrappers
  import opened Tasks
  import opened Seqs

  /** A column of the board: `ingenieriaAlta`, `logisticaMedia`, ... */
  datatype BucketId = BucketId(area: AreaKey, priority: PriorityKey)

  /** The nine column lists, in a fixed order. */
  type Buckets = bs: seq<seq<Task>> | |bs| == 9 witness [[], [], [], [], [], [], [], [], []]

  const EmptyBuckets: Buckets := [[], [], [], [], [], [], [], [], []]

  function Slot(b: BucketId): (k: nat)
    ensures k < 9
  {
    var row := match b.area case Ingenieria => 0 case Logistica => 1 case Marketing => 2;
    var col := match b.priority case Alta => 0 case Media => 1 case Baja => 2;
    3 * row + col
  }

  lemma SlotInjective(b: BucketId, c: BucketId)
    ensures Slot(b) == Slot(c) ==> b == c
  {
  }

  /** The contents of one column. */
  function Bucket(bs: Buckets, b: BucketId): seq<Task> {
    bs[Slot(b)]
  }

  /** Replaces the contents of one column; every other column keeps its contents. */
  function WithBucket(bs: Buckets, b: BucketId, s: seq<Task>): (r: Buckets)
    ensures Bucket(r, b) == s
    ensures forall c :: c != b ==> Bucket(r, c) == Bucket(bs, c)
  {
    SlotInjective(b, b);
    assert forall c :: c != b ==> Slot(c) != Slot(b) by {
      forall c { SlotInjective(b, c); }
    }
    bs[Slot(b) := s]
  }

  /** The declarative membership test of a column: the task's area and priority are the column's. */
  function InBucket(b: BucketId): Task -> bool {
    (t: Task) => t.area == b.area.Name() && t.priority == b.priority.Name()
  }

  /** A task whose area and priority are both enumeration values. */
  predicate Recognised(t: Task) {
    IsArea(t.area) && IsPriority(t.priority)
  }

  function ClassifyPriority(a: AreaKey, p: string): (r: Option<BucketId>)
    ensures r.Some? <==> IsPriority(p)
    ensures r.Some? ==> r.value.area == a && r.value.priority.Name() == p
  {
    if p == ALTA then Some(BucketId(a, Alta))
    else if p == MEDIA then Some(BucketId(a, Media))
    else if p == BAJA then Some(BucketId(a, Baja))
    else None
  }

  /** The column a task is pushed onto, following the nested area and priority tests of the source. */
  function Classify(t: Task): (r: Option<BucketId>)
    ensures r.Some? <==> Recognised(t)
    ensures r.Some? ==> InBucket(r.value)(t)
  {
    if t.area == INGENIERIA then ClassifyPriority(Ingenieria, t.priority)
    else if t.area == LOGISTICA then ClassifyPriority(Logistica, t.priority)
    else if t.area == MARKETING then ClassifyPriority(Marketing, t.priority)
    else None
  }

  /** The nested tests select column `b` exactly when the task's fields name `b`. */
  lemma ClassifyIff(t: Task, b: BucketId)
    ensures Classify(t) == Some(b) <==> InBucket(b)(t)
  {
  }

  /** One step of the source's `forEach`: push the task onto its column, if it has one. */
  function Place(bs: Buckets, t: Task): Buckets {
    match Classify(t)
    case None => bs
    case Some(b) => WithBucket(bs, b, Bucket(bs, b) + [t])
  }

  lemma PlaceSelects(bs: Buckets, ts: seq<Task>, t: Task)
    requires forall b :: Bucket(bs, b) == Filter(InBucket(b), ts)
    ensures forall b :: Bucket(Place(bs, t), b) == Filter(InBucket(b), ts + [t])
  {
    forall b
      ensures Bucket(Place(bs, t), b) == Filter(InBucket(b), ts + [t])
    {
      FilterAppend(InBucket(b), ts, [t]);
      FilterSingleton(InBucket(b), t);
      ClassifyIff(t, b);
    }
  }

  /**
   * `filterTasks`: clear every column, then walk the master list in order and
   * push each task onto its column. Every column ends up holding exactly the
   * tasks whose area and priority name it, in master-list order.
   */
  function FilterTasks(tasks: seq<Task>): (bs: Buckets)
    ensures forall b :: Bucket(bs, b) == Filter(InBucket(b), tasks)
    decreases |tasks|
  {
    if |tasks| == 0 then EmptyBuckets
    else
      var init := tasks[..|tasks| - 1];
      var last := tasks[|tasks| - 1];
      var prev := FilterTasks(init);
      PlaceSelects(prev, init, last);
      assert init + [last] == tasks;
      Place(prev, last)
  }

  /**
   * A task sits in column `b` exactly when it is in the master list and its
   * area and priority select `b`; so a recognised task is in its own column
   * and in no other, and an unrecognised one is in none.
   */
  lemma FilterTasksMembership(tasks: seq<Task>, t: Task, b: BucketId)
    ensures t in Bucket(FilterTasks(tasks), b) <==> t in tasks && Classify(t) == Some(b)
  {
    ClassifyIff(t, b);
    var f := Filter(InBucket(b), tasks);
    if t in tasks && InBucket(b)(t) {
      var i :| 0 <= i < |tasks| && tasks[i] == t;
      assert tasks[i] in f;
    }
    if t in f {
      var i :| 0 <= i < |f| && f[i] == t;
    }
  }

  /** A task with an unrecognised area or priority is on no column. */
  lemma UnrecognisedOnNoColumn(tasks: seq<Task>, t: Task)
    requires !Recognised(t)
    ensures forall b :: t !in Bucket(FilterTasks(tasks), b)
  {
  }

  /** Each column keeps master-list order: the columns of a concatenation are the concatenated columns. */
  lemma FilterTasksKeepsOrder(front: seq<Task>, back: seq<Task>, b: BucketId)
    ensures Bucket(FilterTasks(front + back), b) == Bucket(FilterTasks(front), b) + Bucket(FilterTasks(back), b)
  {
    FilterAppend(InBucket(b), front, back);
  }

  /** Total number of tasks on the board. */
  function Size(cols: seq<seq<Task>>): nat {
    if |cols| == 0 then 0 else |cols[0]| + Size(cols[1..])
  }

  lemma {:induction false} SizePush(cols: seq<seq<Task>>, k: nat, t: Task)
    requires k < |cols|
    ensures Size(cols[k := cols[k] + [t]]) == Size(cols) + 1
  {
    if k > 0 {
      assert cols[k := cols[k] + [t]][1..] == cols[1..][k - 1 := cols[1..][k - 1] + [t]];
      SizePush(cols[1..], k - 1, t);
    }
  }

  /** Pushing a task adds one to the board's size exactly when the task has a column. */
  lemma PlaceSize(bs: Buckets, t: Task)
    ensures Size(Place(bs, t)) == Size(bs) + (if Recognised(t) then 1 else 0)
  {
    match Classify(t)
    case None =>
    case Some(b) =>
      SizePush(bs, Slot(b), t);
  }

  /** One more task on the list adds one recognised task exactly when it is recognised. */
  lemma RecognisedStep(init: seq<Task>, last: Task)
    ensures |Filter(Recognised, init + [last])| == |Filter(Recognised, init)| + (if Recognised(last) then 1 else 0)
  {
    FilterAppend(Recognised, init, [last]);
    FilterSingleton(Recognised, last);
  }

  /**
   * No task is duplicated or lost by the partition: the columns together hold
   * as many tasks as the master list holds recognised ones.
   */
  lemma {:induction false} FilterTasksCount(tasks: seq<Task>)
    ensures Size(FilterTasks(tasks)) == |Filter(Recognised, tasks)|
    decreases |tasks|
  {
    if |tasks| > 0 {
      var init := tasks[..|tasks| - 1];
      var last := tasks[|tasks| - 1];
      FilterTasksCount(init);
      assert init + [last] == tasks;
      RecognisedStep(init, last);
      PlaceSize(FilterTasks(init), last);
    }
  }
}
