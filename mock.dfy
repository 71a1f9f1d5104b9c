/**
 * `generateSubjectMockTest`: one request per (unit, topic) pair of the
 * subject, each asking for ceil(100 / tasks) questions, run one after the
 * other; the first failure abandons the test, otherwise the pooled questions
 * are shuffled and cut to one hundred.
 */
module MockTest {
  import opened Common
  import opened Catalog
  import opened Scoring
  import opened Progress

  /** One generation request of the mock test. */
  datatype Task = Task(unit: string, topic: string)

  /** Questions asked for in total. */
  const TotalQuestions: nat := 100

  /** The tasks of one unit, in topic order. */
  function UnitTasks(u: UnitEntry): (tasks: seq<Task>)
    ensures |tasks| == |u.topics|
    ensures forall k :: 0 <= k < |tasks| ==> tasks[k] == Task(u.name, u.topics[k])
  {
    seq(|u.topics|, k requires 0 <= k < |u.topics| => Task(u.name, u.topics[k]))
  }

  /** All tasks: the units in order, each with its topics in order. */
  function TaskList(units: seq<UnitEntry>): seq<Task>
  {
    if |units| == 0 then [] else TaskList(units[..|units| - 1]) + UnitTasks(units[|units| - 1])
  }

  /** Number of topics over all units. */
  function TopicTotal(units: seq<UnitEntry>): nat
  {
    if |units| == 0 then 0 else TopicTotal(units[..|units| - 1]) + |units[|units| - 1].topics|
  }

  /** There is one task per topic of every unit. */
  lemma {:induction false} TaskCount(units: seq<UnitEntry>)
    ensures |TaskList(units)| == TopicTotal(units)
  {
    if |units| > 0 {
      TaskCount(units[..|units| - 1]);
    }
  }

  /** A task is listed exactly when its topic is one of its unit's topics. */
  lemma {:induction false} TaskMembership(units: seq<UnitEntry>, t: Task)
    ensures t in TaskList(units) <==> exists k :: 0 <= k < |units| && units[k].name == t.unit && t.topic in units[k].topics
  {
    if |units| > 0 {
      var n := |units|;
      var prefix := units[..n - 1];
      TaskMembership(prefix, t);
      var last := units[n - 1];
      assert t in UnitTasks(last) <==> last.name == t.unit && t.topic in last.topics by {
        if last.name == t.unit && t.topic in last.topics {
          var j :| 0 <= j < |last.topics| && last.topics[j] == t.topic;
          assert UnitTasks(last)[j] == t;
        }
      }
      if exists k :: 0 <= k < n - 1 && prefix[k].name == t.unit && t.topic in prefix[k].topics {
        var k :| 0 <= k < n - 1 && prefix[k].name == t.unit && t.topic in prefix[k].topics;
        assert units[k] == prefix[k];
      }
      if exists k :: 0 <= k < n && units[k].name == t.unit && t.topic in units[k].topics {
        var k :| 0 <= k < n && units[k].name == t.unit && t.topic in units[k].topics;
        if k < n - 1 {
          assert prefix[k] == units[k];
        }
      }
    }
  }

  /** The nested `for ... in` / `forEach` collecting the tasks. */
  method CollectTasks(units: seq<UnitEntry>) returns (tasks: seq<Task>)
    ensures tasks == TaskList(units)
  {
    tasks := [];
    var i := 0;
    while i < |units|
      invariant 0 <= i <= |units|
      invariant tasks == TaskList(units[..i])
    {
      assert units[..i + 1][..i] == units[..i];
      var u := units[i];
      var j := 0;
      ghost var before := tasks;
      while j < |u.topics|
        invariant 0 <= j <= |u.topics|
        invariant tasks == before + UnitTasks(u)[..j]
      {
        assert UnitTasks(u)[..j + 1] == UnitTasks(u)[..j] + [Task(u.name, u.topics[j])];
        tasks := tasks + [Task(u.name, u.topics[j])];
        j := j + 1;
      }
      assert UnitTasks(u)[..j] == UnitTasks(u);
      i := i + 1;
    }
    assert units[..i] == units;
  }

  /** `Math.ceil(100 / tasks)`: the fewest questions per task that reach 100. */
  function RequestSize(taskCount: nat): (size: nat)
    requires taskCount > 0
    ensures taskCount * size >= TotalQuestions
    ensures taskCount * (size - 1) < TotalQuestions
  {
    var size := (TotalQuestions + taskCount - 1) / taskCount;
    assert taskCount * size + (TotalQuestions + taskCount - 1) % taskCount == TotalQuestions + taskCount - 1;
    size
  }

  /** The answer to one generation request. */
  datatype Reply = Delivered(questions: seq<Question>) | Failed

  /** The server, as seen by the builder: the reply to a task and a request size. */
  type Fetch = (Task, nat) -> Reply

  /** The outcome of building the pool. */
  datatype MockBuild =
    | NoTasks
    | Aborted(index: nat, task: Task, bars: seq<nat>)
    | Pooled(questions: seq<Question>, bars: seq<nat>)

  /** Questions delivered for `tasks`, in order, when every request succeeds. */
  function PoolOf(tasks: seq<Task>, fetch: Fetch, size: nat): seq<Question>
  {
    if |tasks| == 0 then []
    else
      var reply := fetch(tasks[|tasks| - 1], size);
      PoolOf(tasks[..|tasks| - 1], fetch, size) + (if reply.Delivered? then reply.questions else [])
  }

  /** One more task: its delivery, if any, joins the end of the pool. */
  lemma PoolOfNext(tasks: seq<Task>, fetch: Fetch, size: nat, i: nat)
    requires i < |tasks|
    ensures var reply := fetch(tasks[i], size);
      PoolOf(tasks[..i + 1], fetch, size) == PoolOf(tasks[..i], fetch, size) + (if reply.Delivered? then reply.questions else [])
  {
    assert tasks[..i + 1][..i] == tasks[..i];
  }

  /** The bar before each task: 0, then the completed share, rounded. */
  function BarsBefore(done: nat, count: nat): (bars: seq<nat>)
    requires 0 < count && done <= count
    ensures |bars| == done
  {
    if done == 0 then [] else BarsBefore(done - 1, count) + [ManualBar(done - 1, count)]
  }

  /** The bar shown before task `k` is the share of the `k` tasks already done. */
  lemma {:induction false} BarsBeforeAt(done: nat, count: nat, k: nat)
    requires 0 < count && k < done <= count
    ensures BarsBefore(done, count)[k] == ManualBar(k, count)
  {
    if k < done - 1 {
      BarsBeforeAt(done - 1, count, k);
    }
  }

  /** The bar values the builder shows never go back and stay within 0..100. */
  lemma BarsRise(count: nat)
    requires count > 0
    ensures var bars := BarsBefore(count, count) + [100];
      && bars[0] == 0 && bars[|bars| - 1] == 100
      && forall i, j :: 0 <= i <= j < |bars| ==> bars[i] <= bars[j] <= 100
  {
    var bars := BarsBefore(count, count) + [100];
    ManualBarEnds(count);
    BarsBeforeAt(count, count, 0);
    forall i, j | 0 <= i <= j < |bars|
      ensures bars[i] <= bars[j] <= 100
    {
      if j < count {
        BarsBeforeAt(count, count, i);
        BarsBeforeAt(count, count, j);
        ManualBarMonotone(i, j, count);
      } else if i < count {
        BarsBeforeAt(count, count, i);
        ManualBarMonotone(i, count, count);
      }
    }
  }

  /**
   * The sequential request loop: before each task the bar shows the share
   * completed; a failed request abandons the whole test; an empty delivery is
   * only skipped; after the last task the bar shows 100.
   */
  method BuildMockPool(units: seq<UnitEntry>, fetch: Fetch) returns (build: MockBuild)
    ensures var tasks := TaskList(units);
      && (build.NoTasks? <==> |tasks| == 0)
      && (build.Aborted? ==>
            && build.index < |tasks| && build.task == tasks[build.index]
            && fetch(tasks[build.index], RequestSize(|tasks|)).Failed?
            && (forall k :: 0 <= k < build.index ==> fetch(tasks[k], RequestSize(|tasks|)).Delivered?)
            && build.bars == BarsBefore(build.index + 1, |tasks|))
      && (build.Pooled? ==>
            && |tasks| > 0
            && (forall k :: 0 <= k < |tasks| ==> fetch(tasks[k], RequestSize(|tasks|)).Delivered?)
            && build.questions == PoolOf(tasks, fetch, RequestSize(|tasks|))
            && build.bars == BarsBefore(|tasks|, |tasks|) + [100])
  {
    var tasks := CollectTasks(units);
    if |tasks| == 0 {
      return NoTasks;
    }
    build := RequestAll(tasks, fetch, RequestSize(|tasks|));
  }

  /** The loop over a non-empty task list, each request asking for `size` questions. */
  method RequestAll(tasks: seq<Task>, fetch: Fetch, size: nat) returns (build: MockBuild)
    requires |tasks| > 0
    ensures !build.NoTasks?
    ensures build.Aborted? ==>
      && build.index < |tasks| && build.task == tasks[build.index]
      && fetch(tasks[build.index], size).Failed?
      && (forall k :: 0 <= k < build.index ==> fetch(tasks[k], size).Delivered?)
      && build.bars == BarsBefore(build.index + 1, |tasks|)
    ensures build.Pooled? ==>
      && (forall k :: 0 <= k < |tasks| ==> fetch(tasks[k], size).Delivered?)
      && build.questions == PoolOf(tasks, fetch, size)
      && build.bars == BarsBefore(|tasks|, |tasks|) + [100]
  {
    var count := |tasks|;
    var pool: seq<Question> := [];
    var bars: seq<nat> := [];
    var completed := 0;
    while completed < count
      invariant 0 <= completed <= count
      invariant forall k :: 0 <= k < completed ==> fetch(tasks[k], size).Delivered?
      invariant pool == PoolOf(tasks[..completed], fetch, size)
      invariant bars == BarsBefore(completed, count)
    {
      bars := bars + [ManualBar(completed, count)];
      var reply := fetch(tasks[completed], size);
      if reply.Failed? {
        return Aborted(completed, tasks[completed], bars);
      }
      PoolOfNext(tasks, fetch, size, completed);
      pool := pool + reply.questions;
      completed := completed + 1;
    }
    assert tasks[..completed] == tasks;
    bars := bars + [100];
    return Pooled(pool, bars);
  }

  /**
   * The shuffled pool cut to at most one hundred questions. The shuffle is a
   * parameter: any rearrangement of the pool.
   */
  function MockSelection(pool: seq<Question>, shuffled: seq<Question>): (test: seq<Question>)
    requires multiset(shuffled) == multiset(pool)
    ensures |test| == if |pool| < TotalQuestions then |pool| else TotalQuestions
    ensures multiset(test) <= multiset(pool)
    ensures test == shuffled[..|test|]
  {
    var n := if |shuffled| < TotalQuestions then |shuffled| else TotalQuestions;
    assert |shuffled| == |multiset(shuffled)| == |pool|;
    assert shuffled == shuffled[..n] + shuffled[n..];
    assert multiset(shuffled) == multiset(shuffled[..n]) + multiset(shuffled[n..]);
    shuffled[..n]
  }

  /** Ninety minutes for General Tamil, two hours for any other subject. */
  function MockDuration(subject: string): nat
  {
    if subject == "General Tamil" then 5400 else 7200
  }

  /**
   * The estimate the countdown starts from: five seconds per task, so the
   * loading screen opens on N / 12 minutes and 5 * (N % 12) seconds.
   */
  function MockEstimate(taskCount: nat): (seconds: nat)
    ensures RemainingDisplay(seconds) == (taskCount / 12, 5 * (taskCount % 12))
  {
    var q, m := taskCount / 12, taskCount % 12;
    assert 5 * taskCount == 60 * q + 5 * m;
    DivUnique(5 * taskCount, 60, q);
    5 * taskCount
  }

  /** The test's title. */
  function MockTitle(subject: string): string
  {
    if subject == "General Tamil" then "General Tamil Mock Test" else "General Studies Mock Test"
  }
}
