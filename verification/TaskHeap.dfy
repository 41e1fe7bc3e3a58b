/** The indexed binary heap of scheduled tasks: container/heap's algorithms over
    the scheduler's Less, Swap, Push and Pop, each task knowing its position in
    the slice. */
module TaskHeap {
  import opened Collections
  import opened PluginOwner
  import opened TaskModel

  /** scheduledTask; its handler is whatever the caller's windows do. */
  class Task {
    const id: nat
    const owner: Owner
    const interval: nat
    var due: nat
    var index: int
    var active: bool

    function Job(): Job
      reads this`due
    {
      TaskModel.Job(id, owner, due, interval)
    }

    constructor (id: nat, owner: Owner, due: nat, interval: nat)
      ensures this.id == id && this.owner == owner && this.interval == interval
      ensures this.due == due && index == -1 && active
    {
      this.id, this.owner, this.interval, this.due := id, owner, interval, due;
      index, active := -1, true;
    }
  }

  function Parent(c: nat): nat
    requires c > 0
  {
    (c - 1) / 2
  }

  /** Is the entry at `c` in order with respect to its parent? */
  ghost predicate OrderedAt(tasks: seq<Task>, c: nat)
    requires 0 < c < |tasks|
    reads tasks`due
  {
    !Before(tasks[c].Job(), tasks[Parent(c)].Job())
  }

  /** Could the children of `p` be children of p's own parent? */
  ghost predicate Bypass(tasks: seq<Task>, p: nat, n: nat)
    requires n <= |tasks|
    reads tasks`due
  {
    p > 0 ==> forall c | 0 < c < n && Parent(c) == p :: !Before(tasks[c].Job(), tasks[Parent(p)].Job())
  }

  /** The heap order of the first n entries, except where it may fail: between
      `up` and its parent, and between `down` and its children. */
  ghost predicate OrderedBut(tasks: seq<Task>, n: nat, up: nat, down: nat)
    requires n <= |tasks|
    reads tasks`due
  {
    forall c | 0 < c < n && c != up && Parent(c) != down :: OrderedAt(tasks, c)
  }

  ghost predicate Ordered(tasks: seq<Task>, n: nat)
    requires n <= |tasks|
    reads tasks`due
  {
    forall c | 0 < c < n :: OrderedAt(tasks, c)
  }

  ghost predicate Swapped(a: seq<Task>, b: seq<Task>, i: nat, j: nat) {
    i < |a| && j < |a| && b == a[i := a[j]][j := a[i]]
  }

  /** One step of heap.up moves the place where the order may fail to the parent. */
  lemma SwapUp(a: seq<Task>, b: seq<Task>, n: nat, j: nat)
    requires 0 < j < n <= |a| && Swapped(a, b, Parent(j), j)
    requires OrderedBut(a, n, j, n) && Bypass(a, j, n)
    requires Before(a[j].Job(), a[Parent(j)].Job())
    ensures OrderedBut(b, n, Parent(j), n) && Bypass(b, Parent(j), n)
  {
    var i := Parent(j);
    forall c | 0 < c < n && c != i ensures OrderedAt(b, c) {
      if c != j { assert OrderedAt(a, c); }
      if Parent(c) == i && i > 0 { assert OrderedAt(a, i); }
    }
    if i > 0 {
      assert OrderedAt(a, i);
      forall c | 0 < c < n && Parent(c) == i ensures !Before(b[c].Job(), b[Parent(i)].Job()) {
        if c != j { assert OrderedAt(a, c); }
      }
    }
  }

  /** One step of heap.down moves the place where the order may fail to the
      lesser child. */
  lemma SwapDown(a: seq<Task>, b: seq<Task>, n: nat, up: nat, i: nat, j: nat)
    requires 0 < j < n <= |a| && Parent(j) == i && Swapped(a, b, i, j)
    requires OrderedBut(a, n, up, i) && Bypass(a, i, n)
    requires up == i || up == 0
    requires Before(a[j].Job(), a[i].Job())
    requires forall c | 0 < c < n && Parent(c) == i :: !Before(a[c].Job(), a[j].Job())
    ensures OrderedBut(b, n, 0, j) && Bypass(b, j, n)
  {
    forall c | 0 < c < n && Parent(c) != j ensures OrderedAt(b, c) {
      if c == i {
        assert !Before(a[j].Job(), a[Parent(i)].Job());
      } else if Parent(c) != i {
        assert OrderedAt(a, c);
      }
    }
    forall c | 0 < c < n && Parent(c) == j ensures !Before(b[c].Job(), b[i].Job()) {
      assert OrderedAt(a, c);
    }
  }

  /** The first task of a heap is least. */
  lemma {:induction false} RootIsLeast(tasks: seq<Task>, i: nat)
    requires i < |tasks| && Ordered(tasks, |tasks|)
    ensures !Before(tasks[i].Job(), tasks[0].Job())
  {
    if i > 0 {
      RootIsLeast(tasks, Parent(i));
      assert OrderedAt(tasks, i);
    }
  }

  ghost function Members(tasks: seq<Task>): set<Task> {
    set t | t in tasks
  }

  lemma SwappedMembers(a: seq<Task>, b: seq<Task>, i: nat, j: nat)
    requires Swapped(a, b, i, j)
    ensures Members(b) == Members(a)
  {
    assert forall k | 0 <= k < |a| :: a[k] == b[if k == i then j else if k == j then i else k];
    forall t | t in a ensures t in b {
      var k :| 0 <= k < |a| && a[k] == t;
      assert b[if k == i then j else if k == j then i else k] == t;
    }
  }

  lemma LastMember(a: seq<Task>, b: seq<Task>, t: Task)
    requires b == a + [t]
    ensures Members(b) == Members(a) + {t}
  {
  }

  /** Where heap.up stops, the order holds everywhere. */
  lemma UpDone(tasks: seq<Task>, n: nat, j: nat)
    requires j < n <= |tasks| && OrderedBut(tasks, n, j, n)
    requires j > 0 ==> OrderedAt(tasks, j)
    ensures Ordered(tasks, n)
  {
  }

  /** Where heap.down stops, so does the failure below. */
  lemma DownDone(tasks: seq<Task>, n: nat, up: nat, i: nat)
    requires i < n <= |tasks| && OrderedBut(tasks, n, up, i)
    requires forall c | 0 < c < n && Parent(c) == i :: OrderedAt(tasks, c)
    ensures OrderedBut(tasks, n, up, n)
    ensures up == 0 ==> Ordered(tasks, n)
  {
  }

  /** Taking entry n out of the first n + 1 and putting it at i leaves the order
      broken only around i. */
  lemma Transplant(a: seq<Task>, b: seq<Task>, n: nat, i: nat)
    requires i < n < |a| && Ordered(a, n + 1) && Swapped(a, b, i, n)
    ensures OrderedBut(b, n, i, i) && Bypass(b, i, n)
  {
    forall c | 0 < c < n && c != i && Parent(c) != i ensures OrderedAt(b, c) {
      assert OrderedAt(a, c);
    }
    if i > 0 {
      forall c | 0 < c < n && Parent(c) == i ensures !Before(b[c].Job(), b[Parent(i)].Job()) {
        assert OrderedAt(a, c) && OrderedAt(a, i);
      }
    }
  }

  lemma Shorter(a: seq<Task>, b: seq<Task>)
    requires a <= b && Ordered(b, |a|)
    ensures Ordered(a, |a|)
  {
    forall c | 0 < c < |a| ensures OrderedAt(a, c) {
      assert OrderedAt(b, c);
    }
  }

  lemma Longer(a: seq<Task>, t: Task)
    requires Ordered(a, |a|)
    ensures OrderedBut(a + [t], |a| + 1, |a|, |a| + 1) && Bypass(a + [t], |a|, |a| + 1)
  {
    forall c | 0 < c < |a| ensures OrderedAt(a + [t], c) {
      assert OrderedAt(a, c);
    }
  }

  class Heap {
    var tasks: seq<Task>

    /** Every task in the heap knows where it is. */
    ghost predicate Indexed()
      reads this, tasks`index
    {
      forall i | 0 <= i < |tasks| :: tasks[i].index == i
    }

    ghost predicate Valid()
      reads this, tasks`index, tasks`due
    {
      Indexed() && Ordered(tasks, |tasks|)
    }

    constructor ()
      ensures tasks == [] && Valid()
    {
      tasks := [];
    }

    function Less(i: nat, j: nat): (less: bool)
      requires i < |tasks| && j < |tasks|
      reads this, tasks`due
      ensures less == Before(tasks[i].Job(), tasks[j].Job())
    {
      if tasks[i].due == tasks[j].due then tasks[i].id < tasks[j].id else tasks[i].due < tasks[j].due
    }

    method Swap(i: nat, j: nat)
      requires i < |tasks| && j < |tasks| && Indexed()
      modifies this, Members(tasks)`index
      ensures Swapped(old(tasks), tasks, i, j)
      ensures Members(tasks) == Members(old(tasks))
      ensures Indexed()
    {
      SwappedMembers(tasks, tasks[i := tasks[j]][j := tasks[i]], i, j);
      tasks := tasks[i := tasks[j]][j := tasks[i]];
      tasks[i].index := i;
      tasks[j].index := j;
    }

    /** Append a task at the end. */
    method PushLast(task: Task)
      requires Indexed() && task !in tasks
      modifies this, task`index
      ensures tasks == old(tasks) + [task]
      ensures Indexed()
    {
      task.index := |tasks|;
      tasks := tasks + [task];
    }

    /** Take the last task off. */
    method PopLast() returns (task: Task)
      requires |tasks| > 0 && Indexed()
      modifies this, Members(tasks)`index
      ensures old(tasks) == tasks + [task]
      ensures Members(tasks) == Members(old(tasks)) - {task}
      ensures Indexed() && task.index == -1
    {
      var last := |tasks| - 1;
      task := tasks[last];
      assert forall i | 0 <= i < last :: tasks[i] != task;
      LastMember(tasks[..last], tasks, task);
      task.index := -1;
      tasks := tasks[..last];
      assert task !in tasks;
    }

    /** heap.up, which leaves alone what is past the first n entries. */
    method Up(j0: nat, ghost n: nat)
      requires j0 < n <= |tasks| && Indexed()
      requires OrderedBut(tasks, n, j0, n) && Bypass(tasks, j0, n)
      modifies this, Members(tasks)`index
      ensures Indexed() && Members(tasks) == Members(old(tasks))
      ensures |tasks| == old(|tasks|) && (n < |tasks| ==> tasks[n] == old(tasks)[n])
      ensures Ordered(tasks, n)
    {
      hide Members, OrderedBut, Bypass, Ordered;
      var j: nat := j0;
      while true
        invariant j < n <= |tasks| && Indexed()
        invariant Members(tasks) == Members(old(tasks))
        invariant |tasks| == old(|tasks|) && (n < |tasks| ==> tasks[n] == old(tasks)[n])
        invariant OrderedBut(tasks, n, j, n) && Bypass(tasks, j, n)
        decreases j
      {
        var i: nat := if j == 0 then 0 else (j - 1) / 2;
        if i == j || !Less(j, i) {
          UpDone(tasks, n, j);
          return;
        }
        ghost var before := tasks;
        Swap(i, j);
        SwapUp(before, tasks, n, j);
        j := i;
      }
    }

    /** heap.down within the first n entries; says whether anything moved. */
    method Down(i0: nat, n: nat) returns (moved: bool)
      requires i0 < n <= |tasks| && Indexed()
      requires OrderedBut(tasks, n, i0, i0) && Bypass(tasks, i0, n)
      modifies this, Members(tasks)`index
      ensures Indexed() && Members(tasks) == Members(old(tasks))
      ensures |tasks| == old(|tasks|) && (n < |tasks| ==> tasks[n] == old(tasks)[n])
      ensures moved || i0 == 0 ==> Ordered(tasks, n)
      ensures !moved ==> tasks == old(tasks) && OrderedBut(tasks, n, i0, n)
    {
      hide Members, OrderedBut, Bypass, Ordered;
      var i: nat := i0;
      while true
        invariant i0 <= i < n <= |tasks| && Indexed()
        invariant Members(tasks) == Members(old(tasks))
        invariant |tasks| == old(|tasks|) && (n < |tasks| ==> tasks[n] == old(tasks)[n])
        invariant i == i0 ==> tasks == old(tasks)
        invariant OrderedBut(tasks, n, if i == i0 then i0 else 0, i) && Bypass(tasks, i, n)
        decreases n - i
      {
        ghost var up: nat := if i == i0 then i0 else 0;
        var j1 := 2 * i + 1;
        if j1 >= n {
          DownDone(tasks, n, up, i);
          break;
        }
        var j := j1;
        var j2 := j1 + 1;
        if j2 < n && Less(j2, j1) {
          j := j2;
        }
        if !Less(j, i) {
          DownDone(tasks, n, up, i);
          break;
        }
        ghost var before := tasks;
        Swap(i, j);
        SwapDown(before, tasks, n, up, i, j);
        i := j;
      }
      return i > i0;
    }

    /** heap.Push */
    method Push(task: Task)
      requires Valid() && task !in tasks
      modifies this, Members(tasks)`index, task`index
      ensures Valid() && Members(tasks) == Members(old(tasks)) + {task}
    {
      Longer(tasks, task);
      LastMember(tasks, tasks + [task], task);
      PushLast(task);
      Up(|tasks| - 1, |tasks|);
    }

    /** heap.Pop */
    method Pop() returns (task: Task)
      requires Valid() && |tasks| > 0
      modifies this, Members(tasks)`index
      ensures Valid() && task == old(tasks)[0] && task.index == -1
      ensures Members(tasks) == Members(old(tasks)) - {task}
    {
      task := Remove(0);
    }

    /** heap.Remove */
    method Remove(i: nat) returns (task: Task)
      requires Valid() && i < |tasks|
      modifies this, Members(tasks)`index
      ensures Valid() && task == old(tasks)[i] && task.index == -1
      ensures Members(tasks) == Members(old(tasks)) - {task}
    {
      hide Members, OrderedBut, Bypass;
      var n := |tasks| - 1;
      if n != i {
        ghost var before := tasks;
        Swap(i, n);
        Transplant(before, tasks, n, i);
        var moved := Down(i, n);
        if !moved {
          Up(i, n);
        }
      }
      ghost var sifted := tasks;
      task := PopLast();
      Shorter(tasks, sifted);
    }
  }
}
