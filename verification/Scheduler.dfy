/**
 * The round-robin scheduler (kernel/task.c): tasks in one circular list, switched
 * by task_yield.
 */
module Scheduler {

  datatype State = Ready | Running | Sleeping | Zombie

  predicate Runnable(s: State) { s == Ready || s == Running }

  // ---- the list as a sequence: position 0 is the main task ----

  datatype Sched = Sched(states: seq<State>, cur: nat)

  /** No task but the current one is running. */
  ghost predicate Ok(s: Sched) {
    s.cur < |s.states| && forall k :: 0 <= k < |s.states| && s.states[k] == Running ==> k == s.cur
  }

  /** The position h hops after cur on a ring of n. */
  function Hop(cur: nat, h: nat, n: nat): nat
    requires cur < n && h <= n
  {
    if cur + h < n then cur + h else cur + h - n
  }

  /** How many hops from the current task to task k. */
  function Dist(s: Sched, k: nat): nat
    requires s.cur < |s.states| && k < |s.states|
  {
    if k >= s.cur then k - s.cur else k + |s.states| - s.cur
  }

  /** The first hop from h on that meets a runnable task; n when there is none but the current one. */
  function NextHop(s: Sched, h: nat): (r: nat)
    requires s.cur < |s.states| && 1 <= h <= |s.states|
    ensures h <= r <= |s.states|
    ensures r < |s.states| ==> Runnable(s.states[Hop(s.cur, r, |s.states|)])
    ensures forall i: nat :: h <= i < r ==> !Runnable(s.states[Hop(s.cur, i, |s.states|)])
    decreases |s.states| - h
  {
    if h == |s.states| || Runnable(s.states[Hop(s.cur, h, |s.states|)]) then h else NextHop(s, h + 1)
  }

  /** task_yield */
  function Yield(s: Sched): Sched
    requires s.cur < |s.states|
  {
    var h := NextHop(s, 1);
    if h == |s.states| then s
    else
      var next := Hop(s.cur, h, |s.states|);
      var paused := if s.states[s.cur] == Running then s.states[s.cur := Ready] else s.states;
      Sched(paused[next := Running], next)
  }

  datatype Event = Yields | Creates | Kills(task: nat)

  function Step(s: Sched, e: Event): Sched
    requires s.cur < |s.states|
  {
    match e
    case Yields => Yield(s)
    case Creates => s.(states := s.states + [Ready])
    case Kills(j) => if j < |s.states| then s.(states := s.states[j := Zombie]) else s
  }

  lemma StepKeeps(s: Sched, e: Event)
    requires Ok(s)
    ensures Ok(Step(s, e)) && |Step(s, e).states| >= |s.states|
  {
  }

  function Run(s: Sched, es: seq<Event>): (r: Sched)
    requires Ok(s)
    ensures Ok(r) && |r.states| >= |s.states|
    decreases |es|
  {
    if es == [] then s else StepKeeps(s, es[0]); Run(Step(s, es[0]), es[1..])
  }

  /** Over every run, the main task exiting or not, a zombie that is not current stays one and never runs again. */
  lemma {:induction false} ZombieStays(s: Sched, es: seq<Event>, k: nat)
    requires Ok(s) && k < |s.states| && s.states[k] == Zombie && k != s.cur
    ensures Run(s, es).states[k] == Zombie && Run(s, es).cur != k
    decreases |es|
  {
    if es != [] {
      StepKeeps(s, es[0]);
      ZombieStays(Step(s, es[0]), es[1..], k);
    }
  }

  /** The main task can run: nothing but its own exit takes that away. */
  ghost predicate MainRuns(s: Sched) { s.states != [] && Runnable(s.states[0]) }

  /** A current zombie other than the main task gives the processor up at its first yield. */
  lemma ZombieLeaves(s: Sched)
    requires Ok(s) && MainRuns(s) && s.states[s.cur] == Zombie
    ensures Yield(s).cur != s.cur
  {
    var n, d := |s.states|, Dist(s, 0);
    assert s.cur != 0 && 1 <= d < n && Hop(s.cur, d, n) == 0;
    assert NextHop(s, 1) <= d;
  }

  /**
   * Over every run in which the main task does not exit it stays able to run, and a
   * zombie stays a zombie. The zombie is current afterwards exactly if it was current
   * before and nobody yielded.
   */
  lemma {:induction false} ZombieNeverRuns(s: Sched, es: seq<Event>, k: nat)
    requires Ok(s) && MainRuns(s) && k < |s.states| && s.states[k] == Zombie && Kills(0) !in es
    ensures MainRuns(Run(s, es)) && Run(s, es).states[k] == Zombie
    ensures Run(s, es).cur == k <==> k == s.cur && Yields !in es
    decreases |es|
  {
    if es != [] {
      var t := Step(s, es[0]);
      StepKeeps(s, es[0]);
      assert MainRuns(t);
      if es[0] == Yields {
        if k == s.cur { ZombieLeaves(s); }
        assert t.cur != k && t.states[k] == Zombie;
      }
      ZombieNeverRuns(t, es[1..], k);
    }
  }

  // ---- bounded waiting ----

  function Count(es: seq<Event>, e: Event): nat
    decreases |es|
  {
    if es == [] then 0 else (if es[0] == e then 1 else 0) + Count(es[1..], e)
  }

  /** A yield brings the current task closer to every ready task, without passing it. */
  lemma YieldCloser(s: Sched, k: nat)
    requires Ok(s) && k < |s.states| && s.states[k] == Ready && k != s.cur
    ensures var t := Yield(s); t.cur == k || (t.states[k] == Ready && Dist(t, k) < Dist(s, k))
  {
    var n, d := |s.states|, Dist(s, k);
    var h := NextHop(s, 1);
    assert Hop(s.cur, d, n) == k;
    assert h <= d;
  }

  lemma CreateFarther(s: Sched, k: nat)
    requires Ok(s) && k < |s.states|
    ensures Dist(Step(s, Creates), k) <= Dist(s, k) + 1
  {
  }

  /** Task k is current at some point of the run. */
  ghost predicate Gets(s: Sched, es: seq<Event>, k: nat)
    requires Ok(s)
  {
    exists i: nat :: i <= |es| && Run(s, es[..i]).cur == k
  }

  /**
   * A ready task that nobody kills runs once there were as many yields as its hop
   * distance, plus one for each task created meanwhile.
   */
  lemma {:induction false} BoundedWait(s: Sched, es: seq<Event>, k: nat)
    requires Ok(s) && k < |s.states| && s.states[k] == Ready && k != s.cur
    requires Kills(k) !in es && Count(es, Yields) >= Dist(s, k) + Count(es, Creates)
    ensures Gets(s, es, k)
    decreases |es|
  {
    if es != [] {
      var e, t, rest := es[0], Step(s, es[0]), es[1..];
      StepKeeps(s, e);
      if t.cur == k {
        assert es[..1] == [e] && es[..1][1..] == [];
        assert Run(s, es[..1]) == t;
      } else {
        match e {
          case Yields => YieldCloser(s, k);
          case Creates => CreateFarther(s, k);
          case Kills(j) => assert j != k;
        }
        BoundedWait(t, rest, k);
        var i: nat :| i <= |rest| && Run(t, rest[..i]).cur == k;
        assert es[..i + 1][0] == e && es[..i + 1][1..] == rest[..i];
        assert Run(s, es[..i + 1]).cur == k;
      }
    }
  }

  // ---- the linked list ----

  class Task {
    const id: nat
    var state: State
    var next: Task?

    constructor (n: nat, s: State)
      ensures id == n && state == s && next == null
    {
      id, state, next := n, s, null;
    }
  }

  function After(i: nat, n: nat): nat
    requires i < n
  {
    if i + 1 == n then 0 else i + 1
  }

  ghost predicate Linked(ring: seq<Task>)
    reads ring
  {
    && (forall i, j :: 0 <= i < j < |ring| ==> ring[i] != ring[j])
    && (forall i: nat :: i < |ring| ==> ring[i].next == ring[After(i, |ring|)])
  }

  /** Tasks have distinct ids, all handed out already. */
  ghost predicate Numbered(ring: seq<Task>, nextId: nat) {
    && (forall i, j :: 0 <= i < j < |ring| ==> ring[i].id != ring[j].id)
    && (forall i :: 0 <= i < |ring| ==> ring[i].id < nextId)
  }

  class Scheduler {
    var current: Task
    var head: Task
    var nextId: nat
    /** The tasks in list order, the main task first. */
    ghost var ring: seq<Task>
    ghost var cur: nat

    ghost predicate Valid()
      reads this, ring
    {
      && cur < |ring| && ring[cur] == current && ring[0] == head && Linked(ring)
      && Numbered(ring, nextId) && Ok(Abs())
    }

    ghost function Abs(): Sched
      reads this, ring
    {
      Sched(seq(|ring|, i requires 0 <= i < |ring| reads this, ring => ring[i].state), cur)
    }

    /** tasking_init (kernel/task.c:30-42) */
    constructor ()
      ensures Valid() && fresh(ring) && Abs() == Sched([Running], 0)
    {
      var main := new Task(1, Running);
      current, head, nextId, ring, cur := main, main, 2, [main], 0;
      new;
      main.next := main;
    }

    /** The list walk of task_create (kernel/task.c:73-76) */
    method Tail() returns (tail: Task)
      requires Valid()
      ensures tail == ring[|ring| - 1]
    {
      hide Ok;
      tail := head;
      ghost var k := 0;
      LinkAt(ring, 0);
      while tail.next != head
        invariant 0 <= k < |ring| && tail == ring[k] && tail.next == ring[After(k, |ring|)]
        decreases |ring| - k
      {
        tail := tail.next;
        k := k + 1;
        LinkAt(ring, k);
      }
    }

    /** task_create (kernel/task.c:44-80), once memory was found: the new task goes to the end of the list */
    method Create() returns (task: Task)
      requires Valid()
      modifies this, ring
      ensures Valid() && fresh(task) && ring == old(ring) + [task] && task.id == old(nextId)
              && nextId == old(nextId) + 1
      ensures Abs() == Step(old(Abs()), Creates)
    {
      hide Ok;
      ghost var s, tasks := Abs(), ring;
      StepKeeps(s, Creates);
      var tail := Tail();
      task := new Task(nextId, Ready);
      nextId := nextId + 1;
      tail.next := task;
      task.next := head;
      ring := ring + [task];
      forall i: nat | i < |ring| ensures ring[i].next == ring[After(i, |ring|)] {
        if i < |tasks| - 1 {
          assert old(tasks[i].next == tasks[After(i, |tasks|)]);
        }
      }
      assert Abs().states == s.states + [Ready];
    }

    /** next_ready_task (kernel/task.c:82-92) */
    method NextReady() returns (candidate: Task, ghost h: nat)
      requires Valid()
      ensures h == NextHop(Abs(), 1) && 1 <= h <= |ring|
              && candidate == ring[if h == |ring| then cur else Hop(cur, h, |ring|)]
    {
      assert ring[cur].next == ring[After(cur, |ring|)];
      candidate := current.next;
      h := 1;
      ghost var s := Abs();
      while candidate != current
        invariant 1 <= h <= |ring| && candidate == ring[Hop(cur, h, |ring|)] && NextHop(s, h) == NextHop(s, 1)
        decreases |ring| - h
      {
        ghost var i := Hop(cur, h, |ring|);
        assert s.states[i] == candidate.state;
        if candidate.state == Ready || candidate.state == Running {
          return;
        }
        assert ring[i].next == ring[After(i, |ring|)];
        candidate := candidate.next;
        h := h + 1;
      }
      HomeAgain(cur, h, |ring|);
    }

    /** task_yield (kernel/task.c:94-107) */
    method YieldNow()
      requires Valid()
      modifies this, ring
      ensures Valid() && ring == old(ring) && Abs() == Step(old(Abs()), Yields)
      ensures head == old(head) && nextId == old(nextId)
    {
      hide Ok, Numbered, Yield, Hop;
      var prev := current;
      ghost var s := Abs();
      var next;
      ghost var h;
      next, h := NextReady();
      if next == prev {
        RingHop(ring, cur, h);
        YieldNone(s);
        return;
      }
      ghost var j := Hop(cur, h, |ring|);
      YieldIs(s, h);
      StepKeeps(s, Yields);
      if prev.state == Running {
        SetState(prev, cur, Ready);
      }
      SetState(next, j, Running);
      current := next;
      cur := j;
      assert Abs().states == Yield(s).states;
    }

    /** Writing one task's state field. */
    method SetState(task: Task, ghost i: nat, state: State)
      requires i < |ring| && ring[i] == task && Linked(ring)
      modifies task`state
      ensures Linked(ring) && task.state == state
      ensures Abs() == old(Abs()).(states := old(Abs()).states[i := state])
    {
      task.state := state;
    }

    /** task_exit (kernel/task.c:109-116) up to the switch */
    method Exit()
      requires Valid()
      modifies this, ring
      ensures Valid() && ring == old(ring) && Abs() == Step(Step(old(Abs()), Kills(old(cur))), Yields)
      ensures old(current).state == Zombie
      ensures old(MainRuns(Abs()) && cur != 0) ==> current != old(current) && MainRuns(Abs())
    {
      hide Ok;
      ghost var s := Step(Abs(), Kills(cur));
      StepKeeps(Abs(), Kills(cur));
      SetState(current, cur, Zombie);
      YieldNow();
      GoneAfter(s, old(cur));
      assert Abs().states[old(cur)] == ring[old(cur)].state;
    }

    /** task_kill (kernel/task.c:145-156): the one with that id, unless it is the main one */
    method Kill(id: nat) returns (ok: bool)
      requires Valid()
      modifies ring
      ensures Valid() && (ok <==> exists j :: 1 <= j < |ring| && ring[j].id == id)
      ensures ok ==> exists j :: 1 <= j < |ring| && ring[j].id == id && Abs() == Step(old(Abs()), Kills(j))
      ensures !ok ==> Abs() == old(Abs())
    {
      hide Ok;
      ghost var s := Abs();
      var task := head;
      ghost var k := 0;
      while true
        invariant 0 <= k < |ring| && task == ring[k] && Valid() && Abs() == s
        invariant forall j :: 1 <= j < k ==> ring[j].id != id
        decreases |ring| - k
      {
        if task.id == id && task != head {
          StepKeeps(s, Kills(k));
          SetState(task, k, Zombie);
          return true;
        }
        assert ring[k].next == ring[After(k, |ring|)];
        task := task.next;
        if task == head {
          return false;
        }
        k := k + 1;
      }
    }
  }

  lemma GoneAfter(s: Sched, k: nat)
    requires Ok(s) && k == s.cur && s.states[k] == Zombie
    ensures k < |Yield(s).states| && Yield(s).states[k] == Zombie
    ensures MainRuns(s) ==> MainRuns(Yield(s)) && Yield(s).cur != k
  {
    if MainRuns(s) { ZombieLeaves(s); }
  }

  lemma LinkAt(ring: seq<Task>, i: nat)
    requires Linked(ring) && i < |ring|
    ensures ring[i].next == ring[After(i, |ring|)]
  {
  }

  lemma HomeAgain(cur: nat, h: nat, n: nat)
    requires cur < n && 1 <= h <= n && Hop(cur, h, n) == cur
    ensures h == n
  {
  }

  lemma RingHop(ring: seq<Task>, cur: nat, h: nat)
    requires Linked(ring) && cur < |ring| && 1 <= h <= |ring|
             && ring[if h == |ring| then cur else Hop(cur, h, |ring|)] == ring[cur]
    ensures h == |ring|
  {
  }

  lemma YieldNone(s: Sched)
    requires s.cur < |s.states| && NextHop(s, 1) == |s.states|
    ensures Yield(s) == s
  {
  }

  lemma YieldIs(s: Sched, h: nat)
    requires s.cur < |s.states| && h == NextHop(s, 1) && h < |s.states|
    ensures var j := Hop(s.cur, h, |s.states|);
            && Yield(s).cur == j && |Yield(s).states| == |s.states|
            && forall i :: 0 <= i < |s.states| ==>
                 Yield(s).states[i] == if i == j then Running else if i == s.cur && s.states[i] == Running then Ready
                   else s.states[i]
  {
  }
}
