// The housekeeping queue (housekeeping.c): one pass of its thread catches up with everything due.
module Housekeeping {
  import opened Bits

  // interval <= 0 marks a one-time task.
  datatype Task = Task(next: int, interval: int, no: int)

  // A callback that was run: its scheduled time and its task number.
  datatype Call = Call(time: int, no: int)

  const TIME_MAX := 0x7FFF_FFFF_FFFF_FFFF

  predicate Sorted(q: seq<Task>) { forall i, j :: 0 <= i < j < |q| ==> q[i].next <= q[j].next }

  // How often a task runs in a pass at time now.
  function Runs(t: Task, now: int): nat {
    if t.next > now then 0
    else if t.interval <= 0 then 1
    else (now - t.next) / t.interval + 1
  }

  // What becomes of it: nothing, or its first time after now, if the clock can hold that.
  function After(t: Task, now: int): multiset<Task> {
    if t.next > now then multiset{t}
    else if t.interval <= 0 then multiset{}
    else
      var n := t.next + t.interval * ((now - t.next) / t.interval + 1);
      if n <= TIME_MAX then multiset{t.(next := n)} else multiset{}
  }

  // Its call number k, and its first n calls, each at its scheduled time.
  function CallAt(t: Task, k: nat): Call { Call(t.next + k * t.interval, t.no) }

  function Calls(t: Task, n: nat): multiset<Call> {
    if n == 0 then multiset{} else Calls(t, n - 1) + multiset{CallAt(t, n - 1)}
  }

  // The calls due at time now.
  function Due(t: Task, now: int): multiset<Call> { Calls(t, Runs(t, now)) }

  function DueAll(q: seq<Task>, now: int): multiset<Call> {
    if q == [] then multiset{} else Due(q[0], now) + DueAll(q[1..], now)
  }

  function TotalRuns(q: seq<Task>, now: int): nat {
    if q == [] then 0 else Runs(q[0], now) + TotalRuns(q[1..], now)
  }

  function AfterAll(q: seq<Task>, now: int): multiset<Task> {
    if q == [] then multiset{} else After(q[0], now) + AfterAll(q[1..], now)
  }

  // ---------------------------------------------------------------- sums

  lemma {:induction false} Concat(a: seq<Task>, b: seq<Task>, now: int)
    ensures DueAll(a + b, now) == DueAll(a, now) + DueAll(b, now)
    ensures TotalRuns(a + b, now) == TotalRuns(a, now) + TotalRuns(b, now)
  {
    hide Runs, Due;
    if a == [] {
      assert a + b == b;
    } else {
      Concat(a[1..], b, now);
      assert (a + b)[1..] == a[1..] + b;
      Regroup(Due(a[0], now), DueAll(a[1..], now), DueAll(b, now));
    }
  }

  lemma {:induction false} ConcatAfter(a: seq<Task>, b: seq<Task>, now: int)
    ensures AfterAll(a + b, now) == AfterAll(a, now) + AfterAll(b, now)
  {
    hide After;
    if a == [] {
      assert a + b == b;
    } else {
      ConcatAfter(a[1..], b, now);
      assert (a + b)[1..] == a[1..] + b;
      Regroup(After(a[0], now), AfterAll(a[1..], now), AfterAll(b, now));
    }
  }

  lemma Inserted(q: seq<Task>, i: nat, t: Task, now: int)
    requires i <= |q|
    ensures var n := q[..i] + [t] + q[i..];
      && DueAll(n, now) == DueAll(q, now) + Due(t, now)
      && TotalRuns(n, now) == TotalRuns(q, now) + Runs(t, now)
      && AfterAll(n, now) == AfterAll(q, now) + After(t, now)
  {
    hide Runs, After, Due;
    assert q == q[..i] + q[i..];
    Concat(q[..i], q[i..], now);
    Concat(q[..i], [t], now);
    Concat(q[..i] + [t], q[i..], now);
    ConcatAfter(q[..i], q[i..], now);
    ConcatAfter(q[..i], [t], now);
    ConcatAfter(q[..i] + [t], q[i..], now);
    assert [t][1..] == [];
  }

  // Running a repeating task once leaves one run less and the same outcome.
  lemma Advance(t: Task, now: int)
    requires t.next <= now <= TIME_MAX && t.interval > 0
    ensures Runs(t, now) == 1 + Runs(t.(next := t.next + t.interval), now)
    ensures Due(t, now) == multiset{Call(t.next, t.no)} + Due(t.(next := t.next + t.interval), now)
    ensures t.next <= TIME_MAX - t.interval ==> After(t, now) == After(t.(next := t.next + t.interval), now)
    ensures t.next > TIME_MAX - t.interval ==> Runs(t, now) == 1 && After(t, now) == multiset{}
  {
    hide Calls;
    OneRunLess(t, now);
    FirstCall(t, Runs(t.(next := t.next + t.interval), now));
  }

  lemma OneRunLess(t: Task, now: int)
    requires t.next <= now <= TIME_MAX && t.interval > 0
    ensures Runs(t, now) == 1 + Runs(t.(next := t.next + t.interval), now)
    ensures t.next <= TIME_MAX - t.interval ==> After(t, now) == After(t.(next := t.next + t.interval), now)
    ensures t.next > TIME_MAX - t.interval ==> Runs(t, now) == 1 && After(t, now) == multiset{}
  {
    var d, x := t.interval, now - t.next;
    if x < d {
      DivModUnique(x, d, 0, x);
      assert d * (0 + 1) == d;
    } else {
      var q, r := (x - d) / d, (x - d) % d;
      assert x - d == d * q + r;
      assert d * (q + 1) == d * q + d;
      assert d * (q + 2) == d * q + 2 * d;
      DivModUnique(x, d, q + 1, r);
    }
  }

  lemma NextCall(t: Task, k: nat)
    ensures CallAt(t, 0) == Call(t.next, t.no) && CallAt(t, k + 1) == CallAt(t.(next := t.next + t.interval), k)
  {
    assert (k + 1) * t.interval == t.interval + k * t.interval;
  }

  // The calls after the first are those of a task moved on by the interval.
  lemma {:induction false} FirstCall(t: Task, n: nat)
    ensures Calls(t, n + 1) == multiset{Call(t.next, t.no)} + Calls(t.(next := t.next + t.interval), n)
  {
    hide CallAt;
    NextCall(t, 0);
    if n > 0 {
      FirstCall(t, n - 1);
      NextCall(t, n - 1);
      Regroup(multiset{Call(t.next, t.no)}, Calls(t.(next := t.next + t.interval), n - 1), multiset{CallAt(t, n)});
    }
  }

  lemma Moved<T>(a: multiset<T>, b: multiset<T>, c: multiset<T>, d: multiset<T>)
    ensures a + ((b + c) + d) == ((a + b) + d) + c
  {
  }

  lemma Regroup<T>(a: multiset<T>, b: multiset<T>, c: multiset<T>)
    ensures (a + b) + c == a + (b + c)
  {
  }

  // ---------------------------------------------------------------- the queue

  // array_sorted_insert.
  method SortedInsert(q: seq<Task>, t: Task) returns (r: seq<Task>, i: nat)
    requires Sorted(q)
    ensures Sorted(r) && i <= |q| && r == q[..i] + [t] + q[i..]
  {
    i := 0;
    while i < |q| && q[i].next <= t.next
      invariant i <= |q| && forall j :: 0 <= j < i ==> q[j].next <= t.next
    {
      i := i + 1;
    }
    r := q[..i] + [t] + q[i..];
  }

  predicate Ordered(log: seq<Call>) { forall i, j :: 0 <= i < j < |log| ==> log[i].time <= log[j].time }

  class Housekeeper {
    var queue: seq<Task>
    var counter: int

    constructor ()
      ensures queue == [] && counter == 0
    {
      queue, counter := [], 0;
    }

    // hk_add_repeated.  A time of zero or less goes to the front, which keeps the queue sorted if and
    // only if nothing earlier is queued.
    method Add(time: int, interval: int) returns (no: int)
      requires Sorted(queue)
      modifies this
      ensures no == old(counter) && counter == no + 1
      ensures exists i :: 0 <= i <= |old(queue)| && queue == old(queue)[..i] + [Task(time, interval, no)] + old(queue)[i..]
      ensures Sorted(queue) <==> time > 0 || old(queue) == [] || time <= old(queue)[0].next
    {
      no := counter;
      counter := counter + 1;
      var t := Task(time, interval, no);
      if time <= 0 {
        ghost var q := queue;
        queue := [t] + queue;
        assert queue == q[..0] + [t] + q[0..];
        if q != [] && q[0].next < time {
          assert queue[0].next > queue[1].next;
        }
      } else {
        ghost var q := queue;
        var i;
        queue, i := SortedInsert(queue, t);
        assert queue == q[..i] + [t] + q[i..];
      }
    }

    // The inner loop of hk_thread_func: nothing due remains, calls come in scheduled order, every task
    // runs exactly at the times it was due, and the queue is left with what follows.
    method CatchUp(now: int) returns (log: seq<Call>)
      requires Sorted(queue) && now <= TIME_MAX
      modifies this`queue
      ensures Sorted(queue) && forall i :: 0 <= i < |queue| ==> queue[i].next > now
      ensures Ordered(log) && forall i :: 0 <= i < |log| ==> log[i].time <= now
      ensures multiset(log) == DueAll(old(queue), now)
      ensures multiset(queue) == AfterAll(old(queue), now)
    {
      hide Runs, After, Due, DueAll, TotalRuns, AfterAll, Progress, Pending, InOrder, Ordered, Sorted;
      log := [];
      ghost var q0 := queue;
      Begin(queue, now);
      while queue != [] && queue[0].next <= now
        invariant Sorted(queue) && Progress(q0, queue, log, now)
        decreases TotalRuns(queue, now)
      {
        var call := RunFirst(now, q0, log);
        log := log + [call];
      }
      Finished(q0, queue, log, now);
    }

    // The body of that loop.
    method RunFirst(now: int, ghost q0: seq<Task>, ghost log: seq<Call>) returns (call: Call)
      requires Sorted(queue) && Progress(q0, queue, log, now) && queue != [] && queue[0].next <= now <= TIME_MAX
      modifies this`queue
      ensures Sorted(queue) && Progress(q0, queue, log + [call], now)
      ensures TotalRuns(queue, now) < TotalRuns(old(queue), now)
    {
      hide Runs, After, Due, DueAll, TotalRuns, AfterAll, Progress, Pending, InOrder, Ordered, Sorted;
      var task := queue[0];
      Called(q0, queue, log, now);
      call := Call(task.next, task.no);
      queue := queue[1..];
      if task.interval > 0 && task.next <= TIME_MAX - task.interval {
        task := task.(next := task.next + task.interval);
        ghost var rest := queue;
        var i;
        queue, i := SortedInsert(queue, task);
        Requeued(q0, rest, log + [call], now, task, i, queue);
      }
    }
  }

  // Two tasks for the past, the later one added last: it goes first.
  method AddUnsorted() returns (hk: Housekeeper)
    ensures fresh(hk) && |hk.queue| == 2 && hk.queue[0].next == 0 && hk.queue[1].next == -1 && !Sorted(hk.queue)
  {
    hk := new Housekeeper();
    var first := hk.Add(-1, 0);
    assert hk.queue == [Task(-1, 0, first)];
    var second := hk.Add(0, 0);
  }

  // Calls are made in order, and before everything that is queued.
  ghost predicate InOrder(q: seq<Task>, log: seq<Call>, now: int) {
    && Ordered(log) && (forall i :: 0 <= i < |log| ==> log[i].time <= now)
    && (forall i, j :: 0 <= i < |log| && 0 <= j < |q| ==> log[i].time <= q[j].next)
  }

  // Calls made and calls still to come add up, and so does the outcome.
  ghost predicate Progress(q0: seq<Task>, q: seq<Task>, log: seq<Call>, now: int) {
    && InOrder(q, log, now)
    && multiset(log) + DueAll(q, now) == DueAll(q0, now)
    && AfterAll(q, now) == AfterAll(q0, now)
  }

  // The same, with task t taken out and called but not put back.
  ghost predicate Pending(q0: seq<Task>, q: seq<Task>, log: seq<Call>, now: int, t: Task) {
    && InOrder(q, log, now) && (forall i :: 0 <= i < |log| ==> log[i].time <= t.next)
    && multiset(log) + DueAll(q, now) + Due(t, now) == DueAll(q0, now)
    && AfterAll(q, now) + After(t, now) == AfterAll(q0, now)
  }

  lemma Begin(q: seq<Task>, now: int)
    ensures Progress(q, q, [], now)
  {
  }

  // Taking out and calling the first task.  A repeating one is pending; another one is done.
  lemma Called(q0: seq<Task>, q: seq<Task>, log: seq<Call>, now: int)
    requires Sorted(q) && Progress(q0, q, log, now) && q != [] && q[0].next <= now <= TIME_MAX
    ensures Sorted(q[1..])
    ensures var t := q[0]; var l := log + [Call(t.next, t.no)];
      if t.interval > 0 && t.next <= TIME_MAX - t.interval
      then Pending(q0, q[1..], l, now, t.(next := t.next + t.interval))
           && TotalRuns(q, now) == TotalRuns(q[1..], now) + 1 + Runs(t.(next := t.next + t.interval), now)
      else Progress(q0, q[1..], l, now) && TotalRuns(q, now) == TotalRuns(q[1..], now) + 1
  {
    hide Runs, After, Due, InOrder, Sorted;
    CalledInOrder(q, log, now);
    var t := q[0];
    var l := log + [Call(t.next, t.no)];
    var c, later := multiset{Call(t.next, t.no)}, t.(next := t.next + t.interval);
    assert multiset(l) == multiset(log) + c;
    if t.interval > 0 && t.next <= TIME_MAX - t.interval {
      Advance(t, now);
      Moved(multiset(log), c, Due(later, now), DueAll(q[1..], now));
    } else {
      Last(t, now);
      Regroup(multiset(log), c, DueAll(q[1..], now));
    }
  }

  lemma CalledInOrder(q: seq<Task>, log: seq<Call>, now: int)
    requires Sorted(q) && InOrder(q, log, now) && q != [] && q[0].next <= now
    ensures Sorted(q[1..]) && InOrder(q[1..], log + [Call(q[0].next, q[0].no)], now)
    ensures forall i :: 0 <= i <= |log| ==> (log + [Call(q[0].next, q[0].no)])[i].time <= q[0].next
  {
  }

  lemma Requeued(q0: seq<Task>, q: seq<Task>, log: seq<Call>, now: int, t: Task, i: nat, n: seq<Task>)
    requires Pending(q0, q, log, now, t) && i <= |q| && n == q[..i] + [t] + q[i..]
    ensures Progress(q0, n, log, now) && TotalRuns(n, now) == TotalRuns(q, now) + Runs(t, now)
  {
    hide Runs, After, Due, DueAll, TotalRuns, AfterAll;
    Inserted(q, i, t, now);
    forall x, j | 0 <= x < |log| && 0 <= j < |n| ensures log[x].time <= n[j].next {
      if j > i {
        assert n[j] == q[j - 1];
      }
    }
  }

  lemma Finished(q0: seq<Task>, q: seq<Task>, log: seq<Call>, now: int)
    requires Sorted(q) && Progress(q0, q, log, now) && (q == [] || q[0].next > now)
    ensures Ordered(log) && forall i :: 0 <= i < |log| ==> log[i].time <= now
    ensures forall i :: 0 <= i < |q| ==> q[i].next > now
    ensures multiset(log) == DueAll(q0, now)
    ensures multiset(q) == AfterAll(q0, now)
  {
    hide Runs, After, Due, DueAll, AfterAll;
    NothingDue(q, now);
  }

  lemma Last(t: Task, now: int)
    requires t.next <= now <= TIME_MAX && (t.interval <= 0 || t.next > TIME_MAX - t.interval)
    ensures Runs(t, now) == 1 && After(t, now) == multiset{} && Due(t, now) == multiset{Call(t.next, t.no)}
  {
    if t.interval > 0 {
      Advance(t, now);
    }
    FirstCall(t, 0);
  }

  lemma {:induction false} NothingDue(q: seq<Task>, now: int)
    requires Sorted(q) && (q == [] || q[0].next > now)
    ensures AfterAll(q, now) == multiset(q) && DueAll(q, now) == multiset{}
    ensures forall i :: 0 <= i < |q| ==> q[i].next > now
  {
    if q != [] {
      NothingDue(q[1..], now);
      assert q == [q[0]] + q[1..];
    }
  }
}
