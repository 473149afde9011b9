/**
  A pool of workers that share one task index.

  Each worker takes the next index, awaits the iterator on that task, stores the result, and
  takes the next one; an iterator that throws ends its worker.
 */
module WorkerPool {
  import opened Arithmetic
  import opened Wrappers

  datatype Worker =
    | Ready                  // at the loop condition
    | Running(index: nat)    // awaiting the iterator
    | Exited                 // out of the loop
    | Failed(index: nat)     // the iterator threw

  datatype State<U> = State(nextIndex: nat, workers: seq<Worker>, results: seq<Option<U>>)

  datatype Event = Continue(worker: nat) | Settles(worker: nat, ok: bool)

  /** `Array.from` makes no worker for a length below one. */
  function WorkerCount(tasks: nat, concurrency: int): nat {
    if concurrency < 0 then 0 else Min(concurrency, tasks)
  }

  function Initial<U>(tasks: nat, concurrency: int): State<U> {
    State(0, seq(WorkerCount(tasks, concurrency), _ => Ready), seq(tasks, _ => None))
  }

  function Step<T, U>(tasks: seq<T>, f: T -> U, s: State<U>, e: Event): State<U>
    requires |s.results| == |tasks|
  {
    var w := e.worker;
    if w >= |s.workers| then s
    else if e.Continue? then
      if !s.workers[w].Ready? then s
      else if s.nextIndex < |tasks| then
        s.(workers := s.workers[w := Running(s.nextIndex)], nextIndex := s.nextIndex + 1)
      else s.(workers := s.workers[w := Exited])
    else if s.workers[w].Running? && s.workers[w].index < |tasks| then
      var i := s.workers[w].index;
      if e.ok then s.(workers := s.workers[w := Ready], results := s.results[i := Some(f(tasks[i]))])
      else s.(workers := s.workers[w := Failed(i)])
    else s
  }

  class Pool<T, U> {
    const tasks: seq<T>
    const perform: T -> U
    var nextIndex: nat
    var workers: seq<Worker>
    var results: array<Option<U>>

    ghost function View(): State<U>
      reads this, results
    {
      State(nextIndex, workers, results[..])
    }

    constructor (tasks: seq<T>, concurrency: int, perform: T -> U)
      ensures View() == Initial(|tasks|, concurrency) && this.tasks == tasks && this.perform == perform
      ensures fresh(results)
    {
      this.tasks, this.perform := tasks, perform;
      nextIndex := 0;
      workers := seq(WorkerCount(|tasks|, concurrency), _ => Ready);
      results := new Option<U>[|tasks|](_ => None);
    }

    /** A worker runs up to its next await, or out of the loop. */
    method ContinueWorker(w: nat)
      requires results.Length == |tasks|
      modifies this`nextIndex, this`workers
      ensures View() == Step(tasks, perform, old(View()), Continue(w))
    {
      if w >= |workers| || !workers[w].Ready? { return; }
      if nextIndex < |tasks| {
        workers := workers[w := Running(nextIndex)];
        nextIndex := nextIndex + 1;
      } else {
        workers := workers[w := Exited];
      }
    }

    method SettleIterator(w: nat, ok: bool)
      requires results.Length == |tasks|
      modifies this`workers, results
      ensures View() == Step(tasks, perform, old(View()), Settles(w, ok))
    {
      if w >= |workers| || !workers[w].Running? || workers[w].index >= |tasks| { return; }
      var index := workers[w].index;
      if ok {
        results[index] := Some(perform(tasks[index]));
        workers := workers[w := Ready];
      } else {
        workers := workers[w := Failed(index)];
      }
    }
  }

  // ---------------------------------------------------------------- every run

  function StateAt<T, U>(tasks: seq<T>, f: T -> U, concurrency: int, es: seq<Event>, n: nat): (s: State<U>)
    requires n <= |es|
    ensures |s.results| == |tasks| && |s.workers| == WorkerCount(|tasks|, concurrency)
  {
    if n == 0 then Initial(|tasks|, concurrency)
    else Step(tasks, f, StateAt(tasks, f, concurrency, es, n - 1), es[n - 1])
  }

  predicate Has(w: Worker, i: nat) { (w.Running? || w.Failed?) && w.index == i }

  /** Task `i` is not yet taken, or in the hands of exactly one worker, or done with the right result. */
  ghost predicate TaskOk<T, U>(tasks: seq<T>, f: T -> U, s: State<U>, i: nat)
    requires i < |tasks| == |s.results|
  {
    && (forall v, w :: 0 <= v < |s.workers| && 0 <= w < |s.workers| && Has(s.workers[v], i) && Has(s.workers[w], i) ==>
          v == w)
    && (s.results[i].Some? ==> s.results[i].value == f(tasks[i]))
    && (i >= s.nextIndex <==> s.results[i].None? && forall w :: 0 <= w < |s.workers| ==> !Has(s.workers[w], i))
    && (s.results[i].Some? ==> forall w :: 0 <= w < |s.workers| ==> !Has(s.workers[w], i))
  }

  ghost predicate Inv<T, U>(tasks: seq<T>, f: T -> U, s: State<U>) {
    && |s.results| == |tasks| && s.nextIndex <= |tasks|
    && (forall i :: 0 <= i < |tasks| ==> TaskOk(tasks, f, s, i))
    && (forall w :: 0 <= w < |s.workers| && s.workers[w].Exited? ==> s.nextIndex == |tasks|)
    && (forall w :: 0 <= w < |s.workers| && s.workers[w].Running? ==> s.workers[w].index < s.nextIndex)
  }

  lemma TaskStays<T, U>(tasks: seq<T>, f: T -> U, s: State<U>, e: Event, i: nat)
    requires Inv(tasks, f, s) && i < |tasks|
    ensures TaskOk(tasks, f, Step(tasks, f, s, e), i)
  {
    assert TaskOk(tasks, f, s, i);
    var t, w := Step(tasks, f, s, e), e.worker;
    if w < |s.workers| && t != s {
      if e.Continue? && s.nextIndex < |tasks| {
        assert TaskOk(tasks, f, s, s.nextIndex);
        assert Has(t.workers[w], s.nextIndex);
      } else if e.Settles? {
        assert Has(s.workers[w], s.workers[w].index);
        if !e.ok { assert Has(t.workers[w], s.workers[w].index); }
      }
      assert forall v :: 0 <= v < |s.workers| && v != w ==> t.workers[v] == s.workers[v];
    }
  }

  lemma {:induction false} ReachableInv<T, U>(tasks: seq<T>, f: T -> U, concurrency: int, es: seq<Event>, n: nat)
    requires n <= |es|
    ensures Inv(tasks, f, StateAt(tasks, f, concurrency, es, n))
  {
    if n > 0 {
      ReachableInv(tasks, f, concurrency, es, n - 1);
      var s := StateAt(tasks, f, concurrency, es, n - 1);
      var t := StateAt(tasks, f, concurrency, es, n);
      forall i | 0 <= i < |tasks| ensures TaskOk(tasks, f, t, i) {
        TaskStays(tasks, f, s, es[n - 1], i);
      }
    }
  }

  predicate AllExited<U>(s: State<U>) { forall w :: 0 <= w < |s.workers| ==> s.workers[w].Exited? }

  /** In every interleaving each result is the iterator's value on its own task, and no task is in two hands. */
  lemma ResultsAreInPlace<T, U>(tasks: seq<T>, f: T -> U, concurrency: int, es: seq<Event>, n: nat, i: nat)
    requires n <= |es| && i < |tasks|
    ensures TaskOk(tasks, f, StateAt(tasks, f, concurrency, es, n), i)
  {
    ReachableInv(tasks, f, concurrency, es, n);
  }

  /** When all workers have left, every task is done, exactly if there was a worker at all or no task. */
  lemma PoolCompletesUnlessEmpty<T, U>(tasks: seq<T>, f: T -> U, concurrency: int, es: seq<Event>, n: nat)
    requires n <= |es| && AllExited(StateAt(tasks, f, concurrency, es, n))
    ensures (forall i :: 0 <= i < |tasks| ==>
               StateAt(tasks, f, concurrency, es, n).results[i] == Some(f(tasks[i]))) <==>
            concurrency >= 1 || tasks == []
  {
    var s := StateAt(tasks, f, concurrency, es, n);
    ReachableInv(tasks, f, concurrency, es, n);
    if tasks != [] {
      if concurrency >= 1 {
        assert s.workers[0].Exited?;
      } else {
        NoWorkerNoResult(tasks, f, concurrency, es, n, 0);
      }
      forall i | 0 <= i < |tasks| && concurrency >= 1 ensures s.results[i] == Some(f(tasks[i])) {
        assert TaskOk(tasks, f, s, i);
      }
    }
  }

  lemma {:induction false} NoWorkerNoResult<T, U>(tasks: seq<T>, f: T -> U, concurrency: int, es: seq<Event>,
                                                   n: nat, i: nat)
    requires n <= |es| && concurrency < 1 && i < |tasks|
    ensures StateAt(tasks, f, concurrency, es, n).results[i].None?
  {
    if n > 0 { NoWorkerNoResult(tasks, f, concurrency, es, n - 1, i); }
  }

  // ---------------------------------------------------------------- what each worker does next

  /** A worker goes on by its phase: it takes the next task or leaves, and keeps at a task until that settles. */
  ghost predicate WorkerMoves<T, U>(tasks: seq<T>, f: T -> U, s: State<U>, e: Event, t: State<U>, w: nat)
    requires w < |s.workers| && |s.results| == |tasks|
  {
    var mine := s.workers[w];
    && |t.workers| == |s.workers| && |t.results| == |s.results|
    && t.workers[w] ==
         (match mine
          case Ready =>
            if e != Continue(w) then Ready else if s.nextIndex < |tasks| then Running(s.nextIndex) else Exited
          case Running(i) =>
            if e == Settles(w, true) then Ready else if e == Settles(w, false) then Failed(i) else mine
          case _ => mine)
    && (mine.Running? && e == Settles(w, true) && mine.index < |tasks| ==>
          t.results == s.results[mine.index := Some(f(tasks[mine.index]))])
    && (mine.Ready? && e == Continue(w) ==>
          t.results == s.results && t.nextIndex == s.nextIndex + if s.nextIndex < |tasks| then 1 else 0)
  }

  lemma WorkersMoveByPhase<T, U>(tasks: seq<T>, f: T -> U, concurrency: int, es: seq<Event>, n: nat, w: nat)
    requires n < |es| && w < |StateAt(tasks, f, concurrency, es, n).workers|
    ensures WorkerMoves(tasks, f, StateAt(tasks, f, concurrency, es, n), es[n],
                        StateAt(tasks, f, concurrency, es, n + 1), w)
  {
    ReachableInv(tasks, f, concurrency, es, n);
    var s := StateAt(tasks, f, concurrency, es, n);
    assert StateAt(tasks, f, concurrency, es, n + 1) == Step(tasks, f, s, es[n]);
  }

  /** One worker for every unit of concurrency, but no more than there are tasks. */
  lemma WorkersAreLimited<T, U>(tasks: seq<T>, f: T -> U, concurrency: int, es: seq<Event>, n: nat)
    requires n <= |es|
    ensures var workers := |StateAt(tasks, f, concurrency, es, n).workers|;
            && (concurrency >= |tasks| ==> workers == |tasks|)
            && (0 <= concurrency <= |tasks| ==> workers == concurrency)
            && (concurrency <= 0 ==> workers == 0)
  {
  }
}
