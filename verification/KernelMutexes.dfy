/** Mutexes as queue.c runs them on top of the scheduler: counts and holders updated in place, with
    the scheduler's priority inheritance called as the source calls it. */
module KernelMutexes {
  import opened TaskState
  import opened TaskSteps
  import opened TaskInvariant
  import opened TaskRuns
  import opened TaskKernel
  import opened Mutexes
  import opened MutexPriorities

  class MutexKernel {
    const kernel: Kernel
    var mutexes: map<MutexId, Mutex>

    ghost function Snapshot(): System
      reads this, kernel
    {
      System(kernel.Snapshot(), mutexes)
    }

    ghost predicate Valid()
      reads this, kernel
    {
      Good(Snapshot())
    }

    /** No mutex yet, in a scheduler with any tasks that have not run. */
    constructor (kernel: Kernel)
      requires kernel.Valid() && Fresh(kernel.Snapshot())
      ensures this.kernel == kernel && Valid() && Snapshot() == System(kernel.Snapshot(), map[])
    {
      this.kernel := kernel;
      mutexes := map[];
      new;
      hide Good, Fresh;
      FreshIsGood(kernel.Snapshot());
    }

    /** The part of a receive that takes a mutex: pxMutexHolder is set from
        pvTaskIncrementMutexHeldCount. */
    method TakeFree(m: MutexId, calls: nat)
      requires kernel.Valid() && m in mutexes && mutexes[m].count > 0
      modifies this, kernel
      ensures kernel.Valid() && Snapshot() == Acquire(old(Snapshot()), m, calls)
    {
      hide Inv, DoTakeMutex;
      var mutex := mutexes[m];
      TakeMutexCurrent(kernel.Snapshot());
      kernel.IncrementMutexHeldCount();
      mutexes := mutexes[m := Mutex(mutex.recursive, mutex.count - 1, HeldBy(kernel.current), calls)];
    }

    /** prvCopyDataToQueue for a mutex */
    method GiveBack(m: MutexId)
      requires kernel.Valid() && m in mutexes
      requires mutexes[m].count == 0 && mutexes[m].holder.HeldBy? ==>
                 mutexes[m].holder.task == kernel.current && CallerReady(kernel.Snapshot())
      modifies this, kernel
      ensures kernel.Valid() && Snapshot() == Release(old(Snapshot()), m)
    {
      hide Inv, DoDisinherit, CallerReady;
      var mutex := mutexes[m];
      if mutex.count < 1 {
        match mutex.holder {
          case HeldBy(t) => kernel.PriorityDisinherit(t);
          case NoTask =>
        }
        mutexes := mutexes[m := Mutex(mutex.recursive, mutex.count + 1, NoTask, mutex.calls)];
      }
    }

    /** xQueueCreateMutex: an empty mutex is made, and given */
    method Create(m: MutexId, recursive: bool)
      requires Valid() && m !in mutexes
      modifies this, kernel
      ensures Valid() && Snapshot() == Made(old(Snapshot()), m, recursive)
    {
      hide BooksOk, Inv, DoDisinherit;
      ActionKeeps(Snapshot(), CreateMutex(m, recursive));
      mutexes := mutexes[m := Mutex(recursive, 0, NoTask, 0)];
      GiveBack(m);
    }

    /** A receive from a mutex, up to the blocking: taken, or the holder inherits the caller's priority */
    method TakeMutex(m: MutexId) returns (taken: bool)
      requires Valid() && m in mutexes && !mutexes[m].recursive
      modifies this, kernel
      ensures Valid() && taken == (old(mutexes)[m].count > 0)
      ensures Snapshot() == (if taken then Acquire(old(Snapshot()), m, 0) else Contended(old(Snapshot()), m))
      ensures taken ==> mutexes[m].holder == HeldBy(kernel.current) && mutexes[m].count == 0
      ensures !taken ==> Raised(old(Snapshot()), Snapshot(), m)
    {
      hide BooksOk, Inv, DoInherit, DoTakeMutex, Raised;
      MutexIsOk(Snapshot(), m);
      ContentionRaises(Snapshot(), m);
      TakeMutexCurrent(kernel.Snapshot());
      taken := mutexes[m].count > 0;
      ActionKeeps(Snapshot(), if taken then Take(m) else Contend(m));
      if taken {
        TakeFree(m, 0);
      } else {
        Boost(m);
      }
    }

    /** The holder of a mutex that is taken inherits the caller's priority, and the books still balance. */
    method Boost(m: MutexId)
      requires Valid() && m in mutexes && mutexes[m].count == 0
      modifies kernel
      ensures Valid() && Snapshot() == Contended(old(Snapshot()), m)
      ensures Raised(old(Snapshot()), Snapshot(), m)
    {
      hide BooksOk, Inv, DoInherit, Raised;
      ContentionRaises(Snapshot(), m);
      ActionKeeps(Snapshot(), Contend(m));
      match mutexes[m].holder {
        case HeldBy(t) => kernel.PriorityInherit(t);
        case NoTask =>
      }
    }

    method GiveMutex(m: MutexId)
      requires Valid() && m in mutexes && !mutexes[m].recursive
      requires mutexes[m].holder == NoTask
               || (mutexes[m].holder == HeldBy(kernel.current) && CallerReady(kernel.Snapshot()))
      modifies this, kernel
      ensures Valid() && Snapshot() == Release(old(Snapshot()), m)
      ensures if old(mutexes)[m].holder == NoTask then Snapshot() == old(Snapshot())
              else Returned(old(Snapshot()), Snapshot(), m, old(kernel.current))
    {
      hide BooksOk, Inv, DoDisinherit, CallerReady, Returned;
      MutexIsOk(Snapshot(), m);
      if mutexes[m].holder != NoTask { GivesBack(Snapshot(), m, mutexes[m].calls, kernel.current); }
      ActionKeeps(Snapshot(), Give(m));
      GiveBack(m);
    }

    /** xQueueTakeMutexRecursive, up to the blocking */
    method TakeRecursively(m: MutexId) returns (taken: bool)
      requires Valid() && m in mutexes && mutexes[m].recursive
      modifies this, kernel
      ensures Valid() && taken == (old(mutexes)[m].count > 0 || old(mutexes)[m].holder == HeldBy(old(kernel.current)))
      ensures Snapshot() == (if taken then TakenRecursively(old(Snapshot()), m) else Contended(old(Snapshot()), m))
      ensures taken ==> mutexes[m].holder == HeldBy(kernel.current) && mutexes[m].calls == old(mutexes)[m].calls + 1
      ensures !taken ==> Raised(old(Snapshot()), Snapshot(), m)
    {
      hide BooksOk, Inv, DoInherit, DoTakeMutex, Raised;
      ContentionRaises(Snapshot(), m);
      TakeMutexCurrent(kernel.Snapshot());
      var mutex := mutexes[m];
      taken := mutex.count > 0 || mutex.holder == HeldBy(kernel.current);
      ActionKeeps(Snapshot(), if taken then TakeRecursive(m) else Contend(m));
      if mutex.holder == HeldBy(kernel.current) {
        mutexes := mutexes[m := mutex.(calls := mutex.calls + 1)];
      } else if mutex.count > 0 {
        TakeFree(m, mutex.calls + 1);
      } else {
        Boost(m);
      }
    }

    /** xQueueGiveMutexRecursive: whether the caller held it */
    method GiveRecursively(m: MutexId) returns (held: bool)
      requires Valid() && m in mutexes && mutexes[m].recursive && CallerReady(kernel.Snapshot())
      modifies this, kernel
      ensures Valid() && held == (old(mutexes)[m].holder == HeldBy(old(kernel.current)))
      ensures Snapshot() == GivenRecursively(old(Snapshot()), m)
      ensures held ==> mutexes[m].calls == old(mutexes)[m].calls - 1
                       && (mutexes[m].count == 1 <==> old(mutexes)[m].calls == 1)
      ensures !held ==> mutexes == old(mutexes)
    {
      hide BooksOk, Inv, DoDisinherit, CallerReady;
      ActionKeeps(Snapshot(), GiveRecursive(m));
      MutexIsOk(Snapshot(), m);
      var mutex := mutexes[m];
      held := mutex.holder == HeldBy(kernel.current);
      if held {
        mutexes := mutexes[m := mutex.(calls := mutex.calls - 1)];
        if mutexes[m].calls == 0 {
          GiveBack(m);
        }
      }
    }
  }

  lemma TakeMutexCurrent(s: State)
    ensures DoTakeMutex(s).current == s.current
  {
  }
}
