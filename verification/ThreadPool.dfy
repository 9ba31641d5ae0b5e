/** ThreadPool as an object. Each method is one atomic action of one thread; a scheduler may call
    them in any order that the threads' positions allow. */
module ThreadPool {
  import opened PoolMachine

  class ThreadPool {
    var workers: seq<Worker>
    var tasks: seq<nat>
    var stop: bool
    var tasksSubmitted: nat
    var tasksCompleted: nat
    /** Where each call of enqueue, and the destructor, has got to. */
    var clients: seq<Client>
    var teardown: Teardown
    ghost var pushed: seq<nat>
    ghost var dequeued: seq<nat>
    ghost var executed: seq<nat>
    ghost var exitMark: nat

    ghost function State(): Pool
      reads this
    {
      Pool(workers, tasks, stop, tasksSubmitted, tasksCompleted, clients, teardown,
           pushed, dequeued, executed, exitMark)
    }

    /** Kept by every action, whatever the schedule. */
    ghost predicate Valid()
      reads this
    {
      PoolInv(State())
    }

    constructor (n: nat)
      ensures Valid() && State() == Init(n)
      ensures |workers| == n && forall w :: 0 <= w < n ==> workers[w] == Checking
    {
      workers := seq(n, _ => Checking);
      tasks, stop, tasksSubmitted, tasksCompleted := [], false, 0, 0;
      clients, teardown := [], Alive;
      pushed, dequeued, executed, exitMark := [], [], [], 0;
      new;
      InitHolds(n);
    }

    /** The worker's critical section: test the predicate, then sleep, exit or take a task. */
    method WaitAndTake(w: nat)
      requires Valid() && Enabled(State(), Check(w))
      modifies this
      ensures Valid() && State() == Do(old(State()), Check(w))
    {
      StepKeeps(State(), Check(w));
      if !(stop || tasks != []) {
        workers := workers[w := Asleep];
        return;
      }
      if stop && tasks == [] {
        workers := workers[w := Exited];
        exitMark := |pushed|;
        return;
      }
      var task := tasks[0];
      tasks := tasks[1..];
      workers := workers[w := Running(task)];
      dequeued := dequeued + [task];
    }

    method WakeSpuriously(w: nat)
      requires Valid() && Enabled(State(), Wake(w))
      modifies this
      ensures Valid() && State() == Do(old(State()), Wake(w))
    {
      StepKeeps(State(), Wake(w));
      workers := workers[w := Checking];
    }

    method RunTask(w: nat)
      requires Valid() && Enabled(State(), Finish(w))
      modifies this
      ensures Valid() && State() == Do(old(State()), Finish(w))
    {
      StepKeeps(State(), Finish(w));
      executed := executed + [workers[w].task];
      workers := workers[w := Finished];
    }

    method CountCompleted(w: nat)
      requires Valid() && Enabled(State(), CountDone(w))
      modifies this
      ensures Valid() && State() == Do(old(State()), CountDone(w))
    {
      StepKeeps(State(), CountDone(w));
      tasksCompleted := tasksCompleted + 1;
      workers := workers[w := Checking];
      assert State() == Do(old(State()), CountDone(w));
    }

    method BeginEnqueue() returns (c: nat)
      requires Valid()
      modifies this
      ensures Valid() && State() == Do(old(State()), NewClient) && c == |old(clients)|
    {
      StepKeeps(State(), NewClient);
      c := |clients|;
      clients := clients + [Idle];
    }

    method PushTask(c: nat)
      requires Valid() && Enabled(State(), Push(c))
      modifies this
      ensures Valid() && State() == Do(old(State()), Push(c))
    {
      StepKeeps(State(), Push(c));
      tasks := tasks + [c];
      clients := clients[c := Pushed];
      pushed := pushed + [c];
    }

    /** notify_one wakes some sleeper of the runtime's choosing, if there is one. */
    method Notify(c: nat) returns (w: nat)
      requires Valid() && c < |clients| && clients[c] == Pushed
      modifies this
      ensures Enabled(old(State()), NotifyOne(c, w))
      ensures Valid() && State() == Do(old(State()), NotifyOne(c, w))
    {
      w := 0;
      if AnyAsleep(workers) {
        w :| 0 <= w < |workers| && workers[w] == Asleep;
        StepKeeps(State(), NotifyOne(c, w));
        workers := workers[w := Checking];
      } else {
        StepKeeps(State(), NotifyOne(c, w));
      }
      clients := clients[c := Notified];
    }

    method CountSubmission(c: nat)
      requires Valid() && Enabled(State(), CountSubmitted(c))
      modifies this
      ensures Valid() && State() == Do(old(State()), CountSubmitted(c))
    {
      StepKeeps(State(), CountSubmitted(c));
      tasksSubmitted := tasksSubmitted + 1;
      clients := clients[c := Submitted];
    }

    method BeginDestroy()
      requires Valid() && Enabled(State(), SetStop)
      modifies this
      ensures Valid() && State() == Do(old(State()), SetStop)
    {
      StepKeeps(State(), SetStop);
      stop := true;
      teardown := Stopping;
    }

    method NotifyEverybody()
      requires Valid() && Enabled(State(), NotifyAll)
      modifies this
      ensures Valid() && State() == Do(old(State()), NotifyAll)
    {
      StepKeeps(State(), NotifyAll);
      workers := WakeAll(workers);
      teardown := Joining;
    }
  }
}
