/** bio.c: the shared fields of one job queue, and the two threads that change them between their calls to the
    mutex and the condition variable. */
module Bio {
  import opened BioModel

  class Queue {
    var mutex: Owner
    var jobs: seq<Node>
    var pending: nat
    var main: Main
    var worker: Worker
    ghost var created: seq<Job>
    ghost var ran: seq<Job>

    ghost function View(): State
      reads this
    {
      State(mutex, jobs, pending, main, worker, created, ran)
    }

    /** bioInit */
    constructor ()
      ensures View() == START && Inv(View())
    {
      mutex, jobs, pending, main, worker := Free, [], 0, Outside, Entering;
      created, ran := [], [];
    }

    /** A call to bioCreateBackgroundJob. */
    method Create(job: Job)
      requires main == Outside && Inv(View())
      modifies this
      ensures View() == Step(old(View()), Event.Create(job)) && Inv(View())
    {
      StepKeeps(View(), Event.Create(job));
      main := Creating(job);
    }

    /** A call to bioPendingJobsOfType. */
    method Ask()
      requires main == Outside && Inv(View())
      modifies this
      ensures View() == Step(old(View()), Event.Ask) && Inv(View())
    {
      StepKeeps(View(), Event.Ask);
      main := Asking;
    }

    /** The next step of the main thread. */
    method MainThread(address: nat)
      requires Inv(View())
      modifies this
      ensures View() == Step(old(View()), MainStep(address)) && Inv(View())
    {
      StepKeeps(View(), MainStep(address));
      hide Inv;
      match main
      case Outside =>
      case Creating(job) => if mutex == Free { mutex, main := MainHolds, Adding(job); }
      case Adding(job) =>
        if !InUse(jobs, address) {
          jobs := jobs + [Node(address, job)];
          created := created + [job];
          main := Counting;
        }
      case Counting =>
        pending := pending + 1;
        main := Signalling;
      case Signalling =>
        if worker == Asleep { worker := Entering; }
        main := Leaving;
      case Leaving => mutex, main := Free, Outside;
      case Asking => if mutex == Free { mutex, main := MainHolds, Reading; }
      case Reading => main := Answering(pending);
      case Answering(_) => mutex, main := Free, Outside;
    }

    /** The next step of the worker. */
    method WorkerThread()
      requires Inv(View())
      modifies this
      ensures View() == Step(old(View()), Event.WorkerStep) && Inv(View())
    {
      StepKeeps(View(), Event.WorkerStep);
      match worker
      case Entering => if mutex == Free { mutex, worker := WorkerHolds, Looping; }
      case Looping =>
        if |jobs| == 0 {
          mutex, worker := Free, Asleep;
        } else {
          worker := Taken(jobs[0]);
        }
      case Asleep =>
      case Taken(node) => mutex, worker := Free, Processing(node);
      case Processing(node) =>
        ran := ran + [node.job];
        worker := Returning(node);
      case Returning(node) => if mutex == Free { mutex, worker := WorkerHolds, Deleting(node); }
      case Deleting(node) =>
        Unlink(node.address);
        worker := Uncounting;
      case Uncounting =>
        pending := pending - 1;
        worker := Looping;
    }

    /** listDelNode */
    method Unlink(address: nat)
      modifies `jobs
      ensures jobs == Without(old(jobs), address)
    {
      var i := 0;
      while i < |jobs| && jobs[i].address != address
        invariant i <= |jobs|
        invariant Without(jobs, address) == jobs[..i] + Without(jobs[i..], address)
      {
        assert jobs[i..][1..] == jobs[i + 1..] && jobs[..i] + [jobs[i]] == jobs[..i + 1];
        i := i + 1;
      }
      if i < |jobs| {
        assert jobs[i..][1..] == jobs[i + 1..];
        jobs := jobs[..i] + jobs[i + 1..];
      } else {
        assert jobs[..i] == jobs && jobs[i..] == [];
      }
    }
  }
}
