/** bio.c: the queue of one kind of background job as the steps of two threads. Each function call is cut at
    every point where the other thread can get in between; a step that has to wait for the mutex leaves the
    state as it is. */
module BioModel {

  datatype Job = Job(time: int, arg1: int, arg2: int, arg3: int)

  /** A list node: where it lies, and the job it holds. */
  datatype Node = Node(address: nat, job: Job)

  datatype Owner = Free | MainHolds | WorkerHolds

  /** Where the main thread is in bioCreateBackgroundJob or bioPendingJobsOfType. */
  datatype Main =
    | Outside
    | Creating(job: Job)   // before the lock
    | Adding(job: Job)     // before listAddNodeTail
    | Counting             // before bio_pending++
    | Signalling           // before pthread_cond_signal
    | Leaving              // before the unlock
    | Asking               // before the lock
    | Reading              // before val is read
    | Answering(val: nat)  // before the unlock

  /** Where the worker is in bioProcessBackgroundJobs. */
  datatype Worker =
    | Entering               // before the lock, at the start or woken in pthread_cond_wait
    | Looping                // at the head of the loop
    | Asleep                 // in pthread_cond_wait
    | Taken(node: Node)      // before the unlock
    | Processing(node: Node) // before the job is done
    | Returning(node: Node)  // before the lock
    | Deleting(node: Node)   // before listDelNode
    | Uncounting             // before bio_pending--

  /** `created` and `ran` are the jobs put on the list and the jobs done, in order, since the start. */
  datatype State = State(mutex: Owner, jobs: seq<Node>, pending: nat, main: Main, worker: Worker,
                         created: seq<Job>, ran: seq<Job>)

  const START := State(Free, [], 0, Outside, Entering, [], [])

  /** listDelNode: the node with this address is unlinked. */
  function Without(jobs: seq<Node>, address: nat): seq<Node>
  {
    if jobs == [] then [] else if jobs[0].address == address then jobs[1..] else [jobs[0]] + Without(jobs[1..], address)
  }

  datatype Event = Create(job: Job) | Ask | MainStep(address: nat) | WorkerStep | Wake

  predicate InUse(jobs: seq<Node>, address: nat) { exists i :: 0 <= i < |jobs| && jobs[i].address == address }

  /** A step of the main thread; `address` is where a new node is allocated. */
  ghost function AfterMain(s: State, address: nat): State
  {
    match s.main
    case Outside => s
    case Creating(job) => if s.mutex == Free then s.(mutex := MainHolds, main := Adding(job)) else s
    case Adding(job) =>
      if InUse(s.jobs, address) then s
      else s.(jobs := s.jobs + [Node(address, job)], created := s.created + [job], main := Counting)
    case Counting => s.(pending := s.pending + 1, main := Signalling)
    case Signalling => s.(worker := if s.worker == Asleep then Entering else s.worker, main := Leaving)
    case Leaving => s.(mutex := Free, main := Outside)
    case Asking => if s.mutex == Free then s.(mutex := MainHolds, main := Reading) else s
    case Reading => s.(main := Answering(s.pending))
    case Answering(_) => s.(mutex := Free, main := Outside)
  }

  ghost function AfterWorker(s: State): State
  {
    match s.worker
    case Entering => if s.mutex == Free then s.(mutex := WorkerHolds, worker := Looping) else s
    case Looping => if s.jobs == [] then s.(mutex := Free, worker := Asleep) else s.(worker := Taken(s.jobs[0]))
    case Asleep => s
    case Taken(node) => s.(mutex := Free, worker := Processing(node))
    case Processing(node) => s.(ran := s.ran + [node.job], worker := Returning(node))
    case Returning(node) => if s.mutex == Free then s.(mutex := WorkerHolds, worker := Deleting(node)) else s
    case Deleting(node) => s.(jobs := Without(s.jobs, node.address), worker := Uncounting)
    case Uncounting => if s.pending > 0 then s.(pending := s.pending - 1, worker := Looping) else s
  }

  /** One step of a run; Wake is a return from pthread_cond_wait that no signal caused. */
  ghost function Step(s: State, e: Event): State
  {
    match e
    case Create(job) => if s.main == Outside then s.(main := Creating(job)) else s
    case Ask => if s.main == Outside then s.(main := Asking) else s
    case MainStep(address) => AfterMain(s, address)
    case WorkerStep => AfterWorker(s)
    case Wake => if s.worker == Asleep then s.(worker := Entering) else s
  }

  ghost function Run(s: State, events: seq<Event>): State
    decreases |events|
  {
    if events == [] then s else Run(Step(s, events[0]), events[1..])
  }

  // ----- what every state keeps -----

  ghost predicate Distinct(jobs: seq<Node>)
  {
    forall i, j :: 0 <= i < j < |jobs| ==> jobs[i].address != jobs[j].address
  }

  predicate MainInside(m: Main) { !m.Outside? && !m.Creating? && !m.Asking? }

  predicate WorkerInside(w: Worker) { w.Looping? || w.Taken? || w.Deleting? || w.Uncounting? }

  ghost predicate MutexOk(s: State)
  {
    && (s.mutex == MainHolds <==> MainInside(s.main))
    && (s.mutex == WorkerHolds <==> WorkerInside(s.worker))
  }

  /** The node in hand is the first of the list. */
  ghost predicate InHand(s: State)
  {
    s.worker.Taken? || s.worker.Processing? || s.worker.Returning? || s.worker.Deleting? ==>
      s.jobs != [] && s.jobs[0] == s.worker.node
  }

  /** The job in hand has been done but is still on the list. */
  function DoneInHand(w: Worker): nat { if w.Returning? || w.Deleting? then 1 else 0 }

  ghost predicate HistoryOk(s: State)
  {
    && |s.ran| <= |s.created| && |s.jobs| <= |s.created|
    && s.created[..|s.ran|] == s.ran
    && |s.created| + DoneInHand(s.worker) == |s.ran| + |s.jobs|
    && (forall i :: 0 <= i < |s.jobs| ==> s.created[|s.created| - |s.jobs| + i] == s.jobs[i].job)
  }

  ghost predicate PendingOk(s: State)
  {
    s.pending + (if s.main.Counting? then 1 else 0) == |s.jobs| + (if s.worker.Uncounting? then 1 else 0)
  }

  /** The worker sleeps over a job only while the main thread is on its way to the signal. */
  ghost predicate WakeOk(s: State)
  {
    s.worker.Asleep? && s.jobs != [] ==> s.main.Counting? || s.main.Signalling?
  }

  ghost predicate Inv(s: State)
  {
    MutexOk(s) && Distinct(s.jobs) && InHand(s) && HistoryOk(s) && PendingOk(s) && WakeOk(s)
  }

  lemma {:induction false} MainKeeps(s: State, address: nat)
    requires Inv(s)
    ensures Inv(AfterMain(s, address))
  {
    if s.main.Adding? && !InUse(s.jobs, address) {
      var t := AfterMain(s, address);
      assert t.created[..|t.ran|] == t.ran;
      assert Distinct(t.jobs);
    }
  }

  lemma {:induction false} WorkerKeeps(s: State)
    requires Inv(s)
    ensures Inv(AfterWorker(s))
  {
    var t := AfterWorker(s);
    if s.worker.Processing? {
      assert s.created[|s.ran|] == s.jobs[0].job;
      assert t.created[..|t.ran|] == t.ran;
    } else if s.worker.Deleting? {
      assert t.jobs == s.jobs[1..];
    } else if s.worker.Uncounting? {
      assert s.pending > 0;
    }
  }

  lemma StepKeeps(s: State, e: Event)
    requires Inv(s)
    ensures Inv(Step(s, e))
  {
    match e
    case Create(_) =>
    case Ask =>
    case MainStep(address) => MainKeeps(s, address);
    case WorkerStep => WorkerKeeps(s);
    case Wake =>
  }

  lemma {:induction false} RunKeeps(s: State, events: seq<Event>)
    requires Inv(s)
    ensures Inv(Run(s, events))
    decreases |events|
  {
    hide Inv, Step;
    if events != [] {
      StepKeeps(s, events[0]);
      RunKeeps(Step(s, events[0]), events[1..]);
    }
  }

  /** The state after any interleaving from the start. */
  ghost function Reached(events: seq<Event>): State { Run(START, events) }

  // ----- what the users of the queue rely on -----

  /** Every job runs once, and in the order of creation. */
  lemma RunsInOrder(events: seq<Event>)
    ensures var s := Reached(events); |s.ran| <= |s.created| && s.ran == s.created[..|s.ran|]
  {
    RunKeeps(START, events);
  }

  /** An answer to bioPendingJobsOfType counts the jobs not yet done, and the last one done until the worker
      takes note of it. So 0 means that every job created so far has finished. */
  lemma AnswerCounts(events: seq<Event>)
    requires Reached(events).main.Reading?
    ensures var s := Reached(events); var t := Step(s, MainStep(0));
      && t.main.Answering?
      && t.main.val == |s.created| - |s.ran| + DoneInHand(s.worker)
      && (t.main.val == 0 ==> s.ran == s.created)
  {
    RunKeeps(START, events);
    var s := Reached(events);
    if s.pending == 0 { assert s.created[..|s.created|] == s.created; }
  }

  /** Whenever the mutex is free, a worker asleep has nothing to do. */
  lemma NoLostWakeup(events: seq<Event>)
    requires Reached(events).worker.Asleep? && Reached(events).mutex.Free?
    ensures var s := Reached(events); s.jobs == [] && s.pending == 0 && s.ran == s.created
  {
    RunKeeps(START, events);
    var s := Reached(events);
    assert s.created[..|s.created|] == s.created;
  }

  // ----- the worker gets to the end of the list -----

  /** The worker's steps until it sleeps over an empty list, if nobody holds it up. */
  function Work(w: Worker, n: nat): nat
  {
    var later := 6 * (if n > 0 then n - 1 else 0) + 1;
    match w
    case Asleep => 0
    case Entering => 6 * n + 2
    case Looping => 6 * n + 1
    case Taken(_) => later + 5
    case Processing(_) => later + 4
    case Returning(_) => later + 3
    case Deleting(_) => later + 2
    case Uncounting => 6 * n + 2
  }

  ghost function WorkerRun(s: State, n: nat): State
    decreases n
  {
    if n == 0 then s else WorkerRun(AfterWorker(s), n - 1)
  }

  lemma WorkerProgresses(s: State)
    requires Inv(s) && s.main.Outside? && !s.worker.Asleep?
    ensures AfterWorker(s).main.Outside? && AfterWorker(s).created == s.created
    ensures Work(AfterWorker(s).worker, |AfterWorker(s).jobs|) + 1 == Work(s.worker, |s.jobs|)
  {
    if s.worker.Uncounting? {
      assert s.pending > 0;
    }
  }

  /** With the main thread out of the way, the worker's next steps finish every job there is. */
  lemma {:induction false} WorkerFinishes(s: State)
    requires Inv(s) && s.main.Outside?
    ensures var t := WorkerRun(s, Work(s.worker, |s.jobs|));
      t.worker.Asleep? && t.jobs == [] && t.pending == 0 && t.created == s.created && t.ran == s.created
    decreases Work(s.worker, |s.jobs|)
  {
    if s.worker.Asleep? {
      assert s.created[..|s.created|] == s.created;
    } else {
      hide Inv, Work, AfterWorker;
      WorkerProgresses(s);
      WorkerKeeps(s);
      WorkerFinishes(AfterWorker(s));
    }
  }

  // ----- from anywhere -----

  function FreshAddress(jobs: seq<Node>): (a: nat)
    ensures !InUse(jobs, a)
    ensures forall i :: 0 <= i < |jobs| ==> jobs[i].address < a
  {
    if jobs == [] then 0
    else
      var a := FreshAddress(jobs[1..]);
      assert forall i :: 0 < i < |jobs| ==> jobs[i] == jobs[1..][i - 1];
      if jobs[0].address < a then a else jobs[0].address + 1
  }

  /** Steps of both threads that go on with what they are at; neither begins anything new. */
  predicate GoesOn(e: Event) { e.MainStep? || e.WorkerStep? }

  lemma {:induction false} RunAppend(s: State, a: seq<Event>, b: seq<Event>)
    ensures Run(s, a + b) == Run(Run(s, a), b)
    decreases |a|
  {
    hide Step;
    if a == [] {
      assert a + b == b;
    } else {
      assert (a + b)[1..] == a[1..] + b;
      RunAppend(Step(s, a[0]), a[1..], b);
    }
  }

  /** The worker's steps until the mutex is not its own. */
  function HeldFor(w: Worker): nat
  {
    match w case Looping => 2 case Taken(_) => 1 case Uncounting => 3 case Deleting(_) => 4 case _ => 0
  }

  lemma {:induction false} WorkerLetsGo(s: State) returns (more: seq<Event>)
    requires Inv(s)
    ensures var t := Run(s, more); Inv(t) && t.mutex != WorkerHolds && t.main == s.main && t.created == s.created
    ensures forall e :: e in more ==> GoesOn(e)
    decreases HeldFor(s.worker)
  {
    more := [];
    if s.mutex == WorkerHolds {
      WorkerKeeps(s);
      assert s.worker.Uncounting? ==> s.pending > 0;
      var rest := WorkerLetsGo(AfterWorker(s));
      more := [WorkerStep] + rest;
      assert more[1..] == rest;
    }
  }

  /** How far the main thread is from the end of its call. */
  function StepsLeft(m: Main): nat
  {
    match m
    case Outside => 0 case Leaving => 1 case Signalling => 2 case Counting => 3
    case Adding(_) => 4 case Creating(_) => 5
    case Answering(_) => 1 case Reading => 2 case Asking => 3
  }

  lemma {:induction false} MainGetsOut(s: State) returns (more: seq<Event>)
    requires Inv(s) && s.mutex != WorkerHolds
    ensures var t := Run(s, more); Inv(t) && t.main == Outside && s.created <= t.created
    ensures forall e :: e in more ==> GoesOn(e)
    decreases StepsLeft(s.main)
  {
    more := [];
    if s.main != Outside {
      var e := MainStep(FreshAddress(s.jobs));
      MainKeeps(s, FreshAddress(s.jobs));
      var rest := MainGetsOut(Step(s, e));
      more := [e] + rest;
      assert more[1..] == rest;
    }
  }

  lemma {:induction false} WorkerRunIs(s: State, n: nat) returns (more: seq<Event>)
    ensures Run(s, more) == WorkerRun(s, n) && forall e :: e in more ==> GoesOn(e)
    decreases n
  {
    more := [];
    if n > 0 {
      hide AfterWorker;
      var rest := WorkerRunIs(AfterWorker(s), n - 1);
      more := [WorkerStep] + rest;
      assert more[1..] == rest;
    }
  }

  /** So no interleaving can strand a job: from every reachable state, wherever the two threads are, going on
      with what they are at leads to a state in which all jobs ever created are done, the one in the making
      included. */
  lemma NoJobIsStranded(events: seq<Event>) returns (more: seq<Event>)
    ensures var t := Run(Reached(events), more); t.main == Outside && t.jobs == [] && t.ran == t.created
    ensures Reached(events).created <= Run(Reached(events), more).created
    ensures forall e :: e in more ==> GoesOn(e)
  {
    hide Inv, Run, WorkerRun, Work;
    StartInv();
    RunKeeps(START, events);
    var s := Reached(events);
    var first := WorkerLetsGo(s);
    var s1 := Run(s, first);
    var second := MainGetsOut(s1);
    var s2 := Run(s1, second);
    var n := Work(s2.worker, |s2.jobs|);
    WorkerFinishes(s2);
    var third := WorkerRunIs(s2, n);
    WorkerRunStays(s2, n);
    RunAppend(s, first, second);
    RunAppend(s, first + second, third);
    more := first + second + third;
  }

  lemma StartInv()
    ensures Inv(START)
  {
  }

  lemma {:induction false} WorkerRunStays(s: State, n: nat)
    ensures WorkerRun(s, n).main == s.main
    decreases n
  {
    if n > 0 { WorkerRunStays(AfterWorker(s), n - 1); }
  }
}
