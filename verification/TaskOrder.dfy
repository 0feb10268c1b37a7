/** What happens over a whole run of the task server, told by the steps taken and not by the records
    in its states: missions are served in the order they became ready, and the tasks of a mission in
    the order they were pushed. */
module TaskOrder {
  import opened Common
  import opened Sums
  import opened TaskServer
  import opened TaskProgress

  // ---------- missions ----------

  /** The mission a step puts into the ready queue, and the one a worker takes. */
  ghost function Readied(s: State, a: Actor, s': State): seq<nat> {
    if a.APoster? && a.p < |s.tasks| && a.p < |s'.tasks| && s.tasks[a.p].poster.Check? && s'.tasks[a.p].poster.Post?
    then [s'.tasks[a.p].poster.m]
    else if a.AWorker? && a.i < |s.workers| && a.i < |s'.workers|
            && s.workers[a.i].Deciding? && s'.workers[a.i].Posting?
    then [s'.workers[a.i].m]
    else []
  }

  ghost function Taken(s: State, a: Actor, s': State): seq<nat> {
    if a.AWorker? && a.i < |s.workers| && a.i < |s'.workers| && s.workers[a.i].Woken? && s'.workers[a.i].Looking?
    then [s'.workers[a.i].m] else []
  }

  ghost function AllReadied(run: seq<State>, acts: seq<Actor>, j: nat): seq<nat>
    requires j < |run| <= |acts| + 1
  {
    if j == 0 then [] else AllReadied(run, acts, j - 1) + Readied(run[j - 1], acts[j - 1], run[j])
  }

  ghost function AllTaken(run: seq<State>, acts: seq<Actor>, j: nat): seq<nat>
    requires j < |run| <= |acts| + 1
  {
    if j == 0 then [] else AllTaken(run, acts, j - 1) + Taken(run[j - 1], acts[j - 1], run[j])
  }

  lemma PosterReadies(c: Config, s: State, p: nat)
    requires WellFormed(c, s) && p < |s.tasks|
    ensures PosterStep(c, s, p).ready == s.ready + Readied(s, APoster(p), PosterStep(c, s, p))
  {
    hide WorkersOk; hide ReadyOk; hide QueueOk;
    assert PosterOk(s.tasks[p], c.subs[p]);
    assert s.ready + [] == s.ready;
  }

  lemma WorkerReadies(c: Config, s: State, i: nat)
    requires WellFormed(c, s) && i < |s.workers|
    ensures var s' := WorkerStep(c, s, i);
      s.ready + Readied(s, AWorker(i), s') == Taken(s, AWorker(i), s') + s'.ready
  {
    hide ReadyOk; hide QueueOk; hide TasksOk; hide ConfigOk;
    WorkerReady(c, s, i);
    if s.workers[i].Woken? && s.ready != [] {
      assert s.ready == [s.ready[0]] + s.ready[1..];
    }
  }

  /** Missions are taken in the order they were put into the ready queue. */
  lemma {:induction false} ReadyFifo(c: Config, run: seq<State>, acts: seq<Actor>, j: nat)
    requires IsRun(c, run, acts) && j < |run|
    ensures AllReadied(run, acts, j) == AllTaken(run, acts, j) + run[j].ready
  {
    hide PosterStep; hide WorkerStep; hide WellFormed; hide Readied; hide Taken;
    if j > 0 {
      var s, a, s' := run[j - 1], acts[j - 1], run[j];
      ReadyFifo(c, run, acts, j - 1);
      assert Follows(c, s, a, s');
      if a.APoster? {
        PosterReadies(c, s, a.p);
        PosterTakesNothing(s, a, s');
      } else {
        WorkerReadies(c, s, a.i);
      }
      Moved(AllTaken(run, acts, j - 1), s.ready, Readied(s, a, s'), Taken(s, a, s'), s'.ready);
    }
  }

  lemma PosterTakesNothing(s: State, a: Actor, s': State)
    requires a.APoster?
    ensures Taken(s, a, s') == [] && [] + s'.ready == s'.ready
  {
  }

  lemma Moved<T>(t: seq<T>, q: seq<T>, come: seq<T>, go: seq<T>, q': seq<T>)
    requires q + come == go + q'
    ensures t + q + come == t + go + q'
  {
    assert t + q + come == t + (q + come);
    assert t + go + q' == t + (go + q');
  }

  // ---------- the tasks of a mission ----------

  /** The delivery that a step puts into the queue of mission m, the one it takes off, and the one it
      operates on before it is taken off. */
  ghost function PushedTo(c: Config, s: State, a: Actor, m: nat): seq<Delivery> {
    if a.APoster? && a.p < |s.tasks| && s.tasks[a.p].poster.Push? && For(c, Delivery(a.p, s.tasks[a.p].poster.k), m)
    then [Delivery(a.p, s.tasks[a.p].poster.k)] else []
  }

  ghost function PoppedFrom(s: State, a: Actor, m: nat): seq<Delivery> {
    if a.AWorker? && a.i < |s.workers| && Pops(s.workers[a.i]) && s.workers[a.i].m == m
    then [s.workers[a.i].d] else []
  }

  ghost function ServedFor(s: State, a: Actor, m: nat): seq<Delivery> {
    if a.AWorker? && a.i < |s.workers| && s.workers[a.i].Serving? && s.workers[a.i].m == m
    then [s.workers[a.i].d] else []
  }

  ghost function AllPushed(c: Config, run: seq<State>, acts: seq<Actor>, j: nat, m: nat): seq<Delivery>
    requires j < |run| <= |acts| + 1
  {
    if j == 0 then [] else AllPushed(c, run, acts, j - 1, m) + PushedTo(c, run[j - 1], acts[j - 1], m)
  }

  ghost function AllPopped(run: seq<State>, acts: seq<Actor>, j: nat, m: nat): seq<Delivery>
    requires j < |run| <= |acts| + 1
  {
    if j == 0 then [] else AllPopped(run, acts, j - 1, m) + PoppedFrom(run[j - 1], acts[j - 1], m)
  }

  ghost function AllServed(run: seq<State>, acts: seq<Actor>, j: nat, m: nat): seq<Delivery>
    requires j < |run| <= |acts| + 1
  {
    if j == 0 then [] else AllServed(run, acts, j - 1, m) + ServedFor(run[j - 1], acts[j - 1], m)
  }

  /** What a step does to the queue and the records of mission m. */
  ghost predicate QueueMoves(c: Config, s: State, a: Actor, s': State, m: nat)
    requires m < |s.missions| && m < |s'.missions| && m < |c.concurrent|
  {
    var ms, ms' := s.missions[m], s'.missions[m];
    && ms.queue + PushedTo(c, s, a, m) == PoppedFrom(s, a, m) + ms'.queue
    && ms'.pushed == ms.pushed + PushedTo(c, s, a, m)
    && (!c.concurrent[m] ==> ms'.operated == ms.operated + ServedFor(s, a, m))
  }

  lemma PosterMoves(c: Config, s: State, p: nat, m: nat)
    requires WellFormed(c, s) && p < |s.tasks| && m < |s.missions|
    ensures QueueMoves(c, s, APoster(p), PosterStep(c, s, p), m)
  {
    hide WorkersOk; hide ReadyOk; hide QueueOk;
    assert PosterOk(s.tasks[p], c.subs[p]);
    var ms, ms' := s.missions[m], PosterStep(c, s, p).missions[m];
    assert ms.queue + [] == ms.queue && [] + ms'.queue == ms'.queue;
    assert ms.pushed + [] == ms.pushed && ms.operated + [] == ms.operated;
  }

  lemma WorkerMoves(c: Config, s: State, i: nat, m: nat)
    requires WellFormed(c, s) && i < |s.workers| && HeadOk(s.missions, s.workers[i]) && m < |s.missions|
    ensures QueueMoves(c, s, AWorker(i), WorkerStep(c, s, i), m)
  {
    hide TasksOk; hide ReadyOk; hide QueueOk; hide ConfigOk;
    assert WorkerOk(c, s.workers[i]);
    var ms, ms' := s.missions[m], WorkerStep(c, s, i).missions[m];
    assert ms.queue + [] == ms.queue && [] + ms'.queue == ms'.queue;
    assert ms.pushed + [] == ms.pushed && ms.operated + [] == ms.operated;
    if Pops(s.workers[i]) && s.workers[i].m == m {
      assert ms.queue == [ms.queue[0]] + ms.queue[1..];
    }
  }

  lemma StepMoves(c: Config, s: State, a: Actor, s': State, m: nat)
    requires Safe(c, s) && Follows(c, s, a, s') && m < |s.missions|
    ensures |s'.missions| == |s.missions| == |c.concurrent| && QueueMoves(c, s, a, s', m)
  {
    hide PosterStep; hide WorkerStep; hide QueueMoves;
    if a.APoster? {
      PosterMoves(c, s, a.p, m);
    } else {
      assert HeadOk(s.missions, s.workers[a.i]);
      WorkerMoves(c, s, a.i, m);
    }
  }

  /** The records kept in the states are what happened. */
  ghost predicate Recorded(c: Config, run: seq<State>, acts: seq<Actor>, j: nat, m: nat)
    requires j < |run| <= |acts| + 1
  {
    && m < |run[j].missions| == |c.concurrent|
    && AllPushed(c, run, acts, j, m) == AllPopped(run, acts, j, m) + run[j].missions[m].queue
    && AllPushed(c, run, acts, j, m) == run[j].missions[m].pushed
    && (!c.concurrent[m] ==> AllServed(run, acts, j, m) == run[j].missions[m].operated)
  }

  lemma {:induction false} RunRecorded(c: Config, run: seq<State>, acts: seq<Actor>, j: nat, m: nat)
    requires IsRun(c, run, acts) && j < |run| && m < |c.concurrent|
    ensures Recorded(c, run, acts, j, m)
  {
    hide Follows; hide Safe; hide PushedTo; hide PoppedFrom; hide ServedFor;
    if j > 0 {
      var s, a, s' := run[j - 1], acts[j - 1], run[j];
      RunRecorded(c, run, acts, j - 1, m);
      RunSafe(c, run, acts, j - 1);
      StepMoves(c, s, a, s', m);
      Moved(AllPopped(run, acts, j - 1, m), s.missions[m].queue, PushedTo(c, s, a, m), PoppedFrom(s, a, m),
        s'.missions[m].queue);
    }
  }

  /** The tasks of every mission are taken off in the order they were pushed, and none is lost or
      invented; a serial mission has operated the first of them, in that order. */
  lemma MissionFifo(c: Config, run: seq<State>, acts: seq<Actor>, j: nat, m: nat)
    requires IsRun(c, run, acts) && j < |run| && m < |c.concurrent|
    ensures m < |run[j].missions|
    ensures AllPushed(c, run, acts, j, m) == AllPopped(run, acts, j, m) + run[j].missions[m].queue
    ensures !c.concurrent[m] ==> AllServed(run, acts, j, m) <= AllPushed(c, run, acts, j, m)
  {
    hide Handed;
    RunRecorded(c, run, acts, j, m);
    RunSafe(c, run, acts, j);
    if !c.concurrent[m] { assert InOrder(run[j], m); }
  }

  // ---------- how often a delivery is operated on and released ----------

  ghost function Done(s: State, a: Actor, d: Delivery, x: What): nat {
    if a.AWorker? && a.i < |s.workers| && Doing(s.workers[a.i], x) == Carrying(d) then 1 else 0
  }

  ghost function Times(run: seq<State>, acts: seq<Actor>, j: nat, d: Delivery, x: What): nat
    requires j < |run| <= |acts| + 1
  {
    if j == 0 then 0 else Times(run, acts, j - 1, d, x) + Done(run[j - 1], acts[j - 1], d, x)
  }

  lemma StepTally(c: Config, s: State, a: Actor, s': State, d: Delivery, x: What)
    requires WellFormed(c, s) && Follows(c, s, a, s') && Known(c, d)
    ensures d.task < |s.tasks| == |s'.tasks| && d.sub < |Tally(s.tasks[d.task], x)| == |Tally(s'.tasks[d.task], x)|
    ensures Tally(s'.tasks[d.task], x)[d.sub] == Tally(s.tasks[d.task], x)[d.sub] + Done(s, a, d, x)
  {
    hide WorkersOk; hide QueuesOk; hide ReadyOk; hide WorkerStep; hide Doing;
    assert PosterOk(s.tasks[d.task], c.subs[d.task]);
    if a.AWorker? {
      WorkerTask(c, s, a.i, d.task, x);
    }
  }

  /** The counts in a task are the numbers of steps that operated on it and released it. */
  lemma {:induction false} CountsAreSteps(c: Config, run: seq<State>, acts: seq<Actor>, j: nat, d: Delivery, x: What)
    requires IsRun(c, run, acts) && j < |run| && Known(c, d)
    ensures d.task < |run[j].tasks| && d.sub < |Tally(run[j].tasks[d.task], x)|
    ensures Times(run, acts, j, d, x) == Tally(run[j].tasks[d.task], x)[d.sub]
  {
    hide Done; hide WellFormed; hide Safe;
    if j > 0 {
      CountsAreSteps(c, run, acts, j - 1, d, x);
      assert Follows(c, run[j - 1], acts[j - 1], run[j]);
      StepTally(c, run[j - 1], acts[j - 1], run[j], d, x);
    }
  }

  /** Over any run no subscriber operates on a task twice, and none before its task was pushed. */
  lemma AtMostOnce(c: Config, run: seq<State>, acts: seq<Actor>, j: nat, d: Delivery)
    requires IsRun(c, run, acts) && j < |run| && Known(c, d)
    ensures Times(run, acts, j, d, Dropped) <= Times(run, acts, j, d, Ran) <= 1
  {
    RunSafe(c, run, acts, j);
    OperateFirst(c, run[j], d);
    CountsAreSteps(c, run, acts, j, d, Ran);
    CountsAreSteps(c, run, acts, j, d, Dropped);
  }

  /** A run that can go on no more has operated once for every subscriber and released once, and has
      taken every task off its queue in the order of the pushes. */
  lemma ExactlyOnce(c: Config, run: seq<State>, acts: seq<Actor>, d: Delivery, m: nat)
    requires IsRun(c, run, acts) && run[|run| - 1].workers != [] && AtRest(c, run[|run| - 1])
    requires Known(c, d) && m < |c.concurrent|
    ensures Times(run, acts, |run| - 1, d, Ran) == 1 && Times(run, acts, |run| - 1, d, Dropped) == 1
    ensures AllPopped(run, acts, |run| - 1, m) == AllPushed(c, run, acts, |run| - 1, m)
  {
    var j := |run| - 1;
    RunSafe(c, run, acts, j);
    RestIsDone(c, run[j]);
    RestIsExact(c, run[j]);
    CountsAreSteps(c, run, acts, j, d, Ran);
    CountsAreSteps(c, run, acts, j, d, Dropped);
    MissionFifo(c, run, acts, j, m);
    AllDropped(c, run[j], d);
  }

  lemma AllDropped(c: Config, s: State, d: Delivery)
    requires Safe(c, s) && AtRest(c, s) && s.workers != [] && Known(c, d)
    ensures d.task < |s.tasks| && d.sub < |s.tasks[d.task].dropped| && s.tasks[d.task].dropped[d.sub] == 1
  {
    RestIsDone(c, s);
    assert CountedAt(c, s, d, Dropped);
    SumZero(s.workers, DueBy(d, Dropped));
  }

  // ---------- batches ----------

  /** How many tasks worker i has operated on for a serial mission since it last took a mission. */
  ghost function Streak(run: seq<State>, acts: seq<Actor>, j: nat, i: nat): nat
    requires j < |run| <= |acts| + 1
  {
    if j == 0 then 0
    else
      var s, a, before := run[j - 1], acts[j - 1], Streak(run, acts, j - 1, i);
      if a != AWorker(i) || i >= |s.workers| then before
      else if s.workers[i].Woken? then 0
      else if s.workers[i].Serving? then before + 1 else before
  }

  /** A worker counts the tasks of its batch. */
  ghost predicate Counting(w: Worker, streak: nat) {
    match w
    case Looking(_, cnt) => cnt == streak
    case Serving(_, cnt, _) => cnt == streak
    case Served(_, cnt, _) => cnt + 1 == streak
    case Popping(_, cnt, _) => cnt + 1 == streak
    case _ => true
  }

  lemma StepCounting(c: Config, s: State, a: Actor, s': State, i: nat, streak: nat)
    requires Follows(c, s, a, s') && i < |s.workers| && Counting(s.workers[i], streak)
    ensures i < |s'.workers|
    ensures a != AWorker(i) ==> Counting(s'.workers[i], streak)
    ensures a == AWorker(i) ==>
      Counting(s'.workers[i], if s.workers[i].Woken? then 0 else if s.workers[i].Serving? then streak + 1 else streak)
  {
    hide TasksOk; hide QueueOk; hide ReadyOk; hide ConfigOk;
    if a.AWorker? { assert WorkerOk(c, s.workers[a.i]); }
  }

  lemma {:induction false} RunCounting(c: Config, run: seq<State>, acts: seq<Actor>, j: nat, i: nat)
    requires IsRun(c, run, acts) && j < |run| && i < |run[0].workers|
    ensures i < |run[j].workers| && Counting(run[j].workers[i], Streak(run, acts, j, i))
  {
    hide Follows; hide Counting;
    if j == 0 {
      WaitingCounts(run[0].workers[i], 0);
    } else {
      RunCounting(c, run, acts, j - 1, i);
      StepCounting(c, run[j - 1], acts[j - 1], run[j], i, Streak(run, acts, j - 1, i));
    }
  }

  lemma WaitingCounts(w: Worker, streak: nat)
    ensures w.Waiting? ==> Counting(w, streak)
  {
  }

  /** In no run does a worker operate on more than 128 tasks of a serial mission before it gives the
      mission up, and it gives it up earlier only when the queue is empty. */
  lemma Batches(c: Config, run: seq<State>, acts: seq<Actor>, j: nat, i: nat)
    requires IsRun(c, run, acts) && j + 1 < |run| && i < |run[0].workers| && acts[j] == AWorker(i)
    ensures i < |run[j].workers| && i < |run[j + 1].workers| && |run[j].missions| == |c.concurrent|
    ensures var w, w' := run[j].workers[i], run[j + 1].workers[i];
      && (w.Looking? ==> w.m < |c.concurrent|)
      && (w.Looking? && !c.concurrent[w.m] ==>
            (w'.Serving? <==> run[j].missions[w.m].queue != [] && Streak(run, acts, j, i) < 128))
      && (w.Looking? && !w'.Serving? ==> w'.Front? || w'.Switching?)
  {
    hide Safe;
    RunCounting(c, run, acts, j, i);
    assert Follows(c, run[j], acts[j], run[j + 1]);
    if run[j].workers[i].Looking? { BatchOf128(c, run[j], i); }
    StepCounting(c, run[j], acts[j], run[j + 1], i, Streak(run, acts, j, i));
    LookingGoesOn(c, run[j], i);
  }

  lemma LookingGoesOn(c: Config, s: State, i: nat)
    requires WellFormed(c, s) && i < |s.workers|
    ensures |s.missions| == |c.concurrent|
    ensures var w, w' := s.workers[i], WorkerStep(c, s, i).workers[i];
      w.Looking? ==> w.m < |c.concurrent| && (w'.Serving? || w'.Front? || w'.Switching?)
  {
    hide TasksOk; hide QueueOk; hide ReadyOk; hide ConfigOk;
    assert WorkerOk(c, s.workers[i]);
  }
}
