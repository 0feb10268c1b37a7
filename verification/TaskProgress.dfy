/** Every step of the task server that is not a timed-out wait brings it closer to the one state
    in which it can rest: everything operated, everything released, all missions idle. */
module TaskProgress {
  import opened Common
  import opened Sums
  import opened TaskServer

  // ---------- the measure ----------

  /** What a poster can still set off: for every subscriber left a push, the wakeup, and all that
      workers do with the delivery. */
  ghost function PosterWeight(): Task -> int {
    (t: Task) =>
      var n := |t.ran|;
      match t.poster
      case Walk(k) => if n == 0 then 1 else 29 * (n - k)
      case Push(k) => 29 * (n - k) - 1
      case Check(k) => 29 * (n - k) - 20
      case Post(k, _) => 29 * (n - k) - 26
      case Done => 0
  }

  ghost function QueueWeight(): Mission -> int {
    (ms: Mission) => 10 * |ms.queue|
  }

  ghost function LookWeight(cnt: nat): int {
    if cnt == 0 then 5 else 11
  }

  /** A worker that gives a mission up without a delivery still has a wakeup to give if the
      queue is not empty. */
  ghost function Weigh(w: Worker, ms: seq<Mission>): int {
    match w
    case Waiting => 0
    case Woken => 1
    case Looking(_, cnt) => LookWeight(cnt)
    case Front(_, _) => 4
    case Switching(m, load) =>
      if load.Carrying? then 12 else if m < |ms| && ms[m].queue == [] then 2 else 10
    case Deciding(_, load, more) => if load.Carrying? then 11 else if more then 9 else 1
    case Posting(_, load) => if load.Carrying? then 5 else 3
    case Running(_) => 2
    case Releasing(_) => 1
    case Serving(_, cnt, _) => LookWeight(cnt) - 1
    case Served(_, cnt, _) => LookWeight(cnt) - 2
    case Popping(_, cnt, _) => LookWeight(cnt) - 3
  }

  ghost function WorkerWeight(ms: seq<Mission>): Worker -> int {
    (w: Worker) => Weigh(w, ms)
  }

  ghost function Measure(s: State): int {
    Sum(s.tasks, PosterWeight()) + Sum(s.missions, QueueWeight()) + 5 * |s.ready| + 2 * s.sem
      + Sum(s.workers, WorkerWeight(s.missions))
  }

  lemma MeasureNat(c: Config, s: State)
    requires WellFormed(c, s)
    ensures Measure(s) >= 0
  {
    forall t | t in s.tasks ensures PosterWeight()(t) >= 0 {
      var p :| 0 <= p < |s.tasks| && s.tasks[p] == t;
      assert PosterOk(t, c.subs[p]);
    }
    SumNat(s.tasks, PosterWeight());
    SumNat(s.missions, QueueWeight());
    SumNat(s.workers, WorkerWeight(s.missions));
  }

  /** A push burdens at most the one worker that is giving the mission up. */
  lemma PushWeight(c: Config, s: State, m: nat, ms': seq<Mission>)
    requires WellFormed(c, s) && OwnedOnce(s) && m < |s.missions| && |ms'| == |s.missions|
    requires forall k | 0 <= k < |ms'| && k != m :: ms'[k] == s.missions[k]
    ensures Sum(s.workers, WorkerWeight(ms')) <= Sum(s.workers, WorkerWeight(s.missions)) + 8
  {
    var f, g, h := WorkerWeight(ms'), WorkerWeight(s.missions), Holding(m);
    forall w | w in s.workers ensures f(w) <= g(w) + 8 * h(w) {
      assert WorkerOk(c, w);
    }
    SumWithin(s.workers, f, g, h, 8);
    OneHolder(c, s, m);
  }

  /** The weights of workers do not depend on which missions are ready. */
  lemma SameQueues(ws: seq<Worker>, ms: seq<Mission>, ms': seq<Mission>)
    requires |ms'| == |ms| && forall k | 0 <= k < |ms| :: ms'[k].queue == ms[k].queue
    ensures Sum(ws, WorkerWeight(ms')) == Sum(ws, WorkerWeight(ms))
  {
    SumSame(ws, WorkerWeight(ms'), WorkerWeight(ms));
  }

  lemma PosterProgress(c: Config, s: State, p: nat)
    requires WellFormed(c, s) && OwnedOnce(s) && Enabled(c, s, APoster(p))
    ensures Measure(PosterStep(c, s, p)) < Measure(s)
  {
    hide WorkersOk; hide QueueOk; hide ReadyOk; hide Sum; hide OwnedOnce; hide Weigh;
    var s', po := PosterStep(c, s, p), s.tasks[p].poster;
    SumUpdate(s.tasks, p, s'.tasks[p], PosterWeight());
    assert PosterOk(s.tasks[p], c.subs[p]);
    if po.Push? || po.Check? || po.Post? {
      var m := c.subs[p][po.k];
      SumUpdate(s.missions, m, s'.missions[m], QueueWeight());
      if po.Push? { PushWeight(c, s, m, s'.missions); } else { SameQueues(s.workers, s.missions, s'.missions); }
    }
  }

  lemma ShorterQueues(ws: seq<Worker>, ms: seq<Mission>, ms': seq<Mission>)
    requires |ms'| == |ms| && forall k | 0 <= k < |ms| :: ms[k].queue == [] ==> ms'[k].queue == []
    ensures Sum(ws, WorkerWeight(ms')) <= Sum(ws, WorkerWeight(ms))
  {
    SumBound(ws, WorkerWeight(ms'), WorkerWeight(ms));
  }

  lemma WorkerMissions(c: Config, s: State, i: nat)
    requires WellFormed(c, s) && i < |s.workers| && HeadOk(s.missions, s.workers[i])
    ensures var s', w := WorkerStep(c, s, i), s.workers[i];
      && (forall k | 0 <= k < |s.missions| :: s.missions[k].queue == [] ==> s'.missions[k].queue == [])
      && Sum(s'.missions, QueueWeight()) == Sum(s.missions, QueueWeight()) - (if Pops(w) then 10 else 0)
  {
    hide ConfigOk; hide TasksOk; hide QueueOk; hide ReadyOk; hide Sum;
    var s', w := WorkerStep(c, s, i), s.workers[i];
    assert WorkerOk(c, w);
    if Pops(w) || w.Switching? || w.Deciding? || w.Posting? || w.Serving? {
      SumUpdate(s.missions, w.m, s'.missions[w.m], QueueWeight());
    }
  }

  lemma WorkerTasks(c: Config, s: State, i: nat)
    requires WellFormed(c, s) && i < |s.workers|
    ensures Sum(WorkerStep(c, s, i).tasks, PosterWeight()) == Sum(s.tasks, PosterWeight())
  {
    hide ConfigOk; hide QueueOk; hide ReadyOk; hide Sum;
    var s', w := WorkerStep(c, s, i), s.workers[i];
    assert WorkerOk(c, w);
    var d := DeliveryOf(w);
    if d.Carrying? {
      SumUpdate(s.tasks, d.d.task, s'.tasks[d.d.task], PosterWeight());
    }
  }

  /** What the worker itself, the ready queue and the semaphore weigh after its step. */
  lemma WorkerOwn(c: Config, s: State, i: nat)
    requires WellFormed(c, s) && Enabled(c, s, AWorker(i))
    ensures var s', w := WorkerStep(c, s, i), s.workers[i];
      5 * |s'.ready| + 2 * s'.sem + Weigh(s'.workers[i], s.missions)
        < 5 * |s.ready| + 2 * s.sem + Weigh(w, s.missions) + (if Pops(w) then 10 else 0)
  {
    hide ConfigOk; hide TasksOk; hide QueueOk; hide ReadyOk;
    assert WorkerOk(c, s.workers[i]);
  }

  lemma WorkerProgress(c: Config, s: State, i: nat)
    requires WellFormed(c, s) && Heads(s) && Enabled(c, s, AWorker(i))
    ensures Measure(WorkerStep(c, s, i)) < Measure(s)
  {
    hide WellFormed; hide WorkerStep; hide Sum; hide Pops; hide Weigh; hide HeadOk;
    var s' := WorkerStep(c, s, i);
    WorkerOwn(c, s, i);
    WorkerTasks(c, s, i);
    WorkerMissions(c, s, i);
    SumUpdate(s.workers, i, s'.workers[i], WorkerWeight(s.missions));
    ShorterQueues(s'.workers, s.missions, s'.missions);
  }

  /** Every step that can be taken lowers the measure. */
  lemma Progress(c: Config, s: State, a: Actor)
    requires Safe(c, s) && Enabled(c, s, a)
    ensures 0 <= Measure(Step(c, s, a)) < Measure(s)
  {
    hide PosterStep; hide WorkerStep; hide Measure;
    StepSafe(c, s, a);
    MeasureNat(c, Step(c, s, a));
    if a.APoster? { PosterProgress(c, s, a.p); } else { WorkerProgress(c, s, a.i); }
  }

  ghost predicate NextBusy(c: Config, s: State, s': State) {
    WellFormed(c, s) && exists a :: Enabled(c, s, a) && s' == Step(c, s, a)
  }

  /** No run takes more steps, timed-out waits apart, than the measure of its first state. */
  lemma {:induction false} RunsEnd(c: Config, run: seq<State>)
    requires run != [] && Safe(c, run[0])
    requires forall j | 0 <= j < |run| - 1 :: NextBusy(c, run[j], run[j + 1])
    ensures |run| - 1 <= Measure(run[0])
  {
    hide Safe; hide Measure;
    if |run| == 1 {
      assert Safe(c, run[0]);
      SafeNat(c, run[0]);
    } else {
      assert NextBusy(c, run[0], run[1]);
      var a :| Enabled(c, run[0], a) && run[1] == Step(c, run[0], a);
      Progress(c, run[0], a);
      StepSafe(c, run[0], a);
      RunsEnd(c, run[1..]);
    }
  }

  lemma SafeNat(c: Config, s: State)
    requires Safe(c, s)
    ensures Measure(s) >= 0
  {
    MeasureNat(c, s);
  }

  // ---------- the state at rest ----------

  ghost predicate AtRest(c: Config, s: State) {
    forall a :: !Enabled(c, s, a)
  }

  /** Whoever holds a status lock can take its next step. */
  lemma LockMovesOn(c: Config, s: State, m: nat)
    requires Safe(c, s) && m < |s.missions| && s.missions[m].locked
    ensures exists a :: Enabled(c, s, a) && (a.APoster? ==> s.tasks[a.p].poster.Post?)
  {
    hide Handed; hide SerialOrder; hide Refs; hide Awake; hide SemaphoreOk;
    assert LockAt(s, m);
    if Sum(s.workers, Locking(m)) > 0 {
      SumPositive(s.workers, Locking(m));
      var i: nat :| i < |s.workers| && Locking(m)(s.workers[i]) > 0;
      assert Enabled(c, s, AWorker(i));
    } else {
      SumPositive(s.tasks, PostLocking(m));
      var p: nat :| p < |s.tasks| && PostLocking(m)(s.tasks[p]) > 0;
      assert Enabled(c, s, APoster(p));
    }
  }

  /** A post that is under way is never stuck: it can go on, or the holder of the status lock it
      waits for can. */
  lemma PostNeverStuck(c: Config, s: State, p: nat)
    requires Safe(c, s) && p < |s.tasks| && !s.tasks[p].poster.Done?
    ensures Enabled(c, s, APoster(p)) || exists a :: Enabled(c, s, a) && (a.APoster? ==> s.tasks[a.p].poster.Post?)
  {
    if PosterBlocked(c, s, p) {
      LockMovesOn(c, s, c.subs[p][s.tasks[p].poster.k]);
    }
  }

  /** The server can rest only when all is done. */
  lemma RestIsDone(c: Config, s: State)
    requires Safe(c, s) && AtRest(c, s) && s.workers != []
    ensures s.ready == [] && s.sem == 0
    ensures forall i | 0 <= i < |s.workers| :: s.workers[i] == Waiting
    ensures forall m | 0 <= m < |s.missions| :: !s.missions[m].ready && s.missions[m].queue == []
    ensures |s.tasks| == |c.subs|
    ensures forall p | 0 <= p < |s.tasks| :: s.tasks[p].poster == Done
  {
    hide SerialOrder; hide Counted; hide Refs; hide Heads; hide ConfigOk; hide QueueOk; hide Locks; hide LockAt;
    forall m | 0 <= m < |s.missions| ensures !s.missions[m].locked {
      if s.missions[m].locked { LockMovesOn(c, s, m); }
    }
    forall p | 0 <= p < |s.tasks| ensures s.tasks[p].poster == Done {
      assert !Enabled(c, s, APoster(p));
    }
    forall i | 0 <= i < |s.workers| ensures s.workers[i] == Waiting && s.sem == 0 {
      assert !Enabled(c, s, AWorker(i));
    }
    assert s.workers[0] == Waiting;
    SumZero(s.workers, Owing());
    SumZero(s.tasks, PostOwing());
    forall m | 0 <= m < |s.missions| ensures !s.missions[m].ready && s.missions[m].queue == [] {
      assert OwnedAt(s, m);
      SumZero(s.workers, Holding(m));
    }
  }

  /** By then every subscriber has operated once on every task posted to it, every block has gone
      back once, and every serial mission has operated exactly what was pushed, in that order. */
  lemma RestIsExact(c: Config, s: State)
    requires Safe(c, s) && AtRest(c, s) && s.workers != []
    ensures |s.tasks| == |c.subs| && |s.missions| == |c.concurrent|
    ensures forall p | 0 <= p < |s.tasks| :: s.tasks[p].freed == 1 && s.tasks[p].ref == 0
    ensures forall p | 0 <= p < |s.tasks| ::
      |s.tasks[p].ran| == |c.subs[p]| && forall k | 0 <= k < |c.subs[p]| :: s.tasks[p].ran[k] == 1
    ensures forall m | 0 <= m < |s.missions| && !c.concurrent[m] :: s.missions[m].operated == s.missions[m].pushed
  {
    RestIsDone(c, s);
    forall p | 0 <= p < |s.tasks|
      ensures s.tasks[p].freed == 1 && s.tasks[p].ref == 0
      ensures |s.tasks[p].ran| == |c.subs[p]| && forall k | 0 <= k < |c.subs[p]| :: s.tasks[p].ran[k] == 1
    {
      NothingOutstanding(c, s, p, |c.subs[p]|);
      RefMeaning(c, s, p);
      assert RefOk(s.tasks[p], |c.subs[p]|);
      FreedLast(c, s, p);
    }
    forall m | 0 <= m < |s.missions| && !c.concurrent[m] ensures s.missions[m].operated == s.missions[m].pushed {
      SumZero(s.workers, Late(m));
      assert InOrder(s, m);
    }
  }

  lemma {:induction false} NothingOutstanding(c: Config, s: State, p: nat, k: nat)
    requires WellFormed(c, s) && p < |c.subs| && k <= |c.subs[p]|
    requires forall i | 0 <= i < |s.workers| :: s.workers[i] == Waiting
    requires forall m | 0 <= m < |s.missions| :: s.missions[m].queue == []
    ensures Outstanding(c, s, p, k) == 0
  {
    if k > 0 {
      NothingOutstanding(c, s, p, k - 1);
      SumZero(s.workers, DueBy(Delivery(p, k - 1), Dropped));
    }
  }

  /** So a run from an initial state that can go on no more has done all of that. */
  lemma RunsComplete(c: Config, run: seq<State>, acts: seq<Actor>)
    requires IsRun(c, run, acts) && run[|run| - 1].workers != [] && AtRest(c, run[|run| - 1])
    ensures var s := run[|run| - 1];
      && |s.tasks| == |c.subs| && |s.missions| == |c.concurrent|
      && (forall m | 0 <= m < |s.missions| :: !s.missions[m].ready && s.missions[m].queue == [])
      && (forall p | 0 <= p < |s.tasks| :: s.tasks[p].freed == 1 && s.tasks[p].ran == seq(|c.subs[p]|, _ => 1))
      && (forall m | 0 <= m < |s.missions| && !c.concurrent[m] :: s.missions[m].operated == s.missions[m].pushed)
  {
    hide Safe; hide AtRest;
    RunSafe(c, run, acts, |run| - 1);
    RestIsDone(c, run[|run| - 1]);
    RestIsExact(c, run[|run| - 1]);
  }
}
