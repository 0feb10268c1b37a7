/** How input events reach the handler of a session: one poll thread counts hits and enqueues
    idle sessions, any number of workers dequeue them and call do_work until no hit has come in
    between.  A section under the status lock of a session is one step. */
module EpollSession {
  import opened Common
  import opened Sums

  /** covered is the number of hits counted when do_work last began. */
  datatype Session = Session(ready: bool, hits: nat, events: bool, covered: nat)

  datatype Poll = Polling | Mark(x: nat) | Enqueue(x: nat) | PostSem

  datatype Worker =
    | Waiting
    | Popping
    | Begin(x: nat)
    | Work(x: nat, seen: nat)
    | Check(x: nat, seen: nat)

  /** todo lists the sessions of the input events still to come. */
  datatype State =
    State(ssns: seq<Session>, poll: Poll, todo: seq<nat>, queue: seq<nat>, sem: nat, workers: seq<Worker>)

  datatype Actor = Poller | AWorker(i: nat)

  // ---------- the steps ----------

  function PollStep(s: State): (s': State)
    requires InRange(s)
    ensures |s'.ssns| == |s.ssns| && s'.workers == s.workers
  {
    match s.poll
    case Polling =>
      if s.todo == [] then s
      else
        var x := s.todo[0];
        var n := s.ssns[x];
        s.(ssns := s.ssns[x := n.(hits := n.hits + 1, events := true)], todo := s.todo[1..],
           poll := if n.ready then Polling else Mark(x))
    case Mark(x) => s.(ssns := s.ssns[x := s.ssns[x].(ready := true)], poll := Enqueue(x))
    case Enqueue(x) => s.(queue := s.queue + [x], poll := PostSem)
    case PostSem => s.(sem := s.sem + 1, poll := Polling)
  }

  function WorkerStep(s: State, i: nat): (s': State)
    requires InRange(s) && i < |s.workers|
    ensures |s'.ssns| == |s.ssns| && |s'.workers| == |s.workers| && s'.workers == s.workers[i := s'.workers[i]]
    ensures s'.poll == s.poll && s'.todo == s.todo
  {
    var ws := s.workers;
    match ws[i]
    case Waiting => if s.sem == 0 then s else s.(sem := s.sem - 1, workers := ws[i := Popping])
    case Popping =>
      if s.queue == [] then s.(workers := ws[i := Waiting])
      else s.(queue := s.queue[1..], workers := ws[i := Begin(s.queue[0])])
    case Begin(x) => s.(workers := ws[i := Work(x, s.ssns[x].hits)])
    case Work(x, h) =>
      var n := s.ssns[x];
      s.(ssns := if n.events then s.ssns[x := n.(covered := n.hits)] else s.ssns, workers := ws[i := Check(x, h)])
    case Check(x, h) =>
      var n := s.ssns[x];
      if n.hits == h then s.(ssns := s.ssns[x := n.(events := false, ready := false)], workers := ws[i := Popping])
      else s.(workers := ws[i := Begin(x)])
  }

  ghost predicate WorkerIn(w: Worker, n: nat) {
    match w
    case Waiting => true
    case Popping => true
    case Begin(x) => x < n
    case Work(x, _) => x < n
    case Check(x, _) => x < n
  }

  /** All sessions mentioned exist. */
  ghost predicate InRange(s: State) {
    && (s.poll.Mark? || s.poll.Enqueue? ==> s.poll.x < |s.ssns|)
    && (forall j | 0 <= j < |s.todo| :: s.todo[j] < |s.ssns|)
    && (forall j | 0 <= j < |s.queue| :: s.queue[j] < |s.ssns|)
    && (forall i | 0 <= i < |s.workers| :: WorkerIn(s.workers[i], |s.ssns|))
  }

  ghost predicate Actors(s: State, a: Actor) {
    a.AWorker? ==> a.i < |s.workers|
  }

  function Step(s: State, a: Actor): State
    requires InRange(s) && Actors(s, a)
  {
    if a.Poller? then PollStep(s) else WorkerStep(s, a.i)
  }

  ghost predicate Enabled(s: State, a: Actor) {
    if a.Poller? then !(s.poll.Polling? && s.todo == [])
    else a.i < |s.workers| && !(s.workers[a.i].Waiting? && s.sem == 0)
  }

  ghost predicate Initial(s: State) {
    && (forall x | 0 <= x < |s.ssns| :: s.ssns[x] == Session(false, 0, false, 0))
    && (forall j | 0 <= j < |s.todo| :: s.todo[j] < |s.ssns|)
    && s.poll == Polling && s.queue == [] && s.sem == 0
    && (forall i | 0 <= i < |s.workers| :: s.workers[i] == Waiting)
  }

  // ---------- the invariant ----------

  ghost predicate Holds(w: Worker, x: nat) {
    (w.Begin? || w.Work? || w.Check?) && w.x == x
  }

  ghost function Holding(x: nat): Worker -> int {
    w => Bit(Holds(w, x))
  }

  /** A session is idle, being enqueued, in the queue once or held by one worker, and its status
      says which: ready from the mark on. */
  ghost predicate OneStage(s: State, x: nat)
    requires x < |s.ssns|
  {
    multiset(s.queue)[x] + Sum(s.workers, Holding(x)) + Bit(s.poll == Enqueue(x)) == Bit(s.ssns[x].ready)
  }

  /** Exactly the sessions with something under way have their input event set; an idle one has been
      worked on since its last hit. */
  ghost predicate Answered(s: State, x: nat)
    requires x < |s.ssns|
  {
    var n := s.ssns[x];
    && n.covered <= n.hits
    && (n.ready || s.poll == Mark(x) <==> n.events)
    && (s.poll == Mark(x) ==> !n.ready)
    && (!n.ready && s.poll != Mark(x) ==> n.covered == n.hits)
  }

  /** The hits a worker has seen are hits counted; once it has worked they are covered. */
  ghost predicate SeenOk(s: State, w: Worker) {
    match w
    case Work(x, h) => x < |s.ssns| && h <= s.ssns[x].hits
    case Check(x, h) => x < |s.ssns| && h <= s.ssns[x].covered
    case _ => true
  }

  ghost predicate Busy(s: State) {
    exists i :: 0 <= i < |s.workers| && !s.workers[i].Waiting?
  }

  /** A session in the queue will be popped: there is a wakeup left, or on its way, or a worker
      that will look at the queue again. */
  ghost predicate Awake(s: State) {
    s.queue != [] ==> s.sem > 0 || s.poll.PostSem? || Busy(s)
  }

  ghost predicate Safe(s: State) {
    && InRange(s) && Awake(s)
    && (forall x | 0 <= x < |s.ssns| :: OneStage(s, x) && Answered(s, x))
    && (forall i | 0 <= i < |s.workers| :: SeenOk(s, s.workers[i]))
  }

  lemma InitialSafe(s: State)
    requires Initial(s)
    ensures Safe(s)
  {
    forall x | 0 <= x < |s.ssns| ensures OneStage(s, x) && Answered(s, x) {
      SumZero(s.workers, Holding(x));
    }
  }

  lemma Alone(s: State, x: nat, i: nat)
    requires Safe(s) && x < |s.ssns| && i < |s.workers| && Holds(s.workers[i], x)
    ensures s.ssns[x].ready && s.poll != Enqueue(x) && s.poll != Mark(x) && x !in s.queue && s.ssns[x].events
    ensures forall j | 0 <= j < |s.workers| && j != i :: !Holds(s.workers[j], x)
  {
    assert OneStage(s, x) && Answered(s, x);
    SumAtLeast(s.workers, i, Holding(x));
    forall j | 0 <= j < |s.workers| && j != i ensures !Holds(s.workers[j], x) {
      if i < j { SumTwo(s.workers, i, j, Holding(x)); } else { SumTwo(s.workers, j, i, Holding(x)); }
    }
  }

  lemma PollStage(s: State, x: nat)
    requires Safe(s) && x < |s.ssns|
    ensures OneStage(PollStep(s), x) && Answered(PollStep(s), x)
  {
    hide Sum; hide Awake; hide SeenOk; hide WorkerIn;
    assert OneStage(s, x) && Answered(s, x);
    if s.poll.Mark? { assert OneStage(s, s.poll.x) && Answered(s, s.poll.x); }
  }

  lemma PollRange(s: State)
    requires Safe(s)
    ensures InRange(PollStep(s)) && Awake(PollStep(s))
    ensures forall i | 0 <= i < |s.workers| :: SeenOk(PollStep(s), s.workers[i])
  {
    hide Sum; hide OneStage; hide Answered; hide WorkerIn;
    assert Busy(s) ==> Busy(PollStep(s));
    forall i | 0 <= i < |s.workers| ensures SeenOk(PollStep(s), s.workers[i]) {
      assert SeenOk(s, s.workers[i]);
    }
  }

  lemma PollSafe(s: State)
    requires Safe(s)
    ensures Safe(PollStep(s))
  {
    hide PollStep; hide OneStage; hide Answered; hide SeenOk; hide Awake;
    PollRange(s);
    forall x | 0 <= x < |s.ssns| ensures OneStage(PollStep(s), x) && Answered(PollStep(s), x) {
      PollStage(s, x);
    }
  }

  lemma WorkerStage(s: State, i: nat, x: nat)
    requires Safe(s) && i < |s.workers| && x < |s.ssns|
    ensures OneStage(WorkerStep(s, i), x) && Answered(WorkerStep(s, i), x)
  {
    hide Sum; hide Awake;
    var s', w := WorkerStep(s, i), s.workers[i];
    assert OneStage(s, x) && Answered(s, x) && SeenOk(s, w) && WorkerIn(w, |s.ssns|);
    SumUpdate(s.workers, i, s'.workers[i], Holding(x));
    if Holds(w, x) { Alone(s, x, i); }
    if w.Popping? && s.queue != [] { Tail(s.queue); }
  }

  lemma WorkerSeen(s: State, i: nat, j: nat)
    requires Safe(s) && i < |s.workers| && j < |s.workers|
    ensures SeenOk(WorkerStep(s, i), WorkerStep(s, i).workers[j])
  {
    hide Sum; hide Awake; hide OneStage;
    var w := s.workers[i];
    assert SeenOk(s, w) && SeenOk(s, s.workers[j]) && WorkerIn(w, |s.ssns|);
    if w.Begin? || w.Work? || w.Check? {
      Alone(s, w.x, i);
      assert Answered(s, w.x);
    }
  }

  lemma WorkerRange(s: State, i: nat)
    requires Safe(s) && i < |s.workers|
    ensures InRange(WorkerStep(s, i)) && Awake(WorkerStep(s, i))
  {
    hide Sum; hide OneStage; hide Answered;
    var s' := WorkerStep(s, i);
    assert WorkerIn(s.workers[i], |s.ssns|) && WorkerIn(s'.workers[i], |s.ssns|);
    if !s'.workers[i].Waiting? { assert Busy(s'); }
  }

  lemma WorkerSafe(s: State, i: nat)
    requires Safe(s) && i < |s.workers|
    ensures Safe(WorkerStep(s, i))
  {
    hide WorkerStep; hide OneStage; hide Answered; hide SeenOk; hide Awake;
    WorkerRange(s, i);
    forall x | 0 <= x < |s.ssns| ensures OneStage(WorkerStep(s, i), x) && Answered(WorkerStep(s, i), x) {
      WorkerStage(s, i, x);
    }
    forall j | 0 <= j < |s.workers| ensures SeenOk(WorkerStep(s, i), WorkerStep(s, i).workers[j]) {
      WorkerSeen(s, i, j);
    }
  }

  lemma StepSafe(s: State, a: Actor)
    requires Safe(s) && Actors(s, a)
    ensures Safe(Step(s, a))
  {
    if a.Poller? { PollSafe(s); } else { WorkerSafe(s, a.i); }
  }

  // ---------- every run ----------

  ghost predicate Follows(s: State, a: Actor, s': State) {
    InRange(s) && Actors(s, a) && s' == Step(s, a)
  }

  /** The states of a run, and who takes each step. */
  ghost predicate IsRun(run: seq<State>, acts: seq<Actor>) {
    && |run| == |acts| + 1 && Initial(run[0])
    && forall i, j | 0 <= i < j < |run| && j == i + 1 :: Follows(run[i], acts[i], run[j])
  }

  lemma {:induction false} RunSafe(run: seq<State>, acts: seq<Actor>, j: nat)
    requires IsRun(run, acts) && j < |run|
    ensures Safe(run[j]) && |run[j].ssns| == |run[0].ssns|
  {
    if j == 0 {
      InitialSafe(run[0]);
    } else {
      RunSafe(run, acts, j - 1);
      assert Follows(run[j - 1], acts[j - 1], run[j]);
      StepSafe(run[j - 1], acts[j - 1]);
    }
  }

  /** The input events taken from the poll up to a state of the run, oldest first. */
  ghost function Polled(run: seq<State>, j: nat): seq<nat>
    requires j < |run|
  {
    var all, left := run[0].todo, run[j].todo;
    if |left| <= |all| then all[..|all| - |left|] else all
  }

  /** Every event polled is one hit of its session, and there are no other hits. */
  ghost predicate HitsArePolled(run: seq<State>, j: nat)
    requires j < |run|
  {
    && Polled(run, j) + run[j].todo == run[0].todo
    && forall x | 0 <= x < |run[j].ssns| :: run[j].ssns[x].hits == multiset(Polled(run, j))[x]
  }

  /** A step either counts nothing, or it polls the next event and counts it. */
  ghost predicate Counts(s: State, s': State) {
    && |s'.ssns| == |s.ssns|
    && if s'.todo == s.todo then forall x | 0 <= x < |s.ssns| :: s'.ssns[x].hits == s.ssns[x].hits
       else
         && s.todo != [] && s'.todo == s.todo[1..]
         && forall x | 0 <= x < |s.ssns| :: s'.ssns[x].hits == s.ssns[x].hits + if x == s.todo[0] then 1 else 0
  }

  lemma PollCounts(s: State)
    requires InRange(s)
    ensures Counts(s, PollStep(s))
  {
    if s.poll.Polling? && s.todo != [] { assert |s.todo[1..]| == |s.todo| - 1; }
  }

  lemma WorkerCounts(s: State, i: nat)
    requires InRange(s) && i < |s.workers|
    ensures Counts(s, WorkerStep(s, i))
  {
    assert WorkerIn(s.workers[i], |s.ssns|);
  }

  lemma {:induction false} EveryEventCounts(run: seq<State>, acts: seq<Actor>, j: nat)
    requires IsRun(run, acts) && j < |run|
    ensures HitsArePolled(run, j)
  {
    hide PollStep; hide WorkerStep;
    if j > 0 {
      var a := acts[j - 1];
      EveryEventCounts(run, acts, j - 1);
      assert Follows(run[j - 1], a, run[j]);
      if a.Poller? { PollCounts(run[j - 1]); } else { WorkerCounts(run[j - 1], a.i); }
      PolledOn(run, j);
    }
  }

  lemma PolledOn(run: seq<State>, j: nat)
    requires 0 < j < |run| && HitsArePolled(run, j - 1) && Counts(run[j - 1], run[j])
    ensures HitsArePolled(run, j)
  {
    var s, s' := run[j - 1], run[j];
    if s'.todo != s.todo {
      assert Polled(run, j) == Polled(run, j - 1) + [s.todo[0]];
    }
  }

  /** A call of do_work for session x begins with this step. */
  ghost predicate DoWorkBegins(s: State, a: Actor, x: nat) {
    && a.AWorker? && a.i < |s.workers| && s.workers[a.i].Work? && s.workers[a.i].x == x
    && x < |s.ssns| && s.ssns[x].events
  }

  /** What is covered was counted when some call of do_work began. */
  lemma {:induction false} CoveredByCall(run: seq<State>, acts: seq<Actor>, j: nat, x: nat) returns (i: nat)
    requires IsRun(run, acts) && j < |run| && x < |run[j].ssns| && run[j].ssns[x].covered > 0
    ensures i < j && DoWorkBegins(run[i], acts[i], x) && run[i].ssns[x].hits == run[j].ssns[x].covered
  {
    RunSafe(run, acts, j);
    assert j > 0;
    var s, s' := run[j - 1], run[j];
    RunSafe(run, acts, j - 1);
    assert Follows(s, acts[j - 1], s');
    if s'.ssns[x].covered == s.ssns[x].covered {
      i := CoveredByCall(run, acts, j - 1, x);
    } else {
      i := j - 1;
      OnlyCalls(s, acts[j - 1], x);
    }
  }

  lemma OnlyCalls(s: State, a: Actor, x: nat)
    requires InRange(s) && Actors(s, a) && x < |s.ssns| && Step(s, a).ssns[x].covered != s.ssns[x].covered
    ensures DoWorkBegins(s, a, x) && Step(s, a).ssns[x].covered == s.ssns[x].hits
  {
    if a.AWorker? { assert WorkerIn(s.workers[a.i], |s.ssns|); }
  }

  /** No event is lost: whenever a session is idle and the poll thread is not just marking it, and
      events have been polled for it, a call of do_work began after the last of them. */
  lemma NoLostHit(run: seq<State>, acts: seq<Actor>, j: nat, x: nat) returns (i: nat)
    requires IsRun(run, acts) && j < |run| && x < |run[j].ssns|
    requires !run[j].ssns[x].ready && run[j].poll != Mark(x) && x in Polled(run, j)
    ensures i < j && DoWorkBegins(run[i], acts[i], x)
    ensures multiset(Polled(run, i))[x] == multiset(Polled(run, j))[x]
  {
    RunSafe(run, acts, j);
    assert Answered(run[j], x);
    EveryEventCounts(run, acts, j);
    i := CoveredByCall(run, acts, j, x);
    RunSafe(run, acts, i);
    EveryEventCounts(run, acts, i);
  }

  /** The input event of a session is set exactly while it is ready or about to be. */
  lemma EventWhileReady(run: seq<State>, acts: seq<Actor>, j: nat, x: nat)
    requires IsRun(run, acts) && j < |run| && x < |run[j].ssns|
    ensures run[j].ssns[x].events <==> run[j].ssns[x].ready || run[j].poll == Mark(x)
  {
    RunSafe(run, acts, j);
    assert Answered(run[j], x);
  }

  /** A dequeued session has its input event set, so do_work is called; nobody else holds it. */
  lemma DequeuedHasEvent(run: seq<State>, acts: seq<Actor>, j: nat, i: nat)
    requires IsRun(run, acts) && j < |run| && i < |run[j].workers|
    requires run[j].workers[i].Begin? || run[j].workers[i].Work? || run[j].workers[i].Check?
    ensures var s := run[j]; var x := s.workers[i].x;
      && x < |s.ssns| && s.ssns[x].events && s.ssns[x].ready && x !in s.queue
      && (forall o | 0 <= o < |s.workers| && o != i :: !Holds(s.workers[o], x))
  {
    RunSafe(run, acts, j);
    assert WorkerIn(run[j].workers[i], |run[j].ssns|);
    Alone(run[j], run[j].workers[i].x, i);
  }

  /** The session a step enqueues, and the one a worker starts with. */
  ghost function Enqueued(s: State, a: Actor, s': State): seq<nat> {
    if a.Poller? && s.poll.Enqueue? && s'.poll.PostSem? then [s.poll.x] else []
  }

  ghost function Dequeued(s: State, a: Actor, s': State): seq<nat> {
    if a.AWorker? && a.i < |s.workers| && a.i < |s'.workers| && s.workers[a.i].Popping? && s'.workers[a.i].Begin?
    then [s'.workers[a.i].x] else []
  }

  ghost function AllEnqueued(run: seq<State>, acts: seq<Actor>, j: nat): seq<nat>
    requires j < |run| <= |acts| + 1
  {
    if j == 0 then [] else AllEnqueued(run, acts, j - 1) + Enqueued(run[j - 1], acts[j - 1], run[j])
  }

  ghost function AllDequeued(run: seq<State>, acts: seq<Actor>, j: nat): seq<nat>
    requires j < |run| <= |acts| + 1
  {
    if j == 0 then [] else AllDequeued(run, acts, j - 1) + Dequeued(run[j - 1], acts[j - 1], run[j])
  }

  lemma StepQueue(s: State, a: Actor)
    requires InRange(s) && Actors(s, a)
    ensures var s' := Step(s, a);
      s.queue + Enqueued(s, a, s') == Dequeued(s, a, s') + s'.queue
  {
    if a.AWorker? && s.workers[a.i].Popping? && s.queue != [] {
      assert s.queue == [s.queue[0]] + s.queue[1..];
    }
  }

  /** Sessions are served in the order they were enqueued. */
  lemma {:induction false} SessionFifo(run: seq<State>, acts: seq<Actor>, j: nat)
    requires IsRun(run, acts) && j < |run|
    ensures AllEnqueued(run, acts, j) == AllDequeued(run, acts, j) + run[j].queue
  {
    if j > 0 {
      var s, a, s' := run[j - 1], acts[j - 1], run[j];
      SessionFifo(run, acts, j - 1);
      assert Follows(s, a, s');
      StepQueue(s, a);
      var d := AllDequeued(run, acts, j - 1);
      assert d + s.queue + Enqueued(s, a, s') == d + (s.queue + Enqueued(s, a, s'));
      assert d + (Dequeued(s, a, s') + s'.queue) == d + Dequeued(s, a, s') + s'.queue;
    }
  }

  // ---------- progress ----------

  ghost function PollWeight(p: Poll): int {
    match p
    case Polling => 0
    case Mark(_) => 9
    case Enqueue(_) => 8
    case PostSem => 3
  }

  ghost function Hits(ns: seq<Session>, x: nat): nat {
    if x < |ns| then ns[x].hits else 0
  }

  /** A worker that has not seen the latest hits will go around once more for them. */
  ghost function Weigh(w: Worker, ns: seq<Session>): int {
    match w
    case Waiting => 0
    case Popping => 1
    case Begin(_) => 4
    case Work(x, h) => 3 + 4 * (Hits(ns, x) - h)
    case Check(x, h) => 2 + 4 * (Hits(ns, x) - h)
  }

  ghost function WorkerWeight(ns: seq<Session>): Worker -> int {
    (w: Worker) => Weigh(w, ns)
  }

  ghost function Measure(s: State): int {
    10 * |s.todo| + PollWeight(s.poll) + 4 * |s.queue| + 2 * s.sem + Sum(s.workers, WorkerWeight(s.ssns))
  }

  lemma MeasureNat(s: State)
    requires Safe(s)
    ensures Measure(s) >= 0
  {
    forall w | w in s.workers ensures Weigh(w, s.ssns) >= 0 {
      var i :| 0 <= i < |s.workers| && s.workers[i] == w;
      assert SeenOk(s, w) && WorkerIn(w, |s.ssns|);
      if w.Check? { assert Answered(s, w.x); }
    }
    SumNat(s.workers, WorkerWeight(s.ssns));
  }

  lemma PollProgress(s: State)
    requires Safe(s) && Enabled(s, Poller)
    ensures Measure(PollStep(s)) < Measure(s)
  {
    hide Sum;
    var s' := PollStep(s);
    var f, g := WorkerWeight(s'.ssns), WorkerWeight(s.ssns);
    if s.poll.Polling? {
      var x := s.todo[0];
      assert OneStage(s, x) && Answered(s, x);
      SumWithin(s.workers, f, g, Holding(x), 4);
      if !s.ssns[x].ready { SumNat(s.workers, Holding(x)); }
    } else {
      SumSame(s.workers, f, g);
    }
  }

  lemma WorkerProgress(s: State, i: nat)
    requires Safe(s) && Enabled(s, AWorker(i))
    ensures Measure(WorkerStep(s, i)) < Measure(s)
  {
    hide Sum; hide OneStage; hide Answered; hide Awake;
    var s', w := WorkerStep(s, i), s.workers[i];
    assert WorkerIn(w, |s.ssns|) && SeenOk(s, w);
    SumUpdate(s.workers, i, s'.workers[i], WorkerWeight(s.ssns));
    SumSame(s'.workers, WorkerWeight(s'.ssns), WorkerWeight(s.ssns));
    if w.Check? { assert w.seen <= s.ssns[w.x].hits by { CheckSeen(s, i); } }
  }

  lemma CheckSeen(s: State, i: nat)
    requires Safe(s) && i < |s.workers| && s.workers[i].Check?
    ensures s.workers[i].x < |s.ssns| && s.workers[i].seen <= s.ssns[s.workers[i].x].hits
  {
    assert SeenOk(s, s.workers[i]);
    assert Answered(s, s.workers[i].x);
  }

  /** Every step that can be taken brings the server closer to rest. */
  lemma Progress(s: State, a: Actor)
    requires Safe(s) && Enabled(s, a)
    ensures 0 <= Measure(Step(s, a)) < Measure(s)
  {
    StepSafe(s, a);
    MeasureNat(Step(s, a));
    if a.Poller? { PollProgress(s); } else { WorkerProgress(s, a.i); }
  }

  ghost predicate AtRest(s: State) {
    forall a :: !Enabled(s, a)
  }

  lemma RestIsIdle(s: State)
    requires Safe(s) && s.workers != [] && AtRest(s)
    ensures s.todo == [] && s.queue == [] && s.poll == Polling
    ensures forall x | 0 <= x < |s.ssns| :: !s.ssns[x].ready && s.ssns[x].covered == s.ssns[x].hits
  {
    assert !Enabled(s, Poller);
    forall i | 0 <= i < |s.workers| ensures s.workers[i].Waiting? && s.sem == 0 {
      assert !Enabled(s, AWorker(i));
    }
    assert s.workers[0].Waiting?;
    forall x | 0 <= x < |s.ssns| ensures !s.ssns[x].ready && s.ssns[x].covered == s.ssns[x].hits {
      assert OneStage(s, x) && Answered(s, x);
      SumZero(s.workers, Holding(x));
    }
  }

  /** When nobody can go on every event of the run has been polled, and for every session that had
      one a call of do_work began after its last. */
  lemma RestAnswersAll(run: seq<State>, acts: seq<Actor>, x: nat) returns (i: nat)
    requires IsRun(run, acts) && run[|run| - 1].workers != [] && AtRest(run[|run| - 1])
    requires x in run[0].todo
    ensures run[|run| - 1].todo == []
    ensures i < |run| - 1 && DoWorkBegins(run[i], acts[i], x)
    ensures multiset(Polled(run, i))[x] == multiset(run[0].todo)[x]
  {
    var j := |run| - 1;
    RunSafe(run, acts, j);
    RestIsIdle(run[j]);
    assert Polled(run, j) == run[0].todo;
    assert x < |run[0].ssns|;
    i := NoLostHit(run, acts, j, x);
  }
}
