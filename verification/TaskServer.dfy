/** The task server as a transition system.  Posters, workers and missions take their steps in
    any order; a section under one spin lock is one step.  Every post is a poster of its own, so
    a thread that posts many tasks is many posters that happen not to overlap. */
module TaskServer {
  import opened Common
  import opened Sums

  /** A task on its way to its subscriber number sub. */
  datatype Delivery = Delivery(task: nat, sub: nat)

  datatype Load = Nothing | Carrying(d: Delivery)

  /** Where a post stands in its walk along the chain of subscribers. */
  datatype Poster = Walk(k: nat) | Push(k: nat) | Check(k: nat) | Post(k: nat, m: nat) | Done

  datatype Worker =
    | Waiting
    | Woken
    | Looking(m: nat, cnt: nat)
    // concurrent missions: pop, give the mission up, then operate
    | Front(m: nat, d: Delivery)
    | Switching(m: nat, load: Load)
    // under the status lock: the size has been read
    | Deciding(m: nat, load: Load, more: bool)
    | Posting(m: nat, load: Load)
    | Running(d: Delivery)
    | Releasing(d: Delivery)
    // serial missions: operate, then pop
    | Serving(m: nat, cnt: nat, d: Delivery)
    | Served(m: nat, cnt: nat, d: Delivery)
    | Popping(m: nat, cnt: nat, d: Delivery)

  /** locked is the lock of the status; pushed and operated record what was put into the queue and,
      for serial missions, what was operated, in order. */
  datatype Mission =
    Mission(ready: bool, locked: bool, queue: seq<Delivery>, pushed: seq<Delivery>, operated: seq<Delivery>)

  /** ran and dropped record for each subscriber how often it operated on and released the
      task; freed how often the block went back to its pool. */
  datatype Task = Task(poster: Poster, ref: int, freed: nat, ran: seq<nat>, dropped: seq<nat>)

  /** The modes of the missions, and for every post the missions of its subscribers. */
  datatype Config = Config(concurrent: seq<bool>, subs: seq<seq<nat>>)

  datatype State = State(tasks: seq<Task>, missions: seq<Mission>, ready: seq<nat>, sem: nat, workers: seq<Worker>)

  datatype Actor = APoster(p: nat) | AWorker(i: nat)

  const BATCH := 128

  // ---------- the steps ----------

  /** Drop one reference; the last one returns the block. */
  function Drop(t: Task): Task {
    t.(ref := t.ref - 1, freed := if t.ref - 1 == 0 then t.freed + 1 else t.freed)
  }

  function After(k: nat, n: nat): Poster {
    if k + 1 < n then Walk(k + 1) else Done
  }

  function Carry(load: Load): Worker {
    match load
    case Nothing => Waiting
    case Carrying(d) => Running(d)
  }

  function Count(xs: seq<nat>, k: nat): seq<nat> {
    if k < |xs| then xs[k := xs[k] + 1] else xs
  }

  function PosterStep(c: Config, s: State, p: nat): (s': State)
    requires WellFormed(c, s) && p < |s.tasks|
    ensures |s'.tasks| == |s.tasks| && |s'.missions| == |s.missions| && s'.workers == s.workers
    ensures s'.tasks == s.tasks[p := s'.tasks[p]]
  {
    var t, n := s.tasks[p], |c.subs[p]|;
    match t.poster
    case Walk(k) =>
      if n == 0 then s.(tasks := s.tasks[p := Drop(t).(poster := Done)])
      else s.(tasks := s.tasks[p := t.(ref := if k + 1 < n then t.ref + 1 else t.ref, poster := Push(k))])
    case Push(k) =>
      var m, d := c.subs[p][k], Delivery(p, k);
      var ms := s.missions[m];
      s.(tasks := s.tasks[p := t.(poster := Check(k))],
         missions := s.missions[m := ms.(queue := ms.queue + [d], pushed := ms.pushed + [d])])
    case Check(k) =>
      var m := c.subs[p][k];
      if s.missions[m].locked then s
      else if s.missions[m].ready then s.(tasks := s.tasks[p := t.(poster := After(k, n))])
      else
        s.(tasks := s.tasks[p := t.(poster := Post(k, m))], ready := s.ready + [m],
           missions := s.missions[m := s.missions[m].(ready := true, locked := true)])
    case Post(k, m) =>
      s.(tasks := s.tasks[p := t.(poster := After(k, n))], sem := s.sem + 1,
         missions := s.missions[m := s.missions[m].(locked := false)])
    case Done => s
  }

  function Popped(ms: Mission): Mission {
    ms.(queue := if ms.queue == [] then [] else ms.queue[1..])
  }

  function WorkerStep(c: Config, s: State, i: nat): (s': State)
    requires WellFormed(c, s) && i < |s.workers|
    ensures |s'.tasks| == |s.tasks| && |s'.missions| == |s.missions| && |s'.workers| == |s.workers|
    ensures s'.workers == s.workers[i := s'.workers[i]]
  {
    var ws := s.workers;
    match ws[i]
    case Waiting =>
      if s.sem == 0 then s else s.(sem := s.sem - 1, workers := ws[i := Woken])
    case Woken =>
      if s.ready == [] then s.(workers := ws[i := Waiting])
      else s.(ready := s.ready[1..], workers := ws[i := Looking(s.ready[0], 0)])
    case Looking(m, cnt) =>
      var q := s.missions[m].queue;
      s.(workers := ws[i :=
        if c.concurrent[m] then if q == [] then Switching(m, Nothing) else Front(m, q[0])
        else if cnt < BATCH && q != [] then Serving(m, cnt, q[0]) else Switching(m, Nothing)])
    case Front(m, d) =>
      s.(missions := s.missions[m := Popped(s.missions[m])], workers := ws[i := Switching(m, Carrying(d))])
    case Switching(m, load) =>
      if s.missions[m].locked then s
      else
        s.(missions := s.missions[m := s.missions[m].(locked := true)],
           workers := ws[i := Deciding(m, load, s.missions[m].queue != [])])
    case Deciding(m, load, more) =>
      if more then
        s.(missions := s.missions[m := s.missions[m].(ready := true)], ready := s.ready + [m],
           workers := ws[i := Posting(m, load)])
      else
        s.(missions := s.missions[m := s.missions[m].(ready := false, locked := false)],
           workers := ws[i := Carry(load)])
    case Posting(m, load) =>
      s.(missions := s.missions[m := s.missions[m].(locked := false)], sem := s.sem + 1,
         workers := ws[i := Carry(load)])
    case Running(d) =>
      var t := s.tasks[d.task];
      s.(tasks := s.tasks[d.task := t.(ran := Count(t.ran, d.sub))], workers := ws[i := Releasing(d)])
    case Releasing(d) =>
      var t := s.tasks[d.task];
      s.(tasks := s.tasks[d.task := Drop(t).(dropped := Count(t.dropped, d.sub))], workers := ws[i := Waiting])
    case Serving(m, cnt, d) =>
      var t, ms := s.tasks[d.task], s.missions[m];
      s.(tasks := s.tasks[d.task := t.(ran := Count(t.ran, d.sub))],
         missions := s.missions[m := ms.(operated := ms.operated + [d])],
         workers := ws[i := Served(m, cnt, d)])
    case Served(m, cnt, d) =>
      var t := s.tasks[d.task];
      s.(tasks := s.tasks[d.task := Drop(t).(dropped := Count(t.dropped, d.sub))],
         workers := ws[i := Popping(m, cnt, d)])
    case Popping(m, cnt, d) =>
      s.(missions := s.missions[m := Popped(s.missions[m])], workers := ws[i := Looking(m, cnt + 1)])
  }

  ghost predicate Actors(s: State, a: Actor) {
    if a.APoster? then a.p < |s.tasks| else a.i < |s.workers|
  }

  function Step(c: Config, s: State, a: Actor): State
    requires WellFormed(c, s) && Actors(s, a)
  {
    if a.APoster? then PosterStep(c, s, a.p) else WorkerStep(c, s, a.i)
  }

  /** Poster p waits for the status lock of a mission, or worker i does. */
  ghost predicate PosterBlocked(c: Config, s: State, p: nat) {
    && p < |s.tasks| && p < |c.subs| && s.tasks[p].poster.Check? && s.tasks[p].poster.k < |c.subs[p]|
    && c.subs[p][s.tasks[p].poster.k] < |s.missions| && s.missions[c.subs[p][s.tasks[p].poster.k]].locked
  }

  ghost predicate WorkerBlocked(s: State, i: nat) {
    && i < |s.workers| && s.workers[i].Switching? && s.workers[i].m < |s.missions|
    && s.missions[s.workers[i].m].locked
  }

  /** A timed-out wait, a wait for a lock and a finished poster change nothing; every other step
      is one. */
  ghost predicate Enabled(c: Config, s: State, a: Actor) {
    && Actors(s, a)
    && if a.APoster? then !s.tasks[a.p].poster.Done? && !PosterBlocked(c, s, a.p)
       else !(s.workers[a.i].Waiting? && s.sem == 0) && !WorkerBlocked(s, a.i)
  }

  ghost predicate Initial(c: Config, s: State) {
    && (forall p, k | 0 <= p < |c.subs| && 0 <= k < |c.subs[p]| :: c.subs[p][k] < |c.concurrent|)
    && |s.tasks| == |c.subs| && |s.missions| == |c.concurrent|
    && (forall p | 0 <= p < |s.tasks| ::
          s.tasks[p] == Task(Walk(0), 1, 0, seq(|c.subs[p]|, _ => 0), seq(|c.subs[p]|, _ => 0)))
    && (forall m | 0 <= m < |s.missions| :: s.missions[m] == Mission(false, false, [], [], []))
    && s.ready == [] && s.sem == 0
    && (forall i | 0 <= i < |s.workers| :: s.workers[i] == Waiting)
  }

  // ---------- well-formed states ----------

  ghost predicate Known(c: Config, d: Delivery) {
    d.task < |c.subs| && d.sub < |c.subs[d.task]|
  }

  /** d goes to mission m. */
  ghost predicate For(c: Config, d: Delivery, m: nat) {
    Known(c, d) && c.subs[d.task][d.sub] == m
  }

  ghost predicate PosterOk(t: Task, subs: seq<nat>) {
    var n := |subs|;
    && |t.ran| == n && |t.dropped| == n
    && match t.poster
       case Walk(k) => k < n || k == 0
       case Push(k) => k < n
       case Check(k) => k < n
       case Post(k, m) => k < n && m == subs[k]
       case Done => true
  }

  ghost predicate LoadOk(c: Config, load: Load) {
    load.Carrying? ==> Known(c, load.d)
  }

  ghost predicate WorkerOk(c: Config, w: Worker) {
    match w
    case Waiting => true
    case Woken => true
    case Looking(m, cnt) => m < |c.concurrent|
    case Front(m, d) => m < |c.concurrent| && c.concurrent[m] && For(c, d, m)
    case Switching(m, load) => m < |c.concurrent| && LoadOk(c, load)
    case Deciding(m, load, _) => m < |c.concurrent| && LoadOk(c, load)
    case Posting(m, load) => m < |c.concurrent| && LoadOk(c, load)
    case Running(d) => Known(c, d)
    case Releasing(d) => Known(c, d)
    case Serving(m, _, d) => m < |c.concurrent| && !c.concurrent[m] && For(c, d, m)
    case Served(m, _, d) => m < |c.concurrent| && !c.concurrent[m] && For(c, d, m)
    case Popping(m, _, d) => m < |c.concurrent| && !c.concurrent[m] && For(c, d, m)
  }

  ghost predicate ConfigOk(c: Config) {
    forall p, k | 0 <= p < |c.subs| && 0 <= k < |c.subs[p]| :: c.subs[p][k] < |c.concurrent|
  }

  ghost predicate TasksOk(c: Config, ts: seq<Task>) {
    |ts| == |c.subs| && forall p | 0 <= p < |ts| :: PosterOk(ts[p], c.subs[p])
  }

  ghost predicate QueuesOk(c: Config, ms: seq<Mission>) {
    |ms| == |c.concurrent| && forall m | 0 <= m < |ms| :: QueueOk(c, ms[m].queue, m)
  }

  ghost predicate QueueOk(c: Config, q: seq<Delivery>, m: nat) {
    forall k | 0 <= k < |q| :: For(c, q[k], m)
  }

  ghost predicate WorkersOk(c: Config, ws: seq<Worker>) {
    forall i | 0 <= i < |ws| :: WorkerOk(c, ws[i])
  }

  ghost predicate ReadyOk(c: Config, ready: seq<nat>) {
    forall j | 0 <= j < |ready| :: ready[j] < |c.concurrent|
  }

  ghost predicate WellFormed(c: Config, s: State) {
    ConfigOk(c) && TasksOk(c, s.tasks) && QueuesOk(c, s.missions) && ReadyOk(c, s.ready) && WorkersOk(c, s.workers)
  }

  lemma PosterWellFormed(c: Config, s: State, p: nat)
    requires WellFormed(c, s) && p < |s.tasks|
    ensures WellFormed(c, PosterStep(c, s, p))
  {
    hide WorkersOk;
    var s' := PosterStep(c, s, p);
    assert TasksOk(c, s'.tasks);
    assert s.tasks[p].poster.Push? ==> c.subs[p][s.tasks[p].poster.k] < |s.missions|;
  }

  lemma WorkerWellFormed(c: Config, s: State, i: nat)
    requires WellFormed(c, s) && i < |s.workers|
    ensures WellFormed(c, WorkerStep(c, s, i))
  {
    hide ConfigOk; hide TasksOk; hide QueuesOk; hide ReadyOk; hide WorkersOk; hide WorkerStep;
    WorkerTasksOk(c, s, i);
    WorkerQueuesOk(c, s, i);
    WorkerPcOk(c, s, i);
  }

  lemma WorkerTasksOk(c: Config, s: State, i: nat)
    requires WellFormed(c, s) && i < |s.workers|
    ensures TasksOk(c, WorkerStep(c, s, i).tasks)
  {
    hide ConfigOk; hide QueueOk; hide ReadyOk;
    assert WorkerOk(c, s.workers[i]);
  }

  lemma WorkerQueuesOk(c: Config, s: State, i: nat)
    requires WellFormed(c, s) && i < |s.workers|
    ensures QueuesOk(c, WorkerStep(c, s, i).missions) && ReadyOk(c, WorkerStep(c, s, i).ready)
  {
    hide ConfigOk; hide TasksOk; hide For;
    assert WorkerOk(c, s.workers[i]);
  }

  lemma WorkerPcOk(c: Config, s: State, i: nat)
    requires WellFormed(c, s) && i < |s.workers|
    ensures WorkersOk(c, WorkerStep(c, s, i).workers)
  {
    hide ConfigOk; hide TasksOk;
    assert WorkerOk(c, s.workers[i]);
    assert WorkerOk(c, WorkerStep(c, s, i).workers[i]);
  }

  // ---------- who owns a mission ----------

  /** The mission a worker has taken and whose status it has not yet switched. */
  ghost predicate Holds(w: Worker, m: nat) {
    match w
    case Looking(m', _) => m' == m
    case Front(m', _) => m' == m
    case Switching(m', _) => m' == m
    case Deciding(m', _, _) => m' == m
    case Serving(m', _, _) => m' == m
    case Served(m', _, _) => m' == m
    case Popping(m', _, _) => m' == m
    case _ => false
  }

  ghost function Holding(m: nat): Worker -> int {
    w => Bit(Holds(w, m))
  }

  /** A mission that is ready is in the ready queue once or held by one worker, and not both;
      an idle mission is neither. */
  ghost predicate OwnedOnce(s: State) {
    forall m | 0 <= m < |s.missions| :: OwnedAt(s, m)
  }

  ghost predicate OwnedAt(s: State, m: nat)
    requires m < |s.missions|
  {
    multiset(s.ready)[m] + Sum(s.workers, Holding(m)) == Bit(s.missions[m].ready)
  }

  lemma Exclusive(s: State, m: nat, i: nat, j: nat)
    requires OwnedOnce(s) && m < |s.missions| && i < |s.workers| && j < |s.workers|
    requires Holds(s.workers[i], m)
    ensures s.missions[m].ready && m !in s.ready
    ensures Holds(s.workers[j], m) ==> i == j
  {
    assert OwnedAt(s, m);
    SumAtLeast(s.workers, i, Holding(m));
    if i < j { SumTwo(s.workers, i, j, Holding(m)); }
    if j < i { SumTwo(s.workers, j, i, Holding(m)); }
  }

  lemma PosterOwned(c: Config, s: State, p: nat)
    requires WellFormed(c, s) && OwnedOnce(s) && p < |s.tasks|
    ensures OwnedOnce(PosterStep(c, s, p))
  {
    hide WorkersOk; hide ReadyOk; hide QueueOk;
    var s' := PosterStep(c, s, p);
    if s.tasks[p].poster.Check? {
      var m := c.subs[p][s.tasks[p].poster.k];
      SumNat(s.workers, Holding(m));
    }
    forall m | 0 <= m < |s.missions| ensures OwnedAt(s', m) {
      assert OwnedAt(s, m);
    }
  }

  /** What a worker's step does to the ready queue. */
  lemma WorkerReady(c: Config, s: State, i: nat)
    requires WellFormed(c, s) && i < |s.workers|
    ensures var w := s.workers[i];
      WorkerStep(c, s, i).ready ==
        if w.Woken? && s.ready != [] then s.ready[1..]
        else if w.Deciding? && w.more then s.ready + [w.m] else s.ready
  {
    hide TasksOk; hide QueueOk; hide ConfigOk; hide ReadyOk; hide WorkersOk;
  }

  /** Whether it holds mission m, and whether that is ready. */
  lemma WorkerHolds(c: Config, s: State, i: nat, m: nat)
    requires WellFormed(c, s) && i < |s.workers| && m < |s.missions|
    ensures var s', w := WorkerStep(c, s, i), s.workers[i];
      && Holding(m)(s'.workers[i]) == Holding(m)(w) + Bit(w.Woken? && s.ready != [] && s.ready[0] == m)
                                      - Bit(w.Deciding? && w.m == m)
      && s'.missions[m].ready == if w.Deciding? && w.m == m then w.more else s.missions[m].ready
  {
    hide TasksOk; hide QueueOk; hide ConfigOk; hide ReadyOk;
    assert WorkerOk(c, s.workers[i]);
  }

  /** A worker's step passes a mission between the ready queue and the worker's hands, or sets it
      idle. */
  lemma WorkerPasses(c: Config, s: State, i: nat, m: nat)
    requires WellFormed(c, s) && i < |s.workers| && m < |s.missions|
    requires Holds(s.workers[i], m) ==> s.missions[m].ready
    ensures var s' := WorkerStep(c, s, i);
      multiset(s'.ready)[m] + Holding(m)(s'.workers[i]) - Bit(s'.missions[m].ready)
        == multiset(s.ready)[m] + Holding(m)(s.workers[i]) - Bit(s.missions[m].ready)
  {
    hide WellFormed; hide WorkerStep;
    WorkerReady(c, s, i);
    WorkerHolds(c, s, i, m);
    if s.workers[i].Woken? && s.ready != [] { Tail(s.ready); }
  }

  lemma WorkerOwnedAt(c: Config, s: State, i: nat, m: nat)
    requires WellFormed(c, s) && OwnedOnce(s) && i < |s.workers| && m < |s.missions|
    ensures OwnedAt(WorkerStep(c, s, i), m)
  {
    hide WellFormed; hide WorkerStep; hide Sum;
    assert OwnedAt(s, m);
    SumUpdate(s.workers, i, WorkerStep(c, s, i).workers[i], Holding(m));
    if Holds(s.workers[i], m) { Exclusive(s, m, i, i); }
    WorkerPasses(c, s, i, m);
  }

  lemma WorkerOwned(c: Config, s: State, i: nat)
    requires WellFormed(c, s) && OwnedOnce(s) && i < |s.workers|
    ensures OwnedOnce(WorkerStep(c, s, i))
  {
    hide OwnedAt; hide WellFormed; hide WorkerStep;
    forall m | 0 <= m < |s.missions| ensures OwnedAt(WorkerStep(c, s, i), m) {
      WorkerOwnedAt(c, s, i, m);
    }
  }

  // ---------- the semaphore ----------

  /** Workers that have waited and not yet popped, and those that have pushed and not posted. */
  ghost function Owing(): Worker -> int {
    (w: Worker) => Bit(w.Woken? || w.Posting?)
  }

  ghost function PostOwing(): Task -> int {
    (t: Task) => Bit(t.poster.Post?)
  }

  ghost predicate SemaphoreOk(s: State) {
    |s.ready| == s.sem + Sum(s.workers, Owing()) + Sum(s.tasks, PostOwing())
  }

  lemma PosterSemaphore(c: Config, s: State, p: nat)
    requires WellFormed(c, s) && SemaphoreOk(s) && p < |s.tasks|
    ensures SemaphoreOk(PosterStep(c, s, p))
  {
    hide WorkersOk; hide ReadyOk; hide QueueOk; hide Sum;
    SumUpdate(s.tasks, p, PosterStep(c, s, p).tasks[p], PostOwing());
  }

  lemma WorkerSemaphore(c: Config, s: State, i: nat)
    requires WellFormed(c, s) && SemaphoreOk(s) && i < |s.workers|
    ensures SemaphoreOk(WorkerStep(c, s, i))
  {
    hide ReadyOk; hide QueueOk; hide Sum; hide ConfigOk;
    var s', w := WorkerStep(c, s, i), s.workers[i];
    SumUpdate(s.workers, i, s'.workers[i], Owing());
    assert WorkerOk(c, w);
    if w.Woken? {
      SumAtLeast(s.workers, i, Owing());
      SumNat(s.tasks, PostOwing());
    }
    WorkerPosters(c, s, i, PostOwing());
  }

  /** The task a worker operates on or releases next. */
  ghost function DeliveryOf(w: Worker): Load {
    match w
    case Running(d) => Carrying(d)
    case Releasing(d) => Carrying(d)
    case Serving(_, _, d) => Carrying(d)
    case Served(_, _, d) => Carrying(d)
    case _ => Nothing
  }

  /** The pop after a successful wait finds a mission. */
  lemma WokenFindsMission(s: State, i: nat)
    requires SemaphoreOk(s) && i < |s.workers| && s.workers[i].Woken?
    ensures s.ready != []
  {
    SumAtLeast(s.workers, i, Owing());
    SumNat(s.tasks, PostOwing());
  }

  // ---------- the status lock ----------

  ghost function Locking(m: nat): Worker -> int {
    (w: Worker) => Bit((w.Deciding? || w.Posting?) && w.m == m)
  }

  ghost function PostLocking(m: nat): Task -> int {
    (t: Task) => Bit(t.poster.Post? && t.poster.m == m)
  }

  /** The lock is held by one worker or one poster, or by nobody. */
  ghost predicate LockAt(s: State, m: nat)
    requires m < |s.missions|
  {
    Sum(s.workers, Locking(m)) + Sum(s.tasks, PostLocking(m)) == Bit(s.missions[m].locked)
  }

  ghost predicate Locks(s: State) {
    forall m | 0 <= m < |s.missions| :: LockAt(s, m)
  }

  lemma PosterLockAt(c: Config, s: State, p: nat, m: nat)
    requires WellFormed(c, s) && Locks(s) && p < |s.tasks| && m < |s.missions|
    ensures LockAt(PosterStep(c, s, p), m)
  {
    hide WorkersOk; hide ReadyOk; hide QueueOk; hide Sum;
    assert LockAt(s, m) && PosterOk(s.tasks[p], c.subs[p]);
    SumUpdate(s.tasks, p, PosterStep(c, s, p).tasks[p], PostLocking(m));
    if s.tasks[p].poster.Post? && s.tasks[p].poster.m == m {
      SumAtLeast(s.tasks, p, PostLocking(m));
      SumNat(s.workers, Locking(m));
    }
  }

  lemma PosterLocks(c: Config, s: State, p: nat)
    requires WellFormed(c, s) && Locks(s) && p < |s.tasks|
    ensures Locks(PosterStep(c, s, p))
  {
    hide LockAt; hide WellFormed; hide PosterStep;
    forall m | 0 <= m < |s.missions| ensures LockAt(PosterStep(c, s, p), m) {
      PosterLockAt(c, s, p, m);
    }
  }

  /** A worker's step takes and gives back the lock of a mission as the worker's state says, and
      leaves the posters where they are. */
  lemma WorkerLocking(c: Config, s: State, i: nat, m: nat)
    requires WellFormed(c, s) && i < |s.workers| && m < |s.missions|
    requires Locking(m)(s.workers[i]) > 0 ==> s.missions[m].locked
    ensures var s' := WorkerStep(c, s, i);
      Locking(m)(s'.workers[i]) - Bit(s'.missions[m].locked)
        == Locking(m)(s.workers[i]) - Bit(s.missions[m].locked)
  {
    hide TasksOk; hide QueueOk; hide ConfigOk; hide ReadyOk;
    assert WorkerOk(c, s.workers[i]);
  }

  lemma WorkerPosters(c: Config, s: State, i: nat, f: Task -> int)
    requires WellFormed(c, s) && i < |s.workers| && (forall t: Task, u: Task | t.poster == u.poster :: f(t) == f(u))
    ensures forall p | 0 <= p < |s.tasks| :: WorkerStep(c, s, i).tasks[p].poster == s.tasks[p].poster
    ensures Sum(WorkerStep(c, s, i).tasks, f) == Sum(s.tasks, f)
  {
    hide QueueOk; hide ConfigOk; hide ReadyOk; hide Sum;
    var s', w := WorkerStep(c, s, i), s.workers[i];
    assert WorkerOk(c, w);
    var d := DeliveryOf(w);
    if d.Carrying? {
      SumUpdate(s.tasks, d.d.task, s'.tasks[d.d.task], f);
    }
  }

  lemma WorkerLocks(c: Config, s: State, i: nat)
    requires WellFormed(c, s) && Locks(s) && i < |s.workers|
    ensures Locks(WorkerStep(c, s, i))
  {
    hide WellFormed; hide WorkerStep; hide Sum;
    var s' := WorkerStep(c, s, i);
    forall m | 0 <= m < |s.missions| ensures LockAt(s', m) {
      assert LockAt(s, m);
      SumUpdate(s.workers, i, s'.workers[i], Locking(m));
      SumAtLeast(s.workers, i, Locking(m));
      SumNat(s.tasks, PostLocking(m));
      WorkerLocking(c, s, i, m);
      WorkerPosters(c, s, i, PostLocking(m));
    }
  }

  // ---------- no lost wakeup ----------

  /** Poster p has pushed for mission m and not yet looked at its status. */
  ghost predicate ChecksFor(c: Config, s: State, p: nat, m: nat) {
    && p < |s.tasks| && p < |c.subs| && s.tasks[p].poster.Check? && s.tasks[p].poster.k < |c.subs[p]|
    && c.subs[p][s.tasks[p].poster.k] == m
  }

  /** Worker i has found the queue of mission m empty and is going to set it idle. */
  ghost predicate GivesUp(s: State, i: nat, m: nat) {
    i < |s.workers| && s.workers[i].Deciding? && s.workers[i].m == m && !s.workers[i].more
  }

  /** A mission that is idle or about to be, and has tasks in its queue all the same, has a poster
      that will find it idle. */
  ghost predicate Awake(c: Config, s: State) {
    forall m | 0 <= m < |s.missions| && s.missions[m].queue != [] ::
      (!s.missions[m].ready || exists i: nat :: GivesUp(s, i, m)) ==> exists p: nat :: ChecksFor(c, s, p, m)
  }

  lemma GivingUpLocks(s: State, i: nat, m: nat)
    requires Locks(s) && m < |s.missions| && GivesUp(s, i, m)
    ensures s.missions[m].locked
  {
    assert LockAt(s, m);
    SumAtLeast(s.workers, i, Locking(m));
    SumNat(s.tasks, PostLocking(m));
  }

  lemma PosterAwake(c: Config, s: State, p: nat)
    requires WellFormed(c, s) && Locks(s) && Awake(c, s) && p < |s.tasks|
    ensures Awake(c, PosterStep(c, s, p))
  {
    hide WorkersOk; hide ReadyOk; hide QueueOk; hide Locks;
    var s' := PosterStep(c, s, p);
    assert PosterOk(s.tasks[p], c.subs[p]);
    forall m | 0 <= m < |s'.missions| && s'.missions[m].queue != [] &&
               (!s'.missions[m].ready || exists i: nat :: GivesUp(s', i, m))
      ensures exists q: nat :: ChecksFor(c, s', q, m)
    {
      if i: nat :| GivesUp(s', i, m) {
        assert GivesUp(s, i, m);
        GivingUpLocks(s, i, m);
      }
      if s.missions[m].queue == [] {
        assert ChecksFor(c, s', p, m);
      } else {
        var q: nat :| ChecksFor(c, s, q, m);
        assert ChecksFor(c, s', q, m);
      }
    }
  }

  lemma WorkerAwake(c: Config, s: State, i: nat)
    requires WellFormed(c, s) && Awake(c, s) && i < |s.workers|
    ensures Awake(c, WorkerStep(c, s, i))
  {
    hide WellFormed; hide WorkerStep; hide Sum;
    var s' := WorkerStep(c, s, i);
    WorkerPosters(c, s, i, PostOwing());
    forall m | 0 <= m < |s'.missions| && s'.missions[m].queue != [] &&
               (!s'.missions[m].ready || exists j: nat :: GivesUp(s', j, m))
      ensures exists q: nat :: ChecksFor(c, s', q, m)
    {
      WorkerGivesUp(c, s, i, m);
      var q: nat :| ChecksFor(c, s, q, m);
      assert ChecksFor(c, s', q, m);
    }
  }

  /** A mission that is idle or about to be after the step was so before, if it has tasks. */
  lemma WorkerGivesUp(c: Config, s: State, i: nat, m: nat)
    requires WellFormed(c, s) && i < |s.workers| && m < |s.missions|
    requires var s' := WorkerStep(c, s, i);
      s'.missions[m].queue != [] && (!s'.missions[m].ready || exists j: nat :: GivesUp(s', j, m))
    ensures s.missions[m].queue != [] && (!s.missions[m].ready || exists j: nat :: GivesUp(s, j, m))
  {
    hide TasksOk; hide QueueOk; hide ConfigOk; hide ReadyOk;
    var s' := WorkerStep(c, s, i);
    assert WorkerOk(c, s.workers[i]);
    if j: nat :| GivesUp(s', j, m) {
      assert GivesUp(s, j, m);
    } else {
      assert GivesUp(s, i, m) || !s.missions[m].ready;
    }
  }

  // ---------- the head a worker has read ----------

  ghost predicate HeadOk(ms: seq<Mission>, w: Worker) {
    (w.Front? || w.Serving? || w.Served? || w.Popping?) ==>
      w.m < |ms| && ms[w.m].queue != [] && ms[w.m].queue[0] == w.d
  }

  /** What a worker has read at the head of a queue is what its pop will take off. */
  ghost predicate Heads(s: State) {
    forall i | 0 <= i < |s.workers| :: HeadOk(s.missions, s.workers[i])
  }

  lemma PosterHeads(c: Config, s: State, p: nat)
    requires WellFormed(c, s) && Heads(s) && p < |s.tasks|
    ensures Heads(PosterStep(c, s, p))
  {
    hide WorkersOk; hide ReadyOk; hide QueueOk;
    var s' := PosterStep(c, s, p);
    forall i | 0 <= i < |s.workers| ensures HeadOk(s'.missions, s'.workers[i]) {
      assert HeadOk(s.missions, s.workers[i]);
    }
  }

  lemma WorkerHeads(c: Config, s: State, i: nat)
    requires WellFormed(c, s) && OwnedOnce(s) && Heads(s) && i < |s.workers|
    ensures Heads(WorkerStep(c, s, i))
  {
    hide ReadyOk; hide QueueOk; hide ConfigOk; hide OwnedOnce; hide TasksOk;
    var s', w := WorkerStep(c, s, i), s.workers[i];
    assert WorkerOk(c, w) && HeadOk(s.missions, w);
    forall j | 0 <= j < |s.workers| ensures HeadOk(s'.missions, s'.workers[j]) {
      var v := s.workers[j];
      assert HeadOk(s.missions, v);
      if j != i && HasHead(v) && Holds(w, v.m) {
        Exclusive(s, v.m, i, j);
      }
    }
  }

  ghost predicate HasHead(w: Worker) {
    w.Front? || w.Serving? || w.Served? || w.Popping?
  }

  // ---------- every delivery once ----------

  /** The first subscriber's turn that has not come. */
  ghost function PushedCount(t: Poster, n: nat): nat {
    match t
    case Walk(k) => k
    case Push(k) => k
    case Check(k) => k + 1
    case Post(k, _) => k + 1
    case Done => n
  }

  /** Which of two things is counted: operating on a task or releasing it. */
  datatype What = Ran | Dropped

  /** A delivery carried by a worker that still has to happen counts one; one that has happened
      while the delivery is still in its queue counts minus one. */
  ghost function Due(w: Worker, d: Delivery, x: What): int {
    match w
    case Switching(_, load) => Bit(load == Carrying(d))
    case Deciding(_, load, _) => Bit(load == Carrying(d))
    case Posting(_, load) => Bit(load == Carrying(d))
    case Running(e) => Bit(e == d)
    case Releasing(e) => if x == Dropped then Bit(e == d) else 0
    case Served(_, _, e) => if x == Dropped then 0 else -Bit(e == d)
    case Popping(_, _, e) => -Bit(e == d)
    case _ => 0
  }

  ghost function DueBy(d: Delivery, x: What): Worker -> int {
    w => Due(w, d, x)
  }

  ghost function Tally(t: Task, x: What): seq<nat> {
    if x == Ran then t.ran else t.dropped
  }

  ghost function Queued(c: Config, ms: seq<Mission>, d: Delivery): nat
    requires Known(c, d) && c.subs[d.task][d.sub] < |ms|
  {
    multiset(ms[c.subs[d.task][d.sub]].queue)[d]
  }

  /** What is still owed to a delivery: in its queue, or in the hands of a worker. */
  ghost function Owed(c: Config, s: State, d: Delivery, x: What): int
    requires WellFormed(c, s) && Known(c, d)
  {
    Queued(c, s.missions, d) + Sum(s.workers, DueBy(d, x))
  }

  lemma QueuedPush(c: Config, ms: seq<Mission>, m: nat, e: Delivery, d: Delivery, ms': seq<Mission>)
    requires For(c, e, m) && m < |ms| && Known(c, d) && c.subs[d.task][d.sub] < |ms|
    requires |ms'| == |ms| && ms'[m].queue == ms[m].queue + [e]
    requires forall k | 0 <= k < |ms| && k != m :: ms'[k] == ms[k]
    ensures Queued(c, ms', d) == Queued(c, ms, d) + Bit(d == e)
  {
  }

  lemma QueuedPop(c: Config, ms: seq<Mission>, m: nat, e: Delivery, d: Delivery, ms': seq<Mission>)
    requires For(c, e, m) && m < |ms| && Known(c, d) && c.subs[d.task][d.sub] < |ms|
    requires ms[m].queue != [] && ms[m].queue[0] == e && |ms'| == |ms| && ms'[m].queue == ms[m].queue[1..]
    requires forall k | 0 <= k < |ms| && k != m :: ms'[k] == ms[k]
    ensures Queued(c, ms', d) == Queued(c, ms, d) - Bit(d == e)
  {
    Tail(ms[m].queue);
  }

  ghost predicate CountedAt(c: Config, s: State, d: Delivery, x: What)
    requires WellFormed(c, s) && Known(c, d)
  {
    Tally(s.tasks[d.task], x)[d.sub] + Owed(c, s, d, x)
      == Bit(d.sub < PushedCount(s.tasks[d.task].poster, |c.subs[d.task]|))
  }

  ghost predicate Counted(c: Config, s: State)
    requires WellFormed(c, s)
  {
    forall d, x | Known(c, d) :: CountedAt(c, s, d, x)
  }

  lemma PosterCounted(c: Config, s: State, p: nat)
    requires WellFormed(c, s) && Counted(c, s) && p < |s.tasks|
    ensures WellFormed(c, PosterStep(c, s, p)) && Counted(c, PosterStep(c, s, p))
  {
    PosterWellFormed(c, s, p);
    var s' := PosterStep(c, s, p);
    forall d, x | Known(c, d) ensures CountedAt(c, s', d, x) {
      PosterCountedAt(c, s, p, d, x);
    }
  }

  lemma PosterCountedAt(c: Config, s: State, p: nat, d: Delivery, x: What)
    requires WellFormed(c, s) && Known(c, d) && CountedAt(c, s, d, x) && p < |s.tasks|
    requires WellFormed(c, PosterStep(c, s, p))
    ensures CountedAt(c, PosterStep(c, s, p), d, x)
  {
    hide WorkersOk; hide ReadyOk; hide QueueOk; hide Sum; hide Queued;
    var s', po := PosterStep(c, s, p), s.tasks[p].poster;
    assert PosterOk(s.tasks[p], c.subs[p]) && c.subs[d.task][d.sub] < |s.missions|;
    if po.Push? {
      QueuedPush(c, s.missions, c.subs[p][po.k], Delivery(p, po.k), d, s'.missions);
    } else {
      QueuedSame(c, s.missions, d, s'.missions);
    }
  }

  lemma QueuedSame(c: Config, ms: seq<Mission>, d: Delivery, ms': seq<Mission>)
    requires Known(c, d) && c.subs[d.task][d.sub] < |ms| == |ms'|
    requires forall k | 0 <= k < |ms| :: ms'[k].queue == ms[k].queue
    ensures Queued(c, ms', d) == Queued(c, ms, d)
  {
  }

  ghost predicate Pops(w: Worker) {
    w.Front? || w.Popping?
  }

  /** The delivery a worker operates on with its next step, and the one it releases. */
  ghost function Doing(w: Worker, x: What): Load {
    match w
    case Running(d) => if x == Ran then Carrying(d) else Nothing
    case Serving(_, _, d) => if x == Ran then Carrying(d) else Nothing
    case Releasing(d) => if x == Dropped then Carrying(d) else Nothing
    case Served(_, _, d) => if x == Dropped then Carrying(d) else Nothing
    case _ => Nothing
  }

  lemma WorkerDue(c: Config, s: State, i: nat, d: Delivery, x: What)
    requires WellFormed(c, s) && i < |s.workers|
    ensures var w := s.workers[i];
      Due(WorkerStep(c, s, i).workers[i], d, x) + Bit(Doing(w, x) == Carrying(d))
        == Due(w, d, x) + if Pops(w) then Bit(d == w.d) else 0
  {
    hide TasksOk; hide QueueOk; hide ConfigOk; hide ReadyOk;
    assert WorkerOk(c, s.workers[i]);
  }

  lemma WorkerTask(c: Config, s: State, i: nat, p: nat, x: What)
    requires WellFormed(c, s) && i < |s.workers| && p < |s.tasks|
    ensures var t, t', w := s.tasks[p], WorkerStep(c, s, i).tasks[p], s.workers[i];
      && t'.poster == t.poster && |t'.ran| == |t.ran| && |t'.dropped| == |t.dropped|
      && Tally(t', x) == (match Doing(w, x)
                          case Nothing => Tally(t, x)
                          case Carrying(d) => if d.task == p then Count(Tally(t, x), d.sub) else Tally(t, x))
  {
    hide TasksOk; hide QueueOk; hide ConfigOk; hide ReadyOk;
    assert WorkerOk(c, s.workers[i]);
  }

  /** A worker's step moves a delivery along: what it owes less is counted or was in the queue. */
  lemma WorkerTally(c: Config, s: State, i: nat, d: Delivery, x: What)
    requires WellFormed(c, s) && i < |s.workers|
    requires Known(c, d) && |s.tasks| == |c.subs| && PosterOk(s.tasks[d.task], c.subs[d.task])
    ensures var s', w := WorkerStep(c, s, i), s.workers[i];
      && PosterOk(s'.tasks[d.task], c.subs[d.task]) && s'.tasks[d.task].poster == s.tasks[d.task].poster
      && Tally(s'.tasks[d.task], x)[d.sub] + Due(s'.workers[i], d, x) - (if Pops(w) then Bit(d == w.d) else 0)
         == Tally(s.tasks[d.task], x)[d.sub] + Due(w, d, x)
  {
    hide WellFormed; hide WorkerStep; hide Due; hide Doing; hide Pops;
    WorkerDue(c, s, i, d, x);
    WorkerTask(c, s, i, d.task, x);
  }

  lemma WorkerQueued(c: Config, s: State, i: nat, d: Delivery)
    requires WellFormed(c, s) && i < |s.workers| && HeadOk(s.missions, s.workers[i]) && Known(c, d)
    requires c.subs[d.task][d.sub] < |s.missions|
    ensures var s', w := WorkerStep(c, s, i), s.workers[i];
      Queued(c, s'.missions, d) == Queued(c, s.missions, d) - (if Pops(w) then Bit(d == w.d) else 0)
  {
    hide ReadyOk; hide QueueOk; hide ConfigOk; hide Queued; hide TasksOk;
    var s', w := WorkerStep(c, s, i), s.workers[i];
    assert WorkerOk(c, w);
    if Pops(w) {
      QueuedPop(c, s.missions, w.m, w.d, d, s'.missions);
    } else {
      QueuedSame(c, s.missions, d, s'.missions);
    }
  }

  lemma WorkerCountedAt(c: Config, s: State, i: nat, d: Delivery, x: What)
    requires WellFormed(c, s) && i < |s.workers| && HeadOk(s.missions, s.workers[i])
    requires Known(c, d) && CountedAt(c, s, d, x) && WellFormed(c, WorkerStep(c, s, i))
    ensures CountedAt(c, WorkerStep(c, s, i), d, x)
  {
    hide ReadyOk; hide QueueOk; hide Sum; hide Queued; hide WorkerStep; hide Pops; hide Due; hide HeadOk;
    assert PosterOk(s.tasks[d.task], c.subs[d.task]);
    WorkerTally(c, s, i, d, x);
    WorkerQueued(c, s, i, d);
    SumUpdate(s.workers, i, WorkerStep(c, s, i).workers[i], DueBy(d, x));
  }

  lemma WorkerCounted(c: Config, s: State, i: nat)
    requires WellFormed(c, s) && Heads(s) && Counted(c, s) && i < |s.workers|
    ensures WellFormed(c, WorkerStep(c, s, i)) && Counted(c, WorkerStep(c, s, i))
  {
    WorkerWellFormed(c, s, i);
    var s' := WorkerStep(c, s, i);
    forall d, x | Known(c, d) ensures CountedAt(c, s', d, x) {
      WorkerCountedAt(c, s, i, d, x);
    }
  }

  /** Workers owe less than nothing only for a delivery at the head of its queue. */
  lemma Covered(c: Config, s: State, ws: seq<Worker>, d: Delivery, x: What)
    requires WellFormed(c, s) && Known(c, d) && Sum(ws, Holding(c.subs[d.task][d.sub])) <= 1
    requires forall w | w in ws :: WorkerOk(c, w) && HeadOk(s.missions, w)
    ensures Queued(c, s.missions, d) + Sum(ws, DueBy(d, x)) >= 0
  {
    var m, f := c.subs[d.task][d.sub], DueBy(d, x);
    forall w | w in ws ensures f(w) >= -Holding(m)(w) {
      assert WorkerOk(c, w);
    }
    SumAgainst(ws, f, Holding(m));
    if Sum(ws, f) < 0 {
      if forall w | w in ws :: f(w) >= 0 { SumNat(ws, f); }
      var w :| w in ws && f(w) < 0;
      assert HeadOk(s.missions, w) && WorkerOk(c, w);
      assert s.missions[m].queue[0] == d;
    }
  }

  /** The invariant as far as deliveries need it. */
  ghost predicate Handed(c: Config, s: State) {
    WellFormed(c, s) && OwnedOnce(s) && Heads(s) && Counted(c, s)
  }

  lemma OneHolder(c: Config, s: State, m: nat)
    requires WellFormed(c, s) && OwnedOnce(s) && m < |s.missions|
    ensures Sum(s.workers, Holding(m)) <= 1
  {
    assert OwnedAt(s, m);
  }

  lemma OwedNat(c: Config, s: State, d: Delivery, x: What)
    requires Handed(c, s) && Known(c, d)
    ensures Owed(c, s, d, x) >= 0 && CountedAt(c, s, d, x)
  {
    OneHolder(c, s, c.subs[d.task][d.sub]);
    Heading(c, s, s.workers);
    Covered(c, s, s.workers, d, x);
  }

  lemma Heading(c: Config, s: State, ws: seq<Worker>)
    requires WellFormed(c, s) && Heads(s) && forall w | w in ws :: w == Waiting || w in s.workers
    ensures forall w | w in ws :: WorkerOk(c, w) && HeadOk(s.missions, w)
  {
    forall w | w in ws ensures WorkerOk(c, w) && HeadOk(s.missions, w) {
      if w != Waiting {
        var i :| 0 <= i < |s.workers| && s.workers[i] == w;
      }
    }
  }

  /** A worker about to operate on or release a delivery owes it that. */
  lemma OwedByOne(c: Config, s: State, i: nat, d: Delivery, x: What)
    requires Handed(c, s) && i < |s.workers| && Known(c, d)
    requires var w := s.workers[i]; Due(w, d, x) > 0 || (Due(w, d, x) == 0 && HasHead(w) && w.d == d)
    ensures Owed(c, s, d, x) >= 1 && CountedAt(c, s, d, x)
  {
    hide TasksOk; hide QueueOk; hide ReadyOk; hide OwnedAt;
    var m, w, ws, f := c.subs[d.task][d.sub], s.workers[i], s.workers[i := Waiting], DueBy(d, x);
    assert WorkerOk(c, w) && HeadOk(s.missions, w);
    OneHolder(c, s, m);
    SumUpdate(s.workers, i, Waiting, f);
    SumUpdate(s.workers, i, Waiting, Holding(m));
    Heading(c, s, ws);
    Covered(c, s, ws, d, x);
    if Due(w, d, x) == 0 {
      assert Holds(w, m);
      NoneHolds(c, s, ws, d, x);
      assert s.missions[m].queue[0] == d;
    }
  }

  lemma NoneHolds(c: Config, s: State, ws: seq<Worker>, d: Delivery, x: What)
    requires Known(c, d) && Sum(ws, Holding(c.subs[d.task][d.sub])) <= 0
    requires forall w | w in ws :: WorkerOk(c, w)
    ensures Sum(ws, DueBy(d, x)) >= 0
  {
    var m := c.subs[d.task][d.sub];
    forall w | w in ws ensures DueBy(d, x)(w) >= -Holding(m)(w) {
      assert WorkerOk(c, w);
    }
    SumAgainst(ws, DueBy(d, x), Holding(m));
  }

  /** A subscriber is never operated twice; a worker about to operate is the first. */
  lemma OperatedOnce(c: Config, s: State, i: nat, d: Delivery)
    requires Handed(c, s) && i < |s.workers| && Known(c, d)
    requires s.workers[i] == Running(d) || (s.workers[i].Serving? && s.workers[i].d == d)
    ensures d.sub < |s.tasks[d.task].ran| && s.tasks[d.task].ran[d.sub] == 0
  {
    OwedByOne(c, s, i, d, Ran);
  }

  /** A worker about to release is the first to, and the operate is over. */
  lemma ReleasedOnce(c: Config, s: State, i: nat, d: Delivery)
    requires Handed(c, s) && i < |s.workers| && Known(c, d)
    requires s.workers[i] == Releasing(d) || (s.workers[i].Served? && s.workers[i].d == d)
    ensures var t := s.tasks[d.task];
      && |t.ran| == |t.dropped| == |c.subs[d.task]| && d.sub < PushedCount(t.poster, |t.ran|)
      && t.dropped[d.sub] == 0 && t.ran[d.sub] == 1
  {
    hide ConfigOk; hide QueueOk; hide ReadyOk; hide OwnedAt; hide Queued;
    var w, ws := s.workers[i], s.workers[i := Waiting];
    OwedByOne(c, s, i, d, Dropped);
    OwedNat(c, s, d, Ran);
    SumUpdate(s.workers, i, Waiting, DueBy(d, Ran));
    SumUpdate(s.workers, i, Waiting, DueBy(d, Dropped));
    SumBound(ws, DueBy(d, Ran), DueBy(d, Dropped));
  }

  /** No subscriber's release is ahead of its operate. */
  lemma OperateFirst(c: Config, s: State, d: Delivery)
    requires Handed(c, s) && Known(c, d)
    ensures var t := s.tasks[d.task];
      |t.ran| == |t.dropped| == |c.subs[d.task]| && t.dropped[d.sub] <= t.ran[d.sub] <= 1
      && (t.ran[d.sub] == 1 ==> d.sub < PushedCount(t.poster, |t.ran|))
  {
    OwedNat(c, s, d, Ran);
    OwedNat(c, s, d, Dropped);
    SumBound(s.workers, DueBy(d, Ran), DueBy(d, Dropped));
  }

  // ---------- references ----------

  ghost function Plain(): nat -> int {
    (x: nat) => x
  }

  /** The references the poster itself still has: one while subscribers are left, and one for
      the delivery it is about to push. */
  ghost function Hold(t: Poster, n: nat): nat {
    match t
    case Walk(_) => 1
    case Push(k) => if k + 1 < n then 2 else 1
    case Check(k) => if k + 1 < n then 1 else 0
    case Post(k, _) => if k + 1 < n then 1 else 0
    case Done => 0
  }

  ghost predicate RefOk(t: Task, n: nat) {
    && t.ref == PushedCount(t.poster, n) + Hold(t.poster, n) - Sum(t.dropped, Plain())
    && t.freed == Bit(t.ref == 0)
  }

  ghost predicate Refs(c: Config, s: State) {
    |s.tasks| == |c.subs| && forall p | 0 <= p < |s.tasks| :: RefOk(s.tasks[p], |c.subs[p]|)
  }

  lemma {:induction false} AtMost(xs: seq<nat>, k: nat)
    requires k <= |xs| && forall j | 0 <= j < |xs| :: xs[j] <= Bit(j < k)
    ensures Sum(xs, Plain()) <= k
  {
    if xs != [] {
      AtMost(xs[1..], if k == 0 then 0 else k - 1);
    }
  }

  /** Deliveries released are deliveries pushed. */
  lemma DroppedPushed(c: Config, s: State, p: nat)
    requires Handed(c, s) && p < |s.tasks|
    ensures var t, n := s.tasks[p], |c.subs[p]|;
      && |t.dropped| == n && PushedCount(t.poster, n) <= n
      && (forall k | 0 <= k < n :: t.dropped[k] <= Bit(k < PushedCount(t.poster, n)))
      && Sum(t.dropped, Plain()) <= PushedCount(t.poster, n)
  {
    var t, n := s.tasks[p], |c.subs[p]|;
    assert PosterOk(t, c.subs[p]);
    forall k | 0 <= k < n ensures t.dropped[k] <= Bit(k < PushedCount(t.poster, n)) {
      OwedNat(c, s, Delivery(p, k), Dropped);
    }
    AtMost(t.dropped, PushedCount(t.poster, n));
  }

  /** While a poster walks the chain the task has a reference, so a clone brings at least two. */
  lemma CloneSucceeds(c: Config, s: State, p: nat)
    requires Handed(c, s) && Refs(c, s) && p < |s.tasks| && s.tasks[p].poster.Walk?
    ensures s.tasks[p].ref + 1 >= 2 && s.tasks[p].freed == 0
  {
    DroppedPushed(c, s, p);
    assert RefOk(s.tasks[p], |c.subs[p]|);
  }

  lemma PosterRefs(c: Config, s: State, p: nat)
    requires Handed(c, s) && Refs(c, s) && p < |s.tasks|
    ensures Refs(c, PosterStep(c, s, p))
  {
    hide OwnedOnce; hide Heads; hide Counted; hide WorkersOk; hide QueueOk; hide ReadyOk; hide Sum;
    var s' := PosterStep(c, s, p);
    DroppedPushed(c, s, p);
    assert RefOk(s.tasks[p], |c.subs[p]|);
    forall q | 0 <= q < |s.tasks| ensures RefOk(s'.tasks[q], |c.subs[q]|) {
      assert RefOk(s.tasks[q], |c.subs[q]|);
    }
  }

  /** A delivery not yet released keeps its task alive. */
  lemma StillReferenced(c: Config, s: State, i: nat, d: Delivery)
    requires Handed(c, s) && Refs(c, s) && i < |s.workers| && Known(c, d)
    requires s.workers[i] == Releasing(d) || (s.workers[i].Served? && s.workers[i].d == d)
    ensures |s.tasks[d.task].dropped| == |c.subs[d.task]| && s.tasks[d.task].dropped[d.sub] == 0
    ensures s.tasks[d.task].ref >= 1
  {
    var t, n := s.tasks[d.task], |c.subs[d.task]|;
    ReleasedOnce(c, s, i, d);
    DroppedPushed(c, s, d.task);
    AtMost(t.dropped[d.sub := 1], PushedCount(t.poster, n));
    SumUpdate(t.dropped, d.sub, 1, Plain());
    assert RefOk(t, n);
  }

  lemma WorkerRefs(c: Config, s: State, i: nat)
    requires Handed(c, s) && Refs(c, s) && i < |s.workers|
    ensures Refs(c, WorkerStep(c, s, i))
  {
    hide OwnedOnce; hide Heads; hide Counted; hide QueueOk; hide ReadyOk; hide Sum; hide ConfigOk;
    var s', w := WorkerStep(c, s, i), s.workers[i];
    assert WorkerOk(c, w);
    if w.Releasing? || w.Served? {
      StillReferenced(c, s, i, w.d);
      SumUpdate(s.tasks[w.d.task].dropped, w.d.sub, 1, Plain());
    }
    forall q | 0 <= q < |s.tasks| ensures RefOk(s'.tasks[q], |c.subs[q]|) {
      assert RefOk(s.tasks[q], |c.subs[q]|);
    }
  }

  // ---------- the order of a serial mission ----------

  /** Operated and still in the queue. */
  ghost function Late(m: nat): Worker -> int {
    (w: Worker) => Bit((w.Served? || w.Popping?) && w.m == m)
  }

  /** Operated is what was pushed, in that order, up to where the queue begins, or one more. */
  ghost predicate InOrder(s: State, m: nat)
    requires m < |s.missions|
  {
    var ms := s.missions[m];
    && |ms.queue| <= |ms.pushed| && ms.queue == ms.pushed[|ms.pushed| - |ms.queue|..]
    && |ms.operated| + |ms.queue| == |ms.pushed| + Sum(s.workers, Late(m))
    && ms.operated <= ms.pushed
  }

  ghost predicate SerialOrder(c: Config, s: State) {
    |s.missions| == |c.concurrent| && forall m | 0 <= m < |s.missions| && !c.concurrent[m] :: InOrder(s, m)
  }

  lemma PosterOrder(c: Config, s: State, p: nat)
    requires WellFormed(c, s) && SerialOrder(c, s) && p < |s.tasks|
    ensures SerialOrder(c, PosterStep(c, s, p))
  {
    hide WorkersOk; hide QueueOk; hide ReadyOk; hide Sum;
    var s' := PosterStep(c, s, p);
    forall m | 0 <= m < |s.missions| && !c.concurrent[m] ensures InOrder(s', m) {
      assert InOrder(s, m);
      if s'.missions[m].queue != s.missions[m].queue {
        var d := Delivery(p, s.tasks[p].poster.k);
        SuffixPush(s.missions[m].queue, s.missions[m].pushed, d);
      }
    }
  }

  lemma SuffixPush<T>(q: seq<T>, h: seq<T>, x: T)
    requires |q| <= |h| && q == h[|h| - |q|..]
    ensures q + [x] == (h + [x])[|h + [x]| - |q + [x]|..]
  {
  }

  lemma LateOne(c: Config, s: State, i: nat, m: nat)
    requires WellFormed(c, s) && OwnedOnce(s) && i < |s.workers| && m < |s.missions| && Holds(s.workers[i], m)
    ensures Sum(s.workers, Late(m)) == Late(m)(s.workers[i])
  {
    var ws := s.workers[i := Waiting];
    OneHolder(c, s, m);
    SumUpdate(s.workers, i, Waiting, Holding(m));
    SumUpdate(s.workers, i, Waiting, Late(m));
    SumBound(ws, Late(m), Holding(m));
    SumNat(ws, Late(m));
  }

  lemma WorkerOrderAt(c: Config, s: State, i: nat, m: nat)
    requires WellFormed(c, s) && OwnedOnce(s) && i < |s.workers| && HeadOk(s.missions, s.workers[i])
    requires m < |s.missions| && !c.concurrent[m] && InOrder(s, m)
    ensures InOrder(WorkerStep(c, s, i), m)
  {
    hide QueueOk; hide ReadyOk; hide Sum; hide ConfigOk; hide TasksOk; hide OwnedOnce; hide WorkerStep;
    var s', w := WorkerStep(c, s, i), s.workers[i];
    SumUpdate(s.workers, i, s'.workers[i], Late(m));
    WorkerLog(c, s, i, m);
    if Holds(w, m) { LateOne(c, s, i, m); }
  }

  /** What a worker's step does to the queue and the records of a serial mission. */
  lemma WorkerLog(c: Config, s: State, i: nat, m: nat)
    requires WellFormed(c, s) && i < |s.workers| && HeadOk(s.missions, s.workers[i])
    requires m < |s.missions| && !c.concurrent[m]
    ensures var s', w := WorkerStep(c, s, i), s.workers[i];
      var ms, ms' := s.missions[m], s'.missions[m];
      && ms'.pushed == ms.pushed
      && ms'.operated == (if w.Serving? && w.m == m then ms.operated + [w.d] else ms.operated)
      && ms'.queue == (if w.Popping? && w.m == m then ms.queue[1..] else ms.queue)
      && Late(m)(s'.workers[i]) == Late(m)(w) + Bit(w.Serving? && w.m == m) - Bit(w.Popping? && w.m == m)
  {
    hide QueueOk; hide ReadyOk; hide ConfigOk; hide TasksOk;
    assert WorkerOk(c, s.workers[i]);
  }

  lemma WorkerOrder(c: Config, s: State, i: nat)
    requires WellFormed(c, s) && OwnedOnce(s) && Heads(s) && SerialOrder(c, s) && i < |s.workers|
    ensures SerialOrder(c, WorkerStep(c, s, i))
  {
    hide WellFormed; hide WorkerStep; hide InOrder; hide OwnedOnce;
    forall m | 0 <= m < |s.missions| && !c.concurrent[m] ensures InOrder(WorkerStep(c, s, i), m) {
      WorkerOrderAt(c, s, i, m);
    }
  }

  // ---------- every reachable state ----------

  ghost predicate Safe(c: Config, s: State) {
    Handed(c, s) && SemaphoreOk(s) && Locks(s) && Awake(c, s) && Refs(c, s) && SerialOrder(c, s)
  }

  ghost predicate Follows(c: Config, s: State, a: Actor, s': State) {
    WellFormed(c, s) && Actors(s, a) && s' == Step(c, s, a)
  }

  lemma StepSafe(c: Config, s: State, a: Actor)
    requires Safe(c, s) && Actors(s, a)
    ensures Safe(c, Step(c, s, a))
  {
    hide OwnedOnce; hide Heads; hide Counted; hide SemaphoreOk; hide Locks; hide Awake; hide Refs;
    hide SerialOrder; hide PosterStep; hide WorkerStep;
    if a.APoster? {
      PosterWellFormed(c, s, a.p);
      PosterOwned(c, s, a.p);
      PosterHeads(c, s, a.p);
      PosterCounted(c, s, a.p);
      PosterSemaphore(c, s, a.p);
      PosterLocks(c, s, a.p);
      PosterAwake(c, s, a.p);
      PosterRefs(c, s, a.p);
      PosterOrder(c, s, a.p);
    } else {
      WorkerWellFormed(c, s, a.i);
      WorkerOwned(c, s, a.i);
      WorkerHeads(c, s, a.i);
      WorkerCounted(c, s, a.i);
      WorkerSemaphore(c, s, a.i);
      WorkerLocks(c, s, a.i);
      WorkerAwake(c, s, a.i);
      WorkerRefs(c, s, a.i);
      WorkerOrder(c, s, a.i);
    }
  }

  lemma InitialSafe(c: Config, s: State)
    requires Initial(c, s)
    ensures Safe(c, s)
  {
    assert WellFormed(c, s) && Heads(s);
    assert Awake(c, s);
    InitialOwned(c, s);
    InitialCounted(c, s);
  }

  lemma InitialOwned(c: Config, s: State)
    requires Initial(c, s)
    ensures OwnedOnce(s) && SerialOrder(c, s) && SemaphoreOk(s) && Locks(s)
  {
    forall m: nat ensures Sum(s.workers, Locking(m)) == 0 && Sum(s.tasks, PostLocking(m)) == 0 {
      SumZero(s.workers, Locking(m));
      SumZero(s.tasks, PostLocking(m));
    }
    forall m: nat ensures Sum(s.workers, Holding(m)) == 0 && Sum(s.workers, Late(m)) == 0 {
      SumZero(s.workers, Holding(m));
      SumZero(s.workers, Late(m));
    }
    SumZero(s.workers, Owing());
    SumZero(s.tasks, PostOwing());
  }

  lemma InitialCounted(c: Config, s: State)
    requires Initial(c, s) && WellFormed(c, s)
    ensures Counted(c, s) && Refs(c, s)
  {
    forall d, x | Known(c, d) ensures CountedAt(c, s, d, x) {
      SumZero(s.workers, DueBy(d, x));
    }
    forall p | 0 <= p < |s.tasks| ensures RefOk(s.tasks[p], |c.subs[p]|) {
      SumZero(s.tasks[p].dropped, Plain());
    }
  }

  /** The states of a run and who takes each step; it starts in an initial state. */
  ghost predicate IsRun(c: Config, run: seq<State>, acts: seq<Actor>) {
    && |run| == |acts| + 1 && Initial(c, run[0])
    && forall i, j | 0 <= i < j < |run| && j == i + 1 :: Follows(c, run[i], acts[i], run[j])
  }

  lemma {:induction false} RunSafe(c: Config, run: seq<State>, acts: seq<Actor>, j: nat)
    requires IsRun(c, run, acts) && j < |run|
    ensures Safe(c, run[j])
  {
    hide Safe;
    if j == 0 {
      InitialSafe(c, run[0]);
    } else {
      RunSafe(c, run, acts, j - 1);
      assert Follows(c, run[j - 1], acts[j - 1], run[j]);
      StepSafe(c, run[j - 1], acts[j - 1]);
    }
  }

  // ---------- what it means ----------

  /** A mission that is ready is in the ready queue once and held by nobody, or it is not in the
      queue and held by exactly one worker; an idle one is neither in the queue nor held. */
  lemma Ownership(c: Config, s: State, m: nat)
    requires Safe(c, s) && m < |s.missions|
    ensures forall i, j | 0 <= i < |s.workers| && 0 <= j < |s.workers| ::
      Holds(s.workers[i], m) && Holds(s.workers[j], m) ==> i == j
    ensures multiset(s.ready)[m] <= 1
    ensures m in s.ready ==> forall i | 0 <= i < |s.workers| :: !Holds(s.workers[i], m)
    ensures s.missions[m].ready <==> m in s.ready || exists i :: 0 <= i < |s.workers| && Holds(s.workers[i], m)
  {
    assert OwnedAt(s, m);
    SumNat(s.workers, Holding(m));
    forall i, j | 0 <= i < |s.workers| && 0 <= j < |s.workers| && Holds(s.workers[i], m) && Holds(s.workers[j], m)
      ensures i == j
    {
      Exclusive(s, m, i, j);
    }
    forall i | 0 <= i < |s.workers| && Holds(s.workers[i], m) ensures s.missions[m].ready && m !in s.ready {
      Exclusive(s, m, i, i);
    }
    if s.missions[m].ready && m !in s.ready {
      SumPositive(s.workers, Holding(m));
    }
  }

  /** A worker gives a serial mission up when its queue is empty or after 128 tasks, and not before. */
  lemma BatchOf128(c: Config, s: State, i: nat)
    requires WellFormed(c, s) && i < |s.workers| && s.workers[i].Looking?
    ensures var w, w' := s.workers[i], WorkerStep(c, s, i).workers[i];
      && w.m < |c.concurrent| == |s.missions| && (w'.Switching? ==> w' == Switching(w.m, Nothing))
      && (!c.concurrent[w.m] ==>
            if s.missions[w.m].queue == [] || w.cnt >= 128 then w'.Switching? else w'.Serving? && w'.cnt == w.cnt)
  {
    hide TasksOk; hide QueueOk; hide ReadyOk; hide ConfigOk;
    assert WorkerOk(c, s.workers[i]);
  }

  /** The references of a task: what is queued or in a worker's hands, summed up over the first
      k subscribers. */
  ghost function Outstanding(c: Config, s: State, p: nat, k: nat): int
    requires WellFormed(c, s) && p < |c.subs| && k <= |c.subs[p]|
  {
    if k == 0 then 0 else Outstanding(c, s, p, k - 1) + Owed(c, s, Delivery(p, k - 1), Dropped)
  }

  lemma {:induction false} OutstandingIs(c: Config, s: State, p: nat, k: nat)
    requires Handed(c, s) && p < |c.subs| && k <= |c.subs[p]|
    ensures |s.tasks[p].dropped| == |c.subs[p]|
    ensures var pc := PushedCount(s.tasks[p].poster, |c.subs[p]|);
      Outstanding(c, s, p, k) == (if k < pc then k else pc) - Sum(s.tasks[p].dropped[..k], Plain())
  {
    var t := s.tasks[p];
    assert PosterOk(t, c.subs[p]);
    if k > 0 {
      OutstandingIs(c, s, p, k - 1);
      assert CountedAt(c, s, Delivery(p, k - 1), Dropped);
      assert t.dropped[..k] == t.dropped[..k - 1] + [t.dropped[k - 1]];
      SumAppend(t.dropped[..k - 1], t.dropped[k - 1], Plain());
    }
  }

  /** The reference count is the number of deliveries queued or being handled, one more while
      the poster still has subscribers to serve, one more between a clone and its push. */
  lemma RefMeaning(c: Config, s: State, p: nat)
    requires Handed(c, s) && Refs(c, s) && p < |s.tasks|
    ensures s.tasks[p].ref == Outstanding(c, s, p, |c.subs[p]|) + Hold(s.tasks[p].poster, |c.subs[p]|)
  {
    OutstandingIs(c, s, p, |c.subs[p]|);
    assert PosterOk(s.tasks[p], c.subs[p]) && RefOk(s.tasks[p], |c.subs[p]|);
    assert s.tasks[p].dropped[..|c.subs[p]|] == s.tasks[p].dropped;
  }

  /** A block goes back at most once, and only after every subscriber has operated on the task. */
  lemma FreedLast(c: Config, s: State, p: nat)
    requires Handed(c, s) && Refs(c, s) && p < |s.tasks|
    ensures s.tasks[p].freed <= 1
    ensures |s.tasks[p].ran| == |c.subs[p]|
    ensures s.tasks[p].freed == 1 ==> forall k | 0 <= k < |c.subs[p]| :: s.tasks[p].ran[k] == 1
  {
    var t, n := s.tasks[p], |c.subs[p]|;
    DroppedPushed(c, s, p);
    assert PosterOk(t, c.subs[p]) && RefOk(t, n);
    if t.freed == 1 {
      forall k | 0 <= k < n ensures t.ran[k] == 1 {
        assert PushedCount(t.poster, n) == n;
        OperateFirst(c, s, Delivery(p, k));
        if t.dropped[k] == 0 {
          AtMost(t.dropped[k := 1], n);
          SumUpdate(t.dropped, k, 1, Plain());
        }
      }
    }
  }
}
