/** The chunked queue between threads.  Pushers exclude each other by one lock and poppers by
    another, so at any time one push and one pop can be under way; each of them is broken into
    its accesses to the memory that both can reach, and the two take their steps in any order. */
module QueueRace {
  import opened Common
  import opened ChunkQueue

  datatype Cell<T> = Cell(next: Option<nat>, prev: Option<nat>, data: seq<T>)

  /** A value on its way into slot pos of chunk c. */
  datatype Job<T> = Job(value: T, filled: bool, c: nat, pos: nat)

  datatype PushPc<T> =
    | PIdle
    | Copy(job: Job<T>)
    | Bump(job: Job<T>)
    | Take(job: Job<T>)
    | Alloc(job: Job<T>)
    | Back(job: Job<T>, chunk: nat)
    | Reset(job: Job<T>, chunk: nat)
    | Link(job: Job<T>, chunk: nat)
    | Move(job: Job<T>, chunk: nat)
    | FillIn(job: Job<T>)
    | Commit(job: Job<T>)

  datatype PopPc<T> =
    | QIdle
    | Look(front: bool)
    | Peek
    | Dec(got: Option<T>)
    | Read
    | Step(value: T)
    | Next
    | Unback(chunk: nat)
    | Clear(chunk: nat)
    | Give(chunk: nat)
    | Release(last: Option<nat>)
    | Crash

  /** list, committed, popped and freed record the chunks from the first to the last, the values
      counted in, the values taken out, and the chunks freed. */
  datatype State<T> = State(
    k: nat, cells: seq<Cell<T>>, begin: nat, end: nat, beginPos: nat, endPos: nat, size: int, spare: Option<nat>,
    push: PushPc<T>, pop: PopPc<T>,
    list: seq<nat>, committed: seq<T>, popped: seq<T>, freed: seq<nat>)

  // ---------- the steps ----------

  function Write<T>(s: State<T>, c: nat, pos: nat, x: T): seq<Cell<T>>
  {
    if c < |s.cells| && pos < |s.cells[c].data| then
      s.cells[c := s.cells[c].(data := s.cells[c].data[pos := x])]
    else s.cells
  }

  function SetNext<T>(s: State<T>, c: nat, n: Option<nat>): seq<Cell<T>>
  {
    if c < |s.cells| then s.cells[c := s.cells[c].(next := n)] else s.cells
  }

  function SetPrev<T>(s: State<T>, c: nat, p: Option<nat>): seq<Cell<T>>
  {
    if c < |s.cells| then s.cells[c := s.cells[c].(prev := p)] else s.cells
  }

  /** After the slot has been reserved: fill it in if that has not been done. */
  function Reserved<T>(job: Job<T>): PushPc<T> {
    if job.filled then Commit(job) else FillIn(job)
  }

  /** One step of the push under way, or the start of one for value x; later says that the slot
      is reserved first and filled in by the caller. */
  function PushStep<T>(s: State<T>, x: T, later: bool, blank: seq<T>): State<T> {
    match s.push
    case PIdle =>
      var job := Job(x, !later, s.end, s.endPos);
      s.(push := if later then Bump(job) else Copy(job))
    case Copy(job) => s.(cells := Write(s, s.end, s.endPos, job.value), push := Bump(job))
    case Bump(job) => s.(endPos := s.endPos + 1, push := if s.endPos + 1 < s.k then Reserved(job) else Take(job))
    case Take(job) => s.(spare := None, push := if s.spare.None? then Alloc(job) else Back(job, s.spare.value))
    case Alloc(job) => s.(cells := s.cells + [Cell(None, None, blank)], push := Back(job, |s.cells|))
    case Back(job, c) => s.(cells := SetPrev(s, c, Some(s.end)), push := Reset(job, c))
    case Reset(job, c) => s.(cells := SetNext(s, c, None), push := Link(job, c))
    case Link(job, c) => s.(cells := SetNext(s, s.end, Some(c)), push := Move(job, c), list := s.list + [c])
    case Move(job, c) => s.(end := c, endPos := 0, push := Reserved(job))
    case FillIn(job) => s.(cells := Write(s, job.c, job.pos, job.value), push := Commit(job))
    case Commit(job) => s.(size := s.size + 1, push := PIdle, committed := s.committed + [job.value])
  }

  /** The value at the begin position. */
  function First<T>(s: State<T>): Option<T> {
    if s.begin < |s.cells| && s.beginPos < |s.cells[s.begin].data| then Some(s.cells[s.begin].data[s.beginPos])
    else None
  }

  function Taken<T>(got: Option<T>): PopPc<T> {
    if got.Some? then Step(got.value) else Crash
  }

  /** One step of the pop under way, or the start of one; front says that the value is read
      first and taken out later. */
  function PopStep<T>(s: State<T>, front: bool): State<T> {
    match s.pop
    case QIdle => s.(pop := Look(front))
    case Look(f) => s.(pop := if s.size == 0 then QIdle else if f then Peek else Dec(None))
    case Peek => s.(pop := if First(s).Some? then Dec(First(s)) else Crash)
    case Dec(got) => s.(size := s.size - 1, pop := if got.Some? then Step(got.value) else Read)
    case Read => s.(pop := Taken(First(s)))
    case Step(x) =>
      s.(beginPos := s.beginPos + 1, popped := s.popped + [x],
         pop := if s.beginPos + 1 == s.k then Next else QIdle)
    case Next =>
      if s.begin < |s.cells| && s.cells[s.begin].next.Some? && s.list != [] then
        s.(begin := s.cells[s.begin].next.value, list := s.list[1..], pop := Unback(s.begin))
      else s.(pop := Crash)
    case Unback(c) => s.(cells := SetPrev(s, s.begin, None), pop := Clear(c))
    case Clear(c) => s.(beginPos := 0, pop := Give(c))
    case Give(c) => s.(spare := Some(c), pop := Release(s.spare))
    case Release(last) => s.(pop := QIdle, freed := if last.Some? then s.freed + [last.value] else s.freed)
    case Crash => s
  }

  ghost predicate Initial<T>(s: State<T>) {
    && s.k > 0 && |s.cells| == 1 && s.cells[0].next == None && s.cells[0].prev == None && |s.cells[0].data| == s.k
    && s.begin == 0 && s.end == 0 && s.beginPos == 0 && s.endPos == 0 && s.size == 0 && s.spare == None
    && s.push == PIdle && s.pop == QIdle && s.list == [0] && s.committed == [] && s.popped == [] && s.freed == []
  }

  /** A caller's step: a step of a push, of value x if it starts with this step, or of a pop; blank is
      what a chunk allocated with the step holds. */
  datatype Action<T> = PushAct(x: T, later: bool, blank: seq<T>) | PopAct(front: bool)

  ghost predicate Follows<T>(s: State<T>, a: Action<T>, s': State<T>) {
    if a.PushAct? then |a.blank| == s.k && s' == PushStep(s, a.x, a.later, a.blank) else s' == PopStep(s, a.front)
  }

  // ---------- where the chunks are ----------

  function At(c: nat, o: Option<nat>): nat {
    if o == Some(c) then 1 else 0
  }

  function PushHand<T>(p: PushPc<T>): Option<nat> {
    match p
    case Back(_, c) => Some(c)
    case Reset(_, c) => Some(c)
    case Link(_, c) => Some(c)
    case _ => None
  }

  function PopHand<T>(p: PopPc<T>): Option<nat> {
    match p
    case Unback(c) => Some(c)
    case Clear(c) => Some(c)
    case Give(c) => Some(c)
    case Release(last) => last
    case _ => None
  }

  function Places<T>(s: State<T>, c: nat): nat {
    multiset(s.list)[c] + At(c, s.spare) + At(c, PushHand(s.push)) + At(c, PopHand(s.pop)) + multiset(s.freed)[c]
  }

  /** Every chunk is in one place: in the list, in the spare slot, in the hands of the push or of
      the pop, or freed. */
  ghost predicate OnePlace<T>(s: State<T>) {
    forall c: nat :: Places(s, c) == if c < |s.cells| then 1 else 0
  }

  /** A push moves chunks about; the only one it adds is one it allocates. */
  lemma PushMoves<T>(s: State<T>, x: T, later: bool, blank: seq<T>, c: nat)
    ensures var s' := PushStep(s, x, later, blank);
      && |s.cells| <= |s'.cells|
      && Places(s', c) == Places(s, c) + if |s.cells| <= c < |s'.cells| then 1 else 0
  {
    var s' := PushStep(s, x, later, blank);
    if s.push.Take? || s.push.Alloc? || s.push.Link? {
      ChunkMoves(s, x, later, blank, c);
    } else {
      Unmoved(s, s', c);
    }
  }

  lemma Unmoved<T>(s: State<T>, s': State<T>, c: nat)
    requires s'.list == s.list && s'.spare == s.spare && s'.freed == s.freed
    requires PushHand(s'.push) == PushHand(s.push) && PopHand(s'.pop) == PopHand(s.pop)
    ensures Places(s', c) == Places(s, c)
  {
  }

  lemma ChunkMoves<T>(s: State<T>, x: T, later: bool, blank: seq<T>, c: nat)
    requires s.push.Take? || s.push.Alloc? || s.push.Link?
    ensures var s' := PushStep(s, x, later, blank);
      && |s.cells| <= |s'.cells|
      && Places(s', c) == Places(s, c) + if |s.cells| <= c < |s'.cells| then 1 else 0
  {
    hide PopHand;
  }

  lemma PopMoves<T>(s: State<T>, front: bool, c: nat)
    requires s.pop.Next? ==> s.list != [] && s.list[0] == s.begin
    ensures var s' := PopStep(s, front); |s.cells| == |s'.cells| && Places(s', c) == Places(s, c)
  {
    var s' := PopStep(s, front);
    if s.pop.Next? && s'.pop.Unback? {
      Unlinked(s, s', c);
    } else if s.pop.Give? || s.pop.Release? {
      Given(s, s', c);
    } else {
      Unmoved(s, s', c);
    }
  }

  lemma Unlinked<T>(s: State<T>, s': State<T>, c: nat)
    requires s.list != [] && s'.list == s.list[1..] && s'.spare == s.spare && s'.freed == s.freed && s'.push == s.push
    requires PopHand(s.pop) == None && PopHand(s'.pop) == Some(s.list[0])
    ensures Places(s', c) == Places(s, c)
  {
    hide PushHand; hide PopHand;
    assert s.list == [s.list[0]] + s.list[1..];
  }

  lemma Given<T>(s: State<T>, s': State<T>, c: nat)
    requires s'.list == s.list && s'.push == s.push
    requires (s'.spare == PopHand(s.pop) && PopHand(s'.pop) == s.spare && s'.freed == s.freed)
          || (s'.spare == s.spare && PopHand(s'.pop) == None
              && s'.freed == s.freed + (if PopHand(s.pop).Some? then [PopHand(s.pop).value] else []))
    ensures Places(s', c) == Places(s, c)
  {
    hide PushHand; hide PopHand;
  }

  lemma PushPlaces<T>(s: State<T>, x: T, later: bool, blank: seq<T>)
    requires OnePlace(s)
    ensures OnePlace(PushStep(s, x, later, blank))
  {
    hide PushStep; hide Places;
    forall c: nat ensures var s' := PushStep(s, x, later, blank); Places(s', c) == if c < |s'.cells| then 1 else 0 {
      PushMoves(s, x, later, blank, c);
    }
  }

  lemma PopPlaces<T>(s: State<T>, front: bool)
    requires OnePlace(s) && (s.pop.Next? ==> s.list != [] && s.list[0] == s.begin)
    ensures OnePlace(PopStep(s, front))
  {
    hide PopStep; hide Places;
    forall c: nat ensures var s' := PopStep(s, front); Places(s', c) == if c < |s'.cells| then 1 else 0 {
      PopMoves(s, front, c);
    }
  }

  // ---------- the invariant ----------

  ghost function Block<T>(cells: seq<Cell<T>>, c: nat): seq<T> {
    if c < |cells| then cells[c].data else []
  }

  ghost function Blocks<T>(s: State<T>): (bs: seq<seq<T>>)
    ensures |bs| == |s.list|
  {
    seq(|s.list|, i requires 0 <= i < |s.list| => Block(s.cells, s.list[i]))
  }

  /** The positions as they are once a chunk linked or taken off counts. */
  ghost function B<T>(s: State<T>): nat {
    if s.pop.Unback? || s.pop.Clear? then 0 else s.beginPos
  }

  ghost function E<T>(s: State<T>): nat {
    if s.push.Move? then 0 else s.endPos
  }

  ghost predicate Growing<T>(p: PushPc<T>) {
    p.Take? || p.Alloc? || p.Back? || p.Reset? || p.Link? || p.Move?
  }

  /** The slot is reserved and not yet counted in. */
  ghost predicate Bumped<T>(p: PushPc<T>) {
    Growing(p) || p.FillIn? || p.Commit?
  }

  ghost predicate Linked<T>(s: State<T>) {
    && s.k > 0 && s.list != [] && (forall c | 0 <= c < |s.cells| :: |s.cells[c].data| == s.k)
    && (forall i | 0 <= i < |s.list| :: s.list[i] < |s.cells|)
    && (forall i, j | 0 <= i < j < |s.list| :: s.list[i] != s.list[j])
    && (forall i, j | 0 <= i < j < |s.list| && j == i + 1 :: s.cells[s.list[i]].next == Some(s.list[j]))
  }

  ghost predicate Placed<T>(s: State<T>)
    requires s.list != []
  {
    var n := |s.list|;
    && s.begin == s.list[0]
    && (if s.push.Move? then n > 1 && s.end == s.list[n - 2] && s.push.chunk == s.list[n - 1]
        else s.end == s.list[n - 1])
    && s.beginPos <= s.k && (s.beginPos == s.k <==> s.pop.Next? || s.pop.Unback? || s.pop.Clear?)
    && s.endPos <= s.k && (s.endPos == s.k <==> Growing(s.push))
  }

  /** The values from the begin position on: those counted in and not taken out, and the one in
      the slot of a push that is not over. */
  ghost predicate Window<T>(s: State<T>)
    requires Linked(s) && Placed(s)
  {
    var f, n := Full(Blocks(s), E(s)), |s.committed| - |s.popped|;
    && s.popped <= s.committed
    && |f| == (|s.list| - 1) * s.k + E(s)
    && |f| - B(s) == n + (if Bumped(s.push) then 1 else 0) && f[B(s)..B(s) + n] == s.committed[|s.popped|..]
    && (Bumped(s.push) && (s.push.job.filled || s.push.Commit?) ==> f[B(s) + n] == s.push.job.value)
  }

  ghost predicate Counted<T>(s: State<T>) {
    s.size == |s.committed| - |s.popped| - (if s.pop.Read? || s.pop.Step? then 1 else 0)
  }

  /** The slot of the push under way. */
  ghost predicate Slotted<T>(s: State<T>)
    requires Linked(s) && Placed(s)
  {
    var n := |s.list|;
    && (s.push.Copy? ==> s.push.job.filled)
    && (s.push.Bump? && s.push.job.filled ==> Blocks(s)[n - 1][s.endPos] == s.push.job.value)
    && (s.push.Copy? || s.push.Bump? ==> s.push.job.c == s.end && s.push.job.pos == s.endPos)
    && (s.push.FillIn? ==> !s.push.job.filled)
    && (Growing(s.push) || s.push.FillIn? ==>
          if E(s) > 0 then s.push.job.c == s.list[n - 1] && s.push.job.pos == E(s) - 1
          else n > 1 && s.push.job.c == s.list[n - 2] && s.push.job.pos == s.k - 1)
  }

  ghost predicate Popping<T>(s: State<T>) {
    && s.pop != Crash && |s.popped| <= |s.committed|
    && (s.pop.Peek? || s.pop.Dec? || s.pop.Read? || s.pop.Step? ==> |s.popped| < |s.committed|)
    && (s.pop.Dec? && s.pop.got.Some? ==> s.pop.got.value == s.committed[|s.popped|])
    && (s.pop.Step? ==> s.pop.value == s.committed[|s.popped|])
  }

  ghost predicate Core<T>(s: State<T>) {
    OnePlace(s) && Linked(s) && Placed(s) && Window(s) && Counted(s) && Slotted(s) && Popping(s)
  }

  lemma InitialCore<T>(s: State<T>)
    requires Initial(s)
    ensures Core(s)
  {
    assert Blocks(s) == [s.cells[0].data];
    assert Blocks(s)[..0] == [];
    forall c: nat ensures Places(s, c) == if c < |s.cells| then 1 else 0 {
    }
  }

  /** A chunk that is somewhere else is not in the list. */
  lemma NotListed<T>(s: State<T>, c: nat)
    requires OnePlace(s)
    requires s.spare == Some(c) || PushHand(s.push) == Some(c) || PopHand(s.pop) == Some(c) || c >= |s.cells|
    ensures c !in s.list
  {
    assert Places(s, c) <= 1;
  }

  /** Steps that leave the values from the begin position on as they are. */
  lemma KeepsWindow<T>(s: State<T>, s': State<T>)
    requires Linked(s) && Placed(s) && Window(s) && Linked(s') && Placed(s')
    requires Blocks(s') == Blocks(s) && |s'.list| == |s.list| && s'.k == s.k && B(s') == B(s) && E(s') == E(s)
    requires s'.committed == s.committed && s'.popped == s.popped && (Bumped(s'.push) <==> Bumped(s.push))
    requires Bumped(s'.push) && (s'.push.job.filled || s'.push.Commit?) ==>
      (s.push.job.filled || s.push.Commit?) && s'.push.job.value == s.push.job.value
    ensures Window(s')
  {
    hide Full; hide Linked; hide Blocks;
  }

  lemma SameBlocks<T>(s: State<T>, s': State<T>)
    requires s'.list == s.list && forall c | c in s.list :: Block(s'.cells, c) == Block(s.cells, c)
    ensures Blocks(s') == Blocks(s)
  {
  }

  lemma PushStart<T>(s: State<T>, x: T, later: bool, blank: seq<T>)
    requires Core(s) && s.push.PIdle?
    ensures Core(PushStep(s, x, later, blank))
  {
    hide OnePlace; hide Full; hide Window; hide Blocks;
    PushPlaces(s, x, later, blank);
    SameBlocks(s, PushStep(s, x, later, blank));
    KeepsWindow(s, PushStep(s, x, later, blank));
  }

  lemma PushTake<T>(s: State<T>, x: T, later: bool, blank: seq<T>)
    requires Core(s) && s.push.Take?
    ensures Core(PushStep(s, x, later, blank))
  {
    hide OnePlace; hide Full; hide Window; hide Blocks;
    PushPlaces(s, x, later, blank);
    SameBlocks(s, PushStep(s, x, later, blank));
    KeepsWindow(s, PushStep(s, x, later, blank));
  }

  /** The value in the reserved slot is counted in. */
  lemma PushCommit<T>(s: State<T>, x: T, later: bool, blank: seq<T>)
    requires Core(s) && s.push.Commit?
    ensures Core(PushStep(s, x, later, blank))
  {
    hide OnePlace; hide Full; hide Window; hide Blocks;
    PushPlaces(s, x, later, blank);
    SameBlocks(s, PushStep(s, x, later, blank));
    CommitWindow(s, PushStep(s, x, later, blank));
  }

  lemma CommitWindow<T>(s: State<T>, s': State<T>)
    requires Linked(s) && Placed(s) && Window(s) && Linked(s') && Placed(s') && s.push.Commit? && s'.push.PIdle?
    requires Blocks(s') == Blocks(s) && |s'.list| == |s.list| && s'.k == s.k && B(s') == B(s) && E(s') == E(s)
    requires s'.committed == s.committed + [s.push.job.value] && s'.popped == s.popped
    ensures Window(s') && |s.popped| <= |s.committed|
  {
    hide Full; hide Linked; hide Blocks;
    EvenBlocks(s);
    var f, n := Full(Blocks(s), E(s)), |s.committed| - |s.popped|;
    SliceMore(f, B(s), n, s.committed, |s.popped|, s.push.job.value);
  }

  lemma SliceMore<T>(f: seq<T>, b: nat, n: nat, c: seq<T>, p: nat, x: T)
    requires b + n < |f| && p + n == |c| && f[b..b + n] == c[p..] && f[b + n] == x
    ensures f[b..b + n + 1] == (c + [x])[p..]
  {
    assert f[b..b + n + 1] == f[b..b + n] + [f[b + n]];
    assert (c + [x])[p..] == c[p..] + [x];
  }

  lemma SliceLess<T>(f: seq<T>, b: nat, n: nat, c: seq<T>, p: nat)
    requires 0 < n && b + n <= |f| && p + n == |c| && f[b..b + n] == c[p..]
    ensures f[b + 1..b + n] == c[p + 1..]
  {
    assert f[b + 1..b + n] == f[b..b + n][1..];
  }

  lemma EvenBlocks<T>(s: State<T>)
    requires Linked(s)
    ensures Even(Blocks(s), s.k) && Blocks(s) != []
    ensures forall i | 0 <= i < |s.list| :: Blocks(s)[i] == s.cells[s.list[i]].data
  {
  }

  lemma WriteBlocks<T>(s: State<T>, s': State<T>, j: nat, pos: nat, x: T)
    requires Linked(s) && j < |s.list| && pos < s.k
    requires s'.list == s.list && s'.cells == Write(s, s.list[j], pos, x)
    ensures Blocks(s') == Blocks(s)[j := Blocks(s)[j][pos := x]]
  {
  }

  /** The push writes its value into the slot it will reserve. */
  lemma PushCopy<T>(s: State<T>, x: T, later: bool, blank: seq<T>)
    requires Core(s) && s.push.Copy?
    ensures Core(PushStep(s, x, later, blank))
  {
    hide OnePlace; hide Full;
    PushPlaces(s, x, later, blank);
    EvenBlocks(s);
    WriteBlocks(s, PushStep(s, x, later, blank), |s.list| - 1, s.endPos, s.push.job.value);
    FullBehind(Blocks(s), s.endPos, s.push.job.value);
  }

  lemma PushBump<T>(s: State<T>, x: T, later: bool, blank: seq<T>)
    requires Core(s) && s.push.Bump?
    ensures Core(PushStep(s, x, later, blank))
  {
    hide OnePlace; hide Full; hide Window; hide Blocks;
    PushPlaces(s, x, later, blank);
    SameBlocks(s, PushStep(s, x, later, blank));
    BumpWindow(s, PushStep(s, x, later, blank));
  }

  lemma BumpWindow<T>(s: State<T>, s': State<T>)
    requires Linked(s) && Placed(s) && Window(s) && Slotted(s) && Linked(s') && Placed(s') && s.push.Bump?
    requires Blocks(s') == Blocks(s) && |s'.list| == |s.list| && s'.k == s.k && B(s') == B(s)
    requires E(s) == s.endPos && E(s') == s.endPos + 1 && Bumped(s'.push) && s'.push.job == s.push.job
    requires s'.push.Commit? ==> s.push.job.filled
    requires s'.committed == s.committed && s'.popped == s.popped
    ensures Window(s')
  {
    hide Full; hide Blocks;
    EvenBlocks(s);
    FullShrink(Blocks(s), s.endPos);
    FullLength(Blocks(s), s.k, s.endPos + 1);
    var f, f', b, n := Full(Blocks(s), E(s)), Full(Blocks(s'), E(s')), B(s), |s.committed| - |s.popped|;
    assert f'[b..b + n] == f[b..b + n];
  }

  /** A chunk in the hands of the push, with nothing yet linked to it. */
  lemma PushPrepare<T>(s: State<T>, x: T, later: bool, blank: seq<T>)
    requires Core(s) && (s.push.Alloc? || s.push.Back? || s.push.Reset?) && |blank| == s.k
    ensures Core(PushStep(s, x, later, blank))
  {
    hide OnePlace; hide Full; hide Window; hide Blocks;
    PushPlaces(s, x, later, blank);
    if !s.push.Alloc? { NotListed(s, s.push.chunk); }
    SameBlocks(s, PushStep(s, x, later, blank));
    KeepsWindow(s, PushStep(s, x, later, blank));
  }

  lemma LinkList<T>(s: State<T>, x: T, later: bool, blank: seq<T>)
    requires Core(s) && s.push.Link?
    ensures var s' := PushStep(s, x, later, blank); Linked(s') && Placed(s')
  {
    hide OnePlace; hide Full; hide Window; hide Slotted; hide Counted; hide Popping;
    NotListed(s, s.push.chunk);
    Handed(s, s.push.chunk);
  }

  lemma LinkShape<T>(s: State<T>, x: T, later: bool, blank: seq<T>)
    requires Core(s) && s.push.Link?
    ensures var s', c := PushStep(s, x, later, blank), s.push.chunk;
      c < |s.cells| && |s.cells[c].data| == s.k && Blocks(s') == Blocks(s) + [s.cells[c].data]
  {
    hide OnePlace; hide Full; hide Window; hide Slotted; hide Counted; hide Popping;
    Handed(s, s.push.chunk);
    EvenBlocks(s);
  }

  /** From here on the popper can reach the new chunk. */
  lemma PushLink<T>(s: State<T>, x: T, later: bool, blank: seq<T>)
    requires Core(s) && s.push.Link?
    ensures Core(PushStep(s, x, later, blank))
  {
    hide OnePlace; hide Full; hide Linked; hide Blocks;
    PushPlaces(s, x, later, blank);
    LinkList(s, x, later, blank);
    LinkShape(s, x, later, blank);
    var s', bs, b := PushStep(s, x, later, blank), Blocks(s), s.cells[s.push.chunk].data;
    EvenBlocks(s);
    NonZero(s);
    FullGrow(bs, b);
    assert (|s'.list| - 1) * s.k == (|s.list| - 1) * s.k + s.k;
  }

  lemma NonZero<T>(s: State<T>)
    requires Linked(s)
    ensures s.k > 0
  {
  }

  lemma Handed<T>(s: State<T>, c: nat)
    requires OnePlace(s) && (s.spare == Some(c) || PushHand(s.push) == Some(c) || PopHand(s.pop) == Some(c))
    ensures c < |s.cells|
  {
    assert Places(s, c) >= 1;
  }

  lemma PushMove<T>(s: State<T>, x: T, later: bool, blank: seq<T>)
    requires Core(s) && s.push.Move?
    ensures Core(PushStep(s, x, later, blank))
  {
    hide OnePlace; hide Full; hide Window; hide Blocks;
    PushPlaces(s, x, later, blank);
    SameBlocks(s, PushStep(s, x, later, blank));
    KeepsWindow(s, PushStep(s, x, later, blank));
  }

  lemma FillBlocks<T>(s: State<T>, s': State<T>)
    requires Core(s) && s.push.FillIn? && s'.list == s.list
    requires s'.cells == Write(s, s.push.job.c, s.push.job.pos, s.push.job.value)
    ensures var m, bs := LastBlock(Blocks(s), E(s)), Blocks(s);
      && (|bs| - 1) * s.k + E(s) > 0 && 0 <= m < |bs| && s.push.job.pos < |bs[m]|
      && s.push.job.pos == (if E(s) > 0 then E(s) - 1 else s.k - 1)
      && Blocks(s') == bs[m := bs[m][s.push.job.pos := s.push.job.value]]
  {
    hide OnePlace; hide Full;
    EvenBlocks(s);
    WriteBlocks(s, s', LastBlock(Blocks(s), E(s)), s.push.job.pos, s.push.job.value);
  }

  /** The caller fills in the slot it has reserved, which may be the last one of the chunk
      before the end chunk. */
  lemma PushFill<T>(s: State<T>, x: T, later: bool, blank: seq<T>)
    requires Core(s) && s.push.FillIn?
    ensures Core(PushStep(s, x, later, blank))
  {
    hide OnePlace; hide Full;
    PushPlaces(s, x, later, blank);
    EvenBlocks(s);
    FillBlocks(s, PushStep(s, x, later, blank));
    FullReplace(Blocks(s), E(s), s.k, s.push.job.value);
  }

  lemma PushCore<T>(s: State<T>, x: T, later: bool, blank: seq<T>)
    requires Core(s) && |blank| == s.k
    ensures Core(PushStep(s, x, later, blank))
  {
    hide Core; hide PushStep;
    match s.push
    case PIdle => PushStart(s, x, later, blank);
    case Copy(_) => PushCopy(s, x, later, blank);
    case Bump(_) => PushBump(s, x, later, blank);
    case Take(_) => PushTake(s, x, later, blank);
    case Alloc(_) => PushPrepare(s, x, later, blank);
    case Back(_, _) => PushPrepare(s, x, later, blank);
    case Reset(_, _) => PushPrepare(s, x, later, blank);
    case Link(_, _) => PushLink(s, x, later, blank);
    case Move(_, _) => PushMove(s, x, later, blank);
    case FillIn(_) => PushFill(s, x, later, blank);
    case Commit(_) => PushCommit(s, x, later, blank);
  }

  lemma PopDec<T>(s: State<T>, front: bool)
    requires Core(s) && s.pop.Dec?
    ensures Core(PopStep(s, front))
  {
    hide OnePlace; hide Full; hide Window; hide Blocks;
    PopPlaces(s, front);
    SameBlocks(s, PopStep(s, front));
    KeepsWindow(s, PopStep(s, front));
  }

  lemma PopGive<T>(s: State<T>, front: bool)
    requires Core(s) && (s.pop.Give? || s.pop.Release?)
    ensures Core(PopStep(s, front))
  {
    hide OnePlace; hide Full; hide Window; hide Blocks;
    PopPlaces(s, front);
    SameBlocks(s, PopStep(s, front));
    KeepsWindow(s, PopStep(s, front));
  }

  lemma PopLook<T>(s: State<T>, front: bool)
    requires Core(s) && (s.pop.QIdle? || s.pop.Look?)
    ensures Core(PopStep(s, front))
  {
    hide OnePlace; hide Full; hide Window; hide Blocks;
    PopPlaces(s, front);
    SameBlocks(s, PopStep(s, front));
    KeepsWindow(s, PopStep(s, front));
  }

  /** While a value is there, the one at the begin position is the next one counted in. */
  lemma FirstIsNext<T>(s: State<T>)
    requires Core(s) && |s.popped| < |s.committed| && s.beginPos < s.k
    ensures First(s) == Some(s.committed[|s.popped|])
  {
    hide OnePlace; hide Full;
    EvenBlocks(s);
    FullFirst(Blocks(s), s.beginPos, s.k, E(s));
    var f, n := Full(Blocks(s), E(s)), |s.committed| - |s.popped|;
    assert f[B(s)..B(s) + n][0] == s.committed[|s.popped|..][0];
  }

  lemma PopRead<T>(s: State<T>, front: bool)
    requires Core(s) && (s.pop.Peek? || s.pop.Read?)
    ensures Core(PopStep(s, front))
  {
    hide OnePlace; hide Full; hide Window; hide Blocks;
    PopPlaces(s, front);
    FirstIsNext(s);
    SameBlocks(s, PopStep(s, front));
    KeepsWindow(s, PopStep(s, front));
  }

  lemma PopTake<T>(s: State<T>, front: bool)
    requires Core(s) && s.pop.Step?
    ensures Core(PopStep(s, front))
  {
    hide OnePlace; hide Full; hide Window; hide Blocks;
    PopPlaces(s, front);
    SameBlocks(s, PopStep(s, front));
    TakeWindow(s, PopStep(s, front));
  }

  lemma TakeWindow<T>(s: State<T>, s': State<T>)
    requires Linked(s) && Placed(s) && Window(s) && Linked(s') && Placed(s') && |s.popped| < |s.committed|
    requires Blocks(s') == Blocks(s) && |s'.list| == |s.list| && s'.k == s.k && s'.push == s.push
    requires B(s') == B(s) + 1 && E(s') == E(s)
    requires s'.committed == s.committed && s'.popped == s.popped + [s.committed[|s.popped|]]
    ensures Window(s')
  {
    hide Full; hide Linked; hide Blocks;
    EvenBlocks(s);
    var f, n := Full(Blocks(s), E(s)), |s.committed| - |s.popped|;
    assert s'.popped == s.committed[..|s'.popped|];
    SliceLess(f, B(s), n, s.committed, |s.popped|);
  }

  /** When the popper has used up its chunk there is a next one, already linked. */
  lemma NextLinked<T>(s: State<T>)
    requires Core(s) && s.pop.Next?
    ensures |s.list| > 1 && s.list[0] == s.begin && s.cells[s.begin].next == Some(s.list[1])
    ensures (s.push.Move? || s.push.FillIn?) && E(s) == 0 ==> |s.list| > 2
  {
    hide OnePlace; hide Full;
    assert |s.list| == 1 ==> (|s.list| - 1) * s.k == 0;
    assert |s.list| == 2 ==> (|s.list| - 1) * s.k == s.k;
  }

  lemma NextShape<T>(s: State<T>, front: bool)
    requires Core(s) && s.pop.Next?
    ensures var s' := PopStep(s, front);
      && Linked(s') && Placed(s') && |s.list| > 1 && s'.pop.Unback?
      && s'.list == s.list[1..] && Blocks(s') == Blocks(s)[1..]
  {
    hide OnePlace; hide Full; hide Window; hide Slotted;
    NextLinked(s);
    EvenBlocks(s);
  }

  /** Without its first block, all values but the first k. */
  lemma FullDropped<T>(bs: seq<seq<T>>, k: nat, e: nat)
    requires |bs| > 1 && Even(bs, k) && e <= k
    ensures var f, f' := Full(bs, e), Full(bs[1..], e);
      && |f| == k + |f'| && |f'| == (|bs[1..]| - 1) * k + e
      && (forall m, n | 0 <= m <= n <= |f'| :: f[k + m..k + n] == f'[m..n])
      && (forall n | 0 <= n < |f'| :: f[k + n] == f'[n])
  {
    assert bs == [bs[0]] + bs[1..];
    FullFront(bs[0], bs[1..], e);
    FullLength(bs[1..], k, e);
  }

  lemma NextWindow<T>(s: State<T>, s': State<T>)
    requires Linked(s) && Placed(s) && Window(s) && Linked(s') && Placed(s') && s.pop.Next? && s'.pop.Unback?
    requires |s.list| > 1 && s'.list == s.list[1..] && Blocks(s') == Blocks(s)[1..] && s'.k == s.k
    requires s'.push == s.push && s'.endPos == s.endPos && s'.committed == s.committed && s'.popped == s.popped
    ensures Window(s')
  {
    hide Full; hide Linked; hide Blocks;
    EvenBlocks(s);
    FullDropped(Blocks(s), s.k, E(s));
    var f, f', n := Full(Blocks(s), E(s)), Full(Blocks(s'), E(s')), |s.committed| - |s.popped|;
    assert B(s) == s.k && B(s') == 0 && E(s') == E(s);
    assert f[s.k + 0..s.k + n] == f'[0..n];
  }

  lemma PopNext<T>(s: State<T>, front: bool)
    requires Core(s) && s.pop.Next?
    ensures Core(PopStep(s, front))
  {
    hide OnePlace; hide Full; hide Linked; hide Blocks; hide Window;
    NextLinked(s);
    PopPlaces(s, front);
    NextShape(s, front);
    NextWindow(s, PopStep(s, front));
    NextSlot(s, PopStep(s, front));
  }

  /** The slot of the push does not move when the first chunk is taken off. */
  lemma NextSlot<T>(s: State<T>, s': State<T>)
    requires Linked(s) && Placed(s) && Slotted(s) && Linked(s') && Placed(s') && s.pop.Next? && s'.pop.Unback?
    requires |s.list| > 1 && s'.list == s.list[1..] && Blocks(s') == Blocks(s)[1..]
    requires (s.push.Move? || s.push.FillIn?) && E(s) == 0 ==> |s.list| > 2
    requires s'.k == s.k && s'.push == s.push && s'.end == s.end && s'.endPos == s.endPos
    ensures Slotted(s')
  {
    hide Linked; hide Blocks;
    EvenBlocks(s);
  }

  lemma PopClear<T>(s: State<T>, front: bool)
    requires Core(s) && (s.pop.Unback? || s.pop.Clear?)
    ensures Core(PopStep(s, front))
  {
    hide OnePlace; hide Full; hide Window; hide Blocks;
    PopPlaces(s, front);
    SameBlocks(s, PopStep(s, front));
    KeepsWindow(s, PopStep(s, front));
  }

  lemma PopCore<T>(s: State<T>, front: bool)
    requires Core(s)
    ensures Core(PopStep(s, front))
  {
    hide Core; hide PopStep;
    match s.pop
    case QIdle => PopLook(s, front);
    case Look(_) => PopLook(s, front);
    case Peek => PopRead(s, front);
    case Dec(_) => PopDec(s, front);
    case Read => PopRead(s, front);
    case Step(_) => PopTake(s, front);
    case Next => PopNext(s, front);
    case Unback(_) => PopClear(s, front);
    case Clear(_) => PopClear(s, front);
    case Give(_) => PopGive(s, front);
    case Release(_) => PopGive(s, front);
    case Crash => NoCrash(s);
  }

  lemma NoCrash<T>(s: State<T>)
    requires Core(s)
    ensures s.pop != Crash
  {
  }

  // ---------- the way back ----------

  /** The list is linked backwards as well, and it ends with the last chunk.  Only the first chunk can
      still name the one that was taken off before it, and the chunk a push is about to link names the
      end chunk already. */
  ghost predicate BackLinked<T>(s: State<T>)
    requires Linked(s)
  {
    && (forall i, j | 0 <= i < j < |s.list| && j == i + 1 :: s.cells[s.list[j]].prev == Some(s.list[i]))
    && (s.pop.Unback? || s.cells[s.list[0]].prev == None)
    && s.cells[s.list[|s.list| - 1]].next == None
    && (s.push.Link? ==> s.push.chunk < |s.cells| && s.cells[s.push.chunk].next == None)
    && (s.push.Reset? || s.push.Link? ==>
          s.push.chunk < |s.cells| && s.cells[s.push.chunk].prev == Some(s.end))
  }

  ghost predicate Safe<T>(s: State<T>) {
    Core(s) && BackLinked(s)
  }

  lemma InitialSafe<T>(s: State<T>)
    requires Initial(s)
    ensures Safe(s)
  {
    InitialCore(s);
  }

  lemma PushBackLinked<T>(s: State<T>, x: T, later: bool, blank: seq<T>)
    requires Safe(s) && Linked(PushStep(s, x, later, blank))
    ensures BackLinked(PushStep(s, x, later, blank))
  {
    hide OnePlace; hide Window; hide Slotted; hide Counted; hide Popping;
    if s.push.Back? || s.push.Reset? {
      BackBackLinked(s, x, later, blank);
    } else if s.push.Link? {
      LinkBackLinked(s, x, later, blank);
    } else {
      KeepsBack(s, x, later, blank);
    }
  }

  lemma KeepsBack<T>(s: State<T>, x: T, later: bool, blank: seq<T>)
    requires Linked(s) && BackLinked(s) && Linked(PushStep(s, x, later, blank))
    requires !s.push.Back? && !s.push.Reset? && !s.push.Link?
    ensures BackLinked(PushStep(s, x, later, blank))
  {
    hide Linked; hide BackLinked;
    var s' := PushStep(s, x, later, blank);
    assert !s'.push.Reset? && !s'.push.Link? && s'.list == s.list && s'.pop == s.pop;
    LinksKept(s, s');
  }

  lemma LinksKept<T>(s: State<T>, s': State<T>)
    requires Linked(s) && BackLinked(s) && Linked(s') && s'.list == s.list && s'.pop == s.pop
    requires !s'.push.Reset? && !s'.push.Link? && |s.cells| <= |s'.cells|
    requires forall c | 0 <= c < |s.cells| :: s'.cells[c].prev == s.cells[c].prev && s'.cells[c].next == s.cells[c].next
    ensures BackLinked(s')
  {
  }

  lemma BackBackLinked<T>(s: State<T>, x: T, later: bool, blank: seq<T>)
    requires Safe(s) && (s.push.Back? || s.push.Reset?) && Linked(PushStep(s, x, later, blank))
    ensures BackLinked(PushStep(s, x, later, blank))
  {
    hide OnePlace; hide Window; hide Slotted; hide Counted; hide Popping;
    NotListed(s, s.push.chunk);
    Handed(s, s.push.chunk);
  }

  lemma LinkBackLinked<T>(s: State<T>, x: T, later: bool, blank: seq<T>)
    requires Safe(s) && s.push.Link? && Linked(PushStep(s, x, later, blank))
    ensures BackLinked(PushStep(s, x, later, blank))
  {
    hide OnePlace; hide Window; hide Slotted; hide Counted; hide Popping;
    NotListed(s, s.push.chunk);
    Handed(s, s.push.chunk);
  }

  lemma PopBackLinked<T>(s: State<T>, front: bool)
    requires Safe(s) && Linked(PopStep(s, front))
    ensures BackLinked(PopStep(s, front))
  {
    hide OnePlace; hide BackLinked; hide Window; hide Slotted; hide Counted; hide Popping;
    if s.pop.Unback? {
      UnbackBackLinked(s, PopStep(s, front));
    } else {
      KeptBackLinked(s, PopStep(s, front));
    }
  }

  lemma UnbackBackLinked<T>(s: State<T>, s': State<T>)
    requires Safe(s) && Linked(s') && s.list != [] && s'.cells == SetPrev(s, s.list[0], None)
    requires s'.list == s.list && s'.push == s.push && s'.end == s.end
    ensures BackLinked(s')
  {
    hide OnePlace; hide Window; hide Slotted; hide Counted; hide Popping;
    if PushHand(s.push).Some? { NotListed(s, s.push.chunk); }
  }

  lemma KeptBackLinked<T>(s: State<T>, s': State<T>)
    requires Linked(s) && BackLinked(s) && Linked(s') && s'.cells == s.cells && s'.push == s.push && s'.end == s.end
    requires (s'.list == s.list[1..] && s'.pop.Unback?) || (s'.list == s.list && !s.pop.Unback?)
    ensures BackLinked(s')
  {
  }

  lemma PushSafe<T>(s: State<T>, x: T, later: bool, blank: seq<T>)
    requires Safe(s) && |blank| == s.k
    ensures Safe(PushStep(s, x, later, blank))
  {
    hide PushStep; hide OnePlace; hide Linked; hide Placed; hide Window; hide Slotted; hide Popping;
    PushCore(s, x, later, blank);
    PushBackLinked(s, x, later, blank);
  }

  lemma PopSafe<T>(s: State<T>, front: bool)
    requires Safe(s)
    ensures Safe(PopStep(s, front))
  {
    hide PopStep; hide OnePlace; hide Linked; hide Placed; hide Window; hide Slotted; hide Popping;
    PopCore(s, front);
    PopBackLinked(s, front);
  }

  // ---------- every interleaving ----------

  ghost predicate IsRun<T(!new)>(run: seq<State<T>>, acts: seq<Action<T>>) {
    && |run| == |acts| + 1 && Initial(run[0])
    && forall i, j | 0 <= i < j < |run| && j == i + 1 :: Follows(run[i], acts[i], run[j])
  }

  lemma {:induction false} RunSafe<T(!new)>(run: seq<State<T>>, acts: seq<Action<T>>, j: nat)
    requires IsRun(run, acts) && j < |run|
    ensures Safe(run[j])
  {
    hide Safe; hide Follows;
    if j == 0 {
      InitialSafe(run[0]);
    } else {
      RunSafe(run, acts, j - 1);
      NextSafe(run[j - 1], acts[j - 1], run[j]);
    }
  }

  lemma NextSafe<T>(s: State<T>, a: Action<T>, s': State<T>)
    requires Safe(s) && Follows(s, a, s')
    ensures Safe(s')
  {
    hide Safe; hide PushStep; hide PopStep;
    if a.PushAct? {
      PushSafe(s, a.x, a.later, a.blank);
    } else {
      PopSafe(s, a.front);
    }
  }

  /** The values of the pushes callers have started, in that order. */
  ghost function Asked<T>(run: seq<State<T>>, acts: seq<Action<T>>, j: nat): seq<T>
    requires j < |run| <= |acts| + 1
  {
    if j == 0 then []
    else
      var a := acts[j - 1];
      Asked(run, acts, j - 1) + (if a.PushAct? && run[j - 1].push.PIdle? then [a.x] else [])
  }

  /** The value of the push under way. */
  ghost function Pending<T>(p: PushPc<T>): seq<T> {
    if p.PIdle? then [] else [p.job.value]
  }

  lemma PushValue<T>(s: State<T>, a: Action<T>, s': State<T>)
    requires Follows(s, a, s')
    ensures s'.committed + Pending(s'.push) ==
      s.committed + Pending(s.push) + (if a.PushAct? && s.push.PIdle? then [a.x] else [])
  {
  }

  /** What is counted in is what callers pushed, in the order in which they started. */
  lemma {:induction false} PushedIsAsked<T(!new)>(run: seq<State<T>>, acts: seq<Action<T>>, j: nat)
    requires IsRun(run, acts) && j < |run|
    ensures run[j].committed + Pending(run[j].push) == Asked(run, acts, j)
  {
    hide Follows;
    if j > 0 {
      PushedIsAsked(run, acts, j - 1);
      PushValue(run[j - 1], acts[j - 1], run[j]);
    }
  }

  /** Whatever the interleaving: the values taken out are the first of those that callers pushed, in
      that order; no popper falls off the list; no chunk is in two places, nor freed twice. */
  lemma Fifo<T(!new)>(run: seq<State<T>>, acts: seq<Action<T>>, j: nat)
    requires IsRun(run, acts) && j < |run|
    ensures var s := run[j];
      && s.popped <= s.committed <= Asked(run, acts, j) && s.pop != Crash && NoRepeat(s.list) && NoRepeat(s.freed)
      && (forall c | c in s.list :: c !in s.freed && s.spare != Some(c))
      && (s.spare.Some? ==> s.spare.value !in s.freed)
  {
    hide Linked; hide Full; hide Follows;
    var s := run[j];
    RunSafe(run, acts, j);
    PushedIsAsked(run, acts, j);
    forall c | c in s.list ensures c !in s.freed && s.spare != Some(c) {
      assert Places(s, c) <= 1;
    }
    if s.spare.Some? { assert Places(s, s.spare.value) <= 1; }
    Unrepeated(s, s.list);
    Unrepeated(s, s.freed);
  }

  /** The answer a pop gets with this step: nothing, or a value. */
  ghost function Answer<T>(s: State<T>, a: Action<T>, s': State<T>): seq<Option<T>> {
    if a.PushAct? then []
    else if s.pop.Look? && s'.pop.QIdle? then [None]
    else if s.pop.Step? then [Some(s.pop.value)] else []
  }

  ghost function Answers<T>(run: seq<State<T>>, acts: seq<Action<T>>, j: nat): seq<Option<T>>
    requires j < |run| <= |acts| + 1
  {
    if j == 0 then [] else Answers(run, acts, j - 1) + Answer(run[j - 1], acts[j - 1], run[j])
  }

  ghost function Values<T>(answers: seq<Option<T>>): seq<T> {
    if answers == [] then []
    else
      var n := |answers| - 1;
      Values(answers[..n]) + (if answers[n].Some? then [answers[n].value] else [])
  }

  /** How many pops callers have started. */
  ghost function Starts<T>(run: seq<State<T>>, acts: seq<Action<T>>, j: nat): nat
    requires j < |run| <= |acts| + 1
  {
    if j == 0 then 0
    else Starts(run, acts, j - 1) + if acts[j - 1].PopAct? && run[j - 1].pop.QIdle? then 1 else 0
  }

  ghost predicate Unanswered<T>(p: PopPc<T>) {
    p.Look? || p.Peek? || p.Dec? || p.Read? || p.Step?
  }

  lemma PopAnswer<T>(s: State<T>, a: Action<T>, s': State<T>)
    requires Safe(s) && Follows(s, a, s') && s'.pop != Crash
    ensures |Answer(s, a, s')| + (if Unanswered(s'.pop) then 1 else 0)
      == (if Unanswered(s.pop) then 1 else 0) + if a.PopAct? && s.pop.QIdle? then 1 else 0
    ensures s'.popped == s.popped + Values(Answer(s, a, s'))
    ensures Answer(s, a, s') == [None] ==> s.committed == s.popped
  {
    hide OnePlace; hide Linked; hide Window; hide Slotted; hide BackLinked;
    var r := Answer(s, a, s');
    if r != [] { assert r[..0] == []; }
    if r == [None] { EmptyMeansEmpty(s, a.front); }
  }

  lemma {:induction false} ValuesAppend<T>(a: seq<Option<T>>, b: seq<Option<T>>)
    requires |b| <= 1
    ensures Values(a + b) == Values(a) + Values(b)
  {
    if b == [] {
      assert a + b == a;
    } else {
      assert (a + b)[..|a|] == a && b[..0] == [];
    }
  }

  /** Every pop that has been started has one answer, but for the one that is under way; the values
      answered are the values taken out. */
  lemma {:induction false} EveryPopAnswered<T(!new)>(run: seq<State<T>>, acts: seq<Action<T>>, j: nat)
    requires IsRun(run, acts) && j < |run|
    ensures Starts(run, acts, j) == |Answers(run, acts, j)| + if Unanswered(run[j].pop) then 1 else 0
    ensures run[j].popped == Values(Answers(run, acts, j))
  {
    hide Follows; hide Safe; hide Answer;
    if j > 0 {
      EveryPopAnswered(run, acts, j - 1);
      RunSafe(run, acts, j - 1);
      RunSafe(run, acts, j);
      NeverCrashed(run[j]);
      PopAnswer(run[j - 1], acts[j - 1], run[j]);
      OneAnswer(run[j - 1], acts[j - 1], run[j]);
      ValuesAppend(Answers(run, acts, j - 1), Answer(run[j - 1], acts[j - 1], run[j]));
    }
  }

  lemma NeverCrashed<T>(s: State<T>)
    requires Safe(s)
    ensures s.pop != Crash
  {
    NoCrash(s);
  }

  lemma OneAnswer<T>(s: State<T>, a: Action<T>, s': State<T>)
    ensures |Answer(s, a, s')| <= 1
  {
  }

  // ---------- the two forms of each operation ----------

  /** A push that copies has its value in the slot before the slot counts as used; one that reserves
      leaves the value to the caller. */
  lemma PushForms<T>(s: State<T>, x: T, later: bool, y: T, b: bool, blank: seq<T>)
    requires Safe(s) && s.push.PIdle?
    ensures var s' := PushStep(PushStep(s, x, later, blank), y, b, blank);
      && s.end < |s.cells| == |s'.cells| && s.endPos < |s'.cells[s.end].data|
      && if later then s'.endPos == s.endPos + 1 && s'.cells == s.cells
         else s'.endPos == s.endPos && s'.cells[s.end].data[s.endPos] == x
  {
    hide OnePlace; hide Window; hide Slotted; hide BackLinked;
  }

  /** A pop that looks first has its value while that is still counted in; the other one counts it out
      first. */
  lemma PopForms<T>(s: State<T>, front: bool)
    requires Safe(s) && s.pop.Look? && s.size != 0
    ensures |s.popped| < |s.committed|
    ensures var s' := PopStep(PopStep(s, front), front);
      if s.pop.front then s'.size == s.size && s'.pop == Dec(Some(s.committed[|s.popped|]))
      else s'.size == s.size - 1 && s'.pop == Read
  {
    hide OnePlace; hide Linked; hide Window; hide Slotted; hide BackLinked;
    FirstIsNext(s);
  }

  // ---------- every operation ends ----------

  ghost function PushRank<T>(p: PushPc<T>): nat {
    match p
    case PIdle => 0
    case Copy(_) => 10
    case Bump(_) => 9
    case Take(_) => 8
    case Alloc(_) => 7
    case Back(_, _) => 6
    case Reset(_, _) => 5
    case Link(_, _) => 4
    case Move(_, _) => 3
    case FillIn(_) => 2
    case Commit(_) => 1
  }

  ghost function PopRank<T>(p: PopPc<T>): nat {
    match p
    case QIdle => 0
    case Look(_) => 10
    case Peek => 9
    case Dec(_) => 8
    case Read => 7
    case Step(_) => 6
    case Next => 5
    case Unback(_) => 4
    case Clear(_) => 3
    case Give(_) => 2
    case Release(_) => 1
    case Crash => 0
  }

  /** An operation under way comes nearer to its end with each of its steps, and an idle side starts
      one: so a push or a pop is over after at most ten steps of its own. */
  lemma EveryStepCounts<T>(s: State<T>, x: T, later: bool, blank: seq<T>, front: bool)
    requires Safe(s)
    ensures var p, p' := s.push, PushStep(s, x, later, blank).push;
      if p.PIdle? then 0 < PushRank(p') <= 10 else PushRank(p') < PushRank(p)
    ensures var q, q' := s.pop, PopStep(s, front).pop;
      if q.QIdle? then 0 < PopRank(q') <= 10 else PopRank(q') < PopRank(q)
  {
    hide OnePlace; hide Linked; hide Window; hide Slotted; hide BackLinked;
  }

  /** What a push takes is what the spare slot held, and what a pop frees is what it held before the
      chunk just used up. */
  lemma SpareSlot<T>(s: State<T>, x: T, later: bool, blank: seq<T>, front: bool)
    ensures s.push.Take? ==>
      var s' := PushStep(s, x, later, blank); s'.spare == None && PushHand(s'.push) == s.spare && s'.cells == s.cells
    ensures s.pop.Give? ==>
      var s' := PopStep(s, front); s'.spare == PopHand(s.pop) && PopHand(s'.pop) == s.spare
    ensures s.pop.Release? ==>
      PopStep(s, front).freed == s.freed + if PopHand(s.pop).Some? then [PopHand(s.pop).value] else []
  {
  }

  lemma Unrepeated<T>(s: State<T>, cs: seq<nat>)
    requires OnePlace(s) && (cs == s.list || cs == s.freed)
    ensures NoRepeat(cs)
  {
    forall i, j | 0 <= i < j < |cs| ensures cs[i] != cs[j] {
      assert Places(s, cs[i]) <= 1;
      Twice(cs, i, j);
    }
  }

  lemma Twice(cs: seq<nat>, i: nat, j: nat)
    requires i < j < |cs|
    ensures cs[i] == cs[j] ==> multiset(cs)[cs[i]] >= 2
  {
    assert cs == cs[..j] + [cs[j]] + cs[j + 1..];
    assert cs[i] in cs[..j];
  }

  /** A pop that finds nothing has taken out all that was counted in when it looked. */
  lemma EmptyMeansEmpty<T>(s: State<T>, front: bool)
    requires Safe(s) && s.pop.Look? && PopStep(s, front).pop == QIdle
    ensures s.committed == s.popped
  {
    hide OnePlace; hide Linked; hide BackLinked;
  }

  /** Between operations the chunks hold exactly what was counted in and not taken out, and they
      are linked both ways. */
  lemma Rest<T>(s: State<T>)
    requires Safe(s) && s.push == PIdle && s.pop == QIdle
    ensures s.beginPos <= |Full(Blocks(s), s.endPos)|
    ensures s.committed == s.popped + Full(Blocks(s), s.endPos)[s.beginPos..]
    ensures s.size == (|s.list| - 1) * s.k + s.endPos - s.beginPos
    ensures s.cells[s.list[0]].prev == None && s.cells[s.list[|s.list| - 1]].next == None
    ensures forall i, j | 0 <= i < j < |s.list| && j == i + 1 ::
      s.cells[s.list[i]].next == Some(s.list[j]) && s.cells[s.list[j]].prev == Some(s.list[i])
  {
    hide OnePlace;
    var f := Full(Blocks(s), s.endPos);
    assert f[s.beginPos..|f|] == f[s.beginPos..];
    assert s.committed == s.popped + s.committed[|s.popped|..];
  }
}
