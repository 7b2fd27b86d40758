/** Spawn ids (`spawn_id.rs`): a nonce each process derives once and a counter it shares among
    its threads, in a world where processes come and go, pids are reused and a clock runs. */
module SpawnId {
  import opened Wrappers
  import opened Numerals

  const U64 := 0x1_0000_0000_0000_0000

  /** Zero on a clock before the epoch. */
  function Nanos(now: int): nat {
    if now < 0 then 0 else now
  }

  function NonceText(pid: nat, now: int): string {
    Digits(pid, 16) + ['.'] + Digits(Nanos(now), 16)
  }

  /** The counter wraps; it does not fail. */
  function IdText(nonce: string, count: nat): string {
    nonce + ['.'] + Digits(count % U64, 10)
  }

  // ----- What an id's text says -----

  lemma DigitsHoldNoDot(n: nat, base: Base)
    ensures '.' !in Digits(n, base)
  {
    assert !IsDigit('.', base);
  }

  /** An id is read back in one way. */
  lemma TextNamesTheParts(pid: nat, now: int, count: nat, pid': nat, now': int, count': nat)
    ensures IdText(NonceText(pid, now), count) == IdText(NonceText(pid', now'), count')
            <==> pid == pid' && Nanos(now) == Nanos(now') && count % U64 == count' % U64
  {
    TextSplits(pid, now, count);
    TextSplits(pid', now', count');
    if IdText(NonceText(pid, now), count) == IdText(NonceText(pid', now'), count') {
      DigitsAreInjective(pid, pid', 16);
      DigitsAreInjective(Nanos(now), Nanos(now'), 16);
      DigitsAreInjective(count % U64, count' % U64, 10);
    }
  }

  lemma TextSplits(pid: nat, now: int, count: nat)
    ensures var nanos, counted := Digits(Nanos(now), 16), Digits(count % U64, 10);
            && SplitOnce(IdText(NonceText(pid, now), count), '.') == Some((Digits(pid, 16), nanos + ['.'] + counted))
            && SplitOnce(nanos + ['.'] + counted, '.') == Some((nanos, counted))
  {
    var nanos, counted := Digits(Nanos(now), 16), Digits(count % U64, 10);
    assert IdText(NonceText(pid, now), count) == Digits(pid, 16) + ['.'] + (nanos + ['.'] + counted);
    DigitsHoldNoDot(pid, 16);
    DigitsHoldNoDot(Nanos(now), 16);
    SplitOnceFinds(Digits(pid, 16), '.', nanos + ['.'] + counted);
    SplitOnceFinds(nanos, '.', counted);
  }

  // ----- One process, one thread -----

  class Statics {
    const pid: nat
    var nonce: Option<string>
    var spawns: nat

    constructor (pid: nat)
      ensures this.pid == pid && nonce == None && spawns == 0
    {
      this.pid, nonce, spawns := pid, None, 0;
    }

    method GetOrInit(now: int) returns (held: string)
      modifies this`nonce
      ensures nonce == Some(held)
      ensures held == if old(nonce).Some? then old(nonce).value else NonceText(pid, now)
    {
      if nonce.None? {
        nonce := Some(Digits(pid, 16) + ['.'] + Digits(if now < 0 then 0 else now, 16));
      }
      held := nonce.value;
    }

    method FetchAdd() returns (before: nat)
      requires spawns < U64
      modifies this`spawns
      ensures before == old(spawns) && spawns == (before + 1) % U64
    {
      before := spawns;
      spawns := if spawns + 1 == U64 then 0 else spawns + 1;
    }

    method Next(now: int) returns (id: string)
      requires spawns < U64
      modifies this
      ensures nonce == Some(if old(nonce).Some? then old(nonce).value else NonceText(pid, now))
      ensures spawns == (old(spawns) + 1) % U64
      ensures id == IdText(nonce.value, old(spawns))
    {
      var held := GetOrInit(now);
      var count := FetchAdd();
      assert count % U64 == count;
      id := held + ['.'] + Digits(count, 10);
    }
  }

  // ----- Many processes, many threads -----

  /** A once-cell: the thread that finds it empty fills it, and every other waits. */
  datatype Cell = Empty | Filling(thread: nat, reading: Option<int>) | Ready(at: int, nonce: string)

  datatype Phase = Deriving | Waiting | Holding(nonce: string)

  datatype Process = Process(pid: nat, born: int, died: Option<int>, cell: Cell, spawns: nat, threads: map<nat, Phase>)

  datatype Minted = Minted(process: nat, count: nat, id: string)

  /** Processes are listed in the order they started, the gone among them. */
  datatype World = World(now: int, processes: seq<Process>, minted: seq<Minted>)

  datatype Act = Enter | ReadClock | Publish | Wake | Count

  datatype Step = Tick(nanos: nat) | Start(pid: nat) | Exit(p: nat) | Does(p: nat, thread: nat, act: Act)

  /** No pid is given out while a process has it, or at the instant that one was gone. */
  predicate PidIsFree(w: World, pid: nat) {
    forall q | 0 <= q < |w.processes| && w.processes[q].pid == pid ::
      w.processes[q].died.Some? && w.processes[q].died.value < w.now
  }

  function Entered(process: Process, thread: nat): Process
    requires thread !in process.threads
  {
    match process.cell
    case Empty => process.(cell := Filling(thread, None), threads := process.threads[thread := Deriving])
    case Filling(_, _) => process.(threads := process.threads[thread := Waiting])
    case Ready(_, nonce) => process.(threads := process.threads[thread := Holding(nonce)])
  }

  /** What a thread of a live process does at the instant `now`, and the id that mints if it is
      the counting; `None` when it cannot. */
  function Acted(process: Process, thread: nat, act: Act, now: int): Option<(Process, Option<string>)> {
    match act
    case Enter => if thread in process.threads then None else Some((Entered(process, thread), None))
    case ReadClock =>
      if process.cell == Filling(thread, None)
      then Some((process.(cell := Filling(thread, Some(now))), None)) else None
    case Publish =>
      (match process.cell
       case Filling(filler, Some(at)) =>
         if filler != thread then None
         else
           var nonce := NonceText(process.pid, at);
           Some((process.(cell := Ready(at, nonce), threads := process.threads[thread := Holding(nonce)]), None))
       case _ => None)
    case Wake =>
      if process.cell.Ready? && thread in process.threads && process.threads[thread].Waiting?
      then Some((process.(threads := process.threads[thread := Holding(process.cell.nonce)]), None)) else None
    case Count =>
      if thread in process.threads && process.threads[thread].Holding?
      then Some((process.(spawns := process.spawns + 1, threads := process.threads - {thread}),
                 Some(IdText(process.threads[thread].nonce, process.spawns)))) else None
  }

  predicate IsAlive(w: World, p: nat) {
    p < |w.processes| && w.processes[p].died.None?
  }

  function Take(w: World, step: Step): Option<World> {
    match step
    case Tick(nanos) => Some(w.(now := w.now + nanos))
    case Start(pid) =>
      if PidIsFree(w, pid)
      then Some(w.(processes := w.processes + [Process(pid, w.now, None, Empty, 0, map[])])) else None
    case Exit(p) =>
      if IsAlive(w, p) then Some(w.(processes := w.processes[p := w.processes[p].(died := Some(w.now))])) else None
    case Does(p, thread, act) =>
      if IsAlive(w, p) then Doing(w, p, Acted(w.processes[p], thread, act, w.now)) else None
  }

  function Doing(w: World, p: nat, acted: Option<(Process, Option<string>)>): Option<World>
    requires p < |w.processes|
  {
    match acted
    case None => None
    case Some((after, None)) => Some(w.(processes := w.processes[p := after]))
    case Some((after, Some(id))) =>
      Some(w.(processes := w.processes[p := after], minted := w.minted + [Minted(p, w.processes[p].spawns, id)]))
  }

  function Run(w: World, steps: seq<Step>): Option<World>
    decreases |steps|
  {
    if steps == [] then Some(w)
    else
      var next := Take(w, steps[0]);
      if next.None? then None else Run(next.value, steps[1..])
  }

  function Boot(now: int): World {
    World(now, [], [])
  }

  // ----- What every step keeps -----

  predicate ProcessIsSound(process: Process, now: int) {
    var last := if process.died.Some? then process.died.value else now;
    && process.born <= last <= now
    && (process.cell.Filling? && process.cell.reading.Some? ==> process.born <= process.cell.reading.value <= last)
    && (process.cell.Ready? ==>
          process.born <= process.cell.at <= last && process.cell.nonce == NonceText(process.pid, process.cell.at))
    && (!process.cell.Ready? ==> process.spawns == 0)
    && (forall t | t in process.threads && process.threads[t].Holding? ::
          process.cell.Ready? && process.threads[t].nonce == process.cell.nonce)
  }

  ghost predicate AllSound(w: World) {
    forall q | 0 <= q < |w.processes| :: ProcessIsSound(w.processes[q], w.now)
  }

  /** Of two processes with one pid, the earlier was gone before the later began. */
  ghost predicate PidsDoNotOverlap(processes: seq<Process>) {
    forall q, r | 0 <= q < r < |processes| && processes[q].pid == processes[r].pid ::
      processes[q].died.Some? && processes[q].died.value < processes[r].born
  }

  predicate IsRecorded(m: Minted, processes: seq<Process>) {
    && m.process < |processes|
    && processes[m.process].cell.Ready?
    && m.count < processes[m.process].spawns
    && m.id == IdText(processes[m.process].cell.nonce, m.count)
  }

  ghost predicate AllRecorded(w: World) {
    && (forall i | 0 <= i < |w.minted| :: IsRecorded(w.minted[i], w.processes))
    && (forall i, j | 0 <= i < j < |w.minted| && w.minted[i].process == w.minted[j].process ::
          w.minted[i].count < w.minted[j].count)
  }

  ghost predicate Inv(w: World) {
    AllSound(w) && PidsDoNotOverlap(w.processes) && AllRecorded(w)
  }

  /** A thread's step leaves its process sound, as it was born, and its cell filled once. */
  lemma ActKeepsSound(process: Process, thread: nat, act: Act, now: int)
    requires ProcessIsSound(process, now) && process.died.None?
    requires Acted(process, thread, act, now).Some?
    ensures var (after, minted) := Acted(process, thread, act, now).value;
            && ProcessIsSound(after, now) && after.pid == process.pid && after.born == process.born && after.died.None?
            && (process.cell.Ready? ==> after.cell == process.cell)
            && after.spawns == process.spawns + (if minted.Some? then 1 else 0)
            && (minted.Some? ==> after.cell.Ready? && minted.value == IdText(after.cell.nonce, process.spawns))
  {
  }

  /** A process may go on from `before` to `after` without disturbing what was recorded. */
  predicate GoesOn(before: Process, after: Process) {
    && after.pid == before.pid && after.born == before.born && (before.died.Some? ==> after.died == before.died)
    && (before.cell.Ready? ==> after.cell == before.cell) && after.spawns >= before.spawns
  }

  lemma RecordsStand(minted: seq<Minted>, processes: seq<Process>, p: nat, after: Process)
    requires p < |processes| && GoesOn(processes[p], after)
    requires forall i | 0 <= i < |minted| :: IsRecorded(minted[i], processes)
    requires PidsDoNotOverlap(processes)
    ensures forall i | 0 <= i < |minted| :: IsRecorded(minted[i], processes[p := after])
    ensures PidsDoNotOverlap(processes[p := after])
  {
    forall i | 0 <= i < |minted| ensures IsRecorded(minted[i], processes[p := after]) {
      assert IsRecorded(minted[i], processes);
    }
  }

  lemma ActKeepsInv(w: World, p: nat, thread: nat, act: Act)
    requires Inv(w) && IsAlive(w, p) && Acted(w.processes[p], thread, act, w.now).Some?
    ensures Inv(Doing(w, p, Acted(w.processes[p], thread, act, w.now)).value)
  {
    var (after, minted) := Acted(w.processes[p], thread, act, w.now).value;
    var next := Doing(w, p, Some((after, minted))).value;
    assert ProcessIsSound(w.processes[p], w.now);
    ActKeepsSound(w.processes[p], thread, act, w.now);
    RecordsStand(w.minted, w.processes, p, after);
    if minted.Some? {
      assert IsRecorded(next.minted[|w.minted|], next.processes);
      forall i | 0 <= i < |w.minted| && w.minted[i].process == p
        ensures w.minted[i].count < next.minted[|w.minted|].count
      {
        assert IsRecorded(w.minted[i], w.processes);
      }
    }
  }

  lemma StepKeepsInv(w: World, step: Step)
    requires Inv(w) && Take(w, step).Some?
    ensures Inv(Take(w, step).value)
  {
    match step {
      case Tick(_) =>
      case Start(_) =>
        var next := Take(w, step).value;
        forall i | 0 <= i < |w.minted| ensures IsRecorded(w.minted[i], next.processes) {
          assert IsRecorded(w.minted[i], w.processes);
        }
      case Exit(p) =>
        RecordsStand(w.minted, w.processes, p, w.processes[p].(died := Some(w.now)));
      case Does(p, thread, act) =>
        ActKeepsInv(w, p, thread, act);
    }
  }

  lemma {:induction false} RunKeepsInv(w: World, steps: seq<Step>)
    requires Inv(w) && Run(w, steps).Some?
    ensures Inv(Run(w, steps).value)
    decreases |steps|
  {
    if steps != [] {
      StepKeepsInv(w, steps[0]);
      RunKeepsInv(Take(w, steps[0]).value, steps[1..]);
    }
  }

  // ----- Uniqueness -----

  /** Two ids of one world read alike in two ways only: one process counted past 2^64, or two
      processes had one pid and both took their nonce no later than the epoch. */
  ghost predicate Collide(w: World, i: nat, j: nat)
    requires i < |w.minted| && j < |w.minted|
    requires IsRecorded(w.minted[i], w.processes) && IsRecorded(w.minted[j], w.processes)
  {
    var a, b := w.minted[i], w.minted[j];
    && a.count % U64 == b.count % U64
    && (a.process == b.process
        || (&& w.processes[a.process].pid == w.processes[b.process].pid
            && w.processes[a.process].cell.at <= 0 && w.processes[b.process].cell.at <= 0))
  }

  lemma IdsReadAlikeIffTheyCollide(now: int, steps: seq<Step>, i: nat, j: nat)
    requires Run(Boot(now), steps).Some? && i < |Run(Boot(now), steps).value.minted|
    requires j < |Run(Boot(now), steps).value.minted|
    ensures var w := Run(Boot(now), steps).value;
            && IsRecorded(w.minted[i], w.processes) && IsRecorded(w.minted[j], w.processes)
            && (w.minted[i].id == w.minted[j].id <==> Collide(w, i, j))
  {
    RunKeepsInv(Boot(now), steps);
    var w := Run(Boot(now), steps).value;
    var a, b := w.minted[i], w.minted[j];
    var p, q := w.processes[a.process], w.processes[b.process];
    assert IsRecorded(a, w.processes) && IsRecorded(b, w.processes);
    assert ProcessIsSound(p, w.now) && ProcessIsSound(q, w.now);
    TextNamesTheParts(p.pid, p.cell.at, a.count, q.pid, q.cell.at, b.count);
  }

  lemma {:induction false} TimeOnlyPasses(w: World, steps: seq<Step>)
    requires Run(w, steps).Some?
    requires forall q | 0 <= q < |w.processes| :: w.processes[q].born > 0
    requires w.now > 0
    ensures var end := Run(w, steps).value; forall q | 0 <= q < |end.processes| :: end.processes[q].born > 0
    decreases |steps|
  {
    if steps != [] { TimeOnlyPasses(Take(w, steps[0]).value, steps[1..]); }
  }

  /** With the clock past the epoch, every id ever minted, by any process and any thread in any
      interleaving, is its own; the counter's width is the one bound. */
  lemma EveryIdIsItsOwn(now: int, steps: seq<Step>, i: nat, j: nat)
    requires now > 0 && Run(Boot(now), steps).Some?
    requires i < j < |Run(Boot(now), steps).value.minted|
    requires forall q | 0 <= q < |Run(Boot(now), steps).value.processes| ::
               Run(Boot(now), steps).value.processes[q].spawns <= U64
    ensures Run(Boot(now), steps).value.minted[i].id != Run(Boot(now), steps).value.minted[j].id
  {
    IdsReadAlikeIffTheyCollide(now, steps, i, j);
    TimeOnlyPasses(Boot(now), steps);
    RunKeepsInv(Boot(now), steps);
    var w := Run(Boot(now), steps).value;
    var a, b := w.minted[i], w.minted[j];
    assert ProcessIsSound(w.processes[a.process], w.now);
    assert w.processes[a.process].spawns <= U64 && w.processes[b.process].spawns <= U64;
  }

  /** A thread's acts, one after another and at one instant. */
  function ActedAll(process: Process, thread: nat, acts: seq<Act>, now: int): Option<(Process, seq<string>)>
    decreases |acts|
  {
    if acts == [] then Some((process, []))
    else
      var first := Acted(process, thread, acts[0], now);
      if first.None? then None
      else
        var rest := ActedAll(first.value.0, thread, acts[1..], now);
        if rest.None? then None
        else Some((rest.value.0, (if first.value.1.Some? then [first.value.1.value] else []) + rest.value.1))
  }

  const CALL := [Enter] + ([ReadClock] + ([Publish] + [Count]))

  lemma OneMoreAct(process: Process, thread: nat, act: Act, rest: seq<Act>, now: int)
    requires Acted(process, thread, act, now).Some? && Acted(process, thread, act, now).value.1.None?
    ensures ActedAll(process, thread, [act] + rest, now) ==
            ActedAll(Acted(process, thread, act, now).value.0, thread, rest, now)
  {
    assert ([act] + rest)[1..] == rest;
    var later := ActedAll(Acted(process, thread, act, now).value.0, thread, rest, now);
    if later.Some? { assert [] + later.value.1 == later.value.1; }
  }

  lemma CountIsLast(process: Process, thread: nat, now: int)
    requires thread in process.threads && process.threads[thread].Holding?
    ensures ActedAll(process, thread, [Count], now) ==
            Some((process.(spawns := process.spawns + 1, threads := process.threads - {thread}),
                  [IdText(process.threads[thread].nonce, process.spawns)]))
  {
    var id := IdText(process.threads[thread].nonce, process.spawns);
    assert [Count][1..] == [] && [id] + [] == [id];
  }

  /** A call that meets no other thread is what one thread's `Next` does: the first derives the
      nonce, and every later one finds it. */
  lemma OneCallAlone(process: Process, thread: nat, now: int)
    requires thread !in process.threads && !process.cell.Filling?
    ensures var nonce := if process.cell.Ready? then process.cell.nonce else NonceText(process.pid, now);
            var acts := if process.cell.Ready? then [Enter] + [Count] else CALL;
            ActedAll(process, thread, acts, now) ==
            Some((Called(process, nonce, now), [IdText(nonce, process.spawns)]))
  {
    if process.cell.Ready? {
      LaterCallAlone(process, thread, now);
    } else {
      FirstCallAlone(process, thread, now);
    }
  }

  lemma LaterCallAlone(process: Process, thread: nat, now: int)
    requires thread !in process.threads && process.cell.Ready?
    ensures ActedAll(process, thread, [Enter] + [Count], now) ==
            Some((Called(process, process.cell.nonce, now), [IdText(process.cell.nonce, process.spawns)]))
  {
    OneMoreAct(process, thread, Enter, [Count], now);
    var p1 := Acted(process, thread, Enter, now).value.0;
    CountIsLast(p1, thread, now);
    assert p1.threads - {thread} == process.threads;
  }

  lemma FirstCallAlone(process: Process, thread: nat, now: int)
    requires thread !in process.threads && process.cell.Empty?
    ensures ActedAll(process, thread, CALL, now) ==
            Some((Called(process, NonceText(process.pid, now), now),
                  [IdText(NonceText(process.pid, now), process.spawns)]))
  {
    var p1 := Acted(process, thread, Enter, now).value.0;
    var p2 := Acted(p1, thread, ReadClock, now).value.0;
    var p3 := Acted(p2, thread, Publish, now).value.0;
    OneMoreAct(process, thread, Enter, [ReadClock] + ([Publish] + [Count]), now);
    OneMoreAct(p1, thread, ReadClock, [Publish] + [Count], now);
    OneMoreAct(p2, thread, Publish, [Count], now);
    CountIsLast(p3, thread, now);
    assert p3.threads - {thread} == process.threads;
  }

  function Called(process: Process, nonce: string, now: int): Process {
    process.(cell := if process.cell.Ready? then process.cell else Ready(now, nonce), spawns := process.spawns + 1)
  }

  function Steps(p: nat, thread: nat, acts: seq<Act>): seq<Step> {
    if acts == [] then [] else [Does(p, thread, acts[0])] + Steps(p, thread, acts[1..])
  }

  function WorldAfter(w: World, p: nat, after: Process, ids: seq<string>): World
    requires p < |w.processes|
  {
    World(w.now, w.processes[p := after],
          w.minted + seq(|ids|, i requires 0 <= i < |ids| => Minted(p, w.processes[p].spawns + i, ids[i])))
  }

  lemma ActKeepsAlive(process: Process, thread: nat, act: Act, now: int)
    requires Acted(process, thread, act, now).Some? && process.died.None?
    ensures var (after, minted) := Acted(process, thread, act, now).value;
            after.died.None? && after.spawns == process.spawns + if minted.Some? then 1 else 0
  {
  }

  function AsSeq(minted: Option<string>): seq<string> {
    if minted.Some? then [minted.value] else []
  }

  lemma ActIsStep(w: World, p: nat, thread: nat, act: Act)
    requires IsAlive(w, p) && Acted(w.processes[p], thread, act, w.now).Some?
    ensures var (after, minted) := Acted(w.processes[p], thread, act, w.now).value;
            Take(w, Does(p, thread, act)) == Some(WorldAfter(w, p, after, AsSeq(minted)))
  {
    var (after, minted) := Acted(w.processes[p], thread, act, w.now).value;
    MintedOnce(w, p, after, minted);
  }

  lemma MintedOnce(w: World, p: nat, after: Process, minted: Option<string>)
    requires p < |w.processes|
    ensures Doing(w, p, Some((after, minted))) == Some(WorldAfter(w, p, after, AsSeq(minted)))
  {
    var end := WorldAfter(w, p, after, AsSeq(minted));
    if minted.None? {
      assert end.minted == w.minted;
    } else {
      assert end.minted == w.minted + [Minted(p, w.processes[p].spawns, minted.value)];
    }
  }

  lemma WorldAfterBoth(w: World, p: nat, first: Process, ids: seq<string>, after: Process, more: seq<string>)
    requires p < |w.processes| && first.spawns == w.processes[p].spawns + |ids|
    ensures WorldAfter(WorldAfter(w, p, first, ids), p, after, more) == WorldAfter(w, p, after, ids + more)
  {
    var spawns := w.processes[p].spawns;
    assert seq(|ids + more|, i requires 0 <= i < |ids + more| => Minted(p, spawns + i, (ids + more)[i])) ==
           seq(|ids|, i requires 0 <= i < |ids| => Minted(p, spawns + i, ids[i]))
           + seq(|more|, i requires 0 <= i < |more| => Minted(p, first.spawns + i, more[i]));
  }

  lemma NothingActed(w: World, p: nat)
    requires p < |w.processes|
    ensures WorldAfter(w, p, w.processes[p], []) == w
  {
    assert WorldAfter(w, p, w.processes[p], []).minted == w.minted;
    assert WorldAfter(w, p, w.processes[p], []).processes == w.processes;
  }

  /** A thread left to itself takes the world where its process goes. */
  lemma {:induction false} ActsAreSteps(w: World, p: nat, thread: nat, acts: seq<Act>)
    requires IsAlive(w, p) && ActedAll(w.processes[p], thread, acts, w.now).Some?
    ensures var (after, ids) := ActedAll(w.processes[p], thread, acts, w.now).value;
            && after.died.None?
            && Run(w, Steps(p, thread, acts)) == Some(WorldAfter(w, p, after, ids))
    decreases |acts|
  {
    if acts == [] {
      NothingActed(w, p);
    } else {
      var (first, minted) := Acted(w.processes[p], thread, acts[0], w.now).value;
      var ids := AsSeq(minted);
      var next := WorldAfter(w, p, first, ids);
      ActIsStep(w, p, thread, acts[0]);
      ActKeepsAlive(w.processes[p], thread, acts[0], w.now);
      ActsAreSteps(next, p, thread, acts[1..]);
      var (after, more) := ActedAll(first, thread, acts[1..], w.now).value;
      WorldAfterBoth(w, p, first, ids, after, more);
      assert Steps(p, thread, acts)[1..] == Steps(p, thread, acts[1..]);
    }
  }

  // ----- Where uniqueness ends -----

  lemma FirstCall(w: World, p: nat) returns (next: World)
    requires IsAlive(w, p) && w.processes[p].cell.Empty? && 0 !in w.processes[p].threads
    ensures Run(w, Steps(p, 0, CALL)) == Some(next)
    ensures next.now == w.now && |next.processes| == |w.processes| && IsAlive(next, p)
    ensures next.processes == w.processes[p := next.processes[p]] && next.processes[p].pid == w.processes[p].pid
    ensures next.processes[p].cell.Ready? && next.processes[p].cell.nonce == NonceText(w.processes[p].pid, w.now)
    ensures next.processes[p].spawns == w.processes[p].spawns + 1 && next.processes[p].threads == w.processes[p].threads
    ensures next.minted ==
            w.minted + [Minted(p, w.processes[p].spawns,
                               IdText(NonceText(w.processes[p].pid, w.now), w.processes[p].spawns))]
  {
    OneCallAlone(w.processes[p], 0, w.now);
    ActsAreSteps(w, p, 0, CALL);
    next := Run(w, Steps(p, 0, CALL)).value;
  }

  /** Before the epoch the nonce is the pid alone, and a reused pid mints its predecessor's id. */
  lemma BeforeTheEpochIdsCollide() returns (steps: seq<Step>)
    ensures Run(Boot(-10), steps).Some?
    ensures var minted := Run(Boot(-10), steps).value.minted;
            |minted| == 2 && minted[0].process != minted[1].process && minted[0].id == minted[1].id
  {
    var between: seq<Step> := [Exit(0), Tick(1), Start(7)];
    steps := [Start(7)] + (Steps(0, 0, CALL) + (between + Steps(1, 0, CALL)));
    var w1 := Take(Boot(-10), Start(7)).value;
    var w2 := FirstCall(w1, 0);
    var w3 := Take(w2, Exit(0)).value;
    var w4 := Take(w3, Tick(1)).value;
    var w5 := Take(w4, Start(7)).value;
    assert between[1..] == [Tick(1), Start(7)] && between[1..][1..] == [Start(7)] && between[1..][1..][1..] == [];
    assert Run(w2, between) == Some(w5);
    var w6 := FirstCall(w5, 1);
    RunJoins(w2, between, Steps(1, 0, CALL));
    RunJoins(w1, Steps(0, 0, CALL), between + Steps(1, 0, CALL));
    assert steps[1..] == Steps(0, 0, CALL) + (between + Steps(1, 0, CALL));
    assert Run(Boot(-10), steps) == Run(w1, steps[1..]) == Some(w6);
  }

  /** Everything minted from `first` on is process `p`'s, its count going up from `count`. */
  predicate CountsUp(minted: seq<Minted>, first: nat, p: nat, nonce: string, count: nat) {
    forall k | first <= k < |minted| :: minted[k] == Minted(p, count + (k - first), IdText(nonce, count + (k - first)))
  }

  lemma OneLaterCall(w: World, p: nat) returns (next: World)
    requires IsAlive(w, p) && w.processes[p].cell.Ready? && 0 !in w.processes[p].threads
    ensures var process := w.processes[p];
            && Run(w, Steps(p, 0, [Enter] + [Count])) == Some(next) && IsAlive(next, p)
            && next.processes[p] == process.(spawns := process.spawns + 1)
            && next.minted == w.minted + [Minted(p, process.spawns, IdText(process.cell.nonce, process.spawns))]
  {
    OneCallAlone(w.processes[p], 0, w.now);
    ActsAreSteps(w, p, 0, [Enter] + [Count]);
    next := Run(w, Steps(p, 0, [Enter] + [Count])).value;
  }

  /** The `n` calls one thread makes one after another, in a process that has its nonce. */
  lemma {:induction false} CallsCountUp(w: World, p: nat, n: nat) returns (steps: seq<Step>, next: World)
    requires IsAlive(w, p) && w.processes[p].cell.Ready? && 0 !in w.processes[p].threads
    ensures var process := w.processes[p];
            && Run(w, steps) == Some(next) && IsAlive(next, p)
            && next.processes[p] == process.(spawns := process.spawns + n)
            && |next.minted| == |w.minted| + n && w.minted <= next.minted
            && CountsUp(next.minted, |w.minted|, p, process.cell.nonce, process.spawns)
    decreases n
  {
    if n == 0 {
      steps, next := [], w;
    } else {
      var before, w1 := CallsCountUp(w, p, n - 1);
      next := OneLaterCall(w1, p);
      RunJoins(w, before, Steps(p, 0, [Enter] + [Count]));
      steps := before + Steps(p, 0, [Enter] + [Count]);
    }
  }

  /** A fresh process's first `n` calls, and the one after them. */
  lemma CountingFrom(n: nat) returns (steps: seq<Step>)
    requires n > 0
    ensures Run(Boot(1), steps).Some?
    ensures var minted := Run(Boot(1), steps).value.minted;
            && |minted| == n + 1
            && minted[0] == Minted(0, 0, IdText(NonceText(7, 1), 0))
            && minted[n] == Minted(0, n, IdText(NonceText(7, 1), n))
  {
    var w1 := Take(Boot(1), Start(7)).value;
    var w2 := FirstCall(w1, 0);
    var rest, w3 := CallsCountUp(w2, 0, n);
    RunJoins(w1, Steps(0, 0, CALL), rest);
    steps := [Start(7)] + (Steps(0, 0, CALL) + rest);
    assert steps[1..] == Steps(0, 0, CALL) + rest;
    assert Run(Boot(1), steps) == Run(w1, steps[1..]) == Some(w3);
    assert w3.minted[0] == w2.minted[0];
  }

  /** And past the epoch the counter still goes round: a process that lives to mint 2^64 ids and
      one more mints its first again. */
  lemma TheCounterGoesRound() returns (steps: seq<Step>)
    ensures Run(Boot(1), steps).Some?
    ensures var minted := Run(Boot(1), steps).value.minted;
            |minted| == U64 + 1 && minted[0].process == minted[U64].process && minted[0].id == minted[U64].id
  {
    steps := CountingFrom(U64);
    TextNamesTheParts(7, 1, 0, 7, 1, U64);
  }

  lemma {:induction false} RunJoins(w: World, first: seq<Step>, second: seq<Step>)
    ensures Run(w, first + second) ==
            if Run(w, first).None? then None else Run(Run(w, first).value, second)
    decreases |first|
  {
    if first == [] {
      assert first + second == second;
    } else {
      assert (first + second)[1..] == first[1..] + second;
      var next := Take(w, first[0]);
      if next.Some? { RunJoins(next.value, first[1..], second); }
    }
  }
}
