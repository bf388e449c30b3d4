/**
 When a server can go deaf under real interleavings: a family that is running, with no accept posted,
 no connector left and no thread that still works for it, never accepts a connection again.
 */
module ServerDeafness {
  import opened Server
  import opened ServerThreads

  predicate Elsewhere(pc: Pc, f: Family) { pc == Idle || pc.f != f }

  /** Nothing is left that could ever post an accept for `f`. */
  predicate Dead(s: Shared, f: Family) {
    && s.At(f).running && s.At(f).pending == 0 && s.At(f).live == 0
    && forall i :: 0 <= i < |s.threads| ==> Elsewhere(s.threads[i], f)
  }

  /** That lasts, whatever the other family does. */
  lemma {:induction false} DeadForever(s: Shared, f: Family, ops: seq<Op>)
    requires Dead(s, f) && CanRun(s, ops)
    ensures Dead(RunAll(s, ops), f)
    decreases |ops|
  {
    if ops != [] {
      DeadStep(s, f, ops[0]);
      DeadForever(Do(s, ops[0]), f, ops[1..]);
    }
  }

  lemma {:induction false} DeadStep(s: Shared, f: Family, op: Op)
    requires Dead(s, f) && CanDo(s, op)
    ensures Dead(Do(s, op), f)
  {
    var g := Concerns(s, op);
    assert g != f;
    var l := Seen(s, op.i, g);
    var r := if op.Op? then Turn(l, op.max) else Begin(l, op);
    assert Elsewhere(r.pc, f);
  }

  // ---------------------------------------------------------------- enough places for every thread

  predicate Holds(pc: Pc) { (pc.Ask? || pc.Raise? || pc.Claim? || pc.Build? || pc.Undo?) && pc.held }

  /** The thread will post an accept, or leave something behind that sees to it. */
  predicate Keeps(pc: Pc, waiting: bool) {
    if waiting then Holds(pc) || pc.Build? || pc.Lower? || pc.Free?
    else pc.Ask? || pc.Raise? || pc.Claim? || pc.Build?
  }

  /** So does a posted accept, and while the flag is up a connector. */
  predicate Tends(l: Local) { l.pending > 0 || (l.waiting && l.live > 0) || Keeps(l.pc, l.waiting) }

  /** A connector has ended and others have counted so far up that the flag stays up. */
  predicate Stops(l: Local, max: int) { l.pc.Lower? && l.waiting && l.use - 1 >= max }

  /** A thread that tends goes on tending, or stops in that one place; the flag changes only under its care. */
  lemma {:induction false} TurnTends(l: Local, max: int)
    requires l.pc != Idle && l.pending >= 0 && l.live >= 0
    ensures var r := Turn(l, max); Tends(r) || (r.waiting == l.waiting && (Tends(l) ==> Stops(l, max)))
  {
  }

  lemma {:induction false} BeginTends(l: Local, op: Op)
    requires l.pc == Idle && !op.Op?
    requires op.StartUp? ==> !l.waiting
    ensures var r := Begin(l, op); Tends(r) || (r.waiting == l.waiting && !Tends(l))
  {
  }

  /** Everything that happens is about `f`. */
  predicate OnlyFor(s: Shared, f: Family) {
    && Untouched(s.At(f.Other()))
    && forall i :: 0 <= i < |s.threads| && s.threads[i] != Idle ==> s.threads[i].f == f && s.At(f).running
  }

  /** Once `f` is running something tends to it. */
  predicate Cared(s: Shared, f: Family) {
    && s.At(f).pending >= 0 && s.At(f).live >= 0 && OnlyFor(s, f)
    && (if s.At(f).running then Tended(s, f) else Untouched(s.At(f)))
  }

  predicate Tended(s: Shared, f: Family) { exists i :: 0 <= i < |s.threads| && Tends(Seen(s, i, f)) }

  lemma {:induction false} Below(threads: seq<Pc>, i: nat)
    requires i < |threads| && threads[i] == Idle && forall j :: 0 <= j < |threads| ==> !Holds(threads[j])
    ensures AllDue(threads) <= |threads| - 1
    decreases |threads|
  {
    assert Due(threads[0]) <= 1;
    if i > 0 { Below(threads[1..], i - 1); } else { AtMost(threads[1..]); }
  }

  lemma {:induction false} AtMost(threads: seq<Pc>)
    requires forall j :: 0 <= j < |threads| ==> !Holds(threads[j])
    ensures AllDue(threads) <= |threads|
    decreases |threads|
  {
    if threads != [] {
      assert Due(threads[0]) <= 1;
      AtMost(threads[1..]);
    }
  }

  /** With no more threads than places, a connector that stops is never the last to tend. */
  lemma {:induction false} StopsAmongOthers(s: Shared, i: nat, f: Family, max: int)
    requires Conserved(s) && Untouched(s.At(f.Other())) && i < |s.threads| <= max
    requires s.At(f).waiting && s.use >= max && s.threads[i] == Idle
    ensures Tended(s, f)
  {
    if s.At(f).pending > 0 || s.At(f).live > 0 {
      assert Tends(Seen(s, i, f));
    } else if j: nat :| j < |s.threads| && Keeps(s.threads[j], true) {
      assert Tends(Seen(s, j, f));
    } else {
      Below(s.threads, i);
      assert false;
    }
  }

  /** A thread that tends to `f` without a posted accept or a connector still does after another one moved. */
  lemma {:induction false} OthersTend(s: Shared, i: nat, f: Family, r: Local)
    requires i < |s.threads| && Tended(s, f) && !Tends(Seen(s, i, f)) && r.waiting == s.At(f).waiting
    ensures Tended(Done(s, i, f, r), f)
  {
    var j :| 0 <= j < |s.threads| && Tends(Seen(s, j, f));
    assert Keeps(s.threads[j], s.At(f).waiting) && j != i;
    assert Keeps(Seen(Done(s, i, f, r), j, f).pc, r.waiting);
    assert Tends(Seen(Done(s, i, f, r), j, f));
  }

  lemma {:induction false} OnlyForConcerns(s: Shared, op: Op, f: Family)
    requires OnlyFor(s, f) && CanDo(s, op) && (op.StartUp? ==> op.f == f)
    ensures Concerns(s, op) == f
  {
  }

  lemma {:induction false} OnlyForDone(s: Shared, i: nat, f: Family, r: Local)
    requires OnlyFor(s, f) && i < |s.threads| && (r.pc != Idle ==> r.pc.f == f && r.running)
    requires s.At(f).running ==> r.running
    ensures OnlyFor(Done(s, i, f, r), f)
  {
  }

  lemma {:induction false} TendedDone(s: Shared, i: nat, f: Family, r: Local)
    requires i < |s.threads| && Tends(r)
    ensures Tended(Done(s, i, f, r), f)
  {
    assert Seen(Done(s, i, f, r), i, f) == r;
  }

  /** Where a connector stops without leaving anything to tend to `f`, something else does. */
  predicate Relieved(s: Shared, i: nat, f: Family, max: int)
    requires i < |s.threads|
  {
    var l := Seen(s, i, f);
    Stops(l, max) && !Tends(Turn(l, max)) ==> Tended(Done(s, i, f, Turn(l, max)), f)
  }

  lemma {:induction false} ConservedRelieves(s: Shared, i: nat, f: Family, t: Shared, max: int)
    requires i < |s.threads| <= max && t == Done(s, i, f, Turn(Seen(s, i, f), max)) && Conserved(t)
    requires Untouched(t.At(f.Other()))
    ensures Relieved(s, i, f, max)
  {
    var l := Seen(s, i, f);
    if Stops(l, max) && !Tends(Turn(l, max)) {
      assert Seen(t, i, f) == Turn(l, max);
      StopsAmongOthers(t, i, f, max);
    }
  }

  /** A busy thread's operation. */
  lemma {:induction false} CaredTurn(s: Shared, i: nat, f: Family, max: int)
    requires Cared(s, f) && s.At(f).running && i < |s.threads| && s.threads[i] != Idle && Relieved(s, i, f, max)
    ensures Tended(Done(s, i, f, Turn(Seen(s, i, f), max)), f)
  {
    var l := Seen(s, i, f);
    var r := Turn(l, max);
    TurnTends(l, max);
    if Tends(r) {
      TendedDone(s, i, f, r);
    } else if !Tends(l) {
      OthersTend(s, i, f, r);
    }
  }

  lemma {:induction false} CaredBegin(s: Shared, op: Op, f: Family)
    requires Cared(s, f) && CanDo(s, op) && !op.Op? && op.f == f
    ensures Tended(Done(s, op.i, f, Begin(Seen(s, op.i, f), op)), f)
  {
    var l := Seen(s, op.i, f);
    var r := Begin(l, op);
    BeginTends(l, op);
    if Tends(r) { TendedDone(s, op.i, f, r); } else { OthersTend(s, op.i, f, r); }
  }

  /** Connectors stay counted from zero up, and a running family keeps running. */
  lemma {:induction false} TurnKeeps(l: Local, max: int, f: Family)
    requires l.pc != Idle && l.pc.f == f && l.pending >= 0 && l.live >= 0
    ensures var r := Turn(l, max); r.pending >= 0 && r.live >= 0 && r.running == l.running && (r.pc != Idle ==> r.pc.f == f)
  {
  }

  lemma {:induction false} BeginKeeps(s: Shared, op: Op, f: Family)
    requires Cared(s, f) && CanDo(s, op) && !op.Op? && op.f == f
    ensures var r := Begin(Seen(s, op.i, f), op); r.pending >= 0 && r.live >= 0 && r.running && r.pc != Idle && r.pc.f == f
  {
  }

  lemma {:induction false} CaredDone(s: Shared, i: nat, f: Family, r: Local)
    requires Cared(s, f) && i < |s.threads| && r.pending >= 0 && r.live >= 0 && r.running && (r.pc != Idle ==> r.pc.f == f)
    requires Tended(Done(s, i, f, r), f)
    ensures Cared(Done(s, i, f, r), f)
  {
    OnlyForDone(s, i, f, r);
  }

  lemma {:induction false} CaredStep(s: Shared, op: Op, f: Family, max: int)
    requires Cared(s, f) && CanDo(s, op) && Concerns(s, op) == f
    requires op.Op? ==> op.max == max && Relieved(s, op.i, f, max)
    ensures Cared(Do(s, op), f)
  {
    var l := Seen(s, op.i, f);
    if op.Op? {
      TurnKeeps(l, max, f);
      CaredTurn(s, op.i, f, max);
      CaredDone(s, op.i, f, Turn(l, max));
    } else {
      BeginKeeps(s, op, f);
      CaredBegin(s, op, f);
      CaredDone(s, op.i, f, Begin(l, op));
    }
  }

  lemma {:induction false} ConservedCaredStep(s: Shared, op: Op, f: Family, max: int)
    requires Conserved(s) && Cared(s, f) && CanDo(s, op) && |s.threads| <= max
    requires (op.Op? ==> op.max == max) && (op.StartUp? ==> op.f == f)
    ensures Conserved(Do(s, op)) && Cared(Do(s, op), f) && |Do(s, op).threads| == |s.threads|
  {
    ConservedStep(s, op);
    OnlyForConcerns(s, op, f);
    if op.Op? { ConservedRelieves(s, op.i, f, Do(s, op), max); }
    CaredStep(s, op, f, max);
  }

  lemma {:induction false} CaredRun(s: Shared, ops: seq<Op>, f: Family, max: int)
    requires Conserved(s) && Cared(s, f) && CanRun(s, ops) && |s.threads| <= max && Fixed(ops, max) && Only(ops, f)
    ensures Cared(RunAll(s, ops), f)
    decreases |ops|
  {
    if ops != [] {
      var t, rest := Do(s, ops[0]), ops[1..];
      ConservedCaredStep(s, ops[0], f, max);
      Tail(ops, f, max);
      CaredRun(t, rest, f, max);
    }
  }

  lemma {:induction false} Tail(ops: seq<Op>, f: Family, max: int)
    requires ops != [] && Fixed(ops, max) && Only(ops, f)
    ensures Fixed(ops[1..], max) && Only(ops[1..], f)
  {
  }

  lemma {:induction false} CaredAlive(s: Shared, f: Family)
    requires Cared(s, f)
    ensures !Dead(s, f)
  {
    if s.At(f).running {
      var i :| 0 <= i < |s.threads| && Tends(Seen(s, i, f));
      assert s.threads[i] != Idle ==> s.threads[i].f == f;
    }
  }

  lemma {:induction false} PassedAlive(s: Shared, i: nat, f: Family)
    requires Passed(s, i, f)
    ensures !Dead(s, f)
  {
    if s.threads[i] != Idle { assert s.threads[i].f == f; }
  }

  // ---------------------------------------------------------------- more threads than places

  /** Threads below `j` stand at `a`, the others below `m` at `b`, and the rest are idle. */
  function Rows(n: nat, j: nat, a: Pc, m: nat, b: Pc): seq<Pc> {
    seq(n, i => if i < j then a else if i < m then b else Idle)
  }

  function Row(n: nat, f: Family, use: int, side: Side, j: nat, a: Pc, m: nat, b: Pc): Shared {
    Shared(use, STOPPED, STOPPED, Rows(n, j, a, m, b)).With(f, side)
  }

  function Of(use: int, side: Side, pc: Pc): Local {
    Local(use, side.running, side.waiting, side.pending, side.live, pc)
  }

  lemma {:induction false} RowSeen(n: nat, f: Family, use: int, side: Side, j: nat, a: Pc, m: nat, b: Pc, i: nat)
    requires i < n
    ensures Seen(Row(n, f, use, side, j, a, m, b), i, f)
            == Of(use, side, if i < j then a else if i < m then b else Idle)
  {
  }

  /** The last thread worked and is idle again. */
  lemma {:induction false} RowWorked(
    n: nat, f: Family, use: int, side: Side, j: nat, a: Pc, m: nat, b: Pc, use': int, side': Side)
    requires j <= m < n
    ensures Done(Row(n, f, use, side, j, a, m, b), n - 1, f, Of(use', side', Idle)) == Row(n, f, use', side', j, a, m, b)
  {
    assert Rows(n, j, a, m, b)[n - 1 := Idle] == Rows(n, j, a, m, b);
  }

  /** Where a thread stops that has found the flag down. */
  function Parked(f: Family): Pc { Raise(f, false) }

  function Back(f: Family): Pc { Undo(f, false) }

  /** The last thread handles a connection. */
  lemma {:induction false} GrowsOnce(n: nat, f: Family, use: int, live: int, max: int)
    requires n >= 1
    ensures Reach(Row(n, f, use, Side(true, false, 1, live), 0, Back(f), 0, Parked(f)),
                  Row(n, f, use + 1, Side(true, use + 1 >= max, 1, live + 1), 0, Back(f), 0, Parked(f)), {f}, max)
  {
    var a, b := Back(f), Parked(f);
    var side, side' := Side(true, false, 1, live), Side(true, use + 1 >= max, 1, live + 1);
    RowSeen(n, f, use, side, 0, a, 0, b, n - 1);
    RowWorked(n, f, use, side, 0, a, 0, b, use + 1, side');
    Handles(Row(n, f, use, side, 0, a, 0, b), n - 1, f, {f}, max);
  }

  /** Connections come until the count is at the limit, the last of them still pending. */
  lemma {:induction false} Grows(n: nat, f: Family, use: int, live: int, max: int)
    requires n >= 1 && use < max
    ensures Reach(Row(n, f, use, Side(true, false, 1, live), 0, Back(f), 0, Parked(f)),
                  Row(n, f, max, Side(true, true, 1, live + (max - use)), 0, Back(f), 0, Parked(f)), {f}, max)
    decreases max - use
  {
    GrowsOnce(n, f, use, live, max);
    if use + 1 < max {
      var a, b := Back(f), Parked(f);
      Grows(n, f, use + 1, live + 1, max);
      ReachTrans(Row(n, f, use, Side(true, false, 1, live), 0, a, 0, b),
                 Row(n, f, use + 1, Side(true, false, 1, live + 1), 0, a, 0, b),
                 Row(n, f, max, Side(true, true, 1, live + (max - use)), 0, a, 0, b), {f}, max);
    }
  }

  /** A full server with an accept pending, and `k` threads parked. */
  function Full(n: nat, f: Family, max: int, k: nat): Shared {
    Row(n, f, max, Side(true, true, 1, max - 1), 0, Back(f), k, Parked(f))
  }

  /** A connector ends, its thread lowers the flag, finds it down and is parked before it counts. */
  lemma {:induction false} ParkTurns(f: Family, max: int)
    requires max >= 2
    ensures var l := Local(max, true, true, 1, max - 2, Lower(f));
            var r := Of(max - 1, Side(true, false, 1, max - 2), Parked(f));
            && Turn(l, max) == Of(max - 1, Side(true, true, 1, max - 2), Free(f))
            && Turn(Of(max - 1, Side(true, true, 1, max - 2), Free(f)), max)
               == Of(max - 1, Side(true, false, 1, max - 2), Ask(f, false))
            && Turn(Of(max - 1, Side(true, false, 1, max - 2), Ask(f, false)), max) == r
  {
  }

  lemma {:induction false} ParkSteps(s: Shared, f: Family, max: int, k: nat)
    requires max >= 2 && k < |s.threads| && Seen(s, k, f) == Of(max, Side(true, true, 1, max - 1), Idle)
    ensures Reach(s, Done(s, k, f, Of(max - 1, Side(true, false, 1, max - 2), Parked(f))), {f}, max)
  {
    ParkTurns(f, max);
    Begins(s, Destroy(k, f), {f}, max);
    Turns(s, k, f, Local(max, true, true, 1, max - 2, Lower(f)), {f}, max);
    Turns(s, k, f, Of(max - 1, Side(true, true, 1, max - 2), Free(f)), {f}, max);
    Turns(s, k, f, Of(max - 1, Side(true, false, 1, max - 2), Ask(f, false)), {f}, max);
  }

  lemma {:induction false} ParksOne(n: nat, f: Family, max: int, k: nat)
    requires max >= 2 && k < n
    ensures Reach(Full(n, f, max, k), Row(n, f, max - 1, Side(true, false, 1, max - 2), 0, Back(f), k + 1, Parked(f)), {f}, max)
  {
    RowSeen(n, f, max, Side(true, true, 1, max - 1), 0, Back(f), k, Parked(f), k);
    ParkSteps(Full(n, f, max, k), f, max, k);
    assert Rows(n, 0, Back(f), k, Parked(f))[k := Parked(f)] == Rows(n, 0, Back(f), k + 1, Parked(f));
  }

  /** The last thread takes the pending connection and raises the flag again. */
  lemma {:induction false} Parks(n: nat, f: Family, max: int, k: nat)
    requires max >= 2 && k + 1 < n
    ensures Reach(Full(n, f, max, k), Full(n, f, max, k + 1), {f}, max)
  {
    var side := Side(true, false, 1, max - 2);
    var t := Row(n, f, max - 1, side, 0, Back(f), k + 1, Parked(f));
    ParksOne(n, f, max, k);
    RowSeen(n, f, max - 1, side, 0, Back(f), k + 1, Parked(f), n - 1);
    RowWorked(n, f, max - 1, side, 0, Back(f), k + 1, Parked(f), max, Side(true, true, 1, max - 1));
    Handles(t, n - 1, f, {f}, max);
    ReachTrans(Full(n, f, max, k), t, Full(n, f, max, k + 1), {f}, max);
  }

  lemma {:induction false} ParksAll(n: nat, f: Family, max: int, k: nat)
    requires max >= 2 && k < n
    ensures Reach(Full(n, f, max, 0), Full(n, f, max, k), {f}, max)
    decreases k
  {
    if k == 0 {
      ReachSelf(Full(n, f, max, 0), {f}, max);
    } else {
      var j := k - 1;
      ParksAll(n, f, max, j);
      Parks(n, f, max, j);
      assert Full(n, f, max, j + 1) == Full(n, f, max, k);
      ReachTrans(Full(n, f, max, 0), Full(n, f, max, j), Full(n, f, max, k), {f}, max);
    }
  }

  lemma {:induction false} ReachSelf(s: Shared, fs: set<Family>, max: int)
    ensures Reach(s, s, fs, max)
  {
    var none: seq<Op> := [];
    assert CanRun(s, none) && RunAll(s, none) == s && Fixed(none, max) && Within(none, fs);
  }

  /** A parked thread counts, finds the flag up and is about to count back. */
  lemma {:induction false} Counts(n: nat, f: Family, use: int, side: Side, j: nat, m: nat, max: int)
    requires j < m <= n && use + 1 >= max && side.waiting
    ensures Reach(Row(n, f, use, side, j, Back(f), m, Parked(f)),
                  Row(n, f, use + 1, side, j + 1, Back(f), m, Parked(f)), {f}, max)
  {
    var s := Row(n, f, use, side, j, Back(f), m, Parked(f));
    RowSeen(n, f, use, side, j, Back(f), m, Parked(f), j);
    DoneSeen(s, j, f);
    ReachSelf(s, {f}, max);
    var l0, l1 := Of(use, side, Parked(f)), Of(use + 1, side, Claim(f, false));
    assert Turn(l0, max) == l1 && Turn(l1, max) == Of(use + 1, side, Back(f));
    Turns(s, j, f, l0, {f}, max);
    Turns(s, j, f, l1, {f}, max);
    assert Rows(n, j, Back(f), m, Parked(f))[j := Back(f)] == Rows(n, j + 1, Back(f), m, Parked(f));
  }

  lemma {:induction false} CountsAll(n: nat, f: Family, use: int, side: Side, j: nat, m: nat, high: int, max: int)
    requires j <= m <= n && use >= max && side.waiting && high == use + j
    ensures Reach(Row(n, f, use, side, 0, Back(f), m, Parked(f)), Row(n, f, high, side, j, Back(f), m, Parked(f)), {f}, max)
    decreases j
  {
    var s := Row(n, f, use, side, 0, Back(f), m, Parked(f));
    if j == 0 {
      ReachSelf(s, {f}, max);
    } else {
      var i, most := j - 1, high - 1;
      CountsAll(n, f, use, side, i, m, most, max);
      Counts(n, f, most, side, i, m, max);
      ReachTrans(s, Row(n, f, most, side, i, Back(f), m, Parked(f)), Row(n, f, high, side, j, Back(f), m, Parked(f)),
                 {f}, max);
    }
  }

  /** All parked threads are about to count back, and `live` connectors are left. */
  function High(n: nat, f: Family, use: int, live: int, m: nat): Shared {
    Row(n, f, use, Side(true, true, 0, live), m, Back(f), m, Parked(f))
  }

  /** A connector ends; the others' counts keep the flag up. */
  lemma {:induction false} Ends(n: nat, f: Family, use: int, live: int, m: nat, max: int)
    requires m < n && live > 0 && use - 1 >= max
    ensures Reach(High(n, f, use, live, m), High(n, f, use - 1, live - 1, m), {f}, max)
  {
    var s, side := High(n, f, use, live, m), Side(true, true, 0, live);
    RowSeen(n, f, use, side, m, Back(f), m, Parked(f), n - 1);
    RowWorked(n, f, use, side, m, Back(f), m, Parked(f), use - 1, Side(true, true, 0, live - 1));
    Begins(s, Destroy(n - 1, f), {f}, max);
    var l := Local(use, true, true, 0, live - 1, Lower(f));
    assert Turn(l, max) == Of(use - 1, Side(true, true, 0, live - 1), Idle);
    Turns(s, n - 1, f, l, {f}, max);
  }

  lemma {:induction false} EndsAll(n: nat, f: Family, use: int, live: nat, m: nat, low: int, max: int)
    requires m < n && low == use - live >= max
    ensures Reach(High(n, f, use, live, m), High(n, f, low, 0, m), {f}, max)
    decreases live
  {
    var s := High(n, f, use, live, m);
    if live == 0 {
      ReachSelf(s, {f}, max);
    } else {
      Ends(n, f, use, live, m, max);
      EndsAll(n, f, use - 1, live - 1, m, low, max);
      ReachTrans(s, High(n, f, use - 1, live - 1, m), High(n, f, low, 0, m), {f}, max);
    }
  }

  /** The last of the threads counts back. */
  lemma {:induction false} CountsBack(n: nat, f: Family, use: int, m: nat, max: int)
    requires 0 < m <= n
    ensures Reach(High(n, f, use, 0, m), High(n, f, use - 1, 0, m - 1), {f}, max)
  {
    var s, side := High(n, f, use, 0, m), Side(true, true, 0, 0);
    RowSeen(n, f, use, side, m, Back(f), m, Parked(f), m - 1);
    DoneSeen(s, m - 1, f);
    ReachSelf(s, {f}, max);
    var l := Of(use, side, Back(f));
    assert Turn(l, max) == Of(use - 1, side, Idle);
    Turns(s, m - 1, f, l, {f}, max);
    assert Rows(n, m, Back(f), m, Parked(f))[m - 1 := Idle] == Rows(n, m - 1, Back(f), m - 1, Parked(f));
  }

  lemma {:induction false} CountsBackAll(n: nat, f: Family, use: int, m: nat, low: int, max: int)
    requires m <= n && low == use - m
    ensures Reach(High(n, f, use, 0, m), High(n, f, low, 0, 0), {f}, max)
    decreases m
  {
    var s := High(n, f, use, 0, m);
    if m == 0 {
      ReachSelf(s, {f}, max);
    } else {
      CountsBack(n, f, use, m, max);
      CountsBackAll(n, f, use - 1, m - 1, low, max);
      ReachTrans(s, High(n, f, use - 1, 0, m - 1), High(n, f, low, 0, 0), {f}, max);
    }
  }

  /** From the start to a full server with as many threads parked as there are places. */
  lemma {:induction false} ReachesFull(n: nat, f: Family, max: int)
    requires max >= 2 && n > max
    ensures Reach(Stopped(n), Full(n, f, max, max), {f}, max)
  {
    StartsOne(n, f, {f}, max);
    assert Rows(n, 0, Back(f), 0, Parked(f)) == Rest(n);
    var s := Row(n, f, 1, Side(true, false, 1, 0), 0, Back(f), 0, Parked(f));
    assert Started(n, f, max) == s;
    Grows(n, f, 1, 0, max);
    ReachTrans(Stopped(n), s, Full(n, f, max, 0), {f}, max);
    ParksAll(n, f, max, max);
    ReachTrans(Stopped(n), Full(n, f, max, 0), Full(n, f, max, max), {f}, max);
  }

  /** The pending connection is taken while the flag is up. */
  lemma {:induction false} TakesLast(n: nat, f: Family, use: int, live: int, m: nat, max: int)
    requires m < n
    ensures Reach(Row(n, f, use, Side(true, true, 1, live - 1), m, Back(f), m, Parked(f)), High(n, f, use, live, m), {f}, max)
  {
    var side := Side(true, true, 1, live - 1);
    RowSeen(n, f, use, side, m, Back(f), m, Parked(f), n - 1);
    RowWorked(n, f, use, side, m, Back(f), m, Parked(f), use, Side(true, true, 0, live));
    Waits(Row(n, f, use, side, m, Back(f), m, Parked(f)), n - 1, f, {f}, max);
  }

  /** And on to the end, where nothing is left. */
  lemma {:induction false} ReachesEnd(n: nat, f: Family, max: int, high: int)
    requires max >= 2 && n > max && high == max + max
    ensures Reach(Full(n, f, max, max), High(n, f, 0, 0, 0), {f}, max)
  {
    var s, t := Full(n, f, max, max), Row(n, f, high, Side(true, true, 1, max - 1), max, Back(f), max, Parked(f));
    CountsAll(n, f, max, Side(true, true, 1, max - 1), max, max, high, max);
    TakesLast(n, f, high, max, max, max);
    ReachTrans(s, t, High(n, f, high, max, max), {f}, max);
    EndsAll(n, f, high, max, max, max, max);
    ReachTrans(s, High(n, f, high, max, max), High(n, f, max, 0, max), {f}, max);
    CountsBackAll(n, f, max, max, 0, max);
    ReachTrans(s, High(n, f, max, 0, max), High(n, f, 0, 0, 0), {f}, max);
  }

  /** From the start, more threads than places are enough to lose the family for ever. */
  lemma {:induction false} GoesDead(n: nat, f: Family, max: int) returns (ops: seq<Op>)
    requires max >= 2 && n > max
    ensures CanRun(Stopped(n), ops) && Fixed(ops, max) && Only(ops, f) && Dead(RunAll(Stopped(n), ops), f)
  {
    var end := High(n, f, 0, 0, 0);
    ReachesFull(n, f, max);
    ReachesEnd(n, f, max, max + max);
    ReachTrans(Stopped(n), Full(n, f, max, max), end, {f}, max);
    ops :| CanRun(Stopped(n), ops) && RunAll(Stopped(n), ops) == end && Fixed(ops, max) && Within(ops, {f});
    assert Dead(end, f);
  }

  // ---------------------------------------------------------------- exactly when

  /** No run of one family ever leaves it dead. */
  ghost predicate NeverDead(n: nat, f: Family, max: int) {
    forall ops :: CanRun(Stopped(n), ops) && Fixed(ops, max) && Only(ops, f) ==> !Dead(RunAll(Stopped(n), ops), f)
  }

  lemma {:induction false} StaysAlive(n: nat, ops: seq<Op>, f: Family, max: int)
    requires CanRun(Stopped(n), ops) && Fixed(ops, max) && Only(ops, f) && (n <= max || max == 1)
    ensures !Dead(RunAll(Stopped(n), ops), f)
  {
    if n <= max {
      StoppedConserved(n);
      StoppedCared(n, f);
      CaredRun(Stopped(n), ops, f, max);
      CaredAlive(RunAll(Stopped(n), ops), f);
    } else {
      StoppedPassed(n, f);
      var j := PassedRun(Stopped(n), 0, ops, f);
      PassedAlive(RunAll(Stopped(n), ops), j, f);
    }
  }

  lemma {:induction false} StoppedCared(n: nat, f: Family)
    ensures Cared(Stopped(n), f)
  {
  }

  lemma {:induction false} StoppedPassed(n: nat, f: Family)
    requires n >= 1
    ensures Passed(Stopped(n), 0, f)
  {
  }

  /** One family is never lost, whatever the run, exactly when there are no more threads than places or just one place. */
  lemma {:induction false} NeverDeadIff(n: nat, f: Family, max: int)
    requires max >= 1
    ensures NeverDead(n, f, max) <==> n <= max || max == 1
  {
    if n <= max || max == 1 {
      forall ops | CanRun(Stopped(n), ops) && Fixed(ops, max) && Only(ops, f)
        ensures !Dead(RunAll(Stopped(n), ops), f)
      {
        StaysAlive(n, ops, f, max);
      }
    } else {
      var ops := GoesDead(n, f, max);
    }
  }
}
