/**
 The same counters under any interleaving of the single atomic operations by any number of threads.
 Each thread is at one point of `incr`, `decl` or between them; a step is one read, one `++`, one
 `--` or one `exchange`. The limit compared against may be a different one at every step.
 */
module ServerThreads {
  import opened Server

  /** `held`: the thread runs `on_accept` and holds the connector that was just accepted. */
  datatype Pc =
    | Idle
    | Ask(f: Family, held: bool)      // async_accept: about to read is_waiting_
    | Raise(f: Family, held: bool)    // about to do ++use_count_
    | Claim(f: Family, held: bool)    // the count reached the limit: about to raise is_waiting_
    | Build(f: Family, held: bool)    // about to construct the connector and post its accept
    | Undo(f: Family, held: bool)     // another thread raised the flag first: about to do use_count_--
    | Lower(f: Family)                // the connector is destroyed: about to do --use_count_
    | Free(f: Family)                 // the count is below the limit: about to lower is_waiting_

  datatype Shared = Shared(use: int, v4: Side, v6: Side, threads: seq<Pc>) {
    function At(f: Family): Side { if f == V4 then v4 else v6 }

    function With(f: Family, side: Side): Shared { if f == V4 then this.(v4 := side) else this.(v6 := side) }

    function Goto(i: nat, pc: Pc): Shared
      requires i < |threads|
    {
      this.(threads := threads[i := pc])
    }
  }

  /** What one thread sees: the count, its family's side and where it stands. */
  datatype Local = Local(use: int, running: bool, waiting: bool, pending: int, live: int, pc: Pc) {
    function Own(): int { pending + live }
  }

  function One(b: bool): int { if b then 1 else 0 }

  /** One operation of a busy thread. When `async_accept` is over, a connector that was held lives on. */
  function Turn(l: Local, max: int): Local {
    var Local(use, running, waiting, pending, live, pc) := l;
    match pc
    case Idle => l
    case Ask(f, held) =>
      if waiting then Local(use, running, waiting, pending, live + One(held), Idle)
      else Local(use, running, waiting, pending, live, Raise(f, held))
    case Raise(f, held) =>
      Local(use + 1, running, waiting, pending, live, if use + 1 >= max then Claim(f, held) else Build(f, held))
    case Claim(f, held) =>
      Local(use, running, true, pending, live, if waiting then Undo(f, held) else Build(f, held))
    case Build(f, held) => Local(use, running, waiting, pending + 1, live + One(held), Idle)
    case Undo(f, held) => Local(use - 1, running, waiting, pending, live + One(held), Idle)
    case Lower(f) => Local(use - 1, running, waiting, pending, live, if use - 1 < max then Free(f) else Idle)
    case Free(f) => Local(use, running, false, pending, live, if waiting then Ask(f, false) else Idle)
  }

  /** An idle thread begins a start, a handler or the end of a connector. */
  function Begin(l: Local, op: Op): Local
    requires !op.Op?
  {
    match op
    case StartUp(_, f) => Local(l.use, true, l.waiting, l.pending, l.live, Ask(f, false))
    case BeginAccept(_, f) => Local(l.use, l.running, l.waiting, l.pending - 1, l.live, Ask(f, true))
    case Destroy(_, f) => Local(l.use, l.running, l.waiting, l.pending, l.live - 1, Lower(f))
  }

  function Rest(n: nat): seq<Pc> { seq(n, _ => Idle) }

  /** Before anything happened, with `n` threads. */
  function Stopped(n: nat): Shared { Shared(0, STOPPED, STOPPED, Rest(n)) }

  /** One operation of thread `i`; a start, a handler and the end of a connector begin only on an idle thread. */
  datatype Op = Op(i: nat, max: int) | StartUp(i: nat, f: Family) | BeginAccept(i: nat, f: Family) | Destroy(i: nat, f: Family)

  predicate CanDo(s: Shared, op: Op) {
    && op.i < |s.threads|
    && match op
       case Op(i, _) => s.threads[i] != Idle
       case StartUp(i, f) => s.threads[i] == Idle && !s.At(f).running
       case BeginAccept(i, f) => s.threads[i] == Idle && s.At(f).pending > 0
       case Destroy(i, f) => s.threads[i] == Idle && s.At(f).live > 0
  }

  /** The family an operation is about. */
  function Concerns(s: Shared, op: Op): Family
    requires CanDo(s, op)
  {
    if op.Op? then s.threads[op.i].f else op.f
  }

  function Seen(s: Shared, i: nat, f: Family): Local
    requires i < |s.threads|
  {
    var side := s.At(f);
    Local(s.use, side.running, side.waiting, side.pending, side.live, s.threads[i])
  }

  function Done(s: Shared, i: nat, f: Family, l: Local): Shared
    requires i < |s.threads|
  {
    s.(use := l.use).With(f, Side(l.running, l.waiting, l.pending, l.live)).Goto(i, l.pc)
  }

  function Do(s: Shared, op: Op): Shared
    requires CanDo(s, op)
  {
    var f := Concerns(s, op);
    var l := Seen(s, op.i, f);
    Done(s, op.i, f, if op.Op? then Turn(l, op.max) else Begin(l, op))
  }

  predicate CanRun(s: Shared, ops: seq<Op>)
    decreases |ops|
  {
    ops == [] || (CanDo(s, ops[0]) && CanRun(Do(s, ops[0]), ops[1..]))
  }

  function RunAll(s: Shared, ops: seq<Op>): Shared
    requires CanRun(s, ops)
    decreases |ops|
  {
    if ops == [] then s else RunAll(Do(s, ops[0]), ops[1..])
  }

  // ---------------------------------------------------------------- conservation

  /**
   The connector a thread holds, and what it owes the count: a connector that is counted and does not
   exist yet, or one that is gone and not yet counted down.
   */
  function Due(pc: Pc): int {
    match pc
    case Idle => 0
    case Ask(_, held) => One(held)
    case Raise(_, held) => One(held)
    case Claim(_, held) => One(held) + 1
    case Build(_, held) => One(held) + 1
    case Undo(_, held) => One(held) + 1
    case Lower(_) => 1
    case Free(_) => 0
  }

  function AllDue(threads: seq<Pc>): int { if threads == [] then 0 else Due(threads[0]) + AllDue(threads[1..]) }

  lemma {:induction false} DueUpdate(threads: seq<Pc>, i: nat, pc: Pc)
    requires i < |threads|
    ensures AllDue(threads[i := pc]) == AllDue(threads) - Due(threads[i]) + Due(pc)
    decreases |threads|
  {
    if i == 0 {
      assert threads[i := pc][1..] == threads[1..];
    } else {
      DueUpdate(threads[1..], i - 1, pc);
      assert threads[i := pc][1..] == threads[1..][i - 1 := pc];
    }
  }

  lemma {:induction false} DueBound(threads: seq<Pc>, i: nat)
    requires i < |threads|
    ensures AllDue(threads) >= Due(threads[i]) >= 0
    decreases |threads|
  {
    if i > 0 {
      DueBound(threads[1..], i - 1);
    } else if |threads| > 1 {
      DueBound(threads[1..], 0);
    }
  }

  lemma {:induction false} NobodyDue(n: nat)
    ensures AllDue(Rest(n)) == 0
  {
    if n > 0 {
      NobodyDue(n - 1);
      assert Rest(n)[1..] == Rest(n - 1);
    }
  }

  /** Every unit of the count is a connector that is pending, live or held, or is owed by exactly one thread. */
  predicate Conserved(s: Shared) {
    && s.v4.pending >= 0 && s.v4.live >= 0 && s.v6.pending >= 0 && s.v6.live >= 0
    && s.use == s.v4.Connectors() + s.v6.Connectors() + AllDue(s.threads)
  }

  /** What is counted and what accounts for it differ by as much after an operation as before. */
  function Gap(l: Local): int { l.use - l.Own() - Due(l.pc) }

  lemma {:induction false} TurnBalance(l: Local, max: int)
    ensures Gap(Turn(l, max)) == Gap(l) && Turn(l, max).pending >= l.pending && Turn(l, max).live >= l.live
  {
  }

  lemma {:induction false} ConservedDone(s: Shared, i: nat, f: Family, l: Local)
    requires Conserved(s) && i < |s.threads| && Gap(l) == Gap(Seen(s, i, f)) && l.pending >= 0 && l.live >= 0
    ensures Conserved(Done(s, i, f, l))
  {
    DueUpdate(s.threads, i, l.pc);
  }

  lemma {:induction false} ConservedStep(s: Shared, op: Op)
    requires Conserved(s) && CanDo(s, op)
    ensures Conserved(Do(s, op))
  {
    var f := Concerns(s, op);
    var l := Seen(s, op.i, f);
    if op.Op? {
      TurnBalance(l, op.max);
      ConservedDone(s, op.i, f, Turn(l, op.max));
    } else {
      ConservedDone(s, op.i, f, Begin(l, op));
    }
  }

  /** Whatever the threads do and however they interleave, the count is conserved. */
  lemma {:induction false} ConservedRun(s: Shared, ops: seq<Op>)
    requires Conserved(s) && CanRun(s, ops)
    ensures Conserved(RunAll(s, ops))
    decreases |ops|
  {
    if ops != [] {
      ConservedStep(s, ops[0]);
      ConservedRun(Do(s, ops[0]), ops[1..]);
    }
  }

  lemma {:induction false} StoppedConserved(n: nat)
    ensures Conserved(Stopped(n))
  {
    NobodyDue(n);
  }

  lemma {:induction false} Covered(s: Shared, i: nat)
    requires Conserved(s) && i < |s.threads| && (s.threads[i].Undo? || s.threads[i].Lower?)
    ensures s.use >= 1
  {
    DueBound(s.threads, i);
  }

  /** So no decrement ever starts from zero. */
  lemma {:induction false} NoUnderflow(n: nat, ops: seq<Op>, i: nat)
    requires CanRun(Stopped(n), ops) && i < |RunAll(Stopped(n), ops).threads|
    requires var pc := RunAll(Stopped(n), ops).threads[i]; pc.Undo? || pc.Lower?
    ensures RunAll(Stopped(n), ops).use >= 1
  {
    StoppedConserved(n);
    ConservedRun(Stopped(n), ops);
    Covered(RunAll(Stopped(n), ops), i);
  }

  // ---------------------------------------------------------------- runs with one limit

  /** All comparisons are against `max`. */
  ghost predicate Fixed(ops: seq<Op>, max: int) { forall k :: 0 <= k < |ops| && ops[k].Op? ==> ops[k].max == max }

  /** Only `f` is ever started. */
  ghost predicate Only(ops: seq<Op>, f: Family) { forall k :: 0 <= k < |ops| && ops[k].StartUp? ==> ops[k].f == f }

  // ---------------------------------------------------------------- one family, one thing at a time

  predicate Untouched(side: Side) { !side.running && !side.waiting && side.pending == 0 && side.live == 0 }

  /** While nobody interferes, the count is where the flag says. */
  predicate InStep(l: Local, max: int) {
    match l.pc
    case Raise(_, _) => !l.waiting && l.use < max
    case Claim(_, _) => !l.waiting && l.use == max
    case Undo(_, _) => false
    case Free(_) => l.use < max
    case _ => l.use <= max && (l.waiting <==> l.use == max)
  }

  lemma {:induction false} TurnInStep(l: Local, max: int)
    requires InStep(l, max)
    ensures InStep(Turn(l, max), max)
  {
  }

  lemma {:induction false} BeginInStep(l: Local, op: Op, max: int)
    requires InStep(l, max) && l.pc == Idle && !op.Op?
    ensures InStep(Begin(l, op), max)
  {
  }

  /** A single thread works for `f` alone. */
  predicate Alone(s: Shared, f: Family, max: int) {
    && |s.threads| == 1 && Untouched(s.At(f.Other()))
    && (s.threads[0] != Idle ==> s.threads[0].f == f)
    && InStep(Seen(s, 0, f), max)
  }

  lemma {:induction false} AloneStep(s: Shared, op: Op, f: Family, max: int)
    requires Alone(s, f, max) && CanDo(s, op) && (op.Op? ==> op.max == max) && (op.StartUp? ==> op.f == f)
    ensures Alone(Do(s, op), f, max)
  {
    var l := Seen(s, 0, f);
    if op.Op? { TurnInStep(l, max); } else { BeginInStep(l, op, max); }
  }

  lemma {:induction false} AloneRun(s: Shared, ops: seq<Op>, f: Family, max: int)
    requires Alone(s, f, max) && CanRun(s, ops) && Fixed(ops, max) && Only(ops, f)
    ensures RunAll(s, ops).use <= max
    decreases |ops|
  {
    if ops != [] {
      AloneStep(s, ops[0], f, max);
      AloneRun(Do(s, ops[0]), ops[1..], f, max);
    }
  }

  /** With a limit of one there is one thing to do at a time: a busy thread leaves nothing another could begin. */
  predicate Token(l: Local, f: Family) {
    && InStep(l, 1) && l.pending >= 0 && l.live >= 0
    && (l.pc != Idle ==> l.running && l.pc.f == f && l.pending == 0 && l.live == 0)
    && match l.pc
       case Idle =>
         if l.running then l.use == 1 && ((l.pending == 1 && l.live == 0) || (l.pending == 0 && l.live == 1))
         else l.use == 0 && l.pending == 0 && l.live == 0
       case Ask(_, held) => if held then l.use == 1 else l.use == 0
       case Raise(_, held) => !held && l.use == 0
       case Claim(_, held) => !held
       case Build(_, held) => !held && l.use == 1
       case Lower(_) => l.use == 1
       case Free(_) => l.waiting && l.use == 0
       case _ => true
  }

  lemma {:induction false} TurnToken(l: Local, f: Family)
    requires Token(l, f) && l.use >= 0
    ensures Token(Turn(l, 1), f) && Turn(l, 1).use >= 0
  {
    TurnInStep(l, 1);
  }

  lemma {:induction false} BeginToken(l: Local, op: Op, f: Family)
    requires Token(l, f) && l.pc == Idle && !op.Op? && op.f == f
    requires op.StartUp? ==> !l.running
    requires op.BeginAccept? ==> l.pending > 0
    requires op.Destroy? ==> l.live > 0
    ensures Token(Begin(l, op), f)
  {
    BeginInStep(l, op, 1);
  }

  /** At most thread `i` is busy, and it has the only thing to do. */
  predicate Passed(s: Shared, i: nat, f: Family) {
    && i < |s.threads| && (forall j :: 0 <= j < |s.threads| && j != i ==> s.threads[j] == Idle)
    && Untouched(s.At(f.Other())) && s.use >= 0 && Token(Seen(s, i, f), f)
  }

  lemma {:induction false} TakesToken(s: Shared, i: nat, op: Op, f: Family)
    requires Passed(s, i, f) && CanDo(s, op) && (op.StartUp? ==> op.f == f)
    ensures Passed(s, op.i, f) && Concerns(s, op) == f
  {
    if op.i != i {
      assert s.threads[op.i] == Idle;
      assert s.threads[i] == Idle;
      assert Seen(s, op.i, f) == Seen(s, i, f);
    }
  }

  lemma {:induction false} PassedStep(s: Shared, op: Op, f: Family)
    requires CanDo(s, op) && Passed(s, op.i, f) && Concerns(s, op) == f && (op.Op? ==> op.max == 1)
    ensures Passed(Do(s, op), op.i, f)
  {
    var l := Seen(s, op.i, f);
    if op.Op? { TurnToken(l, f); } else { BeginToken(l, op, f); }
  }

  lemma {:induction false} PassedRun(s: Shared, i: nat, ops: seq<Op>, f: Family) returns (j: nat)
    requires Passed(s, i, f) && CanRun(s, ops) && Fixed(ops, 1) && Only(ops, f)
    ensures Passed(RunAll(s, ops), j, f)
    decreases |ops|
  {
    j := i;
    if ops != [] {
      TakesToken(s, i, ops[0], f);
      PassedStep(s, ops[0], f);
      j := PassedRun(Do(s, ops[0]), ops[0].i, ops[1..], f);
    }
  }

  lemma {:induction false} PassedWithin(s: Shared, i: nat, f: Family)
    requires Passed(s, i, f)
    ensures s.use <= 1
  {
  }

  lemma {:induction false} NobodyThere(ops: seq<Op>)
    requires CanRun(Stopped(0), ops)
    ensures ops == []
  {
  }

  // ---------------------------------------------------------------- two families, one thread

  /** A family that is not waiting still has a place to take. */
  predicate Room(use: int, waiting: bool, other: bool, max: int) {
    use < max || (use == max && (waiting || other)) || (use == max + 1 && waiting && other)
  }

  predicate Spaced(s: Shared, max: int) {
    && |s.threads| == 1
    && var pc := s.threads[0];
       match pc
       case Idle => Room(s.use, s.v4.waiting, s.v6.waiting, max)
       case Raise(f, _) => !s.At(f).waiting && Room(s.use, s.v4.waiting, s.v6.waiting, max)
       case Claim(f, _) => !s.At(f).waiting && s.use >= max && Room(s.use, true, s.At(f.Other()).waiting, max)
       case Undo(_, _) => false
       case Free(_) => s.use < max
       case _ => Room(s.use, s.v4.waiting, s.v6.waiting, max)
  }

  lemma {:induction false} SpacedRun(s: Shared, ops: seq<Op>, max: int)
    requires Spaced(s, max) && CanRun(s, ops) && Fixed(ops, max)
    ensures RunAll(s, ops).use <= max + 1
    decreases |ops|
  {
    if ops != [] { SpacedRun(Do(s, ops[0]), ops[1..], max); }
  }

  // ---------------------------------------------------------------- what two threads can reach

  /** Some run with the limit `max` that starts only families in `fs` leads from `s` to `t`. */
  ghost predicate Reach(s: Shared, t: Shared, fs: set<Family>, max: int) {
    exists ops :: CanRun(s, ops) && RunAll(s, ops) == t && Fixed(ops, max) && Within(ops, fs)
  }

  ghost predicate Within(ops: seq<Op>, fs: set<Family>) { forall k :: 0 <= k < |ops| && ops[k].StartUp? ==> ops[k].f in fs }

  lemma {:induction false} ReachStep(s: Shared, op: Op, fs: set<Family>, max: int)
    requires CanDo(s, op) && (op.Op? ==> op.max == max) && (op.StartUp? ==> op.f in fs)
    ensures Reach(s, Do(s, op), fs, max)
  {
    var ops, t := [op], Do(s, op);
    var none := ops[1..];
    assert none == [];
    assert CanRun(t, none) && RunAll(t, none) == t;
    assert CanRun(s, ops) && RunAll(s, ops) == t;
  }

  lemma {:induction false} RunConcat(s: Shared, a: seq<Op>, b: seq<Op>)
    requires CanRun(s, a) && CanRun(RunAll(s, a), b)
    ensures CanRun(s, a + b) && RunAll(s, a + b) == RunAll(RunAll(s, a), b)
    decreases |a|
  {
    if a == [] {
      assert a + b == b;
    } else {
      assert (a + b)[0] == a[0] && (a + b)[1..] == a[1..] + b;
      RunConcat(Do(s, a[0]), a[1..], b);
    }
  }

  lemma {:induction false} ReachTrans(s: Shared, t: Shared, u: Shared, fs: set<Family>, max: int)
    requires Reach(s, t, fs, max) && Reach(t, u, fs, max)
    ensures Reach(s, u, fs, max)
  {
    var a :| CanRun(s, a) && RunAll(s, a) == t && Fixed(a, max) && Within(a, fs);
    var b :| CanRun(t, b) && RunAll(t, b) == u && Fixed(b, max) && Within(b, fs);
    RunConcat(s, a, b);
    assert Fixed(a + b, max) && Within(a + b, fs);
  }

  lemma {:induction false} ReachThen(s: Shared, t: Shared, op: Op, fs: set<Family>, max: int)
    requires Reach(s, t, fs, max) && CanDo(t, op) && (op.Op? ==> op.max == max) && (op.StartUp? ==> op.f in fs)
    ensures Reach(s, Do(t, op), fs, max)
  {
    ReachStep(t, op, fs, max);
    ReachTrans(s, t, Do(t, op), fs, max);
  }

  lemma {:induction false} DoneSeen(s: Shared, i: nat, f: Family)
    requires i < |s.threads|
    ensures Done(s, i, f, Seen(s, i, f)) == s
  {
  }

  lemma {:induction false} DoneTwice(s: Shared, i: nat, f: Family, l: Local, m: Local)
    requires i < |s.threads|
    ensures Done(Done(s, i, f, l), i, f, m) == Done(s, i, f, m) && Seen(Done(s, i, f, l), i, f) == l
  {
  }

  /** The thread goes on from `l`. */
  lemma {:induction false} Turns(s: Shared, i: nat, f: Family, l: Local, fs: set<Family>, max: int)
    requires i < |s.threads| && l.pc != Idle && l.pc.f == f && Reach(s, Done(s, i, f, l), fs, max)
    ensures Reach(s, Done(s, i, f, Turn(l, max)), fs, max)
  {
    DoneTwice(s, i, f, l, Turn(l, max));
    ReachThen(s, Done(s, i, f, l), Op(i, max), fs, max);
  }

  /** An idle thread begins. */
  lemma {:induction false} Begins(s: Shared, op: Op, fs: set<Family>, max: int)
    requires CanDo(s, op) && !op.Op? && (op.StartUp? ==> op.f in fs)
    ensures Reach(s, Done(s, op.i, op.f, Begin(Seen(s, op.i, op.f), op)), fs, max)
  {
    ReachStep(s, op, fs, max);
  }

  /** Where a thread stands that has counted up. */
  function Counted(l: Local, f: Family, held: bool, max: int): Local {
    l.(use := l.use + 1, pc := if l.use + 1 >= max then Claim(f, held) else Build(f, held))
  }

  lemma {:induction false} CountsUp(s: Shared, i: nat, f: Family, l: Local, held: bool, fs: set<Family>, max: int)
    requires i < |s.threads| && l.pc == Ask(f, held) && !l.waiting && Reach(s, Done(s, i, f, l), fs, max)
    ensures Reach(s, Done(s, i, f, Counted(l, f, held, max)), fs, max)
  {
    var l1 := l.(pc := Raise(f, held));
    assert Turn(l, max) == l1 && Turn(l1, max) == Counted(l, f, held, max);
    Turns(s, i, f, l, fs, max);
    Turns(s, i, f, l1, fs, max);
  }

  /** `async_accept` finds the flag down and posts an accept. */
  lemma {:induction false} Accepts(s: Shared, i: nat, f: Family, l: Local, held: bool, fs: set<Family>, max: int)
    requires i < |s.threads| && l.pc == Ask(f, held) && !l.waiting && Reach(s, Done(s, i, f, l), fs, max)
    ensures Reach(s, Done(s, i, f, Local(l.use + 1, l.running, l.use + 1 >= max, l.pending + 1, l.live + One(held), Idle)),
                  fs, max)
  {
    CountsUp(s, i, f, l, held, fs, max);
    var l2 := Counted(l, f, held, max);
    var l3 := l2.(waiting := l.use + 1 >= max, pc := Build(f, held));
    if l.use + 1 >= max { Claims(s, i, f, l2, held, fs, max); } else { assert l2 == l3; }
    Builds(s, i, f, l3, held, fs, max);
  }

  lemma {:induction false} Claims(s: Shared, i: nat, f: Family, l: Local, held: bool, fs: set<Family>, max: int)
    requires i < |s.threads| && l.pc == Claim(f, held) && !l.waiting && Reach(s, Done(s, i, f, l), fs, max)
    ensures Reach(s, Done(s, i, f, l.(waiting := true, pc := Build(f, held))), fs, max)
  {
    Turns(s, i, f, l, fs, max);
    assert Turn(l, max) == l.(waiting := true, pc := Build(f, held));
  }

  lemma {:induction false} Builds(s: Shared, i: nat, f: Family, l: Local, held: bool, fs: set<Family>, max: int)
    requires i < |s.threads| && l.pc == Build(f, held) && Reach(s, Done(s, i, f, l), fs, max)
    ensures Reach(s, Done(s, i, f, Local(l.use, l.running, l.waiting, l.pending + 1, l.live + One(held), Idle)), fs, max)
  {
    Turns(s, i, f, l, fs, max);
    assert Turn(l, max) == Local(l.use, l.running, l.waiting, l.pending + 1, l.live + One(held), Idle);
  }

  /** `on_accept` while the flag is down. */
  lemma {:induction false} Handles(s: Shared, i: nat, f: Family, fs: set<Family>, max: int)
    requires i < |s.threads| && s.threads[i] == Idle && s.At(f).pending > 0 && !s.At(f).waiting
    ensures var l := Seen(s, i, f);
            Reach(s, Done(s, i, f, Local(l.use + 1, l.running, l.use + 1 >= max, l.pending, l.live + 1, Idle)), fs, max)
  {
    Begins(s, BeginAccept(i, f), fs, max);
    Accepts(s, i, f, Begin(Seen(s, i, f), BeginAccept(i, f)), true, fs, max);
  }

  /** `on_accept` while the flag is up. */
  lemma {:induction false} Waits(s: Shared, i: nat, f: Family, fs: set<Family>, max: int)
    requires i < |s.threads| && s.threads[i] == Idle && s.At(f).pending > 0 && s.At(f).waiting
    ensures var l := Seen(s, i, f);
            Reach(s, Done(s, i, f, Local(l.use, l.running, true, l.pending - 1, l.live + 1, Idle)), fs, max)
  {
    Begins(s, BeginAccept(i, f), fs, max);
    Turns(s, i, f, Begin(Seen(s, i, f), BeginAccept(i, f)), fs, max);
  }

  /** Connections come until the count is at the limit and none is pending. */
  lemma {:induction false} Fills(s: Shared, f: Family, fs: set<Family>, max: int)
    requires |s.threads| >= 1 && s.threads[0] == Idle && s.use < max && s.At(f).pending == 1 && !s.At(f).waiting
    ensures var l := Seen(s, 0, f);
            Reach(s, Done(s, 0, f, Local(max, l.running, true, 0, l.live + (max - l.use) + 1, Idle)), fs, max)
    decreases max - s.use
  {
    var l := Seen(s, 0, f);
    var m := Local(l.use + 1, l.running, l.use + 1 >= max, 1, l.live + 1, Idle);
    var end := Local(max, l.running, true, 0, l.live + (max - l.use) + 1, Idle);
    var t := Done(s, 0, f, m);
    Handles(s, 0, f, fs, max);
    DoneTwice(s, 0, f, m, end);
    if l.use + 1 < max { Fills(t, f, fs, max); } else { Waits(t, 0, f, fs, max); }
    ReachTrans(s, t, Done(s, 0, f, end), fs, max);
  }

  /** A connector goes away and its thread stops before it lowers the flag. */
  lemma {:induction false} Leaves(s: Shared, i: nat, f: Family, fs: set<Family>, max: int)
    requires i < |s.threads| && s.threads[i] == Idle && s.At(f).live > 0 && s.use - 1 < max
    ensures var l := Seen(s, i, f);
            Reach(s, Done(s, i, f, Local(l.use - 1, l.running, l.waiting, l.pending, l.live - 1, Free(f))), fs, max)
  {
    Begins(s, Destroy(i, f), fs, max);
    Turns(s, i, f, Begin(Seen(s, i, f), Destroy(i, f)), fs, max);
  }

  /** It lowers the flag and asks for a connection again. */
  lemma {:induction false} Resumes(s: Shared, i: nat, f: Family, fs: set<Family>, max: int)
    requires i < |s.threads| && s.threads[i] == Free(f) && s.At(f).waiting
    ensures var l := Seen(s, i, f);
            Reach(s, Done(s, i, f, Local(l.use + 1, l.running, l.use + 1 >= max, l.pending + 1, l.live, Idle)), fs, max)
  {
    var l := Seen(s, i, f);
    DoneSeen(s, i, f);
    ReachStep(s, Op(i, max), fs, max);
    Accepts(s, i, f, Turn(l, max), false, fs, max);
  }

  /** `s` with threads 0 and 1 at `a` and `b`, another count and another side of `f`. */
  function Two(s: Shared, f: Family, use: int, side: Side, a: Pc, b: Pc): Shared
    requires |s.threads| >= 2
  {
    s.(use := use).With(f, side).(threads := s.threads[0 := a][1 := b])
  }

  lemma {:induction false} TwoDone(s: Shared, f: Family, use: int, side: Side, a: Pc, b: Pc, l: Local)
    requires |s.threads| >= 2
    ensures var t, side' := Two(s, f, use, side, a, b), Side(l.running, l.waiting, l.pending, l.live);
            && Seen(t, 0, f) == Local(use, side.running, side.waiting, side.pending, side.live, a)
            && Seen(t, 1, f) == Local(use, side.running, side.waiting, side.pending, side.live, b)
            && t.At(f) == side && t.use == use && |t.threads| == |s.threads|
            && Done(t, 0, f, l) == Two(s, f, l.use, side', l.pc, b)
            && Done(t, 1, f, l) == Two(s, f, l.use, side', a, l.pc)
  {
    var t := Two(s, f, use, side, a, b);
    assert t.threads[0 := l.pc] == s.threads[0 := l.pc][1 := b];
    assert t.threads[1 := l.pc] == s.threads[0 := a][1 := l.pc];
  }

  lemma {:induction false} FirstLeaves(s: Shared, f: Family, live: int, fs: set<Family>, max: int)
    requires |s.threads| >= 2 && live >= 2
    ensures Reach(Two(s, f, max, Side(true, true, 0, live), Idle, Idle),
                  Two(s, f, max - 1, Side(true, true, 0, live - 1), Free(f), Idle), fs, max)
  {
    TwoDone(s, f, max, Side(true, true, 0, live), Idle, Idle, Local(max - 1, true, true, 0, live - 1, Free(f)));
    Leaves(Two(s, f, max, Side(true, true, 0, live), Idle, Idle), 0, f, fs, max);
  }

  lemma {:induction false} SecondLeaves(s: Shared, f: Family, live: int, fs: set<Family>, max: int)
    requires |s.threads| >= 2 && live >= 2
    ensures Reach(Two(s, f, max - 1, Side(true, true, 0, live - 1), Free(f), Idle),
                  Two(s, f, max - 2, Side(true, true, 0, live - 2), Free(f), Free(f)), fs, max)
  {
    TwoDone(s, f, max - 1, Side(true, true, 0, live - 1), Free(f), Idle, Local(max - 2, true, true, 0, live - 2, Free(f)));
    Leaves(Two(s, f, max - 1, Side(true, true, 0, live - 1), Free(f), Idle), 1, f, fs, max);
  }

  /** Thread 1 goes on and fills the server again. */
  lemma {:induction false} OneRefills(s: Shared, f: Family, live: int, fs: set<Family>, max: int)
    requires |s.threads| >= 2
    ensures Reach(Two(s, f, max - 2, Side(true, true, 0, live - 2), Free(f), Free(f)),
                  Two(s, f, max, Side(true, true, 1, live - 1), Free(f), Idle), fs, max)
  {
    var s2 := Two(s, f, max - 2, Side(true, true, 0, live - 2), Free(f), Free(f));
    var s3 := Two(s, f, max - 1, Side(true, false, 1, live - 2), Free(f), Idle);
    TwoDone(s, f, max - 2, Side(true, true, 0, live - 2), Free(f), Free(f), Local(max - 1, true, false, 1, live - 2, Idle));
    Resumes(s2, 1, f, fs, max);
    TwoDone(s, f, max - 1, Side(true, false, 1, live - 2), Free(f), Idle, Local(max, true, true, 1, live - 1, Idle));
    Handles(s3, 1, f, fs, max);
    ReachTrans(s2, s3, Two(s, f, max, Side(true, true, 1, live - 1), Free(f), Idle), fs, max);
  }

  /** Thread 0 lowers the flag of a full server. */
  lemma {:induction false} LateResumes(s: Shared, f: Family, live: int, fs: set<Family>, max: int)
    requires |s.threads| >= 2
    ensures Reach(Two(s, f, max, Side(true, true, 1, live - 1), Free(f), Idle),
                  Two(s, f, max + 1, Side(true, true, 2, live - 1), Idle, Idle), fs, max)
  {
    TwoDone(s, f, max, Side(true, true, 1, live - 1), Free(f), Idle, Local(max + 1, true, true, 2, live - 1, Idle));
    Resumes(Two(s, f, max, Side(true, true, 1, live - 1), Free(f), Idle), 0, f, fs, max);
  }

  /**
   A thread that has counted down but not yet lowered the flag lowers it after another thread has
   filled the server again, and takes the count above the limit.
   */
  lemma {:induction false} Stale(s: Shared, f: Family, live: int, fs: set<Family>, max: int)
    requires |s.threads| >= 2 && live >= 2
    ensures Reach(Two(s, f, max, Side(true, true, 0, live), Idle, Idle),
                  Two(s, f, max + 1, Side(true, true, 2, live - 1), Idle, Idle), fs, max)
  {
    var a := Two(s, f, max, Side(true, true, 0, live), Idle, Idle);
    var b := Two(s, f, max - 2, Side(true, true, 0, live - 2), Free(f), Free(f));
    var c := Two(s, f, max, Side(true, true, 1, live - 1), Free(f), Idle);
    FirstLeaves(s, f, live, fs, max);
    SecondLeaves(s, f, live, fs, max);
    ReachTrans(a, Two(s, f, max - 1, Side(true, true, 0, live - 1), Free(f), Idle), b, fs, max);
    OneRefills(s, f, live, fs, max);
    ReachTrans(a, b, c, fs, max);
    LateResumes(s, f, live, fs, max);
    ReachTrans(a, c, Two(s, f, max + 1, Side(true, true, 2, live - 1), Idle, Idle), fs, max);
  }

  // ---------------------------------------------------------------- exactly when the bound is kept

  /** One family after `start`. */
  function Started(n: nat, f: Family, max: int): Shared {
    Shared(1, STOPPED, STOPPED, Rest(n)).With(f, Side(true, 1 >= max, 1, 0))
  }

  lemma {:induction false} StartsOne(n: nat, f: Family, fs: set<Family>, max: int)
    requires n >= 1 && f in fs
    ensures Reach(Stopped(n), Started(n, f, max), fs, max)
  {
    var s, o := Stopped(n), StartUp(0, f);
    Begins(s, o, fs, max);
    Accepts(s, 0, f, Begin(Seen(s, 0, f), o), false, fs, max);
    assert Rest(n)[0 := Idle] == Rest(n);
  }

  /** From the start, two threads and a limit of at least two are enough to exceed it. */
  lemma {:induction false} StaleDecl(n: nat, f: Family, max: int) returns (ops: seq<Op>)
    requires n >= 2 && max >= 2
    ensures CanRun(Stopped(n), ops) && Fixed(ops, max) && Only(ops, f) && RunAll(Stopped(n), ops).use == max + 1
  {
    var s, t := Stopped(n), Started(n, f, max);
    assert Rest(n)[0 := Idle] == Rest(n) && Rest(n)[0 := Idle][1 := Idle] == Rest(n);
    StartsOne(n, f, {f}, max);
    var full := Two(s, f, max, Side(true, true, 0, max), Idle, Idle);
    Fills(t, f, {f}, max);
    ReachTrans(s, t, full, {f}, max);
    var over := Two(s, f, max + 1, Side(true, true, 2, max - 1), Idle, Idle);
    Stale(s, f, max, {f}, max);
    ReachTrans(s, full, over, {f}, max);
    ops :| CanRun(s, ops) && RunAll(s, ops) == over && Fixed(ops, max) && Within(ops, {f});
  }

  lemma {:induction false} WithinLimit(n: nat, ops: seq<Op>, f: Family, max: int)
    requires CanRun(Stopped(n), ops) && Fixed(ops, max) && Only(ops, f) && max >= 1 && (n <= 1 || max == 1)
    ensures RunAll(Stopped(n), ops).use <= max
  {
    if n == 0 {
      NobodyThere(ops);
    } else if n == 1 {
      AloneRun(Stopped(n), ops, f, max);
    } else {
      assert Passed(Stopped(n), 0, f);
      var j := PassedRun(Stopped(n), 0, ops, f);
      PassedWithin(RunAll(Stopped(n), ops), j, f);
    }
  }

  /** One family's count never exceeds the limit, whatever the run. */
  ghost predicate NeverAbove(n: nat, f: Family, max: int) {
    forall ops :: CanRun(Stopped(n), ops) && Fixed(ops, max) && Only(ops, f) ==> RunAll(Stopped(n), ops).use <= max
  }

  /** That holds exactly when at most one thread runs the handlers or the limit is one. */
  lemma {:induction false} OneFamilyBoundIff(n: nat, f: Family, max: int)
    requires max >= 1
    ensures NeverAbove(n, f, max) <==> n <= 1 || max == 1
  {
    if n <= 1 || max == 1 {
      forall ops | CanRun(Stopped(n), ops) && Fixed(ops, max) && Only(ops, f)
        ensures RunAll(Stopped(n), ops).use <= max
      {
        WithinLimit(n, ops, f, max);
      }
    } else {
      var ops := StaleDecl(n, f, max);
    }
  }

  /** Both families after `start`; with a limit of two the second one is waiting already. */
  function Together(n: nat, max: int): Shared {
    Shared(2, Side(true, 1 >= max, 1, 0), Side(true, 2 >= max, 1, 0), Rest(n))
  }

  lemma {:induction false} StartsTogether(n: nat, max: int)
    requires n >= 1 && max >= 2
    ensures Reach(Stopped(n), Together(n, max), {V4, V6}, max)
  {
    var fs := {V4, V6};
    StartsOne(n, V4, fs, max);
    var s, o := Started(n, V4, max), StartUp(0, V6);
    Begins(s, o, fs, max);
    Accepts(s, 0, V6, Begin(Seen(s, 0, V6), o), false, fs, max);
    assert Rest(n)[0 := Idle] == Rest(n);
    ReachTrans(Stopped(n), s, Together(n, max), fs, max);
  }

  // ---------------------------------------------------------------- two families and a limit of two

  /** Both families with threads 0 and 1 at `a` and `b`. */
  function Pair(n: nat, use: int, v4: Side, v6: Side, a: Pc, b: Pc): Shared
    requires n >= 2
  {
    Shared(use, v4, v6, Rest(n)[0 := a][1 := b])
  }

  lemma {:induction false} PairDone(n: nat, use: int, v4: Side, v6: Side, a: Pc, b: Pc, i: nat, f: Family, l: Local)
    requires n >= 2 && i < 2
    ensures var s, side := Pair(n, use, v4, v6, a, b), Side(l.running, l.waiting, l.pending, l.live);
            && |s.threads| == n && s.threads[i] == (if i == 0 then a else b)
            && Done(s, i, f, l) == Pair(n, l.use, if f == V4 then side else v4, if f == V6 then side else v6,
                                        if i == 0 then l.pc else a, if i == 1 then l.pc else b)
  {
    if i == 0 {
      assert Rest(n)[0 := a][1 := b][0 := l.pc] == Rest(n)[0 := l.pc][1 := b];
    } else {
      assert Rest(n)[0 := a][1 := b][1 := l.pc] == Rest(n)[0 := a][1 := l.pc];
    }
  }

  const FREE_NONE := Side(true, false, 0, 0)
  const FREE_POSTED := Side(true, false, 1, 0)
  const FULL_POSTED := Side(true, true, 1, 0)
  const BOTH := {V4, V6}

  /** Thread 0 takes the first connection of IPv4 and stops before it counts. */
  lemma {:induction false} FirstStops(n: nat)
    requires n >= 2
    ensures Reach(Pair(n, 2, FREE_POSTED, FULL_POSTED, Idle, Idle),
                  Pair(n, 2, FREE_NONE, FULL_POSTED, Raise(V4, true), Idle), BOTH, 2)
  {
    var s := Pair(n, 2, FREE_POSTED, FULL_POSTED, Idle, Idle);
    var l := Local(2, true, false, 0, 0, Ask(V4, true));
    PairDone(n, 2, FREE_POSTED, FULL_POSTED, Idle, Idle, 0, V4, Turn(l, 2));
    Begins(s, BeginAccept(0, V4), BOTH, 2);
    Turns(s, 0, V4, l, BOTH, 2);
  }

  /** Thread 1 takes the connection of IPv6. */
  lemma {:induction false} SecondTakes(n: nat)
    requires n >= 2
    ensures Reach(Pair(n, 2, FREE_NONE, FULL_POSTED, Raise(V4, true), Idle),
                  Pair(n, 2, FREE_NONE, Side(true, true, 0, 1), Raise(V4, true), Idle), BOTH, 2)
  {
    var s := Pair(n, 2, FREE_NONE, FULL_POSTED, Raise(V4, true), Idle);
    PairDone(n, 2, FREE_NONE, FULL_POSTED, Raise(V4, true), Idle, 1, V6, Local(2, true, true, 0, 1, Idle));
    Waits(s, 1, V6, BOTH, 2);
  }

  /** That connection ends; its thread lowers the flag and stops before it counts. */
  lemma {:induction false} SecondStops(n: nat)
    requires n >= 2
    ensures Reach(Pair(n, 2, FREE_NONE, Side(true, true, 0, 1), Raise(V4, true), Idle),
                  Pair(n, 1, FREE_NONE, FREE_NONE, Raise(V4, true), Raise(V6, false)), BOTH, 2)
  {
    var s := Pair(n, 2, FREE_NONE, Side(true, true, 0, 1), Raise(V4, true), Idle);
    var l0, l1 := Local(2, true, true, 0, 0, Lower(V6)), Local(1, true, true, 0, 0, Free(V6));
    var l2, l3 := Local(1, true, false, 0, 0, Ask(V6, false)), Local(1, true, false, 0, 0, Raise(V6, false));
    assert Turn(l0, 2) == l1 && Turn(l1, 2) == l2 && Turn(l2, 2) == l3;
    PairDone(n, 2, FREE_NONE, Side(true, true, 0, 1), Raise(V4, true), Idle, 1, V6, l3);
    Begins(s, Destroy(1, V6), BOTH, 2);
    Turns(s, 1, V6, l0, BOTH, 2);
    Turns(s, 1, V6, l1, BOTH, 2);
    Turns(s, 1, V6, l2, BOTH, 2);
  }

  /** Thread 0 counts and posts an accept. */
  lemma {:induction false} FirstPosts(n: nat)
    requires n >= 2
    ensures Reach(Pair(n, 1, FREE_NONE, FREE_NONE, Raise(V4, true), Raise(V6, false)),
                  Pair(n, 2, Side(true, true, 1, 1), FREE_NONE, Idle, Raise(V6, false)), BOTH, 2)
  {
    var s := Pair(n, 1, FREE_NONE, FREE_NONE, Raise(V4, true), Raise(V6, false));
    var l0, l1 := Local(1, true, false, 0, 0, Raise(V4, true)), Local(2, true, false, 0, 0, Claim(V4, true));
    var l2, l3 := Local(2, true, true, 0, 0, Build(V4, true)), Local(2, true, true, 1, 1, Idle);
    assert Turn(l0, 2) == l1 && Turn(l1, 2) == l2 && Turn(l2, 2) == l3;
    PairDone(n, 1, FREE_NONE, FREE_NONE, Raise(V4, true), Raise(V6, false), 0, V4, l3);
    ReachStep(s, Op(0, 2), BOTH, 2);
    Turns(s, 0, V4, l1, BOTH, 2);
    Turns(s, 0, V4, l2, BOTH, 2);
  }

  /** Its first connection ends; the thread lowers the flag, counts and stops before it raises the flag. */
  lemma {:induction false} FirstCounts(n: nat)
    requires n >= 2
    ensures Reach(Pair(n, 2, Side(true, true, 1, 1), FREE_NONE, Idle, Raise(V6, false)),
                  Pair(n, 2, FREE_POSTED, FREE_NONE, Claim(V4, false), Raise(V6, false)), BOTH, 2)
  {
    var s := Pair(n, 2, Side(true, true, 1, 1), FREE_NONE, Idle, Raise(V6, false));
    var l0, l1 := Local(2, true, true, 1, 0, Lower(V4)), Local(1, true, true, 1, 0, Free(V4));
    var l2, l3 := Local(1, true, false, 1, 0, Ask(V4, false)), Local(1, true, false, 1, 0, Raise(V4, false));
    var l4 := Local(2, true, false, 1, 0, Claim(V4, false));
    assert Turn(l0, 2) == l1 && Turn(l1, 2) == l2 && Turn(l2, 2) == l3 && Turn(l3, 2) == l4;
    PairDone(n, 2, Side(true, true, 1, 1), FREE_NONE, Idle, Raise(V6, false), 0, V4, l4);
    Begins(s, Destroy(0, V4), BOTH, 2);
    Turns(s, 0, V4, l0, BOTH, 2);
    Turns(s, 0, V4, l1, BOTH, 2);
    Turns(s, 0, V4, l2, BOTH, 2);
    Turns(s, 0, V4, l3, BOTH, 2);
  }

  /** Thread 1 goes on and posts an accept of IPv6. */
  lemma {:induction false} SecondPosts(n: nat)
    requires n >= 2
    ensures Reach(Pair(n, 2, FREE_POSTED, FREE_NONE, Claim(V4, false), Raise(V6, false)),
                  Pair(n, 3, FREE_POSTED, FULL_POSTED, Claim(V4, false), Idle), BOTH, 2)
  {
    var s := Pair(n, 2, FREE_POSTED, FREE_NONE, Claim(V4, false), Raise(V6, false));
    var l0, l1 := Local(2, true, false, 0, 0, Raise(V6, false)), Local(3, true, false, 0, 0, Claim(V6, false));
    var l2, l3 := Local(3, true, true, 0, 0, Build(V6, false)), Local(3, true, true, 1, 0, Idle);
    assert Turn(l0, 2) == l1 && Turn(l1, 2) == l2 && Turn(l2, 2) == l3;
    PairDone(n, 2, FREE_POSTED, FREE_NONE, Claim(V4, false), Raise(V6, false), 1, V6, l3);
    ReachStep(s, Op(1, 2), BOTH, 2);
    Turns(s, 1, V6, l1, BOTH, 2);
    Turns(s, 1, V6, l2, BOTH, 2);
  }

  /** And it counts once more for IPv4, whose flag is still down. */
  lemma {:induction false} SecondCounts(n: nat)
    requires n >= 2
    ensures Reach(Pair(n, 3, FREE_POSTED, FULL_POSTED, Claim(V4, false), Idle),
                  Pair(n, 4, FREE_NONE, FULL_POSTED, Claim(V4, false), Claim(V4, true)), BOTH, 2)
  {
    var s := Pair(n, 3, FREE_POSTED, FULL_POSTED, Claim(V4, false), Idle);
    var l0, l1 := Local(3, true, false, 0, 0, Ask(V4, true)), Local(3, true, false, 0, 0, Raise(V4, true));
    var l2 := Local(4, true, false, 0, 0, Claim(V4, true));
    assert Turn(l0, 2) == l1 && Turn(l1, 2) == l2;
    PairDone(n, 3, FREE_POSTED, FULL_POSTED, Claim(V4, false), Idle, 1, V4, l2);
    Begins(s, BeginAccept(1, V4), BOTH, 2);
    Turns(s, 1, V4, l0, BOTH, 2);
    Turns(s, 1, V4, l1, BOTH, 2);
  }

  lemma {:induction false} PairStarts(n: nat)
    requires n >= 2
    ensures Reach(Pair(n, 2, FREE_POSTED, FULL_POSTED, Idle, Idle),
                  Pair(n, 2, Side(true, true, 1, 1), FREE_NONE, Idle, Raise(V6, false)), BOTH, 2)
  {
    var s := Pair(n, 2, FREE_POSTED, FULL_POSTED, Idle, Idle);
    var p3 := Pair(n, 1, FREE_NONE, FREE_NONE, Raise(V4, true), Raise(V6, false));
    FirstStops(n);
    SecondTakes(n);
    ReachTrans(s, Pair(n, 2, FREE_NONE, FULL_POSTED, Raise(V4, true), Idle),
               Pair(n, 2, FREE_NONE, Side(true, true, 0, 1), Raise(V4, true), Idle), BOTH, 2);
    SecondStops(n);
    ReachTrans(s, Pair(n, 2, FREE_NONE, Side(true, true, 0, 1), Raise(V4, true), Idle), p3, BOTH, 2);
    FirstPosts(n);
    ReachTrans(s, p3, Pair(n, 2, Side(true, true, 1, 1), FREE_NONE, Idle, Raise(V6, false)), BOTH, 2);
  }

  lemma {:induction false} PairEnds(n: nat)
    requires n >= 2
    ensures Reach(Pair(n, 2, Side(true, true, 1, 1), FREE_NONE, Idle, Raise(V6, false)),
                  Pair(n, 4, FREE_NONE, FULL_POSTED, Claim(V4, false), Claim(V4, true)), BOTH, 2)
  {
    var s := Pair(n, 2, Side(true, true, 1, 1), FREE_NONE, Idle, Raise(V6, false));
    var p5 := Pair(n, 2, FREE_POSTED, FREE_NONE, Claim(V4, false), Raise(V6, false));
    var p6 := Pair(n, 3, FREE_POSTED, FULL_POSTED, Claim(V4, false), Idle);
    FirstCounts(n);
    SecondPosts(n);
    ReachTrans(s, p5, p6, BOTH, 2);
    SecondCounts(n);
    ReachTrans(s, p6, Pair(n, 4, FREE_NONE, FULL_POSTED, Claim(V4, false), Claim(V4, true)), BOTH, 2);
  }

  /** With a limit of two, two threads take the shared count two above it. */
  lemma {:induction false} StalePair(n: nat) returns (t: Shared)
    requires n >= 2
    ensures Reach(Together(n, 2), t, BOTH, 2) && t.use == 4
  {
    assert Rest(n)[0 := Idle][1 := Idle] == Rest(n);
    var s, m := Together(n, 2), Pair(n, 2, Side(true, true, 1, 1), FREE_NONE, Idle, Raise(V6, false));
    assert s == Pair(n, 2, FREE_POSTED, FULL_POSTED, Idle, Idle);
    t := Pair(n, 4, FREE_NONE, FULL_POSTED, Claim(V4, false), Claim(V4, true));
    PairStarts(n);
    PairEnds(n);
    ReachTrans(s, m, t, BOTH, 2);
  }

  // ---------------------------------------------------------------- two families and any limit

  lemma {:induction false} StaleMore(n: nat, max: int) returns (t: Shared)
    requires n >= 2 && max >= 3
    ensures Reach(Together(n, max), t, BOTH, max) && t.use == max + 2
  {
    var s, fs := Together(n, max), BOTH;
    assert Rest(n)[0 := Idle] == Rest(n) && Rest(n)[0 := Idle][1 := Idle] == Rest(n);
    var full := Two(s, V4, max, Side(true, true, 0, max - 1), Idle, Idle);
    Fills(s, V4, fs, max);
    var over := Two(s, V4, max + 1, Side(true, true, 2, max - 2), Idle, Idle);
    Stale(s, V4, max - 1, fs, max);
    ReachTrans(s, full, over, fs, max);
    t := Done(over, 0, V6, Local(max + 2, true, true, 1, 1, Idle));
    Handles(over, 0, V6, fs, max);
    ReachTrans(s, over, t, fs, max);
  }

  /** After `start` two threads take the shared count two above any limit the setter accepts. */
  lemma {:induction false} StaleTogether(n: nat, max: int) returns (ops: seq<Op>)
    requires n >= 2 && max >= 2
    ensures CanRun(Together(n, max), ops) && Fixed(ops, max) && RunAll(Together(n, max), ops).use == max + 2
  {
    var t: Shared;
    if max == 2 { t := StalePair(n); } else { t := StaleMore(n, max); }
    ops :| CanRun(Together(n, max), ops) && RunAll(Together(n, max), ops) == t && Fixed(ops, max) && Within(ops, BOTH);
  }

  /** Two families started together stay within one of the limit in every run exactly when one thread runs the handlers. */
  lemma {:induction false} TogetherBoundIff(n: nat, max: int)
    requires n >= 1 && max >= 2
    ensures (forall ops :: CanRun(Together(n, max), ops) && Fixed(ops, max) ==> RunAll(Together(n, max), ops).use <= max + 1)
            <==> n == 1
  {
    if n == 1 {
      forall ops | CanRun(Together(n, max), ops) && Fixed(ops, max)
        ensures RunAll(Together(n, max), ops).use <= max + 1
      {
        SpacedRun(Together(n, max), ops, max);
      }
    } else {
      var ops := StaleTogether(n, max);
    }
  }
}
