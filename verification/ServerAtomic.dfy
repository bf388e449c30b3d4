/**
 The two models of the servers meet: with one thread, the single atomic operations of a handler make
 up exactly the step that `Server` takes for it.
 */
module ServerAtomic {
  import opened Server
  import opened ServerThreads

  /** What a thread can begin. */
  datatype Handler = Begun(f: Family) | Accepted(f: Family) | Ended(f: Family)

  predicate CanHandle(s: State, h: Handler) {
    match h
    case Begun(f) => !s.At(f).running
    case Accepted(f) => s.At(f).pending > 0
    case Ended(f) => s.At(f).live > 0
  }

  function Handle(s: State, h: Handler): State
    requires CanHandle(s, h)
  {
    match h
    case Begun(f) => Start(s, f)
    case Accepted(f) => OnAccept(s, f)
    case Ended(f) => OnDisconnect(s, f)
  }

  predicate CanHandleAll(s: State, hs: seq<Handler>)
    decreases |hs|
  {
    hs == [] || (CanHandle(s, hs[0]) && CanHandleAll(Handle(s, hs[0]), hs[1..]))
  }

  function HandleAll(s: State, hs: seq<Handler>): State
    requires CanHandleAll(s, hs)
    decreases |hs|
  {
    if hs == [] then s else HandleAll(Handle(s, hs[0]), hs[1..])
  }

  /** The operation that begins a handler on the only thread. */
  function Opening(h: Handler): Op {
    match h
    case Begun(f) => StartUp(0, f)
    case Accepted(f) => BeginAccept(0, f)
    case Ended(f) => Destroy(0, f)
  }

  /** The handlers that are begun in a run. */
  function Handlers(ops: seq<Op>): seq<Handler> {
    if ops == [] then []
    else
      match ops[0]
      case Op(_, _) => Handlers(ops[1..])
      case StartUp(_, f) => [Begun(f)] + Handlers(ops[1..])
      case BeginAccept(_, f) => [Accepted(f)] + Handlers(ops[1..])
      case Destroy(_, f) => [Ended(f)] + Handlers(ops[1..])
  }

  /** The state between two handlers. */
  function Quiet(s: State): Shared { Shared(s.useCount, s.v4, s.v6, [Idle]) }

  /** A family that was never started has no connectors. */
  predicate Lively(s: State) { LivelySide(s.v4) && LivelySide(s.v6) }

  predicate LivelySide(side: Side) { side.running || (side.pending <= 0 && side.live <= 0) }

  // ---------------------------------------------------------------- a handler, operation by operation

  function Left(pc: Pc): nat {
    match pc
    case Idle => 0
    case Build(_, _) => 1
    case Undo(_, _) => 1
    case Claim(_, _) => 2
    case Raise(_, _) => 3
    case Ask(_, _) => 4
    case Free(_) => 5
    case Lower(_) => 6
  }

  /** What is left when a thread that nobody interrupts is idle again. */
  function Finish(l: Local, max: int): (r: Local)
    ensures r.pc == Idle
    decreases Left(l.pc)
  {
    if l.pc == Idle then l else Finish(Turn(l, max), max)
  }

  /** What an idle thread sees of `s`. */
  function SeenIn(s: State, f: Family): Local {
    var side := s.At(f);
    Local(s.useCount, side.running, side.waiting, side.pending, side.live, Idle)
  }

  /** `async_accept` from the question on. */
  lemma {:induction false} FinishAsk(
    use: int, running: bool, waiting: bool, pending: int, live: int, f: Family, held: bool, max: int)
    ensures Finish(Local(use, running, waiting, pending, live, Ask(f, held)), max)
            == if waiting then Local(use, running, waiting, pending, live + One(held), Idle)
               else Local(use + 1, running, use + 1 >= max, pending + 1, live + One(held), Idle)
  {
    if !waiting {
      var l := Local(use, running, waiting, pending, live, Raise(f, held));
      var b := Local(use + 1, running, use + 1 >= max, pending, live, Build(f, held));
      assert Finish(b, max) == Turn(b, max);
      if use + 1 >= max {
        var c := Local(use + 1, running, waiting, pending, live, Claim(f, held));
        assert Turn(l, max) == c && Turn(c, max) == b;
        assert Finish(c, max) == Finish(b, max);
      } else {
        assert Turn(l, max) == b;
      }
      assert Finish(l, max) == Finish(b, max);
    }
  }

  /** A connector that is gone: `decl`, and `async_accept` when it says so. */
  lemma {:induction false} FinishLower(use: int, running: bool, waiting: bool, pending: int, live: int, f: Family, max: int)
    ensures Finish(Local(use, running, waiting, pending, live, Lower(f)), max)
            == if use - 1 < max && waiting then Local(use, running, use >= max, pending + 1, live, Idle)
               else Local(use - 1, running, waiting, pending, live, Idle)
  {
    var l := Local(use, running, waiting, pending, live, Lower(f));
    if use - 1 < max {
      var d := Local(use - 1, running, waiting, pending, live, Free(f));
      assert Turn(l, max) == d;
      if waiting {
        FinishAsk(use - 1, running, false, pending, live, f, false, max);
        assert Turn(d, max) == Local(use - 1, running, false, pending, live, Ask(f, false));
      }
      assert Finish(d, max) == Finish(Turn(d, max), max);
    }
    assert Finish(l, max) == Finish(Turn(l, max), max);
  }

  lemma {:induction false} HandleKeeps(s: State, h: Handler)
    requires CanHandle(s, h) && Lively(s)
    ensures var t := Handle(s, h); t.At(h.f.Other()) == s.At(h.f.Other()) && t.maxCount == s.maxCount && Lively(t)
  {
  }

  /** Nobody interrupting it, a handler does to its family what its step in `Server` does. */
  lemma {:induction false} HandlerStep(s: State, h: Handler)
    requires CanHandle(s, h) && Lively(s)
    ensures Finish(Begin(SeenIn(s, h.f), Opening(h)), s.maxCount) == SeenIn(Handle(s, h), h.f)
  {
    var f, side, max := h.f, s.At(h.f), s.maxCount;
    match h
    case Begun(_) => FinishAsk(s.useCount, true, side.waiting, side.pending, side.live, f, false, max);
    case Accepted(_) => FinishAsk(s.useCount, side.running, side.waiting, side.pending - 1, side.live, f, true, max);
    case Ended(_) => FinishLower(s.useCount, side.running, side.waiting, side.pending, side.live - 1, f, max);
  }

  // ---------------------------------------------------------------- runs of one thread

  /** The only thread is idle in `s`, or will leave `s` behind when it is idle again. */
  predicate Settles(st: Shared, s: State) {
    && |st.threads| == 1 && Lively(s)
    && (if st.threads[0] == Idle then st == Quiet(s)
        else
          var f := st.threads[0].f;
          Done(st, 0, f, Finish(Seen(st, 0, f), s.maxCount)) == Quiet(s))
  }

  lemma {:induction false} TurnKeepsFamily(l: Local, max: int)
    requires l.pc != Idle
    ensures Turn(l, max).pc != Idle ==> Turn(l, max).pc.f == l.pc.f
  {
  }

  /** A turn does not change what will be left. */
  lemma {:induction false} TurnSettles(st: Shared, s: State)
    requires Settles(st, s) && st.threads[0] != Idle
    ensures Settles(Do(st, Op(0, s.maxCount)), s)
  {
    var f := st.threads[0].f;
    var l := Seen(st, 0, f);
    var m := Turn(l, s.maxCount);
    TurnKeepsFamily(l, s.maxCount);
    assert Finish(l, s.maxCount) == Finish(m, s.maxCount);
    DoneTwice(st, 0, f, m, Finish(m, s.maxCount));
  }

  lemma {:induction false} QuietDone(s: State, t: State, f: Family)
    requires t.At(f.Other()) == s.At(f.Other())
    ensures Done(Quiet(s), 0, f, SeenIn(t, f)) == Quiet(t)
  {
  }

  lemma {:induction false} BeginSettles(s: State, h: Handler)
    requires CanHandle(s, h) && Lively(s)
    ensures CanDo(Quiet(s), Opening(h)) && Settles(Do(Quiet(s), Opening(h)), Handle(s, h))
  {
    var st, op, t := Quiet(s), Opening(h), Handle(s, h);
    var l := Begin(SeenIn(s, h.f), op);
    HandleKeeps(s, h);
    HandlerStep(s, h);
    assert Seen(st, 0, h.f) == SeenIn(s, h.f) && Do(st, op) == Done(st, 0, h.f, l);
    DoneTwice(st, 0, h.f, l, Finish(l, s.maxCount));
    QuietDone(s, t, h.f);
  }

  /**
   Every run of one thread, cut anywhere, is a run of atomic handlers: of those it began, in their
   order, with what is left of the last one still to be done.
   */
  lemma {:induction false} OneThreadRun(st: Shared, s: State, ops: seq<Op>)
    requires Settles(st, s) && CanRun(st, ops) && Fixed(ops, s.maxCount)
    ensures CanHandleAll(s, Handlers(ops)) && Settles(RunAll(st, ops), HandleAll(s, Handlers(ops)))
    decreases |ops|
  {
    if ops != [] {
      var op := ops[0];
      var next := Do(st, op);
      assert Fixed(ops[1..], s.maxCount);
      if op.Op? {
        TurnSettles(st, s);
        OneThreadRun(next, s, ops[1..]);
      } else {
        var h := if op.StartUp? then Begun(op.f) else if op.BeginAccept? then Accepted(op.f) else Ended(op.f);
        assert op == Opening(h) && Handlers(ops) == [h] + Handlers(ops[1..]);
        assert Handlers(ops)[1..] == Handlers(ops[1..]);
        HandleKeeps(s, h);
        BeginSettles(s, h);
        OneThreadRun(next, Handle(s, h), ops[1..]);
      }
    }
  }

  /** And when the thread is idle nothing is left to be done. */
  lemma {:induction false} OneThreadIsAtomic(max: int, ops: seq<Op>)
    requires CanRun(Stopped(1), ops) && Fixed(ops, max) && RunAll(Stopped(1), ops).threads == [Idle]
    ensures var s := State(0, max, Side(false, false, 0, 0), Side(false, false, 0, 0));
            CanHandleAll(s, Handlers(ops)) && RunAll(Stopped(1), ops) == Quiet(HandleAll(s, Handlers(ops)))
  {
    var s := State(0, max, Side(false, false, 0, 0), Side(false, false, 0, 0));
    assert Rest(1) == [Idle];
    assert Settles(Stopped(1), s);
    OneThreadRun(Stopped(1), s, ops);
  }

  // ---------------------------------------------------------------- and the other way round

  /** `n` operations of the only thread. */
  function Turning(n: nat, max: int): seq<Op> { seq(n, _ => Op(0, max)) }

  lemma {:induction false} FinishRun(st: Shared, s: State) returns (n: nat)
    requires Settles(st, s)
    ensures CanRun(st, Turning(n, s.maxCount)) && RunAll(st, Turning(n, s.maxCount)) == Quiet(s)
    decreases Left(st.threads[0])
  {
    if st.threads[0] == Idle {
      n := 0;
    } else {
      TurnSettles(st, s);
      var op := Op(0, s.maxCount);
      var m := FinishRun(Do(st, op), s);
      n := m + 1;
      assert Turning(n, s.maxCount)[0] == op && Turning(n, s.maxCount)[1..] == Turning(m, s.maxCount);
    }
  }

  /** A handler left to itself runs to its end and leaves what its step in `Server` leaves. */
  lemma {:induction false} HandlerIsRun(s: State, h: Handler) returns (n: nat)
    requires CanHandle(s, h) && Lively(s)
    ensures var ops := [Opening(h)] + Turning(n, s.maxCount);
            CanRun(Quiet(s), ops) && RunAll(Quiet(s), ops) == Quiet(Handle(s, h))
  {
    HandleKeeps(s, h);
    BeginSettles(s, h);
    n := FinishRun(Do(Quiet(s), Opening(h)), Handle(s, h));
    var ops := [Opening(h)] + Turning(n, s.maxCount);
    assert ops[1..] == Turning(n, s.maxCount);
  }
}
