/**
 The admission protocol of the accepting servers: a connection count shared by two acceptor
 families, and per family a flag that says no accept is re-armed until a connector goes away.
 Each handler (`on_accept`, `on_disconnect`, `start`) is one atomic step; no accept fails and
 nothing is cancelled. A `simple_server` is the same machine with one family started.
 */
module Server {

  datatype Family = V4 | V6 {
    function Other(): Family { if this == V4 then V6 else V4 }
  }

  /** One `simple_server_base`: its flags, its outstanding accepts and its accepted connectors. */
  datatype Side = Side(running: bool, waiting: bool, pending: int, live: int) {
    function Connectors(): int { pending + live }
  }

  const STOPPED := Side(false, false, 0, 0)

  datatype State = State(useCount: int, maxCount: int, v4: Side, v6: Side) {
    function At(f: Family): Side { if f == V4 then v4 else v6 }

    function With(f: Family, s: Side): State { if f == V4 then this.(v4 := s) else this.(v6 := s) }
  }

  // ---------------------------------------------------------------- handlers

  /** `incr` followed, when it says so, by the construction of a connector and an `async_accept`. */
  function AsyncAccept(s: State, f: Family): State {
    var side := s.At(f);
    if side.waiting then s
    else
      var use := s.useCount + 1;
      s.(useCount := use).With(f, side.(waiting := use >= s.maxCount, pending := side.pending + 1))
  }

  function Start(s: State, f: Family): State
    requires !s.At(f).running
  {
    AsyncAccept(s.With(f, s.At(f).(running := true)), f)
  }

  function OnAccept(s: State, f: Family): State
    requires s.At(f).pending > 0
  {
    var side := s.At(f);
    var t := s.With(f, side.(pending := side.pending - 1, live := side.live + 1));
    if side.running then AsyncAccept(t, f) else t
  }

  function OnDisconnect(s: State, f: Family): State
    requires s.At(f).live > 0
  {
    var side := s.At(f);
    var use := s.useCount - 1;
    var t := s.(useCount := use).With(f, side.(live := side.live - 1));
    if use < s.maxCount && side.waiting then AsyncAccept(t.With(f, t.At(f).(waiting := false)), f) else t
  }

  /** `internet_server`; the fields of a family are grouped in its `Side`. */
  class InternetServer {
    var useCount: int
    var maxCount: int
    var v4: Side
    var v6: Side

    ghost function View(): State
      reads this
    {
      State(useCount, maxCount, v4, v6)
    }

    constructor ()
      ensures View() == State(0, 100, STOPPED, STOPPED)
    {
      useCount, maxCount, v4, v6 := 0, 100, STOPPED, STOPPED;
    }

    /** `max_count(count, ec)` refuses fewer than two. */
    method SetMaxCount(count: int) returns (ok: bool)
      modifies this
      ensures ok <==> 2 <= count
      ensures View() == if ok then old(View()).(maxCount := count) else old(View())
    {
      ok := 2 <= count;
      if ok { maxCount := count; }
    }

    method SetWaiting(f: Family, b: bool)
      modifies this
      ensures View() == old(View()).With(f, old(View()).At(f).(waiting := b))
    {
      if f == V4 { v4 := v4.(waiting := b); } else { v6 := v6.(waiting := b); }
    }

    method IsWaiting(f: Family) returns (b: bool)
      ensures b == View().At(f).waiting
    {
      b := if f == V4 then v4.waiting else v6.waiting;
    }

    /** `incr`: the exchange can only find the flag lowered, since it was just read so. */
    method Incr(f: Family) returns (accept: bool)
      modifies this
      ensures accept == !old(View()).At(f).waiting
      ensures !accept ==> View() == old(View())
      ensures accept ==> View() == old(View()).(useCount := old(useCount) + 1)
                                              .With(f, old(View()).At(f).(waiting := old(useCount) + 1 >= maxCount))
    {
      var waiting := IsWaiting(f);
      if waiting { return false; }
      useCount := useCount + 1;
      if useCount >= maxCount {
        var was := IsWaiting(f);
        SetWaiting(f, true);
        if was { assert false; }  // the roll-back needs another thread between the read and the exchange
      }
      return true;
    }

    method Accept(f: Family)
      modifies this
      ensures View() == AsyncAccept(old(View()), f)
    {
      var accept := Incr(f);
      if accept {
        if f == V4 { v4 := v4.(pending := v4.pending + 1); } else { v6 := v6.(pending := v6.pending + 1); }
      }
    }

    /** `decl`: the flag is exchanged only when the count has room again. */
    method Decl(f: Family) returns (accept: bool)
      modifies this
      ensures accept <==> old(useCount) - 1 < maxCount && old(View()).At(f).waiting
      ensures View() == var t := old(View()).(useCount := old(useCount) - 1);
                        if accept then t.With(f, t.At(f).(waiting := false)) else t
    {
      useCount := useCount - 1;
      if useCount >= maxCount { return false; }
      accept := IsWaiting(f);
      SetWaiting(f, false);
    }

    method Disconnect(f: Family)
      requires View().At(f).live > 0
      modifies this
      ensures View() == OnDisconnect(old(View()), f)
    {
      if f == V4 { v4 := v4.(live := v4.live - 1); } else { v6 := v6.(live := v6.live - 1); }
      var accept := Decl(f);
      if accept { Accept(f); }
    }

    method Accepted(f: Family)
      requires View().At(f).pending > 0
      modifies this
      ensures View() == OnAccept(old(View()), f)
    {
      if f == V4 {
        v4 := v4.(pending := v4.pending - 1, live := v4.live + 1);
        if v4.running { Accept(f); }
      } else {
        v6 := v6.(pending := v6.pending - 1, live := v6.live + 1);
        if v6.running { Accept(f); }
      }
    }

    /** `start` with both acceptors open: IPv4 first, then IPv6. */
    method StartBoth()
      requires !v4.running && !v6.running
      modifies this
      ensures View() == Start(Start(old(View()), V4), V6)
    {
      v4 := v4.(running := true);
      Accept(V4);
      v6 := v6.(running := true);
      Accept(V6);
    }
  }

  // ---------------------------------------------------------------- runs

  datatype Event = Accept(f: Family) | Disconnect(f: Family)

  predicate Enabled(s: State, e: Event) {
    match e
    case Accept(f) => s.At(f).pending > 0
    case Disconnect(f) => s.At(f).live > 0
  }

  function Next(s: State, e: Event): State
    requires Enabled(s, e)
  {
    match e
    case Accept(f) => OnAccept(s, f)
    case Disconnect(f) => OnDisconnect(s, f)
  }

  /** The events can happen one after the other. */
  predicate Possible(s: State, es: seq<Event>)
    decreases |es|
  {
    es == [] || (Enabled(s, es[0]) && Possible(Next(s, es[0]), es[1..]))
  }

  function Run(s: State, es: seq<Event>): State
    requires Possible(s, es)
    decreases |es|
  {
    if es == [] then s else Run(Next(s, es[0]), es[1..])
  }

  /** No accept is outstanding and no connector is left whose end could re-arm one. */
  predicate Deaf(s: State, f: Family) {
    s.At(f).running && s.At(f).waiting && s.At(f).pending == 0 && s.At(f).live == 0
  }

  /** A deaf family stays deaf, whatever happens later. */
  lemma {:induction false} DeafForever(s: State, f: Family, es: seq<Event>)
    requires Deaf(s, f) && Possible(s, es)
    ensures Deaf(Run(s, es), f)
    decreases |es|
  {
    if es != [] { DeafForever(Next(s, es[0]), f, es[1..]); }
  }

  // ---------------------------------------------------------------- one family

  /** Only `f` is running: waiting exactly at the limit, never above it, and always listening otherwise. */
  predicate Single(s: State, f: Family) {
    var side := s.At(f);
    && side.running && s.At(f.Other()) == STOPPED
    && side.pending >= 0 && side.live >= 0
    && s.useCount == side.Connectors()
    && 1 <= s.useCount <= s.maxCount
    && (side.waiting <==> s.useCount == s.maxCount)
    && (!side.waiting ==> side.pending >= 1)
  }

  lemma SingleStart(max: int, f: Family)
    requires max >= 1
    ensures Single(Start(State(0, max, STOPPED, STOPPED), f), f)
  {
  }

  /** Every state a single-family server can reach, with any limit of at least one. */
  lemma {:induction false} SingleRun(s: State, f: Family, es: seq<Event>)
    requires Single(s, f) && Possible(s, es)
    ensures Single(Run(s, es), f) && !Deaf(Run(s, es), f) && Run(s, es).maxCount == s.maxCount
    decreases |es|
  {
    if es != [] { SingleRun(Next(s, es[0]), f, es[1..]); }
  }

  // ---------------------------------------------------------------- two families

  /** How two families share a count they started on with room to spare; it treats them alike. */
  predicate Share(use: int, max: int, a: Side, b: Side) {
    && a.running && b.running
    && a.pending >= 0 && a.live >= 0 && b.pending >= 0 && b.live >= 0
    && use == a.Connectors() + b.Connectors()
    && a.Connectors() >= 1 && b.Connectors() >= 1
    && (!a.waiting ==> a.pending >= 1) && (!b.waiting ==> b.pending >= 1)
    && use <= max + 1
    && (a.waiting && b.waiting ==> use >= max)
    && (!a.waiting && !b.waiting ==> use < max)
    && (a.waiting && !b.waiting ==> a.Connectors() >= 2 && use <= max)
    && (b.waiting && !a.waiting ==> b.Connectors() >= 2 && use <= max)
    && (use == max + 1 ==> a.Connectors() >= 2 && b.Connectors() >= 2)
  }

  /** What both families together keep. */
  predicate Both(s: State) { Share(s.useCount, s.maxCount, s.v4, s.v6) }

  lemma {:induction false} BothFrom(s: State, f: Family)
    ensures Both(s) <==> Share(s.useCount, s.maxCount, s.At(f), s.At(f.Other()))
  {
  }

  lemma {:induction false} AcceptShares(s: State, f: Family)
    requires s.At(f).pending > 0 && Share(s.useCount, s.maxCount, s.At(f), s.At(f.Other()))
    ensures var t := OnAccept(s, f);
            t.maxCount == s.maxCount && Share(t.useCount, t.maxCount, t.At(f), t.At(f.Other()))
  {
  }

  lemma {:induction false} DisconnectShares(s: State, f: Family)
    requires s.At(f).live > 0 && Share(s.useCount, s.maxCount, s.At(f), s.At(f.Other()))
    ensures var t := OnDisconnect(s, f);
            t.maxCount == s.maxCount && Share(t.useCount, t.maxCount, t.At(f), t.At(f.Other()))
  {
  }

  lemma {:induction false} BothStep(s: State, e: Event)
    requires Both(s) && Enabled(s, e)
    ensures Both(Next(s, e)) && Next(s, e).maxCount == s.maxCount
  {
    BothFrom(s, e.f);
    BothFrom(Next(s, e), e.f);
    match e
    case Accept(f) => AcceptShares(s, f);
    case Disconnect(f) => DisconnectShares(s, f);
  }

  /** Every state two families can reach: bounded, and neither family deaf. */
  lemma {:induction false} BothRun(s: State, es: seq<Event>)
    requires Both(s) && Possible(s, es)
    ensures Both(Run(s, es)) && Run(s, es).maxCount == s.maxCount
    ensures !Deaf(Run(s, es), V4) && !Deaf(Run(s, es), V6)
    decreases |es|
  {
    if es != [] {
      BothStep(s, es[0]);
      BothRun(Next(s, es[0]), es[1..]);
    }
  }

  lemma {:induction false} RunOne(s: State, e: Event)
    requires Enabled(s, e)
    ensures Possible(s, [e]) && Run(s, [e]) == Next(s, e)
  {
    var t := Next(s, e);
    assert [e][1..] == [] && Possible(t, []) && Run(t, []) == t;
  }

  lemma {:induction false} RunTwo(s: State, e1: Event, e2: Event)
    requires Enabled(s, e1) && Enabled(Next(s, e1), e2)
    ensures Possible(s, [e1, e2]) && Run(s, [e1, e2]) == Next(Next(s, e1), e2)
  {
    var es := [e1, e2];
    RunOne(Next(s, e1), e2);
    assert es[0] == e1 && es[1..] == [e2];
  }

  /** Both families, started together with a limit of at least three. */
  lemma {:induction false} BothStart(max: int)
    requires max >= 3
    ensures Both(Start(Start(State(0, max, STOPPED, STOPPED), V4), V6))
  {
  }

  /** So from `start` on, whatever happens. */
  lemma {:induction false} TogetherRun(max: int, es: seq<Event>)
    requires max >= 3 && Possible(Start(Start(State(0, max, STOPPED, STOPPED), V4), V6), es)
    ensures var s := Run(Start(Start(State(0, max, STOPPED, STOPPED), V4), V6), es);
            Both(s) && s.maxCount == max && !Deaf(s, V4) && !Deaf(s, V6)
  {
    BothStart(max);
    BothRun(Start(Start(State(0, max, STOPPED, STOPPED), V4), V6), es);
  }

  /** A family without an outstanding accept gets one back after at most two of its connectors end. */
  lemma Recovers(s: State, f: Family) returns (es: seq<Event>)
    requires Both(s)
    ensures |es| <= 2 && (forall i :: 0 <= i < |es| ==> es[i] == Disconnect(f))
    ensures Possible(s, es) && Run(s, es).At(f).pending >= 1
  {
    if s.At(f).pending >= 1 {
      es := [];
    } else {
      var d := Disconnect(f);
      BothStep(s, d);
      if Next(s, d).At(f).pending >= 1 {
        es := [d];
        assert es[1..] == [];
      } else {
        es := [d, d];
        RunTwo(s, d, d);
      }
    }
  }

  // ---------------------------------------------------------------- exactly when

  /** `f` can be lost: some run from `s` leaves it deaf. */
  ghost predicate CanLose(s: State, f: Family) {
    exists es :: Possible(s, es) && Deaf(Run(s, es), f)
  }

  lemma LoseWitness(s: State, f: Family, es: seq<Event>)
    requires Possible(s, es) && Deaf(Run(s, es), f)
    ensures CanLose(s, f)
  {
  }

  /** At the limit, or one below it, the family started second can be lost. */
  lemma SecondIsLost(s: State, f: Family)
    requires Single(s, f) && s.useCount > s.maxCount - 2
    ensures CanLose(Start(s, f.Other()), f.Other())
  {
    var g := f.Other();
    var t := Start(s, g);
    var last := [Accept(g), Disconnect(g)];
    if s.useCount == s.maxCount {
      var t1 := Next(t, Accept(g));
      assert Deaf(Next(t1, Disconnect(g)), g);
      RunTwo(t, Accept(g), Disconnect(g));
      LoseWitness(t, g, last);
    } else {
      var es := [Accept(f)] + last;
      assert es[1..] == last;
      var t1 := Next(t, Accept(f));
      var t2 := Next(t1, Accept(g));
      assert Deaf(Next(t2, Disconnect(g)), g);
      RunTwo(t1, Accept(g), Disconnect(g));
      assert Possible(t, es) && Run(t, es) == Run(t1, last);
      LoseWitness(t, g, es);
    }
  }

  /**
   Starting the second family is safe for both families, in every run that follows, exactly when
   the shared count is at most `max_count - 2` at that moment.
   */
  lemma SafeIff(s: State, f: Family)
    requires Single(s, f)
    ensures var t := Start(s, f.Other());
            (!CanLose(t, V4) && !CanLose(t, V6)) <==> s.useCount <= s.maxCount - 2
  {
    var t := Start(s, f.Other());
    if s.useCount <= s.maxCount - 2 {
      assert Both(t);
      forall es | Possible(t, es)
        ensures !Deaf(Run(t, es), V4) && !Deaf(Run(t, es), V6)
      {
        BothRun(t, es);
      }
    } else {
      SecondIsLost(s, f);
    }
  }

  /** `start()` with both acceptors open is safe exactly from a limit of three on, though two is accepted. */
  lemma SafeTogetherIff(max: int)
    requires max >= 2
    ensures var t := Start(Start(State(0, max, STOPPED, STOPPED), V4), V6);
            (!CanLose(t, V4) && !CanLose(t, V6)) <==> max >= 3
  {
    SingleStart(max, V4);
    SafeIff(Start(State(0, max, STOPPED, STOPPED), V4), V4);
  }

  /** With any limit, connections that come in before the second family is started can cost it its life. */
  lemma {:induction false} FillsUp(s: State, f: Family) returns (es: seq<Event>)
    requires Single(s, f)
    ensures Possible(s, es) && Single(Run(s, es), f) && Run(s, es).useCount == s.maxCount == Run(s, es).maxCount
    decreases s.maxCount - s.useCount
  {
    if s.useCount == s.maxCount {
      es := [];
    } else {
      var e := Accept(f);
      var rest := FillsUp(Next(s, e), f);
      es := [e] + rest;
      assert es[1..] == rest;
    }
  }

  lemma LateStartIsLost(max: int)
    requires max >= 2
    ensures exists es :: var s := Start(State(0, max, STOPPED, STOPPED), V4);
                         Possible(s, es) && !Run(s, es).v6.running && CanLose(Start(Run(s, es), V6), V6)
  {
    SingleStart(max, V4);
    var s := Start(State(0, max, STOPPED, STOPPED), V4);
    var es := FillsUp(s, V4);
    SecondIsLost(Run(s, es), V4);
  }
}
