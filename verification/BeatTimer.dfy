/**
 A queue of deadlines served by one timer. Registering an earlier deadline re-arms the timer, which
 aborts the wait that was armed; a handler that runs after an expiry delivers the first entry and
 arms the next; `cancel` asks the next aborted handler to drain the queue. Callbacks may register
 and cancel themselves. One step is one handler, one call from outside, or one expiry.
 */
module BeatTimer {

  import opened Common

  datatype Entry = Entry(time: int, id: nat)

  /** An entry handed to its callback, with the moment and whether it was a success. */
  datatype Delivery = Delivery(entry: Entry, ok: bool, at: int)

  /**
   `armed` is the deadline of the wait in progress; `fired` and `aborted` count handlers that are
   queued with and without success. The two histories and the clock are for stating what happened.
   */
  datatype State = State(queue: seq<Entry>, armed: Option<int>, fired: nat, aborted: nat, cancelRequest: bool,
                         now: int, registered: seq<Entry>, delivered: seq<Delivery>)

  const START := State([], None, 0, 0, false, 0, [], [])

  predicate Sorted(q: seq<Entry>) { forall i, j :: 0 <= i < j < |q| ==> q[i].time <= q[j].time }

  // ---------------------------------------------------------------- operations

  /** Where `emplace_hint` puts a deadline: before the first one that is not earlier. */
  function LowerBound(q: seq<Entry>, time: int): (p: nat)
    ensures p <= |q|
    ensures forall i :: 0 <= i < p ==> q[i].time < time
    ensures p < |q| ==> time <= q[p].time
  {
    if q == [] || time <= q[0].time then 0 else 1 + LowerBound(q[1..], time)
  }

  function Insert(q: seq<Entry>, e: Entry): seq<Entry> {
    var p := LowerBound(q, e.time);
    q[..p] + [e] + q[p..]
  }

  /** `expires_at` and `async_wait` on the timer: a wait in progress is aborted. */
  function Arm(s: State, time: int): State {
    s.(armed := Some(time), aborted := s.aborted + if s.armed.Some? then 1 else 0)
  }

  /** `async_wait`. */
  function Wait(s: State, e: Entry): State {
    var t := s.(queue := Insert(s.queue, e), registered := s.registered + [e]);
    if LowerBound(s.queue, e.time) == 0 && !s.cancelRequest then Arm(t, e.time) else t
  }

  /** `cancel`. */
  function Cancel(s: State): State {
    s.(armed := None, aborted := s.aborted + (if s.armed.Some? then 1 else 0), cancelRequest := true)
  }

  /** What a callback does. */
  datatype Call = Register(e: Entry) | CancelAll

  function Invoke(s: State, c: Call): State {
    match c
    case Register(e) => Wait(s, e)
    case CancelAll => Cancel(s)
  }

  function InvokeAll(s: State, cs: seq<Call>): State
    decreases |cs|
  {
    if cs == [] then s else InvokeAll(Invoke(s, cs[0]), cs[1..])
  }

  /** The first entry leaves the queue and is handed to its callback. */
  function Popped(s: State, ok: bool): State
    requires s.queue != []
  {
    s.(queue := s.queue[1..], delivered := s.delivered + [Delivery(s.queue[0], ok, s.now)])
  }

  function Deliver(s: State, ok: bool, cs: seq<Call>): State
    requires s.queue != []
  {
    InvokeAll(Popped(s, ok), cs)
  }

  /** The state in which the callback of a successful wait starts. */
  function Called(s: State): State
    requires s.fired > 0 && s.queue != []
  {
    Popped(s.(fired := s.fired - 1), true)
  }

  /** `on_wait` without an error. */
  function OnExpiry(s: State, cs: seq<Call>): State
    requires s.fired > 0
  {
    if s.queue == [] then s.(fired := s.fired - 1)
    else
      var u := InvokeAll(Called(s), cs);
      if u.queue == [] then u else Arm(u, u.queue[0].time)
  }

  /** The drain loop of `on_wait`; `script` holds what each callback does. */
  function Drain(s: State, script: seq<seq<Call>>): State
    decreases |script|
  {
    if s.queue == [] || script == [] then s else Drain(Deliver(s, false, script[0]), script[1..])
  }

  /** The script covers every entry the drain delivers: the loop runs until the queue is empty. */
  predicate Drained(s: State, script: seq<seq<Call>>) { Drain(s, script).queue == [] }

  /** The drain asked for, if one was, comes to an end. */
  predicate AbortEnds(s: State, script: seq<seq<Call>>)
    requires s.aborted > 0
  {
    s.cancelRequest ==> Drained(s.(aborted := s.aborted - 1), script)
  }

  /** `on_wait` with an error. */
  function OnAbort(s: State, script: seq<seq<Call>>): State
    requires s.aborted > 0 && AbortEnds(s, script)
  {
    var t := s.(aborted := s.aborted - 1);
    if s.cancelRequest then Drain(t, script).(cancelRequest := false) else t
  }

  // ---------------------------------------------------------------- runs

  datatype Step =
    | UserWait(e: Entry)
    | UserCancel
    | Expire
    | Tick(n: nat)
    | RunExpiry(cs: seq<Call>)
    | RunAbort(script: seq<seq<Call>>)

  predicate Enabled(s: State, step: Step) {
    match step
    case UserWait(_) => true
    case UserCancel => true
    case Expire => s.armed.Some? && s.armed.value <= s.now
    case Tick(_) => true
    case RunExpiry(_) => s.fired > 0
    case RunAbort(script) => s.aborted > 0 && AbortEnds(s, script)
  }

  function Next(s: State, step: Step): State
    requires Enabled(s, step)
  {
    match step
    case UserWait(e) => Wait(s, e)
    case UserCancel => Cancel(s)
    case Expire => s.(armed := None, fired := s.fired + 1)
    case Tick(n) => s.(now := s.now + n)
    case RunExpiry(cs) => OnExpiry(s, cs)
    case RunAbort(script) => OnAbort(s, script)
  }

  predicate Possible(s: State, steps: seq<Step>)
    decreases |steps|
  {
    steps == [] || (Enabled(s, steps[0]) && Possible(Next(s, steps[0]), steps[1..]))
  }

  function Run(s: State, steps: seq<Step>): State
    requires Possible(s, steps)
    decreases |steps|
  {
    if steps == [] then s else Run(Next(s, steps[0]), steps[1..])
  }

  // ---------------------------------------------------------------- exactly once

  function Handed(ds: seq<Delivery>): seq<Entry> { seq(|ds|, i requires 0 <= i < |ds| => ds[i].entry) }

  /** Every registered entry is either queued or was delivered, and only once. */
  ghost predicate OnceEach(s: State) {
    multiset(s.registered) == multiset(s.queue) + multiset(Handed(s.delivered))
  }

  lemma {:induction false} InsertMultiset(q: seq<Entry>, e: Entry)
    ensures multiset(Insert(q, e)) == multiset(q) + multiset{e}
  {
    var p := LowerBound(q, e.time);
    assert q == q[..p] + q[p..];
  }

  lemma {:induction false} WaitOnce(s: State, e: Entry)
    requires OnceEach(s)
    ensures OnceEach(Wait(s, e))
  {
    InsertMultiset(s.queue, e);
  }

  lemma {:induction false} InvokeAllOnce(s: State, cs: seq<Call>)
    requires OnceEach(s)
    ensures OnceEach(InvokeAll(s, cs))
    decreases |cs|
  {
    if cs != [] {
      if cs[0].Register? { WaitOnce(s, cs[0].e); }
      InvokeAllOnce(Invoke(s, cs[0]), cs[1..]);
    }
  }

  lemma {:induction false} DeliverOnce(s: State, ok: bool, cs: seq<Call>)
    requires s.queue != [] && OnceEach(s)
    ensures OnceEach(Deliver(s, ok, cs))
  {
    var d := Delivery(s.queue[0], ok, s.now);
    assert s.queue == [s.queue[0]] + s.queue[1..];
    assert Handed(s.delivered + [d]) == Handed(s.delivered) + [s.queue[0]];
    InvokeAllOnce(Popped(s, ok), cs);
  }

  lemma {:induction false} DrainOnce(s: State, script: seq<seq<Call>>)
    requires OnceEach(s)
    ensures OnceEach(Drain(s, script))
    decreases |script|
  {
    if s.queue != [] && script != [] {
      DeliverOnce(s, false, script[0]);
      DrainOnce(Deliver(s, false, script[0]), script[1..]);
    }
  }

  /** In every run each registered entry is delivered at most once and never lost. */
  lemma {:induction false} OnceRun(s: State, steps: seq<Step>)
    requires OnceEach(s) && Possible(s, steps)
    ensures OnceEach(Run(s, steps))
    decreases |steps|
  {
    if steps != [] {
      OnceStep(s, steps[0]);
      OnceRun(Next(s, steps[0]), steps[1..]);
    }
  }

  lemma {:induction false} OnceStep(s: State, step: Step)
    requires OnceEach(s) && Enabled(s, step)
    ensures OnceEach(Next(s, step))
  {
    match step
    case UserWait(e) => WaitOnce(s, e);
    case RunExpiry(cs) =>
      if s.queue != [] { DeliverOnce(s.(fired := s.fired - 1), true, cs); }
    case RunAbort(script) => DrainOnce(s.(aborted := s.aborted - 1), script);
    case _ =>
  }

  // ---------------------------------------------------------------- never forgotten

  /** A wait is in progress, or one was aborted and its handler is still to run. */
  predicate Outstanding(s: State) { s.armed.Some? || s.aborted > 0 }

  /** A callback that cancels only while a wait is outstanding. */
  predicate Careful(s: State, cs: seq<Call>)
    decreases |cs|
  {
    cs == [] || ((cs[0].CancelAll? ==> Outstanding(s)) && Careful(Invoke(s, cs[0]), cs[1..]))
  }

  /** Cancels come only while a wait is outstanding; in a drain they may come at any time. */
  predicate CarefulStep(s: State, step: Step)
    requires Enabled(s, step)
  {
    match step
    case UserCancel => Outstanding(s)
    case RunExpiry(cs) => s.queue != [] ==> Careful(Called(s), cs)
    case _ => true
  }

  predicate CarefulRun(s: State, steps: seq<Step>)
    requires Possible(s, steps)
    decreases |steps|
  {
    steps == [] || (CarefulStep(s, steps[0]) && CarefulRun(Next(s, steps[0]), steps[1..]))
  }

  /** Something is queued or armed that will deal with the first entry. */
  predicate Attended(s: State) {
    && Sorted(s.queue)
    && Heard(s)
    && (s.queue != [] && !s.cancelRequest ==> s.armed == Some(s.queue[0].time) || s.fired > 0)
  }

  /** A request to drain has a handler that will see it. */
  predicate Heard(s: State) { s.cancelRequest ==> s.aborted > 0 }

  lemma {:induction false} InsertSorted(q: seq<Entry>, e: Entry)
    requires Sorted(q)
    ensures Sorted(Insert(q, e))
  {
  }

  lemma {:induction false} InvokeAllSorted(s: State, cs: seq<Call>)
    requires Sorted(s.queue)
    ensures var t := InvokeAll(s, cs);
            Sorted(t.queue) && t.fired == s.fired && t.now == s.now && t.delivered == s.delivered
    decreases |cs|
  {
    if cs != [] {
      if cs[0].Register? { InsertSorted(s.queue, cs[0].e); }
      InvokeAllSorted(Invoke(s, cs[0]), cs[1..]);
    }
  }

  /** A callback leaves a request unheard exactly when it was not careful. */
  lemma {:induction false} InvokeAllHeard(s: State, cs: seq<Call>)
    requires Heard(s)
    ensures Heard(InvokeAll(s, cs)) <==> Careful(s, cs)
    ensures !Careful(s, cs) ==> InvokeAll(s, cs).armed.None?
    decreases |cs|
  {
    if cs != [] {
      if cs[0].CancelAll? && !Outstanding(s) {
        InvokeAllUnheard(Cancel(s), cs[1..]);
      } else {
        InvokeAllHeard(Invoke(s, cs[0]), cs[1..]);
      }
    }
  }

  /** An unheard request stays unheard while the callback runs. */
  lemma {:induction false} InvokeAllUnheard(s: State, cs: seq<Call>)
    requires s.cancelRequest && s.armed.None? && s.aborted == 0
    ensures var t := InvokeAll(s, cs); t.cancelRequest && t.armed.None? && t.aborted == 0
    decreases |cs|
  {
    if cs != [] { InvokeAllUnheard(Invoke(s, cs[0]), cs[1..]); }
  }

  lemma {:induction false} DrainSorted(s: State, script: seq<seq<Call>>)
    requires Sorted(s.queue)
    ensures Sorted(Drain(s, script).queue) && Drain(s, script).fired == s.fired && Drain(s, script).now == s.now
    decreases |script|
  {
    if s.queue != [] && script != [] {
      InvokeAllSorted(Popped(s, false), script[0]);
      DrainSorted(Deliver(s, false, script[0]), script[1..]);
    }
  }

  lemma {:induction false} AttendedStep(s: State, step: Step)
    requires Attended(s) && Enabled(s, step) && CarefulStep(s, step)
    ensures Attended(Next(s, step))
  {
    match step
    case UserWait(e) => InsertSorted(s.queue, e);
    case RunExpiry(cs) =>
      if s.queue != [] {
        InvokeAllSorted(Called(s), cs);
        InvokeAllHeard(Called(s), cs);
      }
    case RunAbort(script) => DrainSorted(s.(aborted := s.aborted - 1), script);
    case _ =>
  }

  /** Outside a handler a nonempty queue is always attended to, after every careful run. */
  lemma {:induction false} AttendedRun(s: State, steps: seq<Step>)
    requires Attended(s) && Possible(s, steps) && CarefulRun(s, steps)
    ensures Attended(Run(s, steps))
    decreases |steps|
  {
    if steps != [] {
      AttendedStep(s, steps[0]);
      AttendedRun(Next(s, steps[0]), steps[1..]);
    }
  }

  // ---------------------------------------------------------------- and served

  /** A script in which no callback does anything. */
  function Silent(n: nat): seq<seq<Call>> { seq(n, _ => []) }

  lemma {:induction false} DrainSilent(s: State)
    ensures var t := Drain(s, Silent(|s.queue|));
            && t.queue == [] && |t.delivered| == |s.delivered| + |s.queue| && s.delivered <= t.delivered
            && (s.queue != [] ==> t.delivered[|s.delivered|].entry == s.queue[0])
    decreases |s.queue|
  {
    if s.queue != [] {
      var u := Deliver(s, false, []);
      assert Silent(|s.queue|)[1..] == Silent(|u.queue|);
      DrainSilent(u);
    }
  }

  /** From every attended state a few steps deliver the first entry of the queue. */
  lemma {:induction false} Served(s: State) returns (steps: seq<Step>)
    requires Attended(s) && s.queue != []
    ensures |steps| <= 3 && Possible(s, steps)
    ensures |Run(s, steps).delivered| > |s.delivered| && Run(s, steps).delivered[|s.delivered|].entry == s.queue[0]
  {
    if s.cancelRequest {
      DrainSilent(s.(aborted := s.aborted - 1));
      steps := [RunAbort(Silent(|s.queue|))];
      assert steps[1..] == [];
    } else if s.fired > 0 {
      steps := [RunExpiry([])];
      assert steps[1..] == [];
    } else {
      var t := s.queue[0].time;
      var s1 := s.(now := s.now + if t > s.now then t - s.now else 0);
      var s2 := s1.(armed := None, fired := 1);
      steps := [Tick(if t > s.now then t - s.now else 0), Expire, RunExpiry([])];
      assert steps[1..] == [Expire, RunExpiry([])] && steps[1..][1..] == [RunExpiry([])] && [RunExpiry([])][1..] == [];
      assert Run(s2, [RunExpiry([])]) == OnExpiry(s2, []);
      assert Run(s1, steps[1..]) == OnExpiry(s2, []);
    }
  }

  /** The handler of an expiry arms for the entry it leaves first, request or not. */
  lemma {:induction false} ExpiryRearms(s: State, cs: seq<Call>)
    requires s.fired > 0 && s.queue != []
    ensures var t := OnExpiry(s, cs);
            && t.delivered == s.delivered + [Delivery(s.queue[0], true, s.now)]
            && (t.queue != [] ==> t.armed == Some(t.queue[0].time))
  {
    InvokeAllDelivers(Called(s), cs);
  }

  lemma {:induction false} InvokeAllDelivers(s: State, cs: seq<Call>)
    ensures InvokeAll(s, cs).delivered == s.delivered
    decreases |cs|
  {
    if cs != [] { InvokeAllDelivers(Invoke(s, cs[0]), cs[1..]); }
  }

  function Later(s: State): nat
    requires s.armed.Some?
  {
    if s.armed.value > s.now then s.armed.value - s.now else 0
  }

  /** An armed wait runs out and its handler delivers the first entry. */
  lemma {:induction false} ServedInTime(s: State) returns (t: State, steps: seq<Step>)
    requires s.queue != [] && s.armed == Some(s.queue[0].time)
    ensures Possible(s, steps) && t == Run(s, steps) && t.queue == s.queue[1..]
    ensures t.queue != [] ==> t.armed == Some(t.queue[0].time)
    ensures s.queue[0].time <= t.now && t.delivered == s.delivered + [Delivery(s.queue[0], true, t.now)]
  {
    var s1 := s.(now := s.now + Later(s));
    var s2 := s1.(armed := None, fired := s.fired + 1);
    steps := [Tick(Later(s)), Expire, RunExpiry([])];
    t := OnExpiry(s2, []);
    assert steps[1..] == [Expire, RunExpiry([])] && steps[1..][1..] == [RunExpiry([])] && [RunExpiry([])][1..] == [];
    assert Run(t, []) == t && Possible(t, []);
    assert Possible(s2, [RunExpiry([])]) && Run(s2, [RunExpiry([])]) == t;
    assert Possible(s1, steps[1..]) && Run(s1, steps[1..]) == t;
    ExpiryRearms(s2, []);
  }

  /** `got` hands over the entries of `q` in order, none before its time. */
  predicate InTime(got: seq<Delivery>, q: seq<Entry>) {
    Handed(got) == q && forall i :: 0 <= i < |got| ==> got[i].ok && got[i].entry.time <= got[i].at
  }

  lemma {:induction false} InTimeMore(d: Delivery, got: seq<Delivery>, q: seq<Entry>)
    requires q != [] && InTime(got, q[1..]) && d.ok && d.entry == q[0] && d.entry.time <= d.at
    ensures InTime([d] + got, q)
  {
    assert Handed([d] + got) == [q[0]] + Handed(got) == q;
  }

  /** With a wait armed for the first entry the whole queue can be delivered in order, even behind an unheard request. */
  lemma {:induction false} AllServedInTime(s: State) returns (steps: seq<Step>, got: seq<Delivery>)
    requires s.queue != [] ==> s.armed == Some(s.queue[0].time)
    ensures Possible(s, steps) && Run(s, steps).queue == [] && Run(s, steps).delivered == s.delivered + got
    ensures InTime(got, s.queue)
    decreases |s.queue|
  {
    if s.queue == [] {
      steps, got := [], [];
    } else {
      var t, first := ServedInTime(s);
      var rest, others := AllServedInTime(t);
      var d := Delivery(s.queue[0], true, t.now);
      RunConcat(s, first, rest);
      InTimeMore(d, others, s.queue);
      Assoc(s.delivered, [d], others);
      steps, got := first + rest, [d] + others;
    }
  }

  lemma {:induction false} RunConcat(s: State, a: seq<Step>, b: seq<Step>)
    requires Possible(s, a) && Possible(Run(s, a), b)
    ensures Possible(s, a + b) && Run(s, a + b) == Run(Run(s, a), b)
    decreases |a|
  {
    if a == [] {
      assert a + b == b;
    } else {
      assert (a + b)[0] == a[0] && (a + b)[1..] == a[1..] + b;
      RunConcat(Next(s, a[0]), a[1..], b);
    }
  }

  // ---------------------------------------------------------------- failures come from cancels

  predicate NoCancel(cs: seq<Call>) { forall i :: 0 <= i < |cs| ==> cs[i].Register? }

  /** Nobody cancels. */
  predicate Uncancelled(steps: seq<Step>) {
    forall i :: 0 <= i < |steps| ==> !steps[i].UserCancel? && (steps[i].RunExpiry? ==> NoCancel(steps[i].cs))
  }

  predicate Succeeded(ds: seq<Delivery>) { forall i :: 0 <= i < |ds| ==> ds[i].ok }

  lemma {:induction false} InvokeAllCalm(s: State, cs: seq<Call>)
    requires !s.cancelRequest && NoCancel(cs)
    ensures !InvokeAll(s, cs).cancelRequest
    decreases |cs|
  {
    if cs != [] { InvokeAllCalm(Invoke(s, cs[0]), cs[1..]); }
  }

  /** Waits that are aborted because an earlier deadline came deliver nothing: without a cancel nothing ever fails. */
  lemma {:induction false} NothingFails(s: State, steps: seq<Step>)
    requires !s.cancelRequest && Succeeded(s.delivered) && Possible(s, steps) && Uncancelled(steps)
    ensures !Run(s, steps).cancelRequest && Succeeded(Run(s, steps).delivered)
    decreases |steps|
  {
    if steps != [] {
      var step := steps[0];
      if step.RunExpiry? && s.queue != [] {
        InvokeAllCalm(Called(s), step.cs);
        InvokeAllDelivers(Called(s), step.cs);
      }
      NothingFails(Next(s, step), steps[1..]);
    }
  }

  // ---------------------------------------------------------------- one handler for every wait

  /** Waits begun whose handlers have not run. */
  function Waits(s: State): nat { s.fired + s.aborted + if s.armed.Some? then 1 else 0 }

  /** Waits begun by the calls of a callback: one for every new first entry while no request is pending. */
  function Begun(s: State, cs: seq<Call>): nat
    decreases |cs|
  {
    if cs == [] then 0
    else
      var first := cs[0].Register? && !s.cancelRequest && (s.queue == [] || cs[0].e.time <= s.queue[0].time);
      (if first then 1 else 0) + Begun(Invoke(s, cs[0]), cs[1..])
  }

  function BegunBy(s: State, step: Step): nat
    requires Enabled(s, step)
  {
    match step
    case UserWait(e) => Begun(s, [Register(e)])
    case RunExpiry(cs) =>
      if s.queue == [] then 0 else Begun(Called(s), cs) + if InvokeAll(Called(s), cs).queue == [] then 0 else 1
    case _ => 0
  }

  function BegunIn(s: State, steps: seq<Step>): nat
    requires Possible(s, steps)
    decreases |steps|
  {
    if steps == [] then 0 else BegunBy(s, steps[0]) + BegunIn(Next(s, steps[0]), steps[1..])
  }

  /** How many handlers run. */
  function HandlersIn(steps: seq<Step>): nat {
    if steps == [] then 0 else (if steps[0].RunExpiry? || steps[0].RunAbort? then 1 else 0) + HandlersIn(steps[1..])
  }

  lemma {:induction false} InvokeAllWaits(s: State, cs: seq<Call>)
    ensures Waits(InvokeAll(s, cs)) == Waits(s) + Begun(s, cs)
    decreases |cs|
  {
    if cs != [] { InvokeAllWaits(Invoke(s, cs[0]), cs[1..]); }
  }

  /** While a request is pending no wait begins. */
  lemma {:induction false} NoneBegun(s: State, cs: seq<Call>)
    requires s.cancelRequest
    ensures Begun(s, cs) == 0 && InvokeAll(s, cs).cancelRequest
    decreases |cs|
  {
    if cs != [] { NoneBegun(Invoke(s, cs[0]), cs[1..]); }
  }

  lemma {:induction false} DrainWaits(s: State, script: seq<seq<Call>>)
    requires s.cancelRequest
    ensures Waits(Drain(s, script)) == Waits(s)
    decreases |script|
  {
    if s.queue != [] && script != [] {
      NoneBegun(Popped(s, false), script[0]);
      InvokeAllWaits(Popped(s, false), script[0]);
      DrainWaits(Deliver(s, false, script[0]), script[1..]);
    }
  }

  lemma {:induction false} WaitsStep(s: State, step: Step)
    requires Enabled(s, step)
    ensures Waits(Next(s, step)) + HandlersIn([step]) == Waits(s) + BegunBy(s, step)
  {
    assert [step][1..] == [];
    match step
    case UserWait(e) =>
      assert [Register(e)][1..] == [];
      assert InvokeAll(Wait(s, e), []) == Wait(s, e);
      InvokeAllWaits(s, [Register(e)]);
    case RunExpiry(cs) =>
      if s.queue != [] { InvokeAllWaits(Called(s), cs); }
    case RunAbort(script) =>
      if s.cancelRequest { DrainWaits(s.(aborted := s.aborted - 1), script); }
    case _ =>
  }

  /** In every run each wait that was begun has one handler: it has run, it is queued, or the wait is still in progress. */
  lemma {:induction false} WaitsRun(s: State, steps: seq<Step>)
    requires Possible(s, steps)
    ensures Waits(Run(s, steps)) + HandlersIn(steps) == Waits(s) + BegunIn(s, steps)
    decreases |steps|
  {
    if steps != [] {
      WaitsStep(s, steps[0]);
      assert [steps[0]][1..] == [];
      WaitsRun(Next(s, steps[0]), steps[1..]);
    }
  }

  // ---------------------------------------------------------------- when cancel is safe

  /** A request to drain that no handler will ever see: nothing is armed, nothing is queued to run. */
  predicate Stuck(s: State) { s.cancelRequest && s.armed.None? && s.fired == 0 && s.aborted == 0 }

  /** A stuck timer takes registrations and cancels and never delivers anything again. */
  lemma {:induction false} StuckForever(s: State, steps: seq<Step>)
    requires Stuck(s) && Possible(s, steps)
    ensures Stuck(Run(s, steps)) && Run(s, steps).delivered == s.delivered
    decreases |steps|
  {
    if steps != [] { StuckForever(Next(s, steps[0]), steps[1..]); }
  }

  /** Some careful run gets stuck. */
  ghost predicate CanStick(s: State) {
    exists steps :: Possible(s, steps) && CarefulRun(s, steps) && Stuck(Run(s, steps))
  }

  lemma {:induction false} RunPrepend(s: State, step: Step, steps: seq<Step>)
    requires Enabled(s, step) && Possible(Next(s, step), steps)
    ensures Possible(s, [step] + steps) && Run(s, [step] + steps) == Run(Next(s, step), steps)
    ensures CarefulRun(s, [step] + steps) <==> CarefulStep(s, step) && CarefulRun(Next(s, step), steps)
    ensures Calm(s, [step] + steps) <==> CalmStep(s, step) && Calm(Next(s, step), steps)
  {
    assert ([step] + steps)[1..] == steps;
  }

  /** An unseen request outlives the queue when the remaining waits run out one by one. */
  lemma {:induction false} SticksInTheEnd(s: State) returns (steps: seq<Step>)
    requires s.cancelRequest && s.aborted == 0
    ensures Possible(s, steps) && CarefulRun(s, steps) && Stuck(Run(s, steps))
    decreases |s.queue|, s.fired + if s.armed.Some? then 2 else 0
  {
    if s.armed.Some? {
      var tick := Tick(if s.armed.value > s.now then s.armed.value - s.now else 0);
      var s1 := Next(s, tick);
      var rest := SticksInTheEnd(Next(s1, Expire));
      RunPrepend(s1, Expire, rest);
      RunPrepend(s, tick, [Expire] + rest);
      steps := [tick] + ([Expire] + rest);
    } else if s.fired > 0 {
      var rest := SticksInTheEnd(Next(s, RunExpiry([])));
      RunPrepend(s, RunExpiry([]), rest);
      steps := [RunExpiry([])] + rest;
    } else {
      steps := [];
    }
  }

  lemma {:induction false} AttendedNeverSticks(s: State)
    requires Attended(s)
    ensures !CanStick(s)
  {
    forall steps | Possible(s, steps) && CarefulRun(s, steps)
      ensures !Stuck(Run(s, steps))
    {
      AttendedRun(s, steps);
    }
  }

  /** Cancelling from outside is safe exactly when a wait is outstanding. */
  lemma {:induction false} CancelSafeIff(s: State)
    requires Attended(s)
    ensures !CanStick(Cancel(s)) <==> Outstanding(s)
  {
    if Outstanding(s) {
      AttendedNeverSticks(Cancel(s));
    } else {
      var steps := SticksInTheEnd(Cancel(s));
    }
  }

  /** The callback of a successful wait, whatever it does, is safe exactly when it is careful or is not called at all. */
  lemma {:induction false} CallbackSafeIff(s: State, cs: seq<Call>)
    requires Attended(s) && s.fired > 0
    ensures !CanStick(OnExpiry(s, cs)) <==> s.queue == [] || Careful(Called(s), cs)
  {
    if s.queue == [] || Careful(Called(s), cs) {
      AttendedStep(s, RunExpiry(cs));
      AttendedNeverSticks(OnExpiry(s, cs));
    } else {
      InvokeAllHeard(Called(s), cs);
      var steps := SticksInTheEnd(OnExpiry(s, cs));
    }
  }

  /** So a callback that only cancels is safe exactly when a wait is outstanding. */
  lemma {:induction false} CallbackCancelSafeIff(s: State)
    requires Attended(s) && s.fired > 0 && s.queue != []
    ensures !CanStick(OnExpiry(s, [CancelAll])) <==> Outstanding(s)
  {
    CallbackSafeIff(s, [CancelAll]);
    assert [CancelAll][1..] == [];
  }

  /** The callbacks of a drain may cancel whenever they like. */
  lemma {:induction false} DrainSafe(s: State, script: seq<seq<Call>>)
    requires Attended(s) && s.aborted > 0 && AbortEnds(s, script)
    ensures Attended(OnAbort(s, script)) && !CanStick(OnAbort(s, script))
  {
    AttendedStep(s, RunAbort(script));
    AttendedNeverSticks(OnAbort(s, script));
  }

  // ---------------------------------------------------------------- never early

  predicate OnTime(ds: seq<Delivery>) { forall i :: 0 <= i < |ds| && ds[i].ok ==> ds[i].entry.time <= ds[i].at }

  /** The wait in progress is never earlier than the first entry. */
  predicate Covers(s: State) {
    s.armed.Some? ==> (s.queue == [] && !s.cancelRequest) || (s.queue != [] && s.queue[0].time <= s.armed.value)
  }

  predicate Punctual(s: State) {
    && Sorted(s.queue) && OnTime(s.delivered) && Covers(s)
    && s.fired <= 1
    && (s.fired == 1 ==> s.armed.None? && (s.queue == [] || s.queue[0].time <= s.now))
  }

  /**
   A registration from outside that cannot lead to an early delivery: no expiry waits for its handler,
   or the handler will find another entry first, or the entry is due and nothing is armed for it.
   */
  predicate Harmless(s: State, e: Entry) {
    || s.fired == 0
    || (if s.cancelRequest then s.queue != [] || e.time <= s.now else s.queue != [] && s.queue[0].time < e.time)
  }

  predicate CalmStep(s: State, step: Step) { step.UserWait? ==> Harmless(s, step.e) }

  /** Runs in which every registration from outside is harmless. */
  predicate Calm(s: State, steps: seq<Step>)
    requires Possible(s, steps)
    decreases |steps|
  {
    steps == [] || (CalmStep(s, steps[0]) && Calm(Next(s, steps[0]), steps[1..]))
  }

  lemma {:induction false} WaitCovers(s: State, e: Entry)
    requires Sorted(s.queue) && Covers(s)
    ensures Sorted(Wait(s, e).queue) && Covers(Wait(s, e))
  {
    InsertSorted(s.queue, e);
  }

  lemma {:induction false} InvokeAllCovers(s: State, cs: seq<Call>)
    requires Sorted(s.queue) && Covers(s)
    ensures Sorted(InvokeAll(s, cs).queue) && Covers(InvokeAll(s, cs))
    decreases |cs|
  {
    if cs != [] {
      if cs[0].Register? { WaitCovers(s, cs[0].e); }
      InvokeAllCovers(Invoke(s, cs[0]), cs[1..]);
    }
  }

  /** While a request is pending nothing is armed. */
  lemma {:induction false} InvokeAllQuiet(s: State, cs: seq<Call>)
    requires s.cancelRequest
    ensures var t := InvokeAll(s, cs); t.cancelRequest && (t.armed == s.armed || t.armed == None)
    decreases |cs|
  {
    if cs != [] { InvokeAllQuiet(Invoke(s, cs[0]), cs[1..]); }
  }

  lemma {:induction false} DrainQuiet(s: State, script: seq<seq<Call>>)
    requires s.cancelRequest && Sorted(s.queue) && OnTime(s.delivered)
    ensures var t := Drain(s, script); (t.armed == s.armed || t.armed == None) && OnTime(t.delivered)
    decreases |script|
  {
    if s.queue != [] && script != [] {
      InvokeAllQuiet(Popped(s, false), script[0]);
      InvokeAllSorted(Popped(s, false), script[0]);
      DrainQuiet(Deliver(s, false, script[0]), script[1..]);
    }
  }

  /** A harmless registration keeps the promise, even behind an expiry that waits for its handler. */
  lemma {:induction false} WaitPunctual(s: State, e: Entry)
    requires Punctual(s) && Harmless(s, e)
    ensures Punctual(Wait(s, e))
  {
    WaitCovers(s, e);
  }

  lemma {:induction false} PunctualStep(s: State, step: Step)
    requires Punctual(s) && Enabled(s, step) && CalmStep(s, step)
    ensures Punctual(Next(s, step))
  {
    match step
    case UserWait(e) => WaitPunctual(s, e);
    case RunExpiry(cs) =>
      if s.queue != [] {
        InvokeAllSorted(Called(s), cs);
        InvokeAllCovers(Called(s), cs);
      }
    case RunAbort(script) =>
      DrainSorted(s.(aborted := s.aborted - 1), script);
      if s.cancelRequest { DrainQuiet(s.(aborted := s.aborted - 1), script); }
    case _ =>
  }

  /** In every calm run, whatever is cancelled when, no entry is delivered as a success before its time. */
  lemma {:induction false} PunctualRun(s: State, steps: seq<Step>)
    requires Punctual(s) && Possible(s, steps) && Calm(s, steps)
    ensures OnTime(Run(s, steps).delivered)
    decreases |steps|
  {
    if steps != [] {
      PunctualStep(s, steps[0]);
      PunctualRun(Next(s, steps[0]), steps[1..]);
    }
  }

  /** Some calm run delivers an entry before its time. */
  ghost predicate CanBeEarly(s: State) {
    exists steps :: Possible(s, steps) && Calm(s, steps) && !OnTime(Run(s, steps).delivered)
  }

  lemma {:induction false} EarlyPrepend(s: State, step: Step)
    requires Enabled(s, step) && CalmStep(s, step) && CanBeEarly(Next(s, step))
    ensures CanBeEarly(s)
  {
    var t := Next(s, step);
    var steps :| Possible(t, steps) && Calm(t, steps) && !OnTime(Run(t, steps).delivered);
    RunPrepend(s, step, steps);
  }

  /** The handler of an expiry delivers the first entry at once, due or not. */
  lemma {:induction false} EarlyNow(s: State)
    requires s.fired > 0 && s.queue != [] && s.queue[0].time > s.now
    ensures CanBeEarly(s)
  {
    var t := Next(s, RunExpiry([]));
    var d := Delivery(s.queue[0], true, s.now);
    assert t.delivered == s.delivered + [d] && t.delivered[|s.delivered|] == d;
    assert Possible(t, []) && Calm(t, []) && Run(t, []) == t;
    EarlyPrepend(s, RunExpiry([]));
  }

  /** Two expiries that wait for their handlers: in the end one of them meets an entry that is not due. */
  lemma {:induction false} EarlyPair(s: State)
    requires s.fired == 2 && s.armed.None? && !s.cancelRequest && s.queue != []
    ensures CanBeEarly(s)
    decreases |s.queue|
  {
    if s.queue[0].time > s.now {
      EarlyNow(s);
    } else if |s.queue| == 1 {
      LastEarly(s);
    } else {
      var t := Next(s, RunExpiry([]));
      assert t.queue == s.queue[1..] && t.armed == Some(t.queue[0].time) && t.fired == 1;
      if t.queue[0].time > t.now {
        EarlyNow(t);
      } else {
        EarlyPair(Next(t, Expire));
        EarlyPrepend(t, Expire);
      }
      EarlyPrepend(s, RunExpiry([]));
    }
  }

  /** The last callback registers an entry that is far off, and the second expiry delivers it. */
  lemma {:induction false} LastEarly(s: State)
    requires s.fired == 2 && !s.cancelRequest && |s.queue| == 1
    ensures CanBeEarly(s)
  {
    var far := Entry(s.now + 1, 0);
    var cs := [Register(far)];
    var u := InvokeAll(Called(s), cs);
    assert cs[1..] == [] && InvokeAll(Wait(Called(s), far), []) == Wait(Called(s), far);
    assert Called(s).queue == [];
    WaitFront(Called(s), far);
    assert u.queue == [far] && u.fired == 1;
    EarlyNow(Next(s, RunExpiry(cs)));
    EarlyPrepend(s, RunExpiry(cs));
  }

  lemma {:induction false} HarmfulEarly(s: State, e: Entry)
    requires Punctual(s) && !Harmless(s, e)
    ensures CanBeEarly(Wait(s, e))
  {
    var w := Wait(s, e);
    if s.cancelRequest {
      assert w.queue == [e];
      EarlyNow(w);
    } else {
      WaitFront(s, e);
      assert w.queue[0] == e;
      if e.time > s.now {
        EarlyNow(w);
      } else {
        EarlyPair(Next(w, Expire));
        EarlyPrepend(w, Expire);
      }
    }
  }

  /** A registration can lead to an early delivery exactly when it is not harmless. */
  lemma {:induction false} RegisterSafeIff(s: State, e: Entry)
    requires Punctual(s)
    ensures !CanBeEarly(Wait(s, e)) <==> Harmless(s, e)
  {
    if Harmless(s, e) {
      WaitPunctual(s, e);
      forall steps | Possible(Wait(s, e), steps) && Calm(Wait(s, e), steps)
        ensures OnTime(Run(Wait(s, e), steps).delivered)
      {
        PunctualRun(Wait(s, e), steps);
      }
    } else {
      HarmfulEarly(s, e);
    }
  }

  lemma {:induction false} WaitFront(s: State, e: Entry)
    requires !s.cancelRequest && (s.queue == [] || e.time <= s.queue[0].time)
    ensures Wait(s, e) == Arm(s.(queue := [e] + s.queue, registered := s.registered + [e]), e.time)
  {
    assert Insert(s.queue, e) == [e] + s.queue;
  }

  lemma {:induction false} RunAppend(s: State, steps: seq<Step>, step: Step)
    requires Possible(s, steps) && Enabled(Run(s, steps), step)
    ensures Possible(s, steps + [step]) && Run(s, steps + [step]) == Next(Run(s, steps), step)
    decreases |steps|
  {
    if steps == [] {
      assert steps + [step] == [step] && [step][1..] == [];
    } else {
      assert (steps + [step])[0] == steps[0] && (steps + [step])[1..] == steps[1..] + [step];
      RunAppend(Next(s, steps[0]), steps[1..], step);
    }
  }

  /** Two entries of the same time, both expiries queued before the first handler runs. */
  lemma {:induction false} TwoExpiries(a: Entry, b: Entry) returns (steps: seq<Step>)
    requires a.time == b.time == 1
    ensures Possible(START, steps)
    ensures Run(START, steps) == State([b, a], None, 2, 0, false, 1, [a, b], [])
  {
    WaitFront(START, a);
    steps := [];
    RunAppend(START, steps, UserWait(a));
    steps := steps + [UserWait(a)];
    assert Run(START, steps) == State([a], Some(1), 0, 0, false, 0, [a], []);
    RunAppend(START, steps, Tick(1));
    steps := steps + [Tick(1)];
    RunAppend(START, steps, Expire);
    steps := steps + [Expire];
    var s := State([a], None, 1, 0, false, 1, [a], []);
    assert Run(START, steps) == s;
    WaitFront(s, b);
    RunAppend(START, steps, UserWait(b));
    steps := steps + [UserWait(b)];
    assert [b] + [a] == [b, a] && [a] + [b] == [a, b];
    RunAppend(START, steps, Expire);
    steps := steps + [Expire];
  }

  /** The first handler arms the timer for the second entry, the second one leaves that wait behind. */
  lemma {:induction false} LeftBehind(a: Entry, b: Entry) returns (steps: seq<Step>)
    requires a.time == b.time == 1
    ensures Possible(START, steps)
    ensures var s := Run(START, steps);
            s.queue == [] && s.armed == None && s.fired == 1 && s.now == 1 && !s.cancelRequest
  {
    steps := TwoExpiries(a, b);
    var run := RunExpiry([]);
    assert [b, a][1..] == [a] && [a][1..] == [];
    RunAppend(START, steps, run);
    steps := steps + [run];
    assert Run(START, steps).queue == [a] && Run(START, steps).armed == Some(1) && Run(START, steps).fired == 1;
    RunAppend(START, steps, run);
    steps := steps + [run];
    assert Run(START, steps).queue == [] && Run(START, steps).armed == Some(1) && Run(START, steps).fired == 0;
    RunAppend(START, steps, Expire);
    steps := steps + [Expire];
  }

  /**
   Without that discipline it can happen: two expiries queued at once leave a third one behind, and
   an entry registered before that one is handled is delivered at once, however far off its time is.
   */
  lemma {:induction false} EarlyDelivery(c: Entry) returns (steps: seq<Step>)
    requires c.time > 1
    ensures Possible(START, steps) && !OnTime(Run(START, steps).delivered)
  {
    steps := LeftBehind(Entry(1, 0), Entry(1, 1));
    var s := Run(START, steps);
    WaitFront(s, c);
    RunAppend(START, steps, UserWait(c));
    steps := steps + [UserWait(c)];
    assert Run(START, steps).queue == [c];
    RunAppend(START, steps, RunExpiry([]));
    steps := steps + [RunExpiry([])];
    var ds := Run(START, steps).delivered;
    assert ds == s.delivered + [Delivery(c, true, 1)];
    assert ds[|s.delivered|] == Delivery(c, true, 1);
  }

  /** A new timer meets what the theorems about runs ask for. */
  lemma {:induction false} StartState()
    ensures OnceEach(START) && Attended(START) && Punctual(START)
  {
  }

  // ---------------------------------------------------------------- the class

  class Timer {
    var queue: seq<Entry>
    var armed: Option<int>
    var fired: nat
    var aborted: nat
    var cancelRequest: bool
    ghost var now: int
    ghost var registered: seq<Entry>
    ghost var delivered: seq<Delivery>

    ghost function View(): State
      reads this
    {
      State(queue, armed, fired, aborted, cancelRequest, now, registered, delivered)
    }

    constructor ()
      ensures View() == START
    {
      queue, armed, fired, aborted, cancelRequest := [], None, 0, 0, false;
      now, registered, delivered := 0, [], [];
    }

    method ArmAt(time: int)
      modifies this
      ensures View() == Arm(old(View()), time)
    {
      if armed.Some? { aborted := aborted + 1; }
      armed := Some(time);
    }

    /** `async_wait`: finds the place of the deadline and re-arms the timer when it is the first one. */
    method AsyncWait(e: Entry)
      modifies this
      ensures View() == Wait(old(View()), e)
    {
      var p := 0;
      while p < |queue| && queue[p].time < e.time
        invariant p <= |queue| && forall i :: 0 <= i < p ==> queue[i].time < e.time
      {
        p := p + 1;
      }
      LowerBoundAt(queue, e.time, p);
      queue := queue[..p] + [e] + queue[p..];
      registered := registered + [e];
      if p == 0 && !cancelRequest { ArmAt(e.time); }
    }

    /** `cancel`. */
    method CancelAll()
      modifies this
      ensures View() == Cancel(old(View()))
    {
      if armed.Some? { aborted := aborted + 1; }
      armed := None;
      cancelRequest := true;
    }

    /** `ptr->on_run` of the first entry. */
    method RunFirst(ok: bool, cs: seq<Call>)
      requires queue != []
      modifies this
      ensures View() == Deliver(old(View()), ok, cs)
    {
      delivered := delivered + [Delivery(queue[0], ok, now)];
      queue := queue[1..];
      ghost var s := View();
      for i := 0 to |cs|
        invariant InvokeAll(View(), cs[i..]) == InvokeAll(s, cs)
      {
        assert cs[i..][1..] == cs[i + 1..];
        if cs[i].Register? { AsyncWait(cs[i].e); } else { CancelAll(); }
      }
    }

    /** `on_wait` after an expiry. */
    method OnWait(cs: seq<Call>)
      requires fired > 0
      modifies this
      ensures View() == OnExpiry(old(View()), cs)
    {
      fired := fired - 1;
      if queue == [] { return; }
      RunFirst(true, cs);
      if queue == [] { return; }
      ArmAt(queue[0].time);
    }

    /** `on_wait` with an error: drains the queue when that was asked for. */
    method OnWaitAborted(script: seq<seq<Call>>)
      requires aborted > 0 && AbortEnds(View(), script)
      modifies this
      ensures View() == OnAbort(old(View()), script)
    {
      aborted := aborted - 1;
      if cancelRequest {
        ghost var s := View();
        var i := 0;
        while queue != []
          invariant i <= |script| && Drain(View(), script[i..]) == Drain(s, script)
          decreases |script| - i
        {
          assert script[i..][1..] == script[i + 1..];
          RunFirst(false, script[i]);
          i := i + 1;
        }
        cancelRequest := false;
      }
    }
  }

  lemma LowerBoundAt(q: seq<Entry>, time: int, p: nat)
    requires p <= |q| && (forall i :: 0 <= i < p ==> q[i].time < time) && (p < |q| ==> time <= q[p].time)
    ensures LowerBound(q, time) == p
  {
  }
}
