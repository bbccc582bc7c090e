/** The global slot limiter (MemLimit.go): at most `memMax` articles in memory. */
module MemLimiter {
  // A state of the machine holds the limiter's shared fields and, for every caller, the point
  // it has reached inside MemLockWait or memReturn. One event is one critical section, one
  // channel receive or one channel send, so a list of events is an arbitrary interleaving of any
  // number of callers. An event its caller cannot take changes nothing; hence every reachable
  // state is `Exec` of some list.

  import opened Wrappers

  type Item = nat
  type Caller = nat
  type Done = nat   // identity of a `done` channel
  type Stop = nat   // identity of a session's stop channel

  /** The limiter's fields. `memlocked` is the set of items whose memlocked field is 1,
      `closed` the done channels that were closed, `nextDone` the next fresh one. */
  datatype Limiter = Limiter(
    memMax: nat, free: nat, waiting: int,
    memdata: set<Item>, memlocked: set<Item>,
    pending: map<Item, Done>, closed: set<Done>, nextDone: Done)

  /** A call of MemLockWait: its item and its stop channel (None waits forever). */
  datatype Call = Call(item: Item, stop: Option<Stop>)

  datatype Pc =
    | Idle
    | AtTop(call: Call)                    // head of the for loop, no lock held
    | AwaitOther(call: Call, other: Done)  // someone else waits for a slot for this item
    | Registered(call: Call, done: Done)   // pending, before the non-blocking receive
    | Blocked(call: Call, done: Done)      // in the blocking select
    | Got(call: Call, done: Done)          // received a slot, not recorded yet
    | GaveUp(call: Call, done: Done)       // the blocking select chose stop
    | Returned(call: Call, ok: bool)
    | Sending(item: Item)                  // memReturn: removed from memdata, slot not sent yet

  datatype State = State(l: Limiter, stopped: set<Stop>, pcs: map<Caller, Pc>, maker: map<Done, Caller>)

  datatype Action =
    | CallWait(call: Call)
    | Enter            // first critical section of one loop iteration
    | OtherDone        // case <-other
    | OtherStop        // case <-stop while waiting for other
    | FastTake         // case <-m.memchan of the first select
    | FastMiss         // its default branch
    | SlowTake         // case <-m.memchan of the inner select
    | SlowStop         // case <-stop of the inner select
    | Record           // last critical section of MemLockWait
    | Remove(item: Item) // memReturn's critical section
    | Send             // memReturn's send
    | CloseStop(stop: Stop)

  datatype Event = Event(c: Caller, a: Action)

  function NewLimiter(value: int): (l: Limiter)
    ensures l.memMax > 0 && l.free == l.memMax
  {
    var max := if value <= 0 then 2 else value;
    Limiter(max, max, 0, {}, {}, map[], {}, 0)
  }

  function Init(value: int): State { State(NewLimiter(value), {}, map[], map[]) }

  function PcOf(s: State, c: Caller): Pc { if c in s.pcs then s.pcs[c] else Idle }

  function Goto(s: State, c: Caller, pc: Pc): State { s.(pcs := s.pcs[c := pc]) }

  /** The critical sections, on the limiter's fields alone. */
  function Register(l: Limiter, item: Item): Limiter {
    l.(pending := l.pending[item := l.nextDone], waiting := l.waiting + 1, nextDone := l.nextDone + 1)
  }

  function Settle(l: Limiter, item: Item, got: bool, done: Done): Limiter {
    l.(waiting := l.waiting - 1, pending := l.pending - {item},
       memdata := if got then l.memdata + {item} else l.memdata,
       memlocked := if got then l.memlocked + {item} else l.memlocked,
       closed := l.closed + {done})
  }

  function Release(l: Limiter, item: Item): Limiter {
    l.(memdata := l.memdata - {item}, memlocked := l.memlocked - {item})
  }

  /** The send of memReturn; its default branch (channel full) drops the slot. */
  function SendSlot(l: Limiter): Limiter {
    if l.free < l.memMax then l.(free := l.free + 1) else l
  }

  predicate Stopping(s: State, call: Call) { call.stop.Some? && call.stop.value in s.stopped }

  function Apply(s: State, e: Event): State {
    var pc := PcOf(s, e.c);
    match e.a
    case CallWait(call) => if pc.Idle? || pc.Returned? then Goto(s, e.c, AtTop(call)) else s
    case Enter =>
      if !pc.AtTop? then s
      else if pc.call.item in s.l.memdata then Goto(s, e.c, Returned(pc.call, true))
      else if pc.call.item in s.l.pending then Goto(s, e.c, AwaitOther(pc.call, s.l.pending[pc.call.item]))
      else Goto(s, e.c, Registered(pc.call, s.l.nextDone))
           .(l := Register(s.l, pc.call.item), maker := s.maker[s.l.nextDone := e.c])
    case OtherDone => if pc.AwaitOther? && pc.other in s.l.closed then Goto(s, e.c, AtTop(pc.call)) else s
    case OtherStop => if pc.AwaitOther? && Stopping(s, pc.call) then Goto(s, e.c, Returned(pc.call, false)) else s
    case FastTake =>
      if pc.Registered? && s.l.free > 0
      then Goto(s, e.c, Got(pc.call, pc.done)).(l := s.l.(free := s.l.free - 1)) else s
    case FastMiss => if pc.Registered? && s.l.free == 0 then Goto(s, e.c, Blocked(pc.call, pc.done)) else s
    case SlowTake =>
      if pc.Blocked? && s.l.free > 0
      then Goto(s, e.c, Got(pc.call, pc.done)).(l := s.l.(free := s.l.free - 1)) else s
    case SlowStop => if pc.Blocked? && Stopping(s, pc.call) then Goto(s, e.c, GaveUp(pc.call, pc.done)) else s
    case Record =>
      if pc.Got? || pc.GaveUp?
      then Goto(s, e.c, Returned(pc.call, pc.Got?)).(l := Settle(s.l, pc.call.item, pc.Got?, pc.done)) else s
    case Remove(item) =>
      if (pc.Idle? || pc.Returned?) && item in s.l.memdata
      then Goto(s, e.c, Sending(item)).(l := Release(s.l, item)) else s
    case Send => if pc.Sending? then Goto(s, e.c, Idle).(l := SendSlot(s.l)) else s
    case CloseStop(stop) => s.(stopped := s.stopped + {stop})
  }

  function Exec(s: State, es: seq<Event>): State {
    if es == [] then s else Apply(Exec(s, es[..|es| - 1]), es[|es| - 1])
  }

  // --- the invariant -------------------------------------------------------

  predicate Waits(pc: Pc) { pc.Registered? || pc.Blocked? || pc.Got? || pc.GaveUp? }

  function InFlight(s: State): set<Caller> {
    set c | c in s.pcs && (s.pcs[c].Got? || s.pcs[c].Sending?)
  }

  /** Every slot is free, recorded, or in the hands of exactly one caller in mid-step. */
  predicate Conserved(s: State) { s.l.free + |s.l.memdata| + |InFlight(s)| == s.l.memMax }

  /** A pending entry belongs to the call that made its channel and still waits. */
  ghost predicate EntriesOk(s: State) {
    forall i <- s.l.pending ::
      var d := s.l.pending[i];
      && d < s.l.nextDone && d !in s.l.closed
      && d in s.maker && s.maker[d] in s.pcs
      && Waits(s.pcs[s.maker[d]]) && s.pcs[s.maker[d]].done == d && s.pcs[s.maker[d]].call.item == i
  }

  /** A call that waits has its pending entry. */
  ghost predicate WaitersOk(s: State) {
    forall c <- s.pcs | Waits(s.pcs[c]) ::
      && s.pcs[c].call.item in s.l.pending && s.l.pending[s.pcs[c].call.item] == s.pcs[c].done
      && s.pcs[c].done in s.maker && s.maker[s.pcs[c].done] == c
  }

  ghost predicate PendingOk(s: State) {
    s.l.pending.Keys !! s.l.memdata && s.l.waiting == |s.l.pending| && EntriesOk(s) && WaitersOk(s)
  }

  ghost predicate NobodyForgotten(s: State) {
    forall c <- s.pcs | s.pcs[c].AwaitOther? ::
      s.pcs[c].other in s.l.closed ||
      (s.pcs[c].call.item in s.l.pending && s.l.pending[s.pcs[c].call.item] == s.pcs[c].other)
  }

  ghost predicate StopHonest(s: State) {
    forall c <- s.pcs | s.pcs[c].GaveUp? || (s.pcs[c].Returned? && !s.pcs[c].ok) :: Stopping(s, s.pcs[c].call)
  }

  ghost predicate Inv(s: State) {
    && Conserved(s) && s.l.memlocked == s.l.memdata
    && PendingOk(s) && NobodyForgotten(s) && StopHonest(s)
    && (forall d <- s.l.closed :: d < s.l.nextDone)
    && (forall d <- s.maker :: d < s.l.nextDone)
  }

  // --- every action keeps the invariant ------------------------------------

  function HoldsSlot(pc: Pc): nat { if pc.Got? || pc.Sending? then 1 else 0 }

  lemma InFlightUpdate(s: State, t: State, c: Caller)
    requires c in t.pcs && t.pcs == s.pcs[c := t.pcs[c]]
    ensures |InFlight(t)| == |InFlight(s)| + HoldsSlot(t.pcs[c]) - HoldsSlot(PcOf(s, c))
  {
    var rest := InFlight(s) - {c};
    assert InFlight(s) == if HoldsSlot(PcOf(s, c)) == 1 then rest + {c} else rest;
    assert InFlight(t) == if HoldsSlot(t.pcs[c]) == 1 then rest + {c} else rest;
  }

  lemma KeepsConserved(s: State, e: Event)
    requires Conserved(s)
    requires PcOf(s, e.c).Got? ==> PcOf(s, e.c).call.item !in s.l.memdata
    ensures Conserved(Apply(s, e))
  {
    var t := Apply(s, e);
    if t == s || e.a.CloseStop? {
      assert InFlight(t) == InFlight(s);
    } else {
      InFlightUpdate(s, t, e.c);
    }
  }

  /** A step that leaves the queue of waiting items alone keeps its bookkeeping. */
  lemma KeepsPendingFrame(s: State, t: State, c: Caller)
    requires PendingOk(s) && c in t.pcs && t.pcs == s.pcs[c := t.pcs[c]] && t.maker == s.maker
    requires t.l.pending == s.l.pending && t.l.waiting == s.l.waiting
             && t.l.nextDone == s.l.nextDone && t.l.closed == s.l.closed
    requires t.l.memdata <= s.l.memdata
    requires Waits(PcOf(s, c)) == Waits(t.pcs[c])
    requires Waits(t.pcs[c]) ==> t.pcs[c].call == PcOf(s, c).call && t.pcs[c].done == PcOf(s, c).done
    ensures PendingOk(t)
  {}

  lemma KeepsPendingRegister(s: State, c: Caller, call: Call)
    requires PendingOk(s) && PcOf(s, c) == AtTop(call)
    requires forall d <- s.l.closed :: d < s.l.nextDone
    requires call.item !in s.l.memdata && call.item !in s.l.pending
    ensures PendingOk(Apply(s, Event(c, Enter)))
  {
    var t := Apply(s, Event(c, Enter));
    RegisterStep(s, c, call);
    hide Apply;
    RegisterEntries(s, t, c, call);
    RegisterWaiters(s, t, c, call);
    hide EntriesOk, WaitersOk;
    assert t.l.pending.Keys == s.l.pending.Keys + {call.item};
  }

  function Registering(s: State, c: Caller, call: Call): State {
    State(Register(s.l, call.item), s.stopped, s.pcs[c := Registered(call, s.l.nextDone)], s.maker[s.l.nextDone := c])
  }

  lemma RegisterEntries(s: State, t: State, c: Caller, call: Call)
    requires EntriesOk(s) && PcOf(s, c) == AtTop(call) && t == Registering(s, c, call)
    requires forall d <- s.l.closed :: d < s.l.nextDone
    ensures EntriesOk(t)
  {}

  lemma RegisterWaiters(s: State, t: State, c: Caller, call: Call)
    requires EntriesOk(s) && WaitersOk(s) && call.item !in s.l.pending && t == Registering(s, c, call)
    ensures WaitersOk(t)
  {
    forall d <- t.pcs | Waits(t.pcs[d])
      ensures t.pcs[d].call.item in t.l.pending && t.l.pending[t.pcs[d].call.item] == t.pcs[d].done
      ensures t.pcs[d].done in t.maker && t.maker[t.pcs[d].done] == d
    {
      if d != c { assert s.pcs[d] == t.pcs[d] && s.l.pending[s.pcs[d].call.item] < s.l.nextDone; }
    }
  }

  lemma RegisterStep(s: State, c: Caller, call: Call)
    requires PcOf(s, c) == AtTop(call) && call.item !in s.l.memdata && call.item !in s.l.pending
    ensures Apply(s, Event(c, Enter)) == Registering(s, c, call)
  {}

  lemma KeepsPendingRecord(s: State, c: Caller)
    requires PendingOk(s) && (PcOf(s, c).Got? || PcOf(s, c).GaveUp?)
    ensures PendingOk(Apply(s, Event(c, Record)))
  {
    var t, pc := Apply(s, Event(c, Record)), PcOf(s, c);
    assert t.l.pending.Keys == s.l.pending.Keys - {pc.call.item};
    forall i <- t.l.pending
      ensures t.l.pending[i] != pc.done
    {
      assert s.l.pending[i] == t.l.pending[i] && s.maker[s.l.pending[i]] != c;
    }
  }

  lemma KeepsPendingStop(s: State, e: Event)
    requires PendingOk(s) && e.a.CloseStop?
    ensures PendingOk(Apply(s, e))
  {}

  lemma KeepsPending(s: State, e: Event)
    requires PendingOk(s) && forall d <- s.l.closed :: d < s.l.nextDone
    ensures PendingOk(Apply(s, e))
  {
    hide PendingOk;
    var t, pc := Apply(s, e), PcOf(s, e.c);
    if e.a.CloseStop? {
      KeepsPendingStop(s, e);
    } else if t == s {
    } else if e.a.Record? {
      KeepsPendingRecord(s, e.c);
    } else if e.a.Enter? && pc.call.item !in s.l.memdata && pc.call.item !in s.l.pending {
      KeepsPendingRegister(s, e.c, pc.call);
    } else {
      KeepsPendingFrame(s, t, e.c);
    }
  }

  lemma KeepsNobodyForgotten(s: State, e: Event)
    requires NobodyForgotten(s)
    requires var pc := PcOf(s, e.c); Waits(pc) ==> pc.call.item in s.l.pending && s.l.pending[pc.call.item] == pc.done
    ensures NobodyForgotten(Apply(s, e))
  {
    var t := Apply(s, e);
    forall c <- t.pcs | t.pcs[c].AwaitOther?
      ensures t.pcs[c].other in t.l.closed
           || (t.pcs[c].call.item in t.l.pending && t.l.pending[t.pcs[c].call.item] == t.pcs[c].other)
    {
      if c != e.c || e.a.CloseStop? {
        assert c in s.pcs && s.pcs[c] == t.pcs[c];
      }
    }
  }

  lemma KeepsStopHonest(s: State, e: Event)
    requires StopHonest(s)
    ensures StopHonest(Apply(s, e))
  {}

  lemma ApplyKeepsInv(s: State, e: Event)
    requires Inv(s)
    ensures Inv(Apply(s, e))
  {
    KeepsConserved(s, e);
    KeepsPending(s, e);
    KeepsNobodyForgotten(s, e);
    KeepsStopHonest(s, e);
    KeepsFresh(s, e);
  }

  lemma KeepsFresh(s: State, e: Event)
    requires s.l.memlocked == s.l.memdata
    requires (forall d <- s.l.closed :: d < s.l.nextDone) && (forall d <- s.maker :: d < s.l.nextDone)
    requires Waits(PcOf(s, e.c)) ==> PcOf(s, e.c).done < s.l.nextDone
    ensures var l := Apply(s, e).l; l.memlocked == l.memdata && forall d <- l.closed :: d < l.nextDone
    ensures forall d <- Apply(s, e).maker :: d < Apply(s, e).l.nextDone
  {}

  /** MAIN: the invariant holds in every state any interleaving can reach. */
  lemma {:induction false} Reachable(value: int, es: seq<Event>)
    ensures Inv(Exec(Init(value), es))
  {
    if es == [] {
      assert InFlight(Init(value)) == {};
    } else {
      Reachable(value, es[..|es| - 1]);
      ApplyKeepsInv(Exec(Init(value), es[..|es| - 1]), es[|es| - 1]);
    }
  }

  // --- what the invariant gives ---------------------------------------------

  /** The default branch of memReturn's send ("slot chan is full") is never taken:
      whenever a caller is about to send, the channel has room. */
  lemma SlotChannelNeverFull(value: int, es: seq<Event>, c: Caller)
    requires PcOf(Exec(Init(value), es), c).Sending?
    ensures var l := Exec(Init(value), es).l; l.free < l.memMax && SendSlot(l).free == l.free + 1
  {
    Reachable(value, es);
    assert c in InFlight(Exec(Init(value), es));
  }

  /** An item owns at most one slot, and never waits for one while it owns one; two
      callers never wait for a slot for the same item. */
  lemma OneSlotPerItem(value: int, es: seq<Event>, c: Caller, d: Caller)
    ensures var s := Exec(Init(value), es);
            && s.l.pending.Keys !! s.l.memdata && s.l.waiting == |s.l.pending|
            && s.l.memlocked == s.l.memdata && |s.l.memdata| <= s.l.memMax
            && (Waits(PcOf(s, c)) && Waits(PcOf(s, d)) && PcOf(s, c).call.item == PcOf(s, d).call.item ==> c == d)
  {
    Reachable(value, es);
  }

  /** MemLockWait returns true only at an instant where the item is a recorded owner. */
  lemma TrueMeansRecorded(s: State, e: Event)
    requires var t := Apply(s, e); PcOf(t, e.c) != PcOf(s, e.c) && PcOf(t, e.c).Returned? && PcOf(t, e.c).ok
    ensures PcOf(Apply(s, e), e.c).call.item in Apply(s, e).l.memdata
  {}

  /** No MemReturn of the item between steps k and j of a run. */
  predicate NotReturned(es: seq<Event>, item: Item, k: nat, j: nat)
    requires j <= |es|
  {
    forall m | k < m < j :: es[m].a != Remove(item)
  }

  lemma KeptUnlessRemoved(s: State, e: Event, item: Item)
    requires item in s.l.memdata && e.a != Remove(item)
    ensures item in Apply(s, e).l.memdata
  {}

  /** A call that returned true: from that step on its item owns a slot, until a MemReturn of it. */
  lemma {:induction false} OwnsUntilReturned(value: int, es: seq<Event>, c: Caller) returns (k: nat)
    requires var pc := PcOf(Exec(Init(value), es), c); pc.Returned? && pc.ok
    ensures k < |es| && es[k].c == c
    ensures var call := PcOf(Exec(Init(value), es), c).call;
            && PcOf(Exec(Init(value), es[..k]), c) != Returned(call, true) == PcOf(Exec(Init(value), es[..k + 1]), c)
            && forall j | k < j <= |es| && NotReturned(es, call.item, k, j) ::
               call.item in Exec(Init(value), es[..j]).l.memdata
  {
    hide Apply;
    var front, e := es[..|es| - 1], es[|es| - 1];
    var s, pc := Exec(Init(value), front), PcOf(Exec(Init(value), es), c);
    assert es[..|es|] == es;
    if PcOf(s, c) == pc {
      k := OwnsUntilReturned(value, front, c);
      assert front[..k] == es[..k] && front[..k + 1] == es[..k + 1];
      forall j | k < j <= |es| && NotReturned(es, pc.call.item, k, j)
        ensures pc.call.item in Exec(Init(value), es[..j]).l.memdata
      {
        var i := if j < |es| then j else |front|;
        assert NotReturned(front, pc.call.item, k, i) && front[..i] == es[..i];
        if j == |es| && i > k { KeptUnlessRemoved(s, e, pc.call.item); }
      }
    } else {
      k := |es| - 1;
      assert e.c == c by { OthersStay(s, e, c); }
      TrueMeansRecorded(s, e);
    }
  }

  lemma OthersStay(s: State, e: Event, c: Caller)
    ensures e.c != c ==> PcOf(Apply(s, e), c) == PcOf(s, c)
  {}

  predicate Trying(pc: Pc) { pc.Registered? || pc.Blocked? || pc.GaveUp? }

  /** The item owns no slot, and none is in the caller's hands. */
  predicate OwnsNothing(s: State, c: Caller, item: Item) { item !in s.l.memdata && c !in InFlight(s) }

  lemma TryingOwnsNothing(s: State, c: Caller)
    requires Inv(s) && Trying(PcOf(s, c))
    ensures OwnsNothing(s, c, PcOf(s, c).call.item)
  {}

  lemma TryingStep(s: State, e: Event, c: Caller)
    requires Trying(PcOf(Apply(s, e), c))
    ensures e == Event(c, Enter) || (Trying(PcOf(s, c)) && PcOf(s, c).call == PcOf(Apply(s, e), c).call)
  {}

  lemma TryingEnds(s: State, c: Caller)
    requires PcOf(s, c).GaveUp?
    ensures var t := Apply(s, Event(c, Record));
            && PcOf(t, c) == Returned(PcOf(s, c).call, false) && t.l.free == s.l.free && t.l.memdata == s.l.memdata
            && (Inv(s) ==> OwnsNothing(t, c, PcOf(s, c).call.item))
  {}

  predicate OwnedNothing(value: int, es: seq<Event>, k: nat, c: Caller, item: Item) {
    forall j | k < j <= |es| :: OwnsNothing(Exec(Init(value), es[..j]), c, item)
  }

  lemma OwnedNothingLonger(value: int, es: seq<Event>, e: Event, k: nat, c: Caller, item: Item)
    requires k <= |es| && OwnsNothing(Exec(Init(value), es + [e]), c, item)
    requires k == |es| || OwnedNothing(value, es, k, c, item)
    ensures OwnedNothing(value, es + [e], k, c, item)
  {
    hide Exec, OwnsNothing;
    var all := es + [e];
    assert all[..|all|] == all && forall j | 0 <= j <= |es| :: all[..j] == es[..j];
  }

  lemma ExecLast(value: int, es: seq<Event>)
    ensures es == [] ==> Exec(Init(value), es).pcs == map[]
    ensures es != [] ==> Exec(Init(value), es) == Apply(Exec(Init(value), es[..|es| - 1]), es[|es| - 1])
  {
    hide Apply;
  }

  lemma {:induction false} TryingSince(value: int, es: seq<Event>, c: Caller) returns (k: nat)
    requires Trying(PcOf(Exec(Init(value), es), c))
    ensures k < |es| && es[k] == Event(c, Enter)
    ensures OwnedNothing(value, es, k, c, PcOf(Exec(Init(value), es), c).call.item)
  {
    Reachable(value, es);
    TryingOwnsNothing(Exec(Init(value), es), c);
    ExecLast(value, es);
    hide Inv, Apply, Exec, OwnsNothing, OwnedNothing;
    var front, e := es[..|es| - 1], es[|es| - 1];
    assert es == front + [e];
    TryingStep(Exec(Init(value), front), e, c);
    k := |es| - 1;
    if e != Event(c, Enter) { k := TryingSince(value, front, c); }
    OwnedNothingLonger(value, front, e, k, c, PcOf(Exec(Init(value), es), c).call.item);
  }

  /** A call that gives up: from its registration on, through its return, its item never owns a
      slot, none is in its hands, and its return moves none. */
  lemma GaveUpOwnsNothing(value: int, es: seq<Event>, c: Caller) returns (k: nat)
    requires PcOf(Exec(Init(value), es), c).GaveUp?
    ensures k < |es| && es[k] == Event(c, Enter)
    ensures var (s, t) := (Exec(Init(value), es), Exec(Init(value), es + [Event(c, Record)]));
            var item := PcOf(s, c).call.item;
            && OwnedNothing(value, es, k, c, item)
            && PcOf(t, c) == Returned(PcOf(s, c).call, false) && OwnsNothing(t, c, item)
            && t.l.free == s.l.free && t.l.memdata == s.l.memdata
  {
    k := TryingSince(value, es, c);
    TryingEnds(Exec(Init(value), es), c);
    Reachable(value, es);
    ExecLast(value, es + [Event(c, Record)]);
    assert (es + [Event(c, Record)])[..|es|] == es;
    hide Inv, Apply, Exec, OwnsNothing, OwnedNothing;
  }

  /** MemLockWait returns false only if its stop channel is closed; the call then left
      nothing behind: no slot in transit, no pending entry, no open done channel. */
  lemma FalseMeansStopped(value: int, es: seq<Event>, c: Caller)
    requires var pc := PcOf(Exec(Init(value), es), c); pc.Returned? && !pc.ok
    ensures var s := Exec(Init(value), es);
            && Stopping(s, PcOf(s, c).call) && c !in InFlight(s)
            && forall i <- s.l.pending :: s.l.pending[i] in s.maker && s.maker[s.l.pending[i]] != c
  {
    Reachable(value, es);
  }

  lemma MissStep(s: State, e: Event, c: Caller)
    requires var q := PcOf(Apply(s, e), c); q.Blocked? || q.GaveUp?
    ensures var (p, q) := (PcOf(s, c), PcOf(Apply(s, e), c));
            if e == Event(c, FastMiss) && p.Registered? then s.l.free == 0 && p == Registered(q.call, q.done)
            else (p.Blocked? || p.GaveUp?) && p.call == q.call && p.done == q.done
  {}

  /** Nobody waits in vain: a call that waits for another's attempt goes on when that is over, one that
      waits for a slot gets one that is free, and both can leave when their session is stopped. */
  lemma WaitsEnd(s: State, c: Caller)
    ensures var pc := PcOf(s, c);
            && (pc.AwaitOther? && pc.other in s.l.closed ==> PcOf(Apply(s, Event(c, OtherDone)), c) == AtTop(pc.call))
            && (pc.Registered? && s.l.free > 0 ==> PcOf(Apply(s, Event(c, FastTake)), c) == Got(pc.call, pc.done))
            && (pc.Registered? && s.l.free == 0 ==> PcOf(Apply(s, Event(c, FastMiss)), c) == Blocked(pc.call, pc.done))
            && (pc.Blocked? && s.l.free > 0 ==> PcOf(Apply(s, Event(c, SlowTake)), c) == Got(pc.call, pc.done))
  {}

  lemma StopsEnd(s: State, c: Caller, d: Caller, st: Stop)
    ensures var (pc, t) := (PcOf(s, c), Apply(s, Event(d, CloseStop(st))));
            && (pc.AwaitOther? && pc.call.stop == Some(st) ==>
                  PcOf(Apply(t, Event(c, OtherStop)), c) == Returned(pc.call, false))
            && (pc.Blocked? && pc.call.stop == Some(st) ==>
                  PcOf(Apply(t, Event(c, SlowStop)), c) == GaveUp(pc.call, pc.done))
  {}

  /** ... and no sooner: a call leaves its wait only when what it waits for is there. */
  lemma WaitsUntil(s: State, e: Event, c: Caller)
    requires PcOf(Apply(s, e), c) != PcOf(s, c)
    ensures var (pc, q) := (PcOf(s, c), PcOf(Apply(s, e), c));
            && (pc.AwaitOther? ==> if q.AtTop? then pc.other in s.l.closed
                                   else q == Returned(pc.call, false) && Stopping(s, pc.call))
            && (pc.Blocked? ==> if q.Got? then s.l.free > 0 else q.GaveUp? && Stopping(s, pc.call))
            && (pc.Registered? ==> if q.Got? then s.l.free > 0 else q.Blocked? && s.l.free == 0)
  {}

  /** A caller between its calls can return the slot of an owner, and then it is free. */
  lemma SlotComesBack(value: int, es: seq<Event>, c: Caller, item: Item)
    requires var s := Exec(Init(value), es); item in s.l.memdata && (PcOf(s, c).Idle? || PcOf(s, c).Returned?)
    ensures var s := Exec(Init(value), es);
            var t := Apply(Apply(s, Event(c, Remove(item))), Event(c, Send));
            t.l.free == s.l.free + 1 && t.l.memdata == s.l.memdata - {item} && PcOf(t, c).Idle?
  {
    var a := es + [Event(c, Remove(item))];
    ExecLast(value, a);
    assert a[..|es|] == es;
    var s := Apply(Exec(Init(value), es), Event(c, Remove(item)));
    assert PcOf(s, c).Sending? && s.l.free == Exec(Init(value), es).l.free;
    SlotChannelNeverFull(value, a, c);
    hide Exec;
  }

  /** A closed stop never wins over a free slot: a caller that gave up looked at the
      channel after registering, at a moment when no slot was free. */
  lemma {:induction false} GaveUpOnlyAfterMiss(value: int, es: seq<Event>, c: Caller) returns (k: nat)
    requires var pc := PcOf(Exec(Init(value), es), c); pc.Blocked? || pc.GaveUp?
    ensures k < |es| && es[k] == Event(c, FastMiss)
    ensures var s, pc := Exec(Init(value), es[..k]), PcOf(Exec(Init(value), es), c);
            s.l.free == 0 && PcOf(s, c) == Registered(pc.call, pc.done)
  {
    ExecLast(value, es);
    hide Exec, Apply;
    var front, e := es[..|es| - 1], es[|es| - 1];
    MissStep(Exec(Init(value), front), e, c);
    if e == Event(c, FastMiss) && PcOf(Exec(Init(value), front), c).Registered? {
      k := |es| - 1;
    } else {
      k := GaveUpOnlyAfterMiss(value, front, c);
      assert front[..k] == es[..k];
    }
  }

  /** Nobody is forgotten: a caller waiting for another one's attempt either can go on
      (that done channel is closed) or the attempt is still under way by exactly the caller
      that made the channel, which will close it, once. */
  lemma AwaitedAttemptIsAlive(value: int, es: seq<Event>, c: Caller)
    requires PcOf(Exec(Init(value), es), c).AwaitOther?
    requires PcOf(Exec(Init(value), es), c).other !in Exec(Init(value), es).l.closed
    ensures var s := Exec(Init(value), es);
            var o := PcOf(s, c).other;
            && o in s.maker && Waits(PcOf(s, s.maker[o]))
            && PcOf(s, s.maker[o]).done == o && PcOf(s, s.maker[o]).call.item == PcOf(s, c).call.item
  {
    Reachable(value, es);
  }

  lemma DoneClosedOnce(value: int, es: seq<Event>, c: Caller)
    requires Waits(PcOf(Exec(Init(value), es), c))
    ensures PcOf(Exec(Init(value), es), c).done !in Exec(Init(value), es).l.closed
  {
    Reachable(value, es);
  }

  /** A caller can only be stuck in the blocking select when every slot has an owner or
      is on its way to one (or back). */
  lemma StuckMeansAllOwned(value: int, es: seq<Event>)
    requires Exec(Init(value), es).l.free == 0
    ensures var s := Exec(Init(value), es); |s.l.memdata| + |InFlight(s)| == s.l.memMax > 0
  {
    Reachable(value, es);
    MemMaxConst(value, es);
  }

  lemma {:induction false} MemMaxConst(value: int, es: seq<Event>)
    ensures Exec(Init(value), es).l.memMax == NewLimiter(value).memMax
  {
    if es != [] { MemMaxConst(value, es[..|es| - 1]); }
  }

  /** The limit asked for; without one it is two. */
  function Limit(value: int): nat { if value > 0 then value else 2 }

  /** MAIN: in every run at most so many items own a slot or are about to ... */
  lemma AtMostLimit(value: int, es: seq<Event>)
    ensures var s := Exec(Init(value), es); |s.l.memdata| + |InFlight(s)| <= Limit(value)
  {
    Reachable(value, es);
    MemMaxConst(value, es);
  }

  /** A caller takes a slot for an item. */
  function TakeSlot(n: nat): seq<Event> {
    [Event(n, CallWait(Call(n, None))), Event(n, Enter), Event(n, FastTake), Event(n, Record)]
  }

  function TakeSlots(n: nat): seq<Event> { if n == 0 then [] else TakeSlots(n - 1) + TakeSlot(n - 1) }

  /** Items 0 to n - 1 own a slot, nobody else has begun. */
  ghost predicate Filled(s: State, value: int, n: nat) {
    && n <= Limit(value) && s.l.free == Limit(value) - n
    && (forall i: nat :: i in s.l.memdata <==> i < n) && |s.l.memdata| == n
    && s.l.pending == map[] && (forall c: nat :: c >= n ==> c !in s.pcs)
  }

  lemma TakeOne(s: State, value: int, n: nat)
    requires Filled(s, value, n) && n < Limit(value)
    ensures var a := Apply(s, TakeSlot(n)[0]);
            var b := Apply(a, TakeSlot(n)[1]);
            var c := Apply(b, TakeSlot(n)[2]);
            Filled(Apply(c, TakeSlot(n)[3]), value, n + 1)
  {
    var a := Apply(s, TakeSlot(n)[0]);
    assert PcOf(a, n) == AtTop(Call(n, None));
    var b := Apply(a, TakeSlot(n)[1]);
    assert PcOf(b, n) == Registered(Call(n, None), s.l.nextDone) && b.l.memdata == s.l.memdata && b.l.free == s.l.free;
    var c := Apply(b, TakeSlot(n)[2]);
    assert PcOf(c, n) == Got(Call(n, None), s.l.nextDone);
    var t := Apply(c, TakeSlot(n)[3]);
    assert t.l.pending == map[] && t.l.memdata == s.l.memdata + {n};
    hide Apply;
    assert |s.l.memdata + {n}| == n + 1;
  }

  lemma ExecFour(value: int, es: seq<Event>, four: seq<Event>)
    requires |four| == 4
    ensures Exec(Init(value), es + four)
            == Apply(Apply(Apply(Apply(Exec(Init(value), es), four[0]), four[1]), four[2]), four[3])
  {
    hide Apply;
    var all := es + four;
    ExecLast(value, all);
    ExecLast(value, es + four[..3]);
    ExecLast(value, es + four[..2]);
    ExecLast(value, es + four[..1]);
    hide Exec;
    assert all[..|es| + 3] == es + four[..3] && (es + four[..3])[..|es| + 2] == es + four[..2];
    assert (es + four[..2])[..|es| + 1] == es + four[..1] && (es + four[..1])[..|es|] == es;
  }

  /** ... and so many can: the run in which they do. */
  lemma {:induction false} LimitReached(value: int, n: nat)
    requires n <= Limit(value)
    ensures Filled(Exec(Init(value), TakeSlots(n)), value, n)
  {
    if n > 0 {
      LimitReached(value, n - 1);
      ExecFour(value, TakeSlots(n - 1), TakeSlot(n - 1));
      TakeOne(Exec(Init(value), TakeSlots(n - 1)), value, n - 1);
      hide Exec, Apply, Filled;
    }
  }

  /** Once the session's calls are through, every slot is free or recorded: what ReleaseMemSlots
      starts from. */
  lemma QuietMeansRecorded(value: int, es: seq<Event>)
    requires forall c <- Exec(Init(value), es).pcs ::
               var pc := Exec(Init(value), es).pcs[c]; !pc.Got? && !pc.Sending?
    ensures var l := Exec(Init(value), es).l; l.free + |l.memdata| == l.memMax && l.memlocked == l.memdata
  {
    Reachable(value, es);
    assert InFlight(Exec(Init(value), es)) == {};
  }

  // --- the object --------------------------------------------------------------

  datatype Entry = Held | Wait(other: Done) | Mine(done: Done)

  function ToSet(items: seq<Item>): set<Item> { set i <- items }

  lemma ReleaseStep(had: set<Item>, items: seq<Item>, k: nat)
    requires k < |items|
    ensures var left, x := had - ToSet(items[..k]), items[k];
            && had - ToSet(items[..k + 1]) == left - {x}
            && |had * ToSet(items[..k + 1])| == |had * ToSet(items[..k])| + (if x in left then 1 else 0)
            && |left - {x}| == |left| - (if x in left then 1 else 0)
  {
    var x, before := items[k], had * ToSet(items[..k]);
    assert ToSet(items[..k + 1]) == ToSet(items[..k]) + {x};
    assert had * ToSet(items[..k + 1]) == if x in had - ToSet(items[..k]) then before + {x} else before;
    assert x !in had - ToSet(items[..k]) ==> had - ToSet(items[..k]) - {x} == had - ToSet(items[..k]);
  }

  /** The limiter as the source keeps it: each method is one critical section or one
      channel operation, and its postcondition is the machine's step on the fields. */
  class MemLimiter {
    const memMax: nat
    var free: nat                 // len(memchan)
    var waiting: int
    var memdata: set<Item>
    var memlocked: set<Item>
    var pending: map<Item, Done>
    var closed: set<Done>
    var nextDone: Done

    function Fields(): Limiter
      reads this
    {
      Limiter(memMax, free, waiting, memdata, memlocked, pending, closed, nextDone)
    }

    constructor (value: int)
      ensures Fields() == NewLimiter(value)
    {
      memMax := if value <= 0 then 2 else value;
      free := if value <= 0 then 2 else value;
      waiting, memdata, memlocked, pending, closed, nextDone := 0, {}, {}, map[], {}, 0;
    }

    method MemAvail() returns (ok: bool)
      ensures ok == (Fields().waiting < Fields().memMax)
    {
      ok := waiting < memMax;
    }

    method EnterWait(item: Item) returns (e: Entry)
      modifies this
      ensures e.Held? <==> item in old(memdata)
      ensures e.Wait? ==> item in old(pending) && e.other == old(pending)[item]
      ensures e.Mine? ==> item !in old(pending) && e.done == old(nextDone)
      ensures Fields() == if e.Mine? then Register(old(Fields()), item) else old(Fields())
    {
      if item in memdata { return Held; }
      if item in pending { return Wait(pending[item]); }
      e := Mine(nextDone);
      pending := pending[item := nextDone];
      waiting, nextDone := waiting + 1, nextDone + 1;
    }

    method TryReceive() returns (got: bool)
      modifies this`free
      ensures got == (old(free) > 0)
      ensures free == if got then old(free) - 1 else old(free)
    {
      got := free > 0;
      if got { free := free - 1; }
    }

    method FinishWait(item: Item, got: bool, done: Done)
      modifies this
      ensures Fields() == Settle(old(Fields()), item, got, done)
    {
      waiting := waiting - 1;
      pending := pending - {item};
      if got {
        memdata := memdata + {item};
        memlocked := memlocked + {item};
      }
      closed := closed + {done};
    }

    method MemReturn(item: Item) returns (returned: bool)
      modifies this
      ensures returned == (item in old(memdata))
      ensures Fields() == if returned then SendSlot(Release(old(Fields()), item)) else old(Fields())
    {
      if item !in memdata { return false; }
      memdata := memdata - {item};
      memlocked := memlocked - {item};
      if free < memMax { free := free + 1; }
      returned := true;
    }

    /** Session teardown: once no worker is left (nothing in transit), no item of the
        session owns a slot any more and exactly the owned ones came back. */
    method ReleaseMemSlots(items: seq<Item>) returns (released: nat)
      requires free + |memdata| == memMax && memlocked == memdata
      modifies this
      ensures memdata == memlocked == old(memdata) - ToSet(items)
      ensures released == |old(memdata) * ToSet(items)| && free == old(free) + released
      ensures free + |memdata| == memMax
      ensures waiting == old(waiting) && pending == old(pending)
    {
      released := 0;
      ghost var had := memdata;
      for k := 0 to |items|
        invariant memdata == memlocked == had - ToSet(items[..k])
        invariant released == |had * ToSet(items[..k])| && free == old(free) + released
        invariant free + |memdata| == memMax
        invariant waiting == old(waiting) && pending == old(pending)
      {
        ReleaseStep(had, items, k);
        if items[k] in memlocked {
          var _ := MemReturn(items[k]);
          released := released + 1;
        }
      }
      assert items[..|items|] == items;
    }
  }
}
