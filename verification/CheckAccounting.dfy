/** The check phase of a session (Workers.go, Routines.go): what checkedOn of an item means. */
module CheckAccounting {
  // Every provider group has a channel with its own feeder and check routines; every item is to be
  // checked once by every group. One step is one critical section, one channel operation or one
  // atomic operation.

  import opened Wrappers

  // --- state ------------------------------------------------------------------------------------

  const CHECK_ATTEMPTS := 2
  const MAX_CHECK_NO_CONN := 3

  /** What became of an item that was taken out of a group's channel. */
  datatype Fate = Busy | Counted | Dropped

  datatype Pc =
    | Off                                            // its worker has not connected yet
    | Idle(noConn: nat)                              // waits on the channel
    | Took(item: nat, noConn: nat)                   // before the stop check
    | Trying(item: nat, attempt: nat, noConn: nat)   // GoCheckRoutine
    | Failing(item: nat, unconnected: bool, noConn: nat) // about to call markCheckFailed
    | After(unconnected: bool, noConn: nat)          // checkItem has returned
    | Leaving                                        // about to run checkersExit
    | Closing                                        // its Add reached 0, about to close gone
    | Gone

  datatype Feeder = Feeding | Emptying | Closed

  /** One provider group; `size` is the number of its providers. The channel holds the items
      taken..fed. `fates` is history. */
  datatype Group = Group(size: nat, cap: nat, feeder: Feeder, taken: nat, fed: nat, left: int, gone: bool,
                         fates: seq<Fate>, pcs: seq<Pc>)

  /** `checkedOn` is the field of each item. */
  datatype State = State(groups: seq<Group>, checkedOn: seq<nat>, stop: bool)

  /** A group before the workers start: one check routine per connection. */
  function NewGroup(size: nat, cap: nat, conns: nat): Group {
    Group(size, cap, Feeding, 0, 0, conns, false, [], seq(conns, _ => Off))
  }

  predicate Fresh(g: Group) { g.size >= 1 && |g.pcs| >= 1 && g == NewGroup(g.size, g.cap, |g.pcs|) }

  predicate IsInit(s: State) {
    && |s.groups| >= 1 && (forall k | 0 <= k < |s.groups| :: Fresh(s.groups[k]))
    && (forall i | 0 <= i < |s.checkedOn| :: s.checkedOn[i] == 0) && !s.stop
  }

  datatype Action =
    | Feed                       // segmentChanCheck <- item
    | FeedQuit                   // the feeder sees gone or stopChan
    | FeedClose                  // the channel is empty (or gone or stopped): close it
    | Boot(ok: bool)             // GoWorker got its connection, or its check routine never starts
    | Take                       // item, ok := <-segCC
    | StopCheck                  // s.stopped()
    | Count                      // the critical section of GoCheckRoutine, any answer
    | Fail(unconnected: bool)    // GoCheckRoutine returned code 0 and an error
    | MarkFailed                 // the critical section of markCheckFailed
    | Return(down: bool)         // back to the loop, or quit; `down` is provider.isDown()
    | TimeOut                    // idle for 15 seconds
    | SeeClosed                  // the channel is closed and empty
    | ExitAdd                    // left.Add(-1)
    | CloseGone                  // close(gone)
    | StopSession

  datatype Event = Event(g: nat, r: nat, a: Action)

  // --- steps ---------------------------------------------------------------------------------------

  function SetPc(g: Group, r: nat, pc: Pc): Group
    requires r < |g.pcs|
  {
    g.(pcs := g.pcs[r := pc])
  }

  /** The item gets the group's contribution. */
  function Credit(checkedOn: seq<nat>, item: nat, size: nat): seq<nat> {
    if item < |checkedOn| then checkedOn[item := checkedOn[item] + size] else checkedOn
  }

  function SetFate(g: Group, item: nat, f: Fate): Group {
    if item < |g.fates| then g.(fates := g.fates[item := f]) else g
  }

  /** A step of the feeder of group g, with n items. */
  function FeederStep(g: Group, n: nat, stop: bool, a: Action): Group {
    match a
    case Feed => if g.feeder.Feeding? && g.fed < n && g.fed - g.taken < g.cap then g.(fed := g.fed + 1) else g
    case FeedQuit => if g.feeder.Feeding? && (g.fed == n || g.gone || stop) then g.(feeder := Emptying) else g
    case FeedClose =>
      if g.feeder.Emptying? && (g.fed < n || g.taken == g.fed || g.gone || stop) then g.(feeder := Closed) else g
    case _ => g
  }

  /** A step of routine r. */
  function RoutineStep(g: Group, r: nat, stop: bool, a: Action): Group
    requires r < |g.pcs|
  {
    var pc := g.pcs[r];
    match a
    case Boot(ok) => if pc.Off? then SetPc(g, r, if ok then Idle(0) else Leaving) else g
    case Take =>
      if pc.Idle? && g.taken < g.fed
      then SetPc(g, r, Took(g.taken, pc.noConn)).(taken := g.taken + 1, fates := g.fates + [Busy]) else g
    case StopCheck =>
      if !pc.Took? then g
      else if stop then SetPc(SetFate(g, pc.item, Dropped), r, Idle(pc.noConn))
      else SetPc(g, r, Trying(pc.item, 1, pc.noConn))
    case Count => if pc.Trying? then SetPc(SetFate(g, pc.item, Counted), r, After(false, pc.noConn)) else g
    case Fail(unconnected) =>
      if !pc.Trying? then g
      else if unconnected || pc.attempt >= CHECK_ATTEMPTS || stop
          then SetPc(g, r, Failing(pc.item, unconnected, pc.noConn))
      else SetPc(g, r, Trying(pc.item, pc.attempt + 1, pc.noConn))
    case MarkFailed =>
      if pc.Failing? then SetPc(SetFate(g, pc.item, Counted), r, After(pc.unconnected, pc.noConn)) else g
    case Return(down) =>
      if !pc.After? then g
      else if !pc.unconnected || down then SetPc(g, r, Idle(0))
      else if pc.noConn + 1 >= MAX_CHECK_NO_CONN then SetPc(g, r, Leaving)
      else SetPc(g, r, Idle(pc.noConn + 1))
    case TimeOut => if pc.Idle? then SetPc(g, r, Leaving) else g
    case SeeClosed => if pc.Idle? && g.feeder.Closed? && g.taken == g.fed then SetPc(g, r, Leaving) else g
    case ExitAdd =>
      if pc.Leaving? then SetPc(g, r, if g.left - 1 <= 0 then Closing else Gone).(left := g.left - 1) else g
    case CloseGone => if pc.Closing? then SetPc(g, r, Gone).(gone := true) else g
    case _ => g
  }

  /** The item a step of routine r credits, if any. */
  function Credited(g: Group, r: nat, a: Action): Option<nat>
    requires r < |g.pcs|
  {
    if (a.Count? && g.pcs[r].Trying?) || (a.MarkFailed? && g.pcs[r].Failing?) then Some(g.pcs[r].item) else None
  }

  function GroupStep(g: Group, n: nat, stop: bool, r: nat, a: Action): Group {
    if a.Feed? || a.FeedQuit? || a.FeedClose? then FeederStep(g, n, stop, a)
    else if r < |g.pcs| then RoutineStep(g, r, stop, a)
    else g
  }

  function Apply(s: State, e: Event): State {
    if e.a.StopSession? then s.(stop := true)
    else if e.g >= |s.groups| then s
    else
      var g := s.groups[e.g];
      var c := if e.r < |g.pcs| then Credited(g, e.r, e.a) else None;
      s.(groups := s.groups[e.g := GroupStep(g, |s.checkedOn|, s.stop, e.r, e.a)],
         checkedOn := if c.Some? then Credit(s.checkedOn, c.value, g.size) else s.checkedOn)
  }

  function Exec(s: State, es: seq<Event>): State {
    if es == [] then s else Apply(Exec(s, es[..|es| - 1]), es[|es| - 1])
  }

  // --- invariant ---------------------------------------------------------------------------------------

  predicate Holds(pc: Pc, item: nat) { (pc.Took? || pc.Trying? || pc.Failing?) && pc.item == item }

  function One(b: bool): nat { if b then 1 else 0 }

  function Holders(pcs: seq<Pc>, item: nat): nat {
    if pcs == [] then 0 else One(Holds(pcs[0], item)) + Holders(pcs[1..], item)
  }

  /** Routines whose Add has not been done. */
  predicate Counts(pc: Pc) { !pc.Closing? && !pc.Gone? }

  function Live(pcs: seq<Pc>): nat { if pcs == [] then 0 else One(Counts(pcs[0])) + Live(pcs[1..]) }

  function Closers(pcs: seq<Pc>): nat { if pcs == [] then 0 else One(pcs[0].Closing?) + Closers(pcs[1..]) }

  predicate IsBusy(g: Group, item: nat) { item < |g.fates| && g.fates[item].Busy? }

  /** A group's part in checkedOn of an item. */
  function Share(g: Group, item: nat): nat { if item < |g.fates| && g.fates[item].Counted? then g.size else 0 }

  function Shares(groups: seq<Group>, item: nat): nat {
    if groups == [] then 0 else Share(groups[0], item) + Shares(groups[1..], item)
  }

  function Providers(groups: seq<Group>): nat { if groups == [] then 0 else groups[0].size + Providers(groups[1..]) }

  ghost predicate GroupOk(g: Group, n: nat, stop: bool) {
    && g.size >= 1 && |g.pcs| >= 1
    && g.taken <= g.fed <= n && |g.fates| == g.taken
    && (forall i: nat :: Holders(g.pcs, i) == One(IsBusy(g, i)))
    && g.left == Live(g.pcs)
    && Closers(g.pcs) + One(g.gone) == One(g.left == 0)
    && (forall i | 0 <= i < |g.fates| :: g.fates[i].Dropped? ==> stop)
    && (!g.feeder.Feeding? ==> g.fed == n || g.gone || stop)
  }

  ghost predicate Inv(s: State) {
    && |s.groups| >= 1
    && (forall k | 0 <= k < |s.groups| :: GroupOk(s.groups[k], |s.checkedOn|, s.stop))
    && (forall i | 0 <= i < |s.checkedOn| :: s.checkedOn[i] == Shares(s.groups, i))
  }

  // --- every step keeps it --------------------------------------------------------------------------------

  lemma {:induction false} HoldersUpdate(pcs: seq<Pc>, r: nat, pc: Pc, i: nat)
    requires r < |pcs|
    ensures Holders(pcs[r := pc], i) + One(Holds(pcs[r], i)) == Holders(pcs, i) + One(Holds(pc, i))
    decreases |pcs|
  {
    var t := pcs[r := pc];
    if r > 0 {
      HoldersUpdate(pcs[1..], r - 1, pc, i);
      assert t[1..] == pcs[1..][r - 1 := pc];
    } else {
      assert t[1..] == pcs[1..];
    }
  }

  lemma {:induction false} LiveUpdate(pcs: seq<Pc>, r: nat, pc: Pc)
    requires r < |pcs|
    ensures Live(pcs[r := pc]) + One(Counts(pcs[r])) == Live(pcs) + One(Counts(pc))
    ensures Closers(pcs[r := pc]) + One(pcs[r].Closing?) == Closers(pcs) + One(pc.Closing?)
    decreases |pcs|
  {
    var t := pcs[r := pc];
    if r > 0 {
      LiveUpdate(pcs[1..], r - 1, pc);
      assert t[1..] == pcs[1..][r - 1 := pc];
    } else {
      assert t[1..] == pcs[1..];
    }
  }

  /** A routine moves on without taking or giving up an item. */
  lemma MoveOk(g: Group, n: nat, stop: bool, r: nat, pc: Pc)
    requires GroupOk(g, n, stop) && r < |g.pcs|
    requires Counts(g.pcs[r]) && Counts(pc) && forall i: nat :: Holds(g.pcs[r], i) == Holds(pc, i)
    ensures GroupOk(SetPc(g, r, pc), n, stop)
  {
    var t := SetPc(g, r, pc);
    LiveUpdate(g.pcs, r, pc);
    forall i: nat ensures Holders(t.pcs, i) == One(IsBusy(t, i)) {
      HoldersUpdate(g.pcs, r, pc, i);
      assert Holders(g.pcs, i) == One(IsBusy(g, i));
    }
    hide Holders, Live, Closers;
  }

  lemma TakeOk(g: Group, n: nat, stop: bool, r: nat)
    requires GroupOk(g, n, stop) && r < |g.pcs|
    ensures GroupOk(RoutineStep(g, r, stop, Take), n, stop)
  {
    if g.pcs[r].Idle? && g.taken < g.fed {
      var t := RoutineStep(g, r, stop, Take);
      var pc := Took(g.taken, g.pcs[r].noConn);
      LiveUpdate(g.pcs, r, pc);
      forall i: nat ensures Holders(t.pcs, i) == One(IsBusy(t, i)) {
        HoldersUpdate(g.pcs, r, pc, i);
      }
      hide Holders, Live, Closers;
    }
  }

  /** A routine is done with its item. */
  lemma SettleOk(g: Group, n: nat, stop: bool, r: nat, pc: Pc, item: nat, f: Fate)
    requires GroupOk(g, n, stop) && r < |g.pcs| && Holds(g.pcs[r], item) && (f.Dropped? ==> stop) && !f.Busy?
    requires Counts(pc) && forall i: nat :: !Holds(pc, i)
    ensures IsBusy(g, item) && GroupOk(SetPc(SetFate(g, item, f), r, pc), n, stop)
  {
    var t := SetPc(SetFate(g, item, f), r, pc);
    LiveUpdate(g.pcs, r, pc);
    HoldersUpdate(g.pcs, r, pc, item);
    forall i: nat ensures Holders(t.pcs, i) == One(IsBusy(t, i)) {
      HoldersUpdate(g.pcs, r, pc, i);
      assert Holders(g.pcs, i) == One(IsBusy(g, i));
    }
    hide Holders, Live, Closers;
  }

  lemma ExitOk(g: Group, n: nat, stop: bool, r: nat, a: Action)
    requires GroupOk(g, n, stop) && r < |g.pcs| && (a.ExitAdd? || a.CloseGone?)
    ensures GroupOk(RoutineStep(g, r, stop, a), n, stop)
  {
    var t := RoutineStep(g, r, stop, a);
    var pc := t.pcs[r];
    LiveUpdate(g.pcs, r, pc);
    assert g.pcs[r := g.pcs[r]] == g.pcs;
    forall i: nat ensures Holders(t.pcs, i) == One(IsBusy(t, i)) {
      HoldersUpdate(g.pcs, r, pc, i);
      assert Holders(g.pcs, i) == One(IsBusy(g, i));
    }
    hide Holders, Live, Closers;
  }

  lemma RoutineOk(g: Group, n: nat, stop: bool, r: nat, a: Action)
    requires GroupOk(g, n, stop) && r < |g.pcs|
    ensures GroupOk(RoutineStep(g, r, stop, a), n, stop)
    ensures Credited(g, r, a).Some? ==> IsBusy(g, Credited(g, r, a).value)
  {
    hide GroupOk, SetFate;
    var pc := g.pcs[r];
    match a
    case Boot(ok) => if pc.Off? { MoveOk(g, n, stop, r, if ok then Idle(0) else Leaving); }
    case Take => TakeOk(g, n, stop, r);
    case StopCheck =>
      if pc.Took? {
        if stop { SettleOk(g, n, stop, r, Idle(pc.noConn), pc.item, Dropped); }
        else { MoveOk(g, n, stop, r, Trying(pc.item, 1, pc.noConn)); }
      }
    case Count => if pc.Trying? { SettleOk(g, n, stop, r, After(false, pc.noConn), pc.item, Counted); }
    case Fail(unconnected) =>
      if pc.Trying? {
        MoveOk(g, n, stop, r,
               if unconnected || pc.attempt >= CHECK_ATTEMPTS || stop
               then Failing(pc.item, unconnected, pc.noConn)
                              else Trying(pc.item, pc.attempt + 1, pc.noConn));
      }
    case MarkFailed => if pc.Failing? { SettleOk(g, n, stop, r, After(pc.unconnected, pc.noConn), pc.item, Counted); }
    case Return(down) =>
      if pc.After? {
        MoveOk(g, n, stop, r, if !pc.unconnected || down then Idle(0)
                              else if pc.noConn + 1 >= MAX_CHECK_NO_CONN then Leaving else Idle(pc.noConn + 1));
      }
    case TimeOut => if pc.Idle? { MoveOk(g, n, stop, r, Leaving); }
    case SeeClosed => if pc.Idle? { MoveOk(g, n, stop, r, Leaving); }
    case ExitAdd => ExitOk(g, n, stop, r, a);
    case CloseGone => ExitOk(g, n, stop, r, a);
    case _ =>
  }

  lemma GroupStepOk(g: Group, n: nat, stop: bool, r: nat, a: Action)
    requires GroupOk(g, n, stop)
    ensures GroupOk(GroupStep(g, n, stop, r, a), n, stop)
    ensures r < |g.pcs| && Credited(g, r, a).Some? ==> IsBusy(g, Credited(g, r, a).value)
  {
    if a.Feed? || a.FeedQuit? || a.FeedClose? {
      FeederOk(g, n, stop, a);
    } else if r < |g.pcs| {
      RoutineOk(g, n, stop, r, a);
    }
    hide GroupOk, RoutineStep, FeederStep;
  }

  lemma FeederOk(g: Group, n: nat, stop: bool, a: Action)
    requires GroupOk(g, n, stop)
    ensures GroupOk(FeederStep(g, n, stop, a), n, stop)
  {
    hide Holders, Live, Closers;
    assert forall i: nat :: Holders(g.pcs, i) == One(IsBusy(g, i));
    assert forall i: nat :: IsBusy(FeederStep(g, n, stop, a), i) == IsBusy(g, i);
  }

  /** A step adds to a group's shares just what it credits. */
  lemma ShareStep(g: Group, n: nat, stop: bool, r: nat, a: Action, i: nat)
    requires GroupOk(g, n, stop)
    ensures Share(GroupStep(g, n, stop, r, a), i) ==
            Share(g, i) + (if r < |g.pcs| && Credited(g, r, a) == Some(i) then g.size else 0)
  {
    GroupStepOk(g, n, stop, r, a);
    assert |g.fates| == g.taken;
    if r < |g.pcs| && a.StopCheck? && g.pcs[r].Took? {
      var pc := g.pcs[r];
      if stop { SettleOk(g, n, stop, r, Idle(pc.noConn), pc.item, Dropped); }
    }
    hide GroupOk;
  }

  lemma {:induction false} SharesUpdate(groups: seq<Group>, k: nat, g: Group, i: nat)
    requires k < |groups|
    ensures Shares(groups[k := g], i) + Share(groups[k], i) == Shares(groups, i) + Share(g, i)
    decreases |groups|
  {
    var t := groups[k := g];
    if k > 0 {
      SharesUpdate(groups[1..], k - 1, g, i);
      assert t[1..] == groups[1..][k - 1 := g];
    } else {
      assert t[1..] == groups[1..];
    }
  }

  lemma StepOk(s: State, e: Event)
    requires Inv(s)
    ensures Inv(Apply(s, e))
  {
    if e.a.StopSession? {
      forall k | 0 <= k < |s.groups| ensures GroupOk(s.groups[k], |s.checkedOn|, true) {
        assert GroupOk(s.groups[k], |s.checkedOn|, s.stop);
      }
      hide GroupOk, Shares;
    } else if e.g < |s.groups| {
      hide GroupOk, GroupStep, Credited, Share, Shares;
      var g, t, n := s.groups[e.g], Apply(s, e), |s.checkedOn|;
      GroupStepOk(g, n, s.stop, e.r, e.a);
      forall i | 0 <= i < n ensures t.checkedOn[i] == Shares(t.groups, i) {
        ShareStep(g, n, s.stop, e.r, e.a, i);
        SharesUpdate(s.groups, e.g, t.groups[e.g], i);
        assert s.checkedOn[i] == Shares(s.groups, i);
      }
    }
  }

  lemma {:induction false} NewCounts(pcs: seq<Pc>, i: nat)
    requires forall k | 0 <= k < |pcs| :: pcs[k] == Off
    ensures Holders(pcs, i) == 0 && Live(pcs) == |pcs| && Closers(pcs) == 0
  {
    if pcs != [] { NewCounts(pcs[1..], i); }
  }

  lemma {:induction false} NoShares(groups: seq<Group>, i: nat)
    requires forall k | 0 <= k < |groups| :: groups[k].fates == []
    ensures Shares(groups, i) == 0
  {
    if groups != [] { NoShares(groups[1..], i); }
  }

  lemma InitOk(s: State)
    requires IsInit(s)
    ensures Inv(s)
  {
    forall k | 0 <= k < |s.groups| ensures GroupOk(s.groups[k], |s.checkedOn|, s.stop) {
      var g := s.groups[k];
      assert Fresh(g);
      forall i: nat ensures Holders(g.pcs, i) == 0 { NewCounts(g.pcs, i); }
      NewCounts(g.pcs, 0);
    }
    hide GroupOk;
    assert forall k | 0 <= k < |s.groups| :: Fresh(s.groups[k]) ==> s.groups[k].fates == [];
    forall i | 0 <= i < |s.checkedOn| ensures Shares(s.groups, i) == 0 { NoShares(s.groups, i); }
  }

  lemma {:induction false} Reachable(s: State, es: seq<Event>)
    requires IsInit(s)
    ensures Inv(Exec(s, es))
    decreases |es|
  {
    hide Apply, Inv, IsInit;
    if es == [] {
      InitOk(s);
    } else {
      Reachable(s, es[..|es| - 1]);
      StepOk(Exec(s, es[..|es| - 1]), es[|es| - 1]);
    }
  }

  // --- main results --------------------------------------------------------------------------------------------

  /** MAIN: checkedOn of every item is the sum of the sizes of the groups that finished checking
      it; it equals the number of providers just if every group has. */
  lemma Accounting(s: State, es: seq<Event>, i: nat)
    requires IsInit(s) && i < |s.checkedOn|
    ensures var t := Exec(s, es);
            && |t.checkedOn| == |s.checkedOn| && t.checkedOn[i] == Shares(t.groups, i) <= Providers(s.groups)
            && (t.checkedOn[i] == Providers(s.groups) <==>
                forall k | 0 <= k < |t.groups| :: i < |t.groups[k].fates| && t.groups[k].fates[i].Counted?)
  {
    Reachable(s, es);
    SameShape(s, es);
    var t := Exec(s, es);
    hide Exec, IsInit;
    assert forall k | 0 <= k < |t.groups| :: GroupOk(t.groups[k], |t.checkedOn|, t.stop) ==> t.groups[k].size >= 1;
    AllShares(t.groups, i);
  }

  lemma {:induction false} AllShares(groups: seq<Group>, i: nat)
    requires forall k | 0 <= k < |groups| :: groups[k].size >= 1
    ensures Shares(groups, i) <= Providers(groups)
    ensures Shares(groups, i) == Providers(groups) <==>
            forall k | 0 <= k < |groups| :: i < |groups[k].fates| && groups[k].fates[i].Counted?
  {
    if groups != [] {
      AllShares(groups[1..], i);
      assert forall k | 1 <= k < |groups| :: groups[k] == groups[1..][k - 1];
    }
  }

  lemma {:induction false} SameSizes(groups: seq<Group>, k: nat, g: Group)
    requires k < |groups| && g.size == groups[k].size
    ensures Providers(groups[k := g]) == Providers(groups)
    decreases |groups|
  {
    var t := groups[k := g];
    if k > 0 {
      SameSizes(groups[1..], k - 1, g);
      assert t[1..] == groups[1..][k - 1 := g];
    } else {
      assert t[1..] == groups[1..];
    }
  }

  lemma {:induction false} SameShape(s: State, es: seq<Event>)
    ensures var t := Exec(s, es);
            && |t.groups| == |s.groups| && |t.checkedOn| == |s.checkedOn| && Providers(t.groups) == Providers(s.groups)
            && (forall k | 0 <= k < |s.groups| ::
               |t.groups[k].pcs| == |s.groups[k].pcs| && t.groups[k].size == s.groups[k].size)
    decreases |es|
  {
    if es != [] {
      SameShape(s, es[..|es| - 1]);
      ShapeStep(Exec(s, es[..|es| - 1]), es[|es| - 1]);
      hide Apply, Providers;
    }
  }

  lemma ShapeStep(s: State, e: Event)
    ensures var t := Apply(s, e);
            && |t.groups| == |s.groups| && |t.checkedOn| == |s.checkedOn| && Providers(t.groups) == Providers(s.groups)
            && (forall k | 0 <= k < |s.groups| ::
               |t.groups[k].pcs| == |s.groups[k].pcs| && t.groups[k].size == s.groups[k].size)
  {
    if e.g < |s.groups| {
      var g := s.groups[e.g];
      GroupShape(g, |s.checkedOn|, s.stop, e.r, e.a);
      SameSizes(s.groups, e.g, GroupStep(g, |s.checkedOn|, s.stop, e.r, e.a));
      hide GroupStep, Providers;
    }
  }

  lemma GroupShape(g: Group, n: nat, stop: bool, r: nat, a: Action)
    ensures var t := GroupStep(g, n, stop, r, a); |t.pcs| == |g.pcs| && t.size == g.size
  {}

  /** MAIN: `left` is the number of check routines that have not left, gone is closed once and
      only when it is 0, and then every routine of the group has left for good. */
  lemma GoneMeansAllLeft(s: State, es: seq<Event>, k: nat)
    requires IsInit(s) && k < |s.groups|
    ensures var t := Exec(s, es);
            && k < |t.groups|
            && var g := t.groups[k];
               && g.left == Live(g.pcs) && g.left >= 0
               && (g.gone ==> g.left == 0 && Closers(g.pcs) == 0 && forall r | 0 <= r < |g.pcs| :: g.pcs[r].Gone?)
               && (g.left == 0 && !g.gone ==> Closers(g.pcs) == 1)
  {
    Reachable(s, es);
    SameShape(s, es);
    var t := Exec(s, es);
    hide Exec, IsInit;
    assert GroupOk(t.groups[k], |t.checkedOn|, t.stop);
    NoneLive(t.groups[k].pcs);
  }

  lemma {:induction false} NoneLive(pcs: seq<Pc>)
    ensures Live(pcs) == 0 && Closers(pcs) == 0 ==> forall r | 0 <= r < |pcs| :: pcs[r].Gone?
  {
    if pcs != [] {
      NoneLive(pcs[1..]);
      assert forall r | 1 <= r < |pcs| :: pcs[r] == pcs[1..][r - 1];
    }
  }

  /** allCheckersGone */
  predicate AllGone(s: State) { forall k | 0 <= k < |s.groups| :: s.groups[k].gone }

  ghost predicate AllLeft(s: State) {
    forall k | 0 <= k < |s.groups| :: forall r | 0 <= r < |s.groups[k].pcs| :: s.groups[k].pcs[r].Gone?
  }

  /** MAIN: once all check routines of all groups are gone, no item's checkedOn changes any more,
      whatever happens. */
  lemma {:induction false} GoneIsFinal(s: State, es: seq<Event>, later: seq<Event>)
    requires IsInit(s) && AllGone(Exec(s, es))
    ensures Exec(s, es + later).checkedOn == Exec(s, es).checkedOn && AllGone(Exec(s, es + later))
    decreases |later|
  {
    hide IsInit;
    if later == [] {
      assert es + later == es;
    } else {
      var n := |later| - 1;
      GoneIsFinal(s, es, later[..n]);
      assert es + later == (es + later[..n]) + [later[n]];
      var p := Exec(s, es + later[..n]);
      NextState(s, es + later[..n], later[n]);
      forall k | 0 <= k < |p.groups|
        ensures forall r | 0 <= r < |p.groups[k].pcs| :: p.groups[k].pcs[r].Gone?
      {
        SameShape(s, es + later[..n]);
        GoneMeansAllLeft(s, es + later[..n], k);
      }
      GoneStep(p, later[n]);
    }
  }

  lemma NextState(s: State, es: seq<Event>, e: Event)
    ensures Exec(s, es + [e]) == Apply(Exec(s, es), e)
  {
    hide Apply;
    assert (es + [e])[..|es|] == es;
  }

  lemma GoneStep(s: State, e: Event)
    requires AllGone(s) && AllLeft(s)
    ensures Apply(s, e).checkedOn == s.checkedOn && AllGone(Apply(s, e))
  {
    if e.g < |s.groups| { assert s.groups[e.g].gone; }
  }

  /** MAIN: no item falls between two stools. In a session that was not stopped, an item taken out
      of a group's channel is counted by the group or in the hands of exactly one routine; an item
      not taken is still in the channel or to be fed, unless the group's routines are gone. */
  lemma NoItemSkipped(s: State, es: seq<Event>, k: nat, i: nat)
    requires IsInit(s) && k < |s.groups| && i < |s.checkedOn| && !Exec(s, es).stop
    ensures var t := Exec(s, es);
            && k < |t.groups|
            && var g := t.groups[k];
               && (i < g.taken ==> i < |g.fates| && (g.fates[i].Counted? || Holders(g.pcs, i) == 1))
               && (i >= g.taken ==> Holders(g.pcs, i) == 0 && (g.feeder.Feeding? || i < g.fed || g.gone))
  {
    Reachable(s, es);
    SameShape(s, es);
    var t := Exec(s, es);
    hide Exec, IsInit;
    var g := t.groups[k];
    assert GroupOk(g, |t.checkedOn|, t.stop);
    assert Holders(g.pcs, i) == One(IsBusy(g, i));
  }

  // --- what the feeder and the routines wait for ----------------------------------------------------

  /** The channel is never over its capacity. It is closed only when all items were taken out of it, or
      its routines are gone, or the session was stopped. */
  predicate FeedOk(g: Group, n: nat, stop: bool) {
    && g.taken <= g.fed <= g.taken + g.cap
    && (!g.feeder.Feeding? ==> g.fed == n || g.gone || stop)
    && (g.feeder.Closed? ==> (g.fed == n && g.taken == n) || g.gone || stop)
  }

  lemma FeedStepOk(g: Group, n: nat, stop: bool, r: nat, a: Action)
    requires FeedOk(g, n, stop) && g.fed <= n
    ensures FeedOk(GroupStep(g, n, stop, r, a), n, stop)
  {}

  lemma {:induction false} ClosedWithReason(s: State, es: seq<Event>, k: nat)
    requires IsInit(s) && k < |s.groups|
    ensures var t := Exec(s, es); k < |t.groups| && FeedOk(t.groups[k], |t.checkedOn|, t.stop)
    decreases |es|
  {
    if es == [] {
      assert Fresh(s.groups[k]);
    } else {
      var front, e := es[..|es| - 1], es[|es| - 1];
      ClosedWithReason(s, front, k);
      Reachable(s, front);
      var p := Exec(s, front);
      assert GroupOk(p.groups[k], |p.checkedOn|, p.stop);
      FeedStepOk(p.groups[k], |p.checkedOn|, p.stop, e.r, e.a);
      hide GroupOk, IsInit, GroupStep, Credited;
    }
  }

  /** Whenever the routines are gone, the session was stopped, or all items were taken, the feeder
      gets to close its channel. */
  lemma FeederEnds(g: Group, n: nat, stop: bool)
    requires FeedOk(g, n, stop) && (g.gone || stop || (g.fed == n && g.taken == n))
    ensures FeederStep(FeederStep(g, n, stop, FeedQuit), n, stop, FeedClose).feeder.Closed?
  {}

  /** A step by which a check routine may give up: its worker never connected, it idled for 15 seconds,
      or it got no connection; or the session was stopped. */
  predicate GivesUp(a: Action) { a == Boot(false) || a.TimeOut? || a == Fail(true) || a.StopSession? }

  predicate Out(pc: Pc) { pc.Leaving? || pc.Closing? || pc.Gone? }

  predicate Unconnected(pc: Pc) {
    || ((pc.Failing? || pc.After?) && pc.unconnected)
    || ((pc.Idle? || pc.Took? || pc.Trying? || pc.Failing? || pc.After?) && pc.noConn > 0)
  }

  /** Without giving up, a routine leaves only after all items were taken. */
  ghost predicate Steady(g: Group, n: nat) {
    && (forall r | 0 <= r < |g.pcs| :: !Unconnected(g.pcs[r]) && (Out(g.pcs[r]) ==> g.fed == n && g.taken == n))
    && (g.gone ==> g.fed == n && g.taken == n)
  }

  lemma SteadyStep(g: Group, n: nat, r: nat, a: Action)
    requires Steady(g, n) && FeedOk(g, n, false) && g.fed <= n && !GivesUp(a)
    ensures Steady(GroupStep(g, n, false, r, a), n)
  {
    if r < |g.pcs| { assert !Unconnected(g.pcs[r]); }
  }

  lemma {:induction false} SteadyRun(s: State, es: seq<Event>, k: nat)
    requires IsInit(s) && k < |s.groups| && forall e <- es :: !GivesUp(e.a)
    ensures var t := Exec(s, es); k < |t.groups| && !t.stop && Steady(t.groups[k], |t.checkedOn|)
    decreases |es|
  {
    if es == [] {
      assert Fresh(s.groups[k]);
    } else {
      var front, e := es[..|es| - 1], es[|es| - 1];
      assert e in es && forall x <- front :: x in es;
      SteadyRun(s, front, k);
      ClosedWithReason(s, front, k);
      Reachable(s, front);
      var p := Exec(s, front);
      assert GroupOk(p.groups[k], |p.checkedOn|, p.stop);
      SteadyStep(p.groups[k], |p.checkedOn|, e.r, e.a);
      hide GroupOk, IsInit, GroupStep, Credited, Steady, FeedOk;
    }
  }

  /** MAIN: if no routine of any group gave up and the session was not stopped, a group whose routines
      are gone has checked every item. */
  lemma GoneMeansChecked(s: State, es: seq<Event>, k: nat, i: nat)
    requires IsInit(s) && k < |s.groups| && i < |s.checkedOn| && forall e <- es :: !GivesUp(e.a)
    requires k < |Exec(s, es).groups| && Exec(s, es).groups[k].gone
    ensures var g := Exec(s, es).groups[k]; i < |g.fates| && g.fates[i].Counted?
  {
    SteadyRun(s, es, k);
    SameShape(s, es);
    NoItemSkipped(s, es, k, i);
    GoneMeansAllLeft(s, es, k);
    hide Exec, IsInit;
    NoneHold(Exec(s, es).groups[k].pcs, i);
  }

  lemma {:induction false} NoneHold(pcs: seq<Pc>, i: nat)
    requires forall r | 0 <= r < |pcs| :: pcs[r].Gone?
    ensures Holders(pcs, i) == 0
  {
    if pcs != [] { NoneHold(pcs[1..], i); }
  }

  /** In every state of a running session an idle routine can check the next item, if that is in the
      channel or still to be fed; the item then gets the credit of the group. */
  lemma NextItemChecked(g: Group, n: nat, r: nat)
    requires GroupOk(g, n, false) && r < |g.pcs| && g.pcs[r].Idle?
    requires g.taken < g.fed || (g.feeder.Feeding? && g.taken < n && g.cap >= 1)
    ensures var a := GroupStep(g, n, false, r, Feed);
            var b := GroupStep(a, n, false, r, Take);
            var c := GroupStep(b, n, false, r, StopCheck);
            var d := GroupStep(c, n, false, r, Count);
            var h := GroupStep(d, n, false, r, Return(false));
            && r < |c.pcs| && Credited(c, r, Count) == Some(g.taken)
            && h.taken == g.taken + 1 && g.taken < |h.fates| && h.fates[g.taken].Counted?
            && r < |h.pcs| && h.pcs[r] == Idle(0)
  {
    var a := GroupStep(g, n, false, r, Feed);
    assert a.taken == g.taken < a.fed && a.pcs == g.pcs && a.fates == g.fates;
    var b := GroupStep(a, n, false, r, Take);
    assert b.pcs[r] == Took(g.taken, g.pcs[r].noConn) && |b.fates| == g.taken + 1 && b.taken == g.taken + 1;
    var c := GroupStep(b, n, false, r, StopCheck);
    assert c.pcs[r] == Trying(g.taken, 1, g.pcs[r].noConn) && c.fates == b.fates && c.taken == b.taken;
    var d := GroupStep(c, n, false, r, Count);
    assert d.pcs[r] == After(false, g.pcs[r].noConn) && d.fates[g.taken] == Counted && d.taken == c.taken;
    hide GroupOk;
  }

  /** A check that breaks is tried CHECK_ATTEMPTS times, and at once given up if there was no connection;
      then the item counts as checked all the same. */
  lemma FailedItemChecked(g: Group, n: nat, r: nat, unconnected: bool)
    requires GroupOk(g, n, false) && r < |g.pcs| && g.pcs[r].Trying? && g.pcs[r].attempt == 1
    ensures var b := GroupStep(g, n, false, r, Fail(unconnected));
            var c := if unconnected then b else GroupStep(b, n, false, r, Fail(false));
            var d := GroupStep(c, n, false, r, MarkFailed);
            && r < |b.pcs| && (!unconnected ==> b.pcs[r] == g.pcs[r].(attempt := 2))
            && r < |c.pcs| && Credited(c, r, MarkFailed) == Some(g.pcs[r].item)
            && r < |d.pcs| && d.pcs[r].After? && d.pcs[r].unconnected == unconnected
            && g.pcs[r].item < |d.fates| && d.fates[g.pcs[r].item].Counted?
  {
    var item := g.pcs[r].item;
    HoldersUpdate(g.pcs, r, Idle(0), item);
    assert Holders(g.pcs, item) == One(IsBusy(g, item));
    hide Holders, GroupOk;
  }

  /** A routine that gets no connection stays for MAX_CHECK_NO_CONN - 1 items in a row, and leaves after
      the next; one that reaches its provider, or finds it down, starts to count anew. */
  lemma NoConnectionsInARow(g: Group, n: nat, r: nat, down: bool)
    requires r < |g.pcs| && g.pcs[r].After?
    ensures var (pc, q) := (g.pcs[r], GroupStep(g, n, false, r, Return(down)).pcs[r]);
            && (pc.unconnected && !down && pc.noConn >= 2 <==> q == Leaving)
            && (pc.unconnected && !down && pc.noConn < 2 ==> q == Idle(pc.noConn + 1))
            && (!pc.unconnected || down ==> q == Idle(0))
  {}

  /** A session is stopped just if somebody has stopped it. */
  lemma {:induction false} StoppedJustIf(s: State, es: seq<Event>)
    requires !s.stop
    ensures Exec(s, es).stop <==> exists e <- es :: e.a.StopSession?
    decreases |es|
  {
    if es != [] {
      var front, e := es[..|es| - 1], es[|es| - 1];
      StoppedJustIf(s, front);
      assert e in es && (forall x <- front :: x in es) && forall x <- es :: x == e || x in front;
      hide GroupStep, Credited;
    }
  }

  /** Then items are taken without a check, and a check that breaks is not tried again. */
  lemma StoppedDrains(g: Group, n: nat, r: nat, unconnected: bool)
    requires GroupOk(g, n, true) && r < |g.pcs|
    ensures var (pc, h) := (g.pcs[r], GroupStep(g, n, true, r, StopCheck));
            pc.Took? ==> r < |h.pcs| && h.pcs[r] == Idle(pc.noConn) && Credited(g, r, StopCheck) == None
                         && pc.item < |h.fates| && h.fates[pc.item].Dropped?
    ensures var (pc, h) := (g.pcs[r], GroupStep(g, n, true, r, Fail(unconnected)));
            pc.Trying? ==> r < |h.pcs| && h.pcs[r] == Failing(pc.item, unconnected, pc.noConn)
  {
    if g.pcs[r].Took? {
      var item := g.pcs[r].item;
      HoldersUpdate(g.pcs, r, Idle(0), item);
      assert Holders(g.pcs, item) == One(IsBusy(g, item));
    }
    hide Holders, GroupOk;
  }

  /** The feeder goes one way: it feeds, waits for the channel to be empty if it has fed everything, and
      closes it; it feeds nothing later. A routine sees the close just when the channel is empty. */
  lemma OneWay(g: Group, n: nat, stop: bool, r: nat, a: Action)
    requires g.fed <= n
    ensures var h := GroupStep(g, n, stop, r, a);
            && (h.fed != g.fed ==> a.Feed? && g.feeder.Feeding? && h.fed == g.fed + 1 <= n && h.fed - h.taken <= g.cap)
            && (h.feeder == g.feeder || (g.feeder.Feeding? && h.feeder.Emptying?)
                || (g.feeder.Emptying? && h.feeder.Closed?))
    ensures g.feeder.Feeding? ==> (GroupStep(g, n, stop, r, FeedQuit).feeder.Emptying? <==>
                                     g.fed == n || g.gone || stop)
    ensures g.feeder.Emptying? ==> (GroupStep(g, n, stop, r, FeedClose).feeder.Closed? <==>
                                      g.gone || stop || (g.fed == n ==> g.taken == n))
    ensures r < |g.pcs| && g.pcs[r].Idle? ==>
              (GroupStep(g, n, stop, r, SeeClosed) != g <==> g.feeder.Closed? && g.taken == g.fed)
  {}

  /** When all items are taken, the feeder closes the channel and an idle routine leaves; the last one
      to leave closes gone. */
  lemma GroupEnds(g: Group, n: nat, r: nat)
    requires GroupOk(g, n, false) && g.fed == n && g.taken == n && r < |g.pcs| && g.pcs[r].Idle?
    ensures var a := GroupStep(g, n, false, r, FeedQuit);
            var b := GroupStep(a, n, false, r, FeedClose);
            var c := GroupStep(b, n, false, r, SeeClosed);
            var d := GroupStep(c, n, false, r, ExitAdd);
            var h := GroupStep(d, n, false, r, CloseGone);
            && d.left == g.left - 1 && r < |h.pcs| && h.pcs[r].Gone? && (h.gone <==> g.gone || g.left == 1)
  {
    LiveUpdate(g.pcs, r, Gone);
    assert g.left >= 1 && !g.gone;
    var a := GroupStep(g, n, false, r, FeedQuit);
    var b := GroupStep(a, n, false, r, FeedClose);
    assert b.feeder.Closed? && b.pcs == g.pcs && b.left == g.left && b.gone == g.gone && b.taken == b.fed;
    var c := GroupStep(b, n, false, r, SeeClosed);
    assert c.pcs[r] == Leaving && c.left == g.left && c.gone == g.gone;
    var d := GroupStep(c, n, false, r, ExitAdd);
    assert d.left == g.left - 1 && d.gone == g.gone && d.pcs[r] == if g.left == 1 then Closing else Gone;
    hide GroupOk, Live, Closers, Holders;
  }

  // --- items, providers, groups ------------------------------------------------------------------------------------

  /** A provider; its id is its index in the list. */
  datatype Provider = Provider(group: nat, noDownload: bool, noUpload: bool)

  function GroupSize(ps: seq<Provider>, group: nat): nat {
    if ps == [] then 0 else One(ps[0].group == group) + GroupSize(ps[1..], group)
  }

  function GroupIds(ps: seq<Provider>, group: nat): set<nat> { set k | 0 <= k < |ps| && ps[k].group == group }

  lemma {:induction false} GroupSizeNext(ps: seq<Provider>, k: nat, group: nat)
    requires k < |ps|
    ensures GroupSize(ps[..k + 1], group) == GroupSize(ps[..k], group) + One(ps[k].group == group)
    decreases k
  {
    var a, b := ps[..k], ps[..k + 1];
    if k > 0 {
      GroupSizeNext(ps[1..], k - 1, group);
      assert a[1..] == ps[1..][..k - 1] && b[1..] == ps[1..][..k];
    } else {
      assert b[1..] == [];
    }
  }

  function SizeSum(ps: seq<Provider>, groups: seq<nat>): nat {
    if groups == [] then 0 else GroupSize(ps, groups[0]) + SizeSum(ps, groups[1..])
  }

  /** With every provider in exactly one of the groups, the group sizes add up to the number of
      providers: "checked by every group" and "checkedOn == number of providers" are the same. */
  lemma {:induction false} SizesAddUp(ps: seq<Provider>, groups: seq<nat>)
    requires forall i, k | 0 <= i < k < |groups| :: groups[i] != groups[k]
    requires forall k | 0 <= k < |ps| :: ps[k].group in groups
    ensures SizeSum(ps, groups) == |ps|
    decreases |ps|
  {
    if ps == [] {
      NoProviders(groups);
    } else {
      SizesAddUp(ps[1..], groups);
      OneMore(ps, groups);
    }
  }

  lemma {:induction false} NoProviders(groups: seq<nat>)
    ensures SizeSum([], groups) == 0
  {
    if groups != [] { NoProviders(groups[1..]); }
  }

  lemma {:induction false} OneMore(ps: seq<Provider>, groups: seq<nat>)
    requires ps != [] && forall i, k | 0 <= i < k < |groups| :: groups[i] != groups[k]
    ensures SizeSum(ps, groups) == SizeSum(ps[1..], groups) + One(ps[0].group in groups)
    decreases |groups|
  {
    if groups != [] {
      OneMore(ps, groups[1..]);
      assert groups[0] !in groups[1..];
      assert ps[0].group in groups <==> ps[0].group == groups[0] || ps[0].group in groups[1..];
    }
  }

  /** What the server answers to STAT. */
  datatype Answer = Found | Missing430 | Takedown451 | Odd

  /** The fields of segmentChanItem that the check writes; the sets hold provider ids. */
  class Item {
    var checkedOn: nat
    var availableOn: set<nat>
    var missingOn: set<nat>
    var dmcaOn: set<nat>
    var errorOn: set<nat>
    var ignoreDlOn: set<nat>
    var ignoreUlOn: set<nat>

    /** The critical section of GoCheckRoutine: the answer is recorded for the whole group. */
    method Record(ps: seq<Provider>, p: Provider, a: Answer)
      modifies this
      ensures checkedOn == old(checkedOn) + GroupSize(ps, p.group)
      ensures var ids := GroupIds(ps, p.group);
              && availableOn == old(availableOn) + (if a.Found? then ids else {})
              && missingOn == (if a.Found? then old(missingOn) - ids
                               else if a.Takedown451? then old(missingOn) else old(missingOn) + ids)
              && dmcaOn == old(dmcaOn) + (if a.Takedown451? then ids else {})
              && errorOn == old(errorOn) + (if a.Odd? then ids else {})
              && ignoreDlOn == old(ignoreDlOn) + (if a.Odd? || (a.Found? && p.noDownload) then ids else {})
              && ignoreUlOn == old(ignoreUlOn) + (if a.Found? && p.noUpload then ids else {})
    {
      assert GroupIds(ps[..0], p.group) == {} && GroupSize(ps[..0], p.group) == 0;
      hide GroupIds, GroupSize;
      ghost var c, av, mi, dm, er, idl, iul :=
          checkedOn, availableOn, missingOn, dmcaOn, errorOn, ignoreDlOn, ignoreUlOn;
      for k := 0 to |ps|
        invariant checkedOn == c + GroupSize(ps[..k], p.group)
        invariant var ids := GroupIds(ps[..k], p.group);
                  && availableOn == av + (if a.Found? then ids else {})
                  && missingOn == (if a.Found? then mi - ids else if a.Takedown451? then mi else mi + ids)
                  && dmcaOn == dm + (if a.Takedown451? then ids else {})
                  && errorOn == er + (if a.Odd? then ids else {})
                  && ignoreDlOn == idl + (if a.Odd? || (a.Found? && p.noDownload) then ids else {})
                  && ignoreUlOn == iul + (if a.Found? && p.noUpload then ids else {})
      {
        GroupSizeNext(ps, k, p.group);
        IdsNext(ps, k, p.group);
        if ps[k].group != p.group { continue; }
        RecordOne(k, p, a);
      }
      assert ps[..|ps|] == ps;
    }

    /** ... for one provider. */
    method RecordOne(id: nat, p: Provider, a: Answer)
      modifies this
      ensures checkedOn == old(checkedOn) + 1
      ensures availableOn == old(availableOn) + (if a.Found? then {id} else {})
      ensures missingOn == (if a.Found? then old(missingOn) - {id}
              else if a.Takedown451? then old(missingOn) else old(missingOn) + {id})
      ensures dmcaOn == old(dmcaOn) + (if a.Takedown451? then {id} else {})
      ensures errorOn == old(errorOn) + (if a.Odd? then {id} else {})
      ensures ignoreDlOn == old(ignoreDlOn) + (if a.Odd? || (a.Found? && p.noDownload) then {id} else {})
      ensures ignoreUlOn == old(ignoreUlOn) + (if a.Found? && p.noUpload then {id} else {})
    {
      checkedOn := checkedOn + 1;
      match a {
        case Found =>
          availableOn, missingOn := availableOn + {id}, missingOn - {id};
          if p.noDownload { ignoreDlOn := ignoreDlOn + {id}; }
          if p.noUpload { ignoreUlOn := ignoreUlOn + {id}; }
        case Missing430 => missingOn := missingOn + {id};
        case Takedown451 => dmcaOn := dmcaOn + {id};
        case Odd =>
          ignoreDlOn, missingOn, errorOn := ignoreDlOn + {id}, missingOn + {id}, errorOn + {id};
      }
    }

    method MarkCheckFailed(ps: seq<Provider>, group: nat)
      modifies this`checkedOn, this`errorOn, this`ignoreDlOn
      ensures checkedOn == old(checkedOn) + GroupSize(ps, group)
      ensures errorOn == old(errorOn) + GroupIds(ps, group) && ignoreDlOn == old(ignoreDlOn) + GroupIds(ps, group)
    {
      ghost var c, er, idl := checkedOn, errorOn, ignoreDlOn;
      for k := 0 to |ps|
        invariant checkedOn == c + GroupSize(ps[..k], group)
        invariant errorOn == er + GroupIds(ps[..k], group) && ignoreDlOn == idl + GroupIds(ps[..k], group)
      {
        GroupSizeNext(ps, k, group);
        IdsNext(ps, k, group);
        if ps[k].group != group { continue; }
        checkedOn, errorOn, ignoreDlOn := checkedOn + 1, errorOn + {k}, ignoreDlOn + {k};
      }
      assert ps[..|ps|] == ps;
    }

    /** checkItem; calls[k] is what the k-th GoCheckRoutine ends with, and stopped[k] what
        s.stopped() says after it. However it goes, the item is credited once. */
    method CheckItem(ps: seq<Provider>, p: Provider, calls: seq<Call>, stopped: seq<bool>) returns (recorded: bool)
      requires |calls| >= CHECK_ATTEMPTS && |stopped| >= CHECK_ATTEMPTS
      modifies this
      ensures checkedOn == old(checkedOn) + GroupSize(ps, p.group)
      ensures recorded == (calls[0].Answered? || (calls[1].Answered? && !calls[0].unconnected && !stopped[0]))
      ensures !recorded ==> errorOn == old(errorOn) + GroupIds(ps, p.group)
    {
      var attempt := 1;
      while true
        invariant 1 <= attempt <= CHECK_ATTEMPTS && checkedOn == old(checkedOn) && errorOn == old(errorOn)
        invariant attempt == 2 ==> !calls[0].Answered? && !calls[0].unconnected && !stopped[0]
        decreases CHECK_ATTEMPTS - attempt
      {
        match calls[attempt - 1] {
          case Answered(a) =>
            Record(ps, p, a);
            return true;
          case Broke(unconnected) =>
            if unconnected || attempt >= CHECK_ATTEMPTS || stopped[attempt - 1] { break; }
        }
        attempt := attempt + 1;
      }
      MarkCheckFailed(ps, p.group);
      recorded := false;
    }
  }

  datatype Call = Answered(a: Answer) | Broke(unconnected: bool)

  lemma IdsNext(ps: seq<Provider>, k: nat, group: nat)
    requires k < |ps|
    ensures GroupIds(ps[..k + 1], group) == GroupIds(ps[..k], group) + (if ps[k].group == group then {k} else {})
  {}

  /** checkerGroup: `closed` counts the closes of gone; a second one would panic. */
  class CheckerGroup {
    var left: int
    var once: bool
    ghost var closed: nat

    ghost predicate Valid()
      reads this
    {
      closed == One(once) && (left > 0 ==> !once)
    }

    constructor (conns: nat)
      ensures Valid() && left == conns && !once
    {
      left, once, closed := conns, false, 0;
    }

    /** exit */
    method Exit(n: int)
      requires Valid()
      modifies this
      ensures Valid() && left == old(left) - (if n > 0 then n else 0)
      ensures once == (old(once) || (n > 0 && left <= 0)) && closed <= 1
    {
      if n <= 0 { return; }
      left := left - n;
      if left <= 0 && !once {
        once := true;
        closed := closed + 1;
      }
    }
  }
}
