/** The download and re-upload queues of a session, their counters and their closing. */
module WorkQueues {
  // The divider pushes items into one channel per provider group, routines take them out, and two
  // global counters say how much is queued (Workers.go, Routines.go, Session.go,
  // Counter_uint64.go). One step is one channel operation, one counter operation or one decision
  // of the divider.

  // --- state --------------------------------------------------------------------------------------

  datatype Kind = DL | UP

  /** `closes` counts the close calls; a second one, or a send after one, would panic. */
  datatype Chan = Chan(items: seq<nat>, closes: nat)

  datatype Routine = Routine(group: nat, pc: RPc)

  datatype RPc =
    | Waiting             // on its group's channel
    | Holding(item: nat)  // has an item, Decrease not done yet
    | Off

  /** The channels, routines and counter of one kind; `clamped` says that Decr met a zero. */
  datatype Lane = Lane(cap: nat, chans: seq<Chan>, routines: seq<Routine>, count: nat, clamped: bool)

  /** The divider. */
  datatype DPc =
    | InRound
    | Sending(kind: Kind, group: nat, item: nat)  // Increase is done
    | Undoing(kind: Kind)                         // the channel was full
    | ReadUp(upQ: nat)                            // has read upQueueCnt
    | Deciding(dlQ: nat, upQ: nat)
    | Exited(settled: bool)                       // settled: by a close case, "checkersGone" or force quit

  /** StopRoutines; the channels of both kinds in one row. */
  datatype MPc = NotYet | Closing(n: nat) | Done

  datatype State = State(dl: Lane, up: Lane, div: DPc, main: MPc)

  predicate NewLane(l: Lane) {
    && (forall k | 0 <= k < |l.chans| :: l.chans[k] == Chan([], 0))
    && (forall r | 0 <= r < |l.routines| :: l.routines[r].pc.Waiting? && l.routines[r].group < |l.chans|)
    && l.count == 0 && !l.clamped
  }

  predicate IsInit(s: State) { NewLane(s.dl) && NewLane(s.up) && s.div == InRound && s.main == NotYet }

  function Get(s: State, k: Kind): Lane { if k.DL? then s.dl else s.up }

  function Put(s: State, k: Kind, l: Lane): State { if k.DL? then s.(dl := l) else s.(up := l) }

  // --- steps ----------------------------------------------------------------------------------------

  function Increase(l: Lane): Lane { l.(count := l.count + 1) }

  /** GCounter.Decr: at zero it logs an error and stays. */
  function Decrease(l: Lane): Lane { if l.count > 0 then l.(count := l.count - 1) else l.(clamped := true) }

  function SetChan(l: Lane, g: nat, c: Chan): Lane
    requires g < |l.chans|
  {
    l.(chans := l.chans[g := c])
  }

  function SetRoutine(l: Lane, r: nat, pc: RPc): Lane
    requires r < |l.routines|
  {
    l.(routines := l.routines[r := l.routines[r].(pc := pc)])
  }

  datatype Event =
    | StartPush(k: Kind, g: nat, item: nat)
    | Send                       // non-blocking
    | Undo
    | ReadFirst                  // upQ = GCounter.GetValue("upQueueCnt")
    | ReadSecond                 // dlQ
    | Continue                   // next round
    | Leave                      // a close case, "checkersGone" or force quit
    | Quit                       // stopped, noworkers, noProgress
    | StopRoutines
    | CloseNext
    | Receive(k: Kind, r: nat)
    | Release(k: Kind, r: nat)   // Decrease..QueueCnt, on any path
    | SeeClosed(k: Kind, r: nat)

  function CloseAt(s: State, n: nat): State {
    if n < |s.dl.chans| then s.(dl := SetChan(s.dl, n, s.dl.chans[n].(closes := s.dl.chans[n].closes + 1)))
    else
      var i := n - |s.dl.chans|;
      if i < |s.up.chans| then s.(up := SetChan(s.up, i, s.up.chans[i].(closes := s.up.chans[i].closes + 1))) else s
  }

  function LaneStep(l: Lane, r: nat, e: Event): Lane
    requires r < |l.routines|
  {
    var x := l.routines[r];
    match e
    case Receive(_, _) =>
      if x.pc.Waiting? && x.group < |l.chans| && l.chans[x.group].items != [] then
        var c := l.chans[x.group];
        SetRoutine(SetChan(l, x.group, c.(items := c.items[1..])), r, Holding(c.items[0]))
      else l
    case Release(_, _) => if x.pc.Holding? then Decrease(SetRoutine(l, r, Waiting)) else l
    case SeeClosed(_, _) =>
      if x.pc.Waiting? && x.group < |l.chans| && l.chans[x.group].items == [] && l.chans[x.group].closes > 0
      then SetRoutine(l, r, Off) else l
    case _ => l
  }

  function Apply(s: State, e: Event): State {
    match e
    case StartPush(k, g, item) =>
      if s.div.InRound? && g < |Get(s, k).chans|
      then Put(s, k, Increase(Get(s, k))).(div := Sending(k, g, item)) else s
    case Send =>
      if !s.div.Sending? then s
      else
        var k := s.div.kind; var g := s.div.group; var l := Get(s, k);
        if g < |l.chans| && |l.chans[g].items| < l.cap
        then Put(s, k, SetChan(l, g, l.chans[g].(items := l.chans[g].items + [s.div.item]))).(div := InRound)
        else s.(div := Undoing(k))
    case Undo => if s.div.Undoing? then Put(s, s.div.kind, Decrease(Get(s, s.div.kind))).(div := InRound) else s
    case ReadFirst => if s.div.InRound? then s.(div := ReadUp(s.up.count)) else s
    case ReadSecond => if s.div.ReadUp? then s.(div := Deciding(s.dl.count, s.div.upQ)) else s
    case Continue => if s.div.Deciding? then s.(div := InRound) else s
    case Leave => if s.div.Deciding? && s.div.dlQ == 0 && s.div.upQ == 0 then s.(div := Exited(true)) else s
    case Quit => if s.div.InRound? || s.div.Deciding? then s.(div := Exited(false)) else s
    case StopRoutines => if s.div.Exited? && s.main.NotYet? then s.(main := Closing(0)) else s   // sync.Once
    case CloseNext =>
      if !s.main.Closing? then s
      else if s.main.n < |s.dl.chans| + |s.up.chans| then CloseAt(s, s.main.n).(main := Closing(s.main.n + 1))
      else s.(main := Done)
    case Receive(k, r) => if r < |Get(s, k).routines| then Put(s, k, LaneStep(Get(s, k), r, e)) else s
    case Release(k, r) => if r < |Get(s, k).routines| then Put(s, k, LaneStep(Get(s, k), r, e)) else s
    case SeeClosed(k, r) => if r < |Get(s, k).routines| then Put(s, k, LaneStep(Get(s, k), r, e)) else s
  }

  function Exec(s: State, es: seq<Event>): State {
    if es == [] then s else Apply(Exec(s, es[..|es| - 1]), es[|es| - 1])
  }

  // --- invariant ---------------------------------------------------------------------------------------

  function One(b: bool): nat { if b then 1 else 0 }

  function Queued(chans: seq<Chan>): nat { if chans == [] then 0 else |chans[0].items| + Queued(chans[1..]) }

  function Held(rs: seq<Routine>): nat { if rs == [] then 0 else One(rs[0].pc.Holding?) + Held(rs[1..]) }

  /** The divider has raised the counter for an item it has not placed. */
  predicate Pushing(d: DPc, k: Kind) { (d.Sending? || d.Undoing?) && d.kind == k }

  predicate LaneOk(l: Lane, pushing: bool) {
    && !l.clamped && l.count == Queued(l.chans) + Held(l.routines) + One(pushing)
    && (forall r | 0 <= r < |l.routines| :: l.routines[r].group < |l.chans|)
  }

  /** How often channel i of the row has been closed so far. */
  function ClosesDue(m: MPc, i: nat): nat {
    match m
    case NotYet => 0
    case Closing(n) => One(i < n)
    case Done => 1
  }

  predicate ClosesOk(s: State) {
    && (forall g | 0 <= g < |s.dl.chans| :: s.dl.chans[g].closes == ClosesDue(s.main, g))
    && (forall g | 0 <= g < |s.up.chans| :: s.up.chans[g].closes == ClosesDue(s.main, |s.dl.chans| + g))
    && (!s.main.NotYet? ==> s.div.Exited?)
    && (s.main.Closing? ==> s.main.n <= |s.dl.chans| + |s.up.chans|)
  }

  /** What the divider has read as zero stays zero: only the divider raises the counters. */
  predicate ZerosStay(s: State) {
    && (s.div.ReadUp? && s.div.upQ == 0 ==> s.up.count == 0)
    && (s.div.Deciding? ==> (s.div.dlQ == 0 ==> s.dl.count == 0) && (s.div.upQ == 0 ==> s.up.count == 0))
    && (s.div.Exited? && s.div.settled ==> s.dl.count == 0 && s.up.count == 0)
  }

  predicate Inv(s: State) {
    LaneOk(s.dl, Pushing(s.div, DL)) && LaneOk(s.up, Pushing(s.div, UP)) && ClosesOk(s) && ZerosStay(s)
  }

  // --- every step keeps it --------------------------------------------------------------------------------

  lemma {:induction false} QueuedUpdate(chans: seq<Chan>, g: nat, c: Chan)
    requires g < |chans|
    ensures Queued(chans[g := c]) + |chans[g].items| == Queued(chans) + |c.items|
    decreases |chans|
  {
    var t := chans[g := c];
    if g > 0 {
      QueuedUpdate(chans[1..], g - 1, c);
      assert t[1..] == chans[1..][g - 1 := c];
    } else {
      assert t[1..] == chans[1..];
    }
  }

  lemma {:induction false} HeldUpdate(rs: seq<Routine>, r: nat, x: Routine)
    requires r < |rs|
    ensures Held(rs[r := x]) + One(rs[r].pc.Holding?) == Held(rs) + One(x.pc.Holding?)
    decreases |rs|
  {
    var t := rs[r := x];
    if r > 0 {
      HeldUpdate(rs[1..], r - 1, x);
      assert t[1..] == rs[1..][r - 1 := x];
    } else {
      assert t[1..] == rs[1..];
    }
  }

  lemma LaneStepOk(l: Lane, pushing: bool, r: nat, e: Event)
    requires LaneOk(l, pushing) && r < |l.routines|
    ensures var t := LaneStep(l, r, e);
            && LaneOk(t, pushing) && t.count <= l.count && |t.chans| == |l.chans|
            && forall g | 0 <= g < |l.chans| :: t.chans[g].closes == l.chans[g].closes
  {
    var x, t := l.routines[r], LaneStep(l, r, e);
    HeldUpdate(l.routines, r, t.routines[r]);
    if x.group < |l.chans| { QueuedUpdate(l.chans, x.group, t.chans[x.group]); }
    assert l.routines[r := l.routines[r]] == l.routines && l.chans[x.group := l.chans[x.group]] == l.chans;
    hide Queued, Held;
  }

  lemma RoutineOk(s: State, k: Kind, r: nat, e: Event)
    requires Inv(s) && r < |Get(s, k).routines|
    ensures Inv(Put(s, k, LaneStep(Get(s, k), r, e)))
  {
    LaneStepOk(Get(s, k), Pushing(s.div, k), r, e);
    hide LaneStep, LaneOk;
  }

  lemma SendOk(s: State)
    requires Inv(s)
    ensures Inv(Apply(s, Send))
  {
    if s.div.Sending? {
      var l, g := Get(s, s.div.kind), s.div.group;
      if g < |l.chans| { QueuedUpdate(l.chans, g, l.chans[g].(items := l.chans[g].items + [s.div.item])); }
    }
    hide Queued, Held;
  }

  lemma UndoOk(s: State)
    requires Inv(s)
    ensures Inv(Apply(s, Undo))
  {
    hide Queued, Held;
  }

  lemma CloseChanOk(l: Lane, pushing: bool, g: nat)
    requires LaneOk(l, pushing) && g < |l.chans|
    ensures LaneOk(SetChan(l, g, l.chans[g].(closes := l.chans[g].closes + 1)), pushing)
  {
    QueuedUpdate(l.chans, g, l.chans[g].(closes := l.chans[g].closes + 1));
    hide Queued, Held;
  }

  lemma CloseOk(s: State)
    requires Inv(s)
    ensures Inv(Apply(s, CloseNext))
  {
    if s.main.Closing? {
      var n := s.main.n;
      if n < |s.dl.chans| {
        CloseChanOk(s.dl, Pushing(s.div, DL), n);
      } else if n - |s.dl.chans| < |s.up.chans| {
        CloseChanOk(s.up, Pushing(s.div, UP), n - |s.dl.chans|);
      }
    }
    hide LaneOk;
  }

  lemma DividerOk(s: State, e: Event)
    requires Inv(s) && !e.Send? && !e.Undo? && !e.CloseNext? && !e.Receive? && !e.Release? && !e.SeeClosed?
    ensures Inv(Apply(s, e))
  {
    hide Queued, Held, SetChan, SetRoutine;
  }

  lemma StepOk(s: State, e: Event)
    requires Inv(s)
    ensures Inv(Apply(s, e))
  {
    hide Inv;
    match e
    case Send => SendOk(s);
    case Undo => UndoOk(s);
    case CloseNext => CloseOk(s);
    case Receive(k, r) => if r < |Get(s, k).routines| { RoutineOk(s, k, r, e); }
    case Release(k, r) => if r < |Get(s, k).routines| { RoutineOk(s, k, r, e); }
    case SeeClosed(k, r) => if r < |Get(s, k).routines| { RoutineOk(s, k, r, e); }
    case _ => DividerOk(s, e);
  }

  lemma {:induction false} NewIsEmpty(chans: seq<Chan>, rs: seq<Routine>)
    ensures (forall k | 0 <= k < |chans| :: chans[k].items == []) ==> Queued(chans) == 0
    ensures (forall r | 0 <= r < |rs| :: !rs[r].pc.Holding?) ==> Held(rs) == 0
    decreases |chans| + |rs|
  {
    if chans != [] { NewIsEmpty(chans[1..], rs); }
    if rs != [] { NewIsEmpty(chans, rs[1..]); }
  }

  lemma {:induction false} Reachable(s: State, es: seq<Event>)
    requires IsInit(s)
    ensures Inv(Exec(s, es))
    decreases |es|
  {
    hide Apply;
    if es == [] {
      NewIsEmpty(s.dl.chans, s.dl.routines);
      NewIsEmpty(s.up.chans, s.up.routines);
    } else {
      Reachable(s, es[..|es| - 1]);
      StepOk(Exec(s, es[..|es| - 1]), es[|es| - 1]);
    }
  }

  // --- main results -----------------------------------------------------------------------------------------

  /** MAIN: in every reachable state each counter is the number of items in its channels, plus the
      routines that have an item and have not decreased yet, plus a push in progress; so Decr
      never meets a zero. */
  lemma CountsAreExact(s: State, es: seq<Event>, k: Kind)
    requires IsInit(s)
    ensures var t := Exec(s, es);
            var l := Get(t, k);
            && l.count == Queued(l.chans) + Held(l.routines) + One(Pushing(t.div, k)) && !l.clamped
  {
    Reachable(s, es);
    hide Exec, IsInit;
  }

  lemma {:induction false} NothingThere(chans: seq<Chan>, rs: seq<Routine>)
    ensures Queued(chans) == 0 ==> forall g | 0 <= g < |chans| :: chans[g].items == []
    ensures Held(rs) == 0 ==> forall r | 0 <= r < |rs| :: !rs[r].pc.Holding?
    decreases |chans| + |rs|
  {
    if chans != [] {
      NothingThere(chans[1..], rs);
      assert forall g | 1 <= g < |chans| :: chans[g] == chans[1..][g - 1];
    }
    if rs != [] {
      NothingThere(chans, rs[1..]);
      assert forall r | 1 <= r < |rs| :: rs[r] == rs[1..][r - 1];
    }
  }

  /** MAIN: after the divider has left by a close case, "checkersGone" or force quit, all channels
      of both kinds are empty and no routine holds an item before its Decrease, for good. */
  lemma SettledMeansEmpty(s: State, es: seq<Event>, k: Kind)
    requires IsInit(s) && Exec(s, es).div == Exited(true)
    ensures var l := Get(Exec(s, es), k);
            && (forall g | 0 <= g < |l.chans| :: l.chans[g].items == [])
            && (forall r | 0 <= r < |l.routines| :: !l.routines[r].pc.Holding?)
  {
    Reachable(s, es);
    hide Exec, IsInit;
    var l := Get(Exec(s, es), k);
    NothingThere(l.chans, l.routines);
  }

  /** ... which the other exits do not give: here an item is left in the channel. */
  lemma QuitMayLeaveItems(s: State)
    requires IsInit(s) && s.dl.cap > 0 && |s.dl.chans| > 0
    ensures var t := Exec(s, [StartPush(DL, 0, 7), Send, Quit]);
            t.div == Exited(false) && |t.dl.chans| > 0 && t.dl.chans[0] == Chan([7], 0)
  {
    var a := Apply(s, StartPush(DL, 0, 7));
    var b := Apply(a, Send);
    assert s.dl.chans[0] == Chan([], 0) && [] + [7] == [7];
    assert b.dl.chans[0] == Chan([7], 0);
    var es := [StartPush(DL, 0, 7), Send, Quit];
    assert es[..2] == [StartPush(DL, 0, 7), Send] && es[..2][..1] == [StartPush(DL, 0, 7)] && es[..1][..0] == [];
    assert Exec(s, []) == s;
    assert Exec(s, [StartPush(DL, 0, 7)]) == a;
    assert Exec(s, [StartPush(DL, 0, 7), Send]) == b;
    hide Apply;
    assert Exec(s, es) == Apply(b, Quit);
  }

  /** MAIN: every channel is closed at most once, exactly once when StopRoutines is done, and
      nothing is sent on a channel that may be closed: while the divider sends, none is. */
  lemma ClosedOnce(s: State, es: seq<Event>, k: Kind, g: nat)
    requires IsInit(s) && g < |Get(Exec(s, es), k).chans|
    ensures var t := Exec(s, es);
            var c := Get(t, k).chans[g];
            && c.closes <= 1 && (t.main.Done? ==> c.closes == 1) && (!t.div.Exited? ==> c.closes == 0)
  {
    Reachable(s, es);
    hide Exec, IsInit;
  }

  // --- first in, first out ------------------------------------------------------------------------------------

  /** What a step put into channel g: a Send after which the divider is back in its round. */
  function Put1(p: State, e: Event, q: State, k: Kind, g: nat): seq<nat> {
    if e.Send? && p.div.Sending? && p.div.kind == k && p.div.group == g && q.div.InRound? then [p.div.item] else []
  }

  /** What a step took out of it: a Receive of a routine of the group, which has the item then. */
  function Took1(p: State, e: Event, q: State, k: Kind, g: nat): seq<nat> {
    if e.Receive? && e.k == k && e.r < |Get(p, k).routines| && e.r < |Get(q, k).routines|
        && Get(p, k).routines[e.r] == Routine(g, Waiting) && Get(q, k).routines[e.r].pc.Holding?
    then [Get(q, k).routines[e.r].pc.item] else []
  }

  function Sent(s: State, es: seq<Event>, k: Kind, g: nat): seq<nat> {
    if es == [] then [] else
    var front := es[..|es| - 1];
    Sent(s, front, k, g) + Put1(Exec(s, front), es[|es| - 1], Exec(s, es), k, g)
  }

  function Taken(s: State, es: seq<Event>, k: Kind, g: nat): seq<nat> {
    if es == [] then [] else
    var front := es[..|es| - 1];
    Taken(s, front, k, g) + Took1(Exec(s, front), es[|es| - 1], Exec(s, es), k, g)
  }

  function Items(s: State, k: Kind, g: nat): seq<nat> {
    if g < |Get(s, k).chans| then Get(s, k).chans[g].items else []
  }

  predicate InGroup(s: State) { s.div.Sending? ==> s.div.group < |Get(s, s.div.kind).chans| }

  predicate Moves(s: State, e: Event, k: Kind, g: nat) {
    var t := Apply(s, e);
    Items(s, k, g) + Put1(s, e, t, k, g) == Took1(s, e, t, k, g) + Items(t, k, g) && InGroup(t)
  }

  lemma ReceiveMoves(s: State, j: Kind, r: nat, k: Kind, g: nat)
    requires InGroup(s)
    ensures Moves(s, Receive(j, r), k, g)
  {
    if r < |Get(s, j).routines| {
      var l := Get(s, j);
      var x := l.routines[r];
      assert x.group < |l.chans| && l.chans[x.group].items != [] ==>
          [l.chans[x.group].items[0]] + l.chans[x.group].items[1..] == l.chans[x.group].items;
    }
  }

  lemma SendMoves(s: State, k: Kind, g: nat)
    requires InGroup(s)
    ensures Moves(s, Send, k, g)
  {}

  lemma OthersMove(s: State, e: Event, k: Kind, g: nat)
    requires InGroup(s) && !e.Receive? && !e.Send?
    ensures Moves(s, e, k, g)
  {}

  lemma StepMoves(s: State, e: Event, k: Kind, g: nat)
    requires InGroup(s)
    ensures Moves(s, e, k, g)
  {
    hide Moves, InGroup;
    match e
    case Receive(j, r) => ReceiveMoves(s, j, r, k, g);
    case Send => SendMoves(s, k, g);
    case _ => OthersMove(s, e, k, g);
  }

  /** MAIN: in every run, what was sent to a channel is what routines of its group have taken out, in the
      same order, followed by what is in it: nothing is lost, doubled, overtaken or taken by another group. */
  lemma {:induction false} FirstInFirstOut(s: State, es: seq<Event>, k: Kind, g: nat)
    requires IsInit(s)
    ensures var t := Exec(s, es);
            Sent(s, es, k, g) == Taken(s, es, k, g) + Items(t, k, g) && InGroup(t)
    decreases |es|
  {
    hide Apply, Put1, Took1, Items;
    if es == [] {
      assert Items(s, k, g) == [] by { ItemsAtFirst(s, k, g); }
    } else {
      var front, e := es[..|es| - 1], es[|es| - 1];
      var p := Exec(s, front);
      FirstInFirstOut(s, front, k, g);
      StepMoves(p, e, k, g);
      Regroup(Sent(s, front, k, g), Taken(s, front, k, g), Items(p, k, g), Put1(p, e, Exec(s, es), k, g),
              Took1(p, e, Exec(s, es), k, g), Items(Exec(s, es), k, g));
      hide Exec;
    }
  }

  lemma ItemsAtFirst(s: State, k: Kind, g: nat)
    requires IsInit(s)
    ensures Items(s, k, g) == []
  {}

  lemma Regroup(sent: seq<nat>, taken: seq<nat>, there: seq<nat>, put: seq<nat>, took: seq<nat>, left: seq<nat>)
    requires sent == taken + there && there + put == took + left
    ensures sent + put == (taken + took) + left
  {
    assert sent + put == taken + (there + put) == taken + (took + left);
  }

  // --- nothing waits in vain ----------------------------------------------------------------------------------------

  /** MAIN: a push succeeds just if the channel has room; one that fails puts nothing in, and takes back its count
      in the next step. */
  lemma PushSucceedsJustIf(s: State, k: Kind, g: nat, item: nat)
    requires Inv(s) && s.div.InRound? && g < |Get(s, k).chans|
    ensures var room := |Items(s, k, g)| < Get(s, k).cap;
            var p := Apply(s, StartPush(k, g, item));
            var q := Apply(p, Send);
            && Get(p, k).count == Get(s, k).count + 1 && Items(p, k, g) == Items(s, k, g)
            && (room ==> q.div == InRound && Items(q, k, g) == Items(s, k, g) + [item]
                         && Get(q, k).count == Get(s, k).count + 1)
            && (!room ==> q.div == Undoing(k) && Items(q, k, g) == Items(s, k, g) && Apply(q, Undo) == s)
  {
    hide Inv, LaneOk, ZerosStay, ClosesOk;
  }

  /** A routine can always go on once the channels are closed: it gives back the count of the item it has,
      takes the next one that is left, or is off when none is. */
  predicate GoesOn(s: State, k: Kind, r: nat)
    requires r < |Get(s, k).routines|
  {
    var x := Get(s, k).routines[r];
    match x.pc
    case Waiting =>
      var there := Items(s, k, x.group);
      if there != [] then
        var t := Apply(s, Receive(k, r));
        t != s && |Get(t, k).routines| == |Get(s, k).routines| && Get(t, k).routines[r].pc == Holding(there[0])
      else
        var t := Apply(s, SeeClosed(k, r));
        t != s && |Get(t, k).routines| == |Get(s, k).routines| && Get(t, k).routines[r].pc == Off
    case Holding(_) =>
      var t := Apply(s, Release(k, r));
      && |Get(t, k).routines| == |Get(s, k).routines| && Get(t, k).routines[r].pc == Waiting
      && Get(t, k).count + 1 == Get(s, k).count
    case Off => true
  }

  lemma {:induction false} HoldingCounts(rs: seq<Routine>, r: nat)
    requires r < |rs| && rs[r].pc.Holding?
    ensures Held(rs) > 0
    decreases |rs|
  {
    if r > 0 { HoldingCounts(rs[1..], r - 1); }
  }

  lemma ClosedGoesOn(s: State, k: Kind, r: nat)
    requires r < |Get(s, k).routines|
    requires var l := Get(s, k);
             var g := l.routines[r].group;
             g < |l.chans| && l.chans[g].closes == 1 && (l.routines[r].pc.Holding? ==> l.count > 0)
    ensures GoesOn(s, k, r)
  {}

  /** MAIN: in every run that has closed the channels no routine is stuck. */
  lemma NobodyStuck(s: State, es: seq<Event>, k: Kind, r: nat)
    requires IsInit(s) && Exec(s, es).main.Done? && r < |Get(Exec(s, es), k).routines|
    ensures GoesOn(Exec(s, es), k, r)
  {
    Reachable(s, es);
    hide Exec, IsInit, Queued, Held, GoesOn, ZerosStay;
    var t := Exec(s, es);
    var l := Get(t, k);
    if l.routines[r].pc.Holding? { HoldingCounts(l.routines, r); }
    ClosedGoesOn(t, k, r);
  }

  lemma OpenWaits(s: State, k: Kind, r: nat)
    requires r < |Get(s, k).routines|
    requires var l := Get(s, k);
             var g := l.routines[r].group;
             g < |l.chans| && l.chans[g].closes == 0
    ensures && Apply(s, SeeClosed(k, r)) == s
            && (Items(s, k, Get(s, k).routines[r].group) == [] ==> Apply(s, Receive(k, r)) == s)
  {}

  /** ... before that a routine that waits for an empty channel stays where it is. */
  lemma WaitsWhileOpen(s: State, es: seq<Event>, k: Kind, r: nat)
    requires IsInit(s) && !Exec(s, es).div.Exited? && r < |Get(Exec(s, es), k).routines|
    ensures var t := Exec(s, es);
            && Apply(t, SeeClosed(k, r)) == t
            && (Items(t, k, Get(t, k).routines[r].group) == [] ==> Apply(t, Receive(k, r)) == t)
  {
    Reachable(s, es);
    hide Exec, IsInit, Queued, Held, Apply, Items, ZerosStay;
    OpenWaits(Exec(s, es), k, r);
  }

  /** MAIN: the divider leaves its round for good in three steps when both counters are zero, and does not when
      it has read one that is not. */
  lemma LeavesJustAtZero(s: State)
    requires s.div.InRound?
    ensures var d := Apply(Apply(s, ReadFirst), ReadSecond);
            && d.div.Deciding? && Apply(d, Continue) == s
            && (Apply(d, Leave).div == Exited(true) <==> s.dl.count == 0 && s.up.count == 0)
            && (Apply(d, Leave).div != Exited(true) ==> Apply(d, Leave) == d)
            && Apply(d, Quit).div == Exited(false) && Apply(s, Quit).div == Exited(false)
  {}

  function Closes(n: nat): seq<Event> { seq(n, _ => CloseNext) }

  function Left(s: State): nat {
    match s.main
    case Closing(n) => if n < |s.dl.chans| + |s.up.chans| then |s.dl.chans| + |s.up.chans| - n + 1 else 1
    case _ => 0
  }

  lemma {:induction false} ClosingEnds(s: State)
    requires s.main.Closing?
    ensures Exec(s, Closes(Left(s))).main.Done?
    decreases Left(s)
  {
    var t, n := Apply(s, CloseNext), Left(s);
    assert t.main.Done? || (t.main.Closing? && Left(t) == n - 1);
    ExecFirst(s, CloseNext, Closes(n - 1));
    assert [CloseNext] + Closes(n - 1) == Closes(n);
    hide Apply;
    if !t.main.Done? { ClosingEnds(t); } else { assert Closes(n - 1) == []; }
  }

  lemma {:induction false} ExecFirst(s: State, e: Event, es: seq<Event>)
    ensures Exec(s, [e] + es) == Exec(Apply(s, e), es)
    decreases |es|
  {
    hide Apply;
    if es == [] {
      assert [e] + es == [e] && [e][..0] == [];
      assert Exec(s, [e][..0]) == s;
    } else {
      var front := es[..|es| - 1];
      ExecFirst(s, e, front);
      assert ([e] + es)[..|es|] == [e] + front;
    }
  }

  /** What StopRoutines does in state t, seen at channel g. */
  predicate StopsWell(t: State, k: Kind, g: nat) {
    var u := Apply(t, StopRoutines);
    var v := Exec(u, Closes(|t.dl.chans| + |t.up.chans| + 1));
    if t.div.Exited? then
      v.main.Done? && Apply(v, StopRoutines) == v && g < |Get(v, k).chans| && Get(v, k).chans[g].closes == 1
    else u == t
  }

  /** MAIN: StopRoutines after the divider has left closes every channel once, in as many steps as there are
      channels and one more; before that it does nothing, and a second one neither. */
  lemma StopClosesAll(s: State, es: seq<Event>, k: Kind, g: nat)
    requires IsInit(s) && g < |Get(Exec(s, es), k).chans| && Exec(s, es).main.NotYet?
    ensures StopsWell(Exec(s, es), k, g)
  {
    Reachable(s, es);
    hide Exec, IsInit, Inv, Closes;
    if Exec(s, es).div.Exited? {
      hide StopsWell;
      StopCloses(Exec(s, es), k, g);
    }
  }

  lemma StopCloses(t: State, k: Kind, g: nat)
    requires Inv(t) && t.div.Exited? && t.main.NotYet? && g < |Get(t, k).chans|
    ensures StopsWell(t, k, g)
  {
    var u, n := Apply(t, StopRoutines), |t.dl.chans| + |t.up.chans| + 1;
    assert Left(u) == n && u.dl == t.dl && u.up == t.up;
    ClosingEnds(u);
    StepOk(t, StopRoutines);
    ClosesKeep(u, Closes(n));
    hide Exec, Left, LaneOk, ZerosStay;
  }

  lemma {:induction false} ClosesKeep(s: State, es: seq<Event>)
    requires Inv(s) && forall e <- es :: e == CloseNext
    ensures var t := Exec(s, es);
            Inv(t) && |t.dl.chans| == |s.dl.chans| && |t.up.chans| == |s.up.chans|
    decreases |es|
  {
    if es != [] {
      var front := es[..|es| - 1];
      assert es[|es| - 1] in es && forall e <- front :: e in es;
      ClosesKeep(s, front);
      StepOk(Exec(s, front), CloseNext);
      CloseSizes(Exec(s, front));
      hide Apply, Inv;
    }
  }

  lemma CloseSizes(s: State)
    ensures var t := Apply(s, CloseNext); |t.dl.chans| == |s.dl.chans| && |t.up.chans| == |s.up.chans|
  {}

  // --- the objects --------------------------------------------------------------------------------------------

  /** Counter_uint64; zero entries are deleted, so a key is absent or positive. */
  class Counter {
    var m: map<string, nat>

    function Value(k: string): nat
      reads this
    {
      if k in m then m[k] else 0
    }

    predicate Valid()
      reads this
    {
      forall k <- m :: m[k] > 0
    }

    constructor ()
      ensures Valid() && m == map[]
    {
      m := map[];
    }

    method Incr(k: string) returns (v: nat)
      requires Valid()
      modifies this
      ensures Valid() && v == Value(k) == old(Value(k)) + 1
      ensures forall j: string | j != k :: Value(j) == old(Value(j))
    {
      m := m[k := Value(k) + 1];
      v := m[k];
    }

    method Decr(k: string) returns (v: nat)
      requires Valid()
      modifies this
      ensures Valid() && v == Value(k) == (if old(Value(k)) > 0 then old(Value(k)) - 1 else 0)
      ensures forall j: string | j != k :: Value(j) == old(Value(j))
    {
      v := 0;
      if Value(k) > 0 {
        m := m[k := m[k] - 1];
        v := m[k];
        if m[k] == 0 { m := m - {k}; }
      }
    }
  }

  /** A bounded channel; sending on or closing a closed one panics. */
  class SegmentChan {
    const cap: nat
    var items: seq<nat>
    var open: bool

    constructor (cap: nat)
      ensures this.cap == cap && items == [] && open
    {
      this.cap, items, open := cap, [], true;
    }

    /** case ch <- item: ... default: ... */
    method TrySend(item: nat) returns (sent: bool)
      requires open
      modifies this`items
      ensures sent == (|old(items)| < cap)
      ensures items == if sent then old(items) + [item] else old(items)
    {
      sent := |items| < cap;
      if sent { items := items + [item]; }
    }

    method Close()
      requires open
      modifies this`open
      ensures !open
    {
      open := false;
    }
  }

  /** The push of pushDL and pushUP: the counter goes up before the send and down again if the
      channel is full; in between other goroutines may move the counter, here they do not. */
  method Push(ch: SegmentChan, item: nat, counter: Counter, key: string) returns (pushed: bool)
    requires ch.open && counter.Valid()
    modifies ch`items, counter
    ensures counter.Valid() && pushed == (|old(ch.items)| < ch.cap)
    ensures ch.items == if pushed then old(ch.items) + [item] else old(ch.items)
    ensures counter.Value(key) - |ch.items| == old(counter.Value(key) - |ch.items|)
    ensures forall j: string | j != key :: counter.Value(j) == old(counter.Value(j))
  {
    var v := counter.Incr(key);
    pushed := ch.TrySend(item);
    if !pushed { v := counter.Decr(key); }
  }

  /** The channels of a session, one per group and kind. */
  class WorkChans {
    const downs: seq<SegmentChan>
    const reups: seq<SegmentChan>
    var once: bool

    ghost predicate Valid()
      reads this, downs, reups
    {
      && (forall i, k | 0 <= i < k < |downs| :: downs[i] != downs[k])
      && (forall i, k | 0 <= i < k < |reups| :: reups[i] != reups[k])
      && (forall i, k | 0 <= i < |downs| && 0 <= k < |reups| :: downs[i] != reups[k])
      && (forall c <- downs :: c.open == !once) && (forall c <- reups :: c.open == !once)
    }

    constructor (downs: seq<SegmentChan>, reups: seq<SegmentChan>)
      requires forall i, k | 0 <= i < k < |downs| :: downs[i] != downs[k]
      requires forall i, k | 0 <= i < k < |reups| :: reups[i] != reups[k]
      requires forall i, k | 0 <= i < |downs| && 0 <= k < |reups| :: downs[i] != reups[k]
      requires (forall c <- downs :: c.open) && (forall c <- reups :: c.open)
      ensures Valid() && !once && this.downs == downs && this.reups == reups
    {
      this.downs, this.reups, once := downs, reups, false;
    }

    /** closeWorkChans: closes every channel; a second call does nothing, and no call closes a
        closed channel. */
    method CloseWorkChans()
      requires Valid()
      modifies this`once, downs, reups
      ensures Valid() && once
      ensures forall c <- downs :: !c.open && c.items == old(c.items)
      ensures forall c <- reups :: !c.open && c.items == old(c.items)
    {
      if once { return; }
      for k := 0 to |downs|
        invariant forall i | 0 <= i < |downs| :: downs[i].open == (i >= k)
        invariant forall i | 0 <= i < |reups| :: reups[i].open
        invariant (forall c <- downs :: c.items == old(c.items)) && (forall c <- reups :: c.items == old(c.items))
      {
        downs[k].Close();
      }
      for k := 0 to |reups|
        invariant forall i | 0 <= i < |reups| :: reups[i].open == (i >= k)
        invariant forall i | 0 <= i < |downs| :: !downs[i].open
        invariant (forall c <- downs :: c.items == old(c.items)) && (forall c <- reups :: c.items == old(c.items))
      {
        reups[k].Close();
      }
      once := true;
    }
  }
}
