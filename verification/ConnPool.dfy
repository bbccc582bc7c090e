/** The connection pool of one provider and the shared-connection token of its workers. */
module ConnPool {
  // ConnPool.go, Workers.go, Routines.go. The provider has `maxConns` workers. Each is a GoWorker
  // (actor 0) and three routines (actors 1 to 3: check, download, re-upload) that pass one
  // connection, or nil for "get a new one", through a channel of capacity 1. One event is one
  // channel operation or one critical section of one actor; an event its actor cannot take
  // changes nothing.


  type Conn = nat

  /** What CloseConn's caller does next. */
  datatype After = ToGet | ToDial | ToNil | ToBroken | ToEnd

  datatype Pc =
    | NotYet                  // routine not started
    | Off                     // exited, or GoWorker waiting for its routines
    | Ready                   // between two items
    | Asking                  // in SharedConnGet's select
    | Get                     // head of GetConn's loop
    | Popped(c: Conn)         // got an idle conn, looking at its age
    | Closing(after: After)   // closeConnOnce: conn is nil, openConns not decremented yet
    | NoIdle                  // the pool ran empty: about to compare openConns and MaxConns
    | WaitPool                // the infinite wait for an idle conn
    | Dial(stale: bool)         // about to enter NewConn's critical section
    | Dialing(stale: bool)      // counted in openConns, connecting
    | DialErr(stale: bool)      // connect failed, openConns not decremented yet
    | Retry(stale: bool)        // NewConn returned an error
    | Failed                  // GetConn returned an error
    | Using(c: Conn)
    | Broken                  // the command closed the conn; the caller will close it again
    | NilOut                  // about to send the nil token
    | Return(c: Conn)         // about to send the conn back
    | Parking(c: Conn)        // GoWorker: final park

  datatype Chan = Empty | NilToken | Has(c: Conn)

  datatype Phase = Booting | Running | Ending | Ended

  datatype WorkerState = Worker(phase: Phase, chan: Chan, pcs: seq<Pc>)

  /** GoWorker and its three routines. */
  type Worker = w: WorkerState | |w.pcs| == 4 witness Worker(Ended, Empty, [Off, Off, Off, Off])

  datatype State = State(maxConns: nat, open: int, pool: seq<Conn>, live: set<Conn>, next: Conn,
                         ws: seq<Worker>, stop: bool)

  datatype Action =
    | Start                // GoWorker starts a routine
    | Want                 // a routine takes an item and calls SharedConnGet
    | TakeToken
    | AskStop              // sessStop is closed; a token may have come in between
    | Quit                 // a routine ends
    | PopIdle              // case connitem = <-c.pool
    | SeeEmpty             // its default branch
    | Judge(age: Age)      // look at parktime
    | Uncount              // the critical section with openConns--
    | CheckCount           // mutex c458
    | WaitRecv | WaitStop  // the infinite wait ends
    | DialStop             // sessStop is closed before dialing
    | StartDial            // mutex c459a
    | EndDial(ok: bool)
    | AfterRetry(again: bool)
    | GiveNil              // send nil (or, for GoWorker at boot, give up)
    | Finish(how: Outcome) // the command on the conn ended
    | CloseAgain           // the caller's CloseConn on a conn already closed
    | GiveBack             // SharedConnReturn / first send of GetNewSharedConnChannel
    | FinalTake            // GoWorker, after its routines are gone
    | Park
    | StopSession

  datatype Age = Fresh | Expired | MaybeDead
  datatype Outcome = Fine | Fails | FailsClosed

  datatype Event = Event(w: nat, r: nat, a: Action)

  const Boot: Worker := Worker(Booting, Empty, [Get, NotYet, NotYet, NotYet])

  function Init(maxConns: nat): State {
    State(maxConns, 0, [], {}, 0, seq(maxConns, _ => Boot), false)
  }

  /** Worker `e.w`, actor `e.r` goes to `pc`. */
  function Go(s: State, e: Event, pc: Pc): State
    requires Acts(s, e)
  {
    s.(ws := s.ws[e.w := s.ws[e.w].(pcs := s.ws[e.w].pcs[e.r := pc])])
  }

  function SetWorker(s: State, w: nat, x: Worker): State
    requires w < |s.ws|
  {
    s.(ws := s.ws[w := x])
  }

  predicate Acts(s: State, e: Event) { e.w < |s.ws| && e.r < |s.ws[e.w].pcs| }

  /** closeConnOnce up to `connitem.conn = nil`. */
  function Kill(s: State, e: Event, c: Conn, after: After): State
    requires Acts(s, e)
  {
    Go(s, e, Closing(after)).(live := s.live - {c})
  }

  function AfterClose(a: After): Pc {
    match a
    case ToGet => Get case ToDial => Dial(true) case ToNil => NilOut case ToBroken => Broken case ToEnd => Off
  }

  function Apply(s: State, e: Event): State {
    if e.a.StopSession? then s.(stop := true)
    else if !Acts(s, e) then s
    else var w := s.ws[e.w]; var pc := w.pcs[e.r]; ApplyAt(s, e, w, pc)
  }

  function ApplyAt(s: State, e: Event, w: Worker, pc: Pc): State
    requires Acts(s, e) && w == s.ws[e.w] && pc == w.pcs[e.r]
  {
    match e.a
    case Start => if pc.NotYet? && w.phase.Running? then Go(s, e, Ready) else s
    case Want => if pc.Ready? then Go(s, e, Asking) else s
    case TakeToken =>
      if pc.Asking? && !w.chan.Empty?
      then SetWorker(s, e.w, w.(chan := Empty, pcs := w.pcs[e.r := if w.chan.Has? then Using(w.chan.c) else Get]))
      else s
    case AskStop => if pc.Asking? && s.stop then Go(s, e, Ready) else s
    case Quit => if pc.Ready? then Go(s, e, Off) else s
    case PopIdle =>
      if pc.Get? && s.pool != [] then Go(s, e, Popped(s.pool[0])).(pool := s.pool[1..]) else s
    case SeeEmpty => if pc.Get? && s.pool == [] then Go(s, e, NoIdle) else s
    case Judge(age) =>
      if !pc.Popped? then s
      else (match age
            case Fresh => Go(s, e, Using(pc.c))
            case Expired => Kill(s, e, pc.c, ToDial)
            case MaybeDead => Kill(s, e, pc.c, ToGet))
    case Uncount =>
      if pc.Closing?
      then SetWorker(s, e.w, Worker(if pc.after.ToEnd? then Ended else w.phase, w.chan,
                                    w.pcs[e.r := AfterClose(pc.after)])).(open := s.open - 1)
      else if pc.DialErr? then Go(s, e, Retry(pc.stale)).(open := s.open - 1)
      else s
    case CheckCount =>
      if !pc.NoIdle? then s
      else if s.open > s.maxConns then Go(s, e, Failed)
      else if s.open == s.maxConns then Go(s, e, WaitPool)
      else Go(s, e, Dial(false))
    case WaitRecv =>
      if pc.WaitPool? && s.pool != [] then Go(s, e, Using(s.pool[0])).(pool := s.pool[1..]) else s
    case WaitStop => if pc.WaitPool? && s.stop then Go(s, e, Failed) else s
    case DialStop => if pc == Dial(false) && s.stop then Go(s, e, Failed) else s
    case StartDial =>
      if !pc.Dial? then s
      else if s.open < s.maxConns then Go(s, e, Dialing(pc.stale)).(open := s.open + 1)
      else Go(s, e, Retry(pc.stale))
    case EndDial(ok) =>
      if !pc.Dialing? then s
      else if ok then Go(s, e, Using(s.next)).(live := s.live + {s.next}, next := s.next + 1)
      else Go(s, e, DialErr(pc.stale))
    case AfterRetry(again) => if pc.Retry? then Go(s, e, if again || pc.stale then Get else Failed) else s
    case GiveNil =>
      if pc.Failed? && e.r == 0 then SetWorker(s, e.w, Worker(Ended, w.chan, w.pcs[0 := Off]))
      else if (pc.Failed? || pc.NilOut?) && w.chan.Empty?
      then SetWorker(s, e.w, w.(chan := NilToken, pcs := w.pcs[e.r := Ready]))
      else s
    case Finish(how) =>
      if !pc.Using? then s
      else if how.Fine? || e.r == 0 then Go(s, e, Return(pc.c))
      else Kill(s, e, pc.c, if how.Fails? then ToNil else ToBroken)
    case CloseAgain => if pc.Broken? then Go(s, e, NilOut) else s
    case GiveBack =>
      if !pc.Return? || !w.chan.Empty? then s
      else if e.r == 0 then SetWorker(s, e.w, Worker(Running, Has(pc.c), w.pcs[0 := Off]))
      else SetWorker(s, e.w, w.(chan := Has(pc.c), pcs := w.pcs[e.r := Ready]))
    case FinalTake =>
      if !(w.phase.Running? && e.r == 0 && w.pcs == [Off, Off, Off, Off]) then s
      else if w.chan.Has? then SetWorker(s, e.w, Worker(Ending, Empty, w.pcs[0 := Parking(w.chan.c)]))
      else SetWorker(s, e.w, Worker(Ended, Empty, w.pcs))   // nil token, or no token at all
    case Park =>
      if !pc.Parking? then s
      else if |s.pool| < s.maxConns
      then SetWorker(s, e.w, Worker(Ended, w.chan, w.pcs[e.r := Off])).(pool := s.pool + [pc.c])
      else Kill(s, e, pc.c, ToEnd)
    case StopSession => s
  }

  function Exec(s: State, es: seq<Event>): State {
    if es == [] then s else Apply(Exec(s, es[..|es| - 1]), es[|es| - 1])
  }

  // --- what a worker has -------------------------------------------------------

  /** 1 if an actor at this point accounts for one unit of openConns. */
  function Own(pc: Pc): nat {
    if pc.Popped? || pc.Closing? || pc.Dialing? || pc.DialErr? || pc.Using? || pc.Return? || pc.Parking? then 1 else 0
  }

  /** 1 if an actor at this point holds its worker's token. */
  function Tok(pc: Pc): nat { if Quiet(pc) || pc.Ready? || pc.Asking? then 0 else 1 }

  predicate Quiet(pc: Pc) { pc.NotYet? || pc.Off? }

  predicate HoldsConn(pc: Pc) { pc.Popped? || pc.Using? || pc.Return? || pc.Parking? }

  /** How often connection `c` is at an actor, in the channel, in the pool, live. */
  function At(pc: Pc, c: Conn): nat { if HoldsConn(pc) && pc.c == c then 1 else 0 }
  function ChanAt(ch: Chan, c: Conn): nat { if ch == Has(c) then 1 else 0 }
  function PoolAt(pool: seq<Conn>, c: Conn): nat { multiset(pool)[c] }
  function LiveAt(live: set<Conn>, c: Conn): nat { if c in live then 1 else 0 }

  /** 1 if an actor at this point is counted in openConns without a live connection. */
  function Pend(pc: Pc): nat { if pc.Closing? || pc.Dialing? || pc.DialErr? then 1 else 0 }

  function ChanOwn(ch: Chan): nat { if ch.Has? then 1 else 0 }
  function ChanTok(ch: Chan): nat { if ch.Empty? then 0 else 1 }
  function SumOwn(pcs: seq<Pc>): nat { if pcs == [] then 0 else Own(pcs[0]) + SumOwn(pcs[1..]) }
  function SumPend(pcs: seq<Pc>): nat { if pcs == [] then 0 else Pend(pcs[0]) + SumPend(pcs[1..]) }
  function SumTok(pcs: seq<Pc>): nat { if pcs == [] then 0 else Tok(pcs[0]) + SumTok(pcs[1..]) }

  function SumAt(pcs: seq<Pc>, c: Conn): nat { if pcs == [] then 0 else At(pcs[0], c) + SumAt(pcs[1..], c) }

  function Owned(w: Worker): nat { ChanOwn(w.chan) + SumOwn(w.pcs) }
  function Tokens(w: Worker): nat { ChanTok(w.chan) + SumTok(w.pcs) }
  function AtWorker(w: Worker, c: Conn): nat { ChanAt(w.chan, c) + SumAt(w.pcs, c) }

  function DeadOf(w: Worker): nat { if w.phase.Ended? then 1 else 0 }

  function TotalOwned(ws: seq<Worker>): nat
  {
    if ws == [] then 0 else Owned(ws[0]) + TotalOwned(ws[1..])
  }

  function TotalPend(ws: seq<Worker>): nat { if ws == [] then 0 else SumPend(ws[0].pcs) + TotalPend(ws[1..]) }

  function TotalDead(ws: seq<Worker>): nat { if ws == [] then 0 else DeadOf(ws[0]) + TotalDead(ws[1..]) }

  function TotalAt(ws: seq<Worker>, c: Conn): nat { if ws == [] then 0 else AtWorker(ws[0], c) + TotalAt(ws[1..], c) }

  predicate RestQuiet(pcs: seq<Pc>) { forall r | 1 <= r < |pcs| :: Quiet(pcs[r]) }

  /** The token is in exactly one place, the channel or one actor, until the worker is gone. */
  predicate WorkerOk(w: Worker) { ShapeOk(w) && Tokens(w) == if w.phase.Ended? then 0 else 1 }

  predicate ShapeOk(w: Worker) {
    match w.phase
    case Booting => w.chan.Empty? && Tok(w.pcs[0]) == 1 && RestQuiet(w.pcs)
        && !EndPoint(w.pcs[0]) && !NilPoint(w.pcs[0])
    case Running => w.pcs[0].Off? && forall r | 0 <= r < |w.pcs| :: !EndPoint(w.pcs[r])
    case Ending => w.chan.Empty? && EndPoint(w.pcs[0]) && RestQuiet(w.pcs)
    case Ended => Quiet(w.pcs[0]) && RestQuiet(w.pcs)
  }

  /** Points only the final park reaches, and points only a routine reaches. */
  predicate EndPoint(pc: Pc) { pc.Parking? || pc == Closing(ToEnd) }
  predicate NilPoint(pc: Pc) { pc.NilOut? || pc.Broken? || pc == Closing(ToNil) || pc == Closing(ToBroken) }

  ghost predicate Inv(s: State) {
    && |s.ws| == s.maxConns
    && (forall w <- s.ws :: WorkerOk(w))
    && s.open == |s.pool| + TotalOwned(s.ws)
    && |s.pool| <= TotalDead(s.ws)
    && s.open == |s.live| + TotalPend(s.ws)
    && (forall c: Conn :: PoolAt(s.pool, c) + TotalAt(s.ws, c) == LiveAt(s.live, c))
    && (forall c <- s.live :: c < s.next)
  }

  // --- sums over workers -------------------------------------------------------

  lemma {:induction false} TotalsUpdate(ws: seq<Worker>, i: nat, x: Worker)
    requires i < |ws|
    ensures TotalOwned(ws[i := x]) == TotalOwned(ws) - Owned(ws[i]) + Owned(x)
    ensures TotalPend(ws[i := x]) == TotalPend(ws) - SumPend(ws[i].pcs) + SumPend(x.pcs)
    ensures TotalDead(ws[i := x]) == TotalDead(ws) - DeadOf(ws[i]) + DeadOf(x)
  {
    if i == 0 {
      assert ws[i := x][1..] == ws[1..];
    } else {
      assert ws[i := x][1..] == ws[1..][i - 1 := x];
      TotalsUpdate(ws[1..], i - 1, x);
    }
  }

  lemma {:induction false} AtUpdate(ws: seq<Worker>, i: nat, x: Worker, c: Conn)
    requires i < |ws|
    ensures AtWorker(ws[i], c) <= TotalAt(ws, c)
    ensures TotalAt(ws[i := x], c) == TotalAt(ws, c) - AtWorker(ws[i], c) + AtWorker(x, c)
  {
    if i == 0 {
      assert ws[i := x][1..] == ws[1..];
    } else {
      assert ws[i := x][1..] == ws[1..][i - 1 := x];
      AtUpdate(ws[1..], i - 1, x, c);
    }
  }

  lemma {:induction false} PcAtUpdate(pcs: seq<Pc>, r: nat, pc: Pc, c: Conn)
    requires r < |pcs|
    ensures At(pcs[r], c) <= SumAt(pcs, c)
    ensures SumAt(pcs[r := pc], c) == SumAt(pcs, c) - At(pcs[r], c) + At(pc, c)
  {
    if r == 0 {
      assert pcs[r := pc][1..] == pcs[1..];
    } else {
      assert pcs[r := pc][1..] == pcs[1..][r - 1 := pc];
      PcAtUpdate(pcs[1..], r - 1, pc, c);
    }
  }

  lemma {:induction false} OwnLeTok(pcs: seq<Pc>)
    ensures SumOwn(pcs) <= SumTok(pcs)
  {
    if pcs != [] { OwnLeTok(pcs[1..]); }
  }

  lemma {:induction false} PcsUpdate(pcs: seq<Pc>, r: nat, pc: Pc)
    requires r < |pcs|
    ensures SumOwn(pcs[r := pc]) == SumOwn(pcs) - Own(pcs[r]) + Own(pc)
    ensures SumPend(pcs[r := pc]) == SumPend(pcs) - Pend(pcs[r]) + Pend(pc)
    ensures SumTok(pcs[r := pc]) == SumTok(pcs) - Tok(pcs[r]) + Tok(pc)
  {
    if r == 0 {
      assert pcs[r := pc][1..] == pcs[1..];
    } else {
      assert pcs[r := pc][1..] == pcs[1..][r - 1 := pc];
      PcsUpdate(pcs[1..], r - 1, pc);
    }
  }

  lemma {:induction false} QuietNoToken(pcs: seq<Pc>)
    requires forall r | 0 <= r < |pcs| :: Quiet(pcs[r])
    ensures SumTok(pcs) == 0
  {
    if pcs != [] { QuietNoToken(pcs[1..]); }
  }

  /** One token, so at most one unit of openConns, and none once the worker is gone. */
  lemma OneUnit(w: Worker)
    requires WorkerOk(w)
    ensures Owned(w) + DeadOf(w) <= 1
  {
    OwnLeTok(w.pcs);
  }

  /** A worker that is not gone and owns nothing leaves room: the others and the
      connections parked by the gone ones cannot make up maxConns. */
  lemma {:induction false} RoomFor(ws: seq<Worker>, i: nat)
    requires forall w <- ws :: WorkerOk(w)
    ensures TotalOwned(ws) + TotalDead(ws) <= |ws|
    ensures i < |ws| && Owned(ws[i]) == 0 && !ws[i].phase.Ended? ==> TotalOwned(ws) + TotalDead(ws) < |ws|
  {
    if ws != [] {
      OneUnit(ws[0]);
      RoomFor(ws[1..], if i > 0 then i - 1 else |ws|);
    }
  }

  lemma {:induction false} QuietNoConn(pcs: seq<Pc>, c: Conn)
    requires forall r | 0 <= r < |pcs| :: Quiet(pcs[r])
    ensures SumAt(pcs, c) == 0
  {
    if pcs != [] { QuietNoConn(pcs[1..], c); }
  }

  lemma BootAlone(c: Conn)
    ensures Owned(Boot) == 0 && Tokens(Boot) == 1 && AtWorker(Boot, c) == 0
  {
    QuietNoToken(Boot.pcs[1..]);
    OwnLeTok(Boot.pcs[1..]);
    QuietNoConn(Boot.pcs[1..], c);
  }

  lemma {:induction false} InitTotals(ws: seq<Worker>, c: Conn)
    requires forall i | 0 <= i < |ws| :: ws[i] == Boot
    ensures TotalOwned(ws) == TotalPend(ws) == TotalDead(ws) == TotalAt(ws, c) == 0
  {
    BootAlone(c);
    if ws != [] { InitTotals(ws[1..], c); }
  }

  // --- every step keeps the invariant ------------------------------------------

  /** A step in which one actor of one worker moves and balances its own books. */
  ghost predicate Local(s: State, t: State, e: Event)
    requires Acts(s, e)
  {
    && |t.ws| == |s.ws| && t.ws == s.ws[e.w := t.ws[e.w]] && t.maxConns == s.maxConns
    && var (w, x) := (s.ws[e.w], t.ws[e.w]);
    && var (a, b) := (w.pcs[e.r], x.pcs[e.r]);
    && x.pcs == w.pcs[e.r := b]
    && ShapeOk(x)
    && TokenOk(w, x, a, b)
    && t.open - |t.pool| - Own(b) - ChanOwn(x.chan) == s.open - |s.pool| - Own(a) - ChanOwn(w.chan)
    && |t.pool| - DeadOf(x) <= |s.pool| - DeadOf(w)
    && t.open - |t.live| - Pend(b) == s.open - |s.live| - Pend(a)
    && (forall c <- t.live :: c < t.next)
  }

  /** ... and neither loses nor doubles connection `c`. */
  ghost predicate Books(s: State, t: State, e: Event, c: Conn)
    requires Acts(s, e) && Acts(t, e)
  {
    var (w, x) := (s.ws[e.w], t.ws[e.w]);
    PoolAt(t.pool, c) + At(x.pcs[e.r], c) + ChanAt(x.chan, c) + LiveAt(s.live, c)
    == PoolAt(s.pool, c) + At(w.pcs[e.r], c) + ChanAt(w.chan, c) + LiveAt(t.live, c)
  }

  predicate TokenOk(w: Worker, x: Worker, a: Pc, b: Pc) {
    if x.phase.Ended?
    then Tok(b) == 0 && x.chan.Empty? && Tok(a) + ChanTok(w.chan) == Tokens(w)
    else Tok(b) + ChanTok(x.chan) == Tok(a) + ChanTok(w.chan) && !w.phase.Ended?
  }

  lemma ActorKeepsConns(s: State, t: State, e: Event)
    requires Inv(s) && Acts(s, e) && Local(s, t, e) && forall c: Conn :: Books(s, t, e, c)
    ensures forall c: Conn :: PoolAt(t.pool, c) + TotalAt(t.ws, c) == LiveAt(t.live, c)
  {
    forall c: Conn ensures PoolAt(t.pool, c) + TotalAt(t.ws, c) == LiveAt(t.live, c) {
      AtUpdate(s.ws, e.w, t.ws[e.w], c);
      PcAtUpdate(s.ws[e.w].pcs, e.r, t.ws[e.w].pcs[e.r], c);
      assert PoolAt(s.pool, c) + TotalAt(s.ws, c) == LiveAt(s.live, c);
      assert Books(s, t, e, c);
    }
  }

  lemma ActorKeepsInv(s: State, t: State, e: Event)
    requires Inv(s) && Acts(s, e) && Local(s, t, e) && forall c: Conn :: Books(s, t, e, c)
    ensures Inv(t)
  {
    var w, x := s.ws[e.w], t.ws[e.w];
    ActorKeepsConns(s, t, e);
    PcsUpdate(w.pcs, e.r, x.pcs[e.r]);
    TotalsUpdate(s.ws, e.w, x);
    assert WorkerOk(w);
    forall y <- t.ws ensures WorkerOk(y) {
      if y != x { assert y in s.ws; }
    }
  }

  lemma {:induction false} TokIn(pcs: seq<Pc>, r: nat)
    requires r < |pcs|
    ensures Tok(pcs[r]) <= SumTok(pcs)
    ensures SumTok(pcs) == Tok(pcs[r]) ==> forall q | 0 <= q < |pcs| && q != r :: Tok(pcs[q]) == 0
  {
    if r > 0 {
      TokIn(pcs[1..], r - 1);
    } else {
      NoTokens(pcs[1..]);
    }
  }

  lemma {:induction false} NoTokens(pcs: seq<Pc>)
    ensures SumTok(pcs) == 0 ==> forall q | 0 <= q < |pcs| :: Tok(pcs[q]) == 0
  {
    if pcs != [] { NoTokens(pcs[1..]); }
  }

  /** The token is where the actor says: the channel is empty and no other actor has it. */
  lemma TokenHere(w: Worker, r: nat)
    requires WorkerOk(w) && r < |w.pcs| && Tok(w.pcs[r]) == 1
    ensures w.chan.Empty? && forall q | 0 <= q < |w.pcs| && q != r :: Tok(w.pcs[q]) == 0
    ensures !w.phase.Ended? && (r == 0 <==> !w.phase.Running?)
  {
    TokIn(w.pcs, r);
  }

  /** What each of the next lemmas starts from. */
  ghost predicate Ready0(s: State, e: Event) {
    && Acts(s, e) && WorkerOk(s.ws[e.w]) && (forall c <- s.live :: c < s.next)
    && HeldIsLive(s, e)
    && Apply(s, e) != s
  }

  /** The actor with the token goes on to another point with the token. */
  lemma MovesOn(w: Worker, r: nat, b: Pc)
    requires WorkerOk(w) && r < |w.pcs| && Tok(w.pcs[r]) == 1 == Tok(b)
    requires EndPoint(b) == EndPoint(w.pcs[r]) && (NilPoint(b) ==> NilPoint(w.pcs[r]) || r != 0)
    ensures ShapeOk(w.(pcs := w.pcs[r := b]))
  {
    hide SumOwn, SumPend, SumTok, SumAt;
    TokenHere(w, r);
  }

  /** Steps of a routine between items, and of GetConn, that move nothing. */
  lemma IdleLocal(s: State, e: Event)
    requires Ready0(s, e) && (e.a.Start? || e.a.Want? || e.a.AskStop? || e.a.Quit?)
    ensures Local(s, Apply(s, e), e)
  {
    hide SumOwn, SumPend, SumTok, SumAt, TotalOwned, TotalPend, TotalDead, TotalAt;
  }

  lemma LookLocal(s: State, e: Event)
    requires Ready0(s, e) && (e.a.SeeEmpty? || e.a.WaitStop?)
    ensures Local(s, Apply(s, e), e)
  {
    hide SumOwn, SumPend, SumTok, SumAt, TotalOwned, TotalPend, TotalDead, TotalAt, ShapeOk, Tokens;
    TokenHere(s.ws[e.w], e.r);
    MovesOn(s.ws[e.w], e.r, Apply(s, e).ws[e.w].pcs[e.r]);
  }

  lemma CountLocal(s: State, e: Event)
    requires Ready0(s, e) && e.a.CheckCount?
    ensures Local(s, Apply(s, e), e)
  {
    hide SumOwn, SumPend, SumTok, SumAt, TotalOwned, TotalPend, TotalDead, TotalAt, ShapeOk, Tokens;
    TokenHere(s.ws[e.w], e.r);
    MovesOn(s.ws[e.w], e.r, Apply(s, e).ws[e.w].pcs[e.r]);
  }

  lemma LeaveLocal(s: State, e: Event)
    requires Ready0(s, e) && (e.a.DialStop? || e.a.AfterRetry? || e.a.CloseAgain?)
    ensures Local(s, Apply(s, e), e)
  {
    hide SumOwn, SumPend, SumTok, SumAt, TotalOwned, TotalPend, TotalDead, TotalAt, ShapeOk, Tokens;
    TokenHere(s.ws[e.w], e.r);
    MovesOn(s.ws[e.w], e.r, Apply(s, e).ws[e.w].pcs[e.r]);
  }

  /** Steps that move a connection but not the token. */
  lemma PopLocal(s: State, e: Event)
    requires Ready0(s, e) && (e.a.PopIdle? || e.a.WaitRecv?)
    ensures Local(s, Apply(s, e), e)
  {
    hide SumOwn, SumPend, SumTok, SumAt, TotalOwned, TotalPend, TotalDead, TotalAt, ShapeOk, Tokens;
    TokenHere(s.ws[e.w], e.r);
    MovesOn(s.ws[e.w], e.r, Apply(s, e).ws[e.w].pcs[e.r]);
  }

  lemma JudgeLocal(s: State, e: Event)
    requires Ready0(s, e) && e.a.Judge?
    ensures Local(s, Apply(s, e), e)
  {
    hide SumOwn, SumPend, SumTok, SumAt, TotalOwned, TotalPend, TotalDead, TotalAt, ShapeOk, Tokens;
    TokenHere(s.ws[e.w], e.r);
    MovesOn(s.ws[e.w], e.r, Apply(s, e).ws[e.w].pcs[e.r]);
  }

  lemma FinishLocal(s: State, e: Event)
    requires Ready0(s, e) && e.a.Finish?
    ensures Local(s, Apply(s, e), e)
  {
    hide SumOwn, SumPend, SumTok, SumAt, TotalOwned, TotalPend, TotalDead, TotalAt, ShapeOk, Tokens;
    TokenHere(s.ws[e.w], e.r);
    MovesOn(s.ws[e.w], e.r, Apply(s, e).ws[e.w].pcs[e.r]);
  }

  lemma StartLocal(s: State, e: Event)
    requires Ready0(s, e) && e.a.StartDial?
    ensures Local(s, Apply(s, e), e)
  {
    hide SumOwn, SumPend, SumTok, SumAt, TotalOwned, TotalPend, TotalDead, TotalAt, ShapeOk, Tokens;
    TokenHere(s.ws[e.w], e.r);
    MovesOn(s.ws[e.w], e.r, Apply(s, e).ws[e.w].pcs[e.r]);
  }

  lemma DialLocal(s: State, e: Event)
    requires Ready0(s, e) && e.a.EndDial?
    ensures Local(s, Apply(s, e), e)
  {
    hide SumOwn, SumPend, SumTok, SumAt, TotalOwned, TotalPend, TotalDead, TotalAt, ShapeOk, Tokens;
    TokenHere(s.ws[e.w], e.r);
    MovesOn(s.ws[e.w], e.r, Apply(s, e).ws[e.w].pcs[e.r]);
  }

  /** A connection an actor holds is live. */
  predicate HeldIsLive(s: State, e: Event)
    requires Acts(s, e)
  {
    var pc := s.ws[e.w].pcs[e.r]; HoldsConn(pc) ==> pc.c in s.live
  }

  lemma LiveConn(s: State, e: Event)
    requires Inv(s) && Acts(s, e)
    ensures HeldIsLive(s, e)
  {
    var w := s.ws[e.w];
    var pc := w.pcs[e.r];
    if HoldsConn(pc) {
      AtUpdate(s.ws, e.w, w, pc.c);
      PcAtUpdate(w.pcs, e.r, pc, pc.c);
      assert PoolAt(s.pool, pc.c) + TotalAt(s.ws, pc.c) == LiveAt(s.live, pc.c);
    }
  }

  /** Steps that pass the token on. */
  lemma TakeLocal(s: State, e: Event)
    requires Ready0(s, e) && e.a.TakeToken?
    ensures Local(s, Apply(s, e), e)
  {
    hide SumOwn, SumPend, SumTok, SumAt, TotalOwned, TotalPend, TotalDead, TotalAt;
  }

  lemma GiveLocal(s: State, e: Event)
    requires Ready0(s, e) && (e.a.GiveNil? || e.a.GiveBack?)
    ensures Local(s, Apply(s, e), e)
  {
    hide SumOwn, SumPend, SumTok, SumAt, TotalOwned, TotalPend, TotalDead, TotalAt;
    TokenHere(s.ws[e.w], e.r);
  }

  /** The ends of closing and of the worker. */
  lemma UncountLocal(s: State, e: Event)
    requires Ready0(s, e) && e.a.Uncount?
    ensures Local(s, Apply(s, e), e)
  {
    hide SumOwn, SumPend, SumTok, SumAt, TotalOwned, TotalPend, TotalDead, TotalAt;
    TokenHere(s.ws[e.w], e.r);
  }

  lemma FinalLocal(s: State, e: Event)
    requires Ready0(s, e) && e.a.FinalTake?
    ensures Local(s, Apply(s, e), e)
  {
    hide SumOwn, SumPend, SumTok, SumAt, TotalOwned, TotalPend, TotalDead, TotalAt;
    QuietNoToken(s.ws[e.w].pcs);
  }

  lemma ParkLocal(s: State, e: Event)
    requires Ready0(s, e) && e.a.Park?
    ensures Local(s, Apply(s, e), e)
  {
    hide SumOwn, SumPend, SumTok, SumAt, TotalOwned, TotalPend, TotalDead, TotalAt;
    TokenHere(s.ws[e.w], e.r);
  }

  lemma ApplyIsLocal(s: State, e: Event)
    requires Ready0(s, e) && !e.a.StopSession?
    ensures Local(s, Apply(s, e), e)
  {
    match e.a
    case Start => IdleLocal(s, e);
    case Want => IdleLocal(s, e);
    case AskStop => IdleLocal(s, e);
    case Quit => IdleLocal(s, e);
    case PopIdle => PopLocal(s, e);
    case WaitRecv => PopLocal(s, e);
    case Judge(_) => JudgeLocal(s, e);
    case Finish(_) => FinishLocal(s, e);
    case StartDial => StartLocal(s, e);
    case EndDial(_) => DialLocal(s, e);
    case TakeToken => TakeLocal(s, e);
    case GiveNil => GiveLocal(s, e);
    case GiveBack => GiveLocal(s, e);
    case Uncount => UncountLocal(s, e);
    case FinalTake => FinalLocal(s, e);
    case Park => ParkLocal(s, e);
    case DialStop => LeaveLocal(s, e);
    case AfterRetry(_) => LeaveLocal(s, e);
    case CloseAgain => LeaveLocal(s, e);
    case CheckCount => CountLocal(s, e);
    case _ => LookLocal(s, e);
  }

  lemma PoolTail(pool: seq<Conn>, c: Conn)
    requires pool != []
    ensures PoolAt(pool[1..], c) + (if c == pool[0] then 1 else 0) == PoolAt(pool, c)
  {
    assert pool == [pool[0]] + pool[1..];
  }

  predicate MovesPool(a: Action) { a.PopIdle? || a.WaitRecv? || a.Park? }
  predicate MovesLive(a: Action) { a.Judge? || a.EndDial? || a.Finish? }
  predicate Dials(a: Action) {
    a.SeeEmpty? || a.CheckCount? || a.WaitStop? || a.DialStop? || a.StartDial? || a.Uncount?
  }
  predicate MovesToken(a: Action) { a.TakeToken? || a.GiveNil? || a.GiveBack? || a.FinalTake? }

  lemma PopBooks(s: State, e: Event, c: Conn)
    requires Ready0(s, e) && (e.a.PopIdle? || e.a.WaitRecv?) && Acts(Apply(s, e), e)
    ensures Books(s, Apply(s, e), e, c)
  {
    hide SumOwn, SumPend, SumTok, SumAt, TotalOwned, TotalPend, TotalDead, TotalAt;
    if s.pool != [] { PoolTail(s.pool, c); }
  }

  lemma ParkBooks(s: State, e: Event, c: Conn)
    requires Ready0(s, e) && e.a.Park? && Acts(Apply(s, e), e)
    ensures Books(s, Apply(s, e), e, c)
  {
    hide SumOwn, SumPend, SumTok, SumAt, TotalOwned, TotalPend, TotalDead, TotalAt;
  }

  lemma LiveBooks(s: State, e: Event, c: Conn)
    requires Ready0(s, e) && MovesLive(e.a) && Acts(Apply(s, e), e)
    ensures Books(s, Apply(s, e), e, c)
  {
    hide SumOwn, SumPend, SumTok, SumAt, TotalOwned, TotalPend, TotalDead, TotalAt, WorkerOk;
  }

  lemma TokenBooks(s: State, e: Event, c: Conn)
    requires Ready0(s, e) && MovesToken(e.a) && Acts(Apply(s, e), e)
    ensures Books(s, Apply(s, e), e, c)
  {
    hide SumOwn, SumPend, SumTok, SumAt, TotalOwned, TotalPend, TotalDead, TotalAt;
    if Tok(s.ws[e.w].pcs[e.r]) == 1 { TokenHere(s.ws[e.w], e.r); }
  }

  lemma DialBooks(s: State, e: Event, c: Conn)
    requires Ready0(s, e) && Dials(e.a) && Acts(Apply(s, e), e)
    ensures Books(s, Apply(s, e), e, c)
  {
    hide SumOwn, SumPend, SumTok, SumAt, TotalOwned, TotalPend, TotalDead, TotalAt, WorkerOk, HeldIsLive;
  }

  lemma OtherBooks(s: State, e: Event, c: Conn)
    requires Ready0(s, e) && !MovesPool(e.a) && !MovesLive(e.a) && !MovesToken(e.a)
             && !Dials(e.a) && !e.a.StopSession? && Acts(Apply(s, e), e)
    ensures Books(s, Apply(s, e), e, c)
  {
    hide SumOwn, SumPend, SumTok, SumAt, TotalOwned, TotalPend, TotalDead, TotalAt, WorkerOk, HeldIsLive;
  }

  lemma ApplyBooks(s: State, e: Event, c: Conn)
    requires Ready0(s, e) && !e.a.StopSession? && Acts(Apply(s, e), e)
    ensures Books(s, Apply(s, e), e, c)
  {
    if MovesPool(e.a) {
      if e.a.Park? { ParkBooks(s, e, c); } else { PopBooks(s, e, c); }
    } else if MovesLive(e.a) {
      LiveBooks(s, e, c);
    } else if MovesToken(e.a) {
      TokenBooks(s, e, c);
    } else if Dials(e.a) {
      DialBooks(s, e, c);
    } else {
      OtherBooks(s, e, c);
    }
  }

  lemma ApplyKeepsInv(s: State, e: Event)
    requires Inv(s)
    ensures Inv(Apply(s, e))
  {
    if Apply(s, e) != s && !e.a.StopSession? {
      assert WorkerOk(s.ws[e.w]);
      LiveConn(s, e);
      ApplyIsLocal(s, e);
      forall c: Conn ensures Books(s, Apply(s, e), e, c) { ApplyBooks(s, e, c); }
      ActorKeepsInv(s, Apply(s, e), e);
    }
  }

  lemma LastStep(s: State, e: Event, t: State)
    requires Inv(s) && t == Apply(s, e)
    ensures Inv(t) && t.maxConns == s.maxConns
  {
    hide SumOwn, SumPend, SumTok, SumAt, TotalOwned, TotalPend, TotalDead, TotalAt;
    ApplyKeepsInv(s, e);
    assert Apply(s, e).maxConns == s.maxConns;
  }

  lemma InitBooks(maxConns: nat, c: Conn)
    ensures var s := Init(maxConns); PoolAt(s.pool, c) + TotalAt(s.ws, c) == LiveAt(s.live, c)
  {
    InitTotals(Init(maxConns).ws, c);
    hide TotalAt;
  }

  lemma BootOk()
    ensures WorkerOk(Boot)
  {
    BootAlone(0);
  }

  lemma InitInv(maxConns: nat)
    ensures Inv(Init(maxConns))
  {
    var s := Init(maxConns);
    BootOk();
    InitTotals(s.ws, 0);
    hide TotalOwned, TotalPend, TotalDead, TotalAt, PoolAt, LiveAt, WorkerOk;
    forall c: Conn ensures PoolAt(s.pool, c) + TotalAt(s.ws, c) == LiveAt(s.live, c) { InitBooks(maxConns, c); }
  }

  /** MAIN: the invariant holds in every state any interleaving can reach. */
  lemma {:induction false} Reachable(maxConns: nat, es: seq<Event>)
    ensures Inv(Exec(Init(maxConns), es)) && Exec(Init(maxConns), es).maxConns == maxConns
  {
    if es == [] {
      InitInv(maxConns);
    } else {
      Reachable(maxConns, es[..|es| - 1]);
      LastStep(Exec(Init(maxConns), es[..|es| - 1]), es[|es| - 1], Exec(Init(maxConns), es));
    }
  }

  // --- what the invariant gives --------------------------------------------------

  /** openConns counts the parked connections, those with a worker and the ones being dialed
      or closed; it stays within 0 and MaxConns; every live connection is in exactly one place. */
  lemma Accounting(maxConns: nat, es: seq<Event>, c: Conn)
    ensures var s := Exec(Init(maxConns), es);
            && s.open == |s.pool| + TotalOwned(s.ws) == |s.live| + TotalPend(s.ws)
            && 0 <= s.open <= maxConns
            && PoolAt(s.pool, c) + TotalAt(s.ws, c) == if c in s.live then 1 else 0
  {
    Reachable(maxConns, es);
    RoomFor(Exec(Init(maxConns), es).ws, maxConns);
  }

  /** No send on the capacity-1 channel blocks: an actor about to send finds it empty, and it
      is the only one holding the token. */
  lemma SendNeverBlocks(maxConns: nat, es: seq<Event>, w: nat, r: nat)
    requires Acts(Exec(Init(maxConns), es), Event(w, r, Want))
    requires Tok(Exec(Init(maxConns), es).ws[w].pcs[r]) == 1
    ensures var x := Exec(Init(maxConns), es).ws[w];
            x.chan.Empty? && forall q | 0 <= q < 4 && q != r :: Tok(x.pcs[q]) == 0
  {
    Reachable(maxConns, es);
    assert WorkerOk(Exec(Init(maxConns), es).ws[w]);
    TokenHere(Exec(Init(maxConns), es).ws[w], r);
  }

  /** While no actor of a running worker holds the token it is in the channel; so GoWorker's
      final receive never finds the channel empty. */
  lemma TokenComesBack(maxConns: nat, es: seq<Event>, w: nat)
    ensures var ws := Exec(Init(maxConns), es).ws;
            w < |ws| && ws[w].phase.Running? && NobodyHasToken(ws[w].pcs) ==> !ws[w].chan.Empty?
  {
    Reachable(maxConns, es);
    var ws := Exec(Init(maxConns), es).ws;
    hide Exec;
    if w < |ws| && NobodyHasToken(ws[w].pcs) {
      assert WorkerOk(ws[w]);
      AllZero(ws[w].pcs);
    }
  }

  predicate NobodyHasToken(pcs: seq<Pc>) { forall r | 0 <= r < |pcs| :: Tok(pcs[r]) == 0 }

  lemma {:induction false} AllZero(pcs: seq<Pc>)
    requires forall r | 0 <= r < |pcs| :: Tok(pcs[r]) == 0
    ensures SumTok(pcs) == 0
  {
    if pcs != [] { AllZero(pcs[1..]); }
  }

  /** ParkConn never finds the pool full. */
  lemma PoolNeverFull(maxConns: nat, es: seq<Event>, w: nat)
    requires w < |Exec(Init(maxConns), es).ws| && Exec(Init(maxConns), es).ws[w].pcs[0].Parking?
    ensures |Exec(Init(maxConns), es).pool| < maxConns
  {
    Accounting(maxConns, es, 0);
    Reachable(maxConns, es);
    var s := Exec(Init(maxConns), es);
    TotalsUpdate(s.ws, w, Worker(Ended, Empty, [Off, Off, Off, Off]));
    assert WorkerOk(s.ws[w]);
    OwnIn(s.ws[w].pcs, 0);
  }

  lemma {:induction false} OwnIn(pcs: seq<Pc>, r: nat)
    requires r < |pcs|
    ensures Own(pcs[r]) <= SumOwn(pcs)
    ensures SumTok(pcs) == 1 && Tok(pcs[r]) == 1 ==> SumOwn(pcs) == Own(pcs[r])
  {
    if r > 0 {
      TokIn(pcs, r);
      OwnIn(pcs[1..], r - 1);
    } else {
      OwnLeTok(pcs[1..]);
    }
  }

  /** MAIN: an actor holding the nil token (nothing of its own in openConns) always finds
      room: openConns < MaxConns. */
  lemma NilTokenFindsRoom(maxConns: nat, es: seq<Event>, w: nat, r: nat)
    requires Acts(Exec(Init(maxConns), es), Event(w, r, Want))
    requires var pc := Exec(Init(maxConns), es).ws[w].pcs[r]; Tok(pc) == 1 && Own(pc) == 0
    ensures Exec(Init(maxConns), es).open < maxConns
  {
    Reachable(maxConns, es);
    var s := Exec(Init(maxConns), es);
    assert WorkerOk(s.ws[w]);
    TokenHere(s.ws[w], r);
    OwnIn(s.ws[w].pcs, r);
    RoomFor(s.ws, w);
  }

  /** Hence GetConn's infinite wait is never entered and cannot be a deadlock, its
      "openConns > MaxConns" error is never returned, and NewConn never reports that
      all connections are established. */
  lemma {:induction false} NeverWaits(maxConns: nat, es: seq<Event>, w: nat, r: nat)
    requires Acts(Exec(Init(maxConns), es), Event(w, r, Want))
    ensures var (s, e) := (Exec(Init(maxConns), es), Event(w, r, CheckCount));
            && !s.ws[w].pcs[r].WaitPool?
            && (s.ws[w].pcs[r].NoIdle? ==> Apply(s, e) == Go(s, e, Dial(false)))
            && (s.ws[w].pcs[r].Dial? ==> Apply(s, Event(w, r, StartDial)).open == s.open + 1)
  {
    hide Apply, Inv;
    var s := Exec(Init(maxConns), es);
    if Tok(s.ws[w].pcs[r]) == 1 && Own(s.ws[w].pcs[r]) == 0 { NilTokenFindsRoom(maxConns, es, w, r); }
    Reachable(maxConns, es);
    if s.open < maxConns { RoomMeansDial(s, w, r); }
    if es != [] {
      var front, e := es[..|es| - 1], es[|es| - 1];
      var p := Exec(Init(maxConns), front);
      Reachable(maxConns, front);
      if s.ws[w].pcs[r].WaitPool? {
        NeverWaits(maxConns, front, w, r);
        WaitEntry(p, e, w, r);
      }
    }
  }

  lemma RoomMeansDial(s: State, w: nat, r: nat)
    requires Acts(s, Event(w, r, CheckCount)) && s.open < s.maxConns
    ensures s.ws[w].pcs[r].NoIdle? ==> Apply(s, Event(w, r, CheckCount)) == Go(s, Event(w, r, CheckCount), Dial(false))
    ensures s.ws[w].pcs[r].Dial? ==> Apply(s, Event(w, r, StartDial)).open == s.open + 1
  {}

  /** The only way into the infinite wait. */
  lemma WaitEntry(p: State, e: Event, w: nat, r: nat)
    requires Acts(p, Event(w, r, Want)) && Acts(Apply(p, e), Event(w, r, Want)) && p != Apply(p, e)
    requires Apply(p, e).ws[w].pcs[r].WaitPool? && !p.ws[w].pcs[r].WaitPool?
    ensures e == Event(w, r, CheckCount) && p.ws[w].pcs[r].NoIdle? && p.open == p.maxConns
  {
    hide SumOwn, SumPend, SumTok, SumAt, TotalOwned, TotalPend, TotalDead, TotalAt, WorkerOk;
  }

  // --- what an actor can do ---------------------------------------------------------------------

  function PcAt(s: State, w: nat, r: nat): Pc { if w < |s.ws| && r < 4 then s.ws[w].pcs[r] else Off }

  function ChanOf(s: State, w: nat): Chan { if w < |s.ws| then s.ws[w].chan else Empty }

  /** One step of an actor. */
  function Act(s: State, w: nat, r: nat, a: Action): State { Apply(s, Event(w, r, a)) }

  // Single steps of an actor.

  /** What one step leaves: the actor's point, its worker's channel, and the counts. */
  predicate Is(t: State, w: nat, r: nat, pc: Pc, chan: Chan, open: int, live: set<Conn>) {
    PcAt(t, w, r) == pc && ChanOf(t, w) == chan && t.open == open && t.live == live && w < |t.ws|
  }

  lemma DialSteps(s: State, w: nat, r: nat)
    requires w < |s.ws| && r < 4
    ensures var t := Act(s, w, r, SeeEmpty);
            PcAt(s, w, r).Get? && s.pool == [] ==>
              Is(t, w, r, NoIdle, ChanOf(s, w), s.open, s.live) && t.next == s.next && t.maxConns == s.maxConns
    ensures var t := Act(s, w, r, CheckCount);
            PcAt(s, w, r).NoIdle? && s.open < s.maxConns ==>
              Is(t, w, r, Dial(false), ChanOf(s, w), s.open, s.live) && t.next == s.next && t.maxConns == s.maxConns
    ensures var t := Act(s, w, r, StartDial);
            PcAt(s, w, r).Dial? && s.open < s.maxConns ==>
              Is(t, w, r, Dialing(PcAt(s, w, r).stale), ChanOf(s, w), s.open + 1, s.live) && t.next == s.next
    ensures PcAt(s, w, r).Dialing? ==>
              Is(Act(s, w, r, EndDial(true)), w, r, Using(s.next), ChanOf(s, w), s.open, s.live + {s.next})
  {}

  lemma FinishSteps(s: State, w: nat, r: nat, how: Outcome)
    requires w < |s.ws| && 1 <= r < 4 && PcAt(s, w, r).Using?
    ensures var (t, c) := (Act(s, w, r, Finish(how)), PcAt(s, w, r).c);
            if how.Fine? then Is(t, w, r, Return(c), ChanOf(s, w), s.open, s.live)
            else Is(t, w, r, Closing(if how.Fails? then ToNil else ToBroken), ChanOf(s, w), s.open, s.live - {c})
  {}

  lemma CloseSteps(s: State, w: nat, r: nat)
    requires w < |s.ws| && 1 <= r < 4
    ensures PcAt(s, w, r) == Closing(ToNil) ==>
              Is(Act(s, w, r, Uncount), w, r, NilOut, ChanOf(s, w), s.open - 1, s.live)
    ensures PcAt(s, w, r) == Closing(ToBroken) ==>
              Is(Act(s, w, r, Uncount), w, r, Broken, ChanOf(s, w), s.open - 1, s.live)
    ensures PcAt(s, w, r).Broken? ==> Is(Act(s, w, r, CloseAgain), w, r, NilOut, ChanOf(s, w), s.open, s.live)
  {}

  lemma GiveSteps(s: State, w: nat, r: nat)
    requires w < |s.ws| && 1 <= r < 4 && ChanOf(s, w).Empty?
    ensures PcAt(s, w, r).NilOut? || PcAt(s, w, r).Failed? ==>
              Is(Act(s, w, r, GiveNil), w, r, Ready, NilToken, s.open, s.live)
    ensures PcAt(s, w, r).Return? ==>
              Is(Act(s, w, r, GiveBack), w, r, Ready, Has(PcAt(s, w, r).c), s.open, s.live)
  {}

  /** MAIN: no starvation. In every reachable state an actor at the head of GetConn's loop gets a live
      connection by its own steps: the one parked longest if one is parked, else a new one, for which
      there is room; other actors need not do anything. */
  lemma GetsConn(maxConns: nat, es: seq<Event>, w: nat, r: nat)
    requires PcAt(Exec(Init(maxConns), es), w, r).Get?
    ensures var s := Exec(Init(maxConns), es);
            if s.pool != [] then
              var t := Act(Act(s, w, r, PopIdle), w, r, Judge(Fresh));
              PcAt(t, w, r) == Using(s.pool[0]) && s.pool[0] in t.live && t.open == s.open && t.pool == s.pool[1..]
            else
              var t := Act(Act(Act(Act(s, w, r, SeeEmpty), w, r, CheckCount), w, r, StartDial), w, r, EndDial(true));
              PcAt(t, w, r).Using? && PcAt(t, w, r).c in t.live && PcAt(t, w, r).c !in s.live && t.open == s.open + 1
  {
    Reachable(maxConns, es);
    var s := Exec(Init(maxConns), es);
    NilTokenFindsRoom(maxConns, es, w, r);
    if s.pool != [] { ParkedIsLive(s); } else { NewConn(s, w, r); }
    hide Exec, Inv, SumOwn, SumPend, SumTok, SumAt, TotalOwned, TotalPend, TotalDead, TotalAt;
  }

  lemma ParkedIsLive(s: State)
    requires Inv(s) && s.pool != []
    ensures s.pool[0] in s.live
  {
    PoolTail(s.pool, s.pool[0]);
    assert PoolAt(s.pool, s.pool[0]) + TotalAt(s.ws, s.pool[0]) == LiveAt(s.live, s.pool[0]);
  }

  lemma NewConn(s: State, w: nat, r: nat)
    requires Inv(s) && PcAt(s, w, r).Get? && s.pool == [] && s.open < s.maxConns
    ensures var t := Act(Act(Act(Act(s, w, r, SeeEmpty), w, r, CheckCount), w, r, StartDial), w, r, EndDial(true));
            PcAt(t, w, r).Using? && PcAt(t, w, r).c in t.live && PcAt(t, w, r).c !in s.live && t.open == s.open + 1
  {
    assert s.next !in s.live;
    hide Inv, Act;
    var a := Act(s, w, r, SeeEmpty);
    DialSteps(s, w, r);
    var b := Act(a, w, r, CheckCount);
    DialSteps(a, w, r);
    var c := Act(b, w, r, StartDial);
    DialSteps(b, w, r);
    DialSteps(c, w, r);
  }

  /** GetConn looks for a new connection only when it finds the pool empty. */
  lemma DialsWhenEmpty(s: State, e: Event)
    requires !PcAt(s, e.w, e.r).NoIdle? && PcAt(Apply(s, e), e.w, e.r).NoIdle?
    ensures s.pool == []
  {}

  /** An old parked connection is closed and uncounted, and replaced or left out. */
  lemma OldConnReplaced(s: State, w: nat, r: nat, age: Age)
    requires PcAt(s, w, r).Popped? && !age.Fresh?
    ensures var a := Act(s, w, r, Judge(age));
            var t := Act(a, w, r, Uncount);
            && PcAt(s, w, r).c !in a.live && t.open == s.open - 1
            && PcAt(t, w, r) == if age.Expired? then Dial(true) else Get
  {}

  /** A failed dial gives its place back; only a dial that replaces an old connection or is to be
      repeated goes back to the pool. */
  lemma FailedDial(s: State, w: nat, r: nat, again: bool)
    requires PcAt(s, w, r).Dialing?
    ensures var a := Act(s, w, r, EndDial(false));
            var b := Act(a, w, r, Uncount);
            var t := Act(b, w, r, AfterRetry(again));
            && b.open == s.open - 1 && t.live == s.live
            && PcAt(t, w, r) == if again || PcAt(s, w, r).stale then Get else Failed
  {}

  /** MAIN: the token comes back. Whatever becomes of the command, a routine that has a connection ends
      between two items with its worker's token in the channel: the connection, or nil after it was
      closed and uncounted. */
  lemma TokenGoesBack(maxConns: nat, es: seq<Event>, w: nat, r: nat, how: Outcome)
    requires PcAt(Exec(Init(maxConns), es), w, r).Using? && 1 <= r
    ensures var s := Exec(Init(maxConns), es);
            var c := PcAt(s, w, r).c;
            var a := Act(s, w, r, Finish(how));
            match how
            case Fine =>
              var t := Act(a, w, r, GiveBack);
              PcAt(t, w, r) == Ready && ChanOf(t, w) == Has(c) && t.open == s.open && t.live == s.live
            case Fails =>
              var t := Act(Act(a, w, r, Uncount), w, r, GiveNil);
              PcAt(t, w, r) == Ready && ChanOf(t, w) == NilToken && t.open == s.open - 1 && t.live == s.live - {c}
            case FailsClosed =>
              var t := Act(Act(Act(a, w, r, Uncount), w, r, CloseAgain), w, r, GiveNil);
              PcAt(t, w, r) == Ready && ChanOf(t, w) == NilToken && t.open == s.open - 1 && t.live == s.live - {c}
  {
    SendNeverBlocks(maxConns, es, w, r);
    hide Exec, Act;
    var s := Exec(Init(maxConns), es);
    var a := Act(s, w, r, Finish(how));
    FinishSteps(s, w, r, how);
    match how
    case Fine => GiveSteps(a, w, r);
    case Fails =>
      CloseSteps(a, w, r);
      GiveSteps(Act(a, w, r, Uncount), w, r);
    case FailsClosed =>
      CloseSteps(a, w, r);
      var b := Act(a, w, r, Uncount);
      CloseSteps(b, w, r);
      GiveSteps(Act(b, w, r, CloseAgain), w, r);
  }

  /** A routine whose GetConn failed puts the nil token back. */
  lemma NilGoesBack(maxConns: nat, es: seq<Event>, w: nat, r: nat)
    requires PcAt(Exec(Init(maxConns), es), w, r).Failed? && 1 <= r
    ensures var t := Act(Exec(Init(maxConns), es), w, r, GiveNil); PcAt(t, w, r) == Ready && ChanOf(t, w) == NilToken
  {
    SendNeverBlocks(maxConns, es, w, r);
    hide Exec, Inv, SumOwn, SumPend, SumTok, SumAt, TotalOwned, TotalPend, TotalDead, TotalAt;
  }

  /** A waiting routine takes the token that is in the channel. */
  lemma TokenTaken(s: State, w: nat, r: nat)
    requires PcAt(s, w, r).Asking? && !ChanOf(s, w).Empty?
    ensures var t := Act(s, w, r, TakeToken);
            ChanOf(t, w).Empty? && PcAt(t, w, r) == match ChanOf(s, w) case Has(c) => Using(c) case _ => Get
  {}

  /** A routine gives up waiting, and GetConn gives up dialing, only when the session was stopped; and
      then they can. */
  lemma GivesUpJustWhenStopped(s: State, w: nat, r: nat)
    ensures Act(s, w, r, AskStop) != s || Act(s, w, r, DialStop) != s || Act(s, w, r, WaitStop) != s ==> s.stop
    ensures PcAt(s, w, r).Asking? ==> PcAt(Act(Act(s, w, r, StopSession), w, r, AskStop), w, r) == Ready
    ensures PcAt(s, w, r) == Dial(false) ==> PcAt(Act(Act(s, w, r, StopSession), w, r, DialStop), w, r) == Failed
  {}

  /** Until a worker has its first connection, its routines have not started. */
  predicate RoutinesWait(s: State) {
    forall w | 0 <= w < |s.ws| && s.ws[w].phase.Booting? :: forall r | 1 <= r < 4 :: s.ws[w].pcs[r].NotYet?
  }

  lemma WaitStep(s: State, e: Event)
    requires Inv(s) && RoutinesWait(s)
    ensures RoutinesWait(Apply(s, e))
  {
    if Acts(s, e) && !e.a.StopSession? {
      assert WorkerOk(s.ws[e.w]);
      WaitWorker(s, e);
    }
    hide Inv, ApplyAt;
  }

  lemma WaitWorker(s: State, e: Event)
    requires Acts(s, e) && !e.a.StopSession? && ShapeOk(s.ws[e.w])
    requires s.ws[e.w].phase.Booting? ==> forall r | 1 <= r < 4 :: s.ws[e.w].pcs[r].NotYet?
    ensures var t := Apply(s, e);
            && |t.ws| == |s.ws| && (forall v | 0 <= v < |s.ws| && v != e.w :: t.ws[v] == s.ws[v])
            && (t.ws[e.w].phase.Booting? ==> forall r | 1 <= r < 4 :: t.ws[e.w].pcs[r].NotYet?)
  {}

  lemma {:induction false} NoneStartsEarly(maxConns: nat, es: seq<Event>)
    ensures RoutinesWait(Exec(Init(maxConns), es))
  {
    if es != [] {
      NoneStartsEarly(maxConns, es[..|es| - 1]);
      Reachable(maxConns, es[..|es| - 1]);
      WaitStep(Exec(Init(maxConns), es[..|es| - 1]), es[|es| - 1]);
      hide Apply, RoutinesWait, Inv;
    }
  }

  /** The first connection of a worker starts it: its routines can start, and find the token. */
  lemma WorkerStarts(s: State, w: nat, r: nat)
    requires w < |s.ws| && PcAt(s, w, 0).Using? && ChanOf(s, w).Empty? && 1 <= r < 4 && PcAt(s, w, r).NotYet?
    ensures var b := Act(Act(s, w, 0, Finish(Fine)), w, 0, GiveBack);
            var t := Act(Act(b, w, r, Start), w, r, Want);
            && b.ws[w].phase.Running? && PcAt(b, w, 0) == Off && ChanOf(t, w) == Has(PcAt(s, w, 0).c)
            && PcAt(t, w, r) == Asking
            && PcAt(Act(Act(b, w, r, Start), w, r, Quit), w, r) == Off
  {}

  lemma ParkSteps(s: State, w: nat)
    requires w < |s.ws|
    ensures s.ws[w].phase.Running? && s.ws[w].pcs == [Off, Off, Off, Off] ==>
              var t := Act(s, w, 0, FinalTake);
              && t.pool == s.pool && t.open == s.open && t.maxConns == s.maxConns && w < |t.ws|
              && (if s.ws[w].chan.Has? then PcAt(t, w, 0) == Parking(s.ws[w].chan.c) else t.ws[w].phase.Ended?)
    ensures PcAt(s, w, 0).Parking? && |s.pool| < s.maxConns ==>
              var t := Act(s, w, 0, Park);
              && t.pool == s.pool + [PcAt(s, w, 0).c] && t.open == s.open && w < |t.ws|
              && t.ws[w].phase.Ended? && PcAt(t, w, 0) == Off
  {}

  /** The last steps of a worker: with its routines gone it parks the connection of its token. */
  lemma WorkerParks(maxConns: nat, es: seq<Event>, w: nat)
    requires var s := Exec(Init(maxConns), es);
             w < |s.ws| && s.ws[w].phase.Running? && s.ws[w].pcs == [Off, Off, Off, Off]
    ensures var s := Exec(Init(maxConns), es);
            var a := Act(s, w, 0, FinalTake);
            match ChanOf(s, w)
            case Has(c) =>
              var t := Act(a, w, 0, Park);
              w < |t.ws| && t.pool == s.pool + [c] && t.open == s.open && t.ws[w].phase.Ended? && PcAt(t, w, 0) == Off
            case _ => w < |a.ws| && a.ws[w].phase.Ended? && a.pool == s.pool && a.open == s.open
  {
    var s := Exec(Init(maxConns), es);
    Reachable(maxConns, es);
    hide Exec, Inv, Act;
    ParkSteps(s, w);
    if s.ws[w].chan.Has? {
      var a := Act(s, w, 0, FinalTake);
      PoolHasRoom(maxConns, es, w);
      ParkSteps(a, w);
    }
  }

  lemma PoolHasRoom(maxConns: nat, es: seq<Event>, w: nat)
    requires var a := Act(Exec(Init(maxConns), es), w, 0, FinalTake); w < |a.ws| && a.ws[w].pcs[0].Parking?
    ensures |Act(Exec(Init(maxConns), es), w, 0, FinalTake).pool| < maxConns
  {
    hide Apply;
    var more := es + [Event(w, 0, FinalTake)];
    assert more[..|es|] == es;
    assert Exec(Init(maxConns), more) == Act(Exec(Init(maxConns), es), w, 0, FinalTake);
    PoolNeverFull(maxConns, more, w);
  }

  // --- the objects ----------------------------------------------------------------

  class ConnItem {
    var isOpen: bool   // conn != nil
  }

  /** A worker's channel of capacity 1; `content` null is the nil token. */
  class SharedChan {
    var full: bool
    var content: ConnItem?
  }

  /** The pool as the source keeps it: one method per critical section or channel operation. */
  class Pool {
    const maxConns: nat
    var openConns: int
    var idle: seq<ConnItem>

    constructor (maxConns: nat)
      ensures this.maxConns == maxConns && openConns == 0 && idle == []
    {
      this.maxConns := maxConns;
      openConns, idle := 0, [];
    }

    /** NewConn's first critical section; an error return leaves everything as it is. */
    method ReserveConn() returns (ok: bool)
      modifies this`openConns
      ensures ok == (old(openConns) < maxConns)
      ensures openConns == if ok then old(openConns) + 1 else old(openConns)
    {
      ok := openConns < maxConns;
      if ok { openConns := openConns + 1; }
    }

    /** CloseConn: the count goes down once per connection however often it is called, and
        with a shared channel the nil token is always sent. */
    method CloseConn(item: ConnItem?, shared: SharedChan?)
      requires shared != null ==> !shared.full
      modifies this`openConns, item, shared
      ensures item != null ==> !item.isOpen
      ensures openConns == old(openConns) - if item != null && old(item.isOpen) then 1 else 0
      ensures shared != null ==> shared.full && shared.content == null
    {
      if item != null && item.isOpen {
        item.isOpen := false;
        openConns := openConns - 1;
      }
      if shared != null {
        shared.full, shared.content := true, null;
      }
    }

    /** readDotLines closes on a read error, then the caller closes again. */
    method CloseTwice(item: ConnItem, shared: SharedChan)
      requires !shared.full && item.isOpen
      modifies this`openConns, item, shared
      ensures openConns == old(openConns) - 1 && !item.isOpen && shared.full && shared.content == null
    {
      CloseConn(item, null);
      CloseConn(item, shared);
    }

    method ParkConn(item: ConnItem) returns (parked: bool)
      modifies this`openConns, this`idle, item
      ensures parked == (|old(idle)| < maxConns)
      ensures idle == if parked then old(idle) + [item] else old(idle)
      ensures parked ==> openConns == old(openConns) && item.isOpen == old(item.isOpen)
      ensures !parked ==> !item.isOpen && openConns == old(openConns) - if old(item.isOpen) then 1 else 0
    {
      parked := |idle| < maxConns;
      if parked { idle := idle + [item]; } else { CloseConn(item, null); }
    }
  }
}
