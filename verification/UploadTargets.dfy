/** Where an item is uploaded, and how often an upload of it can fail. */
module UploadTargets {
  // Workers.go: pushUP, hasUploadTarget, matchThisUP, FlagError.

  import opened Wrappers

  /** A provider; its id is its index in the list. */
  datatype Provider = Provider(group: nat, noUpload: bool, ihave: bool, post: bool)

  /** What else pushUP looks at: the clock, the providers that are down and the groups whose
      re-upload channel is full. */
  datatype World = World(now: int, down: set<nat>, full: set<nat>)

  /** The fields of segmentChanItem that count for uploads. missingOn is a map in the source's
      sense; the other maps only ever hold true. */
  datatype Item = Item(missingOn: map<nat, bool>, ignoreUlOn: set<nat>, uploadedTo: set<nat>, availableOn: set<nat>,
                       unwantedOn: set<nat>, dmcaOn: set<nat>, errorOn: set<nat>, retryOn: set<nat>,
                       retryIn: int, fails: nat, hasArticle: bool, flagCache: bool, flagisDL: bool, flaginDL: bool,
                       flaginDLMEM: bool, flaginUP: bool, flagisUP: bool, pushedUP: nat)

  const MAX_ITEM_FAILS := 3

  // --- targets ------------------------------------------------------------------------------------

  /** matchThisUP */
  predicate Matches(i: Item) {
    i.hasArticle && (i.flagisDL || i.flagCache) && !i.flaginUP && !i.flagisUP && !i.flaginDLMEM && !i.flaginDL
  }

  predicate TakesUploads(p: Provider) { !p.noUpload && (p.ihave || p.post) }

  predicate Closed(i: Item, pid: nat) {
    pid in i.ignoreUlOn || pid in i.uploadedTo || pid in i.availableOn
        || pid in i.unwantedOn || pid in i.dmcaOn || pid in i.errorOn
  }

  predicate Target(i: Item, ps: seq<Provider>, down: set<nat>, pid: nat) {
    pid in i.missingOn && i.missingOn[pid] && pid < |ps| && TakesUploads(ps[pid]) && pid !in down && !Closed(i, pid)
  }

  predicate HasTarget(i: Item, ps: seq<Provider>, down: set<nat>) {
    exists pid <- i.missingOn :: Target(i, ps, down, pid)
  }

  predicate Known(i: Item, ps: seq<Provider>) { forall pid <- i.missingOn :: pid < |ps| }

  /** An order in which `range item.missingOn` may go. */
  predicate Order(i: Item, order: seq<nat>) {
    (forall pid <- order :: pid in i.missingOn) && (forall pid <- i.missingOn :: pid in order)
    && forall a, b | 0 <= a < b < |order| :: order[a] != order[b]
  }

  // --- pushUP -----------------------------------------------------------------------------------------

  datatype Outcome =
    | NotAllowed
    | StillChecking
    | NoMatch
    | PushedTo(pid: nat)
    | ChanFull(pid: nat, noup: nat, inretry: nat)
    | NoneFound(noup: nat, inretry: nat)

  /** What pushUP makes of one provider. */
  datatype Step = NotMissing | NoUp | InRetry | Full | Free

  function Look(i: Item, ps: seq<Provider>, w: World, pid: nat): Step
    requires pid in i.missingOn && pid < |ps|
  {
    if !i.missingOn[pid] then NotMissing
    else if !TakesUploads(ps[pid]) || pid in w.down || Closed(i, pid) then NoUp
    else if pid in i.retryOn && i.retryIn > w.now then InRetry
    else if ps[pid].group in w.full then Full
    else Free
  }

  predicate Ids(i: Item, ps: seq<Provider>, order: seq<nat>) {
    forall k | 0 <= k < |order| :: order[k] in i.missingOn && order[k] < |ps|
  }

  /** The loop over missingOn. */
  function Walk(i: Item, ps: seq<Provider>, w: World, order: seq<nat>, noup: nat, inretry: nat): Outcome
    requires Ids(i, ps, order)
    decreases |order|
  {
    if order == [] then NoneFound(noup, inretry)
    else
      var rest := order[1..];
      match Look(i, ps, w, order[0])
      case NotMissing => Walk(i, ps, w, rest, noup, inretry)
      case NoUp => Walk(i, ps, w, rest, noup + 1, inretry)
      case InRetry => Walk(i, ps, w, rest, noup, inretry + 1)
      case Full => ChanFull(order[0], noup + 1, inretry)
      case Free => PushedTo(order[0])
  }

  lemma WalkStep(i: Item, ps: seq<Provider>, w: World, order: seq<nat>, k: nat, noup: nat, inretry: nat)
    requires k < |order| && Ids(i, ps, order)
    ensures Walk(i, ps, w, order[k..], noup, inretry) ==
            match Look(i, ps, w, order[k])
            case NotMissing => Walk(i, ps, w, order[k + 1..], noup, inretry)
            case NoUp => Walk(i, ps, w, order[k + 1..], noup + 1, inretry)
            case InRetry => Walk(i, ps, w, order[k + 1..], noup, inretry + 1)
            case Full => ChanFull(order[k], noup + 1, inretry)
            case Free => PushedTo(order[k])
  {
    hide Look;
    assert order[k..][1..] == order[k + 1..];
  }

  lemma WalkNone(i: Item, ps: seq<Provider>, w: World, noup: nat, inretry: nat)
    ensures Walk(i, ps, w, [], noup, inretry) == NoneFound(noup, inretry)
  {}

  lemma OrderIds(i: Item, ps: seq<Provider>, order: seq<nat>)
    requires Known(i, ps) && Order(i, order)
    ensures Ids(i, ps, order)
  {
    assert forall k | 0 <= k < |order| :: order[k] in order;
  }

  function PushOutcome(i: Item, ps: seq<Provider>, w: World, order: seq<nat>, allowUp: bool, checking: bool): Outcome
    requires Known(i, ps) && Order(i, order)
  {
    if !allowUp then NotAllowed
    else if checking then StillChecking
    else if !Matches(i) then NoMatch
    else Walk(i, ps, w, order, 0, 0)
  }

  /** The item after pushUP. */
  function Pushed(i: Item, o: Outcome): Item {
    match o
    case PushedTo(pid) => i.(retryOn := i.retryOn - {pid}, flaginUP := true, pushedUP := i.pushedUP + 1)
    case ChanFull(pid, _, _) => i.(retryOn := i.retryOn - {pid})
    case _ => i
  }

  /** A target was found: pushed, its channel full, or only retries that are not due. */
  predicate Found(o: Outcome) { o.PushedTo? || o.ChanFull? || (o.NoneFound? && o.inretry > 0) }

  lemma {:induction false} WalkFinds(i: Item, ps: seq<Provider>, w: World, order: seq<nat>, noup: nat, inretry: nat)
    requires Ids(i, ps, order)
    ensures var o := Walk(i, ps, w, order, noup, inretry);
            && (o.PushedTo? || o.ChanFull? || (o.NoneFound? && o.inretry > inretry)
                <==> exists pid <- order :: Target(i, ps, w.down, pid))
            && (o.NoneFound? || o.ChanFull? || o.PushedTo?) && (o.NoneFound? ==> o.inretry >= inretry)
            && (o.PushedTo? || o.ChanFull? ==> o.pid in order && Target(i, ps, w.down, o.pid))
            && (o.PushedTo? ==> ps[o.pid].group !in w.full)
    decreases |order|
  {
    if order != [] {
      var pid, rest := order[0], order[1..];
      assert pid in order && forall q <- rest :: q in order;
      var up := !TakesUploads(ps[pid]) || pid in w.down || Closed(i, pid);
      var wait := !up && pid in i.retryOn && i.retryIn > w.now;
      assert forall q <- order :: q == pid || q in rest;
      WalkFinds(i, ps, w, rest,
                if i.missingOn[pid] && up then noup + 1 else noup,
                if i.missingOn[pid] && wait then inretry + 1 else inretry);
      assert Target(i, ps, w.down, pid) <==> i.missingOn[pid] && !up;
      hide Target, Closed, TakesUploads;
    }
  }

  /** MAIN: whatever the order the map is walked in, a matching item finds a target in pushUP just
      if hasUploadTarget holds; and where it is pushed is a target whose channel has room. */
  lemma PushFindsTarget(i: Item, ps: seq<Provider>, w: World, order: seq<nat>)
    requires Known(i, ps) && Order(i, order) && Matches(i)
    ensures var o := PushOutcome(i, ps, w, order, true, false);
            && (Found(o) <==> HasTarget(i, ps, w.down))
            && (o.PushedTo? ==> Target(i, ps, w.down, o.pid) && ps[o.pid].group !in w.full)
  {
    OrderIds(i, ps, order);
    WalkFinds(i, ps, w, order, 0, 0);
    hide Target, Walk;
  }

  /** What an upload to provider `pid` asks of it and of the item, spelled out: the provider takes uploads
      and is up, the item is missing there, nobody has sent it there or closed the provider to it, and a
      retry that was put off is due. */
  predicate MayUpload(i: Item, ps: seq<Provider>, w: World, pid: nat) {
    && pid in i.missingOn && i.missingOn[pid] && pid < |ps| && pid !in w.down
    && !ps[pid].noUpload && (ps[pid].ihave || ps[pid].post)
    && pid !in i.ignoreUlOn && pid !in i.uploadedTo && pid !in i.availableOn
    && pid !in i.unwantedOn && pid !in i.dmcaOn && pid !in i.errorOn
    && (pid in i.retryOn ==> i.retryIn <= w.now)
  }

  /** ... and of the item alone: it is downloaded or cached with its article at hand, and nobody is
      downloading or uploading it, or has uploaded it. */
  predicate MayBeUploaded(i: Item) {
    i.hasArticle && (i.flagisDL || i.flagCache) && !i.flaginUP && !i.flagisUP && !i.flaginDLMEM && !i.flaginDL
  }

  lemma {:induction false} WalkPushes(i: Item, ps: seq<Provider>, w: World, order: seq<nat>, noup: nat, inretry: nat)
    requires Ids(i, ps, order)
    ensures var o := Walk(i, ps, w, order, noup, inretry);
            && (o.PushedTo? ==> o.pid in order && MayUpload(i, ps, w, o.pid) && ps[o.pid].group !in w.full)
            && (o.ChanFull? ==> o.pid in order && MayUpload(i, ps, w, o.pid) && ps[o.pid].group in w.full)
            && (o.NoneFound? ==> forall pid <- order :: !MayUpload(i, ps, w, pid))
            && (o.PushedTo? || o.ChanFull? || o.NoneFound?)
    decreases |order|
  {
    if order != [] {
      var pid, rest := order[0], order[1..];
      assert pid in order && forall q <- rest :: q in order;
      assert forall q <- order :: q == pid || q in rest;
      LookIs(i, ps, w, pid);
      match Look(i, ps, w, pid)
      case NoUp => WalkPushes(i, ps, w, rest, noup + 1, inretry);
      case InRetry => WalkPushes(i, ps, w, rest, noup, inretry + 1);
      case _ => WalkPushes(i, ps, w, rest, noup, inretry);
      hide MayUpload, Look;
    }
  }

  lemma LookIs(i: Item, ps: seq<Provider>, w: World, pid: nat)
    requires pid in i.missingOn && pid < |ps|
    ensures var l := Look(i, ps, w, pid);
            && (l.Full? || l.Free? <==> MayUpload(i, ps, w, pid))
            && (l.Full? ==> ps[pid].group in w.full) && (l.Free? ==> ps[pid].group !in w.full)
  {}

  /** MAIN: pushUP pushes an item just if it may be uploaded to some provider, by what is spelled out
      above, and meets one with room before any with a full channel; and it pushes it to that one. */
  lemma PushesJustIf(i: Item, ps: seq<Provider>, w: World, order: seq<nat>, allowUp: bool, checking: bool)
    requires Known(i, ps) && Order(i, order)
    ensures var o := PushOutcome(i, ps, w, order, allowUp, checking);
            && (o.PushedTo? ==> allowUp && !checking && MayBeUploaded(i)
                                && MayUpload(i, ps, w, o.pid) && ps[o.pid].group !in w.full)
            && (allowUp && !checking && MayBeUploaded(i) && w.full == {} ==>
                  (o.PushedTo? <==> exists pid <- i.missingOn :: MayUpload(i, ps, w, pid)))
            && Pushed(i, o).pushedUP == i.pushedUP + (if o.PushedTo? then 1 else 0)
            && (Pushed(i, o).flaginUP <==> i.flaginUP || o.PushedTo?)
            && (forall q :: q in Pushed(i, o).retryOn <==>
                  q in i.retryOn && !((o.PushedTo? || o.ChanFull?) && q == o.pid))
  {
    OrderIds(i, ps, order);
    WalkPushes(i, ps, w, order, 0, 0);
    hide Walk, MayUpload, Ids;
  }

  /** The providers of `order` the item is missing on that refuse it, and those with a retry not due. */
  function Refusing(i: Item, ps: seq<Provider>, w: World, order: seq<nat>): set<nat>
    requires Ids(i, ps, order)
  {
    set pid <- order | i.missingOn[pid] && !MayUpload(i.(retryOn := {}), ps, w, pid)
  }

  function NotDue(i: Item, ps: seq<Provider>, w: World, order: seq<nat>): set<nat>
    requires Ids(i, ps, order)
  {
    set pid <- order | MayUpload(i.(retryOn := {}), ps, w, pid) && !MayUpload(i, ps, w, pid)
  }

  lemma LookCounts(i: Item, ps: seq<Provider>, w: World, pid: nat)
    requires pid in i.missingOn && pid < |ps|
    ensures var l := Look(i, ps, w, pid);
            && (l.NoUp? <==> i.missingOn[pid] && !MayUpload(i.(retryOn := {}), ps, w, pid))
            && (l.InRetry? <==> MayUpload(i.(retryOn := {}), ps, w, pid) && !MayUpload(i, ps, w, pid))
  {}

  lemma RefusingStep(i: Item, ps: seq<Provider>, w: World, order: seq<nat>)
    requires Ids(i, ps, order) && order != [] && order[0] !in order[1..]
             && order[0] in i.missingOn && order[0] < |ps|
    ensures |Refusing(i, ps, w, order)|
            == |Refusing(i, ps, w, order[1..])| + (if Look(i, ps, w, order[0]).NoUp? then 1 else 0)
  {
    hide MayUpload, Look;
    var pid, rest := order[0], order[1..];
    LookCounts(i, ps, w, pid);
    assert forall q :: q in order <==> q == pid || q in rest;
    assert Refusing(i, ps, w, order)
           == Refusing(i, ps, w, rest) + (if Look(i, ps, w, pid).NoUp? then {pid} else {});
  }

  lemma NotDueStep(i: Item, ps: seq<Provider>, w: World, order: seq<nat>)
    requires Ids(i, ps, order) && order != [] && order[0] !in order[1..]
             && order[0] in i.missingOn && order[0] < |ps|
    ensures |NotDue(i, ps, w, order)|
            == |NotDue(i, ps, w, order[1..])| + (if Look(i, ps, w, order[0]).InRetry? then 1 else 0)
  {
    hide MayUpload, Look;
    var pid, rest := order[0], order[1..];
    LookCounts(i, ps, w, pid);
    assert forall q :: q in order <==> q == pid || q in rest;
    assert NotDue(i, ps, w, order)
           == NotDue(i, ps, w, rest) + (if Look(i, ps, w, pid).InRetry? then {pid} else {});
  }

  /** The counts of a walk that finds nobody: each provider the item is missing on refuses it or waits. */
  lemma {:induction false} WalkCounts(i: Item, ps: seq<Provider>, w: World, order: seq<nat>, noup: nat, inretry: nat)
    requires Ids(i, ps, order) && forall a, b | 0 <= a < b < |order| :: order[a] != order[b]
    ensures var o := Walk(i, ps, w, order, noup, inretry);
            o.NoneFound? ==>
              o.noup == noup + |Refusing(i, ps, w, order)| && o.inretry == inretry + |NotDue(i, ps, w, order)|
    decreases |order|
  {
    hide Look;
    if order != [] {
      var rest := order[1..];
      RefusingStep(i, ps, w, order);
      NotDueStep(i, ps, w, order);
      match Look(i, ps, w, order[0])
      case NoUp => WalkCounts(i, ps, w, rest, noup + 1, inretry);
      case InRetry => WalkCounts(i, ps, w, rest, noup, inretry + 1);
      case _ => WalkCounts(i, ps, w, rest, noup, inretry);
      hide Refusing, NotDue;
    }
  }

  // --- FlagError -----------------------------------------------------------------------------------------

  function FlagError(i: Item, pid: nat, now: int): Item {
    var j := if i.flaginUP && i.fails < MAX_ITEM_FAILS - 1
        then i.(retryIn := now + 5, retryOn := i.retryOn + {pid}) else i;
    j.(flaginUP := false, flaginDL := false, fails := i.fails + 1, availableOn := i.availableOn - {pid},
       errorOn := if i.flaginUP && i.fails + 1 >= MAX_ITEM_FAILS then i.errorOn + {pid} else i.errorOn)
  }

  /** MAIN: what an upload that failed leaves open. The provider it was meant for takes the item again
      just when failures are left and five seconds are over, and is closed for good after the last
      one; to the others the item stays as open as it was, but for the time of their retries; and the item
      may be pushed again. */
  lemma AfterFailedUpload(i: Item, ps: seq<Provider>, w: World, pid: nat, now: int, later: World)
    requires i.flaginUP && MayUpload(i, ps, w, pid)
    ensures var j, retry := FlagError(i, pid, now), i.fails + 1 < MAX_ITEM_FAILS;
            && (MayUpload(j, ps, later, pid) <==> retry && now + 5 <= later.now && pid !in later.down)
            && (pid in j.errorOn <==> !retry)
            && (forall q | q != pid :: MayUpload(j, ps, later, q)
                  <==> MayUpload(i.(retryIn := if retry then now + 5 else i.retryIn), ps, later, q))
            && (MayBeUploaded(j) <==> MayBeUploaded(i.(flaginUP := false, flaginDL := false)))
            && j.fails == i.fails + 1
  {}

  /** A failure while nobody uploads closes no provider and puts no upload off; it takes back that the item
      is available on `pid`. */
  lemma AfterFailedDownload(i: Item, ps: seq<Provider>, w: World, pid: nat, now: int)
    requires !i.flaginUP
    ensures var j := FlagError(i, pid, now);
            && (forall q | q != pid :: MayUpload(j, ps, w, q) <==> MayUpload(i, ps, w, q))
            && (MayUpload(j, ps, w, pid) <==> MayUpload(i.(availableOn := i.availableOn - {pid}), ps, w, pid))
            && !j.flaginDL && !j.flaginUP && j.fails == i.fails + 1
  {}

  // --- runs of one item ----------------------------------------------------------------------------------------

  /** `target` is the provider pushUP chose, while a worker of its group has the item;
      `attempts` counts the uploads that ended with FlagError while flaginUP. */
  datatype State = State(item: Item, target: Option<nat>, attempts: nat)

  datatype Event =
    | Push(w: World, order: seq<nat>, allowUp: bool, checking: bool)
    | Break(q: nat, now: int)     // the worker is one of provider q: its connection breaks
    | Other(item: Item)           // anything else that happens to the item, or ends the upload

  /** Other code only adds to errorOn, and the provider of the upload under way only when it ends
      the upload (GoReupsRoutine does so when that provider is down); it never sets flaginUP; it
      lowers fails only when the item has been uploaded. */
  predicate Later(i: Item, j: Item, ps: seq<Provider>, target: Option<nat>) {
    && Known(j, ps) && i.errorOn <= j.errorOn && (forall p <- j.errorOn :: p in i.errorOn || p < |ps|)
    && (j.flaginUP && target.Some? && target.value !in i.errorOn ==> target.value !in j.errorOn)
    && (j.flaginUP ==> i.flaginUP && !j.flagisUP) && (i.flagisUP ==> j.flagisUP)
    && (i.fails <= j.fails || j.flagisUP)
  }

  function Apply(ps: seq<Provider>, s: State, e: Event): State {
    match e
    case Push(w, order, allowUp, checking) =>
      if Known(s.item, ps) && Order(s.item, order) then
        var o := PushOutcome(s.item, ps, w, order, allowUp, checking);
        State(Pushed(s.item, o), if o.PushedTo? then Some(o.pid) else s.target, s.attempts)
      else s
    case Break(q, now) =>
      if s.item.flaginUP && s.target.Some? && s.target.value < |ps|
          && q < |ps| && ps[q].group == ps[s.target.value].group
      then State(FlagError(s.item, q, now), None, s.attempts + 1) else s
    case Other(j) => if Later(s.item, j, ps, s.target)
        then State(j, if j.flaginUP then s.target else None, s.attempts) else s
  }

  function Exec(ps: seq<Provider>, s: State, es: seq<Event>): State {
    if es == [] then s else Apply(ps, Exec(ps, s, es[..|es| - 1]), es[|es| - 1])
  }

  predicate Start(ps: seq<Provider>, s: State) {
    Known(s.item, ps) && s.attempts == 0 && s.target == None
        && !s.item.flaginUP && (forall p <- s.item.errorOn :: p < |ps|)
  }

  /** No provider that takes uploads shares its group. */
  predicate Alone(ps: seq<Provider>) {
    forall a, b | 0 <= a < |ps| && 0 <= b < |ps| && a != b :: TakesUploads(ps[a]) ==> ps[a].group != ps[b].group
  }

  // --- the bound ---------------------------------------------------------------------------------

  function Min2(n: nat): nat { if n < 2 then n else 2 }

  predicate Inv(ps: seq<Provider>, s: State) {
    && Known(s.item, ps) && (forall p <- s.item.errorOn :: p < |ps|)
    && (s.item.flaginUP ==> !s.item.flagisUP)
    && (s.item.flaginUP ==>
          s.target.Some? && s.target.value < |ps|
          && TakesUploads(ps[s.target.value]) && s.target.value !in s.item.errorOn)
    && s.attempts <= 2 + |s.item.errorOn|
    && (!s.item.flagisUP ==> s.attempts <= Min2(s.item.fails) + |s.item.errorOn|)
  }

  lemma PushOk(ps: seq<Provider>, s: State, w: World, order: seq<nat>, allowUp: bool, checking: bool)
    requires Inv(ps, s)
    ensures Inv(ps, Apply(ps, s, Push(w, order, allowUp, checking)))
  {
    if Known(s.item, ps) && Order(s.item, order) && Matches(s.item) { WalkFinds(s.item, ps, w, order, 0, 0); }
    hide Walk;
  }

  lemma BreakOk(ps: seq<Provider>, s: State, q: nat, now: int)
    requires Inv(ps, s) && Alone(ps)
    ensures Inv(ps, Apply(ps, s, Break(q, now)))
  {
    if s.item.flaginUP && q < |ps| && ps[q].group == ps[s.target.value].group {
      assert q == s.target.value;
      assert |s.item.errorOn + {q}| == |s.item.errorOn| + 1;
    }
  }

  lemma OtherOk(ps: seq<Provider>, s: State, j: Item)
    requires Inv(ps, s)
    ensures Inv(ps, Apply(ps, s, Other(j)))
  {
    if Later(s.item, j, ps, s.target) { Subset(s.item.errorOn, j.errorOn); }
  }

  lemma Subset(a: set<nat>, b: set<nat>)
    requires a <= b
    ensures |a| <= |b|
  {
    assert b == a + (b - a);
  }

  lemma {:induction false} Reachable(ps: seq<Provider>, s: State, es: seq<Event>)
    requires Start(ps, s) && Alone(ps)
    ensures Inv(ps, Exec(ps, s, es))
    decreases |es|
  {
    hide Apply, Alone;
    if es != [] {
      Reachable(ps, s, es[..|es| - 1]);
      var p := Exec(ps, s, es[..|es| - 1]);
      match es[|es| - 1]
      case Push(w, order, allowUp, checking) => PushOk(ps, p, w, order, allowUp, checking);
      case Break(q, now) => BreakOk(ps, p, q, now);
      case Other(j) => OtherOk(ps, p, j);
    }
  }

  lemma {:induction false} IdsBelow(n: nat, ids: set<nat>)
    requires forall p <- ids :: p < n
    ensures |ids| <= n
  {
    if n > 0 { IdsBelow(n - 1, ids - {n - 1}); }
  }

  predicate Bounded(ps: seq<Provider>, s: State, es: seq<Event>) {
    Exec(ps, s, es).attempts <= MAX_ITEM_FAILS - 1 + |ps|
  }

  /** Alone in their groups, providers close one by one: at most maxItemFails - 1 plus the number
      of providers uploads of an item end with FlagError while flaginUP. */
  lemma AttemptsBounded(ps: seq<Provider>, s: State, es: seq<Event>)
    requires Start(ps, s) && Alone(ps)
    ensures Bounded(ps, s, es)
  {
    Reachable(ps, s, es);
    hide Exec, Start, Alone;
    IdsBelow(|ps|, Exec(ps, s, es).item.errorOn);
  }

  /** MAIN: no run pushes an upload while uploads are not allowed or the check is under way. */
  lemma {:induction false} NoPushBefore(ps: seq<Provider>, s: State, es: seq<Event>)
    requires Start(ps, s) && forall e <- es :: e.Push? ==> !e.allowUp || e.checking
    ensures var t := Exec(ps, s, es); !t.item.flaginUP && t.target == None && t.attempts == 0
    decreases |es|
  {
    if es != [] {
      var front, e := es[..|es| - 1], es[|es| - 1];
      assert e in es && forall x <- front :: x in es;
      NoPushBefore(ps, s, front);
      NotPushed(ps, Exec(ps, s, front), e);
      hide Apply, Start;
    }
  }

  lemma NotPushed(ps: seq<Provider>, s: State, e: Event)
    requires !s.item.flaginUP && s.target == None && s.attempts == 0 && (e.Push? ==> !e.allowUp || e.checking)
    ensures var t := Apply(ps, s, e); !t.item.flaginUP && t.target == None && t.attempts == 0
  {}

  // --- without the condition ----------------------------------------------------------------------------------------

  /** An item downloaded and missing on providers a and b. */
  function MissingOnTwo(a: nat, b: nat): Item {
    Item(map[a := true, b := true], {}, {}, {}, {}, {}, {}, {}, 0, 0, true, false, true, false, false, false, false, 0)
  }

  /** The divider picks a, a worker of b takes the item from their channel, and fails. */
  function Round(a: nat, b: nat): seq<Event> { [Push(World(0, {}, {}), [a, b], true, false), Break(b, 0)] }

  function Rounds(a: nat, b: nat, n: nat): seq<Event> { if n == 0 then [] else Rounds(a, b, n - 1) + Round(a, b) }

  /** a stays a target however often b fails. */
  predicate StillOpen(i: Item, a: nat, b: nat) {
    && i.missingOn == map[a := true, b := true] && Matches(i)
    && i.ignoreUlOn == {} && i.uploadedTo == {} && i.availableOn == {} && i.unwantedOn == {} && i.dmcaOn == {}
    && a !in i.errorOn && a !in i.retryOn
  }

  lemma RoundFails(ps: seq<Provider>, s: State, a: nat, b: nat)
    requires a < |ps| && b < |ps| && a != b && TakesUploads(ps[a])
             && ps[a].group == ps[b].group && StillOpen(s.item, a, b)
    ensures var t := Apply(ps, Apply(ps, s, Round(a, b)[0]), Round(a, b)[1]);
            StillOpen(t.item, a, b) && t.attempts == s.attempts + 1
  {
    assert Order(s.item, [a, b]);
    assert !Closed(s.item, a);
    assert PushOutcome(s.item, ps, World(0, {}, {}), [a, b], true, false) == PushedTo(a);
    var p := Apply(ps, s, Round(a, b)[0]);
    assert p.item.flaginUP && p.target == Some(a);
    hide Walk, Order;
  }

  lemma ExecTwo(ps: seq<Provider>, s: State, es: seq<Event>, two: seq<Event>)
    requires |two| == 2
    ensures Exec(ps, s, es + two) == Apply(ps, Apply(ps, Exec(ps, s, es), two[0]), two[1])
  {
    hide Apply;
    assert (es + two)[..|es| + 1] == es + two[..1] && (es + two[..1])[..|es|] == es;
  }

  lemma {:induction false} Unbounded(ps: seq<Provider>, a: nat, b: nat, n: nat)
    requires a < |ps| && b < |ps| && a != b && TakesUploads(ps[a]) && ps[a].group == ps[b].group
    ensures var s := State(MissingOnTwo(a, b), None, 0);
            Start(ps, s) && Exec(ps, s, Rounds(a, b, n)).attempts == n
                && StillOpen(Exec(ps, s, Rounds(a, b, n)).item, a, b)
  {
    hide Apply;
    var s := State(MissingOnTwo(a, b), None, 0);
    if n > 0 {
      Unbounded(ps, a, b, n - 1);
      ExecTwo(ps, s, Rounds(a, b, n - 1), Round(a, b));
      RoundFails(ps, Exec(ps, s, Rounds(a, b, n - 1)), a, b);
      hide Exec;
    }
  }

  /** MAIN: the bound holds on all runs just if no provider that takes uploads shares its group.
      The push goes to the whole group, but FlagError closes only the worker's own provider. */
  lemma BoundIffAlone(ps: seq<Provider>)
    ensures Alone(ps) <==> forall s: State, es: seq<Event> :: Start(ps, s) ==> Bounded(ps, s, es)
  {
    if Alone(ps) {
      forall s: State, es: seq<Event> | Start(ps, s)
        ensures Bounded(ps, s, es)
      {
        AttemptsBounded(ps, s, es);
      }
    } else {
      var a: nat, b: nat :| a < |ps| && b < |ps| && a != b && TakesUploads(ps[a]) && ps[a].group == ps[b].group;
      Unbounded(ps, a, b, MAX_ITEM_FAILS + |ps|);
      hide Exec, Start;
      assert !Bounded(ps, State(MissingOnTwo(a, b), None, 0), Rounds(a, b, MAX_ITEM_FAILS + |ps|));
    }
  }

  // --- the item object ---------------------------------------------------------------------------

  class SegmentItem {
    var missingOn: map<nat, bool>
    var ignoreUlOn: set<nat>
    var uploadedTo: set<nat>
    var availableOn: set<nat>
    var unwantedOn: set<nat>
    var dmcaOn: set<nat>
    var errorOn: set<nat>
    var retryOn: set<nat>
    var retryIn: int
    var fails: nat
    var hasArticle: bool
    var flagCache: bool
    var flagisDL: bool
    var flaginDL: bool
    var flaginDLMEM: bool
    var flaginUP: bool
    var flagisUP: bool
    var pushedUP: nat

    function View(): Item
      reads this
    {
      Item(missingOn, ignoreUlOn, uploadedTo, availableOn, unwantedOn, dmcaOn, errorOn, retryOn, retryIn, fails,
           hasArticle, flagCache, flagisDL, flaginDL, flaginDLMEM, flaginUP, flagisUP, pushedUP)
    }

    /** hasUploadTarget, walking the map in any order. */
    method HasUploadTarget(ps: seq<Provider>, down: set<nat>, order: seq<nat>) returns (found: bool)
      requires Known(View(), ps) && Order(View(), order)
      ensures found == HasTarget(View(), ps, down)
    {
      ghost var i := View();
      for k := 0 to |order|
        invariant forall n | 0 <= n < k :: !Target(i, ps, down, order[n])
      {
        var pid := order[k];
        assert pid in order;
        if !missingOn[pid] { continue; }
        if ps[pid].noUpload || (!ps[pid].ihave && !ps[pid].post) || pid in down { continue; }
        if pid in ignoreUlOn || pid in uploadedTo || pid in availableOn
            || pid in unwantedOn || pid in dmcaOn || pid in errorOn {
          continue;
        }
        assert Target(i, ps, down, pid);
        return true;
      }
      found := false;
    }

    /** The guards of pushUP's loop before the retry; None goes on. */
    method Refuses(ps: seq<Provider>, w: World, pid: nat) returns (step: Option<Step>)
      requires pid in missingOn && pid < |ps|
      ensures step == if !missingOn[pid] then Some(NotMissing)
                      else if !TakesUploads(ps[pid]) || pid in w.down || Closed(View(), pid) then Some(NoUp)
                      else None
    {
      if !missingOn[pid] { return Some(NotMissing); }
      if ps[pid].noUpload || (!ps[pid].ihave && !ps[pid].post) || pid in w.down { return Some(NoUp); }
      if pid in ignoreUlOn || pid in uploadedTo || pid in availableOn
          || pid in unwantedOn || pid in dmcaOn || pid in errorOn {
        return Some(NoUp);
      }
      step := None;
    }

    /** delete(item.retryOn, pid) */
    method ForgetRetry(pid: nat)
      modifies this`retryOn
      ensures View() == old(View()).(retryOn := old(View()).retryOn - {pid})
    {
      retryOn := retryOn - {pid};
    }

    method MarkPushed()
      modifies this`flaginUP, this`pushedUP
      ensures View() == old(View()).(flaginUP := true, pushedUP := old(View()).pushedUP + 1)
    {
      flaginUP, pushedUP := true, pushedUP + 1;
    }

    /** What pushUP makes of a provider, and of its retry flag. */
    method Judge(ps: seq<Provider>, w: World, pid: nat) returns (step: Step)
      requires pid in View().missingOn && pid < |ps|
      ensures step == Look(View(), ps, w, pid)
    {
      hide Closed, TakesUploads;
      var refused := Refuses(ps, w, pid);
      if refused.Some? { return refused.value; }
      if pid in retryOn && retryIn > w.now { return InRetry; }
      step := if ps[pid].group in w.full then Full else Free;
    }

    /** The loop body of pushUP for one provider. */
    method Offer(ps: seq<Provider>, w: World, pid: nat) returns (step: Step)
      requires pid in View().missingOn && pid < |ps|
      modifies this`retryOn, this`flaginUP, this`pushedUP
      ensures step == Look(old(View()), ps, w, pid)
      ensures View() == match step
                        case Full => Pushed(old(View()), ChanFull(pid, 0, 0))
                        case Free => Pushed(old(View()), PushedTo(pid))
                        case _ => old(View())
    {
      hide View, Look;
      step := Judge(ps, w, pid);
      if step.Full? || step.Free? { ForgetRetry(pid); }
      if step.Free? { MarkPushed(); }
    }

    /** pushUP; the send is left to the caller, who knows from the outcome where it goes. */
    method PushUP(ps: seq<Provider>, w: World, order: seq<nat>, allowUp: bool, checking: bool) returns (o: Outcome)
      requires Known(View(), ps) && Order(View(), order)
      modifies this`retryOn, this`flaginUP, this`pushedUP
      ensures o == PushOutcome(old(View()), ps, w, order, allowUp, checking)
      ensures View() == Pushed(old(View()), o)
    {
      if !allowUp { return NotAllowed; }
      if checking { return StillChecking; }
      if !(hasArticle && (flagisDL || flagCache) && !flaginUP && !flagisUP && !flaginDLMEM && !flaginDL) {
        return NoMatch;
      }
      OrderIds(View(), ps, order);
      o := WalkMissing(ps, w, order);
    }

    /** ... and its loop. */
    method WalkMissing(ps: seq<Provider>, w: World, order: seq<nat>) returns (o: Outcome)
      requires Ids(View(), ps, order)
      modifies this`retryOn, this`flaginUP, this`pushedUP
      ensures o == Walk(old(View()), ps, w, order, 0, 0)
      ensures View() == Pushed(old(View()), o)
    {
      hide Look, Walk, View;
      ghost var i := View();
      var noup, inretry := 0, 0;
      assert order[0..] == order;
      for k := 0 to |order|
        invariant View() == i && Walk(i, ps, w, order[k..], noup, inretry) == Walk(i, ps, w, order, 0, 0)
      {
        var pid := order[k];
        assert pid in order;
        WalkStep(i, ps, w, order, k, noup, inretry);
        var step := Offer(ps, w, pid);
        match step {
          case NotMissing =>
          case NoUp => noup := noup + 1;
          case InRetry => inretry := inretry + 1;
          case Full => return ChanFull(pid, noup + 1, inretry);
          case Free => return PushedTo(pid);
        }
      }
      o := NoneFound(noup, inretry);
      WalkNone(i, ps, w, noup, inretry);
    }

    /** The first block of FlagError. */
    method ScheduleRetry(providerId: nat, now: int) returns (wasUP: bool)
      modifies this`retryIn, this`retryOn, this`flaginUP
      ensures var i := old(View());
              && wasUP == i.flaginUP
              && View() == (if wasUP && i.fails < MAX_ITEM_FAILS - 1
                            then i.(retryIn := now + 5, retryOn := i.retryOn + {providerId})
                            else i).(flaginUP := false)
    {
      wasUP := flaginUP;
      if flaginUP {
        if fails < MAX_ITEM_FAILS - 1 {
          retryIn := now + 5;
          retryOn := retryOn + {providerId};
        }
        flaginUP := false;
      }
    }

    method CountFailure(providerId: nat)
      modifies this`flaginDL, this`fails, this`availableOn
      ensures var i := old(View());
              View() == i.(flaginDL := false, fails := i.fails + 1, availableOn := i.availableOn - {providerId})
    {
      flaginDL := false;
      fails := fails + 1;
      availableOn := availableOn - {providerId};
    }

    method CloseTarget(providerId: nat)
      modifies this`errorOn
      ensures View() == old(View()).(errorOn := old(View()).errorOn + {providerId})
    {
      errorOn := errorOn + {providerId};
    }

    method Exhausted() returns (r: bool)
      ensures r == (View().fails >= MAX_ITEM_FAILS)
    {
      r := fails >= MAX_ITEM_FAILS;
    }

    method FlagAnError(providerId: nat, now: int)
      modifies this`retryIn, this`retryOn, this`flaginUP, this`flaginDL, this`fails, this`errorOn, this`availableOn
      ensures View() == FlagError(old(View()), providerId, now)
    {
      hide View;
      var wasUP := ScheduleRetry(providerId, now);
      CountFailure(providerId);
      var exhausted := Exhausted();
      if wasUP && exhausted { CloseTarget(providerId); }
    }
  }
}
