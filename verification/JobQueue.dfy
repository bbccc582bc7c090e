/** The web job queue (webjobs.go). */
module JobQueue {
  // A list of jobs under a mutex, a wake channel of capacity 1 and one runner. Every critical
  // section and every channel operation is one step.

  import opened Wrappers

  datatype Status = Queued | Waiting | Running | Completed | Failed

  datatype Job = Job(id: nat, status: Status, stopRequested: bool)

  const MAX_PENDING := 1000
  const MAX_FINISHED := 50

  predicate Finished(j: Job) { j.status.Completed? || j.status.Failed? }

  /** Where the runner is; Picked is between nextWaiting and the lock of runJob. */
  datatype Pc = AwaitWake | Scan | Picked(id: nat) | InSession(id: nat)

  /** `gone` are the jobs removed from the list, as they were then; `since` the jobs that became
      waiting after the runner's last pick. Both are history, the source does not keep them. */
  datatype State = State(jobs: seq<Job>, nextId: nat, wake: bool, pc: Pc, gone: seq<Job>, since: set<nat>)

  const Init := State([], 1, false, AwaitWake, [], {})

  // --- the list ---------------------------------------------------------------------------------

  /** The jobs are in the order they were added. */
  predicate InOrder(jobs: seq<Job>) { forall i, k | 0 <= i < k < |jobs| :: jobs[i].id < jobs[k].id }

  function Find(jobs: seq<Job>, id: nat): (r: Option<nat>)
    ensures r.Some? ==> r.value < |jobs| && jobs[r.value].id == id
    ensures r.None? ==> forall k | 0 <= k < |jobs| :: jobs[k].id != id
  {
    if jobs == [] then None
    else if jobs[0].id == id then Some(0)
    else match Find(jobs[1..], id) case None => None case Some(i) => Some(i + 1)
  }

  /** nextWaiting */
  function FirstWaiting(jobs: seq<Job>): (r: Option<nat>)
    ensures r.Some? ==> r.value < |jobs| && jobs[r.value].status.Waiting?
                        && forall k | 0 <= k < r.value :: !jobs[k].status.Waiting?
    ensures r.None? ==> forall k | 0 <= k < |jobs| :: !jobs[k].status.Waiting?
  {
    if jobs == [] then None
    else if jobs[0].status.Waiting? then Some(0)
    else match FirstWaiting(jobs[1..]) case None => None case Some(i) => Some(i + 1)
  }

  datatype Kind = Pending | Done | Live

  predicate Is(k: Kind, j: Job) {
    match k
    case Pending => j.status.Queued? || j.status.Waiting?
    case Done => Finished(j)
    case Live => j.status.Running?
  }

  function One(k: Kind, j: Job): nat { if Is(k, j) then 1 else 0 }

  function Count(k: Kind, jobs: seq<Job>): nat { if jobs == [] then 0 else One(k, jobs[0]) + Count(k, jobs[1..]) }

  lemma {:induction false} CountUpdate(k: Kind, jobs: seq<Job>, i: nat, j: Job)
    requires i < |jobs|
    ensures Count(k, jobs[i := j]) + One(k, jobs[i]) == Count(k, jobs) + One(k, j)
    decreases |jobs|
  {
    var t := jobs[i := j];
    if i > 0 {
      CountUpdate(k, jobs[1..], i - 1, j);
      assert t[1..] == jobs[1..][i - 1 := j];
    } else {
      assert t[1..] == jobs[1..];
    }
  }

  lemma {:induction false} CountAppend(k: Kind, jobs: seq<Job>, j: Job)
    ensures Count(k, jobs + [j]) == Count(k, jobs) + One(k, j)
  {
    if jobs != [] {
      CountAppend(k, jobs[1..], j);
      assert (jobs + [j])[1..] == jobs[1..] + [j];
    }
  }

  lemma {:induction false} CountRemove(k: Kind, jobs: seq<Job>, i: nat)
    requires i < |jobs|
    ensures Count(k, jobs[..i] + jobs[i + 1..]) + One(k, jobs[i]) == Count(k, jobs)
    decreases |jobs|
  {
    var t := jobs[..i] + jobs[i + 1..];
    if i > 0 {
      CountRemove(k, jobs[1..], i - 1);
      assert t[1..] == jobs[1..][..i - 1] + jobs[1..][i..];
    } else {
      assert t == jobs[1..];
    }
  }

  lemma {:induction false} CountedIn(k: Kind, jobs: seq<Job>, i: nat)
    requires i < |jobs| && Is(k, jobs[i])
    ensures Count(k, jobs) >= 1
    ensures Count(k, jobs) == 1 ==> forall n | 0 <= n < |jobs| && n != i :: !Is(k, jobs[n])
    decreases |jobs|
  {
    if i > 0 {
      CountedIn(k, jobs[1..], i - 1);
      assert forall n | 1 <= n < |jobs| :: jobs[n] == jobs[1..][n - 1];
    } else {
      CountedNone(k, jobs[1..]);
      assert forall n | 1 <= n < |jobs| :: jobs[n] == jobs[1..][n - 1];
    }
  }

  lemma {:induction false} CountedNone(k: Kind, jobs: seq<Job>)
    ensures Count(k, jobs) == 0 <==> forall n | 0 <= n < |jobs| :: !Is(k, jobs[n])
  {
    if jobs != [] {
      CountedNone(k, jobs[1..]);
      assert forall n | 1 <= n < |jobs| :: jobs[n] == jobs[1..][n - 1];
    }
  }

  // --- dropping the oldest finished jobs ---------------------------------------------------------------

  /** The jobs left when the first `drop` finished ones are taken out. */
  function Keep(jobs: seq<Job>, drop: nat): seq<Job> {
    if jobs == [] then []
    else if drop > 0 && Finished(jobs[0]) then Keep(jobs[1..], drop - 1)
    else [jobs[0]] + Keep(jobs[1..], drop)
  }

  function Dropped(jobs: seq<Job>, drop: nat): seq<Job> {
    if jobs == [] then []
    else if drop > 0 && Finished(jobs[0]) then [jobs[0]] + Dropped(jobs[1..], drop - 1)
    else Dropped(jobs[1..], drop)
  }

  function Excess(jobs: seq<Job>): nat {
    var n := Count(Done, jobs); if n > MAX_FINISHED then n - MAX_FINISHED else 0
  }

  lemma {:induction false} KeepCounts(jobs: seq<Job>, drop: nat)
    ensures Count(Done, Keep(jobs, drop)) == if Count(Done, jobs) > drop then Count(Done, jobs) - drop else 0
    ensures Count(Pending, Keep(jobs, drop)) == Count(Pending, jobs)
            && Count(Live, Keep(jobs, drop)) == Count(Live, jobs)
  {
    if jobs != [] {
      var cut := drop > 0 && Finished(jobs[0]);
      KeepCounts(jobs[1..], if cut then drop - 1 else drop);
      var rest := Keep(jobs[1..], drop);
      if !cut { assert ([jobs[0]] + rest)[1..] == rest; }
    }
  }

  lemma {:induction false} KeepSplits(jobs: seq<Job>, drop: nat)
    ensures multiset(Keep(jobs, drop)) + multiset(Dropped(jobs, drop)) == multiset(jobs)
    ensures forall j <- Dropped(jobs, drop) :: Finished(j)
  {
    if jobs != [] {
      KeepSplits(jobs[1..], if drop > 0 && Finished(jobs[0]) then drop - 1 else drop);
      assert [jobs[0]] + jobs[1..] == jobs;
    }
  }

  lemma {:induction false} KeepOrder(jobs: seq<Job>, drop: nat)
    requires InOrder(jobs)
    ensures InOrder(Keep(jobs, drop)) && forall j <- Keep(jobs, drop) :: j in jobs
  {
    if jobs != [] {
      var d := if drop > 0 && Finished(jobs[0]) then drop - 1 else drop;
      KeepOrder(jobs[1..], d);
      var rest := Keep(jobs[1..], d);
      forall k | 0 <= k < |rest|
        ensures jobs[0].id < rest[k].id
      {
        assert rest[k] in jobs[1..];
        var i :| 0 <= i < |jobs[1..]| && jobs[1..][i] == rest[k];
        assert jobs[i + 1] == rest[k];
      }
    }
  }

  lemma {:induction false} DropsOldest(jobs: seq<Job>, drop: nat)
    requires InOrder(jobs)
    ensures forall d <- Dropped(jobs, drop), k <- Keep(jobs, drop) :: Finished(k) ==> d.id < k.id
  {
    if jobs != [] {
      var cut := drop > 0 && Finished(jobs[0]);
      DropsOldest(jobs[1..], if cut then drop - 1 else drop);
      KeepOrder(jobs[1..], if cut then drop - 1 else drop);
      if Finished(jobs[0]) && !cut { NothingDropped(jobs[1..]); }
    }
  }

  lemma {:induction false} NothingDropped(jobs: seq<Job>)
    ensures Dropped(jobs, 0) == []
  {
    if jobs != [] { NothingDropped(jobs[1..]); }
  }

  // --- the critical sections -------------------------------------------------------------------------------

  /** finishLocked: the job's result, then the drop. */
  function Finish(s: State, i: nat, failed: bool): State
    requires i < |s.jobs|
  {
    var j := s.jobs[i];
    var ended := s.jobs[i := j.(status := if failed || j.stopRequested then Failed else Completed)];
    s.(jobs := Keep(ended, Excess(ended)), gone := s.gone + Dropped(ended, Excess(ended)))
  }

  datatype Event =
    | Add                        // a parsed NZB arrives
    | Start(id: nat)
    | Stop(id: nat)
    | Delete(id: nat)
    | Wake                       // the runner receives from wake
    | Next                       // nextWaiting
    | Run(processor: bool)       // the first critical section of runJob
    | End(failed: bool)          // the session ended, second critical section

  function Apply(s: State, e: Event): State {
    match e
    case Add =>
      if Count(Pending, s.jobs) >= MAX_PENDING then s
      else s.(jobs := s.jobs + [Job(s.nextId, Queued, false)], nextId := s.nextId + 1)
    case Start(id) =>
      (match Find(s.jobs, id)
       case None => s
       case Some(i) =>
         if !s.jobs[i].status.Queued? then s
         else s.(jobs := s.jobs[i := s.jobs[i].(status := Waiting)], wake := true, since := s.since + {id}))
    case Stop(id) =>
      (match Find(s.jobs, id)
       case None => s
       case Some(i) =>
         if s.jobs[i].status.Waiting? then Finish(s, i, true)
         else if s.jobs[i].status.Running? then s.(jobs := s.jobs[i := s.jobs[i].(stopRequested := true)])
         else s)
    case Delete(id) =>
      (match Find(s.jobs, id)
       case None => s
       case Some(i) =>
         if s.jobs[i].status.Queued? || Finished(s.jobs[i])
         then s.(jobs := s.jobs[..i] + s.jobs[i + 1..], gone := s.gone + [s.jobs[i]])
         else s)
    case Wake => if s.pc.AwaitWake? && s.wake then s.(wake := false, pc := Scan) else s
    case Next =>
      if !s.pc.Scan? then s
      else (match FirstWaiting(s.jobs)
            case None => s.(pc := AwaitWake)
            case Some(i) => s.(pc := Picked(s.jobs[i].id), since := {}))
    case Run(processor) =>
      if !s.pc.Picked? then s
      else (match Find(s.jobs, s.pc.id)
            case None => s.(pc := Scan)
            case Some(i) =>
              if !s.jobs[i].status.Waiting? then s.(pc := Scan)
              else if !processor then Finish(s, i, true).(pc := Scan)
              else s.(jobs := s.jobs[i := s.jobs[i].(status := Running)], pc := InSession(s.pc.id)))
    case End(failed) =>
      if !s.pc.InSession? then s
      else (match Find(s.jobs, s.pc.id)
            case None => s.(pc := Scan)
            case Some(i) => Finish(s, i, failed).(pc := Scan))
  }

  function Exec(es: seq<Event>): State {
    if es == [] then Init else Apply(Exec(es[..|es| - 1]), es[|es| - 1])
  }

  // --- the invariant ---------------------------------------------------------------------------------------------

  predicate Known(s: State) {
    && InOrder(s.jobs)
    && forall j <- s.jobs :: 0 < j.id < s.nextId
  }

  predicate Bounded(s: State) {
    && Count(Pending, s.jobs) <= MAX_PENDING
    && Count(Done, s.jobs) <= MAX_FINISHED
  }

  /** The runner's job is the only running one. */
  predicate OneRunner(s: State) {
    && Count(Live, s.jobs) == (if s.pc.InSession? then 1 else 0)
    && (s.pc.InSession? ==> exists j :: j in s.jobs && j.id == s.pc.id && j.status.Running?)
  }

  /** No lost wake-up. */
  predicate Awake(s: State) { s.wake || !s.pc.AwaitWake? || forall j <- s.jobs :: !j.status.Waiting? }

  /** A waiting job older than the picked one became waiting after the pick. */
  predicate PickedOldest(s: State) {
    s.pc.Picked? ==> forall j <- s.jobs :: j.status.Waiting? && j.id < s.pc.id ==> j.id in s.since
  }

  predicate Has(jobs: seq<Job>, id: nat) { exists j :: j in jobs && j.id == id }

  /** Every job ever added is in the list or was removed, once, when it was finished or queued. */
  ghost predicate NoneLost(s: State) {
    && (forall id: nat | 0 < id < s.nextId ::
          Has(s.jobs, id) || Has(s.gone, id))
    && |s.jobs| + |s.gone| == s.nextId - 1
    && (forall j <- s.gone :: j.status.Queued? || Finished(j))
  }

  ghost predicate ListOk(s: State) {
    && s.nextId > 0
    && Known(s)
    && Bounded(s)
    && NoneLost(s)
  }

  ghost predicate Inv(s: State) {
    && ListOk(s)
    && OneRunner(s)
    && Awake(s)
    && PickedOldest(s)
  }

  // --- every step keeps it -----------------------------------------------------------------------

  /** A job changes in place. */
  lemma UpdateOk(s: State, i: nat, j: Job)
    requires ListOk(s) && i < |s.jobs| && j.id == s.jobs[i].id
    requires One(Pending, j) <= One(Pending, s.jobs[i]) && One(Done, j) == One(Done, s.jobs[i])
    ensures ListOk(s.(jobs := s.jobs[i := j]))
    ensures Count(Live, s.jobs[i := j]) + One(Live, s.jobs[i]) == Count(Live, s.jobs) + One(Live, j)
  {
    CountUpdate(Pending, s.jobs, i, j);
    CountUpdate(Done, s.jobs, i, j);
    CountUpdate(Live, s.jobs, i, j);
    SameIds(s.jobs, i, j);
  }

  lemma SameIds(jobs: seq<Job>, i: nat, j: Job)
    requires i < |jobs| && j.id == jobs[i].id
    ensures forall id: nat :: Has(jobs, id) ==> Has(jobs[i := j], id)
    ensures forall x <- jobs[i := j] :: x == j || x in jobs
    ensures forall x <- jobs | x.id != j.id :: x in jobs[i := j]
  {
    var t := jobs[i := j];
    forall id: nat | Has(jobs, id)
      ensures Has(t, id)
    {
      var x :| x in jobs && x.id == id;
      var k :| 0 <= k < |jobs| && jobs[k] == x;
      assert t[k] in t && t[k].id == id;
    }
    forall x <- jobs | x.id != j.id
      ensures x in t
    {
      var k :| 0 <= k < |jobs| && jobs[k] == x;
      assert t[k] == x;
    }
  }

  /** The list with the result recorded. */
  function Ended(s: State, i: nat, failed: bool): seq<Job>
    requires i < |s.jobs|
  {
    s.jobs[i := s.jobs[i].(status := if failed || s.jobs[i].stopRequested then Failed else Completed)]
  }

  lemma EndedOk(s: State, i: nat, failed: bool)
    requires ListOk(s) && i < |s.jobs| && !Finished(s.jobs[i])
    ensures var e := Ended(s, i, failed);
            && Count(Pending, e) <= MAX_PENDING && Count(Done, e) <= MAX_FINISHED + 1
            && Count(Live, e) + One(Live, s.jobs[i]) == Count(Live, s.jobs)
            && InOrder(e) && (forall j <- e :: 0 < j.id < s.nextId)
            && (forall id: nat :: Has(s.jobs, id) ==> Has(e, id))
  {
    var j := Ended(s, i, failed)[i];
    CountUpdate(Pending, s.jobs, i, j);
    CountUpdate(Done, s.jobs, i, j);
    CountUpdate(Live, s.jobs, i, j);
    SameIds(s.jobs, i, j);
  }

  /** What finishLocked does to the list. */
  lemma FinishOk(s: State, i: nat, failed: bool)
    requires ListOk(s) && i < |s.jobs| && !Finished(s.jobs[i])
    ensures var t := Finish(s, i, failed);
            ListOk(t) && Count(Live, t.jobs) + One(Live, s.jobs[i]) == Count(Live, s.jobs)
  {
    var e := Ended(s, i, failed);
    EndedOk(s, i, failed);
    hide Count, Keep, Dropped, Has, One;
    KeepCounts(e, Excess(e));
    KeepOrder(e, Excess(e));
    NoneLostAfter(s, e, Excess(e));
  }

  /** ... and to the other unfinished jobs: nothing. */
  lemma OthersStay(s: State, i: nat, failed: bool)
    requires ListOk(s) && i < |s.jobs| && !Finished(s.jobs[i])
    ensures var t := Finish(s, i, failed);
            && (forall x <- t.jobs | !Finished(x) :: x in s.jobs && x.id != s.jobs[i].id)
            && (forall x <- s.jobs | !Finished(x) && x.id != s.jobs[i].id :: x in t.jobs)
  {
    var e := Ended(s, i, failed);
    SameIds(s.jobs, i, e[i]);
    EndedOk(s, i, failed);
    KeptOrDropped(e, Excess(e));
    KeepOrder(e, Excess(e));
    hide Count, Keep, Dropped, Has, One, Excess;
    forall x <- Keep(e, Excess(e)) | !Finished(x)
      ensures x in s.jobs && x.id != s.jobs[i].id
    {
      var k :| 0 <= k < |e| && e[k] == x;
      assert k != i;
    }
  }

  lemma KeptOrDropped(jobs: seq<Job>, drop: nat)
    ensures |Keep(jobs, drop)| + |Dropped(jobs, drop)| == |jobs|
    ensures forall x <- jobs :: x in Keep(jobs, drop) || x in Dropped(jobs, drop)
    ensures forall x <- Dropped(jobs, drop) :: Finished(x)
  {
    KeepSplits(jobs, drop);
    hide Keep, Dropped;
    assert |multiset(Keep(jobs, drop))| + |multiset(Dropped(jobs, drop))| == |multiset(jobs)|;
    forall x <- jobs
      ensures x in Keep(jobs, drop) || x in Dropped(jobs, drop)
    {
      assert x in multiset(jobs);
    }
  }

  lemma NoneLostAfter(s: State, ended: seq<Job>, drop: nat)
    requires NoneLost(s) && |ended| == |s.jobs| && forall id: nat :: Has(s.jobs, id) ==> Has(ended, id)
    ensures NoneLost(s.(jobs := Keep(ended, drop), gone := s.gone + Dropped(ended, drop)))
  {
    KeptOrDropped(ended, drop);
    hide Keep, Dropped;
    var t := s.(jobs := Keep(ended, drop), gone := s.gone + Dropped(ended, drop));
    forall id: nat | 0 < id < s.nextId
      ensures Has(t.jobs, id) || Has(t.gone, id)
    {
      if Has(s.jobs, id) {
        assert Has(ended, id);
        var x :| x in ended && x.id == id;
        assert x in t.jobs || x in t.gone;
      } else {
        var x :| x in s.gone && x.id == id;
        assert x in t.gone;
      }
    }
  }

  lemma AddOk(s: State)
    requires Inv(s)
    ensures Inv(Apply(s, Add))
  {
    hide Count;
    if Count(Pending, s.jobs) < MAX_PENDING {
      var j := Job(s.nextId, Queued, false);
      var t := Apply(s, Add);
      CountAppend(Pending, s.jobs, j);
      CountAppend(Done, s.jobs, j);
      CountAppend(Live, s.jobs, j);
      forall id: nat | 0 < id < t.nextId
        ensures Has(t.jobs, id) || Has(t.gone, id)
      {
        if id == s.nextId {
          assert j in t.jobs;
        } else if Has(s.jobs, id) {
          var x :| x in s.jobs && x.id == id;
          assert x in t.jobs;
        }
      }
      if s.pc.InSession? {
        var x :| x in s.jobs && x.id == s.pc.id && x.status.Running?;
        assert x in t.jobs;
      }
    }
  }

  /** StartJob or StopJob change one job in place. */
  lemma ChangeOk(s: State, i: nat, j: Job, wake: bool, since: set<nat>)
    requires Inv(s) && i < |s.jobs| && j.id == s.jobs[i].id
    requires (s.jobs[i].status.Queued? && j.status.Waiting? && wake && since == s.since + {j.id})
             || (s.jobs[i].status.Running? && j.status.Running? && wake == s.wake && since == s.since)
    ensures Inv(s.(jobs := s.jobs[i := j], wake := wake, since := since))
  {
    var t := s.(jobs := s.jobs[i := j], wake := wake, since := since);
    ChangedList(s, i, j, wake, since);
    SameIds(s.jobs, i, j);
    InOrderOf(s);
    hide Count, Has, ListOk;
    if s.pc.InSession? {
      var x :| x in s.jobs && x.id == s.pc.id && x.status.Running?;
      assert t.jobs[i] == j;
      SameIdSameJob(s.jobs, x, s.jobs[i]);
    }
  }

  lemma ChangedList(s: State, i: nat, j: Job, wake: bool, since: set<nat>)
    requires ListOk(s) && i < |s.jobs| && j.id == s.jobs[i].id
    requires (s.jobs[i].status.Queued? && j.status.Waiting?) || (s.jobs[i].status.Running? && j.status.Running?)
    ensures ListOk(s.(jobs := s.jobs[i := j], wake := wake, since := since))
    ensures Count(Live, s.jobs[i := j]) == Count(Live, s.jobs)
  {
    UpdateOk(s, i, j);
    hide Count, Has;
  }

  lemma SameIdSameJob(jobs: seq<Job>, x: Job, y: Job)
    requires InOrder(jobs) && x in jobs && y in jobs
    ensures x.id == y.id ==> x == y
  {
    var i :| 0 <= i < |jobs| && jobs[i] == x;
    var k :| 0 <= k < |jobs| && jobs[k] == y;
  }

  lemma StartOk(s: State, id: nat)
    requires Inv(s)
    ensures Inv(Apply(s, Start(id)))
  {
    hide Inv, Count;
    var f := Find(s.jobs, id);
    if f.Some? && s.jobs[f.value].status.Queued? {
      ChangeOk(s, f.value, s.jobs[f.value].(status := Waiting), true, s.since + {id});
    }
  }

  /** A waiting job fails, the runner's place unchanged: StopJob. */
  lemma CancelOk(s: State, i: nat)
    requires Inv(s) && i < |s.jobs| && s.jobs[i].status.Waiting?
    ensures Inv(Finish(s, i, true))
  {
    FinishOk(s, i, true);
    OthersStay(s, i, true);
    var t := Finish(s, i, true);
    assert t.pc == s.pc && t.wake == s.wake && t.since == s.since;
    InOrderOf(s);
    hide Count, Finish, ListOk;
    if s.pc.InSession? {
      var x :| x in s.jobs && x.id == s.pc.id && x.status.Running?;
      SameIdSameJob(s.jobs, x, s.jobs[i]);
      assert x in t.jobs;
    }
  }

  lemma InOrderOf(s: State)
    requires ListOk(s)
    ensures InOrder(s.jobs)
  {}

  lemma StopOk(s: State, id: nat)
    requires Inv(s)
    ensures Inv(Apply(s, Stop(id)))
  {
    hide Inv, Count, Finish;
    var f := Find(s.jobs, id);
    if f.Some? {
      var j := s.jobs[f.value];
      if j.status.Waiting? {
        CancelOk(s, f.value);
      } else if j.status.Running? {
        ChangeOk(s, f.value, j.(stopRequested := true), s.wake, s.since);
      }
    }
  }

  lemma DeleteOk(s: State, id: nat)
    requires Inv(s)
    ensures Inv(Apply(s, Delete(id)))
  {
    hide Find, Count, ListOk;
    var f := Find(s.jobs, id);
    if f.Some? && (s.jobs[f.value].status.Queued? || Finished(s.jobs[f.value])) {
      var t := Apply(s, Delete(id));
      RemoveOk(s, f.value);
      OthersRemain(s.jobs, f.value);
      if s.pc.InSession? {
        var x :| x in s.jobs && x.id == s.pc.id && x.status.Running?;
        assert x in t.jobs;
      }
    }
  }

  lemma RemoveOk(s: State, i: nat)
    requires ListOk(s) && i < |s.jobs| && (s.jobs[i].status.Queued? || Finished(s.jobs[i]))
    ensures var t := s.(jobs := s.jobs[..i] + s.jobs[i + 1..], gone := s.gone + [s.jobs[i]]);
            ListOk(t) && Count(Live, t.jobs) == Count(Live, s.jobs)
  {
    CountRemove(Pending, s.jobs, i);
    CountRemove(Done, s.jobs, i);
    CountRemove(Live, s.jobs, i);
    IdsDiffer(s.jobs, i);
    hide Count, Has, InOrder;
    OthersRemain(s.jobs, i);
    RemovedIsGone(s, i);
  }

  lemma OthersRemain(jobs: seq<Job>, i: nat)
    requires i < |jobs|
    ensures forall x <- jobs | x != jobs[i] :: x in jobs[..i] + jobs[i + 1..]
    ensures forall x <- jobs[..i] + jobs[i + 1..] :: x in jobs
  {
    assert jobs == jobs[..i] + [jobs[i]] + jobs[i + 1..];
  }

  lemma RemovedIsGone(s: State, i: nat)
    requires NoneLost(s) && i < |s.jobs| && (s.jobs[i].status.Queued? || Finished(s.jobs[i]))
    ensures NoneLost(s.(jobs := s.jobs[..i] + s.jobs[i + 1..], gone := s.gone + [s.jobs[i]]))
  {
    var t := s.(jobs := s.jobs[..i] + s.jobs[i + 1..], gone := s.gone + [s.jobs[i]]);
    OthersRemain(s.jobs, i);
    forall id: nat | 0 < id < s.nextId
      ensures Has(t.jobs, id) || Has(t.gone, id)
    {
      if Has(s.jobs, id) {
        var x :| x in s.jobs && x.id == id;
        assert x in t.jobs || x == s.jobs[i];
        assert s.jobs[i] in t.gone;
      } else {
        var x :| x in s.gone && x.id == id;
        assert x in t.gone;
      }
    }
  }

  lemma NextOk(s: State)
    requires Inv(s)
    ensures Inv(Apply(s, Next)) && Inv(Apply(s, Wake))
  {
    hide Count, Has;
    if s.pc.Scan? && FirstWaiting(s.jobs).Some? {
      var i := FirstWaiting(s.jobs).value;
      forall j <- s.jobs | j.status.Waiting?
        ensures j.id >= s.jobs[i].id
      {
        var k :| 0 <= k < |s.jobs| && s.jobs[k] == j;
        if k > i { assert s.jobs[i].id < s.jobs[k].id; }
      }
    }
  }

  /** A session starts for the picked job. */
  lemma SessionOk(s: State, i: nat)
    requires Inv(s) && s.pc.Picked? && Find(s.jobs, s.pc.id) == Some(i) && s.jobs[i].status.Waiting?
    ensures Inv(Apply(s, Run(true)))
  {
    hide Count, Has, Keep, Dropped, Excess;
    var j := s.jobs[i].(status := Running);
    UpdateOk(s, i, j);
    SameIds(s.jobs, i, j);
    assert s.jobs[i := j][i] in s.jobs[i := j];
  }

  lemma RunOk(s: State, processor: bool)
    requires Inv(s)
    ensures Inv(Apply(s, Run(processor)))
  {
    hide Count, Has, Keep, Dropped, Excess;
    if s.pc.Picked? && Find(s.jobs, s.pc.id).Some? {
      var i := Find(s.jobs, s.pc.id).value;
      if s.jobs[i].status.Waiting? {
        if processor { SessionOk(s, i); } else { FinishOk(s, i, true); }
      }
    }
  }

  lemma EndOk(s: State, failed: bool)
    requires Inv(s)
    ensures Inv(Apply(s, End(failed)))
  {
    hide Count, Has, Keep, Dropped, Excess;
    if s.pc.InSession? {
      var x :| x in s.jobs && x.id == s.pc.id && x.status.Running?;
      var f := Find(s.jobs, s.pc.id);
      SameIdSameJob(s.jobs, x, s.jobs[f.value]);
      FinishOk(s, f.value, failed);
    }
  }

  lemma StepOk(s: State, e: Event)
    requires Inv(s)
    ensures Inv(Apply(s, e))
  {
    hide Inv, Apply;
    match e
    case Add => AddOk(s);
    case Start(id) => StartOk(s, id);
    case Stop(id) => StopOk(s, id);
    case Delete(id) => DeleteOk(s, id);
    case Wake => NextOk(s);
    case Next => NextOk(s);
    case Run(processor) => RunOk(s, processor);
    case End(failed) => EndOk(s, failed);
  }

  lemma {:induction false} Reachable(es: seq<Event>)
    ensures Inv(Exec(es))
    decreases |es|
  {
    hide Apply;
    if es != [] {
      Reachable(es[..|es| - 1]);
      StepOk(Exec(es[..|es| - 1]), es[|es| - 1]);
    }
  }

  // --- main results ------------------------------------------------------------------------------

  /** MAIN: in every reachable state with a waiting job there is a wake token or the runner is in
      its inner loop; and if it is about to look for a job, it picks the one added first. */
  lemma NoLostWakeUp(es: seq<Event>, j: Job)
    requires j in Exec(es).jobs && j.status.Waiting?
    ensures var s := Exec(es);
            && (s.wake || !s.pc.AwaitWake?)
            && (s.pc.Scan? ==> exists w ::
               w in s.jobs && w.status.Waiting? && Apply(s, Next).pc == Picked(w.id) && w.id <= j.id)
  {
    Reachable(es);
    var s := Exec(es);
    hide Exec, Count, Has;
    if s.pc.Scan? {
      var i := FirstWaiting(s.jobs).value;
      var k :| 0 <= k < |s.jobs| && s.jobs[k] == j;
      assert i < k ==> s.jobs[i].id < s.jobs[k].id;
      assert s.jobs[i] in s.jobs && s.jobs[i].id <= j.id;
    }
  }

  /** MAIN: at most one job runs, and it is the runner's; the queue is bounded. */
  lemma OneAtATime(es: seq<Event>, x: Job, y: Job)
    requires x in Exec(es).jobs && y in Exec(es).jobs && x.status.Running? && y.status.Running?
    ensures x == y && Exec(es).pc == InSession(x.id)
  {
    Reachable(es);
    var s := Exec(es);
    hide Exec, Has;
    var i :| 0 <= i < |s.jobs| && s.jobs[i] == x;
    var k :| 0 <= k < |s.jobs| && s.jobs[k] == y;
    CountedIn(Live, s.jobs, i);
    var z :| z in s.jobs && z.id == s.pc.id && z.status.Running?;
    var n :| 0 <= n < |s.jobs| && s.jobs[n] == z;
  }

  lemma Bounds(es: seq<Event>)
    ensures Count(Pending, Exec(es).jobs) <= MAX_PENDING && Count(Done, Exec(es).jobs) <= MAX_FINISHED
    ensures InOrder(Exec(es).jobs)
  {
    Reachable(es);
    hide Exec, Count, Has;
  }

  /** MAIN: a job the runner starts is the oldest waiting one just if no older job became waiting
      between the pick and the start; the lock is free in between. */
  lemma StartsOldest(es: seq<Event>)
    requires Exec(es).pc.Picked?
    ensures var s := Exec(es);
            (forall j <- s.jobs | j.status.Waiting? :: s.pc.id <= j.id)
            <==> (forall j <- s.jobs | j.status.Waiting? && j.id in s.since :: s.pc.id <= j.id)
  {
    Reachable(es);
    hide Exec, Count, Has;
  }

  /** Two jobs, the younger one waiting; the runner picks it. */
  lemma YoungerPicked()
    ensures Apply(Apply(Init, Add), Add) ==
            State([Job(1, Queued, false), Job(2, Queued, false)], 3, false, AwaitWake, [], {})
    ensures Apply(State([Job(1, Queued, false), Job(2, Queued, false)], 3, false, AwaitWake, [], {}), Start(2)) ==
            State([Job(1, Queued, false), Job(2, Waiting, false)], 3, true, AwaitWake, [], {2})
    ensures var s := State([Job(1, Queued, false), Job(2, Waiting, false)], 3, true, AwaitWake, [], {2});
            Apply(Apply(s, Wake), Next) ==
            State([Job(1, Queued, false), Job(2, Waiting, false)], 3, false, Picked(2), [], {})
  {
    var one, two, later := Job(1, Queued, false), Job(2, Queued, false), Job(2, Waiting, false);
    assert Apply(Init, Add).jobs == [one];
    assert Count(Pending, [one]) == 1 && [one] + [two] == [one, two];
    FindFirst(one, [two]);
    FindFirst(one, [later]);
    assert [one] + [later] == [one, later] && [one, two][1 := later] == [one, later];
    assert {} + {2} == {2};
  }

  /** ... the older one is started, and the younger one runs. */
  lemma YoungerRuns()
    ensures Apply(State([Job(1, Queued, false), Job(2, Waiting, false)], 3, false, Picked(2), [], {}), Start(1)) ==
            State([Job(1, Waiting, false), Job(2, Waiting, false)], 3, true, Picked(2), [], {1})
    ensures Apply(State([Job(1, Waiting, false), Job(2, Waiting, false)], 3, true, Picked(2), [], {1}), Run(true)) ==
            State([Job(1, Waiting, false), Job(2, Running, false)], 3, true, InSession(2), [], {1})
  {
    var one, older, two := Job(1, Queued, false), Job(1, Waiting, false), Job(2, Waiting, false);
    FindFirst(one, [two]);
    FindFirst(older, [two]);
    assert [one] + [two] == [one, two] && [older] + [two] == [older, two];
    assert [one, two][0 := older] == [older, two]
        && [older, two][1 := Job(2, Running, false)] == [older, Job(2, Running, false)];
    assert {} + {1} == {1};
  }

  /** ... and it does happen: job 2 is picked, job 1 is started, and job 2 runs before it. */
  lemma YoungerFirst()
    ensures var es := [Add, Add, Start(2), Wake, Next, Start(1), Run(true)];
            Exec(es).pc == InSession(2) && Job(1, Waiting, false) in Exec(es).jobs
  {
    hide Apply, Exec;
    YoungerPicked();
    YoungerRuns();
    ExecNext([], Add);
    ExecNext([Add], Add);
    ExecNext([Add, Add], Start(2));
    ExecNext([Add, Add, Start(2)], Wake);
    ExecNext([Add, Add, Start(2), Wake], Next);
    ExecNext([Add, Add, Start(2), Wake, Next], Start(1));
    ExecNext([Add, Add, Start(2), Wake, Next, Start(1)], Run(true));
    assert [] + [Add] == [Add] && [Add] + [Add] == [Add, Add];
    assert [Add, Add] + [Start(2)] == [Add, Add, Start(2)]
        && [Add, Add, Start(2)] + [Wake] == [Add, Add, Start(2), Wake];
    assert [Add, Add, Start(2), Wake] + [Next] == [Add, Add, Start(2), Wake, Next];
    assert [Add, Add, Start(2), Wake, Next] + [Start(1)] == [Add, Add, Start(2), Wake, Next, Start(1)];
    assert [Add, Add, Start(2), Wake, Next, Start(1)] + [Run(true)] ==
        [Add, Add, Start(2), Wake, Next, Start(1), Run(true)];
  }

  lemma ExecNext(es: seq<Event>, e: Event)
    ensures Exec(es + [e]) == Apply(Exec(es), e) && Exec([]) == Init
  {
    hide Apply;
    assert (es + [e])[..|es|] == es;
  }

  lemma FindFirst(a: Job, rest: seq<Job>)
    ensures Find([a] + rest, a.id) == Some(0)
    ensures FirstWaiting([a] + rest) ==
            if a.status.Waiting? then Some(0)
            else match FirstWaiting(rest) case None => None case Some(i) => Some(i + 1)
    ensures forall id: nat | id != a.id ::
              Find([a] + rest, id) == match Find(rest, id) case None => None case Some(i) => Some(i + 1)
  {
    assert ([a] + rest)[1..] == rest;
  }

  /** MAIN: no unfinished job is ever lost. Every job ever added is in the list or was removed
      once, and then it was finished, or still queued when the user deleted it. */
  lemma NoJobLost(es: seq<Event>, id: nat)
    requires 0 < id < Exec(es).nextId
    ensures var s := Exec(es);
            Has(s.jobs, id) || exists g :: g in s.gone && g.id == id && (g.status.Queued? || Finished(g))
    ensures |Exec(es).jobs| + |Exec(es).gone| == Exec(es).nextId - 1
  {
    Reachable(es);
    hide Exec, Count;
    var s := Exec(es);
    if !Has(s.jobs, id) {
      assert Has(s.gone, id);
      var g :| g in s.gone && g.id == id;
    }
  }

  /** Unfinished jobs other than the one a step is about are untouched by it. */
  lemma OthersUntouched(es: seq<Event>, e: Event, j: Job)
    requires j in Exec(es).jobs && !Finished(j) && j !in Apply(Exec(es), e).jobs
    ensures e == Start(j.id) || e == Stop(j.id) || e == Delete(j.id)
            || Exec(es).pc == Picked(j.id) || Exec(es).pc == InSession(j.id)
  {
    Reachable(es);
    var s := Exec(es);
    hide Exec, Count, Has, Keep, Dropped;
    match e
    case Start(id) =>
      if Find(s.jobs, id).Some? {
        var i := Find(s.jobs, id).value;
        SameIds(s.jobs, i, s.jobs[i].(status := Waiting));
      }
    case Stop(id) =>
      if Find(s.jobs, id).Some? {
        var i := Find(s.jobs, id).value;
        SameIds(s.jobs, i, s.jobs[i].(stopRequested := true));
        if s.jobs[i].status.Waiting? { OthersStay(s, i, true); }
      }
    case Delete(id) => if Find(s.jobs, id).Some? { OthersRemain(s.jobs, Find(s.jobs, id).value); }
    case Run(processor) =>
      if s.pc.Picked? && Find(s.jobs, s.pc.id).Some? {
        var i := Find(s.jobs, s.pc.id).value;
        SameIds(s.jobs, i, s.jobs[i].(status := Running));
        if s.jobs[i].status.Waiting? { OthersStay(s, i, true); }
      }
    case End(failed) =>
      if s.pc.InSession? {
        var x :| x in s.jobs && x.id == s.pc.id && x.status.Running?;
        var i := Find(s.jobs, s.pc.id).value;
        SameIdSameJob(s.jobs, x, s.jobs[i]);
        OthersStay(s, i, failed);
      }
    case _ =>
  }

  // --- what becomes of a job ---------------------------------------------------------------------

  /** The life of one job. `stop` says that the user asked to stop it while it ran; `ok` is its result. */
  datatype Stage = NotYet | InQueue | Ready | OnRun(stop: bool) | Over(ok: bool) | Deleted

  /** What an event means for job `id`; of the state it looks at the runner, at the next id and at
      whether the queue is full. */
  function NextStage(g: Stage, s: State, e: Event, id: nat): Stage {
    match g
    case NotYet => if e.Add? && id == s.nextId && Count(Pending, s.jobs) < MAX_PENDING then InQueue else g
    case InQueue => if e == Start(id) then Ready else if e == Delete(id) then Deleted else g
    case Ready =>
      if e == Stop(id) || (e == Run(false) && s.pc == Picked(id)) then Over(false)
      else if e == Run(true) && s.pc == Picked(id) then OnRun(false)
      else g
    case OnRun(stop) =>
      if e == Stop(id) then OnRun(true)
      else if e.End? && s.pc == InSession(id) then Over(!e.failed && !stop)
      else g
    case _ => g
  }

  function Life(es: seq<Event>, id: nat): Stage {
    if es == [] then NotYet
    else NextStage(Life(es[..|es| - 1], id), Exec(es[..|es| - 1]), es[|es| - 1], id)
  }

  /** A job's record at a stage of its life. */
  predicate Tells(j: Job, g: Stage) {
    match g
    case NotYet => false
    case InQueue => j.status.Queued? && !j.stopRequested
    case Ready => j.status.Waiting? && !j.stopRequested
    case OnRun(stop) => j.status.Running? && j.stopRequested == stop
    case Over(ok) => j.status == if ok then Completed else Failed
    case Deleted => j.status.Queued?
  }

  predicate Listed(j: Job, g: Stage) { Tells(j, g) && !g.Deleted? }

  predicate Removed(j: Job, g: Stage) { Tells(j, g) && (g.Over? || g.Deleted?) }

  ghost predicate TrueToLife(s: State, es: seq<Event>) {
    && (forall k | 0 <= k < |s.jobs| :: Listed(s.jobs[k], Life(es, s.jobs[k].id)))
    && (forall j <- s.gone :: Removed(j, Life(es, j.id)))
  }

  lemma LifeStep(es: seq<Event>, e: Event, id: nat)
    ensures Life(es + [e], id) == NextStage(Life(es, id), Exec(es), e, id) && Exec(es + [e]) == Apply(Exec(es), e)
  {
    hide NextStage, Apply;
    assert (es + [e])[..|es|] == es;
  }

  /** A removed job's life is over, and no event changes it. */
  lemma RemovedStays(j: Job, g: Stage, s: State, e: Event)
    requires Removed(j, g)
    ensures Removed(j, NextStage(g, s, e, j.id))
  {}

  lemma {:induction false} NotYetAdded(es: seq<Event>, id: nat)
    requires id >= Exec(es).nextId
    ensures Life(es, id).NotYet?
    decreases |es|
  {
    if es != [] {
      var front, e := es[..|es| - 1], es[|es| - 1];
      assert es == front + [e];
      LifeStep(front, e, id);
      hide Life, Exec;
      NextIdStep(Exec(front), e);
      NotYetAdded(front, id);
    }
  }

  lemma NextIdStep(s: State, e: Event)
    ensures var t := Apply(s, e);
            t.nextId == s.nextId + if e.Add? && Count(Pending, s.jobs) < MAX_PENDING then 1 else 0
  {
    hide Count, Keep, Dropped, Excess;
  }

  /** The jobs of a list at the stages of their lives after one more event. */
  ghost predicate ListTells(jobs: seq<Job>, es: seq<Event>, s: State, e: Event) {
    forall k | 0 <= k < |jobs| :: Listed(jobs[k], NextStage(Life(es, jobs[k].id), s, e, jobs[k].id))
  }

  /** One job changes, the others do not. */
  lemma ChangeTells(es: seq<Event>, e: Event, i: nat, j: Job)
    requires var s := Exec(es); TrueToLife(s, es) && InOrder(s.jobs) && i < |s.jobs| && j.id == s.jobs[i].id
    requires Listed(j, NextStage(Life(es, j.id), Exec(es), e, j.id))
    requires forall k | 0 <= k < |Exec(es).jobs| && k != i ::
               var x := Exec(es).jobs[k]; Listed(x, NextStage(Life(es, x.id), Exec(es), e, x.id))
    ensures ListTells(Exec(es).jobs[i := j], es, Exec(es), e)
  {
    hide NextStage, Listed, Exec;
  }

  /** ... and some finished ones are dropped. */
  lemma DropTells(es: seq<Event>, e: Event, jobs: seq<Job>, drop: nat)
    requires ListTells(jobs, es, Exec(es), e)
    ensures ListTells(Keep(jobs, drop), es, Exec(es), e)
    ensures forall j <- Dropped(jobs, drop) :: Removed(j, NextStage(Life(es, j.id), Exec(es), e, j.id))
  {
    KeepSplits(jobs, drop);
    hide Keep, Dropped, NextStage, Exec, Life;
    forall j | j in Keep(jobs, drop) || j in Dropped(jobs, drop)
      ensures j in jobs && Listed(j, NextStage(Life(es, j.id), Exec(es), e, j.id))
    {
      assert j in multiset(Keep(jobs, drop)) + multiset(Dropped(jobs, drop));
      assert j in multiset(jobs);
      var k :| 0 <= k < |jobs| && jobs[k] == j;
    }
  }

  /** The events that change a job. */
  predicate Touches(j: Job, s: State, e: Event) {
    || (e == Start(j.id) && j.status.Queued?)
    || (e == Delete(j.id) && j.status.Queued?)
    || (e == Stop(j.id) && (j.status.Waiting? || j.status.Running?))
    || (e.Run? && s.pc == Picked(j.id) && j.status.Waiting?)
    || (e.End? && s.pc == InSession(j.id) && j.status.Running?)
  }

  lemma UntouchedTells(j: Job, g: Stage, s: State, e: Event)
    requires Listed(j, g) && !Touches(j, s, e)
    ensures Listed(j, NextStage(g, s, e, j.id))
  {}

  lemma OneTouched(es: seq<Event>, e: Event, i: nat, k: nat)
    requires var s := Exec(es);
             Inv(s) && TrueToLife(s, es) && i < |s.jobs| && k < |s.jobs| && k != i && Touches(s.jobs[i], s, e)
    ensures var x := Exec(es).jobs[k]; Listed(x, NextStage(Life(es, x.id), Exec(es), e, x.id))
  {
    var s := Exec(es);
    assert s.jobs[i].id != s.jobs[k].id;
    UntouchedTells(s.jobs[k], Life(es, s.jobs[k].id), s, e);
    hide NextStage, Exec, Life, Has, Count;
  }

  /** The touched job, and what is then dropped. */
  lemma TouchedTells(es: seq<Event>, e: Event, i: nat, j: Job, drop: nat)
    requires var s := Exec(es);
             Inv(s) && TrueToLife(s, es) && i < |s.jobs| && j.id == s.jobs[i].id && Touches(s.jobs[i], s, e)
    requires Listed(j, NextStage(Life(es, j.id), Exec(es), e, j.id))
    ensures var all := Exec(es).jobs[i := j];
            && ListTells(all, es, Exec(es), e) && ListTells(Keep(all, drop), es, Exec(es), e)
            && forall x <- Dropped(all, drop) :: Removed(x, NextStage(Life(es, x.id), Exec(es), e, x.id))
  {
    hide NextStage, Exec, Life, Keep, Dropped, Listed, Touches, Has, Count;
    forall k | 0 <= k < |Exec(es).jobs| && k != i
      ensures var x := Exec(es).jobs[k]; Listed(x, NextStage(Life(es, x.id), Exec(es), e, x.id))
    {
      OneTouched(es, e, i, k);
    }
    ChangeTells(es, e, i, j);
    DropTells(es, e, Exec(es).jobs[i := j], drop);
  }

  lemma SameTells(es: seq<Event>, e: Event)
    requires TrueToLife(Exec(es), es) && forall k | 0 <= k < |Exec(es).jobs| :: !Touches(Exec(es).jobs[k], Exec(es), e)
    ensures ListTells(Exec(es).jobs, es, Exec(es), e)
  {
    forall k | 0 <= k < |Exec(es).jobs|
      ensures var x := Exec(es).jobs[k]; Listed(x, NextStage(Life(es, x.id), Exec(es), e, x.id))
    {
      UntouchedTells(Exec(es).jobs[k], Life(es, Exec(es).jobs[k].id), Exec(es), e);
    }
  }

  /** Enough for the state after the event. */
  lemma AllTell(es: seq<Event>, e: Event)
    requires ListTells(Apply(Exec(es), e).jobs, es, Exec(es), e)
    requires forall j <- Apply(Exec(es), e).gone :: Removed(j, NextStage(Life(es, j.id), Exec(es), e, j.id))
    ensures TrueToLife(Exec(es + [e]), es + [e])
  {
    hide NextStage, Listed, Removed, Apply;
    var t := Apply(Exec(es), e);
    LifeStep(es, e, 0);
    hide Exec, Life;
    forall k | 0 <= k < |t.jobs|
      ensures Listed(t.jobs[k], Life(es + [e], t.jobs[k].id))
    {
      LifeStep(es, e, t.jobs[k].id);
    }
    forall j <- t.gone
      ensures Removed(j, Life(es + [e], j.id))
    {
      LifeStep(es, e, j.id);
    }
  }

  lemma GoneTells(es: seq<Event>, e: Event)
    requires TrueToLife(Exec(es), es)
    ensures forall j <- Exec(es).gone :: Removed(j, NextStage(Life(es, j.id), Exec(es), e, j.id))
  {
    forall j <- Exec(es).gone
      ensures Removed(j, NextStage(Life(es, j.id), Exec(es), e, j.id))
    {
      RemovedStays(j, Life(es, j.id), Exec(es), e);
    }
  }

  lemma AddTells(es: seq<Event>)
    requires TrueToLife(Exec(es), es)
    ensures ListTells(Apply(Exec(es), Add).jobs, es, Exec(es), Add)
  {
    hide Exec, Life, Count, Keep, Dropped;
    var s := Exec(es);
    SameTells(es, Add);
    NotYetAdded(es, s.nextId);
  }

  lemma DeletedTells(j: Job, g: Stage, s: State)
    requires Listed(j, g) && (j.status.Queued? || Finished(j))
    ensures Removed(j, NextStage(g, s, Delete(j.id), j.id))
  {}

  lemma RemainingTell(es: seq<Event>, id: nat, i: nat)
    requires Inv(Exec(es)) && TrueToLife(Exec(es), es)
    requires i < |Exec(es).jobs| && Exec(es).jobs[i].id == id
    ensures ListTells(Exec(es).jobs[..i] + Exec(es).jobs[i + 1..], es, Exec(es), Delete(id))
  {
    hide Exec, Life, NextStage, Listed, Has, Count;
    var s := Exec(es);
    var t := s.jobs[..i] + s.jobs[i + 1..];
    forall k | 0 <= k < |t|
      ensures Listed(t[k], NextStage(Life(es, t[k].id), s, Delete(id), t[k].id))
    {
      var n := if k < i then k else k + 1;
      assert t[k] == s.jobs[n] && s.jobs[n].id != s.jobs[i].id;
      UntouchedTells(s.jobs[n], Life(es, t[k].id), s, Delete(id));
    }
  }

  lemma DeleteTells(es: seq<Event>, id: nat)
    requires Inv(Exec(es)) && TrueToLife(Exec(es), es)
    ensures var t := Apply(Exec(es), Delete(id));
            && ListTells(t.jobs, es, Exec(es), Delete(id))
            && forall j <- t.gone :: Removed(j, NextStage(Life(es, j.id), Exec(es), Delete(id), j.id))
  {
    hide Exec, Life, Count, Keep, Dropped, Has, NextStage, Listed, Removed, ListTells;
    var s := Exec(es);
    GoneTells(es, Delete(id));
    var f := Find(s.jobs, id);
    if f.Some? && (s.jobs[f.value].status.Queued? || Finished(s.jobs[f.value])) {
      DeletedTells(s.jobs[f.value], Life(es, id), s);
      RemainingTell(es, id, f.value);
    } else {
      SameTells(es, Delete(id));
    }
  }

  lemma FinishTells(es: seq<Event>, e: Event, i: nat, failed: bool)
    requires var s := Exec(es);
             Inv(s) && TrueToLife(s, es) && i < |s.jobs| && Touches(s.jobs[i], s, e) && !s.jobs[i].status.Queued?
    requires e.Stop? && Exec(es).jobs[i].status.Waiting? ==> failed
    requires e.Stop? ==> Exec(es).jobs[i].status.Waiting?
    requires e.Run? ==> failed && !e.processor
    requires e.End? ==> failed == e.failed
    ensures var t := Finish(Exec(es), i, failed);
            && ListTells(t.jobs, es, Exec(es), e)
            && forall j <- t.gone :: Removed(j, NextStage(Life(es, j.id), Exec(es), e, j.id))
  {
    hide Exec, Life, Count, Keep, Dropped, Has;
    var s := Exec(es);
    GoneTells(es, e);
    var all := Ended(s, i, failed);
    assert Listed(s.jobs[i], Life(es, s.jobs[i].id));
    assert Listed(all[i], NextStage(Life(es, all[i].id), s, e, all[i].id));
    TouchedTells(es, e, i, all[i], Excess(all));
  }

  lemma TrueStep(es: seq<Event>, e: Event)
    requires Inv(Exec(es)) && TrueToLife(Exec(es), es)
    ensures TrueToLife(Exec(es + [e]), es + [e])
  {
    StepTells(es, e);
    hide Exec, Life, Apply, Inv, TrueToLife, ListTells, Removed;
    AllTell(es, e);
  }

  lemma StepTells(es: seq<Event>, e: Event)
    requires Inv(Exec(es)) && TrueToLife(Exec(es), es)
    ensures var t := Apply(Exec(es), e);
            && ListTells(t.jobs, es, Exec(es), e)
            && forall j <- t.gone :: Removed(j, NextStage(Life(es, j.id), Exec(es), e, j.id))
  {
    hide Exec, Life, Count, Keep, Dropped, Has, Excess, ListTells, Removed, NextStage, Finish;
    var s := Exec(es);
    GoneTells(es, e);
    match e
    case Add => AddTells(es);
    case Start(id) => StartTells(es, id);
    case Stop(id) => StopTells(es, id);
    case Delete(id) => DeleteTells(es, id);
    case Wake => SameTells(es, e);
    case Next => SameTells(es, e);
    case Run(processor) => RunTells(es, processor);
    case End(failed) => EndTells(es, failed);
  }

  lemma StartTells(es: seq<Event>, id: nat)
    requires Inv(Exec(es)) && TrueToLife(Exec(es), es)
    ensures ListTells(Apply(Exec(es), Start(id)).jobs, es, Exec(es), Start(id))
  {
    hide Exec, Life, Count, Keep, Dropped, Has;
    var s := Exec(es);
    var f := Find(s.jobs, id);
    if f.Some? && s.jobs[f.value].status.Queued? {
      assert Listed(s.jobs[f.value], Life(es, id));
      TouchedTells(es, Start(id), f.value, s.jobs[f.value].(status := Waiting), 0);
    } else {
      FindsIt(es, id);
      SameTells(es, Start(id));
    }
  }

  /** A job with that id is the one Find finds. */
  lemma FindsIt(es: seq<Event>, id: nat)
    requires InOrder(Exec(es).jobs)
    ensures var s := Exec(es);
            forall k | 0 <= k < |s.jobs| && s.jobs[k].id == id :: Find(s.jobs, id) == Some(k)
  {
    hide Exec;
  }

  lemma StopTells(es: seq<Event>, id: nat)
    requires Inv(Exec(es)) && TrueToLife(Exec(es), es)
    ensures var t := Apply(Exec(es), Stop(id));
            && ListTells(t.jobs, es, Exec(es), Stop(id))
            && forall j <- t.gone :: Removed(j, NextStage(Life(es, j.id), Exec(es), Stop(id), j.id))
  {
    hide Exec, Life, Count, Keep, Dropped, Has, Finish;
    var s := Exec(es);
    GoneTells(es, Stop(id));
    var f := Find(s.jobs, id);
    FindsIt(es, id);
    if f.Some? && s.jobs[f.value].status.Waiting? {
      FinishTells(es, Stop(id), f.value, true);
    } else if f.Some? && s.jobs[f.value].status.Running? {
      assert Listed(s.jobs[f.value], Life(es, id));
      TouchedTells(es, Stop(id), f.value, s.jobs[f.value].(stopRequested := true), 0);
    } else {
      SameTells(es, Stop(id));
    }
  }

  lemma RunTells(es: seq<Event>, processor: bool)
    requires Inv(Exec(es)) && TrueToLife(Exec(es), es)
    ensures var t := Apply(Exec(es), Run(processor));
            && ListTells(t.jobs, es, Exec(es), Run(processor))
            && forall j <- t.gone :: Removed(j, NextStage(Life(es, j.id), Exec(es), Run(processor), j.id))
  {
    hide Exec, Life, Count, Keep, Dropped, Has, Finish;
    var s := Exec(es);
    GoneTells(es, Run(processor));
    if s.pc.Picked? { FindsIt(es, s.pc.id); }
    if s.pc.Picked? && Find(s.jobs, s.pc.id).Some? && s.jobs[Find(s.jobs, s.pc.id).value].status.Waiting? {
      var i := Find(s.jobs, s.pc.id).value;
      assert Listed(s.jobs[i], Life(es, s.pc.id));
      if processor {
        TouchedTells(es, Run(true), i, s.jobs[i].(status := Running), 0);
      } else {
        FinishTells(es, Run(false), i, true);
      }
    } else {
      SameTells(es, Run(processor));
    }
  }

  lemma EndTells(es: seq<Event>, failed: bool)
    requires Inv(Exec(es)) && TrueToLife(Exec(es), es)
    ensures var t := Apply(Exec(es), End(failed));
            && ListTells(t.jobs, es, Exec(es), End(failed))
            && forall j <- t.gone :: Removed(j, NextStage(Life(es, j.id), Exec(es), End(failed), j.id))
  {
    hide Exec, Life, Count, Keep, Dropped, Has, Finish;
    var s := Exec(es);
    GoneTells(es, End(failed));
    if s.pc.InSession? {
      var x :| x in s.jobs && x.id == s.pc.id && x.status.Running?;
      var i := Find(s.jobs, s.pc.id).value;
      SameIdSameJob(s.jobs, x, s.jobs[i]);
      FinishTells(es, End(failed), i, failed);
    } else {
      SameTells(es, End(failed));
    }
  }

  /** MAIN: in every run, the record of every job ever added is at the stage of its own life; so it
      ends as Completed just by the end of its own session without an error and without a stop. */
  lemma {:induction false} RecordsTell(es: seq<Event>)
    ensures TrueToLife(Exec(es), es)
    decreases |es|
  {
    if es != [] {
      RecordsTell(es[..|es| - 1]);
      Reachable(es[..|es| - 1]);
      TrueStep(es[..|es| - 1], es[|es| - 1]);
      assert es[..|es| - 1] + [es[|es| - 1]] == es;
    }
  }

  /** The user asked to stop the job while its session ran. */
  ghost predicate Asked(es: seq<Event>, id: nat) {
    exists m | 0 <= m < |es| :: es[m] == Stop(id) && Exec(es[..m]).pc == InSession(id)
  }

  lemma AskedStep(es: seq<Event>, e: Event, id: nat)
    ensures Asked(es + [e], id) <==> Asked(es, id) || (e == Stop(id) && Exec(es).pc == InSession(id))
  {
    hide Exec;
    var all := es + [e];
    assert all[..|es|] == es && all[|es|] == e;
    assert forall m | 0 <= m < |es| :: all[..m] == es[..m] && all[m] == es[m];
    if Asked(es, id) {
      var m :| 0 <= m < |es| && es[m] == Stop(id) && Exec(es[..m]).pc == InSession(id);
      assert all[m] == Stop(id) && Exec(all[..m]).pc == InSession(id);
    }
  }

  /** A job's session is the runner's. */
  lemma OnRunIsSession(es: seq<Event>, id: nat)
    ensures Life(es, id).OnRun? <==> Exec(es).pc == InSession(id)
  {
    RecordsTell(es);
    Reachable(es);
    var s := Exec(es);
    if s.pc == InSession(id) {
      var x :| x in s.jobs && x.id == id && x.status.Running?;
      var k :| 0 <= k < |s.jobs| && s.jobs[k] == x;
    }
    if Life(es, id).OnRun? {
      if id >= s.nextId { NotYetAdded(es, id); }
      if id == 0 { ZeroIsNoId(es); }
      assert !Has(s.gone, id);
      hide Exec, Life;
      var j :| j in s.jobs && j.id == id;
      var k :| 0 <= k < |s.jobs| && s.jobs[k] == j;
      OneAtATime(es, j, j);
    }
  }

  lemma {:induction false} ZeroIsNoId(es: seq<Event>)
    ensures Life(es, 0).NotYet?
    decreases |es|
  {
    if es != [] {
      var front, e := es[..|es| - 1], es[|es| - 1];
      assert es == front + [e];
      ZeroIsNoId(front);
      Reachable(front);
      LifeStep(front, e, 0);
      hide Exec, Life;
    }
  }

  predicate Early(g: Stage) { g.NotYet? || g.InQueue? || g.Ready? }

  lemma {:induction false} StopTold(es: seq<Event>, id: nat)
    ensures Early(Life(es, id)) ==> !Asked(es, id)
    ensures Life(es, id).OnRun? ==> (Life(es, id).stop <==> Asked(es, id))
    decreases |es|
  {
    if es != [] {
      var front, e := es[..|es| - 1], es[|es| - 1];
      assert es == front + [e];
      StopTold(front, id);
      OnRunIsSession(front, id);
      AskedStep(front, e, id);
      LifeStep(front, e, id);
      hide Exec, Life, Asked;
    }
  }

  /** MAIN: the result of a job, from the events alone. It is Completed just if its own session ended
      without an error and nobody had asked to stop it meanwhile. It is Failed if it was stopped
      before it started, if there was no processor, or if its session ended with an error or after
      a stop. */
  lemma ResultBecause(es: seq<Event>, id: nat) returns (k: nat)
    requires Life(es, id).Over?
    ensures k < |es|
    ensures var s := Exec(es[..k]);
            if Life(es, id).ok then es[k] == End(false) && s.pc == InSession(id) && !Asked(es[..k], id)
            else || (es[k] == Stop(id) && s.pc != InSession(id))
                 || (es[k] == Run(false) && s.pc == Picked(id))
                 || (es[k].End? && s.pc == InSession(id) && (es[k].failed || Asked(es[..k], id)))
    decreases |es|
  {
    var front, e := es[..|es| - 1], es[|es| - 1];
    assert es == front + [e];
    LifeStep(front, e, id);
    hide Exec, Asked;
    if Life(front, id).Over? {
      k := ResultBecause(front, id);
      assert front[..k] == es[..k];
    } else {
      k := |es| - 1;
      OnRunIsSession(front, id);
      StopTold(front, id);
    }
  }

  /** ... and every finished record says so. */
  lemma FinishedBecause(es: seq<Event>, j: Job)
    requires (j in Exec(es).jobs || j in Exec(es).gone) && Finished(j)
    ensures Life(es, j.id) == Over(j.status.Completed?)
  {
    RecordsTell(es);
    if j in Exec(es).jobs { var k :| 0 <= k < |Exec(es).jobs| && Exec(es).jobs[k] == j; }
  }

  // --- ListJobs ----------------------------------------------------------------------------------

  datatype Group = RunningJobs | WaitingJobs | QueuedJobs | FinishedJobs

  predicate InGroup(g: Group, j: Job) {
    match g
    case RunningJobs => j.status.Running?
    case WaitingJobs => j.status.Waiting?
    case QueuedJobs => j.status.Queued?
    case FinishedJobs => Finished(j)
  }

  function Filter(g: Group, jobs: seq<Job>): seq<Job> {
    if jobs == [] then [] else (if InGroup(g, jobs[0]) then [jobs[0]] else []) + Filter(g, jobs[1..])
  }

  const GROUPS := [RunningJobs, WaitingJobs, QueuedJobs, FinishedJobs]

  function Groups(n: nat, jobs: seq<Job>): seq<Job>
    requires n <= 4
  {
    if n == 0 then [] else Groups(n - 1, jobs) + Filter(GROUPS[n - 1], jobs)
  }

  lemma {:induction false} FilterAppend(g: Group, jobs: seq<Job>, j: Job)
    ensures Filter(g, jobs + [j]) == Filter(g, jobs) + (if InGroup(g, j) then [j] else [])
  {
    if jobs == [] {
      assert [] + [j] == [j] && [j][1..] == [];
    } else {
      FilterAppend(g, jobs[1..], j);
      assert (jobs + [j])[1..] == jobs[1..] + [j];
    }
  }

  /** The four groups are the whole list, each job once, each group in the list's order. */
  lemma {:induction false} GroupsArePermutation(jobs: seq<Job>)
    ensures multiset(Groups(4, jobs)) == multiset(jobs)
  {
    GroupsUnfold(jobs);
    FilterUnion(jobs);
  }

  lemma GroupsUnfold(jobs: seq<Job>)
    ensures Groups(4, jobs) == Filter(RunningJobs, jobs) + Filter(WaitingJobs, jobs)
            + Filter(QueuedJobs, jobs) + Filter(FinishedJobs, jobs)
  {
    assert Groups(1, jobs) == [] + Filter(RunningJobs, jobs);
    assert Groups(2, jobs) == Groups(1, jobs) + Filter(WaitingJobs, jobs);
    assert Groups(3, jobs) == Groups(2, jobs) + Filter(QueuedJobs, jobs);
  }

  lemma {:induction false} FilterUnion(jobs: seq<Job>)
    ensures multiset(Filter(RunningJobs, jobs)) + multiset(Filter(WaitingJobs, jobs))
            + multiset(Filter(QueuedJobs, jobs)) + multiset(Filter(FinishedJobs, jobs)) == multiset(jobs)
  {
    if jobs != [] {
      FilterUnion(jobs[1..]);
      assert jobs == [jobs[0]] + jobs[1..];
    }
  }

  /** Jobs earlier in the list come earlier within their group. */
  lemma {:induction false} FilterInOrder(g: Group, jobs: seq<Job>)
    requires InOrder(jobs)
    ensures InOrder(Filter(g, jobs)) && forall j <- Filter(g, jobs) :: j in jobs && InGroup(g, j)
  {
    if jobs != [] {
      FilterInOrder(g, jobs[1..]);
      var rest := Filter(g, jobs[1..]);
      forall k | 0 <= k < |rest|
        ensures jobs[0].id < rest[k].id
      {
        assert rest[k] in jobs[1..];
        var i :| 0 <= i < |jobs[1..]| && jobs[1..][i] == rest[k];
        assert jobs[i + 1] == rest[k];
      }
    }
  }

  /** The running job first, then the waiting, the queued and the finished ones. */
  function Rank(s: Status): nat {
    match s
    case Running => 0
    case Waiting => 1
    case Queued => 2
    case Completed => 3
    case Failed => 3
  }

  predicate Sooner(a: Job, b: Job) {
    Rank(a.status) < Rank(b.status) || (Rank(a.status) == Rank(b.status) && a.id < b.id)
  }

  predicate AllRanked(jobs: seq<Job>, n: nat) { forall k | 0 <= k < |jobs| :: Rank(jobs[k].status) == n }

  lemma FilterRanked(g: Group, jobs: seq<Job>)
    requires InOrder(jobs)
    ensures InOrder(Filter(g, jobs))
    ensures AllRanked(Filter(g, jobs), match g
                                       case RunningJobs => 0
                                       case WaitingJobs => 1
                                       case QueuedJobs => 2
                                       case FinishedJobs => 3)
  {
    FilterInOrder(g, jobs);
    forall k | 0 <= k < |Filter(g, jobs)|
      ensures InGroup(g, Filter(g, jobs)[k])
    {
      assert Filter(g, jobs)[k] in Filter(g, jobs);
    }
    hide Filter;
  }

  /** MAIN: of two jobs in what ListJobs gives, the one that comes first is in an earlier group, or
      in the same one and older. */
  lemma ListedSooner(jobs: seq<Job>, a: nat, b: nat)
    requires InOrder(jobs) && a < b < |Groups(4, jobs)|
    ensures Sooner(Groups(4, jobs)[a], Groups(4, jobs)[b])
  {
    hide Filter, Groups;
    GroupsUnfold(jobs);
    FilterRanked(RunningJobs, jobs);
    FilterRanked(WaitingJobs, jobs);
    FilterRanked(QueuedJobs, jobs);
    FilterRanked(FinishedJobs, jobs);
    hide Rank;
  }

  // --- the queue object --------------------------------------------------------------------------

  class QueuedJob {
    const id: nat
    var status: Status
    var stopRequested: bool

    constructor (id: nat)
      ensures this.id == id && Value() == Job(id, Queued, false)
    {
      this.id, status, stopRequested := id, Queued, false;
    }

    function Value(): Job
      reads this
    {
      Job(id, status, stopRequested)
    }
  }

  function Values(jobs: seq<QueuedJob>): (r: seq<Job>)
    reads jobs
    ensures |r| == |jobs|
  {
    seq(|jobs|, k requires 0 <= k < |jobs| reads jobs => jobs[k].Value())
  }

  /** jq; `picked` is the runner's local variable. */
  class Queue {
    var jobs: seq<QueuedJob>
    var nextID: nat
    var wake: bool
    var picked: QueuedJob?
    ghost var pc: Pc
    ghost var gone: seq<Job>
    ghost var since: set<nat>

    constructor ()
      ensures Valid() && View() == Init
    {
      jobs, nextID, wake, picked := [], 1, false, null;
      pc, gone, since := AwaitWake, [], {};
    }

    ghost function View(): State
      reads this, jobs
    {
      State(Values(jobs), nextID, wake, pc, gone, since)
    }

    /** The ids tell the jobs apart. */
    ghost predicate ListValid()
      reads this, jobs
    {
      InOrder(Values(jobs)) && nextID > 0 && forall k | 0 <= k < |jobs| :: 0 < jobs[k].id < nextID
    }

    /** The runner's job has left the list only after it failed. */
    ghost predicate RunnerValid()
      reads this, jobs, picked
    {
      && (pc.Picked? || pc.InSession? ==>
            && picked != null && picked.id == pc.id && pc.id < nextID && !picked.status.Queued?
            && (picked in jobs || Finished(picked.Value()))
            && (forall k | 0 <= k < |jobs| :: jobs[k].id == picked.id ==> jobs[k] == picked))
      && (pc.InSession? ==> picked in jobs && picked.status.Running?)
    }

    ghost predicate Valid()
      reads this, jobs, picked
    {
      ListValid() && RunnerValid()
    }

    /** find: the index, or -1. */
    method FindJob(id: nat) returns (i: int)
      ensures match Find(Values(jobs), id) case None => i == -1 case Some(n) => i == n
    {
      i := 0;
      while i < |jobs|
        invariant 0 <= i <= |jobs|
        invariant forall k | 0 <= k < i :: Values(jobs)[k].id != id
      {
        if jobs[i].id == id {
          FindIs(Values(jobs), i);
          return;
        }
        i := i + 1;
      }
      i := -1;
    }

    /** AddJob, once the NZB is parsed; None is errQueueFull. */
    method AddJob() returns (id: Option<nat>)
      requires Valid()
      modifies this`jobs, this`nextID
      ensures Valid() && View() == Apply(old(View()), Add)
      ensures id == if Count(Pending, old(Values(jobs))) >= MAX_PENDING then None else Some(old(nextID))
    {
      ghost var was := Values(jobs);
      var pending := CountJobs(Pending);
      if pending >= MAX_PENDING { return None; }
      var job := new QueuedJob(nextID);
      id := Some(nextID);
      jobs, nextID := jobs + [job], nextID + 1;
      assert Values(jobs) == was + [Job(nextID - 1, Queued, false)];
    }

    /** The counting loops of AddJob and finishLocked. */
    method CountJobs(k: Kind) returns (n: nat)
      ensures n == Count(k, Values(jobs))
    {
      n := 0;
      ghost var all := Values(jobs);
      for i := 0 to |jobs|
        invariant n == Count(k, all[..i])
      {
        CountAppend(k, all[..i], all[i]);
        assert all[..i + 1] == all[..i] + [all[i]];
        if Is(k, jobs[i].Value()) { n := n + 1; }
      }
      assert all[..|jobs|] == all;
    }

    method StartJob(id: nat) returns (ok: bool)
      requires Valid()
      modifies this`wake, this`since, jobs
      ensures Valid() && View() == Apply(old(View()), Start(id))
    {
      hide Find, InOrder, Count, Finish, FirstWaiting;
      var i := FindJob(id);
      if i < 0 { return false; }
      var job := jobs[i];
      assert Values(jobs)[i] == job.Value();
      if !job.status.Queued? { return false; }
      SetStatus(i, Waiting);
      wake, since := true, since + {id};   // a send to the full channel is dropped
      ok := true;
    }

    /** One field of one job; the others keep theirs because they are other objects. */
    method SetStatus(i: nat, status: Status)
      requires ListValid() && i < |jobs|
      modifies jobs[i]
      ensures ListValid() && Values(jobs) == old(Values(jobs))[i := old(jobs[i].Value()).(status := status)]
    {
      ghost var was := Values(jobs);
      IdsDiffer(was, i);
      jobs[i].status := status;
      assert forall k | 0 <= k < |jobs| && k != i :: was[k].id == jobs[k].id;
      assert forall k | 0 <= k < |jobs| && k != i :: jobs[k].Value() == was[k];
      assert Values(jobs) == was[i := was[i].(status := status)];
    }

    /** finishLocked: the result, then the oldest finished jobs beyond the limit are filtered out
        of the list in place. */
    method FinishLocked(i: nat, failed: bool)
      requires ListValid() && i < |jobs| && !Finished(jobs[i].Value())
      modifies this`jobs, this`gone, jobs[i]
      ensures View() == Finish(old(View()), i, failed)
      ensures forall j <- jobs :: j in old(jobs)
      ensures forall j <- old(jobs) :: j in jobs || Finished(j.Value())
      ensures forall j <- old(jobs) :: j.id == old(jobs[i].id) || j.Value() == old(j.Value())
      ensures Finished(old(jobs[i]).Value()) && ListValid()
    {
      hide Keep, Dropped, Excess;
      var job := jobs[i];
      var err := failed || job.stopRequested;
      SetStatus(i, if err then Failed else Completed);
      assert job.Value() == Values(jobs)[i];
      TrimFinished();
    }

    /** The second half of finishLocked. */
    method TrimFinished()
      requires ListValid()
      modifies this`jobs, this`gone
      ensures ListValid()
      ensures var all := old(Values(jobs));
              Values(jobs) == Keep(all, Excess(all)) && gone == old(gone) + Dropped(all, Excess(all))
      ensures forall j <- jobs :: j in old(jobs)
      ensures forall j <- old(jobs) :: j in jobs || Finished(j.Value())
    {
      hide Keep, Dropped, Count;
      ghost var all := Values(jobs);
      var finished := CountJobs(Done);
      var drop := finished - MAX_FINISHED;
      if drop > 0 {
        KeepOrder(all, drop);
        ghost var was := jobs;
        assert forall j <- was :: 0 < j.id < nextID;
        DropFinished(drop);
        assert forall k | 0 <= k < |jobs| :: jobs[k] in was;
      } else {
        KeepAll(all);
        assert gone + [] == gone;
      }
    }

    method DropFinished(excess: nat)
      requires excess > 0
      modifies this`jobs, this`gone
      ensures Values(jobs) == Keep(old(Values(jobs)), excess) && gone == old(gone) + Dropped(old(Values(jobs)), excess)
      ensures forall j <- jobs :: j in old(jobs)
      ensures forall j <- old(jobs) :: j in jobs || Finished(j.Value())
    {
      var drop := excess;
      var kept: seq<QueuedJob> := [];
      ghost var all, out := Values(jobs), [];
      hide Keep, Dropped;
      KeepNone(drop);
      assert all[0..] == all && Values([]) + Keep(all, excess) == Keep(all, excess)
          && out + Dropped(all, excess) == Dropped(all, excess);
      for i := 0 to |jobs|
        invariant drop >= 0 && jobs == old(jobs) && all == Values(jobs) && gone == old(gone)
        invariant Values(kept) + Keep(all[i..], drop) == Keep(all, excess)
        invariant out + Dropped(all[i..], drop) == Dropped(all, excess)
        invariant forall j <- kept :: j in jobs
        invariant forall k | 0 <= k < i :: jobs[k] in kept || Finished(jobs[k].Value())
      {
        KeepStep(all, i, drop);
        var j := jobs[i];
        if drop > 0 && (j.status.Completed? || j.status.Failed?) {
          drop := drop - 1;
          out := out + [j.Value()];
          continue;
        }
        ghost var front := Values(kept);
        kept := kept + [j];
        assert Values(kept) == front + [all[i]];
        assert front + ([all[i]] + Keep(all[i + 1..], drop)) == Values(kept) + Keep(all[i + 1..], drop);
      }
      KeepNone(drop);
      assert all[|jobs|..] == [];
      assert Values(kept) + [] == Values(kept) && out + [] == out;
      jobs, gone := kept, gone + out;
    }

    method StopJob(id: nat) returns (ok: bool)
      requires Valid()
      modifies this`jobs, this`gone, jobs
      ensures Valid() && View() == Apply(old(View()), Stop(id))
    {
      hide Find, InOrder, Count, Finish, FirstWaiting;
      var i := FindJob(id);
      if i < 0 { return false; }
      var job := jobs[i];
      assert Values(jobs)[i] == job.Value();
      ok := true;
      if job.status.Waiting? {
        CancelWaiting(i);
      } else if job.status.Running? {
        RequestStop(i);
      } else {
        ok := false;
      }
    }

    /** A waiting job is canceled; it may be the one the runner has picked. */
    method CancelWaiting(i: nat)
      requires Valid() && i < |jobs| && jobs[i].status.Waiting?
      modifies this`jobs, this`gone, jobs[i]
      ensures Valid() && View() == Finish(old(View()), i, true)
    {
      hide InOrder, Finish;
      ghost var was, job := jobs, jobs[i];
      FinishLocked(i, true);
      assert forall k | 0 <= k < |jobs| :: jobs[k] in was;
      if pc.Picked? || pc.InSession? {
        assert forall k | 0 <= k < |was| :: was[k].id == picked.id ==> was[k] == picked;
        assert picked in was ==> picked in jobs || Finished(picked.Value());
        assert picked == job || picked.Value() == old(picked.Value());
      }
    }

    method RequestStop(i: nat)
      requires Valid() && i < |jobs|
      modifies jobs[i]
      ensures Valid() && Values(jobs) == old(Values(jobs))[i := old(jobs[i].Value()).(stopRequested := true)]
    {
      ghost var was := Values(jobs);
      IdsDiffer(was, i);
      jobs[i].stopRequested := true;
      assert forall k | 0 <= k < |jobs| && k != i :: was[k].id == jobs[k].id;
      assert forall k | 0 <= k < |jobs| && k != i :: jobs[k].Value() == was[k];
      assert Values(jobs) == was[i := was[i].(stopRequested := true)];
    }

    method DeleteJob(id: nat) returns (ok: bool)
      requires Valid()
      modifies this`jobs, this`gone
      ensures Valid() && View() == Apply(old(View()), Delete(id))
    {
      hide Find, InOrder, Count, Finish, FirstWaiting;
      var i := FindJob(id);
      if i < 0 { return false; }
      var job := jobs[i];
      assert Values(jobs)[i] == job.Value();
      if !(job.status.Queued? || job.status.Completed? || job.status.Failed?) { return false; }
      RemoveJob(i);
      ok := true;
    }

    method RemoveJob(i: nat)
      requires Valid() && i < |jobs| && (jobs[i].status.Queued? || Finished(jobs[i].Value()))
      modifies this`jobs, this`gone
      ensures Valid() && gone == old(gone) + [old(jobs[i].Value())]
      ensures Values(jobs) == old(Values(jobs)[..i] + Values(jobs)[i + 1..])
    {
      ghost var was, before := Values(jobs), jobs;
      IdsDiffer(was, i);
      hide InOrder;
      var job := jobs[i];
      jobs, gone := jobs[..i] + jobs[i + 1..], gone + [job.Value()];
      assert Values(jobs) == was[..i] + was[i + 1..];
      forall k | 0 <= k < |jobs|
        ensures jobs[k] in before
      {
        assert jobs[k] == before[if k < i then k else k + 1];
      }
      assert before == before[..i] + [job] + before[i + 1..];
    }

    /** The runner receives the token. */
    method ReceiveWake()
      requires Valid() && pc.AwaitWake? && wake
      modifies this`wake, this`pc
      ensures Valid() && View() == Apply(old(View()), Wake)
    {
      wake, pc := false, Scan;
    }

    /** The loop of nextWaiting. */
    method IndexOfWaiting() returns (i: int)
      ensures match FirstWaiting(Values(jobs)) case None => i == -1 case Some(n) => i == n
    {
      ghost var all := Values(jobs);
      i := 0;
      while i < |jobs|
        invariant 0 <= i <= |jobs|
        invariant forall k | 0 <= k < i :: !all[k].status.Waiting?
      {
        if jobs[i].status.Waiting? {
          FirstIs(all, i);
          return;
        }
        i := i + 1;
      }
      i := -1;
    }

    method NextWaiting()
      requires Valid() && pc.Scan?
      modifies this`picked, this`pc, this`since
      ensures Valid() && View() == Apply(old(View()), Next)
    {
      hide Apply, InOrder, FirstWaiting;
      RunnerSteps(View(), true, true);
      var i := IndexOfWaiting();
      if i < 0 {
        pc := AwaitWake;
        return;
      }
      OnlyOne(i);
      picked := jobs[i];
      pc, since := Picked(picked.id), {};
    }

    lemma OnlyOne(i: nat)
      requires ListValid() && i < |jobs|
      ensures forall k | 0 <= k < |jobs| && k != i :: jobs[k].id != jobs[i].id
    {
      IdsDiffer(Values(jobs), i);
      assert forall k | 0 <= k < |jobs| :: Values(jobs)[k].id == jobs[k].id;
    }

    /** The runner's job, unless it has failed meanwhile, is in the list. */
    lemma PickedIsListed()
      requires Valid() && (pc.Picked? || pc.InSession?) && !Finished(picked.Value())
      ensures var f := Find(Values(jobs), picked.id); f.Some? && jobs[f.value] == picked
    {
      var k :| 0 <= k < |jobs| && jobs[k] == picked;
      assert Values(jobs)[k].id == picked.id;
      var f := Find(Values(jobs), picked.id);
      assert Values(jobs)[f.value] == jobs[f.value].Value();
    }

    /** The first critical section of runJob; false: the job was canceled since nextWaiting, or
        there is no web processor. */
    method BeginRun(processor: bool) returns (running: bool)
      requires Valid() && pc.Picked?
      modifies this`jobs, this`gone, this`pc, picked, jobs
      ensures Valid() && View() == Apply(old(View()), Run(processor))
    {
      hide Find, InOrder, Finish, Apply;
      RunnerSteps(View(), processor, true);
      if !picked.status.Waiting? {
        NotWaiting();
        pc := Scan;
        return false;
      }
      PickedIsListed();
      var i := FindJob(picked.id);
      if !processor {
        FinishLocked(i, true);
        pc := Scan;
        return false;
      }
      EnterSession(i);
      running := true;
    }

    method EnterSession(i: nat)
      requires Valid() && pc.Picked? && i < |jobs| && jobs[i] == picked
      modifies this`pc, jobs
      ensures Valid() && pc == InSession(old(pc).id)
      ensures Values(jobs) == old(Values(jobs))[i := old(jobs[i].Value()).(status := Running)]
    {
      hide InOrder;
      SetStatus(i, Running);
      assert Values(jobs)[i] == picked.Value();
      pc := InSession(picked.id);
    }

    /** A picked job that is not waiting any more is not found waiting by its id either. */
    lemma NotWaiting()
      requires Valid() && pc.Picked? && !picked.status.Waiting?
      ensures match Find(Values(jobs), picked.id) case None => true case Some(i) => !Values(jobs)[i].status.Waiting?
    {
      var f := Find(Values(jobs), picked.id);
      if f.Some? { assert Values(jobs)[f.value] == jobs[f.value].Value() && jobs[f.value] == picked; }
    }

    /** The second critical section of runJob. */
    method EndRun(failed: bool)
      requires Valid() && pc.InSession?
      modifies this`jobs, this`gone, this`pc, jobs
      ensures Valid() && View() == Apply(old(View()), End(failed))
    {
      hide Find, InOrder, Finish, Apply;
      RunnerSteps(View(), true, failed);
      PickedIsListed();
      var i := FindJob(picked.id);
      FinishLocked(i, failed);
      pc := Scan;
    }

    /** ListJobs: running, waiting, queued, finished; nothing is written. */
    method ListJobs() returns (out: seq<Job>)
      ensures out == Groups(4, Values(jobs))
    {
      out := [];
      for g := 0 to 4
        invariant out == Groups(g, Values(jobs))
      {
        var more := ListGroup(GROUPS[g]);
        out := out + more;
      }
    }

    /** One pass over the list. */
    method ListGroup(g: Group) returns (out: seq<Job>)
      ensures out == Filter(g, Values(jobs))
    {
      hide InGroup;
      out := [];
      ghost var all := Values(jobs);
      for i := 0 to |jobs|
        invariant out == Filter(g, all[..i])
      {
        FilterAppend(g, all[..i], all[i]);
        assert all[..i + 1] == all[..i] + [all[i]];
        if InGroup(g, jobs[i].Value()) { out := out + [jobs[i].Value()]; }
      }
      assert all[..|jobs|] == all;
    }
  }

  /** The steps of the runner. */
  lemma RunnerSteps(s: State, processor: bool, failed: bool)
    ensures s.pc.Scan? ==> Apply(s, Next) == match FirstWaiting(s.jobs)
                                             case None => s.(pc := AwaitWake)
                                             case Some(i) => s.(pc := Picked(s.jobs[i].id), since := {})
    ensures s.pc.Picked? ==> var f := Find(s.jobs, s.pc.id);
            Apply(s, Run(processor)) ==
            if f.None? || !s.jobs[f.value].status.Waiting? then s.(pc := Scan)
            else if !processor then Finish(s, f.value, true).(pc := Scan)
            else s.(jobs := s.jobs[f.value := s.jobs[f.value].(status := Running)], pc := InSession(s.pc.id))
    ensures s.pc.InSession? ==> var f := Find(s.jobs, s.pc.id);
            Apply(s, End(failed)) == if f.None? then s.(pc := Scan) else Finish(s, f.value, failed).(pc := Scan)
  {}

  lemma IdsDiffer(jobs: seq<Job>, i: nat)
    requires InOrder(jobs) && i < |jobs|
    ensures forall k | 0 <= k < |jobs| && k != i :: jobs[k].id != jobs[i].id
    ensures InOrder(jobs[..i] + jobs[i + 1..])
  {}

  lemma {:induction false} FindIs(jobs: seq<Job>, i: nat)
    requires i < |jobs| && forall k | 0 <= k < i :: jobs[k].id != jobs[i].id
    ensures Find(jobs, jobs[i].id) == Some(i)
  {
    if i > 0 { FindIs(jobs[1..], i - 1); }
  }

  lemma {:induction false} FirstIs(jobs: seq<Job>, i: nat)
    requires i < |jobs| && jobs[i].status.Waiting? && forall k | 0 <= k < i :: !jobs[k].status.Waiting?
    ensures FirstWaiting(jobs) == Some(i)
  {
    if i > 0 { FirstIs(jobs[1..], i - 1); }
  }

  lemma {:induction false} KeepAll(jobs: seq<Job>)
    ensures Keep(jobs, 0) == jobs && Dropped(jobs, 0) == []
  {
    if jobs != [] {
      KeepAll(jobs[1..]);
      assert [jobs[0]] + jobs[1..] == jobs;
    }
  }

  lemma KeepNone(drop: nat)
    ensures Keep([], drop) == [] && Dropped([], drop) == []
  {}

  lemma KeepStep(jobs: seq<Job>, i: nat, drop: nat)
    requires i < |jobs|
    ensures var cut := drop > 0 && Finished(jobs[i]);
            && Keep(jobs[i..], drop) ==
               (if cut then [] else [jobs[i]]) + Keep(jobs[i + 1..], if cut then drop - 1 else drop)
            && Dropped(jobs[i..], drop) ==
               (if cut then [jobs[i]] else []) + Dropped(jobs[i + 1..], if cut then drop - 1 else drop)
  {
    assert jobs[i..][1..] == jobs[i + 1..];
  }
}
