/** Giving back the slot of a downloaded article nobody will upload (Workers.go, Cache.go). */
module Retirement {
  // Three parties race to do it: the download worker when it is done, the cache writer after
  // storing the article, and the divider on each of its passes. One event is one critical section
  // of one party, so a list of events is an arbitrary interleaving.


  /** Settings of the session; `freeAfterWrite` is "no posting provider, or upload later". */
  datatype Config = Config(cacheOn: bool, yencWrite: bool, freeAfterWrite: bool, hasTarget: bool)

  /** The item's fields; `onDisk` says whether its cache file exists. */
  datatype Fields = Fields(
    memlocked: bool, flagCache: bool, retireWhenCached: bool,
    article: bool, inYenc: bool, onDisk: bool)

  datatype Pc =
    | Start     // worker: download done; writer: item still queued; divider: between passes
    | Renamed   // writer: the cache file is in place, flagCache not set yet
    | Written   // writer: CacheWriter returned
    | Retire    // about to enter retireItem
    | Return    // saw a slot, about to enter memReturn
    | Send      // removed from memdata, slot not sent yet
    | Done

  datatype Party = Worker | Writer | Divider

  datatype State = State(i: Fields, worker: Pc, writer: Pc, divider: Pc, sent: nat)

  datatype Event =
    | Decide                    // worker: the critical section of retireAfterDownload
    | Write(ok: bool)           // writer: CacheWriter up to the rename (or its failure)
    | FlagCached                // writer: CacheWriter's last critical section
    | AfterWrite                // writer: the critical section of afterCacheWrite
    | Pass                      // divider: calls retireNoUploadTarget
    | Step(p: Party)            // the next section of retireItem / memReturn
    | CheckCache                // a check routine finds the cache file
    | Yenc(busy: bool)          // the yEnc writer takes or finishes the part

  function Init(c: Config, cached: bool, onDisk: bool): State {
    State(Fields(true, cached, false, true, false, onDisk || cached),
          Start, if c.cacheOn then Start else Done, Start, 0)
  }

  predicate OnDiskOrOff(c: Config, i: Fields) { !c.cacheOn || i.flagCache }

  /** The critical sections, on the item's fields. */
  function DecideItem(c: Config, i: Fields): (Fields, bool) {
    if c.hasTarget then (i, false)
    else if OnDiskOrOff(c, i) then (i, true)
    else (i.(retireWhenCached := true), false)
  }

  function FlagItem(c: Config, i: Fields): Fields {
    i.(flagCache := true, article := i.article && !c.freeAfterWrite)
  }

  function AfterItem(i: Fields): (Fields, bool) {
    if i.retireWhenCached && i.flagCache then (i.(retireWhenCached := false), true) else (i, false)
  }

  function RetireItem(c: Config, i: Fields): Fields {
    if i.memlocked && !c.yencWrite && !i.inYenc && OnDiskOrOff(c, i) then i.(article := false) else i
  }

  function PcOf(s: State, p: Party): Pc {
    match p case Worker => s.worker case Writer => s.writer case Divider => s.divider
  }

  function SetPc(s: State, p: Party, pc: Pc): State {
    match p
    case Worker => s.(worker := pc)
    case Writer => s.(writer := pc)
    case Divider => s.(divider := pc)
  }

  /** Where a party goes after retiring: the divider passes again and again. */
  function Rest(p: Party): Pc { if p.Divider? then Start else Done }

  function StepParty(c: Config, s: State, p: Party): State {
    match PcOf(s, p)
    case Retire => SetPc(s, p, if s.i.memlocked then Return else Rest(p)).(i := RetireItem(c, s.i))
    case Return =>
      if s.i.memlocked then SetPc(s, p, Send).(i := s.i.(memlocked := false)) else SetPc(s, p, Rest(p))
    case Send => SetPc(s, p, Rest(p)).(sent := s.sent + 1)
    case _ => s
  }

  function Apply(c: Config, s: State, e: Event): State {
    match e
    case Decide =>
      if !s.worker.Start? then s
      else var (i, now) := DecideItem(c, s.i); s.(i := i, worker := if now then Retire else Done)
    case Write(ok) =>
      if !s.writer.Start? then s
      else if !s.i.article then s.(writer := Written)                            // "article is empty"
      else if s.i.onDisk then s.(writer := Written, i := s.i.(flagCache := true)) // the file exists already
      else if ok then s.(writer := Renamed, i := s.i.(onDisk := true))
      else s.(writer := Written)
    case FlagCached => if s.writer.Renamed? then s.(writer := Written, i := FlagItem(c, s.i)) else s
    case AfterWrite =>
      if !s.writer.Written? then s
      else var (i, retire) := AfterItem(s.i); s.(i := i, writer := if retire then Retire else Done)
    case Pass => if s.divider.Start? then s.(divider := Retire) else s
    case Step(p) => StepParty(c, s, p)
    case CheckCache => if s.i.onDisk && c.cacheOn then s.(i := s.i.(flagCache := true)) else s
    case Yenc(busy) => s.(i := s.i.(inYenc := busy))
  }

  function Exec(c: Config, s: State, es: seq<Event>): State {
    if es == [] then s else Apply(c, Exec(c, s, es[..|es| - 1]), es[|es| - 1])
  }

  function One(b: bool): nat { if b then 1 else 0 }

  /** The slot: still owned, in the hands of exactly one party, or sent. */
  predicate SlotOnce(s: State) {
    s.sent + One(s.i.memlocked) + One(s.worker.Send?) + One(s.writer.Send?) + One(s.divider.Send?) == 1
  }

  predicate BeforeAfterWrite(pc: Pc) { pc.Start? || pc.Renamed? || pc.Written? }

  predicate Inv(c: Config, s: State) {
    && SlotOnce(s)
    && (s.i.flagCache || s.writer.Renamed? ==> s.i.onDisk)
    && (!s.i.article ==> OnDiskOrOff(c, s.i))
    && (s.i.retireWhenCached ==> c.cacheOn && s.worker.Done?)
    && (s.i.onDisk && !s.i.flagCache && c.cacheOn ==> s.writer.Start? || s.writer.Renamed?)
    && (s.i.retireWhenCached && s.i.flagCache ==> BeforeAfterWrite(s.writer))
    && (!c.hasTarget && s.worker.Done? && s.i.memlocked ==>
          s.i.retireWhenCached || s.writer.Retire? || s.writer.Return?)
    && (s.worker.Retire? || s.worker.Return? ==> OnDiskOrOff(c, s.i))
    && (s.writer.Retire? || s.writer.Return? || s.writer.Send? ==> s.i.flagCache)
    && !s.worker.Renamed? && !s.worker.Written?
    && (s.divider.Start? || s.divider.Retire? || s.divider.Return? || s.divider.Send?)
    && (!c.cacheOn ==> s.writer.Done?)
  }

  lemma StepKeepsInv(c: Config, s: State, p: Party)
    requires Inv(c, s)
    ensures Inv(c, StepParty(c, s, p))
  {
    match p case Worker => case Writer => case Divider =>
  }

  predicate ByWriter(e: Event) { e.Write? || e.FlagCached? || e.AfterWrite? }

  lemma WriterKeepsInv(c: Config, s: State, e: Event)
    requires Inv(c, s) && ByWriter(e)
    ensures Inv(c, Apply(c, s, e))
  {}

  lemma OtherKeepsInv(c: Config, s: State, e: Event)
    requires Inv(c, s) && !ByWriter(e) && !e.Step?
    ensures Inv(c, Apply(c, s, e))
  {}

  lemma ApplyKeepsInv(c: Config, s: State, e: Event, t: State)
    requires Inv(c, s) && t == Apply(c, s, e)
    ensures Inv(c, t)
  {
    if e.Step? {
      StepKeepsInv(c, s, e.p);
    } else if ByWriter(e) {
      WriterKeepsInv(c, s, e);
    } else {
      OtherKeepsInv(c, s, e);
    }
  }

  lemma {:induction false} Reachable(c: Config, cached: bool, onDisk: bool, es: seq<Event>)
    ensures Inv(c, Exec(c, Init(c, cached, onDisk), es))
  {
    if es != [] {
      Reachable(c, cached, onDisk, es[..|es| - 1]);
      ApplyKeepsInv(c, Exec(c, Init(c, cached, onDisk), es[..|es| - 1]),
          es[|es| - 1], Exec(c, Init(c, cached, onDisk), es));
    }
  }

  /** MAIN: whatever the interleaving, the slot is sent at most once; and once the worker and
      the writer are through and the article is on disk (or the cache is off), it was given
      back exactly once even if the divider never passed: `sent` is 1, or the one party that
      took it is just about to send it. */
  lemma RetiredExactlyOnce(c: Config, cached: bool, onDisk: bool, es: seq<Event>)
    requires !c.hasTarget
    ensures var s := Exec(c, Init(c, cached, onDisk), es);
            && s.sent <= 1
            && (s.worker.Done? && s.writer.Done? && (s.i.onDisk || !c.cacheOn) ==>
                  !s.i.memlocked && s.sent + One(s.divider.Send?) == 1)
  {
    Reachable(c, cached, onDisk, es);
  }

  /** The article is dropped only when it is in the cache or the cache is off; the worker and
      the writer start giving the slot back only then. The divider need not wait. */
  lemma WaitsForDisk(c: Config, cached: bool, onDisk: bool, es: seq<Event>)
    ensures var s := Exec(c, Init(c, cached, onDisk), es);
            && (!s.i.article ==> !c.cacheOn || (s.i.flagCache && s.i.onDisk))
            && (s.worker.Retire? || s.worker.Return? || s.writer.Retire? || s.writer.Return? ==>
                  !c.cacheOn || s.i.onDisk)
  {
    Reachable(c, cached, onDisk, es);
  }

  /** The condition on the disk is needed: if the write fails, nobody but the divider gives
      the slot back, and the article stays in memory. */
  lemma FailedWriteKeepsSlot(c: Config)
    requires c.cacheOn && !c.hasTarget
    ensures var s := Exec(c, Init(c, false, false), [Write(false), AfterWrite, Decide]);
            && s.worker.Done? && s.writer.Done? && s.i.memlocked && s.sent == 0
            && var t := Exec(c, s, [Pass, Step(Divider), Step(Divider), Step(Divider)]); t.sent == 1 && t.i.article
  {
    var s0 := Init(c, false, false);
    var s1 := ExecSnoc(c, s0, [], Write(false), [Write(false)]);
    var s2 := ExecSnoc(c, s0, [Write(false)], AfterWrite, [Write(false), AfterWrite]);
    var s := ExecSnoc(c, s0, [Write(false), AfterWrite], Decide, [Write(false), AfterWrite, Decide]);
    var t1 := ExecSnoc(c, s, [], Pass, [Pass]);
    var t2 := ExecSnoc(c, s, [Pass], Step(Divider), [Pass, Step(Divider)]);
    var t3 := ExecSnoc(c, s, [Pass, Step(Divider)], Step(Divider), [Pass, Step(Divider), Step(Divider)]);
    var t4 := ExecSnoc(c, s, [Pass, Step(Divider), Step(Divider)], Step(Divider),
                       [Pass, Step(Divider), Step(Divider), Step(Divider)]);
  }

  lemma ExecSnoc(c: Config, s: State, es: seq<Event>, e: Event, all: seq<Event>) returns (t: State)
    requires all == es + [e]
    ensures t == Exec(c, s, all) == Apply(c, Exec(c, s, es), e)
  {
    t := Exec(c, s, all);
    assert all[..|es|] == es;
  }

  // --- what becomes of the article ----------------------------------------------------------------

  /** The divider retires the item only while the article is cached or the cache is off. */
  ghost predicate DividerWaits(c: Config, s: State, es: seq<Event>) {
    forall k | 0 <= k < |es| && es[k] == Step(Divider) ::
      Exec(c, s, es[..k]).divider.Retire? ==> OnDiskOrOff(c, Exec(c, s, es[..k]).i)
  }

  lemma ExecLast(c: Config, s: State, es: seq<Event>, e: Event)
    ensures Exec(c, s, es + [e]) == Apply(c, Exec(c, s, es), e)
  {
    hide Apply;
    assert (es + [e])[..|es|] == es;
  }

  lemma WaitsFront(c: Config, s: State, es: seq<Event>, e: Event)
    requires DividerWaits(c, s, es + [e])
    ensures DividerWaits(c, s, es)
    ensures e == Step(Divider) && Exec(c, s, es).divider.Retire? ==> OnDiskOrOff(c, Exec(c, s, es).i)
  {
    hide Exec;
    var all := es + [e];
    assert all[|es|] == e && all[..|es|] == es;
    assert forall k | 0 <= k < |es| :: all[k] == es[k] && all[..k] == es[..k];
  }

  /** Past retireItem, and without a slot, the article is gone. */
  predicate GoneWithSlot(s: State) {
    && !s.i.inYenc && (!s.i.memlocked ==> !s.i.article)
    && (s.worker.Return? || s.writer.Return? || s.divider.Return? ==> !s.i.article)
  }

  lemma GoneStep(c: Config, s: State, e: Event)
    requires Inv(c, s) && GoneWithSlot(s) && !c.yencWrite && e != Yenc(true)
    requires e == Step(Divider) && s.divider.Retire? ==> OnDiskOrOff(c, s.i)
    ensures GoneWithSlot(Apply(c, s, e))
  {
    if e.Step? { match e.p case Worker => case Writer => case Divider => }
  }

  /** MAIN: a slot comes back only with the memory. Without yEnc output, and if the divider waits for
      the disk as the two others do, the article is gone whenever the slot is no longer owned. */
  lemma {:induction false} ArticleGoneWithSlot(c: Config, cached: bool, onDisk: bool, es: seq<Event>)
    requires !c.yencWrite && Yenc(true) !in es && DividerWaits(c, Init(c, cached, onDisk), es)
    ensures GoneWithSlot(Exec(c, Init(c, cached, onDisk), es))
    ensures Exec(c, Init(c, cached, onDisk), es).sent == 1 ==> !Exec(c, Init(c, cached, onDisk), es).i.article
    decreases |es|
  {
    var s0 := Init(c, cached, onDisk);
    Reachable(c, cached, onDisk, es);
    if es != [] {
      var front, e := es[..|es| - 1], es[|es| - 1];
      assert es == front + [e];
      WaitsFront(c, s0, front, e);
      ArticleGoneWithSlot(c, cached, onDisk, front);
      Reachable(c, cached, onDisk, front);
      ExecLast(c, s0, front, e);
      GoneStep(c, Exec(c, s0, front), e);
      hide Apply, Exec, DividerWaits;
    }
  }

  predicate OnlyFreed(c: Config, i: Fields) { !i.article ==> c.freeAfterWrite && i.flagCache }

  lemma YencStep(c: Config, s: State, e: Event)
    requires c.yencWrite && OnlyFreed(c, s.i)
    ensures OnlyFreed(c, Apply(c, s, e).i)
  {
    if e.Step? { match e.p case Worker => case Writer => case Divider => }
  }

  /** With yEnc output on, only the cache writer drops the article, and only if it is to do so. */
  lemma {:induction false} YencKeepsArticle(c: Config, cached: bool, onDisk: bool, es: seq<Event>)
    requires c.yencWrite
    ensures OnlyFreed(c, Exec(c, Init(c, cached, onDisk), es).i)
    decreases |es|
  {
    if es != [] {
      var front, e := es[..|es| - 1], es[|es| - 1];
      assert es == front + [e];
      YencKeepsArticle(c, cached, onDisk, front);
      ExecLast(c, Init(c, cached, onDisk), front, e);
      YencStep(c, Exec(c, Init(c, cached, onDisk), front), e);
      hide Exec, Apply, OnlyFreed;
    }
  }

  /** While the yEnc writer has the part, no step of retireItem drops the article. */
  lemma BusyKeepsArticle(c: Config, cached: bool, onDisk: bool, es: seq<Event>, p: Party)
    requires Exec(c, Init(c, cached, onDisk), es).i.inYenc
    ensures var s0 := Init(c, cached, onDisk); Exec(c, s0, es + [Step(p)]).i.article == Exec(c, s0, es).i.article
  {
    ExecLast(c, Init(c, cached, onDisk), es, Step(p));
    hide Exec;
    match p case Worker => case Writer => case Divider =>
  }

  /** The cache writer frees the article just if it is to do so. */
  lemma FreedAfterWrite(c: Config, cached: bool, onDisk: bool, es: seq<Event>)
    requires Exec(c, Init(c, cached, onDisk), es).writer.Renamed?
    ensures var s0 := Init(c, cached, onDisk);
            var (s, t) := (Exec(c, s0, es), Exec(c, s0, es + [FlagCached]));
            t.i.flagCache && (t.i.article <==> s.i.article && !c.freeAfterWrite)
  {
    ExecLast(c, Init(c, cached, onDisk), es, FlagCached);
    hide Exec;
  }

  predicate KeptForUpload(c: Config, s: State) {
    && s.i.memlocked && s.sent == 0 && !s.i.retireWhenCached && (!c.freeAfterWrite ==> s.i.article)
    && (s.worker.Start? || s.worker.Done?) && s.divider.Start?
    && (BeforeAfterWrite(s.writer) || s.writer.Done?)
  }

  lemma TargetStep(c: Config, s: State, e: Event)
    requires c.hasTarget && KeptForUpload(c, s) && e != Pass
    ensures KeptForUpload(c, Apply(c, s, e))
  {
    if e.Step? { match e.p case Worker => case Writer => case Divider => }
  }

  /** The usual run without an upload target: the download ends, the cache writer stores the article and
      finishes what the worker left to it. */
  lemma UsualRun(c: Config)
    requires c.cacheOn && !c.hasTarget && !c.yencWrite
    ensures var s := Exec(c, Init(c, false, false), [Decide, Write(true), FlagCached, AfterWrite]);
            && s.worker.Done? && s.writer.Retire? && s.i.onDisk && s.i.flagCache && s.i.memlocked
            && var t := Exec(c, s, [Step(Writer), Step(Writer), Step(Writer)]);
               t.writer.Done? && t.sent == 1 && !t.i.memlocked && !t.i.article
  {
    var s0 := Init(c, false, false);
    var s1 := ExecSnoc(c, s0, [], Decide, [Decide]);
    var s2 := ExecSnoc(c, s0, [Decide], Write(true), [Decide, Write(true)]);
    var s3 := ExecSnoc(c, s0, [Decide, Write(true)], FlagCached, [Decide, Write(true), FlagCached]);
    var s := ExecSnoc(c, s0, [Decide, Write(true), FlagCached], AfterWrite,
                      [Decide, Write(true), FlagCached, AfterWrite]);
    var t1 := ExecSnoc(c, s, [], Step(Writer), [Step(Writer)]);
    var t2 := ExecSnoc(c, s, [Step(Writer)], Step(Writer), [Step(Writer), Step(Writer)]);
    var t3 := ExecSnoc(c, s, [Step(Writer), Step(Writer)], Step(Writer), [Step(Writer), Step(Writer), Step(Writer)]);
  }

  /** A file that is there already counts as stored, and an article that is gone is not stored. */
  lemma NothingToWrite(c: Config, s: State, ok: bool)
    requires c.cacheOn && s.writer.Start?
    ensures var t := Apply(c, s, Write(ok));
            && (!s.i.article ==> t.writer.Written? && t.i == s.i)
            && (s.i.article && s.i.onDisk ==> t.writer.Written? && t.i.flagCache && t.i.onDisk && t.i.article)
            && (s.i.article && !s.i.onDisk ==>
                  && (t.writer.Renamed? <==> ok) && (t.i.onDisk <==> ok) && (t.writer.Written? <==> !ok)
                  && t.i.flagCache == s.i.flagCache)
  {}

  /** The file of an earlier session is found, if the cache is on. */
  lemma CacheFound(c: Config, s: State)
    ensures var t := Apply(c, s, CheckCache);
            t.i.flagCache <==> s.i.flagCache || (s.i.onDisk && c.cacheOn)
    ensures Init(c, false, true).i.onDisk && Init(c, true, false).i.onDisk && !Init(c, false, false).i.onDisk
  {}

  /** What the yEnc writer has is told by its last event. */
  lemma YencTold(c: Config, cached: bool, onDisk: bool, es: seq<Event>, busy: bool)
    ensures Exec(c, Init(c, cached, onDisk), es + [Yenc(busy)]).i.inYenc == busy
  {
    ExecLast(c, Init(c, cached, onDisk), es, Yenc(busy));
    hide Exec;
  }

  /** retireItem leaves an item alone that owns no slot. */
  lemma NoSlotNoDrop(c: Config, s: State, p: Party)
    requires PcOf(s, p).Retire? && !s.i.memlocked
    ensures StepParty(c, s, p).i == s.i && PcOf(StepParty(c, s, p), p) == if p.Divider? then Start else Done
  {
    match p case Worker => case Writer => case Divider =>
  }

  /** MAIN: an item that is still to be uploaded keeps its slot, and its article unless the cache
      writer is to free it, until the divider retires it. */
  lemma {:induction false} TargetKeepsSlot(c: Config, cached: bool, onDisk: bool, es: seq<Event>)
    requires c.hasTarget && Pass !in es
    ensures KeptForUpload(c, Exec(c, Init(c, cached, onDisk), es))
    decreases |es|
  {
    if es != [] {
      var front, e := es[..|es| - 1], es[|es| - 1];
      assert es == front + [e];
      TargetKeepsSlot(c, cached, onDisk, front);
      ExecLast(c, Init(c, cached, onDisk), front, e);
      TargetStep(c, Exec(c, Init(c, cached, onDisk), front), e);
      hide Exec, Apply, KeptForUpload;
    }
  }

  /** The item as the source keeps it; each method is one critical section under its mutex. */
  class SegmentItem {
    var memlocked: bool
    var flagCache: bool
    var retireWhenCached: bool
    var article: bool
    var inYenc: bool
    ghost var onDisk: bool

    ghost function Abs(): Fields
      reads this
    {
      Fields(memlocked, flagCache, retireWhenCached, article, inYenc, onDisk)
    }

    method RetireAfterDownload(c: Config) returns (now: bool)
      modifies this
      ensures (Abs(), now) == DecideItem(c, old(Abs()))
    {
      if c.hasTarget { return false; }
      now := !c.cacheOn || flagCache;
      if !now { retireWhenCached := true; }
    }

    method FinishCacheWrite(c: Config)
      modifies this
      ensures Abs() == FlagItem(c, old(Abs()))
    {
      flagCache := true;
      if c.freeAfterWrite { article := false; }
    }

    method AfterCacheWrite() returns (retire: bool)
      modifies this
      ensures (Abs(), retire) == AfterItem(old(Abs()))
    {
      retire := retireWhenCached && flagCache;
      if retire { retireWhenCached := false; }
    }

    method Retire(c: Config) returns (locked: bool)
      modifies this
      ensures Abs() == RetireItem(c, old(Abs())) && locked == old(memlocked)
    {
      locked := memlocked;
      if locked && !c.yencWrite && !inYenc && (!c.cacheOn || flagCache) { article := false; }
    }

    method GiveUpSlot() returns (send: bool)
      modifies this
      ensures send == old(memlocked) && Abs() == old(Abs()).(memlocked := false)
    {
      send := memlocked;
      memlocked := false;
    }
  }
}
