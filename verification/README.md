# NZBreX: a verified model of its protocols and codecs

Each module follows one part of the program. Protocols are state machines whose steps are single
critical sections, channel operations or atomic operations; a run is any sequence of steps in any
order (a step that is not enabled changes nothing), and the results hold in every state a run can
reach. Code that works in place is a class whose methods are tied to the functions the results are
about. Timers, deadlines, server answers and sockets are free choices.

- `MemLimiter`: the limiter of memory slots, with any number of callers, items and stop channels.
- `Retirement`: the download end, the cache writer and the divider race to retire one item.
- `ConnPool`: connections, the pool channel and each worker's shared-connection channel, with
  MaxConns workers of three routines.
- `CheckAccounting`: the check phase. Per group a feeder, a channel, check routines and the
  give-up signal; what `checkedOn` means.
- `WorkQueues`: download and re-upload channels, their counters, the divider's exit, the closing.
- `UploadTargets`: where an item is uploaded and how often that can fail.
- `JobQueue`: the web job queue with its one runner.
- `Bytes`, `Text`: Go's bytes, string splitting and trimming, numbers printed and parsed. `Wrappers`: Option.
- `Yenc`: the yEnc encoder of nntpseed and the line decoders. `UuCodec`: UU encoding.
- `StreamDecoder`: the buffered streaming decoder on its line and UU path.
- `Framing`: dot-stuffing, header filter, un-stuffing, mode 4's buffer, the cache file.
- `ArticleCheck`: the yEnc check in modes 1 to 3, where the modes agree, and encoded articles read back.
- `UuTransport`: UU text sent over NNTP.

Assumed throughout: one session at a time, `UseSharedCC` on, `UseReadDeadConn` off, `ByPassSTAT`
off, every provider enabled, in exactly one group and with MaxConns > 0.

What the code does not do, as exact statements:

- A relayed article comes back unchanged just if no header line begins with a dot
  (`Framing.ArticleRoundTrip`); mode 4 gives the decoder the server's bytes just if the server
  stuffed its body lines (`Framing.RestuffingRestores`).
- UU text decodes to its data just for modes below 0o1000 (`StreamDecoder.UuRoundTrip`). A last line
  of 14 bytes begins with a dot and is stuffed on the wire (`UuTransport.SentAsEncoded`). Sent over
  NNTP and decoded in mode 4, the text yields its data just for modes below 0o1000 and data whose
  last line does not have 14 bytes, or has the 14 bytes `SAME`, of which all groups of six bits are
  those of the dot. Any other such line is misread without an error (`UuTransport.SentAndRead`; at
  one input, `UuTransport.ZerosAreMisread`).
- The normal end of UU text does not mean that an end line follows the begin line: it may come first,
  and then nothing is decoded (`StreamDecoder.EndMayComeFirst`). What each verdict does say is
  `StreamDecoder.VerdictTells`.
- After a failed cache write the divider gives the slot back and the article stays in memory
  (`Retirement.FailedWriteKeepsSlot`); otherwise a slot comes back only with the memory
  (`Retirement.ArticleGoneWithSlot`).
- An encoded article is accepted just if its CRC is not zero and its name not blank
  (`ArticleCheck.EncodedArticle`; `ArticleCheck.GoodArticlesRejected` has an article of each kind).
- Mode 2 panics on a multipart header without a `=ypart` line
  (`ArticleCheck.CrashesJustWithoutPart`; at concrete lines, `ArticleCheck.NoBreakSpaces`).
- "At most maxItemFails - 1 plus the number of providers failed uploads per item" holds just if no
  provider that takes uploads shares its group (`UploadTargets.BoundIffAlone`).
- The runner picks the oldest waiting job, but an older job may become waiting before the picked one
  starts (`JobQueue.YoungerFirst`). The condition of `JobQueue.StartsOldest` is one on the run, on what
  became waiting since the pick; it cannot be read off a state of the queue.
- The streaming decoder gives the same bytes for every reader of a stream, and the same verdict just
  if the stream is not one of `StreamDecoder.Edge`, which end in an unfinished line of exactly the
  buffer's size. There a reader that reports the end together with its last bytes gets the verdict
  of an end, any other one ErrShortSrc (`StreamDecoder.ReadersAgree`, `StreamDecoder.ReadersDiffer`).
- `LinesWriter` counts in txb what its buffer took. On a connection that fails this can be more than
  what was sent (`Framing.LinesWriter`).

GetConn's comment speaks of workers waiting for a parked connection; with MaxConns workers that share
their connection the wait is never entered (`ConnPool.NeverWaits`).

## Model

| member | source | states |
|---|---|---|
| MemLimiter.Reachable | MemLimit.go:90-190 | in every run free + recorded + taken but not yet recorded + removed but not yet sent = mem_max; pending and memdata are disjoint; waiting = number of pending; memlocked is 1 just for items in memdata |
| MemLimiter.SlotChannelNeverFull | MemLimit.go:181-188 | whenever memReturn is about to send, the slot channel has room: its default branch is dead code |
| MemLimiter.OneSlotPerItem | MemLimit.go:90-134 | no two calls wait for a slot of the same item at once, and none while the item owns one |
| MemLimiter.OwnsUntilReturned | MemLimit.go:133-190 | in every run a call that returned true left its item an owner from that step on, until a memReturn of it |
| MemLimiter.FalseMeansStopped | MemLimit.go:109-152 | a call returns false only if its stop channel is closed |
| MemLimiter.GaveUpOwnsNothing | MemLimit.go:115-152 | in every run a call that gives up neither had a slot nor made its item an owner, from its registration through its return, which moves no slot |
| MemLimiter.GaveUpOnlyAfterMiss | MemLimit.go:119-131 | a call that gave up found no free slot after it registered: a closed stop never wins over a free slot |
| MemLimiter.AwaitedAttemptIsAlive | MemLimit.go:102-113 | the attempt another call waits for is still under way or has closed its channel: the wait ends |
| MemLimiter.DoneClosedOnce | MemLimit.go:115-143 | a call's done channel is open until that call closes it, so it is closed once |
| MemLimiter.StuckMeansAllOwned | MemLimit.go:119-131 | if no slot is free and nothing is being returned, all slots are owned or being taken |
| MemLimiter.MemLimiter.EnterWait | MemLimit.go:94-117 | the first critical section: owner, other caller's attempt, or registered, with the whole new state |
| MemLimiter.MemLimiter.FinishWait | MemLimit.go:133-144 | the last critical section records ownership just if a slot was taken |
| MemLimiter.MemLimiter.MemReturn | MemLimit.go:168-190 | gives back exactly one slot of an owner, nothing for any other item |
| MemLimiter.MemLimiter.ReleaseMemSlots | Workers.go:800-812 | after it no item of the session owns a slot, and each owned slot went back once |
| MemLimiter.QuietMeansRecorded | Session.go:381-387 | in every run, once no call has a slot in its hands, every slot is free or recorded: what releaseMemSlots needs after the workers have left |
| MemLimiter.AtMostLimit | MemLimit.go:37-53 | in every run at most mem_max items own a slot or are about to, and mem_max is the given value, or 1 if that is not positive |
| MemLimiter.LimitReached | MemLimit.go:37-53 | a run in which that many items own a slot |
| MemLimiter.WaitsEnd | MemLimit.go:102-131 | a call that waits for another's attempt goes on once that is over, one that waits for a slot takes a free one |
| MemLimiter.WaitsUntil | MemLimit.go:102-131 | and no call leaves its wait otherwise, but on its closed stop channel |
| MemLimiter.SlotComesBack | MemLimit.go:168-190 | in every reachable state a caller between its calls can return the slot of an owner, and then it is free |
| Retirement.RetiredExactlyOnce | Workers.go:748-795 | an item without upload target: in every interleaving its slot is returned at most once, and once download end and cache writer are through and the article is safe, exactly once |
| Retirement.WaitsForDisk | Workers.go:748-795 | the article is dropped only when it is cached or the cache is off; download end and cache writer retire only then |
| Retirement.FailedWriteKeepsSlot | Cache.go:150-162 | after a failed cache write the two other paths leave the slot to the divider, which returns it and leaves the article in memory |
| Retirement.ArticleGoneWithSlot | Workers.go:748-758 | in every run without yEnc output in which the divider too waits for the disk, the article is gone whenever the slot has been returned |
| Retirement.YencKeepsArticle | Workers.go:748-753 | with yEnc output on no run drops the article but the cache writer that is to free it |
| Retirement.BusyKeepsArticle | Workers.go:748-753 | while the yEnc writer has the part, no step of retireItem drops the article |
| Retirement.TargetKeepsSlot | Workers.go:767-795 | an item still to be uploaded keeps its slot and article until the divider retires it |
| Retirement.FreedAfterWrite | Cache.go:262-280 | after the write the item counts as cached, and its article is dropped just if the writer is to free it |
| Retirement.NothingToWrite | Cache.go:209-256 | what a write does with an article that is gone, with one whose file exists, and otherwise |
| Retirement.UsualRun | Workers.go:767-795 | the usual run ends with the slot returned once, the article on disk and out of memory |
| Retirement.SegmentItem.RetireAfterDownload | Workers.go:767-782 | the decision under the item lock: retire now, or leave it to the cache writer |
| Retirement.SegmentItem.AfterCacheWrite | Workers.go:785-795 | takes the request over just if the write set flagCache |
| Retirement.SegmentItem.Retire | Workers.go:748-758 | what is dropped, and whether a slot is to go back |
| ConnPool.Accounting | ConnPool.go:416-450 | openConns = parked + owned by workers = live + being dialed or closed, between 0 and MaxConns; every live connection is in exactly one place |
| ConnPool.SendNeverBlocks | ConnPool.go:849-925 | a routine that has the token finds the capacity-1 channel empty, and no other routine has it |
| ConnPool.TokenComesBack | ConnPool.go:863-925 | if no routine of a running worker has the token, it is in the channel |
| ConnPool.PoolNeverFull | ConnPool.go:613-633 | a worker that parks its connection finds room in the pool |
| ConnPool.NilTokenFindsRoom | ConnPool.go:533-553 | whoever holds the nil token sees openConns < MaxConns |
| ConnPool.NeverWaits | ConnPool.go:523-553 | GetConn's infinite wait is never entered, "openConns > MaxConns" is never reported, and dialing always reserves a place |
| ConnPool.GetsConn | ConnPool.go:461-560 | no starvation: in every reachable state a worker in GetConn gets a live connection by its own steps, the one parked longest or a new one |
| ConnPool.TokenGoesBack | ConnPool.go:849-925 | in every reachable state, whatever becomes of a command, the routine ends with its worker's token in the channel: the connection, or nil after it was closed and uncounted once |
| ConnPool.NilGoesBack | ConnPool.go:849-925 | a routine whose GetConn failed leaves the nil token |
| ConnPool.FailedDial | ConnPool.go:461-560 | a failed dial gives its place back; what is tried again |
| ConnPool.OldConnReplaced | ConnPool.go:461-560 | an old parked connection is closed and uncounted, and replaced just if it has expired |
| ConnPool.GivesUpJustWhenStopped | ConnPool.go:523-553 | nobody gives up waiting or dialing before the session is stopped, and everybody can then |
| ConnPool.WorkerParks | ConnPool.go:613-633 | a worker whose routines are off parks the connection of its token at the end of the pool, and ends |
| ConnPool.Pool.ReserveConn | ConnPool.go:416-450 | counts a connection just if there is room |
| ConnPool.Pool.CloseConn | ConnPool.go:644-688 | uncounts a connection just if it was open, and leaves the nil token |
| ConnPool.Pool.CloseTwice | ConnPool.go:644-688 | a second CloseConn of the same connection changes no count |
| ConnPool.Pool.ParkConn | ConnPool.go:613-633 | parks in order while there is room, otherwise says so |
| CheckAccounting.Accounting | Workers.go:595-626 | checkedOn of every item = sum of the sizes of the groups that finished checking it; equal to the number of providers just if every group has |
| CheckAccounting.GoneMeansAllLeft | Workers.go:163-180 | left = check routines that have not left; gone is closed once and only then, and then no routine of the group runs again |
| CheckAccounting.GoneIsFinal | Workers.go:187-198 | once every group is gone, no checkedOn changes, whatever follows |
| CheckAccounting.NoItemSkipped | Workers.go:204-248 | without a stop, an item taken from a channel is counted or held by exactly one routine; one not taken is still to come unless the group is gone |
| CheckAccounting.GoneMeansChecked | Workers.go:163-248 | if no routine gives up and the session is not stopped, a group that is gone has checked every item |
| CheckAccounting.ClosedWithReason | Workers.go:204-248 | in every run a feeder closes its channel before the last item only if the session is stopped or its group is gone |
| CheckAccounting.OneWay | Workers.go:204-248 | a feeder feeds, then waits for its channel to be empty if it has fed everything, then closes it, each just when it may; a routine sees the close just on an empty channel |
| CheckAccounting.StoppedJustIf | Workers.go:219-220 | the session is stopped just if somebody has stopped it |
| CheckAccounting.StoppedDrains | Workers.go:345-347 | in a stopped session an item taken is dropped without a credit, and a check that breaks is not tried again |
| CheckAccounting.NextItemChecked | Workers.go:315-365 | an idle routine can take and count the next item, by which the item gets the credit of the group |
| CheckAccounting.FailedItemChecked | Workers.go:595-623 | a check that breaks is tried twice, without a connection once, and then counts as checked |
| CheckAccounting.NoConnectionsInARow | Workers.go:353-363 | a routine leaves just at the third item in a row without a connection |
| CheckAccounting.GroupEnds | Workers.go:163-180 | with all items taken the feeder closes the channel, a routine leaves, and the last one closes gone |
| CheckAccounting.SizesAddUp | Workers.go:139-160 | with every provider in exactly one group the group sizes add up to the number of providers |
| CheckAccounting.Item.Record | Routines.go:60-113 | one answer is recorded for all providers of the group, each credited once, with exactly these sets changed |
| CheckAccounting.Item.MarkCheckFailed | Workers.go:613-623 | a failed check credits the group once and marks it as error, not as missing |
| CheckAccounting.Item.CheckItem | Workers.go:595-609 | however its attempts end, checkItem credits the item once; which attempts are retried |
| CheckAccounting.CheckerGroup.Exit | Workers.go:173-180 | gone is closed when left reaches 0, and never twice |
| WorkQueues.CountsAreExact | Utils.go:744-766 | each queue counter = items in the channels + items in routines before their Decrease + a push in progress; Decr never meets a zero |
| WorkQueues.SettledMeansEmpty | Workers.go:1399-1418 | after the divider left by a close case, "checkersGone" or force quit, both kinds of channel are empty and no routine holds a counted item, for good |
| WorkQueues.QuitMayLeaveItems | Workers.go:1084-1096 | the other exits do not give that: a run that leaves an item in a channel |
| WorkQueues.ClosedOnce | Routines.go:590-599 | no channel is closed twice, all are closed once when StopRoutines is done, and none is closed while the divider may send |
| WorkQueues.FirstInFirstOut | Workers.go:895-912 | in every run, what was sent to a channel is what routines of its group took out, in the same order, followed by what is in it |
| WorkQueues.PushSucceedsJustIf | Workers.go:895-912 | a push succeeds just if the channel has room; one that fails leaves channel and counter as they were |
| WorkQueues.NobodyStuck | Routines.go:590-599 | in every run that has closed the channels a routine releases its item, takes one that is left, or is off |
| WorkQueues.LeavesJustAtZero | Workers.go:1399-1418 | the divider leaves by a close case just if it has read both counters as zero |
| WorkQueues.StopClosesAll | Routines.go:590-599 | StopRoutines after the divider has left closes each channel once in as many steps as there are channels and one; before that and again it does nothing |
| WorkQueues.Counter.Incr | Counter_uint64.go:48-59 | raises one key by one |
| WorkQueues.Counter.Decr | Counter_uint64.go:74-93 | lowers one key by one, clamped at zero, and deletes zero entries |
| WorkQueues.Push | Workers.go:895-912 | a push keeps counter minus channel length, whether the channel was full or not |
| WorkQueues.WorkChans.CloseWorkChans | Routines.go:590-599 | closes every channel, loses no item, and may be called again |
| UploadTargets.PushFindsTarget | Workers.go:918-1019 | for every order of missingOn a matching item is pushed, finds a full channel or only pending retries just if hasUploadTarget holds; a push goes to a target whose channel has room |
| UploadTargets.PushesJustIf | Workers.go:918-1019 | where pushUP pushes, and when, with every guard spelled out; which retries it forgets |
| UploadTargets.WalkCounts | Workers.go:943-1019 | a walk that finds nobody returns the number of providers that refuse and the number of retries not due |
| UploadTargets.NoPushBefore | Workers.go:918-929 | no run pushes an upload while uploads are not allowed or the check is under way |
| UploadTargets.AfterFailedUpload | Workers.go:648-675 | after a failed upload the provider takes the item again just when failures are left and five seconds are over, and is closed just after the last one; to the others it stays as open as it was |
| UploadTargets.AfterFailedDownload | Workers.go:648-675 | a failure while nobody uploads closes no provider and puts nothing off |
| UploadTargets.BoundIffAlone | Workers.go:648-675 | maxItemFails - 1 + number of providers bounds the uploads that end with FlagError while flaginUP, on all runs, just if no provider that takes uploads shares its group |
| UploadTargets.AttemptsBounded | Workers.go:648-675 | the bound, for providers alone in their groups |
| UploadTargets.Unbounded | Workers.go:998-1009 | with two providers in a group: for every n a run in which n uploads fail and the item stays open |
| UploadTargets.SegmentItem.HasUploadTarget | Workers.go:724-740 | true just if some target exists, for every order |
| UploadTargets.SegmentItem.PushUP | Workers.go:918-1019 | the outcome and the whole new item |
| UploadTargets.SegmentItem.FlagAnError | Workers.go:648-675 | the whole new item after FlagError |
| JobQueue.NoLostWakeUp | webjobs.go:90-112 | a waiting job implies a wake token or a runner in its inner loop, which then picks the job added first |
| JobQueue.OneAtATime | webjobs.go:286-314 | at most one job runs, and it is the runner's |
| JobQueue.Bounds | webjobs.go:128-164 | at most 1000 pending and 50 finished jobs, listed in the order they were added |
| JobQueue.StartsOldest | webjobs.go:286-303 | a started job is the oldest waiting one just if no older job became waiting since it was picked |
| JobQueue.YoungerFirst | webjobs.go:286-303 | a run in which a younger job starts before an older waiting one |
| JobQueue.RecordsTell | webjobs.go:286-398 | in every run each record, listed or removed, is at the stage of its own job's life |
| JobQueue.ResultBecause | webjobs.go:333-347 | a job's result from the events alone: completed just if its own session ended without an error and nobody asked to stop it; failed if stopped before, without a processor, on an error or after a stop |
| JobQueue.FinishedBecause | webjobs.go:333-347 | every finished record has that result |
| JobQueue.NoJobLost | webjobs.go:333-368 | every job ever added is listed, or was removed once and then was finished or still queued |
| JobQueue.OthersUntouched | webjobs.go:333-398 | a step changes or removes no unfinished job but the one it is about |
| JobQueue.DropsOldest | webjobs.go:352-367 | of the finished jobs the oldest are dropped |
| JobQueue.KeepSplits | webjobs.go:352-367 | kept and dropped jobs are the whole list, and only finished jobs are dropped |
| JobQueue.GroupsArePermutation | webjobs.go:188-201 | ListJobs' four groups are the whole list, each job once |
| JobQueue.ListedSooner | webjobs.go:188-201 | of two jobs listed the first is in an earlier group (running, waiting, queued, finished), or in the same one and older |
| JobQueue.FilterInOrder | webjobs.go:188-201 | each group keeps the list's order |
| JobQueue.Queue.AddJob | webjobs.go:148-164 | refuses the 1001st pending job, otherwise appends with a new id |
| JobQueue.Queue.StartJob | webjobs.go:267-282 | moves a queued job to waiting and leaves a wake token |
| JobQueue.Queue.StopJob | webjobs.go:374-398 | cancels a waiting job or marks the running one |
| JobQueue.Queue.DeleteJob | webjobs.go:430-445 | removes a queued or finished job only |
| JobQueue.Queue.NextWaiting | webjobs.go:103-112 | picks the first waiting job of the list |
| JobQueue.Queue.BeginRun | webjobs.go:286-303 | skips a job canceled since it was picked |
| JobQueue.Queue.EndRun | webjobs.go:311-313 | records the result; a job asked to stop ends as failed |
| JobQueue.Queue.FinishLocked | webjobs.go:333-368 | the result, then the in-place filter of the list |
| JobQueue.Queue.ListJobs | webjobs.go:188-201 | returns the four groups and writes nothing |
| Yenc.YencLines | tools/nntpseed/main.go:160-186 | the loop computes the encoded lines |
| Yenc.RoundTrip | tools/nntpseed/main.go:160-186 | for every data, decoding the joined lines gives it back, and every line is not empty, at most 129 bytes, free of NUL, CR and LF, of blanks at either end, of a leading dot, of a dangling escape and of "=y" |
| Yenc.LinesAreJoined | yenc/yenc.go:564-584 | decoding line by line with the escape carried over equals decoding the joined bytes, for every split |
| Yenc.CarryIsDecode | yenc/yenc.go:564-604 | without a dangling escape the carrying decoder and the others agree |
| Yenc.EachLine | yenc/yenc.go:586-604 | lines without dangling escape decode alike one by one and joined |
| Yenc.Decoder.DecodeLine | yenc/yenc.go:564-584 | in place, for every line and carried flag |
| Yenc.Decoder.DecodeLineNew | yenc/yenc.go:586-604 | nothing at all for a line with a dangling escape |
| Yenc.DecodeLineSimd1 | yenc/yenc.go:716-745 | fails just on a dangling escape, otherwise decodes |
| Yenc.DecodeBuffer | yenc/yenc.go:812-826 | DecodeYenc's loop with its look-ahead fails just on a dangling escape, otherwise appends what the line decodes to |
| Yenc.DecodeLineSimd2 | yenc/yenc.go:684-714 | the same in place: the write index never passes the read index |
| Yenc.Sub42Bulk | yenc/yenc.go:678-682 | right on overlapping parts, if the destination does not lie behind the source |
| UuCodec.GroupsRoundTrip | rapidyenc/uuencode.go:22-36 | groups decode to the data and padding, in printable characters |
| UuCodec.LineRoundTrip | rapidyenc/decoder.go:592-629 | a line of the encoder decodes to its chunk |
| UuCodec.DecodedLength | rapidyenc/decoder.go:592-629 | any line yields exactly min(declared length, 3 * floor((n - 1) / 4)) bytes |
| UuCodec.OctalReadsBack | rapidyenc/uuencode.go:12-12 | the octal digits of a mode read back to it |
| UuCodec.UUdecode | rapidyenc/decoder.go:592-629 | the loop computes the decoded line |
| UuCodec.UUEncode | rapidyenc/uuencode.go:9-41 | the loops compute the encoded text |
| StreamDecoder.ReadAllDecoded | yencbuf.go:42-57 | for every stream, every buffer size, every cut of it into reads and every room given to Read, the bytes and the verdict are those of the whole stream, given whether the reader reports the end with its last bytes |
| StreamDecoder.ReadersAgree | rapidyenc/decoder.go:205-241 | all readers of a stream get the same bytes, and the same verdict just if it is not an Edge stream; there a reader that reports the end later gets ErrShortSrc |
| StreamDecoder.ReadersDiffer | rapidyenc/decoder.go:205-241 | one Edge stream and its two verdicts |
| StreamDecoder.Decoder.Read | rapidyenc/decoder.go:188-243 | hands out a prefix of what the stream decodes to, makes progress, and gives the verdict with all of it |
| StreamDecoder.Decoder.Transform | rapidyenc/decoder.go:248-366 | one buffer: fields, bytes, bytes used and verdict |
| StreamDecoder.Decoder.ClampDst | rapidyenc/decoder.go:677-687 | changes nothing on indices in range |
| StreamDecoder.Decoder.ClampSrc | rapidyenc/decoder.go:690-697 | changes nothing on indices in range |
| StreamDecoder.ScanThenRest | rapidyenc/decoder.go:188-243 | transforming a buffer first and the rest later is transforming the whole |
| StreamDecoder.UuRoundTrip | rapidyenc/uuencode.go:9-41 | the encoder's text and the final dot give the data and the normal end for modes below 0o1000, nothing and "data missing" above |
| StreamDecoder.CutText | rapidyenc/decoder.go:281-366 | the encoder's text cut before its end line, anywhere, with or without the final dot, gives the bytes of its whole lines and "data corruption" for modes below 0o1000, nothing and "data missing" above |
| StreamDecoder.VerdictTells | rapidyenc/decoder.go:281-366 | for every stream: the normal end just if it is read to its end and has a begin line and an end line among the lines from the first UU one on, data corruption just if it has a begin line only, data missing just if it has no begin line |
| StreamDecoder.BytesTell | rapidyenc/decoder.go:281-366 | for every stream the bytes are what the lines decode to that stand behind a begin line with no end line in between, of the lines from the first UU one on, but for those that begin with "end" |
| StreamDecoder.EndMayComeFirst | rapidyenc/decoder.go:464-492 | a stream whose end line comes before its begin line ends normally, without a byte |
| StreamDecoder.DataIsPlain | rapidyenc/decoder.go:443-492 | a data line is never taken for a begin, end or "=ybegin " line and is decoded just in a body |
| StreamDecoder.DataIsOneLine | rapidyenc/decoder.go:281-320 | a data line is one line and never the final dot |
| StreamDecoder.HeaderDetected | rapidyenc/decoder.go:464-492 | the header is detected just for modes below 0o1000 |
| StreamDecoder.DetectedJustIf | rapidyenc/decoder.go:464-492 | just a line as long as a full data line that starts with "M", and a line that begins as the encoder's header of some mode below 0o1000, make a stream UU; just "=ybegin " makes it yEnc |
| Framing.LinesWriter | ProxyHelper.go:16-38 | on every connection, failing or not, the bytes sent are those of status line and stuffed block cut at the failure, and success means all; txb is all of them, or up to the first full buffer that did not fit on the connection |
| Framing.WireIsUnambiguous | NetConn.go:217-236 | exactly the stuffed lines arrive and the terminator is never ambiguous |
| Framing.LineRead | NetConn.go:462-471 | of any stream a line read is what stands before the first LF, without one CR before that, or all there is |
| Framing.BodyRoundTrip | NetConn.go:528-549 | any lines sent come back unchanged with BODY, and mode 4 gets the wire bytes |
| Framing.ArticleRoundTrip | NetConn.go:484-549 | a relayed article comes back unchanged just if no header line begins with a dot |
| Framing.ReadDotLines | NetConn.go:461-572 | content and mode 4 buffer for every stream, command and option |
| Framing.ReuploadHeader | NetConn.go:484-526 | in an article read for a re-upload the new Date line and the Path line stand, in that order, directly in front of the blank line; with the filter on no other header line has these keys |
| Framing.HeaderOnly | NetConn.go:484-526 | an article without a blank line gets neither line, a HEAD reply gets both at its end |
| Framing.CollectHeader | NetConn.go:502-526 | the header loop is "group lines into fields with continuations, drop the fields whose first line has a cleanHeader prefix" |
| Framing.NothingUnwantedLeft | Config.go:267-277 | no line left by the filter has a cleanHeader key |
| Framing.CleanStaysClean | NetConn.go:502-526 | the filter changes no header without such keys |
| Framing.RestuffingRestores | NetConn.go:564-572 | un-stuffing and mode 4's re-stuffing restore the wire bytes just if every leading dot was doubled |
| Framing.CacheRoundTrip | Cache.go:182-207 | the reader inverts the writer just on articles whose lines have no LF |
| Framing.CacheWriter | Cache.go:209-256 | writes every line with LF; nothing for an empty article or an existing file |
| Framing.CachedReupload | Cache.go:182-256 | whatever was downloaded comes back from the cache, and sent again arrives as the same lines |
| ArticleCheck.EncodedArticle | tools/nntpseed/main.go:126-157 | "ok" articles are accepted in all modes with bytes, number, sizes, range and name, just if the CRC is not zero and the name not blank; "badcrc" never |
| ArticleCheck.ModesAgree | NetConn.go:551-649 | all modes give the same outcome on every article of a =ybegin line, a =ypart line if there is a part number, data lines without line ends and unfinished escapes, and a =yend line: that of what these lines say and decode to |
| ArticleCheck.ByLineJudges | NetConn.go:551-649 | mode 3 on any article: behind the first =ybegin line, and the =ypart line that must follow a part number, all =yend lines and what the other lines decode to decide |
| ArticleCheck.SliceJudges | yenc/yenc.go:792-833 | mode 2 on any article: all =yend lines and what the lines that are no control lines decode to decide |
| ArticleCheck.BufferJudges | yenc/yenc.go:461-485 | mode 1 on any article: the first =yend line and what the lines before it, joined without their line ends, decode to decide; without one the article is rejected |
| ArticleCheck.GoodArticlesRejected | tools/nntpseed/main.go:126-157 | two "ok" articles that every mode rejects: one without data (CRC zero), one whose name is a space |
| ArticleCheck.TruncatedArticle | tools/nntpseed/main.go:146-152 | "truncated" articles are rejected in all modes |
| ArticleCheck.AcceptedIsTrue | yenc/yenc.go:266-295 | for any input, an accepted body has the length and CRC of the =yend line read, the CRC is not zero, and there is a =yend line |
| ArticleCheck.BadCrcJustIf | yenc/yenc.go:266-295 | a body is called corrupt just if its length is the stated one and its CRC is stated and another |
| ArticleCheck.PlainJustWithoutYbegin | NetConn.go:551-649 | in every mode an article is taken for plain text, and delivered unchecked, just if it has no "=ybegin " line |
| ArticleCheck.NeverWithoutYend | yenc/yenc.go:445-562 | an article with a "=ybegin " line and no =yend line is never delivered, in any mode |
| ArticleCheck.OneTrailer | yenc/yenc.go:615-660 | with one =yend line in the article, sizes and CRC are that line's |
| ArticleCheck.AlikeChecks | yenc/yenc.go:615-660 | articles whose =yend lines say the same have the same outcome in every mode, however these are written |
| ArticleCheck.CapitalCrc | yenc/yenc.go:615-660 | an encoded article with its CRC in capital digits has the outcome of EncodedArticle |
| ArticleCheck.CrashesJustWithoutPart | yenc/yenc.go:393-420 | mode 2 panics just on a named multipart header without =ypart line; the other modes never |
| ArticleCheck.OnePartCrashes | yenc/yenc.go:366-391 | the one line "=ybegin part=1 name=...", also with U+00A0 before "part", makes mode 2 panic just if TrimSpace leaves something of the name |
| ArticleCheck.NoBreakSpaces | yenc/yenc.go:366-391 | three such lines: two that panic, and one whose name is U+00A0 that is rejected |
| ArticleCheck.OverTheWire | NetConn.go:461-549 | an encoded article sent dot-stuffed and read with ARTICLE reaches the check as it was encoded |
| ArticleCheck.CheckArticle | NetConn.go:551-649 | the decoders compute the outcome of their mode |
| ArticleCheck.PartDecoder.ReadBodyBuffer | yenc/yenc.go:461-485 | mode 1: up to the first =yend line, hash kept line by line |
| ArticleCheck.PartDecoder.ReadBodySlice | yenc/yenc.go:792-833 | mode 2: every line but the control lines, through the line buffer |
| ArticleCheck.PartDecoder.ReadBodyLine | yenc/yenc.go:502-556 | mode 3: one line, in every SimdMode |
| ArticleCheck.PartDecoder.ParseTrailer | yenc/yenc.go:615-660 | the trailer's values, or the first error |
| ArticleCheck.PartDecoder.ValidatePart | yenc/yenc.go:266-295 | the kept hash decides as the CRC of the whole body would |
| ArticleCheck.CrcAppend | yenc/yenc.go:479-484 | hashing piece by piece is hashing the whole |
| ArticleCheck.CrcCheckValue | yenc/yenc.go:266-295 | the CRC of "123456789" is the standard check value CBF43926 |
| ArticleCheck.EncodeArticle | tools/nntpseed/main.go:126-157 | the lines of an article of each kind |
| ArticleCheck.HeaderReadsBack | yenc/yenc.go:297-391 | the =ybegin line gives back number, size and trimmed name, even if the name contains "name=" |
| ArticleCheck.HeaderTells | yenc/yenc.go:366-391 | of any =ybegin line the last size and the last part count |
| ArticleCheck.PartTells | yenc/yenc.go:393-443 | of any =ypart line the last begin and the last end count |
| ArticleCheck.TrailerTells | yenc/yenc.go:615-660 | any =yend line is an error just if a size, part, pcrc32 or crc32 in it is no number or the part is not that of the =ybegin line; else the last size and the last pcrc32 count |
| ArticleCheck.PartReadsBack | yenc/yenc.go:393-443 | the =ypart line gives back the range |
| ArticleCheck.TrailerReadsBack | yenc/yenc.go:615-660 | the =yend line gives back size and CRC |
| Text.ParseIntDecimal | yenc/yenc.go:378-388 | numbers printed with %d are parsed back |
| Text.ParseHex8 | yenc/yenc.go:607-613 | numbers printed with %08x are parsed back |
| Text.ParseHexWord | yenc/yenc.go:607-613 | a word of hexadecimal digits, small or capital by their places in two tables, parses to its value in base 16, or to the largest uint32 with an error |
| Text.ParseIntWord | yenc/yenc.go:378-388 | a word of decimal digits with or without a sign parses to its value, or to the nearest int64 with an error |
| Text.SplitJoined | yenc/yenc.go:372-374 | Split takes apart words joined without the separator |
| Text.SplitParts | yenc/yenc.go:372-388 | the first two pieces of Split are what stands around the first separator, up to the second |
| Text.TrimIsTrimmed | yenc/yenc.go:369-374 | what TrimSpace leaves has no white space of unicode.IsSpace at either end, and is left as it is |
| UuTransport.SentAsEncoded | rapidyenc/uuencode.go:9-41 | UU text is unchanged on the wire just if its last line does not have 14 bytes |
| UuTransport.SentAndRead | NetConn.go:564-572 | for every data, name without CRLF and mode, UU text sent stuffed and decoded in mode 4 gives the data and the normal end just for modes below 0o1000 and a last line that does not have 14 bytes or is SAME; and what it gives otherwise |
| UuTransport.StuffedReadsBack | rapidyenc/decoder.go:592-629 | a stuffed line of 14 bytes decodes to its chunk just if the chunk is SAME |
| UuTransport.StuffedDecodes | rapidyenc/decoder.go:592-629 | it decodes to the chunk moved on by six bits |
| UuTransport.ZerosAreMisread | rapidyenc/uuencode.go:9-41 | 14 zero bytes sent over NNTP decode with the normal end and a first byte of 56 |

## Left out

- DecodeIncremental: the yEnc body decoder of rapidyenc is not part of this model; a "=ybegin " line ends a run of `StreamDecoder` with its own verdict, so sizes and CRC of mode 4 are not modelled.
- Reader errors other than the end of the stream, and the file name and CRC that the streaming decoder keeps on its UU path.
- UUEncode: negative modes.
- ArticleCheck.Article: the texts of the header lines of an encoded article are a parameter; `line` and `total` of =ybegin are parsed and never used.
- CheckArticle: mode 3 hands body lines to a goroutine; it decodes them in order and the first error rejects the article, as in the sequential form modelled here.
- Articles with more than one part (toCheck is always 1), the full-file crc32, YencMerge.
- ReadDotLines: the maximum article size.
- LinesWriter: the buffer is empty and has no error before the call. CMD_POST and CMD_IHAVE count the article lines without the final dot.
- AttemptsBounded: takes the FlagError after a rejected upload (Routines.go:537) as coming before the next push of the item; flaginUP is already cleared then (Routines.go:501) and not exact.
- PushFindsTarget: the providers that are down are those at one moment.
- MemLimiter: callers do not hold the item lock; log counters.
- Provider statistics, per-session progress counters, CSV, yenc output queue.
- Sockets, TLS, files, HTTP, flags, logging, the negative cache, provider loading, capability probing.
- JobQueue: job fields other than id, status and stopRequested; StartAllQueued and stopAll are repeated StartJob and StopJob.
- Push: other goroutines moving the counter in between are in `CountsAreExact`, not in this method.
