# Verified models of kdenetwork components

A Dafny model of the parts of kdenetwork whose behaviour depends on more than one
function, with proofs of what they promise. `dafny verify dfyconfig.toml` checks
everything.

- **kppp login scripts** (`Script`, `LoginMachine`, `LoginSafety`, `LoginLimits`,
  `LoginStream`, `LoginLoops`, `LoginUser`, `ConnectWidget`). A login script is a list
  of commands that the script editor accepts only if its loops are balanced, and that
  the connect widget interprets against the characters of a modem. The interpreter keeps
  loops in two small arrays. The editor's check and entry limit are proved to be enough
  for every run of a session; where an awaited string can already be buffered they are
  not, and the exact condition is given. The strings matched are proved to lie in the
  received stream along the way the script's nesting prescribes; without loops that
  depends on the received characters only.
- **kppp and resolv.conf** (`ResolvConf`, `ResolvUndo`, `ResolvShape`, `ResolvView`).
  For the time of a connection kppp comments lines out, marks lines of its own and later
  undoes both. The undo is proved to give the file back byte for byte exactly for the
  files where it can.
- **dcoprss XML-RPC** (`XmlRpc`, `RpcRoundTrip`, `RpcMessages`, `RpcForeign`,
  `RpcCache`). Values are marshalled to markup and read back; whole calls, responses and
  faults likewise; results are cached under a key made of the markup. Round trips,
  unique decoding, and that the cache only serves what the server once answered.
- **kget's scheduler** (`Scheduler`, `SchedulerLimit`, `SchedulerRetry`,
  `SchedulerStarts`, `KGetWidget`, `SlaveQueue`, `SlaveClash`, `SlaveReplies`). The
  limit on simultaneous connections, the bound on automatic retries, when a transfer is
  started and when it is left alone, and the command queue between the main thread and a
  slave's thread in every interleaving: what it keeps, when it keeps the order, and when
  an assertion fails.
- **kdict** (`MatchTree`, `BrowseHistory`, `BrowseMoves`) and **kppp's modem database**
  (`ModemDb`): a lazily built tree that stands for a flat list, a bounded history that
  is a suffix of the unbounded one, and attribute inheritance along parent links.

Where the source changes fields in place, a class has those fields, and each of its
methods is proved to compute a function on values; the theorems are then about the
functions. `Text` holds the substring search they share. Paths below are relative to the
root of the repository.

Results that differ from what the code's comments or callers assume, each with the exact
condition:

- A command that waits keeps its place iff its string is not in the read buffer already
  (`LoginLimits.KeepsPlaceIff`). Otherwise a script that the editor accepts can report a
  LoopEnd without matching Start (`LoginLimits.BufferedAtLoopStart`) or write in front
  of the loop arrays (`LoginLimits.BufferedAtLoopEnd`), in the first session of a new
  widget.
- `init` leaves `loopnest` as it was: after a session cancelled inside `k` loops, 10 -
  `k` nested loops are too many (`LoginLimits.CancelledInsideLoops`). It leaves
  `loopend` too: a session keeps its start while dialling iff no loop end is pending
  from the one before (`LoginLimits.KeepsStartIff`,
  `LoginLimits.PendingLoopEndSkipsEntry`), so the session theorems need `loopend` to be
  false at the start.
- After a timeout the widget dials again but the script goes on where it stood
  (`LoginLimits.TimeoutResumes`): it starts over iff that is its first entry.
- resolv.conf is restored iff it is non-empty, newline-terminated and without kppp's
  marks (`ResolvUndo.RoundTripIff`); a file with more than 128 lines never comes back
  (`ResolvUndo.LongFileIsTruncated`); an unterminated peer file leaves a line behind
  (`ResolvShape.PeerRoundTripIff`).
- A value survives marshalling iff its parts are of supported types and its texts
  neither blank nor in need of escaping (`RpcRoundTrip.RoundTripIff`).
- Two calls share a cache key iff their arguments agree and their server and method
  names joined with two underscores do (`RpcCache.KeyEqualIff`). On one server that is
  the same call; across servers an underscore can make two calls collide
  (`RpcCache.UnderscoreCollides`).
- A call is served from the cache iff the first successful reply for its key is less
  than an hour old (`RpcCache.ServedIff`): later replies never count, and an expired
  entry blocks its key for good (`RpcCache.ExpiredForever`).
- kget's limit on connections holds when a connection is reported iff the job is active,
  the transfer is in its cache check, or there is room
  (`SchedulerLimit.ConnectionWithinIff`); when a transfer is queued iff it is not in its
  cache check or there is room (`SchedulerLimit.QueueWithinIff`). Both are exceeded in
  runs from the start, for every limit (`SchedulerLimit.LateConnection`,
  `SchedulerLimit.QueuedDuringCacheCheck`).
- A failed login frees a slot that nobody waiting is given until some other event
  (`SchedulerStarts.SlotLeftFree`).
- kget's slave carries commands out in the order given iff it never takes one while a
  different one waits with it (`SlaveQueue.InOrderIff`, `SlaveQueue.KillOvertakes`); it
  sleeps on a command iff the wake-up came between its test and its wait
  (`SlaveQueue.SleepsOnWorkIff`, `SlaveQueue.WakeUpMissed`).
- kget's slave asserts that it holds no job when it starts one. That fails in sessions
  the menus allow (`SlaveClash.DelayedThenQueued`, `SlaveClash.OfflineAndBack`), and for
  some interleaving of exactly the command lists with Abort, or with Retr or RetrCache
  and another command that starts a job (`SlaveClash.ClashesIff`). A caller that waits
  for each command to be carried out is safe (`SlaveClash.WaitingIsSafe`).
- kdict follows a null pointer iff in a list of fewer than 200 matches, not empty, every
  database name compares equal to a null string (`MatchTree.UnsafeIff`). Whether an
  empty name does is a fact about the string library and a parameter of the model
  (`isNull`); if no name does, the case never occurs.

## Model

| member | source | states |
|---|---|---|
| Script.CountedIffBalanced | kppp/edit.cpp:940-958 | the counting test of the editor accepts exactly the scripts a bracket grammar derives |
| Script.ScriptWidget.Check | kppp/edit.cpp:940-958 | the loop with its three counters returns true iff the command list is in the grammar |
| Script.MatchUnique | kppp/edit.cpp:940-958 | in an accepted script every LoopEnd has exactly one matching LoopStart, at the same depth |
| Script.MatchSameStack | kppp/connect.cpp:808-854 | right behind that LoopStart the same loops are open as at the LoopEnd |
| Script.DepthAtMostHalf | kppp/connect.h:42 | nesting never exceeds half the number of entries, which is how the loop arrays are sized |
| Script.ScriptWidget.AddButton | kppp/edit.cpp:1001-1094 | appends command and argument unless the list is one entry short of the maximum |
| Script.ScriptWidget.InsertButton | kppp/edit.cpp:1096-1184 | inserts at the selected position under the same limit |
| Script.ScriptWidget.RemoveButton | kppp/edit.cpp:1186-1240 | removes the selected entry from both lists |
| Script.EditSession | kppp/edit.cpp:1001-1240 | any sequence of edits keeps the lists in step and at most 19 entries long |
| Script.InsertAndRemove | kppp/edit.cpp:1096-1240 | inserting an entry and removing it again leaves both lists as they were |
| Text.FindLeftmost | kppp/connect.cpp:1010-1014 | the position searched for is the leftmost occurrence, and none is missed |
| Text.AfterExtend | kppp/connect.cpp:1010-1014 | characters that arrive later never change what is cut off at a match |
| LoginSafety.StepSound | kppp/connect.cpp:808-854 | one tick, character, pause end, timeout or dial step keeps loop arrays and static nesting in agreement, or a string was buffered early |
| LoginSafety.LoopBackTarget | kppp/connect.cpp:1024-1032 | a pending LoopEnd jumps to the entry behind its matching LoopStart and nowhere else |
| LoginSafety.SessionSound | kppp/connect.cpp:541-854 | every run of a session that starts with no loop end pending keeps the invariant, for any number of loop slots left behind by earlier sessions |
| LoginSafety.CheckedScriptIsSafe | kppp/connect.cpp:808-854 | for a checked script of at most 19 entries no error branch is reached, loopnest is the static depth, and a pending loop end points behind its LoopStart |
| LoginSafety.ShortScriptFits | kppp/kpppconfig.h:86 | 19 entries never need more than nine loop slots |
| LoginSafety.LoopArraysInRange | kppp/connect.cpp:817-849 | for any script and any number of sessions no access leaves the loop arrays unless a string was buffered early |
| LoginLimits.KeepsPlaceIff | kppp/connect.cpp:1125-1136 | at LoopStart, LoopEnd, Hangup and Answer the script keeps its place iff the awaited string is not buffered already |
| LoginLimits.BufferedAtLoopStart | kppp/connect.cpp:817-829 | in the first session of a new widget a checked script reports a LoopEnd without matching Start |
| LoginLimits.BufferedAtLoopEnd | kppp/connect.cpp:817-849 | in the first session of a new widget, with a checked script, strings that come in during a pause lead to an access outside the loop arrays |
| LoginLimits.TooDeepIsReached | kppp/connect.cpp:821-829 | the bound on nesting is exact: with any number of slots left behind, a session with one more level ends in the error, without any early match |
| LoginLimits.CancelledInsideLoops | kppp/connect.cpp:190-212 | a session cancelled inside k loops and then one of 10 - k nested loops, both scripts checked, end in the error |
| LoginLimits.KeepsStartIff | kppp/connect.cpp:190-212 | before script mode every run keeps the first entry and the loops iff no loop end was left pending |
| LoginLimits.PendingLoopEndSkipsEntry | kppp/connect.cpp:1024-1032 | after a session cancelled at a loop end, a character of the modem's first answer skips the first entry of the next script |
| LoginLimits.TimerEventAdvances | kppp/connect.cpp:541-854 | with no loop end pending a tick never moves the script back |
| LoginLimits.TimeoutResumes | kppp/connect.cpp:1093-1112 | after a timeout the widget dials again, and the script goes on with the entry it stood at instead of the first |
| LoginLimits.BusyWaits | kppp/connect.cpp:428-448 | a busy line: nothing is dialled before the pause is over |
| LoginLimits.GivenUp | kppp/connect.cpp:455-460 | once dialling is given up the script sends nothing, whatever happens |
| LoginLimits.NoModem | kppp/connect.cpp:255-277 | a session without a modem does nothing, whatever happens |
| LoginStream.GreedyIffOccurs | kppp/connect.cpp:1010-1014 | leftmost matching finds all strings iff they occur in order without overlap |
| LoginStream.QuiescentIsGreedy | kppp/connect.cpp:974-1036 | a quiescent run has completed what greedy matching of the whole stream completes, with the same left-over buffer, and ends iff the strings occur in order |
| LoginStream.InterleavingIndependent | kppp/connect.cpp:608-634 | two quiescent runs on the same characters agree, however ticks and pauses fall |
| LoginLoops.MatchesArePlaced | kppp/connect.cpp:993-1038 | in every run of a checked script until it times out, without an early match, the strings matched, loop strings included, lie in the stream one behind the other; each is what the entry waits for that the static nesting leads to, and what was sent is what lies on that way |
| LoginLoops.LoopEndDecides | kppp/connect.cpp:1010-1032 | at a pending LoopEnd a character makes the script jump back iff the loop's string occurs in what came in since the last match and the awaited one does not, and go on iff the awaited one does |
| LoginUser.ScannedPasswordSent | kppp/connect.cpp:993-1008 | a password scanned from a line and saved is what the script sends: the rest of the line behind the text scanned for, without white space around it |
| LoginUser.AnswerSent | kppp/connect.cpp:674-806 | with nothing stored to send the script asks, waits however long it takes, sends the answer and goes on |
| LoginUser.StoredOnce | kppp/connect.cpp:674-745 | a stored name or password is sent at once, and at the next such entry the user is asked |
| LoginUser.StoredAgain | kppp/connect.cpp:190-212 | every session sends the stored name or password afresh |
| LoginUser.AnswerForgotten | kppp/connect.cpp:1047-1090 | an answer given before cancelling is not sent in the next session |
| ConnectWidget.ConnectWidget.CheckBuffers | kppp/connect.cpp:993-1038 | the fields after the call are those of the machine, re-entry of timerEvent included |
| ConnectWidget.ConnectWidget.SetExpect | kppp/connect.cpp:1125-1136 | the fields after a command starts to wait, the immediate look into the buffer included, are those of the machine |
| ConnectWidget.ConnectWidget.TimerEvent | kppp/connect.cpp:541-870 | the fields after a tick are those of the machine, for every command and for the Answer subroutine |
| ConnectWidget.ConnectWidget.RunLoopStart | kppp/connect.cpp:808-832 | entering a loop leaves the arrays the machine has, a loop too deep stops the script; the source has no range test, and that none is needed is LoginSafety.LoopArraysInRange |
| ConnectWidget.ConnectWidget.RunLoopEnd | kppp/connect.cpp:834-854 | at a loop end the innermost loop becomes pending; without one the script stops with an error |
| ConnectWidget.ConnectWidget.RunSimple | kppp/connect.cpp:555-606 | the commands that do not wait for the modem |
| ConnectWidget.ConnectWidget.RunUserCommand | kppp/connect.cpp:674-806 | the commands that send a name or password or ask the user |
| ConnectWidget.ConnectWidget.ReadChar | kppp/connect.cpp:974-990 | the fields after a character |
| ConnectWidget.ConnectWidget.ScriptTimedOut | kppp/connect.cpp:1093-1112 | the fields after a timeout |
| ConnectWidget.ConnectWidget.Init | kppp/connect.cpp:190-212 | a new session keeps loopnest, loopend, the arrays and readbuffer |
| ConnectWidget.ConnectWidget.Handle | kppp/connect.cpp:281-540 | one call of the event loop is one step of the machine; the dial states only as their effect on the script |
| ConnectWidget.RunSession | kppp/connect.cpp:541-854 | a whole session of the imperative widget with a checked script reaches no error branch unless a string was buffered early |
| ResolvConf.ResolvFile.ReadLines | kppp/connect.cpp:1409-1422 | the character loop splits the file into lines and never writes behind the array |
| ResolvConf.ResolvFile.AddDomain | kppp/connect.cpp:1400-1446 | the file afterwards: kppp's domain line first, then every line read, commented out where the rule says so; nothing for an empty domain |
| ResolvConf.ResolvFile.AddDns | kppp/connect.cpp:1450-1467 | one marked nameserver line for each server is appended, then the domain pass runs on the result |
| ResolvConf.ResolvFile.AddPeerDns | kppp/connect.cpp:1469-1488 | at most 100 bytes of the peer's file are appended, the mark in front of every newline, then the domain pass runs |
| ResolvConf.ResolvFile.RemoveDns | kppp/connect.cpp:1491-1522 | marked lines are dropped, disabled ones lose 2 bytes in front and 25 behind, the others stay |
| ResolvUndo.DisableAddsNoTemp | kppp/connect.cpp:1430-1435 | commenting a line out neither creates nor hides the temporary mark, wherever the texts meet |
| ResolvUndo.AddLinesKeeps | kppp/connect.cpp:1428-1441 | the pass over the lines does not change what removal makes of them |
| ResolvUndo.RunKeeps | kppp/connect.cpp:1400-1488 | every sequence of operations leaves a file that can be turned back into the original |
| ResolvUndo.RemovalRestores | kppp/connect.cpp:1491-1522 | after any operations removedns gives the original back byte for byte |
| ResolvUndo.RoundTripIff | kppp/connect.cpp:1491-1522 | all sequences are undone iff the file is non-empty, newline-terminated and without kppp's marks |
| ResolvUndo.LongFileIsTruncated | kppp/kpppconfig.h:98 | a file with more lines than the array never comes back, whatever file removal starts from |
| ResolvUndo.EmptyFileGains | kppp/connect.cpp:1417-1422 | the empty file gains a line, whatever domain is set, unless the last character, which is tested uninitialised, is a newline |
| ResolvShape.DomainPassDisablesAll | kppp/connect.cpp:1424-1441 | with existing DNS disabled, kppp's domain line comes first and every other line that mentions domain or an unmarked nameserver is commented out, in every reachable file |
| ResolvShape.DomainPassIff | kppp/connect.cpp:1424-1441 | in every file, reachable or not, that holds iff no active entry carried the disabling mark before |
| ResolvShape.PassRule | kppp/connect.cpp:1428-1441 | for every file, both settings and every line: the line is wrapped between "# " and the mark iff it lacks the mark and mentions domain, or nameserver without the temporary mark with the option on; otherwise it is unchanged |
| ResolvView.ResolverSees | kppp/connect.cpp:1450-1467 | a resolver reads kppp's domain and no other, and kppp's servers in order, behind those old ones that stay in force if existing DNS is not disabled |
| ResolvView.ResolverSeesPeers | kppp/connect.cpp:1469-1488 | the same for the servers in the peer's file |
| ResolvShape.PeerRoundTripIff | kppp/connect.cpp:1469-1488 | a peer file is undone iff no domain is set, or its copied part is newline-terminated, or its rest carries the mark |
| XmlRpc.IntRoundTrip | dcoprss/xmlrpciface.cpp:188-190 | a 32-bit number survives printing and reading |
| RpcRoundTrip.MarshalParses | dcoprss/xmlrpciface.cpp:180-234 | the markup of a value parses to the value's tree whatever follows it |
| RpcRoundTrip.TreeReadsBack | dcoprss/xmlrpciface.cpp:236-283 | demarshal of the tree is the value, nested structures included |
| RpcRoundTrip.MemberParts | dcoprss/xmlrpciface.cpp:267-277 | the first descendants called name and value are the member's own |
| RpcRoundTrip.RoundTripIff | dcoprss/xmlrpciface.cpp:180-283 | marshal, parse and demarshal give any value back iff every part is of a supported type, no text is white space only, and no text has a character that marshal fails to escape |
| RpcRoundTrip.ReceivedIsPlain | dcoprss/xmlrpciface.cpp:236-283 | whatever markup was sent, no text received is blank or has a markup character |
| RpcRoundTrip.MarshalUnique | dcoprss/xmlrpciface.cpp:180-234 | marshal is injective and no result is a prefix of another |
| RpcRoundTrip.ArgumentsUnique | dcoprss/cache.cpp:50-62 | concatenated arguments decode uniquely |
| RpcForeign.ForeignRead | dcoprss/xmlrpciface.cpp:236-283 | markup as other servers write it, nested as it may be, is read as what it means: untyped text, i4, 1 and 0, tags in any case, members in any order, unknown types |
| RpcForeign.UntypedIsString | dcoprss/xmlrpciface.cpp:240-241 | a value without a type element is its text |
| RpcForeign.I4IsNumber | dcoprss/xmlrpciface.cpp:248-249 | an i4 element is a number |
| RpcForeign.DigitIsTruth | dcoprss/xmlrpciface.cpp:252-256 | a boolean 1 is true and 0 is false |
| RpcForeign.MembersRead | dcoprss/xmlrpciface.cpp:267-277 | each member of a structure is found under its name whatever the order; of two with one name the last |
| RpcForeign.MissingValue | dcoprss/xmlrpciface.cpp:240-241 | a member or parameter without a value is the empty text |
| RpcForeign.NoNumber | dcoprss/xmlrpciface.cpp:248-249 | text that is no number is read as 0 |
| RpcMessages.BuildCall | dcoprss/xmlrpciface.cpp:159-178 | the loop builds the markup of the call, without params for an empty list |
| RpcMessages.CallReadsBack | dcoprss/xmlrpciface.cpp:159-178 | a reader of the same kind understands method and arguments as they were meant |
| RpcMessages.CallUnique | dcoprss/xmlrpciface.cpp:159-178 | different calls never have the same markup |
| RpcMessages.ResponseReadsBack | dcoprss/xmlrpciface.cpp:122-139 | the data of a response arrive as they were sent |
| RpcMessages.FaultTextReads | dcoprss/xmlrpciface.cpp:141-157 | a fault is reported with the two members of its value, whatever value it carries |
| RpcMessages.FaultReadsBack | dcoprss/xmlrpciface.cpp:146-157 | a fault in the specified form is reported with its code and text |
| RpcForeign.ForeignResponse | dcoprss/xmlrpciface.cpp:122-139 | the data of a response of another server are what its parameters mean, in order |
| RpcForeign.ForeignFault | dcoprss/xmlrpciface.cpp:146-157 | a fault of another server is reported with its code and text |
| RpcForeign.Converted | dcoprss/xmlrpciface.cpp:146-157 | codes and texts of faults that come as another type are converted |
| RpcForeign.SuccessIff | dcoprss/xmlrpciface.cpp:95-125 | for any bytes: success is reported iff they are a document whose first element is params, and a failure has no data |
| RpcCache.KeyUnique | dcoprss/cache.cpp:50-62 | on several servers equal keys mean equal calls if no method has an underscore |
| RpcCache.KeyEqualIff | dcoprss/cache.cpp:50-62 | two calls share a key iff their arguments are equal and their names joined are |
| RpcCache.KeyUniqueOnServer | dcoprss/cache.cpp:50-62 | on one server equal keys mean equal calls, whatever the methods are called |
| RpcCache.UnderscoreCollides | dcoprss/cache.cpp:50-62 | two different calls, to two servers, with the same key |
| RpcCache.ServedIsGenuine | dcoprss/query.cpp:52-82 | with the one server of a service, what the cache serves came from a successful call of the same method with the same arguments, stored less than 3600 seconds before |
| RpcCache.ServedIsStoredRecently | dcoprss/query.cpp:52-82 | for any servers it came from a successful call with the same arguments and the same joined names, stored less than 3600 seconds before |
| RpcCache.ServedIsGenuineAnywhere | dcoprss/query.cpp:52-82 | for any servers it was the same call if no method has an underscore |
| RpcCache.FirstReplyIsFirst | dcoprss/query.cpp:71-82 | what the first successful reply for a key is |
| RpcCache.ServedIff | dcoprss/query.cpp:52-82 | a call is served iff the first successful reply for its key is less than 3600 seconds old, and then gets that result |
| RpcCache.EntryHasSource | dcoprss/query.cpp:71-82 | every entry was stored by a successful reply for its key |
| RpcCache.EntryStays | dcoprss/query.cpp:77-81 | an entry is never changed by later events |
| RpcCache.ExpiredForever | dcoprss/query.cpp:71-82 | an expired entry is never replaced, so a call with its key is never served again |
| RpcCache.Cache.GetCacheKey | dcoprss/cache.cpp:50-62 | the loop over the arguments builds the key |
| RpcCache.Cache.Touch | dcoprss/cache.cpp:109-115 | renews the time stamp of an existing entry only |
| RpcCache.QueryService.UpdateCache | dcoprss/query.cpp:71-82 | stores a result only where nothing is stored |
| RpcCache.QueryService.CachedCall | dcoprss/query.cpp:52-69 | serves a valid entry, otherwise nothing; the dictionary afterwards |
| SchedulerLimit.StartedCount | kget/kmainwidget.cpp:1359-1385 | of any first part of the list exactly the first free-slot-many waiting transfers are started |
| SchedulerLimit.QueueExhausted | kget/kmainwidget.cpp:1359-1385 | afterwards the limit is reached or nobody is waiting |
| SchedulerLimit.CheckQueueFills | kget/kmainwidget.cpp:1359-1385 | the number of active transfers grows by the free slots or the waiting transfers, whichever are fewer |
| SchedulerLimit.StepKeeps | kget/kmainwidget.cpp:1482-1546 | each event that the menus and a live job can produce keeps the limit, the mode of finished transfers, and every assertion of the transfers' slots |
| SchedulerLimit.LimitKept | kget/kmainwidget.cpp:1348-1406 | the same for every run, going offline and online included |
| SchedulerLimit.ConnectionWithinIff | kget/transfer.cpp:889-914 | a reported connection keeps the limit iff its job is active, the transfer is new, or there is room |
| SchedulerLimit.QueueWithinIff | kget/transfer.cpp:489-501 | queueing keeps the limit iff the transfer is not in its cache check or there is room |
| SchedulerLimit.LateConnection | kget/transfer.cpp:528-548 | for every limit a run from the start that exceeds it: a transfer delayed while connecting, the slots filled, its connection reported |
| SchedulerLimit.QueuedDuringCacheCheck | kget/transfer.cpp:489-501 | for every limit a run from the start that exceeds it: all slots taken, one more transfer queued during its cache check |
| SchedulerRetry.RetriedIff | kget/slave.cpp:253-287 | a failed download is tried again iff its error is to be retried and attempts are left; otherwise it is delayed |
| SchedulerRetry.RunTame | kget/transfer.cpp:372-395 | while nobody interferes the retry counter agrees with the attempts made, and waiting transfers have attempts left |
| SchedulerRetry.AttemptsBounded | kget/transfer.cpp:992-1000 | no transfer is given more than max(1, reconnectRetries) download commands |
| SchedulerRetry.BoundIsReached | kget/transfer.cpp:372-395 | the bound is reached |
| SchedulerStarts.ClockStartsDue | kget/kmainwidget.cpp:1435-1456 | a tick leaves a scheduled transfer alone before its start time and none scheduled from then on; what is due starts unless kget is offline or the limit is reached |
| SchedulerStarts.ParkedStays | kget/kmainwidget.cpp:1359-1406 | in every run a delayed or finished transfer, or one scheduled for later, stays as it is and is given no command until something happens about it, whatever happens to the others |
| SchedulerStarts.RetryWaits | kget/transfer.cpp:848-858 | after a failed login the next RETR comes no sooner than reconnectTime minutes later, and from then on the transfer is queued |
| SchedulerStarts.ScheduledByUser | kget/transfer.cpp:504-525 | scheduling for a time that has passed means a minute from now, and nothing starts before |
| SchedulerStarts.AddedTransfer | kget/kmainwidget.cpp:1359-1406 | a new transfer takes a free slot that nobody waits for; else the cache is asked for a page, and anything else is queued or delayed as set |
| SchedulerStarts.OfflineStops | kget/kmainwidget.cpp:870-890 | going offline kills the job of every active transfer and queues it |
| SchedulerStarts.OfflineStartsNothing | kget/kmainwidget.cpp:1359-1385 | while offline no event starts a download |
| SchedulerStarts.SlotsFilled | kget/kmainwidget.cpp:1482-1546 | behind each event that looks through the queue no slot is free that somebody waits for |
| SchedulerStarts.SlotLeftFree | kget/kmainwidget.cpp:1540-1544 | a failed login that will be retried is not such an event: nothing else changes, and the slots are used up only if they are anyway |
| SchedulerStarts.FinishedStays | kget/transfer.cpp:558-573 | a finished transfer that stays on the list is left alone for good |
| SchedulerStarts.CacheCheckEnds | kget/transfer.cpp:889-908 | the cache check ends with the transfer queued or delayed as set, its job killed if it was connected |
| SchedulerStarts.CheckedOffline | kget/transfer.cpp:889-897 | a connection of a cache check while offline changes nothing |
| KGetWidget.Transfer.SlotResume | kget/transfer.cpp:372-395 | called on a stopped transfer (the assertion is the precondition): trying, queued, one more attempt, one more RETR given to the slave |
| KGetWidget.Transfer.SlotExecConnected | kget/transfer.cpp:889-914 | running; during the cache check instead queued or delayed as configured, or unchanged when offline |
| KGetWidget.Transfer.SlotJobFailed | kget/slave.cpp:253-287 | rescheduled, queued, delayed or taken out of the cache check, by the kind of error, the settings and the retries left |
| KGetWidget.KMainWidget.ResumeWaiting | kget/kmainwidget.cpp:1361-1385 | the loop that stops at the limit starts the transfers the specification names |
| KGetWidget.LoopStartsQueued | kget/kmainwidget.cpp:1370-1385 | leaving the loop early starts the same transfers as giving the free slots away in list order |
| KGetWidget.KMainWidget.CheckQueue | kget/kmainwidget.cpp:1348-1406 | the list afterwards, offline and online |
| KGetWidget.KMainWidget.SlotTransferTimeout | kget/kmainwidget.cpp:1435-1456 | due transfers are queued, and checkQueue runs iff there were any |
| KGetWidget.KMainWidget.StopEach | kget/kmainwidget.cpp:870-890 | exactly the active transfers are stopped |
| KGetWidget.KMainWidget.SlotToggleOfflineMode | kget/kmainwidget.cpp:1754-1780 | going offline stops the active transfers; checkQueue runs either way |
| KGetWidget.KMainWidget.SlotCheckConnection | kget/kmainwidget.cpp:2232-2254 | a lost connection stops the active transfers, a new one runs checkQueue, no change does nothing |
| KGetWidget.KMainWidget.SlotStatusChanged | kget/kmainwidget.cpp:1482-1546 | the main window's reaction to each operation, deletion included |
| KGetWidget.KMainWidget.CustomEvent | kget/kmainwidget.cpp:2354-2429 | a message of a slave is one step of the machine |
| KGetWidget.RunKGet | kget/kmainwidget.cpp:1348-1546 | a session from the start ends within the limit and fails no assertion of the transfers' slots on the way; the slaves' assertion is the subject of SlaveClash |
| SlaveQueue.QueueIsSafe | kget/slave.cpp:56-213 | in every interleaving: nPendingCommand is the stack size when the mutex is free, mutual exclusion, nothing pushed is lost or doubled, and the worker is off only without a copy job |
| SlaveQueue.SleepsOnWorkIff | kget/slave.cpp:106-107 | the worker sleeps on a command iff the last wake-up came between its test and its wait |
| SlaveQueue.NeverFetchesNothing | kget/slave.cpp:202-213 | without spurious wake-ups fetch_cmd always finds a command |
| SlaveQueue.PopKeepsOrderIff | kget/slave.cpp:202-213 | taking a command keeps the order iff all commands that wait are the same |
| SlaveQueue.OthersKeepOrder | kget/slave.cpp:56-70 | every other step of either thread keeps the order |
| SlaveQueue.InOrderIff | kget/slave.cpp:56-213 | in every interleaving commands are carried out in the order given, at every point, iff none is taken while a different one waits |
| SlaveQueue.OpAlone | kget/slave.cpp:56-70 | an undisturbed Op pushes one command and starts or wakes the worker |
| SlaveQueue.FetchAlone | kget/slave.cpp:202-213 | an undisturbed fetch takes the command pushed last |
| SlaveQueue.KillOvertakes | kget/slave.cpp:202-213 | a run in which two commands given at once are carried out in the reverse order, and one is left behind |
| SlaveQueue.WakeUpMissed | kget/slave.cpp:106-107 | a run in which the worker sleeps on a command |
| SlaveClash.FailsIff | kget/slave.cpp:108-196 | a step makes an assertion of the slave fail iff the worker carries out RETR or RETR_CACHE while it holds a copy job, or ABORT |
| SlaveClash.ClashesIff | kget/slave.cpp:98-213 | of the interleavings in which a list of commands is given without waiting, one fails iff ABORT is in the list, or RETR or RETR_CACHE together with another command that starts a job |
| SlaveClash.WaitingIsSafe | kget/slave.cpp:56-213 | if each command is given only when the one before has been carried out, and RETR and RETR_CACHE only without a copy job, every interleaving fails no assertion and keeps the order |
| SlaveClash.DelayedThenQueued | kget/transfer.cpp:528-548 | a session the menus allow, for every limit, that gives RETR twice without waiting: a connecting transfer is delayed, of which the slave is not told, and queued again; an interleaving fails |
| SlaveClash.OfflineAndBack | kget/kmainwidget.cpp:1754-1780 | likewise for going offline and online again: RETR, KILL, RETR, and an interleaving fails |
| SlaveReplies.RepliesInOrder | kget/slave.cpp:108-196 | in every interleaving the messages posted are the answers to the commands carried out, one each where there is one, in order |
| SlaveReplies.WorkerEndsIff | kget/slave.cpp:144-162 | the worker ends behind KILL and REMOVE, without a job, and goes on behind any other command |
| SlaveReplies.RequestGiven | kget/transfer.cpp:504-548 | pausing, delaying, scheduling or removing a running transfer gives its slave that one command and leaves it running |
| SlaveReplies.DelayTakesEffect | kget/transfer.cpp:937-949 | the slave's answer to PAUSE and DELAY leads to a delayed transfer that stays so |
| SlaveReplies.ScheduleTakesEffect | kget/transfer.cpp:951-963 | its answer to SCHEDULE leads to a scheduled one that waits for its time |
| SlaveReplies.RemoveTakesEffect | kget/transfer.cpp:872-887 | its answer to REMOVE takes the transfer off the list |
| SlaveQueue.SlaveThread.Op | kget/slave.cpp:56-70 | the command is on top of the stack and counted |
| SlaveQueue.SlaveThread.FetchCmd | kget/slave.cpp:202-213 | NOOP and no change on an empty stack, else the last command is taken off and the count lowered |
| SlaveQueue.SlaveThread.Perform | kget/slave.cpp:108-196 | each case of the switch; the worker goes on iff the command is none of KILL, REMOVE, NOOP |
| MatchTree.MatchViewItem.SetOpen | kdict/matchview.cpp:67-96 | opening builds the children once; what the group stands for never changes |
| MatchTree.MatchView.NewList | kdict/matchview.cpp:322-372 | the tree stands for the matches from the first one on whose database name differs from the null string that `lastDb` starts as, in the groups of GroupsRight; reports where the source would follow a null pointer |
| MatchTree.UnsafeIff | kdict/matchview.cpp:364-366 | that happens iff there are matches, fewer than 200, and the names of all of them compare equal to a null string |
| MatchTree.KeptIsAllIff | kdict/matchview.cpp:345-362 | no match is dropped iff the name of the first one differs from a null string |
| MatchTree.GroupsRight | kdict/matchview.cpp:345-362 | each group holds the matches of one database, the next group is of another, and together they are the kept matches in order |
| MatchTree.DbIsFirstWord | kdict/matchview.cpp:345-349 | the database of a match is what stands before its first blank |
| MatchTree.MatchView.GetAll | kdict/matchview.cpp:279-305 | asks for the whole flat list, up to the limit |
| MatchTree.MatchView.DoGet | kdict/matchview.cpp:308-316 | asks for the first maxDefinitions commands, or for nothing if there are none |
| MatchTree.GetAllAsksFirst | kdict/matchview.cpp:279-316 | Get All asks for the definitions of the first maxDefinitions matches, in order |
| MatchTree.RunMatchView | kdict/matchview.cpp:279-372 | in every session without that case each Get All asks for the kept matches of the last list, whatever was opened or closed |
| BrowseHistory.StepSuffix | kdict/queryview.cpp:247-268 | each move and result keeps the bounded list a suffix of the unbounded one with the same current entry |
| BrowseHistory.SameEntry | kdict/queryview.cpp:334-351 | the same for every run; right after a result the list is within the limit |
| BrowseHistory.RefusedIff | kdict/queryview.cpp:170-178 | forward moves are refused as without a limit, backward moves in addition where the entry was trimmed |
| BrowseHistory.NoWrapIff | kdict/queryview.cpp:347-350 | the position stays in range for every history iff the limit is not zero |
| BrowseMoves.ForwardShowsNext | kdict/queryview.cpp:259-268 | forward shows the first page ahead, the one left is now the last behind, and how far it was scrolled is kept |
| BrowseMoves.BackShowsPrevious | kdict/queryview.cpp:247-256 | back shows the last page behind, and the one left is now the first ahead |
| BrowseMoves.ThereAndBack | kdict/queryview.cpp:247-268 | back and forward, or forward and back, lead to the same page, scrolled as when it was left |
| BrowseMoves.MenuForward | kdict/queryview.cpp:552-562 | the menu moves as far ahead as its index many single moves, iff there are so many pages |
| BrowseMoves.MenuBack | kdict/queryview.cpp:539-549 | the same for going back |
| BrowseMoves.ResultShown | kdict/queryview.cpp:334-351 | a result drops the pages ahead and is shown as the last of the newest `max` pages |
| BrowseHistory.QueryView.TrimToLimit | kdict/queryview.cpp:347-350 | the trimming loop, on unsigned numbers that never wrap |
| BrowseHistory.QueryView.ResultArrives | kdict/queryview.cpp:334-351 | list and position after a result |
| BrowseHistory.QueryView.BrowseBack | kdict/queryview.cpp:247-256 | goes one entry back and keeps the scroll position of the one left, unless it is the first |
| BrowseHistory.QueryView.BrowseForward | kdict/queryview.cpp:259-268 | goes one entry ahead and keeps the scroll position of the one left, unless it is the last |
| BrowseHistory.QueryView.BrowseBackBy | kdict/queryview.cpp:539-549 | goes as many entries back as chosen in the menu, if there are so many |
| BrowseHistory.QueryView.BrowseForwardBy | kdict/queryview.cpp:552-562 | goes as many entries ahead as chosen in the menu, if there are so many |
| ModemDb.TerminatesIff | kppp/modemdb.cpp:166-201 | loading ends for every group iff the parent links have no cycle and Common has no parent |
| ModemDb.AttributeIsNearest | kppp/modemdb.cpp:180-186 | each attribute but Name and Parent comes from the nearest group on the chain that defines it |
| ModemDb.NearestIsFirst | kppp/modemdb.cpp:180-186 | what nearest means: defined there and in no group before |
| ModemDb.NameRule | kppp/modemdb.cpp:188-191 | the name is the last key on the chain with an exclamation mark, else the own Name entry, else the key |
| ModemDb.NoParentLeft | kppp/modemdb.cpp:175-177 | the result has no Parent entry |
| ModemDb.ModemDatabase.LoadModem | kppp/modemdb.cpp:166-201 | the recursion on the dictionary, in place |
| ModemDb.ModemDatabase.Modem | kppp/modemdb.cpp:204-213 | a modem loaded from scratch has exactly the inherited attributes and name |

## Left out

- The dial states of kppp (modem initialisation, dialling, waiting for the carrier) are events that may wait for a string, pause, give up or reach script mode.
- Terminal-window login, the handover to pppd, debug output, timers and dialogs of the connect widget.
- ConnectWidget.ConnectWidget.TimerEvent: after LoopStart and LoopEnd the source goes on to test for the Answer subroutine in the same call, the model at the next tick; this differs only after an early match.
- ConnectWidget.ConnectWidget.RunLoopStart: `scriptCommand` and `scriptArgument` are fields that a re-entered call overwrites, so after an early match the source stores the other command's argument and runs the LoopEnd block too if that command was LoopEnd; the model keeps the command's own.
- ConnectWidget.ConnectWidget.RunLoopEnd: what follows in the same call after an early match, likewise.
- ConnectWidget.ConnectWidget.Handle: the dial states appear only as events that may wait, pause, give up or reach script mode.
- LoginSafety.SessionSound: needs `loopend` to be false at the start, which `init` does not see to; LoginLimits.KeepsStartIff shows that it is needed.
- LoginLoops.MatchesArePlaced: what was sent is pinned for scripts that do not ask the user; what those send is LoginUser.AnswerSent and LoginUser.StoredOnce.
- LoginStream.InterleavingIndependent: scripts without loops; a jump back drops whatever has come in by then, so with loops what is left can depend on the timing.
- LoginUser.AnswerSent: the dialog of a prompt is its text, and handing an entered password to the main window is left out.
- Empty responses configured for Hangup, Ring or Answer: the source would re-enter itself without end.
- The initial content of the loop arrays is given, as is what an earlier session left in them.
- ResolvConf.ResolvFile.RemoveDns: for a disabled line shorter than 27 bytes the length passed to `write` wraps around; the write is taken to fail and leave nothing.
- ResolvShape.DomainPassDisablesAll: earlier domains, servers and peer lines do not hold the text that marks disabled entries themselves; ResolvShape.DomainPassIff is the exact condition, for all files.
- resolv.conf with characters of more than one byte or with NUL, failing opens and writes, and the host name that removedns also restores.
- XML parsing by QDom is a small reference parser for elements without attributes and text without entities.
- XmlRpc.IntRoundTrip: doubles, byte arrays and dates are not modelled, because their text formats belong to Qt.
- RpcForeign.ForeignRead: `double`, `base64` and `datetime` elements, markup with attributes or entities, and text that is white space only.
- RpcRoundTrip.RoundTripIff: the reference parser refuses every `&`, where QDom would decode an entity; the text read differs from the one sent either way.
- RpcRoundTrip.MarshalUnique: values whose texts need escaping are excluded, as the source sends them unescaped.
- The HTTP transfer, whose body length counts characters instead of bytes, and saving and loading the cache file.
- LoginSafety.CheckedScriptIsSafe: says nothing once an awaited string was buffered early; that the excluded cases do lose their place is LoginLimits.KeepsPlaceIff.
- ResolvUndo.RemovalRestores: domains and servers are free of newlines, peer files newline-terminated in their first 100 bytes, and the file never has more than 128 lines; ResolvShape.PeerRoundTripIff and ResolvUndo.LongFileIsTruncated show what happens otherwise.
- RpcCache.ServedIsGenuine: runs start with an empty cache, and names have no markup character.
- SchedulerLimit.LimitKept: assumes what the menus offer (a transfer's own mode is not offered again, pausing needs an active transfer, queueing needs one that is neither finished nor in its cache check) and that only active jobs report a connection; SchedulerLimit.ConnectionWithinIff and SchedulerLimit.QueueWithinIff say what happens otherwise.
- SchedulerRetry.AttemptsBounded: runs without user actions and without changes of the connection.
- kget: manual resume and restart, changing the limit during a run, disconnecting and shutting down when done, dialogs, and saving the transfer list.
- KGetWidget.KMainWidget.CustomEvent: a slave's message is delivered to its transfer in the same step in which it is posted.
- KGetWidget.Transfer.SlotJobFailed: the slave's decision and the transfer's slot are one step for the same reason.
- The copy job of a slave is a flag; what it transfers belongs to KIO.
- kdict: item labels, Get Selected, and scrolling to the saved position.
- MatchTree.MatchView.NewList: which database names equal a null string is a parameter of the model.
- ModemDb.ModemDatabase.LoadModem: the key reached through a Parent entry is a string the dictionary frees while it is still in use; the model passes its value on.
- modemdb: vendor and model lists.
- Cost accounting, volume display, news ticker geometry and settings dialogs: only easy members.
