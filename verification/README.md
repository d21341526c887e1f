# Leader election, its timers, its wire format and its buffers

A model of a Raft leader-election library in C++, with proofs about it. `dafny verify dfyconfig.toml`
checks everything.

The library implements the election half of the Raft paper (Ongaro and Ousterhout, section 5.2 and
Figure 2) with one departure: winning an election raises the term once more (`include/fsm.hpp:306`).
A leader of term t was therefore voted in by the votes of term t - 1, and it may go on to grant a
vote in term t, to somebody who then leads t + 1, without stepping down. The textbook invariant does
not fit; the one used here is in `ServerInvariant.dfy` and `ClusterInvariant.dfy`.

## Files

- `RaftTypes`, `RaftStep`: the vocabulary and the effect of one event on one server, as values.
- `RaftFsm`: the server as a class whose methods update its fields and its scheduler, each proved to do
  what `RaftStep` says.
- `RaftCluster`: servers and a growing set of sent messages. Any sent message may be delivered at any
  later time, any number of times or never.
- `ServerInvariant`, `ClusterInvariant`: what every step keeps, with the histories of votes granted
  and callbacks made.
- `ServerRules`: what each event and call does to a server field by field, and what it sends.
- `Elections`, `Leaders`, `LeaderRuns`, `Progress`, `Lifecycle`: the theorems about runs.
- `Scheduler`: tasks, handles and the priority queue as objects, and a pass over the due tasks.
- `ServerTimers`: the server's two timers as handles of such tasks, and the timer values they stand for.
- `Words`, `Shifts`, `Protocol`, `Framing`: byte order, events and length-prefixed streams.
- `Buffers`, `BuffersIterator`, `BufferCopy`, `StreamBuffer`: the vendored buffer algorithms against
  flat byte sequences.

## Main results

1. *Election safety.* Over any run, all become-leader callbacks of one term are one callback at one
   server, and a majority of the term before voted for that server.
2. *How many leaders at once.* At most n - n/2 + 1 of n servers lead in any reachable state. More
   exactly, for n >= 2 the sets of servers that can lead together are the sets of at most that many
   servers whose become-leader callback does not park.
3. *An election is always possible.* In any reachable state, a server that does not lead, whose
   election timer runs and that belongs to a started, unblocked majority can be made leader by
   timeouts and deliveries alone.
4. *Votes, heartbeats, timers, callbacks and parking* over all runs.
5. *Timers.* One live task per handle through any resets, a call limit that holds across
   replacements, a pass over the due tasks that ends, calls each of them once and in order, and no
   callback at all while a server is parked.
6. *Wire.* A number, an event and a stream of messages come back unchanged under an exact condition.
7. *Buffers.* Iterator, scatter-gather copy and stream buffer agree with a flat sequence of bytes.

## Where the code and its documentation differ

- `README.md:62` says that three leaders at the same time are impossible and two are the most.
  `LeaderRuns.AtMostTwoLeaders` proves this true exactly where there are at most two servers, or at
  most two whose become-leader callback does not park. Three servers of which none parks have a run
  to three leaders (`LeaderRuns.LeaderBoundReached` with n = 3).
- `include/protocol.hpp:27-28` says that bytes go out in network order. A little-endian host sends the
  least significant byte first (`Words.NetworkOrder`), so hosts of different byte order do not understand each
  other: every event is rejected (`Protocol.EventRoundTrip`), and its frame before that, unless the
  receive buffer has 18 * 2^24 bytes or more (`Framing.NothingCrosses`).
- Where `char` is signed, reading a number back loses it from 2^15 on (`Protocol.FirstLostTerm`);
  `Words.WordRoundTrip` has the exact condition.
- `include/node_common.hpp:23-24` says that a message has lost its data after `encode`. Moving single
  characters copies them, so it keeps them, and `Framing.Message.Encode` changes nothing.
- A `prepare` that throws may already have moved the readable bytes
  (`include/external/asio/basic_streambuf.hpp:322-335`). `StreamBuffer.StreamBuffer.Prepare` says which
  bytes are then read, and when they are the old ones; whatever the bytes, they are safe exactly if
  nothing, or at least half of them, was consumed since they last started at the front
  (`StreamBuffer.FailedReserveSafe`); `StreamBuffer.FailedPrepareLoses` runs into the loss.
- `commit` and `consume` promise to clamp any length (`basic_streambuf.hpp:230-231`, `:244-245`), but pass
  it on as an `int`: they keep their promise exactly for clamped lengths below 2^31.
- Calling `start` on a leader arms its election timer beside the heartbeat (`include/fsm.hpp:181-183`).
  `Lifecycle.TimerStep` proves that no other step does, `Lifecycle.ElectionTimerHistory` that this
  lasts exactly until that reign ends, and `LeaderRuns.BothTimersRun` who can get there.

## Assumptions

- A handled event, a firing of the heartbeat task, and each of the calls `start`, `stay_follower`,
  `block` and `unblock` is one atomic step.
- All servers have the same peer list without repetitions, keep their state, and count terms without
  wrap-around. Messages are not forged.
- An election timer that runs may fire at any moment. That one that is paused does not fire is proved
  of the turns and passes of the scheduler (`Scheduler.PausedMakesNoCall`, `ServerTimers.ParkedIsQuiet`).
- What a firing does to the server is a step of its own, after the pass that made it.
- The become-leader callback either leaves the server alone or calls `stay_follower`, the lock usage of
  `README.md:42-58`; `parks` says which. The sign-off callback leaves the server alone, and an unset
  callback is one that does nothing.
- Converting a length to `int` keeps its low 32 bits.
- The clock does not run backwards, intervals are positive, and a task's callback may pause, resume or
  cancel tasks but leaves the queue alone, as both callbacks of the server do; these cancel none.
- An interval supplier and a callable, always scheduled together, are one `Job`; `Environment.made` is
  the history of the callables called.
- Buffers lie in one memory, and copying needs a target that overlaps neither itself nor the source.

## Model

| member | source | states |
|---|---|---|
| RaftFsm.Voter.VoteForLeader | include/fsm.hpp:47-61 | accepts a newer term, or the recorded term again from the recorded candidate, and the record moves only to a newer term |
| RaftFsm.RaftFsm.Start | include/fsm.hpp:181-184 | creates or resumes the election timer, lets the actor hand over events, and changes nothing else |
| RaftFsm.RaftFsm.Stop | include/fsm.hpp:186-188 | the actor hands over no more events; the state stays as it is |
| RaftFsm.RaftFsm.Block | include/fsm.hpp:190-193 | parks the server and shuts out events |
| RaftFsm.RaftFsm.Unblock | include/fsm.hpp:195-197 | lets events in again and leaves the server parked |
| RaftFsm.RaftFsm.StayFollower | include/fsm.hpp:199-202 | steps down, signing off a leader, and pauses both timers |
| RaftFsm.RaftFsm.Handle | include/fsm.hpp:223-256 | new state and messages sent are those of the pure step, for every event, role and blocked flag |
| RaftFsm.RaftFsm.Fire | include/fsm.hpp:378-404 | the election task hands a timeout to the handler, the heartbeat task sends |
| ServerRules.RoleAndTerm | include/fsm.hpp:231-255 | role and term after every event, and nothing stale moves either |
| ServerRules.Votes | include/fsm.hpp:327-330 | the votes held after every event |
| ServerRules.Record | include/fsm.hpp:47-61 | the voter record after every event: it moves to newer terms only, by a campaign or a request that is not stale |
| ServerRules.Timers | include/fsm.hpp:315-348 | which timers run after every event |
| ServerRules.Callbacks | include/fsm.hpp:270-313 | the callbacks made by every event, in order |
| ServerRules.BlockedDropsAll | include/fsm.hpp:190-197 | after `block` every event changes and sends nothing; `unblock` lifts just that |
| ServerRules.PublicCalls | include/fsm.hpp:181-202 | what the public calls change, and that they leave term, votes cast and the rest alone |
| ServerRules.CampaignAsksAll | include/fsm.hpp:359-364 | a timeout asks every other peer exactly once for its vote in the new term |
| ServerRules.BeatReachesAll | include/fsm.hpp:378-383 | a heartbeat changes nothing and reaches every other peer exactly once, with the current term |
| ServerRules.HeartbeatsGoOut | include/fsm.hpp:374-387 | in any reachable state a leader's heartbeat can fire, moves no server, and leaves every other started server a heartbeat of the leader's term to handle |
| RaftFsm.RaftFsm.ConvertToFollower | include/fsm.hpp:270-285 | a candidate drops its votes, a leader its heartbeat and signs off as a follower, a follower stays untouched |
| RaftFsm.RaftFsm.ConvertToCandidate | include/fsm.hpp:287-301 | a whole campaign from any role: new term, self-vote, a request to each peer; from a leader also the heartbeat stopped and a sign-off made as candidate |
| RaftFsm.RaftFsm.ConvertToLeader | include/fsm.hpp:303-313 | one more term, heartbeat for election timer, callback, and whatever parking inside the callback does |
| RaftFsm.RaftFsm.ClearPrevState | include/fsm.hpp:340-348 | undoes just what the old role had running |
| RaftFsm.RaftFsm.VoteSelf | include/fsm.hpp:350-357 | the own vote goes through the voter record and counts only if accepted |
| RaftFsm.RaftFsm.SendToPeers | include/fsm.hpp:359-364 | one message to each peer but the server itself, in peer order |
| RaftFsm.RaftFsm.GetPeers | include/raft_actor.hpp:62-70 | the loop yields the peers other than the server |
| RaftTypes.BroadcastReaches | include/raft_actor.hpp:62-70 | a broadcast reaches every peer except the sender and nobody else |
| RaftTypes.OthersDistinct | include/raft_actor.hpp:62-70 | peers listed once are sent to once |
| RaftFsm.RaftFsm.StartNewElection | include/fsm.hpp:366-372 | a candidate's timeout has the same effect as a fresh campaign, old votes dropped |
| RaftFsm.RaftFsm.SendHeartbeats | include/fsm.hpp:378-383 | one heartbeat of the current term to each peer |
| RaftFsm.RaftFsm.HandleRequestVote | include/fsm.hpp:416-428 | a stale request is refused; otherwise a follower restarts its countdown and the reply carries the record's verdict |
| RaftFsm.RaftFsm.HandleRequestVoteResponse | include/fsm.hpp:430-443 | only a candidate counts a granted vote of its term, and it leads once the distinct votes are a majority |
| RaftFsm.RaftFsm.HandleAppendEntries | include/fsm.hpp:445-461 | a heartbeat not stale restarts the countdown of all but a leader, unseats a candidate, and is always acknowledged |
| RaftFsm.RaftFsm.HandleElectionTimeout | include/fsm.hpp:467-474 | followers and candidates campaign, a leader ignores it |
| ServerInvariant.HandleKeeps | include/fsm.hpp:223-256 | handling any event keeps the voter record, votes, callbacks and timers of a server consistent |
| ServerInvariant.PublicCallsKeep | include/fsm.hpp:181-202 | so do the public calls |
| ClusterInvariant.HandleFacts | include/fsm.hpp:223-256 | a step only extends the histories, says on the wire only what it did, and earns votes and reigns from the event and the earlier votes |
| ClusterInvariant.StepKeepsInv | include/fsm.hpp:223-256 | every step of the cluster keeps all messages, votes and reigns backed by granted votes |
| ClusterInvariant.ReachableInv | include/fsm.hpp:430-443 | the invariant holds after any run |
| Elections.QuorumsMeet | include/raft_actor.hpp:82-86 | any two sets of `majority` servers share one |
| Elections.ElectionSafety | include/fsm.hpp:303-313 | one become-leader callback per term over any run, backed by a majority of the votes of the term before |
| Elections.VoteHistory | include/fsm.hpp:47-61 | one candidate per server and term, self-votes included; collected votes are real; the own next vote is never refused |
| Elections.HeartbeatProvenance | include/fsm.hpp:445-455 | every heartbeat of term t is from the one leader of t, and no leader ever meets one of its own term |
| Elections.DeliveryIsNeverRefused | include/raft_actor.hpp:55-59 | what reaches a started server always has a sender it knows |
| Elections.HistoriesGrow | include/fsm.hpp:231-234 | terms never fall; votes and callbacks are never taken back |
| Leaders.LeadersAmongVoters | include/fsm.hpp:416-428 | whoever voted for the newest leader and still leads is that leader or leads the term of that election |
| Leaders.LeaderCount | include/fsm.hpp:303-307 | at most n - n/2 + 1 leaders at once, all of different terms |
| LeaderRuns.ParkersNeverLead | README.md:42-52 | a server whose callback parks leads in no reachable state |
| LeaderRuns.LeaderSets | include/fsm.hpp:303-313 | a set of servers is the set of leaders of some reachable state if and only if it has at most n - n/2 + 1 members, none parks, and it is empty where n < 2 |
| LeaderRuns.LeaderBoundReached | include/fsm.hpp:303-307 | for every n >= 2 a run ends with as many leaders as there are servers that do not park, up to n - n/2 + 1 |
| LeaderRuns.AtMostTwoLeaders | README.md:61-62 | "at most two leaders" holds of all reachable states if and only if n <= 2 or at most two servers do not park |
| LeaderRuns.LeadersNeedTwoServers | include/fsm.hpp:430-438 | some run elects a leader if and only if n >= 2, the quorum being counted on responses only |
| Progress.RaiseTerm | include/fsm.hpp:366-372 | timeouts alone take a server to any higher term as a candidate that asked everyone |
| Progress.CollectVotes | include/fsm.hpp:416-443 | the missing number of ready voters, asked one after the other, elects the candidate and moves nobody else |
| Progress.ElectionAlwaysPossible | include/fsm.hpp:287-313 | from any reachable state a server that does not lead, whose election timer runs and that belongs to a started, unblocked majority wins by some timeouts and deliveries |
| Lifecycle.ParkedStep | include/fsm.hpp:213-220 | a step leaves a parked server parked if and only if it is not its own `start` |
| Lifecycle.ParkingIsPermanent | include/fsm.hpp:190-202 | after `stay_follower` or `block`, any run without a `start` of the server leaves it a silent follower, and `start` ends that |
| Lifecycle.OneReignPerStart | README.md:42-58 | a server whose callback parks acquires and releases the lock at most once per `start` |
| Lifecycle.RoleAgrees | include/fsm.hpp:315-348 | heartbeat exactly when leader, votes exactly when candidate, candidates always have a running timer |
| Lifecycle.TimerStep | include/fsm.hpp:395-414 | every step keeps election timer, role, parking and arming in agreement, and only `start` on a leader arms |
| Lifecycle.ElectionTimerHistory | include/fsm.hpp:395-414 | after any run the timer runs exactly when the server neither leads nor is parked, if and only if it does not lead a reign in which it was started again |
| LeaderRuns.BothTimersRun | include/fsm.hpp:181-184 | some reachable state has the server leading with both timers running if and only if n >= 2 and its callback does not park |
| Lifecycle.CountdownRestarts | include/fsm.hpp:416-454 | the countdown restarts exactly on a request or heartbeat that is not stale and meets or makes a follower, or unseats a candidate |
| Lifecycle.Replies | include/fsm.hpp:416-457 | one reply to each request and heartbeat, with the term afterwards; granted if and only if the record then names that candidate in that term |
| Lifecycle.CallbacksAlternate | include/fsm.hpp:270-313 | become-leader and sign-off alternate, differ by one exactly while leading, and no sign-off comes from `convert_to_candidate` |
| Scheduler.Task.Call | include/scheduler.hpp:34-47 | runs unless cancelled or paused, counts a positive limit down, and the last call cancels the task; exactly its own callable is called, once; a skipped call calls nothing and changes no flag; where callbacks cancel nothing, only a last call cancels |
| Scheduler.Task.Renew | include/scheduler.hpp:49-52 | the new due time is the clock plus the interval just supplied |
| Scheduler.ScheduledTask.Cancel | include/scheduler.hpp:90-93 | the current task is cancelled and the queue stays consistent |
| Scheduler.ScheduledTask.Pause | include/scheduler.hpp:96-99 | the current task is paused and the queue stays consistent |
| Scheduler.ScheduledTask.Resume | include/scheduler.hpp:102-105 | the current task is no longer paused and the queue stays consistent |
| Scheduler.ScheduledTask.Reset | include/scheduler.hpp:110-123 | a new queued task takes over callable, flags, remaining calls and calls made, due an interval from now; the old one is cancelled; as a timer, one restart more and the paused flag kept |
| Scheduler.Scheduler.RunAfter | include/scheduler.hpp:186-193 | queues a fresh task for the given callable, neither cancelled nor paused, due an interval from now |
| Scheduler.Scheduler.Schedule | include/scheduler.hpp:172-183 | a new handle owning a fresh queued task, beside all earlier handles |
| Scheduler.Scheduler.ReplacedValid | include/scheduler.hpp:176-181 | replacing the task of one handle keeps the queue consistent for all handles |
| Scheduler.Scheduler.OneLiveTask | include/scheduler.hpp:110-123 | an uncancelled handle has exactly one uncancelled queued task, its current one; a cancelled handle has none |
| Scheduler.Scheduler.OwnTasks | include/scheduler.hpp:172-183 | different handles have different tasks |
| Scheduler.Scheduler.CallLimit | include/scheduler.hpp:40-45 | a limited handle never exceeds its limit over all its replacements, and nothing of it is live afterwards |
| Scheduler.Scheduler.PopAndRun | include/scheduler.hpp:202-209 | one turn: popped, dropped if cancelled, otherwise called unless paused, renewed and queued again; keys move only outside the queue |
| Scheduler.Scheduler.ExecuteDueTasks | include/scheduler.hpp:195-211 | on a stopped scheduler nothing happens; otherwise ends with none due at the sampled time, each due task popped once, earliest first, the others untouched; a queue of cancelled and paused tasks gets no callback and stays so; the callables called are those of the tasks popped neither cancelled nor paused, in that order; where callbacks cancel nothing, tasks without a limit stay uncancelled |
| Scheduler.Scheduler.Stop | include/scheduler.hpp:165-167 | the flag that keeps any further pass from starting |
| Scheduler.PausedMakesNoCall | include/scheduler.hpp:34-47 | the turn of a paused or cancelled task makes no callback and changes no flag; a paused one stays queued |
| Scheduler.QuietTurn | include/scheduler.hpp:202-209 | a turn over a queue of cancelled and paused tasks makes no callback and leaves it so |
| Scheduler.TurnExtends | include/scheduler.hpp:201-210 | a turn that pops the earliest due task extends the pass and leaves fewer tasks due |
| Scheduler.PassComplete | include/scheduler.hpp:195-211 | the popped tasks are exactly those due at the start; live ones are kept, cancelled ones dropped uncalled, nothing is called twice |
| ServerTimers.ServerTimer.Start | include/fsm.hpp:395-408 | the first use schedules a task, later ones resume it: on timers, `Arm`; the task is the timer's own and has no limit of calls |
| ServerTimers.ServerTimer.Stop | include/fsm.hpp:410-414 | pauses a task that exists: on timers, `Pause` |
| ServerTimers.ServerTimer.Restart | include/fsm.hpp:421-423 | restarts the countdown and keeps the paused flag: on timers, `Reset` |
| ServerTimers.RunningTimerIsLive | include/fsm.hpp:374-408 | a running timer has exactly one live task: queued, not paused, with no limit of calls, for the timer's own callable |
| ServerTimers.TimerPair.ExecuteDue | include/scheduler.hpp:195-211 | a pass over a server's two timers leaves both in place, uncancelled and restarted as often as before; it makes no callback and changes neither timer if neither runs |
| ServerTimers.ParkedTimerIsQuiet | include/scheduler.hpp:110-123 | every live task of a timer that does not run is paused, however often it was restarted |
| ServerTimers.ServerClock.RestartElection | include/fsm.hpp:421-423 | restarting the election timer leaves the heartbeat alone, and the scheduler sound |
| ServerTimers.ServerClock.StartHeartbeat | include/fsm.hpp:374-387 | likewise for the heartbeat, created at the first use |
| ServerTimers.ParkedIsQuiet | include/fsm.hpp:213-220 | while neither timer of a server runs, every task its scheduler has queued is cancelled or paused |
| BuffersIterator.BuffersIterator.Begin | include/external/asio/buffers_iterator.hpp:167-184 | stands at flat index 0, past empty buffers |
| BuffersIterator.BuffersIterator.End | include/external/asio/buffers_iterator.hpp:187-203 | stands at the total length |
| BuffersIterator.BuffersIterator.Dereference | include/external/asio/buffers_iterator.hpp:341-345 | the byte of the concatenation at the flat index |
| BuffersIterator.BuffersIterator.Increment | include/external/asio/buffers_iterator.hpp:354-374 | one further in the concatenation, whatever empty buffers are skipped |
| BuffersIterator.BuffersIterator.Decrement | include/external/asio/buffers_iterator.hpp:377-404 | one back in the concatenation; the search for a buffer always succeeds |
| BuffersIterator.BuffersIterator.Advance | include/external/asio/buffers_iterator.hpp:407-485 | any signed step in range moves the flat index by just that much |
| BuffersIterator.BuffersIterator.Equal | include/external/asio/buffers_iterator.hpp:348-351 | comparing positions compares places |
| BuffersIterator.BuffersIterator.DistanceTo | include/external/asio/buffers_iterator.hpp:488-491 | the signed step that leads from one to the other, in range for `Advance` |
| BuffersIterator.PlaceIsUnique | include/external/asio/buffers_iterator.hpp:348-351 | two valid places with one flat index are the same place |
| BufferCopy.BufferCopy1 | include/external/asio/buffer.hpp:1916-1926 | copies as many bytes as both sides have and touches no other |
| BufferCopy.BufferCopy | include/external/asio/buffer.hpp:1992-2034 | returns the smaller total; target becomes that much source followed by its old rest; source and all other memory unchanged |
| BufferCopy.BufferCopyLimited | include/external/asio/buffer.hpp:2036-2082 | the same with the limit as a third bound, empty buffers included |
| BufferCopy.Gather | include/external/asio/buffer.hpp:1946-1967 | the same for one target |
| BufferCopy.Scatter | include/external/asio/buffer.hpp:1969-1990 | the same for one source |
| BufferCopy.CopiedFlat | include/external/asio/buffer.hpp:1992-2082 | a bytewise copy, read flat, is source prefix then old target remainder |
| Words.Hton | include/protocol.hpp:60-71 | the shift-and-mask loop reverses the bytes on a little-endian host and does nothing on a big-endian one |
| Words.Ntoa | include/protocol.hpp:80-86 | writes the highest byte first |
| Words.Aton | include/protocol.hpp:89-96 | reads them back, each signed byte of 0x80 or more turning all above it into 0xff |
| Shifts.ShiftRightDivides | include/protocol.hpp:80-86 | dropping k bytes is the number divided by 256^k |
| Shifts.ShiftLeftMultiplies | include/protocol.hpp:66-68 | moving up k bytes is the number times 256^k, cut to the width of the word |
| Shifts.LowByteMasks | include/protocol.hpp:66-68 | the mask is the number modulo 256 |
| Shifts.OrIsBitwise | include/protocol.hpp:66-68 | the bytewise or is the bitwise or of the numbers |
| Shifts.DigitOf | include/protocol.hpp:80-86 | byte j of a word is the number divided by 256^j, modulo 256 |
| Shifts.WidenExtends | include/protocol.hpp:93-95 | a signed character of 0x80 or more widens to itself less 256, modulo the width |
| Words.WordRoundTrip | include/protocol.hpp:60-96 | a word of any width comes back if and only if it survives the host's `char`: always if unsigned, otherwise only 0xff below (little-endian) or above (big-endian) a byte of 0x80 or more |
| Words.NetworkOrder | include/protocol.hpp:27-32 | a word goes out highest byte first if and only if the host is big-endian or the word is its own mirror image |
| Words.WordArrives | include/protocol.hpp:60-96 | between any two hosts a word arrives if and only if it survives the receiver and, for different byte orders, is its own mirror image |
| Words.SmallSurvives | include/protocol.hpp:88-96 | below 2^15 everything survives on a little-endian host |
| Protocol.EncodeMembers | include/protocol.hpp:167-177 | each number in turn, eight bytes each |
| Protocol.EncodeEvent | include/protocol.hpp:136-149 | type, id, term and, for a vote response, the flag |
| Protocol.DecodeEvent | include/protocol.hpp:256-277 | reads the event by its type code and rejects any other code |
| Protocol.Layout | include/protocol.hpp:15-23 | the bytes of an encoded event, one by one: type codes 1 to 4, id, term and flag in the host's order |
| Protocol.DecodedEncodes | include/protocol.hpp:256-277 | only the four type codes are accepted, and what an unsigned-`char` host decodes from bytes without surplus it encodes to the same bytes |
| Protocol.EventRoundTrip | include/protocol.hpp:136-277 | decoding returns the event if and only if both hosts have one byte order and id and term survive; hosts of different order reject every message |
| Protocol.OrdinaryEventsReturn | include/protocol.hpp:136-277 | all 64-bit values return with unsigned `char`, and all below 2^15 with signed on little-endian |
| Protocol.FirstLostTerm | include/protocol.hpp:88-96 | term 2^15 does not return on a little-endian host with signed `char` |
| Framing.Message.Encode | include/node_common.hpp:25-32 | four bytes of length, cut to 32 bits, then the data, which the message keeps |
| Framing.ServerConnection.ReadHeader | include/node.hpp:50-71 | the length read from the next four bytes |
| Framing.ServerConnection.ReadBody | include/node.hpp:69-96 | delivers exactly the body, or closes if it is too large or cut off |
| Framing.ServerConnection.Serve | include/node.hpp:50-96 | the loop delivers what the stream parses to and then closes |
| Framing.HeaderByte | include/node_common.hpp:26-29 | the header bytes, one by one, of a frame of the data's length plus four |
| Framing.FirstFrame | include/node.hpp:69-96 | between any two hosts the first message is delivered intact if and only if it fits the buffer, its length fits 32 bits and crosses between them |
| Framing.FramingRoundTrip | include/node.hpp:50-96 | a list of messages arrives whole and in order if and only if all of them fit |
| Framing.DeliveryIsFinal | include/node.hpp:79-96 | later bytes never change what was delivered |
| Framing.CutStream | include/node.hpp:50-96 | a cut stream delivers exactly the messages whose frames lie before the cut |
| Framing.NothingCrosses | include/node.hpp:69-77 | from a host of the other byte order no event is ever delivered to a buffer below 18 * 2^24 bytes |
| Framing.EventsArrive | include/node.hpp:86-92 | events encoded, framed and served decode to the same events in order if and only if both hosts have one byte order and every event fits the buffer and survives |
| StreamBuffer.StreamBuffer.constructor | include/external/asio/basic_streambuf.hpp:131-141 | empty, with storage of at most the maximum |
| StreamBuffer.AsIntWraps | include/external/asio/basic_streambuf.hpp:236 | a length passed as an `int` is taken modulo 2^32 into the signed range |
| StreamBuffer.StreamBuffer.Reserve | include/external/asio/basic_streambuf.hpp:308-346 | succeeds if and only if size plus n stays within the maximum; then there is room; the readable bytes change if and only if it fails and they do not repeat at the distance of the shift |
| StreamBuffer.StreamBuffer.Prepare | include/external/asio/basic_streambuf.hpp:214-219 | the same, returning the area of n bytes behind the readable ones, or that the maximum would be exceeded |
| StreamBuffer.StreamBuffer.Commit | include/external/asio/basic_streambuf.hpp:233-238 | appends the first n prepared bytes, or all of them, if and only if their number is below 2^31 |
| StreamBuffer.StreamBuffer.Consume | include/external/asio/basic_streambuf.hpp:247-254 | removes the first n readable bytes, or all of them, if and only if their number is below 2^31 |
| StreamBuffer.StreamBuffer.Underflow | include/external/asio/basic_streambuf.hpp:263-274 | the first readable byte, or end of file exactly when there is none |
| StreamBuffer.StreamBuffer.Overflow | include/external/asio/basic_streambuf.hpp:283-306 | appends one byte, fails exactly when the buffer holds the maximum, and then keeps the readable bytes |
| StreamBuffer.Append | include/external/asio/basic_streambuf.hpp:214-238 | prepare, write and commit fail exactly over the maximum, and otherwise append exactly the bytes written if and only if these are fewer than 2^31 |
| StreamBuffer.FailedShiftKeeps | include/external/asio/basic_streambuf.hpp:322-335 | bytes moved under fixed pointers read the same if and only if each repeats at the distance of the shift |
| StreamBuffer.FailedReserveSafe | include/external/asio/basic_streambuf.hpp:322-335 | readable bytes of any value are safe from a failed reserve if and only if none were consumed since they last started at the front, or no fewer than are left |
| StreamBuffer.FailedPrepareLoses | include/external/asio/basic_streambuf.hpp:322-335 | calls on a real buffer by which a failed prepare turns the readable [2, 3] into [3, 3] |

## Left out

- Protocol.DecodeEvent: inputs too short for their type, where the original reads past the end of a vector, are excluded; every encoded event is long enough (`Protocol.EventRoundTrip`).
- Scheduler.Scheduler.ExecuteDueTasks: ties of due time are popped in any order, and a callback that schedules or resets tasks is not covered.
- Thread interleavings inside a step, and deadlock freedom: the lock order differs between event handling and the executor.
- The executor's timed wait around `execute_due_tasks`: it reads the top of a queue that may be empty (`include/scheduler.hpp:155`).
- Real time and random timeouts: liveness is stated as the existence of a run, not as a probability or a deadline.
- Crash and restart: the voter record lives only in memory.
- Wrap-around of 64-bit terms: terms are unbounded in the protocol; the wire format states its 64-bit bound.
- The `SignOffLeader` message and `old_leader` field of `README.md:68-73`: no code for them exists.
- Callbacks that do anything but call `stay_follower`, and the cancelling of timers in the destructor.
- Sockets, resolver, acceptor, connection pool, logging, factories and thread start: I/O and wrappers.
- Buffers with addresses and sizes near the limit of `size_t`, and the overlap rules of `memcpy`.
- The one-buffer-to-one-buffer overloads of `buffer_copy`: a single call of `BufferCopy.BufferCopy1`.
- The blocking queue and the latch: only easy members.
