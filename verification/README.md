# A verified model of the VM session engine

This project models, in Dafny 4.11, the state that the collaborative-VM server keeps for
each virtual machine and each socket, and proves what that state promises over whole runs.
Every strand of the server runs one handler at a time, so a handler is one atomic step
(for the VM-info reports this is an assumption, see "Left out"); timer expiries, the order
in which callbacks arrive, the order in which a hash table is visited, the clock and the
guac thread are left to the environment.

Most components come in two files. One holds the component's state as a value, the step
function, the invariant and the lemmas about runs. The other holds the objects as the
source writes them (fields changed in place, loops, timers that are re-armed), with each
method proved to make exactly one step of that state machine.

| files | component |
|---|---|
| `TurnQueue`, `TurnController` | the queue of users who wait for control, its re-armable timer and its pause flag |
| `VmSession` | the turn queue next to the users of the channel, as one VM's handlers see both |
| `Votes`, `VoteController` | the idle/voting/cooldown machine and the vote data kept with the users |
| `UserLists`, `UserChannel`, `Bags` | the user list of a channel, replicated to its members by snapshots and deltas |
| `Framing` | the stream framing of Cap'n Proto messages, byte for byte, with a reader for it |
| `SendQueue` | a socket's single-writer queue, joined with the framing into one end-to-end claim |
| `GuacLifecycle`, `GuacClient` | the lock-free protocol between a VM's strand and the remote-desktop thread |
| `Settings`, `Restart`, `SettingsStore` | VM settings in memory, as table rows, and as a restart rebuilds them |
| `Captcha`, `CaptchaVerifier` | the captcha request machine, with callbacks that may call back |
| `VmInfo`, `VirtualMachinesList` | the two VM lists sent to viewers, kept by bulk rounds and single updates |
| `ChatHistory` | the ring of chat messages with fixed-size text slots |
| `GuestNames` | guest naming in a table whose keys ignore case |
| `Totp` | time-based one-time passwords |

The step functions are in turn held to what happened: for each machine, lemmas over every
run say what its state is in terms of the events so far: who asked, voted, reported or was
answered last (`TurnQueue.QueueIsTold`,
`VmSession.SessionRunsQueue`, `Votes.LastVoteIsCast`, `UserLists.UsersAreTold`,
`SendQueue.RecordIsTold`, `GuacLifecycle.StateIsTold`, `Settings.SettingsAreTold`,
`Captcha.TrueIffVerdict`, `VmInfo.RightIffShowsReports`).

Where the code does less than one would expect, the project keeps the code's behaviour,
shows an input for which it does less, and proves the exact condition under which it does
meet the expectation:

| expectation | exact condition | an input that fails it |
|---|---|---|
| a running turn lasts until its deadline | `TurnQueue.TurnIsSafeIff`, and for the steps that endanger one `TurnQueue.StaleFreeStepIff` | `TurnQueue.ReturningUserCanBeCut`, `TurnQueue.ResumedUserCanBeCut` |
| a pause keeps the time that is left | `TurnQueue.LatePauseGrantsFullTurn` | `TurnQueue.ResumedUserCanBeCut` |
| whoever is queued is in the channel | `VmSession.MembershipIff` | `VmSession.LateRequestStrays` |
| the tally is that of the users present | `Votes.TallyStepIff`, `Votes.RoundAfterCancelIff` | `Votes.CounterUnderflows` |
| members know the user list | `UserLists.AddKeepsReplicas` | `UserLists.AddedAgainIsCountedTwice` |
| the peer reads what was sent | `Framing.BatchRoundTripIff` | `Framing.HugeSegmentIsLost` |
| one remote-desktop client at a time | `GuacLifecycle.NoLiveClientIff`, `GuacLifecycle.TooEarlyIff` | `GuacLifecycle.StartCanMeetALiveClient`, `GuacLifecycle.DelayCanMeetALiveClient` |
| a client starts with its first image | `GuacLifecycle.StartsIffImageInTime` | `GuacLifecycle.FirstImageIsMissed` |
| memory and table agree | `Settings.UpdateAgreesIff`, `Settings.CreateAgreesIff` | `Settings.RepeatedFieldDiverges`, `Settings.UnsortedListIsKept` |
| new ids are new | `Settings.NewIdIsFresh` | `Settings.IdsWrapAround` |
| captcha requests are answered in order | `Captcha.OrderStep` | `Captcha.SecondCallOvertakes` |
| a published round shows every VM | `VmInfo.RoundRightIff`, with `VmInfo.PublishDefects` for what goes wrong | `VmInfo.LateDropLeavesBlank`, `VmInfo.LateGainOverflows`, `VmInfo.AdditionLeavesBlank`, `VmInfo.OrphanLeavesBlank` |
| a single update keeps the lists right | `VmInfo.SingleRightIff` | `VmInfo.StaleFlagOutlivesRound` |
| viewers never see anything wrong | `VmInfo.SafeIffAlwaysRight` | the same, and `VmInfo.RemovalLeavesEntry` |
| a code is accepted for the window | `Totp.AcceptedIffWithinWindow` | `Totp.RejectedOutsideWindow` |

Check everything with `dafny verify dfyconfig.toml`.

## Model

| member | source | states |
|---|---|---|
| TurnQueue.InvStep | TurnController.hpp:16-168 | every call, expiry and late handler keeps: nobody queued twice; unpaused and non-empty, the pending wait or an expired handler not yet run is for the front user; paused, no wait is pending; viewers were last shown the current queue |
| TurnQueue.InvRun | TurnController.hpp:16-168 | the same over every run, with handlers of expired waits run arbitrarily late |
| TurnQueue.ReachableInv | TurnController.hpp:46-52 | the same in every state reachable from a new controller |
| TurnQueue.RemovalFront | TurnController.hpp:88-113 | removing the front user arms the next one for the whole turn time; removing anybody else leaves front and deadline alone |
| TurnQueue.FrontGetsFullTurn | TurnController.hpp:16-39 | whoever comes to the front of a running queue is armed for the whole turn time, and only a resume moves the deadline while they stay |
| TurnQueue.TurnIsSafeIff | TurnController.hpp:24-35 | a running turn lasts until its deadline under every run of ticks, requests, new turn times, removals of others and queued handlers, if and only if no handler of an earlier wait of the same user is still queued |
| TurnQueue.LateCountsUnhandled | TurnController.hpp:26-34 | how many such handlers there are: the expiries of the user's waits less the handlers that ran for the user, over every run |
| TurnQueue.StaleFreeStepIff | TurnController.hpp:68-168 | a stale handler arises exactly when an overdue front user is removed, ended, cleared or paused before the handler runs, or a wait expires with an empty queue |
| TurnQueue.GuardedRunIsStaleFree | TurnController.hpp:68-168 | without those steps no run ever has a stale handler |
| TurnQueue.GuardedTurnsAreSafe | TurnController.hpp:68-168 | so every turn of such a run lasts until its deadline, whatever follows |
| TurnQueue.StrandedHandlerCuts | TurnController.hpp:24-35 | and once there is one, some continuation makes it cut a turn with its full time left |
| TurnQueue.ReturningUserCanBeCut | TurnController.hpp:24-35 | from a new controller: expiry, leave, request again, and the new turn can be cut |
| TurnQueue.ResumedUserCanBeCut | TurnController.hpp:121-144 | from a new controller: expiry, pause, resume, and the full turn so granted can be cut, also while paused |
| TurnQueue.TurnStep | TurnController.hpp:121-144 | one step within a turn conserves time run plus time left, a pause up to less than a millisecond |
| TurnQueue.PausingConservesTime | TurnController.hpp:121-144 | over any alternating pauses and resumes, with users joining and leaving behind, time run plus time left never exceeds the armed time and loses less than a millisecond for each pause |
| TurnQueue.LatePauseGrantsFullTurn | TurnController.hpp:121-129 | a pause keeps the remainder exactly when a wait is pending with a millisecond or more left and the timer is not paused yet; otherwise it saves a full turn |
| TurnQueue.RemainderIsInherited | TurnController.hpp:104-144 | if the front user leaves while paused, the next one resumes with that remainder |
| TurnQueue.PositionStep | TurnController.hpp:94-101 | one step lowers a queued user's position by one if somebody ahead of them left, and else not |
| TurnQueue.PositionCountsRemovals | TurnController.hpp:68-113 | over every run a user's position falls by exactly the number of users ahead who left, and they are at the front exactly after as many as their position |
| TurnQueue.OrderStep | TurnController.hpp:68-113 | one step keeps the order of two users who stay queued |
| TurnQueue.NoOvertaking | TurnController.hpp:68-113 | two users who stay queued never swap order |
| TurnQueue.QueueIsTold | TurnController.hpp:68-168 | over every run of a new controller, from the events alone: the queue holds those who asked and have not left, run out of time, been ended at the front or cleared since, in the order of their requests; paused, turn time and clock are what was set last |
| TurnQueue.WaitStep | TurnController.hpp:16-39 | what becomes of the pending wait: replaced by one for a new front user or at a resume, ended by a clearing, a pause or its expiry, otherwise left pending |
| TurnQueue.ShownStep | TurnController.hpp:16-45 | which steps viewers are told of, and the time each tells: nothing for an empty queue, what is left of a running turn in whole milliseconds, what a pause saves, and while paused the whole turn time for a new front user |
| TurnControllers.TurnController.ValidIsIndexed | TurnController.hpp:54-59 | the stored positions are the deque indices, and users outside the queue have none |
| TurnControllers.TurnController.GetTimeRemaining | TurnController.hpp:41-45 | the expiry less now, cut to milliseconds towards zero |
| TurnControllers.TurnController.UpdateCurrentTurn | TurnController.hpp:16-39 | arms the front user's wait unless paused, and shows the queue |
| TurnControllers.TurnController.RequestTurn | TurnController.hpp:68-86 | one request step; refused exactly for a queued user |
| TurnControllers.TurnController.Erase | TurnController.hpp:94-103 | the in-place loop: the user is gone, everyone behind moved up by one, all positions right again |
| TurnControllers.TurnController.RemoveUser | TurnController.hpp:88-113 | one removal step; refused exactly for a user who is not queued |
| TurnControllers.TurnController.SetTurnTime | TurnController.hpp:115-119 | changes only the turn time |
| TurnControllers.TurnController.PauseTurnTimer | TurnController.hpp:121-129 | one pause step |
| TurnControllers.TurnController.ResumeTurnTimer | TurnController.hpp:136-144 | one resume step |
| TurnControllers.TurnController.EndCurrentTurn | TurnController.hpp:146-153 | removes the front user, if any |
| TurnControllers.TurnController.Clear | TurnController.hpp:155-168 | cancels the wait, empties the queue and resets every queued user's position |
| TurnControllers.TurnController.RunHandler | TurnController.hpp:27-34 | an expired wait's handler removes the user it was armed for |
| VmSession.MembershipIff | AdminVirtualMachine.hpp:33-43 | every queued user is in the channel; the steps that break this are exactly a request from outside it and clearing the channel over a queue |
| VmSession.MembershipHolds | AdminVirtualMachine.hpp:33-81 | without those steps it holds over every run, whoever disconnects and whatever handlers run late |
| VmSession.NamesMatchIff | AdminVirtualMachine.hpp:264-288 | viewers see the queue position by position, and no empty name, if and only if every queued user is in the channel |
| VmSession.BroadcastTurnQueue | AdminVirtualMachine.hpp:278-286 | the loop with its own index writes exactly those names |
| VmSession.LateRequestStrays | AdminVirtualMachine.hpp:33-43 | a turn request handled after its sender's disconnect gives the turn to somebody who is gone, and whom another disconnect does not remove |
| VmSession.MembersAreTold | UserChannel.hpp:44-147 | over every run, from the events alone: who is in the channel, under which name |
| VmSession.QueueIff | AdminVirtualMachine.hpp:33-81 | a place in the queue is gained only by a request with turns on, and lost only by a member leaving, the end of one's own turn, its end by an admin who is present, turns switched off, or time |
| VmSession.SessionRunsQueue | AdminVirtualMachine.hpp:33-81 | every run of a VM is a run of its turn controller, with the calls told from the events alone: requests, pauses and ends count while turns are on, a leave only of members, and switching turns off clears |
| VmSession.SessionQueue | AdminVirtualMachine.hpp:290-305 | so queue, pause and turn time over every run of a VM are what those calls add up to, and the turn queue's invariant holds |
| Votes.TallyStepIff | VoteController.hpp:68-156 | while voting the counters are the numbers of present users whose last vote is yes or no, outside everyone is undecided; the one step that breaks this is a handler that drops a round in which somebody present has a vote |
| Votes.TallyHolds | VoteController.hpp:68-156 | the same over every such run |
| Votes.ReachableTally | VoteController.hpp:31-36 | the same in every state such a run reaches from a new controller |
| Votes.LeaveKeepsTally | AdminVirtualMachine.hpp:232-244 | a user who leaves takes their vote along |
| Votes.AnnouncedResult | VoteController.hpp:113-114 | with fewer than 2^32 users the wrapping counters are exact, never underflow, and the announced result is yes >= no over the users present |
| Votes.FirstVoteAfterCancel | VoteController.hpp:92-95 | a cancelled round leaves vote data behind; the next first vote tallies right if and only if nobody else kept a vote |
| Votes.ResultRestoresTally | VoteController.hpp:113-114 | whatever was cancelled before, a round that ends with a result leaves a right tally, until a round with votes is dropped again |
| Votes.DriftIsConstant | VoteController.hpp:120-156 | within a round the counters stay as right, or as wrong, as they were at its start |
| Votes.RoundAfterCancelIff | VoteController.hpp:82-156 | the round after a cancelled one is tallied right throughout if and only if no other user present at its first vote had kept a vote |
| Votes.CounterUnderflows | VoteController.hpp:92-95 | a run in which it is not: an empty channel, the round open, the yes counter wrapped to 2^32 - 1 |
| Votes.RoundsStep | VoteController.hpp:73-145 | with no cancelled wait, starts and results alternate at the due times |
| Votes.RoundsHold | VoteController.hpp:73-145 | the same over every run |
| Votes.RoundsAreSpaced | VoteController.hpp:87-115 | successive rounds start at least the vote time plus the cooldown apart, with exactly one result between them |
| Votes.NothingCountedInCooldown | VoteController.hpp:97-107 | from a result until its cooldown has passed no run counts a vote of anybody, unless votes are switched off meanwhile |
| Votes.BudgetBoundsVotes | VoteController.hpp:122-125 | over a stay in an open round, the counted votes are bounded by what the user's data leaves |
| Votes.AtMostLimitVotes | VoteController.hpp:75-125 | one stay has at most the vote limit counted in a round, the opening vote included |
| Votes.LateJoinerVotes | VoteController.hpp:122-125 | who joins an open round has at most one vote fewer counted |
| Votes.LastVoteIsCast | VoteController.hpp:67-145 | over every run and for any limit: a present user's last vote is the one they cast, told from their votes (the opening yes, then what they said last before the limit), and is cleared by a result or by leaving; they are limited exactly when they tried that often |
| Votes.CountedIff | VoteController.hpp:67-145 | over every run: a vote is counted if and only if votes are on and it is a yes that opens a round, or comes before the limit in an open round and says something new |
| Votes.ResultIsMajority | VoteController.hpp:97-115 | the result that an unbroken run announces compares the votes as they were cast by those still present |
| Votes.SettingsAreLast | AdminVirtualMachine.hpp:456-475 | over every run: who is present, whether votes are on, the times and the clock are what was done last about them |
| Votes.NotesStep | VoteController.hpp:75-118 | a round opens only at a yes vote of a present user with votes on and ends only in its handler, with a result, or dropped if votes are off or the wait was cancelled |
| Votes.CancelIff | VoteController.hpp:159-161 | only switching votes off cancels a wait, and it always does |
| Votes.SwitchedOffRoundIsDropped | VoteController.hpp:92-95 | a round during which votes were switched off ends without a result, over every run, even if they are switched on again |
| VoteControllers.VoteController.Vote | VoteController.hpp:67-145 | one vote step, and whether it was counted: it becomes the user's last vote in the direction that was voted |
| VoteControllers.VoteController.StartRound | VoteController.hpp:82-118 | the first yes opens a round with counters one and zero and arms the timer |
| VoteControllers.VoteController.CountVote | VoteController.hpp:120-139 | the limit, the changed vote and both counters, as the specification recounts them |
| VoteControllers.VoteController.RemoveVote | VoteController.hpp:147-156 | takes back exactly this user's vote |
| VoteControllers.VoteController.RemoveUser | AdminVirtualMachine.hpp:232-244 | one leaving step |
| VoteControllers.VoteController.SetVotesEnabled | AdminVirtualMachine.hpp:304-314 | switching votes off cancels the timer, and nothing else |
| VoteControllers.VoteController.RunHandler | VoteController.hpp:90-115 | one handler step: dropped round, cooldown or idle, then the result |
| VoteControllers.VoteController.ResetVoteData | AdminVirtualMachine.hpp:441-447 | every user's vote data is fresh again |
| UserLists.SnapshotIsComplete | UserChannel.hpp:175-191 | a snapshot carries exactly the channel's names, with repetitions, for every order of the table |
| UserLists.AddSends | UserChannel.hpp:44-84 | who is sent what: the newcomer a snapshot that includes itself, everyone else one delta in the variant for their type |
| UserLists.FoldsAfterAdd | UserChannel.hpp:44-84 | what newcomer and members know afterwards |
| UserLists.AddKeepsReplicas | UserChannel.hpp:44-84 | the replicas stay exact if and only if the client was not a member yet or is the only one |
| UserLists.RemoveSends | UserChannel.hpp:126-147 | the leaver is sent nothing, everyone else one removal |
| UserLists.RemoveKeepsReplicas | UserChannel.hpp:126-147 | removing keeps the replicas exact |
| UserLists.RenameKeepsReplicas | CollabVmServer.hpp:1778-1799 | so does a change of username |
| UserLists.AddedAgainIsCountedTwice | UserChannel.hpp:44-84 | two clients join and the second joins again: the first knows its name twice |
| UserLists.ReplicasStayExact | UserChannel.hpp:44-147 | over every run of adds of non-members, removals, renames and clears, each member that folds its messages knows exactly the multiset of names in the channel |
| UserLists.ReplicasFromEmpty | UserChannel.hpp:44-147 | the same from an empty channel on |
| UserLists.UsersAreTold | UserChannel.hpp:44-147 | over every run, from the events alone: who is in the channel, under which name and as what type |
| UserLists.AddedAgainKeepsData | UserChannel.hpp:44-84 | adding a member again changes nobody's name or type |
| UserLists.NewcomerSees | UserChannel.hpp:152-191 | over every run a newcomer is sent the name and the type of every member as they then are, with addresses exactly if it is an admin |
| UserChannels.UserChannel.CreateUserListMessage | UserChannel.hpp:175-191 | the loop lists every user once, in table order |
| UserChannels.UserChannel.BroadcastMessage | UserChannel.hpp:106-114 | appends the message to every member's queue and to no other |
| UserChannels.UserChannel.AnnounceUser | UserChannel.hpp:58-83 | appends the right variant to everyone's queue but the newcomer's |
| UserChannels.UserChannel.AddUser | UserChannel.hpp:44-84 | one add step, an existing entry being kept |
| UserChannels.UserChannel.RemoveUser | UserChannel.hpp:126-147 | one removal step; the leaver's queue is untouched |
| UserChannels.UserChannel.ChangeUsername | CollabVmServer.hpp:1778-1799 | one rename step |
| Framing.HeaderSize | SocketMessage.hpp:41-58 | the header never outgrows its reserved size, which is a whole number of 8-byte words |
| Framing.RoundTripIffFits | SocketMessage.hpp:36-59 | a framed message followed by any bytes reads back as itself, the reader stopping exactly at its end, if and only if segment count and sizes fit their 32-bit slots ("Serialization Over a Stream", Cap'n Proto encoding specification) |
| Framing.BatchAppend | CollabVmServer.hpp:1552-1558 | the buffers of a longer batch are those of its parts |
| Framing.BatchRoundTripIff | CollabVmServer.hpp:1545-1558 | the concatenated buffers of a batch decode to its messages in order if and only if each of them fits |
| Framing.HugeSegmentIsLost | SocketMessage.hpp:49-50 | a segment of 2^32 words reads back as something else |
| Framing.WireOfOne | SocketMessage.hpp:36-59 | the bytes of a one-segment message, written out: count less one and size, low byte first |
| Framing.WireOfTwo | SocketMessage.hpp:36-59 | and of two segments, with the padding word |
| Framing.SharedSocketMessage.CreateFrame | SocketMessage.hpp:36-59 | the loop's frame is the specified header, within the reserved words, and the buffers refer to it and to the segments; a second call changes nothing |
| Framing.FrameBuilder.Init | CapnpMessageFrameBuilder.hpp:10-14 | reserves the header and writes the count |
| Framing.FrameBuilder.AddSegment | CapnpMessageFrameBuilder.hpp:24-24 | writes one size at the cursor |
| Framing.FrameBuilder.Finalize | CapnpMessageFrameBuilder.hpp:17-22 | writes the padding of an even count |
| Framing.BuildFrame | CapnpMessageFrameBuilder.hpp:10-24 | the builder's frame is the same header, for every message |
| SendQueue.InvStep | CollabVmServer.hpp:1529-1639 | each send, batch and completion keeps: at most one write outstanding, not sending means nothing queued, and written, lost, in flight and queued make up the enqueue order |
| SendQueue.InvRun | CollabVmServer.hpp:1529-1639 | the same over every interleaving |
| SendQueue.EnqueueOrder | CollabVmServer.hpp:1529-1639 | from a new connection on, in every interleaving: at most one write outstanding, not sending means nothing queued, written ++ in flight ++ queued is the enqueue order until a write fails, and the written part always begins it |
| SendQueue.NextWrite | CollabVmServer.hpp:1584-1595 | after a completed write the whole queue is in flight as one write |
| SendQueue.HandedStep | CollabVmServer.hpp:1584-1595 | each step hands the websocket what it says and nothing else |
| SendQueue.NothingAfterError | CollabVmServer.hpp:1579-1583 | after a failed write nothing more is written, whatever is enqueued |
| SendQueue.RecordIsTold | CollabVmServer.hpp:1529-1639 | over every run, from the events alone: what was enqueued is all that was asked to be sent in that order, and a connection has failed exactly if a write was completed with an error |
| SendQueue.TwoWritesDrain | CollabVmServer.hpp:1584-1595 | two completions empty the queue |
| Sockets.Socket.SendMessage | CollabVmServer.hpp:1529-1543 | writes one message's buffers |
| Sockets.Socket.SendMessageBatch | CollabVmServer.hpp:1545-1571 | the loop drains the queue into one write of all buffers, in order |
| Sockets.Socket.QueueMessage | CollabVmServer.hpp:1598-1619 | one enqueueing step; the websocket is handed exactly the message's buffers if the socket was idle, and nothing otherwise |
| Sockets.Socket.QueueMessageBatch | CollabVmServer.hpp:1620-1639 | one batch step; the websocket is handed exactly the batch's buffers as one write if the socket was idle |
| Sockets.Socket.SendMessageCallback | CollabVmServer.hpp:1573-1596 | one completion step; the websocket is handed the whole queue as one write, unless it is empty or the write failed |
| Sockets.WireIsOneStream | CollabVmServer.hpp:1545-1558 | the bytes of successive writes are the stream of their messages, however they were batched |
| Sockets.PeerReadsEnqueueOrder | CollabVmServer.hpp:1529-1639 | end to end, after any interleaving: the completed writes are the beginning of what was enqueued, and all of it once the sender is idle; the peer decodes exactly those messages if and only if each fits its frame |
| Sockets.PeerReadsSocket | CollabVmServer.hpp:1529-1639 | the same of the socket object: what its methods handed to the websocket, up to the last completed write, decodes to the first messages enqueued if and only if each fits |
| GuacLifecycle.InvStep | GuacamoleClient.hpp:70-368 | every atomic step of strand and thread that does not create a client beside a live one keeps the lifetime invariant |
| GuacLifecycle.InvRun | GuacamoleClient.hpp:70-368 | so does every interleaving in which no client is created beside a live one |
| GuacLifecycle.ClientLifetime | GuacamoleClient.hpp:264-368 | for every client of such a run: the exchange to running succeeds at most once and never after a stop request or a disconnect; OnStart is posted only after it, at most once and before OnStop, and it is posted after a stop request if and only if one came between the exchange and the post; `guac_client_stop` at most once; no running client under a stopped VM; connected between OnStart and OnStop and at no other time, unless a stop was asked for |
| GuacLifecycle.OnlyTheImageCommits | GuacamoleClient.hpp:268-276 | the exchange to running succeeds only at a layer-0 image and from starting |
| GuacLifecycle.CommitPrecedesStop | GuacamoleClient.hpp:273-283 | the exchange that leads to OnStart succeeds at most once, before any stop request or disconnect |
| GuacLifecycle.OnlyCommittedPosts | GuacamoleClient.hpp:276-283 | no other thread step posts OnStart |
| GuacLifecycle.EarlyStopIsNotLost | GuacamoleClient.hpp:284-288 | a stop before the image is carried out, once, when the image arrives, and OnStart is not posted |
| GuacLifecycle.StopRequestsStick | GuacamoleClient.hpp:70-79 | a client that was asked to stop stays stopping while its thread runs |
| GuacLifecycle.StopReachesGuac | GuacamoleClient.hpp:70-79 | past the image, a stop request has reached guac exactly once, unless the connection had broken after the start |
| GuacLifecycle.StartsIffImageInTime | GuacamoleClient.hpp:247-294 | left alone, a client starts if and only if a layer-0 image comes after some other real instruction and before the connection breaks |
| GuacLifecycle.FirstImageIsMissed | GuacamoleClient.hpp:264-293 | an image that is the only instruction does not start the client |
| GuacLifecycle.PostCanFollowStop | GuacamoleClient.hpp:273-283 | a stop between the exchange and the post does not prevent the post of OnStart, which then finds the VM inactive and does not connect |
| GuacLifecycle.ActiveIsTold | AdminVirtualMachine.hpp:495-535 | over every run in which no client is created beside a live one, a VM is active exactly if it was started after it was stopped last |
| GuacLifecycle.CreationIsFresh | AdminVirtualMachine.hpp:358-370 | a start of a stopped VM, and a delay's end under an active one, give it a client in state starting |
| GuacLifecycle.WritesAreTold | GuacamoleClient.hpp:247-294 | over the same runs a client has noticed a disconnect, its first real instruction and its image exactly if they were written to it since it was created |
| GuacLifecycle.StopsAreTold | AdminVirtualMachine.hpp:517-554 | and it was asked to stop exactly if its VM was stopped or restarted since |
| GuacLifecycle.StateIsTold | GuacamoleClient.hpp:70-79 | so a client whose thread loops is stopping exactly if it was asked to stop or its connection broke, and else running exactly from the image on; past the image guac was told to stop exactly if a stop was asked for |
| GuacLifecycle.StopStep | AdminVirtualMachine.hpp:517-554 | a stop, a restart, and OnStart under a stopped VM, and nothing else, ask the client to stop and leave it stopping |
| GuacLifecycle.ConnectedStep | AdminVirtualMachine.hpp:697-758 | OnStart under an active VM connects it, OnStop disconnects it, nothing else does either |
| GuacLifecycle.ReconnectStep | AdminVirtualMachine.hpp:738-758 | no step leaves an active VM whose client has ended without a pending reconnect, if the client had received an instruction |
| GuacLifecycle.NeverStranded | AdminVirtualMachine.hpp:738-758 | the same over every run |
| GuacLifecycle.NoLiveClientIff | GuacamoleClient.hpp:361-367 | no thread and no posted handler of the last client is left if and only if its pointer has been reset, or its thread ended before its first real instruction |
| GuacLifecycle.TooEarlyIff | AdminVirtualMachine.hpp:495-535 | the steps after which a client may be created beside a live one are exactly starts of a stopped VM that still holds the last client or has an expired reconnect delay whose handler has not run; reconnects by themselves never are |
| GuacLifecycle.GuardedRunIsValid | AdminVirtualMachine.hpp:495-758 | a run without such starts never creates a client beside a live one, so all lifetime claims hold for it |
| GuacLifecycle.LateDelayCollides | AdminVirtualMachine.hpp:748-756 | after a start over an unhandled delay, the delay's handler creates a second client |
| GuacLifecycle.StartCanMeetALiveClient | AdminVirtualMachine.hpp:495-535 | a run in which a start meets the running thread of the last client |
| GuacLifecycle.DelayCanMeetALiveClient | AdminVirtualMachine.hpp:738-758 | a run in which every start finds the last client gone, and a reconnect still meets a live one |
| GuacClients.GuacamoleClient.CreateClient | GuacamoleClient.hpp:234-296 | a fresh client in state starting |
| GuacClients.GuacamoleClient.Free | GuacamoleClient.hpp:361-367 | the posted handler resets the client's pointer before OnStop |
| GuacClients.GuacamoleClient.Stop | GuacamoleClient.hpp:70-79 | one atomic exchange, then a stop if it was running |
| GuacClients.GuacamoleClient.SocketWriteHandler | GuacamoleClient.hpp:205-219 | a disconnect or error makes the client stopping |
| GuacClients.GuacamoleClient.Write | GuacamoleClient.hpp:247-294 | the three successive write handlers, up to their access to the state |
| GuacClients.GuacamoleClient.ThreadExits | GuacamoleClient.hpp:354-368 | the thread's destructor, if the first instruction has registered it |
| GuacClients.AdminVirtualMachine.Start | AdminVirtualMachine.hpp:495-515 | one start step |
| GuacClients.AdminVirtualMachine.Stop | AdminVirtualMachine.hpp:517-535 | one stop step, the reconnect timer cancelled |
| GuacClients.AdminVirtualMachine.Restart | AdminVirtualMachine.hpp:537-554 | one restart step |
| GuacClients.AdminVirtualMachine.OnStart | AdminVirtualMachine.hpp:697-736 | connects an active VM, or stops the client of a VM stopped meanwhile |
| GuacClients.AdminVirtualMachine.OnStop | AdminVirtualMachine.hpp:738-758 | disconnects, and arms the reconnect timer of an active VM |
| GuacClients.AdminVirtualMachine.RunDelay | AdminVirtualMachine.hpp:748-756 | the timer's handler reconnects an active VM |
| Settings.InitialIndexed | AdminVirtualMachine.hpp:115-147 | entry i is field i after start-up if and only if a list of full length is increasing; a list of any other length always gives that |
| Settings.MergeFindsAll | AdminVirtualMachine.hpp:128-145 | the single pass over an increasing list misses none of its entries |
| Settings.IncreasingListIsKept | AdminVirtualMachine.hpp:115-147 | an increasing list starts a VM with its own values, and defaults elsewhere |
| Settings.InsertedAt | Database/Database.cpp:181-191 | inserting fails exactly when the VM has a row for a listed field already or a field is listed twice (Database/Database.cpp:54-59); if it does not fail every listed setting is a row, and no earlier row is ever changed |
| Settings.UpdatedAt | Database/Database.cpp:193-203 | updating changes existing rows only, to the last listed value |
| Settings.OnceMeansLast | Database/Database.h:229-234 | without repetitions the first entry for a field is the last |
| Settings.NewIdIsFresh | Database/Database.h:174-179 | the new id is unused if and only if ids have not run up to 2^32 - 1 with 1 still in use |
| Settings.CreateAgreesIff | CollabVmServer.hpp:1039-1048 | creating a VM leaves one row per setting, equal to its settings in memory, if and only if its list is not one of full length out of order; on an id in use it changes nothing |
| Settings.UpdateAgreesIff | AdminVirtualMachine.hpp:641-660 | an accepted update keeps memory and table in step if and only if for each field the first value in the request is the last |
| Settings.UpdateKeepsAgreement | AdminVirtualMachine.hpp:641-660 | in particular when no field is repeated, accepted or not |
| Settings.RepeatedFieldDiverges | Database/Database.h:229-234 | a VM is created and a request sets one of its fields twice: memory keeps the first value, the table the last |
| Settings.UnsortedListIsKept | AdminVirtualMachine.hpp:118-124 | a list of full length that is not sorted is kept as it is |
| Settings.IdsWrapAround | Database/Database.h:174-179 | with ids 1 and 2^32 - 1 in use the next id is 1 |
| Settings.AgreeStep | AdminVirtualMachine.hpp:641-660 | every create, update and delete keeps one row per setting of each VM and nothing else |
| Settings.AcceptableMeets | AdminVirtualMachine.hpp:760-776 | the check accepts exactly settings in which turns, if enabled, have a positive turn time and votes, if enabled, a positive vote time |
| Settings.UpdateOutcome | AdminVirtualMachine.hpp:641-664 | a request whose field-by-field outcome meets both demands becomes the settings and goes to its rows; any other changes nothing; other VMs are left alone |
| Settings.SettingsAreTold | AdminVirtualMachine.hpp:641-664 | over every run: the VMs there are, and their settings, are what creations, accepted requests and deletions add up to |
| Settings.RowsAreTold | Database/Database.cpp:181-203 | and so are the rows, from an empty table on |
| Settings.OnlyCreationIsUnchecked | AdminVirtualMachine.hpp:115-147 | over every run: a VM that does not meet the demands has the settings it was created with |
| Restart.NextRow | Database/Database.h:194-209 | after a row comes the VM's next field or field 0 of the next VM |
| Restart.CreateFullGroup | CollabVmServer.hpp:2105-2117 | one `create_vm` call rebuilds the VM whose group is complete |
| Restart.VisitedInv | CollabVmServer.hpp:2118-2127 | the loop's invariant: earlier VMs are rebuilt and the group holds the current VM's first fields |
| Restart.RestartRebuilds | CollabVmServer.hpp:2097-2136 | grouping the sorted rows in the one list that all groups share rebuilds exactly the settings in memory, with one call for each distinct id, in order, and never writes behind the list's end |
| Restart.RunThenRestart | CollabVmServer.hpp:2097-2136 | after every run of creates, updates and deletes a restart restores the settings, entry i being field i |
| Restart.PersistenceFromEmpty | CollabVmServer.hpp:2097-2136 | the same from an empty database on |
| Restart.RaggedRowsOverflow | CollabVmServer.hpp:2097-2127 | rows that agree with no settings can overflow that list, which is only ever cut |
| Restart.ListingExists | Database/Database.h:194-199 | every table has such a sorted listing |
| SettingsStores.Database.CreateVm | Database/Database.cpp:181-191 | the inserting loop, which stops with an error at the first key that is taken |
| SettingsStores.Database.UpdateVmSettings | Database/Database.cpp:193-203 | the updating loop |
| SettingsStores.Database.DeleteVm | Database/Database.h:214-218 | removes exactly the VM's rows |
| SettingsStores.Database.GetNewVmId | Database/Database.h:174-179 | the largest id plus one in 32 bits, at least 1 |
| SettingsStores.GetInitialSettings | AdminVirtualMachine.hpp:115-147 | the merging loop computes the specified settings for every list |
| SettingsStores.GetProducedSettings | AdminVirtualMachine.hpp:149-174 | the variant that is fed one setting at a time: the last value of each field wins, defaults elsewhere |
| SettingsStores.UpdateList | Database/Database.h:220-248 | field by field the first update or the old value |
| SettingsStores.SettingsStore.constructor | CollabVmServer.hpp:2088-2136 | a start reads and groups the listed rows |
| SettingsStores.SettingsStore.Restarted | CollabVmServer.hpp:2088-2136 | a server started on another one's table has its settings |
| SettingsStores.SettingsStore.CreateVm | CollabVmServer.hpp:1035-1056 | one create step for any list; memory and table stay in step exactly under the condition above |
| SettingsStores.SettingsStore.UpdateSettings | AdminVirtualMachine.hpp:631-664 | one update step; accepted exactly if the field-by-field outcome has a turn time where turns are on and a vote time where votes are on, and then it becomes the VM's settings |
| SettingsStores.SettingsStore.DeleteVm | CollabVmServer.hpp:1137-1149 | one delete step, of a VM that exists |
| Captcha.ChainStep | CaptchaVerifier.hpp:92-254 | one asynchronous chain is outstanding exactly when a request awaits its answer, through every handler and every re-entrant call |
| Captcha.OnceStep | CaptchaVerifier.hpp:92-254 | every accepted request stays answered, active or queued, as often as it was accepted |
| Captcha.OnceRun | CaptchaVerifier.hpp:92-254 | the same over every run |
| Captcha.ExactlyOnce | CaptchaVerifier.hpp:92-254 | in every run no call is answered twice, and calls made = answered + active + queued |
| Captcha.VerifyEffect | CaptchaVerifier.hpp:105-115 | an accepted call becomes active or joins the end of the queue |
| Captcha.OrderStep | CaptchaVerifier.hpp:237-249 | a step keeps the requests in line if and only if it is not a call with a token, with verification enabled, from a callback of the rejecting loop while a request is active again |
| Captcha.SecondCallOvertakes | CaptchaVerifier.hpp:242-247 | a run with such a call: request 3 is answered and request 2 is not |
| Captcha.AnsweredInOrder | CaptchaVerifier.hpp:209-225 | without such calls, requests are answered in the order they were made |
| Captcha.OutageCounts | CaptchaVerifier.hpp:237-253 | failures in a row add up; fewer than three keep the chain alive, the third starts the rejection |
| Captcha.DrainAnswersQueue | CaptchaVerifier.hpp:244-247 | the loop answers every queued request with a rejection, in order |
| Captcha.RejectionAnswersAll | CaptchaVerifier.hpp:239-248 | whatever the callbacks do, when the rejection is over every request accepted before it has been answered |
| Captcha.ThreeFailuresAnswerAll | CaptchaVerifier.hpp:237-249 | connect failures that bring the count to three, from whatever count, with nothing sent and no new settings among them, lead there, for every course of the rejecting loop |
| Captcha.QuietRejectionAnswersAll | CaptchaVerifier.hpp:237-249 | if no callback calls back, no request is left at all |
| Captcha.CallsAreTold | CaptchaVerifier.hpp:92-117 | over every run, from the events alone: which calls are answered on the spot and how (true exactly while verification is off, false exactly without a token while it is on), which are put to the service, and whether the connection is open |
| Captcha.AnswersAreVerdicts | CaptchaVerifier.hpp:199-209 | over every run each verdict read is the answer to the request it was about, and nothing else answers true |
| Captcha.TrueIffVerdict | CaptchaVerifier.hpp:199-253 | from the start: a request put to the service is answered true if and only if the service said so; failures and rejections answer false |
| Captcha.OperationsFollow | CaptchaVerifier.hpp:119-253 | which operation follows which, and that new settings are in force from the next connect on |
| Captcha.FailureCount | CaptchaVerifier.hpp:237-241 | the count goes up at a failure, back to zero when a request is sent or new settings come into force, and is otherwise kept |
| CaptchaVerifiers.CaptchaVerifier.SetSettings | CaptchaVerifier.hpp:64-90 | pending settings, socket closed |
| CaptchaVerifiers.CaptchaVerifier.Verify | CaptchaVerifier.hpp:92-117 | one call step |
| CaptchaVerifiers.CaptchaVerifier.Connect | CaptchaVerifier.hpp:119-158 | takes pending settings over and starts connecting |
| CaptchaVerifiers.CaptchaVerifier.SendRequest | CaptchaVerifier.hpp:167-183 | resets the failure count and starts writing |
| CaptchaVerifiers.CaptchaVerifier.Retry | CaptchaVerifier.hpp:237-253 | backs off, or starts rejecting |
| CaptchaVerifiers.CaptchaVerifier.OnConnect | CaptchaVerifier.hpp:133-156 | one step for a finished connect or handshake |
| CaptchaVerifiers.CaptchaVerifier.OnWritten | CaptchaVerifier.hpp:182-193 | one step for a finished write |
| CaptchaVerifiers.CaptchaVerifier.OnRead | CaptchaVerifier.hpp:192-209 | one step for a finished read, up to the callback, which gets the service's verdict |
| CaptchaVerifiers.CaptchaVerifier.AfterAnswer | CaptchaVerifier.hpp:219-225 | the next queued request is sent, or none is active |
| CaptchaVerifiers.CaptchaVerifier.RejectQueue | CaptchaVerifier.hpp:243-248 | the draining loop, with any calls made by its callbacks, ends with an empty queue and is a run of the machine |
| VmInfo.WithoutOne | CollabVmServer.hpp:2497-2509 | removing a listed VM from a proper list removes exactly one entry, as the smaller list requires |
| VmInfo.UpdateKeepsList | CollabVmServer.hpp:2511-2525 | replacing one VM's entry changes no other |
| VmInfo.BooksBalance | CollabVmServer.hpp:2310-2457 | over every run, whatever is added, removed or updated meanwhile: outstanding reports are those of the VMs still to report and of removed ones, a held report is the VM's last, and between rounds nothing is held |
| VmInfo.RoundRightIff | CollabVmServer.hpp:2349-2384 | for every run, the report that ends a round publishes right lists within their bounds if and only if every VM in the table has reported and the count is that of the public entries the table holds |
| VmInfo.PublishRightIff | CollabVmServer.hpp:2358-2384 | the same for publishing alone |
| VmInfo.PublishDefects | CollabVmServer.hpp:2358-2384 | otherwise: a count that is too high leaves a blank public entry, one too low writes behind the list, a VM that has not reported blanks an admin entry, each exactly then |
| VmInfo.CompleteRound | CollabVmServer.hpp:2358-2384 | when every VM has reported and the count is right, the reset lists have exactly the size of what fills them |
| VmInfo.PublishKeepsInv | CollabVmServer.hpp:2358-2384 | publishing shows every VM's report once, and nothing else |
| VmInfo.BulkKeepsInv | CollabVmServer.hpp:2322-2384 | a bulk report keeps lists and books in order, in whatever order reports arrive |
| VmInfo.SingleRightIff | CollabVmServer.hpp:2422-2448 | whatever went on before, a single update between rounds leaves right lists within their bounds if and only if the VM's flag says whether it has a public entry |
| VmInfo.StaleFlagSpoils | CollabVmServer.hpp:2429-2448 | with the flag and no entry, losing information writes out of bounds and gaining some never lists the VM; without the flag and with an entry, the entry stays or is doubled |
| VmInfo.StaleFlagOutlivesRound | CollabVmServer.hpp:2413-2448 | a run in which one VM loses and another gains information late: the round ends with right lists, and the next update of the first VM writes out of bounds |
| VmInfo.LateDropLeavesBlank | CollabVmServer.hpp:2413-2421 | a VM reports, loses its information, the round ends: a blank public entry |
| VmInfo.LateGainOverflows | CollabVmServer.hpp:2413-2421 | it gains information instead: a write behind the list |
| VmInfo.AdditionLeavesBlank | CollabVmServer.hpp:2200-2212 | a VM added in the round: a blank admin entry |
| VmInfo.OrphanLeavesBlank | CollabVmServer.hpp:2321-2352 | a VM removed in the round whose report is still counted: a blank public entry |
| VmInfo.RemovalLeavesEntry | CollabVmServer.hpp:2149-2169 | a VM removed between rounds stays in the public list |
| VmInfo.SafeIffAlwaysRight | CollabVmServer.hpp:2149-2457 | from a state in order, a step is safe (a late update that adds or drops no public entry, an addition between rounds, a removal of a VM that is neither listed publicly nor counted for the open round, a removed VM's report without information, any other report) if and only if under every safe continuation viewers never see a blank entry, a VM that is gone, one twice, a write out of bounds, or between rounds anything but the last reports |
| VmInfo.FinishWrong | CollabVmServer.hpp:2310-2384 | once the count is wrong or a VM was missed, the reports still to come end the round with something wrong |
| VmInfo.InvMeansAgreement | CollabVmServer.hpp:2358-2384 | between rounds: one admin entry per VM and one public entry per VM with information, each the VM's last report |
| VmInfo.ListsAgree | CollabVmServer.hpp:2310-2457 | over every run of safe steps, for every order of the reports, both lists show between rounds exactly what the VMs reported last, and the flags say which have a public entry |
| VmInfo.ListsAgreeFromStart | CollabVmServer.hpp:2310-2457 | the same from an empty server on |
| VmInfo.RoundPublishesOnce | CollabVmServer.hpp:2312-2352 | an open round publishes exactly once, with its last report, whatever happens meanwhile |
| VmInfo.RecordsAreLast | CollabVmServer.hpp:2322-2348 | over every run, from the events alone: the record of a VM is what its addition, or the last report naming it, gave |
| VmInfo.RoundsAsk | CollabVmServer.hpp:2310-2321 | over every run: a round begun while none is open asks every VM there is, and each report, also of a removed VM, is one less to come |
| VmInfo.RightIffShowsReports | CollabVmServer.hpp:2340-2384 | for every run from an empty server the lists are right if and only if they show, once each, what the VMs that are there gave last |
| VmInfo.ViewersSeeLastReports | CollabVmServer.hpp:2310-2457 | so viewers see exactly that between the rounds of every safe run |
| VmInfo.RoundShowsReportsIff | CollabVmServer.hpp:2349-2384 | and, for every run at all, after a round, if and only if every VM in the table has reported and the count is right (or a write was out of bounds) |
| VirtualMachinesLists.ResizableList.Add | CollabVmServer.hpp:2486-2495 | appends |
| VirtualMachinesLists.ResizableList.RemoveFirst | CollabVmServer.hpp:2497-2509 | copies what does not match, and whether that fits the smaller list |
| VirtualMachinesLists.ResizableList.UpdateElement | CollabVmServer.hpp:2511-2525 | the copying loop replaces exactly the matching entries |
| VirtualMachinesLists.VirtualMachinesList.UpdateVirtualMachineInfoList | CollabVmServer.hpp:2310-2318 | opens a round unless one is open |
| VirtualMachinesLists.VirtualMachinesList.OnBulkReport | CollabVmServer.hpp:2322-2384 | one bulk step: the VM's entries are then the reported ones |
| VirtualMachinesLists.VirtualMachinesList.OnOrphanReport | CollabVmServer.hpp:2321-2352 | the same callback for a VM that was removed |
| VirtualMachinesLists.VirtualMachinesList.PublishVms | CollabVmServer.hpp:2367-2384 | the filling loop with its two indices leaves the specified lists, records every write behind an end, and frees every report |
| VirtualMachinesLists.VirtualMachinesList.OnSingleReport | CollabVmServer.hpp:2410-2448 | one single-update step |
| VirtualMachinesLists.VirtualMachinesList.AddAdminVirtualMachine | CollabVmServer.hpp:2200-2212 | one adding step |
| VirtualMachinesLists.VirtualMachinesList.RemoveAdminVirtualMachine | CollabVmServer.hpp:2149-2169 | one removing step, of a VM that exists |
| ChatHistory.AddHolds | CollabVmChatRoom.hpp:48-55 | one message goes to the slot after the last and disturbs no other recent message |
| ChatHistory.AddAllHolds | CollabVmChatRoom.hpp:48-55 | after any messages each recent one is in its slot |
| ChatHistory.HistoryEntry | CollabVmChatRoom.hpp:67-77 | the i-th message read is the i-th of the recent ones |
| ChatHistory.HistoryIsRecent | CollabVmChatRoom.hpp:48-77 | after any n messages the history is the last min(n, 100) in sending order, each its own text padded with zeros, nothing of what the slot held before |
| ChatHistory.PaddedTextIsIntact | CollabVmChatRoom.hpp:58-65 | a text without zeros can be read back from its slot |
| ChatRooms.CopyStringToText | CollabVmChatRoom.hpp:58-65 | the copy and the fill, in place on the array |
| ChatRooms.ChatRoom.constructor | CollabVmChatRoom.hpp:17-30 | an empty ring of blank slots |
| ChatRooms.ChatRoom.AddUserMessage | CollabVmChatRoom.hpp:32-56 | one step of the ring, changing no other slot's arrays |
| ChatRooms.ChatRoom.GetChatHistory | CollabVmChatRoom.hpp:67-77 | the loop reads the specified history |
| GuestNames.SameNameSameHash | CaseInsensitiveUtils.hpp:12-38 | keys that the comparator holds equal hash equally, whatever the mixing function |
| GuestNames.CaseIsIgnored | CaseInsensitiveUtils.hpp:12-15 | the comparator holds names equal exactly when they differ in nothing but the case of Latin letters |
| GuestNames.GuestNameSpelled | CollabVmServer.hpp:1759-1759 | a guest's name is `guest` and the number in decimal, without a leading zero |
| GuestNames.ErasesOne | CollabVmServer.hpp:453-453 | erasing a name takes out one entry, whatever case it is asked for in |
| GuestNames.HashOf | CaseInsensitiveUtils.hpp:27-38 | the hasher's loop |
| GuestNames.DecimalRoundTrip | CollabVmServer.hpp:1759-1759 | a decimal name determines its number |
| GuestNames.NamesDiffer | CollabVmServer.hpp:1759-1759 | different numbers give names that differ even ignoring case |
| GuestNames.TakenNeedsKeys | CollabVmServer.hpp:1753-1762 | pigeonhole: n successive tries that fail, counted up in 32 bits, need n keys |
| GuestNames.GuestTable.Insert | CollabVmServer.hpp:1761-1761 | adds the name exactly when no key equals it ignoring case |
| GuestNames.GuestTable.GenerateUsername | CollabVmServer.hpp:1743-1766 | stops after at most as many failed tries as the table has entries, at the first free name, adding it and changing no other entry |
| GuestNames.GuestTable.ChangeUsername | CollabVmServer.hpp:434-454 | takes the new name if it is free and then gives up the old one, one key per name throughout |
| Totp.TruncateIsStandard | Totp.hpp:29-34 | for every digest the load, the reversal and the mask are the dynamic truncation of section 5.3 of RFC 4226 |
| Totp.ExampleOfStandard | Totp.hpp:29-36 | the digest, the value and the six-digit code of the example in section 5.4 of RFC 4226 |
| Totp.BigEndianParts | Totp.hpp:22-28 | the eight counter bytes, highest first, are worth the counter modulo their width |
| Totp.Offset | Totp.hpp:29-33 | the four bytes lie within the digest |
| Totp.GenerateTotp | Totp.hpp:14-36 | the code lies below 10^digits |
| Totp.CodeStaysValid | Totp.hpp:38-52 | a code of time t is accepted at every time up to t + window * step (section 5.2 of RFC 6238) |
| Totp.SameBytesSameCounter | Totp.hpp:22-28 | the counter's eight bytes determine it, wrapped counters included |
| Totp.AcceptedIffWithinWindow | Totp.hpp:38-52 | exactly: whatever the keyed hash is, a code is accepted if and only if the time step has moved on by at most the window and not back |
| Totp.RejectedOutsideWindow | Totp.hpp:38-52 | outside the window some keyed hash makes the code rejected |

## Left out

- The websocket and HTTP server, file serving, the acceptor, the command line and the upload reader are plumbing around the modelled state.
- The guac library, cairo, Cap'n Proto's own memory, SQLite, argon2 and HMAC are foreign code: rows are a map, messages are sequences of segments, the keyed hash is an arbitrary function.
- Login, registration, invitations and the server settings are mostly SQL text.
- The direct-chat handshake: the recipient's table stores the recipient itself (CollabVmServer.hpp:608-611), so only an easy size bound would be left.
- `admins_count_` in UserChannel.hpp is never read and `SetUserData` does not maintain it; the counter of connections per address depends on close races. Neither has an invariant worth stating.
- ReusableSocketMessage.hpp, SharedStrandGuard.hpp, FileUploadReader.hpp, file_body.hpp and CollabVmChannel.hpp are unused or unfinished.
- The schema CollabVm.capnp and the constants of `Common` are not part of this model: the settings schema, the text limits and the vote limit are parameters.
- TurnControllers.TurnController.EndCurrentTurn: the source passes a reference to the deque's front (TurnController.hpp:152), which the removal destroys before its last use; the model passes the user by value. A user object is assumed to be queued in one controller at a time, because the position is stored in it.
- VmSession.MembershipHolds: the composition is modelled on values, the turn queue and the channel each being objects of their own elsewhere; the channel's other effects of joining and leaving are left to `UserChannel` and `VoteController`.
- Votes.TallyHolds: for runs in which votes are not switched off during a round, since the cancelled round keeps the vote data (VoteController.hpp:92-95); `FirstVoteAfterCancel` says when the next tally is right. The votes' effect on the VM (`Restart` on success) is left to the lifecycle model.
- Votes.AnnouncedResult: for fewer than 2^32 users, the width of the counters.
- Votes.ResultIsMajority: for the same number of users, and for runs in which votes are not switched off during a round.
- UserLists.ReplicasStayExact: for the list messages of one channel; a rename message does not name its channel (CollabVmServer.hpp:1787-1794), so a client in two channels must tell them apart by other means. Addresses in the variant for administrators are not modelled.
- SendQueue.NothingAfterError: closing the socket after a failed write is the error itself; messages then enqueued stay in memory, as in the source.
- Framing.RoundTripIffFits: for messages of one segment or more, which is all that a message builder produces.
- GuacLifecycle.InvStep: for steps that do not create a client while the previous one is alive; `TooEarlyIff` says which starts lead there. What two clients at once do to each other is not modelled.
- GuacLifecycle.InvRun: for runs of such steps.
- GuacLifecycle.ClientLifetime: for runs of such steps, for the same reason. `guac_client_stop` in `Stop` is one step with the exchange, and `state_`, which the source leaves uninitialised, starts as stopped. The post of OnStart may follow a stop request (`PostCanFollowStop`); what precedes every stop request is the exchange that decides it. Commands, arguments, screenshots and joining users are not modelled.
- GuacLifecycle.ActiveIsTold: for the same runs.
- GuacLifecycle.WritesAreTold: for the same runs.
- GuacLifecycle.StopsAreTold: for the same runs.
- GuacLifecycle.StateIsTold: for the same runs; a connection that breaks after the start is not stopped by guac again, so nothing is said of stops in that case.
- GuacLifecycle.ReconnectStep: for the same steps.
- GuacLifecycle.NeverStranded: for the same runs, and not for a client whose thread ends before its first real instruction, because then no destructor is registered and no OnStop follows.
- Settings.UpdateKeepsAgreement: for requests that repeat no field; `UpdateAgreesIff` is the exact condition. Setting numbers are cast to 8 bits when stored, which is exact below 256 fields. What applying settings does to channels and timers is left out, except for votes and turns.
- Settings.CreateAgreesIff: for settings of known fields. The asserts of the source are taken as compiled out, and each INSERT as committed by itself.
- Captcha.ThreeFailuresAnswerAll: the failure count is not reset after a rejection, so the next outage rejects at its first failure. Resolving, connecting and the TLS handshake are one operation, and the request's text is left out. The backoff timer's duration is not modelled (it is set once, at construction).
- VmInfo.RoundRightIff: until an earlier step has written out of bounds. Thumbnails and the messages to viewers are left out. Each report is taken as one atomic step on the lists: the source calls the wrapped callback directly (CollabVmServer.hpp:2305, StrandGuard.hpp:28-33), so that it runs on the reporting VM's strand and not on that of the lists, and two reports could interleave; that is not modelled.
- VirtualMachinesLists.VirtualMachinesList.OnSingleReport: not for a VM that was removed before the callback runs; the source then dereferences an empty entry (CollabVmServer.hpp:2412).
- Settings.SettingsAreTold: for runs whose creations list a full-length list in order and whose updates repeat no field; what happens otherwise is in `CreateAgreesIff` and `UpdateAgreesIff`.
- VmInfo.ListsAgree: for runs of safe steps; `RoundRightIff` covers all others at the end of each round. Which VM has information (whether it is active) is part of the report.
- ChatHistory.HistoryIsRecent: the lengths are demanded of the caller as in the source, which does not check them here; the sender's type is not kept in the ring by the source either.
- GuestNames.GuestTable.GenerateUsername: for tables of fewer than 2^32 names, or else no free name need exist; upper case is that of the classic locale, and the random first number is a parameter.
- Totp.AcceptedIffWithinWindow: on a little-endian machine and for times from 0 on; 10^digits fits an `int` up to 9 digits, beyond which the source's conversion is undefined.
