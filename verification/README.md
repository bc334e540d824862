# A verified model of the chat server

The chat server accepts framed protobuf messages over TCP and comes in two forms: a single-process
broadcast server (`simple_broadcast/server.cc`), and a distributed one (`server.cc`) whose processes
find each other's users through the publish/subscribe channels of any number of Redis instances
(`pubsub.cc`). Both use the frame codec of `codec.cc`; `ACAutomaton.cc` is a keyword filter for chat
texts. This project models that behaviour and proves what it is meant to guarantee.

Sequential code is modelled as it is written: classes with the source's fields, methods with its loops,
each proved against a specification function or relation. Concurrent code is modelled as state machines
whose steps are single lock, queue, map and command operations; an interleaving is any sequence of steps,
and a step that is not enabled when its turn comes has no effect, so a statement about every sequence of
steps is a statement about every interleaving. The handlers of the broadcast loops, the user table and the
session index exist in both forms, and each is proved to be a run of its machine's steps; for group requests,
the commands of one request without interruption are proved to do what the handler does as one step.

| file | what it models | main results |
|---|---|---|
| `Keywords.dfy` | what the filter should do, and the theory of failure links | specification of masking; the order of the search; the cost measure |
| `ACAutomaton.dfy` | the automaton: heap trie, `insert`, `build`, `filter`, `release` | equality with the search of all substrings, exact failure links, exact list of matches, linear cost |
| `Adler32.dfy`, `Codec.dfy` | frames, parser and stream loop | the frame byte by byte, each error exactly when it is due, chunking independence, stream round trip, exact corruption detection |
| `Groups.dfy` | group requests on Redis sets, each as one step | the two families of sets stay inverse; replies are accurate |
| `GroupCommands.dfy` | the same requests command by command, interleaved | exactly which requests may be in flight together |
| `Broadcast.dfy` | fan-out of the broadcast server | one total order for all connections, everything between up and down, nothing after, and it can always drain |
| `UserTable.dfy` | its copy-on-write user table | readers and writers see an atomic map, in which the first registration of a name stays |
| `PubSub.dfy` | a Redis connection shared by callers and a listener; commands are written first and executed later | lock hand-over without deadlock, conservation of messages, shutdown |
| `ChatServer.dfy`, `Sessions.dfy`, `EmptyName.dfy` | sessions of the distributed server | three views of who is online agree; exactly when a disconnect leaves no trace; exactly when the callback's assertion can fail |
| `Progress.dfy` | the same machine | no reachable state is stuck |
| `Tracing.dfy`, `Order.dfy`, `Arrival.dfy`, `Cluster.dfy` | routing through Redis | exactly-once delivery, on one server and across a cluster; order of publishing kept for each instance; copies can always arrive |
| `FreshLogin.dfy` | the first moment after a login | exactly which publishes are missed, and a run that misses one |
| `Overtaking.dfy` | one sender's messages across instances | they arrive in order in every run exactly if there is one instance |
| `Handlers.dfy` | the handlers of `server.cc` as they are written, with whatever other threads do in between and while they wait | each takes exactly its own steps of the state machine |
| `Routing.dfy` | `publish`, `onTextMessage`, group messages | one instance for each message, one publish for each member, round robin |
| `GroupDelivery.dfy` | a group message from the Redis set to the members' connections | exactly the members, exactly once |
| `Strings.dfy` | substring search | used by both searches |

Where the code and its promises differ, the model follows the code:

- Masking can create a keyword that contains the mask character. Over the characters allowed in keywords, the
  output is free of keywords exactly if the mask character is not one of them (`Keywords.CleanExactly`), and
  filtering is idempotent exactly if it is not one of them or the only one (`Keywords.IdempotentExactly`).
- In the broadcast server the empty password logs in any name that nobody has registered
  (`UserTable.LoginExactly`).
- The distributed server forgets a connection when it disconnects exactly if it was logged in under one
  name (`Sessions.DisconnectLeavesNoTrace`, `Sessions.TwoNamesOneDisconnect`).
- The callback asserts that its channel is longer than `user.`. That can be relied on exactly if nobody may log in
  under the empty name (`EmptyName.AssertedExactly`), which the server does not forbid.
- `subscribe` returns when its command is written. A publish to a user who has just logged in is missed exactly if
  its instance has not executed the command yet (`FreshLogin.MissedExactly`), and that happens
  (`FreshLogin.FreshLoginMisses`).
- With more than one Redis, a later message of a sender can overtake an earlier one, because each goes to the next
  instance (`Overtaking.InOrderExactly`).
- A message to a user is reported as sent even when no Redis accepted it (`Routing.Sender.OnTextMessage`).
- Two group requests in flight together can leave the two families of sets in disagreement exactly if one is a
  leave, the other a create or join, and they have the group or the user in common
  (`GroupCommands.SafeExactly`).
- Adler-32 misses two changed bytes exactly when their changes cancel and they are a multiple of 65521
  apart (`Codec.TwoByteCorruption`).

## Model

| member | source | states |
|---|---|---|
| ACAutomatonModule.ACAutomaton.AddChild | ACAutomaton.cc:30-32 | A new node is added at exactly one place; all other nodes keep theirs, and the map of children stays exact. |
| ACAutomatonModule.ACAutomaton.AddPath | ACAutomaton.cc:27-34 | The trie then holds its old words and all prefixes of the inserted word, and no others; new nodes have no failure link yet. |
| ACAutomatonModule.ACAutomaton.Insert | ACAutomaton.cc:24-37 | The set of keywords grows by the word unless it is empty; the nodes are exactly the prefixes of keywords, marks are exactly the keywords, a mark's length is the depth, and existing links are untouched. |
| ACAutomatonModule.ACAutomaton.FailTarget | ACAutomaton.cc:48-59 | Once shorter words are linked, the walk finds the node of the longest proper suffix of the child's word, following no more links than the depth it loses. |
| ACAutomatonModule.ACAutomaton.LinkAll | ACAutomaton.cc:40-64 | From any trie, with whatever links an earlier build left, and for any order of children, every node ends up linked to the longest proper suffix in the trie and the root to nothing. |
| ACAutomatonModule.ACAutomaton.Build | ACAutomaton.cc:40-64 | As LinkAll, keeping the keywords; all inner walks together follow at most as many links as the distinct keywords have characters. |
| Keywords.FailWordIsLongestProperSuffix | ACAutomaton.cc:48-59 | The word a link leads to is in the trie, is a proper suffix, and every other proper suffix in the trie is a suffix of it. |
| Keywords.SearchComplete | ACAutomaton.cc:43-63 | A breadth-first search whose queue has run dry has visited every node of the trie. |
| Keywords.FrontierBound | ACAutomaton.cc:43-63 | While a node is expanded, all nodes that are no deeper have been visited; this is why the links followed are already in place. |
| Keywords.WalksAreLinear | ACAutomaton.cc:52-58 | If each walk costs no more than the depth it loses, all walks cost at most the total length of the keywords. |
| ACAutomatonModule.ACAutomaton.Step | ACAutomaton.cc:73-76 | The current node stays the longest suffix of the text read that is in the trie; links followed are paid for by depth. |
| ACAutomatonModule.ACAutomaton.Collect | ACAutomaton.cc:77-84 | Following links to the root finds exactly the keywords that end at this character, longest first. |
| ACAutomatonModule.ACAutomaton.Filter | ACAutomaton.cc:67-93 | The result equals the search of all substrings; the matches are exactly the list of occurrences; at most one link is followed for each character. |
| ACAutomatonModule.FilterWith | ACAutomaton.cc:24-93 | Inserts, build, more inserts, build again, filter: the result is the sentence with exactly the characters covered by some inserted non-empty keyword masked. |
| ACAutomatonModule.MaskAll | ACAutomaton.cc:86-92 | Overwriting the ranges of the matches gives the all-substrings filter. |
| Keywords.OccurrencesExact | ACAutomaton.cc:71-91 | The list of matches holds every occurrence of a keyword and nothing else, each once, by end and then by start. |
| Keywords.CoveredByOccurrences | ACAutomaton.cc:86-91 | A position lies in a listed match exactly when some keyword occurrence covers it. |
| Keywords.MaskedIsClean | ACAutomaton.cc:67-93 | If no keyword contains the mask character, the output contains no keyword. |
| Keywords.MaskedIdempotent | ACAutomaton.cc:67-93 | If every keyword is free of the mask character or consists of nothing else, filtering twice is filtering once. |
| Keywords.CleanExactly | ACAutomaton.cc:67-93 | Over given characters, the output is free of keywords for all keywords and sentences if and only if the mask character is not among them. |
| Keywords.IdempotentExactly | ACAutomaton.cc:67-93 | Over given characters, filtering is idempotent for all keywords and sentences if and only if the mask character is not among them or is the only one. |
| Keywords.StarKeywordSurvives | ACAutomaton.cc:86-91 | A concrete keyword set for which the output contains a keyword and a second pass changes it. |
| ACAutomatonModule.ACAutomaton.Release | ACAutomaton.cc:106-111 | Exactly the subtree is freed, each node once, none before the nodes below it. |
| Adler32.SameChecksum | codec.cc:63-67 | Two texts have equal checksums exactly when both their sums agree modulo 65521. |
| Adler32.ClosedForm | codec.cc:63-67 | The low half of the checksum is one more than the sum of the bytes, the high half the number of bytes and each byte times the number of bytes from it to the end, both modulo 65521. |
| Adler32.DetectsOneByte | codec.cc:188-193 | Changing one byte always changes the checksum. |
| Adler32.DetectsTwoBytes | codec.cc:188-193 | Changing two bytes keeps the checksum exactly when the changes cancel and the distance is a multiple of 65521. |
| Codec.AsInt32OfPrint | codec.cc:125-130 | Reading back a printed 32-bit integer gives it, negative ones included. |
| Codec.PrintOfAsInt32 | codec.cc:125-130 | Every four bytes are the print of the integer they are read as. |
| Codec.NetworkOrder | codec.cc:125-130 | The four bytes of a printed integer, most significant first, are its value, or its two's complement. |
| Codec.FillEmptyBuffer | codec.cc:22-71 | The buffer then holds the frame of the message: length, name length, name, NUL, payload, checksum. |
| Codec.FrameBytes | codec.cc:22-71 | The frame byte by byte: its length without the first four bytes, the length of the name with its NUL, the name, the NUL, the serialized message, and the Adler-32 of everything after the first length. |
| Codec.ParseOfBody | codec.cc:183-232 | Parsing the printed body of a sendable message gives the message. |
| Codec.NamedBody | codec.cc:195-219 | With checksum and name length right, the answer is UnknownMessageType for an unknown name, ParseError for a known one that cannot read what follows, and otherwise the message, whatever byte ends the name. |
| Codec.NameLengthDecides | codec.cc:194-224 | With the checksum right, InvalidNameLen is the answer exactly if the printed name length is below 2 or above the body's length less 8. |
| Codec.FrontDecides | codec.cc:136-163 | From fourteen bytes on, a frame is refused for its length exactly if the printed length is below 10 or above 64 MiB, waited for exactly while it is incomplete, and parsed otherwise. |
| Codec.InvalidLengthExactly | codec.cc:139-143 | Decoding reports InvalidLength before delivering anything exactly in that case. |
| Codec.StopsAtError | codec.cc:136-163 | Frames before a refused one are delivered; then its error is reported, and it stays in the buffer with all that follows. |
| Codec.ReadFrontOfFrame | codec.cc:136-151 | A printed frame at the front of a buffer is read as its message, whatever follows it. |
| Codec.FrontIsStable | codec.cc:136-163 | Once a frame at the front is complete or refused, further bytes change nothing about it. |
| Codec.DecodeContinues | codec.cc:132-164 | Decoding more bytes continues from the residue; after an error nothing more is delivered and the same error is found again. |
| Codec.OnMessage | codec.cc:132-164 | One call delivers, leaves buffered and reports what the decoding function says of the buffered bytes. |
| Codec.ChunkingIndependence | codec.cc:132-164 | Any split of a stream into chunks gives the same messages, residue and first error as the stream at once. |
| Codec.StreamRoundTrip | codec.cc:22-71 | The frames of any sendable messages, in any chunks, are delivered as exactly those messages, and the buffer ends empty. |
| Codec.OneByteCorruption | codec.cc:188-193 | Any changed byte of a valid body, its checksum included, is reported as a checksum error. |
| Codec.TwoByteCorruption | codec.cc:188-193 | Two changed bytes under the checksum are reported unless the changes cancel at a distance that is a multiple of 65521. |
| Groups.KeysAreDistinct | server.cc:490-500 | No two groups or users share a key, within a family or across. |
| Groups.AddBoth | server.cc:498-500 | The two SADDs add one pair to the relation, and their replies agree. |
| Groups.RemoveBoth | server.cc:539-541 | The two SREMs remove one pair, and their replies agree. |
| Groups.DropIfEmpty | server.cc:545-561 | The DEL after SCARD finds nothing to delete. |
| Groups.OnGroupRequest | server.cc:480-600 | Both families of sets show the relation after the request; the reply is accurate for the relation before it; the joined groups are exactly those containing the user, each once. |
| Groups.Serve | server.cc:480-600 | Over any run of requests the families stay inverse, no set is empty, and every request is answered for what its predecessors left. |
| Groups.SuccessMeansChange | server.cc:494-576 | For create, join and leave, success is reported exactly when membership changed, and an error message exactly when it did not. |
| Groups.ErrorsExactly | server.cc:494-576 | Each of the five error messages is given in exactly one situation, said of the members of the group before the request. |
| Groups.LeaveUndoes | server.cc:535-562 | Leaving undoes a successful create or join. |
| Groups.RunFrame | server.cc:480-600 | Requests about other pairs of group and user leave a membership as it is. |
| Groups.InterleavedLeaveBreaks | server.cc:545-551 | A late DEL after another user's create leaves sets that show no relation. |
| GroupCommands.AloneIsOneStep | server.cc:480-600 | A request that starts with none in flight, and whose commands nothing interrupts, has the effect of onGroupRequest as one step. |
| GroupCommands.ApartStaysConsistent | server.cc:480-600 | Over every interleaving of the commands of any number of requests, no two conflicting ones in flight together: whenever none is in flight, the families are inverse to each other. |
| GroupCommands.CarefulStaysConsistent | server.cc:545-561 | The same, if instead no leave meets a create or join of the same pair and every DEL finds its set empty. |
| GroupCommands.DelKeepsExactly | server.cc:547-551 | A DEL of a group's set keeps the families inverse if and only if it finds the set empty. |
| GroupCommands.SafeExactly | server.cc:480-600 | Two requests are harmless to each other in all interleavings and on all sets if and only if they do not conflict: one a leave, the other a create or join, with the group or the user in common. |
| Broadcast.RunKeepsInv | simple_broadcast/server.cc:67-124 | In every interleaving each loop's queue is a window of the lock order, and each connection has received a window of it. |
| Broadcast.TotalOrder | simple_broadcast/server.cc:95-124 | What a connection received is a contiguous block of the order in which handlers took the lock, starting no later than the first message sent after it came up. |
| Broadcast.ConnectionsAgree | simple_broadcast/server.cc:95-124 | What any two connections received agrees position by position, shifted by the distance between their starts in the lock order. |
| Broadcast.StartIsFixed | simple_broadcast/server.cc:78-93 | A connection's start in the lock order never changes after it came up, so that shift is the same for good. |
| Broadcast.NothingIsLost | simple_broadcast/server.cc:95-124 | When the queues have drained, a connection that is up has received everything up to the last message. |
| Broadcast.UpExactly | simple_broadcast/server.cc:78-93 | In every interleaving a loop holds exactly the connections that came up in it and have not gone down. |
| Broadcast.EverythingAfterUp | simple_broadcast/server.cc:78-124 | When the queues have drained, a connection that came up and has not gone down has received everything sent after it came up, and before that only the last messages, in lock order and each once. |
| Broadcast.NothingAfterDown | simple_broadcast/server.cc:89-92 | After a connection went down, over every continuation, no loop holds it and nothing more is sent on it. |
| Broadcast.CanBecomeQuiet | simple_broadcast/server.cc:95-124 | From every reachable state, with nobody sending, connecting or disconnecting, all queues can drain. |
| Broadcast.ChatServer.ThreadInit | simple_broadcast/server.cc:67-76 | The loop joins with an empty queue and no connections; the new state is that of one machine step. |
| Broadcast.ChatServer.OnConnection | simple_broadcast/server.cc:78-93 | The connection is added to, or taken from, its loop's connections and no other; the new state is that of one machine step, up or down. |
| Broadcast.ChatServer.OnTextMessage | simple_broadcast/server.cc:95-113 | Is a run of lock, queue and unlock steps; every loop's queue grows by the message, once. |
| Broadcast.ChatServer.DistributeTextMessage | simple_broadcast/server.cc:115-124 | Is a run of the loop's steps; every connection of the loop receives the message, once, and no other does. |
| UserTable.RunKeepsInv | simple_broadcast/server.cc:137-146 | In every interleaving each use count is the number of pointers, every pointer leads to a live map, and no map without pointers is left. |
| UserTable.UniqueHolds | simple_broadcast/server.cc:182-188 | Whenever emplace is about to run, the map has no reader: the assertion holds. |
| UserTable.LiveCount | simple_broadcast/server.cc:238-242 | The use count of the live map is one plus its readers. |
| UserTable.ReadersUndisturbed | simple_broadcast/server.cc:213-225 | No step changes or frees a map that a reader holds. |
| UserTable.LiveMapIsTable | simple_broadcast/server.cc:179-189 | The live map is the simple atomic table, but for the write of the thread inside the lock. |
| UserTable.ReadersSeeTheTable | simple_broadcast/server.cc:238-242 | From copying the pointer to releasing it, a reader sees exactly the atomic table of the moment of the copy. |
| UserTable.RegistrationsAreAtomic | simple_broadcast/server.cc:168-204 | Registrations are answered as the atomic table answers them, in lock order. |
| UserTable.TableIsFirst | simple_broadcast/server.cc:179-189 | The atomic table holds exactly the names that have been registered, each with the password of its first registration, whatever was registered later. |
| UserTable.FirstSucceeds | simple_broadcast/server.cc:188-201 | A registration is answered with success exactly if it is the first of its name. |
| UserTable.OneMapWhenQuiet | simple_broadcast/server.cc:179-189 | With no reader and the lock free, exactly one map is left. |
| UserTable.NobodyWaits | simple_broadcast/server.cc:179-189 | The thread inside the lock can always take its next step, and a reader can always release its pointer. |
| UserTable.LoginMeansRegistered | simple_broadcast/server.cc:133-152 | Success implies a registered pair exactly when the password is not empty or the name is registered. |
| UserTable.RegisteredCanLogin | simple_broadcast/server.cc:133-188 | After the first registration of a name, whatever is registered later, its password and no other logs in. |
| UserTable.ChatServer.OnLoginRequest | simple_broadcast/server.cc:126-166 | Decides by the map of the moment it got the pointer, whatever others do while it waits and reads; its own steps are taking the lock, copying the pointer, leaving, and releasing the pointer, and the state it leaves is that of these steps among the others'. |
| UserTable.ChatServer.OnRegisterRequest | simple_broadcast/server.cc:168-204 | Succeeds exactly if the name is new, and leaves the table as it is otherwise; changes the map in place when it is the only pointer, and otherwise installs a changed copy at a new address and leaves the readers' map as it was; its own steps are those of the machine's registration, with the copy exactly if there are readers. |
| UserTable.ChatServer.OnSearchRequest | simple_broadcast/server.cc:206-228 | Lists exactly the names that contain the keyword, at any position, in the map of the moment it got the pointer, each once; the steps and the state it leaves are those of a login. |
| Strings.ContainsExactly | simple_broadcast/server.cc:220 | A name contains the keyword exactly if it is something, the keyword, and something. |
| PubSub.RunKeepsInv | pubsub.cc:53-99 | In every interleaving the mutex has one holder, a finished call's command has been written, and a listener that may block has a reply, will get one, or can be woken. |
| PubSub.MutualExclusion | pubsub.cc:53-99 | While one thread writes a command, no other does and the listener does not read. |
| PubSub.CanAlwaysLock | pubsub.cc:53-63 | A thread in subscribe or unsubscribe gets the mutex within three steps by itself, Redis, the mutex's owner and the listener, from every reachable state. |
| PubSub.CallbacksArePublished | pubsub.cc:150-192 | The callback has received a prefix of the messages published on subscribed channels, in order, each once, and all of them when nothing is left to read. |
| PubSub.CallbacksAreMessagesRead | pubsub.cc:165-188 | The callback sequence is exactly the messages among the replies read, without the unlock channel. |
| PubSub.EveryCommandAcknowledged | pubsub.cc:65-99 | Every command written, the constructor's first, is acknowledged once and in order, or not yet executed. |
| PubSub.StopsSoon | pubsub.cc:152-163 | After stop the listener takes at most five more steps and consumes at most one more reply, and that only if it had passed the loop test. |
| PubSub.CanAlwaysFinish | pubsub.cc:46-51 | After stop, from every reachable state, some continuation ends the listener. |
| ChatServer.StepKeepsInv | server.cc:198-242 | Every step of every thread keeps the agreement of sessions, lock, calls, subscriptions and callbacks. |
| ChatServer.AgreeStays | server.cc:356-392 | A login, logout or lock step of any loop keeps a loop's own connections and the session index in agreement. |
| ChatServer.SubscriptionAfterRedis | server.cc:182-196 | A step of any instance keeps the requested subscriptions equal to the session index, but for the lock holder's user. |
| ChatServer.SubscriptionAfterSession | server.cc:198-218 | So does every step on the session index. |
| Sessions.IndexAgrees | server.cc:356-392 | A loop is in the index for a user exactly when it has a connection of the user, except for the one pair it is changing. |
| Sessions.NoEmptySets | server.cc:384-385 | Neither map keeps an empty set, and connections are filed in their own loop. |
| Sessions.SubscribedWhileOnline | server.cc:198-218 | Subscriptions are requested for users in the index on every instance at all times, and for nobody else when no thread holds the lock exclusively; an instance that has executed all commands has exactly the requested ones. |
| Sessions.ThreeViewsAgree | server.cc:198-218 | With no loop in between, having a connection, being in the index and having been subscribed on each instance are the same, and on an instance that has caught up so is being subscribed. |
| Sessions.OnlyUserChannels | server.cc:223 | Only users' channels ever reach the callback. |
| EmptyName.AssertionHolds | server.cc:223 | In every run whose logins are all under names among the given ones, the empty name not among them, the callback's assertion holds. |
| EmptyName.AssertionFails | server.cc:223 | A run, whose only logins are under the empty name, in which it does not. |
| EmptyName.AssertedExactly | server.cc:223 | For given names that may log in, the assertion holds in all runs if and only if the empty name is not among them. |
| Sessions.SearchSeesOneMoment | server.cc:447-458 | What an online-only search has found, whatever runs beside it, is exactly the matching users of the moment it took the lock. |
| Sessions.CallsOnlyAtTheEdges | server.cc:198-218 | While a loop is inside subscribe or unsubscribe for a user, the index does not have the user: only the first login subscribes and only the last logout unsubscribes. |
| Sessions.LogsInAtHome | server.cc:338-373 | A connection belongs for good to the loop in which it came up, and that loop, and no other, can log it in, whenever it is at its queue. |
| Sessions.LoggedInExactly | server.cc:356-392 | In every interleaving a loop holds a connection under a name exactly if it logged in under the name and has not been logged out of it since. |
| Sessions.LogoutRemovesOneName | server.cc:375-392 | A logout removes the connection from one name and touches no other connection. |
| Sessions.DisconnectLeavesNoTrace | server.cc:375-392 | After a disconnect the connection is in no map exactly if it was held under one name. |
| Sessions.TwoNamesOneDisconnect | server.cc:389 | A run in which it is not. |
| Sessions.GoneReceivesNothing | server.cc:315-392 | Over any run in which a connection that is in no map does not log in again, nothing is sent on it. |
| Progress.CanLock | pubsub.cc:53-63 | The holder of the exclusive lock gets an instance's mutex: only the listener can have it. |
| Progress.HolderCanFinish | server.cc:198-218 | A thread holding the lock exclusively can always finish its calls on all instances and release it. |
| Progress.SharedCanFinish | server.cc:228-236 | All callbacks and searches holding the lock shared can finish and release it. |
| Progress.LoopCanFinish | server.cc:356-392 | Whatever a loop is doing, it can get back to its queue. |
| Progress.CallbackCanFinish | server.cc:220-242 | Whatever a callback is doing, it can return to the listener. |
| Progress.NobodyIsStuck | server.cc:198-242 | Both, from every reachable state, without any new request. |
| Tracing.CopiesStep | server.cc:166-242 | While a connection stays logged in, a step adds a copy exactly if it is a publish for its user on an instance that has executed the subscription, and loses or repeats none. |
| Tracing.ExactlyOnceAccepted | server.cc:166-242 | Over any interleaving, a logged-in connection's copies grow by exactly the number of such publishes. |
| Tracing.MissedOnlyWhilePending | pubsub.cc:65-76 | A publish for a user who is online is missed only while the SUBSCRIBE is written and not yet executed on that instance. |
| FreshLogin.MissedExactly | pubsub.cc:65-76 | A publish for a user with a logged-in connection gives it no copy if and only if the instance has not executed the subscription. |
| FreshLogin.FreshLoginMisses | pubsub.cc:65-76 | For every user, a run to a state in which the login is complete, nothing has been executed, and a publish that succeeds leaves no trace. |
| Tracing.ExactlyOnce | server.cc:166-242 | From a moment at which all instances have executed the subscription, over any interleaving, a logged-in connection's copies grow by exactly the number of publishes to its user. |
| Tracing.ReceivedAsPublished | server.cc:166-325 | Between two drained moments it received the message exactly as often as it was published. |
| Tracing.OnlyHoldersReceive | server.cc:315-325 | A connection receives on behalf of a user only while logged in as that user. |
| Tracing.StrangersReceiveNothing | server.cc:315-325 | Over any run in which a connection is never logged in as a user, it receives nothing on that user's behalf. |
| Order.OrderKept | server.cc:220-242 | Texts for a user that are published on one instance form one line, received, being sent, queued and on the way, which only grows at its end, in the order of the publishes. |
| Order.ReceivedInOrder | server.cc:315-325 | What a connection has received of them is a prefix of what was published, in that order. |
| Overtaking.InOrderExactly | server.cc:166-179 | What a settled connection receives of one sender's messages to it is, in every run, a prefix of them in sending order, if and only if there is one instance. |
| Arrival.CanDrain | server.cc:220-242 | From every reachable state, without new requests, everything on its way to a loop can arrive. |
| Arrival.CopiesCanArrive | server.cc:315-325 | All copies for a connection can be received by it while it stays logged in. |
| Cluster.ServersBehave | server.cc:182-188 | Each server of a cluster behaves as one server among publishes from outside. |
| Cluster.UnlockWakesEverybody | pubsub.cc:55-63 | A caller waiting for its mutex sends the unlock message to the listener of every server on that Redis that is subscribed to it. |
| Cluster.ExactlyOnceEverywhere | server.cc:166-188 | Across any number of servers, each connection of a user gets one copy for every publish, by whichever server and on whichever instance, once its server's subscriptions have been executed. |
| Cluster.CopiesCanArriveEverywhere | server.cc:315-325 | All copies on their way to a connection of any server can be received by it, without any further publish. |
| Routing.RouteExactly | server.cc:166-179 | A message is accepted by exactly one instance, the first in cyclic order that works, if any does, and the thread's index moves on to the next after it; otherwise by none, and the index stays. |
| Routing.GroupReachesEachMemberOnce | server.cc:279-295 | A group message is one publish for each reachable member and none for anybody else. |
| Routing.RoundRobin | server.cc:166-179 | With every instance working, a group's messages go to the members in order and to the instances in turn. |
| GroupDelivery.GroupMessageReachesExactlyItsMembers | server.cc:279-325 | In any interleaving of any number of servers, among any other publishes, a group message adds exactly one copy for every connection of each member that some instance accepted it for, and none for others; the members are those in the group's Redis set. |
| Routing.Sender.Publish | server.cc:166-179 | The retry loop does what the routing function says, and keeps each thread's index apart. |
| Routing.Sender.OnTextMessage | server.cc:244-277 | One publish for a user, one task for a group, an error otherwise; the reply to a user message is success whether or not it was accepted. |
| Routing.Sender.ProcessGroupMessage | server.cc:279-313 | One publish for each member in the order of the reply, and the three answers. |
| Sessions.OnlyTheWriterCalls | pubsub.cc:53-99 | In every interleaving a thread inside subscribe or unsubscribe is the exclusive holder of the session index; while nobody holds it, nobody is inside. |
| Handlers.Server.Acquire | pubsub.cc:55-63 | The loop around the timed lock, with any number of failed attempts, each publishing the unlock message, and whatever the others do after each: it ends with the mutex free, or the others never let go of it; the index, the lock and the requested subscriptions are as they were. |
| Handlers.Server.Call | pubsub.cc:53-99 | One subscribe or unsubscribe, interrupted by the others at every step: its own steps are enter, lock, write, return; it changes what is requested of that instance by the command and nothing at any other. |
| Handlers.Server.Subscribe | server.cc:182-188 | Requests the channel on every instance in turn, interrupted at every step, and takes exactly these calls' steps. |
| Handlers.Server.Unsubscribe | server.cc:190-196 | Takes the request back on every instance in turn, likewise. |
| Handlers.Server.AddUserToOnlineUsers | server.cc:198-206 | Whatever the others do before it has the lock and between its steps: the index of the moment it gets the lock gains the loop and nothing else; its own steps are lock, subscribing everywhere exactly if the user was not in that index, insert. It fails to end only if the others never release a lock it needs. |
| Handlers.Server.RemoveUserFromOnlineUsers | server.cc:208-218 | Likewise, the index loses the loop, and the user with the last one, exactly when the channel is unsubscribed everywhere. |
| Handlers.Server.OnLoginRequest | server.cc:338-373 | Succeeds exactly for the stored, non-empty password; a success files the connection and, by the index of the moment it gets the lock, the loop, and takes exactly these steps; a failure changes nothing. |
| Handlers.Server.Logout | server.cc:375-392 | Logs the connection out of one user it is filed under, and the loop out of the index of the moment it gets the lock exactly if that was the loop's last connection of the user, by exactly these steps; changes nothing if there is none. |
| Handlers.Server.OnRedisPubSubMessage | server.cc:220-242 | Whatever all other threads and callbacks do before it gets the lock: one functor for each loop the user is online in then, and nothing else, by exactly its lock, queue and unlock steps. |
| Handlers.Server.OnSearchRequest | server.cc:441-458 | Lists exactly the users of the session index, at the moment it gets the lock, whose names contain the keyword at any position, each once, with the others at work between any two of its steps, and looks at every user there. |
| Handlers.Server.SendTextMessage | server.cc:315-325 | Sends to exactly the loop's connections of the user, once each, by exactly its own steps. |

## Left out

- TLS (`SSL_Helper.cpp`, `ssl_server.cpp`, `ssl_client.cpp`, `cert.cpp`), the clients and the load tests.
- `simple_broadcast/codec.cc` and the dispatchers: a copy of the top-level codec, and a lookup in a map.
- Protobuf serialization and the descriptor pool: parameters of the codec model. UTF-8: the filter works on code points, and a word is empty exactly when its bytes are.
- Codec.FillEmptyBuffer: excludes bodies of 2 GiB or more, which protobuf refuses to serialize.
- Integer overflow of `int` positions and lengths beyond 2^31 in the filter; lengths in the codec are cast to 32 bits as in the source.
- Login, logout and search in `Handlers.dfy` are proved for any steps of other threads between any two of their own. The callback and the sending loop there, and the handlers in `Broadcast.dfy` and `UserTable.dfy`, are proved for any such steps while they wait for a lock or read without one, if they do either, and for none in the middle of a fan-out or of a registration; all schedules are the subject of the state machines.
- `stop` and `messageListener` have no sequential form, only the state machine of `PubSub.dfy`: they matter for how they interleave with other threads. `subscribe` and `unsubscribe` have both.
- Redis is reliable: it executes the commands of a connection in the order written, at any later time, and replies and published messages keep their order for each connection. Timeouts, sleeps, reconnects, failing writes in `subscribe` and cluster mode are left out; a timed lock attempt may fail at any moment, and a publish may fail as a whole.
- A thread waiting for a mutex may be overtaken: progress is stated as the existence of a finite continuation from every reachable state, without assuming a fair scheduler.
- Text passed to Redis through `c_str()` is cut at an embedded NUL; texts and names are taken to have none.
- muduo's event loop: one thread for each loop, a FIFO of functors, and connections that stay in their loop.
- `stop` in the distributed server, which never calls it; `PubSub.dfy` covers it.
- The replies to group requests whose commands interleave: `GroupCommands.dfy` is about the sets; replies are proved for requests as one step. Conflicts are exact for two requests; for more, pairwise absence of conflicts is proved sufficient.
- `onRegisterRequest` of `server.cc` and its search among all users: one Redis command each.
- The use count in `UserTable.dfy` is read and written atomically, as `std::shared_ptr` does.
