# A verified model of a distributed chat node

`DistributedChat::Node` is one peer of a chat group with no central server.
Every peer binds a queue to one fanout exchange. Each envelope a peer publishes
reaches every peer, the publisher included. The peers agree among themselves
on who is in the group and who leads it. This project models the node's
coordination logic in Dafny and proves what it guarantees:

- **The users table** (`Membership`). It is a Ruby Hash from name to
  `{start_time, is_leader, last_modified}`. It iterates in insertion order, so
  the model keeps that order (`Table.names`) next to the records.
  - An upsert overwrites the whole record.
  - A delete removes only its key.
  - `current_leader` is the first key, in iteration order, whose record is
    flagged leader.
- **The bully election** (`Election`). The candidates are the node itself plus
  every record refreshed since the round began. The earliest `start_time`
  wins. The comparison is strict, so a tie never displaces the node itself;
  among other records, the first in iteration order wins.
- **The operator's input line** (`InputLine`).
  - A line starting with `\` is a command.
  - A line starting with `!` must match `/^!(\w+)\s+(\w+)/`. The parser is
    proved to find a match exactly when the regular expression has one.
  - Any other line is a chat message.
  - Nothing is published while the node is silenced.
- **The node's steps as functions of its state** (`NodeSpec`): the roll call,
  the end of the connection window, the dispatcher `handle_incoming_info`, the
  end of an election window, one operator line, `leave_chat` and
  `exit_program`. Their postconditions state what the source guarantees:
  - Only an authorised `silence`/`unsilence`/`remove` changes `silenced` or
    the lifecycle state. Authorised means the sender has a record flagged
    leader and the target is this node.
  - Only an announce in state `connected`, an `alive`, a `victory` or another
    node's `leave` touches the table.
  - Only an election `announce` from another node, received while connected,
    starts a round.
  - The bootstrap either ends the session on a taken name, or connects the
    node. It makes the node leader if the table was empty, and adds the node
    to its own table.
  - The election makes the node leader and publishes `victory` exactly when
    the node is the winner.
- **The `Node` class** (`ChatNode`). It has the source's fields, plus an
  `outbox` standing for the exchange and the list of election rounds still
  waiting. Every method updates the fields in place, as the Ruby does. Each is
  proved to take exactly the step that its `NodeSpec` function describes.
  `current_leader` and the election's selection loop are `while` loops proved
  against their specifications.

Design choices:

- **Time.** The clock is a `now` parameter.
- **Grace windows.** Each window (the two `sleep`s) is an atomic
  "window elapsed" method that acts on the table as it is when the window
  ends. `do_election` is split at its `sleep`. `StartElection` publishes
  `alive` and records the round. `ElectionWindowElapsed` ends the oldest
  waiting round.
- **Missing sender name.** The envelope's `name` may be absent. Then
  `add_to_users` warns and stores nothing, `sent_by_leader?` is false, and
  `is_same_user?` is false.
- **Victory from an unknown sender.** Such a victory makes Ruby dereference
  `nil` (node.rb:194), so the handler raises. The model reports this as
  `fault = true` and changes nothing.
- **End of the process.** Three things end the process:
  - `Kernel#exit` after a taken name (node.rb:70);
  - `Kernel#exit` after an obeyed `remove` (node.rb:152). The `SystemExit`
    raised in the handler thread reaches the main thread, and `run` rescues
    only `Interrupt`;
  - `run` returning (node.rb:51-56).

  The model records this in `exited`. After that, no step changes anything:
  no delivery, no window end, no input line. So a removed node stays done
  (`NodeSpec.RemovedNodeStaysDone`, `NodeSpec.ExitIsFinal`).

Where the protocol's intended behaviour and the code disagree, the model
follows the code:

- **A handler can raise.** This happens on a victory from an unknown sender
  (see above).
- **Election rounds are not coalesced.** Every election `announce` from
  another node, received while connected, starts another round.
- **A removed node sends no `leave`.** The remove handler sets the state to
  done before it calls `exit_program`. So `leave_chat` publishes no `leave`;
  it only calls an election if the node was leader.
- **Remove works while connecting.** A `remove` directive is obeyed in any
  state, not only once connected.

## Model

| member | source | states |
|---|---|---|
| Membership.Empty | distributed_chat/node.rb:25 | a new node's table is empty |
| Membership.Upsert | distributed_chat/node.rb:215-228 | the named record becomes exactly the new one (no merge); every other name keeps its record; an existing name keeps its place in iteration order and a new one goes last |
| Membership.Without | distributed_chat/node.rb:230-232 | deleting a key leaves every other key and no duplicate; deleting an absent key changes nothing |
| Membership.WithoutKeepsOrder | distributed_chat/node.rb:230-232 | `Hash#delete` keeps the other keys in their order: deleting the key at position k leaves the keys before it, then the keys after it |
| Membership.Remove | distributed_chat/node.rb:230-232 | only that key is deleted, the other records are untouched, the remaining keys keep their iteration order (`Without`), and deleting an absent key is a no-op |
| Membership.MarkLeader | distributed_chat/node.rb:191-194 | a victory flags exactly the sender's record leader and changes nothing else in the table |
| Membership.NoNamesIffEmpty | distributed_chat/node.rb:75-77 | `users.keys.size == 0` holds exactly when the table is empty |
| Membership.FirstLeaderFrom | distributed_chat/node.rb:236-241 | the scan from a position finds nothing iff no later record is flagged leader, else the first such key |
| Membership.FirstLeader | distributed_chat/node.rb:234-243 | current_leader is none iff no record is flagged leader; otherwise it is a key flagged leader, the first in iteration order |
| Membership.FirstLeaderUnique | distributed_chat/node.rb:234-243 | the description of current_leader fits exactly one answer |
| Membership.ReplayKeepsLastRefresh | distributed_chat/node.rb:215-228 | after any sequence of upserts each name holds its last refresh, and a name never refreshed keeps its old record |
| Membership.UpsertIdempotent | distributed_chat/node.rb:215-228 | applying the same refresh twice equals applying it once |
| Membership.SentByLeader | distributed_chat/node.rb:257-260 | a sender without a name is never the leader; a sender with a record flagged leader implies the group has a current leader |
| Election.Live | distributed_chat/node.rb:297 | a candidate of the round is a position of the table whose record was refreshed at or after the round began |
| Election.Scan | distributed_chat/node.rb:300-308 | after the first n records the loop holds the earliest start time seen so far (never above the node's own), the node itself on a tie, otherwise the first candidate with that start time |
| Election.ElectionWinner | distributed_chat/node.rb:297-308 | the winner is the node itself when no candidate started earlier; otherwise it is a candidate refreshed since the round began, whose start time is below the node's own and at most every candidate's, and no earlier candidate ties with it |
| Election.WinnerUnique | distributed_chat/node.rb:297-308 | a round has exactly one winner |
| Election.SeniorityExample | distributed_chat/node.rb:297-308 | with fresh candidates A:100, B:50, C:75, B wins whichever of them runs the election |
| InputLine.Chomp | distributed_chat/node.rb:90 | chomp keeps a prefix and removes exactly one trailing "\r\n", "\n" or "\r": two characters only for "\r\n", which it always removes, one only for a line break, and none only when the string does not end in one |
| InputLine.WordRunEnd | distributed_chat/node.rb:98 | `\w+` is greedy: the run ends at the first non-word character |
| InputLine.SpaceRunEnd | distributed_chat/node.rb:98 | `\s+` is greedy: the run ends at the first non-space character |
| InputLine.MatchDirective | distributed_chat/node.rb:98-99 | a match starts with `!` and captures two non-empty words of `\w` characters |
| InputLine.RunsOfShape | distributed_chat/node.rb:98 | wherever the regular expression matches, the parser's runs end exactly at the match's boundaries |
| InputLine.MatchDirectiveCorrect | distributed_chat/node.rb:98-104 | the parser succeeds iff `/^!(\w+)\s+(\w+)/` matches the line, and then returns the two greedy captures |
| InputLine.ClassifyInput | distributed_chat/node.rb:94-114 | suppressed iff silenced; otherwise a `\` line is a command, a `!` line is a directive with the regex's two words iff it matches and is rejected iff not, and any other line is a message |
| NodeSpec.Initial | distributed_chat/node.rb:21-26 | a node starts with its own name and the start time read at creation (its election priority), connecting, not leader, not silenced, not exited, with an empty table and nothing published |
| NodeSpec.SameUser | distributed_chat/node.rb:253-255 | an envelope without a name is never the node's own |
| NodeSpec.AddToUsers | distributed_chat/node.rb:215-228 | with a name the sender's record becomes {start_time, is_leader, now}; without one the table is unchanged and a warning is shown |
| NodeSpec.LeaveChat | distributed_chat/node.rb:319-328 | a connected node publishes `leave`; a leader then publishes an election `announce`; nothing else changes |
| NodeSpec.ExitProgram | distributed_chat/node.rb:330-337 | after leaving, the state is done and the table and flags are unchanged |
| NodeSpec.Shutdown | distributed_chat/node.rb:51-56 | at the end of run, exit_program runs and the process ends: done and exited; an ended process is left as it is |
| NodeSpec.RequestRollCall | distributed_chat/node.rb:263-267 | start-up publishes a `roll_call` directive and changes nothing else |
| NodeSpec.AfterConnectWindow | distributed_chat/node.rb:67-82 | after the process has ended nothing happens; a taken name runs exit_program and exits (done, never connected); otherwise the node is leader iff it was or the table was empty, is connected, announces itself with first_time set, and is in its own table with its start time, leader flag and now |
| NodeSpec.OnDirective | distributed_chat/node.rb:132-158 | roll_call re-announces and nothing else; silence, unsilence and remove take effect exactly when the sender is flagged leader and the target is this node, each with its exact new state (remove: done, exit_program's envelopes, exited); an unauthorised one or any other directive changes nothing, and only the author of an unknown directive is told; only a roll call or an obeyed remove publishes |
| NodeSpec.OnCommand | distributed_chat/node.rb:159-174 | commands show one line only for the node's own echo; `\current_leader` shows current_leader |
| NodeSpec.OnAnnounce | distributed_chat/node.rb:127-131 | only an announce in state connected upserts its sender; otherwise nothing changes and nothing is shown; another node's first announce is shown |
| NodeSpec.OnLeave | distributed_chat/node.rb:175-179 | another node's leave is shown and deletes exactly its key; the node's own leave changes nothing and shows nothing |
| NodeSpec.OnElection | distributed_chat/node.rb:180-197 | an announce from another node while connected publishes `alive` and starts a round, and only that publishes; alive upserts unconditionally; victory flags only the sender's record, or raises for an unknown sender and changes nothing |
| NodeSpec.Dispatch | distributed_chat/node.rb:120-201 | nothing is delivered after the process ended; the handler never changes is_leader; `silenced`, the state, exited, the table, the rounds and the outbox change only on the envelopes the source acts on, and the three that publish append exactly the roll-call answer, exit_program's envelopes or `alive`; an announce upserts iff its state is connected; another node's leave removes it, the node's own changes nothing; unknown directives, unknown types, commands and chat messages change nothing; another node's message is shown, its own is not |
| NodeSpec.AfterElectionWindow | distributed_chat/node.rb:297-316 | after the process has ended nothing happens; otherwise the oldest round ends; if the winner is this node it becomes leader and publishes `victory`, otherwise nothing local changes |
| NodeSpec.OnInputLine | distributed_chat/node.rb:90-115 | the loop ends on `bye` or once done; while silenced nothing is published; otherwise exactly the classified envelope is published, or nothing for a rejected line |
| NodeSpec.LoneNodeBootstrap | distributed_chat/node.rb:67-82 | a node alone in the group becomes connected leader and the only name in its table |
| NodeSpec.ConnectingAnswerIsIgnored | distributed_chat/node.rb:127-136 | a connecting node answers a roll call with an announce in state connecting, which no table stores |
| NodeSpec.DuplicateNameEndsSession | distributed_chat/node.rb:67-71 | if another node announced this name during the window, the session ends, never connected |
| NodeSpec.RemovedNodeStaysDone | distributed_chat/node.rb:147-153 | a node removed while its connection window is open is done and exited, and the end of the window, which would otherwise connect it, changes nothing |
| NodeSpec.ExitIsFinal | distributed_chat/node.rb:67-71 | once the process has ended, no delivery, window end, input line or shutdown changes the state, publishes or shows anything |
| NodeSpec.RefreshRedeliveryIdempotent | distributed_chat/node.rb:127-131 | delivering the same announce or alive twice at the same time leaves the state of one delivery |
| ChatNode.Node.constructor | distributed_chat/node.rb:21-35 | the fields start as NodeSpec.Initial says |
| ChatNode.Node.Publish | distributed_chat/node.rb:210-213 | publishing appends the envelope to the outbox and changes nothing else |
| ChatNode.Node.RequestRollCall | distributed_chat/node.rb:263-267 | takes the NodeSpec.RequestRollCall step |
| ChatNode.Node.AnnounceSelf | distributed_chat/node.rb:269-273 | publishes the node's start time, leader flag, state and first_time flag |
| ChatNode.Node.AnnounceElection | distributed_chat/node.rb:275-279 | publishes an election announce stamped now |
| ChatNode.Node.AnnounceAlive | distributed_chat/node.rb:281-284 | publishes alive with the node's start time, leader flag and state |
| ChatNode.Node.AnnounceVictory | distributed_chat/node.rb:286-289 | publishes victory |
| ChatNode.Node.AddToUsers | distributed_chat/node.rb:215-228 | takes the NodeSpec.AddToUsers step on the users field |
| ChatNode.Node.RemoveFromUsers | distributed_chat/node.rb:230-232 | deletes the key from the users field and changes nothing else |
| ChatNode.Node.CurrentLeader | distributed_chat/node.rb:234-243 | the loop with break returns current_leader: none iff no record is flagged leader |
| ChatNode.Node.LeaveChat | distributed_chat/node.rb:319-328 | takes the NodeSpec.LeaveChat step |
| ChatNode.Node.ExitProgram | distributed_chat/node.rb:330-337 | takes the NodeSpec.ExitProgram step |
| ChatNode.Node.Shutdown | distributed_chat/node.rb:51-56 | takes the NodeSpec.Shutdown step |
| ChatNode.Node.Kick | distributed_chat/node.rb:149-152 | an obeyed remove: done, exit_program, then the process ends |
| ChatNode.Node.ConnectionWindowElapsed | distributed_chat/node.rb:61-86 | takes the NodeSpec.AfterConnectWindow step |
| ChatNode.Node.StartElection | distributed_chat/node.rb:292-295 | publishes alive and records the round's start time |
| ChatNode.Node.SelectLeader | distributed_chat/node.rb:297-308 | the selection loop over the records refreshed since the round began returns exactly ElectionWinner: the node itself unless a candidate started strictly earlier, else the earliest, first in iteration order |
| ChatNode.Node.ElectionWindowElapsed | distributed_chat/node.rb:295-317 | ends the oldest waiting round and takes the NodeSpec.AfterElectionWindow step |
| ChatNode.Node.HandleDirective | distributed_chat/node.rb:132-158 | takes the NodeSpec.OnDirective step |
| ChatNode.Node.HandleCommand | distributed_chat/node.rb:159-174 | returns the NodeSpec.OnCommand lines and changes nothing |
| ChatNode.Node.HandleElection | distributed_chat/node.rb:180-197 | takes the NodeSpec.OnElection step, including the raise on a victory from an unknown sender |
| ChatNode.Node.HandleIncoming | distributed_chat/node.rb:120-201 | takes the NodeSpec.Dispatch step |
| ChatNode.Node.ConsumeLine | distributed_chat/node.rb:89-117 | takes the NodeSpec.OnInputLine step for one line |

## Left out

- The RabbitMQ connection, channel, exchange, queue binding and subscription (node.rb:27-31, 39, 335-336). These are a foreign library. Publishing is an append to `outbox`, and delivery is a call of `HandleIncoming`.
- Closing the channel and the connection (node.rb:335-336). In the model, every `exit_program` is followed in the same step by the end of the process, so nothing is published on a closed channel.
- JSON encoding and decoding, and the symbol/string key handling (node.rb:40, 110, 217-219, 264-287). Envelopes are a datatype with one constructor per type. Fields other than `name` are assumed present and well typed, as the node's own builders make them.
- The `is_leader` field of the roll-call envelope (node.rb:264). No handler reads it.
- Threads, `sleep` and the `Mutex` (node.rb:34, 62-64, 216, 295). Each step is atomic. The caller decides when a window ends and how steps interleave.
- ChatNode.Node.ConnectionWindowElapsed: the model does not enforce that the connection window ends exactly once after the roll call. That ordering is the caller's.
- ChatNode.Node.ElectionWindowElapsed: waiting rounds end oldest first. The Ruby threads sleep equally long, but the model does not capture the scheduler's actual order.
- Console output and its formatting, and the `debug` lines (node.rb:48-49, 84, 204-208, 245-251). Output is an abstract `Notice` per `puts` the core makes.
- The `SystemExit` exception itself (node.rb:70, 152) and its passage from the thread that raised it to the main thread. In the model, exiting is atomic with the step that exits. Threads that could still run in the short time before the process actually ends are not modelled.
- The `while` of `enter_chat_loop` and `STDIN.gets` (node.rb:90). `ConsumeLine` is one pass of the loop body. A `gets` that returns nil at end of input is not modelled.
- InputLine.ClassifyInput: requires a single line, which is what `gets` returns. Ruby's `^` would also match after a line feed inside the string, and `gets` never produces one.
- `chatnode.rb`. It only checks the argument and starts the node.
