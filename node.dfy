/** DistributedChat::Node: the fields a peer updates in place and the methods
    that update them. Each method is proved to take exactly the step that the
    matching function of NodeSpec describes. */
module ChatNode {
  import opened Protocol
  import opened Membership
  import opened Election
  import opened InputLine
  import NodeSpec

  class Node {
    const userName: Name
    const startTime: int
    var users: Table
    var state: Lifecycle
    var isLeader: bool
    var silenced: bool
    /** Every envelope published on the fanout exchange, oldest first. */
    var outbox: seq<Envelope>
    /** Start times of the do_election calls still sleeping, oldest first. */
    var elections: seq<int>
    /** The process has ended (Kernel#exit, or run returned). */
    var exited: bool

    ghost predicate Valid()
      reads this
    {
      users.Valid() && (exited ==> state == Done)
    }

    function Snapshot(): NodeSpec.NodeState
      reads this
    {
      NodeSpec.NodeState(userName, startTime, users, state, isLeader, silenced, outbox, elections, exited)
    }

    /** initialize, with the clock read as `now`; the transport is not modelled. */
    constructor (userName: Name, now: int)
      ensures Valid() && Snapshot() == NodeSpec.Initial(userName, now)
    {
      this.userName := userName;
      startTime := now;
      state := Connecting;
      isLeader := false;
      users := Empty();
      silenced := false;
      outbox := [];
      elections := [];
      exited := false;
    }

    method Publish(e: Envelope)
      modifies this
      ensures Snapshot() == NodeSpec.Publish(old(Snapshot()), e)
    {
      outbox := outbox + [e];
    }

    method RequestRollCall()
      modifies this
      ensures Snapshot() == NodeSpec.RequestRollCall(old(Snapshot()))
    {
      Publish(Directive(Some(userName), "roll_call", None));
    }

    method AnnounceSelf(firstTime: bool)
      modifies this
      ensures Snapshot() == NodeSpec.Publish(old(Snapshot()), NodeSpec.AnnounceEnvelope(old(Snapshot()), firstTime))
    {
      Publish(Announce(Some(userName), startTime, isLeader, state, firstTime));
    }

    method AnnounceElection(now: int)
      modifies this
      ensures Snapshot() == NodeSpec.Publish(old(Snapshot()), NodeSpec.ElectionCallEnvelope(old(Snapshot()), now))
    {
      Publish(Election(Some(userName), CallElection(now)));
    }

    method AnnounceAlive()
      modifies this
      ensures Snapshot() == NodeSpec.Publish(old(Snapshot()), NodeSpec.AliveEnvelope(old(Snapshot())))
    {
      Publish(Election(Some(userName), Alive(startTime, isLeader, state)));
    }

    method AnnounceVictory()
      modifies this
      ensures Snapshot() == NodeSpec.Publish(old(Snapshot()), NodeSpec.VictoryEnvelope(old(Snapshot())))
    {
      Publish(Election(Some(userName), Victory));
    }

    method AddToUsers(sender: Option<Name>, recordStart: int, recordLeader: bool, now: int) returns (notices: seq<Notice>)
      requires Valid()
      modifies this
      ensures Valid()
      ensures (Snapshot(), notices) == NodeSpec.AddToUsers(old(Snapshot()), sender, recordStart, recordLeader, now)
    {
      if sender.Some? {
        users := Upsert(users, sender.value, UserRecord(recordStart, recordLeader, now));
        notices := [];
      } else {
        notices := [MissingName];
      }
    }

    method RemoveFromUsers(name: Name)
      requires Valid()
      modifies this
      ensures Valid()
      ensures Snapshot() == old(Snapshot()).(users := Remove(old(users), name))
    {
      users := Remove(users, name);
    }

    /** current_leader: the first record, in iteration order, flagged leader. */
    method CurrentLeader() returns (leader: Option<Name>)
      requires Valid()
      ensures leader == FirstLeader(users)
      ensures leader.None? <==> forall n | n in users.recs :: !users.recs[n].isLeader
    {
      leader := None;
      var i := 0;
      while i < |users.names|
        invariant 0 <= i <= |users.names|
        invariant leader.None?
        invariant forall j | 0 <= j < i :: !LeaderAt(users, j)
      {
        var name := users.names[i];
        if users.recs[name].isLeader {
          leader := Some(name);
          assert LeaderAt(users, i);
          break;
        }
        i := i + 1;
      }
      FirstLeaderUnique(users, leader, FirstLeader(users));
    }

    /** leave_chat */
    method LeaveChat(now: int)
      modifies this
      ensures Snapshot() == NodeSpec.LeaveChat(old(Snapshot()), now)
    {
      if state == Connected {
        Publish(Leave(Some(userName)));
      }
      if isLeader {
        AnnounceElection(now);
      }
    }

    /** exit_program, without closing the transport. */
    method ExitProgram(now: int)
      modifies this
      ensures Snapshot() == NodeSpec.ExitProgram(old(Snapshot()), now)
    {
      LeaveChat(now);
      state := Done;
    }

    /** The end of run: exit_program, after which run returns and the process ends. */
    method Shutdown(now: int)
      requires Valid()
      modifies this
      ensures Valid()
      ensures Snapshot() == NodeSpec.Shutdown(old(Snapshot()), now)
    {
      if !exited {
        ExitProgram(now);
        exited := true;
      }
    }

    /** The body of complete_connection's thread once its sleep is over. */
    method ConnectionWindowElapsed(now: int) returns (notices: seq<Notice>)
      requires Valid()
      modifies this
      ensures Valid()
      ensures var r := NodeSpec.AfterConnectWindow(old(Snapshot()), now);
        Snapshot() == r.next && notices == r.notices
    {
      if exited {
        return [];
      }
      if userName in users.recs {
        notices := [NameTaken];
        ExitProgram(now);
        exited := true;
        return;
      }
      if |users.names| == 0 {
        isLeader := true;
      }
      state := Connected;
      AnnounceSelf(true);
      var _ := AddToUsers(Some(userName), startTime, isLeader, now);
      notices := [ConnectedNotice(|users.names|, isLeader)];
    }

    /** The first half of do_election: answer with `alive`, then sleep. */
    method StartElection(electionStartTime: int)
      modifies this
      ensures Snapshot() == NodeSpec.Publish(old(Snapshot()), NodeSpec.AliveEnvelope(old(Snapshot())))
        .(elections := old(elections) + [electionStartTime])
    {
      AnnounceAlive();
      elections := elections + [electionStartTime];
    }

    /** The selection loop of do_election over the records refreshed since
        the round that began at `electionStartTime`. */
    method SelectLeader(electionStartTime: int) returns (selectedLeader: Name)
      requires Valid()
      ensures selectedLeader == ElectionWinner(users, electionStartTime, userName, startTime)
    {
      var latest, self, bestStartTime := users, userName, startTime;
      selectedLeader := self;
      var i := 0;
      while i < |latest.names|
        invariant 0 <= i <= |latest.names|
        invariant (selectedLeader, bestStartTime) == Scan(latest, electionStartTime, self, startTime, i)
      {
        var k := latest.names[i];
        var v := latest.recs[k];
        if v.lastModified >= electionStartTime && v.startTime < bestStartTime {
          bestStartTime := v.startTime;
          selectedLeader := k;
        }
        i := i + 1;
      }
    }

    /** The second half of do_election, when the oldest waiting round's sleep
        is over: pick the candidate with the earliest start time and, if that
        is this node, become leader and announce victory. */
    method ElectionWindowElapsed() returns (notices: seq<Notice>)
      requires Valid() && elections != []
      modifies this
      ensures Valid()
      ensures var r := NodeSpec.AfterElectionWindow(old(Snapshot()));
        Snapshot() == r.next && notices == r.notices
    {
      if exited {
        return [];
      }
      var electionStartTime := elections[0];
      var selectedLeader := SelectLeader(electionStartTime);
      elections := elections[1..];
      if selectedLeader == userName {
        isLeader := true;
        AnnounceVictory();
        notices := [NowLeader];
      } else {
        notices := [];
      }
    }

    /** An obeyed remove: the node is done, runs exit_program and exits. */
    method Kick(now: int)
      modifies this
      ensures Snapshot() == NodeSpec.ExitProgram(old(Snapshot()).(state := Done), now).(exited := true)
    {
      state := Done;
      ExitProgram(now);
      exited := true;
    }

    /** The `directive` branch of handle_incoming_info. */
    method HandleDirective(sender: Option<Name>, directive: string, target: Option<Name>, now: int)
      returns (notices: seq<Notice>)
      requires Valid()
      modifies this
      ensures Valid()
      ensures var r := NodeSpec.OnDirective(old(Snapshot()), sender, directive, target, now);
        Snapshot() == r.next && notices == r.notices
    {
      notices := [];
      var authorised := SentByLeader(users, sender) && target == Some(userName);
      if directive == "roll_call" {
        AnnounceSelf(false);
      } else if directive == "silence" {
        if authorised {
          silenced := true;
          notices := [SilencedNotice];
        }
      } else if directive == "unsilence" {
        if authorised {
          silenced := false;
          notices := [UnsilencedNotice];
        }
      } else if directive == "remove" {
        if authorised {
          notices := [Kicked(sender)];
          Kick(now);
        }
      } else if sender == Some(userName) {
        notices := [InvalidDirective(directive)];
      }
    }

    /** The `command` branch: local introspection, only for the node's own echo. */
    method HandleCommand(sender: Option<Name>, command: string) returns (notices: seq<Notice>)
      requires Valid()
      ensures notices == NodeSpec.OnCommand(Snapshot(), sender, command)
    {
      notices := [];
      if sender != Some(userName) {
        return;
      }
      var c := Chomp(command);
      if c == "\\list_users" {
        notices := [UsersListing(users.names, users.recs)];
      } else if c == "\\is_leader" {
        notices := [LeaderFlag(isLeader)];
      } else if c == "\\state" {
        notices := [StateInfo(state)];
      } else if c == "\\current_leader" {
        var leader := CurrentLeader();
        notices := [CurrentLeaderIs(leader)];
      } else {
        notices := [UnknownCommand(c)];
      }
    }

    /** The `election` branch. `fault` reports the one case where the Ruby
        handler raises: a victory from a sender with no record. */
    method HandleElection(sender: Option<Name>, ballot: Ballot, now: int) returns (notices: seq<Notice>, fault: bool)
      requires Valid()
      modifies this
      ensures Valid()
      ensures var r := NodeSpec.OnElection(old(Snapshot()), sender, ballot, now);
        Snapshot() == r.next && notices == r.notices && fault == r.fault
    {
      notices, fault := [], false;
      match ballot {
        case CallElection(electionStartTime) =>
          if sender != Some(userName) && state == Connected {
            StartElection(electionStartTime);
          }
        case Alive(recordStart, recordLeader, _) =>
          notices := AddToUsers(sender, recordStart, recordLeader, now);
        case Victory =>
          if sender.Some? && sender.value in users.recs {
            users := MarkLeader(users, sender.value);
          } else {
            fault := true;
          }
        case OtherBallot(_) =>
      }
    }

    /** handle_incoming_info: route one envelope by its type; nothing is
        delivered once the process has ended. */
    method HandleIncoming(e: Envelope, now: int) returns (notices: seq<Notice>, fault: bool)
      requires Valid()
      modifies this
      ensures Valid()
      ensures var r := NodeSpec.Dispatch(old(Snapshot()), e, now);
        Snapshot() == r.next && notices == r.notices && fault == r.fault
    {
      var same := e.sender == Some(userName);
      notices, fault := [], false;
      if exited {
        return;
      }
      match e {
        case ChatMessage(sender, text) =>
          if !same {
            notices := [Said(sender, text)];
          }
        case Announce(sender, recordStart, recordLeader, senderState, firstTime) =>
          if senderState == Connected {
            notices := AddToUsers(sender, recordStart, recordLeader, now);
            if !same && firstTime {
              notices := notices + [Entered(sender)];
            }
          }
        case Directive(sender, directive, target) =>
          notices := HandleDirective(sender, directive, target, now);
        case Command(sender, command) =>
          notices := HandleCommand(sender, command);
        case Leave(sender) =>
          if !same {
            notices := [LeftChat(sender)];
            if sender.Some? {
              RemoveFromUsers(sender.value);
            }
          }
        case Election(sender, ballot) =>
          notices, fault := HandleElection(sender, ballot, now);
        case Unrecognized(_, _) =>
      }
    }

    /** One pass of enter_chat_loop for the line STDIN.gets returned;
        `more` is false when the loop ends (the caller then exits). */
    method ConsumeLine(line: string) returns (more: bool, notices: seq<Notice>)
      requires SingleLine(line)
      modifies this
      ensures var r := NodeSpec.OnInputLine(old(Snapshot()), line);
        Snapshot() == r.next && notices == r.notices && more == r.more
    {
      if Chomp(line) == "bye" || state == Done {
        return false, [];
      }
      more, notices := true, [];
      var act := ClassifyInput(line, silenced);
      match act {
        case Suppressed =>
          notices := [SilencedRefusal];
        case Reject(l) =>
          notices := [InvalidLine(l)];
        case PublishMessage(text) =>
          Publish(ChatMessage(Some(userName), text));
        case PublishCommand(text) =>
          Publish(Command(Some(userName), text));
        case PublishDirective(directive, target) =>
          Publish(Directive(Some(userName), directive, Some(target)));
      }
    }
  }
}
