/** A chat node's state and, as functions of it, every step the node takes:
    the start-up roll call, the end of the connection window, the handling of
    one inbound envelope, the end of an election window, one operator line,
    leaving and exiting. Publishing appends to `outbox`. */
module NodeSpec {
  import opened Protocol
  import opened Membership
  import opened Election
  import opened InputLine

  /** The fields of a node. `elections` holds the start times of the
      do_election calls still waiting out their window, oldest first.
      `exited` records that the process has ended: Kernel#exit after a taken
      name or a removal, or `run` returning; no thread of the node runs after. */
  datatype NodeState = NodeState(
    userName: Name,
    startTime: int,
    users: Table,
    state: Lifecycle,
    isLeader: bool,
    silenced: bool,
    outbox: seq<Envelope>,
    elections: seq<int>,
    exited: bool)
  {
    ghost predicate Valid()
    {
      users.Valid() && (exited ==> state == Done)
    }
  }

  /** What one step leaves behind: the new state, the lines shown on the
      console and whether the handler raised (see Dispatch). */
  datatype Reaction = Reaction(next: NodeState, notices: seq<Notice>, fault: bool)

  /** A fresh node: connecting, not leader, knows nobody. */
  function Initial(userName: Name, now: int): (s: NodeState)
    ensures s.Valid() && s.state == Connecting && !s.isLeader && !s.silenced && !s.exited
    ensures s.userName == userName && s.startTime == now
    ensures s.users == Empty() && s.outbox == [] && s.elections == []
  {
    NodeState(userName, now, Empty(), Connecting, false, false, [], [], false)
  }

  // The message builders.

  function Publish(s: NodeState, e: Envelope): NodeState
  {
    s.(outbox := s.outbox + [e])
  }

  function RollCallEnvelope(s: NodeState): Envelope
  {
    Directive(Some(s.userName), "roll_call", None)
  }

  function AnnounceEnvelope(s: NodeState, firstTime: bool): Envelope
  {
    Announce(Some(s.userName), s.startTime, s.isLeader, s.state, firstTime)
  }

  function ElectionCallEnvelope(s: NodeState, now: int): Envelope
  {
    Election(Some(s.userName), CallElection(now))
  }

  function AliveEnvelope(s: NodeState): Envelope
  {
    Election(Some(s.userName), Alive(s.startTime, s.isLeader, s.state))
  }

  function VictoryEnvelope(s: NodeState): Envelope
  {
    Election(Some(s.userName), Victory)
  }

  function LeaveEnvelope(s: NodeState): Envelope
  {
    Leave(Some(s.userName))
  }

  /** is_same_user?: a missing name is never the node itself. */
  predicate SameUser(s: NodeState, sender: Option<Name>): (b: bool)
    ensures sender.None? ==> !b
  {
    sender == Some(s.userName)
  }

  /** add_to_users: upsert the named sender with last_modified = now; without
      a name nothing is stored and a warning is shown. */
  function AddToUsers(s: NodeState, sender: Option<Name>, startTime: int, isLeader: bool, now: int): (r: (NodeState, seq<Notice>))
    requires s.Valid()
    ensures r.0.Valid()
    ensures r.0 == s.(users := r.0.users)
    ensures sender.None? ==> r.0 == s && r.1 == [MissingName]
    ensures sender.Some? ==> r.0.users == Upsert(s.users, sender.value, UserRecord(startTime, isLeader, now)) && r.1 == []
  {
    match sender
    case None => (s, [MissingName])
    case Some(n) => (s.(users := Upsert(s.users, n, UserRecord(startTime, isLeader, now))), [])
  }

  /** leave_chat: a connected node says it leaves; a leader also calls an
      election so that the others choose a successor. */
  function LeaveChat(s: NodeState, now: int): (r: NodeState)
    ensures r == s.(outbox := r.outbox)
    ensures r.outbox == s.outbox + (if s.state == Connected then [LeaveEnvelope(s)] else [])
                                 + (if s.isLeader then [ElectionCallEnvelope(s, now)] else [])
  {
    var s1 := if s.state == Connected then Publish(s, LeaveEnvelope(s)) else s;
    if s1.isLeader then Publish(s1, ElectionCallEnvelope(s1, now)) else s1
  }

  /** exit_program: leave, then the node is done. */
  function ExitProgram(s: NodeState, now: int): (r: NodeState)
    ensures r.state == Done
    ensures r.users == s.users && r.isLeader == s.isLeader && r.silenced == s.silenced && r.elections == s.elections
    ensures r.exited == s.exited
    ensures r.outbox == LeaveChat(s, now).outbox
  {
    LeaveChat(s, now).(state := Done)
  }

  /** The end of run (node.rb:51-56): after the chat loop, or on an interrupt,
      exit_program runs and then run returns, which ends the process. */
  function Shutdown(s: NodeState, now: int): (r: NodeState)
    requires s.Valid()
    ensures r.Valid() && r.exited && r.state == Done
    ensures s.exited ==> r == s
    ensures !s.exited ==> r == ExitProgram(s, now).(exited := true)
    ensures r.users == s.users && r.isLeader == s.isLeader && r.silenced == s.silenced
  {
    if s.exited then s else ExitProgram(s, now).(exited := true)
  }

  /** run: the roll call that opens the connection window. */
  function RequestRollCall(s: NodeState): (r: NodeState)
    ensures r == s.(outbox := s.outbox + [Directive(Some(s.userName), "roll_call", None)])
  {
    Publish(s, RollCallEnvelope(s))
  }

  /** complete_connection, after its sleep; nothing happens once the
      process has ended. */
  function AfterConnectWindow(s: NodeState, now: int): (r: Reaction)
    requires s.Valid()
    ensures r.next.Valid() && !r.fault
    ensures r.next.silenced == s.silenced && r.next.elections == s.elections
    ensures s.exited ==> r.next == s && r.notices == []
    // the name is taken: exit_program, then exit; the node is never connected
    ensures !s.exited && s.userName in s.users.recs ==>
      && r.next.state == Done && r.next.exited
      && r.next.users == s.users
      && r.next.isLeader == s.isLeader
      && r.next.outbox == ExitProgram(s, now).outbox
      && r.notices == [NameTaken]
    // otherwise: leader iff the table was empty or it already was, connected,
    // announced for the first time, and present in its own table
    ensures !s.exited && s.userName !in s.users.recs ==>
      && !r.next.exited
      && r.next.isLeader == (s.isLeader || s.users.recs == map[])
      && r.next.state == Connected
      && r.next.outbox == s.outbox + [Announce(Some(s.userName), s.startTime, r.next.isLeader, Connected, true)]
      && r.next.users == Upsert(s.users, s.userName, UserRecord(s.startTime, r.next.isLeader, now))
      && r.notices == [ConnectedNotice(|r.next.users.names|, r.next.isLeader)]
  {
    if s.exited then Reaction(s, [], false)
    else if s.userName in s.users.recs then
      Reaction(ExitProgram(s, now).(exited := true), [NameTaken], false)
    else
      NoNamesIffEmpty(s.users);
      var s1 := if |s.users.names| == 0 then s.(isLeader := true) else s;
      var s2 := s1.(state := Connected);
      var s3 := Publish(s2, AnnounceEnvelope(s2, true));
      var (s4, _) := AddToUsers(s3, Some(s.userName), s.startTime, s3.isLeader, now);
      Reaction(s4, [ConnectedNotice(|s4.users.names|, s4.isLeader)], false)
  }

  /** A silence, unsilence or remove directive is obeyed only when its
      sender's record is flagged leader and it names this node. */
  predicate Authorised(s: NodeState, sender: Option<Name>, target: Option<Name>)
    requires s.Valid()
  {
    SentByLeader(s.users, sender) && target == Some(s.userName)
  }

  /** The `directive` branch of handle_incoming_info. */
  function OnDirective(s: NodeState, sender: Option<Name>, directive: string, target: Option<Name>, now: int): (r: Reaction)
    requires s.Valid()
    ensures r.next.Valid() && !r.fault
    ensures r.next.userName == s.userName && r.next.startTime == s.startTime
    ensures r.next.users == s.users && r.next.isLeader == s.isLeader && r.next.elections == s.elections
    ensures r.next.exited != s.exited ==> directive == "remove" && Authorised(s, sender, target) && r.next.exited
    ensures r.next.silenced != s.silenced ==>
      (directive == "silence" || directive == "unsilence") && Authorised(s, sender, target)
    ensures r.next.state != s.state ==>
      directive == "remove" && Authorised(s, sender, target) && r.next.state == Done
    ensures r.next.outbox != s.outbox ==>
      directive == "roll_call" || (directive == "remove" && Authorised(s, sender, target))
    ensures directive == "roll_call" ==> r.next == Publish(s, AnnounceEnvelope(s, false)) && r.notices == []
    ensures Authorised(s, sender, target) ==>
      && (directive == "silence" ==> r.next == s.(silenced := true) && r.notices == [SilencedNotice])
      && (directive == "unsilence" ==> r.next == s.(silenced := false) && r.notices == [UnsilencedNotice])
      && (directive == "remove" ==>
            r.next == ExitProgram(s.(state := Done), now).(exited := true) && r.notices == [Kicked(sender)])
    // an unauthorised silence, unsilence or remove changes nothing and shows nothing
    ensures directive != "roll_call" && !Authorised(s, sender, target) ==> r.next == s
    ensures directive in {"silence", "unsilence", "remove"} && !Authorised(s, sender, target) ==> r.notices == []
    // any other directive changes nothing; only its author is told it is invalid
    ensures directive !in {"roll_call", "silence", "unsilence", "remove"} ==>
      r.next == s && r.notices == (if SameUser(s, sender) then [InvalidDirective(directive)] else [])
  {
    var authorised := Authorised(s, sender, target);
    if directive == "roll_call" then
      Reaction(Publish(s, AnnounceEnvelope(s, false)), [], false)
    else if directive == "silence" then
      if authorised then Reaction(s.(silenced := true), [SilencedNotice], false) else Reaction(s, [], false)
    else if directive == "unsilence" then
      if authorised then Reaction(s.(silenced := false), [UnsilencedNotice], false) else Reaction(s, [], false)
    else if directive == "remove" then
      if authorised then Reaction(ExitProgram(s.(state := Done), now).(exited := true), [Kicked(sender)], false)
      else Reaction(s, [], false)
    else
      Reaction(s, if SameUser(s, sender) then [InvalidDirective(directive)] else [], false)
  }

  /** The `command` branch: local introspection, only for the node's own echo. */
  function OnCommand(s: NodeState, sender: Option<Name>, command: string): (notices: seq<Notice>)
    requires s.Valid()
    ensures !SameUser(s, sender) ==> notices == []
    ensures SameUser(s, sender) ==> |notices| == 1
    ensures SameUser(s, sender) && Chomp(command) == "\\current_leader" ==>
      notices == [CurrentLeaderIs(FirstLeader(s.users))]
  {
    var c := Chomp(command);
    if !SameUser(s, sender) then []
    else if c == "\\list_users" then [UsersListing(s.users.names, s.users.recs)]
    else if c == "\\is_leader" then [LeaderFlag(s.isLeader)]
    else if c == "\\state" then [StateInfo(s.state)]
    else if c == "\\current_leader" then [CurrentLeaderIs(FirstLeader(s.users))]
    else [UnknownCommand(c)]
  }

  /** The `election` branch. An announce from another node, while connected,
      starts do_election: it publishes `alive` and begins waiting out its window. */
  function OnElection(s: NodeState, sender: Option<Name>, ballot: Ballot, now: int): (r: Reaction)
    requires s.Valid()
    ensures r.next.Valid()
    ensures r.next.userName == s.userName && r.next.startTime == s.startTime && r.next.exited == s.exited
    ensures r.next.state == s.state && r.next.isLeader == s.isLeader && r.next.silenced == s.silenced
    ensures r.fault <==> ballot.Victory? && !(sender.Some? && sender.value in s.users.recs)
    ensures r.fault ==> r.next == s && r.notices == []
    ensures r.next.elections != s.elections ==>
      ballot.CallElection? && !SameUser(s, sender) && s.state == Connected
    ensures ballot.CallElection? && !SameUser(s, sender) && s.state == Connected ==>
      r.next == Publish(s, AliveEnvelope(s)).(elections := s.elections + [ballot.electionStartTime])
    ensures r.next.outbox != s.outbox ==> ballot.CallElection? && !SameUser(s, sender) && s.state == Connected
    ensures ballot.Alive? && sender.Some? ==>
      r.next.users == Upsert(s.users, sender.value, UserRecord(ballot.startTime, ballot.isLeader, now))
    ensures ballot.Victory? && !r.fault ==> r.next == s.(users := MarkLeader(s.users, sender.value))
    ensures ballot.OtherBallot? ==> r.next == s
  {
    match ballot
    case CallElection(est) =>
      if !SameUser(s, sender) && s.state == Connected then
        Reaction(Publish(s, AliveEnvelope(s)).(elections := s.elections + [est]), [], false)
      else Reaction(s, [], false)
    case Alive(startTime, isLeader, _) =>
      var (s1, notices) := AddToUsers(s, sender, startTime, isLeader, now);
      Reaction(s1, notices, false)
    case Victory =>
      if sender.Some? && sender.value in s.users.recs then
        Reaction(s.(users := MarkLeader(s.users, sender.value)), [], false)
      else
        // users[sender] is nil and `[:is_leader] =` raises: nothing changes
        Reaction(s, [], true)
    case OtherBallot(_) => Reaction(s, [], false)
  }

  /** The `announce` branch: only an announce from a connected node is
      stored; its first announce is shown by the others. */
  function OnAnnounce(s: NodeState, sender: Option<Name>, startTime: int, isLeader: bool, state: Lifecycle,
                      firstTime: bool, now: int): (r: Reaction)
    requires s.Valid()
    ensures r.next.Valid() && !r.fault
    ensures r.next == (if state == Connected && sender.Some?
                       then s.(users := Upsert(s.users, sender.value, UserRecord(startTime, isLeader, now)))
                       else s)
    ensures state != Connected ==> r.notices == []
    ensures state == Connected && sender.Some? ==>
      r.notices == (if !SameUser(s, sender) && firstTime then [Entered(sender)] else [])
  {
    if state == Connected then
      var (s1, notices) := AddToUsers(s, sender, startTime, isLeader, now);
      Reaction(s1, notices + (if !SameUser(s, sender) && firstTime then [Entered(sender)] else []), false)
    else Reaction(s, [], false)
  }

  /** The `leave` branch: another node's leave is shown and removes it from
      the table; the node's own leave changes nothing. */
  function OnLeave(s: NodeState, sender: Option<Name>): (r: Reaction)
    requires s.Valid()
    ensures r.next.Valid() && !r.fault
    ensures !SameUser(s, sender) ==>
      && r.next == (if sender.Some? then s.(users := Remove(s.users, sender.value)) else s)
      && r.notices == [LeftChat(sender)]
    ensures SameUser(s, sender) ==> r.next == s && r.notices == []
    ensures sender.Some? && !SameUser(s, sender) ==> sender.value !in r.next.users.recs
  {
    if !SameUser(s, sender) then
      Reaction(if sender.Some? then s.(users := Remove(s.users, sender.value)) else s, [LeftChat(sender)], false)
    else Reaction(s, [], false)
  }

  /** handle_incoming_info: route one envelope by its type. `fault` is true
      exactly when the handler raises (a victory from a sender with no record).
      Once the process has ended nothing is delivered. */
  function Dispatch(s: NodeState, e: Envelope, now: int): (r: Reaction)
    requires s.Valid()
    ensures r.next.Valid()
    ensures r.next.userName == s.userName && r.next.startTime == s.startTime
    ensures s.exited ==> r == Reaction(s, [], false)
    ensures r.fault <==> !s.exited && e.Election? && e.ballot.Victory? && !(e.sender.Some? && e.sender.value in s.users.recs)
    ensures r.fault ==> r.next == s
    // the handler never makes the node leader
    ensures r.next.isLeader == s.isLeader
    // only an authorised silence/unsilence changes `silenced`
    ensures r.next.silenced != s.silenced ==>
      && e.Directive? && (e.directive == "silence" || e.directive == "unsilence")
      && Authorised(s, e.sender, e.target)
    // only an authorised remove changes the lifecycle, and then to done, and ends the process
    ensures r.next.state != s.state || r.next.exited != s.exited ==>
      && e.Directive? && e.directive == "remove" && Authorised(s, e.sender, e.target)
      && r.next.state == Done && r.next.exited
    // only announce (when connected), alive, leave and victory touch the table
    ensures r.next.users != s.users ==>
      || (e.Announce? && e.state == Connected && e.sender.Some?)
      || (e.Election? && e.ballot.Alive? && e.sender.Some?)
      || (e.Election? && e.ballot.Victory?)
      || (e.Leave? && !SameUser(s, e.sender))
    ensures !s.exited && e.Announce? ==>
      r.next == (if e.state == Connected && e.sender.Some?
                 then s.(users := Upsert(s.users, e.sender.value, UserRecord(e.startTime, e.isLeader, now)))
                 else s)
    // another node's leave is shown and removes it; the node's own leave changes nothing
    ensures !s.exited && e.Leave? && !SameUser(s, e.sender) ==>
      && r.next == (if e.sender.Some? then s.(users := Remove(s.users, e.sender.value)) else s)
      && r.notices == [LeftChat(e.sender)]
    ensures e.Leave? && SameUser(s, e.sender) ==> r.next == s && r.notices == []
    // only an election announce from another node, while connected, starts a round
    ensures r.next.elections != s.elections ==>
      e.Election? && e.ballot.CallElection? && !SameUser(s, e.sender) && s.state == Connected
    // the handler publishes only on a roll call, an authorised remove and a round it starts
    ensures r.next.outbox != s.outbox ==>
      || (e.Directive? && e.directive == "roll_call")
      || (e.Directive? && e.directive == "remove" && Authorised(s, e.sender, e.target))
      || (e.Election? && e.ballot.CallElection? && !SameUser(s, e.sender) && s.state == Connected)
    ensures !s.exited && e.Directive? && e.directive == "roll_call" ==>
      r.next == Publish(s, AnnounceEnvelope(s, false))
    ensures !s.exited && e.Directive? && e.directive == "remove" && Authorised(s, e.sender, e.target) ==>
      r.next == ExitProgram(s.(state := Done), now).(exited := true)
    ensures !s.exited && e.Election? && e.ballot.CallElection? && !SameUser(s, e.sender) && s.state == Connected ==>
      r.next == Publish(s, AliveEnvelope(s)).(elections := s.elections + [e.ballot.electionStartTime])
    ensures e.Directive? && e.directive !in {"roll_call", "silence", "unsilence", "remove"} ==> r.next == s
    ensures e.ChatMessage? || e.Unrecognized? || e.Command? ==> r.next == s
    ensures !s.exited && e.ChatMessage? ==> (r.notices == [] <==> SameUser(s, e.sender))
  {
    var same := SameUser(s, e.sender);
    if s.exited then Reaction(s, [], false)
    else
      match e
      case ChatMessage(sender, text) =>
        Reaction(s, if same then [] else [Said(sender, text)], false)
      case Announce(sender, startTime, isLeader, state, firstTime) =>
        OnAnnounce(s, sender, startTime, isLeader, state, firstTime, now)
      case Directive(sender, directive, target) =>
        OnDirective(s, sender, directive, target, now)
      case Command(sender, command) =>
        Reaction(s, OnCommand(s, sender, command), false)
      case Leave(sender) =>
        OnLeave(s, sender)
      case Election(sender, ballot) =>
        OnElection(s, sender, ballot, now)
      case Unrecognized(_, _) =>
        Reaction(s, [], false)
  }

  /** do_election, after its sleep: the oldest waiting round ends and its
      winner is chosen from the table as it is now. Nothing happens once the
      process has ended. */
  function AfterElectionWindow(s: NodeState): (r: Reaction)
    requires s.Valid() && s.elections != []
    ensures r.next.Valid() && !r.fault
    ensures s.exited ==> r.next == s && r.notices == []
    ensures r.next.users == s.users && r.next.state == s.state && r.next.silenced == s.silenced
    ensures r.next.exited == s.exited
    ensures !s.exited ==> r.next.elections == s.elections[1..]
    ensures !s.exited ==> var w := ElectionWinner(s.users, s.elections[0], s.userName, s.startTime);
      && (w == s.userName ==> r.next.isLeader && r.next.outbox == s.outbox + [Election(Some(s.userName), Victory)]
                              && r.notices == [NowLeader])
      && (w != s.userName ==> r.next.isLeader == s.isLeader && r.next.outbox == s.outbox && r.notices == [])
  {
    if s.exited then Reaction(s, [], false)
    else
      var est := s.elections[0];
      var s1 := s.(elections := s.elections[1..]);
      if ElectionWinner(s.users, est, s.userName, s.startTime) == s.userName then
        var s2 := s1.(isLeader := true);
        Reaction(Publish(s2, VictoryEnvelope(s2)), [NowLeader], false)
      else
        Reaction(s1, [], false)
  }

  /** One pass of enter_chat_loop's body for the line just read. */
  datatype LineStep = LineStep(next: NodeState, notices: seq<Notice>, more: bool)

  function OnInputLine(s: NodeState, line: string): (r: LineStep)
    requires SingleLine(line)
    ensures !r.more <==> Chomp(line) == "bye" || s.state == Done
    ensures r.next == s.(outbox := r.next.outbox)
    ensures !r.more || s.silenced ==> r.next.outbox == s.outbox
    ensures r.more && !s.silenced ==>
      match ClassifyInput(line, false)
      case PublishMessage(text) => r.next.outbox == s.outbox + [ChatMessage(Some(s.userName), text)]
      case PublishCommand(text) => r.next.outbox == s.outbox + [Command(Some(s.userName), text)]
      case PublishDirective(d, t) => r.next.outbox == s.outbox + [Directive(Some(s.userName), d, Some(t))]
      case Reject(_) => r.next.outbox == s.outbox && r.notices == [InvalidLine(line)]
      case Suppressed => false
  {
    if Chomp(line) == "bye" || s.state == Done then LineStep(s, [], false)
    else
      match ClassifyInput(line, s.silenced)
      case Suppressed => LineStep(s, [SilencedRefusal], true)
      case Reject(l) => LineStep(s, [InvalidLine(l)], true)
      case PublishMessage(text) => LineStep(Publish(s, ChatMessage(Some(s.userName), text)), [], true)
      case PublishCommand(text) => LineStep(Publish(s, Command(Some(s.userName), text)), [], true)
      case PublishDirective(d, t) => LineStep(Publish(s, Directive(Some(s.userName), d, Some(t))), [], true)
  }

  /** A lone node: after the roll call and an empty connection window it is
      connected, leader, and the only name in its table. */
  lemma LoneNodeBootstrap(userName: Name, startTime: int, now: int)
    ensures var r := AfterConnectWindow(RequestRollCall(Initial(userName, startTime)), now);
      && r.next.state == Connected && r.next.isLeader
      && r.next.users.names == [userName]
      && r.next.users.recs == map[userName := UserRecord(startTime, true, now)]
      && r.next.outbox == [Directive(Some(userName), "roll_call", None),
                           Announce(Some(userName), startTime, true, Connected, true)]
  {
    var s := RequestRollCall(Initial(userName, startTime));
    assert s.users.names == [] && s.users.recs == map[];
  }

  /** While connecting, a node answers a roll call (its own included) with an
      announce whose state is 'connecting', and no table stores that answer;
      so the duplicate-name check at the end of the window only sees another
      node's announce. */
  lemma ConnectingAnswerIsIgnored(s: NodeState, caller: Option<Name>, t: NodeState, now: int, later: int)
    requires s.Valid() && t.Valid() && s.state == Connecting
    ensures var answered := Dispatch(s, Directive(caller, "roll_call", None), now).next;
      && answered.outbox == s.outbox + [Announce(Some(s.userName), s.startTime, s.isLeader, Connecting, false)]
      && Dispatch(t, answered.outbox[|answered.outbox| - 1], later).next.users == t.users
  {
  }

  /** A node whose name another node has already announced during the
      window exits at its end and is never connected. */
  lemma DuplicateNameEndsSession(s: NodeState, start: int, leader: bool, now: int, later: int)
    requires s.Valid() && s.state == Connecting
    ensures var seen := Dispatch(s, Announce(Some(s.userName), start, leader, Connected, false), now).next;
      var r := AfterConnectWindow(seen, later);
      r.next.state == Done && r.notices == [NameTaken]
  {
  }

  /** A node removed by the leader, even while its connection window is
      still open, exits: its state is done and the end of the window, which
      would otherwise connect it, no longer happens. */
  lemma RemovedNodeStaysDone(s: NodeState, leader: Name, now: int, later: int)
    requires s.Valid() && !s.exited && s.userName !in s.users.recs
    requires leader in s.users.recs && s.users.recs[leader].isLeader
    ensures var removed := Dispatch(s, Directive(Some(leader), "remove", Some(s.userName)), now).next;
      && removed.state == Done && removed.exited
      && AfterConnectWindow(removed, later).next == removed
      && AfterConnectWindow(s, later).next.state == Connected
  {
  }

  /** After the process has ended no step changes anything: the state is
      done for good, nothing more is published or shown. */
  lemma ExitIsFinal(s: NodeState, e: Envelope, now: int, line: string)
    requires s.Valid() && s.exited
    ensures Dispatch(s, e, now) == Reaction(s, [], false)
    ensures AfterConnectWindow(s, now) == Reaction(s, [], false)
    ensures s.elections != [] ==> AfterElectionWindow(s) == Reaction(s, [], false)
    ensures SingleLine(line) ==> OnInputLine(s, line) == LineStep(s, [], false)
    ensures Shutdown(s, now) == s
  {
  }

  /** Redelivering an announce or an alive at the same time changes nothing more. */
  lemma RefreshRedeliveryIdempotent(s: NodeState, e: Envelope, now: int)
    requires s.Valid()
    requires e.Announce? || (e.Election? && e.ballot.Alive?)
    ensures var once := Dispatch(s, e, now).next;
      Dispatch(once, e, now).next == once
  {
    var once := Dispatch(s, e, now).next;
    if e.sender.Some? {
      if e.Announce? && e.state == Connected {
        UpsertIdempotent(s.users, e.sender.value, UserRecord(e.startTime, e.isLeader, now));
      } else if e.Election? {
        UpsertIdempotent(s.users, e.sender.value, UserRecord(e.ballot.startTime, e.ballot.isLeader, now));
      }
    }
  }
}
