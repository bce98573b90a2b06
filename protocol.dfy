/** Values exchanged and kept by a chat node: identities, lifecycle states,
    membership records, the envelopes published on the fanout exchange and the
    lines a node shows on its console. */
module Protocol {

  datatype Option<+T> = None | Some(value: T)

  /** A node's identity, chosen by the operator; also its queue name. */
  type Name = string

  /** The node's lifecycle: 'connecting', 'connected', 'done' (node.rb:14-16). */
  datatype Lifecycle = Connecting | Connected | Done

  /** One entry of the users hash: {start_time, is_leader, last_modified} (node.rb:223). */
  datatype UserRecord = UserRecord(startTime: int, isLeader: bool, lastModified: int)

  /** The `message` field of an envelope whose type is "election". */
  datatype Ballot =
    | CallElection(electionStartTime: int)                     // "announce"
    | Alive(startTime: int, isLeader: bool, state: Lifecycle)  // "alive"
    | Victory                                                  // "victory"
    | OtherBallot(subtype: string)                             // anything else

  /** An envelope, one constructor per `type`. `sender` is the `name` field,
      which a JSON document may lack. */
  datatype Envelope =
    | ChatMessage(sender: Option<Name>, text: string)                                  // "message"
    | Announce(sender: Option<Name>, startTime: int, isLeader: bool, state: Lifecycle,
               firstTime: bool)                                                        // "announce"
    | Directive(sender: Option<Name>, directive: string, target: Option<Name>)         // "directive"
    | Command(sender: Option<Name>, command: string)                                   // "command"
    | Leave(sender: Option<Name>)                                                      // "leave"
    | Election(sender: Option<Name>, ballot: Ballot)                                   // "election"
    | Unrecognized(sender: Option<Name>, kind: string)                                 // any other type

  /** What the node prints on its console, abstracted from the text. */
  datatype Notice =
    | Said(author: Option<Name>, text: string)        // "[name]: message"
    | Entered(who: Option<Name>)                      // "... has entered chat"
    | MissingName                                    // "WARNING! no info['name'] in add_to_users"
    | SilencedNotice                                 // "You have been silenced!"
    | UnsilencedNotice                               // "You have been unsilenced"
    | Kicked(leader: Option<Name>)                      // "You have been kicked out by leader ..."
    | InvalidDirective(directive: string)
    | UsersListing(names: seq<Name>, recs: map<Name, UserRecord>)
    | LeaderFlag(isLeader: bool)
    | StateInfo(state: Lifecycle)
    | CurrentLeaderIs(leader: Option<Name>)          // None: "WARNING! There is no current leader!"
    | UnknownCommand(command: string)
    | LeftChat(who: Option<Name>)
    | NowLeader                                      // "Your are now the chat leader!"
    | NameTaken                                      // "ERROR! name ... is already taken"
    | ConnectedNotice(users: nat, isLeader: bool)    // "Connected! there are N users online."
    | SilencedRefusal                                // "Sorry. The leader has silenced you!"
    | InvalidLine(line: string)
}
