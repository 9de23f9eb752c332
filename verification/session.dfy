/** One POP3 connection of the gateway (`handle_connection`) as a pure step
    function: a session state and one received line give the new state, the
    reply strings written, the store calls made, and whether the loop goes on.
    The backend's answers at the moment of the line are a parameter. */
module Pop3 {
  import opened Py
  import opened Wire
  import opened Mailbox

  /** The connection's `state` dict: the recorded username (set by USER) and
      the `o365` handle (present once a PASS has succeeded). */
  datatype Session = Session(username: Option<string>, handle: Option<Handle>)

  const Initial: Session := Session(None, None)

  /** The Python exceptions a command can raise; none is caught, so each
      ends the command loop without reaching `writer.close()`. */
  datatype Fault =
    | MissingParameter   // `params[0]` on an empty list
    | NotAnInteger       // `int(params[0])` raises ValueError
    | NoSuchMessage      // `inbox_all[n - 1]` raises IndexError
    | BackendFailure     // the unread query or count raises
    | Unrenderable       // `text_body` is None, or an attachment type has no '/'

  datatype Status = Running | Closed | Crashed(fault: Fault)

  datatype StepResult = StepResult(session: Session, output: seq<string>, actions: seq<Action>, status: Status)

  /** Commands answered whether or not a handle exists. */
  predicate AlwaysAllowed(command: string) {
    command == "CAPA" || command == "USER" || command == "PASS" || command == "NOOP" || command == "QUIT"
  }

  /** Commands answered only once a handle exists. Every other command,
      including UIDL and TOP that CAPA advertises, gets no reply at all. */
  predicate Transactional(command: string) {
    command == "STAT" || command == "RETR" || command == "DELE"
  }

  /** Python truthiness of `state['username']`: present and not empty. */
  predicate HasUsername(s: Session) {
    s.username.Some? && s.username.value != ""
  }

  predicate AllCrlf(lines: seq<string>) {
    forall i :: 0 <= i < |lines| ==> EndsWithCrlf(lines[i])
  }

  /** PASS: no username gives "Who are you?" without a login attempt; a
      missing password raises inside the `try` and reads as a bounce; otherwise
      the store decides, and only success replaces the handle. */
  function Pass(s: Session, params: seq<string>, backend: Backend): (r: StepResult)
    ensures r.status == Running && AllCrlf(r.output) && |r.output| == 1
    ensures r.session.username == s.username
    ensures !HasUsername(s) ==> r.output == [Write("-ERR Who are you?")] && r.session == s && r.actions == []
    ensures HasUsername(s) && |params| == 0 ==>
              r.output == [Write("-ERR o365 bounced us")] && r.session == s && r.actions == []
    ensures HasUsername(s) && |params| > 0 ==>
              r.actions == [Login(s.username.value, params[0])]
              && (backend.authenticates(s.username.value, params[0]) <==> r.output == [Write("+OK")])
              && (backend.authenticates(s.username.value, params[0]) ==> r.session.handle == Some(Open(s.username.value)))
              && (!backend.authenticates(s.username.value, params[0]) ==>
                    r.session == s && r.output == [Write("-ERR o365 bounced us")])
  {
    if !HasUsername(s) then StepResult(s, [Write("-ERR Who are you?")], [], Running)
    else if |params| == 0 then StepResult(s, [Write("-ERR o365 bounced us")], [], Running)
    else
      var user := s.username.value;
      var login := [Login(user, params[0])];
      if backend.authenticates(user, params[0]) then
        StepResult(s.(handle := Some(Open(user))), [Write("+OK")], login, Running)
      else
        StepResult(s, [Write("-ERR o365 bounced us")], login, Running)
  }

  /** The first `if` chain of the loop: the always-allowed commands. Any
      other command passes through unchanged and silent. */
  function Greet(s: Session, cmd: CommandLine, backend: Backend): (r: StepResult)
    ensures AllCrlf(r.output)
    ensures r.status == Closed <==> cmd.command == "QUIT"
    ensures cmd.command == "QUIT" ==> r == StepResult(s, [Write("+OK")], [], Closed)
    ensures cmd.command == "CAPA" ==> r == StepResult(s, Capabilities, [], Running)
    ensures cmd.command == "NOOP" ==> r == StepResult(s, [Write("+OK")], [], Running)
    ensures !AlwaysAllowed(cmd.command) ==> r == StepResult(s, [], [], Running)
    ensures r.session.handle != s.handle ==> r.session.handle.Some?
    ensures cmd.command != "PASS" ==> r.session.handle == s.handle && r.actions == []
  {
    match cmd.command
    case "CAPA" => StepResult(s, Capabilities, [], Running)
    case "USER" =>
      if |cmd.params| == 0 then StepResult(s, [], [], Crashed(MissingParameter))
      else StepResult(s.(username := Some(cmd.params[0])), [Write("+OK")], [], Running)
    case "PASS" => Pass(s, cmd.params, backend)
    case "NOOP" => StepResult(s, [Write("+OK")], [], Running)
    case "QUIT" => StepResult(s, [Write("+OK")], [], Closed)
    case _ => StepResult(s, [], [], Running)
  }

  /** STAT: the live unread count of the handle's account. */
  function Stat(s: Session, h: Handle, backend: Backend): (r: StepResult)
    ensures AllCrlf(r.output) && r.session == s && r.actions == []
    ensures r.status.Running? <==> backend.unreadCount(h.account).Some?
    ensures r.status.Running? ==> r.output == [Write("+OK " + NatToString(backend.unreadCount(h.account).value))]
    ensures !r.status.Running? ==> r.status == Crashed(BackendFailure)
  {
    match backend.unreadCount(h.account)
    case None => StepResult(s, [], [], Crashed(BackendFailure))
    case Some(count) => StepResult(s, [Write("+OK " + NatToString(count))], [], Running)
  }

  /** The multi-line RETR reply: status line, the rendered message as
      `_rwrite` sends it, and the terminator line. */
  function RetrReply(rendered: string): (r: seq<string>)
    ensures AllCrlf(r) && |r| == 3
  {
    [Write("+OK message follows"), RWrite(rendered), Write(".")]
  }

  /** RETR: `inbox_all` is evaluated before `int(params[0])`, so the cache is
      filled even when the argument is bad. The rebuilt message goes out as
      rendered, with no byte-stuffing. */
  function Retr(s: Session, h: Handle, params: seq<string>, backend: Backend): (r: StepResult)
    ensures AllCrlf(r.output) && r.actions == [] && !r.status.Closed?
    ensures r.session.username == s.username
    ensures r.session.handle == s.handle || r.session.handle.Some?
    ensures h.inboxAll != [] ==> r.session.handle == Some(h) || r.session == s
    ensures InboxAll(h, backend).None? ==> r.status == Crashed(BackendFailure)
    ensures InboxAll(h, backend).Some? && |params| == 0 ==> r.status == Crashed(MissingParameter)
    ensures InboxAll(h, backend).Some? && |params| > 0 && ParseInt(params[0]).None? ==> r.status == Crashed(NotAnInteger)
    ensures !r.status.Running? ==> r.output == []
  {
    match InboxAll(h, backend)
    case None => StepResult(s, [], [], Crashed(BackendFailure))
    case Some(h') =>
      var s' := s.(handle := Some(h'));
      if |params| == 0 then StepResult(s', [], [], Crashed(MissingParameter))
      else match ParseInt(params[0])
        case None => StepResult(s', [], [], Crashed(NotAnInteger))
        case Some(n) =>
          match Resolve(h'.inboxAll, n)
          case None => StepResult(s', [], [], Crashed(NoSuchMessage))
          case Some(item) =>
            if !Renderable(item) then StepResult(s', [], [], Crashed(Unrenderable))
            else StepResult(s', RetrReply(backend.render(item)), [], Running)
  }

  /** DELE: the argument is parsed before `inbox_all` is consulted; the
      deletion is the read flag, set at once, and the reply echoes `int(n)`. */
  function Dele(s: Session, h: Handle, params: seq<string>, backend: Backend): (r: StepResult)
    ensures AllCrlf(r.output) && !r.status.Closed?
    ensures r.session.username == s.username
    ensures r.session.handle == s.handle || r.session.handle.Some?
    ensures h.inboxAll != [] ==> r.session.handle == Some(h) || r.session == s
    ensures |params| == 0 ==> r.status == Crashed(MissingParameter)
    ensures |params| > 0 && ParseInt(params[0]).None? ==> r.status == Crashed(NotAnInteger)
    ensures !r.status.Running? ==> r.output == [] && r.actions == []
  {
    if |params| == 0 then StepResult(s, [], [], Crashed(MissingParameter))
    else match ParseInt(params[0])
      case None => StepResult(s, [], [], Crashed(NotAnInteger))
      case Some(oid) =>
        match InboxAll(h, backend)
        case None => StepResult(s, [], [], Crashed(BackendFailure))
        case Some(h') =>
          var s' := s.(handle := Some(h'));
          match Resolve(h'.inboxAll, oid)
          case None => StepResult(s', [], [], Crashed(NoSuchMessage))
          case Some(item) =>
            StepResult(s', [Write("+OK message " + IntToString(oid) + " deleted")], DeleteActions(item), Running)
  }

  /** The second `if` chain: skipped entirely while there is no handle, and
      silent for every command other than STAT, RETR and DELE. */
  function Transact(s: Session, cmd: CommandLine, backend: Backend): (r: StepResult)
    ensures AllCrlf(r.output) && !r.status.Closed?
    ensures s.handle.None? || !Transactional(cmd.command) ==> r == StepResult(s, [], [], Running)
    ensures s.handle.Some? && cmd.command == "STAT" ==> r == Stat(s, s.handle.value, backend)
    ensures s.handle.Some? && cmd.command == "RETR" ==> r == Retr(s, s.handle.value, cmd.params, backend)
    ensures s.handle.Some? && cmd.command == "DELE" ==> r == Dele(s, s.handle.value, cmd.params, backend)
    ensures r.session.handle != s.handle ==> r.session.handle.Some?
    ensures s.handle.Some? && s.handle.value.inboxAll != [] ==> r.session.handle == s.handle
  {
    if s.handle.None? then StepResult(s, [], [], Running)
    else
      var h := s.handle.value;
      match cmd.command
      case "STAT" => Stat(s, h, backend)
      case "RETR" => Retr(s, h, cmd.params, backend)
      case "DELE" => Dele(s, h, cmd.params, backend)
      case _ => StepResult(s, [], [], Running)
  }

  /** One pass of the loop on the line `readline` returned; the empty string
      is end of input. */
  function Step(s: Session, line: string, backend: Backend): (r: StepResult)
    ensures AllCrlf(r.output)
    ensures line == "" ==> r == StepResult(s, [], [], Closed)
    ensures r.status == Closed <==> line == "" || Parse(line).command == "QUIT"
    ensures line != "" && Parse(line).command == "QUIT" ==> r == StepResult(s, [Write("+OK")], [], Closed)
    ensures line != "" && Parse(line).command == "CAPA" ==> r == StepResult(s, Capabilities, [], Running)
    ensures s.handle.None? && !AlwaysAllowed(Parse(line).command) ==> r.output == [] && r.actions == [] && r.session == s
    ensures s.handle.None? && line != "" && !AlwaysAllowed(Parse(line).command) ==> r.status == Running
    ensures r.session.handle != s.handle ==> r.session.handle.Some?
  {
    if line == "" then StepResult(s, [], [], Closed)
    else
      var cmd := Parse(line);
      var first := Greet(s, cmd, backend);
      if !first.status.Running? then first
      else
        var second := Transact(first.session, cmd, backend);
        StepResult(second.session, first.output + second.output, first.actions + second.actions, second.status)
  }

  /** What a connection has produced so far. */
  datatype Transcript = Transcript(session: Session, output: seq<string>, actions: seq<Action>, status: Status)

  /** The loop over the received lines, `backends[i]` answering for line `i`,
      stopping at the first step that closes or crashes. A transcript still
      `Running` has consumed every line. */
  function Steps(s: Session, lines: seq<string>, backends: seq<Backend>): (t: Transcript)
    requires |backends| == |lines|
    ensures AllCrlf(t.output)
    decreases |lines|
  {
    if |lines| == 0 then Transcript(s, [], [], Running)
    else
      var r := Step(s, lines[0], backends[0]);
      if !r.status.Running? then Transcript(r.session, r.output, r.actions, r.status)
      else
        var t := Steps(r.session, lines[1..], backends[1..]);
        Transcript(t.session, r.output + t.output, r.actions + t.actions, t.status)
  }

  /** A whole connection: the greeting, then the loop; running out of lines
      is the end of input and closes it. */
  function Serve(lines: seq<string>, backends: seq<Backend>): (t: Transcript)
    requires |backends| == |lines|
    ensures |t.output| >= 1 && t.output[0] == Write("+OK POP3 server ready")
    ensures AllCrlf(t.output)
    ensures !t.status.Running?
  {
    var t := Steps(Initial, lines, backends);
    Transcript(t.session, [Greeting] + t.output, t.actions, if t.status.Running? then Closed else t.status)
  }
}
