/** Command decisions and inbound messages in the embedded backend: decided once, replayed without effect. */
module DecideOnce {
  import opened Options

  datatype Status = Pending | Approved | Rejected | Elsewhere(name: string)

  datatype Command = Command(site: string, status: Status, decidedBy: Option<string>, decidedAt: Option<real>,
                             note: Option<string>)

  datatype Incident = Incident(site: string, assignee: Option<string>, assigneeUid: Option<string>,
                               assignedAt: Option<real>)

  datatype AlertRow = AlertRow(site: string, ack: bool)

  datatype Result = Ok | Unmapped | Invalid | Denied | NotFound

  datatype Action = AckAlert | AssignIncident | ApproveCommand | RejectCommand | StatusQuery | Unknown

  function ActionOf(text: string): Action {
    if text == "ack_alert" then AckAlert
    else if text == "assign_incident" then AssignIncident
    else if text == "approve_command" then ApproveCommand
    else if text == "reject_command" then RejectCommand
    else if text == "status" then StatusQuery
    else Unknown
  }

  /** What the detail text of a reply says. */
  datatype Detail =
    | NotMapped
    | Unrecognised(text: string)
    | NoRole(name: string, site: string)
    | Snapshot
    | Missing(what: Action, target: string, site: string)
    | Acknowledged(target: string, name: string)
    | MayNotAssign(name: string, site: string)
    | Assigned(target: string, to: string, name: string)
    | MayNotDecide(name: string, rank: nat, site: string)
    | AlreadyDecided(target: string, status: Status)
    | DecisionMade(target: string, status: Status, name: string, channel: string)

  datatype LogEntry = LogEntry(id: string, channel: string, action: Action, target: string, site: Option<string>,
                               mappedAs: Option<string>, result: Result, detail: Detail, messageId: Option<string>)

  datatype Tables = Tables(commands: map<string, Command>, incidents: map<string, Incident>,
                           alerts: map<string, AlertRow>, log: seq<LogEntry>)

  /** The platform user a sender maps to at the time of the call, with its rank at its site. */
  datatype Sender = Sender(uid: string, site: string, name: string, rank: nat)

  const OPERATOR := 1
  const MANAGER := 3

  /** One inbound message. `note` is stripped, with "" for none; `messageId` likewise, with None for blank. */
  datatype Inbound = Inbound(channel: string, sender: Option<Sender>, text: string, target: string, note: string,
                             messageId: Option<string>, now: real, logId: string)

  datatype Reply = Reply(result: Result, action: Action, target: string, site: Option<string>,
                         mappedAs: Option<string>, detail: Detail, logId: string, replayed: bool)

  /** A console decision. `allowed` is the verdict of the role check. */
  datatype Decision = Decision(
    id: string, decision: string, who: string, note: Option<string>, allowed: bool, now: real)

  // ---- the decision a manager takes in the console ------------------------------------------------

  function Verdict(decision: string): Option<Status> {
    if decision == "approved" then Some(Approved) else if decision == "rejected" then Some(Rejected) else None
  }

  predicate Accepted(t: Tables, d: Decision) {
    Verdict(d.decision).Some? && d.id in t.commands && d.allowed && t.commands[d.id].status.Pending?
  }

  function Decided(c: Command, status: Status, who: string, now: real, note: Option<string>): Command {
    c.(status := status, decidedBy := Some(who), decidedAt := Some(now), note := if note.Some? then note else c.note)
  }

  function Decide(t: Tables, d: Decision): Tables {
    if Accepted(t, d) then
      t.(commands := t.commands[d.id := Decided(t.commands[d.id], Verdict(d.decision).value, d.who, d.now, d.note)])
    else t
  }

  // ---- an inbound message ---------------------------------------------------------------------------

  function FindMessage(log: seq<LogEntry>, id: string): Option<LogEntry> {
    if log == [] then None
    else if log[0].messageId == Some(id) then Some(log[0])
    else FindMessage(log[1..], id)
  }

  function NoteOf(note: string): Option<string> { if note == "" then None else Some(note) }

  /** What a mapped sender's action comes to, and the tables after it; the log is written by the caller. */
  function Act(t: Tables, m: Inbound, s: Sender): (Tables, Result, Detail) {
    match ActionOf(m.text)
    case Unknown => (t, Invalid, Unrecognised(m.text))
    case action =>
      if s.rank < OPERATOR then (t, Denied, NoRole(s.name, s.site))
      else match action
        case StatusQuery => (t, Ok, Snapshot)
        case AckAlert => ActOnAlert(t, m, s)
        case AssignIncident => ActOnIncident(t, m, s)
        case _ => ActOnCommand(t, m, s, if action.ApproveCommand? then Approved else Rejected)
  }

  function ActOnAlert(t: Tables, m: Inbound, s: Sender): (Tables, Result, Detail) {
    if m.target !in t.alerts || t.alerts[m.target].site != s.site then
      (t, NotFound, Missing(AckAlert, m.target, s.site))
    else
      (t.(alerts := t.alerts[m.target := t.alerts[m.target].(ack := true)]), Ok, Acknowledged(m.target, s.name))
  }

  function ActOnIncident(t: Tables, m: Inbound, s: Sender): (Tables, Result, Detail) {
    if m.target !in t.incidents || t.incidents[m.target].site != s.site then
      (t, NotFound, Missing(AssignIncident, m.target, s.site))
    else
      var inc := t.incidents[m.target];
      if m.note != "" then
        if s.rank < MANAGER then (t, Denied, MayNotAssign(s.name, s.site))
        else
          (t.(incidents := t.incidents[m.target := Incident(inc.site, Some(m.note), None, Some(m.now))]), Ok,
           Assigned(m.target, m.note, s.name))
      else
        (t.(incidents := t.incidents[m.target := Incident(inc.site, Some(s.name), Some(s.uid), Some(m.now))]), Ok,
         Assigned(m.target, s.name, s.name))
  }

  function ActOnCommand(t: Tables, m: Inbound, s: Sender, status: Status): (Tables, Result, Detail) {
    if s.rank < MANAGER then (t, Denied, MayNotDecide(s.name, s.rank, s.site))
    else if m.target !in t.commands || t.commands[m.target].site != s.site then
      (t, NotFound, Missing(ActionOf(m.text), m.target, s.site))
    else if !t.commands[m.target].status.Pending? then
      (t, Invalid, AlreadyDecided(m.target, t.commands[m.target].status))
    else
      var who := m.channel + ":" + s.name;
      (t.(commands := t.commands[m.target := Decided(t.commands[m.target], status, who, m.now, NoteOf(m.note))]), Ok,
       DecisionMade(m.target, status, s.name, m.channel))
  }

  function FirstHandling(t: Tables, m: Inbound): (Tables, Reply) {
    var (after, result, detail) := if m.sender.None? then (t, Unmapped, NotMapped) else Act(t, m, m.sender.value);
    var site := if m.sender.None? then None else Some(m.sender.value.site);
    var name := if m.sender.None? then None else Some(m.sender.value.name);
    var action := ActionOf(m.text);
    var channel := if m.channel == "" then "unknown" else m.channel;
    var entry := LogEntry(m.logId, channel, action, m.target, site, name, result, detail, m.messageId);
    (after.(log := t.log + [entry]), Reply(result, action, m.target, site, name, detail, m.logId, false))
  }

  function ReplyFrom(e: LogEntry): Reply {
    Reply(e.result, e.action, e.target, e.site, e.mappedAs, e.detail, e.id, true)
  }

  function Prior(t: Tables, m: Inbound): Option<LogEntry> {
    if m.messageId.None? then None else FindMessage(t.log, m.messageId.value)
  }

  function Perform(t: Tables, m: Inbound): (Tables, Reply) {
    var prior := Prior(t, m);
    if prior.Some? then (t, ReplyFrom(prior.value)) else FirstHandling(t, m)
  }

  class Backend {
    var commands: map<string, Command>
    var incidents: map<string, Incident>
    var alerts: map<string, AlertRow>
    var inboundActions: seq<LogEntry>

    constructor ()
      ensures Contents() == Tables(map[], map[], map[], [])
    {
      commands, incidents, alerts, inboundActions := map[], map[], map[], [];
    }

    ghost function Contents(): Tables
      reads this
    {
      Tables(commands, incidents, alerts, inboundActions)
    }

    method RpcDecideCommand(d: Decision) returns (ok: bool)
      modifies this
      ensures Contents() == Decide(old(Contents()), d)
      ensures ok == Accepted(old(Contents()), d)
    {
      var status := Verdict(d.decision);
      if status.None? || d.id !in commands || !d.allowed { return false; }
      var row := commands[d.id];
      if !row.status.Pending? { return false; }
      row := row.(status := status.value, decidedBy := Some(d.who), decidedAt := Some(d.now));
      if d.note.Some? { row := row.(note := d.note); }
      commands := commands[d.id := row];
      return true;
    }

    method ActOnMessage(m: Inbound, s: Sender) returns (result: Result, detail: Detail)
      modifies this
      ensures (Contents(), result, detail) == Act(old(Contents()), m, s)
    {
      var action := ActionOf(m.text);
      if action.Unknown? { return Invalid, Unrecognised(m.text); }
      if s.rank < OPERATOR { return Denied, NoRole(s.name, s.site); }
      if action.StatusQuery? {
        result, detail := Ok, Snapshot;
      } else if action.AckAlert? {
        if m.target !in alerts || alerts[m.target].site != s.site {
          return NotFound, Missing(action, m.target, s.site);
        }
        alerts := alerts[m.target := alerts[m.target].(ack := true)];
        result, detail := Ok, Acknowledged(m.target, s.name);
      } else if action.AssignIncident? {
        if m.target !in incidents || incidents[m.target].site != s.site {
          return NotFound, Missing(action, m.target, s.site);
        }
        var row := incidents[m.target];
        if m.note == "" {
          row := row.(assignee := Some(s.name), assigneeUid := Some(s.uid), assignedAt := Some(m.now));
          detail := Assigned(m.target, s.name, s.name);
        } else if s.rank < MANAGER {
          return Denied, MayNotAssign(s.name, s.site);
        } else {
          row := row.(assignee := Some(m.note), assigneeUid := None, assignedAt := Some(m.now));
          detail := Assigned(m.target, m.note, s.name);
        }
        incidents := incidents[m.target := row];
        result := Ok;
      } else {
        result, detail := DecideFromMessage(m, s);
      }
    }

    method DecideFromMessage(m: Inbound, s: Sender) returns (result: Result, detail: Detail)
      modifies this
      ensures (Contents(), result, detail)
        == ActOnCommand(old(Contents()), m, s, if ActionOf(m.text).ApproveCommand? then Approved else Rejected)
    {
      if s.rank < MANAGER { return Denied, MayNotDecide(s.name, s.rank, s.site); }
      if m.target !in commands || commands[m.target].site != s.site {
        return NotFound, Missing(ActionOf(m.text), m.target, s.site);
      }
      var row := commands[m.target];
      if !row.status.Pending? { return Invalid, AlreadyDecided(m.target, row.status); }
      var status := if ActionOf(m.text).ApproveCommand? then Approved else Rejected;
      row := row.(status := status, decidedBy := Some(m.channel + ":" + s.name), decidedAt := Some(m.now));
      if m.note != "" { row := row.(note := Some(m.note)); }
      commands := commands[m.target := row];
      return Ok, DecisionMade(m.target, status, s.name, m.channel);
    }

    method FirstWithId(id: string) returns (prior: Option<LogEntry>)
      ensures prior == FindMessage(inboundActions, id)
    {
      for n := 0 to |inboundActions|
        invariant FindMessage(inboundActions, id) == FindMessage(inboundActions[n..], id)
      {
        if inboundActions[n].messageId == Some(id) { return Some(inboundActions[n]); }
      }
      return None;
    }

    /** The single inbound entry point: a known message id is answered from the log. */
    method RpcInboundPerform(m: Inbound) returns (reply: Reply)
      modifies this
      ensures (Contents(), reply) == Perform(old(Contents()), m)
    {
      if m.messageId.Some? {
        var prior := FirstWithId(m.messageId.value);
        if prior.Some? {
          var e := prior.value;
          return Reply(e.result, e.action, e.target, e.site, e.mappedAs, e.detail, e.id, true);
        }
      }
      var result, detail := Unmapped, NotMapped;
      var site, name: Option<string> := None, None;
      if m.sender.Some? {
        site, name := Some(m.sender.value.site), Some(m.sender.value.name);
        result, detail := ActOnMessage(m, m.sender.value);
      }
      var channel := if m.channel == "" then "unknown" else m.channel;
      var action := ActionOf(m.text);
      var entry := LogEntry(m.logId, channel, action, m.target, site, name, result, detail, m.messageId);
      inboundActions := inboundActions + [entry];
      reply := Reply(result, action, m.target, site, name, detail, m.logId, false);
    }
  }

  // ---- runs: any interleaving of console decisions and inbound messages -------------------------------

  datatype Call = Console(d: Decision) | Message(m: Inbound)

  function Step(t: Tables, c: Call): Tables {
    match c
    case Console(d) => Decide(t, d)
    case Message(m) => Perform(t, m).0
  }

  ghost function Run(t: Tables, calls: seq<Call>): Tables
    decreases |calls|
  {
    if calls == [] then t else Run(Step(t, calls[0]), calls[1..])
  }

  /** The caller of the call was told that it decided this command. */
  ghost predicate ToldDecided(t: Tables, c: Call, id: string) {
    match c
    case Console(d) => d.id == id && Accepted(t, d)
    case Message(m) =>
      var reply := Perform(t, m).1;
      reply.target == id && reply.detail.DecisionMade? && !reply.replayed
  }

  ghost function DecisionsTold(t: Tables, calls: seq<Call>, id: string): nat
    decreases |calls|
  {
    if calls == [] then 0
    else (if ToldDecided(t, calls[0], id) then 1 else 0) + DecisionsTold(Step(t, calls[0]), calls[1..], id)
  }

  ghost predicate IsPending(t: Tables, id: string) { id in t.commands && t.commands[id].status.Pending? }

  ghost predicate Approves(c: Call) {
    match c
    case Console(d) => d.decision == "approved"
    case Message(m) => m.text == "approve_command"
  }

  ghost function Caller(c: Call): string {
    match c
    case Console(d) => d.who
    case Message(m) => m.channel + ":" + if m.sender.Some? then m.sender.value.name else ""
  }

  /** A message decides a command exactly if it is new and comes from a manager of the pending command's site. */
  lemma MessageDecides(t: Tables, m: Inbound, id: string)
    ensures ToldDecided(t, Message(m), id) <==>
      && (m.messageId.Some? ==> FindMessage(t.log, m.messageId.value).None?)
      && m.sender.Some? && m.sender.value.rank >= 3
      && m.text in {"approve_command", "reject_command"}
      && m.target == id && IsPending(t, id) && t.commands[id].site == m.sender.value.site
  {
  }

  lemma ConsoleDecides(t: Tables, d: Decision, id: string)
    ensures ToldDecided(t, Console(d), id) <==> IsPending(t, id) && !IsPending(Step(t, Console(d)), id)
    ensures ToldDecided(t, Console(d), id) ==>
      && id in Step(t, Console(d)).commands
      && Step(t, Console(d)).commands[id].status == (if Approves(Console(d)) then Approved else Rejected)
      && Step(t, Console(d)).commands[id].decidedBy == Some(Caller(Console(d)))
    ensures !ToldDecided(t, Console(d), id) ==>
      (id in t.commands <==> id in Step(t, Console(d)).commands)
      && (id in t.commands ==> Step(t, Console(d)).commands[id] == t.commands[id])
  {
  }

  lemma MessageStepDecides(t: Tables, m: Inbound, id: string)
    ensures ToldDecided(t, Message(m), id) <==> IsPending(t, id) && !IsPending(Step(t, Message(m)), id)
    ensures ToldDecided(t, Message(m), id) ==>
      && id in Step(t, Message(m)).commands
      && Step(t, Message(m)).commands[id].status == (if Approves(Message(m)) then Approved else Rejected)
      && Step(t, Message(m)).commands[id].decidedBy == Some(Caller(Message(m)))
    ensures !ToldDecided(t, Message(m), id) ==>
      (id in t.commands <==> id in Step(t, Message(m)).commands)
      && (id in t.commands ==> Step(t, Message(m)).commands[id] == t.commands[id])
  {
  }

  /** One call: a command leaves pending exactly when its caller is told so; anything else leaves its row alone. */
  lemma StepDecides(t: Tables, c: Call, id: string)
    ensures ToldDecided(t, c, id) <==> IsPending(t, id) && !IsPending(Step(t, c), id)
    ensures ToldDecided(t, c, id) ==>
      && id in Step(t, c).commands
      && Step(t, c).commands[id].status == (if Approves(c) then Approved else Rejected)
      && Step(t, c).commands[id].decidedBy == Some(Caller(c))
    ensures !ToldDecided(t, c, id) ==>
      (id in t.commands <==> id in Step(t, c).commands)
      && (id in t.commands ==> Step(t, c).commands[id] == t.commands[id])
  {
    match c
    case Console(d) => ConsoleDecides(t, d, id);
    case Message(m) => MessageStepDecides(t, m, id);
    hide Decide, Perform;
  }

  /**
    Over any interleaving of decisions and messages a command that is not pending keeps its row, decision fields
    and all; and exactly one caller is told that it decided a pending command if it ends up decided, otherwise none.
   */
  lemma {:induction false} DecidedOnce(t: Tables, calls: seq<Call>, id: string)
    ensures id in t.commands <==> id in Run(t, calls).commands
    ensures id in t.commands && !IsPending(t, id) ==> Run(t, calls).commands[id] == t.commands[id]
    ensures DecisionsTold(t, calls, id) == if IsPending(t, id) && !IsPending(Run(t, calls), id) then 1 else 0
    decreases |calls|
  {
    if calls != [] {
      StepDecides(t, calls[0], id);
      DecidedOnce(Step(t, calls[0]), calls[1..], id);
    }
  }

  // ---- replay ------------------------------------------------------------------------------------------

  lemma {:induction false} FindInLonger(log: seq<LogEntry>, more: seq<LogEntry>, id: string)
    ensures FindMessage(log + more, id)
         == if FindMessage(log, id).Some? then FindMessage(log, id) else FindMessage(more, id)
  {
    if log == [] {
      assert log + more == more;
    } else {
      FindInLonger(log[1..], more, id);
      assert (log + more)[1..] == log[1..] + more;
    }
  }

  /** What the log says about a message id never changes once it says something. */
  lemma {:induction false} AnswerIsFixed(t: Tables, calls: seq<Call>, id: string)
    requires FindMessage(t.log, id).Some?
    ensures FindMessage(Run(t, calls).log, id) == FindMessage(t.log, id)
    decreases |calls|
  {
    if calls != [] {
      var u := Step(t, calls[0]);
      if calls[0].Message? && Prior(t, calls[0].m).None? {
        FindInLonger(t.log, [u.log[|t.log|]], id);
        assert u.log == t.log + [u.log[|t.log|]];
      }
      AnswerIsFixed(u, calls[1..], id);
    }
  }

  /**
    A message id is handled once. However many calls come between, and whoever repeats it with whatever content,
    the repetition changes no table and no log entry and reports the outcome of the first handling.
   */
  lemma RepetitionChangesNothing(t: Tables, m: Inbound, between: seq<Call>, again: Inbound)
    requires m.messageId.Some? && again.messageId == m.messageId
    ensures var first := Perform(t, m);
      var later := Run(first.0, between);
      && Perform(later, again).0 == later
      && Perform(later, again).1 == first.1.(replayed := true)
  {
    var first := Perform(t, m);
    var id := m.messageId.value;
    if Prior(t, m).None? {
      FindInLonger(t.log, [first.0.log[|t.log|]], id);
      assert first.0.log == t.log + [first.0.log[|t.log|]];
    }
    AnswerIsFixed(first.0, between, id);
  }

  /** No message id occurs twice. */
  ghost predicate Audited(log: seq<LogEntry>) {
    forall i, j :: 0 <= i < j < |log| && log[i].messageId.Some? ==> log[i].messageId != log[j].messageId
  }

  lemma {:induction false} FindsAny(log: seq<LogEntry>, id: string)
    ensures FindMessage(log, id).None? <==> forall e :: e in log ==> e.messageId != Some(id)
  {
    if log != [] {
      FindsAny(log[1..], id);
      assert log == [log[0]] + log[1..];
    }
  }

  /** The log only grows, by one entry for each message that is handled, and never holds a message id twice. */
  lemma {:induction false} LogHoldsEachMessageOnce(t: Tables, calls: seq<Call>)
    requires Audited(t.log)
    ensures t.log <= Run(t, calls).log && Audited(Run(t, calls).log)
    ensures |Run(t, calls).log| <= |t.log| + |calls|
    decreases |calls|
  {
    if calls != [] {
      var u := Step(t, calls[0]);
      if calls[0].Message? && Prior(t, calls[0].m).None? {
        var id := calls[0].m.messageId;
        if id.Some? { FindsAny(t.log, id.value); }
        assert u.log == t.log + [u.log[|t.log|]];
      }
      LogHoldsEachMessageOnce(u, calls[1..]);
    }
  }

  // ---- what a message writes, and what it is told --------------------------------------------------------

  ghost predicate IsNew(t: Tables, m: Inbound) {
    m.messageId.Some? ==> forall i | 0 <= i < |t.log| :: t.log[i].messageId != m.messageId
  }

  lemma {:induction false} FoundIfLogged(log: seq<LogEntry>, id: string)
    ensures FindMessage(log, id).None? <==> forall i | 0 <= i < |log| :: log[i].messageId != Some(id)
    ensures FindMessage(log, id).Some? ==>
      exists i :: 0 <= i < |log| && FindMessage(log, id) == Some(log[i]) && log[i].messageId == Some(id)
                  && forall j | 0 <= j < i :: log[j].messageId != Some(id)
  {
    if log != [] && log[0].messageId != Some(id) {
      FoundIfLogged(log[1..], id);
      assert forall i | 1 <= i < |log| :: log[i] == log[1..][i - 1];
      if FindMessage(log, id).Some? {
        var i :| 0 <= i < |log| - 1 && FindMessage(log, id) == Some(log[1..][i]) && log[1..][i].messageId == Some(id)
                 && forall j | 0 <= j < i :: log[1..][j].messageId != Some(id);
        assert FindMessage(log, id) == Some(log[i + 1]);
        forall j | 0 <= j < i + 1 ensures log[j].messageId != Some(id) {
          if j > 0 { assert log[1..][j - 1].messageId != Some(id); }
        }
      }
    }
  }

  /** The sender is mapped, and has at least that rank at its site. */
  predicate Ranked(m: Inbound, rank: nat) { m.sender.Some? && m.sender.value.rank >= rank }

  ghost predicate AcksAlert(t: Tables, m: Inbound) {
    && m.text == "ack_alert" && Ranked(m, 1)
    && m.target in t.alerts && t.alerts[m.target].site == m.sender.value.site
  }

  ghost predicate AssignsIncident(t: Tables, m: Inbound) {
    && m.text == "assign_incident" && Ranked(m, if m.note == "" then 1 else 3)
    && m.target in t.incidents && t.incidents[m.target].site == m.sender.value.site
  }

  ghost predicate DecidesCommand(t: Tables, m: Inbound) {
    && m.text in {"approve_command", "reject_command"} && Ranked(m, 3)
    && m.target in t.commands && t.commands[m.target].site == m.sender.value.site
    && t.commands[m.target].status.Pending?
  }

  /**
    What a message writes: an acknowledgement of an alert, an assignment of an incident to the sender or, by a manager,
    to whom the note names, or a decision of a manager on a pending command, each at the sender's own site; and nothing
    else, nor anything at all if the message is not new.
   */
  lemma MessageWrites(t: Tables, m: Inbound)
    ensures var u := Perform(t, m).0;
      && u.alerts == (if IsNew(t, m) && AcksAlert(t, m) then t.alerts[m.target := t.alerts[m.target].(ack := true)]
                      else t.alerts)
      && u.incidents == (if IsNew(t, m) && AssignsIncident(t, m) then
                           t.incidents[m.target := Incident(m.sender.value.site,
                                                            Some(if m.note == "" then m.sender.value.name else m.note),
                                                            if m.note == "" then Some(m.sender.value.uid) else None,
                                                            Some(m.now))]
                         else t.incidents)
      && u.commands == (if IsNew(t, m) && DecidesCommand(t, m) then
                          t.commands[m.target := Command(m.sender.value.site,
                                                         if m.text == "approve_command" then Approved else Rejected,
                                                         Some(m.channel + ":" + m.sender.value.name), Some(m.now),
                                                         if m.note == "" then t.commands[m.target].note
                                                         else Some(m.note))]
                        else t.commands)
  {
    if m.messageId.Some? { FoundIfLogged(t.log, m.messageId.value); }
    hide FindMessage;
  }

  /** What the answer to a new message says: Ok exactly if it did what it asked, and otherwise what stood in its way. */
  lemma MessageAnswers(t: Tables, m: Inbound)
    requires IsNew(t, m)
    ensures var reply := Perform(t, m).1;
      && (reply.result == Ok <==> AcksAlert(t, m) || AssignsIncident(t, m) || DecidesCommand(t, m)
                                  || (m.text == "status" && Ranked(m, 1)))
      && (reply.result == Unmapped <==> m.sender.None?)
      && (reply.result == Denied <==>
            m.sender.Some? && m.text in {"status", "ack_alert", "assign_incident", "approve_command", "reject_command"}
            && (!Ranked(m, 1) || (m.text in {"approve_command", "reject_command"} && !Ranked(m, 3))
                || (m.text == "assign_incident" && m.note != "" && !Ranked(m, 3) && m.target in t.incidents
                    && t.incidents[m.target].site == m.sender.value.site)))
      && (reply.result == Invalid <==>
            m.sender.Some? && if m.text in {"approve_command", "reject_command"} then
              && Ranked(m, 3) && m.target in t.commands && t.commands[m.target].site == m.sender.value.site
              && !t.commands[m.target].status.Pending?
            else m.text !in {"status", "ack_alert", "assign_incident"})
      && !reply.replayed && reply.target == m.target && reply.logId == m.logId
      && Perform(t, m).0.log == t.log + [LogEntry(m.logId, if m.channel == "" then "unknown" else m.channel,
                                                  reply.action, m.target, reply.site, reply.mappedAs, reply.result,
                                                  reply.detail, m.messageId)]
      && (m.sender.Some? ==> reply.site == Some(m.sender.value.site) && reply.mappedAs == Some(m.sender.value.name))
      && (m.sender.None? ==> reply.site.None? && reply.mappedAs.None?)
  {
    if m.messageId.Some? { FoundIfLogged(t.log, m.messageId.value); }
    hide FindMessage;
  }

  /** What a console decision writes: only on a pending command, only if allowed, only "approved" or "rejected". */
  lemma ConsoleWrites(t: Tables, d: Decision)
    ensures Decide(t, d) ==
      if d.allowed && d.decision in {"approved", "rejected"}
         && d.id in t.commands && t.commands[d.id].status.Pending? then
        t.(commands := t.commands[d.id := Command(t.commands[d.id].site,
                                                  if d.decision == "approved" then Approved else Rejected,
                                                  Some(d.who), Some(d.now),
                                                  if d.note.Some? then d.note else t.commands[d.id].note)])
      else t
  {
  }
}
