/** The status table of workflow instances. */
module StateMachine {

  datatype Status = Pending | Running | Completed | Failed | RolledBack | Paused | Cancelled

  datatype Event = Start | Complete | Fail | Rollback | Pause | Resume | Cancel

  // An event without an entry leaves the status as it is.
  function Transition(current: Status, event: Event): Status {
    match (current, event)
    case (Pending, Start) => Running
    case (Pending, Cancel) => Cancelled
    case (Running, Complete) => Completed
    case (Running, Fail) => Failed
    case (Running, Rollback) => RolledBack
    case (Running, Pause) => Paused
    case (Running, Cancel) => Cancelled
    case (Failed, Rollback) => RolledBack
    case (RolledBack, Start) => Running
    case (RolledBack, Cancel) => Cancelled
    case (Paused, Resume) => Running
    case (Paused, Cancel) => Cancelled
    case _ => current
  }

  // Where an event leads, and from where it does.
  function Goal(event: Event): Status {
    match event
    case Start | Resume => Running
    case Complete => Completed
    case Fail => Failed
    case Rollback => RolledBack
    case Pause => Paused
    case Cancel => Cancelled
  }

  function Sources(event: Event): set<Status> {
    match event
    case Start => {Pending, RolledBack}
    case Complete | Fail | Pause => {Running}
    case Rollback => {Running, Failed}
    case Resume => {Paused}
    case Cancel => {Pending, Running, RolledBack, Paused}
  }

  lemma EventsLead(s: Status, event: Event)
    ensures Transition(s, event) == if s in Sources(event) then Goal(event) else s
  {}

  function After(s: Status, events: seq<Event>): Status
    decreases |events|
  {
    if events == [] then s else After(Transition(s, events[0]), events[1..])
  }

  // Completed and cancelled instances stay so whatever happens, and a failed
  // one leaves that status only by a rollback.
  lemma {:induction false} TerminalAbsorbs(s: Status, events: seq<Event>)
    ensures s.Completed? || s.Cancelled? ==> After(s, events) == s
    ensures s.Failed? && Rollback !in events ==> After(s, events) == s
    decreases |events|
  {
    if events != [] { TerminalAbsorbs(Transition(s, events[0]), events[1..]); }
  }
}
