/** Status publication: the status map entry of one hosted site, the change events
    sent for it, and the tasks that edit the map without an event: the terminal keys,
    the container thread, and the listing of remote sites and directory servers. */
module Status {
  import opened Runs
  import opened Wrappers

  datatype ProcState = Faulty | Stopped | Starting | Stopping | Running | Remote | DirServer | Docker

  /** The history of a site's entry: the events sent for it, and its removals, of
      which nobody is told. */
  datatype Mark =
    | Emitted(state: ProcState)
    | Cleared

  datatype Page = Page(entry: Option<ProcState>, marks: seq<Mark>)

  /** `update_status`: an event is sent when the entry is new or changes. */
  function Publish(p: Page, s: ProcState): Page {
    if p.entry == Some(s) then p else Page(Some(s), p.marks + [Emitted(s)])
  }

  function Clear(p: Page): Page {
    if p.entry.None? then p else Page(None, p.marks + [Cleared])
  }

  /** The 'z' key marks running and faulty sites as stopping, silently. */
  function StopKey(p: Page): Page {
    if p.entry == Some(Faulty) || p.entry == Some(Running) then p.(entry := Some(Stopping)) else p
  }

  /** The 's' key marks running sites as starting, silently, except disabled ones. */
  function StartKey(p: Page, disabled: bool): Page {
    if p.entry == Some(Running) && !disabled then p.(entry := Some(Starting)) else p
  }

  /** A container, a remote site or a directory server of the same name is listed, silently. */
  function List(p: Page, kind: ProcState): Page {
    if Foreign(kind) then p.(entry := Some(kind)) else p
  }

  predicate Foreign(kind: ProcState) {
    kind == Remote || kind == DirServer || kind == Docker
  }

  /** The container thread drops the entry of a container that is gone. */
  function DropContainer(p: Page): Page {
    if p.entry == Some(Docker) then Clear(p) else p
  }

  /** The entry that events and removals together give. */
  function Replay(marks: seq<Mark>): Option<ProcState> {
    if marks == [] then None
    else match marks[|marks| - 1]
      case Emitted(s) => Some(s)
      case Cleared => None
  }

  predicate NoRepeat(marks: seq<Mark>) {
    forall i, j :: 0 <= i && j == i + 1 < |marks| ==> marks[i] != marks[j]
  }

  /** The entry is that of the last event, or gone when it was removed after that
      event, and no two events are equal unless a removal separates them. */
  predicate InStep(p: Page) {
    Replay(p.marks) == p.entry && NoRepeat(p.marks)
  }

  /** What a receiver of the events holds: the state in the last event sent. */
  function LastEvent(marks: seq<Mark>): Option<ProcState> {
    if marks == [] then None
    else match marks[|marks| - 1]
      case Emitted(s) => Some(s)
      case Cleared => LastEvent(marks[..|marks| - 1])
  }

  /** A receiver of the events holds the entry. */
  predicate Told(p: Page) {
    p.entry == LastEvent(p.marks)
  }

  datatype Action =
    | Publishes(state: ProcState)
    | Clears
    | PressStop
    | PressStart(disabled: bool)
    | Lists(kind: ProcState)
    | ContainerGone

  function Next(p: Page, a: Action): Page {
    match a
    case Publishes(s) => Publish(p, s)
    case Clears => Clear(p)
    case PressStop => StopKey(p)
    case PressStart(disabled) => StartKey(p, disabled)
    case Lists(kind) => List(p, kind)
    case ContainerGone => DropContainer(p)
  }

  function Exec(p: Page, acts: seq<Action>): Page {
    Run(Next, p, acts)
  }

  /** The step writes another state into the map without an event: a key press on a
      site it applies to, or a listing while the entry shows something else. */
  predicate Edits(p: Page, a: Action) {
    || (a.PressStop? && (p.entry == Some(Faulty) || p.entry == Some(Running)))
    || (a.PressStart? && p.entry == Some(Running) && !a.disabled)
    || (a.Lists? && Foreign(a.kind) && p.entry != Some(a.kind))
  }

  /** The step removes a present entry. */
  predicate Removes(p: Page, a: Action) {
    (a.Clears? && p.entry.Some?) || (a.ContainerGone? && p.entry == Some(Docker))
  }

  lemma LastEventSnoc(marks: seq<Mark>, m: Mark)
    ensures LastEvent(marks + [m]) == match m case Emitted(s) => Some(s) case Cleared => LastEvent(marks)
  {
    assert (marks + [m])[..|marks|] == marks;
  }

  /** Receivers stay informed by a step unless it edits silently or removes the entry;
      no removal is ever announced. */
  lemma StepToldExactly(p: Page, a: Action)
    requires Told(p)
    ensures Told(Next(p, a)) <==> !Edits(p, a) && !Removes(p, a)
  {
    LastEventSnoc(p.marks, Cleared);
    if a.Publishes? { LastEventSnoc(p.marks, Emitted(a.state)); }
  }

  /** A publication informs receivers again exactly when it changes the entry. */
  lemma PublishTellsExactly(p: Page, s: ProcState)
    ensures Told(Publish(p, s)) <==> Told(p) || p.entry != Some(s)
  {
    LastEventSnoc(p.marks, Emitted(s));
  }

  lemma PublishStaysInStep(p: Page, s: ProcState)
    requires InStep(p)
    ensures InStep(Publish(p, s))
  {
    var marks := Publish(p, s).marks;
    assert forall i :: 0 <= i < |p.marks| ==> marks[i] == p.marks[i];
  }

  lemma ClearStaysInStep(p: Page)
    requires InStep(p)
    ensures InStep(Clear(p))
  {
    var marks := Clear(p).marks;
    assert forall i :: 0 <= i < |p.marks| ==> marks[i] == p.marks[i];
  }

  /** A step keeps events and entry in step unless it is a silent edit. */
  lemma StepInStepExactly(p: Page, a: Action)
    requires InStep(p)
    ensures InStep(Next(p, a)) <==> !Edits(p, a)
  {
    if a.Publishes? {
      PublishStaysInStep(p, a.state);
    } else if a.Clears? || a.ContainerGone? {
      ClearStaysInStep(p);
    }
  }

  /** The keys pass over sites in other states, and starting over disabled ones. */
  lemma KeysApply(marks: seq<Mark>, s: ProcState, disabled: bool)
    ensures Next(Page(Some(s), marks), PressStop) == Page(Some(if s == Faulty || s == Running then Stopping else s), marks)
    ensures Next(Page(Some(s), marks), PressStart(disabled))
         == Page(Some(if s == Running && !disabled then Starting else s), marks)
  {
  }

  /** No step of the run edits the entry silently. */
  predicate NeverEdited(p: Page, acts: seq<Action>)
    decreases |acts|
  {
    acts == [] || (!Edits(p, acts[0]) && NeverEdited(Next(p, acts[0]), acts[1..]))
  }

  /** Over every run without a silent edit the entry is that of the last event, or
      gone by a removal since, and equal events are separated by a removal. */
  lemma {:induction false} RunsStayInStep(p: Page, acts: seq<Action>)
    requires InStep(p) && NeverEdited(p, acts)
    ensures InStep(Exec(p, acts))
    decreases |acts|
  {
    if acts != [] {
      StepInStepExactly(p, acts[0]);
      RunsStayInStep(Next(p, acts[0]), acts[1..]);
    }
  }

  lemma {:induction false} InStepTells(marks: seq<Mark>)
    ensures Replay(marks).Some? ==> LastEvent(marks) == Replay(marks)
  {
  }

  /** So the last event is the current entry exactly when there is an entry or there
      never was an event. */
  lemma RunsToldExactly(p: Page, acts: seq<Action>)
    requires InStep(p) && NeverEdited(p, acts)
    ensures var q := Exec(p, acts); Told(q) <==> q.entry.Some? || LastEvent(q.marks).None?
  {
    RunsStayInStep(p, acts);
    InStepTells(Exec(p, acts).marks);
  }

  /** A silent edit of a running site makes the next publication repeat an event,
      or, when it agrees with the edit, leaves the entry unannounced. A container
      listed under the name of the site does the same as a key press. */
  lemma SilentEditBreaks()
    ensures var p := Exec(Page(None, []), [Publishes(Running), PressStop, Publishes(Running)]);
            p.marks == [Emitted(Running), Emitted(Running)]
    ensures var p := Exec(Page(None, []), [Publishes(Running), PressStop, Publishes(Stopping)]);
            Replay(p.marks) == Some(Running) && p.entry == Some(Stopping)
    ensures var p := Exec(Page(None, []), [Publishes(Running), Lists(Docker), Publishes(Running)]);
            p.marks == [Emitted(Running), Emitted(Running)]
  {
    RunThree(Next, Page(None, []), Publishes(Running), Lists(Docker), Publishes(Running));
    RunThree(Next, Page(None, []), Publishes(Running), PressStop, Publishes(Running));
    RunThree(Next, Page(None, []), Publishes(Running), PressStop, Publishes(Stopping));
  }

  function MarksOf(marks: map<string, seq<Mark>>, site: string): seq<Mark> {
    if site in marks then marks[site] else []
  }

  /** The shared map of all sites with the events attempted so far. */
  class StatusBoard {
    var statuses: map<string, ProcState>
    var sent: seq<(string, ProcState)>
    ghost var marks: map<string, seq<Mark>>

    ghost function PageOf(site: string): Page
      reads this
    {
      Page(if site in statuses then Some(statuses[site]) else None, MarksOf(marks, site))
    }

    constructor ()
      ensures statuses == map[] && sent == [] && marks == map[]
    {
      statuses, sent, marks := map[], [], map[];
    }

    /** Returns the new state, or the caller's previous one when an event had to be
        sent and nobody received it. */
    method UpdateStatus(previous: ProcState, site: string, s: ProcState, received: bool) returns (result: ProcState)
      modifies this
      ensures PageOf(site) == Publish(old(PageOf(site)), s)
      ensures statuses == old(statuses)[site := s]
      ensures forall other :: other != site ==> PageOf(other) == old(PageOf(other))
      ensures sent == if old(PageOf(site)).entry == Some(s) then old(sent) else old(sent) + [(site, s)]
      ensures result == if old(PageOf(site)).entry == Some(s) || received then s else previous
    {
      var same := site in statuses && statuses[site] == s;
      statuses := statuses[site := s];
      if same {
        return s;
      }
      sent := sent + [(site, s)];
      marks := marks[site := MarksOf(marks, site) + [Emitted(s)]];
      return if received then s else previous;
    }

    method Remove(site: string)
      modifies this
      ensures PageOf(site) == Clear(old(PageOf(site)))
      ensures forall other :: other != site ==> PageOf(other) == old(PageOf(other))
      ensures sent == old(sent)
    {
      if site in statuses {
        statuses := statuses - {site};
        marks := marks[site := MarksOf(marks, site) + [Cleared]];
      }
    }
  }
}
