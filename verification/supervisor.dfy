/** The process supervisor: the loop that starts, watches, restarts and stops the
    child of one hosted site. Each program point of the loop is a location; what the
    operating system, the configuration and other tasks answer are step labels. */
module Supervisor {
  import opened Runs
  import opened Wrappers
  import opened Text
  import opened Status

  datatype Msg =
    | StartAll
    | StopAll
    | Start(name: string)
    | Stop(name: string)
    | Delete(name: string)

  /** What never changes for a loop. */
  datatype Site = Site(hostName: string, excluded: bool)

  function FirstLabel(host: string): string {
    if host == [] || host[0] == '.' then [] else [host[0]] + FirstLabel(host[1..])
  }

  /** The host name and its first label. */
  predicate Acceptable(site: Site, name: string) {
    name == site.hostName || name == FirstLabel(site.hostName)
  }

  // ---- Draining commands ---------------------------------------------------------------

  /** The message changes the enabled flag; while no child runs, starting everything
      does not apply to an excluded site. */
  predicate Applies(site: Site, childRuns: bool, m: Msg) {
    match m
    case StartAll => childRuns || !site.excluded
    case StopAll => true
    case Start(s) => (childRuns || !site.excluded || s != "all") && (s == "all" || Acceptable(site, s))
    case Stop(s) => s == "all" || Acceptable(site, s)
    case Delete(_) => false
  }

  predicate Enables(m: Msg) {
    m.StartAll? || m.Start?
  }

  predicate DeletesMe(site: Site, m: Msg) {
    m.Delete? && Acceptable(site, m.name)
  }

  /** The flag after the batch, and how many messages were taken when a matching
      delete ended it. */
  datatype Drained = Drained(enabled: bool, deletedAt: Option<nat>)

  function Drain(site: Site, childRuns: bool, enabled: bool, batch: seq<Msg>): Drained
    decreases |batch|
  {
    if batch == [] then Drained(enabled, None)
    else if DeletesMe(site, batch[0]) then Drained(enabled, Some(0))
    else
      var flag := if Applies(site, childRuns, batch[0]) then Enables(batch[0]) else enabled;
      var rest := Drain(site, childRuns, flag, batch[1..]);
      Drained(rest.enabled, if rest.deletedAt.Some? then Some(rest.deletedAt.value + 1) else None)
  }

  /** `i` is the last message before `n` that applies. */
  ghost predicate LastApplicable(site: Site, childRuns: bool, batch: seq<Msg>, n: int, i: int) {
    0 <= i < n <= |batch| && Applies(site, childRuns, batch[i]) &&
    forall j :: i < j < n ==> !Applies(site, childRuns, batch[j])
  }

  ghost predicate NoneApplicable(site: Site, childRuns: bool, batch: seq<Msg>, n: int) {
    0 <= n <= |batch| && forall j :: 0 <= j < n ==> !Applies(site, childRuns, batch[j])
  }

  /** How many messages of the batch are read before the loop is deleted or runs dry. */
  function ReadBefore(d: Drained, batch: seq<Msg>): nat {
    if d.deletedAt.Some? then d.deletedAt.value else |batch|
  }

  /** A batch ends at its first matching delete. */
  lemma {:induction false} DrainEndsAtFirstDelete(site: Site, childRuns: bool, enabled: bool, batch: seq<Msg>)
    ensures var d := Drain(site, childRuns, enabled, batch);
            var n := ReadBefore(d, batch);
            && n <= |batch|
            && (forall j :: 0 <= j < n ==> !DeletesMe(site, batch[j]))
            && (d.deletedAt.Some? ==> n < |batch| && DeletesMe(site, batch[n]))
    decreases |batch|
  {
    if batch != [] && !DeletesMe(site, batch[0]) {
      var flag := if Applies(site, childRuns, batch[0]) then Enables(batch[0]) else enabled;
      DrainEndsAtFirstDelete(site, childRuns, flag, batch[1..]);
      var n := ReadBefore(Drain(site, childRuns, enabled, batch), batch);
      forall j | 0 <= j < n ensures !DeletesMe(site, batch[j]) {
        if j > 0 { assert batch[1..][j - 1] == batch[j]; }
      }
    }
  }

  lemma {:induction false} DrainUnchanged(site: Site, childRuns: bool, enabled: bool, batch: seq<Msg>)
    requires NoneApplicable(site, childRuns, batch, ReadBefore(Drain(site, childRuns, enabled, batch), batch))
    ensures Drain(site, childRuns, enabled, batch).enabled == enabled
    decreases |batch|
  {
    if batch != [] && !DeletesMe(site, batch[0]) {
      assert !Applies(site, childRuns, batch[0]) by {
        DrainEndsAtFirstDelete(site, childRuns, enabled, batch);
      }
      var n := ReadBefore(Drain(site, childRuns, enabled, batch), batch);
      assert forall j :: 0 <= j < n - 1 ==> batch[1..][j] == batch[j + 1];
      DrainUnchanged(site, childRuns, enabled, batch[1..]);
    }
  }

  /** The flag after a batch is what the last applicable message read sets. */
  lemma {:induction false} DrainIsLastWord(site: Site, childRuns: bool, enabled: bool, batch: seq<Msg>, i: nat)
    requires LastApplicable(site, childRuns, batch, ReadBefore(Drain(site, childRuns, enabled, batch), batch), i)
    ensures Drain(site, childRuns, enabled, batch).enabled == Enables(batch[i])
    decreases |batch|
  {
    var rest := batch[1..];
    var flag := if Applies(site, childRuns, batch[0]) then Enables(batch[0]) else enabled;
    var n := ReadBefore(Drain(site, childRuns, enabled, batch), batch);
    assert forall j :: 0 <= j < n - 1 ==> rest[j] == batch[j + 1];
    if i == 0 {
      DrainUnchanged(site, childRuns, flag, rest);
    } else {
      DrainIsLastWord(site, childRuns, flag, rest, i - 1);
    }
  }

  /** The name of a site is its host name, or what precedes the first dot of it. */
  predicate Named(site: Site, first: string, name: string) {
    name == site.hostName || name == first
  }

  predicate LabelOf(host: string, first: string) {
    '.' !in first && (host == first || first + "." <= host)
  }

  lemma {:induction false} FirstLabelExact(host: string, first: string)
    requires LabelOf(host, first)
    ensures FirstLabel(host) == first
    decreases |first|
  {
    if first == [] {
      assert host != [] ==> host[0] == (first + ".")[0];
    } else {
      assert host[0] == first[0];
      if host != first { assert first[1..] + "." == (first + ".")[1..] <= host[1..]; }
      FirstLabelExact(host[1..], first[1..]);
    }
  }

  lemma OneMessage(site: Site, childRuns: bool, enabled: bool, m: Msg)
    ensures Drain(site, childRuns, enabled, [m]) ==
      if DeletesMe(site, m) then Drained(enabled, Some(0))
      else Drained(if Applies(site, childRuns, m) then Enables(m) else enabled, None)
  {
    assert [m][1..] == [];
  }

  /** What each message does. Starting everything passes over an excluded site that has
      no child; stopping everything does not. */
  lemma MessageMeaning(site: Site, first: string, childRuns: bool, enabled: bool, name: string)
    requires LabelOf(site.hostName, first)
    ensures var start := Drained(if site.excluded && !childRuns then enabled else true, None);
            && Drain(site, childRuns, enabled, [StartAll]) == start
            && Drain(site, childRuns, enabled, [StopAll]) == Drained(false, None)
            && Drain(site, childRuns, enabled, [Start("all")]) == start
            && Drain(site, childRuns, enabled, [Stop("all")]) == Drained(false, None)
    ensures name != "all" ==>
            && Drain(site, childRuns, enabled, [Start(name)]) == Drained(Named(site, first, name) || enabled, None)
            && Drain(site, childRuns, enabled, [Stop(name)]) == Drained(!Named(site, first, name) && enabled, None)
    ensures Drain(site, childRuns, enabled, [Delete(name)]) == Drained(enabled, if Named(site, first, name) then Some(0) else None)
  {
    FirstLabelExact(site.hostName, first);
    OneMessage(site, childRuns, enabled, StartAll);
    OneMessage(site, childRuns, enabled, StopAll);
    OneMessage(site, childRuns, enabled, Start("all"));
    OneMessage(site, childRuns, enabled, Stop("all"));
    OneMessage(site, childRuns, enabled, Start(name));
    OneMessage(site, childRuns, enabled, Stop(name));
    OneMessage(site, childRuns, enabled, Delete(name));
  }

  /** The loop over `try_recv`. */
  method DrainMessages(site: Site, childRuns: bool, enabled0: bool, batch: seq<Msg>)
    returns (enabled: bool, deletedAt: Option<nat>)
    ensures Drained(enabled, deletedAt) == Drain(site, childRuns, enabled0, batch)
  {
    enabled := enabled0;
    for i := 0 to |batch|
      invariant var rest := Drain(site, childRuns, enabled, batch[i..]);
                Drain(site, childRuns, enabled0, batch) ==
                Drained(rest.enabled, if rest.deletedAt.Some? then Some(rest.deletedAt.value + i) else None)
    {
      var m := batch[i];
      assert batch[i..][0] == m && batch[i..][1..] == batch[i + 1..];
      match m {
        case StartAll =>
          if childRuns || !site.excluded { enabled := true; }
        case StopAll =>
          enabled := false;
        case Start(s) =>
          if !childRuns && site.excluded && s == "all" {
          } else if s == "all" || Acceptable(site, s) {
            enabled := true;
          }
        case Stop(s) =>
          if s == "all" || Acceptable(site, s) { enabled := false; }
        case Delete(s) =>
          if Acceptable(site, s) {
            return enabled, Some(i);
          }
      }
    }
    deletedAt := None;
  }

  // ---- The loop ---------------------------------------------------------------------------

  datatype Pc =
    | Top            // removal mark
    | ExitGate       // exit flag, then status stopped
    | IdleDrain      // commands while no child runs
    | ChoosePort
    | FindBinary
    | Spawn
    | PollChild      // try_wait
    | ChildExitGate  // exit flag while a child runs
    | ReplacedGate   // another process now owns the name
    | ChildDrain     // commands while a child runs
    | MarkGate       // removal mark while a child runs
    | ChildEnabledGate
    | AfterChild
    | Restart
    | Done
    | Panicked

  /** What the outside world answers to one step of the loop. */
  datatype Answers = Answers(
    port: Option<Port>,   // the port chooser
    binaryFound: bool,
    spawned: bool,
    waitFails: bool,      // try_wait reports an error
    replaced: bool,
    killed: bool,         // the stop helper ended the child
    batch: nat)           // how many queued messages the drain takes

  datatype Act =
    | Spawned(port: Port, enabled: bool, alive: nat)
    | Confirmed(alive: nat)

  datatype State = State(
    site: Site,
    pc: Pc,
    enabled: bool,
    port: Option<Port>,
    held: bool,           // the loop holds a child
    childAlive: bool,     // that child is alive
    orphans: nat,         // live children the loop no longer holds
    exit: bool,
    marked: bool,
    inbox: seq<Msg>,
    page: Page,
    acts: seq<Act>)

  datatype Label =
    | Own(answers: Answers)
    | ChildDies
    | OrphanDies
    | ExitRequested
    | Marked
    | Message(msg: Msg)
    | MapEdit(edit: Action)  // what other tasks do to the status entry

  function Alive(s: State): nat {
    s.orphans + (if s.held && s.childAlive then 1 else 0)
  }

  function Show(s: State, p: ProcState): State {
    s.(page := Publish(s.page, p))
  }

  /** The child is handed to the stop helper; a child that survives is on its own. */
  function Kill(s: State, killed: bool): State {
    s.(held := false, childAlive := false,
       orphans := if s.held && s.childAlive && !killed then s.orphans + 1 else s.orphans)
  }

  /** Dropping a child value does not stop the process. */
  function DropChild(s: State): State {
    Kill(s, false)
  }

  function TakenFrom(s: State, n: nat): seq<Msg> {
    if n < |s.inbox| then s.inbox[..n] else s.inbox
  }

  function LeftIn(s: State, n: nat): seq<Msg> {
    if n < |s.inbox| then s.inbox[n..] else []
  }

  /** Removes the status, stops the child if there is one, confirms and returns. */
  function Deleted(s: State, taken: nat, killed: bool): State {
    var t := Kill(s.(page := Clear(s.page), inbox := LeftIn(s, taken)), killed);
    t.(pc := Done, acts := t.acts + [Confirmed(Alive(t))])
  }

  /** Commands while no child runs; disabled, the loop starts over. */
  function ObeyIdle(s: State, a: Answers): State {
    var d := Drain(s.site, false, s.enabled, TakenFrom(s, a.batch));
    if d.deletedAt.Some? then Deleted(s, d.deletedAt.value + 1, a.killed)
    else
      var t := s.(enabled := d.enabled, inbox := LeftIn(s, a.batch), pc := if d.enabled then ChoosePort else Top);
      if s.enabled && !d.enabled then Show(t, Stopped) else t
  }

  function ObeyRunning(s: State, a: Answers): State {
    var d := Drain(s.site, true, s.enabled, TakenFrom(s, a.batch));
    if d.deletedAt.Some? then Deleted(s, d.deletedAt.value + 1, a.killed)
    else s.(enabled := d.enabled, inbox := LeftIn(s, a.batch), pc := MarkGate)
  }

  function Launch(s: State, a: Answers): State {
    if s.port.None? then s.(pc := Panicked)
    else if !a.spawned then Show(Show(s, Starting), Faulty).(pc := Restart)
    else
      s.(page := Publish(Publish(s.page, Starting), Running), held := true, childAlive := true, pc := PollChild,
         orphans := Alive(s), acts := s.acts + [Spawned(s.port.value, s.enabled, Alive(s))])
  }

  /** Shows that the child is stopping and hands it to the stop helper. */
  function StopChild(s: State, a: Answers, pc: Pc): State {
    Kill(Show(s, Stopping), a.killed).(pc := pc)
  }

  function OwnStep(s: State, a: Answers): State {
    match s.pc
    case Top => if s.marked then s.(page := Clear(s.page), pc := Done) else s.(pc := ExitGate)
    case ExitGate => Show(s, Stopped).(pc := if s.exit then Done else IdleDrain)
    case IdleDrain => ObeyIdle(s, a)
    case ChoosePort =>
      var port := if a.port.Some? then a.port else s.port;
      s.(port := port, pc := if port.Some? then FindBinary else Top)
    case FindBinary => if a.binaryFound then s.(pc := Spawn) else Show(s, Faulty).(pc := Top)
    case Spawn => Launch(s, a)
    case PollChild =>
      if s.childAlive && !a.waitFails then s.(pc := ChildExitGate) else DropChild(s).(pc := AfterChild)
    case ChildExitGate => if s.exit then StopChild(s, a, AfterChild) else s.(pc := ReplacedGate)
    case ReplacedGate => if a.replaced then StopChild(s, a, AfterChild) else Show(s, Running).(pc := ChildDrain)
    case ChildDrain => ObeyRunning(s, a)
    case MarkGate => if s.marked then StopChild(s, a, Done) else s.(pc := ChildEnabledGate)
    case ChildEnabledGate => if s.enabled then s.(pc := PollChild) else StopChild(s, a, AfterChild)
    case AfterChild => Show(s, Stopped).(pc := Restart)
    case Restart =>
      if !s.enabled then s.(pc := Top)
      else if s.exit then s.(pc := Done)
      else Show(s, Faulty).(pc := Top)
    case Done => s
    case Panicked => s
  }

  function Next(s: State, l: Label): State {
    match l
    case Own(a) => OwnStep(s, a)
    case ChildDies => s.(childAlive := false)
    case OrphanDies => if s.orphans > 0 then s.(orphans := s.orphans - 1) else s
    case ExitRequested => s.(exit := true)
    case Marked => s.(marked := true)
    case Message(m) => s.(inbox := s.inbox + [m])
    case MapEdit(edit) => if edit.Publishes? then s else s.(page := Status.Next(s.page, edit))
  }

  function Exec(s: State, labels: seq<Label>): State {
    Run(Next, s, labels)
  }

  /** A loop as it is entered; the port may come with the configuration. */
  predicate Initial(s: State) {
    s.pc.Top? && !s.held && s.orphans == 0 && s.acts == [] && Status.InStep(s.page)
  }

  // ---- Safety --------------------------------------------------------------------------------

  predicate WithChild(pc: Pc) {
    pc.PollChild? || pc.ChildExitGate? || pc.ReplacedGate? || pc.ChildDrain? || pc.MarkGate? || pc.ChildEnabledGate?
  }

  predicate Draining(pc: Pc) {
    pc.IdleDrain? || pc.ChildDrain?
  }

  predicate BeforeSpawn(pc: Pc) {
    pc.Top? || pc.ExitGate? || pc.ChoosePort? || pc.FindBinary?
  }

  /** The step loses a live child: try_wait fails, or the stop helper is called and
      the child outlives it. */
  predicate LosesChild(s: State, l: Label) {
    l.Own? && s.held && s.childAlive &&
    match s.pc
    case PollChild => l.answers.waitFails
    case ChildExitGate => s.exit && !l.answers.killed
    case ReplacedGate => l.answers.replaced && !l.answers.killed
    case ChildDrain =>
      Drain(s.site, true, s.enabled, TakenFrom(s, l.answers.batch)).deletedAt.Some? && !l.answers.killed
    case MarkGate => s.marked && !l.answers.killed
    case ChildEnabledGate => !s.enabled && !l.answers.killed
    case _ => false
  }

  /** No step of the run loses a live child. */
  predicate NoneLost(s: State, labels: seq<Label>)
    decreases |labels|
  {
    labels == [] || (!LosesChild(s, labels[0]) && NoneLost(Next(s, labels[0]), labels[1..]))
  }

  /** Spawns happen while enabled, and a confirmation is the last act. */
  predicate Ordered(acts: seq<Act>) {
    && (forall i :: 0 <= i < |acts| ==> acts[i].Spawned? ==> acts[i].enabled)
    && (forall i :: 0 <= i < |acts| - 1 ==> acts[i].Spawned?)
  }

  /** Nothing was spawned or confirmed beside a live child. */
  predicate Undisturbed(acts: seq<Act>) {
    forall i :: 0 <= i < |acts| ==> acts[i].alive == 0
  }

  predicate GoodActs(acts: seq<Act>) {
    Ordered(acts) && Undisturbed(acts)
  }

  /** What every step keeps, whatever the world answers. */
  predicate Form(s: State) {
    && (s.held <==> WithChild(s.pc))
    && !s.pc.Panicked?
    && (s.pc.ChoosePort? || s.pc.FindBinary? || s.pc.Spawn? ==> s.enabled)
    && (s.pc.FindBinary? || s.pc.Spawn? ==> s.port.Some?)
    && Ordered(s.acts)
    && (s.acts != [] && s.acts[|s.acts| - 1].Confirmed? ==> s.pc.Done?)
  }

  predicate Spawns(s: State, l: Label) {
    l.Own? && s.pc.Spawn? && s.port.Some? && l.answers.spawned
  }

  predicate Deletes(s: State, l: Label) {
    l.Own? && Draining(s.pc) &&
    Drain(s.site, s.pc.ChildDrain?, s.enabled, TakenFrom(s, l.answers.batch)).deletedAt.Some?
  }

  /** How a step of the loop changes its children and its acts. */
  predicate Effect(s: State, a: Answers, t: State) {
    if Spawns(s, Own(a)) then
      t.acts == s.acts + [Spawned(s.port.value, s.enabled, Alive(s))] && t.orphans == s.orphans && Alive(t) == Alive(s) + 1
    else
      && t.acts == (if Deletes(s, Own(a)) then s.acts + [Confirmed(Alive(t))] else s.acts)
      && t.orphans == s.orphans + (if LosesChild(s, Own(a)) then 1 else 0)
      && Alive(t) <= Alive(s)
      && (Deletes(s, Own(a)) ==> Alive(t) == t.orphans)
  }

  lemma AppendAct(acts: seq<Act>, act: Act)
    requires Ordered(acts) && (act.Spawned? ==> act.enabled)
    requires acts != [] ==> acts[|acts| - 1].Spawned?
    ensures Ordered(acts + [act])
  {
  }

  lemma DeletionEffect(s: State, a: Answers, taken: nat)
    requires Form(s) && Draining(s.pc) && Deletes(s, Own(a))
    ensures Form(Deleted(s, taken, a.killed)) && Effect(s, a, Deleted(s, taken, a.killed))
  {
    AppendAct(s.acts, Confirmed(Alive(Deleted(s, taken, a.killed))));
  }

  lemma OwnEffectIdleDrain(s: State, a: Answers)
    requires Form(s) && s.pc.IdleDrain?
    ensures Form(OwnStep(s, a)) && Effect(s, a, OwnStep(s, a))
  {
    var d := Drain(s.site, false, s.enabled, TakenFrom(s, a.batch));
    if d.deletedAt.Some? { DeletionEffect(s, a, d.deletedAt.value + 1); }
  }

  lemma OwnEffectChildDrain(s: State, a: Answers)
    requires Form(s) && s.pc.ChildDrain?
    ensures Form(OwnStep(s, a)) && Effect(s, a, OwnStep(s, a))
  {
    var d := Drain(s.site, true, s.enabled, TakenFrom(s, a.batch));
    if d.deletedAt.Some? { DeletionEffect(s, a, d.deletedAt.value + 1); }
  }

  lemma OwnEffectPolls(s: State, a: Answers)
    requires Form(s) && (s.pc.PollChild? || s.pc.ChildExitGate?)
    ensures Form(OwnStep(s, a)) && Effect(s, a, OwnStep(s, a))
  {
  }

  lemma OwnEffectReplaced(s: State, a: Answers)
    requires Form(s) && s.pc.ReplacedGate?
    ensures Form(OwnStep(s, a)) && Effect(s, a, OwnStep(s, a))
  {
  }

  lemma OwnEffectGates(s: State, a: Answers)
    requires Form(s) && (s.pc.MarkGate? || s.pc.ChildEnabledGate?)
    ensures Form(OwnStep(s, a)) && Effect(s, a, OwnStep(s, a))
  {
  }

  lemma OwnEffectTop(s: State, a: Answers)
    requires Form(s) && (s.pc.Top? || s.pc.ExitGate?)
    ensures Form(OwnStep(s, a)) && Effect(s, a, OwnStep(s, a))
  {
  }

  lemma OwnEffectChoice(s: State, a: Answers)
    requires Form(s) && (s.pc.ChoosePort? || s.pc.FindBinary?)
    ensures Form(OwnStep(s, a)) && Effect(s, a, OwnStep(s, a))
  {
  }

  lemma OwnEffectSpawn(s: State, a: Answers)
    requires Form(s) && s.pc.Spawn?
    ensures Form(OwnStep(s, a)) && Effect(s, a, OwnStep(s, a))
  {
    AppendAct(s.acts, Spawned(s.port.value, s.enabled, Alive(s)));
  }

  lemma OwnEffectAfter(s: State, a: Answers)
    requires Form(s) && (s.pc.AfterChild? || s.pc.Restart? || s.pc.Done?)
    ensures Form(OwnStep(s, a)) && Effect(s, a, OwnStep(s, a))
  {
  }

  lemma OwnEffect(s: State, a: Answers)
    requires Form(s)
    ensures Form(OwnStep(s, a)) && Effect(s, a, OwnStep(s, a))
  {
    if s.pc.IdleDrain? {
      OwnEffectIdleDrain(s, a);
    } else if s.pc.ChildDrain? {
      OwnEffectChildDrain(s, a);
    } else if s.pc.PollChild? || s.pc.ChildExitGate? {
      OwnEffectPolls(s, a);
    } else if s.pc.ReplacedGate? {
      OwnEffectReplaced(s, a);
    } else if WithChild(s.pc) {
      OwnEffectGates(s, a);
    } else if s.pc.Top? || s.pc.ExitGate? {
      OwnEffectTop(s, a);
    } else if BeforeSpawn(s.pc) {
      OwnEffectChoice(s, a);
    } else if s.pc.Spawn? {
      OwnEffectSpawn(s, a);
    } else {
      OwnEffectAfter(s, a);
    }
  }

  lemma MapEditEffect(s: State, edit: Action)
    ensures var t := Next(s, MapEdit(edit)); t == s.(page := t.page) && (!edit.Publishes? ==> t.page == Status.Next(s.page, edit))
  {
  }

  lemma WorldEffect(s: State, l: Label)
    requires Form(s) && !l.Own? && !l.MapEdit?
    ensures Form(Next(s, l)) && Next(s, l).acts == s.acts && Alive(Next(s, l)) <= Alive(s) && Next(s, l).orphans <= s.orphans
  {
  }

  lemma OthersEffect(s: State, l: Label)
    requires Form(s) && !l.Own?
    ensures Form(Next(s, l)) && Next(s, l).acts == s.acts && Alive(Next(s, l)) <= Alive(s) && Next(s, l).orphans <= s.orphans
  {
    if l.MapEdit? { MapEditEffect(s, l.edit); } else { WorldEffect(s, l); }
  }

  // ---- At most one child, exactly ---------------------------------------------------------------

  /** A child is spawned while one the loop has lost still lives. */
  predicate SpawnsBeside(s: State, l: Label) {
    Spawns(s, l) && s.orphans > 0
  }

  /** A deletion is confirmed while a child lives. */
  predicate ConfirmsBeside(s: State, l: Label) {
    Deletes(s, l) && (s.orphans > 0 || LosesChild(s, l))
  }

  /** A step brings a second child to life exactly when it spawns beside a lost one. */
  lemma OneChildExactly(s: State, l: Label)
    requires Form(s) && Alive(s) <= 1
    ensures Alive(Next(s, l)) <= 1 <==> !SpawnsBeside(s, l)
  {
    if l.Own? { OwnEffect(s, l.answers); } else { OthersEffect(s, l); }
  }

  /** A step spoils the acts exactly when it spawns or confirms beside a live child. */
  lemma UndisturbedExactly(s: State, l: Label)
    requires Form(s) && Undisturbed(s.acts)
    ensures Undisturbed(Next(s, l).acts) <==> !SpawnsBeside(s, l) && !ConfirmsBeside(s, l)
  {
    if l.Own? {
      var t := OwnStep(s, l.answers);
      OwnEffect(s, l.answers);
      if Spawns(s, l) || Deletes(s, l) {
        assert t.acts[|s.acts|] == t.acts[|t.acts| - 1];
        assert forall i :: 0 <= i < |s.acts| ==> t.acts[i] == s.acts[i];
      }
    } else {
      OthersEffect(s, l);
    }
  }

  predicate SafeNow(s: State) {
    Alive(s) <= 1 && GoodActs(s.acts) && !s.pc.Panicked?
  }

  /** Every state of the run is safe. */
  predicate SafeThroughout(s: State, labels: seq<Label>)
    decreases |labels|
  {
    SafeNow(s) && (labels == [] || SafeThroughout(Next(s, labels[0]), labels[1..]))
  }

  /** No step of the run spawns or confirms beside a live child. */
  predicate NothingBeside(s: State, labels: seq<Label>)
    decreases |labels|
  {
    labels == [] ||
    (!SpawnsBeside(s, labels[0]) && !ConfirmsBeside(s, labels[0]) && NothingBeside(Next(s, labels[0]), labels[1..]))
  }

  predicate OneChildThroughout(s: State, labels: seq<Label>)
    decreases |labels|
  {
    Alive(s) <= 1 && (labels == [] || OneChildThroughout(Next(s, labels[0]), labels[1..]))
  }

  predicate NeverSpawnsBeside(s: State, labels: seq<Label>)
    decreases |labels|
  {
    labels == [] || (!SpawnsBeside(s, labels[0]) && NeverSpawnsBeside(Next(s, labels[0]), labels[1..]))
  }

  lemma StepKeepsForm(s: State, l: Label)
    requires Form(s)
    ensures Form(Next(s, l))
  {
    if l.Own? { OwnEffect(s, l.answers); } else { OthersEffect(s, l); }
  }

  /** A lost child that dies is gone, and only then may it be spawned beside. */
  lemma LostChildDies(s: State)
    ensures Next(s, OrphanDies).orphans == if s.orphans > 0 then s.orphans - 1 else 0
    ensures s.orphans <= 1 ==> forall l :: !SpawnsBeside(Next(s, OrphanDies), l)
  {
  }

  /** At most one child is live throughout a run exactly when no spawn succeeds beside
      a lost child that still lives. */
  lemma {:induction false} RunOneChildExactly(s: State, labels: seq<Label>)
    requires Form(s) && Alive(s) <= 1
    ensures OneChildThroughout(s, labels) <==> NeverSpawnsBeside(s, labels)
    decreases |labels|
  {
    if labels != [] {
      StepKeepsForm(s, labels[0]);
      OneChildExactly(s, labels[0]);
      if Alive(Next(s, labels[0])) <= 1 {
        RunOneChildExactly(Next(s, labels[0]), labels[1..]);
      } else {
        assert !OneChildThroughout(Next(s, labels[0]), labels[1..]);
      }
    }
  }

  /** A run is safe throughout exactly when no child is spawned and no deletion is
      confirmed beside a live child. */
  lemma {:induction false} RunSafeExactly(s: State, labels: seq<Label>)
    requires Form(s) && SafeNow(s)
    ensures SafeThroughout(s, labels) <==> NothingBeside(s, labels)
    decreases |labels|
  {
    if labels != [] {
      var t := Next(s, labels[0]);
      StepKeepsForm(s, labels[0]);
      OneChildExactly(s, labels[0]);
      UndisturbedExactly(s, labels[0]);
      assert SafeNow(t) <==> Alive(t) <= 1 && Undisturbed(t.acts);
      if SafeNow(t) {
        RunSafeExactly(t, labels[1..]);
      } else {
        assert !SafeThroughout(t, labels[1..]);
      }
    }
  }

  // ---- Runs that lose no child -------------------------------------------------------------------

  predicate Inv(s: State) {
    Form(s) && s.orphans == 0 && Undisturbed(s.acts)
  }

  /** With no child outside the loop, a step leaves one there exactly when it loses a
      live child. */
  lemma StepSafeExactly(s: State, l: Label)
    requires Inv(s)
    ensures Inv(Next(s, l)) <==> !LosesChild(s, l)
  {
    StepKeepsForm(s, l);
    UndisturbedExactly(s, l);
    if l.Own? { OwnEffect(s, l.answers); } else { OthersEffect(s, l); }
  }

  lemma {:induction false} RunsKeepInv(s: State, labels: seq<Label>)
    requires Inv(s) && NoneLost(s, labels)
    ensures Inv(Exec(s, labels))
    decreases |labels|
  {
    if labels != [] {
      StepSafeExactly(s, labels[0]);
      RunsKeepInv(Next(s, labels[0]), labels[1..]);
    }
  }

  /** The stop helper always ends the child and try_wait never errors. */
  predicate Reliable(labels: seq<Label>) {
    forall i :: 0 <= i < |labels| ==> (labels[i].Own? ==> labels[i].answers.killed && !labels[i].answers.waitFails)
  }

  lemma {:induction false} ReliableLosesNone(s: State, labels: seq<Label>)
    requires Reliable(labels)
    ensures NoneLost(s, labels)
    decreases |labels|
  {
    if labels != [] {
      ReliableLosesNone(Next(s, labels[0]), labels[1..]);
    }
  }

  /** At every step of every run that loses no child, at most one child is live; it is
      spawned only while enabled with a port chosen, a deletion is confirmed only with
      no live child and followed by nothing, and the missing-port panic is unreachable. */
  lemma SupervisorSafe(s: State, labels: seq<Label>)
    requires Initial(s) && NoneLost(s, labels)
    ensures var e := Exec(s, labels);
            Alive(e) <= 1 && GoodActs(e.acts) && !e.pc.Panicked? && (e.pc.Done? ==> Alive(e) == 0)
  {
    RunsKeepInv(s, labels);
  }

  // ---- When the stop helper fails ---------------------------------------------------------

  /** A loop whose name another process took over, while the helper never succeeds. */
  const REPLACED := Own(Answers(Some(4200), true, true, false, true, false, 0))

  predicate Restarting(s: State) {
    s.pc.Top? && !s.held && s.enabled && !s.exit && !s.marked && s.inbox == []
  }

  lemma ToPortChoice(s: State)
    requires Restarting(s)
    ensures var t := Exec(s, [REPLACED, REPLACED, REPLACED]); t == s.(page := t.page, pc := ChoosePort)
  {
    RunThree(Next, s, REPLACED, REPLACED, REPLACED);
  }

  lemma ToSpawn(s: State)
    requires s.pc.ChoosePort?
    ensures Exec(s, [REPLACED, REPLACED]) == s.(port := Some(4200), pc := Spawn)
  {
    RunTwo(Next, s, REPLACED, REPLACED);
  }

  lemma ToReplaced(s: State)
    requires s.pc.Spawn? && s.port == Some(4200) && !s.held && !s.exit
    ensures var t := Exec(s, [REPLACED, REPLACED, REPLACED]);
            t == s.(page := t.page, acts := t.acts, held := true, childAlive := true, pc := ReplacedGate)
  {
    RunThree(Next, s, REPLACED, REPLACED, REPLACED);
  }

  lemma ToTop(s: State)
    requires s.pc.ReplacedGate? && s.held && s.childAlive && s.enabled && !s.exit
    ensures var t := Exec(s, [REPLACED, REPLACED, REPLACED]);
            t == s.(page := t.page, held := false, childAlive := false, orphans := s.orphans + 1, pc := Top)
  {
    RunThree(Next, s, REPLACED, REPLACED, REPLACED);
  }

  /** One round from the top of the loop leaves one more child behind. */
  lemma RestartLeavesOrphan(s: State) returns (round: seq<Label>)
    requires Restarting(s)
    ensures forall l :: l in round ==> l == REPLACED
    ensures Restarting(Exec(s, round)) && Exec(s, round).orphans == s.orphans + 1
  {
    var two, three := [REPLACED, REPLACED], [REPLACED, REPLACED, REPLACED];
    ToPortChoice(s);
    var choosing := Exec(s, three);
    ToSpawn(choosing);
    var spawning := Exec(choosing, two);
    ToReplaced(spawning);
    var watching := Exec(spawning, three);
    ToTop(watching);
    RunConcat(Next, s, three, two);
    RunConcat(Next, s, three + two, three);
    RunConcat(Next, s, three + two + three, three);
    round := three + two + three + three;
  }

  /** Without a working stop helper the number of live children has no bound: every
      restart of a replaced loop adds one. */
  lemma {:induction false} FailedStopsAccumulate(s: State, k: nat) returns (labels: seq<Label>)
    requires Restarting(s)
    ensures forall l :: l in labels ==> l == REPLACED
    ensures Restarting(Exec(s, labels)) && Alive(Exec(s, labels)) == s.orphans + k
    decreases k
  {
    labels := [];
    if k > 0 {
      var round := RestartLeavesOrphan(s);
      var rest := FailedStopsAccumulate(Exec(s, round), k - 1);
      RunConcat(Next, s, round, rest);
      labels := round + rest;
    }
  }

  // ---- Where the loop goes --------------------------------------------------------------------

  /** What one step of the loop can show, and where it leads: from location `pc` with
      page `p` to location `pc'` with page `p'`. */
  predicate Visible(pc: Pc, p: Page, pc': Pc, p': Page) {
    match pc
    case Top => (p' == Clear(p) && pc'.Done?) || (p' == p && pc'.ExitGate?)
    case ExitGate => p' == Publish(p, Stopped) && (pc'.Done? || pc'.IdleDrain?)
    case IdleDrain =>
      (p' == Clear(p) && pc'.Done?) || (p' == p && (pc'.ChoosePort? || pc'.Top?)) || (p' == Publish(p, Stopped) && pc'.Top?)
    case ChoosePort => p' == p && (pc'.FindBinary? || pc'.Top?)
    case FindBinary => (p' == p && pc'.Spawn?) || (p' == Publish(p, Faulty) && pc'.Top?)
    case Spawn =>
      || (p' == p && pc'.Panicked?)
      || (p' == Publish(Publish(p, Starting), Faulty) && pc'.Restart?)
      || (p' == Publish(Publish(p, Starting), Running) && pc'.PollChild?)
    case PollChild => p' == p && (pc'.ChildExitGate? || pc'.AfterChild?)
    case ChildExitGate => (p' == p && pc'.ReplacedGate?) || (p' == Publish(p, Stopping) && pc'.AfterChild?)
    case ReplacedGate => (p' == Publish(p, Running) && pc'.ChildDrain?) || (p' == Publish(p, Stopping) && pc'.AfterChild?)
    case ChildDrain => (p' == Clear(p) && pc'.Done?) || (p' == p && pc'.MarkGate?)
    case MarkGate => (p' == p && pc'.ChildEnabledGate?) || (p' == Publish(p, Stopping) && pc'.Done?)
    case ChildEnabledGate => (p' == p && pc'.PollChild?) || (p' == Publish(p, Stopping) && pc'.AfterChild?)
    case AfterChild => p' == Publish(p, Stopped) && pc'.Restart?
    case Restart => (p' == p && (pc'.Top? || pc'.Done?)) || (p' == Publish(p, Faulty) && pc'.Top?)
    case Done => p' == p && pc'.Done?
    case Panicked => p' == p && pc'.Panicked?
  }

  lemma VisibleStepIdleDrain(s: State, a: Answers)
    requires s.pc.IdleDrain?
    ensures Visible(s.pc, s.page, OwnStep(s, a).pc, OwnStep(s, a).page)
  {
  }

  lemma VisibleStepChildDrain(s: State, a: Answers)
    requires s.pc.ChildDrain?
    ensures Visible(s.pc, s.page, OwnStep(s, a).pc, OwnStep(s, a).page)
  {
  }

  lemma VisibleStepPolls(s: State, a: Answers)
    requires s.pc.PollChild? || s.pc.ChildExitGate?
    ensures Visible(s.pc, s.page, OwnStep(s, a).pc, OwnStep(s, a).page)
  {
  }

  lemma VisibleStepGates(s: State, a: Answers)
    requires s.pc.ReplacedGate? || s.pc.MarkGate? || s.pc.ChildEnabledGate?
    ensures Visible(s.pc, s.page, OwnStep(s, a).pc, OwnStep(s, a).page)
  {
  }

  lemma VisibleStepTop(s: State, a: Answers)
    requires s.pc.Top? || s.pc.ExitGate?
    ensures Visible(s.pc, s.page, OwnStep(s, a).pc, OwnStep(s, a).page)
  {
  }

  lemma VisibleStepChoice(s: State, a: Answers)
    requires s.pc.ChoosePort? || s.pc.FindBinary?
    ensures Visible(s.pc, s.page, OwnStep(s, a).pc, OwnStep(s, a).page)
  {
  }

  lemma VisibleStepSpawn(s: State, a: Answers)
    requires s.pc.Spawn?
    ensures Visible(s.pc, s.page, OwnStep(s, a).pc, OwnStep(s, a).page)
  {
  }

  lemma VisibleStepAfter(s: State, a: Answers)
    requires s.pc.AfterChild? || s.pc.Restart? || s.pc.Done? || s.pc.Panicked?
    ensures Visible(s.pc, s.page, OwnStep(s, a).pc, OwnStep(s, a).page)
  {
  }

  lemma VisibleStep(s: State, a: Answers)
    ensures Visible(s.pc, s.page, OwnStep(s, a).pc, OwnStep(s, a).page)
  {
    if s.pc.IdleDrain? {
      VisibleStepIdleDrain(s, a);
    } else if s.pc.ChildDrain? {
      VisibleStepChildDrain(s, a);
    } else if s.pc.PollChild? || s.pc.ChildExitGate? {
      VisibleStepPolls(s, a);
    } else if WithChild(s.pc) {
      VisibleStepGates(s, a);
    } else if s.pc.Spawn? {
      VisibleStepSpawn(s, a);
    } else if s.pc.Top? || s.pc.ExitGate? {
      VisibleStepTop(s, a);
    } else if BeforeSpawn(s.pc) {
      VisibleStepChoice(s, a);
    } else {
      VisibleStepAfter(s, a);
    }
  }

  // ---- Exit and removal ---------------------------------------------------------------------

  /** Why the loop has to end. */
  datatype Reason = Exiting | Removed

  predicate Flagged(s: State, why: Reason) {
    if why.Exiting? then s.exit else s.marked
  }

  /** How many more steps of its own the loop can take once it has to end. */
  function Rank(pc: Pc, why: Reason): nat {
    if why.Exiting? then
      match pc
      case Done => 0
      case Panicked => 0
      case ExitGate => 1
      case Top => 2
      case Restart => 3
      case AfterChild => 4
      case ChildExitGate => 5
      case PollChild => 6
      case Spawn => 7
      case ChildEnabledGate => 7
      case FindBinary => 8
      case MarkGate => 8
      case ChoosePort => 9
      case ChildDrain => 9
      case IdleDrain => 10
      case ReplacedGate => 10
    else
      match pc
      case Done => 0
      case Panicked => 0
      case Top => 1
      case MarkGate => 1
      case Restart => 2
      case ChildDrain => 2
      case AfterChild => 3
      case ReplacedGate => 4
      case ChildExitGate => 5
      case PollChild => 6
      case Spawn => 7
      case ChildEnabledGate => 7
      case FindBinary => 8
      case ChoosePort => 9
      case IdleDrain => 10
      case ExitGate => 11
  }

  /** The loop is past the check that would end it and can still spawn once. */
  function SpawnsLeft(pc: Pc, why: Reason): nat {
    if pc.IdleDrain? || pc.ChoosePort? || pc.FindBinary? || pc.Spawn? || (pc.ExitGate? && why.Removed?) then 1 else 0
  }

  function SpawnCount(acts: seq<Act>): nat {
    if acts == [] then 0
    else SpawnCount(acts[..|acts| - 1]) + (if acts[|acts| - 1].Spawned? then 1 else 0)
  }

  function OwnCount(labels: seq<Label>): nat {
    if labels == [] then 0 else OwnCount(labels[1..]) + (if labels[0].Own? then 1 else 0)
  }

  lemma SpawnCountAppend(acts: seq<Act>, act: Act)
    ensures SpawnCount(acts + [act]) == SpawnCount(acts) + (if act.Spawned? then 1 else 0)
  {
    assert (acts + [act])[..|acts|] == acts;
  }

  /** The flags are obeyed where they are read. */
  lemma GatesObey(s: State, a: Answers)
    ensures var pc := OwnStep(s, a).pc;
            && (s.marked && (s.pc.Top? || s.pc.MarkGate?) ==> pc.Done?)
            && (s.exit && s.pc.ExitGate? ==> pc.Done?)
            && (s.exit && s.pc.ChildExitGate? ==> pc.AfterChild?)
  {
  }

  /** A step that goes from `pc` to `pc'` and obeys the flags comes closer to the end. */
  lemma GoesCloser(pc: Pc, p: Page, pc': Pc, p': Page, why: Reason)
    requires Visible(pc, p, pc', p')
    requires why.Removed? && (pc.Top? || pc.MarkGate?) ==> pc'.Done?
    requires why.Exiting? && pc.ExitGate? ==> pc'.Done?
    requires why.Exiting? && pc.ChildExitGate? ==> pc'.AfterChild?
    ensures Rank(pc', why) == 0 || Rank(pc', why) < Rank(pc, why)
    ensures (if pc.Spawn? && pc'.PollChild? then 1 else 0) + SpawnsLeft(pc', why) <= SpawnsLeft(pc, why)
  {
  }

  /** Only a launch that succeeds spawns, and no step clears a flag. */
  predicate ActsGrow(s: State, t: State) {
    && t.exit == s.exit && t.marked == s.marked
    && SpawnCount(t.acts) <= SpawnCount(s.acts) + (if s.pc.Spawn? && t.pc.PollChild? then 1 else 0)
  }

  lemma ActsGrowDraining(s: State, a: Answers)
    requires Draining(s.pc)
    ensures ActsGrow(s, OwnStep(s, a))
  {
    var d := Drain(s.site, s.pc.ChildDrain?, s.enabled, TakenFrom(s, a.batch));
    if d.deletedAt.Some? { DeletedCounts(s, d.deletedAt.value + 1, a.killed); }
  }

  lemma DeletedCounts(s: State, taken: nat, killed: bool)
    ensures var t := Deleted(s, taken, killed);
            t.exit == s.exit && t.marked == s.marked && SpawnCount(t.acts) == SpawnCount(s.acts)
  {
    var t := Kill(s.(page := Clear(s.page), inbox := LeftIn(s, taken)), killed);
    SpawnCountAppend(s.acts, Confirmed(Alive(t)));
  }

  lemma ActsGrowSpawn(s: State, a: Answers)
    requires s.pc.Spawn?
    ensures ActsGrow(s, OwnStep(s, a))
  {
    if s.port.Some? && a.spawned {
      var act := Spawned(s.port.value, s.enabled, Alive(s));
      SpawnCountAppend(s.acts, act);
      assert OwnStep(s, a).acts == s.acts + [act];
    } else {
      assert OwnStep(s, a).acts == s.acts;
    }
  }

  lemma ActsGrowPolls(s: State, a: Answers)
    requires s.pc.PollChild? || s.pc.ChildExitGate?
    ensures var t := OwnStep(s, a); t.exit == s.exit && t.marked == s.marked && t.acts == s.acts
  {
  }

  lemma ActsGrowGates(s: State, a: Answers)
    requires s.pc.ReplacedGate? || s.pc.MarkGate? || s.pc.ChildEnabledGate?
    ensures var t := OwnStep(s, a); t.exit == s.exit && t.marked == s.marked && t.acts == s.acts
  {
  }

  lemma ActsGrowBefore(s: State, a: Answers)
    requires BeforeSpawn(s.pc)
    ensures var t := OwnStep(s, a); t.exit == s.exit && t.marked == s.marked && t.acts == s.acts
  {
  }

  lemma ActsGrowAfter(s: State, a: Answers)
    requires s.pc.AfterChild? || s.pc.Restart? || s.pc.Done? || s.pc.Panicked?
    ensures var t := OwnStep(s, a); t.exit == s.exit && t.marked == s.marked && t.acts == s.acts
  {
  }

  lemma OwnActsGrow(s: State, a: Answers)
    ensures ActsGrow(s, OwnStep(s, a))
  {
    if Draining(s.pc) {
      ActsGrowDraining(s, a);
    } else if s.pc.Spawn? {
      ActsGrowSpawn(s, a);
    } else if s.pc.PollChild? || s.pc.ChildExitGate? {
      ActsGrowPolls(s, a);
    } else if WithChild(s.pc) {
      ActsGrowGates(s, a);
    } else if BeforeSpawn(s.pc) {
      ActsGrowBefore(s, a);
    } else {
      ActsGrowAfter(s, a);
    }
  }

  /** With a reason to end, `n` own steps lead from `s` to `t`. */
  predicate Closer(s: State, t: State, n: nat, why: Reason) {
    && Flagged(t, why)
    && (Rank(t.pc, why) == 0 || Rank(t.pc, why) + n <= Rank(s.pc, why))
    && SpawnCount(t.acts) + SpawnsLeft(t.pc, why) <= SpawnCount(s.acts) + SpawnsLeft(s.pc, why)
  }

  lemma OwnStepIsCloser(s: State, a: Answers, why: Reason)
    requires Flagged(s, why)
    ensures Closer(s, OwnStep(s, a), 1, why)
  {
    var t := OwnStep(s, a);
    VisibleStep(s, a);
    GatesObey(s, a);
    OwnActsGrow(s, a);
    GoesCloser(s.pc, s.page, t.pc, t.page, why);
  }

  lemma OthersKeepFlags(s: State, l: Label, why: Reason)
    requires Flagged(s, why) && !l.Own?
    ensures Closer(s, Next(s, l), 0, why)
  {
  }

  lemma {:induction false} RunIsCloser(s: State, labels: seq<Label>, why: Reason)
    requires Flagged(s, why)
    ensures Closer(s, Exec(s, labels), OwnCount(labels), why)
    decreases |labels|
  {
    if labels != [] {
      if labels[0].Own? { OwnStepIsCloser(s, labels[0].answers, why); } else { OthersKeepFlags(s, labels[0], why); }
      RunIsCloser(Next(s, labels[0]), labels[1..], why);
    }
  }

  /** From any state with the exit flag set the loop ends within ten steps of its own,
      however they interleave with the world, and spawns at most one more child, none
      once it is outside the stretch from drain to spawn. */
  lemma ExitEndsTheLoop(s: State, labels: seq<Label>)
    requires s.exit
    ensures var e := Exec(s, labels);
            && (OwnCount(labels) >= 10 ==> e.pc.Done? || e.pc.Panicked?)
            && SpawnCount(e.acts) <= SpawnCount(s.acts) + SpawnsLeft(s.pc, Exiting)
  {
    RunIsCloser(s, labels, Exiting);
  }

  /** From any state marked for removal the loop ends within eleven steps of its own,
      however they interleave with the world, and spawns at most one more child, none
      once it is outside the stretch from exit check to spawn. */
  lemma RemovalEndsTheLoop(s: State, labels: seq<Label>)
    requires s.marked
    ensures var e := Exec(s, labels);
            && (OwnCount(labels) >= 11 ==> e.pc.Done? || e.pc.Panicked?)
            && SpawnCount(e.acts) <= SpawnCount(s.acts) + SpawnsLeft(s.pc, Removed)
  {
    RunIsCloser(s, labels, Removed);
  }

  /** Where the mark is read, the next step is the last: it spawns nothing, and unless it
      loses the child nothing of the loop is alive afterwards. */
  lemma MarkIsRead(s: State, a: Answers)
    requires Inv(s) && s.marked && (s.pc.Top? || s.pc.MarkGate?)
    ensures var t := OwnStep(s, a);
            t.pc.Done? && t.acts == s.acts && (!LosesChild(s, Own(a)) ==> Alive(t) == 0)
    ensures s.pc.Top? ==> OwnStep(s, a).page == Clear(s.page)
  {
    OwnEffect(s, a);
  }

  /** The request sets the flag: a shutdown or a removal that loses no child ends with
      the loop done and nothing alive. */
  lemma RequestsEndTheLoop(s: State, labels: seq<Label>, request: Label)
    requires Inv(s) && (request.ExitRequested? || request.Marked?)
    requires NoneLost(Next(s, request), labels) && OwnCount(labels) >= 11
    ensures var e := Exec(Next(s, request), labels);
            e.pc.Done? && Alive(e) == 0 && SpawnCount(e.acts) <= SpawnCount(s.acts) + 1
  {
    var t := Next(s, request);
    assert t.acts == s.acts;
    StepSafeExactly(s, request);
    RunsKeepInv(t, labels);
    RunIsCloser(t, labels, if request.Marked? then Removed else Exiting);
  }

  /** A shutdown that loses no child ends with the loop done and nothing alive. */
  lemma ExitLeavesNothingAlive(s: State, labels: seq<Label>)
    requires Inv(s) && s.exit && NoneLost(s, labels) && OwnCount(labels) >= 10
    ensures Exec(s, labels).pc.Done? && Alive(Exec(s, labels)) == 0
  {
    RunsKeepInv(s, labels);
    RunIsCloser(s, labels, Exiting);
  }

  lemma RemovalLeavesNothingAlive(s: State, labels: seq<Label>)
    requires Inv(s) && s.marked && NoneLost(s, labels) && OwnCount(labels) >= 11
    ensures Exec(s, labels).pc.Done? && Alive(Exec(s, labels)) == 0
  {
    RunsKeepInv(s, labels);
    RunIsCloser(s, labels, Removed);
  }

  /** The one more child does happen: the exit flag is not read again before the spawn. */
  lemma ExitCanStillSpawn(s: State)
    requires s.exit && s.pc.ChoosePort?
    ensures SpawnCount(Exec(s, [REPLACED, REPLACED, REPLACED]).acts) == SpawnCount(s.acts) + 1
  {
    RunThree(Next, s, REPLACED, REPLACED, REPLACED);
    SpawnCountAppend(s.acts, Spawned(4200, s.enabled, Alive(s)));
  }

  // ---- What the loop achieves ------------------------------------------------------------------

  /** Messages are read in order and once, and only where the loop drains them; there the
      flag becomes what they make of it. */
  lemma CommandsTakeEffect(s: State, a: Answers) returns (n: nat)
    ensures var t := OwnStep(s, a);
            if Draining(s.pc) then Drains(s, a, t, n) else t.inbox == s.inbox && t.enabled == s.enabled
  {
    if Draining(s.pc) {
      n := CommandsDrained(s, a);
    } else {
      n := 0;
      CommandsLeft(s, a);
    }
  }

  /** What a drain takes and leaves. */
  predicate Drains(s: State, a: Answers, t: State, n: nat) {
    && n <= |s.inbox| && t.inbox == s.inbox[n..]
    && (!Deletes(s, Own(a)) ==>
          && (n == a.batch || n == |s.inbox| < a.batch)
          && t.enabled == Drain(s.site, s.pc.ChildDrain?, s.enabled, s.inbox[..n]).enabled)
    && (Deletes(s, Own(a)) ==> n > 0 && DeletesMe(s.site, s.inbox[n - 1]))
  }

  lemma DrainStops(s: State, a: Answers) returns (n: nat)
    requires Deletes(s, Own(a))
    ensures var d := Drain(s.site, s.pc.ChildDrain?, s.enabled, TakenFrom(s, a.batch));
            n == d.deletedAt.value + 1 <= |s.inbox| && DeletesMe(s.site, s.inbox[n - 1])
    ensures LeftIn(s, n) == s.inbox[n..]
  {
    var taken := TakenFrom(s, a.batch);
    DrainEndsAtFirstDelete(s.site, s.pc.ChildDrain?, s.enabled, taken);
    n := Drain(s.site, s.pc.ChildDrain?, s.enabled, taken).deletedAt.value + 1;
    assert taken[n - 1] == s.inbox[n - 1];
  }

  lemma DrainRuns(s: State, batch: nat) returns (n: nat)
    ensures n <= |s.inbox| && (n == batch || n == |s.inbox| < batch)
    ensures TakenFrom(s, batch) == s.inbox[..n] && LeftIn(s, batch) == s.inbox[n..]
  {
    n := if batch <= |s.inbox| then batch else |s.inbox|;
    assert s.inbox[..|s.inbox|] == s.inbox;
  }

  lemma CommandsDrained(s: State, a: Answers) returns (n: nat)
    requires Draining(s.pc)
    ensures Drains(s, a, OwnStep(s, a), n)
  {
    if Deletes(s, Own(a)) {
      n := DrainStops(s, a);
      if s.pc.IdleDrain? { IdleDrainDeletes(s, a, n); } else { ChildDrainDeletes(s, a, n); }
    } else {
      n := DrainRuns(s, a.batch);
      if s.pc.IdleDrain? { IdleDrainLeaves(s, a, n); } else { ChildDrainLeaves(s, a, n); }
    }
  }

  lemma IdleDrainDeletes(s: State, a: Answers, n: nat)
    requires s.pc.IdleDrain? && Deletes(s, Own(a))
    requires n == Drain(s.site, false, s.enabled, TakenFrom(s, a.batch)).deletedAt.value + 1
    ensures OwnStep(s, a).inbox == LeftIn(s, n)
  {
  }

  lemma IdleDrainLeaves(s: State, a: Answers, n: nat)
    requires s.pc.IdleDrain? && !Deletes(s, Own(a)) && n <= |s.inbox| && TakenFrom(s, a.batch) == s.inbox[..n]
    ensures OwnStep(s, a).inbox == LeftIn(s, a.batch)
    ensures OwnStep(s, a).enabled == Drain(s.site, false, s.enabled, s.inbox[..n]).enabled
  {
  }

  lemma ChildDrainDeletes(s: State, a: Answers, n: nat)
    requires s.pc.ChildDrain? && Deletes(s, Own(a))
    requires n == Drain(s.site, true, s.enabled, TakenFrom(s, a.batch)).deletedAt.value + 1
    ensures OwnStep(s, a).inbox == LeftIn(s, n)
  {
  }

  lemma ChildDrainLeaves(s: State, a: Answers, n: nat)
    requires s.pc.ChildDrain? && !Deletes(s, Own(a)) && n <= |s.inbox| && TakenFrom(s, a.batch) == s.inbox[..n]
    ensures OwnStep(s, a).inbox == LeftIn(s, a.batch)
    ensures OwnStep(s, a).enabled == Drain(s.site, true, s.enabled, s.inbox[..n]).enabled
  {
  }

  lemma CommandsLeft(s: State, a: Answers)
    requires !Draining(s.pc)
    ensures OwnStep(s, a).inbox == s.inbox && OwnStep(s, a).enabled == s.enabled
  {
    if s.pc.PollChild? || s.pc.ChildExitGate? {
      CommandsLeftPolls(s, a);
    } else if WithChild(s.pc) {
      CommandsLeftGates(s, a);
    } else if BeforeSpawn(s.pc) {
      CommandsLeftBefore(s, a);
    } else if s.pc.Spawn? {
      CommandsLeftSpawn(s, a);
    } else {
      CommandsLeftAfter(s, a);
    }
  }

  lemma CommandsLeftPolls(s: State, a: Answers)
    requires s.pc.PollChild? || s.pc.ChildExitGate?
    ensures OwnStep(s, a).inbox == s.inbox && OwnStep(s, a).enabled == s.enabled
  {
  }

  lemma CommandsLeftGates(s: State, a: Answers)
    requires s.pc.ReplacedGate? || s.pc.MarkGate? || s.pc.ChildEnabledGate?
    ensures OwnStep(s, a).inbox == s.inbox && OwnStep(s, a).enabled == s.enabled
  {
  }

  lemma CommandsLeftBefore(s: State, a: Answers)
    requires BeforeSpawn(s.pc)
    ensures OwnStep(s, a).inbox == s.inbox && OwnStep(s, a).enabled == s.enabled
  {
  }

  lemma CommandsLeftSpawn(s: State, a: Answers)
    requires s.pc.Spawn?
    ensures OwnStep(s, a).inbox == s.inbox && OwnStep(s, a).enabled == s.enabled
  {
  }

  lemma CommandsLeftAfter(s: State, a: Answers)
    requires s.pc.AfterChild? || s.pc.Restart? || s.pc.Done? || s.pc.Panicked?
    ensures OwnStep(s, a).inbox == s.inbox && OwnStep(s, a).enabled == s.enabled
  {
  }

  /** The world answers well: `port` is what the chooser says, and all messages are read. */
  function Well(port: Option<Port>, batch: nat): Label {
    Own(Answers(port, true, true, false, false, true, batch))
  }

  /** An idle site that is enabled after the messages is started in four steps, on the
      port the chooser gives, or else on the one it had. */
  lemma EnabledSiteStarts(s: State, port: Option<Port>, p: Port)
    requires s.pc.IdleDrain? && !s.held && Drain(s.site, false, s.enabled, s.inbox) == Drained(true, None)
    requires port == Some(p) || (port.None? && s.port == Some(p))
    ensures var w := Well(port, |s.inbox|); var t := Exec(s, [w, w, w, w]);
            && t.pc.PollChild? && t.held && t.childAlive && t.inbox == [] && t.page.entry == Some(Running)
            && t.acts == s.acts + [Spawned(p, true, s.orphans)]
  {
    var w := Well(port, |s.inbox|);
    assert [w, w, w, w] == [w, w] + [w, w];
    RunConcat(Next, s, [w, w], [w, w]);
    RunTwo(Next, s, w, w);
    var t := Next(Next(s, w), w);
    assert t == s.(enabled := true, inbox := [], port := Some(p), pc := FindBinary);
    RunTwo(Next, t, w, w);
  }

  /** An idle site that is not enabled after the messages starts over and spawns nothing. */
  lemma DisabledSiteWaits(s: State, a: Answers)
    requires s.pc.IdleDrain? && a.batch == |s.inbox| && Drain(s.site, false, s.enabled, s.inbox) == Drained(false, None)
    ensures var t := OwnStep(s, a);
            && t.pc.Top? && !t.enabled && t.acts == s.acts && t.inbox == []
            && (if s.enabled then t.page.entry == Some(Stopped) else t.page == s.page)
  {
  }

  /** Without its program the site is shown as faulty and the loop tries again from the top. */
  lemma MissingProgramIsShown(s: State, a: Answers)
    requires s.pc.FindBinary? && !a.binaryFound
    ensures var t := OwnStep(s, a); t.pc.Top? && t.page.entry == Some(Faulty) && t.acts == s.acts && t.enabled == s.enabled
  {
  }

  /** All messages of a run, in the order they were sent. */
  function Heard(labels: seq<Label>): seq<Msg> {
    if labels == [] then []
    else (if labels[0].Message? then [labels[0].msg] else []) + Heard(labels[1..])
  }

  lemma HeardFirst(labels: seq<Label>)
    requires labels != []
    ensures Heard(labels) == Heard([labels[0]]) + Heard(labels[1..])
  {
    assert [labels[0]][1..] == [];
  }

  lemma QueueSteps(before: seq<Msg>, sent: seq<Msg>, later: seq<Msg>, after: seq<Msg>, k: nat, m: nat)
    requires k <= |before + sent| && after == (before + sent)[k..] && m <= |after + later|
    ensures k + m <= |before + (sent + later)|
    ensures (after + later)[m..] == (before + (sent + later))[k + m..]
  {
    var all := before + (sent + later);
    assert all == (before + sent) + later;
    assert after + later == all[k..];
  }

  /** What waits is always the end of what was sent: messages are read first in, first out. */
  lemma {:induction false} MessagesStayInOrder(s: State, labels: seq<Label>) returns (n: nat)
    ensures n <= |s.inbox + Heard(labels)| && Exec(s, labels).inbox == (s.inbox + Heard(labels))[n..]
    decreases |labels|
  {
    if labels == [] {
      n := 0;
      assert s.inbox + Heard(labels) == s.inbox;
    } else {
      var k := InboxStep(s, labels[0]);
      var inbox := Next(s, labels[0]).inbox;
      var m := MessagesStayInOrder(Next(s, labels[0]), labels[1..]);
      HeardFirst(labels);
      QueueSteps(s.inbox, Heard([labels[0]]), Heard(labels[1..]), inbox, k, m);
      n := k + m;
    }
  }

  lemma InboxStep(s: State, l: Label) returns (k: nat)
    ensures k <= |s.inbox| && Next(s, l).inbox == (s.inbox + Heard([l]))[k..]
  {
    k := 0;
    assert [l][1..] == [];
    if l.Own? {
      var n := CommandsTakeEffect(s, l.answers);
      if Draining(s.pc) { k := n; }
      assert s.inbox + Heard([l]) == s.inbox;
    }
  }

  /** A running site that the messages disable has no child after three steps, and after
      five the loop is back at its top, shown as stopped and ready to be started again. */
  lemma DisabledSiteStops(s: State)
    requires s.pc.ChildDrain? && s.held && !s.marked && Drain(s.site, true, s.enabled, s.inbox) == Drained(false, None)
    ensures var w := Well(None, |s.inbox|);
            var t := Exec(s, [w, w, w]);
            && t.pc.AfterChild? && !t.held && t.orphans == s.orphans && t.page.entry == Some(Stopping)
            && Exec(t, [w, w]).pc.Top? && Exec(t, [w, w]).page.entry == Some(Stopped) && !Exec(t, [w, w]).enabled
  {
    var w := Well(None, |s.inbox|);
    RunThree(Next, s, w, w, w);
    var gate := Next(Next(s, w), w);
    assert gate == s.(enabled := false, inbox := [], pc := ChildEnabledGate);
    var t := Next(gate, w);
    RunTwo(Next, t, w, w);
  }

  /** A child that dies is noticed at the next poll. After three steps the site is shown
      as faulty and the loop is back at its top, still enabled; during a shutdown the
      loop ends instead, with the site shown as stopped. */
  lemma DeadChildIsNoticed(s: State)
    requires s.pc.PollChild? && s.held && s.enabled
    ensures var w := Well(None, 0); var t := Exec(Next(s, ChildDies), [w, w, w]);
            && !t.held && t.enabled && t.orphans == s.orphans && t.acts == s.acts
            && (!s.exit ==> t.pc.Top? && t.page.entry == Some(Faulty))
            && (s.exit ==> t.pc.Done? && t.page.entry == Some(Stopped))
  {
    var w := Well(None, 0);
    RunThree(Next, Next(s, ChildDies), w, w, w);
  }

  /** A live child stays: a poll that finds nothing to do comes around to the next poll. */
  lemma LiveChildIsKept(s: State)
    requires s.pc.PollChild? && s.held && s.childAlive && s.enabled && !s.exit && !s.marked && s.inbox == []
    ensures var w := Well(None, 0); var t := Exec(s, [w, w, w] + [w, w, w]);
            t == s.(page := t.page) && t.page.entry == Some(Running)
  {
    var w := Well(None, 0);
    RunConcat(Next, s, [w, w, w], [w, w, w]);
    RunThree(Next, s, w, w, w);
    var t := Exec(s, [w, w, w]);
    assert t == s.(page := Publish(s.page, Running), pc := ChildDrain);
    RunThree(Next, t, w, w, w);
  }

  // ---- Status -----------------------------------------------------------------------------------

  /** A site shown as running has a child, or is about to be shown as stopped. */
  predicate Honest(pc: Pc, entry: Option<ProcState>) {
    entry == Some(Running) ==> WithChild(pc) || pc.AfterChild?
  }

  lemma VisibleHonest(pc: Pc, p: Page, pc': Pc, p': Page)
    requires Honest(pc, p.entry) && Visible(pc, p, pc', p')
    ensures Honest(pc', p'.entry)
  {
  }

  lemma StepStaysHonest(s: State, l: Label)
    requires Honest(s.pc, s.page.entry)
    ensures Honest(Next(s, l).pc, Next(s, l).page.entry)
  {
    if l.Own? {
      var t := OwnStep(s, l.answers);
      VisibleStep(s, l.answers);
      VisibleHonest(s.pc, s.page, t.pc, t.page);
    }
  }

  lemma {:induction false} RunsStayHonest(s: State, labels: seq<Label>)
    requires Honest(s.pc, s.page.entry)
    ensures Honest(Exec(s, labels).pc, Exec(s, labels).page.entry)
    decreases |labels|
  {
    if labels != [] {
      StepStaysHonest(s, labels[0]);
      RunsStayHonest(Next(s, labels[0]), labels[1..]);
    }
  }

  lemma VisibleInStep(pc: Pc, p: Page, pc': Pc, p': Page)
    requires Status.InStep(p) && Visible(pc, p, pc', p')
    ensures Status.InStep(p')
  {
    ClearStaysInStep(p);
    forall shown { PublishStaysInStep(p, shown); }
    PublishStaysInStep(Publish(p, Starting), Faulty);
    PublishStaysInStep(Publish(p, Starting), Running);
  }

  /** Some step of another task edits the status map silently. */
  predicate SilentlyEdited(s: State, labels: seq<Label>)
    decreases |labels|
  {
    labels != [] &&
    ((labels[0].MapEdit? && Edits(s.page, labels[0].edit)) || SilentlyEdited(Next(s, labels[0]), labels[1..]))
  }

  /** Over every run of the supervisor without a silent edit, the entry is that of the
      last event, or gone by a removal since, and equal events are separated by a removal. */
  lemma {:induction false} SupervisorStaysInStep(s: State, labels: seq<Label>)
    requires Status.InStep(s.page) && !SilentlyEdited(s, labels)
    ensures Status.InStep(Exec(s, labels).page)
    decreases |labels|
  {
    if labels != [] {
      match labels[0] {
        case Own(a) =>
          VisibleStep(s, a);
          VisibleInStep(s.pc, s.page, OwnStep(s, a).pc, OwnStep(s, a).page);
        case MapEdit(edit) => StepInStepExactly(s.page, edit);
        case _ =>
      }
      SupervisorStaysInStep(Next(s, labels[0]), labels[1..]);
    }
  }

  /** The events an observer may see one after the other. */
  predicate Follows(a: Mark, b: Mark) {
    match b
    case Cleared => a.Emitted? && !a.state.Starting?
    case Emitted(s) =>
      match s
      case Starting => a == Emitted(Stopped)
      case Running => a == Emitted(Starting)
      case Stopping => a == Emitted(Running)
      case Stopped => a.Cleared? || a == Emitted(Faulty) || a == Emitted(Running) || a == Emitted(Stopping)
      case Faulty => a == Emitted(Stopped) || a == Emitted(Starting)
      case _ => false
  }

  predicate Lifecycle(marks: seq<Mark>) {
    forall i, j :: 0 <= i && j == i + 1 < |marks| ==> Follows(marks[i], marks[j])
  }

  predicate AtRest(entry: Option<ProcState>) {
    entry.None? || entry == Some(Stopped) || entry == Some(Faulty) || entry == Some(Stopping)
  }

  /** What the status map can show for a site whose loop is at `pc`. */
  predicate Shows(pc: Pc, entry: Option<ProcState>) {
    match pc
    case Top => AtRest(entry)
    case ExitGate => AtRest(entry)
    case IdleDrain => entry == Some(Stopped)
    case ChoosePort => entry == Some(Stopped)
    case FindBinary => entry == Some(Stopped)
    case Spawn => entry == Some(Stopped)
    case AfterChild => entry == Some(Running) || entry == Some(Stopping)
    case Restart => entry == Some(Stopped) || entry == Some(Faulty)
    case Done => AtRest(entry)
    case Panicked => true
    case _ => entry == Some(Running)
  }

  /** The map is edited by this loop only, and shows what the loop is doing. */
  predicate Tracked(pc: Pc, p: Page) {
    Status.InStep(p) && Lifecycle(p.marks) && Shows(pc, p.entry)
  }

  /** The page may show `p` next. */
  predicate MayShow(page: Page, p: ProcState) {
    page.entry == Some(p) || page.marks == [] || Follows(page.marks[|page.marks| - 1], Emitted(p))
  }

  lemma PublishFollows(page: Page, p: ProcState)
    requires Status.InStep(page) && Lifecycle(page.marks) && MayShow(page, p)
    ensures Status.InStep(Publish(page, p)) && Lifecycle(Publish(page, p).marks)
    ensures Publish(page, p).entry == Some(p)
  {
    PublishStaysInStep(page, p);
  }

  lemma ClearFollows(page: Page)
    requires Status.InStep(page) && Lifecycle(page.marks) && page.entry != Some(Starting)
    ensures Status.InStep(Clear(page)) && Lifecycle(Clear(page).marks)
  {
    ClearStaysInStep(page);
  }

  lemma LaunchFollows(page: Page, p: ProcState)
    requires Status.InStep(page) && Lifecycle(page.marks) && page.entry == Some(Stopped) && (p.Faulty? || p.Running?)
    ensures var q := Publish(Publish(page, Starting), p);
            Status.InStep(q) && Lifecycle(q.marks) && q.entry == Some(p)
  {
    PublishFollows(page, Starting);
    PublishFollows(Publish(page, Starting), p);
  }

  lemma VisibleTracked(pc: Pc, p: Page, pc': Pc, p': Page)
    requires Tracked(pc, p) && Visible(pc, p, pc', p')
    ensures Tracked(pc', p')
  {
    if p' == Clear(p) {
      ClearFollows(p);
    } else if pc.Spawn? && !pc'.Panicked? {
      LaunchFollows(p, if pc'.Restart? then Faulty else Running);
    } else if p' != p {
      PublishFollows(p, p'.entry.value);
    }
  }

  lemma StepTracked(s: State, l: Label)
    requires Tracked(s.pc, s.page) && (l.MapEdit? ==> Next(s, l).page == s.page)
    ensures Tracked(Next(s, l).pc, Next(s, l).page)
  {
    if l.Own? {
      var t := OwnStep(s, l.answers);
      VisibleStep(s, l.answers);
      VisibleTracked(s.pc, s.page, t.pc, t.page);
    }
  }

  /** What other tasks do in the run leaves the entry as it is. */
  predicate LeftAlone(s: State, labels: seq<Label>)
    decreases |labels|
  {
    labels == [] ||
    ((labels[0].MapEdit? ==> Next(s, labels[0]).page == s.page) && LeftAlone(Next(s, labels[0]), labels[1..]))
  }

  /** Over every run in which nobody else edits the map, the entry fits the place of
      the loop and the events follow the life cycle of a process. */
  lemma {:induction false} StatusFollowsLifecycle(s: State, labels: seq<Label>)
    requires Tracked(s.pc, s.page)
    requires LeftAlone(s, labels)
    ensures Tracked(Exec(s, labels).pc, Exec(s, labels).page)
    decreases |labels|
  {
    if labels != [] {
      StepTracked(s, labels[0]);
      StatusFollowsLifecycle(Next(s, labels[0]), labels[1..]);
    }
  }

  // ---- What receivers of the events hold ---------------------------------------------------------

  /** The run has ended by removing the entry: it was marked for removal before a child
      was started, or deleted. */
  predicate Vanished(pc: Pc, p: Page) {
    pc.Done? && p.entry.None?
  }

  lemma VisibleTold(pc: Pc, p: Page, pc': Pc, p': Page)
    requires Tracked(pc, p) && Visible(pc, p, pc', p')
    requires Told(p) || Vanished(pc, p)
    ensures Told(p') || Vanished(pc', p')
  {
    if p' == Clear(p) {
      LastEventSnoc(p.marks, Cleared);
    } else {
      forall shown { PublishTellsExactly(p, shown); }
      PublishTellsExactly(Publish(p, Starting), Faulty);
      PublishTellsExactly(Publish(p, Starting), Running);
    }
  }

  lemma StepTold(s: State, l: Label)
    requires Tracked(s.pc, s.page) && (l.MapEdit? ==> Next(s, l).page == s.page)
    requires Told(s.page) || Vanished(s.pc, s.page)
    ensures Told(Next(s, l).page) || Vanished(Next(s, l).pc, Next(s, l).page)
  {
    if l.Own? {
      var t := OwnStep(s, l.answers);
      VisibleStep(s, l.answers);
      VisibleTold(s.pc, s.page, t.pc, t.page);
    }
  }

  /** Over every run in which nobody else edits the map, receivers of the events hold
      the entry, until the loop ends by removing it. */
  lemma {:induction false} ToldUntilRemoved(s: State, labels: seq<Label>)
    requires Tracked(s.pc, s.page) && LeftAlone(s, labels)
    requires Told(s.page) || Vanished(s.pc, s.page)
    ensures Told(Exec(s, labels).page) || Vanished(Exec(s, labels).pc, Exec(s, labels).page)
    decreases |labels|
  {
    if labels != [] {
      StepTold(s, labels[0]);
      StepTracked(s, labels[0]);
      ToldUntilRemoved(Next(s, labels[0]), labels[1..]);
    }
  }

  /** Deleting a site whose child runs takes the entry away and announces nothing: the
      last event still says what the entry said. */
  lemma DeletionIsUntold(s: State, a: Answers)
    requires s.pc.ChildDrain? && Tracked(s.pc, s.page)
    requires Drain(s.site, true, s.enabled, TakenFrom(s, a.batch)).deletedAt.Some?
    ensures var t := OwnStep(s, a);
            && t.pc.Done? && t.page.entry.None? && LastEvent(t.page.marks) == Some(Running)
            && !Told(t.page) && Status.InStep(t.page)
  {
    InStepTells(s.page.marks);
    LastEventSnoc(s.page.marks, Cleared);
    ClearStaysInStep(s.page);
  }

  /** A run that starts a site and deletes it: nothing is running and no entry is left,
      and every receiver of the events holds that the site is running. */
  lemma DeletedSiteLooksRunning(s: State) returns (labels: seq<Label>)
    requires Restarting(s) && Tracked(s.pc, s.page)
    ensures var t := Exec(s, labels);
            && t.pc.Done? && !t.held && t.page.entry.None? && LastEvent(t.page.marks) == Some(Running)
  {
    var two, three := [REPLACED, REPLACED], [REPLACED, REPLACED, REPLACED];
    ToPortChoice(s);
    var choosing := Exec(s, three);
    ToSpawn(choosing);
    var spawning := Exec(choosing, two);
    ToReplaced(spawning);
    RunConcat(Next, s, three, two);
    RunConcat(Next, s, three + two, three);
    var watching := Exec(s, three + two + three);
    OwnLeavesAlone(s, three + two + three);
    StatusFollowsLifecycle(s, three + two + three);
    var delete := Delete(s.site.hostName);
    var calm := Answers(None, true, true, false, false, true, 1);
    var asked := Next(watching, Message(delete));
    var draining := Next(asked, Own(calm));
    VisibleStep(asked, calm);
    VisibleTracked(asked.pc, asked.page, draining.pc, draining.page);
    assert draining.pc.ChildDrain? && draining.inbox == [delete];
    assert TakenFrom(draining, 1) == [delete];
    DeletionIsUntold(draining, calm);
    RunThree(Next, watching, Message(delete), Own(calm), Own(calm));
    labels := three + two + three + [Message(delete), Own(calm), Own(calm)];
    RunConcat(Next, s, three + two + three, [Message(delete), Own(calm), Own(calm)]);
  }

  lemma {:induction false} OwnLeavesAlone(s: State, labels: seq<Label>)
    requires forall l :: l in labels ==> !l.MapEdit?
    ensures LeftAlone(s, labels)
    decreases |labels|
  {
    if labels != [] { OwnLeavesAlone(Next(s, labels[0]), labels[1..]); }
  }

  // ---- Excluded sites -------------------------------------------------------------------------------

  predicate Mass(m: Msg) {
    m.StartAll? || m == Start("all")
  }

  predicate OnlyMassMessages(labels: seq<Label>) {
    forall i :: 0 <= i < |labels| ==> (labels[i].Message? ==> Mass(labels[i].msg))
  }

  /** An excluded site that is not enabled, holds no child and has only mass starts waiting. */
  predicate Dormant(s: State) {
    && s.site.excluded && !s.enabled
    && (s.pc.Top? || s.pc.ExitGate? || s.pc.IdleDrain? || s.pc.AfterChild? || s.pc.Restart? || s.pc.Done?)
    && forall i :: 0 <= i < |s.inbox| ==> Mass(s.inbox[i])
  }

  lemma MassBatchIgnored(site: Site, enabled: bool, batch: seq<Msg>)
    requires site.excluded && forall i :: 0 <= i < |batch| ==> Mass(batch[i])
    ensures Drain(site, false, enabled, batch) == Drained(enabled, None)
  {
    DrainEndsAtFirstDelete(site, false, enabled, batch);
    DrainUnchanged(site, false, enabled, batch);
  }

  lemma DormantStep(s: State, l: Label)
    requires Dormant(s) && (l.Message? ==> Mass(l.msg))
    ensures Dormant(Next(s, l)) && Next(s, l).acts == s.acts
  {
    if l.Own? && s.pc.IdleDrain? {
      MassBatchIgnored(s.site, s.enabled, TakenFrom(s, l.answers.batch));
    }
  }

  /** No number of mass starts, however they interleave with the loop, starts an
      excluded site that is stopped. */
  lemma {:induction false} MassStartsNeverStartExcluded(s: State, labels: seq<Label>)
    requires Dormant(s) && OnlyMassMessages(labels)
    ensures Dormant(Exec(s, labels)) && Exec(s, labels).acts == s.acts
    decreases |labels|
  {
    if labels != [] {
      DormantStep(s, labels[0]);
      MassStartsNeverStartExcluded(Next(s, labels[0]), labels[1..]);
    }
  }
}
