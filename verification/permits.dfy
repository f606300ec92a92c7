/** The two listeners, their handlers and the 200 permits they share, with the loop
    that cancels and replaces the listeners when the configured addresses change. */
module Permits {
  import opened Runs
  import opened Wrappers
  import opened Text

  const PERMITS := 200

  /** Where a listener task is; it holds a forgotten permit while holding or accepted. */
  datatype Stage =
    | Binding     // socket being set up
    | Checking    // top of the accept loop
    | Acquiring   // waiting for a permit
    | Holding     // permit taken, waiting for a connection
    | Accepted    // connection taken, handler not spawned yet
    | Finished

  datatype Listener = Listener(stage: Stage, cancelled: bool)

  datatype Phase = Polling | StoppingHttp | StoppingHttps | Starting

  datatype Side = Http | Https

  datatype State = State(
    available: nat,
    inFlight: nat,    // running handlers
    abandoned: nat,   // permits lost with a cancelled listener
    panicked: nat,    // permits lost with a panicking handler
    rebinds: nat,
    phase: Phase,
    started: bool,
    exit: bool,
    http: Listener,
    https: Listener)

  datatype Action =
    | Poll(changed: bool)
    | HttpJoined
    | HttpsJoined
    | StartListeners
    | Bind(side: Side, ok: bool)
    | Check(side: Side)
    | Acquire(side: Side)
    | Accept(side: Side, ok: bool)
    | HandOff(side: Side)
    | Drop(side: Side)        // the cancellation branch wins
    | HandlerReturns
    | HandlerPanics
    | Exit

  function Of(s: State, side: Side): Listener {
    if side.Http? then s.http else s.https
  }

  function At(s: State, side: Side, stage: Stage): State {
    if side.Http? then s.(http := s.http.(stage := stage)) else s.(https := s.https.(stage := stage))
  }

  function Held(l: Listener): nat {
    if l.stage.Holding? || l.stage.Accepted? then 1 else 0
  }

  /** An action that is not possible leaves the state as it is. */
  function Next(s: State, a: Action): State {
    match a
    case Poll(changed) =>
      if !s.phase.Polling? then s
      else if !s.started then s.(phase := Starting)
      else if changed then s.(rebinds := s.rebinds + 1, http := s.http.(cancelled := true), phase := StoppingHttp)
      else s
    case HttpJoined =>
      if s.phase.StoppingHttp? && s.http.stage.Finished?
      then s.(https := s.https.(cancelled := true), phase := StoppingHttps) else s
    case HttpsJoined =>
      if s.phase.StoppingHttps? && s.https.stage.Finished? then s.(phase := Starting) else s
    case StartListeners =>
      if s.phase.Starting?
      then s.(started := true, phase := Polling, http := Listener(Binding, false), https := Listener(Binding, false))
      else s
    case Bind(side, ok) =>
      if Of(s, side).stage.Binding? then At(s, side, if ok then Checking else Finished) else s
    case Check(side) =>
      if Of(s, side).stage.Checking?
      then At(s, side, if Of(s, side).cancelled || s.exit then Finished else Acquiring) else s
    case Acquire(side) =>
      if Of(s, side).stage.Acquiring? && s.available > 0
      then At(s, side, Holding).(available := s.available - 1) else s
    case Accept(side, ok) =>
      if !Of(s, side).stage.Holding? then s
      else if ok then At(s, side, Accepted)
      else At(s, side, Checking).(available := s.available + 1)
    case HandOff(side) =>
      if Of(s, side).stage.Accepted? then At(s, side, Checking).(inFlight := s.inFlight + 1) else s
    case Drop(side) =>
      if Of(s, side).cancelled && !Of(s, side).stage.Finished?
      then At(s, side, Finished).(abandoned := s.abandoned + Held(Of(s, side))) else s
    case HandlerReturns =>
      if s.inFlight > 0 then s.(inFlight := s.inFlight - 1, available := s.available + 1) else s
    case HandlerPanics =>
      if s.inFlight > 0 then s.(inFlight := s.inFlight - 1, panicked := s.panicked + 1) else s
    case Exit => s.(exit := true)
  }

  function Exec(s: State, acts: seq<Action>): State {
    Run(Next, s, acts)
  }

  function Init(): State {
    State(PERMITS, 0, 0, 0, 0, Polling, false, false, Listener(Finished, false), Listener(Finished, false))
  }

  // ---- Conservation ---------------------------------------------------------------------

  function Total(s: State): nat {
    s.available + s.inFlight + Held(s.http) + Held(s.https) + s.abandoned + s.panicked
  }

  /** Listeners that the running rebind has yet to see finished. */
  function Outstanding(s: State): nat {
    match s.phase
    case StoppingHttp => (if s.http.stage.Finished? then 0 else 1) + 1
    case StoppingHttps => if s.https.stage.Finished? then 0 else 1
    case Polling => 0
    case Starting => 0
  }

  predicate Inv(s: State) {
    && Total(s) == PERMITS
    && s.abandoned + Outstanding(s) <= 2 * s.rebinds
    && (s.phase.Polling? ==> !s.http.cancelled && !s.https.cancelled)
    && (s.phase.StoppingHttp? ==> !s.https.cancelled)
    && (s.phase.StoppingHttps? ==> s.http.stage.Finished?)
    && (s.phase.Starting? ==> s.http.stage.Finished? && s.https.stage.Finished?)
    && (!s.started ==> s.http.stage.Finished? && s.https.stage.Finished?)
  }

  lemma LoopStepKeepsInv(s: State, a: Action)
    requires Inv(s) && (a.Poll? || a.HttpJoined? || a.HttpsJoined? || a.StartListeners? || a.Exit?)
    ensures Inv(Next(s, a))
  {
  }

  lemma BindKeepsInv(s: State, side: Side, ok: bool)
    requires Inv(s)
    ensures Inv(Next(s, Bind(side, ok)))
  {
  }

  lemma CheckKeepsInv(s: State, side: Side)
    requires Inv(s)
    ensures Inv(Next(s, Check(side)))
  {
  }

  lemma AcquireKeepsInv(s: State, side: Side)
    requires Inv(s)
    ensures Inv(Next(s, Acquire(side)))
  {
  }

  lemma AcceptKeepsInv(s: State, side: Side, ok: bool)
    requires Inv(s)
    ensures Inv(Next(s, Accept(side, ok)))
  {
  }

  lemma HandOffKeepsInv(s: State, side: Side)
    requires Inv(s)
    ensures Inv(Next(s, HandOff(side)))
  {
  }

  lemma DropKeepsInv(s: State, side: Side)
    requires Inv(s)
    ensures Inv(Next(s, Drop(side)))
  {
  }

  lemma HandlerKeepsInv(s: State, a: Action)
    requires Inv(s) && (a.HandlerReturns? || a.HandlerPanics?)
    ensures Inv(Next(s, a))
  {
  }

  lemma StepKeepsInv(s: State, a: Action)
    requires Inv(s)
    ensures Inv(Next(s, a))
  {
    match a
    case Bind(side, ok) => BindKeepsInv(s, side, ok);
    case Check(side) => CheckKeepsInv(s, side);
    case Acquire(side) => AcquireKeepsInv(s, side);
    case Accept(side, ok) => AcceptKeepsInv(s, side, ok);
    case HandOff(side) => HandOffKeepsInv(s, side);
    case Drop(side) => DropKeepsInv(s, side);
    case HandlerReturns => HandlerKeepsInv(s, a);
    case HandlerPanics => HandlerKeepsInv(s, a);
    case _ => LoopStepKeepsInv(s, a);
  }

  lemma {:induction false} RunsKeepInv(s: State, acts: seq<Action>)
    requires Inv(s)
    ensures Inv(Exec(s, acts))
    decreases |acts|
  {
    if acts != [] {
      StepKeepsInv(s, acts[0]);
      RunsKeepInv(Next(s, acts[0]), acts[1..]);
    }
  }

  /** Every permit is available, with a running handler, with a listener before
      hand-off, abandoned by a cancelled listener or lost to a panic. So at most 200
      connections are in flight, and each rebind abandons at most two permits. */
  lemma PermitsConserved(acts: seq<Action>)
    ensures var s := Exec(Init(), acts);
            Total(s) == PERMITS && s.inFlight <= PERMITS && s.abandoned <= 2 * s.rebinds
  {
    RunsKeepInv(Init(), acts);
  }

  // ---- The bound is reached -----------------------------------------------------------------

  /** Both listeners take a permit and wait, `first` before the other; then the
      addresses change. */
  function WastefulRebind(first: Side): seq<Action> {
    Waits(first) + (Waits(if first.Http? then Https else Http) +
      ([Poll(true), Drop(Http), HttpJoined] + [Drop(Https), HttpsJoined, StartListeners]))
  }

  function Waits(side: Side): seq<Action> {
    [Bind(side, true), Check(side), Acquire(side)]
  }

  function WastefulRun(r: nat, first: Side): seq<Action> {
    if r == 0 then [Poll(false), StartListeners] else WastefulRun(r - 1, first) + WastefulRebind(first)
  }

  function AfterRebinds(r: nat): State
    requires 2 * r <= PERMITS
  {
    State(PERMITS - 2 * r, 0, 2 * r, 0, r, Polling, true, false, Listener(Binding, false), Listener(Binding, false))
  }

  lemma SideWaits(s: State, side: Side)
    requires Of(s, side) == Listener(Binding, false) && s.available > 0 && !s.exit
    ensures Exec(s, Waits(side)) == At(s, side, Holding).(available := s.available - 1)
  {
    RunThree(Next, s, Bind(side, true), Check(side), Acquire(side));
  }

  lemma AddressesChange(s: State)
    requires s.phase.Polling? && s.started && s.http.stage.Holding? && s.https.stage.Holding?
    ensures Exec(s, [Poll(true), Drop(Http), HttpJoined]) ==
      s.(phase := StoppingHttps, rebinds := s.rebinds + 1, abandoned := s.abandoned + 1,
         http := Listener(Finished, true), https := Listener(Holding, true))
  {
    RunThree(Next, s, Poll(true), Drop(Http), HttpJoined);
  }

  lemma ListenersReplaced(s: State)
    requires s.phase.StoppingHttps? && s.started && s.https == Listener(Holding, true)
    ensures Exec(s, [Drop(Https), HttpsJoined, StartListeners]) ==
      s.(phase := Polling, abandoned := s.abandoned + 1, http := Listener(Binding, false), https := Listener(Binding, false))
  {
    RunThree(Next, s, Drop(Https), HttpsJoined, StartListeners);
  }

  lemma WastefulRebindEffect(r: nat, first: Side)
    requires 2 * r + 2 <= PERMITS
    ensures Exec(AfterRebinds(r), WastefulRebind(first)) == AfterRebinds(r + 1)
  {
    var s := AfterRebinds(r);
    var second := if first.Http? then Https else Http;
    var c, d := [Poll(true), Drop(Http), HttpJoined], [Drop(Https), HttpsJoined, StartListeners];
    RunConcat(Next, s, Waits(first), Waits(second) + (c + d));
    SideWaits(s, first);
    var s1 := Exec(s, Waits(first));
    RunConcat(Next, s1, Waits(second), c + d);
    SideWaits(s1, second);
    var s2 := Exec(s1, Waits(second));
    RunConcat(Next, s2, c, d);
    AddressesChange(s2);
    ListenersReplaced(Exec(s2, c));
  }

  lemma FirstListeners()
    ensures Exec(Init(), [Poll(false), StartListeners]) == AfterRebinds(0)
  {
    var acts := [Poll(false), StartListeners];
    assert acts[1..] == [StartListeners] && acts[1..][1..] == [];
    var s1 := Next(Init(), Poll(false));
    assert Exec(Next(s1, StartListeners), []) == Next(s1, StartListeners);
    assert Exec(s1, acts[1..]) == Next(s1, StartListeners);
  }

  /** For every number of rebinds up to 100 the bound is met exactly. */
  lemma {:induction false} BoundIsTight(r: nat, first: Side)
    requires 2 * r <= PERMITS
    ensures Exec(Init(), WastefulRun(r, first)) == AfterRebinds(r)
  {
    if r == 0 {
      FirstListeners();
    } else {
      BoundIsTight(r - 1, first);
      RunConcat(Next, Init(), WastefulRun(r - 1, first), WastefulRebind(first));
      WastefulRebindEffect(r - 1, first);
    }
  }

  /** No permit is left anywhere it could come back from. */
  predicate Starved(s: State) {
    s.available == 0 && s.inFlight == 0 && Held(s.http) == 0 && Held(s.https) == 0
  }

  /** A starved proxy never serves a connection again, rebinds or not. */
  lemma {:induction false} StarvedForever(s: State, acts: seq<Action>)
    requires Starved(s)
    ensures Starved(Exec(s, acts))
    decreases |acts|
  {
    if acts != [] {
      StarvedForever(Next(s, acts[0]), acts[1..]);
    }
  }

  /** A state is starved exactly when all 200 permits are lost. */
  lemma StarvedExactly(acts: seq<Action>)
    ensures var s := Exec(Init(), acts); Starved(s) <==> s.abandoned + s.panicked == PERMITS
  {
    RunsKeepInv(Init(), acts);
  }

  /** Starvation takes at least 100 rebinds while handlers return, and 100 can be enough. */
  lemma HundredRebindsStarve(acts: seq<Action>, first: Side)
    ensures var s := Exec(Init(), acts); Starved(s) && s.panicked == 0 ==> s.rebinds >= 100
    ensures Exec(Init(), WastefulRun(100, first)).rebinds == 100 && Starved(Exec(Init(), WastefulRun(100, first)))
  {
    RunsKeepInv(Init(), acts);
    BoundIsTight(100, first);
  }

  // ---- Cancelled listeners ----------------------------------------------------------------

  /** How many more connections a cancelled listener can hand off. */
  function HandOffsLeft(l: Listener): nat {
    if l.stage.Acquiring? || l.stage.Holding? || l.stage.Accepted? then 1 else 0
  }

  /** The step hands a connection of the side to a handler. */
  predicate HandsOff(s: State, a: Action, side: Side) {
    a == HandOff(side) && Of(s, side).stage.Accepted?
  }

  function HandOffs(s: State, acts: seq<Action>, side: Side): nat
    decreases |acts|
  {
    if acts == [] then 0 else (if HandsOff(s, acts[0], side) then 1 else 0) + HandOffs(Next(s, acts[0]), acts[1..], side)
  }

  lemma CancelledStep(s: State, a: Action, side: Side)
    requires Of(s, side).cancelled && !a.StartListeners?
    ensures var t := Next(s, a);
            && Of(t, side).cancelled
            && (if HandsOff(s, a, side) then 1 else 0) + HandOffsLeft(Of(t, side)) <= HandOffsLeft(Of(s, side))
            && (HandsOff(s, a, side) ==> t.inFlight == s.inFlight + 1)
  {
  }

  /** A listener is cancelled only because an address has changed: the plain one at the
      poll that finds it, the other one when the plain one has finished. */
  lemma CancelledOnlyByChange(s: State, a: Action, side: Side)
    requires !Of(s, side).cancelled && Of(Next(s, a), side).cancelled
    ensures side.Http? ==> a == Poll(true) && s.started && Next(s, a).rebinds == s.rebinds + 1
    ensures side.Https? ==> a == HttpJoined && s.phase.StoppingHttp? && s.http.stage.Finished?
  {
  }

  /** Until it is replaced, a cancelled listener hands off at most the one connection it
      was already waiting for. */
  lemma {:induction false} CancelledListenerEnds(s: State, acts: seq<Action>, side: Side)
    requires Of(s, side).cancelled && forall a :: a in acts ==> !a.StartListeners?
    ensures HandOffs(s, acts, side) <= HandOffsLeft(Of(s, side)) <= 1
    decreases |acts|
  {
    if acts != [] {
      CancelledStep(s, acts[0], side);
      CancelledListenerEnds(Next(s, acts[0]), acts[1..], side);
    }
  }

  lemma ExitingStep(s: State, a: Action, side: Side)
    requires s.exit
    ensures var t := Next(s, a);
            t.exit && (if HandsOff(s, a, side) then 1 else 0) + HandOffsLeft(Of(t, side)) <= HandOffsLeft(Of(s, side))
  {
  }

  lemma {:induction false} ExitingListenersEnd(s: State, acts: seq<Action>, side: Side)
    requires s.exit
    ensures HandOffs(s, acts, side) <= HandOffsLeft(Of(s, side))
    decreases |acts|
  {
    if acts != [] {
      ExitingStep(s, acts[0], side);
      ExitingListenersEnd(Next(s, acts[0]), acts[1..], side);
    }
  }

  /** After the exit request each side hands off at most one more connection, even when
      its listener is replaced. */
  lemma ExitEndsListeners(s: State, acts: seq<Action>, side: Side)
    ensures HandOffs(Next(s, Exit), acts, side) <= 1
  {
    ExitingListenersEnd(Next(s, Exit), acts, side);
  }

  /** How many handlers panic in a run. */
  function Panics(s: State, acts: seq<Action>): nat
    decreases |acts|
  {
    if acts == [] then 0
    else (if acts[0].HandlerPanics? && s.inFlight > 0 then 1 else 0) + Panics(Next(s, acts[0]), acts[1..])
  }

  /** Only a panic keeps a handler's permit. */
  lemma {:induction false} PanicsAreCounted(s: State, acts: seq<Action>)
    ensures Exec(s, acts).panicked == s.panicked + Panics(s, acts)
    decreases |acts|
  {
    if acts != [] {
      PanicStep(s, acts[0]);
      PanicsAreCounted(Next(s, acts[0]), acts[1..]);
    }
  }

  lemma PanicStep(s: State, a: Action)
    ensures Next(s, a).panicked == s.panicked + (if a.HandlerPanics? && s.inFlight > 0 then 1 else 0)
  {
  }

  /** A listener that checks its flags finishes exactly when it is cancelled or the
      program exits, and one that binds exactly when that fails. */
  lemma ListenerFinishesExactly(s: State, side: Side, ok: bool)
    ensures Of(s, side).stage.Checking? ==>
              (Of(Next(s, Check(side)), side).stage.Finished? <==> Of(s, side).cancelled || s.exit)
    ensures Of(s, side).stage.Binding? ==> (Of(Next(s, Bind(side, ok)), side).stage.Finished? <==> !ok)
    ensures Next(s, Check(side)).available == s.available == Next(s, Bind(side, ok)).available
  {
  }

  /** A free permit lets a waiting listener accept and hand off one connection. */
  lemma FreePermitServes(s: State, side: Side)
    requires Of(s, side).stage.Acquiring? && s.available > 0
    ensures var t := Exec(s, [Acquire(side), Accept(side, true), HandOff(side)]);
            t == At(s, side, Checking).(available := s.available - 1, inFlight := s.inFlight + 1)
  {
    RunThree(Next, s, Acquire(side), Accept(side, true), HandOff(side));
  }

  /** A failed accept costs no permit. */
  lemma FailedAcceptIsFree(s: State, side: Side)
    requires Of(s, side).stage.Acquiring? && s.available > 0
    ensures Exec(s, [Acquire(side), Accept(side, false)]) == At(s, side, Checking)
  {
    RunTwo(Next, s, Acquire(side), Accept(side, false));
  }

  // ---- The addresses --------------------------------------------------------------------------

  datatype Address = Address(ip: string, port: Port)

  datatype Addresses = Addresses(http: Address, https: Address)

  /** The three settings the loop reads. */
  datatype Settings = Settings(ip: Option<string>, httpPort: Option<Port>, tlsPort: Option<Port>)

  function OrPort(p: Option<Port>, last: Port): Port {
    if p.Some? then p.value else last
  }

  /** An absent ip means the initial one; an absent port means the last one used. */
  function Effective(initialIp: string, last: Addresses, c: Settings): Addresses {
    var ip := if c.ip.Some? then c.ip.value else initialIp;
    Addresses(Address(ip, OrPort(c.httpPort, last.http.port)), Address(ip, OrPort(c.tlsPort, last.https.port)))
  }

  /** Polling unchanged settings settles after one round: no rebind repeats. */
  lemma PollSettles(initialIp: string, last: Addresses, c: Settings)
    ensures Effective(initialIp, Effective(initialIp, last, c), c) == Effective(initialIp, last, c)
  {
  }

  class ListenLoop {
    const initialIp: string
    var last: Addresses
    var running: bool

    constructor (http: Address, https: Address)
      ensures initialIp == http.ip && last == Addresses(http, https) && !running
    {
      initialIp, last, running := http.ip, Addresses(http, https), false;
    }

    /** One round: the listeners are replaced on the first round and when either
        address changes, and afterwards they listen on the configured addresses. */
    method Poll(c: Settings) returns (rebind: bool)
      modifies this
      ensures running && last == Effective(initialIp, old(last), c)
      ensures rebind <==> !old(running) || last != old(last)
      ensures last.http.port == if c.httpPort.Some? then c.httpPort.value else old(last).http.port
      ensures last.https.port == if c.tlsPort.Some? then c.tlsPort.value else old(last).https.port
      ensures last.http.ip == last.https.ip == if c.ip.Some? then c.ip.value else initialIp
      ensures Effective(initialIp, last, c) == last  // so the next round with these settings rebinds nothing
    {
      var current := Effective(initialIp, last, c);
      PollSettles(initialIp, last, c);
      rebind := !running || last.http != current.http || last.https != current.https;
      if rebind {
        last := current;
        running := true;
      }
    }
  }
}
