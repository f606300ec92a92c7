/** Connection tracking: tasks add, mutate and delete records of a shared table and
    broadcast events; an observer builds a second table from those events and from
    direct inserts. Every shared access is one step of a machine, and the calls of
    the program are sequences of such steps. */
module Tracking {
  import opened Runs
  import opened Wrappers

  type Key = nat

  /** A tracked connection; `details` stands for the fields this protocol only copies. */
  datatype Conn = Conn(
    key: Key,
    version: nat,
    isGrpc: Option<bool>,
    isWebsocket: Option<bool>,
    resolvedType: Option<string>,
    details: string)

  datatype Event =
    | Open(conn: Conn)
    | Update(conn: Conn)
    | Close(key: Key)
    | Traffic(key: Key, outgoing: bool, showsGrpc: bool, showsWebsocket: bool)  // decoded bytes of a connection
    | Exchange(key: Key)                                        // back-end request or response

  /** What the observer's own decoding may change in its copy. */
  predicate SameRecord(a: Conn, b: Conn) {
    a.(isGrpc := b.isGrpc, isWebsocket := b.isWebsocket) == b
  }

  datatype Observer =
    | Idle
    | Received(event: Event)               // taken from the channel
    | Decided(event: Event, on: bool)      // the inspection flag has been read

  /** How far a call on a key has come. */
  datatype Call =
    | Inserted(conn: Conn)    // add: in the active table
    | SawFlag(conn: Conn)     // add: inspection was on
    | Announcing(conn: Conn)  // add: only the broadcast is left
    | Locked(conn: Conn)      // mutate: entry changed and still locked
    | Removed                 // delete: entry gone, close not yet sent

  datatype State = State(
    active: map<Key, Conn>,
    monitored: map<Key, Conn>,
    inspecting: bool,
    channel: seq<Event>,
    observer: Observer,
    calls: map<Key, Call>,
    sent: seq<Event>,       // everything ever broadcast
    used: set<Key>,         // keys ever added
    stale: set<Key>,        // keys whose latest update or close the channel has dropped
    misused: bool,          // a key has been added twice, or rewritten by a mutator
    everOff: bool)          // inspection has been off at some point

  datatype Action =
    | BeginAdd(conn: Conn)
    | ReadFlag(key: Key)
    | InsertMonitored(key: Key)
    | SendOpen(key: Key)
    | BeginMutate(key: Key, mutated: Conn)  // `mutated` is what the mutator leaves behind
    | SendUpdate(key: Key)
    | BeginDelete(key: Key)
    | SendClose(key: Key)
    | SendOther(event: Event)
    | SetInspecting(on: bool)
    | Receive
    | Decide
    | Process
    | Lag(n: nat)

  /** Traffic to the client settles an open grpc question; traffic from the client
      always does, and may show a websocket. */
  function Decode(c: Conn, outgoing: bool, grpc: bool, websocket: bool): Conn {
    if outgoing then
      if grpc && c.isGrpc.None? then c.(isGrpc := Some(true)) else c
    else
      c.(isGrpc := if grpc then Some(true) else c.isGrpc,
         isWebsocket := if websocket then Some(true) else c.isWebsocket)
  }

  /** Decoding sets at most the two flags, only to true, and only when the traffic shows
      it: grpc from either direction, but towards the client only an open question is
      settled; a websocket only from the client. */
  lemma DecodeMeaning(c: Conn, outgoing: bool, grpc: bool, websocket: bool)
    ensures var d := Decode(c, outgoing, grpc, websocket);
            && SameRecord(c, d)
            && (d.isGrpc == Some(true) || d.isGrpc == c.isGrpc) && (d.isWebsocket == Some(true) || d.isWebsocket == c.isWebsocket)
            && (d.isGrpc != c.isGrpc ==> grpc) && (d.isWebsocket != c.isWebsocket ==> websocket && !outgoing)
            && (grpc && (!outgoing || c.isGrpc.None?) ==> d.isGrpc == Some(true))
            && (outgoing && c.isGrpc.Some? ==> d.isGrpc == c.isGrpc)
            && (websocket && !outgoing ==> d.isWebsocket == Some(true))
  {
  }

  // ---- The observer's reaction ------------------------------------------------------

  function Observe(monitored: map<Key, Conn>, e: Event): map<Key, Conn> {
    match e
    case Open(_) => monitored
    case Exchange(_) => monitored
    case Update(c) => monitored[c.key := c]
    case Close(k) => monitored - {k}
    case Traffic(k, outgoing, grpc, websocket) =>
      if k in monitored then monitored[k := Decode(monitored[k], outgoing, grpc, websocket)] else monitored
  }

  // ---- Steps ---------------------------------------------------------------------------

  /** The keys for which the event decides what the observer holds. */
  function SpokenBy(e: Event): set<Key> {
    match e
    case Update(c) => {c.key}
    case Close(k) => {k}
    case _ => {}
  }

  function Spoken(events: seq<Event>): set<Key> {
    if events == [] then {} else SpokenBy(events[0]) + Spoken(events[1..])
  }

  function Broadcast(s: State, e: Event): State {
    s.(channel := s.channel + [e], sent := s.sent + [e], stale := s.stale - SpokenBy(e))
  }

  function Finish(s: State, k: Key): State {
    s.(calls := s.calls - {k})
  }

  /** A blocked or pointless action leaves the state as it is. A mutation or deletion
      of a key waits for the call in progress on it. */
  function Next(s: State, a: Action): State {
    match a
    case BeginAdd(c) =>
      if c.key in s.calls then s else
      s.(active := s.active[c.key := c], calls := s.calls[c.key := Inserted(c)],
         used := s.used + {c.key}, misused := s.misused || c.key in s.used)
    case ReadFlag(k) =>
      if k in s.calls && s.calls[k].Inserted?
      then s.(calls := s.calls[k := if s.inspecting then SawFlag(s.calls[k].conn) else Announcing(s.calls[k].conn)])
      else s
    case InsertMonitored(k) =>
      if k in s.calls && s.calls[k].SawFlag?
      then s.(monitored := s.monitored[k := s.calls[k].conn], calls := s.calls[k := Announcing(s.calls[k].conn)])
      else s
    case SendOpen(k) =>
      if k in s.calls && s.calls[k].Announcing? then Finish(Broadcast(s, Open(s.calls[k].conn)), k) else s
    case BeginMutate(k, m) =>
      if k in s.calls || k !in s.active then s else
      var c := m.(version := s.active[k].version + 1);
      s.(active := s.active[k := c], calls := s.calls[k := Locked(c)], misused := s.misused || m.key != k)
    case SendUpdate(k) =>
      if k in s.calls && s.calls[k].Locked? then Finish(Broadcast(s, Update(s.calls[k].conn)), k) else s
    case BeginDelete(k) =>
      if k in s.calls || k !in s.active then s else
      s.(active := s.active - {k}, calls := s.calls[k := Removed])
    case SendClose(k) =>
      if k in s.calls && s.calls[k].Removed? then Finish(Broadcast(s, Close(k)), k) else s
    case SendOther(e) =>
      if e.Traffic? || e.Exchange? then Broadcast(s, e) else s
    case SetInspecting(on) =>
      s.(inspecting := on, everOff := s.everOff || !on)
    case Receive =>
      if s.observer.Idle? && s.channel != [] then s.(observer := Received(s.channel[0]), channel := s.channel[1..]) else s
    case Decide =>
      if s.observer.Received? then s.(observer := Decided(s.observer.event, s.inspecting)) else s
    case Process =>
      if s.observer.Decided?
      then s.(observer := Idle, monitored := if s.observer.on then Observe(s.monitored, s.observer.event) else map[])
      else s
    case Lag(n) =>
      if n <= |s.channel| then s.(channel := s.channel[n..], stale := s.stale + Missed(s.channel, n)) else s
  }

  /** The keys the first `n` events speak of and no later one does. */
  function Missed(channel: seq<Event>, n: nat): set<Key>
    requires n <= |channel|
  {
    Spoken(channel[..n]) - Spoken(channel[n..])
  }

  function Exec(s: State, acts: seq<Action>): State {
    Run(Next, s, acts)
  }

  function Start(inspecting: bool): State {
    State(map[], map[], inspecting, [], Idle, map[], [], {}, {}, false, !inspecting)
  }

  // ---- Reading the event stream -----------------------------------------------------------

  function FoldStep(table: map<Key, Conn>, e: Event): map<Key, Conn> {
    match e
    case Open(c) => table[c.key := c]
    case Update(c) => table[c.key := c]
    case Close(k) => table - {k}
    case Traffic(_, _, _, _) => table
    case Exchange(_) => table
  }

  function Fold(events: seq<Event>): map<Key, Conn> {
    if events == [] then map[] else FoldStep(Fold(events[..|events| - 1]), events[|events| - 1])
  }

  predicate LawfulStep(table: map<Key, Conn>, e: Event) {
    match e
    case Open(c) => c.key !in table
    case Update(c) => c.key in table && c.version == table[c.key].version + 1
    case Close(k) => k in table
    case Traffic(_, _, _, _) => true
    case Exchange(_) => true
  }

  /** Opens introduce absent keys, updates raise the version of a present key by
      exactly one, closes remove a present key. */
  predicate Lawful(events: seq<Event>) {
    events == [] ||
    (Lawful(events[..|events| - 1]) && LawfulStep(Fold(events[..|events| - 1]), events[|events| - 1]))
  }

  predicate Speaks(e: Event, k: Key) {
    k in SpokenBy(e)
  }

  function LastWord(events: seq<Event>, k: Key): Option<Event> {
    if events == [] then None
    else if Speaks(events[|events| - 1], k) then Some(events[|events| - 1])
    else LastWord(events[..|events| - 1], k)
  }

  lemma {:induction false} LastWordSpeaks(events: seq<Event>, k: Key)
    ensures var e := LastWord(events, k); e.Some? ==> Speaks(e.value, k) && (e.value.Update? || e.value.Close?)
  {
    if events != [] { LastWordSpeaks(events[..|events| - 1], k); }
  }

  lemma LastWordSnoc(events: seq<Event>, e: Event, k: Key)
    ensures LastWord(events + [e], k) == if Speaks(e, k) then Some(e) else LastWord(events, k)
  {
    assert (events + [e])[..|events|] == events;
  }

  lemma {:induction false} LastWordCons(e: Event, events: seq<Event>, k: Key)
    ensures LastWord([e] + events, k) ==
      if LastWord(events, k).Some? then LastWord(events, k)
      else if Speaks(e, k) then Some(e) else None
  {
    var all := [e] + events;
    if events == [] {
      assert all == [e] && all[..0] == [];
    } else {
      LastWordCons(e, events[..|events| - 1], k);
      assert all[..|all| - 1] == [e] + events[..|events| - 1];
    }
  }

  function Pending(s: State): seq<Event> {
    match s.observer
    case Idle => s.channel
    case Received(e) => [e] + s.channel
    case Decided(e, _) => [e] + s.channel
  }

  // ---- The invariant -------------------------------------------------------------------------

  /** A call in progress, the active table and the stream so far, for one key. */
  ghost predicate CallOk(s: State, k: Key) {
    var log := Fold(s.sent);
    if k in s.calls then
      match s.calls[k]
      case Locked(c) =>
        && k in s.active && s.active[k] == c && c.key == k
        && k in log && c.version == log[k].version + 1
      case Removed => k !in s.active && k in log
      case add => k in s.active && s.active[k] == add.conn && add.conn.key == k && k !in log
    else (k in s.active <==> k in log) && (k in log ==> s.active[k] == log[k] && log[k].key == k)
  }

  predicate AddInProgress(s: State, k: Key) {
    k in s.calls && (s.calls[k].Inserted? || s.calls[k].SawFlag? || s.calls[k].Announcing?)
  }

  /** What the observer holds, or will hold, for one key matches the active table. */
  ghost predicate ViewOk(s: State, k: Key) {
    var settled := k !in s.calls || AddInProgress(s, k);
    match LastWord(Pending(s), k)
    case None =>
      settled && k in s.monitored ==> k in s.active && SameRecord(s.monitored[k], s.active[k])
    case Some(e) =>
      && !AddInProgress(s, k)
      && (e.Update? && settled ==> k in s.active && SameRecord(e.conn, s.active[k]))
      && (e.Close? ==> k !in s.active && k !in s.calls)
  }

  /** While inspection has never been off, active connections are monitored. */
  ghost predicate CoverOk(s: State, k: Key) {
    k in s.active && (k in s.calls ==> s.calls[k].Announcing? || s.calls[k].Locked?) ==>
      k in s.monitored || LastWord(Pending(s), k).Some?
  }

  /** Everything the invariant says about one key. */
  ghost predicate KeyOk(s: State, k: Key) {
    && CallOk(s, k)
    && (k !in s.stale ==> ViewOk(s, k) && (!s.everOff ==> CoverOk(s, k)))
    && (k in s.active || k in s.calls || k in s.monitored || LastWord(Pending(s), k).Some? ==> k in s.used)
    && (k in s.stale ==> k in s.used && !AddInProgress(s, k))
  }

  ghost predicate Inv(s: State) {
    && Lawful(s.sent)
    && (forall k :: KeyOk(s, k))
    && (!s.everOff ==> s.inspecting && (s.observer.Decided? ==> s.observer.on))
  }

  // ---- Every step keeps the invariant ----------------------------------------------------------

  function At<T>(m: map<Key, T>, k: Key): Option<T> {
    if k in m then Some(m[k]) else None
  }

  /** Nothing the invariant says about `k` depends on the difference of two states. */
  ghost predicate SameAt(s: State, t: State, k: Key) {
    && At(s.active, k) == At(t.active, k) && At(s.monitored, k) == At(t.monitored, k) && At(s.calls, k) == At(t.calls, k)
    && At(Fold(s.sent), k) == At(Fold(t.sent), k) && LastWord(Pending(s), k) == LastWord(Pending(t), k)
    && (k in s.used ==> k in t.used) && (k in s.stale <==> k in t.stale) && (s.everOff ==> t.everOff)
  }

  lemma SameKeepsKey(s: State, t: State, k: Key)
    requires KeyOk(s, k) && SameAt(s, t, k)
    ensures KeyOk(t, k)
  {
  }

  lemma FoldSnoc(events: seq<Event>, e: Event)
    ensures Fold(events + [e]) == FoldStep(Fold(events), e)
    ensures Lawful(events + [e]) <==> Lawful(events) && LawfulStep(Fold(events), e)
  {
    assert (events + [e])[..|events|] == events;
  }

  lemma PendingBroadcast(s: State, e: Event, k: Key)
    ensures LastWord(Pending(Broadcast(s, e)), k) ==
      if Speaks(e, k) then Some(e) else LastWord(Pending(s), k)
  {
    LastWordSnoc(Pending(s), e, k);
    assert Pending(Broadcast(s, e)) == Pending(s) + [e];
  }

  lemma BeginAddKeepsInv(s: State, c: Conn)
    requires Inv(s) && c.key !in s.calls && c.key !in s.used
    ensures Inv(Next(s, BeginAdd(c)))
  {
    var s' := Next(s, BeginAdd(c));
    assert KeyOk(s, c.key);
    forall j ensures KeyOk(s', j) {
      if j != c.key { SameKeepsKey(s, s', j); }
    }
  }

  lemma AddProgressKeepsInv(s: State, k: Key, direct: bool)
    requires Inv(s)
    ensures Inv(Next(s, if direct then InsertMonitored(k) else ReadFlag(k)))
  {
    var s' := Next(s, if direct then InsertMonitored(k) else ReadFlag(k));
    assert KeyOk(s, k);
    forall j ensures KeyOk(s', j) {
      if j != k { SameKeepsKey(s, s', j); }
    }
  }

  lemma BeginMutateKeepsInv(s: State, k: Key, m: Conn)
    requires Inv(s) && !Next(s, BeginMutate(k, m)).misused
    ensures Inv(Next(s, BeginMutate(k, m)))
  {
    var s' := Next(s, BeginMutate(k, m));
    assert KeyOk(s, k);
    forall j ensures KeyOk(s', j) {
      if j != k { SameKeepsKey(s, s', j); }
    }
  }

  lemma BeginDeleteKeepsInv(s: State, k: Key)
    requires Inv(s)
    ensures Inv(Next(s, BeginDelete(k)))
  {
    var s' := Next(s, BeginDelete(k));
    assert KeyOk(s, k);
    forall j ensures KeyOk(s', j) {
      if j != k { SameKeepsKey(s, s', j); }
    }
  }

  /** The broadcast that completes a call. */
  predicate Owes(c: Call, k: Key, e: Event) {
    (c.Announcing? && e == Open(c.conn)) || (c.Locked? && e == Update(c.conn)) || (c.Removed? && e == Close(k))
  }

  /** Sending the event of a call ends the call. */
  lemma SendKeepsInv(s: State, k: Key, e: Event)
    requires Inv(s) && k in s.calls
    requires Owes(s.calls[k], k, e)
    ensures Inv(Finish(Broadcast(s, e), k))
  {
    var s' := Finish(Broadcast(s, e), k);
    FoldSnoc(s.sent, e);
    assert KeyOk(s, k);
    assert Pending(s') == Pending(Broadcast(s, e));
    forall j ensures KeyOk(s', j) {
      PendingBroadcast(s, e, j);
      assert KeyOk(s, j);
      if j != k { SameKeepsKey(s, s', j); }
    }
  }

  lemma SendOtherKeepsInv(s: State, e: Event)
    requires Inv(s) && (e.Traffic? || e.Exchange?)
    ensures Inv(Broadcast(s, e))
  {
    var s' := Broadcast(s, e);
    FoldSnoc(s.sent, e);
    forall j ensures KeyOk(s', j) {
      PendingBroadcast(s, e, j);
      SameKeepsKey(s, s', j);
    }
  }

  lemma ReceiveKeepsPending(s: State)
    ensures Pending(Next(s, Receive)) == Pending(s)
  {
    if s.observer.Idle? && s.channel != [] {
      assert [s.channel[0]] + s.channel[1..] == s.channel;
    }
  }

  lemma ReceiveKeepsInv(s: State)
    requires Inv(s)
    ensures Inv(Next(s, Receive))
  {
    ReceiveKeepsPending(s);
    forall j ensures KeyOk(Next(s, Receive), j) {
      SameKeepsKey(s, Next(s, Receive), j);
    }
  }

  lemma FlagKeepsInv(s: State, a: Action)
    requires Inv(s) && (a.SetInspecting? || a.Decide?)
    ensures Inv(Next(s, a))
  {
    assert Pending(Next(s, a)) == Pending(s);
    forall j ensures KeyOk(Next(s, a), j) {
      SameKeepsKey(s, Next(s, a), j);
    }
  }

  lemma ProcessKeepsInv(s: State)
    requires Inv(s) && s.observer.Decided?
    ensures Inv(Next(s, Process))
  {
    var s' := Next(s, Process);
    forall k ensures KeyOk(s', k) {
      LastWordCons(s.observer.event, s.channel, k);
      assert KeyOk(s, k);
    }
  }

  /** Dropping old events changes no last word except those of the keys missed. */
  lemma {:induction false} DropKeepsLastWord(events: seq<Event>, n: nat, k: Key)
    requires n <= |events|
    ensures LastWord(events[n..], k) == LastWord(events, k) || (LastWord(events[n..], k).None? && k in Spoken(events[..n]))
    ensures LastWord(events, k).Some? <==> k in Spoken(events)
    ensures k in Spoken(events[..n]) ==> k in Spoken(events)
    decreases |events|
  {
    if events != [] {
      var rest := events[1..];
      LastWordCons(events[0], rest, k);
      assert events == [events[0]] + rest;
      DropKeepsLastWord(rest, if n > 0 then n - 1 else 0, k);
      if n > 0 {
        assert events[n..] == rest[n - 1..];
        assert events[..n][1..] == rest[..n - 1];
      }
    }
  }

  lemma PendingLastWord(s: State, k: Key)
    ensures LastWord(Pending(s), k) ==
      if LastWord(s.channel, k).Some? || s.observer.Idle? then LastWord(s.channel, k)
      else if Speaks(s.observer.event, k) then Some(s.observer.event) else None
  {
    if !s.observer.Idle? { LastWordCons(s.observer.event, s.channel, k); }
  }

  lemma LagPending(s: State, n: nat, k: Key)
    requires n <= |s.channel|
    ensures var p, p' := LastWord(Pending(s), k), LastWord(Pending(Next(s, Lag(n))), k);
            p' == p || (p.Some? && k in Missed(s.channel, n))
  {
    PendingLastWord(s, k);
    PendingLastWord(Next(s, Lag(n)), k);
    DropKeepsLastWord(s.channel, n, k);
    DropKeepsLastWord(s.channel[n..], 0, k);
  }

  lemma LagKeepsInv(s: State, n: nat)
    requires Inv(s) && n <= |s.channel|
    ensures Inv(Next(s, Lag(n)))
  {
    var s' := Next(s, Lag(n));
    forall k ensures KeyOk(s', k) {
      LagPending(s, n, k);
      PendingLastWord(s, k);
      DropKeepsLastWord(s.channel, n, k);
      assert KeyOk(s, k);
    }
  }

  /** A step of an add, a mutation or a deletion. */
  predicate OfCall(a: Action) {
    a.BeginAdd? || a.ReadFlag? || a.InsertMonitored? || a.SendOpen? ||
    a.BeginMutate? || a.SendUpdate? || a.BeginDelete? || a.SendClose?
  }

  predicate IsSend(a: Action) {
    a.SendOpen? || a.SendUpdate? || a.SendClose?
  }

  /** A call with one broadcast left to make ends with it. */
  lemma SendIsOwed(s: State, a: Action)
    requires IsSend(a)
    ensures Next(s, a) == s ||
            (a.key in s.calls && exists e :: Owes(s.calls[a.key], a.key, e) && Next(s, a) == Finish(Broadcast(s, e), a.key))
  {
    if a.key in s.calls {
      var c := s.calls[a.key];
      if c.Announcing? { assert Owes(c, a.key, Open(c.conn)); }
      if c.Locked? { assert Owes(c, a.key, Update(c.conn)); }
      if c.Removed? { assert Owes(c, a.key, Close(a.key)); }
    }
  }

  lemma SendStepKeepsInv(s: State, a: Action)
    requires Inv(s) && IsSend(a)
    ensures Inv(Next(s, a))
  {
    SendIsOwed(s, a);
    if Next(s, a) != s {
      var e :| Owes(s.calls[a.key], a.key, e) && Next(s, a) == Finish(Broadcast(s, e), a.key);
      SendKeepsInv(s, a.key, e);
    }
  }

  lemma CallStepKeepsInv(s: State, a: Action)
    requires Inv(s) && OfCall(a) && !IsSend(a) && !Next(s, a).misused
    ensures Inv(Next(s, a))
  {
    match a
    case BeginAdd(c) => if c.key !in s.calls { BeginAddKeepsInv(s, c); }
    case ReadFlag(k) => AddProgressKeepsInv(s, k, false);
    case InsertMonitored(k) => AddProgressKeepsInv(s, k, true);
    case BeginMutate(k, m) => BeginMutateKeepsInv(s, k, m);
    case BeginDelete(k) => BeginDeleteKeepsInv(s, k);
  }

  lemma ObserverStepKeepsInv(s: State, a: Action)
    requires Inv(s) && !OfCall(a)
    ensures Inv(Next(s, a))
  {
    match a
    case SendOther(e) => if e.Traffic? || e.Exchange? { SendOtherKeepsInv(s, e); }
    case Process => if s.observer.Decided? { ProcessKeepsInv(s); }
    case Receive => ReceiveKeepsInv(s);
    case Lag(n) => if n <= |s.channel| { LagKeepsInv(s, n); }
    case SetInspecting(_) => FlagKeepsInv(s, a);
    case Decide => FlagKeepsInv(s, a);
  }

  lemma StepKeepsInv(s: State, a: Action)
    requires Inv(s) && !Next(s, a).misused
    ensures Inv(Next(s, a))
  {
    if IsSend(a) {
      SendStepKeepsInv(s, a);
    } else if OfCall(a) {
      CallStepKeepsInv(s, a);
    } else {
      ObserverStepKeepsInv(s, a);
    }
  }

  lemma MisuseStaysStep(s: State, a: Action)
    ensures s.misused ==> Next(s, a).misused
  {
  }

  lemma {:induction false} MisuseStays(s: State, acts: seq<Action>)
    ensures s.misused ==> Exec(s, acts).misused
    decreases |acts|
  {
    if acts != [] {
      MisuseStaysStep(s, acts[0]);
      MisuseStays(Next(s, acts[0]), acts[1..]);
    }
  }

  lemma {:induction false} RunsKeepInv(s: State, acts: seq<Action>)
    requires Inv(s) && !Exec(s, acts).misused
    ensures Inv(Exec(s, acts))
    decreases |acts|
  {
    if acts != [] {
      MisuseStays(Next(s, acts[0]), acts[1..]);
      StepKeepsInv(s, acts[0]);
      RunsKeepInv(Next(s, acts[0]), acts[1..]);
    }
  }

  // ---- Versions on their way to the observer ---------------------------------------------------

  /** The updates of `k` among the events carry rising versions above `low` and at
      most `high`. */
  predicate Climbs(events: seq<Event>, k: Key, low: int, high: int)
    decreases |events|
  {
    if events == [] then low <= high
    else if Updates(events[0], k) then low < events[0].conn.version && Climbs(events[1..], k, events[0].conn.version, high)
    else Climbs(events[1..], k, low, high)
  }

  predicate Updates(e: Event, k: Key) {
    e.Update? && e.conn.key == k
  }

  /** The version the observer holds. */
  function Floor(s: State, k: Key): int {
    if k in s.monitored then s.monitored[k].version else -1
  }

  /** What the observer holds and what it has yet to see of `k` is no newer than the
      last event sent, and older when that event has been dropped. */
  ghost predicate OrderOk(s: State, k: Key) {
    var log := Fold(s.sent);
    k in log ==> Climbs(Pending(s), k, Floor(s, k), log[k].version - (if k in s.stale then 1 else 0))
  }

  lemma {:induction false} ClimbsWeaker(events: seq<Event>, k: Key, low: int, low': int, high: int)
    requires Climbs(events, k, low, high) && low' <= low
    ensures Climbs(events, k, low', high) && low <= high
    decreases |events|
  {
    if events != [] {
      ClimbsWeaker(events[1..], k, if Updates(events[0], k) then events[0].conn.version else low,
                   if Updates(events[0], k) then events[0].conn.version else low', high);
    }
  }

  lemma {:induction false} ClimbsSnoc(events: seq<Event>, e: Event, k: Key, low: int, high: int)
    requires Climbs(events, k, low, high)
    ensures !Updates(e, k) ==> Climbs(events + [e], k, low, high)
    ensures Updates(e, k) && high < e.conn.version ==> Climbs(events + [e], k, low, e.conn.version)
    decreases |events|
  {
    var all := events + [e];
    if events == [] {
      assert all == [e] && all[1..] == [];
    } else {
      assert all[1..] == events[1..] + [e];
      ClimbsSnoc(events[1..], e, k, if Updates(events[0], k) then events[0].conn.version else low, high);
    }
  }

  /** Events without a word about `k` leave only the bounds. */
  lemma {:induction false} ClimbsSilent(events: seq<Event>, k: Key, low: int, high: int)
    requires k !in Spoken(events)
    ensures Climbs(events, k, low, high) <==> low <= high
    decreases |events|
  {
    if events != [] {
      assert !Updates(events[0], k);
      ClimbsSilent(events[1..], k, low, high);
    }
  }

  lemma {:induction false} ClimbsDrop(events: seq<Event>, n: nat, k: Key, low: int, high: int)
    requires n <= |events| && Climbs(events, k, low, high)
    ensures Climbs(events[n..], k, low, high)
    decreases |events|
  {
    if n > 0 {
      var rest := events[1..];
      assert events[n..] == rest[n - 1..];
      if Updates(events[0], k) {
        ClimbsDrop(rest, n - 1, k, events[0].conn.version, high);
        ClimbsWeaker(rest[n - 1..], k, events[0].conn.version, low, high);
      } else {
        ClimbsDrop(rest, n - 1, k, low, high);
      }
    }
  }

  /** An update on its way leaves room between the bounds. */
  lemma {:induction false} ClimbsStrict(events: seq<Event>, k: Key, low: int, high: int)
    requires Climbs(events, k, low, high) && LastWord(events, k).Some? && LastWord(events, k).value.Update?
    ensures low < high
    decreases |events|
  {
    var rest := events[1..];
    assert events == [events[0]] + rest;
    LastWordCons(events[0], rest, k);
    if Updates(events[0], k) {
      ClimbsWeaker(rest, k, events[0].conn.version, low, high);
    } else {
      ClimbsStrict(rest, k, low, high);
    }
  }

  ghost predicate OrderInv(s: State) {
    forall k :: OrderOk(s, k)
  }

  /** Steps that touch neither the events, nor the monitored table, nor what is stale. */
  lemma QuietKeepsOrder(s: State, t: State)
    requires OrderInv(s) && t.sent == s.sent && t.stale == s.stale && t.monitored == s.monitored && Pending(t) == Pending(s)
    ensures OrderInv(t)
  {
    forall k ensures OrderOk(t, k) {
      assert OrderOk(s, k);
    }
  }

  lemma InsertKeepsOrder(s: State, j: Key)
    requires Inv(s) && OrderInv(s)
    ensures OrderInv(Next(s, InsertMonitored(j)))
  {
    var t := Next(s, InsertMonitored(j));
    assert KeyOk(s, j) && Pending(t) == Pending(s);
    forall k ensures OrderOk(t, k) {
      assert OrderOk(s, k);
    }
  }

  lemma OpenKeepsOrder(s: State, k: Key)
    requires Inv(s) && k in s.calls && s.calls[k].Announcing?
    ensures OrderOk(Finish(Broadcast(s, Open(s.calls[k].conn)), k), k)
  {
    var e := Open(s.calls[k].conn);
    var t := Finish(Broadcast(s, e), k);
    assert KeyOk(s, k);
    FoldSnoc(s.sent, e);
    DropKeepsLastWord(Pending(s), 0, k);
    ClimbsSilent(Pending(s), k, Floor(s, k), e.conn.version);
    ClimbsSnoc(Pending(s), e, k, Floor(s, k), e.conn.version);
    assert Pending(t) == Pending(s) + [e];
  }

  lemma UpdateKeepsOrder(s: State, k: Key)
    requires Inv(s) && OrderInv(s) && k in s.calls && s.calls[k].Locked?
    ensures OrderOk(Finish(Broadcast(s, Update(s.calls[k].conn)), k), k)
  {
    var e := Update(s.calls[k].conn);
    var t := Finish(Broadcast(s, e), k);
    assert KeyOk(s, k) && OrderOk(s, k);
    FoldSnoc(s.sent, e);
    ClimbsSnoc(Pending(s), e, k, Floor(s, k), Fold(s.sent)[k].version - (if k in s.stale then 1 else 0));
    assert Pending(t) == Pending(s) + [e];
  }

  /** An event about another key changes nothing for `k`. */
  lemma BroadcastKeepsOrder(s: State, e: Event, t: State, k: Key)
    requires OrderInv(s)
    requires t.sent == s.sent + [e] && Pending(t) == Pending(s) + [e] && t.monitored == s.monitored
    requires k !in SpokenBy(e) && (e.Open? ==> e.conn.key != k) && (k in t.stale <==> k in s.stale)
    ensures OrderOk(t, k)
  {
    assert OrderOk(s, k);
    FoldSnoc(s.sent, e);
    if k in Fold(s.sent) {
      ClimbsSnoc(Pending(s), e, k, Floor(s, k), Fold(s.sent)[k].version - (if k in s.stale then 1 else 0));
    }
  }

  lemma SendKeepsOrder(s: State, j: Key, e: Event)
    requires Inv(s) && OrderInv(s) && j in s.calls && Owes(s.calls[j], j, e)
    ensures OrderInv(Finish(Broadcast(s, e), j))
  {
    var t := Finish(Broadcast(s, e), j);
    assert KeyOk(s, j) && Pending(t) == Pending(s) + [e];
    forall k ensures OrderOk(t, k) {
      if k != j {
        BroadcastKeepsOrder(s, e, t, k);
      } else if e.Open? {
        OpenKeepsOrder(s, j);
      } else if e.Update? {
        UpdateKeepsOrder(s, j);
      } else {
        FoldSnoc(s.sent, e);
      }
    }
  }

  lemma SendOtherKeepsOrder(s: State, e: Event)
    requires OrderInv(s) && (e.Traffic? || e.Exchange?)
    ensures OrderInv(Broadcast(s, e))
  {
    var t := Broadcast(s, e);
    assert Pending(t) == Pending(s) + [e];
    forall k ensures OrderOk(t, k) {
      BroadcastKeepsOrder(s, e, t, k);
    }
  }

  lemma ProcessKeepsOrder(s: State)
    requires OrderInv(s) && s.observer.Decided?
    ensures OrderInv(Next(s, Process))
  {
    var t, e := Next(s, Process), s.observer.event;
    forall k ensures OrderOk(t, k) {
      assert OrderOk(s, k);
      if k in Fold(s.sent) {
        var high := Fold(s.sent)[k].version - (if k in s.stale then 1 else 0);
        assert Pending(s)[1..] == s.channel == Pending(t);
        var low := if Updates(e, k) then e.conn.version else Floor(s, k);
        assert Climbs(s.channel, k, low, high) && Floor(t, k) <= low;
        ClimbsWeaker(s.channel, k, low, Floor(t, k), high);
      }
    }
  }

  /** The channel part of `LagKeepsOrder`: `low` is what the observer holds or will hold. */
  lemma LagChannel(s: State, n: nat, k: Key, low: int, high: int)
    requires Inv(s) && n <= |s.channel| && k in Fold(s.sent) && Climbs(s.channel, k, low, high)
    ensures Climbs(s.channel[n..], k, low, high - (if k in Missed(s.channel, n) && k !in s.stale then 1 else 0))
  {
    var rest := s.channel[n..];
    ClimbsDrop(s.channel, n, k, low, high);
    if k in Missed(s.channel, n) && k !in s.stale {
      assert KeyOk(s, k);
      PendingLastWord(s, k);
      DropKeepsLastWord(s.channel, n, k);
      LastWordSpeaks(s.channel, k);
      ClimbsStrict(s.channel, k, low, high);
      ClimbsSilent(rest, k, low, high - 1);
    }
  }

  lemma LagKeyOrder(s: State, n: nat, k: Key)
    requires Inv(s) && OrderOk(s, k) && n <= |s.channel| && k in Fold(s.sent)
    ensures var high := Fold(s.sent)[k].version - (if k in s.stale || k in Missed(s.channel, n) then 1 else 0);
            if s.observer.Idle? then Climbs(s.channel[n..], k, Floor(s, k), high)
            else Climbs([s.observer.event] + s.channel[n..], k, Floor(s, k), high)
  {
    var high := Fold(s.sent)[k].version - (if k in s.stale then 1 else 0);
    if s.observer.Idle? {
      LagChannel(s, n, k, Floor(s, k), high);
    } else {
      var e := s.observer.event;
      assert Pending(s)[1..] == s.channel && ([e] + s.channel[n..])[1..] == s.channel[n..];
      LagChannel(s, n, k, if Updates(e, k) then e.conn.version else Floor(s, k), high);
    }
  }

  lemma LagKeepsOrder(s: State, n: nat)
    requires Inv(s) && OrderInv(s) && n <= |s.channel|
    ensures OrderInv(Next(s, Lag(n)))
  {
    var t := Next(s, Lag(n));
    assert t.stale == s.stale + Missed(s.channel, n) && t.sent == s.sent;
    forall k ensures OrderOk(t, k) {
      assert OrderOk(s, k);
      if k in Fold(s.sent) { LagKeyOrder(s, n, k); }
    }
  }

  lemma CallStepKeepsOrder(s: State, a: Action)
    requires Inv(s) && OrderInv(s) && OfCall(a)
    ensures OrderInv(Next(s, a))
  {
    if IsSend(a) {
      SendIsOwed(s, a);
      if Next(s, a) != s {
        var e :| Owes(s.calls[a.key], a.key, e) && Next(s, a) == Finish(Broadcast(s, e), a.key);
        SendKeepsOrder(s, a.key, e);
      }
    } else if a.InsertMonitored? {
      InsertKeepsOrder(s, a.key);
    } else {
      CallLeavesEvents(s, a);
      QuietKeepsOrder(s, Next(s, a));
    }
  }

  lemma CallLeavesEvents(s: State, a: Action)
    requires OfCall(a) && !IsSend(a) && !a.InsertMonitored?
    ensures var t := Next(s, a);
            t.sent == s.sent && t.stale == s.stale && t.monitored == s.monitored && Pending(t) == Pending(s)
  {
  }

  lemma FlagKeepsOrder(s: State, a: Action)
    requires OrderInv(s) && (a.Receive? || a.SetInspecting? || a.Decide?)
    ensures OrderInv(Next(s, a))
  {
    ReceiveKeepsPending(s);
    QuietKeepsOrder(s, Next(s, a));
  }

  lemma ObserverStepKeepsOrder(s: State, a: Action)
    requires Inv(s) && OrderInv(s) && !OfCall(a)
    ensures OrderInv(Next(s, a))
  {
    match a
    case SendOther(e) => if e.Traffic? || e.Exchange? { SendOtherKeepsOrder(s, e); }
    case Process => if s.observer.Decided? { ProcessKeepsOrder(s); }
    case Lag(n) => if n <= |s.channel| { LagKeepsOrder(s, n); }
    case Receive => FlagKeepsOrder(s, a);
    case SetInspecting(_) => FlagKeepsOrder(s, a);
    case Decide => FlagKeepsOrder(s, a);
  }

  lemma StepKeepsOrder(s: State, a: Action)
    requires Inv(s) && OrderInv(s)
    ensures OrderInv(Next(s, a))
  {
    if OfCall(a) { CallStepKeepsOrder(s, a); } else { ObserverStepKeepsOrder(s, a); }
  }

  lemma {:induction false} RunsKeepOrder(s: State, acts: seq<Action>)
    requires Inv(s) && OrderInv(s) && !Exec(s, acts).misused
    ensures OrderInv(Exec(s, acts))
    decreases |acts|
  {
    if acts != [] {
      MisuseStays(Next(s, acts[0]), acts[1..]);
      StepKeepsInv(s, acts[0]);
      StepKeepsOrder(s, acts[0]);
      RunsKeepOrder(Next(s, acts[0]), acts[1..]);
    }
  }

  // ---- Results -------------------------------------------------------------------------------------

  predicate Quiescent(s: State) {
    s.calls == map[] && s.channel == [] && s.observer == Idle
  }

  /** The observer holds an active connection in its current version. */
  predicate Agrees(s: State, k: Key)
    requires k in s.monitored
  {
    k in s.active && s.monitored[k].version == s.active[k].version
  }

  /** Once the queue is drained and no call is in progress, a monitored connection
      agrees with the active table exactly when its latest update or close was not
      dropped by a lagging channel. If it agrees, the whole record is the same; with
      inspection on from the start, the keys not dropped are monitored exactly when
      they are active. */
  lemma TablesAgree(inspecting: bool, acts: seq<Action>)
    requires var s := Exec(Start(inspecting), acts); Quiescent(s) && !s.misused
    ensures var s := Exec(Start(inspecting), acts);
            && (forall k :: k in s.monitored ==> (Agrees(s, k) <==> k !in s.stale))
            && (forall k :: k in s.monitored && k !in s.stale ==> SameRecord(s.monitored[k], s.active[k]))
            && (forall k :: k !in s.stale && !s.everOff ==> (k in s.monitored <==> k in s.active))
  {
    RunsKeepInv(Start(inspecting), acts);
    RunsKeepOrder(Start(inspecting), acts);
    var s := Exec(Start(inspecting), acts);
    forall k
      ensures k in s.monitored ==> (Agrees(s, k) <==> k !in s.stale)
      ensures k in s.monitored && k !in s.stale ==> SameRecord(s.monitored[k], s.active[k])
      ensures k !in s.stale && !s.everOff ==> (k in s.monitored <==> k in s.active)
    {
      assert KeyOk(s, k) && OrderOk(s, k);
    }
  }

  /** The event stream replays to the active table whenever no call is in progress,
      and in every state it is lawful. */
  lemma StreamReplays(inspecting: bool, acts: seq<Action>)
    requires !Exec(Start(inspecting), acts).misused
    ensures var s := Exec(Start(inspecting), acts);
            Lawful(s.sent) && (s.calls == map[] ==> Fold(s.sent) == s.active)
  {
    RunsKeepInv(Start(inspecting), acts);
    var s := Exec(Start(inspecting), acts);
    if s.calls == map[] {
      forall k ensures (k in Fold(s.sent) <==> k in s.active) && (k in s.active ==> Fold(s.sent)[k] == s.active[k]) {
        assert KeyOk(s, k);
      }
    }
  }

  function Count(events: seq<Event>, k: Key, opens: bool): nat {
    if events == [] then 0
    else
      var e := events[|events| - 1];
      Count(events[..|events| - 1], k, opens) +
      (if (opens && e.Open? && e.conn.key == k) || (!opens && e.Close? && e.key == k) then 1 else 0)
  }

  /** In a lawful stream a key is closed once for every time it was opened, except
      for the opening still in force; so a key opened once is closed at most once. */
  lemma {:induction false} ClosesMatchOpens(events: seq<Event>, k: Key)
    requires Lawful(events)
    ensures Count(events, k, false) + (if k in Fold(events) then 1 else 0) == Count(events, k, true)
  {
    if events != [] {
      ClosesMatchOpens(events[..|events| - 1], k);
    }
  }

  /** Closing is announced at most once per key, however often deletion is called. */
  lemma ClosedAtMostOnce(inspecting: bool, acts: seq<Action>, k: Key)
    requires !Exec(Start(inspecting), acts).misused
    ensures Count(Exec(Start(inspecting), acts).sent, k, false) <= 1
  {
    StreamReplays(inspecting, acts);
    ClosesMatchOpens(Exec(Start(inspecting), acts).sent, k);
    OpenedAtMostOnce(Start(inspecting), acts, k);
  }

  /** A key not added yet has no opening, and an opening counts once it is sent. */
  ghost predicate OpensOk(s: State, k: Key) {
    && (forall j :: AddInProgress(s, j) ==> s.calls[j].conn.key == j)
    && Count(s.sent, k, true) + (if AddInProgress(s, k) then 1 else 0) <= (if k in s.used then 1 else 0)
  }

  lemma CountSnoc(events: seq<Event>, e: Event, k: Key)
    ensures Count(events + [e], k, true) == Count(events, k, true) + (if e.Open? && e.conn.key == k then 1 else 0)
  {
    assert (events + [e])[..|events|] == events;
  }

  lemma OpensOkSend(s: State, k: Key, e: Event, j: Key)
    requires OpensOk(s, k) && j in s.calls && Owes(s.calls[j], j, e)
    ensures OpensOk(Finish(Broadcast(s, e), j), k)
  {
    CountSnoc(s.sent, e, k);
  }

  lemma QuietKeepsCalls(s: State, a: Action)
    requires a.SetInspecting? || a.Decide?
    ensures var t := Next(s, a); t.sent == s.sent && t.used == s.used && t.calls == s.calls
  {
  }

  lemma ReceiveKeepsCalls(s: State)
    ensures var t := Next(s, Receive); t.sent == s.sent && t.used == s.used && t.calls == s.calls
  {
  }

  lemma ProcessKeepsCalls(s: State)
    ensures var t := Next(s, Process); t.sent == s.sent && t.used == s.used && t.calls == s.calls
  {
  }

  lemma LagKeepsCalls(s: State, n: nat)
    ensures var t := Next(s, Lag(n)); t.sent == s.sent && t.used == s.used && t.calls == s.calls
  {
  }

  lemma OpensOkSame(s: State, t: State, k: Key)
    requires OpensOk(s, k) && t.sent == s.sent && t.used == s.used && t.calls == s.calls
    ensures OpensOk(t, k)
  {
  }

  lemma OpensOkProgress(s: State, a: Action, k: Key)
    requires OpensOk(s, k) && (a.ReadFlag? || a.InsertMonitored? || a.BeginMutate? || a.BeginDelete?)
    ensures OpensOk(Next(s, a), k)
  {
    var t := Next(s, a);
    assert t.sent == s.sent && t.used == s.used;
    forall j ensures AddInProgress(t, j) ==> AddInProgress(s, j) && t.calls[j].conn == s.calls[j].conn {
    }
  }

  lemma OpensOkAdd(s: State, c: Conn, k: Key)
    requires OpensOk(s, k) && !Next(s, BeginAdd(c)).misused
    ensures OpensOk(Next(s, BeginAdd(c)), k)
  {
    assert forall j :: AddInProgress(Next(s, BeginAdd(c)), j) ==> AddInProgress(s, j) || j == c.key;
  }

  lemma OpensOkObserverStep(s: State, a: Action, k: Key)
    requires OpensOk(s, k) && !OfCall(a)
    ensures OpensOk(Next(s, a), k)
  {
    match a
    case SendOther(e) => CountSnoc(s.sent, e, k);
    case Process =>
      ProcessKeepsCalls(s);
      OpensOkSame(s, Next(s, a), k);
    case Lag(n) =>
      LagKeepsCalls(s, n);
      OpensOkSame(s, Next(s, a), k);
    case Receive =>
      ReceiveKeepsCalls(s);
      OpensOkSame(s, Next(s, a), k);
    case SetInspecting(_) =>
      QuietKeepsCalls(s, a);
      OpensOkSame(s, Next(s, a), k);
    case Decide =>
      QuietKeepsCalls(s, a);
      OpensOkSame(s, Next(s, a), k);
  }

  lemma OpensOkStep(s: State, a: Action, k: Key)
    requires OpensOk(s, k) && !Next(s, a).misused
    ensures OpensOk(Next(s, a), k)
  {
    if IsSend(a) {
      SendIsOwed(s, a);
      if Next(s, a) != s {
        var e :| Owes(s.calls[a.key], a.key, e) && Next(s, a) == Finish(Broadcast(s, e), a.key);
        OpensOkSend(s, k, e, a.key);
      }
    } else if a.BeginAdd? {
      OpensOkAdd(s, a.conn, k);
    } else if OfCall(a) {
      OpensOkProgress(s, a, k);
    } else {
      OpensOkObserverStep(s, a, k);
    }
  }

  lemma {:induction false} OpenedAtMostOnce(s: State, acts: seq<Action>, k: Key)
    requires !Exec(s, acts).misused && OpensOk(s, k)
    ensures Count(Exec(s, acts).sent, k, true) <= 1
    decreases |acts|
  {
    if acts != [] {
      MisuseStays(Next(s, acts[0]), acts[1..]);
      OpensOkStep(s, acts[0], k);
      OpenedAtMostOnce(Next(s, acts[0]), acts[1..], k);
    }
  }

  // ---- Versions ----------------------------------------------------------------------------------

  function UpdatesSinceOpen(events: seq<Event>, k: Key): nat {
    if events == [] then 0
    else
      var front, e := events[..|events| - 1], events[|events| - 1];
      if e.Open? && e.conn.key == k then 0
      else UpdatesSinceOpen(front, k) + (if e.Update? && e.conn.key == k then 1 else 0)
  }

  function OpeningVersion(events: seq<Event>, k: Key): nat {
    if events == [] then 0
    else
      var e := events[|events| - 1];
      if e.Open? && e.conn.key == k then e.conn.version else OpeningVersion(events[..|events| - 1], k)
  }

  lemma {:induction false} VersionCountsUpdates(events: seq<Event>, k: Key)
    requires Lawful(events) && k in Fold(events)
    ensures Fold(events)[k].version == OpeningVersion(events, k) + UpdatesSinceOpen(events, k)
  {
    var front, e := events[..|events| - 1], events[|events| - 1];
    if !(e.Open? && e.conn.key == k) {
      VersionCountsUpdates(front, k);
    }
  }

  /** The version of an active connection is the one it was added with plus one per
      update, whatever the mutators did. */
  lemma ActiveVersionCountsUpdates(inspecting: bool, acts: seq<Action>, k: Key)
    requires !Exec(Start(inspecting), acts).misused
    requires k in Exec(Start(inspecting), acts).active && k !in Exec(Start(inspecting), acts).calls
    ensures var s := Exec(Start(inspecting), acts);
            s.active[k].version == OpeningVersion(s.sent, k) + UpdatesSinceOpen(s.sent, k)
  {
    var s := Exec(Start(inspecting), acts);
    RunsKeepInv(Start(inspecting), acts);
    assert KeyOk(s, k);
    VersionCountsUpdates(s.sent, k);
  }

  // ---- Whole calls -----------------------------------------------------------------------------------

  function AddCall(c: Conn): seq<Action> {
    [BeginAdd(c), ReadFlag(c.key), InsertMonitored(c.key), SendOpen(c.key)]
  }

  function MutateCall(k: Key, mutated: Conn): seq<Action> {
    [BeginMutate(k, mutated), SendUpdate(k)]
  }

  function DeleteCall(k: Key): seq<Action> {
    [BeginDelete(k), SendClose(k)]
  }

  function ObserveOne(): seq<Action> {
    [Receive, Decide, Process]
  }

  lemma AddCallEffect(s: State, c: Conn)
    requires c.key !in s.calls
    ensures Exec(s, AddCall(c)) ==
      Broadcast(s.(active := s.active[c.key := c],
                   monitored := if s.inspecting then s.monitored[c.key := c] else s.monitored,
                   used := s.used + {c.key}, misused := s.misused || c.key in s.used), Open(c))
  {
    var k := c.key;
    RunConcat(Next, s, [BeginAdd(c), ReadFlag(k)], [InsertMonitored(k), SendOpen(k)]);
    assert AddCall(c) == [BeginAdd(c), ReadFlag(k)] + [InsertMonitored(k), SendOpen(k)];
    RunTwo(Next, s, BeginAdd(c), ReadFlag(k));
    RunTwo(Next, Next(Next(s, BeginAdd(c)), ReadFlag(k)), InsertMonitored(k), SendOpen(k));
    AddStepsEffect(s, c);
  }

  lemma AddStepsEffect(s: State, c: Conn)
    requires c.key !in s.calls
    ensures var k := c.key;
            Next(Next(Next(Next(s, BeginAdd(c)), ReadFlag(k)), InsertMonitored(k)), SendOpen(k)) ==
            Broadcast(s.(active := s.active[k := c],
                         monitored := if s.inspecting then s.monitored[k := c] else s.monitored,
                         used := s.used + {k}, misused := s.misused || k in s.used), Open(c))
  {
    var k := c.key;
    var s2 := Next(Next(s, BeginAdd(c)), ReadFlag(k));
    var s3 := Next(s2, InsertMonitored(k));
    assert s3.calls == s.calls[k := Announcing(c)];
    assert s3.calls - {k} == s.calls;
  }

  lemma MutateCallEffect(s: State, k: Key, m: Conn)
    requires k !in s.calls && k in s.active
    ensures var c := m.(version := s.active[k].version + 1);
            Exec(s, MutateCall(k, m)) ==
            Broadcast(s.(active := s.active[k := c], misused := s.misused || m.key != k), Update(c))
  {
    RunTwo(Next, s, BeginMutate(k, m), SendUpdate(k));
    MutateStepsEffect(s, k, m);
  }

  lemma MutateStepsEffect(s: State, k: Key, m: Conn)
    requires k !in s.calls && k in s.active
    ensures var c := m.(version := s.active[k].version + 1);
            Next(Next(s, BeginMutate(k, m)), SendUpdate(k)) ==
            Broadcast(s.(active := s.active[k := c], misused := s.misused || m.key != k), Update(c))
  {
    var locked := Next(s, BeginMutate(k, m));
    assert locked.calls - {k} == s.calls;
  }

  lemma DeleteCallEffect(s: State, k: Key)
    requires k !in s.calls
    ensures Exec(s, DeleteCall(k)) ==
      if k in s.active then Broadcast(s.(active := s.active - {k}), Close(k)) else s
  {
    RunTwo(Next, s, BeginDelete(k), SendClose(k));
    if k in s.active {
      assert Next(s, BeginDelete(k)).calls - {k} == s.calls;
    }
  }

  lemma ObserveOneEffect(s: State)
    requires s.observer.Idle? && s.channel != []
    ensures Exec(s, ObserveOne()) ==
      s.(channel := s.channel[1..], monitored := if s.inspecting then Observe(s.monitored, s.channel[0]) else map[])
  {
    RunThree(Next, s, Receive, Decide, Process);
    var s2 := s.(channel := s.channel[1..], observer := Decided(s.channel[0], s.inspecting));
    assert Next(Next(s, Receive), Decide) == s2;
    assert Next(s2, Process) == s2.(observer := Idle,
      monitored := if s.inspecting then Observe(s.monitored, s.channel[0]) else map[]);
  }

  /** Switching inspection off clears the monitored table at the next event, and
      switching it on lets that event take effect. */
  lemma InspectionIsObeyed(s: State, on: bool)
    requires s.observer.Idle? && s.channel != []
    ensures Exec(Next(s, SetInspecting(on)), ObserveOne()).monitored
         == if on then Observe(s.monitored, s.channel[0]) else map[]
  {
    ObserveOneEffect(Next(s, SetInspecting(on)));
  }

  /** Traffic of a connection reaches its monitored record. */
  lemma TrafficIsSeen(s: State, e: Event)
    requires s.observer.Idle? && s.channel == [] && s.inspecting && e.Traffic?
    ensures var t := Exec(Next(s, SendOther(e)), ObserveOne());
            t.monitored == (if e.key in s.monitored
                            then s.monitored[e.key := Decode(s.monitored[e.key], e.outgoing, e.showsGrpc, e.showsWebsocket)]
                            else s.monitored)
  {
    assert ([] + [e])[0] == e;
    ObserveOneEffect(Next(s, SendOther(e)));
  }

  // ---- Why the assumptions are needed ----------------------------------------------------------------

  /** Adding a key again while it is active leaves a stale copy behind. */
  lemma ReuseBreaksAgreement(c: Conn)
    ensures exists acts ::
      var s := Exec(Start(true), acts);
      Quiescent(s) && s.stale == {} && c.key in s.monitored && c.key in s.active &&
      s.monitored[c.key].version != s.active[c.key].version
  {
    var k := c.key;
    var s0 := Start(true);
    var twice := AddCall(c) + MutateCall(k, c) + AddCall(c);
    RunConcat(Next, s0, AddCall(c) + MutateCall(k, c), AddCall(c));
    RunConcat(Next, s0, AddCall(c), MutateCall(k, c));
    AddCallEffect(s0, c);
    var s1 := Exec(s0, AddCall(c));
    MutateCallEffect(s1, k, c);
    var s2 := Exec(s1, MutateCall(k, c));
    AddCallEffect(s2, c);
    var s3 := Exec(s0, twice);
    var newer := c.(version := c.version + 1);
    assert s3.channel == [Open(c), Update(newer), Open(c)];
    var obs := ObserveOne() + ObserveOne() + ObserveOne();
    DrainThree(s3);
    RunConcat(Next, s0, twice, obs);
    var s := Exec(s0, twice + obs);
    assert s.monitored[k] == newer && s.active[k] == c;
  }

  lemma DrainThree(s: State)
    requires s.observer.Idle? && s.inspecting && |s.channel| == 3
    ensures Exec(s, ObserveOne() + ObserveOne() + ObserveOne()) ==
      s.(channel := [], monitored := Observe(Observe(Observe(s.monitored, s.channel[0]), s.channel[1]), s.channel[2]))
  {
    RunConcat(Next, s, ObserveOne() + ObserveOne(), ObserveOne());
    RunConcat(Next, s, ObserveOne(), ObserveOne());
    ObserveOneEffect(s);
    ObserveOneEffect(Exec(s, ObserveOne()));
    ObserveOneEffect(Exec(Exec(s, ObserveOne()), ObserveOne()));
  }

  /** When the channel drops a close, the observer keeps a dead connection. */
  lemma LagBreaksAgreement(c: Conn)
    ensures exists acts ::
      var s := Exec(Start(true), acts);
      Quiescent(s) && !s.misused && c.key in s.monitored && c.key !in s.active
  {
    var k := c.key;
    var s0 := Start(true);
    var acts := AddCall(c) + DeleteCall(k);
    RunConcat(Next, s0, AddCall(c), DeleteCall(k));
    AddCallEffect(s0, c);
    DeleteCallEffect(Exec(s0, AddCall(c)), k);
    var s2 := Exec(s0, acts);
    assert s2.channel == [Open(c), Close(k)];
    RunConcat(Next, s0, acts, [Lag(2)]);
    assert [Lag(2)][1..] == [];
    assert Exec(Next(s2, Lag(2)), []) == Next(s2, Lag(2));
    var s := Exec(s0, acts + [Lag(2)]);
    assert k in s.monitored && k !in s.active;
  }

  // ---- The tables ------------------------------------------------------------------------------------------

  /** The connection type is resolved when it has not been set. */
  function Prepared(c: Conn, kind: string): Conn {
    if c.resolvedType.None? then c.(resolvedType := Some(kind)) else c
  }

  class ConnectionTables {
    var active: map<Key, Conn>
    var monitored: map<Key, Conn>
    var inspecting: bool
    var channel: seq<Event>
    ghost var sent: seq<Event>
    ghost var used: set<Key>
    ghost var stale: set<Key>
    ghost var misused: bool
    ghost var everOff: bool

    /** The machine state between calls. */
    ghost function View(): State
      reads this
    {
      State(active, monitored, inspecting, channel, Idle, map[], sent, used, stale, misused, everOff)
    }

    constructor ()
      ensures View() == Start(false)
    {
      active, monitored, inspecting, channel := map[], map[], false, [];
      sent, used, stale, misused, everOff := [], {}, {}, false, true;
    }

    method Send(e: Event)
      modifies this`channel, this`sent, this`stale
      ensures channel == old(channel) + [e] && sent == old(sent) + [e] && stale == old(stale) - SpokenBy(e)
    {
      channel := channel + [e];
      sent, stale := sent + [e], stale - SpokenBy(e);
    }

    /** An uninterrupted add; nothing happens when the key has been dropped. */
    method AddOrUpdateConnection(conn: Conn, keyAlive: bool, kind: string)
      modifies this
      ensures View() == if keyAlive then Exec(old(View()), AddCall(Prepared(conn, kind))) else old(View())
      ensures keyAlive ==>
        conn.key in active &&
        active[conn.key] == conn.(resolvedType := Some(if conn.resolvedType.Some? then conn.resolvedType.value else kind))
    {
      var c := Prepared(conn, kind);
      if keyAlive {
        AddCallEffect(View(), c);
        active := active[c.key := c];
        misused := misused || c.key in used;
        used := used + {c.key};
        if inspecting {
          monitored := monitored[c.key := c];
        }
        Send(Open(c));
      }
    }

    /** The entry stays locked from the lookup to the broadcast. */
    method MutateTrackedConnection(key: Key, mutator: Conn -> Conn)
      modifies this
      ensures View() ==
        if key in old(active) then Exec(old(View()), MutateCall(key, mutator(old(active)[key]))) else old(View())
    {
      if key in active {
        var v := active[key].version;
        MutateCallEffect(View(), key, mutator(active[key]));
        var c := mutator(active[key]).(version := v + 1);
        active := active[key := c];
        misused := misused || c.key != key;
        Send(Update(c));
      }
    }

    /** A second deletion of the same key finds nothing and sends nothing. */
    method DelConnection(key: Key)
      modifies this
      ensures View() == Exec(old(View()), DeleteCall(key))
      ensures key !in active && (key !in old(active) ==> View() == old(View()))
    {
      DeleteCallEffect(View(), key);
      if key in active {
        active := active - {key};
        Send(Close(key));
      }
    }

    method Reset()
      modifies this`monitored
      ensures monitored == map[]
    {
      monitored := map[];
    }

    method UpdateConnection(key: Key, change: Conn -> Conn)
      modifies this`monitored
      ensures monitored ==
        if key in old(monitored) then old(monitored)[key := change(old(monitored)[key])] else old(monitored)
    {
      if key in monitored {
        monitored := monitored[key := change(monitored[key])];
      }
    }

    /** The observer's handling of every event except a close, which its loop takes
        itself and which changes no record here. */
    method Push(e: Event)
      modifies this`monitored
      ensures monitored == if e.Close? then old(monitored) else Observe(old(monitored), e)
    {
      match e
      case Open(_) =>
      case Close(_) =>
      case Exchange(_) =>
      case Update(c) => monitored := monitored[c.key := c];
      case Traffic(k, outgoing, grpc, websocket) =>
        UpdateConnection(k, c => Decode(c, outgoing, grpc, websocket));
    }

    /** One round of the observer's loop. */
    method ObserveNext()
      requires channel != []
      modifies this
      ensures View() == Exec(old(View()), ObserveOne())
    {
      ObserveOneEffect(View());
      var e := channel[0];
      channel := channel[1..];
      if !inspecting {
        Reset();
        return;
      }
      if e.Close? {
        monitored := monitored - {e.key};
      } else {
        Push(e);
      }
    }
  }
}
