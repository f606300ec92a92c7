/** The port chooser every host loop calls under the configuration lock, and the
    loops as a machine whose steps are those calls. */
module Allocator {
  import opened Wrappers
  import opened Text
  import opened Sites

  /** What the chooser reads from the loop's resolved process. */
  datatype Request = Request(id: ProcId, port: Option<Port>, envVars: seq<EnvVar>, activePort: Option<Port>)

  datatype Outcome =
    | Chosen(port: Port)
    | SearchOverflow  // the 16-bit counter is incremented past 65535

  // ---- Ports held by other sites ----------------------------------------------

  function PortsOf(s: HostedSite): seq<(ProcId, Port)> {
    (if s.port.Some? then [(s.id, s.port.value)] else []) +
    (if s.activePort.Some? then [(s.id, s.activePort.value)] else [])
  }

  function BusyPorts(sites: seq<HostedSite>): seq<(ProcId, Port)> {
    if sites == [] then [] else PortsOf(sites[0]) + BusyPorts(sites[1..])
  }

  function OthersPorts(busy: seq<(ProcId, Port)>, me: ProcId): seq<Port> {
    if busy == [] then []
    else (if busy[0].0 != me then [busy[0].1] else []) + OthersPorts(busy[1..], me)
  }

  function Unavailable(sites: seq<HostedSite>, me: ProcId): seq<Port> {
    OthersPorts(BusyPorts(sites), me)
  }

  predicate Claims(s: HostedSite, p: Port) {
    s.port == Some(p) || s.activePort == Some(p)
  }

  lemma {:induction false} BusyPortsExact(sites: seq<HostedSite>, id: ProcId, p: Port)
    ensures (id, p) in BusyPorts(sites) <==> exists s :: s in sites && s.id == id && Claims(s, p)
  {
    if sites != [] {
      BusyPortsExact(sites[1..], id, p);
      assert sites == [sites[0]] + sites[1..];
      assert (id, p) in PortsOf(sites[0]) <==> sites[0].id == id && Claims(sites[0], p);
    }
  }

  lemma {:induction false} OthersPortsExact(busy: seq<(ProcId, Port)>, me: ProcId, p: Port)
    ensures p in OthersPorts(busy, me) <==> exists id :: (id, p) in busy && id != me
  {
    if busy != [] {
      OthersPortsExact(busy[1..], me, p);
      assert busy == [busy[0]] + busy[1..];
      assert busy[0] == (busy[0].0, busy[0].1);
    }
  }

  /** A port is unavailable exactly when another site is configured for it or uses it. */
  lemma UnavailableExact(sites: seq<HostedSite>, me: ProcId, p: Port)
    ensures p in Unavailable(sites, me) <==> exists s :: s in sites && s.id != me && Claims(s, p)
  {
    OthersPortsExact(BusyPorts(sites), me, p);
    if p in Unavailable(sites, me) {
      var id :| (id, p) in BusyPorts(sites) && id != me;
      BusyPortsExact(sites, id, p);
    }
    forall s | s in sites && s.id != me && Claims(s, p) ensures p in Unavailable(sites, me) {
      BusyPortsExact(sites, s.id, p);
    }
  }

  // ---- Choosing a port ---------------------------------------------------------

  /** The loop's current port is returned at once, without touching the record. */
  predicate KeepsCurrent(taken: seq<Port>, r: Request, occupied: set<Port>) {
    r.activePort.Some? && r.activePort.value !in taken && r.activePort.value !in occupied
  }

  /** The current port after the first check: dropped when free of conflicts but
      occupied on the machine, kept when another site holds it. */
  function Carried(taken: seq<Port>, r: Request): Option<Port> {
    if r.activePort.Some? && r.activePort.value in taken then r.activePort else None
  }

  function EnvPort(envVars: seq<EnvVar>): Option<string> {
    if envVars == [] then None
    else if NamesPort(envVars[0]) then Some(envVars[0].value)
    else EnvPort(envVars[1..])
  }

  predicate PrintedIn(taken: seq<Port>, v: string) {
    exists x :: x in taken && ToDecimal(x) == v
  }

  /** The configured port, else the PORT variable, else what was carried over. */
  function Preferred(taken: seq<Port>, r: Request, random: Option<Port>): Option<Port> {
    var carried := Carried(taken, r);
    match r.port
    case Some(p) =>
      if p == 0 then random
      else if p in taken then carried
      else Some(p)
    case None =>
      match EnvPort(r.envVars)
      case None => carried
      case Some(v) =>
        if PrintedIn(taken, v) || ParsePort(v).None? then carried else ParsePort(v)
  }

  predicate Usable(taken: seq<Port>, occupied: set<Port>, p: Port) {
    p !in taken && p !in occupied
  }

  /** First fit from `p` upwards; `None` when the counter would leave 16 bits. */
  function Search(p: nat, taken: seq<Port>, occupied: set<Port>): (r: Option<Port>)
    requires p <= 65536
    ensures r.Some? ==> p <= r.value && Usable(taken, occupied, r.value)
    ensures forall q: Port :: p <= q && (r.Some? ==> q < r.value) ==> !Usable(taken, occupied, q)
    decreases 65536 - p
  {
    if p == 65536 then None
    else if Usable(taken, occupied, p) then Some(p)
    else Search(p + 1, taken, occupied)
  }

  function Select(taken: seq<Port>, start: Port, r: Request, occupied: set<Port>, random: Option<Port>): Outcome {
    if KeepsCurrent(taken, r, occupied) then Chosen(r.activePort.value)
    else match Preferred(taken, r, random)
      case Some(p) => Chosen(p)
      case None =>
        match Search(start, taken, occupied)
        case Some(p) => Chosen(p)
        case None => SearchOverflow
  }

  // ---- What is chosen ------------------------------------------------------------------

  /** The `k`-th variable is the first one named PORT, in any letter case. */
  predicate FirstPortVariable(envVars: seq<EnvVar>, k: nat) {
    k < |envVars| && EqIgnoreCase(envVars[k].key, "port") &&
    forall j :: 0 <= j < k ==> !EqIgnoreCase(envVars[j].key, "port")
  }

  predicate NoPortVariable(envVars: seq<EnvVar>) {
    forall j :: 0 <= j < |envVars| ==> !EqIgnoreCase(envVars[j].key, "port")
  }

  lemma {:induction false} EnvPortIsFirst(envVars: seq<EnvVar>)
    ensures EnvPort(envVars).None? <==> NoPortVariable(envVars)
    ensures forall k: nat :: FirstPortVariable(envVars, k) ==> EnvPort(envVars) == Some(envVars[k].value)
  {
    if envVars != [] && !NamesPort(envVars[0]) {
      var rest := envVars[1..];
      EnvPortIsFirst(rest);
      assert NoPortVariable(rest) ==> NoPortVariable(envVars) by {
        assert forall j :: 0 < j < |envVars| ==> envVars[j] == rest[j - 1];
      }
      forall k: nat | FirstPortVariable(envVars, k) ensures EnvPort(envVars) == Some(envVars[k].value) {
        assert FirstPortVariable(rest, k - 1) by {
          assert forall j :: 0 <= j < |rest| ==> rest[j] == envVars[j + 1];
        }
      }
    }
  }

  /** The current port is good enough: nobody else has it and it is not occupied. */
  lemma CurrentPortIsKept(taken: seq<Port>, start: Port, r: Request, occupied: set<Port>, random: Option<Port>, q: Port)
    requires r.activePort == Some(q) && q !in taken && q !in occupied
    ensures Select(taken, start, r, occupied, random) == Chosen(q)
  {
  }

  /** A configured port no other site has is chosen, occupied or not. */
  lemma ConfiguredPortIsChosen(taken: seq<Port>, start: Port, r: Request, occupied: set<Port>, random: Option<Port>, p: Port)
    requires forall q :: r.activePort == Some(q) ==> q in taken || q in occupied
    requires r.port == Some(p) && p != 0 && p !in taken
    ensures Select(taken, start, r, occupied, random) == Chosen(p)
  {
  }

  /** Configured port 0 asks the system for a port. */
  lemma RandomPortIsChosen(taken: seq<Port>, start: Port, r: Request, occupied: set<Port>, random: Option<Port>, p: Port)
    requires forall q :: r.activePort == Some(q) ==> q in taken || q in occupied
    requires r.port == Some(0) && random == Some(p)
    ensures Select(taken, start, r, occupied, random) == Chosen(p)
  {
  }

  /** Without a configured port the first PORT variable decides, when it is a number
      that no other site's port prints as. */
  lemma VariablePortIsChosen(taken: seq<Port>, start: Port, r: Request, occupied: set<Port>, random: Option<Port>,
                             k: nat, p: Port)
    requires forall q :: r.activePort == Some(q) ==> q in taken || q in occupied
    requires r.port.None? && FirstPortVariable(r.envVars, k)
    requires forall x :: x in taken ==> ToDecimal(x) != r.envVars[k].value
    requires ParsePort(r.envVars[k].value) == Some(p)
    ensures Select(taken, start, r, occupied, random) == Chosen(p)
  {
    EnvPortIsFirst(r.envVars);
  }

  /** Nothing names a port that may be used: a configured port another site has, port 0
      without an answer from the system, no PORT variable, or one whose text is another
      site's port or no port at all. */
  ghost predicate NamesNothingUsable(taken: seq<Port>, r: Request, random: Option<Port>) {
    if r.port.Some? then (if r.port.value == 0 then random.None? else r.port.value in taken)
    else NoPortVariable(r.envVars) || exists k: nat :: UselessVariable(taken, r.envVars, k)
  }

  predicate UselessVariable(taken: seq<Port>, envVars: seq<EnvVar>, k: nat) {
    FirstPortVariable(envVars, k) && (PrintedIn(taken, envVars[k].value) || ParsePort(envVars[k].value).None?)
  }

  lemma NothingPreferred(taken: seq<Port>, r: Request, random: Option<Port>)
    requires NamesNothingUsable(taken, r, random)
    requires r.port != Some(0)
    ensures Preferred(taken, r, random) == Carried(taken, r)
  {
    EnvPortIsFirst(r.envVars);
  }

  /** Then a current port that another site has as well is kept. */
  lemma ConflictingPortIsKept(taken: seq<Port>, start: Port, r: Request, occupied: set<Port>, random: Option<Port>, q: Port)
    requires r.activePort == Some(q) && q in taken && r.port != Some(0)
    requires NamesNothingUsable(taken, r, random)
    ensures Select(taken, start, r, occupied, random) == Chosen(q)
  {
    NothingPreferred(taken, r, random);
  }

  /** And otherwise the range is searched: the first port from its start that no other
      site has and that is not occupied. */
  lemma SearchIsReached(taken: seq<Port>, start: Port, r: Request, occupied: set<Port>, random: Option<Port>)
    requires forall q :: r.activePort == Some(q) ==> if q in taken then r.port == Some(0) else q in occupied
    requires NamesNothingUsable(taken, r, random)
    ensures var out := Select(taken, start, r, occupied, random);
            if out.Chosen? then
              && start <= out.port && out.port !in taken && out.port !in occupied
              && (forall q: Port :: start <= q < out.port ==> q in taken || q in occupied)
            else forall q: Port :: start <= q ==> q in taken || q in occupied
  {
    if r.port != Some(0) { NothingPreferred(taken, r, random); }
    assert forall q: Port :: q !in taken && q !in occupied ==> Usable(taken, occupied, q);
  }

  /** These six cases are all there are. */
  lemma EveryRequestIsDecided(taken: seq<Port>, r: Request, occupied: set<Port>, random: Option<Port>)
    ensures var current := r.activePort.Some? && r.activePort.value !in taken && r.activePort.value !in occupied;
            || current
            || (r.port.Some? && r.port.value != 0 && r.port.value !in taken)
            || (r.port == Some(0) && random.Some?)
            || (r.port.None? && exists k: nat :: FirstPortVariable(r.envVars, k) && !UselessVariable(taken, r.envVars, k))
            || NamesNothingUsable(taken, r, random)
  {
    if r.port.None? && !NoPortVariable(r.envVars) {
      var k := FirstVariable(r.envVars);
    }
  }

  lemma {:induction false} FirstVariable(envVars: seq<EnvVar>) returns (k: nat)
    requires !NoPortVariable(envVars)
    ensures FirstPortVariable(envVars, k)
  {
    k := 0;
    if !NamesPort(envVars[0]) {
      var rest := envVars[1..];
      assert forall j :: 0 <= j < |rest| ==> rest[j] == envVars[j + 1];
      assert NoPortVariable(rest) ==> NoPortVariable(envVars) by {
        assert forall j :: 0 < j < |envVars| ==> envVars[j] == rest[j - 1];
      }
      var i := FirstVariable(rest);
      k := i + 1;
      assert forall j :: 0 < j < k ==> envVars[j] == rest[j - 1];
    }
  }

  // ---- When the choice collides ---------------------------------------------------

  /** A port named by PORT in a text no number prints as, for example "04200". */
  predicate AliasHit(taken: seq<Port>, r: Request) {
    r.port.None? && EnvPort(r.envVars).Some? &&
    var v := EnvPort(r.envVars).value;
    !PrintedIn(taken, v) && !Canonical(v) && ParsePort(v).Some? && ParsePort(v).value in taken
  }

  /** Nothing else is on offer, so a current port another site holds is kept. */
  predicate StuckOnCurrent(taken: seq<Port>, r: Request) {
    r.activePort.Some? && r.activePort.value in taken &&
    match r.port
    case Some(p) => p != 0 && p in taken
    case None =>
      EnvPort(r.envVars).Some? ==>
        PrintedIn(taken, EnvPort(r.envVars).value) || ParsePort(EnvPort(r.envVars).value).None?
  }

  predicate RandomHit(taken: seq<Port>, r: Request, random: Option<Port>) {
    r.port == Some(0) && random.Some? && random.value in taken
  }

  /** The chosen port is held by another site exactly in three situations. */
  lemma CollisionExact(taken: seq<Port>, start: Port, r: Request, occupied: set<Port>, random: Option<Port>)
    requires Select(taken, start, r, occupied, random).Chosen?
    ensures Select(taken, start, r, occupied, random).port in taken
       <==> !KeepsCurrent(taken, r, occupied) &&
            (AliasHit(taken, r) || StuckOnCurrent(taken, r) || RandomHit(taken, r, random))
  {
    if r.port.None? && EnvPort(r.envVars).Some? {
      var v := EnvPort(r.envVars).value;
      if ParsePort(v).Some? {
        PrintedComparisonExact(ParsePort(v).value, v);
      }
    }
  }

  /** "04200" is read digit by digit. */
  lemma PaddedValue(v: string)
    requires v == ['0', '4', '2', '0', '0']
    ensures ParsePort(v) == Some(4200)
  {
    var a, b, c, d := ['0'], ['0', '4'], ['0', '4', '2'], ['0', '4', '2', '0'];
    assert v[..4] == d && d[..3] == c && c[..2] == b && b[..1] == a && a[..0] == [];
    assert AllDigits(a) && AllDigits(b) && AllDigits(c) && AllDigits(d) && AllDigits(v);
    assert ValueOf(a) == 0;
    assert ValueOf(b) == 4;
    assert ValueOf(c) == 42;
    assert ValueOf(d) == 420;
    assert ValueOf(v) == 4200;
  }

  lemma CollisionsHappen()
    ensures Select([4200], 4200, Request("a", None, [EnvVar("PORT", "04200")], None), {}, None) == Chosen(4200)
    ensures Select([4200], 4200, Request("a", None, [], Some(4200)), {}, None) == Chosen(4200)
    ensures Select([4200], 4200, Request("a", Some(0), [], None), {}, Some(4200)) == Chosen(4200)
  {
    var v := "04200";
    assert Upper("PORT") == "PORT" == Upper("port");
    PaddedValue(v);
    PrintedComparisonExact(4200, v);
  }

  // ---- First fit -------------------------------------------------------------------

  /** With no port named and none carried over, the least usable port at or above
      the range start is chosen. */
  lemma AutomaticPortIsLeast(taken: seq<Port>, start: Port, r: Request, occupied: set<Port>, random: Option<Port>, q: Port)
    requires !KeepsCurrent(taken, r, occupied) && Preferred(taken, r, random).None?
    requires start <= q && Usable(taken, occupied, q)
    ensures var out := Select(taken, start, r, occupied, random);
            out.Chosen? && start <= out.port <= q && Usable(taken, occupied, out.port)
  {
    assert Search(start, taken, occupied).Some?;
  }

  ghost function Excluded(start: Port, taken: seq<Port>, occupied: set<Port>): set<Port> {
    set p: Port | start <= p && !Usable(taken, occupied, p)
  }

  predicate AtLeast(p: Port, start: nat) {
    start <= p
  }

  ghost function PortsFrom(start: nat): set<Port> {
    set p: Port | AtLeast(p, start)
  }

  lemma {:induction false} PortsFromSize(start: nat)
    requires start <= 65536
    ensures |PortsFrom(start)| == 65536 - start
    decreases 65536 - start
  {
    if start == 65536 {
      assert PortsFrom(start) == {};
    } else {
      PortsFromSize(start + 1);
      assert PortsFrom(start) == {start} + PortsFrom(start + 1);
    }
  }

  lemma ProperSubsetSmaller<T>(a: set<T>, b: set<T>)
    requires a <= b
    ensures |a| <= |b| && (|a| == |b| ==> a == b)
  {
    assert b == a + (b - a);
  }

  /** The search ends inside 16 bits exactly when fewer ports are excluded than
      the range holds. */
  lemma SearchEndsExactly(start: Port, taken: seq<Port>, occupied: set<Port>)
    ensures Search(start, taken, occupied).Some? <==> |Excluded(start, taken, occupied)| < 65536 - start
  {
    var excluded, all := Excluded(start, taken, occupied), PortsFrom(start);
    PortsFromSize(start);
    ProperSubsetSmaller(excluded, all);
    match Search(start, taken, occupied)
    case Some(p) =>
      assert p in all && p !in excluded;
    case None =>
      assert forall q: Port :: q in all ==> q in excluded;
      assert excluded == all;
  }

  // ---- The loops ---------------------------------------------------------------------

  /** The first record with the given id gets the port; no record, no change. */
  function RecordPort(sites: seq<HostedSite>, id: ProcId, p: Port): seq<HostedSite> {
    if sites == [] then []
    else if sites[0].id == id then [sites[0].(activePort := Some(p))] + sites[1..]
    else [sites[0]] + RecordPort(sites[1..], id, p)
  }

  /** Loop `i` serves record `i`. `local` is the port each loop holds itself;
      `published` is the port in the thread map, written when a child is spawned, and
      `snapshot` what a reload in progress has read from it. */
  datatype Machine = Machine(
    start: Port,
    sites: seq<HostedSite>,
    local: seq<Option<Port>>,
    published: seq<Option<Port>>,
    snapshot: Option<seq<Option<Port>>>)

  datatype Action =
    | Allocate(i: nat, occupied: set<Port>, random: Option<Port>)
    | Publish(i: nat)
    | ReadThreads(which: set<nat>)  // a reload of unchanged sites copies entries of the thread map
    | Swap                          // and later installs the configuration built from that copy

  /** The copy after the entries in `which` have been read; the others are as before. */
  function Copied(m: Machine, which: set<nat>): (r: seq<Option<Port>>)
    requires Shaped(m)
    ensures |r| == |m.sites|
  {
    seq(|m.sites|, i requires 0 <= i < |m.sites| =>
      if i in which then m.published[i] else if m.snapshot.Some? then m.snapshot.value[i] else None)
  }

  function WithPorts(sites: seq<HostedSite>, ports: seq<Option<Port>>): (r: seq<HostedSite>)
    requires |sites| == |ports|
    ensures |r| == |sites|
  {
    seq(|sites|, i requires 0 <= i < |sites| => sites[i].(activePort := ports[i]))
  }

  function RequestOf(s: HostedSite, local: Option<Port>): Request {
    Request(s.id, s.port, s.envVars, local)
  }

  predicate Shaped(m: Machine) {
    |m.sites| == |m.local| == |m.published| && (m.snapshot.Some? ==> |m.snapshot.value| == |m.sites|)
  }

  function Next(m: Machine, a: Action): (m': Machine)
    requires Shaped(m)
    ensures Shaped(m')
  {
    match a
    case Allocate(i, occupied, random) =>
      if i >= |m.sites| then m else
      var r := RequestOf(m.sites[i], m.local[i]);
      var taken := Unavailable(m.sites, r.id);
      (match Select(taken, m.start, r, occupied, random)
       case SearchOverflow => m
       case Chosen(p) =>
         RecordPortSize(m.sites, r.id, p);
         m.(sites := if KeepsCurrent(taken, r, occupied) then m.sites else RecordPort(m.sites, r.id, p),
            local := m.local[i := Some(p)]))
    case Publish(i) =>
      if i >= |m.sites| then m else m.(published := m.published[i := m.local[i]])
    case ReadThreads(which) => m.(snapshot := Some(Copied(m, which)))
    case Swap => if m.snapshot.None? then m else m.(sites := WithPorts(m.sites, m.snapshot.value), snapshot := None)
  }

  lemma RecordPortSize(sites: seq<HostedSite>, id: ProcId, p: Port)
    ensures |RecordPort(sites, id, p)| == |sites|
  {
  }

  lemma {:induction false} RecordPortAt(sites: seq<HostedSite>, i: nat, p: Port)
    requires i < |sites| && forall k :: 0 <= k < i ==> sites[k].id != sites[i].id
    ensures RecordPort(sites, sites[i].id, p) == sites[i := sites[i].(activePort := Some(p))]
  {
    var updated := sites[i].(activePort := Some(p));
    if i == 0 {
      assert sites[0 := updated] == [updated] + sites[1..];
    } else {
      var rest := sites[1..];
      assert sites[0].id != sites[i].id && rest[i - 1] == sites[i];
      RecordPortAt(rest, i - 1, p);
      assert sites[i := updated] == [sites[0]] + rest[i - 1 := updated];
    }
  }

  lemma RecordPortMissing(sites: seq<HostedSite>, id: ProcId, p: Port)
    requires forall k :: 0 <= k < |sites| ==> sites[k].id != id
    ensures RecordPort(sites, id, p) == sites
  {
  }

  function Exec(m: Machine, acts: seq<Action>): (m': Machine)
    requires Shaped(m)
    ensures Shaped(m')
    decreases |acts|
  {
    if acts == [] then m else Exec(Next(m, acts[0]), acts[1..])
  }

  predicate DistinctIds(sites: seq<HostedSite>) {
    forall i, j :: 0 <= i < j < |sites| ==> sites[i].id != sites[j].id
  }

  /** A configuration with no port 0 and, where the chooser reads it, no PORT text
      that aliases a number. */
  predicate Configured(sites: seq<HostedSite>) {
    && DistinctIds(sites)
    && (forall i :: 0 <= i < |sites| ==> sites[i].port != Some(0))
    && (forall i :: 0 <= i < |sites| ==> PlainEnvPort(sites[i]))
  }

  predicate PlainEnvPort(s: HostedSite) {
    s.port.None? && EnvPort(s.envVars).Some? && ParsePort(EnvPort(s.envVars).value).Some? ==> Canonical(EnvPort(s.envVars).value)
  }

  predicate Fresh(m: Machine) {
    Shaped(m) && Configured(m.sites) &&
    forall i :: 0 <= i < |m.sites| ==>
      m.sites[i].activePort == None && m.local[i] == None && m.published[i] == None
  }

  /** No port is shared, and every loop agrees with its shared record. */
  predicate Safe(m: Machine) {
    && Shaped(m) && Configured(m.sites)
    && (forall i :: 0 <= i < |m.sites| ==> m.local[i] == m.sites[i].activePort)
    && (forall i, j :: 0 <= i < |m.sites| && 0 <= j < |m.sites| && i != j && m.sites[i].activePort.Some? ==>
          !Claims(m.sites[j], m.sites[i].activePort.value))
  }

  /** In a safe state the branch that keeps a conflicting current port is dead. */
  lemma FallThroughUnreachable(m: Machine, i: nat)
    requires Safe(m) && i < |m.sites| && m.local[i].Some?
    ensures m.local[i].value !in Unavailable(m.sites, m.sites[i].id)
    ensures !StuckOnCurrent(Unavailable(m.sites, m.sites[i].id), RequestOf(m.sites[i], m.local[i]))
  {
    UnavailableExact(m.sites, m.sites[i].id, m.local[i].value);
  }

  /** Loop `i` takes port `p`. */
  function Take(m: Machine, i: nat, p: Port): Machine
    requires Shaped(m) && i < |m.sites|
  {
    m.(sites := m.sites[i := m.sites[i].(activePort := Some(p))], local := m.local[i := Some(p)])
  }

  lemma TakeKeepsSafe(m: Machine, i: nat, p: Port)
    requires Safe(m) && i < |m.sites|
    requires forall j :: 0 <= j < |m.sites| && j != i ==> !Claims(m.sites[j], p)
    ensures Safe(Take(m, i, p))
  {
    var m' := Take(m, i, p);
    assert forall j :: 0 <= j < |m.sites| ==>
      m'.sites[j].id == m.sites[j].id && m'.sites[j].port == m.sites[j].port && m'.sites[j].envVars == m.sites[j].envVars;
    assert Configured(m'.sites);
  }

  /** In a safe state a call either overflows or takes a port no other site claims. */
  lemma AllocateTakes(m: Machine, i: nat, occupied: set<Port>, random: Option<Port>)
    requires Safe(m) && i < |m.sites|
    ensures var r := RequestOf(m.sites[i], m.local[i]);
            var out := Select(Unavailable(m.sites, r.id), m.start, r, occupied, random);
            var m' := Next(m, Allocate(i, occupied, random));
            if out.SearchOverflow? then m' == m
            else out.port !in Unavailable(m.sites, r.id) && m' == Take(m, i, out.port)
  {
    var r := RequestOf(m.sites[i], m.local[i]);
    var taken := Unavailable(m.sites, r.id);
    var out := Select(taken, m.start, r, occupied, random);
    if out.Chosen? {
      CollisionExact(taken, m.start, r, occupied, random);
      if m.local[i].Some? { FallThroughUnreachable(m, i); }
      assert PlainEnvPort(m.sites[i]);
      RecordPortAt(m.sites, i, out.port);
      if KeepsCurrent(taken, r, occupied) {
        assert m.sites[i] == m.sites[i].(activePort := Some(out.port));
        assert Take(m, i, out.port) == m.(local := m.local[i := Some(out.port)]);
      }
    }
  }

  lemma AllocateKeepsSafe(m: Machine, i: nat, occupied: set<Port>, random: Option<Port>)
    requires Safe(m)
    ensures Safe(Next(m, Allocate(i, occupied, random)))
  {
    if i < |m.sites| {
      var r := RequestOf(m.sites[i], m.local[i]);
      var out := Select(Unavailable(m.sites, r.id), m.start, r, occupied, random);
      AllocateTakes(m, i, occupied, random);
      if out.Chosen? {
        UnavailableExact(m.sites, r.id, out.port);
        TakeKeepsSafe(m, i, out.port);
      }
    }
  }

  /** Installing a reloaded configuration keeps the state safe exactly when the ports
      read from the thread map are the ones the loops hold now. */
  lemma SwapSafeExactly(m: Machine)
    requires Safe(m) && m.snapshot.Some?
    ensures Safe(Next(m, Swap)) <==> m.snapshot.value == m.local
    ensures forall a :: Next(Next(Next(m, Swap), a), Swap).sites == Next(Next(m, Swap), a).sites || a.ReadThreads?
  {
    var m' := Next(m, Swap);
    if Safe(m') {
      assert forall i :: 0 <= i < |m.sites| ==> m'.local[i] == m'.sites[i].activePort == m.snapshot.value[i];
    }
    if m.snapshot.value == m.local {
      assert forall i :: 0 <= i < |m.sites| ==> m'.sites[i] == m.sites[i];
      assert m'.sites == m.sites;
    }
  }

  /** Every configuration installed in the run carries the ports the loops hold. */
  predicate SwapsCurrent(m: Machine, acts: seq<Action>)
    requires Shaped(m)
    decreases |acts|
  {
    acts == [] ||
    ((acts[0].Swap? && m.snapshot.Some? ==> m.snapshot.value == m.local) && SwapsCurrent(Next(m, acts[0]), acts[1..]))
  }

  /** Any interleaving of loops calling the allocator stays safe. */
  lemma {:induction false} AllocationSafe(m: Machine, acts: seq<Action>)
    requires Safe(m) && SwapsCurrent(m, acts)
    ensures Safe(Exec(m, acts))
    decreases |acts|
  {
    if acts != [] {
      match acts[0] {
        case Allocate(i, occupied, random) => AllocateKeepsSafe(m, i, occupied, random);
        case Publish(i) =>
        case ReadThreads(_) =>
        case Swap => if m.snapshot.Some? { SwapSafeExactly(m); }
      }
      AllocationSafe(Next(m, acts[0]), acts[1..]);
    }
  }

  lemma AllocationSafeFromStart(m: Machine, acts: seq<Action>)
    requires Fresh(m) && SwapsCurrent(m, acts)
    ensures Safe(Exec(m, acts))
  {
    AllocationSafe(m, acts);
  }

  // ---- When a reload lets two loops share a port ----------------------------------------

  /** The request names `p`: as its configured port, not taken, or by its first PORT
      variable, unless the text is that of a taken port. */
  ghost predicate Asks(taken: seq<Port>, r: Request, p: Port) {
    || (r.port == Some(p) && p !in taken)
    || (r.port.None? && exists k: nat :: VariableNames(taken, r.envVars, k, p))
  }

  predicate VariableNames(taken: seq<Port>, envVars: seq<EnvVar>, k: nat, p: Port) {
    FirstPortVariable(envVars, k) && !PrintedIn(taken, envVars[k].value) && ParsePort(envVars[k].value) == Some(p)
  }

  /** The request names nothing usable and has no conflicting port to fall back on. */
  ghost predicate Searches(taken: seq<Port>, r: Request) {
    NamesNothingUsable(taken, r, None) && (r.activePort.None? || r.activePort.value !in taken)
  }

  lemma PreferredMeaning(taken: seq<Port>, r: Request, p: Port)
    requires r.port != Some(0) && r.activePort != Some(p)
    ensures Preferred(taken, r, None) == Some(p) <==> Asks(taken, r, p)
    ensures Preferred(taken, r, None).None? <==> Searches(taken, r)
  {
    EnvPortIsFirst(r.envVars);
    if r.port.None? && !NoPortVariable(r.envVars) {
      var k := FirstVariable(r.envVars);
      assert ParsePort(r.envVars[k].value) == Some(p) ==>
        (VariableNames(taken, r.envVars, k, p) || UselessVariable(taken, r.envVars, k));
      assert ParsePort(r.envVars[k].value).None? ==> UselessVariable(taken, r.envVars, k);
      assert PrintedIn(taken, r.envVars[k].value) ==> UselessVariable(taken, r.envVars, k);
    }
  }

  /** Some probe answers make the chooser return `p`, which the loop does not hold,
      exactly when the request names it, or searches and the port is free and in range. */
  lemma CanChooseExactly(taken: seq<Port>, start: Port, r: Request, p: Port)
    requires r.port != Some(0) && r.activePort != Some(p)
    ensures (exists occupied :: Select(taken, start, r, occupied, None) == Chosen(p)) <==>
            Asks(taken, r, p) || (Searches(taken, r) && start <= p && p !in taken)
  {
    PreferredMeaning(taken, r, p);
    if Asks(taken, r, p) || (Searches(taken, r) && start <= p && p !in taken) {
      var others := PortsFrom(0) - {p};
      assert forall q: Port :: q != p ==> AtLeast(q, 0) && q in others;
      assert !KeepsCurrent(taken, r, others);
      if Preferred(taken, r, None).None? {
        assert Usable(taken, others, p);
        assert Search(start, taken, others) == Some(p);
      }
      assert Select(taken, start, r, others, None) == Chosen(p);
    }
  }

  /** No record other than loop `j`'s shows port `p`. */
  predicate Hidden(m: Machine, j: nat, p: Port)
    requires Shaped(m)
  {
    forall k :: 0 <= k < |m.sites| && k != j ==> !Claims(m.sites[k], p)
  }

  lemma HiddenExactly(m: Machine, j: nat, p: Port)
    requires Shaped(m) && DistinctIds(m.sites) && j < |m.sites|
    ensures Hidden(m, j, p) <==> p !in Unavailable(m.sites, m.sites[j].id)
  {
    UnavailableExact(m.sites, m.sites[j].id, p);
    if !Hidden(m, j, p) {
      var k :| 0 <= k < |m.sites| && k != j && Claims(m.sites[k], p);
      assert m.sites[k] in m.sites && m.sites[k].id != m.sites[j].id;
    }
  }

  ghost predicate LoopAsks(m: Machine, j: nat, p: Port)
    requires Shaped(m) && j < |m.sites|
  {
    Asks(Unavailable(m.sites, m.sites[j].id), RequestOf(m.sites[j], m.local[j]), p)
  }

  ghost predicate LoopSearches(m: Machine, j: nat)
    requires Shaped(m) && j < |m.sites|
  {
    Searches(Unavailable(m.sites, m.sites[j].id), RequestOf(m.sites[j], m.local[j]))
  }

  /** After a configuration is installed, the next call of loop `j` can be answered so
      that it takes the port loop `i` holds, exactly when no entry of the copy but
      `j`'s own names that port, loop `i` is not configured for it, and `j` asks for it
      or searches from a start that does not exceed it. */
  lemma SwapLetsShareExactly(m: Machine, i: nat, j: nat, p: Port)
    requires Safe(m) && m.snapshot.Some?
    requires i < |m.sites| && j < |m.sites| && i != j && m.local[i] == Some(p)
    ensures var m' := Next(m, Swap);
            (exists occupied :: Next(m', Allocate(j, occupied, None)).local[j] == Some(p)) <==>
              && (forall k :: 0 <= k < |m.sites| && k != j ==> m.snapshot.value[k] != Some(p))
              && m.sites[i].port != Some(p)
              && (LoopAsks(m', j, p) || (LoopSearches(m', j) && m.start <= p))
  {
    var m' := Next(m, Swap);
    var r := RequestOf(m'.sites[j], m'.local[j]);
    var taken := Unavailable(m'.sites, r.id);
    assert forall k :: 0 <= k < |m.sites| ==>
      m'.sites[k].id == m.sites[k].id && m'.sites[k].port == m.sites[k].port && m'.sites[k].envVars == m.sites[k].envVars &&
      m'.sites[k].activePort == m.snapshot.value[k];
    assert !Claims(m.sites[j], p) && r.activePort != Some(p) && r.port != Some(p);
    SwapHides(m, i, j, p);
    CanChooseExactly(taken, m.start, r, p);
    if LoopAsks(m', j, p) { AskedIsFree(m', j, p); }
    forall occupied
      ensures Next(m', Allocate(j, occupied, None)).local[j] == Some(p) <==> Select(taken, m.start, r, occupied, None) == Chosen(p)
    {
    }
  }

  /** The loop whose port the installed configuration forgot repairs nothing by its own
      calls: while no other record shows its port and nobody occupies it, a call keeps
      the port and writes no record. */
  lemma HolderRepairsNothing(m: Machine, i: nat, p: Port, occupied: set<Port>, random: Option<Port>)
    requires Shaped(m) && DistinctIds(m.sites) && i < |m.sites| && m.local[i] == Some(p)
    requires Hidden(m, i, p) && p !in occupied
    ensures Next(m, Allocate(i, occupied, random)) == m
  {
    HiddenExactly(m, i, p);
    assert m.local[i := Some(p)] == m.local;
  }

  lemma SwapHides(m: Machine, i: nat, j: nat, p: Port)
    requires Safe(m) && m.snapshot.Some?
    requires i < |m.sites| && j < |m.sites| && i != j && m.local[i] == Some(p)
    ensures var m' := Next(m, Swap);
            p !in Unavailable(m'.sites, m'.sites[j].id) <==>
              (forall k :: 0 <= k < |m.sites| && k != j ==> m.snapshot.value[k] != Some(p)) && m.sites[i].port != Some(p)
  {
    var m' := Next(m, Swap);
    HiddenExactly(m', j, p);
    assert forall k :: 0 <= k < |m.sites| && k != i ==> !Claims(m.sites[k], p);
    assert forall k :: 0 <= k < |m.sites| ==>
      (Claims(m'.sites[k], p) <==> m.sites[k].port == Some(p) || m.snapshot.value[k] == Some(p));
  }

  /** A plainly configured loop asks for no port another record shows, except its own. */
  lemma AskedIsFree(m: Machine, j: nat, p: Port)
    requires Shaped(m) && j < |m.sites| && PlainEnvPort(m.sites[j]) && LoopAsks(m, j, p)
    ensures p !in Unavailable(m.sites, m.sites[j].id)
  {
    var s := m.sites[j];
    if s.port.None? {
      EnvPortIsFirst(s.envVars);
      PrintedComparisonExact(p, EnvPort(s.envVars).value);
    }
  }

  // ---- Runs in which a reload goes wrong ---------------------------------------------------

  function PlainSite(id: ProcId): HostedSite {
    HostedSite(id, id, None, None, [], None, None, None, None, None, None)
  }

  /** A site without configured ports that has to search takes the first port found. */
  lemma PlainAllocate(m: Machine, i: nat, occupied: set<Port>, p: Port)
    requires Shaped(m) && i < |m.sites| && DistinctIds(m.sites) && m.sites[i].port == None && m.sites[i].envVars == []
    requires var taken := Unavailable(m.sites, m.sites[i].id);
             (m.local[i] == None || (m.local[i].value !in taken && m.local[i].value in occupied)) &&
             Search(m.start, taken, occupied) == Some(p)
    ensures Next(m, Allocate(i, occupied, None)) == Take(m, i, p)
  {
    RecordPortAt(m.sites, i, p);
  }

  function Pair(a: Option<Port>): seq<HostedSite> {
    [PlainSite("a").(activePort := a), PlainSite("b")]
  }

  lemma PairUnavailable(a: Option<Port>)
    ensures DistinctIds(Pair(a))
    ensures Unavailable(Pair(a), "a") == []
    ensures Unavailable(Pair(a), "b") == (if a.Some? then [a.value] else [])
  {
    var s, t := Pair(a)[0], Pair(a)[1];
    assert Pair(a)[1..] == [t] && [t][1..] == [];
    assert PortsOf(t) == [] && BusyPorts([t]) == PortsOf(t) + BusyPorts([]) == [];
    assert BusyPorts(Pair(a)) == PortsOf(s);
    if a.Some? {
      var busy := [("a", a.value)];
      assert PortsOf(s) == busy && busy[1..] == [] && "a"[0] != "b"[0];
      assert OthersPorts(busy, "a") == [] + OthersPorts([], "a");
      assert OthersPorts(busy, "b") == [a.value] + OthersPorts([], "b");
    } else {
      assert PortsOf(s) == [];
    }
  }

  /** Two plain sites, searching from port `q`; only the first one has a port. */
  function PairMachine(q: Port, a: Option<Port>, local: Option<Port>, published: Option<Port>,
                       snapshot: Option<seq<Option<Port>>>): Machine
  {
    Machine(q, Pair(a), [local, None], [published, None], snapshot)
  }

  lemma FirstMoves(m: Machine, a: Option<Port>, occupied: set<Port>, p: Port)
    requires Shaped(m) && m.sites == Pair(a) && (m.local[0] == None || m.local[0].value in occupied)
    requires Search(m.start, [], occupied) == Some(p)
    ensures Next(m, Allocate(0, occupied, None)) == m.(sites := Pair(Some(p)), local := m.local[0 := Some(p)])
  {
    PairUnavailable(a);
    PlainAllocate(m, 0, occupied, p);
    assert Take(m, 0, p).sites == Pair(Some(p));
  }

  lemma SecondStarts(m: Machine, a: Option<Port>, p: Port)
    requires Shaped(m) && m.sites == Pair(a) && m.local[1] == None
    requires Search(m.start, if a.Some? then [a.value] else [], {}) == Some(p)
    ensures Next(m, Allocate(1, {}, None)).local == m.local[1 := Some(p)]
  {
    PairUnavailable(a);
    PlainAllocate(m, 1, {}, p);
  }

  lemma NextFit(q: Port, taken: seq<Port>, occupied: set<Port>)
    requires q < 65535 && !Usable(taken, occupied, q) && Usable(taken, occupied, q + 1)
    ensures Search(q, taken, occupied) == Some(q + 1)
  {
    assert Search(q + 1, taken, occupied) == Some(q + 1);
  }

  lemma ExecFront(m: Machine, a: Action, rest: seq<Action>)
    requires Shaped(m)
    ensures Exec(m, [a] + rest) == Exec(Next(m, a), rest)
  {
    assert ([a] + rest)[1..] == rest;
  }

  /** A thread map read before the port is published: the installed configuration
      forgets the port and a second loop takes it. */
  lemma EarlyReadSharesPort(q: Port)
    ensures var unused := PairMachine(q, None, None, None, None);
            var acts := [Allocate(0, {}, None)] + ([ReadThreads({0, 1})] + ([Swap] + ([Allocate(1, {}, None)] + [])));
            Fresh(unused) && Exec(unused, acts).local == [Some(q), Some(q)]
  {
    var m0 := PairMachine(q, None, None, None, None);
    PairUnavailable(None);
    FirstMoves(m0, None, {}, q);
    var m1 := Next(m0, Allocate(0, {}, None));
    var m2 := Next(m1, ReadThreads({0, 1}));
    var m3 := Next(m2, Swap);
    assert m3.sites == Pair(None);
    SecondStarts(m3, None, q);
    var last := [Allocate(1, {}, None)] + [];
    ExecFront(m0, Allocate(0, {}, None), [ReadThreads({0, 1})] + ([Swap] + last));
    ExecFront(m1, ReadThreads({0, 1}), [Swap] + last);
    ExecFront(m2, Swap, last);
    ExecFront(m3, Allocate(1, {}, None), []);
  }

  /** The first loop moves on from an occupied port while a reload is under way. */
  lemma PortMovesDuringReload(q: Port)
    requires q < 65535
    ensures Exec(PairMachine(q, Some(q), Some(q), Some(q), None),
                 [ReadThreads({0, 1})] + ([Allocate(0, {q}, None)] + ([Publish(0)] + []))) ==
            PairMachine(q, Some(q + 1), Some(q + 1), Some(q + 1), Some([Some(q), None]))
  {
    var m0 := PairMachine(q, Some(q), Some(q), Some(q), None);
    var m1 := Next(m0, ReadThreads({0, 1}));
    assert Copied(m0, {0, 1}) == [Some(q), None];
    NextFit(q, [], {q});
    FirstMoves(m1, Some(q), {q}, q + 1);
    var m2 := Next(m1, Allocate(0, {q}, None));
    assert Next(m2, Publish(0)) == PairMachine(q, Some(q + 1), Some(q + 1), Some(q + 1), Some([Some(q), None]));
    ExecFront(m0, ReadThreads({0, 1}), [Allocate(0, {q}, None)] + ([Publish(0)] + []));
    ExecFront(m1, Allocate(0, {q}, None), [Publish(0)] + []);
    ExecFront(m2, Publish(0), []);
  }

  lemma PairSafe(q: Port, p: Port, snapshot: Option<seq<Option<Port>>>)
    requires snapshot.Some? ==> |snapshot.value| == 2
    ensures Safe(PairMachine(q, Some(p), Some(p), Some(p), snapshot))
  {
    PairUnavailable(Some(p));
  }

  /** A port that moves between the read and the installation: all ports are published
      at both moments, and still a second loop takes the port the first one moved to. */
  lemma LateSwapSharesPort(q: Port)
    requires q < 65535
    ensures var before := PairMachine(q, Some(q), Some(q), Some(q), None);
            var moved := Exec(before, [ReadThreads({0, 1})] + ([Allocate(0, {q}, None)] + ([Publish(0)] + [])));
            && Safe(before) && before.published == before.local
            && Safe(moved) && moved.published == moved.local && moved.snapshot.Some?
            && !Safe(Next(moved, Swap))
            && Next(Next(moved, Swap), Allocate(1, {}, None)).local == [Some(q + 1), Some(q + 1)]
  {
    PortMovesDuringReload(q);
    PairSafe(q, q, None);
    var moved := PairMachine(q, Some(q + 1), Some(q + 1), Some(q + 1), Some([Some(q), None]));
    PairSafe(q, q + 1, moved.snapshot);
    SwapSafeExactly(moved);
    var swapped := Next(moved, Swap);
    assert swapped.sites == Pair(Some(q));
    NextFit(q, [q], {});
    SecondStarts(swapped, Some(q), q + 1);
  }
}
