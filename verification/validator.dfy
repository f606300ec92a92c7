/** What a valid configuration is, stated without counting. */
module Validator {
  import opened Wrappers
  import opened Text
  import opened Sites
  import opened Store

  datatype ConfigError =
    | GlobalPortVariable
    | LetsEncryptNeedsTermination(host: string)
    | LetsEncryptWildcard(host: string)
    | EnvPortMismatch(host: string)
    | DuplicateHostNames(names: set<string>)
    | DuplicatePorts(ports: set<Port>)

  datatype Config = Config(
    envVars: seq<EnvVar>,
    dirs: seq<DirServer>,
    remotes: seq<RemoteSite>,
    hosted: seq<HostedSite>)

  function DirNames(dirs: seq<DirServer>): seq<string> {
    seq(|dirs|, i requires 0 <= i < |dirs| => dirs[i].hostName)
  }

  function RemoteNames(remotes: seq<RemoteSite>): seq<string> {
    seq(|remotes|, i requires 0 <= i < |remotes| => remotes[i].hostName)
  }

  function HostedNames(hosted: seq<HostedSite>): seq<string> {
    seq(|hosted|, i requires 0 <= i < |hosted| => hosted[i].hostName)
  }

  /** All host names, in the order they are visited. */
  function AllNames(c: Config): seq<string> {
    DirNames(c.dirs) + RemoteNames(c.remotes) + HostedNames(c.hosted)
  }

  function FixedPorts(hosted: seq<HostedSite>): seq<Port> {
    if hosted == [] then []
    else
      var s := hosted[|hosted| - 1];
      FixedPorts(hosted[..|hosted| - 1]) + (if s.port.Some? then [s.port.value] else [])
  }

  predicate LetsEncryptOk(lets: Option<bool>, terminate: Option<bool>, wildcard: Option<bool>) {
    lets == Some(true) ==> terminate == Some(true) && wildcard != Some(true)
  }

  /** A PORT variable that holds a number holds the fixed port. */
  predicate EnvAgrees(s: HostedSite) {
    s.port.Some? ==>
      forall e :: e in s.envVars && NamesPort(e) && ParsePort(e.value).Some? ==> ParsePort(e.value) == s.port
  }

  predicate RemoteOk(s: RemoteSite) {
    LetsEncryptOk(s.enableLetsEncrypt, s.terminateTls, s.captureSubdomains)
  }

  predicate HostedOk(s: HostedSite) {
    LetsEncryptOk(s.enableLetsEncrypt, s.terminateTls, s.captureSubdomains) && EnvAgrees(s)
  }

  /** No two sites fix the same port. */
  ghost predicate PortsDiffer(hosted: seq<HostedSite>) {
    forall i, j :: 0 <= i < j < |hosted| && hosted[i].port.Some? ==> hosted[i].port != hosted[j].port
  }

  ghost predicate Valid(c: Config) {
    && (forall e :: e in c.envVars ==> !NamesPort(e))
    && Distinct(AllNames(c))
    && PortsDiffer(c.hosted)
    && (forall s :: s in c.remotes ==> RemoteOk(s))
    && (forall s :: s in c.hosted ==> HostedOk(s))
  }

  ghost predicate Repeated<T>(xs: seq<T>, x: T) {
    exists i, j :: 0 <= i < j < |xs| && xs[i] == xs[j] == x
  }

  predicate LetsEncryptFault(host: string, lets: Option<bool>, terminate: Option<bool>, wildcard: Option<bool>, e: ConfigError) {
    lets == Some(true) &&
    ((e == LetsEncryptNeedsTermination(host) && terminate != Some(true)) ||
     (e == LetsEncryptWildcard(host) && wildcard == Some(true)))
  }

  predicate RemoteFault(s: RemoteSite, e: ConfigError) {
    LetsEncryptFault(s.hostName, s.enableLetsEncrypt, s.terminateTls, s.captureSubdomains, e)
  }

  predicate HostedFault(s: HostedSite, e: ConfigError) {
    LetsEncryptFault(s.hostName, s.enableLetsEncrypt, s.terminateTls, s.captureSubdomains, e) ||
    (e == EnvPortMismatch(s.hostName) && !EnvAgrees(s))
  }

  /** The reported error is really present, and duplicates are listed exactly. */
  ghost predicate Justified(c: Config, e: ConfigError) {
    match e
    case GlobalPortVariable => exists v :: v in c.envVars && NamesPort(v)
    case DuplicateHostNames(names) => names != {} && forall n :: n in names <==> Repeated(AllNames(c), n)
    case DuplicatePorts(ports) => ports != {} && forall p :: p in ports <==> Repeated(FixedPorts(c.hosted), p)
    case _ => (exists s :: s in c.remotes && RemoteFault(s, e)) || (exists s :: s in c.hosted && HostedFault(s, e))
  }

  ghost predicate Apart<T>(xs: seq<T>, ys: seq<T>) {
    forall i, j :: 0 <= i < |xs| && 0 <= j < |ys| ==> xs[i] != ys[j]
  }

  lemma DistinctConcat<T>(xs: seq<T>, ys: seq<T>)
    ensures Distinct(xs + ys) <==> Distinct(xs) && Distinct(ys) && Apart(xs, ys)
  {
    var all := xs + ys;
    if Distinct(all) {
      forall i, j | 0 <= i < j < |xs| ensures xs[i] != xs[j] {
        assert all[i] != all[j];
      }
      forall i, j | 0 <= i < j < |ys| ensures ys[i] != ys[j] {
        assert all[|xs| + i] != all[|xs| + j];
      }
      forall i, j | 0 <= i < |xs| && 0 <= j < |ys| ensures xs[i] != ys[j] {
        assert all[i] != all[|xs| + j];
      }
    }
  }

  lemma ApartConcat<T>(xs: seq<T>, ys: seq<T>, zs: seq<T>)
    ensures Apart(xs + ys, zs) <==> Apart(xs, zs) && Apart(ys, zs)
  {
    var all := xs + ys;
    if Apart(all, zs) {
      forall i, j | 0 <= i < |xs| && 0 <= j < |zs| ensures xs[i] != zs[j] {
        assert all[i] != zs[j];
      }
      forall i, j | 0 <= i < |ys| && 0 <= j < |zs| ensures ys[i] != zs[j] {
        assert all[|xs| + i] != zs[j];
      }
    }
  }

  /** Names are distinct when they are distinct in each of the three lists and no name
      occurs in two of them. */
  lemma NamesDistinctExactly(c: Config)
    ensures Distinct(AllNames(c)) <==>
      && (forall i, j :: 0 <= i < j < |c.dirs| ==> c.dirs[i].hostName != c.dirs[j].hostName)
      && (forall i, j :: 0 <= i < j < |c.remotes| ==> c.remotes[i].hostName != c.remotes[j].hostName)
      && (forall i, j :: 0 <= i < j < |c.hosted| ==> c.hosted[i].hostName != c.hosted[j].hostName)
      && (forall i, j :: 0 <= i < |c.dirs| && 0 <= j < |c.remotes| ==> c.dirs[i].hostName != c.remotes[j].hostName)
      && (forall i, j :: 0 <= i < |c.dirs| && 0 <= j < |c.hosted| ==> c.dirs[i].hostName != c.hosted[j].hostName)
      && (forall i, j :: 0 <= i < |c.remotes| && 0 <= j < |c.hosted| ==> c.remotes[i].hostName != c.hosted[j].hostName)
  {
    var d, r, h := DirNames(c.dirs), RemoteNames(c.remotes), HostedNames(c.hosted);
    DistinctConcat(d, r);
    DistinctConcat(d + r, h);
    ApartConcat(d, r, h);
    NamesAt(c);
  }

  lemma NamesAt(c: Config)
    ensures var d, r, h := DirNames(c.dirs), RemoteNames(c.remotes), HostedNames(c.hosted);
            && |d| == |c.dirs| && |r| == |c.remotes| && |h| == |c.hosted|
            && (forall i :: 0 <= i < |d| ==> d[i] == c.dirs[i].hostName)
            && (forall i :: 0 <= i < |r| ==> r[i] == c.remotes[i].hostName)
            && (forall i :: 0 <= i < |h| ==> h[i] == c.hosted[i].hostName)
  {
  }

  // ---- The checks on single sites ----------------------------------------------------

  function LetsEncryptError(host: string, lets: Option<bool>, terminate: Option<bool>, wildcard: Option<bool>): Option<ConfigError> {
    if !Flag(lets) then None
    else if !Flag(terminate) then Some(LetsEncryptNeedsTermination(host))
    else if Flag(wildcard) then Some(LetsEncryptWildcard(host))
    else None
  }

  function RemoteError(s: RemoteSite): (e: Option<ConfigError>)
    ensures e.None? <==> RemoteOk(s)
    ensures e.Some? ==> RemoteFault(s, e.value)
  {
    LetsEncryptError(s.hostName, s.enableLetsEncrypt, s.terminateTls, s.captureSubdomains)
  }

  function HostedError(s: HostedSite): (e: Option<ConfigError>)
    ensures e.None? <==> HostedOk(s)
    ensures e.Some? ==> HostedFault(s, e.value)
  {
    var e := LetsEncryptError(s.hostName, s.enableLetsEncrypt, s.terminateTls, s.captureSubdomains);
    if e.Some? then e else if EnvAgrees(s) then None else Some(EnvPortMismatch(s.hostName))
  }

  /** The error of the first site that has one. */
  function FirstError<T>(sites: seq<T>, check: T -> Option<ConfigError>): Option<ConfigError> {
    if sites == [] then None
    else if check(sites[0]).Some? then check(sites[0])
    else FirstError(sites[1..], check)
  }

  lemma {:induction false} FirstErrorExact<T>(sites: seq<T>, check: T -> Option<ConfigError>)
    ensures FirstError(sites, check).None? <==> forall s :: s in sites ==> check(s).None?
    ensures FirstError(sites, check).Some? ==> exists s :: s in sites && check(s) == FirstError(sites, check)
  {
    if sites != [] {
      FirstErrorExact(sites[1..], check);
      assert sites == [sites[0]] + sites[1..];
    }
  }

  // ---- Counting -------------------------------------------------------------------

  /** `entry(x).and_modify(|count| *count += 1).or_insert(1)` */
  function Bump<T(==)>(counts: map<T, nat>, x: T): map<T, nat> {
    counts[x := (if x in counts then counts[x] else 0) + 1]
  }

  /** The counters after visiting all of `seen`. */
  function CountMap<T(==)>(seen: seq<T>): map<T, nat> {
    if seen == [] then map[] else Bump(CountMap(seen[..|seen| - 1]), seen[|seen| - 1])
  }

  lemma CountMapSnoc<T>(seen: seq<T>, x: T)
    ensures CountMap(seen + [x]) == Bump(CountMap(seen), x)
  {
    assert (seen + [x])[..|seen|] == seen;
  }

  lemma MultisetSnoc<T>(xs: seq<T>, x: T, y: T)
    ensures multiset(xs + [x])[y] == multiset(xs)[y] + (if x == y then 1 else 0)
    ensures y in xs <==> multiset(xs)[y] > 0
  {
    assert multiset(xs + [x]) == multiset(xs) + multiset{x};
    assert y in multiset(xs) <==> y in xs;
  }

  lemma {:induction false} CountMapIsMultiset<T>(seen: seq<T>, x: T)
    ensures x in CountMap(seen) <==> x in seen
    ensures x in seen ==> CountMap(seen)[x] == multiset(seen)[x]
  {
    if seen != [] {
      var front, last := seen[..|seen| - 1], seen[|seen| - 1];
      CountMapIsMultiset(front, x);
      assert seen == front + [last];
      MultisetSnoc(front, last, x);
    }
  }

  /** The fixed port of the site, if any, gets its host name added. */
  function WithHost(ports: map<Port, seq<string>>, s: HostedSite): map<Port, seq<string>> {
    match s.port
    case None => ports
    case Some(p) => ports[p := (if p in ports then ports[p] else []) + [s.hostName]]
  }

  /** The hosts collected per fixed port. */
  function PortHosts(hosted: seq<HostedSite>): map<Port, seq<string>> {
    if hosted == [] then map[]
    else WithHost(PortHosts(hosted[..|hosted| - 1]), hosted[|hosted| - 1])
  }

  lemma {:induction false} PortHostsCount(hosted: seq<HostedSite>, p: Port)
    ensures p in PortHosts(hosted) <==> p in FixedPorts(hosted)
    ensures p in PortHosts(hosted) ==> |PortHosts(hosted)[p]| == multiset(FixedPorts(hosted))[p]
  {
    if hosted != [] {
      var front, s := hosted[..|hosted| - 1], hosted[|hosted| - 1];
      PortHostsCount(front, p);
      var ports := FixedPorts(front);
      if s.port.Some? {
        assert FixedPorts(hosted) == ports + [s.port.value];
        MultisetSnoc(ports, s.port.value, p);
      } else {
        assert FixedPorts(hosted) == ports;
      }
    }
  }

  lemma {:induction false} RepeatedIsCountedTwice<T(!new)>(xs: seq<T>, x: T)
    ensures Repeated(xs, x) <==> multiset(xs)[x] > 1
  {
    if xs != [] {
      var front, last := xs[..|xs| - 1], xs[|xs| - 1];
      RepeatedIsCountedTwice(front, x);
      assert xs == front + [last];
      assert x in multiset(front) <==> x in front;
      if Repeated(front, x) {
        var i, j :| 0 <= i < j < |front| && front[i] == front[j] == x;
        assert xs[i] == xs[j] == x;
      }
      if last == x && x in front {
        var i :| 0 <= i < |front| && front[i] == x;
        assert xs[i] == xs[|xs| - 1] == x;
      }
    }
  }

  lemma DistinctMeansNoRepeat<T(!new)>(xs: seq<T>)
    ensures Distinct(xs) <==> forall x :: !Repeated(xs, x)
  {
    if !Distinct(xs) {
      var i, j :| 0 <= i < j < |xs| && xs[i] == xs[j];
      assert Repeated(xs, xs[i]);
    }
  }

  /** The names counted more than once are the repeated ones; there are none
      exactly when the names are pairwise distinct. */
  lemma CountsShowDistinct(names: seq<string>)
    ensures var repeated := set n | n in CountMap(names) && CountMap(names)[n] > 1;
            (forall n :: n in repeated <==> Repeated(names, n)) && (repeated == {} <==> Distinct(names))
  {
    var repeated := set n | n in CountMap(names) && CountMap(names)[n] > 1;
    forall n ensures n in repeated <==> Repeated(names, n) {
      CountMapIsMultiset(names, n);
      RepeatedIsCountedTwice(names, n);
    }
    DistinctMeansNoRepeat(names);
    assert repeated == {} <==> forall n :: n !in repeated;
  }

  lemma PortHostsShowDistinct(hosted: seq<HostedSite>)
    ensures var repeated := set p | p in PortHosts(hosted) && |PortHosts(hosted)[p]| > 1;
            (forall p :: p in repeated <==> Repeated(FixedPorts(hosted), p)) && (repeated == {} <==> PortsDiffer(hosted))
  {
    var repeated := set p | p in PortHosts(hosted) && |PortHosts(hosted)[p]| > 1;
    forall p ensures p in repeated <==> Repeated(FixedPorts(hosted), p) {
      PortHostsCount(hosted, p);
      RepeatedIsCountedTwice(FixedPorts(hosted), p);
    }
    DistinctMeansNoRepeat(FixedPorts(hosted));
    FixedPortsDistinct(hosted);
    assert repeated == {} <==> forall p :: p !in repeated;
  }

  lemma {:induction false} FixedPortsMember(hosted: seq<HostedSite>, p: Port)
    ensures p in FixedPorts(hosted) <==> exists s :: s in hosted && s.port == Some(p)
  {
    if hosted != [] {
      FixedPortsMember(hosted[..|hosted| - 1], p);
      assert hosted == hosted[..|hosted| - 1] + [hosted[|hosted| - 1]];
    }
  }

  lemma PortsDifferSnoc(front: seq<HostedSite>, s: HostedSite)
    ensures PortsDiffer(front + [s]) <==>
            PortsDiffer(front) && (s.port.Some? ==> forall t :: t in front ==> t.port != s.port)
  {
    var all := front + [s];
    if PortsDiffer(all) {
      forall i, j | 0 <= i < j < |front| && front[i].port.Some? ensures front[i].port != front[j].port {
        assert all[i].port != all[j].port;
      }
      forall i | 0 <= i < |front| && s.port.Some? ensures front[i].port != s.port {
        assert all[i].port.Some? ==> all[i].port != all[|front|].port;
      }
    }
  }

  lemma SnocDistinct<T>(xs: seq<T>, x: T)
    ensures Distinct(xs + [x]) <==> Distinct(xs) && x !in xs
  {
    var ys := xs + [x];
    if Distinct(ys) {
      forall i, j | 0 <= i < j < |xs| ensures xs[i] != xs[j] {
        assert ys[i] != ys[j];
      }
      forall i | 0 <= i < |xs| ensures xs[i] != x {
        assert ys[i] != ys[|xs|];
      }
    }
  }

  /** The ports listed are distinct exactly when no two sites fix the same port. */
  lemma {:induction false} FixedPortsDistinct(hosted: seq<HostedSite>)
    ensures Distinct(FixedPorts(hosted)) <==> PortsDiffer(hosted)
  {
    if hosted != [] {
      var front, s := hosted[..|hosted| - 1], hosted[|hosted| - 1];
      FixedPortsDistinct(front);
      assert hosted == front + [s];
      PortsDifferSnoc(front, s);
      if s.port.Some? {
        SnocDistinct(FixedPorts(front), s.port.value);
        FixedPortsMember(front, s.port.value);
        assert s.port == Some(s.port.value);
      } else {
        assert FixedPorts(front) + [] == FixedPorts(front);
      }
    }
  }
}
