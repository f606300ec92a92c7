/** Site lookup: host name filtering, the three overriding scans, and the cache
    in front of them. */
module SiteLookup {
  import opened Runs
  import opened Wrappers
  import opened Text
  import opened Sites
  import opened Configuration
  import opened Allocator

  // ---- Host names -----------------------------------------------------------------

  function BeforeColon(s: string): string {
    if s == [] || s[0] == ':' then [] else [s[0]] + BeforeColon(s[1..])
  }

  function TrimDots(s: string): string {
    if s != [] && s[|s| - 1] == '.' then TrimDots(s[..|s| - 1]) else s
  }

  function GetSubdomain(requested: string, backend: string): Option<string> {
    var start := |requested| - |backend|;
    if requested == backend || start < 0 || Upper(requested[start..]) != Upper(backend) then None
    else if start == 0 || requested[start - 1] == '.' then Some(TrimDots(requested[..start]))
    else None
  }

  /** `Some(None)` for the name itself, `Some(Some(s))` for its subdomain `s`. */
  function Filter(req: string, target: string, allowSubdomains: bool): Option<Option<string>> {
    var name := BeforeColon(req);
    if EqIgnoreCase(target, name) then Some(None)
    else if allowSubdomains then
      match GetSubdomain(name, target)
      case Some(s) => Some(Some(s))
      case None => None
    else None
  }

  function Dots(n: nat): string {
    if n == 0 then [] else Dots(n - 1) + ['.']
  }

  /** `name` is `sub`, then `n` dots, then a spelling of `target`. */
  ghost predicate SplitsAs(name: string, sub: string, n: nat, target: string) {
    |sub| + n + |target| == |name| && name[..|sub| + n] == sub + Dots(n) &&
    EqIgnoreCase(name[|sub| + n..], target)
  }

  lemma {:induction false} DotsLength(n: nat)
    ensures |Dots(n)| == n && forall i :: 0 <= i < n ==> Dots(n)[i] == '.'
  {
    if n > 0 { DotsLength(n - 1); }
  }

  lemma {:induction false} TrimDotsSplits(s: string) returns (n: nat)
    ensures s == TrimDots(s) + Dots(n)
    ensures TrimDots(s) != [] ==> TrimDots(s)[|TrimDots(s)| - 1] != '.'
    ensures s != [] && s[|s| - 1] == '.' ==> n > 0
  {
    if s != [] && s[|s| - 1] == '.' {
      var k := TrimDotsSplits(s[..|s| - 1]);
      n := k + 1;
      assert s == s[..|s| - 1] + ['.'];
    } else {
      n := 0;
    }
  }

  lemma {:induction false} TrimDotsOf(sub: string, n: nat)
    requires sub != [] ==> sub[|sub| - 1] != '.'
    ensures TrimDots(sub + Dots(n)) == sub
  {
    if n == 0 {
      assert sub + Dots(0) == sub;
    } else {
      assert (sub + Dots(n))[..|sub + Dots(n)| - 1] == sub + Dots(n - 1);
      TrimDotsOf(sub, n - 1);
    }
  }

  /** A subdomain match splits the name. */
  lemma SubdomainSplits(name: string, target: string) returns (n: nat)
    requires GetSubdomain(name, target).Some?
    ensures var sub := GetSubdomain(name, target).value;
            SplitsAs(name, sub, n, target) && (sub != [] ==> sub[|sub| - 1] != '.')
    ensures name != target && (!EqIgnoreCase(target, name) ==> n > 0)
  {
    var start := |name| - |target|;
    n := TrimDotsSplits(name[..start]);
    DotsLength(n);
    if start == 0 { assert name[0..] == name; }
  }

  /** A name that splits with a dot in between is a subdomain match. */
  lemma SplitIsSubdomain(name: string, sub: string, n: nat, target: string)
    requires n > 0 && SplitsAs(name, sub, n, target) && (sub != [] ==> sub[|sub| - 1] != '.')
    ensures GetSubdomain(name, target) == Some(sub)
  {
    var start := |name| - |target|;
    DotsLength(n);
    TrimDotsOf(sub, n);
    assert start == |sub| + n && |name| > |target|;
    assert name[..start] == sub + Dots(n);
    assert name[start - 1] == name[..start][start - 1] == Dots(n)[n - 1] == '.';
  }

  /** A request for host `h`, with a port or without one. */
  predicate RequestFor(req: string, h: string) {
    ':' !in h && (req == h || (h + ":" <= req))
  }

  lemma {:induction false} BeforeColonIsHost(req: string, h: string)
    requires RequestFor(req, h)
    ensures BeforeColon(req) == h
    decreases |h|
  {
    if h == [] {
      assert req != [] ==> req[0] == (h + ":")[0];
    } else {
      assert req[0] == h[0];
      if req != h { assert h[1..] + ":" == (h + ":")[1..] <= req[1..]; }
      BeforeColonIsHost(req[1..], h[1..]);
    }
  }

  /** Every request is for exactly one host. */
  lemma RequestHost(req: string)
    ensures forall h :: RequestFor(req, h) <==> h == BeforeColon(req)
  {
    forall h | RequestFor(req, h) ensures h == BeforeColon(req) {
      BeforeColonIsHost(req, h);
    }
    HostOf(req);
  }

  lemma {:induction false} HostOf(req: string)
    ensures RequestFor(req, BeforeColon(req))
  {
    if req != [] && req[0] != ':' {
      HostOf(req[1..]);
      var h := BeforeColon(req[1..]);
      assert BeforeColon(req) == [req[0]] + h && req == [req[0]] + req[1..];
      if h + ":" <= req[1..] { assert ([req[0]] + h) + ":" == [req[0]] + (h + ":") <= req; }
    } else if req != [] {
      assert [] + ":" == [req[0]] <= req;
    }
  }

  /** The port of a request is ignored. */
  lemma PortIsIgnored(h: string, rest: string, target: string, allow: bool)
    requires ':' !in h
    ensures Filter(h + ":" + rest, target, allow) == Filter(h, target, allow)
  {
    assert h + ":" <= h + ":" + rest;
    BeforeColonIsHost(h + ":" + rest, h);
    BeforeColonIsHost(h, h);
  }

  /** A request for a host matches a target exactly when the host is the target in any
      letter case, or a proper subdomain of it, with the separating dots removed. */
  lemma FilterMeaning(req: string, h: string, target: string, allow: bool, sub: string)
    requires RequestFor(req, h)
    ensures Filter(req, target, allow) == Some(None) <==> EqIgnoreCase(target, h)
    ensures Filter(req, target, allow) == Some(Some(sub)) <==>
      && allow && !EqIgnoreCase(target, h)
      && (sub != [] ==> sub[|sub| - 1] != '.')
      && exists n: nat :: n > 0 && SplitsAs(h, sub, n, target)
  {
    BeforeColonIsHost(req, h);
    if allow && !EqIgnoreCase(target, h) {
      if GetSubdomain(h, target).Some? {
        var n := SubdomainSplits(h, target);
      }
      forall n: nat | n > 0 && SplitsAs(h, sub, n, target) && (sub != [] ==> sub[|sub| - 1] != '.')
        ensures GetSubdomain(h, target) == Some(sub)
      {
        SplitIsSubdomain(h, sub, n, target);
      }
    }
  }

  lemma {:induction false} BeforeColonPrefix(s: string)
    ensures BeforeColon(s) <= s
  {
    if s != [] && s[0] != ':' {
      BeforeColonPrefix(s[1..]);
    }
  }

  /** The uppercase substring test in front of the remote scan rejects no match. */
  lemma PreFilterLosesNothing(req: string, target: string, allow: bool)
    requires Filter(req, target, allow).Some?
    ensures Contains(Upper(req), Upper(target))
  {
    var name := BeforeColon(req);
    BeforeColonPrefix(req);
    var start := |name| - |target|;
    if EqIgnoreCase(target, name) {
      assert Upper(req)[0..0 + |target|] == Upper(target);
      assert OccursAt(Upper(req), Upper(target), 0);
    } else {
      assert Upper(req)[start..start + |target|] == Upper(name[start..]);
      assert OccursAt(Upper(req), Upper(target), start);
    }
  }

  // ---- Targets -----------------------------------------------------------------------

  datatype Target = Target(
    procId: Option<ProcId>,
    terminateTls: bool,
    hosted: Option<HostedSite>,
    remote: Option<RemoteSite>,
    captureSubdomains: bool,
    forwardWildcard: bool,
    backends: seq<Backend>,
    hostName: string,
    isHosted: bool,
    subDomain: Option<string>)

  function DockerTarget(c: Container, sub: Option<string>): Target {
    Target(None, false, None, Some(c.target), true, true, c.target.backends, c.hostName, false, sub)
  }

  function HostedTarget(s: HostedSite, sub: Option<string>, loopback: bool): Target {
    var address := if loopback then "127.0.0.1" else "localhost";
    Target(Some(s.id), Flag(s.terminateTls), Some(s), None, Flag(s.captureSubdomains), Flag(s.forwardSubdomains),
           [Backend(address, ActivePort(s), s.https, s.hints)], s.hostName, true, sub)
  }

  function RemoteTarget(s: RemoteSite, sub: Option<string>): Target {
    Target(None, Flag(s.terminateTls), None, Some(s), Flag(s.captureSubdomains), Flag(s.forwardSubdomains),
           s.backends, s.hostName, false, sub)
  }

  function ActivePort(s: HostedSite): Port {
    if s.activePort.Some? then s.activePort.value else 0
  }

  // ---- First matches -----------------------------------------------------------------

  function DockerMatch(c: Container, req: string): Option<Option<string>> {
    Filter(req, c.hostName, true)
  }

  function HostedMatch(s: HostedSite, req: string): Option<Option<string>> {
    Filter(req, s.hostName, Flag(s.captureSubdomains))
  }

  function RemoteMatch(s: RemoteSite, req: string): Option<Option<string>> {
    Filter(req, s.hostName, Flag(s.captureSubdomains))
  }

  predicate Serves(s: HostedSite, req: string) {
    HostedMatch(s, req).Some? && ActivePort(s) > 0
  }

  function DockerIndex(docker: seq<Container>, req: string): (i: nat)
    ensures i <= |docker| && (i < |docker| ==> DockerMatch(docker[i], req).Some?)
    ensures forall k :: 0 <= k < i ==> DockerMatch(docker[k], req).None?
  {
    if docker == [] || DockerMatch(docker[0], req).Some? then 0 else 1 + DockerIndex(docker[1..], req)
  }

  function HostedIndex(hosted: seq<HostedSite>, req: string): (i: nat)
    ensures i <= |hosted| && (i < |hosted| ==> Serves(hosted[i], req))
    ensures forall k :: 0 <= k < i ==> !Serves(hosted[k], req)
  {
    if hosted == [] || Serves(hosted[0], req) then 0 else 1 + HostedIndex(hosted[1..], req)
  }

  function RemoteIndex(remotes: seq<RemoteSite>, req: string): (i: nat)
    ensures i <= |remotes| && (i < |remotes| ==> RemoteMatch(remotes[i], req).Some?)
    ensures forall k :: 0 <= k < i ==> RemoteMatch(remotes[k], req).None?
  {
    if remotes == [] || RemoteMatch(remotes[0], req).Some? then 0 else 1 + RemoteIndex(remotes[1..], req)
  }

  /** Everything a lookup reads. */
  datatype Directory = Directory(
    hosted: seq<HostedSite>,
    remotes: seq<RemoteSite>,
    docker: seq<Container>,
    loopback: bool,
    threads: set<ProcId>,
    cache: map<string, Target>)

  function FirstDocker(d: Directory, req: string): Option<Target> {
    var i := DockerIndex(d.docker, req);
    if i < |d.docker| then Some(DockerTarget(d.docker[i], DockerMatch(d.docker[i], req).value)) else None
  }

  function FirstHosted(d: Directory, req: string): Option<Target> {
    var i := HostedIndex(d.hosted, req);
    if i < |d.hosted| then Some(HostedTarget(d.hosted[i], HostedMatch(d.hosted[i], req).value, d.loopback)) else None
  }

  function FirstRemote(d: Directory, req: string): Option<Target> {
    var i := RemoteIndex(d.remotes, req);
    if i < |d.remotes| then Some(RemoteTarget(d.remotes[i], RemoteMatch(d.remotes[i], req).value)) else None
  }

  function OrElse(a: Option<Target>, b: Option<Target>): Option<Target> {
    if a.Some? then a else b
  }

  /** The uncached answer: a remote site, else a running hosted one, else a container. */
  function Scan(d: Directory, req: string): Option<Target> {
    OrElse(FirstRemote(d, req), OrElse(FirstHosted(d, req), FirstDocker(d, req)))
  }

  // ---- What an answer says -------------------------------------------------------------

  /** The answer for a hosted site: the first one in the list that matches and runs,
      reached on the loopback address or by name at its active port. */
  lemma HostedAnswer(d: Directory, req: string, t: Target)
    requires FirstHosted(d, req) == Some(t)
    ensures exists i :: 0 <= i < |d.hosted| && AnswersHosted(d, req, t, i)
  {
    var i := HostedIndex(d.hosted, req);
    assert AnswersHosted(d, req, t, i);
  }

  predicate Running(s: HostedSite) {
    s.activePort.Some? && s.activePort.value > 0
  }

  ghost predicate AnswersHosted(d: Directory, req: string, t: Target, i: nat)
    requires i < |d.hosted|
  {
    var s := d.hosted[i];
    && Running(s) && Filter(req, s.hostName, s.captureSubdomains == Some(true)) == Some(t.subDomain)
    && (forall k :: 0 <= k < i && Running(d.hosted[k]) ==>
          Filter(req, d.hosted[k].hostName, d.hosted[k].captureSubdomains == Some(true)).None?)
    && t.procId == Some(s.id) && t.isHosted && t.hostName == s.hostName && t.hosted == Some(s) && t.remote.None?
    && t.backends == [Backend(if d.loopback then "127.0.0.1" else "localhost", s.activePort.value, s.https, s.hints)]
    && t.terminateTls == (s.terminateTls == Some(true)) && t.captureSubdomains == (s.captureSubdomains == Some(true))
    && t.forwardWildcard == (s.forwardSubdomains == Some(true))
  }

  /** The answer for a remote site: the first one in the list that matches, reached at
      its own back ends. */
  lemma RemoteAnswer(d: Directory, req: string, t: Target)
    requires FirstRemote(d, req) == Some(t)
    ensures exists i :: 0 <= i < |d.remotes| && AnswersRemote(d, req, t, i)
  {
    var i := RemoteIndex(d.remotes, req);
    assert AnswersRemote(d, req, t, i);
  }

  ghost predicate AnswersRemote(d: Directory, req: string, t: Target, i: nat)
    requires i < |d.remotes|
  {
    var s := d.remotes[i];
    && Filter(req, s.hostName, s.captureSubdomains == Some(true)) == Some(t.subDomain)
    && (forall k :: 0 <= k < i ==>
          Filter(req, d.remotes[k].hostName, d.remotes[k].captureSubdomains == Some(true)).None?)
    && t.procId.None? && !t.isHosted && t.hostName == s.hostName && t.remote == Some(s) && t.hosted.None?
    && t.backends == s.backends
    && t.terminateTls == (s.terminateTls == Some(true)) && t.captureSubdomains == (s.captureSubdomains == Some(true))
    && t.forwardWildcard == (s.forwardSubdomains == Some(true))
  }

  /** The answer for a container: the first one listed that matches by name or as a
      subdomain, whatever it is configured for, without terminating TLS. */
  lemma DockerAnswer(d: Directory, req: string, t: Target)
    requires FirstDocker(d, req) == Some(t)
    ensures exists i :: 0 <= i < |d.docker| && AnswersDocker(d, req, t, i)
  {
    var i := DockerIndex(d.docker, req);
    assert AnswersDocker(d, req, t, i);
  }

  ghost predicate AnswersDocker(d: Directory, req: string, t: Target, i: nat)
    requires i < |d.docker|
  {
    var c := d.docker[i];
    && Filter(req, c.hostName, true) == Some(t.subDomain)
    && (forall k :: 0 <= k < i ==> Filter(req, d.docker[k].hostName, true).None?)
    && t.procId.None? && !t.isHosted && t.hostName == c.hostName && t.remote == Some(c.target) && t.hosted.None?
    && t.backends == c.target.backends && !t.terminateTls && t.captureSubdomains && t.forwardWildcard
  }

  /** No answer means that nothing matches and runs. */
  lemma NoAnswer(d: Directory, req: string)
    ensures Scan(d, req).None? <==>
      && (forall s :: s in d.hosted && Running(s) ==> Filter(req, s.hostName, s.captureSubdomains == Some(true)).None?)
      && (forall s :: s in d.remotes ==> Filter(req, s.hostName, s.captureSubdomains == Some(true)).None?)
      && (forall c :: c in d.docker ==> Filter(req, c.hostName, true).None?)
  {
    var h, r, c := HostedIndex(d.hosted, req), RemoteIndex(d.remotes, req), DockerIndex(d.docker, req);
    if h < |d.hosted| { assert d.hosted[h] in d.hosted && Running(d.hosted[h]); }
    if r < |d.remotes| { assert d.remotes[r] in d.remotes; }
    if c < |d.docker| { assert d.docker[c] in d.docker; }
    assert forall s :: Running(s) && HostedMatch(s, req).Some? ==> Serves(s, req);
    assert forall s :: s in d.hosted && Serves(s, req) ==> Running(s) && HostedMatch(s, req).Some?;
  }

  // ---- The cache ----------------------------------------------------------------------

  /** A cached target answers only while its process has a thread entry. */
  predicate Hit(d: Directory, req: string) {
    req in d.cache && d.cache[req].procId.Some? && d.cache[req].procId.value in d.threads
  }

  function Answer(d: Directory, req: string): Option<Target> {
    if Hit(d, req) then Some(d.cache[req]) else Scan(d, req)
  }

  function Remembered(d: Directory, req: string): map<string, Target> {
    if Hit(d, req) || Scan(d, req).None? then d.cache else d.cache[req := Scan(d, req).value]
  }

  function Cached(cache: map<string, Target>, req: string, result: Option<Target>): map<string, Target> {
    if result.Some? then cache[req := result.value] else cache
  }

  lemma ScansIgnoreCache(d: Directory, req: string, cache: map<string, Target>)
    ensures var e := d.(cache := cache);
            FirstDocker(e, req) == FirstDocker(d, req) && FirstHosted(e, req) == FirstHosted(d, req) &&
            FirstRemote(e, req) == FirstRemote(d, req)
  {
  }

  lemma CachedThrice(cache: map<string, Target>, req: string, a: Option<Target>, b: Option<Target>, c: Option<Target>)
    ensures Cached(Cached(Cached(cache, req, a), req, b), req, c) == Cached(cache, req, OrElse(c, OrElse(b, a)))
  {
  }

  class GlobalState {
    const config: ConfigWrapper
    var threads: set<ProcId>
    var cache: map<string, Target>

    constructor (config: ConfigWrapper)
      ensures this.config == config && cache == map[] && threads == {}
    {
      this.config, cache, threads := config, map[], {};
    }

    function View(): Directory
      reads this, config
    {
      Directory(Listed(config.hosted), Listed(config.remotes), config.docker, Flag(config.useLoopback), threads, cache)
    }

    method InvalidateCache()
      modifies this`cache
      ensures cache == map[]
    {
      cache := map[];
    }

    /** One scan of the running containers; a match is put in the cache. */
    method ScanDocker(req: string) returns (result: Option<Target>)
      modifies this`cache
      ensures result == FirstDocker(old(View()), req)
      ensures cache == Cached(old(cache), req, result)
    {
      for i := 0 to |config.docker|
        invariant cache == old(cache)
        invariant forall k :: 0 <= k < i ==> DockerMatch(config.docker[k], req).None?
      {
        var m := DockerMatch(config.docker[i], req);
        if m.Some? {
          var t := DockerTarget(config.docker[i], m.value);
          cache := cache[req := t];
          return Some(t);
        }
      }
      return None;
    }

    /** The scan of the hosted sites: a match that is not running is passed over. */
    method ScanHosted(req: string) returns (result: Option<Target>)
      modifies this`cache
      ensures result == FirstHosted(old(View()), req)
      ensures cache == Cached(old(cache), req, result)
    {
      var loopback := Flag(config.useLoopback);
      var hosted := Listed(config.hosted);
      for i := 0 to |hosted|
        invariant cache == old(cache)
        invariant forall k :: 0 <= k < i ==> !Serves(hosted[k], req)
      {
        var m := HostedMatch(hosted[i], req);
        if m.Some? {
          if ActivePort(hosted[i]) > 0 {
            var t := HostedTarget(hosted[i], m.value, loopback);
            cache := cache[req := t];
            return Some(t);
          }
        }
      }
      return None;
    }

    /** The scan of the remote sites behind the uppercase substring test. */
    method ScanRemotes(req: string) returns (result: Option<Target>)
      modifies this`cache
      ensures result == FirstRemote(old(View()), req)
      ensures cache == Cached(old(cache), req, result)
    {
      var remotes := Listed(config.remotes);
      for i := 0 to |remotes|
        invariant cache == old(cache)
        invariant forall k :: 0 <= k < i ==> RemoteMatch(remotes[k], req).None?
      {
        if RemoteMatch(remotes[i], req).Some? {
          PreFilterLosesNothing(req, remotes[i].hostName, Flag(remotes[i].captureSubdomains));
        }
        if Contains(Upper(req), Upper(remotes[i].hostName)) {
          var m := RemoteMatch(remotes[i], req);
          if m.Some? {
            var t := RemoteTarget(remotes[i], m.value);
            cache := cache[req := t];
            return Some(t);
          }
        }
      }
      return None;
    }

    /** Each scan overrides the result of the one before it. */
    method TryFindSite(req: string) returns (result: Option<Target>)
      modifies this`cache
      ensures result == Answer(old(View()), req)
      ensures cache == Remembered(old(View()), req)
    {
      if req in cache {
        var v := cache[req];
        if v.procId.Some? && v.procId.value in threads {
          return Some(v);
        }
      }
      ghost var before := View();
      var docker := ScanDocker(req);
      ScansIgnoreCache(before, req, cache);
      var hosted := ScanHosted(req);
      ScansIgnoreCache(before, req, cache);
      var remote := ScanRemotes(req);
      CachedThrice(before.cache, req, docker, hosted, remote);
      result := OrElse(remote, OrElse(hosted, docker));
    }
  }

  // ---- Runs ------------------------------------------------------------------------------

  datatype Action =
    | Lookup(req: string)
    | DockerRefresh(docker: seq<Container>)                // no invalidation
    | Reconfigure(hosted: seq<HostedSite>, remotes: seq<RemoteSite>, loopback: bool)  // paired with invalidation
    | Threads(threads: set<ProcId>)
    | Invalidate

  function Next(d: Directory, a: Action): Directory {
    match a
    case Lookup(req) => d.(cache := Remembered(d, req))
    case DockerRefresh(docker) => d.(docker := docker)
    case Reconfigure(hosted, remotes, loopback) =>
      d.(hosted := hosted, remotes := remotes, loopback := loopback, cache := map[])
    case Threads(threads) => d.(threads := threads)
    case Invalidate => d.(cache := map[])
  }

  function Exec(d: Directory, acts: seq<Action>): Directory {
    Run(Next, d, acts)
  }

  /** A cached hosted target is what the configured sites say today, whatever the
      containers are. */
  ghost predicate Coherent(d: Directory) {
    forall req :: req in d.cache && d.cache[req].procId.Some? ==>
      FirstRemote(d, req).None? && FirstHosted(d, req) == Some(d.cache[req])
  }

  lemma CoherentAnswers(d: Directory, req: string)
    requires Coherent(d)
    ensures Answer(d, req) == Scan(d, req)
    ensures Hit(d, req) ==> Answer(d, req).Some? && Answer(d, req).value.isHosted
  {
  }

  lemma LookupStaysCoherent(d: Directory, asked: string)
    requires Coherent(d)
    ensures Coherent(d.(cache := Remembered(d, asked)))
  {
    var e := d.(cache := Remembered(d, asked));
    forall req ensures FirstRemote(e, req) == FirstRemote(d, req) && FirstHosted(e, req) == FirstHosted(d, req) {
    }
    forall req | req in e.cache && e.cache[req].procId.Some?
      ensures FirstRemote(d, req).None? && FirstHosted(d, req) == Some(e.cache[req])
    {
      if req == asked && !Hit(d, req) && Scan(d, req).Some? {
        assert e.cache[req] == Scan(d, req).value;
      } else {
        assert e.cache[req] == d.cache[req];
      }
    }
  }

  lemma RefreshStaysCoherent(d: Directory, docker: seq<Container>, threads: set<ProcId>)
    requires Coherent(d)
    ensures Coherent(d.(docker := docker, threads := threads))
  {
    var e := d.(docker := docker, threads := threads);
    forall req ensures FirstRemote(e, req) == FirstRemote(d, req) && FirstHosted(e, req) == FirstHosted(d, req) {
    }
  }

  lemma StepStaysCoherent(d: Directory, a: Action)
    requires Coherent(d)
    ensures Coherent(Next(d, a))
  {
    match a
    case Lookup(req) => LookupStaysCoherent(d, req);
    case DockerRefresh(docker) => RefreshStaysCoherent(d, docker, d.threads);
    case Threads(threads) => RefreshStaysCoherent(d, d.docker, threads);
    case Reconfigure(_, _, _) =>
    case Invalidate =>
  }

  lemma {:induction false} RunsStayCoherent(d: Directory, acts: seq<Action>)
    requires Coherent(d)
    ensures Coherent(Exec(d, acts))
    decreases |acts|
  {
    if acts != [] {
      StepStaysCoherent(d, acts[0]);
      RunsStayCoherent(Next(d, acts[0]), acts[1..]);
    }
  }

  /** Over every run from an empty cache, the cached lookup answers exactly as the
      uncached scan, hits are hosted targets, and a hosted site beats a container. */
  lemma CachedLookupIsScan(d: Directory, acts: seq<Action>, req: string)
    requires d.cache == map[]
    ensures var e := Exec(d, acts);
            && Answer(e, req) == Scan(e, req)
            && (Hit(e, req) ==> Answer(e, req).value.isHosted)
            && (FirstHosted(e, req).Some? ==> Answer(e, req) == OrElse(FirstRemote(e, req), FirstHosted(e, req)))
  {
    RunsStayCoherent(d, acts);
    CoherentAnswers(Exec(d, acts), req);
  }

  /** An answer is remembered, and given again for the same name while its process has
      a thread, even after the site it came from is gone. */
  lemma AnswersAreRemembered(d: Directory, req: string, t: Target, hosted: seq<HostedSite>, docker: seq<Container>)
    requires Answer(d, req) == Some(t) && t.procId.Some? && t.procId.value in d.threads
    ensures var e := Next(Next(d, Lookup(req)), DockerRefresh(docker)).(hosted := hosted);
            Hit(e, req) && Answer(e, req) == Some(t) && !Hit(Next(e, Threads({})), req) && !Hit(Next(e, Invalidate), req)
  {
  }

  /** A new configuration is obeyed at once, whatever was remembered before. */
  lemma ReconfigurationTakesEffect(d: Directory, hosted: seq<HostedSite>, remotes: seq<RemoteSite>, loopback: bool, req: string)
    ensures Answer(Next(d, Reconfigure(hosted, remotes, loopback)), req)
         == Scan(d.(hosted := hosted, remotes := remotes, loopback := loopback), req)
  {
    ScansIgnoreCache(d.(hosted := hosted, remotes := remotes, loopback := loopback), req, map[]);
  }

  /** Without a thread there is no hit: the answer is the scan's. */
  lemma DeadThreadMisses(d: Directory, req: string)
    requires req in d.cache ==> d.cache[req].procId.None? || d.cache[req].procId.value !in d.threads
    ensures Answer(d, req) == Scan(d, req)
    ensures Next(d, Lookup(req)).cache == if Scan(d, req).Some? then d.cache[req := Scan(d, req).value] else d.cache
  {
  }

  // ---- A port written without invalidation --------------------------------------------------

  /** What the port chooser does to a record while lookups go on. */
  function WithActivePort(d: Directory, j: nat, p: Option<Port>): Directory
    requires j < |d.hosted|
  {
    d.(hosted := d.hosted[j := d.hosted[j].(activePort := p)])
  }

  /** An answer goes stale exactly when the name is answered from the cache, the
      rewritten site matches it and is not listed after the cached one, and the
      write changes the cached port or puts an earlier site into service. */
  lemma StaleExactly(d: Directory, j: nat, p: Option<Port>, req: string)
    requires Coherent(d) && DistinctIds(d.hosted) && j < |d.hosted|
    ensures var e := WithActivePort(d, j, p);
            var k := HostedIndex(d.hosted, req);
            Answer(e, req) != Scan(e, req) <==>
              && Hit(d, req) && HostedMatch(d.hosted[j], req).Some?
              && ((j == k && p != d.hosted[j].activePort) || (j < k && p.Some? && p.value > 0))
  {
    var e := WithActivePort(d, j, p);
    var k := HostedIndex(d.hosted, req);
    assert FirstRemote(e, req) == FirstRemote(d, req);
    if Hit(d, req) {
      var k' := HostedIndex(e.hosted, req);
      assert k < |d.hosted| && d.cache[req] == HostedTarget(d.hosted[k], HostedMatch(d.hosted[k], req).value, d.loopback);
      assert forall i :: 0 <= i < |d.hosted| && i != j ==> Serves(e.hosted[i], req) == Serves(d.hosted[i], req);
      if j == k {
        assert Serves(e.hosted[k], req) ==> k' == k;
        assert e.hosted[k] == d.hosted[k] <==> p == d.hosted[k].activePort;
        if k' == k {
          assert FirstHosted(e, req).value.hosted == Some(e.hosted[k]);
        } else if k' < |e.hosted| {
          assert FirstHosted(e, req).value.procId == Some(e.hosted[k'].id) && e.hosted[k'].id != d.hosted[k].id;
        }
      } else if j < k {
        assert Serves(e.hosted[j], req) ==> k' == j;
        assert !Serves(e.hosted[j], req) ==> k' == k;
      } else {
        assert k' == k;
      }
    } else {
      assert !Hit(e, req);
    }
  }

  /** It does happen: the chooser moves a cached site to another port. */
  lemma PortMoveGoesStale()
    ensures var s := PlainSite("a").(activePort := Some(4200));
            var d := Exec(Directory([s], [], [], false, {"a"}, map[]), [Lookup("a")]);
            var e := WithActivePort(d, 0, Some(4201));
            Answer(e, "a") != Scan(e, "a")
  {
    var s := PlainSite("a").(activePort := Some(4200));
    var d0 := Directory([s], [], [], false, {"a"}, map[]);
    assert BeforeColon("a") == "a" by { assert "a"[1..] == ""; }
    assert Serves(s, "a") && HostedIndex([s], "a") == 0;
    var acts := [Lookup("a")];
    assert acts[1..] == [] && Exec(d0, acts) == Next(d0, acts[0]);
    RunsStayCoherent(d0, acts);
    StaleExactly(Exec(d0, acts), 0, Some(4201), "a");
  }
}
