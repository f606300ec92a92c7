/** The configuration object shared by all tasks: vectors as they are written to
    disk, maps kept beside them, the validator and the port chooser. */
module Configuration {
  import opened Wrappers
  import opened Text
  import opened Sites
  import opened Store
  import opened Validator
  import opened Allocator

  function HostedName(s: HostedSite): string { s.hostName }
  function RemoteName(s: RemoteSite): string { s.hostName }
  function DirName(s: DirServer): string { s.hostName }

  /** Inserts the records one by one, so that the last one of a name stays. */
  method InsertAll<T>(xs: seq<T>, name: T -> string) returns (m: map<string, T>)
    ensures m == AsMap(xs, name)
  {
    m := map[];
    for i := 0 to |xs|
      invariant m == AsMap(xs[..i], name)
    {
      assert xs[..i + 1] == xs[..i] + [xs[i]];
      AsMapSnoc(xs[..i], xs[i], name);
      m := m[name(xs[i]) := xs[i]];
    }
    assert xs[..|xs|] == xs;
  }

  /** Collects the values in whatever order the map yields its entries. */
  method Collect<T>(m: map<string, T>) returns (ys: seq<T>)
    ensures Enumerates(ys, m)
  {
    ys := [];
    ghost var keys := [];
    var rest := m.Keys;
    while rest != {}
      invariant rest <= m.Keys
      invariant |ys| == |keys| && Distinct(keys)
      invariant forall n :: n in keys <==> n in m && n !in rest
      invariant forall i :: 0 <= i < |keys| ==> keys[i] in m && ys[i] == m[keys[i]]
      decreases rest
    {
      var n :| n in rest;
      SnocDistinct(keys, n);
      ys, keys, rest := ys + [m[n]], keys + [n], rest - {n};
    }
    assert EnumeratedBy(ys, m, keys);
  }

  lemma PersistedReloads<T>(m: map<string, T>, name: T -> string, vector: Option<seq<T>>)
    requires KeyedByName(m, name) && exists ys :: Enumerates(ys, m) && vector == Normalised(ys)
    ensures AsMap(Listed(vector), name) == m && UniqueNames(Listed(vector), name) && vector != Some([])
  {
    var ys :| Enumerates(ys, m) && vector == Normalised(ys);
    PersistThenReload(m, name, ys);
    assert Listed(vector) == ys;
  }

  lemma EnumeratesNothing<T>(ys: seq<T>, m: map<string, T>)
    requires Enumerates(ys, m)
    ensures ys == [] <==> m == map[]
  {
    var keys :| EnumeratedBy(ys, m, keys);
    assert ys != [] ==> keys[0] in keys && keys[0] in m;
    assert forall n :: n in m ==> n in keys;
  }

  lemma ReloadedPersists<T>(loaded: Option<seq<T>>, name: T -> string, vector: Option<seq<T>>)
    requires exists ys :: Enumerates(ys, AsMap(Listed(loaded), name)) && vector == Normalised(ys)
    ensures multiset(Listed(vector)) == multiset(Listed(loaded)) <==> UniqueNames(Listed(loaded), name)
    ensures vector.None? <==> Listed(loaded) == []
  {
    var xs, m := Listed(loaded), AsMap(Listed(loaded), name);
    var ys :| Enumerates(ys, m) && vector == Normalised(ys);
    ReloadThenPersist(xs, name, ys);
    assert Listed(vector) == ys;
    EnumeratesNothing(ys, m);
    assert xs != [] ==> name(xs[|xs| - 1]) in m;
  }

  class ConfigWrapper {
    var envVars: seq<EnvVar>
    var portRangeStart: Port
    var hosted: Option<seq<HostedSite>>
    var remotes: Option<seq<RemoteSite>>
    var dirs: Option<seq<DirServer>>
    var useLoopback: Option<bool>
    var docker: seq<Container>
    var hostedProcesses: map<string, HostedSite>
    var remoteSites: map<string, RemoteSite>

    function Snapshot(): Config
      reads this
    {
      Config(envVars, Listed(dirs), Listed(remotes), Listed(hosted))
    }

    /** Both maps agree with the vectors. */
    ghost predicate MapsLoaded()
      reads this
    {
      hostedProcesses == AsMap(Listed(hosted), HostedName) && remoteSites == AsMap(Listed(remotes), RemoteName)
    }

    constructor (envVars: seq<EnvVar>, start: Port, hosted: Option<seq<HostedSite>>, remotes: Option<seq<RemoteSite>>,
                 dirs: Option<seq<DirServer>>, useLoopback: Option<bool>)
      ensures this.envVars == envVars && portRangeStart == start && this.useLoopback == useLoopback
      ensures this.hosted == hosted && this.remotes == remotes && this.dirs == dirs
      ensures MapsLoaded() && docker == []
    {
      this.envVars, portRangeStart, this.useLoopback, docker := envVars, start, useLoopback, [];
      this.hosted, this.remotes, this.dirs := hosted, remotes, dirs;
      var remoteMap := InsertAll(Listed(remotes), RemoteName);
      var hostedMap := InsertAll(Listed(hosted), HostedName);
      remoteSites, hostedProcesses := remoteMap, hostedMap;
    }

    /** Whatever the maps held before, they now hold the last record of each name. */
    method ReloadDashmaps()
      modifies this`hostedProcesses, this`remoteSites
      ensures MapsLoaded()
    {
      remoteSites := InsertAll(Listed(remotes), RemoteName);
      hostedProcesses := InsertAll(Listed(hosted), HostedName);
    }

    /** The vectors now enumerate the maps; an empty map becomes an absent vector. */
    method Persist()
      modifies this`hosted, this`remotes
      ensures exists rs :: Enumerates(rs, remoteSites) && remotes == Normalised(rs)
      ensures exists hs :: Enumerates(hs, hostedProcesses) && hosted == Normalised(hs)
    {
      var rs := Collect(remoteSites);
      remotes := Normalised(rs);
      var hs := Collect(hostedProcesses);
      hosted := Normalised(hs);
    }

    /** Persisting and reloading gives maps keyed by host name back, whatever vectors
        the wrapper had. */
    method PersistAndReload()
      requires KeyedByName(hostedProcesses, HostedName) && KeyedByName(remoteSites, RemoteName)
      modifies this`hosted, this`remotes, this`hostedProcesses, this`remoteSites
      ensures hostedProcesses == old(hostedProcesses) && remoteSites == old(remoteSites) && MapsLoaded()
      ensures UniqueNames(Listed(hosted), HostedName) && UniqueNames(Listed(remotes), RemoteName)
      ensures hosted != Some([]) && remotes != Some([])
    {
      Persist();
      PersistedReloads(hostedProcesses, HostedName, hosted);
      PersistedReloads(remoteSites, RemoteName, remotes);
      ReloadDashmaps();
    }

    /** Reloading and persisting permutes each vector exactly when it has no repeated
        host name, and leaves one absent exactly when nothing was listed. */
    method ReloadAndPersist()
      modifies this`hosted, this`remotes, this`hostedProcesses, this`remoteSites
      ensures multiset(Listed(hosted)) == multiset(Listed(old(hosted))) <==> UniqueNames(Listed(old(hosted)), HostedName)
      ensures multiset(Listed(remotes)) == multiset(Listed(old(remotes))) <==> UniqueNames(Listed(old(remotes)), RemoteName)
      ensures hosted.None? <==> Listed(old(hosted)) == []
      ensures remotes.None? <==> Listed(old(remotes)) == []
    {
      ReloadDashmaps();
      ghost var oldHosted, oldRemotes := hosted, remotes;
      Persist();
      ReloadedPersists(oldHosted, HostedName, hosted);
      ReloadedPersists(oldRemotes, RemoteName, remotes);
    }

    method AddOrReplaceHostedProcess(oldName: string, item: HostedSite)
      modifies this`hosted
      ensures hosted == Some(Upsert(Listed(old(hosted)), HostedName, oldName, item))
    {
      if hosted.Some? {
        var sites := Without(hosted.value, HostedName, item.hostName);
        sites := Without(sites, HostedName, oldName);
        hosted := Some(sites + [item]);
      } else {
        hosted := Some([item]);
        assert [] + [item] == [item];
      }
    }

    method AddOrReplaceDirSite(oldName: string, item: DirServer)
      modifies this`dirs
      ensures dirs == Some(Upsert(Listed(old(dirs)), DirName, oldName, item))
    {
      if dirs.Some? {
        WithoutCommutes(dirs.value, DirName, oldName, item.hostName);
        var sites := Without(dirs.value, DirName, oldName);
        sites := Without(sites, DirName, item.hostName);
        dirs := Some(sites + [item]);
      } else {
        dirs := Some([item]);
        assert [] + [item] == [item];
      }
    }

    method AddOrReplaceRemoteSite(oldName: string, item: RemoteSite)
      modifies this`remotes
      ensures remotes == Some(Upsert(Listed(old(remotes)), RemoteName, oldName, item))
    {
      if remotes.Some? {
        WithoutCommutes(remotes.value, RemoteName, oldName, item.hostName);
        var sites := Without(remotes.value, RemoteName, oldName);
        sites := Without(sites, RemoteName, item.hostName);
        remotes := Some(sites + [item]);
      } else {
        remotes := Some([item]);
        assert [] + [item] == [item];
      }
    }

    /** Accepts exactly the valid configurations, and a reported error is real. */
    method IsValid() returns (r: Option<ConfigError>)
      ensures r.None? <==> Valid(Snapshot())
      ensures r.Some? ==> Justified(Snapshot(), r.value)
    {
      ghost var c := Snapshot();
      if exists e :: e in envVars && NamesPort(e) {
        return Some(GlobalPortVariable);
      }
      var names := CountDirs(Listed(dirs));
      var err;
      names, err := CheckRemotes(Listed(remotes), names, DirNames(c.dirs));
      FirstErrorExact(c.remotes, RemoteError);
      if err.Some? {
        return err;
      }
      var ports;
      names, ports, err := CheckHosted(Listed(hosted), names, DirNames(c.dirs) + RemoteNames(c.remotes));
      FirstErrorExact(c.hosted, HostedError);
      if err.Some? {
        return err;
      }
      CountsShowDistinct(AllNames(c));
      var duplicateNames := set n | n in names && names[n] > 1;
      if duplicateNames != {} {
        return Some(DuplicateHostNames(duplicateNames));
      }
      PortHostsShowDistinct(c.hosted);
      var duplicatePorts := set p | p in ports && |ports[p]| > 1;
      if duplicatePorts != {} {
        return Some(DuplicatePorts(duplicatePorts));
      }
      return None;
    }

    /** Chooses a port and, unless the current one is simply kept, records it. */
    method SetActivePort(r: Request, occupied: set<Port>, random: Option<Port>) returns (out: Outcome)
      modifies this`hosted
      ensures out == Select(Unavailable(Listed(old(hosted)), r.id), portRangeStart, r, occupied, random)
      ensures hosted ==
        if out.SearchOverflow? || old(hosted).None? ||
           KeepsCurrent(Unavailable(Listed(old(hosted)), r.id), r, occupied)
        then old(hosted)
        else Some(RecordPort(old(hosted).value, r.id, out.port))
    {
      var selected := r.activePort;
      var unavailable := FilterOthers(BusyPorts(Listed(hosted)), r.id);
      if selected.Some? && selected.value !in unavailable {
        if selected.value !in occupied {
          return Chosen(selected.value);
        }
        selected := None;
      }
      if r.port.Some? {
        if r.port.value == 0 {
          selected := random;
        } else if r.port.value !in unavailable {
          selected := r.port;
        }
      } else {
        var value := EnvPort(r.envVars);
        if value.Some? && !PrintedIn(unavailable, value.value) && ParsePort(value.value).Some? {
          selected := ParsePort(value.value);
        }
      }
      if selected.None? {
        selected := FirstFit(portRangeStart, unavailable, occupied);
        if selected.None? {
          return SearchOverflow;
        }
      }
      if hosted.Some? {
        var sites := SaveActivePort(hosted.value, r.id, selected.value);
        hosted := Some(sites);
      }
      return Chosen(selected.value);
    }
  }

  // ---- The loops of the validator --------------------------------------------------

  method CountDirs(dirs: seq<DirServer>) returns (names: map<string, nat>)
    ensures names == CountMap(DirNames(dirs))
  {
    names := map[];
    for i := 0 to |dirs|
      invariant names == CountMap(DirNames(dirs)[..i])
    {
      CountMapSnoc(DirNames(dirs)[..i], dirs[i].hostName);
      assert DirNames(dirs)[..i + 1] == DirNames(dirs)[..i] + [dirs[i].hostName];
      names := Bump(names, dirs[i].hostName);
    }
    assert DirNames(dirs)[..|dirs|] == DirNames(dirs);
  }

  lemma CountRemote(remotes: seq<RemoteSite>, seen: seq<string>, i: nat)
    requires i < |remotes|
    ensures CountMap(seen + RemoteNames(remotes)[..i + 1]) == Bump(CountMap(seen + RemoteNames(remotes)[..i]), remotes[i].hostName)
  {
    CountMapSnoc(seen + RemoteNames(remotes)[..i], remotes[i].hostName);
    assert seen + RemoteNames(remotes)[..i + 1] == seen + RemoteNames(remotes)[..i] + [remotes[i].hostName];
  }

  lemma CountRemoteEnds(remotes: seq<RemoteSite>, seen: seq<string>)
    ensures CountMap(seen + RemoteNames(remotes)[..0]) == CountMap(seen)
    ensures CountMap(seen + RemoteNames(remotes)[..|remotes|]) == CountMap(seen + RemoteNames(remotes))
  {
    assert seen + RemoteNames(remotes)[..0] == seen;
    assert RemoteNames(remotes)[..|remotes|] == RemoteNames(remotes);
  }

  method CheckRemotes(remotes: seq<RemoteSite>, names0: map<string, nat>, ghost seen: seq<string>)
    returns (names: map<string, nat>, err: Option<ConfigError>)
    requires names0 == CountMap(seen)
    ensures err == FirstError(remotes, RemoteError)
    ensures err.None? ==> names == CountMap(seen + RemoteNames(remotes))
  {
    names := names0;
    CountRemoteEnds(remotes, seen);
    for i := 0 to |remotes|
      invariant names == CountMap(seen + RemoteNames(remotes)[..i])
      invariant FirstError(remotes[i..], RemoteError) == FirstError(remotes, RemoteError)
    {
      var s := remotes[i];
      assert remotes[i..][0] == s && remotes[i..][1..] == remotes[i + 1..];
      CountRemote(remotes, seen, i);
      names := Bump(names, s.hostName);
      err := RemoteError(s);
      if err.Some? {
        return;
      }
    }
    err := None;
  }

  lemma CountHosted(hosted: seq<HostedSite>, seen: seq<string>, i: nat)
    requires i < |hosted|
    ensures CountMap(seen + HostedNames(hosted)[..i + 1]) == Bump(CountMap(seen + HostedNames(hosted)[..i]), hosted[i].hostName)
    ensures PortHosts(hosted[..i + 1]) == WithHost(PortHosts(hosted[..i]), hosted[i])
  {
    assert hosted[..i + 1][..i] == hosted[..i];
    CountMapSnoc(seen + HostedNames(hosted)[..i], hosted[i].hostName);
    assert seen + HostedNames(hosted)[..i + 1] == seen + HostedNames(hosted)[..i] + [hosted[i].hostName];
  }

  lemma CountHostedEnds(hosted: seq<HostedSite>, seen: seq<string>)
    ensures CountMap(seen + HostedNames(hosted)[..0]) == CountMap(seen) && PortHosts(hosted[..0]) == map[]
    ensures CountMap(seen + HostedNames(hosted)[..|hosted|]) == CountMap(seen + HostedNames(hosted))
    ensures PortHosts(hosted[..|hosted|]) == PortHosts(hosted)
  {
    assert seen + HostedNames(hosted)[..0] == seen;
    assert HostedNames(hosted)[..|hosted|] == HostedNames(hosted) && hosted[..|hosted|] == hosted;
  }

  method CheckHosted(hosted: seq<HostedSite>, names0: map<string, nat>, ghost seen: seq<string>)
    returns (names: map<string, nat>, ports: map<Port, seq<string>>, err: Option<ConfigError>)
    requires names0 == CountMap(seen)
    ensures err == FirstError(hosted, HostedError)
    ensures err.None? ==> names == CountMap(seen + HostedNames(hosted)) && ports == PortHosts(hosted)
  {
    names, ports := names0, map[];
    CountHostedEnds(hosted, seen);
    for i := 0 to |hosted|
      invariant names == CountMap(seen + HostedNames(hosted)[..i])
      invariant ports == PortHosts(hosted[..i])
      invariant FirstError(hosted[i..], HostedError) == FirstError(hosted, HostedError)
    {
      var s := hosted[i];
      assert hosted[i..][0] == s && hosted[i..][1..] == hosted[i + 1..];
      CountHosted(hosted, seen, i);
      names := Bump(names, s.hostName);
      ports := WithHost(ports, s);
      err := CheckHostedSite(s);
      if err.Some? {
        return;
      }
    }
    err := None;
  }

  method CheckHostedSite(s: HostedSite) returns (err: Option<ConfigError>)
    ensures err == HostedError(s)
  {
    err := LetsEncryptError(s.hostName, s.enableLetsEncrypt, s.terminateTls, s.captureSubdomains);
    if err.None? {
      var agrees := CheckEnv(s);
      if !agrees {
        err := Some(EnvPortMismatch(s.hostName));
      }
    }
  }

  method CheckEnv(s: HostedSite) returns (agrees: bool)
    ensures agrees <==> EnvAgrees(s)
  {
    if s.port.Some? {
      for k := 0 to |s.envVars|
        invariant forall j :: 0 <= j < k ==>
          (NamesPort(s.envVars[j]) && ParsePort(s.envVars[j].value).Some? ==> ParsePort(s.envVars[j].value) == s.port)
      {
        var e := s.envVars[k];
        if NamesPort(e) && ParsePort(e.value).Some? && ParsePort(e.value) != s.port {
          assert e in s.envVars;
          return false;
        }
      }
    }
    return true;
  }

  // ---- The loops of the port chooser --------------------------------------------------

  method FilterOthers(busy: seq<(ProcId, Port)>, me: ProcId) returns (ports: seq<Port>)
    ensures ports == OthersPorts(busy, me)
  {
    ports := [];
    for i := 0 to |busy|
      invariant ports + OthersPorts(busy[i..], me) == OthersPorts(busy, me)
    {
      if busy[i].0 != me {
        ports := ports + [busy[i].1];
      }
    }
  }

  method FirstFit(start: Port, unavailable: seq<Port>, occupied: set<Port>) returns (r: Option<Port>)
    ensures r == Search(start, unavailable, occupied)
  {
    var p: int := start;
    while p < 65536 && !Usable(unavailable, occupied, p)
      invariant start <= p <= 65536
      invariant Search(p, unavailable, occupied) == Search(start, unavailable, occupied)
      decreases 65536 - p
    {
      p := p + 1;
    }
    r := if p < 65536 then Some(p) else None;
  }

  method SaveActivePort(sites: seq<HostedSite>, id: ProcId, p: Port) returns (saved: seq<HostedSite>)
    ensures saved == RecordPort(sites, id, p)
  {
    for i := 0 to |sites|
      invariant forall k :: 0 <= k < i ==> sites[k].id != id
    {
      if sites[i].id == id {
        RecordPortAt(sites, i, p);
        return sites[i := sites[i].(activePort := Some(p))];
      }
    }
    RecordPortMissing(sites, id, p);
    return sites;
  }
}
