/** What an application may look like (core/applications/applications.go): the rules, the
    defaults, and the record both Create and Update must produce. `Acceptable` and `Normal`
    say it section by section; the methods that follow do it as the source does, field by
    field and element by element, and are proved to decide and to build exactly that. */
module Applications {
  import opened Common
  import opened Text

  const MAX_INT32: int := 2147483647
  const MAX_PORTS: nat := 20
  const MAX_VOLUMES: nat := 20
  const MAX_REPLICAS: int := 20

  datatype Source = Source(kind: string, installation: Option<int>, repo: string, branch: string,
                           deployKey: Option<string>, image: string, registry: Option<string>)
  datatype Build = Build(kind: string, dockerfile: string, context: string, pushRegistry: Option<string>,
                         pushRepository: string)
  datatype Cpu = Cores(n: real) | NaN | PlusInfinity | MinusInfinity
  datatype Runtime = Runtime(server: string, port: int, replicas: int, cpu: Option<Cpu>, memory: Option<int>)
  datatype Route = Route(domain: string, https: bool, pathPrefix: string)
  datatype Health = Health(kind: string, path: string, interval: int, timeout: int, retries: int)
  datatype Volume = Volume(name: string, path: string, backedUp: bool)
  datatype Port = Port(host: int, container: int, protocol: string)
  datatype Preview = Preview(enabled: bool, base: string, ttl: int)
  datatype Input = Input(name: string, source: Source, build: Build, runtime: Runtime, route: Route, health: Health,
                         volumes: seq<Volume>, ports: seq<Port>, envKeys: set<string>, preview: Preview)

  // ------------------------------------------------------------------ git remotes

  /** The white space a regular expression's \s means. */
  predicate Blank(c: char) { c == ' ' || c == '\t' || c == '\n' || c == '\r' || c == '\U{C}' }

  predicate Solid(s: string) { s != "" && forall i :: 0 <= i < |s| ==> !Blank(s[i]) }

  predicate Letter(c: char) { 'a' <= c <= 'z' || 'A' <= c <= 'Z' || '0' <= c <= '9' }

  predicate After(s: string, p: string) { |p| <= |s| && s[..|p|] == p && Solid(s[|p|..]) }

  /** A remote that names its transport. */
  predicate Schemed(s: string) {
    After(s, "http://") || After(s, "https://") || After(s, "ssh://") || After(s, "git://") || After(s, "file://")
  }

  /** user@host:path. */
  predicate ScpLike(s: string) {
    exists i, j :: 0 < i && i + 1 < j < |s| && s[i] == '@' && s[j] == ':' && ScpParts(s, i, j)
  }

  predicate ScpParts(s: string, i: int, j: int)
    requires 0 < i && i + 1 < j < |s|
  {
    && (forall k :: 0 <= k < i ==> s[k] != '/' && s[k] != '@' && !Blank(s[k]))
    && (forall k :: i < k < j ==> s[k] != ':' && s[k] != '/' && !Blank(s[k]))
    && Solid(s[j + 1..])
  }

  predicate Label(s: string) {
    && s != "" && Letter(s[0]) && Letter(s[|s| - 1])
    && forall i :: 0 <= i < |s| ==> Letter(s[i]) || s[i] == '-'
  }

  predicate PortText(s: string) { 1 <= |s| <= 5 && forall i :: 0 <= i < |s| ==> '0' <= s[i] <= '9' }

  /** A host with a dot in it, perhaps a port, and a path: the shorthand people type. */
  predicate Schemeless(s: string) {
    var slash := Find(s, '/');
    var colon := Find(s[..slash], ':');
    var labels := Split(s[..colon], '.');
    && slash < |s| && Solid(s[slash + 1..])
    && |labels| >= 2 && (forall i :: 0 <= i < |labels| ==> Label(labels[i]))
    && (colon < slash ==> PortText(s[colon + 1..slash]))
  }

  /** gitRemote. */
  function GitRemote(raw: string): Option<string> {
    var repo := Trim(raw);
    if Schemed(repo) || ScpLike(repo) || (repo != "" && repo[0] == '/') then Some(repo)
    else if Schemeless(repo) then Some("https://" + repo)
    else None
  }

  lemma {:induction false} SplitSolid(s: string)
    requires forall i :: 0 <= i < |Split(s, '.')| ==> Label(Split(s, '.')[i])
    ensures Solid(s)
    decreases |s|
  {
    var k := Find(s, '.');
    if k == |s| {
      assert Label(Split(s, '.')[0]);
    } else {
      var first, rest := s[..k], s[k + 1..];
      assert Split(s, '.') == [first] + Split(rest, '.');
      assert Label(Split(s, '.')[0]);
      forall i | 0 <= i < |Split(rest, '.')| ensures Label(Split(rest, '.')[i]) {
        assert Split(s, '.')[i + 1] == Split(rest, '.')[i];
      }
      SplitSolid(rest);
      assert s == first + "." + rest;
    }
  }

  lemma SchemelessSolid(s: string)
    requires Schemeless(s)
    ensures Solid(s)
  {
    var slash := Find(s, '/');
    var colon := Find(s[..slash], ':');
    SplitSolid(s[..colon]);
    assert forall i :: colon < i < slash ==> s[i] == s[colon + 1..slash][i - colon - 1];
    assert forall i :: slash < i < |s| ==> s[i] == s[slash + 1..][i - slash - 1];
    assert forall i :: 0 <= i < colon ==> s[i] == s[..colon][i];
  }

  /** A remote already normalised is accepted again as it is. */
  lemma GitRemoteTwice(raw: string)
    requires GitRemote(raw).Some?
    ensures GitRemote(GitRemote(raw).value) == GitRemote(raw)
    ensures Trim(GitRemote(raw).value) != ""
  {
    var repo := Trim(raw);
    TrimTwice(raw);
    if Schemed(repo) || ScpLike(repo) || (repo != "" && repo[0] == '/') {
    } else {
      SchemelessSolid(repo);
      hide Schemeless; hide ScpLike; hide IsSpace; hide Solid;
      var r := "https://" + repo;
      assert r[|r| - 1] == repo[|repo| - 1];
      assert !IsSpace(r[0]) by { HIsNoSpace(); }
      TrimKeeps(r);
      assert r[..8] == "https://" && r[8..] == repo;
      assert After(r, "https://");
    }
  }

  lemma HIsNoSpace()
    ensures !IsSpace('h')
  {
  }

  /** The shorthand people type: a host of dotted labels, a slash and a path. */
  lemma ShorthandGetsHttps(labels: seq<string>, path: string)
    requires |labels| >= 2 && (forall i :: 0 <= i < |labels| ==> Label(labels[i]))
    requires Solid(path) && !IsSpace(path[|path| - 1])
    ensures var text := Join(labels, '.') + "/" + path; GitRemote(text) == Some("https://" + text)
  {
    var host := Join(labels, '.');
    var text := host + "/" + path;
    HostChars(labels);
    SplitJoin(labels, '.');
    hide Split; hide Join; hide Label; hide Letter; hide Schemeless; hide ScpLike; hide Schemed; hide Solid; hide IsSpace;
    ShorthandShape(host, path);
    NoTransport(host, path);
    assert text[0] == host[0] && text[|text| - 1] == path[|path| - 1];
    TrimKeeps(text);
    assert text[0] != '/' by { assert HostChar(host[0]); LetterNoSlash(host[0]); }
  }

  lemma LetterNoSlash(c: char)
    requires HostChar(c)
    ensures c != '/' && c != ':' && c != '@'
  {
  }

  lemma ShorthandShape(host: string, path: string)
    requires host != "" && Solid(path) && (forall i :: 0 <= i < |host| ==> HostChar(host[i]))
    requires |Split(host, '.')| >= 2 && forall i :: 0 <= i < |Split(host, '.')| ==> Label(Split(host, '.')[i])
    ensures Schemeless(host + "/" + path)
  {
    var text := host + "/" + path;
    hide Label; hide Split; hide Solid;
    assert forall i :: 0 <= i < |host| ==> text[i] == host[i] && host[i] != '/' && host[i] != ':' by {
      forall i | 0 <= i < |host| ensures text[i] == host[i] && host[i] != '/' && host[i] != ':' {
        LetterNoSlash(host[i]);
      }
    }
    hide HostChar;
    assert text[|host|] == '/' && text[|host| + 1..] == path && text[..|host|] == host;
    assert Find(text, '/') == |host| && Find(host, ':') == |host|;
    assert host[..|host|] == host;
  }

  lemma {:induction false} HostChars(labels: seq<string>)
    requires labels != [] && forall i :: 0 <= i < |labels| ==> Label(labels[i])
    ensures var host := Join(labels, '.');
            host != "" && Letter(host[0]) && !IsSpace(host[0]) && forall i :: 0 <= i < |host| ==> HostChar(host[i])
    ensures forall i :: 0 <= i < |labels| ==> '.' !in labels[i]
  {
    assert Label(labels[0]);
    if |labels| > 1 {
      HostChars(labels[1..]);
      hide Label;
      forall i | 0 <= i < |labels| ensures '.' !in labels[i] {
        if i > 0 {
          assert labels[i] == labels[1..][i - 1];
        }
      }
    }
  }

  predicate HostChar(c: char) { Letter(c) || c == '-' || c == '.' }

  lemma NoTransport(host: string, path: string)
    requires host != "" && forall i :: 0 <= i < |host| ==> HostChar(host[i])
    ensures !Schemed(host + "/" + path) && !ScpLike(host + "/" + path)
  {
    var text := host + "/" + path;
    forall i | 0 <= i < |host| ensures text[i] != ':' && text[i] != '@' {
      LetterNoSlash(host[i]);
    }
    assert text[|host|] == '/';
    hide HostChar; hide After; hide ScpLike;
    NoScp(text, |host|);
    NoScheme(text, "http://", 4, |host|);
    NoScheme(text, "https://", 5, |host|);
    NoScheme(text, "ssh://", 3, |host|);
    NoScheme(text, "git://", 3, |host|);
    NoScheme(text, "file://", 4, |host|);
  }

  lemma NoScp(text: string, slash: nat)
    requires slash < |text| && text[slash] == '/' && forall i :: 0 <= i < slash ==> text[i] != '@'
    ensures !ScpLike(text)
  {
    forall i, j | 0 < i && i + 1 < j < |text| && text[i] == '@' && text[j] == ':' ensures !ScpParts(text, i, j) {
      assert slash < i;
    }
  }

  /** Before its first slash the text has no colon. */
  lemma NoScheme(text: string, p: string, c: nat, slash: nat)
    requires slash < |text| && text[slash] == '/' && forall i :: 0 <= i < slash ==> text[i] != ':'
    requires c < |p| && p[c] == ':' && forall i :: 0 <= i < c ==> p[i] != '/'
    ensures !After(text, p)
  {
    if |p| <= |text| {
      var k := if slash <= c then slash else c;
      assert text[..|p|][k] == text[k] != p[k];
    }
  }

  /** A relative value such as "acme/web" is refused. */
  lemma RelativeRefused(owner: string, path: string)
    requires Label(owner) && Solid(path) && !IsSpace(path[|path| - 1])
    ensures GitRemote(owner + "/" + path).None?
  {
    var text := owner + "/" + path;
    HostChars([owner]);
    assert Join([owner], '.') == owner;
    NoTransport(owner, path);
    assert forall i :: 0 <= i < |owner| ==> text[i] == owner[i];
    assert text[|owner|] == '/' && text[..|owner|] == owner;
    assert Find(text, '/') == |owner|;
    hide ScpLike; hide Schemed;
    assert Find(owner, ':') == |owner| && owner[..|owner|] == owner;
    SplitJoin([owner], '.');
    assert text[0] == owner[0] && text[|text| - 1] == path[|path| - 1];
    assert !Schemeless(text);
    hide Schemeless; hide Label; hide Solid;
    TrimKeeps(text);
  }

  /** Nothing else is added: the remote is the text typed, or that with a transport before
      it; and what names its transport or is an absolute path is taken as it is. */
  lemma GitRemoteIs(raw: string)
    ensures GitRemote(raw).Some? ==> GitRemote(raw).value == Trim(raw) || GitRemote(raw).value == "https://" + Trim(raw)
    ensures Trim(raw) != "" && Trim(raw)[0] == '/' ==> GitRemote(raw) == Some(Trim(raw))
    ensures After(Trim(raw), "https://") || After(Trim(raw), "ssh://") ==> GitRemote(raw) == Some(Trim(raw))
  {
  }

  // ------------------------------------------------------------------------ the rules

  predicate ImageChar(c: char) {
    Letter(c) || c == '.' || c == '_' || c == '-' || c == '/' || c == ':' || c == '@'
  }

  predicate ValidImageRef(s: string) { forall i :: 0 <= i < |s| ==> ImageChar(s[i]) }

  predicate Lower(c: char) { 'a' <= c <= 'z' || '0' <= c <= '9' }

  predicate Sep(c: char) { c == '.' || c == '_' || c == '-' }

  /** One segment of a repository path: lower-case letters and digits, single separators
      between them and none at either end. */
  predicate Component(s: string) {
    && s != "" && Lower(s[0]) && Lower(s[|s| - 1])
    && (forall i :: 0 <= i < |s| ==> Lower(s[i]) || Sep(s[i]))
    && (forall i :: 0 <= i < |s| - 1 ==> !(Sep(s[i]) && Sep(s[i + 1])))
  }

  predicate RepositoryPath(s: string) {
    s == "" || (ByteLen(s) <= 255 && forall i :: 0 <= i < |Split(s, '/')| ==> Component(Split(s, '/')[i]))
  }

  predicate VolumeName(s: string) {
    && 1 <= |s| <= 63 && Lower(s[0])
    && forall i :: 0 <= i < |s| ==> Lower(s[i]) || s[i] == '-'
  }

  predicate HasDots(s: string) { exists i :: 0 <= i < |s| - 1 && s[i] == '.' && s[i + 1] == '.' }

  predicate VolumeFine(v: Volume) {
    VolumeName(v.name) && v.path != "" && v.path[0] == '/' && !HasDots(v.path)
  }

  predicate VolumesFine(vs: seq<Volume>) {
    && |vs| <= MAX_VOLUMES
    && (forall i :: 0 <= i < |vs| ==> VolumeFine(vs[i]))
    && (forall i, j :: 0 <= i < j < |vs| ==> vs[i].name != vs[j].name && vs[i].path != vs[j].path)
  }

  predicate PortFine(p: Port) {
    (p.protocol == "tcp" || p.protocol == "udp") && 1 <= p.host <= 65535 && 1 <= p.container <= 65535
  }

  /** Every mapping in range, and no two on one host port and protocol. */
  predicate PortsFine(ps: seq<Port>) {
    && |ps| <= MAX_PORTS
    && (forall i :: 0 <= i < |ps| ==> PortFine(ps[i]))
    && (forall i, j :: 0 <= i < j < |ps| ==> ps[i].host != ps[j].host || ps[i].protocol != ps[j].protocol)
  }

  /** The same on the list as it came: at most twenty mappings between ports from 1 to
      65535, tcp where no protocol is given, and no host port twice for one protocol. */
  predicate PortsAllowed(ps: seq<Port>) {
    && |ps| <= 20
    && (forall i :: 0 <= i < |ps| ==>
          && 1 <= ps[i].host <= 65535 && 1 <= ps[i].container <= 65535
          && ps[i].protocol in {"", "tcp", "udp"})
    && (forall i, j :: 0 <= i < j < |ps| && ps[i].host == ps[j].host ==> Udp(ps[i]) != Udp(ps[j]))
  }

  predicate Udp(p: Port) { p.protocol == "udp" }

  lemma PortsAllowedIff(ps: seq<Port>)
    ensures PortsFine(NormalPorts(ps)) <==> PortsAllowed(ps)
  {
    var rs := NormalPorts(ps);
    assert forall i :: 0 <= i < |ps| ==> rs[i] == NormalPort(ps[i]);
    hide NormalPorts;
    if PortsFine(rs) {
      forall i | 0 <= i < |ps|
        ensures 1 <= ps[i].host <= 65535 && 1 <= ps[i].container <= 65535 && ps[i].protocol in {"", "tcp", "udp"}
      {
        assert PortFine(rs[i]);
      }
      forall i, j | 0 <= i < j < |ps| && ps[i].host == ps[j].host ensures Udp(ps[i]) != Udp(ps[j]) {
        assert PortFine(rs[i]) && PortFine(rs[j]) && rs[i].protocol != rs[j].protocol;
      }
    }
    if PortsAllowed(ps) {
      forall i | 0 <= i < |rs| ensures PortFine(rs[i]) {
        assert ps[i].protocol in {"", "tcp", "udp"};
      }
      forall i, j | 0 <= i < j < |rs| ensures rs[i].host != rs[j].host || rs[i].protocol != rs[j].protocol {
        assert ps[i].host == ps[j].host ==> Udp(ps[i]) != Udp(ps[j]);
      }
    }
  }

  predicate EnvKey(s: string) {
    && s != "" && !('0' <= s[0] <= '9')
    && forall i :: 0 <= i < |s| ==> Letter(s[i]) || s[i] == '_'
  }

  predicate IsGit(kind: string) { kind == "github" || kind == "git_url" }

  predicate SourceFine(s: Source, preview: bool) {
    if IsGit(s.kind) then GitRemote(s.repo).Some? && (s.installation.Some? ==> s.installation.value > 0)
    else
      && s.kind == "image" && Trim(s.image) != "" && ByteLen(Trim(s.image)) <= 512 && ValidImageRef(Trim(s.image))
      && s.deployKey.None? && !preview
  }

  predicate BuildKind(kind: string) {
    kind == "dockerfile" || kind == "static" || kind == "auto" || kind == "nixpacks" || kind == "railpack"
  }

  predicate BuildFine(b: Build, sourceKind: string) {
    && (b.kind == "" || BuildKind(b.kind))
    && (Trim(b.pushRepository) != "" ==> b.pushRegistry.Some?)
    && !(b.pushRegistry.Some? && sourceKind == "image")
    && RepositoryPath(Trim(b.pushRepository))
  }

  predicate RuntimeFine(r: Runtime) {
    && Trim(r.server) != "" && 1 <= r.port <= 65535 && 0 <= r.replicas <= MAX_REPLICAS
    && (r.cpu.Some? ==> r.cpu.value.Cores? && r.cpu.value.n >= 0.0)
    && (r.memory.Some? ==> 0 <= r.memory.value <= MAX_INT32)
  }

  predicate HealthFine(h: Health) {
    && (h.kind == "" || h.kind == "http" || h.kind == "tcp" || h.kind == "none")
    && 0 <= h.interval <= MAX_INT32 && 0 <= h.timeout <= MAX_INT32 && 0 <= h.retries <= MAX_INT32
  }

  predicate PreviewFine(p: Preview) {
    (p.enabled ==> Trim(p.base) != "") && 0 <= p.ttl <= MAX_INT32
  }

  /** validateReplicas: more than one replica shares no volume and no host port. */
  predicate ReplicasFine(replicas: int, volumes: seq<Volume>, ports: seq<Port>) {
    replicas > 1 ==> volumes == [] && ports == []
  }

  predicate NameFine(name: string) { Trim(name) != "" && ByteLen(Trim(name)) <= 100 }

  /** What validateAndDefault accepts. */
  predicate Acceptable(x: Input) {
    && NameFine(x.name) && SourceFine(x.source, x.preview.enabled) && BuildFine(x.build, x.source.kind)
    && RuntimeFine(x.runtime) && VolumesFine(x.volumes) && PortsFine(NormalPorts(x.ports))
    && ReplicasFine(x.runtime.replicas, x.volumes, x.ports) && HealthFine(x.health)
    && (forall k <- x.envKeys :: EnvKey(k)) && PreviewFine(x.preview)
  }

  // --------------------------------------------------------------------- the defaults

  function Or(s: string, default_: string): string { if s == "" then default_ else s }

  function OrInt(n: int, default_: int): int { if n == 0 then default_ else n }

  function NormalSource(s: Source): Source {
    if IsGit(s.kind) then
      s.(repo := if GitRemote(s.repo).Some? then GitRemote(s.repo).value else s.repo, branch := Or(s.branch, "main"), image := "")
    else s.(image := Trim(s.image), installation := None, repo := "", branch := "")
  }

  function NormalBuild(b: Build): Build {
    b.(kind := Or(b.kind, "dockerfile"), dockerfile := Or(b.dockerfile, "./Dockerfile"), context := Or(b.context, "."),
       pushRepository := Trim(b.pushRepository))
  }

  function NormalPort(p: Port): Port { p.(protocol := Or(p.protocol, "tcp")) }

  function NormalPorts(ps: seq<Port>): (r: seq<Port>)
    ensures |r| == |ps| && forall i :: 0 <= i < |ps| ==> r[i] == NormalPort(ps[i])
  {
    seq(|ps|, i requires 0 <= i < |ps| => NormalPort(ps[i]))
  }

  function NormalHealth(h: Health): Health {
    h.(kind := Or(h.kind, "http"), path := Or(h.path, "/"), interval := OrInt(h.interval, 10),
       timeout := OrInt(h.timeout, 5), retries := OrInt(h.retries, 3))
  }

  function NormalPreview(p: Preview): Preview { p.(base := Trim(p.base), ttl := OrInt(p.ttl, 72)) }

  /** What it makes of an input it accepts. */
  function Normal(x: Input): Input {
    x.(name := Trim(x.name), source := NormalSource(x.source), build := NormalBuild(x.build),
       runtime := x.runtime.(replicas := OrInt(x.runtime.replicas, 1)),
       route := x.route.(domain := Trim(x.route.domain)), health := NormalHealth(x.health),
       ports := NormalPorts(x.ports), preview := NormalPreview(x.preview))
  }

  // ------------------------------------------------------- the defaults, field by field

  predicate SourceBecomes(s: Source, r: Source) {
    && r.kind == s.kind && r.deployKey == s.deployKey && r.registry == s.registry
    && if s.kind == "image" then
         r.image == Trim(s.image) && r.repo == "" && r.branch == "" && r.installation.None?
       else
         && GitRemote(s.repo) == Some(r.repo) && r.branch == (if s.branch == "" then "main" else s.branch)
         && r.image == "" && r.installation == s.installation
  }

  predicate BuildBecomes(b: Build, r: Build) {
    && r.kind == (if b.kind == "" then "dockerfile" else b.kind)
    && r.dockerfile == (if b.dockerfile == "" then "./Dockerfile" else b.dockerfile)
    && r.context == (if b.context == "" then "." else b.context)
    && r.pushRepository == Trim(b.pushRepository) && r.pushRegistry == b.pushRegistry
  }

  predicate HealthBecomes(h: Health, r: Health) {
    && r.kind == (if h.kind == "" then "http" else h.kind) && r.path == (if h.path == "" then "/" else h.path)
    && r.interval == (if h.interval == 0 then 10 else h.interval)
    && r.timeout == (if h.timeout == 0 then 5 else h.timeout)
    && r.retries == (if h.retries == 0 then 3 else h.retries)
  }

  predicate RouteBecomes(t: Route, r: Route) {
    r.domain == Trim(t.domain) && r.https == t.https && r.pathPrefix == t.pathPrefix
  }

  predicate PortsBecome(ps: seq<Port>, rs: seq<Port>) {
    && |rs| == |ps|
    && forall i :: 0 <= i < |ps| ==>
         && rs[i].host == ps[i].host && rs[i].container == ps[i].container
         && rs[i].protocol == if ps[i].protocol == "" then "tcp" else ps[i].protocol
  }

  /** What is stored of an accepted input. */
  predicate Defaulted(x: Input, r: Input) {
    && r.name == Trim(x.name)
    && SourceBecomes(x.source, r.source) && BuildBecomes(x.build, r.build) && HealthBecomes(x.health, r.health)
    && r.runtime.server == x.runtime.server && r.runtime.port == x.runtime.port
    && r.runtime.replicas == (if x.runtime.replicas == 0 then 1 else x.runtime.replicas)
    && r.runtime.cpu == x.runtime.cpu && r.runtime.memory == x.runtime.memory
    && RouteBecomes(x.route, r.route)
    && r.volumes == x.volumes && PortsBecome(x.ports, r.ports) && r.envKeys == x.envKeys
    && r.preview.enabled == x.preview.enabled && r.preview.base == Trim(x.preview.base)
    && r.preview.ttl == (if x.preview.ttl == 0 then 72 else x.preview.ttl)
  }

  lemma NormalIsDefaulted(x: Input)
    requires Acceptable(x)
    ensures Defaulted(x, Normal(x))
  {
    hide GitRemote; hide Trim;
  }

  // ------------------------------------------------------------------- a fixed point

  lemma SourceTwice(s: Source, preview: bool)
    requires SourceFine(s, preview)
    ensures SourceFine(NormalSource(s), preview) && NormalSource(NormalSource(s)) == NormalSource(s)
    ensures NormalSource(s).kind == s.kind
  {
    if IsGit(s.kind) {
      GitRemoteTwice(s.repo);
    } else {
      TrimTwice(s.image);
    }
    hide GitRemote; hide Trim;
  }

  lemma PortsTwice(ps: seq<Port>)
    ensures NormalPorts(NormalPorts(ps)) == NormalPorts(ps)
  {
  }

  lemma BuildTwice(b: Build, kind: string)
    requires BuildFine(b, kind)
    ensures BuildFine(NormalBuild(b), kind) && NormalBuild(NormalBuild(b)) == NormalBuild(b)
  {
    TrimTwice(b.pushRepository);
    hide Trim; hide RepositoryPath;
  }

  lemma HealthTwice(h: Health)
    requires HealthFine(h)
    ensures HealthFine(NormalHealth(h)) && NormalHealth(NormalHealth(h)) == NormalHealth(h)
  {
  }

  lemma PreviewTwice(p: Preview)
    requires PreviewFine(p)
    ensures PreviewFine(NormalPreview(p)) && NormalPreview(NormalPreview(p)) == NormalPreview(p)
  {
    TrimTwice(p.base);
    hide Trim;
  }

  /** Re-validating an accepted application accepts it and changes nothing. */
  lemma ValidatedIsFixed(x: Input)
    requires Acceptable(x)
    ensures Acceptable(Normal(x)) && Normal(Normal(x)) == Normal(x)
  {
    hide Trim; hide NormalSource; hide SourceFine; hide NormalPorts; hide PortsFine; hide VolumesFine; hide ByteLen; hide EnvKey;
    hide BuildFine; hide NormalBuild; hide HealthFine; hide NormalHealth; hide PreviewFine; hide NormalPreview;
    TrimTwice(x.name);
    TrimTwice(x.route.domain);
    SourceTwice(x.source, x.preview.enabled);
    BuildTwice(x.build, x.source.kind);
    HealthTwice(x.health);
    PreviewTwice(x.preview);
    PortsTwice(x.ports);
    assert NormalPreview(x.preview).enabled == x.preview.enabled by { PreviewKeeps(x.preview); }
    assert x.ports == [] ==> NormalPorts(x.ports) == [];
  }

  lemma PreviewKeeps(p: Preview)
    ensures NormalPreview(p).enabled == p.enabled
  {
  }

  // --------------------------------------------------------------- deciding it, in place

  /** validRepositoryComponent: one pass with the memory of a separator. */
  method CheckComponent(part: string) returns (ok: bool)
    ensures ok <==> Component(part)
  {
    var prevSep := true;
    for i := 0 to |part|
      invariant prevSep == (i == 0 || Sep(part[i - 1]))
      invariant i > 0 ==> Lower(part[0])
      invariant forall k :: 0 <= k < i ==> Lower(part[k]) || Sep(part[k])
      invariant forall k :: 0 <= k < i - 1 ==> !(Sep(part[k]) && Sep(part[k + 1]))
    {
      if Lower(part[i]) {
        prevSep := false;
      } else if Sep(part[i]) {
        if prevSep || i == |part| - 1 {
          assert i == 0 || i == |part| - 1 || (Sep(part[i - 1]) && Sep(part[i - 1 + 1]));
          return false;
        }
        prevSep := true;
      } else {
        return false;
      }
    }
    ok := !prevSep;
  }

  /** validatePorts, which writes the default protocol into the caller's slice. */
  method CheckPorts(ports: array<Port>) returns (ok: bool)
    modifies ports
    ensures ok <==> PortsFine(NormalPorts(old(ports[..])))
    ensures ok <==> PortsAllowed(old(ports[..]))
    ensures ok ==> ports[..] == NormalPorts(old(ports[..]))
  {
    PortsAllowedIff(ports[..]);
    hide PortsAllowed;
    if ports.Length > MAX_PORTS {
      return false;
    }
    ghost var want := NormalPorts(ports[..]);
    hide PortsFine; hide PortFine; hide NormalPorts; hide NormalPort; hide Seen;
    var seen: set<(int, string)> := {};
    NoneSeen(want);
    for i := 0 to ports.Length
      invariant PortsFine(want[..i]) && Seen(want[..i], seen)
      invariant forall k :: 0 <= k < i ==> ports[k] == want[k]
      invariant forall k :: i <= k < ports.Length ==> ports[k] == old(ports[k])
    {
      DefaultPort(ports, i);
      var p := ports[i];
      assert p == want[i];
      OneMorePort(want, i, seen);
      var allowed := CheckPort(p, seen);
      if !allowed {
        return false;
      }
      seen := seen + {(p.host, p.protocol)};
    }
    assert want[..ports.Length] == want && ports[..] == want;
    ok := true;
  }

  /** An empty protocol is tcp. */
  method DefaultPort(ports: array<Port>, i: nat)
    requires i < ports.Length
    modifies ports
    ensures ports[i] == NormalPort(old(ports[i]))
    ensures forall k :: 0 <= k < ports.Length && k != i ==> ports[k] == old(ports[k])
  {
    if ports[i].protocol == "" {
      ports[i] := ports[i].(protocol := "tcp");
    }
  }

  /** The refusals for one mapping, in the order they are made. */
  method CheckPort(p: Port, seen: set<(int, string)>) returns (ok: bool)
    ensures ok <==> PortFine(p) && (p.host, p.protocol) !in seen
  {
    if p.protocol != "tcp" && p.protocol != "udp" {
      return false;
    }
    if p.host < 1 || p.host > 65535 {
      return false;
    }
    if p.container < 1 || p.container > 65535 {
      return false;
    }
    ok := (p.host, p.protocol) !in seen;
  }

  /** The keys of the mappings looked at so far. */
  ghost predicate Seen(ps: seq<Port>, seen: set<(int, string)>) {
    && (forall k :: 0 <= k < |ps| ==> (ps[k].host, ps[k].protocol) in seen)
    && (forall key :: key in seen ==> exists k :: 0 <= k < |ps| && key == (ps[k].host, ps[k].protocol))
  }

  lemma NoneSeen(ps: seq<Port>)
    ensures PortsFine(ps[..0]) && Seen(ps[..0], {})
  {
  }

  /** The next mapping keeps the rules exactly when it is in range and its key is new. */
  lemma OneMorePort(ps: seq<Port>, i: nat, seen: set<(int, string)>)
    requires i < |ps| <= MAX_PORTS && PortsFine(ps[..i]) && Seen(ps[..i], seen)
    ensures var p := ps[i];
            && (PortFine(p) && (p.host, p.protocol) !in seen ==>
                  PortsFine(ps[..i + 1]) && Seen(ps[..i + 1], seen + {(p.host, p.protocol)}))
            && (!PortFine(p) || (p.host, p.protocol) in seen ==> !PortsFine(ps))
  {
    var now, p := ps[..i + 1], ps[i];
    assert now == ps[..i] + [p];
    assert forall k :: 0 <= k < i ==> now[k] == ps[..i][k] == ps[k];
    hide PortFine;
    if !PortFine(p) {
      assert !PortsFine(ps);
    } else if (p.host, p.protocol) in seen {
      var k :| 0 <= k < |ps[..i]| && (p.host, p.protocol) == (ps[..i][k].host, ps[..i][k].protocol);
      assert ps[k].host == ps[i].host && ps[k].protocol == ps[i].protocol;
    } else {
      var more := seen + {(p.host, p.protocol)};
      assert now[i] == p;
      forall key | key in more ensures exists k :: 0 <= k < |now| && key == (now[k].host, now[k].protocol) {
        if key in seen {
          var k :| 0 <= k < |ps[..i]| && key == (ps[..i][k].host, ps[..i][k].protocol);
          assert key == (now[k].host, now[k].protocol);
        } else {
          assert key == (now[i].host, now[i].protocol);
        }
      }
      forall j, k | 0 <= j < k < |now| ensures now[j].host != now[k].host || now[j].protocol != now[k].protocol {
        if k == i {
          assert (ps[..i][j].host, ps[..i][j].protocol) in seen;
        }
      }
      assert forall k :: 0 <= k < |now| ==> PortFine(now[k]);
      assert forall k :: 0 <= k < |now| ==> (now[k].host, now[k].protocol) in more;
    }
  }

  /** validateVolumes. */
  method CheckVolumes(vs: seq<Volume>) returns (ok: bool)
    ensures ok <==> VolumesFine(vs)
  {
    hide VolumeFine;
    if |vs| > MAX_VOLUMES {
      return false;
    }
    var names: set<string>, paths: set<string> := {}, {};
    for i := 0 to |vs|
      invariant forall k :: 0 <= k < i ==> VolumeFine(vs[k])
      invariant forall s :: s in names <==> exists k :: 0 <= k < i && s == vs[k].name
      invariant forall s :: s in paths <==> exists k :: 0 <= k < i && s == vs[k].path
      invariant forall j, k :: 0 <= j < k < i ==> vs[j].name != vs[k].name && vs[j].path != vs[k].path
    {
      var v := vs[i];
      if !VolumeFine(v) || v.name in names || v.path in paths {
        return false;
      }
      names, paths := names + {v.name}, paths + {v.path};
    }
    ok := true;
  }
}
