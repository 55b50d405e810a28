/** validateAndDefault as the source writes it, and the service that creates and updates
    applications with it (core/applications/applications.go). Checks against the
    environment, the GitHub installation, the registries and the server are one answer
    from outside. Calls do not overlap: the domain check and the write are two statements. */
module AppService {
  import opened Common
  import opened Text
  import opened Applications

  // ---------------------------------------------------------------- validateAndDefault

  method ValidateSource(source: Source, preview: bool) returns (r: Option<Source>)
    ensures r == if SourceFine(source, preview) then Some(NormalSource(source)) else None
  {
    hide Trim; hide ByteLen; hide GitRemote; hide ValidImageRef;
    var s := source;
    if s.kind == "github" || s.kind == "git_url" {
      var repo := GitRemote(s.repo);
      if repo.None? {
        return None;
      }
      s := s.(repo := repo.value);
      if s.installation.Some? && s.installation.value <= 0 {
        return None;
      }
      if s.branch == "" {
        s := s.(branch := "main");
      }
      s := s.(image := "");
    } else if s.kind == "image" {
      s := s.(image := Trim(s.image));
      if s.image == "" {
        return None;
      }
      s := s.(installation := None);
      if ByteLen(s.image) > 512 || !ValidImageRef(s.image) || s.deployKey.Some? || preview {
        return None;
      }
      s := s.(repo := "", branch := "");
    } else {
      return None;
    }
    r := Some(s);
  }

  method ValidateBuild(build: Build, sourceKind: string) returns (r: Option<Build>)
    ensures r == if BuildFine(build, sourceKind) then Some(NormalBuild(build)) else None
  {
    hide Trim; hide RepositoryPath;
    var b := build;
    if b.kind == "" {
      b := b.(kind := "dockerfile");
    }
    if !BuildKind(b.kind) {
      return None;
    }
    if b.dockerfile == "" {
      b := b.(dockerfile := "./Dockerfile");
    }
    if b.context == "" {
      b := b.(context := ".");
    }
    b := b.(pushRepository := Trim(b.pushRepository));
    if b.pushRepository != "" && b.pushRegistry.None? {
      return None;
    }
    if b.pushRegistry.Some? && sourceKind == "image" {
      return None;
    }
    var pathFine := CheckRepositoryPath(b.pushRepository);
    if !pathFine {
      return None;
    }
    r := Some(b);
  }

  /** validRepositoryPath: every segment between the slashes. */
  method CheckRepositoryPath(path: string) returns (ok: bool)
    ensures ok <==> RepositoryPath(path)
  {
    hide Component; hide ByteLen; hide Split;
    if path == "" {
      return true;
    }
    if ByteLen(path) > 255 {
      return false;
    }
    var parts := Split(path, '/');
    for i := 0 to |parts|
      invariant forall k :: 0 <= k < i ==> Component(parts[k])
    {
      var fine := CheckComponent(parts[i]);
      if !fine {
        return false;
      }
    }
    ok := true;
  }

  method ValidateRuntime(runtime: Runtime) returns (r: Option<Runtime>)
    ensures r == if RuntimeFine(runtime) then Some(runtime.(replicas := OrInt(runtime.replicas, 1))) else None
  {
    hide Trim;
    var t := runtime;
    if Trim(t.server) == "" || t.port < 1 || t.port > 65535 {
      return None;
    }
    if t.replicas == 0 {
      t := t.(replicas := 1);
    }
    if t.replicas < 1 || t.replicas > MAX_REPLICAS {
      return None;
    }
    if t.cpu.Some? && (!t.cpu.value.Cores? || t.cpu.value.n < 0.0) {
      return None;
    }
    if t.memory.Some? && (t.memory.value < 0 || t.memory.value > MAX_INT32) {
      return None;
    }
    r := Some(t);
  }

  method ValidateHealth(health: Health) returns (r: Option<Health>)
    ensures r == if HealthFine(health) then Some(NormalHealth(health)) else None
  {
    var h := health;
    if h.kind == "" || h.kind == "http" {
      h := h.(kind := "http");
    } else if h.kind != "tcp" && h.kind != "none" {
      return None;
    }
    if h.interval < 0 || h.timeout < 0 || h.retries < 0 {
      return None;
    }
    if h.interval > MAX_INT32 || h.timeout > MAX_INT32 || h.retries > MAX_INT32 {
      return None;
    }
    if h.path == "" {
      h := h.(path := "/");
    }
    if h.interval == 0 {
      h := h.(interval := 10);
    }
    if h.timeout == 0 {
      h := h.(timeout := 5);
    }
    if h.retries == 0 {
      h := h.(retries := 3);
    }
    r := Some(h);
  }

  method ValidatePreview(preview: Preview) returns (r: Option<Preview>)
    ensures r == if PreviewFine(preview) then Some(NormalPreview(preview)) else None
  {
    hide Trim;
    var p := preview.(base := Trim(preview.base));
    if p.enabled && p.base == "" {
      return None;
    }
    if p.ttl < 0 || p.ttl > MAX_INT32 {
      return None;
    }
    if p.ttl == 0 {
      p := p.(ttl := 72);
    }
    r := Some(p);
  }

  method ValidatePorts(ports: seq<Port>) returns (r: Option<seq<Port>>)
    ensures r == if PortsFine(NormalPorts(ports)) then Some(NormalPorts(ports)) else None
  {
    hide PortsFine; hide NormalPorts;
    var a := new Port[|ports|](i requires 0 <= i < |ports| => ports[i]);
    assert a[..] == ports;
    var fine := CheckPorts(a);
    r := if fine then Some(a[..]) else None;
  }

  /** validateAndDefault: accepts exactly the acceptable inputs, and returns their normal
      form. */
  method ValidateAndDefault(input: Input) returns (r: Option<Input>)
    ensures r == if Acceptable(input) then Some(Normal(input)) else None
    ensures r.Some? ==> Defaulted(input, r.value)
  {
    if Acceptable(input) {
      NormalIsDefaulted(input);
    }
    hide Defaulted;
    hide Trim; hide ByteLen; hide SourceFine; hide NormalSource; hide BuildFine; hide NormalBuild; hide RuntimeFine;
    hide VolumesFine; hide PortsFine; hide NormalPorts; hide HealthFine; hide NormalHealth; hide EnvKey;
    hide PreviewFine; hide NormalPreview;
    var x := input.(name := Trim(input.name));
    if x.name == "" || ByteLen(x.name) > 100 {
      return None;
    }
    var source := ValidateSource(x.source, x.preview.enabled);
    if source.None? {
      return None;
    }
    x := x.(source := source.value);
    var build := ValidateBuild(x.build, input.source.kind);
    if build.None? {
      return None;
    }
    x := x.(build := build.value);
    var runtime := ValidateRuntime(x.runtime);
    if runtime.None? {
      return None;
    }
    x := x.(runtime := runtime.value);
    var volumes := CheckVolumes(x.volumes);
    if !volumes {
      return None;
    }
    var ports := ValidatePorts(x.ports);
    if ports.None? {
      return None;
    }
    x := x.(ports := ports.value);
    if x.runtime.replicas > 1 && (x.volumes != [] || x.ports != []) {
      assert input.ports == [] ==> NormalPorts(input.ports) == [];
      return None;
    }
    x := x.(route := x.route.(domain := Trim(x.route.domain)));
    var health := ValidateHealth(x.health);
    if health.None? {
      return None;
    }
    x := x.(health := health.value);
    if exists k :: k in x.envKeys && !EnvKey(k) {
      return None;
    }
    var preview := ValidatePreview(x.preview);
    if preview.None? {
      return None;
    }
    x := x.(preview := preview.value);
    assert input.ports != [] ==> NormalPorts(input.ports) != [];
    r := Some(x);
  }

  // ------------------------------------------------------------------ create and update

  /** A patch: an absent section is left alone, a present one replaces it whole. The
      server is not among them. */
  datatype Patch = Patch(name: Option<string>, source: Option<Source>, build: Option<Build>, port: Option<int>,
                         route: Option<Route>, health: Option<Health>, previewEnabled: Option<bool>,
                         previewBase: Option<string>, previewTtl: Option<int>, cpu: Option<Cpu>, memory: Option<int>,
                         replicas: Option<int>, volumes: Option<seq<Volume>>, ports: Option<seq<Port>>)

  const NO_PATCH := Patch(None, None, None, None, None, None, None, None, None, None, None, None, None, None)

  function Take<T>(patch: Option<T>, kept: T): T { if patch.Some? then patch.value else kept }

  /** A limit that is not positive clears the limit. */
  function TakeCpu(patch: Option<Cpu>, kept: Option<Cpu>): Option<Cpu> {
    if patch.None? then kept
    else if patch.value.MinusInfinity? || (patch.value.Cores? && patch.value.n <= 0.0) then None
    else patch
  }

  function TakeMemory(patch: Option<int>, kept: Option<int>): Option<int> {
    if patch.None? then kept else if patch.value <= 0 then None else patch
  }

  function Merge(app: Input, p: Patch): Input {
    Input(Take(p.name, app.name), Take(p.source, app.source), Take(p.build, app.build),
          Runtime(app.runtime.server, Take(p.port, app.runtime.port), Take(p.replicas, app.runtime.replicas),
                  TakeCpu(p.cpu, app.runtime.cpu), TakeMemory(p.memory, app.runtime.memory)),
          Take(p.route, app.route), Take(p.health, app.health), Take(p.volumes, app.volumes), Take(p.ports, app.ports), {},
          Preview(Take(p.previewEnabled, app.preview.enabled), Take(p.previewBase, app.preview.base),
                  Take(p.previewTtl, app.preview.ttl)))
  }

  type Apps = map<string, Input>

  /** What is stored: variables are kept elsewhere. */
  function Stored(x: Input): Input { Normal(x).(envKeys := {}) }

  predicate Clashes(lower: string -> string, app: Input, domain: string, server: string) {
    app.runtime.server == server && app.route.domain != "" && lower(app.route.domain) == lower(domain)
  }

  /** checkDomainFree, over the rows that hold the domain in any letter case. */
  ghost predicate DomainFree(lower: string -> string, apps: Apps, self: Option<string>, domain: string, server: string) {
    domain != "" ==> forall id :: id in apps && Some(id) != self ==> !Clashes(lower, apps[id], domain, server)
  }

  /** `allowed` is the answer of every check against other records. */
  datatype Event =
    | Create(id: string, input: Input, allowed: bool)
    | Update(id: string, patch: Patch, allowed: bool)
    | Delete(id: string)

  ghost predicate MayStore(lower: string -> string, apps: Apps, self: Option<string>, x: Input, allowed: bool) {
    Acceptable(x) && allowed && DomainFree(lower, apps, self, Normal(x).route.domain, Normal(x).runtime.server)
  }

  ghost function Step(lower: string -> string, apps: Apps, e: Event): Apps {
    match e
    case Create(id, input, allowed) =>
      if id !in apps && MayStore(lower, apps, None, input, allowed) then apps[id := Stored(input)] else apps
    case Update(id, patch, allowed) =>
      if id in apps && MayStore(lower, apps, Some(id), Merge(apps[id], patch), allowed) then
        apps[id := Stored(Merge(apps[id], patch))]
      else apps
    case Delete(id) => apps - {id}
  }

  ghost function Exec(lower: string -> string, events: seq<Event>): Apps {
    if events == [] then map[] else Step(lower, Exec(lower, events[..|events| - 1]), events[|events| - 1])
  }

  /** No two applications on one server hold the same domain. */
  ghost predicate OneHolder(lower: string -> string, apps: Apps) {
    forall a, b :: a in apps && b in apps && a != b && apps[b].route.domain != "" ==>
      !Clashes(lower, apps[a], apps[b].route.domain, apps[b].runtime.server)
  }

  ghost predicate Validated(x: Input) { Acceptable(x) && Normal(x) == x && x.envKeys == {} }

  ghost predicate AllValidated(apps: Apps) { forall id :: id in apps ==> Validated(apps[id]) }

  lemma StoredValidated(x: Input)
    requires Acceptable(x)
    ensures Validated(Stored(x)) && Stored(x).route == Normal(x).route && Stored(x).runtime == Normal(x).runtime
  {
    ValidatedIsFixed(x);
    hide SourceFine; hide BuildFine; hide RuntimeFine; hide VolumesFine; hide PortsFine; hide HealthFine; hide PreviewFine;
    hide Trim; hide NormalSource; hide NormalBuild; hide NormalPorts; hide NormalHealth; hide NormalPreview; hide NameFine;
    hide EnvKey;
  }

  lemma StoreKeeps(lower: string -> string, apps: Apps, id: string, self: Option<string>, x: Input, allowed: bool)
    requires OneHolder(lower, apps) && AllValidated(apps) && MayStore(lower, apps, self, x, allowed)
    requires self == if id in apps then Some(id) else None
    ensures OneHolder(lower, apps[id := Stored(x)]) && AllValidated(apps[id := Stored(x)])
  {
    StoredValidated(x);
    hide Acceptable; hide Normal; hide Stored; hide OneHolder; hide Validated;
    HolderKept(lower, apps, id, self, Stored(x));
  }

  lemma HolderKept(lower: string -> string, apps: Apps, id: string, self: Option<string>, x: Input)
    requires OneHolder(lower, apps) && DomainFree(lower, apps, self, x.route.domain, x.runtime.server)
    requires self == if id in apps then Some(id) else None
    ensures OneHolder(lower, apps[id := x])
  {
  }

  lemma StepKeeps(lower: string -> string, apps: Apps, e: Event)
    requires OneHolder(lower, apps) && AllValidated(apps)
    ensures OneHolder(lower, Step(lower, apps, e)) && AllValidated(Step(lower, apps, e))
  {
    hide MayStore; hide Stored; hide Merge;
    match e
    case Create(id, input, allowed) =>
      if id !in apps && MayStore(lower, apps, None, input, allowed) {
        StoreKeeps(lower, apps, id, None, input, allowed);
      }
    case Update(id, patch, allowed) =>
      if id in apps && MayStore(lower, apps, Some(id), Merge(apps[id], patch), allowed) {
        StoreKeeps(lower, apps, id, Some(id), Merge(apps[id], patch), allowed);
      }
    case Delete(_) =>
  }

  lemma {:induction false} RunKeeps(lower: string -> string, events: seq<Event>)
    ensures OneHolder(lower, Exec(lower, events)) && AllValidated(Exec(lower, events))
  {
    if events != [] {
      RunKeeps(lower, events[..|events| - 1]);
      hide OneHolder; hide AllValidated; hide Step;
      StepKeeps(lower, Exec(lower, events[..|events| - 1]), events[|events| - 1]);
    }
  }

  /** After any run of creates, updates and deletes no two applications on one server hold
      the same domain in any letter case, and an application with more than one replica
      has no volume and no published port. */
  lemma StoredAppsAreSafe(lower: string -> string, events: seq<Event>, a: string, b: string)
    requires a in Exec(lower, events) && b in Exec(lower, events)
    ensures var apps := Exec(lower, events);
            && (a != b && apps[a].runtime.server == apps[b].runtime.server
                && apps[a].route.domain != "" && apps[b].route.domain != "" ==>
                  lower(apps[a].route.domain) != lower(apps[b].route.domain))
            && (apps[a].runtime.replicas > 1 ==> apps[a].volumes == [] && apps[a].ports == [])
  {
    RunKeeps(lower, events);
    hide Exec;
    assert Validated(Exec(lower, events)[a]);
  }

  /** Saving a stored application without changing it is accepted and changes nothing: it
      still passes its own validation and does not clash with itself. */
  lemma EmptyPatchChangesNothing(lower: string -> string, events: seq<Event>, id: string)
    requires id in Exec(lower, events)
    ensures var apps := Exec(lower, events);
            MayStore(lower, apps, Some(id), Merge(apps[id], NO_PATCH), true)
            && Step(lower, apps, Update(id, NO_PATCH, true)) == apps
  {
    RunKeeps(lower, events);
    var apps := Exec(lower, events);
    hide Exec; hide Acceptable; hide Normal;
    assert Validated(apps[id]);
    assert Merge(apps[id], NO_PATCH) == apps[id];
  }

  /** The application after a patch, section by section: what the patch holds is stored in
      its default form, what it does not hold is as it was. */
  predicate Patched(app: Input, p: Patch, r: Input) {
    && r.name == (if p.name.Some? then Trim(p.name.value) else app.name)
    && (if p.source.Some? then SourceBecomes(p.source.value, r.source) else r.source == app.source)
    && (if p.build.Some? then BuildBecomes(p.build.value, r.build) else r.build == app.build)
    && r.runtime.server == app.runtime.server
    && r.runtime.port == (if p.port.Some? then p.port.value else app.runtime.port)
    && r.runtime.replicas == (if p.replicas.None? then app.runtime.replicas
                              else if p.replicas.value == 0 then 1 else p.replicas.value)
    && (p.cpu.None? ==> r.runtime.cpu == app.runtime.cpu)
    && (p.cpu.Some? && p.cpu.value.Cores? ==>
          r.runtime.cpu == if p.cpu.value.n > 0.0 then Some(Cores(p.cpu.value.n)) else None)
    && (p.cpu.Some? && p.cpu.value.MinusInfinity? ==> r.runtime.cpu.None?)
    && r.runtime.memory == (if p.memory.None? then app.runtime.memory
                            else if p.memory.value > 0 then Some(p.memory.value) else None)
    && (if p.route.Some? then RouteBecomes(p.route.value, r.route) else r.route == app.route)
    && (if p.health.Some? then HealthBecomes(p.health.value, r.health) else r.health == app.health)
    && r.volumes == (if p.volumes.Some? then p.volumes.value else app.volumes)
    && (if p.ports.Some? then PortsBecome(p.ports.value, r.ports) else r.ports == app.ports)
    && r.preview.enabled == (if p.previewEnabled.Some? then p.previewEnabled.value else app.preview.enabled)
    && r.preview.base == (if p.previewBase.Some? then Trim(p.previewBase.value) else app.preview.base)
    && r.preview.ttl == (if p.previewTtl.None? then app.preview.ttl
                         else if p.previewTtl.value == 0 then 72 else p.previewTtl.value)
  }

  lemma MergePatches(app: Input, p: Patch)
    requires Validated(app) && Acceptable(Merge(app, p))
    ensures Patched(app, p, Stored(Merge(app, p)))
  {
    NormalIsDefaulted(Merge(app, p));
    hide GitRemote; hide Trim; hide Acceptable; hide Defaulted;
  }

  lemma ApplyPatch(apps: Apps, id: string, p: Patch)
    requires AllValidated(apps)
    ensures id in apps && Acceptable(Merge(apps[id], p)) ==> Patched(apps[id], p, Stored(Merge(apps[id], p)))
  {
    hide Acceptable; hide Merge; hide Patched; hide Validated; hide Stored;
    if id in apps && Acceptable(Merge(apps[id], p)) {
      MergePatches(apps[id], p);
    }
  }

  lemma WithoutKeys(x: Input)
    ensures Acceptable(x) ==> Defaulted(x.(envKeys := {}), Stored(x))
  {
    if Acceptable(x) {
      NormalIsDefaulted(x);
      hide Acceptable; hide SourceBecomes; hide BuildBecomes; hide HealthBecomes; hide RouteBecomes; hide PortsBecome;
      hide Trim;
      hide Normal;
    }
  }

  /** An accepted patch to a stored application of any run replaces exactly the sections it
      holds, and no other application. */
  lemma PatchReplacesItsSections(lower: string -> string, events: seq<Event>, id: string, p: Patch, allowed: bool)
    requires id in Exec(lower, events)
    ensures var apps := Exec(lower, events);
            var after := Step(lower, apps, Update(id, p, allowed));
            && after.Keys == apps.Keys && (forall other :: other in apps && other != id ==> after[other] == apps[other])
            && (after[id] == apps[id] || Patched(apps[id], p, after[id]))
            && (MayStore(lower, apps, Some(id), Merge(apps[id], p), allowed) ==> Patched(apps[id], p, after[id]))
  {
    RunKeeps(lower, events);
    var apps := Exec(lower, events);
    hide Exec; hide Acceptable; hide Normal; hide Validated; hide Merge; hide Patched; hide Stored;
    assert Validated(apps[id]);
    if MayStore(lower, apps, Some(id), Merge(apps[id], p), allowed) {
      MergePatches(apps[id], p);
    }
  }

  // ------------------------------------------------------------------------ the service

  class Service {
    const lower: string -> string
    var apps: Apps

    /** Every stored application passes its own validation, and no domain has two holders. */
    ghost predicate Valid()
      reads this
    {
      OneHolder(lower, apps) && AllValidated(apps)
    }

    constructor (lower: string -> string)
      ensures Valid() && apps == map[] && this.lower == lower
    {
      this.lower, apps := lower, map[];
    }

    /** The loop over the claims on a domain. */
    method CheckDomainFree(self: Option<string>, domain: string, server: string) returns (free: bool)
      ensures free <==> DomainFree(lower, apps, self, domain, server)
      ensures free <==>
              domain != "" ==>
                forall id :: id in apps && Some(id) != self && apps[id].runtime.server == server && apps[id].route.domain != "" ==>
                  lower(apps[id].route.domain) != lower(domain)
    {
      if domain == "" {
        return true;
      }
      var claims := set id | id in apps && apps[id].route.domain != "" && lower(apps[id].route.domain) == lower(domain);
      while claims != {}
        invariant forall id :: id in claims ==> id in apps && apps[id].route.domain != "" && lower(apps[id].route.domain) == lower(domain)
        invariant forall id :: id in apps && id !in claims && Some(id) != self ==> !Clashes(lower, apps[id], domain, server)
        decreases claims
      {
        var id :| id in claims;
        claims := claims - {id};
        if Some(id) != self && apps[id].runtime.server == server {
          assert Clashes(lower, apps[id], domain, server);
          return false;
        }
      }
      free := true;
    }

    method Create(id: string, input: Input, allowed: bool) returns (ok: bool)
      requires Valid() && id !in apps
      modifies this
      ensures Valid() && apps == Step(lower, old(apps), Event.Create(id, input, allowed))
      ensures ok <==> MayStore(lower, old(apps), None, input, allowed)
      ensures ok ==> id in apps && Defaulted(input.(envKeys := {}), apps[id]) && apps - {id} == old(apps)
      ensures !ok ==> apps == old(apps)
    {
      hide Acceptable; hide Normal; hide DomainFree; hide OneHolder; hide AllValidated; hide Defaulted;
      StepKeeps(lower, apps, Event.Create(id, input, allowed));
      WithoutKeys(input);
      var valid := ValidateAndDefault(input);
      if valid.None? {
        return false;
      }
      var x := valid.value;
      var free := CheckDomainFree(None, x.route.domain, x.runtime.server);
      if !free || !allowed {
        return false;
      }
      apps := apps[id := x.(envKeys := {})];
      ok := true;
    }

    method Update(id: string, patch: Patch, allowed: bool) returns (ok: bool)
      requires Valid()
      modifies this
      ensures Valid() && apps == Step(lower, old(apps), Event.Update(id, patch, allowed))
      ensures ok <==> id in old(apps) && MayStore(lower, old(apps), Some(id), Merge(old(apps)[id], patch), allowed)
      ensures ok ==> id in apps && Patched(old(apps)[id], patch, apps[id]) && apps - {id} == old(apps) - {id}
      ensures !ok ==> apps == old(apps)
    {
      hide Acceptable; hide Normal; hide DomainFree; hide Merge; hide OneHolder; hide AllValidated; hide Patched;
      hide Defaulted;
      StepKeeps(lower, apps, Event.Update(id, patch, allowed));
      ApplyPatch(apps, id, patch);
      if id !in apps {
        return false;
      }
      var merged := Merge(apps[id], patch);
      var valid := ValidateAndDefault(merged);
      if valid.None? {
        return false;
      }
      var x := valid.value;
      var free := CheckDomainFree(Some(id), x.route.domain, x.runtime.server);
      if !free || !allowed {
        return false;
      }
      apps := apps[id := x.(envKeys := {})];
      ok := true;
    }
  }
}
