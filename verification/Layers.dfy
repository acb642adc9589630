/**
 * Resolving a step's policy from layers of author permissions: project defaults, a named profile and the
 * step itself (packages/core/src/permissions.ts).
 */
module Layers {
  import opened Common
  import opened Matchers
  import opened Policy
  import opened Executables

  datatype RawMemory = DenyMemory | Flags(flags: MemoryPolicy)

  datatype AgentPermissions = AgentPermissions(
    profile: Option<string>,
    allowedTools: Option<RawMatcher>,
    deniedTools: Option<RawMatcher>,
    allowedExecutables: Option<seq<string>>,
    executableProfiles: Option<seq<string>>,
    allowedMcpServers: Option<seq<string>>,
    allowedSkills: Option<seq<string>>,
    delegation: Option<RawMatcher>,
    allowedSecrets: Option<seq<string>>,
    networkEgress: Option<Network>,
    fsRead: Option<seq<string>>,
    fsWrite: Option<seq<string>>,
    approval: Option<Approval>,
    agentmemory: Option<RawMemory>,
    requestUnrestricted: bool)

  datatype ResolveError = UnknownProfile(name: string) | UnknownExecutableProfile(name: string)

  /** Operator definitions: the executables of each named executable profile. */
  type Definitions = map<string, seq<string>>

  // ---------- one field over all layers ----------

  function Fields<T>(layers: seq<AgentPermissions>, field: AgentPermissions -> Option<T>): seq<Option<T>> {
    seq(|layers|, i requires 0 <= i < |layers| => field(layers[i]))
  }

  // Field selectors, named so that they can be passed as values.
  function ToolsField(p: AgentPermissions): Option<RawMatcher> { p.allowedTools }
  function DeniedField(p: AgentPermissions): Option<RawMatcher> { p.deniedTools }
  function McpField(p: AgentPermissions): Option<seq<string>> { p.allowedMcpServers }
  function SkillsField(p: AgentPermissions): Option<seq<string>> { p.allowedSkills }
  function DelegationField(p: AgentPermissions): Option<RawMatcher> { p.delegation }
  function SecretsField(p: AgentPermissions): Option<seq<string>> { p.allowedSecrets }
  function NetworkField(p: AgentPermissions): Option<Network> { p.networkEgress }
  function FsReadField(p: AgentPermissions): Option<seq<string>> { p.fsRead }
  function FsWriteField(p: AgentPermissions): Option<seq<string>> { p.fsWrite }
  function ApprovalField(p: AgentPermissions): Option<Approval> { p.approval }
  function MemoryField(p: AgentPermissions): Option<RawMemory> { p.agentmemory }

  function InAll(present: seq<seq<string>>): set<string> {
    if present == [] then {} else set x | x in present[0] && forall l | l in present :: x in l
  }

  method IntersectStrings(arrays: seq<Option<seq<string>>>) returns (acc: set<string>)
    ensures acc == InAll(Present(arrays))
  {
    var present := Present(arrays);
    if present == [] { return {}; }
    acc := set x | x in present[0];
    for i := 1 to |present|
      invariant forall x :: x in acc <==> x in present[0] && forall k | 0 <= k < i :: x in present[k]
    {
      var next: set<string> := {};
      for j := 0 to |present[i]|
        invariant forall x :: x in next <==> x in acc && x in present[i][..j]
      {
        if present[i][j] in acc { next := next + {present[i][j]}; }
      }
      acc := next;
    }
  }

  function IntersectNetwork(present: seq<Network>): Network {
    if present == [] then DenyAll
    else if |present| == 1 then present[0]
    else NarrowNetwork(IntersectNetwork(present[..|present| - 1]), present[|present| - 1])
  }

  lemma {:induction false} IntersectNetworkMeaning(present: seq<Network>, host: string)
    ensures NetworkAllows(IntersectNetwork(present), host) <==>
            present != [] && forall n | n in present :: NetworkAllows(n, host)
  {
    if |present| > 1 {
      var front, last := present[..|present| - 1], present[|present| - 1];
      IntersectNetworkMeaning(front, host);
      NarrowNetworkIsExact(IntersectNetwork(front), last, host);
      assert present == front + [last];
    }
  }

  /** `acc` is the conjunction so far, None before the first layer; a 'deny' layer ends the walk. */
  function FoldMemory(acc: Option<MemoryPolicy>, present: seq<RawMemory>): MemoryPolicy
    decreases |present|
  {
    if present == [] then (if acc.Some? then acc.value else MEMORY_DENY)
    else match present[0]
      case DenyMemory => MEMORY_DENY
      case Flags(f) => FoldMemory(Some(if acc.None? then f else IntersectAgentmemory(acc.value, f)), present[1..])
  }

  predicate RawMemoryAllows(m: RawMemory, op: MemoryOp) {
    m.Flags? && m.flags.Allows(op)
  }

  lemma {:induction false} FoldMemoryMeaning(acc: Option<MemoryPolicy>, present: seq<RawMemory>, op: MemoryOp)
    ensures FoldMemory(acc, present).Allows(op) <==>
            && (acc.Some? || present != [])
            && (acc.Some? ==> acc.value.Allows(op))
            && forall m | m in present :: RawMemoryAllows(m, op)
    decreases |present|
  {
    if present != [] {
      var head, tail := present[0], present[1..];
      assert present == [head] + tail;
      match head
      case DenyMemory => assert head in present && !RawMemoryAllows(head, op);
      case Flags(f) =>
        var next := if acc.None? then f else IntersectAgentmemory(acc.value, f);
        if acc.Some? { IntersectAgentmemoryIsExact(acc.value, f, op); }
        FoldMemoryMeaning(Some(next), tail, op);
        assert next.Allows(op) <==> (acc.Some? ==> acc.value.Allows(op)) && RawMemoryAllows(head, op);
        assert forall m :: m in present <==> m == head || m in tail;
    }
  }

  function LastDefined<T>(fields: seq<Option<T>>): Option<T> {
    if fields == [] then None
    else if fields[|fields| - 1].Some? then fields[|fields| - 1]
    else LastDefined(fields[..|fields| - 1])
  }

  method FindLastDefined<T>(fields: seq<Option<T>>) returns (r: Option<T>)
    ensures r == LastDefined(fields)
  {
    var i: int := |fields|;
    assert fields[..i] == fields;
    while i > 0
      invariant 0 <= i <= |fields| && LastDefined(fields) == LastDefined(fields[..i])
    {
      i := i - 1;
      assert fields[..i + 1][..i] == fields[..i];
      if fields[i].Some? { return fields[i]; }
    }
    r := None;
  }

  // ---------- executable profiles ----------

  function FirstUnknown(names: seq<string>, defs: Definitions): Option<string> {
    if names == [] then None
    else if names[0] !in defs then Some(names[0])
    else FirstUnknown(names[1..], defs)
  }

  lemma {:induction false} FirstUnknownMeaning(names: seq<string>, defs: Definitions)
    ensures FirstUnknown(names, defs).None? <==> forall n | n in names :: n in defs
    ensures FirstUnknown(names, defs).Some? ==>
              FirstUnknown(names, defs).value in names && FirstUnknown(names, defs).value !in defs
  {
    if names != [] {
      FirstUnknownMeaning(names[1..], defs);
      assert names == [names[0]] + names[1..];
    }
  }

  /** The executables a layer names through its profiles. */
  function Expanded(names: seq<string>, defs: Definitions): set<string> {
    set n, e | n in names && n in defs && e in defs[n] :: e
  }

  /** A layer's executables: its profiles' union, narrowed by its own explicit list; None when it has neither. */
  function ExpandLayer(p: AgentPermissions, defs: Definitions): Result<Option<set<string>>, string> {
    match p.executableProfiles
    case None => Ok(if p.allowedExecutables.Some? then Some(Entries(p.allowedExecutables.value)) else None)
    case Some(names) =>
      match FirstUnknown(names, defs)
      case Some(name) => Err(name)
      case None =>
        if p.allowedExecutables.None? then Ok(Some(Expanded(names, defs)))
        else Ok(Some(IntersectLayers([Expanded(names, defs), Entries(p.allowedExecutables.value)])))
  }

  /** The inner loop: a profile's executables that are not listed yet. */
  method AddNew(listed: seq<string>, more: seq<string>) returns (r: seq<string>)
    ensures Entries(r) == Entries(listed) + Entries(more)
  {
    r := listed;
    for j := 0 to |more|
      invariant Entries(r) == Entries(listed) + Entries(more[..j])
    {
      var e := more[j];
      assert Entries(more[..j + 1]) == Entries(more[..j]) + {e};
      assert Entries(r + [e]) == Entries(r) + {e};
      if e !in r { r := r + [e]; }
    }
    assert more[..|more|] == more;
  }

  /** `applied` collects the names of the profiles used, as in the source, also when an unknown name stops it. */
  method ExpandLayerExecutables(p: AgentPermissions, defs: Definitions, applied0: set<string>)
    returns (r: Result<Option<set<string>>, string>, applied: set<string>)
    ensures r == ExpandLayer(p, defs)
    ensures p.executableProfiles.None? ==> applied == applied0
    ensures p.executableProfiles.Some? && r.Ok? ==> applied == applied0 + Entries(p.executableProfiles.value)
  {
    applied := applied0;
    if p.executableProfiles.None? {
      return Ok(if p.allowedExecutables.Some? then Some(Entries(p.allowedExecutables.value)) else None), applied;
    }
    var names := p.executableProfiles.value;
    var expanded: seq<string> := [];
    for i := 0 to |names|
      invariant FirstUnknown(names, defs) == FirstUnknown(names[i..], defs)
      invariant Entries(expanded) == Expanded(names[..i], defs)
      invariant applied == applied0 + Entries(names[..i])
    {
      var name := names[i];
      assert names[i..][1..] == names[i + 1..] && names[i..][0] == name;
      assert names[..i + 1] == names[..i] + [name];
      if name !in defs { return Err(name), applied; }
      applied := applied + {name};
      expanded := AddNew(expanded, defs[name]);
      assert Expanded(names[..i + 1], defs) == Expanded(names[..i], defs) + Entries(defs[name]);
    }
    assert names[..|names|] == names;
    if p.allowedExecutables.None? { return Ok(Some(Entries(expanded))), applied; }
    var both := [Some(expanded), Some(p.allowedExecutables.value)];
    var met := IntersectExecutables(both);
    assert EntrySets(Present(both)) == [Entries(expanded), Entries(p.allowedExecutables.value)] by {
      assert Present(both[1..]) == [p.allowedExecutables.value] by { assert both[1..][1..] == []; }
      assert Present(both) == [expanded] + Present(both[1..]);
    }
    return Ok(Some(met)), applied;
  }

  /** The expansion of every layer, or the first unknown profile name. */
  function ExpandLayers(layers: seq<AgentPermissions>, defs: Definitions): Result<seq<Option<set<string>>>, string> {
    if layers == [] then Ok([])
    else match ExpandLayer(layers[0], defs)
      case Err(name) => Err(name)
      case Ok(first) =>
        match ExpandLayers(layers[1..], defs)
        case Err(name) => Err(name)
        case Ok(rest) => Ok([first] + rest)
  }

  lemma {:induction false} ExpandLayersMeaning(layers: seq<AgentPermissions>, defs: Definitions)
    ensures ExpandLayers(layers, defs).Ok? <==> forall p | p in layers :: ExpandLayer(p, defs).Ok?
    ensures ExpandLayers(layers, defs).Ok? ==>
              && |ExpandLayers(layers, defs).value| == |layers|
              && forall i | 0 <= i < |layers| :: ExpandLayer(layers[i], defs) == Ok(ExpandLayers(layers, defs).value[i])
    ensures ExpandLayers(layers, defs).Err? ==>
              exists p | p in layers :: ExpandLayer(p, defs) == Err(ExpandLayers(layers, defs).error)
  {
    if layers != [] {
      ExpandLayersMeaning(layers[1..], defs);
      assert layers == [layers[0]] + layers[1..];
      assert layers[0] in layers;
    }
  }

  function ProfileNames(layers: seq<AgentPermissions>): set<string> {
    set p, n | p in layers && p.executableProfiles.Some? && n in p.executableProfiles.value :: n
  }

  // ---------- resolvePermissions ----------

  function Inputs(defaults: Option<AgentPermissions>, step: Option<AgentPermissions>,
                  profiles: map<string, AgentPermissions>): seq<AgentPermissions> {
    Present([defaults,
             if step.Some? && step.value.profile.Some? && step.value.profile.value in profiles
             then Some(profiles[step.value.profile.value]) else None,
             if step.Some? then Some(step.value.(profile := None)) else None])
  }

  function Combine(layers: seq<AgentPermissions>, executables: seq<Option<set<string>>>, grant: bool): ResolvedPolicy {
    ResolvedPolicy(
      allowedTools := StructuralAll(Normalized(Fields(layers, ToolsField))),
      deniedTools := UnionAll(Fields(layers, DeniedField)),
      allowedExecutables := IntersectLayers(Present(executables)),
      allowedMcpServers := InAll(Present(Fields(layers, McpField))),
      allowedSkills := InAll(Present(Fields(layers, SkillsField))),
      allowedAgents := StructuralAll(Normalized(Fields(layers, DelegationField))),
      allowedSecrets := InAll(Present(Fields(layers, SecretsField))),
      networkEgress := IntersectNetwork(Present(Fields(layers, NetworkField))),
      fsRead := InAll(Present(Fields(layers, FsReadField))),
      fsWrite := InAll(Present(Fields(layers, FsWriteField))),
      approval := LastDefined(Fields(layers, ApprovalField)),
      agentmemory := FoldMemory(None, Present(Fields(layers, MemoryField))),
      executableProfileNames := Some(ProfileNames(layers)),
      unrestricted := grant && exists p | p in layers :: p.requestUnrestricted)
  }

  function ResolvePermissions(defaults: Option<AgentPermissions>, step: Option<AgentPermissions>,
                              profiles: map<string, AgentPermissions>, grant: bool, defs: Definitions)
    : Result<ResolvedPolicy, ResolveError>
  {
    if step.Some? && step.value.profile.Some? && step.value.profile.value !in profiles
    then Err(UnknownProfile(step.value.profile.value))
    else
      var layers := Inputs(defaults, step, profiles);
      match ExpandLayers(layers, defs)
      case Err(name) => Err(UnknownExecutableProfile(name))
      case Ok(executables) => Ok(Combine(layers, executables, grant))
  }

  // ---------- what resolution means ----------

  /** The layer says something about the dimension of the request. */
  predicate Defines(p: AgentPermissions, req: Request) {
    match req
    case Tool(_) => p.allowedTools.Some?
    case BuiltinTool(_) => false
    case Delegate(_) => p.delegation.Some?
    case Exec(_) => p.allowedExecutables.Some? || p.executableProfiles.Some?
    case Mcp(_) => p.allowedMcpServers.Some?
    case Skill(_) => p.allowedSkills.Some?
    case Secret(_) => p.allowedSecrets.Some?
    case Fetch(_) => p.networkEgress.Some?
    case Memory(_) => p.agentmemory.Some?
    case Read(_) => p.fsRead.Some?
    case Write(_) => p.fsWrite.Some?
  }

  predicate RootListAdmits(roots: seq<string>, path: string) {
    exists root | root in roots :: FsPath.RootAdmits(root, path)
  }

  /** The layer, on its own, allows the request. */
  predicate LayerAllows(p: AgentPermissions, defs: Definitions, req: Request)
    requires Defines(p, req)
  {
    match req
    case Tool(id) => Matches(NormalizeMatcher(p.allowedTools.value), id)
    case BuiltinTool(_) => true
    case Delegate(id) => Matches(NormalizeMatcher(p.delegation.value), id)
    case Exec(binary) =>
      var e := ExpandLayer(p, defs);
      e.Ok? && e.value.Some? && Covered(binary, e.value.value)
    case Mcp(id) => id in p.allowedMcpServers.value
    case Skill(id) => id in p.allowedSkills.value
    case Secret(name) => name in p.allowedSecrets.value
    case Fetch(host) => NetworkAllows(p.networkEgress.value, host)
    case Memory(op) => RawMemoryAllows(p.agentmemory.value, op)
    case Read(path) => RootListAdmits(p.fsRead.value, path)
    case Write(path) => RootListAdmits(p.fsWrite.value, path)
  }

  predicate LayerDenies(p: AgentPermissions, req: Request) {
    match req
    case Tool(id) => p.deniedTools.Some? && Matches(NormalizeMatcher(p.deniedTools.value), id)
    case BuiltinTool(id) => p.deniedTools.Some? && Matches(NormalizeMatcher(p.deniedTools.value), id)
    case _ => false
  }

  lemma FieldsMeaning<T>(layers: seq<AgentPermissions>, field: AgentPermissions -> Option<T>, x: T)
    ensures x in Present(Fields(layers, field)) <==> exists p | p in layers :: field(p) == Some(x)
  {
    var fields := Fields(layers, field);
    PresentMeaning(fields, x);
    if Some(x) in fields {
      var i :| 0 <= i < |fields| && fields[i] == Some(x);
      assert layers[i] in layers;
    }
    if p :| p in layers && field(p) == Some(x) {
      var i :| 0 <= i < |layers| && layers[i] == p;
      assert fields[i] == Some(x);
    }
  }

  lemma FieldsEmptyMeaning<T>(layers: seq<AgentPermissions>, field: AgentPermissions -> Option<T>)
    ensures Present(Fields(layers, field)) == [] <==> forall p | p in layers :: field(p).None?
  {
    var present := Present(Fields(layers, field));
    if present != [] { FieldsMeaning(layers, field, present[0]); }
    forall p | p in layers && field(p).Some? ensures present != [] {
      FieldsMeaning(layers, field, field(p).value);
    }
  }

  /** A string-list dimension allows exactly what every defining layer lists, and nothing if none defines it. */
  lemma InAllMeaning(layers: seq<AgentPermissions>, field: AgentPermissions -> Option<seq<string>>, x: string)
    ensures x in InAll(Present(Fields(layers, field))) <==>
            && (exists p | p in layers :: field(p).Some?)
            && (forall p | p in layers :: field(p).Some? ==> x in field(p).value)
  {
    var present := Present(Fields(layers, field));
    FieldsEmptyMeaning(layers, field);
    forall p | p in layers && field(p).Some? ensures field(p).value in present {
      FieldsMeaning(layers, field, field(p).value);
    }
    forall l | l in present ensures exists p | p in layers :: field(p) == Some(l) {
      FieldsMeaning(layers, field, l);
    }
    if present != [] { assert present[0] in present; }
  }

  /** The dimensions whose layers combine as a plain conjunction. */
  predicate IsConjunctive(req: Request) {
    req.Mcp? || req.Skill? || req.Secret? || req.Fetch? || req.Memory?
  }

  ghost predicate AllDefiningLayersAllow(layers: seq<AgentPermissions>, defs: Definitions, req: Request) {
    && (exists p | p in layers :: Defines(p, req))
    && (forall p | p in layers && Defines(p, req) :: LayerAllows(p, defs, req))
  }

  lemma NetworkFieldMeaning(layers: seq<AgentPermissions>, defs: Definitions, host: string)
    ensures NetworkAllows(IntersectNetwork(Present(Fields(layers, NetworkField))), host)
            <==> AllDefiningLayersAllow(layers, defs, Fetch(host))
  {
    var present := Present(Fields(layers, NetworkField));
    IntersectNetworkMeaning(present, host);
    FieldsEmptyMeaning(layers, NetworkField);
    forall n: Network ensures n in present <==> exists p | p in layers :: NetworkField(p) == Some(n) {
      FieldsMeaning(layers, NetworkField, n);
    }
    assert forall p :: Defines(p, Fetch(host)) <==> NetworkField(p).Some?;
  }

  lemma MemoryFieldMeaning(layers: seq<AgentPermissions>, defs: Definitions, op: MemoryOp)
    ensures FoldMemory(None, Present(Fields(layers, MemoryField))).Allows(op)
            <==> AllDefiningLayersAllow(layers, defs, Memory(op))
  {
    var present := Present(Fields(layers, MemoryField));
    FoldMemoryMeaning(None, present, op);
    FieldsEmptyMeaning(layers, MemoryField);
    forall m: RawMemory ensures m in present <==> exists p | p in layers :: MemoryField(p) == Some(m) {
      FieldsMeaning(layers, MemoryField, m);
    }
    assert forall p :: Defines(p, Memory(op)) <==> MemoryField(p).Some?;
  }

  /**
   * Servers, skills, secrets, hosts and memory operations: allowed exactly when some layer speaks about the
   * dimension and every layer that does allows it.
   */
  lemma ConjunctiveDimensionsAreExact(layers: seq<AgentPermissions>, executables: seq<Option<set<string>>>,
                                      grant: bool, defs: Definitions, req: Request)
    requires IsConjunctive(req) && !Combine(layers, executables, grant).unrestricted
    ensures Allowed(Combine(layers, executables, grant), req) <==> AllDefiningLayersAllow(layers, defs, req)
  {
    match req
    case Mcp(id) =>
      InAllMeaning(layers, McpField, id);
      assert forall p :: Defines(p, req) <==> McpField(p).Some?;
    case Skill(id) =>
      InAllMeaning(layers, SkillsField, id);
      assert forall p :: Defines(p, req) <==> SkillsField(p).Some?;
    case Secret(name) =>
      InAllMeaning(layers, SecretsField, name);
      assert forall p :: Defines(p, req) <==> SecretsField(p).Some?;
    case Fetch(host) => NetworkFieldMeaning(layers, defs, host);
    case Memory(op) => MemoryFieldMeaning(layers, defs, op);
  }

  /** The executables a layer grants, after expanding its profiles. */
  function Granted(p: AgentPermissions, defs: Definitions): set<string> {
    match ExpandLayer(p, defs)
    case Ok(Some(entries)) => entries
    case _ => {}
  }

  lemma ExpandedPresence(layers: seq<AgentPermissions>, executables: seq<Option<set<string>>>,
                         defs: Definitions, entries: set<string>)
    requires ExpandLayers(layers, defs) == Ok(executables)
    ensures entries in Present(executables) <==> exists p | p in layers :: ExpandLayer(p, defs) == Ok(Some(entries))
  {
  }

  /**
   * Executables: allowed exactly when some layer, after expanding its profiles, lists the entry and every layer
   * that names executables covers it, by the same entry or by the bare name of its path.
   */
  lemma ExecutablesAreExact(layers: seq<AgentPermissions>, executables: seq<Option<set<string>>>,
                            grant: bool, defs: Definitions, binary: string)
    requires ExpandLayers(layers, defs) == Ok(executables)
    requires !Combine(layers, executables, grant).unrestricted
    ensures Allowed(Combine(layers, executables, grant), Exec(binary)) <==>
            && (exists p | p in layers :: binary in Granted(p, defs))
            && (forall p | p in layers && Defines(p, Exec(binary)) :: LayerAllows(p, defs, Exec(binary)))
  {
    var present := Present(executables);
    SomeLayerLists(layers, executables, defs, binary);
    EveryLayerCovers(layers, executables, defs, binary);
    if present != [] { IntersectionMeaning(present, binary); }
  }

  lemma SomeLayerLists(layers: seq<AgentPermissions>, executables: seq<Option<set<string>>>, defs: Definitions,
                       binary: string)
    requires ExpandLayers(layers, defs) == Ok(executables)
    ensures ListedInSome(binary, Present(executables)) <==> exists p | p in layers :: binary in Granted(p, defs)
  {
    if ListedInSome(binary, Present(executables)) {
      var entries :| entries in Present(executables) && binary in entries;
      ExpandedPresence(layers, executables, defs, entries);
      var p :| p in layers && ExpandLayer(p, defs) == Ok(Some(entries));
      assert binary in Granted(p, defs);
    }
    if p :| p in layers && binary in Granted(p, defs) {
      ExpandedPresence(layers, executables, defs, Granted(p, defs));
      assert ExpandLayer(p, defs) == Ok(Some(Granted(p, defs)));
    }
  }

  lemma EveryLayerCovers(layers: seq<AgentPermissions>, executables: seq<Option<set<string>>>, defs: Definitions,
                         binary: string)
    requires ExpandLayers(layers, defs) == Ok(executables)
    ensures CoveredByAll(binary, Present(executables))
            <==> forall p | p in layers && Defines(p, Exec(binary)) :: LayerAllows(p, defs, Exec(binary))
  {
    ExpandLayersMeaning(layers, defs);
    if CoveredByAll(binary, Present(executables)) {
      forall p | p in layers && Defines(p, Exec(binary)) ensures LayerAllows(p, defs, Exec(binary)) {
        assert ExpandLayer(p, defs).Ok?;
        ExpandedPresence(layers, executables, defs, Granted(p, defs));
      }
    } else {
      var entries :| entries in Present(executables) && !Covered(binary, entries);
      ExpandedPresence(layers, executables, defs, entries);
      var p :| p in layers && ExpandLayer(p, defs) == Ok(Some(entries));
      assert Defines(p, Exec(binary)) && !LayerAllows(p, defs, Exec(binary));
    }
  }

  lemma NormalizedMeaning(layers: seq<AgentPermissions>, field: AgentPermissions -> Option<RawMatcher>,
                          p: AgentPermissions)
    requires p in layers && field(p).Some?
    ensures NormalizeMatcher(field(p).value) in Normalized(Fields(layers, field))
  {
    var present := Present(Fields(layers, field));
    FieldsMeaning(layers, field, field(p).value);
    var i :| 0 <= i < |present| && present[i] == field(p).value;
    assert Normalized(Fields(layers, field))[i] == NormalizeMatcher(field(p).value);
  }

  /** The structural intersection over layers: below every layer that defines it, and empty if none does. */
  lemma StructuralLayersBound(layers: seq<AgentPermissions>, field: AgentPermissions -> Option<RawMatcher>, id: string)
    requires Matches(StructuralAll(Normalized(Fields(layers, field))), id)
    ensures exists p | p in layers :: field(p).Some?
    ensures forall p | p in layers && field(p).Some? :: Matches(NormalizeMatcher(field(p).value), id)
  {
    FieldsEmptyMeaning(layers, field);
    forall p | p in layers && field(p).Some? ensures Matches(NormalizeMatcher(field(p).value), id) {
      NormalizedMeaning(layers, field, p);
      StructuralIsLowerBound(Normalized(Fields(layers, field)), NormalizeMatcher(field(p).value), id);
    }
  }

  lemma DenialsAreUnioned(layers: seq<AgentPermissions>, id: string)
    ensures Matches(UnionAll(Fields(layers, DeniedField)), id) <==> exists p | p in layers :: LayerDenies(p, Tool(id))
    ensures forall p :: LayerDenies(p, Tool(id)) <==> LayerDenies(p, BuiltinTool(id))
  {
    var fields := Fields(layers, DeniedField);
    UnionAllIsExact(fields, id);
    if Matches(UnionAll(fields), id) {
      var l :| l in fields && l.Some? && Matches(NormalizeMatcher(l.value), id);
      var i :| 0 <= i < |fields| && fields[i] == l;
      assert fields[i] == DeniedField(layers[i]) == layers[i].deniedTools;
      assert LayerDenies(layers[i], Tool(id));
    }
    if p :| p in layers && LayerDenies(p, Tool(id)) {
      var i :| 0 <= i < |layers| && layers[i] == p;
      assert fields[i] == DeniedField(p) == p.deniedTools;
    }
  }

  lemma FsBound(layers: seq<AgentPermissions>, field: AgentPermissions -> Option<seq<string>>, path: string)
    requires SomeRootAdmits(InAll(Present(Fields(layers, field))), path)
    ensures exists p | p in layers :: field(p).Some?
    ensures forall p | p in layers && field(p).Some? :: RootListAdmits(field(p).value, path)
  {
    var root :| root in InAll(Present(Fields(layers, field))) && FsPath.RootAdmits(root, path);
    InAllMeaning(layers, field, root);
  }

  /**
   * Every layer that speaks about the dimension allows the request and no layer denies it; and some layer speaks about
   * the dimension (built-in tools have a denylist only).
   */
  ghost predicate Bounded(layers: seq<AgentPermissions>, defs: Definitions, req: Request) {
    && (req.BuiltinTool? || exists p | p in layers :: Defines(p, req))
    && (forall p | p in layers && Defines(p, req) :: LayerAllows(p, defs, req))
    && (forall p | p in layers :: !LayerDenies(p, req))
  }

  lemma ToolsAreBounded(layers: seq<AgentPermissions>, executables: seq<Option<set<string>>>,
                        grant: bool, defs: Definitions, id: string)
    requires !Combine(layers, executables, grant).unrestricted
    ensures Allowed(Combine(layers, executables, grant), Tool(id)) ==> Bounded(layers, defs, Tool(id))
    ensures Allowed(Combine(layers, executables, grant), BuiltinTool(id)) ==> Bounded(layers, defs, BuiltinTool(id))
  {
    DenialsAreUnioned(layers, id);
    if Allowed(Combine(layers, executables, grant), Tool(id)) { StructuralLayersBound(layers, ToolsField, id); }
  }

  lemma TargetsAreBounded(layers: seq<AgentPermissions>, executables: seq<Option<set<string>>>,
                          grant: bool, defs: Definitions, id: string)
    requires !Combine(layers, executables, grant).unrestricted
    requires Allowed(Combine(layers, executables, grant), Delegate(id))
    ensures Bounded(layers, defs, Delegate(id))
  {
    StructuralLayersBound(layers, DelegationField, id);
  }

  lemma ReadsAreBounded(layers: seq<AgentPermissions>, defs: Definitions, path: string)
    requires SomeRootAdmits(InAll(Present(Fields(layers, FsReadField))), path)
    ensures Bounded(layers, defs, Read(path))
  {
    FsBound(layers, FsReadField, path);
    var some :| some in layers && FsReadField(some).Some?;
    assert Defines(some, Read(path));
    forall p | p in layers && Defines(p, Read(path)) ensures LayerAllows(p, defs, Read(path)) {
      assert FsReadField(p) == p.fsRead;
    }
  }

  lemma WritesAreBounded(layers: seq<AgentPermissions>, defs: Definitions, path: string)
    requires SomeRootAdmits(InAll(Present(Fields(layers, FsWriteField))), path)
    ensures Bounded(layers, defs, Write(path))
  {
    FsBound(layers, FsWriteField, path);
    var some :| some in layers && FsWriteField(some).Some?;
    assert Defines(some, Write(path));
    forall p | p in layers && Defines(p, Write(path)) ensures LayerAllows(p, defs, Write(path)) {
      assert FsWriteField(p) == p.fsWrite;
    }
  }

  lemma ExecutablesAreBounded(layers: seq<AgentPermissions>, executables: seq<Option<set<string>>>,
                              grant: bool, defs: Definitions, binary: string)
    requires ExpandLayers(layers, defs) == Ok(executables) && !Combine(layers, executables, grant).unrestricted
    requires Allowed(Combine(layers, executables, grant), Exec(binary))
    ensures Bounded(layers, defs, Exec(binary))
  {
    ExecutablesAreExact(layers, executables, grant, defs, binary);
  }

  /** What a combination without the bypass allows is bounded by the layers. */
  lemma ResolutionIsALowerBound(layers: seq<AgentPermissions>, executables: seq<Option<set<string>>>,
                                grant: bool, defs: Definitions, req: Request)
    requires ExpandLayers(layers, defs) == Ok(executables)
    requires !Combine(layers, executables, grant).unrestricted && Allowed(Combine(layers, executables, grant), req)
    ensures Bounded(layers, defs, req)
  {
    match req
    case Tool(id) => ToolsAreBounded(layers, executables, grant, defs, id);
    case BuiltinTool(id) => ToolsAreBounded(layers, executables, grant, defs, id);
    case Delegate(id) => TargetsAreBounded(layers, executables, grant, defs, id);
    case Exec(binary) => ExecutablesAreBounded(layers, executables, grant, defs, binary);
    case Read(path) =>
      ReadsAreBounded(layers, defs, path);
    case Write(path) =>
      WritesAreBounded(layers, defs, path);
    case _ => ConjunctiveDimensionsAreExact(layers, executables, grant, defs, req);
  }

  /** Intersection only: the same of whatever a step resolves to, over the layers that were merged. */
  lemma ResolvedIsALowerBound(defaults: Option<AgentPermissions>, step: Option<AgentPermissions>,
                              profiles: map<string, AgentPermissions>, grant: bool, defs: Definitions, req: Request)
    requires var r := ResolvePermissions(defaults, step, profiles, grant, defs);
             r.Ok? && !r.value.unrestricted && Allowed(r.value, req)
    ensures Bounded(Inputs(defaults, step, profiles), defs, req)
  {
    var layers := Inputs(defaults, step, profiles);
    ResolutionIsALowerBound(layers, ExpandLayers(layers, defs).value, grant, defs, req);
  }

  // ---------- approval is replaced, not intersected ----------

  predicate LayerGates(p: AgentPermissions, d: Dimension) {
    p.approval.Some? && d in p.approval.value.on
  }

  /** The k-th layer is the last one that says anything about approval. */
  predicate LastOnApproval(layers: seq<AgentPermissions>, k: int) {
    && 0 <= k < |layers| && layers[k].approval.Some?
    && forall j | k < j < |layers| :: layers[j].approval.None?
  }

  lemma FieldsFront<T>(layers: seq<AgentPermissions>, field: AgentPermissions -> Option<T>)
    requires layers != []
    ensures Fields(layers, field)[..|layers| - 1] == Fields(layers[..|layers| - 1], field)
  {
    var n := |layers| - 1;
    var front := layers[..n];
    forall i | 0 <= i < n ensures Fields(layers, field)[..n][i] == Fields(front, field)[i] {
      assert front[i] == layers[i];
    }
  }

  lemma {:induction false} LastApproval(layers: seq<AgentPermissions>)
    ensures LastDefined(Fields(layers, ApprovalField)).Some? <==> exists k :: LastOnApproval(layers, k)
    ensures forall k | LastOnApproval(layers, k) :: LastDefined(Fields(layers, ApprovalField)) == layers[k].approval
  {
    if layers != [] {
      var n := |layers| - 1;
      var front, fields := layers[..n], Fields(layers, ApprovalField);
      LastApproval(front);
      FieldsFront(layers, ApprovalField);
      assert fields[n] == ApprovalField(layers[n]) == layers[n].approval;
      if layers[n].approval.Some? {
        assert LastOnApproval(layers, n);
        forall k | LastOnApproval(layers, k) ensures k == n {}
      } else {
        forall k ensures LastOnApproval(layers, k) <==> LastOnApproval(front, k) { SilentLayer(layers, k); }
      }
    }
  }

  lemma SilentLayer(layers: seq<AgentPermissions>, k: int)
    requires layers != [] && layers[|layers| - 1].approval.None?
    ensures LastOnApproval(layers, k) <==> LastOnApproval(layers[..|layers| - 1], k)
  {
    var front := layers[..|layers| - 1];
    assert forall j | 0 <= j < |front| :: front[j] == layers[j];
    if LastOnApproval(front, k) {
      forall j | k < j < |layers| ensures layers[j].approval.None? {
        if j < |front| { assert front[j].approval.None?; }
      }
    }
  }

  /** A dimension is gated exactly when the last layer that says anything about approval gates it. */
  lemma GatedByTheLastLayer(layers: seq<AgentPermissions>, executables: seq<Option<set<string>>>, grant: bool,
                            d: Dimension)
    ensures Gates(Combine(layers, executables, grant), d)
            <==> exists k :: LastOnApproval(layers, k) && LayerGates(layers[k], d)
  {
    LastApproval(layers);
  }

  /** So a step that states its own approval drops a gate of the defaults, whatever else is merged. */
  lemma StepApprovalReplacesTheDefaults(defaults: AgentPermissions, step: AgentPermissions,
                                        profiles: map<string, AgentPermissions>, grant: bool, defs: Definitions,
                                        d: Dimension)
    requires LayerGates(defaults, d) && step.approval.Some? && !LayerGates(step, d)
    requires ResolvePermissions(Some(defaults), Some(step), profiles, grant, defs).Ok?
    ensures !Gates(ResolvePermissions(Some(defaults), Some(step), profiles, grant, defs).value, d)
  {
    var layers := Inputs(Some(defaults), Some(step), profiles);
    var last := |layers| - 1;
    StepIsLast(Some(defaults), step, profiles);
    assert LastOnApproval(layers, last);
    GatedByTheLastLayer(layers, ExpandLayers(layers, defs).value, grant, d);
  }

  lemma StepIsLast(defaults: Option<AgentPermissions>, step: AgentPermissions, profiles: map<string, AgentPermissions>)
    ensures var layers := Inputs(defaults, Some(step), profiles);
            layers != [] && layers[|layers| - 1] == step.(profile := None)
  {
    var named := if step.profile.Some? && step.profile.value in profiles
                 then Some(profiles[step.profile.value]) else None;
    PresentPush([defaults, named], step.(profile := None));
    assert [defaults, named, Some(step.(profile := None))] == [defaults, named] + [Some(step.(profile := None))];
  }

  lemma {:induction false} PresentPush<T>(fields: seq<Option<T>>, x: T)
    ensures Present(fields + [Some(x)]) == Present(fields) + [x]
  {
    if fields == [] {
      assert fields + [Some(x)] == [Some(x)] && [Some(x)][1..] == [];
    } else {
      assert (fields + [Some(x)])[0] == fields[0] && (fields + [Some(x)])[1..] == fields[1..] + [Some(x)];
      PresentPush(fields[1..], x);
    }
  }

  /** The bypass takes two keys: the operator's grant and a request in some layer that was merged. */
  lemma BypassTakesTwoKeys(defaults: Option<AgentPermissions>, step: Option<AgentPermissions>,
                           profiles: map<string, AgentPermissions>, grant: bool, defs: Definitions)
    requires ResolvePermissions(defaults, step, profiles, grant, defs).Ok?
    ensures ResolvePermissions(defaults, step, profiles, grant, defs).value.unrestricted <==>
            && grant
            && ( || (defaults.Some? && defaults.value.requestUnrestricted)
                 || (step.Some? && step.value.requestUnrestricted)
                 || (step.Some? && step.value.profile.Some?
                     && profiles[step.value.profile.value].requestUnrestricted))
  {
    InputsMeaning(defaults, step, profiles);
  }

  lemma InputsMeaning(defaults: Option<AgentPermissions>, step: Option<AgentPermissions>,
                      profiles: map<string, AgentPermissions>)
    ensures forall p :: p in Inputs(defaults, step, profiles) <==>
              || defaults == Some(p)
              || (step.Some? && step.value.profile.Some? && step.value.profile.value in profiles
                  && profiles[step.value.profile.value] == p)
              || (step.Some? && step.value.(profile := None) == p)
  {
    forall p { PresentMeaning([defaults,
             if step.Some? && step.value.profile.Some? && step.value.profile.value in profiles
             then Some(profiles[step.value.profile.value]) else None,
             if step.Some? then Some(step.value.(profile := None)) else None], p); }
  }

  /** Resolution fails exactly on a name nobody defined: the step's profile, or an executable profile of a layer. */
  lemma ResolutionFailsIff(defaults: Option<AgentPermissions>, step: Option<AgentPermissions>,
                           profiles: map<string, AgentPermissions>, grant: bool, defs: Definitions)
    ensures var r := ResolvePermissions(defaults, step, profiles, grant, defs);
            var unknownProfile := step.Some? && step.value.profile.Some? && step.value.profile.value !in profiles;
            && (r.Err? && r.error.UnknownProfile? <==> unknownProfile)
            && (r.Ok? <==> !unknownProfile && forall p, n | p in Inputs(defaults, step, profiles)
                                                           && p.executableProfiles.Some?
                                                           && n in p.executableProfiles.value :: n in defs)
  {
    var layers := Inputs(defaults, step, profiles);
    ExpandLayersMeaning(layers, defs);
    forall p | p in layers
      ensures ExpandLayer(p, defs).Ok? <==>
              p.executableProfiles.Some? ==> forall n | n in p.executableProfiles.value :: n in defs
    {
      if p.executableProfiles.Some? { FirstUnknownMeaning(p.executableProfiles.value, defs); }
    }
  }
}
