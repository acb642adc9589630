/** Resolved policies and the enforcer that reads them (packages/core/src/permissions.ts). */
module Policy {
  import opened Common
  import opened Matchers
  import Executables
  import FsPath

  datatype Dimension =
    | ToolDim | ExecutableDim | McpDim | SkillDim | SecretDim | NetworkDim | FsReadDim | FsWriteDim
    | AgentmemoryDim | DelegationDim

  datatype Reason = NoPolicy | NotInAllowlist | InDenylist | HostNotAllowed | PathNotInAllowlist

  datatype Decision = Allow | Deny(reason: Reason, dimension: Dimension)

  datatype Network = AllowAll | DenyAll | Hosts(allowHosts: seq<string>)

  datatype MemoryOp = Observe | Search | Session | Context | Save | Recall | Graph

  datatype MemoryPolicy = MemoryPolicy(
    allowObserve: bool, allowSearch: bool, allowSession: bool, allowContext: bool,
    allowSave: bool, allowRecall: bool, allowGraph: bool)
  {
    predicate Allows(op: MemoryOp) {
      match op
      case Observe => allowObserve
      case Search => allowSearch
      case Session => allowSession
      case Context => allowContext
      case Save => allowSave
      case Recall => allowRecall
      case Graph => allowGraph
    }
  }

  const MEMORY_DENY := MemoryPolicy(false, false, false, false, false, false, false)

  datatype Approval = Approval(on: seq<Dimension>, rememberFor: Option<int>)

  datatype ResolvedPolicy = ResolvedPolicy(
    allowedTools: Matcher,
    deniedTools: Matcher,
    allowedExecutables: set<string>,
    allowedMcpServers: set<string>,
    allowedSkills: set<string>,
    allowedAgents: Matcher,
    allowedSecrets: set<string>,
    networkEgress: Network,
    fsRead: set<string>,
    fsWrite: set<string>,
    approval: Option<Approval>,
    agentmemory: MemoryPolicy,
    executableProfileNames: Option<set<string>>,
    unrestricted: bool)

  datatype Request =
    | Tool(toolId: string)
    | BuiltinTool(toolId: string)
    | Delegate(agentId: string)
    | Exec(binary: string)
    | Mcp(serverId: string)
    | Skill(skillId: string)
    | Secret(name: string)
    | Fetch(host: string)
    | Memory(op: MemoryOp)
    | Read(path: string)
    | Write(path: string)

  datatype TrustEnforcer = TrustEnforcer(policy: ResolvedPolicy)
  {
    function CanCallTool(toolId: string): Decision {
      if policy.unrestricted then Allow
      else if Matches(policy.deniedTools, toolId) then Deny(InDenylist, ToolDim)
      else if !Matches(policy.allowedTools, toolId) then Deny(NotInAllowlist, ToolDim)
      else Allow
    }

    function CanUseBuiltinTool(toolId: string): Decision {
      if policy.unrestricted then Allow
      else if Matches(policy.deniedTools, toolId) then Deny(InDenylist, ToolDim)
      else Allow
    }

    function CanDelegate(agentId: string): Decision {
      if policy.unrestricted then Allow
      else if !Matches(policy.allowedAgents, agentId) then Deny(NotInAllowlist, DelegationDim)
      else Allow
    }

    function CanExec(binary: string): Decision {
      if policy.unrestricted then Allow
      else if binary in policy.allowedExecutables then Allow
      else Deny(if Executables.HasPathSeparator(binary) then PathNotInAllowlist else NotInAllowlist, ExecutableDim)
    }

    function CanAttachMcpServer(serverId: string): Decision {
      if policy.unrestricted then Allow
      else if serverId !in policy.allowedMcpServers then Deny(NotInAllowlist, McpDim)
      else Allow
    }

    function CanLoadSkill(skillId: string): Decision {
      if policy.unrestricted then Allow
      else if skillId !in policy.allowedSkills then Deny(NotInAllowlist, SkillDim)
      else Allow
    }

    function CanAccessSecret(name: string): Decision {
      if policy.unrestricted then Allow
      else if name !in policy.allowedSecrets then Deny(NotInAllowlist, SecretDim)
      else Allow
    }

    function CanFetch(host: string): Decision {
      if policy.unrestricted then Allow
      else match policy.networkEgress
        case AllowAll => Allow
        case DenyAll => Deny(NoPolicy, NetworkDim)
        case Hosts(hosts) => if host in hosts then Allow else Deny(HostNotAllowed, NetworkDim)
    }

    function CanUseAgentmemory(op: MemoryOp): Decision {
      if policy.unrestricted || policy.agentmemory.Allows(op) then Allow
      else Deny(NotInAllowlist, AgentmemoryDim)
    }

    function CanRead(path: string): Decision {
      CanFsAccess(path, policy.fsRead, FsReadDim)
    }

    function CanWrite(path: string): Decision {
      CanFsAccess(path, policy.fsWrite, FsWriteDim)
    }

    function CanFsAccess(path: string, roots: set<string>, dimension: Dimension): Decision {
      if policy.unrestricted then Allow
      else if SomeRootAdmits(roots, path) then Allow
      else Deny(PathNotInAllowlist, dimension)
    }

    function Decide(req: Request): Decision {
      match req
      case Tool(id) => CanCallTool(id)
      case BuiltinTool(id) => CanUseBuiltinTool(id)
      case Delegate(id) => CanDelegate(id)
      case Exec(binary) => CanExec(binary)
      case Mcp(id) => CanAttachMcpServer(id)
      case Skill(id) => CanLoadSkill(id)
      case Secret(name) => CanAccessSecret(name)
      case Fetch(host) => CanFetch(host)
      case Memory(op) => CanUseAgentmemory(op)
      case Read(path) => CanRead(path)
      case Write(path) => CanWrite(path)
    }
  }

  predicate SomeRootAdmits(roots: set<string>, path: string) {
    exists root | root in roots :: FsPath.RootAdmits(root, path)
  }

  predicate Allowed(p: ResolvedPolicy, req: Request) {
    TrustEnforcer(p).Decide(req).Allow?
  }

  predicate IsFs(req: Request) {
    req.Read? || req.Write?
  }

  function RootsFor(p: ResolvedPolicy, req: Request): set<string>
    requires IsFs(req)
  {
    if req.Read? then p.fsRead else p.fsWrite
  }

  /** The policy asks for a human's approval in the dimension. */
  predicate Gates(p: ResolvedPolicy, d: Dimension) {
    p.approval.Some? && d in p.approval.value.on
  }

  /** A restricted policy decides a file access by its roots alone. */
  lemma FsAllowedIff(p: ResolvedPolicy, req: Request)
    requires IsFs(req) && !p.unrestricted
    ensures Allowed(p, req) <==> SomeRootAdmits(RootsFor(p, req), req.path)
  {
  }

  predicate WithinSomeRoot(roots: set<string>, path: string) {
    exists root | root in roots :: FsPath.Within(FsPath.Segments(root), FsPath.Segments(path))
  }

  lemma SomeRootAdmitsIff(roots: set<string>, path: string)
    ensures SomeRootAdmits(roots, path) <==> WithinSomeRoot(roots, path)
  {
    if SomeRootAdmits(roots, path) {
      var root :| root in roots && FsPath.RootAdmits(root, path);
      FsPath.RootAdmitsIffWithin(root, path);
    }
    if WithinSomeRoot(roots, path) {
      var root :| root in roots && FsPath.Within(FsPath.Segments(root), FsPath.Segments(path));
      FsPath.RootAdmitsIffWithin(root, path);
    }
  }

  /**
   * A file access under a restricted policy is allowed exactly when the collapsed segments of the path extend
   * those of some allow-listed root.
   */
  lemma FsAccessIffWithinSomeRoot(p: ResolvedPolicy, req: Request)
    requires IsFs(req) && !p.unrestricted
    ensures Allowed(p, req) <==> WithinSomeRoot(RootsFor(p, req), req.path)
  {
    FsAllowedIff(p, req);
    SomeRootAdmitsIff(RootsFor(p, req), req.path);
  }

  /** With the bypass everything is allowed. */
  lemma UnrestrictedAllowsEverything(p: ResolvedPolicy, req: Request)
    requires p.unrestricted
    ensures Allowed(p, req)
  {
  }

  /** A denial names the dimension of the request, and the list that decided it. */
  lemma DenialsNameTheirReason(p: ResolvedPolicy, req: Request)
    requires !Allowed(p, req)
    ensures TrustEnforcer(p).Decide(req) ==
            match req
            case Tool(id) => Deny(if Matches(p.deniedTools, id) then InDenylist else NotInAllowlist, ToolDim)
            case BuiltinTool(_) => Deny(InDenylist, ToolDim)
            case Delegate(_) => Deny(NotInAllowlist, DelegationDim)
            case Exec(binary) =>
              Deny(if '/' in binary || '\\' in binary then PathNotInAllowlist else NotInAllowlist, ExecutableDim)
            case Mcp(_) => Deny(NotInAllowlist, McpDim)
            case Skill(_) => Deny(NotInAllowlist, SkillDim)
            case Secret(_) => Deny(NotInAllowlist, SecretDim)
            case Fetch(_) => Deny(if p.networkEgress == DenyAll then NoPolicy else HostNotAllowed, NetworkDim)
            case Memory(_) => Deny(NotInAllowlist, AgentmemoryDim)
            case Read(_) => Deny(PathNotInAllowlist, FsReadDim)
            case Write(_) => Deny(PathNotInAllowlist, FsWriteDim)
  {
  }

  // ---------- agentmemory ----------

  function IntersectAgentmemory(a: MemoryPolicy, b: MemoryPolicy): MemoryPolicy {
    MemoryPolicy(
      a.allowObserve && b.allowObserve, a.allowSearch && b.allowSearch, a.allowSession && b.allowSession,
      a.allowContext && b.allowContext, a.allowSave && b.allowSave, a.allowRecall && b.allowRecall,
      a.allowGraph && b.allowGraph)
  }

  lemma IntersectAgentmemoryIsExact(a: MemoryPolicy, b: MemoryPolicy, op: MemoryOp)
    ensures IntersectAgentmemory(a, b).Allows(op) <==> a.Allows(op) && b.Allows(op)
  {
  }

  // ---------- network ----------

  function NarrowNetwork(a: Network, b: Network): Network {
    if a.DenyAll? || b.DenyAll? then DenyAll
    else if a.AllowAll? then b
    else if b.AllowAll? then a
    else Hosts(FilterIn(a.allowHosts, b.allowHosts))
  }

  predicate NetworkAllows(n: Network, host: string) {
    n.AllowAll? || (n.Hosts? && host in n.allowHosts)
  }

  lemma NarrowNetworkIsExact(a: Network, b: Network, host: string)
    ensures NetworkAllows(NarrowNetwork(a, b), host) <==> NetworkAllows(a, host) && NetworkAllows(b, host)
  {
  }
}
