/** The three-valued preflight report of an agent release: nine checks, each pass, fail or unknown, and a
    verdict. */
module Preflight {
  import opened Wrappers

  const PROVIDER_ID := "mctl-api"
  const PROVIDER_ALIAS := "mctl"
  const TOOL_PATTERN := "mcp__mctl__*"

  datatype Status = Pass | Fail | Unknown

  datatype Sandbox = Sandbox(approved: Option<bool>, backend: string, template: string)

  datatype Provider = Provider(kind: string, id: string, alias: string)

  datatype Discovery = Discovery(enabled: Option<bool>, providers: seq<Provider>)

  datatype Spec = Spec(budget: Option<real>, timeout: Option<real>, sandbox: Sandbox, task: string,
                       tools: Option<seq<string>>, skills: Option<seq<string>>, policyRef: string,
                       evidence: Option<seq<string>>, requiredBefore: Option<seq<string>>,
                       mutationScopes: Option<seq<string>>, discovery: Option<Discovery>)

  datatype Scope = Scope(name: string, mutating: bool, requiresApproval: string)

  /** The catalogs of policy.yaml; a list it leaves out is empty, and a required approval it leaves out is "". */
  datatype Policy = Policy(maxBudget: Option<real>, maxTimeout: Option<real>, tools: seq<string>, skills: seq<string>,
                           tasks: seq<string>, policies: seq<string>, gates: seq<string>, evidence: seq<string>,
                           scopes: seq<Scope>, sandboxes: map<string, seq<string>>)

  /** What the registry told: `failed` when it could not be read, `mismatch` when the profile version differs. */
  datatype Facts = Facts(failed: bool, definition: string, profile: string, mismatch: bool, compatible: Option<bool>)

  datatype Inputs = Inputs(spec: Option<Spec>, policy: Option<Policy>, facts: Facts)

  // ---- What each check means ----

  function LifecycleStatus(lifecycle: string): Status {
    if lifecycle == "published" || lifecycle == "deprecated" then Pass
    else if lifecycle == "disabled" then Fail
    else Unknown
  }

  function BindingLifecycle(f: Facts): Status {
    if f.failed || (f.definition == "" && f.profile == "") then Unknown
    else
      var d, p := LifecycleStatus(f.definition), LifecycleStatus(f.profile);
      if d == Fail || p == Fail then Fail
      else if d == Unknown || p == Unknown then Unknown
      else Pass
  }

  function BindingCompatibility(f: Facts): Status {
    if f.failed || f.mismatch || f.compatible.None? then Unknown
    else if f.compatible.value then Pass
    else Fail
  }

  function Within(asked: Option<real>, limit: Option<real>): Status {
    if asked.None? || limit.None? then Unknown
    else if asked.value > limit.value then Fail
    else Pass
  }

  function SandboxStatus(s: Sandbox, p: Policy): Status {
    if s.approved.None? || s.backend == "" || s.template == "" then Unknown
    else if !s.approved.value then Fail
    else if s.backend in p.sandboxes && s.template in p.sandboxes[s.backend] then Pass
    else Fail
  }

  function TaskStatus(s: Spec, p: Policy): Status {
    if s.task == "" then Unknown else if s.task in p.tasks then Pass else Fail
  }

  predicate AllIn(xs: seq<string>, known: seq<string>) {
    forall x | x in xs :: x in known
  }

  function RefsStatus(s: Spec, p: Policy): Status {
    if s.tools.None? || s.skills.None? || s.policyRef == "" || s.evidence.None? then Unknown
    else if AllIn(s.tools.value, p.tools) && AllIn(s.skills.value, p.skills) && s.policyRef in p.policies
            && AllIn(s.evidence.value, p.evidence) then Pass
    else Fail
  }

  /** The last catalog entry of a name counts. */
  function FindScope(scopes: seq<Scope>, name: string): Option<Scope> {
    if scopes == [] then None
    else if scopes[|scopes| - 1].name == name then Some(scopes[|scopes| - 1])
    else FindScope(scopes[..|scopes| - 1], name)
  }

  predicate Covered(name: string, gates: seq<string>, p: Policy) {
    match FindScope(p.scopes, name)
    case None => false
    case Some(scope) => scope.mutating && scope.requiresApproval != "" ==> scope.requiresApproval in gates
  }

  function GatesStatus(s: Spec, p: Policy): Status {
    if s.requiredBefore.None? || s.mutationScopes.None? then Unknown
    else if AllIn(s.requiredBefore.value, p.gates)
            && (forall name | name in s.mutationScopes.value :: Covered(name, s.requiredBefore.value, p)) then Pass
    else Fail
  }

  predicate IsComplete(p: Provider) {
    p.alias != "" && p.id != "" && p.kind != ""
  }

  function ProviderKey(p: Provider): string {
    p.kind + "/" + p.id
  }

  predicate Clash(p: Provider, q: Provider) {
    IsComplete(p) && IsComplete(q) && (p.alias == q.alias || ProviderKey(p) == ProviderKey(q))
  }

  predicate Misnamed(p: Provider) {
    IsComplete(p) && p.id == PROVIDER_ID && p.alias != PROVIDER_ALIAS
  }

  predicate ProvidersBad(ps: seq<Provider>) {
    || (exists i, j | 0 <= i < j < |ps| :: Clash(ps[i], ps[j]))
    || (exists i | 0 <= i < |ps| :: Misnamed(ps[i]))
  }

  predicate AllComplete(ps: seq<Provider>) {
    forall i | 0 <= i < |ps| :: IsComplete(ps[i])
  }

  /** An absent tools list declares nothing. */
  predicate Declares(tools: Option<seq<string>>, tool: string) {
    tools.Some? && tool in tools.value
  }

  function DiscoveryStatus(s: Spec): Status {
    match s.discovery
    case None => Pass
    case Some(d) =>
      if d.enabled.None? then Unknown
      else if ProvidersBad(d.providers) || (d.enabled.value && !Declares(s.tools, TOOL_PATTERN)) then Fail
      else if !AllComplete(d.providers) then Unknown
      else Pass
  }

  /** The nine checks in report order. */
  function Report(i: Inputs): (r: seq<Status>)
    ensures |r| == 9
  {
    [BindingLifecycle(i.facts), BindingCompatibility(i.facts)]
    + (match (i.spec, i.policy)
       case (Some(s), Some(p)) =>
         [Within(s.budget, p.maxBudget), Within(s.timeout, p.maxTimeout), SandboxStatus(s.sandbox, p), TaskStatus(s, p),
          RefsStatus(s, p), GatesStatus(s, p)]
       case _ => [Unknown, Unknown, Unknown, Unknown, Unknown, Unknown])
    + [if i.spec.Some? then DiscoveryStatus(i.spec.value) else Unknown]
  }

  // ---- When each simple check passes and fails ----

  ghost predicate IsUsableLifecycle(lifecycle: string) {
    lifecycle == "published" || lifecycle == "deprecated"
  }

  /** The bound versions: a disabled one fails, and both must be known to be usable to pass. */
  lemma LifecycleExactly(f: Facts)
    ensures BindingLifecycle(f) == Pass <==> !f.failed && IsUsableLifecycle(f.definition) && IsUsableLifecycle(f.profile)
    ensures BindingLifecycle(f) == Fail <==> !f.failed && (f.definition == "disabled" || f.profile == "disabled")
  {
    assert "disabled"[1] == 'i';
  }

  lemma CompatibilityExactly(f: Facts)
    ensures BindingCompatibility(f) == Pass <==> !f.failed && !f.mismatch && f.compatible == Some(true)
    ensures BindingCompatibility(f) == Fail <==> !f.failed && !f.mismatch && f.compatible == Some(false)
  {
  }

  /** A ceiling passes up to the limit itself. */
  lemma WithinExactly(asked: Option<real>, limit: Option<real>)
    ensures Within(asked, limit) == Pass <==> asked.Some? && limit.Some? && asked.value <= limit.value
    ensures Within(asked, limit) == Fail <==> asked.Some? && limit.Some? && limit.value < asked.value
  {
  }

  lemma SandboxExactly(s: Sandbox, p: Policy)
    ensures SandboxStatus(s, p) == Pass <==>
              && s.approved == Some(true) && s.backend != "" && s.template != ""
              && s.backend in p.sandboxes && s.template in p.sandboxes[s.backend]
    ensures SandboxStatus(s, p) == Unknown <==> s.approved.None? || s.backend == "" || s.template == ""
  {
  }

  lemma TaskExactly(s: Spec, p: Policy)
    ensures TaskStatus(s, p) == Pass <==> s.task != "" && s.task in p.tasks
    ensures TaskStatus(s, p) == Unknown <==> s.task == ""
  {
  }

  /** Which check stands where in the report. */
  lemma ReportExactly(i: Inputs)
    ensures var r := Report(i);
            && r[0] == BindingLifecycle(i.facts) && r[1] == BindingCompatibility(i.facts)
            && (i.spec.Some? && i.policy.Some? ==>
                  var s, p := i.spec.value, i.policy.value;
                  && r[2] == Within(s.budget, p.maxBudget) && r[3] == Within(s.timeout, p.maxTimeout) && r[4] == SandboxStatus(s.sandbox, p)
                  && r[5] == TaskStatus(s, p) && r[6] == RefsStatus(s, p) && r[7] == GatesStatus(s, p))
            && (i.spec.None? || i.policy.None? ==> forall k | 2 <= k < 8 :: r[k] == Unknown)
            && r[8] == if i.spec.Some? then DiscoveryStatus(i.spec.value) else Unknown
  {
  }

  // ---- The loops ----

  method FindUnknown(xs: seq<string>, known: seq<string>) returns (bad: seq<string>)
    ensures bad == [] <==> AllIn(xs, known)
    ensures forall x | x in bad :: x in xs && x !in known
  {
    bad := [];
    for k := 0 to |xs|
      invariant bad == [] <==> forall i | 0 <= i < k :: xs[i] in known
      invariant forall x | x in bad :: x in xs && x !in known
    {
      if xs[k] !in known { bad := bad + [xs[k]]; }
    }
  }

  method CheckRefs(s: Spec, p: Policy) returns (status: Status)
    ensures status == RefsStatus(s, p)
  {
    if s.tools.None? || s.skills.None? || s.policyRef == "" || s.evidence.None? { return Unknown; }
    var tools := FindUnknown(s.tools.value, p.tools);
    var skills := FindUnknown(s.skills.value, p.skills);
    var evidence := FindUnknown(s.evidence.value, p.evidence);
    var policy := if s.policyRef in p.policies then [] else [s.policyRef];
    return if |tools + skills + policy + evidence| > 0 then Fail else Pass;
  }

  method ScopeMap(scopes: seq<Scope>) returns (m: map<string, Scope>)
    ensures forall name :: (name in m <==> FindScope(scopes, name).Some?)
    ensures forall name | name in m :: FindScope(scopes, name) == Some(m[name])
  {
    m := map[];
    for k := 0 to |scopes|
      invariant forall name :: (name in m <==> FindScope(scopes[..k], name).Some?)
      invariant forall name | name in m :: FindScope(scopes[..k], name) == Some(m[name])
    {
      assert scopes[..k + 1][..k] == scopes[..k];
      m := m[scopes[k].name := scopes[k]];
    }
    assert scopes[..|scopes|] == scopes;
  }

  method CheckApprovalGates(s: Spec, p: Policy) returns (status: Status)
    ensures status == GatesStatus(s, p)
  {
    if s.requiredBefore.None? || s.mutationScopes.None? { return Unknown; }
    var gates, names := s.requiredBefore.value, s.mutationScopes.value;
    var bad := FindUnknown(gates, p.gates);
    var scopes := ScopeMap(p.scopes);
    var uncovered := false;
    for k := 0 to |names|
      invariant !uncovered <==> forall i | 0 <= i < k :: Covered(names[i], gates, p)
    {
      if names[k] !in scopes {
        uncovered := true;
      } else {
        var scope := scopes[names[k]];
        if scope.mutating && scope.requiresApproval != "" && scope.requiresApproval !in gates { uncovered := true; }
      }
    }
    return if bad != [] || uncovered then Fail else Pass;
  }

  ghost predicate HasAlias(ps: seq<Provider>, k: nat, alias: string) {
    exists i | 0 <= i < k <= |ps| :: IsComplete(ps[i]) && ps[i].alias == alias
  }

  ghost predicate HasKey(ps: seq<Provider>, k: nat, key: string) {
    exists i | 0 <= i < k <= |ps| :: IsComplete(ps[i]) && ProviderKey(ps[i]) == key
  }

  lemma OneMoreName(ps: seq<Provider>, k: nat)
    requires k < |ps|
    ensures forall a :: HasAlias(ps, k + 1, a) <==> HasAlias(ps, k, a) || (IsComplete(ps[k]) && ps[k].alias == a)
    ensures forall a :: HasKey(ps, k + 1, a) <==> HasKey(ps, k, a) || (IsComplete(ps[k]) && ProviderKey(ps[k]) == a)
  {
    hide ProviderKey;
    forall a ensures HasKey(ps, k + 1, a) <==> HasKey(ps, k, a) || (IsComplete(ps[k]) && ProviderKey(ps[k]) == a) {
      assert IsComplete(ps[k]) && ProviderKey(ps[k]) == a ==> HasKey(ps, k + 1, a);
    }
  }

  lemma OneMoreProvider(ps: seq<Provider>, k: nat)
    requires k < |ps|
    ensures ProvidersBad(ps[..k + 1])
            <==> ProvidersBad(ps[..k]) || Misnamed(ps[k]) || (IsComplete(ps[k]) && (HasAlias(ps, k, ps[k].alias) || HasKey(ps, k, ProviderKey(ps[k]))))
  {
  }

  /** One pass over the providers, remembering the aliases and keys of the complete ones. */
  method ScanProviders(ps: seq<Provider>) returns (bad: bool, incomplete: bool)
    ensures bad <==> ProvidersBad(ps)
    ensures incomplete <==> !AllComplete(ps)
  {
    hide ProvidersBad;
    hide HasAlias;
    hide HasKey;
    hide ProviderKey;
    bad, incomplete := false, false;
    var aliases: set<string>, keys: set<string> := {}, {};
    NothingYet(ps);
    for k := 0 to |ps|
      invariant forall a :: a in aliases <==> HasAlias(ps, k, a)
      invariant forall a :: a in keys <==> HasKey(ps, k, a)
      invariant incomplete <==> exists i | 0 <= i < k :: !IsComplete(ps[i])
      invariant bad <==> ProvidersBad(ps[..k])
    {
      OneMoreProvider(ps, k);
      OneMoreName(ps, k);
      var p := ps[k];
      if !IsComplete(p) {
        incomplete := true;
      } else {
        if p.alias in aliases { bad := true; }
        aliases := aliases + {p.alias};
        if ProviderKey(p) in keys { bad := true; }
        keys := keys + {ProviderKey(p)};
        if Misnamed(p) { bad := true; }
      }
    }
    assert ps[..|ps|] == ps;
  }

  lemma NothingYet(ps: seq<Provider>)
    ensures !ProvidersBad(ps[..0]) && forall a :: !HasAlias(ps, 0, a) && !HasKey(ps, 0, a)
  {
  }

  method CheckCapabilityDiscovery(s: Spec) returns (status: Status)
    ensures status == DiscoveryStatus(s)
  {
    if s.discovery.None? { return Pass; }
    var d := s.discovery.value;
    if d.enabled.None? { return Unknown; }
    var bad, incomplete := ScanProviders(d.providers);
    if d.enabled.value && !Declares(s.tools, TOOL_PATTERN) { bad := true; }
    return if bad then Fail else if incomplete then Unknown else Pass;
  }

  /** The report is pass only if there is a check and every check passes, and fail exactly when one fails. */
  method Verdict(checks: seq<Status>) returns (v: Status)
    ensures v == Pass <==> checks != [] && forall c | c in checks :: c == Pass
    ensures v == Fail <==> Fail in checks
  {
    if |checks| == 0 { return Unknown; }
    v := Pass;
    for k := 0 to |checks|
      invariant v != Fail && Fail !in checks[..k]
      invariant v == Pass <==> forall i | 0 <= i < k :: checks[i] == Pass
    {
      match checks[k]
      case Fail =>
        assert checks[k] in checks;
        return Fail;
      case Pass =>
      case Unknown => v := Unknown;
    }
    assert v == Unknown ==> exists i | 0 <= i < |checks| :: checks[i] != Pass && checks[i] in checks;
  }

  method Evaluate(i: Inputs) returns (checks: seq<Status>, v: Status)
    ensures checks == Report(i)
    ensures v == VerdictOf(checks)
    ensures i.spec.None? || i.policy.None? ==> v != Pass
  {
    checks := [BindingLifecycle(i.facts), BindingCompatibility(i.facts)];
    if i.spec.Some? && i.policy.Some? {
      var s, p := i.spec.value, i.policy.value;
      var refs := CheckRefs(s, p);
      var gates := CheckApprovalGates(s, p);
      checks := checks + [Within(s.budget, p.maxBudget), Within(s.timeout, p.maxTimeout), SandboxStatus(s.sandbox, p),
                          TaskStatus(s, p), refs, gates];
    } else {
      checks := checks + [Unknown, Unknown, Unknown, Unknown, Unknown, Unknown];
    }
    if i.spec.Some? {
      var discovery := CheckCapabilityDiscovery(i.spec.value);
      checks := checks + [discovery];
    } else {
      checks := checks + [Unknown];
    }
    assert i.spec.None? || i.policy.None? ==> checks[2] == Unknown;
    v := Verdict(checks);
  }

  function VerdictOf(checks: seq<Status>): Status {
    if Fail in checks then Fail else if checks == [] || Unknown in checks then Unknown else Pass
  }

  // ---- More information ----

  predicate More<T(==)>(x: Option<T>, y: Option<T>) {
    x.None? || x == y
  }

  predicate MoreText(x: string, y: string) {
    x == "" || x == y
  }

  /** A list that is left out is empty. */
  predicate MoreList<T(==)>(xs: seq<T>, ys: seq<T>) {
    xs == [] || xs == ys
  }

  predicate MoreProvider(p: Provider, q: Provider) {
    MoreText(p.kind, q.kind) && MoreText(p.id, q.id) && MoreText(p.alias, q.alias)
  }

  predicate MoreProviders(ps: seq<Provider>, qs: seq<Provider>) {
    ps == [] || (|ps| == |qs| && forall i | 0 <= i < |ps| :: MoreProvider(ps[i], qs[i]))
  }

  predicate MoreDiscovery(d: Option<Discovery>, e: Option<Discovery>) {
    d.None? || (e.Some? && More(d.value.enabled, e.value.enabled) && MoreProviders(d.value.providers, e.value.providers))
  }

  /** t says everything s says, and may supply anything s leaves out. */
  predicate MoreSpec(s: Spec, t: Spec) {
    && More(s.budget, t.budget) && More(s.timeout, t.timeout)
    && More(s.sandbox.approved, t.sandbox.approved) && MoreText(s.sandbox.backend, t.sandbox.backend)
    && MoreText(s.sandbox.template, t.sandbox.template) && MoreText(s.task, t.task)
    && More(s.tools, t.tools) && More(s.skills, t.skills) && MoreText(s.policyRef, t.policyRef)
    && More(s.evidence, t.evidence) && More(s.requiredBefore, t.requiredBefore)
    && More(s.mutationScopes, t.mutationScopes) && MoreDiscovery(s.discovery, t.discovery)
  }

  /** An entry may leave out its name, read as "", its mutating flag, read as false, and its required approval, read as
      "", and each may be supplied. The texts of the plain lists are kept. */
  predicate MoreScope(x: Scope, y: Scope) {
    MoreText(x.name, y.name) && (x.mutating ==> y.mutating) && MoreText(x.requiresApproval, y.requiresApproval)
  }

  predicate MoreScopes(xs: seq<Scope>, ys: seq<Scope>) {
    xs == [] || (|xs| == |ys| && forall i | 0 <= i < |xs| :: MoreScope(xs[i], ys[i]))
  }

  function TemplatesOf(sandboxes: map<string, seq<string>>, backend: string): seq<string> {
    if backend in sandboxes then sandboxes[backend] else []
  }

  /** q may supply every limit, catalog, sandbox backend and field of a scope entry that p leaves out. */
  predicate MorePolicy(p: Policy, q: Policy) {
    && More(p.maxBudget, q.maxBudget) && More(p.maxTimeout, q.maxTimeout)
    && MoreList(p.tools, q.tools) && MoreList(p.skills, q.skills) && MoreList(p.tasks, q.tasks)
    && MoreList(p.policies, q.policies) && MoreList(p.gates, q.gates) && MoreList(p.evidence, q.evidence)
    && MoreScopes(p.scopes, q.scopes)
    && (forall backend | backend in p.sandboxes :: MoreList(p.sandboxes[backend], TemplatesOf(q.sandboxes, backend)))
  }

  predicate MoreFacts(f: Facts, g: Facts) {
    f.failed
    || (!g.failed && MoreText(f.definition, g.definition) && MoreText(f.profile, g.profile)
        && (f.mismatch || (!g.mismatch && More(f.compatible, g.compatible))))
  }

  predicate MoreInputs(x: Inputs, y: Inputs) {
    && (x.spec.None? || (y.spec.Some? && MoreSpec(x.spec.value, y.spec.value)))
    && (x.policy.None? || (y.policy.Some? && MorePolicy(x.policy.value, y.policy.value)))
    && MoreFacts(x.facts, y.facts)
  }

  /** Inputs say everything they say themselves, and what is said stays said. */
  lemma InformationIsOrdered(x: Inputs, y: Inputs, z: Inputs)
    ensures MoreInputs(x, x)
    ensures MoreInputs(x, y) && MoreInputs(y, z) ==> MoreInputs(x, z)
  {
    assert forall p: Provider :: MoreProvider(p, p);
    assert forall s: Scope :: MoreScope(s, s);
    if x.policy.Some? && y.policy.Some? && z.policy.Some? && MoreInputs(x, y) && MoreInputs(y, z) {
      PolicyOrder(x.policy.value, y.policy.value, z.policy.value);
    }
    if x.spec.Some? && y.spec.Some? && z.spec.Some? && MoreInputs(x, y) && MoreInputs(y, z) {
      assert MoreSpec(x.spec.value, z.spec.value);
    }
  }

  lemma PolicyOrder(p: Policy, q: Policy, r: Policy)
    requires MorePolicy(p, q) && MorePolicy(q, r)
    ensures MorePolicy(p, r)
  {
  }

  /** Inputs that say nothing say less than any others: each section, each list, each field may be supplied. */
  lemma NothingIsLeast(y: Inputs, s: Spec, p: Policy, f: Facts, d: Discovery)
    ensures MoreInputs(Inputs(None, None, f.(failed := true)), y)
    ensures MoreSpec(Spec(None, None, Sandbox(None, "", ""), "", None, None, "", None, None, None, None), s)
    ensures MorePolicy(Policy(None, None, [], [], [], [], [], [], [], map[]), p)
    ensures MoreDiscovery(Some(Discovery(None, [])), Some(d)) && MoreDiscovery(None, Some(d))
    ensures MoreScopes([Scope("", false, "")], [Scope(s.task, f.failed, s.policyRef)])
    ensures MoreProviders([Provider("", "", "")], [Provider(s.task, s.policyRef, f.profile)])
    ensures MoreFacts(Facts(false, "", "", true, None), f.(failed := false))
    ensures MoreFacts(Facts(false, "", "", false, None), f.(failed := false, mismatch := false))
  {
  }

  // ---- The holes: what more information does reverse ----

  /** A discovery section, or its provider list, was left out, which passes, and the supplied one does not. */
  predicate DiscoveryHole(s: Spec, t: Spec) {
    && t.discovery.Some?
    && var e := t.discovery.value;
       if s.discovery.None? then
         e.enabled.None? || ProvidersBad(e.providers) || !AllComplete(e.providers) || (e.enabled.value && !Declares(t.tools, TOOL_PATTERN))
       else
         && s.discovery.value.enabled.Some? && s.discovery.value.providers == []
         && (s.discovery.value.enabled.value ==> Declares(s.tools, TOOL_PATTERN))
         && (ProvidersBad(e.providers) || !AllComplete(e.providers))
  }

  /** Discovery is enabled and failed only for want of a tools list, and the supplied one declares the pattern. */
  predicate ToolsHole(s: Spec, t: Spec) {
    && s.discovery.Some? && t.discovery.Some? && s.discovery.value.enabled == Some(true) && s.tools.None?
    && Declares(t.tools, TOOL_PATTERN) && !ProvidersBad(t.discovery.value.providers)
  }

  predicate TaskHole(s: Spec, p: Policy, q: Policy) {
    s.task != "" && p.tasks == [] && s.task in q.tasks
  }

  predicate SandboxHole(s: Spec, p: Policy, q: Policy) {
    && s.sandbox.approved == Some(true) && s.sandbox.backend != "" && s.sandbox.template != ""
    && TemplatesOf(p.sandboxes, s.sandbox.backend) == [] && s.sandbox.template in TemplatesOf(q.sandboxes, s.sandbox.backend)
  }

  /** A reference catalog that is needed was left out, and the supplied ones know every reference. */
  predicate RefsHole(s: Spec, p: Policy, q: Policy) {
    && s.tools.Some? && s.skills.Some? && s.policyRef != "" && s.evidence.Some?
    && AllIn(s.tools.value, q.tools) && AllIn(s.skills.value, q.skills) && s.policyRef in q.policies && AllIn(s.evidence.value, q.evidence)
    && (|| (p.tools == [] && s.tools.value != []) || (p.skills == [] && s.skills.value != [])
        || p.policies == [] || (p.evidence == [] && s.evidence.value != []))
  }

  /** An entry that left out its name was given this one, or took it from the unnamed. */
  predicate Renames(xs: seq<Scope>, ys: seq<Scope>, name: string) {
    exists k | 0 <= k < |xs| && k < |ys| :: xs[k].name == "" && ys[k].name != "" && (ys[k].name == name || name == "")
  }

  /** The scope's entry left out that it mutates, or the approval it requires, and both are supplied. */
  predicate Demands(xs: seq<Scope>, ys: seq<Scope>, name: string) {
    && FindScope(xs, name).Some? && (!FindScope(xs, name).value.mutating || FindScope(xs, name).value.requiresApproval == "")
    && FindScope(ys, name).Some? && FindScope(ys, name).value.mutating && FindScope(ys, name).value.requiresApproval != ""
  }

  /** A gate catalog, a scope catalog or the name of an entry was needed and left out, and what is supplied knows and
      covers everything. */
  predicate GatesHole(s: Spec, p: Policy, q: Policy) {
    && s.requiredBefore.Some? && s.mutationScopes.Some?
    && AllIn(s.requiredBefore.value, q.gates)
    && (forall name | name in s.mutationScopes.value :: Covered(name, s.requiredBefore.value, q))
    && (|| (p.gates == [] && s.requiredBefore.value != [])
        || (exists name | name in s.mutationScopes.value ::
              !Covered(name, s.requiredBefore.value, p) && (p.scopes == [] || Renames(p.scopes, q.scopes, name))))
  }

  /** Everything was covered, but an entry left out its name, that it mutates, or the approval it requires, and what is
      supplied leaves some scope uncovered. */
  predicate ApprovalHole(s: Spec, p: Policy, q: Policy) {
    && s.requiredBefore.Some? && s.mutationScopes.Some?
    && AllIn(s.requiredBefore.value, p.gates)
    && (forall name | name in s.mutationScopes.value :: Covered(name, s.requiredBefore.value, p))
    && (exists name | name in s.mutationScopes.value ::
          && !Covered(name, s.requiredBefore.value, q)
          && (Renames(p.scopes, q.scopes, name) || Demands(p.scopes, q.scopes, name)))
  }

  /** Some check that passed no longer does. */
  predicate LosesPass(x: Inputs, y: Inputs) {
    && x.spec.Some? && y.spec.Some?
    && (|| DiscoveryHole(x.spec.value, y.spec.value)
        || (x.policy.Some? && y.policy.Some? && ApprovalHole(x.spec.value, x.policy.value, y.policy.value)))
  }

  /** Some check that failed no longer does. */
  predicate LosesFail(x: Inputs, y: Inputs) {
    && x.spec.Some? && y.spec.Some?
    && (|| ToolsHole(x.spec.value, y.spec.value)
        || (&& x.policy.Some? && y.policy.Some?
            && var s, p, q := x.spec.value, x.policy.value, y.policy.value;
               TaskHole(s, p, q) || SandboxHole(s, p, q) || RefsHole(s, p, q) || GatesHole(s, p, q)))
  }

  // ---- Check by check ----

  ghost predicate KeepsPass(a: Status, b: Status) {
    a == Pass ==> b == Pass
  }

  ghost predicate KeepsFail(a: Status, b: Status) {
    a == Fail ==> b == Fail
  }

  ghost predicate Kept(a: Status, b: Status) {
    KeepsPass(a, b) && KeepsFail(a, b)
  }

  /** Completing provider entries keeps every clash and misnaming among the complete ones. */
  lemma CompletingKeepsBad(ps: seq<Provider>, qs: seq<Provider>)
    requires MoreProviders(ps, qs)
    ensures ProvidersBad(ps) ==> ProvidersBad(qs)
    ensures ps != [] && AllComplete(ps) ==> qs == ps
  {
  }

  /** Discovery keeps its pass, and its failure, exactly outside its two holes. */
  lemma DiscoveryKeptExactly(s: Spec, t: Spec)
    requires MoreSpec(s, t)
    ensures KeepsPass(DiscoveryStatus(s), DiscoveryStatus(t)) <==> !DiscoveryHole(s, t)
    ensures KeepsFail(DiscoveryStatus(s), DiscoveryStatus(t)) <==> !ToolsHole(s, t)
  {
    if s.discovery.Some? {
      CompletingKeepsBad(s.discovery.value.providers, t.discovery.value.providers);
      hide ProvidersBad;
    }
  }

  lemma TaskKeptExactly(s: Spec, t: Spec, p: Policy, q: Policy)
    requires MoreSpec(s, t) && MorePolicy(p, q)
    ensures KeepsPass(TaskStatus(s, p), TaskStatus(t, q))
    ensures KeepsFail(TaskStatus(s, p), TaskStatus(t, q)) <==> !TaskHole(s, p, q)
  {
  }

  lemma SandboxKeptExactly(s: Spec, t: Spec, p: Policy, q: Policy)
    requires MoreSpec(s, t) && MorePolicy(p, q)
    ensures KeepsPass(SandboxStatus(s.sandbox, p), SandboxStatus(t.sandbox, q))
    ensures KeepsFail(SandboxStatus(s.sandbox, p), SandboxStatus(t.sandbox, q)) <==> !SandboxHole(s, p, q)
  {
  }

  lemma RefsKeptExactly(s: Spec, t: Spec, p: Policy, q: Policy)
    requires MoreSpec(s, t) && MorePolicy(p, q)
    ensures KeepsPass(RefsStatus(s, p), RefsStatus(t, q))
    ensures KeepsFail(RefsStatus(s, p), RefsStatus(t, q)) <==> !RefsHole(s, p, q)
  {
    if s.tools.Some? && s.skills.Some? && s.evidence.Some? {
      KnowsNothing(s.tools.value, p.tools);
      KnowsNothing(s.skills.value, p.skills);
      KnowsNothing(s.evidence.value, p.evidence);
    }
  }

  /** An empty catalog knows exactly the empty list. */
  lemma KnowsNothing(xs: seq<string>, known: seq<string>)
    ensures known == [] ==> (AllIn(xs, known) <==> xs == [])
  {
    assert xs != [] ==> xs[0] in xs;
  }

  lemma {:induction false} FindScopeMore(ps: seq<Scope>, qs: seq<Scope>, name: string)
    requires |ps| == |qs| && (forall i | 0 <= i < |ps| :: MoreScope(ps[i], qs[i])) && !Renames(ps, qs, name)
    ensures FindScope(ps, name).Some? <==> FindScope(qs, name).Some?
    ensures FindScope(ps, name).Some? ==> MoreScope(FindScope(ps, name).value, FindScope(qs, name).value)
  {
    if ps != [] {
      var n := |ps| - 1;
      assert forall k | 0 <= k < n :: ps[..n][k] == ps[k] && qs[..n][k] == qs[k];
      FindScopeMore(ps[..n], qs[..n], name);
      assert MoreScope(ps[n], qs[n]);
      assert ps[n].name == name <==> qs[n].name == name;
    }
  }

  /** Unless an entry is renamed, what is supplied never covers a scope, and uncovers it exactly by a demand. */
  lemma CoverageMore(p: Policy, q: Policy, name: string, gates: seq<string>)
    requires MorePolicy(p, q) && p.scopes != [] && !Renames(p.scopes, q.scopes, name)
    ensures Covered(name, gates, q) ==> Covered(name, gates, p)
    ensures Covered(name, gates, p) && !Covered(name, gates, q) ==> Demands(p.scopes, q.scopes, name)
  {
    FindScopeMore(p.scopes, q.scopes, name);
  }

  lemma GatesKeptExactly(s: Spec, t: Spec, p: Policy, q: Policy)
    requires MoreSpec(s, t) && MorePolicy(p, q)
    ensures KeepsPass(GatesStatus(s, p), GatesStatus(t, q)) <==> !ApprovalHole(s, p, q)
    ensures KeepsFail(GatesStatus(s, p), GatesStatus(t, q)) <==> !GatesHole(s, p, q)
  {
    hide Renames;
    hide Demands;
    hide MoreScopes;
    if s.requiredBefore.Some? && s.mutationScopes.Some? {
      var gates, names := s.requiredBefore.value, s.mutationScopes.value;
      KnowsNothing(gates, p.gates);
      if p.scopes == [] {
        forall name ensures !Covered(name, gates, p) {
          assert FindScope([], name).None?;
        }
      } else {
        hide Covered;
        forall name | !Renames(p.scopes, q.scopes, name)
          ensures Covered(name, gates, q) ==> Covered(name, gates, p)
          ensures Covered(name, gates, p) && !Covered(name, gates, q) ==> Demands(p.scopes, q.scopes, name)
        {
          CoverageMore(p, q, name, gates);
        }
      }
    }
  }

  lemma FactsKept(f: Facts, g: Facts)
    requires MoreFacts(f, g)
    ensures Kept(BindingLifecycle(f), BindingLifecycle(g)) && Kept(BindingCompatibility(f), BindingCompatibility(g))
  {
  }

  // ---- The whole report ----

  ghost predicate AllKeepPass(a: seq<Status>, b: seq<Status>) {
    |a| == |b| && forall k | 0 <= k < |a| :: KeepsPass(a[k], b[k])
  }

  ghost predicate AllKeepFail(a: seq<Status>, b: seq<Status>) {
    |a| == |b| && forall k | 0 <= k < |a| :: KeepsFail(a[k], b[k])
  }

  /** Supplying any absent input, a whole spec, policy, section, catalog or entry included, keeps every passed check
      exactly outside the discovery and approval holes, and every failed check exactly outside the tools and catalog
      holes. */
  lemma InformationIsMonotone(x: Inputs, y: Inputs)
    requires MoreInputs(x, y)
    ensures AllKeepPass(Report(x), Report(y)) <==> !LosesPass(x, y)
    ensures AllKeepFail(Report(x), Report(y)) <==> !LosesFail(x, y)
  {
    hide BindingLifecycle;
    hide BindingCompatibility;
    hide DiscoveryStatus;
    hide SandboxStatus;
    hide TaskStatus;
    hide RefsStatus;
    hide GatesStatus;
    hide DiscoveryHole;
    hide ToolsHole;
    hide ApprovalHole;
    hide TaskHole;
    hide SandboxHole;
    hide RefsHole;
    hide GatesHole;
    FactsKept(x.facts, y.facts);
    var a, b := Report(x), Report(y);
    if x.spec.Some? {
      var s, t := x.spec.value, y.spec.value;
      DiscoveryKeptExactly(s, t);
      if x.policy.Some? {
        var p, q := x.policy.value, y.policy.value;
        TaskKeptExactly(s, t, p, q);
        SandboxKeptExactly(s, t, p, q);
        RefsKeptExactly(s, t, p, q);
        GatesKeptExactly(s, t, p, q);
        LimitsKept(s, t, p, q);
      }
    }
    NineKept(a, b);
  }

  lemma LimitsKept(s: Spec, t: Spec, p: Policy, q: Policy)
    requires MoreSpec(s, t) && MorePolicy(p, q)
    ensures Kept(Within(s.budget, p.maxBudget), Within(t.budget, q.maxBudget))
    ensures Kept(Within(s.timeout, p.maxTimeout), Within(t.timeout, q.maxTimeout))
  {
  }

  lemma NineKept(a: seq<Status>, b: seq<Status>)
    requires |a| == |b| == 9
    ensures AllKeepPass(a, b) <==>
              && KeepsPass(a[0], b[0]) && KeepsPass(a[1], b[1]) && KeepsPass(a[2], b[2]) && KeepsPass(a[3], b[3])
              && KeepsPass(a[4], b[4]) && KeepsPass(a[5], b[5]) && KeepsPass(a[6], b[6]) && KeepsPass(a[7], b[7]) && KeepsPass(a[8], b[8])
    ensures AllKeepFail(a, b) <==>
              && KeepsFail(a[0], b[0]) && KeepsFail(a[1], b[1]) && KeepsFail(a[2], b[2]) && KeepsFail(a[3], b[3])
              && KeepsFail(a[4], b[4]) && KeepsFail(a[5], b[5]) && KeepsFail(a[6], b[6]) && KeepsFail(a[7], b[7]) && KeepsFail(a[8], b[8])
  {
  }

  /** The hole of one check of the report. */
  predicate LosesFailAt(x: Inputs, y: Inputs, k: nat) {
    && x.spec.Some? && y.spec.Some?
    && if k == 8 then ToolsHole(x.spec.value, y.spec.value)
       else
         && x.policy.Some? && y.policy.Some?
         && var s, p, q := x.spec.value, x.policy.value, y.policy.value;
            || (k == 4 && SandboxHole(s, p, q)) || (k == 5 && TaskHole(s, p, q))
            || (k == 6 && RefsHole(s, p, q)) || (k == 7 && GatesHole(s, p, q))
  }

  /** Each check keeps its failure exactly outside its own hole. */
  lemma FailKeptAt(x: Inputs, y: Inputs, k: nat)
    requires MoreInputs(x, y) && k < 9
    ensures KeepsFail(Report(x)[k], Report(y)[k]) <==> !LosesFailAt(x, y, k)
  {
    hide BindingLifecycle;
    hide BindingCompatibility;
    hide DiscoveryStatus;
    hide SandboxStatus;
    hide TaskStatus;
    hide RefsStatus;
    hide GatesStatus;
    hide ToolsHole;
    hide TaskHole;
    hide SandboxHole;
    hide RefsHole;
    hide GatesHole;
    hide ApprovalHole;
    hide DiscoveryHole;
    FactsKept(x.facts, y.facts);
    if x.spec.Some? {
      var s, t := x.spec.value, y.spec.value;
      DiscoveryKeptExactly(s, t);
      if x.policy.Some? {
        var p, q := x.policy.value, y.policy.value;
        TaskKeptExactly(s, t, p, q);
        SandboxKeptExactly(s, t, p, q);
        RefsKeptExactly(s, t, p, q);
        GatesKeptExactly(s, t, p, q);
        LimitsKept(s, t, p, q);
      }
    }
  }

  /** So a pass stays a pass exactly outside the discovery and approval holes, and a fail stops failing exactly when every
      failed check is in its own hole and no other check comes to fail. */
  lemma VerdictIsMonotone(x: Inputs, y: Inputs)
    requires MoreInputs(x, y)
    ensures VerdictOf(Report(x)) == Pass ==> (VerdictOf(Report(y)) == Pass <==> !LosesPass(x, y))
    ensures VerdictOf(Report(x)) == Fail ==>
              (VerdictOf(Report(y)) != Fail <==>
                 forall k | 0 <= k < 9 :: if Report(x)[k] == Fail then LosesFailAt(x, y, k) else Report(y)[k] != Fail)
    ensures VerdictOf(Report(x)) == Fail && VerdictOf(Report(y)) != Fail ==> LosesFail(x, y)
  {
    hide Report;
    hide LosesPass;
    hide LosesFail;
    hide LosesFailAt;
    hide MoreInputs;
    InformationIsMonotone(x, y);
    var a, b := Report(x), Report(y);
    forall k | 0 <= k < 9 ensures KeepsFail(a[k], b[k]) <==> !LosesFailAt(x, y, k) {
      FailKeptAt(x, y, k);
    }
    if VerdictOf(a) == Pass {
      assert forall k | 0 <= k < |a| :: a[k] in a && b[k] in b;
      assert forall k | 0 <= k < |a| :: a[k] == Pass;
    } else if k :| 0 <= k < |a| && a[k] == Fail {
      assert b[k] in b;
    }
    assert Fail in b <==> exists k | 0 <= k < 9 :: b[k] == Fail;
  }

  // ---- Each hole is real ----

  const BARE := Spec(None, None, Sandbox(None, "", ""), "", None, None, "", None, None, None, None)

  /** An absent tools list fails an enabled discovery, and supplying it passes. */
  lemma AbsentToolsFail()
    ensures var s := BARE.(discovery := Some(Discovery(Some(true), [])));
            var t := s.(tools := Some([TOOL_PATTERN]));
            MoreSpec(s, t) && ToolsHole(s, t) && DiscoveryStatus(s) == Fail && DiscoveryStatus(t) == Pass
  {
  }

  /** An absent discovery section passes, and supplying one can fail. */
  lemma AbsentDiscoveryPasses()
    ensures var t := BARE.(discovery := Some(Discovery(Some(false), [Provider("t", PROVIDER_ID, "x")])));
            MoreSpec(BARE, t) && DiscoveryHole(BARE, t) && DiscoveryStatus(BARE) == Pass && DiscoveryStatus(t) == Fail
  {
    var p := Provider("t", PROVIDER_ID, "x");
    assert PROVIDER_ALIAS[0] == 'm' && p.alias[0] == 'x';
    assert PROVIDER_ID[0] == 'm';
    assert Misnamed(p) && [p][0] == p;
  }

  /** A catalog that is left out fails every reference that needs it, and supplying it passes. */
  lemma AbsentCatalogFails(p: Policy, s: Spec)
    requires s.task != ""
    ensures MorePolicy(p.(tasks := []), p.(tasks := [s.task]))
    ensures TaskStatus(s, p.(tasks := [])) == Fail && TaskStatus(s, p.(tasks := [s.task])) == Pass
  {
  }

  /** A required approval that is left out passes, and supplying it can fail. */
  lemma AbsentApprovalPasses(p: Policy, name: string, gate: string)
    requires gate != ""
    ensures var s := BARE.(requiredBefore := Some([]), mutationScopes := Some([name]));
            var before, after := p.(scopes := [Scope(name, true, "")]), p.(scopes := [Scope(name, true, gate)]);
            MorePolicy(before, after) && GatesStatus(s, before) == Pass && GatesStatus(s, after) == Fail
  {
    var before, after := [Scope(name, true, "")], [Scope(name, true, gate)];
    assert FindScope(before, name) == Some(before[0]) && FindScope(after, name) == Some(after[0]);
    assert name in [name];
  }

  /** So does a mutating flag that is left out. */
  lemma AbsentFlagPasses(p: Policy, name: string, gate: string)
    requires gate != ""
    ensures var s := BARE.(requiredBefore := Some([]), mutationScopes := Some([name]));
            var before, after := p.(scopes := [Scope(name, false, gate)]), p.(scopes := [Scope(name, true, gate)]);
            MorePolicy(before, after) && GatesStatus(s, before) == Pass && GatesStatus(s, after) == Fail
  {
    var before, after := [Scope(name, false, gate)], [Scope(name, true, gate)];
    assert FindScope(before, name) == Some(before[0]) && FindScope(after, name) == Some(after[0]);
    assert name in [name];
  }

  /** A name that is left out fails the scope it would name, and supplying it passes; supplied, it can also shadow an
      earlier entry of that name and fail. */
  lemma AbsentNameMatters(p: Policy, name: string, gate: string)
    requires name != "" && gate != ""
    ensures var s := BARE.(requiredBefore := Some([]), mutationScopes := Some([name]));
            var none, one := p.(scopes := [Scope("", false, "")]), p.(scopes := [Scope(name, false, "")]);
            var first, both := p.(scopes := [Scope(name, false, ""), Scope("", true, gate)]),
                               p.(scopes := [Scope(name, false, ""), Scope(name, true, gate)]);
            && MorePolicy(none, one) && GatesStatus(s, none) == Fail && GatesStatus(s, one) == Pass
            && MorePolicy(first, both) && GatesStatus(s, first) == Pass && GatesStatus(s, both) == Fail
  {
    var none, one := [Scope("", false, "")], [Scope(name, false, "")];
    var first, both := [Scope(name, false, ""), Scope("", true, gate)], [Scope(name, false, ""), Scope(name, true, gate)];
    assert none == [] + none && first == one + [first[1]] && both == one + [both[1]] && one == [] + one;
    LastEntry([], none[0], name);
    LastEntry([], one[0], name);
    LastEntry(one, first[1], name);
    LastEntry(one, both[1], name);
    assert name in [name];
  }

  lemma LastEntry(earlier: seq<Scope>, last: Scope, name: string)
    ensures FindScope(earlier + [last], name) == if last.name == name then Some(last) else FindScope(earlier, name)
  {
    assert (earlier + [last])[..|earlier|] == earlier;
  }

  // ---- Provider keys ----

  /** q's kind, a slash and x make p's kind, and what is left of the keys agrees. */
  ghost predicate ShiftedBy(p: Provider, q: Provider, x: string) {
    p.kind == q.kind + "/" + x && q.id == x + "/" + p.id
  }

  lemma LongerKindShifts(p: Provider, q: Provider)
    requires ProviderKey(p) == ProviderKey(q) && |q.kind| < |p.kind|
    ensures exists x :: ShiftedBy(p, q, x)
  {
    var a, b := ProviderKey(p), ProviderKey(q);
    var x := p.kind[|q.kind| + 1..];
    assert a[..|p.kind|] == p.kind && b[..|q.kind|] == q.kind && a[|q.kind|] == '/';
    assert p.kind == q.kind + "/" + x;
    assert b[|q.kind| + 1..] == q.id && a[|q.kind| + 1..] == x + "/" + p.id;
    assert ShiftedBy(p, q, x);
  }

  lemma ShiftedKeysCollide(p: Provider, q: Provider, x: string)
    requires ShiftedBy(p, q, x)
    ensures ProviderKey(p) == ProviderKey(q)
  {
    assert q.kind + "/" + x + "/" + p.id == q.kind + "/" + (x + "/" + p.id);
  }

  /** Two providers share a key exactly when they have one kind and id, or when part of one's id, cut at a slash,
      sits in the other's kind. */
  lemma KeyExactly(p: Provider, q: Provider)
    ensures ProviderKey(p) == ProviderKey(q) <==>
              || (p.kind == q.kind && p.id == q.id)
              || (exists x :: ShiftedBy(p, q, x))
              || (exists x :: ShiftedBy(q, p, x))
  {
    var a, b := ProviderKey(p), ProviderKey(q);
    if a == b {
      if |q.kind| < |p.kind| {
        LongerKindShifts(p, q);
      } else if |p.kind| < |q.kind| {
        LongerKindShifts(q, p);
      } else {
        assert a[..|p.kind|] == p.kind && b[..|q.kind|] == q.kind;
        assert a[|p.kind| + 1..] == p.id && b[|q.kind| + 1..] == q.id;
      }
    } else if x :| ShiftedBy(p, q, x) {
      ShiftedKeysCollide(p, q, x);
    } else if x :| ShiftedBy(q, p, x) {
      ShiftedKeysCollide(q, p, x);
    }
  }

  /** So without a slash in a kind the key is exact. */
  lemma KeyIsExact(p: Provider, q: Provider)
    requires '/' !in p.kind && '/' !in q.kind
    ensures ProviderKey(p) == ProviderKey(q) <==> p.kind == q.kind && p.id == q.id
  {
    KeyExactly(p, q);
    assert forall x :: (q.kind + "/" + x)[|q.kind|] == '/' && (p.kind + "/" + x)[|p.kind|] == '/';
  }

  /** And every kind with a slash has a different provider it is reported to duplicate. */
  lemma SlashedKindsCollide(kind: string, rest: string, id: string, alias: string, other: string)
    requires kind != "" && id != "" && alias != "" && other != ""
    ensures var p, q := Provider(kind + "/" + rest, id, alias), Provider(kind, rest + "/" + id, other);
            p.kind != q.kind && Clash(p, q)
  {
    ShiftedKeysCollide(Provider(kind + "/" + rest, id, alias), Provider(kind, rest + "/" + id, other), rest);
    assert |kind + "/" + rest| > |kind|;
  }
}
