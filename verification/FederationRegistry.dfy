/** The federation registry validator: header, project ids, shared components, dependencies, goal ownership,
    labels and invariants.

    A missing id or text is represented by the empty string. `Resolver` is the normalisation of labels
    (stripped and case-folded), None for a label that is not a non-blank string. */
module FederationRegistry {
  import opened Common
  import opened Graph
  import opened TextOrder
  import opened FederationCycle

  datatype Project = Project(id: string, name: string, trustDomain: string, stateAuthority: string,
                             dependsOn: seq<string>, componentIds: seq<string>, goalIds: seq<string>,
                             aliases: seq<string>, legacyNames: seq<string>)

  datatype Component = Component(id: string, owner: string, purpose: string)

  datatype Registry = Registry(schemaVersion: int, portfolioId: string, controlPlane: string,
                               combinationModel: string, projects: seq<Project>, components: seq<Component>,
                               invariants: seq<string>)

  const REQUIRED_PROJECTS: set<string> :=
    {"automation", "agent_fabric", "cybersecurity", "provenance_recovery", "dedupe_organizer",
     "aaard", "conversation_intelligence", "epistemic_guard", "physics", "test_a_theory",
     "openquestrpg", "creative_canon", "productization"}

  const REQUIRED_COMPONENTS: set<string> := {"C01", "C02", "C03", "C04", "C05"}

  const REQUIRED_INVARIANTS: set<string> :=
    {"no_information_bearing_transformation_without_provenance",
     "detection_and_mutation_are_separate_trust_domains",
     "host_evidence_never_substitutes_for_physical_device_evidence",
     "signatures_and_hashes_attest_integrity_not_semantic_truth",
     "projections_are_rebuildable_not_authoritative",
     "completion_claims_are_release_scoped_and_requalifiable",
     "every_account_goal_has_exactly_one_canonical_project_owner",
     "legacy_names_resolve_to_one_canonical_owner_without_recreating_duplicate_state"}

  type Resolver = string -> Option<string>

  datatype RegistryError =
    | UnsupportedSchema
    | MissingPortfolio
    | UnexpectedControlPlane
    | UnexpectedCombination
    | DuplicateProject
    | MissingProject(id: string)
    | DuplicateComponent
    | MissingComponent(id: string)
    | MissingComponentId
    | UnknownOwner(id: string)
    | MissingPurpose(id: string)
    | MissingId
    | MissingName(id: string)
    | MissingTrustDomain(id: string)
    | MissingStateAuthority(id: string)
    | RepeatedComponent(id: string)
    | UnknownComponent(id: string, component: string)
    | UnknownDependency(id: string, dependency: string)
    | SelfDependency(id: string)
    | RepeatedGoal(id: string)
    | InvalidLabel(id: string)
    | DependencyCycleFound(path: seq<string>)
    | AmbiguousLabel(key: string)
    | LedgerUnreadable
    | DuplicateLedgerGoal
    | MissingOwner(goal: string)
    | DuplicateOwner(goal: string)
    | UnknownGoal(goal: string)
    | MissingInvariant(name: string)

  function Ids(projects: seq<Project>): seq<string> {
    seq(|projects|, i requires 0 <= i < |projects| => projects[i].id)
  }

  function ComponentIds(components: seq<Component>): seq<string> {
    seq(|components|, i requires 0 <= i < |components| => components[i].id)
  }

  function KnownComponents(components: seq<Component>): set<string> {
    Elements(ComponentIds(components)) - {""}
  }

  /** The names a project answers to. */
  function Labels(p: Project): seq<string> {
    [p.id, p.name] + p.aliases + p.legacyNames
  }

  /** The ids other projects may refer to. */
  function Known(projects: seq<Project>): set<string> {
    Elements(Ids(projects)) - {""}
  }

  /** `len(s) != len(set(s))` detects exactly the repetitions. */
  lemma {:induction false} SizeTellsDistinct(s: seq<string>)
    ensures |Elements(s)| <= |s|
    ensures |Elements(s)| == |s| <==> Distinct(s)
  {
    if s == [] {
    } else {
      var before, last := s[..|s| - 1], s[|s| - 1];
      SizeTellsDistinct(before);
      ElementsSnoc(s);
      assert Distinct(s) <==> Distinct(before) && last !in before;
    }
  }

  /** What the checks are about, by name. */
  lemma RequiredNames()
    ensures REQUIRED_PROJECTS == {"automation", "agent_fabric", "cybersecurity", "provenance_recovery",
                                  "dedupe_organizer", "aaard", "conversation_intelligence", "epistemic_guard",
                                  "physics", "test_a_theory", "openquestrpg", "creative_canon", "productization"}
    ensures REQUIRED_COMPONENTS == {"C01", "C02", "C03", "C04", "C05"}
    ensures REQUIRED_INVARIANTS
            == {"no_information_bearing_transformation_without_provenance",
                "detection_and_mutation_are_separate_trust_domains",
                "host_evidence_never_substitutes_for_physical_device_evidence",
                "signatures_and_hashes_attest_integrity_not_semantic_truth",
                "projections_are_rebuildable_not_authoritative",
                "completion_claims_are_release_scoped_and_requalifiable",
                "every_account_goal_has_exactly_one_canonical_project_owner",
                "legacy_names_resolve_to_one_canonical_owner_without_recreating_duplicate_state"}
  {
  }

  /** The ids that may be referred to are the non-empty ids of the listed projects and components. */
  lemma KnownAre(reg: Registry, id: string)
    ensures id in Known(reg.projects) <==> id != "" && exists p :: p in reg.projects && p.id == id
    ensures id in KnownComponents(reg.components) <==> id != "" && exists c :: c in reg.components && c.id == id
  {
    if p :| p in reg.projects && p.id == id {
      var i :| 0 <= i < |reg.projects| && reg.projects[i] == p;
      assert Ids(reg.projects)[i] == id;
    }
    if c :| c in reg.components && c.id == id {
      var i :| 0 <= i < |reg.components| && reg.components[i] == c;
      assert ComponentIds(reg.components)[i] == id;
    }
    if id in Ids(reg.projects) {
      var i :| 0 <= i < |Ids(reg.projects)| && Ids(reg.projects)[i] == id;
      assert reg.projects[i] in reg.projects;
    }
    if id in ComponentIds(reg.components) {
      var i :| 0 <= i < |ComponentIds(reg.components)| && ComponentIds(reg.components)[i] == id;
      assert reg.components[i] in reg.components;
    }
  }

  /** A project answers to its id, its name, its aliases and its legacy names. */
  lemma LabelsOf(p: Project, label_: string)
    ensures label_ in Labels(p) <==>
              label_ == p.id || label_ == p.name || label_ in p.aliases || label_ in p.legacyNames
  {
  }

  /** With distinct ids, the dependency graph is what the projects list. */
  lemma {:induction false} GraphLists(projects: seq<Project>, p: Project)
    requires Distinct(Ids(projects)) && p in projects && p.id != ""
    ensures p.id in GraphOf(projects) && GraphOf(projects)[p.id] == p.dependsOn
  {
    var n := |projects| - 1;
    if projects[n] != p {
      assert p in projects[..n];
      var i :| 0 <= i < n && projects[i] == p;
      assert Ids(projects)[i] != Ids(projects)[n];
      assert Distinct(Ids(projects[..n])) by {
        forall j, k | 0 <= j < k < n ensures Ids(projects[..n])[j] != Ids(projects[..n])[k] {
          assert Ids(projects)[j] != Ids(projects)[k];
        }
      }
      GraphLists(projects[..n], p);
    }
  }

  predicate ProjectOk(known: set<string>, components: set<string>, resolve: Resolver, p: Project) {
    && p.id != "" && p.name != "" && p.trustDomain != "" && p.stateAuthority != ""
    && (forall d :: d in p.dependsOn ==> d in known && d != p.id)
    && Distinct(p.componentIds) && (forall c :: c in p.componentIds ==> c in components)
    && Distinct(p.goalIds)
    && (forall l :: l in Labels(p) ==> resolve(l).Some?)
  }

  /** The dependency graph; a later project with the same id replaces an earlier one. */
  function GraphOf(projects: seq<Project>): Graph {
    if projects == [] then map[]
    else
      var before, p := GraphOf(projects[..|projects| - 1]), projects[|projects| - 1];
      if p.id == "" then before else before[p.id := p.dependsOn]
  }

  predicate Owns(projects: seq<Project>, i: nat, goal: string) {
    i < |projects| && goal in projects[i].goalIds
  }

  predicate OwnedOnceBy(projects: seq<Project>, i: nat, goal: string) {
    Owns(projects, i, goal) && forall k: nat :: k < |projects| && Owns(projects, k, goal) ==> k == i
  }

  predicate OwnedOnce(projects: seq<Project>, goal: string) {
    exists i: nat :: i < |projects| && OwnedOnceBy(projects, i, goal)
  }

  /** No normalised label leads to two projects. */
  ghost predicate LabelsUnambiguous(projects: seq<Project>, resolve: Resolver) {
    forall key, a, b :: a in LabelOwners(projects, resolve, key) && b in LabelOwners(projects, resolve, key) ==> a == b
  }

  predicate ProjectsOk(projects: seq<Project>, components: set<string>, resolve: Resolver) {
    forall p :: p in projects ==> ProjectOk(Known(projects), components, resolve, p)
  }

  predicate ComponentOk(known: set<string>, c: Component) {
    c.id != "" && c.owner in known && c.purpose != ""
  }

  predicate ComponentsOk(components: seq<Component>, known: set<string>) {
    && Distinct(ComponentIds(components)) && REQUIRED_COMPONENTS <= KnownComponents(components)
    && forall c :: c in components ==> ComponentOk(known, c)
  }

  predicate HeaderOk(reg: Registry) {
    && reg.schemaVersion == 2 && reg.portfolioId != ""
    && reg.controlPlane == "12ephods-source/centinal26"
    && reg.combinationModel == "federated_modules_with_single_goal_ownership"
  }

  /** Every ledger goal has exactly one owner, and nothing else is owned. */
  predicate GoalsOk(projects: seq<Project>, ledger: seq<string>) {
    && Distinct(ledger)
    && (forall g :: g in ledger ==> OwnedOnce(projects, g))
    && (forall p, g :: p in projects && g in p.goalIds ==> g in ledger)
  }

  /** What the projects and the goal ledger must satisfy together. */
  ghost predicate PortfolioOk(projects: seq<Project>, components: set<string>, ledger: seq<string>, resolve: Resolver) {
    && Distinct(Ids(projects)) && REQUIRED_PROJECTS <= Known(projects)
    && ProjectsOk(projects, components, resolve)
    && Acyclic(GraphOf(projects))
    && LabelsUnambiguous(projects, resolve)
    && GoalsOk(projects, ledger)
  }

  /** What a registry and a goal ledger, None when it cannot be read, must satisfy. */
  ghost predicate FederationOk(reg: Registry, ledger: Option<seq<string>>, resolve: Resolver) {
    && HeaderOk(reg) && ledger.Some?
    && ComponentsOk(reg.components, Known(reg.projects))
    && PortfolioOk(reg.projects, KnownComponents(reg.components), ledger.value, resolve)
    && REQUIRED_INVARIANTS <= Elements(reg.invariants)
  }

  // ---- Goal owners ----

  /** id once for every occurrence of the goal. */
  function Occurrences(id: string, goals: seq<string>, goal: string): seq<string> {
    if goals == [] then [] else Occurrences(id, goals[..|goals| - 1], goal) + When(goals[|goals| - 1] == goal, id)
  }

  /** goal_owners[goal]: the ids of the projects that list it, in registry order. */
  function GoalOwners(projects: seq<Project>, goal: string): seq<string> {
    if projects == [] then []
    else
      var before, p := GoalOwners(projects[..|projects| - 1], goal), projects[|projects| - 1];
      if p.id == "" then before else before + Occurrences(p.id, p.goalIds, goal)
  }

  function At(owners: map<string, seq<string>>, goal: string): seq<string> {
    if goal in owners then owners[goal] else []
  }

  ghost predicate OwnersAre(projects: seq<Project>, owners: map<string, seq<string>>) {
    && (forall g :: At(owners, g) == GoalOwners(projects, g))
    && (forall g :: g in owners ==> owners[g] != [])
  }

  lemma {:induction false} OccurrencesCount(id: string, goals: seq<string>, goal: string)
    requires Distinct(goals)
    ensures Occurrences(id, goals, goal) == When(goal in goals, id)
  {
    if goals == [] {
    } else {
      var before, last := goals[..|goals| - 1], goals[|goals| - 1];
      OccurrencesCount(id, before, goal);
      assert goals == before + [last];
      assert last !in before;
    }
  }

  function OwnerIndices(projects: seq<Project>, goal: string): set<nat> {
    set i: nat | i < |projects| && Owns(projects, i, goal)
  }

  lemma OwnerIndicesSnoc(before: seq<Project>, p: Project, goal: string)
    ensures OwnerIndices(before + [p], goal)
            == OwnerIndices(before, goal) + if goal in p.goalIds then {|before|} else {}
  {
    forall i: nat | i < |before| ensures Owns(before + [p], i, goal) <==> Owns(before, i, goal) { }
  }

  lemma {:induction false} OwnersCounted(projects: seq<Project>, goal: string)
    requires forall p :: p in projects ==> p.id != "" && Distinct(p.goalIds)
    ensures |GoalOwners(projects, goal)| == |OwnerIndices(projects, goal)|
  {
    if projects == [] {
    } else {
      var before, p := projects[..|projects| - 1], projects[|projects| - 1];
      assert projects == before + [p];
      OwnersCounted(before, goal);
      OccurrencesCount(p.id, p.goalIds, goal);
      OwnerIndicesSnoc(before, p, goal);
      assert |before| !in OwnerIndices(before, goal);
    }
  }

  lemma {:induction false} OwnerLists(projects: seq<Project>, goal: string, id: string)
    requires forall p :: p in projects ==> Distinct(p.goalIds)
    requires id in GoalOwners(projects, goal)
    ensures exists p :: p in projects && p.id == id && goal in p.goalIds
  {
    var before, p := projects[..|projects| - 1], projects[|projects| - 1];
    OccurrencesCount(p.id, p.goalIds, goal);
    if id in GoalOwners(before, goal) { OwnerLists(before, goal, id); }
  }

  /** One owner on the list means one owning project, and the other way round. */
  lemma OneOwnerIff(projects: seq<Project>, goal: string)
    requires forall p :: p in projects ==> p.id != "" && Distinct(p.goalIds)
    ensures |GoalOwners(projects, goal)| == 1 <==> OwnedOnce(projects, goal)
  {
    OwnersCounted(projects, goal);
    var s := OwnerIndices(projects, goal);
    if |s| == 1 {
      var i :| i in s;
      assert s == {i} by { assert |s - {i}| == 0; }
      forall k: nat | k < |projects| && Owns(projects, k, goal) ensures k == i { assert k in s; }
      assert OwnedOnceBy(projects, i, goal);
    }
    if OwnedOnce(projects, goal) {
      var i: nat :| i < |projects| && OwnedOnceBy(projects, i, goal);
      assert s == {i};
    }
  }

  lemma OwnedMeansListed(projects: seq<Project>, goal: string)
    requires forall p :: p in projects ==> p.id != "" && Distinct(p.goalIds)
    ensures GoalOwners(projects, goal) != [] <==> exists p :: p in projects && goal in p.goalIds
  {
    OwnersCounted(projects, goal);
    if GoalOwners(projects, goal) != [] { OwnerLists(projects, goal, GoalOwners(projects, goal)[0]); }
    if p :| p in projects && goal in p.goalIds {
      var i: nat :| i < |projects| && projects[i] == p;
      assert i in OwnerIndices(projects, goal);
    }
  }

  /** The loop over a project's goals. */
  method AddGoals(p: Project, owners: map<string, seq<string>>, ghost before: seq<Project>)
    returns (after: map<string, seq<string>>)
    requires p.id != "" && OwnersAre(before, owners)
    ensures OwnersAre(before + [p], after)
  {
    after := owners;
    assert forall g :: Occurrences(p.id, p.goalIds[..0], g) == [];
    for j := 0 to |p.goalIds|
      invariant OwnersWithin(before, p, j, after)
    {
      var goal := p.goalIds[j];
      OwnersWithinStep(before, p, j, after);
      after := after[goal := At(after, goal) + [p.id]];
    }
    OwnersWithinAll(before, p, after);
  }

  /** The owners after the first j goals of p. */
  ghost predicate OwnersWithin(before: seq<Project>, p: Project, j: nat, owners: map<string, seq<string>>)
    requires j <= |p.goalIds|
  {
    && (forall g :: At(owners, g) == GoalOwners(before, g) + Occurrences(p.id, p.goalIds[..j], g))
    && (forall g :: g in owners ==> owners[g] != [])
  }

  lemma OccurrencesSnoc(id: string, goals: seq<string>, j: nat, g: string)
    requires j < |goals|
    ensures Occurrences(id, goals[..j + 1], g) == Occurrences(id, goals[..j], g) + When(goals[j] == g, id)
  {
    assert goals[..j + 1][..j] == goals[..j];
  }

  lemma OwnersWithinStep(before: seq<Project>, p: Project, j: nat, owners: map<string, seq<string>>)
    requires j < |p.goalIds| && OwnersWithin(before, p, j, owners)
    ensures OwnersWithin(before, p, j + 1, owners[p.goalIds[j] := At(owners, p.goalIds[j]) + [p.id]])
  {
    var goal := p.goalIds[j];
    var after := owners[goal := At(owners, goal) + [p.id]];
    forall g ensures At(after, g) == GoalOwners(before, g) + Occurrences(p.id, p.goalIds[..j + 1], g) {
      OccurrencesSnoc(p.id, p.goalIds, j, g);
      assert At(after, g) == At(owners, g) + When(goal == g, p.id);
    }
  }

  lemma OwnersWithinAll(before: seq<Project>, p: Project, owners: map<string, seq<string>>)
    requires p.id != "" && OwnersWithin(before, p, |p.goalIds|, owners)
    ensures OwnersAre(before + [p], owners)
  {
    assert p.goalIds[..|p.goalIds|] == p.goalIds;
    assert (before + [p])[..|before|] == before;
  }

  // ---- Label owners ----

  predicate Labelled(p: Project, resolve: Resolver, key: string) {
    p.id != "" && exists l :: l in Labels(p) && resolve(l) == Some(key)
  }

  /** label_owners[key]. */
  function LabelOwners(projects: seq<Project>, resolve: Resolver, key: string): set<string> {
    set p | p in projects && Labelled(p, resolve, key) :: p.id
  }

  function AtLabel(owners: map<string, set<string>>, key: string): set<string> {
    if key in owners then owners[key] else {}
  }

  ghost predicate LabelsAre(projects: seq<Project>, resolve: Resolver, owners: map<string, set<string>>) {
    forall key :: AtLabel(owners, key) == LabelOwners(projects, resolve, key)
  }

  lemma LabelOwnersSnoc(before: seq<Project>, p: Project, resolve: Resolver, key: string)
    ensures LabelOwners(before + [p], resolve, key)
            == LabelOwners(before, resolve, key) + if Labelled(p, resolve, key) then {p.id} else {}
  {
  }

  /** The loop over a project's labels. */
  method AddLabels(p: Project, resolve: Resolver, owners: map<string, set<string>>, ghost before: seq<Project>)
    returns (errors: seq<RegistryError>, after: map<string, set<string>>)
    requires p.id != "" && LabelsAre(before, resolve, owners)
    ensures errors == [] <==> forall l :: l in Labels(p) ==> resolve(l).Some?
    ensures LabelsAre(before + [p], resolve, after)
  {
    errors, after := [], owners;
    var names := Labels(p);
    for j := 0 to |names|
      invariant errors == [] <==> forall k :: 0 <= k < j ==> resolve(names[k]).Some?
      invariant forall key :: AtLabel(after, key) == LabelOwners(before, resolve, key)
                                + if exists k :: 0 <= k < j && resolve(names[k]) == Some(key) then {p.id} else {}
    {
      match resolve(names[j])
      case None => errors := errors + [InvalidLabel(p.id)];
      case Some(key) => after := after[key := AtLabel(after, key) + {p.id}];
    }
    forall key ensures AtLabel(after, key) == LabelOwners(before + [p], resolve, key) {
      LabelOwnersSnoc(before, p, resolve, key);
      assert Labelled(p, resolve, key) <==> exists k :: 0 <= k < |names| && resolve(names[k]) == Some(key);
    }
  }

  // ---- The loop over the projects ----

  method CheckDependencies(p: Project, known: set<string>) returns (errors: seq<RegistryError>)
    ensures errors == [] <==> forall d :: d in p.dependsOn ==> d in known && d != p.id
  {
    errors := [];
    for j := 0 to |p.dependsOn|
      invariant errors == [] <==> forall k :: 0 <= k < j ==> p.dependsOn[k] in known && p.dependsOn[k] != p.id
    {
      var dep := p.dependsOn[j];
      if dep !in known { errors := errors + [UnknownDependency(p.id, dep)]; }
      if dep == p.id { errors := errors + [SelfDependency(p.id)]; }
    }
  }

  /** What the loop has collected from the projects so far. */
  ghost predicate Collected(projects: seq<Project>, resolve: Resolver, owners: map<string, seq<string>>,
                            labels: map<string, set<string>>, graph: Graph, order: seq<string>) {
    && OwnersAre(projects, owners) && LabelsAre(projects, resolve, labels)
    && graph == GraphOf(projects) && Elements(order) == graph.Keys
  }

  lemma GraphSnoc(before: seq<Project>, p: Project)
    ensures GraphOf(before + [p]) == if p.id == "" then GraphOf(before) else GraphOf(before)[p.id := p.dependsOn]
  {
    assert (before + [p])[..|before|] == before;
  }

  lemma NamelessIgnored(before: seq<Project>, p: Project, resolve: Resolver)
    requires p.id == ""
    ensures forall g :: GoalOwners(before + [p], g) == GoalOwners(before, g)
    ensures forall key :: LabelOwners(before + [p], resolve, key) == LabelOwners(before, resolve, key)
    ensures GraphOf(before + [p]) == GraphOf(before)
  {
    assert (before + [p])[..|before|] == before;
    forall key ensures LabelOwners(before + [p], resolve, key) == LabelOwners(before, resolve, key) {
      LabelOwnersSnoc(before, p, resolve, key);
    }
  }

  lemma CollectedNameless(before: seq<Project>, p: Project, resolve: Resolver, owners: map<string, seq<string>>,
                          labels: map<string, set<string>>, graph: Graph, order: seq<string>)
    requires p.id == "" && Collected(before, resolve, owners, labels, graph, order)
    ensures Collected(before + [p], resolve, owners, labels, graph, order)
  {
    NamelessIgnored(before, p, resolve);
  }

  lemma CollectedNothing(resolve: Resolver)
    ensures Collected([], resolve, map[], map[], map[], [])
  {
  }

  method CheckTexts(p: Project) returns (errors: seq<RegistryError>)
    ensures errors == [] <==> p.name != "" && p.trustDomain != "" && p.stateAuthority != ""
  {
    errors := [];
    if p.name == "" { errors := errors + [MissingName(p.id)]; }
    if p.trustDomain == "" { errors := errors + [MissingTrustDomain(p.id)]; }
    if p.stateAuthority == "" { errors := errors + [MissingStateAuthority(p.id)]; }
  }

  method CheckUses(p: Project, components: set<string>) returns (errors: seq<RegistryError>)
    ensures errors == [] <==> Distinct(p.componentIds) && forall c :: c in p.componentIds ==> c in components
  {
    SizeTellsDistinct(p.componentIds);
    errors := When(|p.componentIds| != |Elements(p.componentIds)|, RepeatedComponent(p.id));
    for j := 0 to |p.componentIds|
      invariant errors == [] <==> Distinct(p.componentIds) && forall k :: 0 <= k < j ==> p.componentIds[k] in components
    {
      var cid := p.componentIds[j];
      if cid !in components { errors := errors + [UnknownComponent(p.id, cid)]; }
    }
  }

  /** The checks of a project that has an id, apart from goals and labels. */
  method CheckProject(p: Project, known: set<string>, components: set<string>) returns (errors: seq<RegistryError>)
    ensures errors == [] <==> p.name != "" && p.trustDomain != "" && p.stateAuthority != ""
                              && (forall d :: d in p.dependsOn ==> d in known && d != p.id)
                              && Distinct(p.componentIds) && forall c :: c in p.componentIds ==> c in components
  {
    var texts := CheckTexts(p);
    var dependencies := CheckDependencies(p, known);
    var uses := CheckUses(p, components);
    errors := texts + dependencies + uses;
  }

  /** The body of the loop; a project without an id is reported and adds nothing. */
  method AddProject(p: Project, known: set<string>, components: set<string>, resolve: Resolver,
                    owners: map<string, seq<string>>, labels: map<string, set<string>>, graph: Graph,
                    order: seq<string>, ghost before: seq<Project>)
    returns (errors: seq<RegistryError>, owners': map<string, seq<string>>, labels': map<string, set<string>>,
             graph': Graph, order': seq<string>)
    requires Collected(before, resolve, owners, labels, graph, order)
    ensures errors == [] <==> ProjectOk(known, components, resolve, p)
    ensures Collected(before + [p], resolve, owners', labels', graph', order')
  {
    if p.id == "" {
      CollectedNameless(before, p, resolve, owners, labels, graph, order);
      return [MissingId], owners, labels, graph, order;
    }
    errors := CheckProject(p, known, components);
    SizeTellsDistinct(p.goalIds);
    if |p.goalIds| != |Elements(p.goalIds)| { errors := errors + [RepeatedGoal(p.id)]; }
    owners' := AddGoals(p, owners, before);
    var invalid;
    invalid, labels' := AddLabels(p, resolve, labels, before);
    errors := errors + invalid;
    GraphSnoc(before, p);
    ElementsAdd(order, p.id);
    order' := if p.id in graph then order else order + [p.id];
    graph' := graph[p.id := p.dependsOn];
  }

  method CheckProjects(projects: seq<Project>, components: set<string>, resolve: Resolver)
    returns (errors: seq<RegistryError>, owners: map<string, seq<string>>, labels: map<string, set<string>>,
             graph: Graph, order: seq<string>)
    ensures errors == [] <==> ProjectsOk(projects, components, resolve)
    ensures Collected(projects, resolve, owners, labels, graph, order)
  {
    var known := Known(projects);
    errors, owners, labels, graph, order := [], map[], map[], map[], [];
    CollectedNothing(resolve);
    assert projects[..0] == [];
    for i := 0 to |projects|
      invariant errors == [] <==> forall k :: 0 <= k < i ==> ProjectOk(known, components, resolve, projects[k])
      invariant Collected(projects[..i], resolve, owners, labels, graph, order)
    {
      assert projects[..i + 1] == projects[..i] + [projects[i]];
      var found;
      found, owners, labels, graph, order :=
        AddProject(projects[i], known, components, resolve, owners, labels, graph, order, projects[..i]);
      errors := errors + found;
    }
    assert projects[..|projects|] == projects;
  }

  // ---- The checks after the loop ----

  predicate LabelsPass(labels: map<string, set<string>>) {
    forall key :: key in labels ==> |AtLabel(labels, key)| <= 1
  }

  predicate GoalsPass(owners: map<string, seq<string>>, ledger: seq<string>) {
    Distinct(ledger) && (forall g :: g in ledger ==> |At(owners, g)| == 1) && owners.Keys <= Elements(ledger)
  }

  lemma SortedHolds(a: set<string>)
    ensures forall x :: x in Sorted(a) <==> x in a
  {
    forall x ensures x in Sorted(a) <==> x in a { assert x in Sorted(a) <==> x in Elements(Sorted(a)); }
  }

  method CheckLabels(labels: map<string, set<string>>) returns (errors: seq<RegistryError>)
    ensures errors == [] <==> LabelsPass(labels)
  {
    errors := [];
    var keys := Sorted(labels.Keys);
    for j := 0 to |keys|
      invariant errors == [] <==> forall k :: 0 <= k < j ==> |AtLabel(labels, keys[k])| <= 1
    {
      if |AtLabel(labels, keys[j])| > 1 { errors := errors + [AmbiguousLabel(keys[j])]; }
    }
    SortedHolds(labels.Keys);
  }

  /** Every ledger goal against its owners. */
  method CheckOwned(owners: map<string, seq<string>>, ledger: seq<string>) returns (errors: seq<RegistryError>)
    ensures errors == [] <==> forall g :: g in ledger ==> |At(owners, g)| == 1
  {
    errors := [];
    var goals := Sorted(Elements(ledger));
    for j := 0 to |goals|
      invariant errors == [] <==> forall k :: 0 <= k < j ==> |At(owners, goals[k])| == 1
    {
      if At(owners, goals[j]) == [] {
        errors := errors + [MissingOwner(goals[j])];
      } else if |At(owners, goals[j])| > 1 {
        errors := errors + [DuplicateOwner(goals[j])];
      }
    }
    SortedHolds(Elements(ledger));
    forall g ensures g in ledger <==> g in goals { assert g in ledger <==> g in Elements(ledger); }
  }

  /** Every owned goal against the ledger. */
  method CheckUnknown(owned: set<string>, ledger: set<string>) returns (errors: seq<RegistryError>)
    ensures errors == [] <==> owned <= ledger
  {
    errors := [];
    var unknown := Sorted(owned - ledger);
    for j := 0 to |unknown|
      invariant errors == [] <==> j == 0
    {
      errors := errors + [UnknownGoal(unknown[j])];
    }
    NothingMissing(owned, ledger);
  }

  lemma NothingMissing(a: set<string>, b: set<string>)
    ensures Sorted(a - b) == [] <==> a <= b
    ensures a - b == {} <==> a <= b
  {
    if a - b == {} {
      forall x | x in a ensures x in b { assert x !in a - b; }
    }
  }

  method CheckGoals(owners: map<string, seq<string>>, ledger: seq<string>) returns (errors: seq<RegistryError>)
    ensures errors == [] <==> GoalsPass(owners, ledger)
  {
    SizeTellsDistinct(ledger);
    errors := When(|ledger| != |Elements(ledger)|, DuplicateLedgerGoal);
    var owned := CheckOwned(owners, ledger);
    var unknown := CheckUnknown(owners.Keys, Elements(ledger));
    errors := errors + owned + unknown;
  }

  lemma SmallMeansOne(s: set<string>)
    ensures |s| <= 1 <==> forall a, b :: a in s && b in s ==> a == b
  {
    if s != {} {
      var a :| a in s;
      if |s| <= 1 {
        assert |s - {a}| == 0;
        assert s == {a};
      } else {
        assert |s - {a}| >= 1;
        var b :| b in s - {a};
        assert a != b;
      }
    }
  }

  lemma LabelsDecide(projects: seq<Project>, resolve: Resolver, labels: map<string, set<string>>)
    requires LabelsAre(projects, resolve, labels)
    ensures LabelsPass(labels) <==> LabelsUnambiguous(projects, resolve)
  {
    forall key ensures (key in labels ==> |AtLabel(labels, key)| <= 1)
                       <==> (var owners := LabelOwners(projects, resolve, key);
                             forall a, b :: a in owners && b in owners ==> a == b)
    {
      assert AtLabel(labels, key) == LabelOwners(projects, resolve, key);
      SmallMeansOne(AtLabel(labels, key));
    }
  }

  lemma GoalsDecide(projects: seq<Project>, ledger: seq<string>, owners: map<string, seq<string>>)
    requires OwnersAre(projects, owners) && forall p :: p in projects ==> p.id != "" && Distinct(p.goalIds)
    ensures GoalsPass(owners, ledger) <==> GoalsOk(projects, ledger)
  {
    forall g ensures |At(owners, g)| == 1 <==> OwnedOnce(projects, g) { OneOwnerIff(projects, g); }
    forall g ensures g in owners <==> exists p :: p in projects && g in p.goalIds {
      OwnedMeansListed(projects, g);
      assert At(owners, g) == GoalOwners(projects, g);
    }
    if owners.Keys <= Elements(ledger) {
      forall p, g | p in projects && g in p.goalIds ensures g in ledger { assert g in owners.Keys; }
    }
    if forall p, g :: p in projects && g in p.goalIds ==> g in ledger {
      forall g | g in owners ensures g in Elements(ledger) { }
    }
  }

  predicate SoleOwner(owners: map<string, seq<string>>, ledger: set<string>, g: string, id: string) {
    g in owners && g in ledger && owners[g] == [id]
  }

  predicate IncreasingGoals(pairs: seq<(string, string)>) {
    forall j, k :: 0 <= j < k < |pairs| ==> Less(pairs[j].0, pairs[k].0)
  }

  /** The (goal, owner) pairs of the ledger goals among goals that have one owner. */
  function PairsOf(owners: map<string, seq<string>>, ledger: set<string>, goals: seq<string>): seq<(string, string)> {
    if goals == [] then []
    else
      var before, g := PairsOf(owners, ledger, goals[..|goals| - 1]), goals[|goals| - 1];
      if g in ledger && |At(owners, g)| == 1 then before + [(g, At(owners, g)[0])] else before
  }

  lemma {:induction false} PairsIff(owners: map<string, seq<string>>, ledger: set<string>, goals: seq<string>,
                                    g: string, id: string)
    ensures (g, id) in PairsOf(owners, ledger, goals) <==> g in goals && SoleOwner(owners, ledger, g, id)
  {
    if goals == [] {
    } else {
      PairsIff(owners, ledger, goals[..|goals| - 1], g, id);
      assert goals == goals[..|goals| - 1] + [goals[|goals| - 1]];
    }
  }

  lemma {:induction false} PairsIncrease(owners: map<string, seq<string>>, ledger: set<string>, goals: seq<string>)
    requires Increasing(goals)
    ensures IncreasingGoals(PairsOf(owners, ledger, goals))
  {
    if goals == [] {
    } else {
      var n := |goals| - 1;
      var before := PairsOf(owners, ledger, goals[..n]);
      PairsIncrease(owners, ledger, goals[..n]);
      forall m | 0 <= m < |before| ensures Less(before[m].0, goals[n]) {
        assert (before[m].0, before[m].1) in before;
        PairsIff(owners, ledger, goals[..n], before[m].0, before[m].1);
        var k :| 0 <= k < n && goals[..n][k] == before[m].0;
        assert Less(goals[k], goals[n]);
      }
    }
  }

  lemma PairsSnoc(owners: map<string, seq<string>>, ledger: set<string>, goals: seq<string>, j: nat)
    requires j < |goals|
    ensures PairsOf(owners, ledger, goals[..j + 1])
            == if goals[j] in ledger && |At(owners, goals[j])| == 1
               then PairsOf(owners, ledger, goals[..j]) + [(goals[j], At(owners, goals[j])[0])]
               else PairsOf(owners, ledger, goals[..j])
  {
    assert goals[..j + 1][..j] == goals[..j];
  }

  lemma AllPairs(owners: map<string, seq<string>>, ledger: set<string>)
    ensures var pairs := PairsOf(owners, ledger, Sorted(owners.Keys));
            IncreasingGoals(pairs) && forall g, id :: (g, id) in pairs <==> SoleOwner(owners, ledger, g, id)
  {
    var goals := Sorted(owners.Keys);
    PairsIncrease(owners, ledger, goals);
    forall g, id ensures (g, id) in PairsOf(owners, ledger, goals) <==> SoleOwner(owners, ledger, g, id) {
      PairsIff(owners, ledger, goals, g, id);
      assert g in goals <==> g in Elements(goals);
    }
  }

  /** The reported owners, sorted by goal. */
  method CanonicalOwners(owners: map<string, seq<string>>, ledger: set<string>) returns (pairs: seq<(string, string)>)
    ensures forall g, id :: (g, id) in pairs <==> SoleOwner(owners, ledger, g, id)
    ensures IncreasingGoals(pairs)
  {
    pairs := [];
    var goals := Sorted(owners.Keys);
    for j := 0 to |goals|
      invariant pairs == PairsOf(owners, ledger, goals[..j])
    {
      var g := goals[j];
      PairsSnoc(owners, ledger, goals, j);
      if g in ledger && |At(owners, g)| == 1 { pairs := pairs + [(g, At(owners, g)[0])]; }
    }
    assert goals[..|goals|] == goals;
    AllPairs(owners, ledger);
  }

  /** The pairs assign to every ledger goal the one project that lists it. */
  ghost predicate AssignsEveryGoal(projects: seq<Project>, ledger: seq<string>, pairs: seq<(string, string)>) {
    && (forall g :: g in ledger ==> exists id :: (g, id) in pairs)
    && (forall g, id :: (g, id) in pairs ==> g in ledger && exists p :: p in projects && p.id == id && g in p.goalIds)
    && IncreasingGoals(pairs)
  }

  /** The checks on projects and goals together decide whether the portfolio is well formed. */
  lemma PhasesDecide(projects: seq<Project>, components: set<string>, ledger: seq<string>, resolve: Resolver,
                     owners: map<string, seq<string>>, labels: map<string, set<string>>)
    requires OwnersAre(projects, owners) && LabelsAre(projects, resolve, labels)
    ensures PortfolioOk(projects, components, ledger, resolve) <==>
              && Distinct(Ids(projects)) && REQUIRED_PROJECTS <= Known(projects)
              && ProjectsOk(projects, components, resolve) && Acyclic(GraphOf(projects))
              && LabelsPass(labels) && GoalsPass(owners, ledger)
  {
    LabelsDecide(projects, resolve, labels);
    if ProjectsOk(projects, components, resolve) { GoalsAgree(projects, components, ledger, resolve, owners); }
  }

  lemma GoalsAgree(projects: seq<Project>, components: set<string>, ledger: seq<string>, resolve: Resolver,
                   owners: map<string, seq<string>>)
    requires OwnersAre(projects, owners) && ProjectsOk(projects, components, resolve)
    ensures GoalsPass(owners, ledger) <==> GoalsOk(projects, ledger)
  {
    forall p | p in projects ensures p.id != "" && Distinct(p.goalIds) {
      assert ProjectOk(Known(projects), components, resolve, p);
    }
    GoalsDecide(projects, ledger, owners);
  }

  lemma PairsAssign(projects: seq<Project>, ledger: seq<string>, owners: map<string, seq<string>>,
                    pairs: seq<(string, string)>)
    requires OwnersAre(projects, owners) && forall p :: p in projects ==> p.id != "" && Distinct(p.goalIds)
    requires GoalsPass(owners, ledger)
    requires forall g, id :: (g, id) in pairs <==> SoleOwner(owners, Elements(ledger), g, id)
    requires IncreasingGoals(pairs)
    ensures AssignsEveryGoal(projects, ledger, pairs)
  {
    forall g | g in ledger ensures exists id :: (g, id) in pairs {
      assert At(owners, g) == owners[g] == [owners[g][0]];
      assert (g, owners[g][0]) in pairs;
    }
    forall g, id | (g, id) in pairs ensures g in ledger && exists p :: p in projects && p.id == id && g in p.goalIds {
      assert At(owners, g) == GoalOwners(projects, g);
      OwnerLists(projects, g, id);
    }
  }

  /** The ids must not repeat and must include the required ones. */
  method CheckIds(required: set<string>, ids: seq<string>, repeated: RegistryError, missing: string -> RegistryError)
    returns (errors: seq<RegistryError>)
    ensures errors == [] <==> Distinct(ids) && required <= Elements(ids) - {""}
  {
    SizeTellsDistinct(ids);
    errors := When(|ids| != |Elements(ids)|, repeated);
    var names := Sorted(required - (Elements(ids) - {""}));
    for j := 0 to |names|
      invariant errors == [] <==> Distinct(ids) && j == 0
    {
      errors := errors + [missing(names[j])];
    }
    NothingMissing(required, Elements(ids) - {""});
  }

  method CheckHeader(reg: Registry) returns (errors: seq<RegistryError>)
    ensures errors == [] <==> HeaderOk(reg)
  {
    errors := When(reg.schemaVersion != 2, UnsupportedSchema)
              + When(reg.portfolioId == "", MissingPortfolio)
              + When(reg.controlPlane != "12ephods-source/centinal26", UnexpectedControlPlane)
              + When(reg.combinationModel != "federated_modules_with_single_goal_ownership", UnexpectedCombination);
  }

  method CheckComponents(components: seq<Component>, known: set<string>) returns (errors: seq<RegistryError>)
    ensures errors == [] <==> ComponentsOk(components, known)
  {
    errors := CheckIds(REQUIRED_COMPONENTS, ComponentIds(components), DuplicateComponent,
                       (id: string) => MissingComponent(id));
    ghost var clean := errors == [];
    for i := 0 to |components|
      invariant errors == [] <==> clean && forall k :: 0 <= k < i ==> ComponentOk(known, components[k])
    {
      var c := components[i];
      if c.id == "" {
        errors := errors + [MissingComponentId];
      } else {
        if c.owner !in known { errors := errors + [UnknownOwner(c.id)]; }
        if c.purpose == "" { errors := errors + [MissingPurpose(c.id)]; }
      }
    }
  }

  method CheckInvariants(invariants: seq<string>) returns (errors: seq<RegistryError>)
    ensures errors == [] <==> REQUIRED_INVARIANTS <= Elements(invariants)
  {
    errors := [];
    var missing := Sorted(REQUIRED_INVARIANTS - Elements(invariants));
    for j := 0 to |missing|
      invariant errors == [] <==> j == 0
    {
      errors := errors + [MissingInvariant(missing[j])];
    }
    NothingMissing(REQUIRED_INVARIANTS, Elements(invariants));
  }

  /** Projects, dependency graph, labels and goals. */
  method CheckPortfolio(projects: seq<Project>, components: set<string>, ledger: seq<string>, resolve: Resolver)
    returns (errors: seq<RegistryError>, pairs: seq<(string, string)>)
    ensures errors == [] <==> PortfolioOk(projects, components, ledger, resolve)
    ensures errors == [] ==> AssignsEveryGoal(projects, ledger, pairs)
    ensures !Acyclic(GraphOf(projects))
            ==> exists path :: DependencyCycleFound(path) in errors && IsCycle(GraphOf(projects), path)
  {
    var early := CheckIds(REQUIRED_PROJECTS, Ids(projects), DuplicateProject, (id: string) => MissingProject(id));
    var found, owners, labels, graph, order := CheckProjects(projects, components, resolve);
    var cycle := DependencyCycle(graph, order);
    var cyclic := if cycle.Some? then [DependencyCycleFound(cycle.value)] else [];
    var ambiguous := CheckLabels(labels);
    var goalErrors := CheckGoals(owners, ledger);
    pairs := CanonicalOwners(owners, Elements(ledger));
    PhasesDecide(projects, components, ledger, resolve, owners, labels);
    errors := early + found + cyclic + ambiguous + goalErrors;
    if errors == [] { PairsAssign(projects, ledger, owners, pairs); }
  }

  /** The registry is reported clean exactly when it is well formed: header, unique ids, known components,
      owners and dependencies, no dependency cycle, one owner for every ledger goal and none besides, no label that
      leads to two projects, every invariant. The reported owners then assign every goal to the one project that
      lists it. A ledger that cannot be read counts as an empty one and is reported. */
  method ValidateRegistry(reg: Registry, ledger: Option<seq<string>>, resolve: Resolver)
    returns (errors: seq<RegistryError>, pairs: seq<(string, string)>)
    ensures errors == [] <==> FederationOk(reg, ledger, resolve)
    ensures errors == [] ==> AssignsEveryGoal(reg.projects, ledger.value, pairs)
    ensures !Acyclic(GraphOf(reg.projects))
            ==> exists path :: DependencyCycleFound(path) in errors && IsCycle(GraphOf(reg.projects), path)
  {
    var header := CheckHeader(reg);
    var componentErrors := CheckComponents(reg.components, Known(reg.projects));
    var goals := if ledger.Some? then ledger.value else [];
    var portfolio;
    portfolio, pairs := CheckPortfolio(reg.projects, KnownComponents(reg.components), goals, resolve);
    var invariants := CheckInvariants(reg.invariants);
    errors := header + componentErrors + portfolio + When(ledger.None?, LedgerUnreadable) + invariants;
  }
}
