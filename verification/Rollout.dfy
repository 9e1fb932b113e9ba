/**
 Kubernetes candidate rollout: a second Deployment beside the canonical one, to which the Service is switched by merge
 patches of its selector (section 2 of RFC 7396).

 A kubectl call may fail, and then has no effect.
 */
module Rollout {
  import opened Option

  type Labels = map<string, string>

  datatype Kind = Namespace | VolumeClaim | Deployment | Service | Ingress

  datatype Object = Object(kind: Kind, name: string)

  datatype Strategy = Recreate | Rolling | BlueGreen | Canary

  // A deletion, with the labels of what was deleted and the selectors of all Services at that moment.
  datatype Deletion = Deletion(item: Object, labels: Labels, selectors: map<string, Labels>)

  const PROJECT_LABEL: string := "odooctl.dev/project"
  const ENVIRONMENT_LABEL: string := "odooctl.dev/environment"
  const COMPONENT_LABEL: string := "app.kubernetes.io/component"
  const REVISION_LABEL: string := "odooctl.dev/revision"

  function OwnershipLabels(project: string, environment: string, component: string): Labels {
    map["app.kubernetes.io/managed-by" := "odooctl",
        PROJECT_LABEL := project,
        ENVIRONMENT_LABEL := environment,
        COMPONENT_LABEL := component]
  }

  function CandidateLabels(project: string, environment: string, revision: string): Labels {
    OwnershipLabels(project, environment, "odoo-candidate")[REVISION_LABEL := Short(revision)]
  }

  function Short(revision: string): string {
    if |revision| > 16 then revision[..16] else revision
  }

  function CandidateSelector(project: string, environment: string, revision: string): Labels {
    map[PROJECT_LABEL := project, ENVIRONMENT_LABEL := environment, COMPONENT_LABEL := "odoo-candidate",
        REVISION_LABEL := Short(revision)]
  }

  function CanonicalSelector(project: string, environment: string): Labels {
    map[PROJECT_LABEL := project, ENVIRONMENT_LABEL := environment, COMPONENT_LABEL := "odoo"]
  }

  predicate Has(labels: Labels, key: string, value: string) {
    key in labels && labels[key] == value
  }

  // The label is the revision up to its first 16 characters.
  predicate Begins(short: string, revision: string) {
    |short| <= 16 && short <= revision && (|short| == 16 || short == revision)
  }

  // Which labels pass the ownership check of a component.
  lemma OwnedIff(labels: Labels, project: string, environment: string, component: string)
    ensures Within(OwnershipLabels(project, environment, component), labels) <==>
            && Has(labels, "app.kubernetes.io/managed-by", "odooctl")
            && Has(labels, "odooctl.dev/project", project)
            && Has(labels, "odooctl.dev/environment", environment)
            && Has(labels, "app.kubernetes.io/component", component)
  {
    var own := OwnershipLabels(project, environment, component);
    assert "app.kubernetes.io/managed-by" in own && PROJECT_LABEL in own && ENVIRONMENT_LABEL in own
        && COMPONENT_LABEL in own;
    LabelsDiffer();
  }

  lemma LabelsDiffer()
    ensures PROJECT_LABEL != ENVIRONMENT_LABEL && PROJECT_LABEL != REVISION_LABEL && ENVIRONMENT_LABEL != REVISION_LABEL
    ensures COMPONENT_LABEL !in {PROJECT_LABEL, ENVIRONMENT_LABEL, REVISION_LABEL}
    ensures "app.kubernetes.io/managed-by" !in {PROJECT_LABEL, ENVIRONMENT_LABEL, COMPONENT_LABEL, REVISION_LABEL}
  {
    assert PROJECT_LABEL[12] != ENVIRONMENT_LABEL[12] && PROJECT_LABEL[12] != REVISION_LABEL[12];
    assert ENVIRONMENT_LABEL[12] != REVISION_LABEL[12];
    assert COMPONENT_LABEL[0] == 'a' && PROJECT_LABEL[0] == ENVIRONMENT_LABEL[0] == REVISION_LABEL[0] == 'o';
    assert COMPONENT_LABEL[18] != "app.kubernetes.io/managed-by"[18];
  }

  // The candidate's check asks for the revision as well.
  lemma CandidateOwnedIff(labels: Labels, project: string, environment: string, revision: string)
    ensures Within(CandidateLabels(project, environment, revision), labels) <==>
            && Within(OwnershipLabels(project, environment, "odoo-candidate"), labels)
            && "odooctl.dev/revision" in labels && Begins(labels["odooctl.dev/revision"], revision)
  {
    var own := OwnershipLabels(project, environment, "odoo-candidate");
    var all := CandidateLabels(project, environment, revision);
    LabelsDiffer();
    assert REVISION_LABEL !in own && REVISION_LABEL in all;
    if Within(all, labels) {
      forall k | k in own ensures k in labels && labels[k] == own[k] {
        assert k in all;
      }
    }
  }

  // Both strings end before this position, or have the same character there.
  predicate AgreeAt(r: string, s: string, i: nat) {
    if i < |r| && i < |s| then r[i] == s[i] else |r| <= i && |s| <= i
  }

  lemma ShortEqualIff(r: string, s: string)
    ensures Short(r) == Short(s) <==> forall i :: 0 <= i < 16 ==> AgreeAt(r, s, i)
  {
    if Short(r) == Short(s) {
      forall i | 0 <= i < 16 ensures AgreeAt(r, s, i) {
        assert |Short(r)| == |Short(s)| && (i < |Short(r)| ==> Short(r)[i] == Short(s)[i]);
      }
    } else if forall i :: 0 <= i < 16 ==> AgreeAt(r, s, i) {
      assert |r| < 16 ==> AgreeAt(r, s, |r|);
      assert |s| < 16 ==> AgreeAt(r, s, |s|);
      forall i | 0 <= i < |Short(r)| ensures i < |Short(s)| && Short(r)[i] == Short(s)[i] {
        assert AgreeAt(r, s, i);
      }
    }
  }

  // Candidates of two revisions pass one another's check exactly if these agree in their first 16 characters.
  lemma RevisionsToldApart(project: string, environment: string, r: string, s: string)
    ensures Within(CandidateLabels(project, environment, r), CandidateLabels(project, environment, s)) <==>
            forall i :: 0 <= i < 16 ==> AgreeAt(r, s, i)
  {
    var a := CandidateLabels(project, environment, r);
    assert REVISION_LABEL in a;
    ShortEqualIff(r, s);
  }

  // Which pods the two selectors select.
  lemma SelectsIff(labels: Labels, project: string, environment: string, revision: string)
    ensures Within(CanonicalSelector(project, environment), labels) <==>
            && Has(labels, "odooctl.dev/project", project)
            && Has(labels, "odooctl.dev/environment", environment)
            && Has(labels, "app.kubernetes.io/component", "odoo")
    ensures Within(CandidateSelector(project, environment, revision), labels) <==>
            && Has(labels, "odooctl.dev/project", project)
            && Has(labels, "odooctl.dev/environment", environment)
            && Has(labels, "app.kubernetes.io/component", "odoo-candidate")
            && "odooctl.dev/revision" in labels && Begins(labels["odooctl.dev/revision"], revision)
  {
    var canonical, candidate := CanonicalSelector(project, environment),
        CandidateSelector(project, environment, revision);
    LabelsDiffer();
    assert PROJECT_LABEL in canonical && ENVIRONMENT_LABEL in canonical && COMPONENT_LABEL in canonical;
    assert PROJECT_LABEL in candidate && ENVIRONMENT_LABEL in candidate && COMPONENT_LABEL in candidate
        && REVISION_LABEL in candidate;
  }

  // A merge patch of string members: it sets, and never removes.
  function Merge(target: Labels, patch: Labels): Labels {
    target + patch
  }

  predicate Within(wanted: Labels, labels: Labels) {
    forall k :: k in wanted ==> k in labels && labels[k] == wanted[k]
  }

  // The Service of this name sends traffic to pods with these labels.
  predicate Serves(selectors: map<string, Labels>, service: string, labels: Labels) {
    service in selectors && selectors[service] != map[] && Within(selectors[service], labels)
  }

  // ---------------------------------------------------------------- what a merge does to a selector

  // Patching back is exact only if the other patch brought no new label.
  lemma PatchBackRestoresIff(previous: Labels, candidate: Labels)
    ensures Merge(Merge(previous, candidate), previous) == previous <==> candidate.Keys <= previous.Keys
  {
    var back := Merge(Merge(previous, candidate), previous);
    assert back.Keys == previous.Keys + candidate.Keys;
    if candidate.Keys <= previous.Keys {
      assert back == previous;
    }
  }

  // So a promoted and rolled-back Service that used the canonical selector keeps the revision label, and no longer
  // selects pods without it.
  lemma RevisionLabelRemains(project: string, environment: string, revision: string, pods: Labels)
    requires REVISION_LABEL !in pods
    ensures var previous := CanonicalSelector(project, environment);
            var back := Merge(Merge(previous, CandidateSelector(project, environment, revision)), previous);
            back == previous[REVISION_LABEL := Short(revision)] && !Within(back, pods)
  {
    var previous := CanonicalSelector(project, environment);
    var back := Merge(Merge(previous, CandidateSelector(project, environment, revision)), previous);
    assert REVISION_LABEL in back;
  }

  // After the canonical resources were applied over a selector, canonical pods are served exactly if apply dropped the
  // labels it was not given, or they carry every one of them.
  lemma CanonicalServedIff(before: map<string, Labels>, after: map<string, Labels>, service: string, project: string,
                           environment: string, pods: Labels)
    requires Applied(before, after, service, CanonicalSelector(project, environment))
    requires Within(CanonicalSelector(project, environment), pods)
    ensures var canonical := CanonicalSelector(project, environment);
            Serves(after, service, pods) <==>
              || after[service] == canonical
              || (service in before && forall k :: k in before[service] && k !in canonical ==>
                  k in pods && pods[k] == before[service][k])
  {
    var canonical := CanonicalSelector(project, environment);
    assert COMPONENT_LABEL in canonical && COMPONENT_LABEL in after[service];
    if after[service] != canonical {
      assert after[service] == Merge(before[service], canonical);
      forall k | k in before[service] && k !in canonical
        ensures k in after[service] && after[service][k] == before[service][k]
      {
      }
    }
  }

  // So a Service that was promoted and then finalized serves canonical pods, which have no revision label, exactly if
  // apply dropped that label from its selector.
  lemma FinalizedServesCanonicalIff(before: map<string, Labels>, after: map<string, Labels>, service: string,
                                    project: string, environment: string, revision: string, previous: Labels,
                                    pods: Labels)
    requires service in before && before[service] == Merge(previous, CandidateSelector(project, environment, revision))
    requires Applied(before, after, service, CanonicalSelector(project, environment))
    requires Within(CanonicalSelector(project, environment), pods) && REVISION_LABEL !in pods
    ensures Serves(after, service, pods) <==> REVISION_LABEL !in after[service]
  {
    CanonicalServedIff(before, after, service, project, environment, pods);
    assert REVISION_LABEL in before[service] && REVISION_LABEL !in CanonicalSelector(project, environment);
    if REVISION_LABEL !in after[service] {
      assert after[service] != Merge(before[service], CanonicalSelector(project, environment));
    }
  }

  // A promoted Service reaches the candidate's pods exactly when every label the patch leaves in its selector is one
  // they carry. The canonical selector leaves none.
  lemma PromotionServesCandidateIff(previous: Labels, project: string, environment: string, revision: string,
                                    pods: Labels)
    requires Within(CandidateLabels(project, environment, revision), pods)
    ensures var patch := CandidateSelector(project, environment, revision);
            Within(Merge(previous, patch), pods)
            <==> forall k :: k in previous && k !in patch ==> k in pods && pods[k] == previous[k]
    ensures Within(Merge(CanonicalSelector(project, environment), CandidateSelector(project, environment, revision)),
              pods)
  {
    var patch := CandidateSelector(project, environment, revision);
    forall k | k in patch ensures k in pods && pods[k] == patch[k] {
      assert k in CandidateLabels(project, environment, revision);
    }
    assert CanonicalSelector(project, environment).Keys <= patch.Keys;
    var merged := Merge(previous, patch);
    if Within(merged, pods) {
      forall k | k in previous && k !in patch ensures k in pods && pods[k] == previous[k] {
        assert k in merged;
      }
    }
  }

  // Whatever the selector was, patching in one that excludes these labels excludes them.
  lemma PatchExcludes(target: Labels, patch: Labels, labels: Labels)
    requires !Within(patch, labels)
    ensures !Within(Merge(target, patch), labels)
  {
    var k :| k in patch && !(k in labels && labels[k] == patch[k]);
    assert Merge(target, patch)[k] == patch[k];
  }

  lemma CanonicalExcludesCandidate(project: string, environment: string, revision: string, labels: Labels)
    requires Within(CandidateLabels(project, environment, revision), labels)
    ensures !Within(CanonicalSelector(project, environment), labels)
    ensures Within(CandidateSelector(project, environment, revision), labels)
  {
    assert COMPONENT_LABEL in CandidateLabels(project, environment, revision);
    assert CanonicalSelector(project, environment)[COMPONENT_LABEL] == "odoo";
  }

  // ---------------------------------------------------------------- the cluster

  // The cluster at one moment, and what has been deleted by then.
  datatype Snapshot = Snapshot(labels: map<Object, Labels>, selectors: map<string, Labels>, deleted: seq<Deletion>)

  class Cluster {
    // The labels of every object; a Deployment's pods carry the labels it was rendered with.
    var labels: map<Object, Labels>
    var selectors: map<string, Labels>
    ghost var deleted: seq<Deletion>
    // Calls that failed.
    ghost var failures: nat

    ghost predicate Valid()
      reads this
    {
      forall name :: name in selectors <==> Object(Service, name) in labels
    }

    ghost function Now(): Snapshot
      reads this
    {
      Snapshot(labels, selectors, deleted)
    }

    method Get(item: Object) returns (r: Option<Labels>, failed: bool)
      modifies this`failures
      ensures failures >= old(failures) && (failed ==> failures > old(failures))
      ensures !failed ==> r == if item in labels then Some(labels[item]) else None
    {
      failed := *;
      failures := if failed then failures + 1 else failures;
      r := if item in labels && !failed then Some(labels[item]) else None;
    }

    // kubectl apply of one object: labels given are set. Selector labels set before and not given may be dropped or
    // kept.
    method Apply(item: Object, given: Labels, selector: Labels)
      requires Valid()
      modifies this`labels, this`selectors
      ensures Valid()
      ensures labels == old(labels)[item := Merge(if item in old(labels) then old(labels)[item] else map[], given)]
      ensures !item.kind.Service? ==> selectors == old(selectors)
      ensures item.kind.Service? ==>
                OnlyService(old(selectors), selectors, item.name)
                && Applied(old(selectors), selectors, item.name, selector)
    {
      labels := labels[item := Merge(if item in labels then labels[item] else map[], given)];
      if item.kind.Service? {
        var drop := *;
        var now := if item.name in selectors && !drop then Merge(selectors[item.name], selector) else selector;
        selectors := selectors[item.name := now];
      }
    }

    method PatchSelector(service: string, patch: Labels) returns (ok: bool)
      requires Valid() && service in selectors
      modifies this`selectors, this`failures
      ensures Valid() && failures >= old(failures) && (!ok ==> failures > old(failures))
      ensures selectors == if ok then old(selectors)[service := Merge(old(selectors)[service], patch)]
                else old(selectors)
    {
      ok := *;
      if ok {
        selectors := selectors[service := Merge(selectors[service], patch)];
      } else {
        failures := failures + 1;
      }
    }

    method Delete(item: Object) returns (ok: bool)
      requires Valid() && item in labels
      modifies this
      ensures Valid() && failures >= old(failures)
      ensures !ok ==>
                labels == old(labels) && selectors == old(selectors) && deleted == old(deleted)
                && failures > old(failures)
      ensures ok ==>
                labels == old(labels) - {item}
                && deleted == old(deleted) + [Deletion(item, old(labels)[item], old(selectors))]
      ensures ok ==> selectors == if item.kind.Service? then old(selectors) - {item.name} else old(selectors)
    {
      ok := *;
      if ok {
        deleted := deleted + [Deletion(item, labels[item], selectors)];
        labels := labels - {item};
        if item.kind.Service? {
          selectors := selectors - {item.name};
        }
      } else {
        failures := failures + 1;
      }
    }
  }

  // ---------------------------------------------------------------- a rollout

  class RolloutState {
    const strategy: Strategy
    const workload: string
    const candidate: Option<string>
    const revision: string
    const previousSelector: Labels
    var promoted: bool

    constructor (strategy: Strategy, workload: string, candidate: Option<string>, revision: string,
                 previousSelector: Labels)
      ensures this.strategy == strategy && this.workload == workload && this.candidate == candidate
      ensures this.revision == revision && this.previousSelector == previousSelector && !promoted
    {
      this.strategy, this.workload, this.candidate := strategy, workload, candidate;
      this.revision, this.previousSelector, promoted := revision, previousSelector, false;
    }
  }

  class KubernetesRuntime {
    const cluster: Cluster
    const project: string
    const environment: string
    // The Odoo workload the rendered resources are named after.
    const workload: string
    const namespaceName: string
    const nginxCanary: bool

    constructor (cluster: Cluster, project: string, environment: string, workload: string, namespaceName: string,
                 nginxCanary: bool)
      ensures this.cluster == cluster && this.project == project && this.environment == environment
      ensures this.workload == workload && this.namespaceName == namespaceName && this.nginxCanary == nginxCanary
    {
      this.cluster, this.project, this.environment := cluster, project, environment;
      this.workload, this.namespaceName, this.nginxCanary := workload, namespaceName, nginxCanary;
    }

    function Expected(): Labels {
      OwnershipLabels(project, environment, "odoo")
    }

    predicate Owned(labels: map<Object, Labels>, item: Object, absentOk: bool, expected: Labels) {
      if item in labels then Within(expected, labels[item]) else absentOk
    }

    // Whether the object exists; an error unless it carries every expected label.
    method AssertOwnedOrAbsent(item: Object, absentOk: bool, expected: Labels) returns (ok: bool, present: bool)
      modifies cluster`failures
      ensures cluster.failures >= old(cluster.failures)
      ensures !ok ==> cluster.failures > old(cluster.failures) || !Owned(cluster.labels, item, absentOk, expected)
      ensures ok ==> present == (item in cluster.labels)
      ensures ok && present ==> Within(expected, cluster.labels[item])
      ensures ok && !present ==> absentOk
    {
      var labels, failed := cluster.Get(item);
      if failed || (labels.None? && !absentOk) {
        return false, false;
      }
      if labels.None? {
        return true, false;
      }
      return Within(expected, labels.value), true;
    }

    predicate HasSelector(labels: map<Object, Labels>, selectors: map<string, Labels>, service: string) {
      Owned(labels, Object(Service, service), false, Expected()) && service in selectors && selectors[service] != map[]
    }

    method ServiceSelector(service: string) returns (r: Option<Labels>)
      requires cluster.Valid()
      modifies cluster`failures
      ensures cluster.Valid() && cluster.failures >= old(cluster.failures)
      ensures r.None? ==>
                cluster.failures > old(cluster.failures) || !HasSelector(cluster.labels, cluster.selectors, service)
      ensures r.Some? ==> service in cluster.selectors && cluster.selectors[service] == r.value && r.value != map[]
      ensures r.Some? ==> Within(Expected(), cluster.labels[Object(Service, service)])
    {
      var ok, _ := AssertOwnedOrAbsent(Object(Service, service), false, Expected());
      if !ok {
        return None;
      }
      if * {
        cluster.failures := cluster.failures + 1;
        return None;
      }
      if cluster.selectors[service] == map[] {
        return None;
      }
      return Some(cluster.selectors[service]);
    }

    method PatchServiceSelector(service: string, selector: Labels) returns (ok: bool)
      requires cluster.Valid()
      modifies cluster`selectors, cluster`failures
      ensures cluster.Valid() && cluster.failures >= old(cluster.failures)
      ensures !ok ==>
                cluster.failures > old(cluster.failures)
                || !Owned(cluster.labels, Object(Service, service), false, Expected())
      ensures !ok ==> cluster.selectors == old(cluster.selectors)
      ensures ok ==> service in old(cluster.selectors)
      ensures ok ==> Owned(cluster.labels, Object(Service, service), false, Expected())
      ensures ok ==>
                cluster.selectors == old(cluster.selectors)[service := Merge(old(cluster.selectors)[service], selector)]
    {
      var owned, _ := AssertOwnedOrAbsent(Object(Service, service), false, Expected());
      if !owned {
        return false;
      }
      ok := cluster.PatchSelector(service, selector);
    }

    function Candidate(revision: string): Labels {
      CandidateLabels(project, environment, revision)
    }

    // The objects of a candidate, Deployment first.
    function Items(strategy: Strategy, candidate: string): seq<Object> {
      [Object(Deployment, candidate), Object(Service, candidate)]
      + (if strategy.Canary? then [Object(Ingress, candidate)] else [])
    }

    // The canonical resources, in the order they are rendered.
    function Resources(): seq<Object> {
      [Object(Namespace, namespaceName), Object(VolumeClaim, workload + "-filestore"), Object(Deployment, workload),
       Object(Service, workload), Object(Ingress, workload)]
    }

    predicate OfCanonical(o: Object) {
      || o == Object(Namespace, namespaceName)
      || o == Object(VolumeClaim, workload + "-filestore")
      || (o.name == workload && o.kind in {Deployment, Service, Ingress})
    }

    lemma ItemsAre(strategy: Strategy, candidate: string)
      ensures forall o :: o in Items(strategy, candidate) <==> OfCandidate(o, strategy, candidate)
      ensures Object(Service, candidate) in Items(strategy, candidate)
    {
      assert Items(strategy, candidate)[1] == Object(Service, candidate);
    }

    lemma ResourcesAre()
      ensures forall o :: o in Resources() <==> OfCanonical(o)
    {
      var r := Resources();
      assert r[0] in r && r[1] in r && r[2] in r && r[3] in r && r[4] in r;
      assert r[2] == Object(Deployment, workload) && r[3] == Object(Service, workload)
          && r[4] == Object(Ingress, workload);
    }

    // Every object of the candidate is there with the candidate's labels.
    ghost predicate CandidateIn(labels: map<Object, Labels>, strategy: Strategy, candidate: string, revision: string) {
      forall o :: OfCandidate(o, strategy, candidate) ==> o in labels && Within(Candidate(revision), labels[o])
    }

    ghost predicate ChangesCandidate(before: map<Object, Labels>, after: map<Object, Labels>, strategy: Strategy,
                                     candidate: string) {
      forall o :: !OfCandidate(o, strategy, candidate) ==> Unchanged(before, after, o)
    }

    ghost predicate CandidateFree(labels: map<Object, Labels>, strategy: Strategy, candidate: string, revision: string)
    {
      forall o :: OfCandidate(o, strategy, candidate) ==> Owned(labels, o, true, Candidate(revision))
    }

    // Every canonical object is there with the canonical labels.
    ghost predicate CanonicalIn(labels: map<Object, Labels>) {
      forall o :: OfCanonical(o) ==> o in labels && Within(Expected(), labels[o])
    }

    ghost predicate ChangesCanonical(before: map<Object, Labels>, after: map<Object, Labels>) {
      forall o :: !OfCanonical(o) ==> Unchanged(before, after, o)
    }

    ghost predicate CanonicalFree(labels: map<Object, Labels>) {
      forall o :: OfCanonical(o) ==> Owned(labels, o, true, Expected())
    }

    // The labels the candidate Deployment has once it is applied.
    function Pods(labels: map<Object, Labels>, candidate: string, revision: string): Labels {
      Merge(if Object(Deployment, candidate) in labels then labels[Object(Deployment, candidate)] else map[],
          Candidate(revision))
    }

    // With these selectors the candidate may be deleted.
    predicate Excluded(selectors: map<string, Labels>, labels: map<Object, Labels>, state: RolloutState) {
      state.candidate.Some? ==> !Serves(selectors, state.workload, Pods(labels, state.candidate.value, state.revision))
    }

    // The selector found at the beginning excludes the candidate.
    predicate Returnable(labels: map<Object, Labels>, state: RolloutState) {
      state.candidate.Some? ==> !Within(state.previousSelector, Pods(labels, state.candidate.value, state.revision))
    }

    // What every operation keeps: the selector to go back to excludes the candidate, and until the rollout is promoted
    // so does the present one.
    predicate GuardedIn(a: Snapshot, state: RolloutState, promoted: bool) {
      Returnable(a.labels, state) && (!promoted ==> Excluded(a.selectors, a.labels, state))
    }

    ghost predicate Guarded(state: RolloutState)
      reads cluster, state
    {
      GuardedIn(cluster.Now(), state, state.promoted)
    }

    // Of this candidate alone something was deleted, and a Deployment only while the workload's Service did not select
    // it.
    ghost predicate SafeDeletions(before: seq<Deletion>, after: seq<Deletion>, state: RolloutState) {
      && before <= after
      && forall i :: |before| <= i < |after| ==>
           && state.candidate == Some(after[i].item.name)
           && Within(Candidate(state.revision), after[i].labels)
           && (after[i].item.kind.Deployment? ==> !Serves(after[i].selectors, state.workload, after[i].labels))
    }

    // If the candidate's Deployment existed it was the first object deleted, under these selectors.
    ghost predicate DeploymentDeleted(a: Snapshot, b: Snapshot, state: RolloutState) {
      state.candidate.Some? && Object(Deployment, state.candidate.value) in a.labels ==>
        |a.deleted| < |b.deleted| && b.deleted[|a.deleted|] == DeploymentDeletion(a, state)
    }

    function DeploymentDeletion(a: Snapshot, state: RolloutState): Deletion
      requires state.candidate.Some?
    {
      Deletion(Object(Deployment, state.candidate.value), Pods(a.labels, state.candidate.value, state.revision),
          a.selectors)
    }

    // No Deployment but the candidate's was deleted, and it under these selectors.
    ghost predicate OnlyCandidateDeleted(a: Snapshot, b: Snapshot, state: RolloutState) {
      && a.deleted <= b.deleted
      && forall i :: |a.deleted| <= i < |b.deleted| && b.deleted[i].item.kind.Deployment? ==>
           && state.candidate.Some?
           && Object(Deployment, state.candidate.value) in a.labels
           && b.deleted[i] == DeploymentDeletion(a, state)
    }

    // So whether a served Deployment was deleted is decided by the selectors at the start.
    lemma ServedDecides(a: Snapshot, b: Snapshot, state: RolloutState)
      requires state.candidate.Some? && OnlyCandidateDeleted(a, b, state)
      ensures NoneServed(a.deleted, b.deleted, state.workload) <==>
              !DeletesDeployment(a.deleted, b.deleted)
                  || !Serves(a.selectors, state.workload, Pods(a.labels, state.candidate.value, state.revision))
    {
    }

    lemma MergedPods(a: Labels, b: Labels, revision: string)
      requires b == Expected() || b == Candidate(revision)
      ensures Merge(Merge(a, b), Candidate(revision)) == Merge(a, Candidate(revision))
    {
    }

    // Canonical and candidate objects are told apart by one label.
    lemma OwnersDiffer(labels: Labels, revision: string)
      requires Within(Expected(), labels)
      ensures !Within(Candidate(revision), labels)
    {
      assert Expected()[COMPONENT_LABEL] == "odoo" && COMPONENT_LABEL in Candidate(revision);
    }

    method ApplyItem(item: Object, labels: Labels, selector: Labels, ghost revision: string, ghost candidate: string)
      requires cluster.Valid() && (labels == Expected() || labels == Candidate(revision))
      modifies cluster`labels, cluster`selectors
      ensures cluster.Valid() && forall o :: o != item ==> Unchanged(old(cluster.labels), cluster.labels, o)
      ensures Pods(cluster.labels, candidate, revision) == Pods(old(cluster.labels), candidate, revision)
      ensures item in cluster.labels && Within(labels, cluster.labels[item])
      ensures if item.kind.Service?
              then OnlyService(old(cluster.selectors), cluster.selectors, item.name)
                  && Applied(old(cluster.selectors), cluster.selectors, item.name, selector)
              else cluster.selectors == old(cluster.selectors)
    {
      ghost var before := cluster.labels;
      cluster.Apply(item, labels, selector);
      MergedPods(if Object(Deployment, candidate) in before then before[Object(Deployment, candidate)] else map[],
          labels, revision);
    }

    // Of each Service among the objects, only one is applied.
    predicate OneService(items: seq<Object>, name: string) {
      && (forall i :: 0 <= i < |items| && items[i].kind.Service? ==> items[i].name == name)
      && (forall i, j :: 0 <= i < j < |items| ==> items[i] != items[j])
    }

    // What applying the first objects in turn has done to the Services.
    ghost predicate ServiceApplied(before: map<string, Labels>, after: map<string, Labels>, items: seq<Object>,
                                   name: string, selector: Labels)
    {
      && OnlyService(before, after, name)
      && if Object(Service, name) in items then Applied(before, after, name, selector) else after == before
    }

    // All of these objects are there with these labels.
    predicate Labelled(labels: map<Object, Labels>, items: seq<Object>, given: Labels) {
      forall o :: o in items ==> o in labels && Within(given, labels[o])
    }

    ghost predicate OnlyThese(before: map<Object, Labels>, after: map<Object, Labels>, items: seq<Object>) {
      forall o :: o !in items ==> Unchanged(before, after, o)
    }

    lemma ServiceAppliedNext(before: map<string, Labels>, s: map<string, Labels>, t: map<string, Labels>,
                             items: seq<Object>, n: nat, name: string, selector: Labels)
      requires n < |items| && OneService(items, name) && ServiceApplied(before, s, items[..n], name, selector)
      requires if items[n].kind.Service? then OnlyService(s, t, name) && Applied(s, t, name, selector) else t == s
      ensures ServiceApplied(before, t, items[..n + 1], name, selector)
    {
      assert items[..n + 1] == items[..n] + [items[n]];
      if items[n].kind.Service? {
        assert items[n] == Object(Service, name);
        assert items[n] !in items[..n];
      }
    }

    lemma LabelledNext(start: map<Object, Labels>, before: map<Object, Labels>, after: map<Object, Labels>,
                       items: seq<Object>, n: nat, given: Labels)
      requires n < |items| && (forall i, j :: 0 <= i < j < |items| ==> items[i] != items[j])
      requires OnlyThese(start, before, items) && Labelled(before, items[..n], given)
      requires (forall o :: o != items[n] ==> Unchanged(before, after, o)) && items[n] in after
                 && Within(given, after[items[n]])
      ensures OnlyThese(start, after, items) && Labelled(after, items[..n + 1], given)
    {
      assert items[n] in items && items[..n + 1] == items[..n] + [items[n]];
      forall o | o !in items ensures Unchanged(start, after, o) {
        assert Unchanged(start, before, o) && Unchanged(before, after, o);
      }
      forall o | o in items[..n] ensures o in after && Within(given, after[o]) {
        assert Unchanged(before, after, o);
      }
    }

    // Applying the objects of either workload leaves the labels of the candidate's pods to be. It may stop at any
    // object.
    method ApplyAll(items: seq<Object>, name: string, labels: Labels, selector: Labels, ghost revision: string,
                    ghost candidate: string)
      returns (ok: bool)
      requires cluster.Valid() && OneService(items, name) && (labels == Expected() || labels == Candidate(revision))
      modifies cluster`labels, cluster`selectors, cluster`failures
      ensures cluster.Valid() && cluster.failures >= old(cluster.failures)
                && (!ok ==> cluster.failures > old(cluster.failures))
      ensures OnlyThese(old(cluster.labels), cluster.labels, items)
      ensures Pods(cluster.labels, candidate, revision) == Pods(old(cluster.labels), candidate, revision)
      ensures cluster.selectors == old(cluster.selectors)
                || ServiceApplied(old(cluster.selectors), cluster.selectors, items, name, selector)
      ensures ok ==> ServiceApplied(old(cluster.selectors), cluster.selectors, items, name, selector)
      ensures ok ==> Labelled(cluster.labels, items, labels)
    {
      for i := 0 to |items|
        invariant cluster.Valid() && cluster.failures == old(cluster.failures)
        invariant OnlyThese(old(cluster.labels), cluster.labels, items)
        invariant Pods(cluster.labels, candidate, revision) == Pods(old(cluster.labels), candidate, revision)
        invariant ServiceApplied(old(cluster.selectors), cluster.selectors, items[..i], name, selector)
        invariant Labelled(cluster.labels, items[..i], labels)
      {
        if * {
          cluster.failures := cluster.failures + 1;
          assert Object(Service, name) in items[..i] ==> Object(Service, name) in items;
          return false;
        }
        ghost var before, labelled := cluster.selectors, cluster.labels;
        ApplyItem(items[i], labels, selector, revision, candidate);
        LabelledNext(old(cluster.labels), labelled, cluster.labels, items, i, labels);
        ServiceAppliedNext(old(cluster.selectors), before, cluster.selectors, items, i, name, selector);
      }
      assert items[..|items|] == items;
      return true;
    }

    predicate AllOwned(labels: map<Object, Labels>, items: seq<Object>, expected: Labels) {
      forall o :: o in items ==> Owned(labels, o, true, expected)
    }

    method CheckOwned(items: seq<Object>, expected: Labels) returns (ok: bool)
      modifies cluster`failures
      ensures cluster.failures >= old(cluster.failures)
      ensures ok ==> AllOwned(cluster.labels, items, expected)
      ensures !ok ==> cluster.failures > old(cluster.failures) || !AllOwned(cluster.labels, items, expected)
    {
      for i := 0 to |items|
        invariant cluster.failures >= old(cluster.failures)
        invariant AllOwned(cluster.labels, items[..i], expected)
      {
        var owned, _ := AssertOwnedOrAbsent(items[i], true, expected);
        if !owned {
          return false;
        }
      }
      ok := true;
    }

    // Applies the canonical resources, if every one is absent or owned. When it succeeds all of them carry the
    // canonical labels, and the Service the canonical selector, perhaps beside labels it had before.
    method Up(ghost candidate: string, ghost revision: string) returns (ok: bool)
      requires cluster.Valid()
      modifies cluster`labels, cluster`selectors, cluster`failures
      ensures cluster.Valid() && cluster.failures >= old(cluster.failures)
      ensures !ok ==>
                cluster.failures > old(cluster.failures) || !CanonicalFree(old(cluster.labels))
      ensures ChangesCanonical(old(cluster.labels), cluster.labels)
      ensures SparesForeign(old(cluster.labels), cluster.labels, Expected())
      ensures Pods(cluster.labels, candidate, revision) == Pods(old(cluster.labels), candidate, revision)
      ensures OnlyService(old(cluster.selectors), cluster.selectors, workload)
      ensures cluster.selectors == old(cluster.selectors)
              || Applied(old(cluster.selectors), cluster.selectors, workload, CanonicalSelector(project, environment))
      ensures ok ==>
                Applied(old(cluster.selectors), cluster.selectors, workload, CanonicalSelector(project, environment))
      ensures ok ==> CanonicalIn(cluster.labels)
    {
      ResourcesAre();
      ok := CheckOwned(Resources(), Expected());
      if !ok {
        return;
      }
      assert Resources()[3] == Object(Service, workload);
      ok := ApplyAll(Resources(), workload, Expected(), CanonicalSelector(project, environment), revision, candidate);
      SparedByCheck(old(cluster.labels), cluster.labels, Resources(), Expected());
      // The rollout status may fail afterwards.
      if * {
        cluster.failures := cluster.failures + 1;
        ok := false;
      }
    }

    lemma SparedByCheck(before: map<Object, Labels>, after: map<Object, Labels>, items: seq<Object>, mine: Labels)
      requires AllOwned(before, items, mine) && OnlyThese(before, after, items)
      ensures SparesForeign(before, after, mine)
    {
    }

    // What any number of deletions of the candidate's objects does.
    ghost predicate Deletes(a: Snapshot, b: Snapshot, state: RolloutState) {
      && a.deleted <= b.deleted
      && (forall o :: o in b.labels ==> o in a.labels && b.labels[o] == a.labels[o])
      && (forall o :: o in a.labels && o !in b.labels ==>
           && state.candidate.Some? && OfCandidate(o, state.strategy, state.candidate.value)
           && Within(Candidate(state.revision), a.labels[o]))
      && PartOf(b.selectors, a.selectors)
      && (Excluded(a.selectors, a.labels, state) ==>
          Excluded(b.selectors, b.labels, state) && SafeDeletions(a.deleted, b.deleted, state))
      && (Returnable(a.labels, state) ==> Returnable(b.labels, state))
    }

    lemma DeletesTransitive(a: Snapshot, b: Snapshot, c: Snapshot, state: RolloutState)
      requires Deletes(a, b, state) && Deletes(b, c, state)
      ensures Deletes(a, c, state)
    {
    }

    // The Deployment first, then objects of other kinds.
    lemma DeploymentThenRest(a: Snapshot, b: Snapshot, c: Snapshot, state: RolloutState)
      requires OnlyCandidateDeleted(a, b, state) && b.deleted <= c.deleted && !DeletesDeployment(b.deleted, c.deleted)
      ensures OnlyCandidateDeleted(a, c, state)
      ensures DeploymentDeleted(a, b, state) ==> DeploymentDeleted(a, c, state)
    {
      forall i | |a.deleted| <= i < |c.deleted| && c.deleted[i].item.kind.Deployment?
        ensures state.candidate.Some? && Object(Deployment, state.candidate.value) in a.labels
        ensures c.deleted[i] == DeploymentDeletion(a, state)
      {
        assert i < |b.deleted|;
      }
    }

    // Delete one object of the candidate, if it is there and carries the candidate's labels.
    method DeleteOwned(state: RolloutState, item: Object) returns (ok: bool)
      requires cluster.Valid() && state.candidate == Some(item.name) && OfCandidate(item, state.strategy, item.name)
      modifies cluster
      ensures cluster.Valid() && cluster.failures >= old(cluster.failures)
      ensures !ok ==>
                cluster.failures > old(cluster.failures)
                || !Owned(old(cluster.labels), item, true, Candidate(state.revision))
      ensures ok ==> item !in cluster.labels
      ensures Deletes(old(cluster.Now()), cluster.Now(), state)
      ensures item.kind.Deployment? ==> OnlyCandidateDeleted(old(cluster.Now()), cluster.Now(), state)
      ensures !item.kind.Deployment? ==> !DeletesDeployment(old(cluster.deleted), cluster.deleted)
      ensures ok && item.kind.Deployment? ==> DeploymentDeleted(old(cluster.Now()), cluster.Now(), state)
    {
      var owned, present := AssertOwnedOrAbsent(item, true, Candidate(state.revision));
      if !owned {
        return false;
      }
      if !present {
        return true;
      }
      ghost var a := cluster.Now();
      ok := cluster.Delete(item);
      if ok {
        OneDeleted(a, cluster.Now(), item, state);
      }
    }

    lemma OneDeleted(a: Snapshot, b: Snapshot, item: Object, state: RolloutState)
      requires state.candidate == Some(item.name) && item in a.labels && OfCandidate(item, state.strategy, item.name)
                 && Within(Candidate(state.revision), a.labels[item])
      requires b.labels == a.labels - {item} && b.deleted == a.deleted + [Deletion(item, a.labels[item], a.selectors)]
      requires b.selectors == if item.kind.Service? then a.selectors - {item.name} else a.selectors
      ensures Deletes(a, b, state)
      ensures if item.kind.Deployment? then OnlyCandidateDeleted(a, b, state) && DeploymentDeleted(a, b, state)
              else !DeletesDeployment(a.deleted, b.deleted)
    {
      DeletedPods(a.labels, item, item.name, state.revision);
    }

    // There is no Deployment of the candidate.
    predicate Gone(a: Snapshot, state: RolloutState) {
      state.candidate.Some? ==> Object(Deployment, state.candidate.value) !in a.labels
    }

    ghost predicate CandidateGone(labels: map<Object, Labels>, state: RolloutState)
      requires state.candidate.Some?
    {
      forall o :: OfCandidate(o, state.strategy, state.candidate.value) ==> o !in labels
    }

    ghost predicate CandidateOwned(labels: map<Object, Labels>, state: RolloutState) {
      state.candidate.Some? ==> CandidateFree(labels, state.strategy, state.candidate.value, state.revision)
    }

    // Deployment first, then the candidate's Service and Ingress. It stops at the first failure.
    method DeleteCandidate(state: RolloutState) returns (ok: bool)
      requires cluster.Valid()
      modifies cluster
      ensures cluster.Valid() && cluster.failures >= old(cluster.failures)
      ensures !ok ==> cluster.failures > old(cluster.failures) || !CandidateOwned(old(cluster.labels), state)
      ensures state.candidate.None? ==>
                ok && cluster.deleted == old(cluster.deleted) && cluster.selectors == old(cluster.selectors)
                && cluster.labels == old(cluster.labels)
      ensures ok && state.candidate.Some? ==> CandidateGone(cluster.labels, state)
      ensures state.candidate.Some? ==>
                ChangesCandidate(old(cluster.labels), cluster.labels, state.strategy, state.candidate.value)
      ensures Deletes(old(cluster.Now()), cluster.Now(), state)
      ensures ok ==> DeploymentDeleted(old(cluster.Now()), cluster.Now(), state)
      ensures OnlyCandidateDeleted(old(cluster.Now()), cluster.Now(), state)
    {
      if state.candidate.None? {
        return true;
      }
      var items := Items(state.strategy, state.candidate.value);
      DeploymentFirst(state.strategy, state.candidate.value);
      ItemsAre(state.strategy, state.candidate.value);
      ok := DeleteOwned(state, items[0]);
      if ok {
        ghost var b := cluster.Now();
        DeletesKeepOwned(old(cluster.Now()), b, state, items);
        ok := DeleteRest(state, items, 1);
        DeletesTransitive(old(cluster.Now()), b, cluster.Now(), state);
        DeploymentThenRest(old(cluster.Now()), b, cluster.Now(), state);
      }
    }

    lemma DeploymentFirst(strategy: Strategy, candidate: string)
      ensures var items := Items(strategy, candidate);
              && items[0] == Object(Deployment, candidate) && items[0] in items && items[..1] == [items[0]]
              && (forall o :: o in items ==> o.name == candidate)
              && (forall i :: 1 <= i < |items| ==> !items[i].kind.Deployment?)
    {
    }

    lemma DeletesKeepOwned(a: Snapshot, b: Snapshot, state: RolloutState, items: seq<Object>)
      requires Deletes(a, b, state)
      ensures AllOwned(a.labels, items, Candidate(state.revision)) ==>
                AllOwned(b.labels, items, Candidate(state.revision))
    {
    }

    // Delete the objects from this one on; those before it are gone.
    method DeleteRest(state: RolloutState, items: seq<Object>, from: nat) returns (ok: bool)
      requires cluster.Valid() && from <= |items|
      requires forall o :: o in items ==> state.candidate == Some(o.name) && OfCandidate(o, state.strategy, o.name)
      requires forall o :: o in items[..from] ==> o !in cluster.labels
      requires forall i :: from <= i < |items| ==> !items[i].kind.Deployment?
      modifies cluster
      ensures cluster.Valid() && cluster.failures >= old(cluster.failures)
      ensures !ok ==>
                cluster.failures > old(cluster.failures)
                || !AllOwned(old(cluster.labels), items, Candidate(state.revision))
      ensures ok ==> forall o :: o in items ==> o !in cluster.labels
      ensures Deletes(old(cluster.Now()), cluster.Now(), state)
      ensures !DeletesDeployment(old(cluster.deleted), cluster.deleted)
    {
      ghost var a := cluster.Now();
      var n := from;
      while n < |items|
        invariant from <= n <= |items|
        invariant cluster.Valid() && cluster.failures >= old(cluster.failures)
        invariant forall o :: o in items[..n] ==> o !in cluster.labels
        invariant Deletes(a, cluster.Now(), state) && !DeletesDeployment(a.deleted, cluster.deleted)
      {
        ok := DeleteRound(state, items, n, a);
        if !ok {
          return;
        }
        n := n + 1;
      }
      assert items[..n] == items;
      ok := true;
    }

    // One round, added to what the rounds since a did.
    method DeleteRound(state: RolloutState, items: seq<Object>, n: nat, ghost a: Snapshot) returns (ok: bool)
      requires cluster.Valid() && n < |items| && state.candidate == Some(items[n].name)
      requires OfCandidate(items[n], state.strategy, items[n].name)
      requires forall o :: o in items[..n] ==> o !in cluster.labels
      requires !items[n].kind.Deployment?
      requires Deletes(a, cluster.Now(), state) && !DeletesDeployment(a.deleted, cluster.deleted)
      modifies cluster
      ensures cluster.Valid() && cluster.failures >= old(cluster.failures)
      ensures ok ==> forall o :: o in items[..n + 1] ==> o !in cluster.labels
      ensures !ok ==> cluster.failures > old(cluster.failures) || !AllOwned(a.labels, items, Candidate(state.revision))
      ensures Deletes(a, cluster.Now(), state) && !DeletesDeployment(a.deleted, cluster.deleted)
    {
      assert items[n] in items && items[..n + 1] == items[..n] + [items[n]];
      ghost var b := cluster.Now();
      ok := DeleteOwned(state, items[n]);
      DeletesTransitive(a, b, cluster.Now(), state);
    }

    // What begin_rollout asks of the cluster.
    ghost predicate MayBegin(labels: map<Object, Labels>, selectors: map<string, Labels>, strategy: Strategy,
                             service: string, candidate: string, revision: string)
    {
      match strategy
      case Recreate => CanonicalFree(labels)
      case Rolling => CanonicalFree(labels)
      case _ =>
        && (strategy.Canary? ==> nginxCanary)
        && HasSelector(labels, selectors, service)
        && CandidateFree(labels, strategy, candidate, revision)
    }

    method Begin(strategy: Strategy, service: string, candidate: string, revision: string)
      returns (ok: bool, state: RolloutState?)
      requires cluster.Valid()
      modifies cluster
      ensures cluster.Valid() && cluster.deleted == old(cluster.deleted) && cluster.failures >= old(cluster.failures)
      ensures !ok ==>
                cluster.failures > old(cluster.failures)
                || !MayBegin(old(cluster.labels), old(cluster.selectors), strategy, service, candidate, revision)
      ensures ok ==> state != null
      ensures state != null ==>
                fresh(state) && state.workload == service && !state.promoted && state.revision == revision
      ensures state != null ==> state.candidate == if strategy in {BlueGreen, Canary} then Some(candidate) else None
      ensures state != null && strategy in {BlueGreen, Canary} ==>
                service in old(cluster.selectors) && state.previousSelector == old(cluster.selectors)[service]
      ensures ok && strategy in {BlueGreen, Canary} ==>
                CandidateApplied(old(cluster.Now()), cluster.Now(), strategy, service, candidate, revision)
      ensures ok && strategy.Canary? ==> nginxCanary
      ensures strategy in {BlueGreen, Canary} ==>
                && ChangesCandidate(old(cluster.labels), cluster.labels, strategy, candidate)
                && SparesForeign(old(cluster.labels), cluster.labels, Candidate(revision))
      ensures strategy !in {BlueGreen, Canary} ==>
                && ChangesCanonical(old(cluster.labels), cluster.labels)
                && SparesForeign(old(cluster.labels), cluster.labels, Expected())
      ensures ok && strategy !in {BlueGreen, Canary} ==>
                CanonicalIn(cluster.labels) && CanonicalServed(old(cluster.Now()), cluster.Now())
      ensures state != null ==> state.strategy == strategy
      ensures state != null
                && !Serves(old(cluster.selectors), service, Pods(old(cluster.labels), candidate, revision)) ==>
                Guarded(state)
    {
      ok, state := false, null;
      if strategy.Canary? && !nginxCanary {
        return;
      }
      if strategy in {Recreate, Rolling} {
        ok := Up(candidate, revision);
        state := new RolloutState(strategy, service, None, revision, map[]);
        return;
      }
      ok, state := BeginProgressive(strategy, service, candidate, revision);
    }

    // A rollout beside the canonical workload.
    method BeginProgressive(strategy: Strategy, service: string, candidate: string, revision: string)
      returns (ok: bool, state: RolloutState?)
      requires cluster.Valid()
      modifies cluster
      ensures cluster.Valid() && cluster.deleted == old(cluster.deleted) && cluster.failures >= old(cluster.failures)
      ensures !ok ==>
                || cluster.failures > old(cluster.failures)
                || !HasSelector(old(cluster.labels), old(cluster.selectors), service)
                || !CandidateFree(old(cluster.labels), strategy, candidate, revision)
      ensures ok ==>
                state != null
                && CandidateApplied(old(cluster.Now()), cluster.Now(), strategy, service, candidate, revision)
      ensures ChangesCandidate(old(cluster.labels), cluster.labels, strategy, candidate)
      ensures SparesForeign(old(cluster.labels), cluster.labels, Candidate(revision))
      ensures state != null ==>
                && fresh(state) && state.strategy == strategy && state.workload == service && !state.promoted
                && state.revision == revision && state.candidate == Some(candidate)
                && service in old(cluster.selectors) && state.previousSelector == old(cluster.selectors)[service]
      ensures state != null
                && !Serves(old(cluster.selectors), service, Pods(old(cluster.labels), candidate, revision)) ==>
                Guarded(state)
    {
      ok, state := false, null;
      var previous := ServiceSelector(service);
      if previous.None? {
        return;
      }
      state := new RolloutState(strategy, service, Some(candidate), revision, previous.value);
      ok := ApplyRollout(strategy, service, candidate, revision);
      // The candidate's rollout status may fail afterwards.
      if * {
        cluster.failures := cluster.failures + 1;
        ok := false;
      }
    }

    // The candidate's objects carry its labels and its Service its selector; the workload's Service is as it was, and
    // the candidate's pods carry what was to be expected.
    ghost predicate CandidateApplied(a: Snapshot, b: Snapshot, strategy: Strategy, service: string, candidate: string,
                                     revision: string)
    {
      && CandidateIn(b.labels, strategy, candidate, revision)
      && Applied(a.selectors, b.selectors, candidate, CandidateSelector(project, environment, revision))
      && OnlyService(a.selectors, b.selectors, candidate)
      && service in a.selectors && service in b.selectors && b.selectors[service] == a.selectors[service]
      && Object(Deployment, candidate) in b.labels
      && Pods(b.labels, candidate, revision) == Pods(a.labels, candidate, revision)
    }

    // The canonical selector is applied to the configured workload's Service, and no other Service changes.
    ghost predicate CanonicalServed(a: Snapshot, b: Snapshot) {
      && Applied(a.selectors, b.selectors, workload, CanonicalSelector(project, environment))
      && OnlyService(a.selectors, b.selectors, workload)
    }

    // The candidate's objects are applied only if each is absent or already this candidate's.
    method ApplyRollout(strategy: Strategy, ghost service: string, candidate: string, revision: string)
      returns (ok: bool)
      requires cluster.Valid()
      requires Object(Service, service) in cluster.labels
                 && Within(Expected(), cluster.labels[Object(Service, service)])
      modifies cluster`labels, cluster`selectors, cluster`failures
      ensures cluster.Valid() && cluster.failures >= old(cluster.failures)
      ensures !ok ==>
                cluster.failures > old(cluster.failures)
                || !CandidateFree(old(cluster.labels), strategy, candidate, revision)
      ensures Pods(cluster.labels, candidate, revision) == Pods(old(cluster.labels), candidate, revision)
      ensures service in old(cluster.selectors) && service in cluster.selectors
                && cluster.selectors[service] == old(cluster.selectors)[service]
      ensures ok ==> CandidateApplied(old(cluster.Now()), cluster.Now(), strategy, service, candidate, revision)
      ensures ChangesCandidate(old(cluster.labels), cluster.labels, strategy, candidate)
      ensures SparesForeign(old(cluster.labels), cluster.labels, Candidate(revision))
    {
      var items := Items(strategy, candidate);
      ItemsAre(strategy, candidate);
      ok := CheckOwned(items, Candidate(revision));
      if !ok {
        return;
      }
      OwnersDiffer(cluster.labels[Object(Service, service)], revision);
      assert items[0] == Object(Deployment, candidate) && items[1] == Object(Service, candidate);
      ok := ApplyAll(items, candidate, Candidate(revision), CandidateSelector(project, environment, revision), revision,
          candidate);
      SparedByCheck(old(cluster.labels), cluster.labels, items, Candidate(revision));
    }

    // The selector becomes the merge of both, or stays.
    method Promote(state: RolloutState) returns (ok: bool)
      requires cluster.Valid()
      modifies cluster`selectors, cluster`failures, state
      ensures cluster.Valid() && cluster.failures >= old(cluster.failures)
      ensures !ok ==>
                cluster.failures > old(cluster.failures)
                || !Owned(cluster.labels, Object(Service, state.workload), false, Expected())
      ensures !ok ==> cluster.selectors == old(cluster.selectors) && state.promoted == old(state.promoted)
      ensures ok ==> state.promoted
      ensures ok && state.candidate.Some? ==>
                Patched(old(cluster.selectors), cluster.selectors, state.workload,
                CandidateSelector(project, environment, state.revision))
      ensures old(Guarded(state)) ==> Guarded(state)
    {
      if state.candidate.Some? {
        ok := PatchServiceSelector(state.workload, CandidateSelector(project, environment, state.revision));
        if !ok {
          return;
        }
      }
      state.promoted := true;
      ok := true;
    }

    // The canonical workload is applied, and the candidate deleted once that succeeded. For a rollout of any other
    // workload its Service stays as it was; so a Deployment being served is deleted exactly when one is deleted that
    // the Service of another workload selects at the call.
    method Finalize(state: RolloutState) returns (ok: bool)
      requires cluster.Valid()
      modifies cluster
      ensures cluster.Valid() && old(cluster.deleted) <= cluster.deleted && cluster.failures >= old(cluster.failures)
      ensures ok && state.candidate.Some? ==> CandidateGone(cluster.labels, state) && CanonicalIn(cluster.labels)
      ensures state.candidate.Some? ==>
                forall o :: !OfCanonical(o) && !OfCandidate(o, state.strategy, state.candidate.value) ==>
                  Unchanged(old(cluster.labels), cluster.labels, o)
      ensures !ok ==> cluster.failures > old(cluster.failures) || state.candidate == Some(workload)
                      || !CandidateOwned(old(cluster.labels), state)
                      || !CanonicalFree(old(cluster.labels))
      ensures old(Guarded(state)) ==> Guarded(state)
      ensures state.candidate.Some? ==>
                (NoneServed(old(cluster.deleted), cluster.deleted, state.workload) <==>
                   state.workload == workload
                   || !Serves(old(cluster.selectors), state.workload,
                       Pods(old(cluster.labels), state.candidate.value, state.revision))
                   || !DeletesDeployment(old(cluster.deleted), cluster.deleted))
      ensures ok && state.candidate.Some? && workload != state.candidate.value
                && Object(Deployment, state.candidate.value) in old(cluster.labels) ==>
                DeletesDeployment(old(cluster.deleted), cluster.deleted)
      ensures state.candidate.Some? && workload != state.candidate.value && Gone(old(cluster.Now()), state) ==>
                Gone(cluster.Now(), state) && !DeletesDeployment(old(cluster.deleted), cluster.deleted)
      ensures ok && state.candidate.Some? ==>
                Applied(old(cluster.selectors), cluster.selectors, workload, CanonicalSelector(project, environment))
      ensures state.candidate.None? ==>
                ok && cluster.deleted == old(cluster.deleted) && cluster.labels == old(cluster.labels)
                && cluster.selectors == old(cluster.selectors)
    {
      if state.candidate.None? {
        return true;
      }
      ok := Up(state.candidate.value, state.revision);
      ghost var b := cluster.Now();
      CanonicalKeepsGuard(old(cluster.Now()), b, state);
      OwnershipKept(old(cluster.labels), cluster.labels, state);
      if ok {
        ok := DeleteFinalized(state);
        DeletesKeepGuard(b, cluster.Now(), state);
        FinalizedServed(old(cluster.Now()), b, cluster.Now(), state);
      }
    }

    // What applying the canonical resources does to the Services.
    ghost predicate CanonicalApplied(a: Snapshot, b: Snapshot) {
      && OnlyService(a.selectors, b.selectors, workload)
      && (b.selectors == a.selectors
          || Applied(a.selectors, b.selectors, workload, CanonicalSelector(project, environment)))
    }

    lemma CanonicalKeepsGuard(a: Snapshot, b: Snapshot, state: RolloutState)
      requires state.candidate.Some? && CanonicalApplied(a, b)
      requires Pods(b.labels, state.candidate.value, state.revision) ==
                 Pods(a.labels, state.candidate.value, state.revision)
      ensures forall promoted :: GuardedIn(a, state, promoted) ==> GuardedIn(b, state, promoted)
    {
      if b.selectors != a.selectors {
        CanonicalExcludes(a.selectors, b.selectors, b.labels, state.candidate.value, state.revision);
      }
    }

    lemma DeletesKeepGuard(a: Snapshot, b: Snapshot, state: RolloutState)
      requires Deletes(a, b, state)
      ensures forall promoted :: GuardedIn(a, state, promoted) ==> GuardedIn(b, state, promoted)
    {
    }

    lemma FinalizedServed(a: Snapshot, b: Snapshot, c: Snapshot, state: RolloutState)
      requires state.candidate.Some? && OnlyService(a.selectors, b.selectors, workload) && a.deleted == b.deleted
      requires Applied(a.selectors, b.selectors, workload, CanonicalSelector(project, environment))
      requires Pods(b.labels, state.candidate.value, state.revision) ==
                 Pods(a.labels, state.candidate.value, state.revision)
      requires OnlyCandidateDeleted(b, c, state)
      ensures NoneServed(a.deleted, c.deleted, state.workload) <==>
                || state.workload == workload
                || !Serves(a.selectors, state.workload, Pods(a.labels, state.candidate.value, state.revision))
                || !DeletesDeployment(a.deleted, c.deleted)
    {
      ServedDecides(b, c, state);
      CanonicalExcludes(a.selectors, b.selectors, b.labels, state.candidate.value, state.revision);
    }

    lemma OwnershipKept(before: map<Object, Labels>, after: map<Object, Labels>, state: RolloutState)
      requires ChangesCanonical(before, after) && state.candidate.Some?
      ensures state.candidate.value != workload && CandidateOwned(before, state) ==> CandidateOwned(after, state)
      ensures state.candidate.value != workload ==> Unchanged(before, after, Object(Deployment, state.candidate.value))
    {
      if state.candidate.value != workload {
        forall o | OfCandidate(o, state.strategy, state.candidate.value) ensures Unchanged(before, after, o) {
          assert !OfCanonical(o);
        }
      }
    }

    // The last part of finalize, with the canonical resources in place.
    method DeleteFinalized(state: RolloutState) returns (ok: bool)
      requires cluster.Valid() && state.candidate.Some?
      requires CanonicalIn(cluster.labels) && workload in cluster.selectors
      modifies cluster
      ensures cluster.Valid() && cluster.failures >= old(cluster.failures)
      ensures !ok ==> cluster.failures > old(cluster.failures) || !CandidateOwned(old(cluster.labels), state)
      ensures ok ==> CandidateGone(cluster.labels, state)
      ensures CanonicalIn(cluster.labels)
      ensures ChangesCandidate(old(cluster.labels), cluster.labels, state.strategy, state.candidate.value)
      ensures Deletes(old(cluster.Now()), cluster.Now(), state)
      ensures OnlyCandidateDeleted(old(cluster.Now()), cluster.Now(), state)
      ensures ok && Object(Deployment, state.candidate.value) in old(cluster.labels) ==>
                DeletesDeployment(old(cluster.deleted), cluster.deleted)
      ensures workload in cluster.selectors && cluster.selectors[workload] == old(cluster.selectors)[workload]
    {
      var service := Object(Service, workload);
      assert OfCanonical(service);
      OwnersDiffer(cluster.labels[service], state.revision);
      ghost var a := cluster.Now();
      ok := DeleteCandidate(state);
      CanonicalStays(a, cluster.Now(), state);
      assert service in cluster.labels;
    }

    lemma CanonicalStays(a: Snapshot, b: Snapshot, state: RolloutState)
      requires Deletes(a, b, state) && CanonicalIn(a.labels)
      ensures CanonicalIn(b.labels)
    {
      forall o | OfCanonical(o) ensures o in b.labels {
        OwnersDiffer(a.labels[o], state.revision);
      }
    }

    lemma CanonicalExcludes(before: map<string, Labels>, selectors: map<string, Labels>, labels: map<Object, Labels>,
                            candidate: string, revision: string)
      requires Applied(before, selectors, workload, CanonicalSelector(project, environment))
      ensures !Serves(selectors, workload, Pods(labels, candidate, revision))
    {
      CanonicalExcludesCandidate(project, environment, revision, Pods(labels, candidate, revision));
      if workload in before {
        PatchExcludes(before[workload], CanonicalSelector(project, environment), Pods(labels, candidate, revision));
      }
    }

    // After a promotion the Service goes back to the selector found at the beginning before the candidate is deleted.
    method Rollback(state: RolloutState) returns (ok: bool)
      requires cluster.Valid()
      modifies cluster
      ensures cluster.Valid() && cluster.failures >= old(cluster.failures)
      ensures ok && state.candidate.Some? ==> CandidateGone(cluster.labels, state)
      ensures if state.candidate.None? then cluster.labels == old(cluster.labels)
              else ChangesCandidate(old(cluster.labels), cluster.labels, state.strategy, state.candidate.value)
      ensures !ok ==> cluster.failures > old(cluster.failures) || !CandidateOwned(old(cluster.labels), state)
                      || ((state.promoted || state.candidate.None?)
                          && !Owned(old(cluster.labels), Restored(state), false, Expected()))
      ensures ok && (state.promoted || state.candidate.None?) ==>
                Owned(old(cluster.labels), Restored(state), false, Expected())
      ensures ok && state.candidate.Some? ==>
                PartOf(cluster.selectors, PatchedBack(old(cluster.selectors), state, state.promoted))
      ensures old(cluster.deleted) <= cluster.deleted
                && (state.candidate.None? ==> cluster.deleted == old(cluster.deleted))
      ensures old(Guarded(state)) ==> Guarded(state) && SafeDeletions(old(cluster.deleted), cluster.deleted, state)
      ensures ok && state.candidate.Some? && !state.promoted ==>
                DeploymentDeleted(old(cluster.Now()), cluster.Now(), state)
      ensures ok && state.candidate.Some? && Object(Deployment, state.candidate.value) in old(cluster.labels) ==>
                DeletesDeployment(old(cluster.deleted), cluster.deleted)
      ensures state.candidate.Some? ==>
                (NoneServed(old(cluster.deleted), cluster.deleted, state.workload) <==>
                   || !DeletesDeployment(old(cluster.deleted), cluster.deleted)
                   || !Serves(PatchedBack(old(cluster.selectors), state, state.promoted), state.workload,
                              Pods(old(cluster.labels), state.candidate.value, state.revision)))
      ensures Gone(old(cluster.Now()), state) ==>
                Gone(cluster.Now(), state) && !DeletesDeployment(old(cluster.deleted), cluster.deleted)
    {
      if state.candidate.None? {
        ok := UndoCanonical(state.workload);
        return;
      }
      ghost var a := cluster.Now();
      ok := PutBack(state);
      if !ok {
        return;
      }
      ghost var b := cluster.Now();
      PutBackKeepsGuard(a, b, state, state.promoted);
      ok := DeleteCandidate(state);
      DeletesKeepGuard(b, cluster.Now(), state);
      ServedDecides(b, cluster.Now(), state);
    }

    // The selector found at the beginning is merged into a promoted Service.
    method PutBack(state: RolloutState) returns (ok: bool)
      requires cluster.Valid()
      modifies cluster`selectors, cluster`failures
      ensures cluster.Valid() && cluster.failures >= old(cluster.failures)
      ensures cluster.selectors ==
              if ok then PatchedBack(old(cluster.selectors), state, state.promoted) else old(cluster.selectors)
      ensures ok && state.promoted ==>
                Owned(cluster.labels, Object(Service, state.workload), false, Expected())
                && state.workload in old(cluster.selectors)
      ensures !ok ==>
                cluster.failures > old(cluster.failures)
                || (state.promoted && !Owned(cluster.labels, Object(Service, state.workload), false, Expected()))
    {
      ok := true;
      if state.promoted {
        ok := PatchServiceSelector(state.workload, state.previousSelector);
      }
    }

    // Undo or restart of the canonical Deployment, which changes neither labels nor selectors.
    method UndoCanonical(deployment: string) returns (ok: bool)
      modifies cluster`failures
      ensures cluster.failures >= old(cluster.failures)
      ensures ok ==> Owned(cluster.labels, Object(Deployment, deployment), false, Expected())
      ensures !ok ==> cluster.failures > old(cluster.failures)
                      || !Owned(cluster.labels, Object(Deployment, deployment), false, Expected())
    {
      var owned, _ := AssertOwnedOrAbsent(Object(Deployment, deployment), false, Expected());
      if !owned {
        return false;
      }
      ok := *;
      cluster.failures := if ok then cluster.failures else cluster.failures + 1;
    }

    // What a rollback puts back: the Service, or the Deployment when there was no candidate.
    function Restored(state: RolloutState): Object {
      Object(if state.candidate.Some? then Service else Deployment, state.workload)
    }

    // The selectors under which a rollback deletes the candidate.
    function PatchedBack(selectors: map<string, Labels>, state: RolloutState, promoted: bool): map<string, Labels> {
      if promoted && state.workload in selectors
      then selectors[state.workload := Merge(selectors[state.workload], state.previousSelector)]
      else selectors
    }

    lemma PutBackKeepsGuard(a: Snapshot, b: Snapshot, state: RolloutState, promoted: bool)
      requires b.selectors == PatchedBack(a.selectors, state, promoted) && b.labels == a.labels
      requires promoted ==> state.workload in a.selectors
      ensures GuardedIn(a, state, promoted) ==>
                Returnable(b.labels, state) && Excluded(b.selectors, b.labels, state)
    {
      if promoted && state.candidate.Some? && Returnable(a.labels, state) {
        PatchExcludes(a.selectors[state.workload], state.previousSelector,
            Pods(a.labels, state.candidate.value, state.revision));
      }
    }

    // ---------------------------------------------------------------- whole runs

    // What a promoted selector keeps of the one before, the candidate's pods carry.
    predicate LeftoverFits(previous: Labels, revision: string, pods: Labels) {
      forall k :: k in previous && k !in CandidateSelector(project, environment, revision) ==>
          k in pods && pods[k] == previous[k]
    }

    // The candidate is there, owned, and nothing has been deleted since a; the selector tells whether it was promoted.
    ghost predicate Standing(a: Snapshot, b: Snapshot, state: RolloutState, promoted: bool) {
      && state.candidate.Some?
      && b.deleted == a.deleted
      && Object(Deployment, state.candidate.value) in b.labels
      && CandidateOwned(b.labels, state)
      && CanonicalFree(b.labels)
      && Owned(b.labels, Object(Service, state.workload), false, Expected())
      && Pods(b.labels, state.candidate.value, state.revision) == Pods(a.labels, state.candidate.value, state.revision)
      && state.workload in b.selectors
      && b.selectors[state.workload] == SelectorOf(state, promoted)
    }

    function SelectorOf(state: RolloutState, promoted: bool): Labels {
      if promoted then Merge(state.previousSelector, CandidateSelector(project, environment, state.revision))
      else state.previousSelector
    }

    lemma PromotedStands(a: Snapshot, b: Snapshot, c: Snapshot, state: RolloutState, promoted: bool)
      requires Standing(a, b, state, promoted) && c.labels == b.labels && c.deleted == b.deleted
      requires Patched(b.selectors, c.selectors, state.workload,
                 CandidateSelector(project, environment, state.revision))
      ensures Standing(a, c, state, true)
    {
    }

    // A standing promoted candidate is served exactly if the labels left over fit.
    lemma StandingServes(a: Snapshot, b: Snapshot, state: RolloutState)
      requires Standing(a, b, state, true)
      ensures var pods := Pods(a.labels, state.candidate.value, state.revision);
              Serves(b.selectors, state.workload, pods) <==> LeftoverFits(state.previousSelector, state.revision, pods)
    {
      var pods, patch := Pods(a.labels, state.candidate.value, state.revision),
          CandidateSelector(project, environment, state.revision);
      PromotionServesCandidateIff(state.previousSelector, project, environment, state.revision, pods);
      assert COMPONENT_LABEL in patch && COMPONENT_LABEL in b.selectors[state.workload];
    }

    // What one operation after begin has done, if no call failed, to a candidate standing since a.
    ghost predicate Verdict(a: Snapshot, b: Snapshot, c: Snapshot, state: RolloutState, op: Op, promoted: bool) {
      state.candidate.Some? &&
      if op.PromoteOp? then Standing(a, c, state, true)
      else
        && Gone(c, state)
        && (NoneServed(b.deleted, c.deleted, state.workload) <==>
              || op.RollbackOp? || !promoted || state.workload == workload
              || !LeftoverFits(state.previousSelector, state.revision,
                  Pods(a.labels, state.candidate.value, state.revision)))
    }

    // Any one operation after begin.
    method Operate(state: RolloutState, op: Op, ghost a: Snapshot) returns (ok: bool)
      requires cluster.Valid()
      modifies cluster, state
      ensures cluster.Valid() && old(cluster.deleted) <= cluster.deleted && cluster.failures >= old(cluster.failures)
      ensures old(Guarded(state)) ==> Guarded(state)
      ensures state.promoted ==> old(state.promoted) || op.PromoteOp?
      ensures old(Guarded(state)) && (state.workload == workload || !op.FinalizeOp? || !state.promoted) ==>
                NoneServed(old(cluster.deleted), cluster.deleted, state.workload)
      ensures state.candidate != Some(workload) && Gone(old(cluster.Now()), state) ==>
                Gone(cluster.Now(), state) && !DeletesDeployment(old(cluster.deleted), cluster.deleted)
      ensures old(Guarded(state)) && cluster.failures == old(cluster.failures) && state.candidate != Some(workload)
              && Standing(a, old(cluster.Now()), state, old(state.promoted)) ==>
                Verdict(a, old(cluster.Now()), cluster.Now(), state, op, old(state.promoted))
      ensures !op.PromoteOp? ==> state.promoted == old(state.promoted)
      ensures old(Standing(a, cluster.Now(), state, state.promoted)) && cluster.failures == old(cluster.failures)
                && op.PromoteOp? ==>
                state.promoted
    {
      match op
      case PromoteOp => ok := PromoteOnce(state, a);
      case FinalizeOp => ok := FinalizeOnce(state, a);
      case RollbackOp => ok := RollbackOnce(state, a);
    }

    method PromoteOnce(state: RolloutState, ghost a: Snapshot) returns (ok: bool)
      requires cluster.Valid()
      modifies cluster`selectors, cluster`failures, state
      ensures cluster.Valid() && cluster.failures >= old(cluster.failures)
      ensures old(Guarded(state)) ==> Guarded(state)
      ensures ok ==> state.promoted
      ensures cluster.failures == old(cluster.failures) && old(Standing(a, cluster.Now(), state, state.promoted)) ==>
                ok && Standing(a, cluster.Now(), state, true)
    {
      ghost var b, promoted := cluster.Now(), state.promoted;
      ok := Promote(state);
      if ok && Standing(a, b, state, promoted) {
        PromotedStands(a, b, cluster.Now(), state, promoted);
      }
    }

    method FinalizeOnce(state: RolloutState, ghost a: Snapshot) returns (ok: bool)
      requires cluster.Valid()
      modifies cluster
      ensures cluster.Valid() && old(cluster.deleted) <= cluster.deleted && cluster.failures >= old(cluster.failures)
      ensures old(Guarded(state)) ==> Guarded(state)
      ensures old(Guarded(state)) && (state.workload == workload || !state.promoted) ==>
                NoneServed(old(cluster.deleted), cluster.deleted, state.workload)
      ensures state.candidate != Some(workload) && Gone(old(cluster.Now()), state) ==>
                Gone(cluster.Now(), state) && !DeletesDeployment(old(cluster.deleted), cluster.deleted)
      ensures old(Guarded(state)) && cluster.failures == old(cluster.failures) && state.candidate != Some(workload)
              && Standing(a, old(cluster.Now()), state, state.promoted) ==>
                Verdict(a, old(cluster.Now()), cluster.Now(), state, FinalizeOp, state.promoted)
    {
      ghost var b := cluster.Now();
      ok := Finalize(state);
      if Standing(a, b, state, true) {
        StandingServes(a, b, state);
      }
      if state.candidate.Some? {
        DeploymentFirst(state.strategy, state.candidate.value);
      }
    }

    method RollbackOnce(state: RolloutState, ghost a: Snapshot) returns (ok: bool)
      requires cluster.Valid()
      modifies cluster
      ensures cluster.Valid() && old(cluster.deleted) <= cluster.deleted && cluster.failures >= old(cluster.failures)
      ensures old(Guarded(state)) ==>
                Guarded(state) && NoneServed(old(cluster.deleted), cluster.deleted, state.workload)
      ensures Gone(old(cluster.Now()), state) ==>
                Gone(cluster.Now(), state) && !DeletesDeployment(old(cluster.deleted), cluster.deleted)
      ensures old(Guarded(state)) && cluster.failures == old(cluster.failures)
              && Standing(a, old(cluster.Now()), state, state.promoted) ==>
                Verdict(a, old(cluster.Now()), cluster.Now(), state, RollbackOp, state.promoted)
    {
      ok := Rollback(state);
      if state.candidate.Some? {
        DeploymentFirst(state.strategy, state.candidate.value);
      }
    }

    // A rollout of the configured workload, or one in which no finalization follows a promotion. Anything else may come
    // down to a promotion and a finalization, since an operation that fails at its first call does nothing.
    predicate Apart(service: string, ops: seq<Op>) {
      service == workload || forall i, j :: 0 <= i < j < |ops| && ops[i].PromoteOp? ==> !ops[j].FinalizeOp?
    }

    // A whole rollout of any workload: begin, then these operations, any of which may fail. If the Service did not
    // select the candidate at the beginning, no Deployment is deleted while it is selected, whichever calls fail, in a
    // rollout of the configured workload or without a finalization after a promotion. If no call fails, one is deleted
    // while it is selected exactly when the first operation that is not a promotion is a finalization of another,
    // promoted workload whose Service then selects the candidate.
    method AnyRun(strategy: Strategy, service: string, candidate: string, revision: string, ops: seq<Op>)
      requires cluster.Valid()
      modifies cluster
      ensures cluster.Valid() && cluster.failures >= old(cluster.failures)
      ensures Clear(old(cluster.Now()), service, candidate, revision) && Apart(service, ops) ==>
                NoneServed(old(cluster.deleted), cluster.deleted, service)
      ensures Clear(old(cluster.Now()), service, candidate, revision) && cluster.failures == old(cluster.failures)
              && Accepted(old(cluster.Now()), strategy, service, candidate, revision) ==>
                (NoneServed(old(cluster.deleted), cluster.deleted, service) <==>
                   || service == workload
                   || !FinalizesPromoted(ops, |ops|)
                   || !LeftoverFits(old(cluster.selectors)[service], revision,
                       Pods(old(cluster.labels), candidate, revision)))
    {
      ghost var a := cluster.Now();
      var begun, state := Begin(strategy, service, candidate, revision);
      if state == null {
        return;
      }
      if Accepted(a, strategy, service, candidate, revision) && begun {
        BegunStands(a, cluster.Now(), state);
      }
      RunOperations(state, ops, a, Accepted(a, strategy, service, candidate, revision));
    }

    // Begin may start, the candidate is another object than the configured workload, and finalize may apply that one.
    ghost predicate Accepted(a: Snapshot, strategy: Strategy, service: string, candidate: string, revision: string) {
      && strategy in {BlueGreen, Canary}
      && MayBegin(a.labels, a.selectors, strategy, service, candidate, revision)
      && CanonicalFree(a.labels)
      && candidate != workload
    }

    // The Service does not select the candidate.
    predicate Clear(a: Snapshot, service: string, candidate: string, revision: string) {
      !Serves(a.selectors, service, Pods(a.labels, candidate, revision))
    }

    lemma BegunStands(a: Snapshot, b: Snapshot, state: RolloutState)
      requires state.candidate.Some? && b.deleted == a.deleted
      requires Accepted(a, state.strategy, state.workload, state.candidate.value, state.revision)
      requires Object(Deployment, state.candidate.value) in b.labels
      requires Pods(b.labels, state.candidate.value, state.revision) ==
                 Pods(a.labels, state.candidate.value, state.revision)
      requires ChangesCandidate(a.labels, b.labels, state.strategy, state.candidate.value)
      requires CandidateIn(b.labels, state.strategy, state.candidate.value, state.revision)
      requires state.workload in b.selectors && b.selectors[state.workload] == state.previousSelector
      ensures Standing(a, b, state, false)
    {
      var service := Object(Service, state.workload);
      OwnersDiffer(a.labels[service], state.revision);
      assert OfCandidate(Object(Service, state.candidate.value), state.strategy, state.candidate.value);
      assert !OfCandidate(service, state.strategy, state.candidate.value);
      assert Unchanged(a.labels, b.labels, service);
      forall o | OfCanonical(o) ensures Owned(b.labels, o, true, Expected()) {
        assert !OfCandidate(o, state.strategy, state.candidate.value);
        assert Unchanged(a.labels, b.labels, o);
      }
    }

    // The operations in turn. What has happened by the n-th is decided by the ones before it.
    method RunOperations(state: RolloutState, ops: seq<Op>, ghost a: Snapshot, ghost accepted: bool)
      requires cluster.Valid() && cluster.deleted == a.deleted && !state.promoted
      requires accepted ==> state.candidate != Some(workload)
      modifies cluster, state
      ensures cluster.Valid() && cluster.failures >= old(cluster.failures)
      ensures old(Guarded(state)) && Apart(state.workload, ops) ==>
                NoneServed(a.deleted, cluster.deleted, state.workload)
      ensures old(Guarded(state)) && accepted && old(Standing(a, cluster.Now(), state, false))
                && cluster.failures == old(cluster.failures) ==>
                Decided(a, cluster.Now(), state, ops, |ops|)
    {
      ghost var guarded := Guarded(state);
      ghost var standing := guarded && accepted && Standing(a, cluster.Now(), state, false);
      for n := 0 to |ops|
        invariant cluster.Valid() && a.deleted <= cluster.deleted && cluster.failures >= old(cluster.failures)
        invariant guarded ==> Guarded(state)
        invariant state.promoted ==> exists k :: 0 <= k < n && ops[k].PromoteOp?
        invariant guarded && Apart(state.workload, ops) ==> NoneServed(a.deleted, cluster.deleted, state.workload)
        invariant standing && cluster.failures == old(cluster.failures) ==>
                    Decided(a, cluster.Now(), state, ops, n)
                        && (AllPromotes(ops, n) ==>
                        Standing(a, cluster.Now(), state, state.promoted) && state.promoted == (n > 0))
      {
        ghost var b, promoted := cluster.Now(), state.promoted;
        var _ := Operate(state, ops[n], a);
        NoneServedJoins(a.deleted, b.deleted, cluster.deleted, state.workload);
        if standing && cluster.failures == old(cluster.failures) {
          DecidedNext(a, b, cluster.Now(), state, ops, n, promoted);
        }
      }
    }

    // If no call failed: the candidate stands while only promotions have happened, and is gone afterwards; whether it
    // was served when it was deleted depends on the first other operation.
    ghost predicate Decided(a: Snapshot, b: Snapshot, state: RolloutState, ops: seq<Op>, n: nat)
      requires n <= |ops|
    {
      && state.candidate.Some?
      && (if AllPromotes(ops, n) then Standing(a, b, state, n > 0) else Gone(b, state))
      && (NoneServed(a.deleted, b.deleted, state.workload) <==>
            || state.workload == workload
            || !FinalizesPromoted(ops, n)
            || !LeftoverFits(state.previousSelector, state.revision,
                Pods(a.labels, state.candidate.value, state.revision)))
    }

    lemma DecidedNext(a: Snapshot, b: Snapshot, c: Snapshot, state: RolloutState, ops: seq<Op>, n: nat, promoted: bool)
      requires n < |ops| && Decided(a, b, state, ops, n) && a.deleted <= b.deleted <= c.deleted
      requires AllPromotes(ops, n) ==> promoted == (n > 0) && Verdict(a, b, c, state, ops[n], promoted)
      requires !AllPromotes(ops, n) ==> Gone(c, state) && !DeletesDeployment(b.deleted, c.deleted)
      ensures Decided(a, c, state, ops, n + 1)
    {
      FirstDecides(ops, n);
      NoneServedJoins(a.deleted, b.deleted, c.deleted, state.workload);
    }

    // Without that the guarantee is lost: rolling back an unpromoted candidate that the Service already selects deletes
    // it while it is selected, and only then.
    method BeginAndRollback(strategy: Strategy, service: string, candidate: string, revision: string)
      returns (begun: bool, rolledBack: bool)
      requires cluster.Valid()
      modifies cluster
      ensures cluster.Valid() && cluster.failures >= old(cluster.failures) && old(cluster.deleted) <= cluster.deleted
      ensures begun && rolledBack && strategy in {BlueGreen, Canary} ==>
                (NoneServed(old(cluster.deleted), cluster.deleted, service)
                 <==> !Serves(old(cluster.selectors), service, Pods(old(cluster.labels), candidate, revision)))
      ensures cluster.failures == old(cluster.failures)
                && MayBegin(old(cluster.labels), old(cluster.selectors), strategy, service, candidate, revision) ==>
                begun && (strategy in {BlueGreen, Canary} ==> rolledBack)
    {
      rolledBack := false;
      var state;
      begun, state := Begin(strategy, service, candidate, revision);
      if begun {
        rolledBack := Rollback(state);
      }
    }

    // ---------------------------------------------------------------- runs that delete a served Deployment

    // A cluster with one canonical Service and nothing else.
    ghost predicate OnlyCanonical(service: string)
      reads cluster
    {
      && cluster.labels == map[Object(Service, service) := Expected()]
      && cluster.selectors == map[service := CanonicalSelector(project, environment)]
    }

    // What both runs have come to once the candidate is there.
    ghost predicate Beside(state: RolloutState, service: string, candidate: string, revision: string)
      reads cluster
    {
      && state.candidate == Some(candidate) && state.workload == service && state.strategy == BlueGreen
          && state.revision == revision
      && cluster.Valid()
      && CandidateIn(cluster.labels, BlueGreen, candidate, revision)
      && ChangesCandidate(map[Object(Service, service) := Expected()], cluster.labels, BlueGreen, candidate)
    }

    // Begin a candidate beside a lone canonical Service.
    method BeginBeside(service: string, candidate: string, revision: string) returns (ok: bool, state: RolloutState?)
      requires OnlyCanonical(service) && candidate != service
      modifies cluster
      ensures cluster.Valid() && cluster.deleted == old(cluster.deleted) && cluster.failures >= old(cluster.failures)
      ensures cluster.failures == old(cluster.failures) ==> ok
      ensures ok ==> state != null && fresh(state) && Beside(state, service, candidate, revision)
      ensures ok ==>
                service in cluster.selectors && cluster.selectors[service] == CanonicalSelector(project, environment)
    {
      LoneServiceMayBegin(service, candidate, revision);
      ok, state := Begin(BlueGreen, service, candidate, revision);
    }

    // The promoted Service selects the candidate.
    method PromoteBeside(state: RolloutState, service: string, candidate: string, revision: string) returns (ok: bool)
      requires Beside(state, service, candidate, revision) && candidate != service
      requires service in cluster.selectors && cluster.selectors[service] == CanonicalSelector(project, environment)
      modifies cluster`selectors, cluster`failures, state
      ensures cluster.failures >= old(cluster.failures) && (cluster.failures == old(cluster.failures) ==> ok)
      ensures Beside(state, service, candidate, revision)
      ensures ok ==> Serves(cluster.selectors, service, Pods(cluster.labels, candidate, revision))
    {
      ServiceOwned(cluster.labels, service, candidate);
      PromotionServesCandidateIff(CanonicalSelector(project, environment), project, environment, revision,
          Pods(cluster.labels, candidate, revision));
      ok := Promote(state);
      if ok {
        assert COMPONENT_LABEL in CandidateSelector(project, environment, revision)
            && COMPONENT_LABEL in cluster.selectors[service];
      }
    }

    lemma ServiceOwned(labels: map<Object, Labels>, service: string, candidate: string)
      requires candidate != service
                 && ChangesCandidate(map[Object(Service, service) := Expected()], labels, BlueGreen, candidate)
      ensures Owned(labels, Object(Service, service), false, Expected())
    {
      assert !OfCandidate(Object(Service, service), BlueGreen, candidate);
      assert Unchanged(map[Object(Service, service) := Expected()], labels, Object(Service, service));
    }

    lemma LoneServiceMayBegin(service: string, candidate: string, revision: string)
      requires candidate != service
      ensures MayBegin(map[Object(Service, service) := Expected()],
                map[service := CanonicalSelector(project, environment)],
                       BlueGreen, service, candidate, revision)
    {
      assert COMPONENT_LABEL in CanonicalSelector(project, environment);
    }

    // A promoted rollout that is not finalized, begun again for the same revision and rolled back.
    method SecondBegin(service: string, candidate: string, revision: string)
      requires OnlyCanonical(service) && candidate != service
      modifies cluster
      ensures cluster.failures == old(cluster.failures) ==> !NoneServed(old(cluster.deleted), cluster.deleted, service)
    {
      var ok, state := BeginBeside(service, candidate, revision);
      if ok {
        ok := PromoteBeside(state, service, candidate, revision);
      }
      if ok {
        BeginAgain(state, service, candidate, revision);
      }
    }

    // Beside a candidate that the Service selects.
    method BeginAgain(ghost state: RolloutState, service: string, candidate: string, revision: string)
      requires Beside(state, service, candidate, revision) && candidate != service
      requires Serves(cluster.selectors, service, Pods(cluster.labels, candidate, revision))
      modifies cluster
      ensures cluster.failures >= old(cluster.failures)
      ensures cluster.failures == old(cluster.failures) ==> !NoneServed(old(cluster.deleted), cluster.deleted, service)
    {
      ServiceOwned(cluster.labels, service, candidate);
      var _, _ := BeginAndRollback(BlueGreen, service, candidate, revision);
    }

    // Beside a lone canonical Service a rollout of its workload may begin, and its promotion serves the candidate.
    lemma LoneServiceAccepted(a: Snapshot, service: string, candidate: string, revision: string)
      requires a.labels == map[Object(Service, service) := Expected()]
      requires a.selectors == map[service := CanonicalSelector(project, environment)]
      requires candidate != service && workload !in {service, candidate}
      ensures Accepted(a, BlueGreen, service, candidate, revision) && Clear(a, service, candidate, revision)
      ensures LeftoverFits(a.selectors[service], revision, Pods(a.labels, candidate, revision))
    {
      LoneServiceMayBegin(service, candidate, revision);
      CanonicalExcludesCandidate(project, environment, revision, Pods(a.labels, candidate, revision));
      assert CanonicalFree(a.labels);
    }

    lemma PromoteThenFinalize()
      ensures FinalizesPromoted([PromoteOp, FinalizeOp], 2)
    {
      var ops := [PromoteOp, FinalizeOp];
      assert AllPromotes(ops, 1) && ops[1].FinalizeOp?;
    }

    // A promoted rollout of a workload other than the configured one, finalized.
    method ForeignFinalize(service: string, candidate: string, revision: string)
      requires OnlyCanonical(service) && candidate != service && workload !in {service, candidate}
      modifies cluster
      ensures cluster.failures == old(cluster.failures) ==> !NoneServed(old(cluster.deleted), cluster.deleted, service)
    {
      LoneServiceAccepted(cluster.Now(), service, candidate, revision);
      PromoteThenFinalize();
      AnyRun(BlueGreen, service, candidate, revision, [PromoteOp, FinalizeOp]);
    }

    // A deleted Deployment would come back with no more labels than it had.
    lemma DeletedPods(labels: map<Object, Labels>, item: Object, candidate: string, revision: string)
      requires item in labels && item.name == candidate && Within(Candidate(revision), labels[item])
      ensures forall s :: Within(s, Pods(labels - {item}, candidate, revision)) ==>
                Within(s, Pods(labels, candidate, revision))
      ensures item.kind.Deployment? ==> Pods(labels, candidate, revision) == labels[item]
    {
    }
  }

  // An operation after begin.
  datatype Op = PromoteOp | FinalizeOp | RollbackOp

  predicate AllPromotes(ops: seq<Op>, n: nat)
    requires n <= |ops|
  {
    forall k :: 0 <= k < n ==> ops[k].PromoteOp?
  }

  // The first operation that is not a promotion is a finalization, and some promotion comes before it.
  predicate FinalizesPromoted(ops: seq<Op>, n: nat)
    requires n <= |ops|
  {
    exists j :: 1 <= j < n && ops[j].FinalizeOp? && AllPromotes(ops, j)
  }

  lemma FirstDecides(ops: seq<Op>, n: nat)
    requires n < |ops|
    ensures AllPromotes(ops, n) ==> !FinalizesPromoted(ops, n)
    ensures AllPromotes(ops, n) ==> (FinalizesPromoted(ops, n + 1) <==> n > 0 && ops[n].FinalizeOp?)
    ensures !AllPromotes(ops, n) ==> (FinalizesPromoted(ops, n + 1) <==> FinalizesPromoted(ops, n))
    ensures AllPromotes(ops, n + 1) <==> AllPromotes(ops, n) && ops[n].PromoteOp?
  {
    if FinalizesPromoted(ops, n) {
      var j :| 1 <= j < n && ops[j].FinalizeOp? && AllPromotes(ops, j);
      assert !ops[j].PromoteOp?;
    }
  }

  ghost predicate DeletesDeployment(before: seq<Deletion>, after: seq<Deletion>) {
    exists i :: |before| <= i < |after| && after[i].item.kind.Deployment?
  }

  lemma NoneServedJoins(a: seq<Deletion>, b: seq<Deletion>, c: seq<Deletion>, service: string)
    requires a <= b <= c
    ensures NoneServed(a, c, service) <==> NoneServed(a, b, service) && NoneServed(b, c, service)
  {
  }

  // No Deployment was deleted while this Service selected it.
  ghost predicate NoneServed(before: seq<Deletion>, after: seq<Deletion>, service: string) {
    && before <= after
    && forall i :: |before| <= i < |after| && after[i].item.kind.Deployment? ==>
         !Serves(after[i].selectors, service, after[i].labels)
  }

  ghost predicate Patched(before: map<string, Labels>, after: map<string, Labels>, service: string, patch: Labels) {
    service in before && after == before[service := Merge(before[service], patch)]
  }

  // The objects a candidate consists of: only a canary has an Ingress.
  predicate OfCandidate(o: Object, strategy: Strategy, candidate: string) {
    o.name == candidate && (o.kind.Deployment? || o.kind.Service? || (o.kind.Ingress? && strategy.Canary?))
  }

  // What is left of the Services has the selectors it had.
  ghost predicate PartOf(after: map<string, Labels>, before: map<string, Labels>) {
    forall n :: n in after ==> n in before && after[n] == before[n]
  }

  // Objects that were there without these labels stay as they were.
  ghost predicate SparesForeign(before: map<Object, Labels>, after: map<Object, Labels>, mine: Labels) {
    forall o :: o in before && !Within(mine, before[o]) ==> Unchanged(before, after, o)
  }

  ghost predicate Unchanged(before: map<Object, Labels>, after: map<Object, Labels>, o: Object) {
    (o in before <==> o in after) && (o in before ==> after[o] == before[o])
  }

  // The Service has the selector given, or the merge of it into the one it had.
  ghost predicate Applied(before: map<string, Labels>, after: map<string, Labels>, service: string, selector: Labels) {
    && service in after
    && (after[service] == selector || (service in before && after[service] == Merge(before[service], selector)))
  }

  // No other Service changes.
  ghost predicate OnlyService(before: map<string, Labels>, after: map<string, Labels>, name: string) {
    forall n :: n != name ==> (n in before <==> n in after) && (n in before ==> after[n] == before[n])
  }
}
