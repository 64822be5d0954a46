/** What registration writes to a key, and that it stays. */
module Registration {
  import opened Options
  import opened Conditions
  import opened Resources
  import opened ApiServer
  import opened Operator
  import opened Invariant
  import opened Safety
  import Histories
  import K = KeyController
  import KR = KeyRecovery
  import KC = KeyCreation

  /** Some other object than a repository of this name controls the key. */
  predicate ControlledByAnother(k: Key, r: Repository) {
    k.controller.Some? && (k.controller.value.kind != "restic.zhulik.wtf/Repository" || k.controller.value.name != r.name)
  }

  /** The key has the repository as its owner, its label and the finalizer. */
  predicate RegisteredWith(k: Key, r: Repository) {
    k.controller == Some(Owner("restic.zhulik.wtf/Repository", r.name, r.uid)) && k.repositoryLabel == Some(k.spec.repository) && k.finalizer
  }

  lemma AddingKeepsKeys(c: Cluster, k: Key, repo: Repository)
    ensures KR.Added(c, k, repo).keys == c.keys
  {
  }

  /**
    From every reachable state: a fault-free reconcile of a new key that is not under deletion, whose repository exists, registers
    the key with it, if and only if no other object controls the key; either way the key gets its default status.
   */
  lemma NewKeysAreRegistered(s: State, n: string, order: seq<nat>)
    requires Reachable(s) && n in s.cluster.keys && IsListing(s.cluster.jobs, n, order)
    requires var k := s.cluster.keys[n];
             k.conditions == [] && !k.deleting && k.spec.repository in s.cluster.repos
    ensures var k, d := s.cluster.keys[n], KR.Reconcile(s.cluster, n, order);
            && n in d.keys && d.keys[n].uid == k.uid && d.keys[n].spec == k.spec
            && d.keys[n].conditions == [Condition("Created", ConditionFalse), Condition("Failed", ConditionFalse)]
            && (RegisteredWith(d.keys[n], s.cluster.repos[k.spec.repository])
                <==> !ControlledByAnother(k, s.cluster.repos[k.spec.repository]))
  {
    hide Inv, Reachable, KR.Effect, KR.Reconcile, KR.Added, ClusterOk, IsListing, HasTrue, KeyOk, KC.SecretUsable;
    var c, k := s.cluster, s.cluster.keys[n];
    var repo := c.repos[k.spec.repository];
    ReachableInv(s);
    assert ClusterOk(c) by { ClusterOfInv(s); }
    LiveFacts(c, n);
    KR.ReconcileHasEffect(c, n, order);
    NewHasNoJob(c, k);
    KC.StartsWithoutJob(c, k, repo);
    assert repo.name == k.spec.repository by { NameOfRepository(c, k.spec.repository); }
    var m := K.WithMetadata(K.WithDefaults(k), repo);
    AddingKeepsKeys(KR.WithKey(c, m), m, repo);
  }

  lemma NameOfRepository(c: Cluster, m: string)
    requires ClusterOk(c) && m in c.repos
    ensures c.repos[m].name == m
  {
  }

  lemma ClusterOfInv(s: State)
    requires Inv(s)
    ensures ClusterOk(s.cluster)
  {
  }

  lemma NewHasNoJob(c: Cluster, k: Key)
    requires KeyOk(c, k) && k.conditions == []
    ensures !HasAddJob(c.jobs, k.uid) && !k.IsCreated() && !k.finalizer
  {
    HasTrueMeans([], CREATED);
    hide HasTrue;
  }

  /** Along every run a registered key keeps its owner and its label. */
  lemma RegisteredForGood(s: State, actions: seq<Action>, k: Key)
    requires Reachable(s) && Known(s.cluster, k) && k.finalizer
    ensures exists l: Key :: Known(Run(s, actions).cluster, l) && l.uid == k.uid && l.name == k.name
                             && l.controller == k.controller && l.repositoryLabel == k.repositoryLabel == Some(l.spec.repository)
  {
    hide Inv, Reachable, Run;
    ReachableInv(s);
    KnownOk(s, k);
    Histories.KeyHistoryIsMonotone(s, actions, k);
    var l: Key :| Known(Run(s, actions).cluster, l) && Histories.KeyLater(k, l);
  }
}
