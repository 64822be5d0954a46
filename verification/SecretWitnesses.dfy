/** A run in which the add jobs of two keys mount the same secret. */
module SecretWitnesses {
  import opened Options
  import opened Conditions
  import opened Resources
  import opened ApiServer
  import opened Operator
  import opened Invariant
  import opened Safety
  import opened Witnesses
  import opened EndToEnd
  import E = Environment
  import K = KeyController
  import R = RepositoryController
  import KR = KeyRecovery
  import KC = KeyCreation

  ghost predicate Rests(c: Cluster) {
    Reachable(State(c, K.Idle, R.Idle))
  }

  /** A new repository is initialised. */
  lemma RepositoryIsReady(c: Cluster, m: string, url: string) returns (d: Cluster)
    requires Rests(c) && m !in c.repos && m !in c.initJobs && "operator-key-" + m !in c.secrets
    ensures Rests(d) && Around(E.NewRepository(c, m, url, false), d, m) && m in d.repos && d.repos[m].IsCreated()
  {
    var e := E.NewRepository(c, m, url, false);
    hide Reachable, Around, HasTrue;
    EventIsReachable(c, E.CreateRepository(m, url, false));
    assert E.Happen(c, None, None, E.CreateRepository(m, url, false)) == e;
    hide Prepared, ClusterOk;
    ClusterIsOk(e);
    PreparedIsReachable(State(e, K.Idle, R.Idle), m, []);
    PreparedAround(e, m, []);
    InitialisedExactly(e, m, []);
    d := Prepared(e, m, []);
  }

  lemma ClusterIsOk(c: Cluster)
    requires Rests(c)
    ensures ClusterOk(c) && RepoIds(c) && KeyIds(c) && JobIds(c)
  {
    hide Reachable;
    ReachableInv(State(c, K.Idle, R.Idle));
  }

  lemma NoneListed(c: Cluster, n: string)
    requires forall j :: j in c.jobs ==> !Listed(c.jobs, n, j)
    ensures IsListing(c.jobs, n, [])
  {
  }

  /** The first reconcile of a new key that another object controls stores the default status only. */
  lemma ForeignKeyIsRefused(c: Cluster, k: Key)
    requires Rests(c) && KeyUnchanged(c, k) && k.conditions == [] && !k.deleting && k.controller == Some(STRANGER)
    requires k.spec.repository in c.repos && IsListing(c.jobs, k.name, [])
    ensures Rests(KR.WithKey(c, K.WithDefaults(k))) && !HasAddJob(c.jobs, k.uid)
  {
    hide Reachable, ClusterOk, KR.Effect, KR.Reconcile, HasTrue;
    ClusterIsOk(c);
    hide RepoIds, KeyIds, JobIds;
    FreshHasNoJob(c, k);
    KR.ReconcileHasEffect(c, k.name, []);
    KC.StartsWithoutJob(c, k, c.repos[k.spec.repository]);
    KeyReconcileIsReachable(c, k.name, []);
  }

  /** The next reconcile creates its secret and its add job. */
  lemma UnregisteredKeyStarts(c: Cluster, k: Key)
    requires Rests(c) && KeyUnchanged(c, k) && k.conditions == DEFAULT_PHASE && !k.deleting && !HasAddJob(c.jobs, k.uid)
    requires k.spec.repository in c.repos && c.repos[k.spec.repository].IsCreated()
    requires k.SecretName() !in c.secrets && IsListing(c.jobs, k.name, [])
    ensures Rests(KR.Added(c, k, c.repos[k.spec.repository]))
  {
    hide Reachable, ClusterOk, KR.Effect, KR.Reconcile, KR.Added, HasTrue;
    ClusterIsOk(c);
    hide RepoIds, KeyIds, JobIds;
    DefaultPhaseIsPhased();
    KR.ReconcileHasEffect(c, k.name, []);
    KC.StartsWithoutJob(c, k, c.repos[k.spec.repository]);
    assert KR.WithKey(c, k) == c by { assert c.keys[k.name := k] == c.keys; }
    KeyReconcileIsReachable(c, k.name, []);
  }

  /** Job j is the running add job of an owner that mounts its secret and uses this URL. */
  predicate RunningFor(c: Cluster, j: nat, owner: nat, secret: string, url: string) {
    && j in c.jobs && c.jobs[j].IsAdd() && !c.jobs[j].Finished() && c.jobs[j].owner == owner && c.jobs[j].url == url
    && |c.jobs[j].mounts| == 2 && c.jobs[j].mounts[0] == secret
  }

  lemma ForeignKeyStarts(c: Cluster, n: string, spec: KeySpec, secret: string) returns (d: Cluster)
    requires Rests(c) && E.KeyNameFree(c, n) && spec.repository in c.repos && c.repos[spec.repository].IsCreated()
    requires secret == "restic-key-" + spec.repository + "-" + n && secret !in c.secrets
    ensures Rests(d) && d.repos == c.repos && d.secrets == c.secrets[secret := Secret([c.nextUid])]
    ensures d.keys == c.keys[n := Key(n, c.nextUid, spec, Some(STRANGER), None, false, false, false, false, DEFAULT_PHASE, None)]
    ensures d.nextUid == c.nextUid + 2 && RunningFor(d, c.nextUid + 1, c.nextUid, secret, c.repos[spec.repository].url)
    ensures var job := d.jobs[c.nextUid + 1]; d.jobs == c.jobs[c.nextUid + 1 := job] && job.key == Some(n)
  {
    hide Reachable, Rests, HasTrue;
    var k := Key(n, c.nextUid, spec, Some(STRANGER), None, false, false, false, false, [], None);
    var e := c.(keys := c.keys[n := k], nextUid := c.nextUid + 1);
    var l := K.WithDefaults(k);
    NoneListed(c, n);
    Appears(c, n, spec);
    ForeignKeyIsRefused(e, k);
    var f := KR.WithKey(e, l);
    UnregisteredKeyStarts(f, l);
    d := KR.Added(f, l, c.repos[spec.repository]);
    assert e.keys[n := l] == c.keys[n := l];
    HasTrueMeans([], JOB_COMPLETE);
    HasTrueMeans([], JOB_FAILED);
  }

  lemma Appears(c: Cluster, n: string, spec: KeySpec)
    requires Rests(c) && E.KeyNameFree(c, n)
    ensures Rests(E.NewKey(c, n, spec, Some(STRANGER), false))
  {
    hide Reachable, E.KeyNameFree;
    EventIsReachable(c, E.CreateKey(n, spec, Some(STRANGER), false));
    assert E.Happen(c, None, None, E.CreateKey(n, spec, Some(STRANGER), false)) == E.NewKey(c, n, spec, Some(STRANGER), false);
  }

  lemma FreshHasNoJob(c: Cluster, k: Key)
    requires ClusterOk(c) && KeyUnchanged(c, k) && k.conditions == []
    ensures !HasAddJob(c.jobs, k.uid) && !k.IsCreated()
  {
    assert KeyOk(c, k);
    HasTrueMeans([], CREATED);
  }

  /** An unregistered key vanishes as soon as its deletion is requested. */
  lemma KeyVanishes(c: Cluster, n: string) returns (d: Cluster)
    requires Rests(c) && n in c.keys && !c.keys[n].finalizer && !c.keys[n].held
    ensures Rests(d) && d.keys == c.keys - {n} && d.repos == c.repos && d.jobs == c.jobs && d.secrets == c.secrets
    ensures d.nextUid == c.nextUid
  {
    hide Reachable;
    NameIsOwn(c, n);
    d := PutKey(c, c.keys[n].(deleting := true));
    EventIsReachable(c, E.DeleteKey(n, false));
    assert E.Happen(c, None, None, E.DeleteKey(n, false)) == d;
  }

  lemma NameIsOwn(c: Cluster, n: string)
    requires Rests(c) && n in c.keys
    ensures c.keys[n].name == n
  {
    hide ClusterOk, Rests;
    ClusterIsOk(c);
  }

  /** Then nothing keeps its secret. */
  lemma SecretVanishes(c: Cluster, name: string, owner: nat) returns (d: Cluster)
    requires Rests(c) && name in c.secrets && c.secrets[name].owners == [owner]
    requires !E.LiveKey(c, owner) && !E.LiveRepository(c, owner)
    ensures Rests(d) && d == c.(secrets := c.secrets - {name})
  {
    hide Reachable, E.LiveKey, E.LiveRepository;
    EventIsReachable(c, E.DeleteSecret(name));
    d := c.(secrets := c.secrets - {name});
    assert E.Happen(c, None, None, E.DeleteSecret(name)) == d;
  }

  const SHARED := "restic-key-repo-a-b"

  lemma Names()
    ensures "operator-key-" + "repo" == "operator-key-repo" && "operator-key-" + "repo-a" == "operator-key-repo-a"
    ensures "operator-key-repo" != "operator-key-repo-a" && "operator-key-repo" != SHARED && "operator-key-repo-a" != SHARED
    ensures "restic-key-" + "repo" + "-" + "a-b" == SHARED == "restic-key-" + "repo-a" + "-" + "b"
  {
    assert |"operator-key-repo"| == 17 && |"operator-key-repo-a"| == 19;
    assert "operator-key-repo"[0] == 'o' == "operator-key-repo-a"[0] && SHARED[0] == 'r';
  }

  predicate Ready(c: Cluster, name: string, url: string) {
    name in c.repos && c.repos[name].IsCreated() && c.repos[name].name == name && c.repos[name].url == url
  }

  lemma Beginning()
    ensures Rests(EMPTY)
  {
    assert Run(INITIAL, []) == INITIAL;
  }

  lemma TwoRepositories() returns (c: Cluster)
    ensures Rests(c) && c.keys == map[] && c.jobs == map[] && SHARED !in c.secrets
    ensures Ready(c, "repo", "url") && Ready(c, "repo-a", "other")
  {
    hide Reachable, Rests, HasTrue;
    Beginning();
    Names();
    var c1 := RepositoryIsReady(EMPTY, "repo", "url");
    c := RepositoryIsReady(c1, "repo-a", "other");
  }

  /**
    The key `a-b` of repository `repo` vanishes with its secret while its add job is still running; the key `b` of repository
    `repo-a` then creates a secret of the same name for its own add job.
   */
  lemma VanishedKeySharesSecret() returns (c: Cluster, i: nat, j: nat, u: nat, v: nat)
    ensures Rests(c) && !E.LiveKey(c, u) && E.LiveKey(c, v)
    ensures RunningFor(c, i, u, SHARED, "url") && RunningFor(c, j, v, SHARED, "other")
  {
    hide Reachable, Rests, HasTrue;
    var c1 := TwoRepositories();
    Names();
    var c2 := ForeignKeyStarts(c1, "a-b", KeySpec("repo", "user", "host"), SHARED);
    u, i := c1.nextUid, c1.nextUid + 1;
    var c3 := KeyVanishes(c2, "a-b");
    assert c3.keys == map[];
    Unborn(c1, u);
    var c4 := SecretVanishes(c3, SHARED, u);
    c := ForeignKeyStarts(c4, "b", KeySpec("repo-a", "user", "host"), SHARED);
    v, j := c4.nextUid, c4.nextUid + 1;
    assert c.keys["b"].uid == v;
  }

  lemma Unborn(c: Cluster, u: nat)
    requires Rests(c) && u == c.nextUid
    ensures !E.LiveRepository(c, u)
  {
    hide ClusterOk, Rests;
    ClusterIsOk(c);
  }
}
