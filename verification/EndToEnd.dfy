/** A repository and its key together: from any reachable state to a Created key. */
module EndToEnd {
  import opened Options
  import opened Conditions
  import opened KeyLog
  import opened Resources
  import opened ApiServer
  import opened Operator
  import opened Invariant
  import opened Safety
  import opened Witnesses
  import E = Environment
  import K = KeyController
  import R = RepositoryController
  import EnvironmentSteps
  import RR = RepositoryRecovery
  import KR = KeyRecovery
  import KC = KeyCreation

  /** A reconcile of the repository, its init job succeeding if it is still to finish, and another reconcile. */
  function Prepared(c: Cluster, m: string, early: seq<Condition>): Cluster {
    RR.Reconcile(RR.JobDone(RR.Reconcile(c, m), m, early, true), m)
  }

  /** The operator secret is absent or the repository's own, and no init job has failed. */
  predicate CanInitialise(c: Cluster, r: Repository) {
    && (r.OperatorSecretName() !in c.secrets || SecretOwned(c.secrets, r.OperatorSecretName(), r.uid))
    && (r.name in c.initJobs ==> !c.initJobs[r.name].IsFailed())
  }

  /**
    The key is Created; or its repository exists and either its add job has not failed, or it has none, the repository can be
    initialised, the key's secret is usable, and its registration is not refused.
   */
  ghost predicate CanSucceed(c: Cluster, k: Key) {
    || k.IsCreated()
    || (k.spec.repository in c.repos
        && var repo := c.repos[k.spec.repository];
        if HasAddJob(c.jobs, k.uid) then forall j :: AddJobOf(c.jobs, j, k.uid) ==> !c.jobs[j].IsFailed()
        else CanInitialise(c, repo) && KC.SecretUsable(c, k) && !(k.conditions == [] && K.OwnedByAnother(k, repo)))
  }

  // ----- what the preparation changes -----

  /** The repository keeps all but its status, and of the secrets only its operator secret may be new; other objects stay. */
  ghost predicate Around(c: Cluster, d: Cluster, m: string) {
    && d.keys == c.keys && d.jobs == c.jobs && d.nextUid == c.nextUid
    && (forall n :: n in c.repos && n != m ==> n in d.repos && d.repos[n] == c.repos[n])
    && (forall n :: n in d.repos <==> n in c.repos)
    && (m in c.repos ==> d.repos[m] == c.repos[m].(conditions := d.repos[m].conditions))
    && (forall n :: n != m ==> (n in d.initJobs <==> n in c.initJobs))
    && (forall n :: n != "operator-key-" + m ==> (n in d.secrets <==> n in c.secrets))
    && (forall n :: n in c.secrets ==> n in d.secrets && d.secrets[n] == c.secrets[n])
  }

  lemma StatusAround(c: Cluster, r: Repository)
    requires r.name in c.repos && r == c.repos[r.name].(conditions := r.conditions)
    ensures Around(c, RR.WithStatus(c, r), r.name) && RR.WithStatus(c, r).initJobs == c.initJobs
  {
  }

  lemma StartedAround(c: Cluster, r: Repository)
    requires r.name !in c.initJobs
    ensures var d := RR.Started(c, r);
            && Around(c, d, r.name) && (r.name in d.initJobs ==> d.initJobs[r.name].conditions == [])
  {
    hide Around;
    var name, job := r.OperatorSecretName(), RepositoryInitJob(r);
    JobAround(c, r.name, job);
    var d := c.(secrets := c.secrets[name := Secret([r.uid])]);
    assert RR.Started(c, r) in [c, c.(initJobs := c.initJobs[r.name := job]), d.(initJobs := d.initJobs[r.name := job])];
    JobAround(d, r.name, job);
    if name !in c.secrets {
      SecretAround(c, r.name, name, Secret([r.uid]));
      AroundBoth(c, d, RR.Started(c, r), r.name);
    }
  }

  lemma JobAround(c: Cluster, m: string, job: Job)
    ensures Around(c, c, m) && Around(c, c.(initJobs := c.initJobs[m := job]), m)
  {
  }

  lemma SecretAround(c: Cluster, m: string, name: string, secret: Secret)
    requires name == "operator-key-" + m && name !in c.secrets
    ensures Around(c, c.(secrets := c.secrets[name := secret]), m)
  {
  }

  lemma DecidedAround(c: Cluster, r: Repository)
    requires r.name in c.repos && r == c.repos[r.name].(conditions := r.conditions)
    ensures var d := RR.Decided(c, r);
            && Around(c, d, r.name)
            && (r.name in c.initJobs ==> d.initJobs == c.initJobs)
            && (r.name !in c.initJobs && r.name in d.initJobs ==> d.initJobs[r.name].conditions == [])
  {
    hide Around, MarkCreated, MarkFailed, HasTrue, AnyWithStatus, RR.Started, RR.WithStatus;
    StatusAround(c, c.repos[r.name]);
    assert RR.WithStatus(c, c.repos[r.name]) == c by { SameStatus(c, r.name); }
    StatusAround(c, R.WithCreated(r));
    StatusAround(c, R.WithFailed(r));
    if r.name !in c.initJobs { StartedAround(c, r); }
  }

  lemma SameStatus(c: Cluster, m: string)
    requires m in c.repos && c.repos[m].name == m
    ensures RR.WithStatus(c, c.repos[m]) == c
  {
    assert c.repos[m := c.repos[m]] == c.repos;
  }

  lemma AroundBoth(c: Cluster, d: Cluster, e: Cluster, m: string)
    requires Around(c, d, m) && Around(d, e, m)
    ensures Around(c, e, m)
  {
  }

  lemma EffectAround(c: Cluster, m: string)
    requires RepoIds(c)
    ensures Around(c, RR.Effect(c, m), m)
    ensures m in c.initJobs ==> RR.Effect(c, m).initJobs == c.initJobs
    ensures m !in c.initJobs && m in RR.Effect(c, m).initJobs ==> RR.Effect(c, m).initJobs[m].conditions == []
  {
    hide RR.Decided, HasTrue;
    if m in c.repos {
      var r := R.WithDefaults(c.repos[m]);
      StatusAround(c, r);
      DecidedAround(RR.WithStatus(c, r), r);
      AroundBoth(c, RR.WithStatus(c, r), RR.Effect(c, m), m);
    }
  }

  lemma JobDoneAround(c: Cluster, m: string, early: seq<Condition>)
    requires RepoIds(c)
    ensures var d := RR.JobDone(c, m, early, true); RepoIds(d) && Around(c, d, m) && (m in d.initJobs <==> m in c.initJobs)
  {
    hide HasTrue, RepoIds;
    var d := RR.JobDone(c, m, early, true);
    assert d == c || (m in c.initJobs && d == c.(initJobs := d.initJobs) && m in d.initJobs);
    SameRepositories(c, d);
  }

  lemma SameRepositories(c: Cluster, d: Cluster)
    requires RepoIds(c) && d.repos == c.repos && d.nextUid == c.nextUid
    ensures RepoIds(d)
  {
  }

  lemma PreparedAround(c: Cluster, m: string, early: seq<Condition>)
    requires RepoIds(c)
    ensures Around(c, Prepared(c, m, early), m)
    ensures var d1, d := RR.Reconcile(c, m), Prepared(c, m, early);
            m in d1.initJobs ==> d.initJobs == RR.JobDone(d1, m, early, true).initJobs
  {
    hide Around, RR.Effect, RR.Reconcile, RepoIds, RR.JobDone;
    var d1 := RR.Reconcile(c, m);
    var d2 := RR.JobDone(d1, m, early, true);
    RR.ReconcileHasEffect(c, m);
    RR.EffectKeepsIds(c, m);
    JobDoneAround(d1, m, early);
    RR.ReconcileHasEffect(d2, m);
    EffectAround(c, m);
    EffectAround(d2, m);
    AroundBoth(c, d1, d2, m);
    AroundBoth(c, d2, Prepared(c, m, early), m);
  }

  /** With ok true, the init job is complete in the end unless it had failed. */
  lemma InitEnds(c: Cluster, m: string, early: seq<Condition>)
    requires RepoIds(c) && E.NotFinal(early) && m in RR.Reconcile(c, m).initJobs
    requires m in c.initJobs ==> !(c.initJobs[m].IsComplete() && c.initJobs[m].IsFailed())
    ensures var d := Prepared(c, m, early);
            m in d.initJobs && (d.initJobs[m].IsComplete() <==> (m in c.initJobs ==> !c.initJobs[m].IsFailed()))
  {
    var d1 := RR.Reconcile(c, m);
    RR.ReconcileHasEffect(c, m);
    EffectAround(c, m);
    PreparedAround(c, m, early);
    HasTrueMeans([], JOB_COMPLETE);
    HasTrueMeans([], JOB_FAILED);
    hide RR.Effect, RR.Reconcile, RepoIds, Prepared;
    if !d1.initJobs[m].Finished() { EnvironmentSteps.Concluded(d1.initJobs[m], early, JOB_COMPLETE); }
  }

  /** The repository is Created in the end exactly when it could be initialised. */
  lemma InitialisedExactly(c: Cluster, m: string, early: seq<Condition>)
    requires ClusterOk(c) && m in c.repos && E.NotFinal(early)
    ensures var d := Prepared(c, m, early); m in d.repos && (d.repos[m].IsCreated() <==> CanInitialise(c, c.repos[m]))
  {
    var r := c.repos[m];
    if r.OperatorSecretName() !in c.secrets || SecretOwned(c.secrets, r.OperatorSecretName(), r.uid) {
      RR.ClusterRecovers(c, m, early, true);
      RR.FirstReconcile(c, m);
      assert m in c.initJobs ==> InitJobOk(c.repos, c.secrets, m, c.initJobs[m]);
      InitEnds(c, m, early);
    } else {
      RR.ForeignSecretBlocks(c, m, early, true);
    }
  }

  lemma ConditionCarriesOver(c: Cluster, k: Key, early: seq<Condition>)
    requires ClusterOk(c) && E.NotFinal(early)
    ensures KC.CanCreate(Prepared(c, k.spec.repository, early), k) <==> CanSucceed(c, k)
  {
    var m := k.spec.repository;
    PreparedAround(c, m, early);
    if m in c.repos {
      InitialisedExactly(c, m, early);
      SecretNames(k, Repository(m, 0, "", false, false, []));
    }
    hide Prepared, ClusterOk, HasTrue, HasAddJob, AddJobOf, CanInitialise;
  }

  // ----- end to end -----

  lemma PreparedIsReachable(s: State, m: string, early: seq<Condition>)
    requires Reachable(s) && E.NotFinal(early)
    ensures Reachable(State(Prepared(s.cluster, m, early), K.Idle, R.Idle))
  {
    hide Reachable, RR.Reconcile;
    var c, e := s.cluster, E.FinishInitJob(m, early, true);
    NextIsReachable(s, KeyCrash);
    NextIsReachable(s.(key := K.Idle), RepositoryCrash);
    RepositoryReconcileIsReachable(c, m);
    var d := RR.Reconcile(c, m);
    assert E.Happen(d, None, None, e) == RR.JobDone(d, m, early, true);
    EventIsReachable(d, e);
    RepositoryReconcileIsReachable(RR.JobDone(d, m, early, true), m);
  }

  /**
    From every reachable state: two fault-free reconciles of the repository around the end of its init job, and then two of the
    key around the end of its add job, make a key that is not under deletion Created, if and only if CanSucceed held at the
    start. In particular a usable pair of secrets, no failed job and no other controller suffice.
   */
  lemma BothRecover(s: State, n: string, initial: seq<Condition>, order: seq<nat>, order': seq<nat>,
                    early: seq<Condition>, pre: string, id: string, post: string)
    requires Reachable(s) && n in s.cluster.keys && !s.cluster.keys[n].deleting && E.NotFinal(initial)
    requires IsListing(s.cluster.jobs, n, order)
    requires E.NotFinal(early) && Reports(pre + MARKER + id + post, pre, id, post)
    requires var d := Prepared(s.cluster, s.cluster.keys[n].spec.repository, initial);
             && E.FreshID(KR.Reconcile(d, n, order), id)
             && IsListing(KC.AddDone(KR.Reconcile(d, n, order), s.cluster.keys[n].uid, early, pre + MARKER + id + post,
                     id).jobs, n, order')
    ensures var k := s.cluster.keys[n];
            var d := KR.Reconcile(Prepared(s.cluster, k.spec.repository, initial), n, order);
            KC.CreatedAs(KR.Reconcile(KC.AddDone(d, k.uid, early, pre + MARKER + id + post, id), n, order'), k)
            <==> CanSucceed(s.cluster, k)
  {
    var c := s.cluster;
    var k := c.keys[n];
    ReachableInv(s);
    assert ClusterOk(c) && RepoIds(c);
    hide Inv, ClusterOk, RepoIds, Reachable, Prepared, Reports, IsListing, E.FreshID;
    hide KC.CanCreate, CanSucceed, KC.CreatedAs, KC.AddDone, KR.Reconcile;
    PreparedAround(c, k.spec.repository, initial);
    PreparedIsReachable(s, k.spec.repository, initial);
    ConditionCarriesOver(c, k, initial);
    KC.CreationRecovers(State(Prepared(c, k.spec.repository, initial), K.Idle, R.Idle), n, order, order', early, pre, id, post);
  }
}
