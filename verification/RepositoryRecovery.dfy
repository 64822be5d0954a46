/** Repository reconciles without faults: their effect as a whole, that they settle, and recovery after a crash. */
module RepositoryRecovery {
  import opened Options
  import opened Conditions
  import opened Resources
  import opened ApiServer
  import opened Operator
  import opened Invariant
  import opened Safety
  import opened RepositorySteps
  import E = Environment
  import K = KeyController
  import R = RepositoryController
  import EnvironmentSteps

  /** The calls from pc on, all succeeding and nobody else acting. */
  function Finish(c: Cluster, pc: R.Pc): Cluster
    decreases R.Rank(pc)
  {
    if pc.Idle? then c
    else
      R.CallDescends(c, pc, true);
      var (d, pc') := R.Call(c, pc, true);
      Finish(d, pc')
  }

  function Reconcile(c: Cluster, n: string): Cluster {
    Finish(c, R.GetRepo(n))
  }

  lemma {:induction false} FinishKeepsInv(c: Cluster, pc: R.Pc, key: K.Pc)
    requires Inv(State(c, key, pc))
    ensures Inv(State(Finish(c, pc), key, R.Idle))
    decreases R.Rank(pc)
  {
    hide Inv, R.Call;
    if !pc.Idle? {
      R.CallDescends(c, pc, true);
      var (d, pc') := R.Call(c, pc, true);
      NextKeepsInv(State(c, key, pc), RepositoryCall(true));
      FinishKeepsInv(d, pc', key);
    }
  }

  lemma ReconcileKeepsInv(c: Cluster, n: string, key: K.Pc)
    requires Inv(State(c, key, R.GetRepo(n)))
    ensures Inv(State(Reconcile(c, n), key, R.Idle))
  {
    hide Inv;
    FinishKeepsInv(c, R.GetRepo(n), key);
  }

  // ----- the effect of one reconcile -----

  function Started(c: Cluster, r: Repository): Cluster {
    if r.OperatorSecretName() !in c.secrets then
      c.(secrets := c.secrets[r.OperatorSecretName() := Secret([r.uid])], initJobs := c.initJobs[r.name := RepositoryInitJob(r)])
    else if SecretOwned(c.secrets, r.OperatorSecretName(), r.uid) then
      c.(initJobs := c.initJobs[r.name := RepositoryInitJob(r)])
    else c
  }

  function WithStatus(c: Cluster, r: Repository): Cluster {
    c.(repos := c.repos[r.name := r])
  }

  /** From a repository with its default status on. */
  function Decided(c: Cluster, r: Repository): Cluster {
    if r.IsCreated() || r.IsFailed() then c
    else if r.name !in c.initJobs then Started(c, r)
    else if c.initJobs[r.name].FinalCondition().None? then c
    else if c.initJobs[r.name].FinalCondition() == Some(JOB_COMPLETE) then WithStatus(c, R.WithCreated(r))
    else WithStatus(c, R.WithFailed(r))
  }

  function Effect(c: Cluster, n: string): Cluster {
    if n !in c.repos then c
    else
      var r := R.WithDefaults(c.repos[n]);
      Decided(WithStatus(c, r), r)
  }

  lemma FinishStart(c: Cluster, r: Repository)
    requires r.name !in c.initJobs
    ensures Finish(c, R.GetSecret(r)) == Started(c, r)
  {
    var d := c.(secrets := c.secrets[r.OperatorSecretName() := Secret([r.uid])]);
    assert Finish(c, R.CreateJob(r)) == c.(initJobs := c.initJobs[r.name := RepositoryInitJob(r)]);
    assert Finish(d, R.CreateJob(r)) == d.(initJobs := d.initJobs[r.name := RepositoryInitJob(r)]);
  }

  lemma FinishStore(c: Cluster, r: Repository, q: Repository)
    requires RepositoryUnchanged(c, r) && q == r.(conditions := q.conditions)
    ensures Finish(c, R.StoreStatus(r, q)) == WithStatus(c, q)
  {
  }

  lemma FinishDecided(c: Cluster, r: Repository)
    requires RepositoryUnchanged(c, r)
    ensures Finish(c, R.AfterDefaults(r)) == Decided(c, r)
  {
    hide MarkCreated, MarkFailed;
    if !r.IsCreated() && !r.IsFailed() {
      if r.name !in c.initJobs {
        FinishStart(c, r);
      } else {
        FinishStore(c, r, R.WithCreated(r));
        FinishStore(c, r, R.WithFailed(r));
        assert Finish(c, R.ReadLog(r)) == Finish(c, R.StoreStatus(r, R.WithFailed(r)));
      }
    }
  }

  lemma ReconcileHasEffect(c: Cluster, n: string)
    requires RepoIds(c)
    ensures Reconcile(c, n) == Effect(c, n)
  {
    if n in c.repos {
      var r0 := c.repos[n];
      var r := R.WithDefaults(r0);
      FinishDecided(WithStatus(c, r), r);
      if r0.conditions == [] {
        assert UpdateRepositoryStatus(c, r0, r) == Some(WithStatus(c, r));
        assert R.Call(c, R.GetRepo(n), true) == (c, R.DefaultStatus(r0));
        assert R.Call(c, R.DefaultStatus(r0), true) == (WithStatus(c, r), R.AfterDefaults(r));
        assert Finish(c, R.DefaultStatus(r0)) == Finish(WithStatus(c, r), R.AfterDefaults(r));
      } else {
        assert c.repos[n := r0] == c.repos;
        assert WithStatus(c, r) == c;
        assert R.Call(c, R.GetRepo(n), true) == (c, R.AfterDefaults(r0));
        assert Finish(c, R.GetRepo(n)) == Finish(c, R.AfterDefaults(r0));
      }
    } else {
      assert R.Call(c, R.GetRepo(n), true) == (c, R.Idle);
      assert Finish(c, R.Idle) == c;
    }
  }

  // ----- settling -----

  /** A second reconcile right after a first one changes nothing, from every reachable state. */
  lemma RepositoryQuiescence(s: State, n: string)
    requires Reachable(s)
    ensures Reconcile(Reconcile(s.cluster, n), n) == Reconcile(s.cluster, n)
  {
    var c := s.cluster;
    ReachableInv(s);
    assert ReposOk(c.repos, c.initJobs, c.secrets) && RepoIds(c);
    hide Inv, Reachable;
    var d := Effect(c, n);
    ReconcileHasEffect(c, n);
    EffectKeepsIds(c, n);
    ReconcileHasEffect(d, n);
    if n in c.repos { EffectTwice(c, n); }
  }

  /** A reconcile writes at most the status of its repository. */
  lemma EffectOnRepo(c: Cluster, n: string) returns (q: Repository)
    requires RepoIds(c) && n in c.repos
    ensures Effect(c, n).repos == c.repos[n := q] && q == c.repos[n].(conditions := q.conditions)
    ensures q == var r := R.WithDefaults(c.repos[n]);
                 if r.IsCreated() || r.IsFailed() || n !in c.initJobs || c.initJobs[n].FinalCondition().None? then r
                 else if c.initJobs[n].FinalCondition() == Some(JOB_COMPLETE) then R.WithCreated(r)
                 else R.WithFailed(r)
  {
    hide HasTrue, AnyWithStatus, MarkCreated, MarkFailed, RepoIds;
    assert c.repos[n].name == n by { NameIsOwn(c, n); }
    q := DecidedOnRepo(WithStatus(c, R.WithDefaults(c.repos[n])), R.WithDefaults(c.repos[n]));
    assert c.repos[n := R.WithDefaults(c.repos[n])][n := q] == c.repos[n := q];
  }

  lemma NameIsOwn(c: Cluster, n: string)
    requires RepoIds(c) && n in c.repos
    ensures c.repos[n].name == n
  {
  }

  lemma DecidedOnRepo(c: Cluster, r: Repository) returns (q: Repository)
    ensures Decided(c, r).repos == c.repos[r.name := q] || (q == r && Decided(c, r).repos == c.repos)
    ensures q == r.(conditions := q.conditions)
    ensures q == if r.IsCreated() || r.IsFailed() || r.name !in c.initJobs || c.initJobs[r.name].FinalCondition().None? then r
                 else if c.initJobs[r.name].FinalCondition() == Some(JOB_COMPLETE) then R.WithCreated(r)
                 else R.WithFailed(r)
  {
    hide HasTrue, AnyWithStatus, MarkCreated, MarkFailed;
    if r.IsCreated() || r.IsFailed() || r.name !in c.initJobs || c.initJobs[r.name].FinalCondition().None? {
      q := r;
      assert Started(c, r).repos == c.repos;
    } else if c.initJobs[r.name].FinalCondition() == Some(JOB_COMPLETE) {
      q := R.WithCreated(r);
    } else {
      q := R.WithFailed(r);
    }
  }

  lemma EffectKeepsIds(c: Cluster, n: string)
    requires RepoIds(c)
    ensures RepoIds(Effect(c, n))
  {
    if n in c.repos {
      var q := EffectOnRepo(c, n);
      var d := Effect(c, n);
      assert d.nextUid == c.nextUid;
      assert forall m :: m in d.repos ==> m in c.repos && d.repos[m].uid == c.repos[m].uid && d.repos[m].name == c.repos[m].name;
    }
  }

  lemma StartedTwice(c: Cluster, r: Repository)
    requires r.name !in c.initJobs && !r.IsCreated() && !r.IsFailed()
    ensures Decided(Started(c, r), r) == Started(c, r)
  {
  }

  lemma EffectTwice(c: Cluster, n: string)
    requires RepoIds(c) && ReposOk(c.repos, c.initJobs, c.secrets) && n in c.repos
    ensures Effect(Effect(c, n), n) == Effect(c, n)
  {
    hide MarkCreated, MarkFailed, HasTrue, AnyWithStatus;
    var r := R.WithDefaults(c.repos[n]);
    var c1 := WithStatus(c, r);
    var d := Effect(c, n);
    DefaultPhaseIsPhased();
    assert RepoOk(c.initJobs, c.repos[n]);
    Marked(r.conditions);
    NameIsOwn(c, n);
    hide ReposOk, RepoIds;
    var q := EffectOnRepo(c, n);
    assert WithStatus(d, q) == d by { assert d.repos[n := q] == d.repos; }
    assert Effect(d, n) == Decided(d, q);
    if !r.IsCreated() && !r.IsFailed() && n !in c.initJobs {
      assert d == Started(c1, r);
      StartedTwice(c1, r);
    }
  }

  // ----- recovery -----

  /** The init job, if it is still running, finishes one way or the other. */
  function JobDone(c: Cluster, n: string, early: seq<Condition>, ok: bool): Cluster {
    if n in c.initJobs && !c.initJobs[n].Finished() then E.ConcludeInit(c, n, early, ok) else c
  }

  /**
    From every reachable state, and so from whatever a crash at any call left behind: one fault-free
    reconcile, the init job finishing and one more fault-free reconcile bring an existing repository to
    exactly one of Created and Failed, provided its operator secret is absent or owned by it alone.
    It is Created exactly when the init job is complete.
   */
  lemma RepositoryRecovers(s: State, n: string, early: seq<Condition>, ok: bool)
    requires Reachable(s) && n in s.cluster.repos && E.NotFinal(early)
    requires var r := s.cluster.repos[n];
             r.OperatorSecretName() !in s.cluster.secrets || SecretOwned(s.cluster.secrets, r.OperatorSecretName(), r.uid)
    ensures var d := Reconcile(JobDone(Reconcile(s.cluster, n), n, early, ok), n);
            && n in d.repos && d.repos[n].uid == s.cluster.repos[n].uid
            && n in d.initJobs && d.initJobs[n].owner == d.repos[n].uid
            && (d.repos[n].IsCreated() <==> d.initJobs[n].IsComplete())
            && (d.repos[n].IsFailed() <==> d.initJobs[n].IsFailed())
            && (d.repos[n].IsCreated() <==> !d.repos[n].IsFailed())
  {
    var c := s.cluster;
    ReachableInv(s);
    assert ClusterOk(c);
    ClusterRecovers(c, n, early, ok);
  }

  lemma JobDoneKeepsInv(c: Cluster, n: string, early: seq<Condition>, ok: bool)
    requires Inv(State(c, K.Idle, R.Idle)) && E.NotFinal(early)
    ensures Inv(State(JobDone(c, n, early, ok), K.Idle, R.Idle))
  {
    hide Inv;
    var e := E.FinishInitJob(n, early, ok);
    NextKeepsInv(State(c, K.Idle, R.Idle), Environment(e));
    assert E.Happen(c, None, None, e) == JobDone(c, n, early, ok);
  }

  /** A first reconcile leaves the repository with a status, and with its init job if it was not finished. */
  lemma FirstReconcile(c: Cluster, n: string)
    requires Ids(c) && ReposOk(c.repos, c.initJobs, c.secrets) && n in c.repos
    requires c.repos[n].OperatorSecretName() !in c.secrets || SecretOwned(c.secrets, c.repos[n].OperatorSecretName(), c.repos[n].uid)
    ensures var d := Reconcile(c, n); n in d.repos && d.repos[n].uid == c.repos[n].uid && n in d.initJobs
  {
    ReconcileHasEffect(c, n);
    var q := EffectOnRepo(c, n);
    var r := R.WithDefaults(c.repos[n]);
    DefaultPhaseIsPhased();
    assert RepoOk(c.initJobs, c.repos[n]);
    hide MarkCreated, MarkFailed;
    if !r.IsCreated() && !r.IsFailed() && n !in c.initJobs {
      assert Effect(c, n) == Started(WithStatus(c, r), r);
    }
  }

  /** A reconcile with a finished init job leaves the status that the job calls for. */
  lemma LastReconcile(c: Cluster, n: string)
    requires Ids(c) && ReposOk(c.repos, c.initJobs, c.secrets) && n in c.repos && n in c.initJobs && c.initJobs[n].Finished()
    ensures var d := Reconcile(c, n);
            && n in d.repos && d.repos[n].uid == c.repos[n].uid
            && n in d.initJobs && d.initJobs[n].owner == d.repos[n].uid
            && (d.repos[n].IsCreated() <==> d.initJobs[n].IsComplete())
            && (d.repos[n].IsFailed() <==> d.initJobs[n].IsFailed())
            && (d.repos[n].IsCreated() <==> !d.repos[n].IsFailed())
  {
    ReconcileHasEffect(c, n);
    var q := EffectOnRepo(c, n);
    var r := R.WithDefaults(c.repos[n]);
    DefaultPhaseIsPhased();
    assert RepoOk(c.initJobs, c.repos[n]) && InitJobOk(c.repos, c.secrets, n, c.initJobs[n]);
    Marked(r.conditions);
    FinalConditionMeans(c.initJobs[n]);
    hide MarkCreated, MarkFailed, ReposOk;
    assert Effect(c, n).initJobs == c.initJobs;
  }

  lemma ClusterRecovers(c: Cluster, n: string, early: seq<Condition>, ok: bool)
    requires ClusterOk(c) && n in c.repos && E.NotFinal(early)
    requires c.repos[n].OperatorSecretName() !in c.secrets || SecretOwned(c.secrets, c.repos[n].OperatorSecretName(), c.repos[n].uid)
    ensures var d := Reconcile(JobDone(Reconcile(c, n), n, early, ok), n);
            && n in d.repos && d.repos[n].uid == c.repos[n].uid
            && n in d.initJobs && d.initJobs[n].owner == d.repos[n].uid
            && (d.repos[n].IsCreated() <==> d.initJobs[n].IsComplete())
            && (d.repos[n].IsFailed() <==> d.initJobs[n].IsFailed())
            && (d.repos[n].IsCreated() <==> !d.repos[n].IsFailed())
  {
    var e := JobDone(Reconcile(c, n), n, early, ok);
    JobFinished(c, n, early, ok);
    hide Reconcile, JobDone, KeysOk, JobsOk, BackendOk, ReposOk, Ids;
    LastReconcile(e, n);
  }

  lemma JobFinished(c: Cluster, n: string, early: seq<Condition>, ok: bool)
    requires ClusterOk(c) && n in c.repos && E.NotFinal(early)
    requires c.repos[n].OperatorSecretName() !in c.secrets || SecretOwned(c.secrets, c.repos[n].OperatorSecretName(), c.repos[n].uid)
    ensures var e := JobDone(Reconcile(c, n), n, early, ok);
            && Ids(e) && ReposOk(e.repos, e.initJobs, e.secrets)
            && n in e.repos && e.repos[n].uid == c.repos[n].uid && n in e.initJobs && e.initJobs[n].Finished()
  {
    var d := Reconcile(c, n);
    FirstReconcile(c, n);
    assert Inv(State(c, K.Idle, R.GetRepo(n)));
    hide KeysOk, JobsOk, BackendOk, ReposOk, Ids, Reconcile;
    ReconcileKeepsInv(c, n, K.Idle);
    JobDoneKeepsInv(d, n, early, ok);
    if !d.initJobs[n].Finished() { EnvironmentSteps.Concluded(d.initJobs[n], early, if ok then JOB_COMPLETE else JOB_FAILED); }
  }

  /** With a foreign operator secret the two reconciles change nothing beyond the default status. */
  lemma ForeignSecretBlocks(c: Cluster, n: string, early: seq<Condition>, ok: bool)
    requires ClusterOk(c) && n in c.repos
    requires c.repos[n].OperatorSecretName() in c.secrets
    requires !SecretOwned(c.secrets, c.repos[n].OperatorSecretName(), c.repos[n].uid)
    ensures var d := Reconcile(JobDone(Reconcile(c, n), n, early, ok), n);
            n in d.repos && n !in d.initJobs && !d.repos[n].IsCreated() && !d.repos[n].IsFailed()
  {
    var r := R.WithDefaults(c.repos[n]);
    assert n in c.initJobs ==> InitJobOk(c.repos, c.secrets, n, c.initJobs[n]);
    assert RepoOk(c.initJobs, c.repos[n]);
    DefaultPhaseIsPhased();
    hide MarkCreated, MarkFailed, KeysOk, JobsOk, BackendOk, ReposOk;
    var d := Reconcile(c, n);
    ReconcileHasEffect(c, n);
    assert d == WithStatus(c, r);
    assert JobDone(d, n, early, ok) == d;
    ReconcileHasEffect(d, n);
    assert Effect(d, n) == Started(WithStatus(d, r), r) == WithStatus(d, r);
  }

  /** Hence the two reconciles end in Created or Failed exactly when the operator secret is absent or the repository's own. */
  lemma RecoversExactlyWithOwnSecret(s: State, n: string, early: seq<Condition>, ok: bool)
    requires Reachable(s) && n in s.cluster.repos && E.NotFinal(early)
    ensures var r, d := s.cluster.repos[n], Reconcile(JobDone(Reconcile(s.cluster, n), n, early, ok), n);
            && n in d.repos
            && ((d.repos[n].IsCreated() || d.repos[n].IsFailed()) <==>
                (r.OperatorSecretName() !in s.cluster.secrets || SecretOwned(s.cluster.secrets, r.OperatorSecretName(), r.uid)))
  {
    var c := s.cluster;
    var r := c.repos[n];
    if r.OperatorSecretName() !in c.secrets || SecretOwned(c.secrets, r.OperatorSecretName(), r.uid) {
      RepositoryRecovers(s, n, early, ok);
    } else {
      ReachableInv(s);
      ForeignSecretBlocks(c, n, early, ok);
    }
  }
}
