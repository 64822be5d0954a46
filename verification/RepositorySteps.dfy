/** Every call of the repository controller keeps the invariant. */
module RepositorySteps {
  import opened Options
  import opened Conditions
  import opened Resources
  import opened ApiServer
  import opened Operator
  import opened Invariant
  import opened EnvironmentSteps
  import K = KeyController
  import R = RepositoryController

  /** Marking a phased list keeps it phased, with just that phase. */
  lemma Marked(cs: seq<Condition>)
    requires Phased(cs)
    ensures Phased(MarkCreated(cs)) && HasTrue(MarkCreated(cs), CREATED) && !HasTrue(MarkCreated(cs), FAILED)
    ensures Phased(MarkFailed(cs)) && HasTrue(MarkFailed(cs), FAILED) && !HasTrue(MarkFailed(cs), CREATED)
  {
    SettersOrderEntries(cs);
  }

  /** Calls that only read. */
  lemma ReadKeeps(c: Cluster, pc: R.Pc)
    requires RepositorySide(c, pc) && (pc.GetRepo? || pc.GetJob? || pc.ReadLog? || pc.GetSecret?)
    ensures var (d, pc') := R.Call(c, pc, true); d == c && RepoPcOk(c, pc')
  {
    if pc.GetRepo? && pc.name in c.repos {
      assert RepoOk(c.initJobs, c.repos[pc.name]);
    }
    if pc.GetJob? && pc.repo.name in c.initJobs {
      assert InitJobOk(c.repos, c.secrets, pc.repo.name, c.initJobs[pc.repo.name]);
      FinalConditionMeans(c.initJobs[pc.repo.name]);
    }
  }

  lemma FinalConditionMeans(job: Job)
    requires !(job.IsComplete() && job.IsFailed())
    ensures job.FinalCondition() == Some(JOB_COMPLETE) <==> job.IsComplete()
    ensures job.FinalCondition() == Some(JOB_FAILED) <==> job.IsFailed()
    ensures job.FinalCondition().None? <==> !job.Finished()
  {
    HasTrueMeans(job.conditions, JOB_COMPLETE);
    HasTrueMeans(job.conditions, JOB_FAILED);
    AnyWithStatusIsFirst(job.conditions, ConditionTrue, [JOB_COMPLETE, JOB_FAILED]);
  }

  lemma StatusKeepsSide(c: Cluster, repo: Repository, sent: Repository, pc: R.Pc)
    requires RepoIds(c) && ReposOk(c.repos, c.initJobs, c.secrets) && RepositoryUnchanged(c, repo)
    requires RepoOk(c.initJobs, repo.(conditions := sent.conditions))
    requires pc.Idle? || (pc.GetJob? && pc.repo == repo.(conditions := sent.conditions)
                          && sent.conditions != [] && !pc.repo.IsCreated() && !pc.repo.IsFailed())
    ensures RepositorySide(UpdateRepositoryStatus(c, repo, sent).value, pc)
  {
    hide HasTrue, Phase, ReposOk;
    var d := UpdateRepositoryStatus(c, repo, sent).value;
    StatusKeepsRepos(c, repo.(conditions := sent.conditions));
  }

  lemma StatusKeepsRepos(c: Cluster, r: Repository)
    requires ReposOk(c.repos, c.initJobs, c.secrets) && RepoOk(c.initJobs, r)
    requires r.name in c.repos && r == c.repos[r.name].(conditions := r.conditions)
    ensures ReposOk(c.repos[r.name := r], c.initJobs, c.secrets)
  {
    hide HasTrue, RepoOk;
    forall n | n in c.initJobs ensures InitJobOk(c.repos[r.name := r], c.secrets, n, c.initJobs[n]) {
      assert InitJobOk(c.repos, c.secrets, n, c.initJobs[n]);
    }
  }

  lemma StatusEvolves(c: Cluster, repo: Repository, sent: Repository)
    requires RepositoryUnchanged(c, repo) && !repo.IsCreated()
    ensures ReposEvolve(c, UpdateRepositoryStatus(c, repo, sent).value)
  {
  }

  lemma StatusKeeps(c: Cluster, repo: Repository, sent: Repository, pc: R.Pc)
    requires RepoIds(c) && ReposOk(c.repos, c.initJobs, c.secrets) && RepositoryUnchanged(c, repo)
    requires RepoOk(c.initJobs, repo.(conditions := sent.conditions)) && !repo.IsCreated()
    requires pc.Idle? || (pc.GetJob? && pc.repo == repo.(conditions := sent.conditions)
                          && sent.conditions != [] && !pc.repo.IsCreated() && !pc.repo.IsFailed())
    ensures RepositorySide(UpdateRepositoryStatus(c, repo, sent).value, pc)
    ensures ReposEvolve(c, UpdateRepositoryStatus(c, repo, sent).value)
  {
    hide RepositorySide, ReposEvolve, ReposOk, RepoIds, RepoOk;
    StatusKeepsSide(c, repo, sent, pc);
    StatusEvolves(c, repo, sent);
  }

  lemma InitJobCreated(c: Cluster, repo: Repository)
    requires RepositorySide(c, R.CreateJob(repo)) && repo.name !in c.initJobs
    ensures RepositorySide(c.(initJobs := c.initJobs[repo.name := RepositoryInitJob(repo)]), R.Idle)
  {
    var d := c.(initJobs := c.initJobs[repo.name := RepositoryInitJob(repo)]);
    forall n | n in d.initJobs ensures InitJobOk(d.repos, d.secrets, n, d.initJobs[n]) {
      assert n != repo.name ==> InitJobOk(c.repos, c.secrets, n, c.initJobs[n]);
    }
    forall n | n in d.repos ensures RepoOk(d.initJobs, d.repos[n]) {
      assert RepoOk(c.initJobs, c.repos[n]);
    }
  }

  lemma DefaultStatusKeeps(s: State)
    requires Inv(s) && s.repo.DefaultStatus?
    ensures Inv(Next(s, RepositoryCall(true)))
  {
    hide KeysOk, JobsOk, BackendOk, KeyPcOk;
    var c, repo := s.cluster, s.repo.repo;
    DefaultPhaseIsPhased();
    if RepositoryUnchanged(c, repo) {
      var sent := R.WithDefaults(repo);
      StatusKeeps(c, repo, sent, R.AfterDefaults(sent));
      var d := UpdateRepositoryStatus(c, repo, sent).value;
      RepositoryEvent(c, d, s.key, R.AfterDefaults(sent));
    }
  }

  lemma StoredIsOk(c: Cluster, pc: R.Pc)
    requires pc.StoreStatus? && RepoPcOk(c, pc) && RepositoryUnchanged(c, pc.repo)
    ensures RepoOk(c.initJobs, pc.repo.(conditions := pc.updated.conditions))
  {
    Marked(pc.repo.conditions);
  }

  lemma StatusWritten(c: Cluster, repo: Repository, sent: Repository, key: K.Pc)
    requires ClusterOk(c) && KeyPcOk(c, key) && RepositoryUnchanged(c, repo)
    requires RepoOk(c.initJobs, repo.(conditions := sent.conditions)) && !repo.IsCreated()
    ensures Inv(State(UpdateRepositoryStatus(c, repo, sent).value, key, R.Idle))
  {
    StatusKeeps(c, repo, sent, R.Idle);
    RepositoryEvent(c, UpdateRepositoryStatus(c, repo, sent).value, key, R.Idle);
  }

  lemma StoreStatusKeeps(s: State)
    requires Inv(s) && s.repo.StoreStatus?
    ensures Inv(Next(s, RepositoryCall(true)))
  {
    hide KeysOk, JobsOk, BackendOk, ReposOk, Ids, KeyPcOk;
    if RepositoryUnchanged(s.cluster, s.repo.repo) {
      StoredIsOk(s.cluster, s.repo);
      StatusWritten(s.cluster, s.repo.repo, s.repo.updated, s.key);
    }
  }

  lemma CreateSecretKeeps(s: State)
    requires Inv(s) && s.repo.CreateSecret?
    ensures Inv(Next(s, RepositoryCall(true)))
  {
    hide HasTrue, KeyPcOk, KeysOk, JobsOk, BackendOk;
    var c, repo := s.cluster, s.repo.repo;
    var made := ApiServer.CreateSecret(c, repo.OperatorSecretName(), Secret([repo.uid]));
    if made.Some? {
      SecretEvent(c, made.value, s.key, s.repo);
      assert RepoPcOk(made.value, R.CreateJob(repo));
    }
  }

  lemma CreateJobKeeps(s: State)
    requires Inv(s) && s.repo.CreateJob?
    ensures Inv(Next(s, RepositoryCall(true)))
  {
    hide HasTrue, InitJobOk, KeyPcOk, KeysOk, JobsOk, BackendOk;
    var c, repo := s.cluster, s.repo.repo;
    if repo.name !in c.initJobs {
      InitJobCreated(c, repo);
      InitJobEvent(c, c.(initJobs := c.initJobs[repo.name := RepositoryInitJob(repo)]), s.key, R.Idle);
    }
  }

  lemma CallKeepsInv(s: State, ok: bool)
    requires Inv(s)
    ensures Inv(Next(s, RepositoryCall(ok)))
  {
    hide KeysOk, JobsOk, BackendOk, KeyPcOk;
    if !ok || s.repo.Idle? {
    } else if s.repo.DefaultStatus? {
      DefaultStatusKeeps(s);
    } else if s.repo.StoreStatus? {
      StoreStatusKeeps(s);
    } else if s.repo.CreateSecret? {
      CreateSecretKeeps(s);
    } else if s.repo.CreateJob? {
      CreateJobKeeps(s);
    } else {
      ReadKeeps(s.cluster, s.repo);
    }
  }
}
