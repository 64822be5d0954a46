/** Jobs are never forgotten, and which call creates them. */
module JobOrigins {
  import opened Resources
  import opened ApiServer
  import opened Operator
  import opened Invariant
  import E = Environment
  import K = KeyController
  import R = RepositoryController
  import EnvironmentSteps
  import KeySteps
  import Homes

  predicate CreatesAdd(s: State, a: Action, u: nat) {
    a.KeyCall? && s.key.CreateAddJob? && s.key.key.uid == u
  }

  predicate CreatesDelete(s: State, a: Action, u: nat) {
    a.KeyCall? && s.key.CreateDeleteJob? && s.key.key.uid == u
  }

  /** Jobs are never forgotten, and only the call that creates one adds to those of its kind. */
  ghost predicate JobsFrom(s: State, a: Action, u: nat) {
    var jobs, jobs' := s.cluster.jobs, Next(s, a).cluster.jobs;
    && (forall j :: AddJobOf(jobs, j, u) ==> AddJobOf(jobs', j, u))
    && (!CreatesAdd(s, a, u) ==> forall j :: AddJobOf(jobs', j, u) ==> AddJobOf(jobs, j, u))
    && (!CreatesDelete(s, a, u) ==> forall j :: DeleteJobOf(jobs', j, u) ==> DeleteJobOf(jobs, j, u))
  }

  lemma SameJobsFrom(s: State, a: Action, u: nat)
    requires Next(s, a).cluster.jobs == s.cluster.jobs
    ensures JobsFrom(s, a, u)
  {
    hide Next;
  }

  lemma EventJobsFrom(s: State, e: E.Event, u: nat)
    requires Inv(s)
    ensures JobsFrom(s, Environment(e), u)
  {
    hide Inv, E.Happen, JobsFrom, JobsOk, BackendOk, ClusterOk, KeyPcOk, KeyIds, JobIds, EnvironmentSteps.JobEvolves;
    var c := s.cluster;
    E.HappenFrame(c, K.Busy(s.key), R.Busy(s.repo), e);
    if E.OnKeyJobs(e) {
      Homes.InvMeans(s);
      JobEventJobsFrom(s, e, u);
    } else {
      SameJobsFrom(s, Environment(e), u);
    }
  }

  lemma JobEventJobsFrom(s: State, e: E.Event, u: nat)
    requires E.OnKeyJobs(e) && JobsOk(s.cluster) && BackendOk(s.cluster.jobs, s.cluster.backend)
    ensures JobsFrom(s, Environment(e), u)
  {
    hide JobsOk, BackendOk, E.KeyJobEvent, EnvironmentSteps.JobEvolves, EnvironmentSteps.BackendEvolves;
    var c, d := s.cluster, E.KeyJobEvent(s.cluster, e);
    if d != c {
      var j := Homes.KeyJobEventEvolves(c, e);
      EnvironmentSteps.JobEvolvesSameOwners(c, d, j);
    }
  }

  lemma CallJobsFrom(s: State, outcome: K.Outcome, u: nat)
    requires JobIds(s.cluster)
    ensures JobsFrom(s, KeyCall(outcome), u)
  {
    hide JobIds, JobsFrom, K.Call;
    var c, pc, d := s.cluster, s.key, Next(s, KeyCall(outcome)).cluster;
    K.CallFrame(c, pc, outcome);
    if d.jobs == c.jobs {
      SameJobsFrom(s, KeyCall(outcome), u);
    } else {
      var job := CreatedJob(c, pc, outcome);
      KeySteps.NewJobOf(c, job, u);
      NewJobsFrom(s, outcome, job, u);
    }
  }

  lemma CreatedJob(c: Cluster, pc: K.Pc, outcome: K.Outcome) returns (job: Job)
    requires (pc.CreateAddJob? || pc.CreateDeleteJob?) && K.Call(c, pc, outcome).0 != c
    ensures K.Call(c, pc, outcome).0 == CreateKeyJob(c, job) && job.owner == pc.key.uid
    ensures pc.CreateAddJob? ==> job.IsAdd()
    ensures pc.CreateDeleteJob? ==> job.IsDelete()
  {
    job := if pc.CreateAddJob? then AddKeyJob(pc.repo, pc.key) else DeleteKeyJob(pc.repo, pc.key).value;
  }

  lemma NewJobsFrom(s: State, outcome: K.Outcome, job: Job, u: nat)
    requires (s.key.CreateAddJob? && job.IsAdd()) || (s.key.CreateDeleteJob? && job.IsDelete())
    requires job.owner == s.key.key.uid && Next(s, KeyCall(outcome)).cluster == CreateKeyJob(s.cluster, job)
    requires var jobs := CreateKeyJob(s.cluster, job).jobs;
             && (forall j :: AddJobOf(jobs, j, u) <==>
                   AddJobOf(s.cluster.jobs, j, u) || (j == s.cluster.nextUid && job.owner == u && job.IsAdd()))
             && (forall j :: DeleteJobOf(jobs, j, u) <==>
                   DeleteJobOf(s.cluster.jobs, j, u) || (j == s.cluster.nextUid && job.owner == u && job.IsDelete()))
    ensures JobsFrom(s, KeyCall(outcome), u)
  {
    hide Next, CreateKeyJob, AddJobOf, DeleteJobOf;
  }

  lemma StepJobsFrom(s: State, a: Action, u: nat)
    requires Inv(s)
    ensures JobsFrom(s, a, u)
  {
    hide Inv, JobsFrom, K.Call, R.Call, E.Happen, ClusterOk, KeyIds, JobIds, JobsOk, KeyPcOk, BackendOk;
    match a
    case Environment(e) => EventJobsFrom(s, e, u);
    case KeyCall(outcome) =>
      Homes.InvMeans(s);
      CallJobsFrom(s, outcome, u);
    case RepositoryCall(ok) =>
      R.CallFrame(s.cluster, s.repo, ok);
      SameJobsFrom(s, a, u);
    case _ => SameJobsFrom(s, a, u);
  }
}
