/** The repository controller, one API call per step. */
module RepositoryController {
  import opened Options
  import opened Conditions
  import opened Resources
  import opened Results
  import opened ApiServer

  datatype Pc =
    | Idle
    | GetRepo(name: string)
    | DefaultStatus(repo: Repository)
    | GetJob(repo: Repository)
    | ReadLog(repo: Repository)
    | StoreStatus(repo: Repository, updated: Repository)
    | GetSecret(repo: Repository)
    | CreateSecret(repo: Repository)
    | CreateJob(repo: Repository)

  function Busy(pc: Pc): Option<string> {
    if pc.Idle? then None else if pc.GetRepo? then Some(pc.name) else Some(pc.repo.name)
  }

  function WithDefaults(repo: Repository): Repository {
    repo.(conditions := if repo.conditions == [] then DEFAULT_PHASE else repo.conditions)
  }

  function WithCreated(repo: Repository): Repository {
    repo.(conditions := MarkCreated(repo.conditions))
  }

  function WithFailed(repo: Repository): Repository {
    repo.(conditions := MarkFailed(repo.conditions))
  }

  function AfterDefaults(repo: Repository): Pc {
    if repo.IsCreated() || repo.IsFailed() then Idle else GetJob(repo)
  }

  /** The log of a failed job is read before the status is written. */
  function AfterGetJob(repo: Repository, job: Job): Pc {
    if job.FinalCondition().None? then Idle
    else if job.FinalCondition() == Some(JOB_COMPLETE) then StoreStatus(repo, WithCreated(repo))
    else ReadLog(repo)
  }

  function AfterGetSecret(c: Cluster, repo: Repository): Pc {
    if repo.OperatorSecretName() !in c.secrets then CreateSecret(repo)
    else if c.secrets[repo.OperatorSecretName()].owners == [repo.uid] then CreateJob(repo)
    else Idle
  }

  function Call(c: Cluster, pc: Pc, ok: bool): (Cluster, Pc) {
    if !ok then (c, Idle)
    else match pc
      case Idle => (c, Idle)
      case GetRepo(name) =>
        if name !in c.repos then (c, Idle)
        else if c.repos[name].conditions == [] then (c, DefaultStatus(c.repos[name]))
        else (c, AfterDefaults(c.repos[name]))
      case DefaultStatus(repo) =>
        (match UpdateRepositoryStatus(c, repo, WithDefaults(repo))
         case Some(c') => (c', AfterDefaults(WithDefaults(repo)))
         case None => (c, Idle))
      case GetJob(repo) =>
        if repo.name in c.initJobs then (c, AfterGetJob(repo, c.initJobs[repo.name])) else (c, GetSecret(repo))
      case ReadLog(repo) => (c, StoreStatus(repo, WithFailed(repo)))
      case StoreStatus(repo, updated) =>
        (match UpdateRepositoryStatus(c, repo, updated)
         case Some(c') => (c', Idle)
         case None => (c, Idle))
      case GetSecret(repo) => (c, AfterGetSecret(c, repo))
      case CreateSecret(repo) =>
        (match ApiServer.CreateSecret(c, repo.OperatorSecretName(), Secret([repo.uid]))
         case Some(c') => (c', CreateJob(repo))
         case None => (c, Idle))
      case CreateJob(repo) =>
        // an existing job is not an error here
        (match CreateInitJob(c, RepositoryInitJob(repo))
         case Some(c') => (c', Idle)
         case None => (c, Idle))
  }

  /** How a reconcile ends that has nothing more to call; an existing init job is no error. */
  function Ending(c: Cluster, pc: Pc, ok: bool): Result {
    if !ok then Error
    else match pc
      case DefaultStatus(repo) => if UpdateRepositoryStatus(c, repo, WithDefaults(repo)).Some? then Done else Error
      case StoreStatus(repo, updated) => if UpdateRepositoryStatus(c, repo, updated).Some? then Done else Error
      case GetSecret(_) => Error
      case CreateSecret(_) => Error
      case _ => Done
  }

  function Rank(pc: Pc): nat {
    match pc
    case Idle => 0
    case GetRepo(_) => 6
    case DefaultStatus(_) => 5
    case GetJob(_) => 4
    case GetSecret(_) => 3
    case CreateSecret(_) => 2
    case CreateJob(_) => 1
    case ReadLog(_) => 2
    case StoreStatus(_, _) => 1
  }

  lemma CallDescends(c: Cluster, pc: Pc, ok: bool)
    requires !pc.Idle?
    ensures Rank(Call(c, pc, ok).1) < Rank(pc)
  {
  }

  /** What a call leaves alone. */
  ghost predicate Frame(c: Cluster, pc: Pc, d: Cluster) {
    && d.keys == c.keys && d.gone == c.gone && d.jobs == c.jobs && d.backend == c.backend && d.nextUid == c.nextUid
    && (!pc.DefaultStatus? && !pc.StoreStatus? ==> d.repos == c.repos)
    && (pc.DefaultStatus? || pc.StoreStatus? ==> d == c || (pc.repo.name in c.repos && c.repos[pc.repo.name] == pc.repo))
    && (!pc.CreateSecret? ==> d.secrets == c.secrets)
    && (!pc.CreateJob? ==> d.initJobs == c.initJobs)
  }

  lemma CallFrame(c: Cluster, pc: Pc, ok: bool)
    ensures Frame(c, pc, Call(c, pc, ok).0)
  {
    var d := Call(c, pc, ok).0;
    if d != c {
      match pc
      case DefaultStatus(repo) => assert Some(d) == UpdateRepositoryStatus(c, repo, WithDefaults(repo));
      case StoreStatus(repo, updated) => assert Some(d) == UpdateRepositoryStatus(c, repo, updated);
      case CreateSecret(repo) => assert Some(d) == ApiServer.CreateSecret(c, repo.OperatorSecretName(), Secret([repo.uid]));
      case CreateJob(repo) => assert Some(d) == CreateInitJob(c, RepositoryInitJob(repo));
    }
  }
}
