/**
  The key controller as a machine that makes one API call per step. A program counter names the next
  call and holds the objects read so far.
 */
module KeyController {
  import opened Options
  import opened Conditions
  import opened KeyLog
  import opened Resources
  import opened Results
  import opened ApiServer

  datatype DropReason = RepoGone | RepoDeleting | KeyRemoved

  datatype Pc =
    | Idle
    | GetKey(name: string)
    | GetRepo(key: Key)
    | DefaultStatus(key: Key, repo: Repository)
    | SetMetadata(key: Key, repo: Repository)
    | ListJobs(key: Key, repo: Repository)
    | GetSecret(key: Key, repo: Repository)
    | CreateSecret(key: Key, repo: Repository)
    | CreateAddJob(key: Key, repo: Repository)
    | CreateDeleteJob(key: Key, repo: Repository)
    | ReadLog(key: Key, job: Job)
    | ReadRemovalLog(key: Key)
    | StoreStatus(key: Key, updated: Key)
    | DropFinalizer(key: Key, reason: DropReason)

  /** The result of one API call: an error, or success; a list call returns the jobs in the given order. */
  datatype Outcome = Failure | Success(order: seq<nat>)

  /** The name of the key that is being reconciled. */
  function Busy(pc: Pc): Option<string> {
    if pc.Idle? then None else if pc.GetKey? then Some(pc.name) else Some(pc.key.name)
  }

  // ----- what Reconcile decides between its calls -----

  function WithDefaults(key: Key): Key {
    key.(conditions := if key.conditions == [] then DEFAULT_PHASE else key.conditions)
  }

  function WithMetadata(key: Key, repo: Repository): Key {
    key.(controller := Some(ReferenceTo(repo)), repositoryLabel := Some(key.spec.repository), finalizer := true, carried := true)
  }

  function WithCreated(key: Key, id: string): Key {
    key.(conditions := MarkCreated(key.conditions), keyID := Some(id))
  }

  function WithFailed(key: Key): Key {
    key.(conditions := MarkFailed(key.conditions))
  }

  /** A controller reference to another object cannot be replaced. */
  predicate OwnedByAnother(key: Key, repo: Repository) {
    key.controller.Some? && !RefersTo(key.controller.value, repo)
  }

  function FirstJob(jobs: seq<Job>, op: Operation): (r: Option<Job>)
    ensures r.None? <==> forall j :: j in jobs ==> j.operation != Some(op)
    ensures r.Some? ==> r.value in jobs && r.value.operation == Some(op)
  {
    if jobs == [] then None
    else if jobs[0].operation == Some(op) then Some(jobs[0])
    else
      assert jobs == [jobs[0]] + jobs[1..];
      FirstJob(jobs[1..], op)
  }

  /** It is the first one listed. */
  lemma {:induction false} FirstJobIsFirst(jobs: seq<Job>, op: Operation)
    ensures FirstJob(jobs, op).Some? ==>
              exists i: nat :: i < |jobs| && jobs[i] == FirstJob(jobs, op).value && jobs[i].operation == Some(op)
                               && forall h :: 0 <= h < i ==> jobs[h].operation != Some(op)
    ensures FirstJob(jobs, op).None? <==> forall job :: job in jobs ==> job.operation != Some(op)
  {
    if FirstJob(jobs, op).Some? && jobs[0].operation != Some(op) {
      FirstJobIsFirst(jobs[1..], op);
      var i: nat :| i < |jobs[1..]| && jobs[1..][i] == FirstJob(jobs, op).value
                    && forall h :: 0 <= h < i ==> jobs[1..][h].operation != Some(op);
      assert jobs[i + 1] == FirstJob(jobs, op).value;
      forall h | 0 <= h < i + 1 ensures jobs[h].operation != Some(op) {
        if h > 0 { assert jobs[h] == jobs[1..][h - 1]; }
      }
    }
  }

  function AfterGetRepo(key: Key, repo: Repository): Pc {
    if key.conditions == [] then DefaultStatus(key, repo) else ListJobs(key, repo)
  }

  /** The log of a failed delete job is read to be reported. */
  function AfterRemoval(key: Key, job: Job): Pc {
    if job.FinalCondition() == Some(JOB_COMPLETE) then DropFinalizer(key, KeyRemoved)
    else if job.FinalCondition() == Some(JOB_FAILED) then ReadRemovalLog(key)
    else Idle
  }

  function OnDeletion(key: Key, repo: Repository, jobs: seq<Job>): Pc {
    if repo.deleting then DropFinalizer(key, RepoDeleting)
    else match FirstJob(jobs, DeleteKey)
      case Some(job) => AfterRemoval(key, job)
      case None => if DeleteKeyJob(repo, key).Some? then CreateDeleteJob(key, repo) else Idle
  }

  function OnFinishedJobs(key: Key, jobs: seq<Job>): Pc {
    match FirstJob(jobs, AddKey)
    case Some(job) => if job.FinalCondition().Some? then ReadLog(key, job) else Idle
    case None => Idle
  }

  function AfterListJobs(key: Key, repo: Repository, jobs: seq<Job>): Pc {
    if key.deleting then OnDeletion(key, repo, jobs)
    else if key.IsCreated() || key.IsFailed() then Idle
    else if jobs == [] then if repo.IsCreated() then GetSecret(key, repo) else Idle
    else if exists job :: job in jobs && job.IsComplete() then OnFinishedJobs(key, jobs)
    else Idle
  }

  /** Idle where indexing the submatches panics. */
  function AfterReadLog(key: Key, job: Job): Pc {
    if job.FinalCondition() == Some(JOB_COMPLETE) then
      match ExtractKeyID(job.log)
      case Some(id) => StoreStatus(key, WithCreated(key, id))
      case None => Idle
    else StoreStatus(key, WithFailed(key))
  }

  function AfterGetSecret(c: Cluster, key: Key, repo: Repository): Pc {
    if key.SecretName() !in c.secrets then CreateSecret(key, repo)
    else if c.secrets[key.SecretName()].owners == [key.uid] then CreateAddJob(key, repo)
    else Idle
  }

  // ----- one call -----

  function Call(c: Cluster, pc: Pc, outcome: Outcome): (Cluster, Pc) {
    if outcome.Failure? then (c, Idle)
    else match pc
      case Idle => (c, Idle)
      case GetKey(name) => if name in c.keys then (c, GetRepo(c.keys[name])) else (c, Idle)
      case GetRepo(key) =>
        if key.spec.repository in c.repos then (c, AfterGetRepo(key, c.repos[key.spec.repository]))
        else if key.deleting then (c, DropFinalizer(key, RepoGone))
        else (c, Idle)
      case DefaultStatus(key, repo) =>
        (match UpdateKeyStatus(c, key, WithDefaults(key))
         case Some(c') => (c', if OwnedByAnother(key, repo) then Idle else SetMetadata(WithDefaults(key), repo))
         case None => (c, Idle))
      case SetMetadata(key, repo) =>
        (match UpdateKey(c, key, WithMetadata(key, repo))
         case Some(c') => (c', ListJobs(WithMetadata(key, repo), repo))
         case None => (c, Idle))
      case ListJobs(key, repo) =>
        if IsListing(c.jobs, key.name, outcome.order) then (c, AfterListJobs(key, repo, Fetch(c.jobs, outcome.order)))
        else (c, Idle)
      case GetSecret(key, repo) => (c, AfterGetSecret(c, key, repo))
      case CreateSecret(key, repo) =>
        (match ApiServer.CreateSecret(c, key.SecretName(), Secret([key.uid]))
         case Some(c') => (c', CreateAddJob(key, repo))
         case None => (c, Idle))
      case CreateAddJob(key, repo) => (CreateKeyJob(c, AddKeyJob(repo, key)), Idle)
      case CreateDeleteJob(key, repo) =>
        (match DeleteKeyJob(repo, key)
         case Some(job) => (CreateKeyJob(c, job), Idle)
         case None => (c, Idle))
      case ReadLog(key, job) => (c, AfterReadLog(key, job))
      case ReadRemovalLog(_) => (c, Idle)
      case StoreStatus(key, updated) =>
        (match UpdateKeyStatus(c, key, updated)
         case Some(c') => (c', Idle)
         case None => (c, Idle))
      case DropFinalizer(key, _) =>
        (match UpdateKey(c, key, key.(finalizer := false))
         case Some(c') => (c', Idle)
         case None => (c, Idle))
  }

  // ----- how a reconcile ends that has nothing more to call -----

  function DeletionEnding(jobs: seq<Job>): Result {
    if FirstJob(jobs, DeleteKey).Some? then Done else Error
  }

  function ListingEnding(key: Key, jobs: seq<Job>): Result {
    if key.deleting then DeletionEnding(jobs)
    else if !key.IsCreated() && !key.IsFailed() && jobs == [] then Requeue
    else Done
  }

  function Ending(c: Cluster, pc: Pc, outcome: Outcome): Result {
    if outcome.Failure? then Error
    else match pc
      case Idle => Done
      case GetKey(_) => Done
      case GetRepo(_) => Requeue
      case ListJobs(key, _) =>
        if IsListing(c.jobs, key.name, outcome.order) then ListingEnding(key, Fetch(c.jobs, outcome.order)) else Error
      case CreateAddJob(_, _) => Done
      case CreateDeleteJob(key, repo) => if DeleteKeyJob(repo, key).Some? then Done else Error
      case ReadRemovalLog(_) => Done
      case StoreStatus(key, updated) => if UpdateKeyStatus(c, key, updated).Some? then Done else Error
      case DropFinalizer(key, _) => if UpdateKey(c, key, key.(finalizer := false)).Some? then Done else Error
      case _ => Error
  }

  /** A bound on the calls that remain. */
  function Rank(pc: Pc): nat {
    match pc
    case Idle => 0
    case GetKey(_) => 9
    case GetRepo(_) => 8
    case DefaultStatus(_, _) => 7
    case SetMetadata(_, _) => 6
    case ListJobs(_, _) => 5
    case GetSecret(_, _) => 4
    case CreateSecret(_, _) => 3
    case CreateAddJob(_, _) => 2
    case CreateDeleteJob(_, _) => 2
    case ReadLog(_, _) => 2
    case ReadRemovalLog(_) => 1
    case StoreStatus(_, _) => 1
    case DropFinalizer(_, _) => 1
  }

  lemma CallDescends(c: Cluster, pc: Pc, outcome: Outcome)
    requires !pc.Idle?
    ensures Rank(Call(c, pc, outcome).1) < Rank(pc)
  {
  }

  predicate WritesKey(pc: Pc) {
    pc.DefaultStatus? || pc.SetMetadata? || pc.StoreStatus? || pc.DropFinalizer?
  }

  /** What a call leaves alone. */
  ghost predicate Frame(c: Cluster, pc: Pc, d: Cluster) {
    && d.repos == c.repos && d.initJobs == c.initJobs && d.backend == c.backend && c.nextUid <= d.nextUid
    && (!WritesKey(pc) ==> d.keys == c.keys && d.gone == c.gone)
    && (WritesKey(pc) ==> d == c || (pc.key.name in c.keys && c.keys[pc.key.name] == pc.key))
    && (!pc.CreateSecret? ==> d.secrets == c.secrets)
    && (!pc.CreateAddJob? && !pc.CreateDeleteJob? ==> d.jobs == c.jobs && d.nextUid == c.nextUid)
  }

  lemma CallFrame(c: Cluster, pc: Pc, outcome: Outcome)
    ensures Frame(c, pc, Call(c, pc, outcome).0)
  {
    hide AfterGetRepo, AfterGetSecret, AfterListJobs, AfterReadLog, AfterRemoval, OwnedByAnother;
    var d := Call(c, pc, outcome).0;
    if d != c {
      match pc
      case DefaultStatus(key, repo) => assert Some(d) == UpdateKeyStatus(c, key, WithDefaults(key));
      case SetMetadata(key, repo) => assert Some(d) == UpdateKey(c, key, WithMetadata(key, repo));
      case CreateSecret(key, repo) => assert Some(d) == ApiServer.CreateSecret(c, key.SecretName(), Secret([key.uid]));
      case CreateAddJob(key, repo) => assert d == CreateKeyJob(c, AddKeyJob(repo, key));
      case CreateDeleteJob(key, repo) => assert d == CreateKeyJob(c, DeleteKeyJob(repo, key).value);
      case StoreStatus(key, updated) => assert Some(d) == UpdateKeyStatus(c, key, updated);
      case DropFinalizer(key, _) => assert Some(d) == UpdateKey(c, key, key.(finalizer := false));
    }
  }
}
