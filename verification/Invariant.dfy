/** What holds in every reachable state, object by object. */
module Invariant {
  import opened Options
  import opened Conditions
  import opened KeyLog
  import opened Resources
  import opened ApiServer
  import opened Environment
  import opened Operator
  import K = KeyController
  import R = RepositoryController

  // ----- keys and jobs by themselves -----

  predicate Phase(cs: seq<Condition>) {
    cs == [] || Phased(cs)
  }

  /** The owner, the label and the finalizer that registration writes; the reference may be to an earlier object of that name. */
  predicate Labelled(k: Key) {
    && k.controller.Some? && k.controller.value.kind == "restic.zhulik.wtf/Repository"
    && k.controller.value.name == k.spec.repository && k.repositoryLabel == Some(k.spec.repository)
  }

  predicate KeyShape(k: Key) {
    && Phase(k.conditions)
    && !k.IsFailed()
    && (k.IsCreated() <==> k.keyID.Some?)
    && (k.finalizer ==> k.carried)
    && (k.carried ==> Labelled(k) && k.conditions != [])
    && (k.carried && !k.finalizer ==> k.deleting)
  }

  /** The job opens its repository with the operator's secret and adds a key with the password of the key's secret. */
  predicate AsksToAdd(job: Job) {
    && |job.args| == 8 && job.args[..5] == ["key", "add", "--new-password-file", "$(NEW_KEY_FILE)", "--host"] && job.args[6] == "--user"
    && |job.mounts| == 2 && job.mounts[1] == "operator-key-" + job.repository
  }

  predicate AsksFor(job: Job, k: Key) {
    |job.args| == 8 && job.args[5] == k.spec.host && job.args[7] == k.spec.user
  }

  predicate AsksToRemove(job: Job) {
    |job.args| == 3 && job.args[..2] == ["key", "remove"] && job.mounts == ["operator-key-" + job.repository]
  }

  predicate JobShape(job: Job) {
    && job.key.Some? && job.operation.Some?
    && !(job.IsComplete() && job.IsFailed())
    && (job.IsAdd() ==> AsksToAdd(job) && (job.added.Some? <==> job.IsComplete()))
    && (job.added.Some? ==> job.IsAdd() && ExtractKeyID(job.log) == job.added)
    && (job.IsDelete() ==> AsksToRemove(job))
  }

  predicate AddJobOf(jobs: Jobs, j: nat, uid: nat) {
    j in jobs && jobs[j].owner == uid && jobs[j].IsAdd()
  }

  predicate DeleteJobOf(jobs: Jobs, j: nat, uid: nat) {
    j in jobs && jobs[j].owner == uid && jobs[j].IsDelete()
  }

  ghost predicate HasAddJob(jobs: Jobs, uid: nat) {
    exists j :: AddJobOf(jobs, j, uid)
  }

  ghost predicate HasDeleteJob(jobs: Jobs, uid: nat) {
    exists j :: DeleteJobOf(jobs, j, uid)
  }

  ghost predicate NoJobs(jobs: Jobs, uid: nat) {
    forall j :: j in jobs ==> jobs[j].owner != uid
  }

  ghost predicate NoDeleteJobs(jobs: Jobs, uid: nat) {
    forall j :: !DeleteJobOf(jobs, j, uid)
  }

  /** An add job of the key stored this restic key ID. */
  ghost predicate AddedFor(jobs: Jobs, uid: nat, id: string) {
    exists j :: AddJobOf(jobs, j, uid) && jobs[j].added == Some(id)
  }

  type Backends = map<string, set<string>>

  /** Nothing that add jobs of the key stored is still in a backend, and none of them can still complete. */
  ghost predicate Purged(jobs: Jobs, backend: Backends, uid: nat) {
    forall j :: AddJobOf(jobs, j, uid) ==>
      && jobs[j].Finished()
      && (jobs[j].added.Some? ==> jobs[j].added.value !in Stored(backend, jobs[j].url))
  }

  // ----- identities -----

  ghost predicate RepoIds(c: Cluster) {
    && (forall n :: n in c.repos ==> c.repos[n].name == n && c.repos[n].uid < c.nextUid)
    && (forall n, m :: n in c.repos && m in c.repos && c.repos[n].uid == c.repos[m].uid ==> n == m)
  }

  /** Something keeps a key under deletion from being removed. */
  predicate Retained(k: Key) {
    k.deleting ==> k.finalizer || k.held
  }

  ghost predicate KeyIds(c: Cluster) {
    && (forall n :: n in c.keys ==>
          c.keys[n].name == n && c.keys[n].uid < c.nextUid && c.keys[n].uid !in c.gone && Retained(c.keys[n]))
    && (forall n, m :: n in c.keys && m in c.keys && c.keys[n].uid == c.keys[m].uid ==> n == m)
    && (forall u :: u in c.gone ==> c.gone[u].uid == u && u < c.nextUid && !c.gone[u].finalizer)
  }

  ghost predicate JobIds(c: Cluster) {
    forall j :: j in c.jobs ==> j < c.nextUid && c.jobs[j].owner < c.nextUid && c.jobs[j].repoUid < c.nextUid
  }

  ghost predicate Ids(c: Cluster) {
    RepoIds(c) && KeyIds(c) && JobIds(c)
  }

  // ----- a key and its jobs -----

  ghost predicate KeyHistory(jobs: Jobs, k: Key) {
    && (k.conditions == [] ==> NoJobs(jobs, k.uid))
    && (k.keyID.Some? ==> AddedFor(jobs, k.uid, k.keyID.value))
    && (forall j :: DeleteJobOf(jobs, j, k.uid) ==> k.deleting && k.keyID == Some(jobs[j].Target()))
    && (forall i, j :: k.carried && AddJobOf(jobs, i, k.uid) && AddJobOf(jobs, j, k.uid) ==> i == j)
  }

  /** The key was registered with this repository. */
  predicate Registered(k: Key, r: Repository) {
    k.carried && k.controller.Some? && k.controller.value.uid == r.uid
  }

  type Repos = map<string, Repository>

  /** While the repository that the key was registered with exists. */
  ghost predicate KeyHome(repos: Repos, jobs: Jobs, backend: Backends, k: Key) {
    && (forall n :: n in repos && Registered(k, repos[n]) ==> k.spec.repository == n)
    && (forall n, j :: n in repos && Registered(k, repos[n]) && j in jobs && jobs[j].owner == k.uid ==>
          jobs[j].repoUid == repos[n].uid)
    && (forall n :: n in repos && Registered(k, repos[n]) && !repos[n].deleting && !k.finalizer ==>
          Purged(jobs, backend, k.uid))
  }

  /** Holds of every key, removed or not. */
  ghost predicate KeyOk(c: Cluster, k: Key) {
    && KeyShape(k)
    && (k.carried ==> k.controller.value.uid < c.nextUid)
    && KeyHistory(c.jobs, k)
    && KeyHome(c.repos, c.jobs, c.backend, k)
  }

  type Secrets = map<string, Secret>

  predicate SecretOwned(secrets: Secrets, name: string, uid: nat) {
    name in secrets && secrets[name].owners == [uid]
  }

  /** Holds of every key that still exists. */
  ghost predicate LiveKeyOk(jobs: Jobs, secrets: Secrets, k: Key) {
    && (forall i, j :: AddJobOf(jobs, i, k.uid) && AddJobOf(jobs, j, k.uid) ==> i == j)
    && (forall i, j :: DeleteJobOf(jobs, i, k.uid) && DeleteJobOf(jobs, j, k.uid) ==> i == j)
    && (forall j :: AddJobOf(jobs, j, k.uid) ==>
          && |jobs[j].mounts| == 2 && jobs[j].mounts[0] == k.SecretName() && SecretOwned(secrets, k.SecretName(), k.uid)
          && AsksFor(jobs[j], k))
  }

  ghost predicate KeysOk(c: Cluster) {
    && (forall n :: n in c.keys ==> KeyOk(c, c.keys[n]) && LiveKeyOk(c.jobs, c.secrets, c.keys[n]))
    && (forall u :: u in c.gone ==> KeyOk(c, c.gone[u]))
  }

  // ----- jobs -----

  type Keys = map<string, Key>

  /** A job exists as long as its key does, under the key's label; a label names no other existing key. */
  ghost predicate JobOwned(keys: Keys, job: Job) {
    && (forall n :: n in keys && keys[n].uid == job.owner ==> !job.collected && job.key == Some(n))
    && (forall n :: n in keys && !job.collected && job.key == Some(n) ==> keys[n].uid == job.owner)
  }

  ghost predicate JobHome(repos: Repos, job: Job) {
    forall n :: n in repos && repos[n].uid == job.repoUid ==>
      job.repository == n && job.url == repos[n].url && repos[n].IsCreated()
  }

  ghost predicate JobsOk(c: Cluster) {
    forall j :: j in c.jobs ==> JobShape(c.jobs[j]) && JobOwned(c.keys, c.jobs[j]) && JobHome(c.repos, c.jobs[j])
  }

  // ----- the backend -----

  predicate Adds(job: Job, url: string, id: string) {
    job.IsAdd() && job.url == url && job.added == Some(id)
  }

  predicate Removes(job: Job, url: string, id: string) {
    job.IsDelete() && job.IsComplete() && job.url == url && job.Target() == id
  }

  ghost predicate AddedAt(jobs: Jobs, url: string, id: string) {
    exists j :: j in jobs && Adds(jobs[j], url, id)
  }

  ghost predicate RemovedAt(jobs: Jobs, url: string, id: string) {
    exists j :: j in jobs && Removes(jobs[j], url, id)
  }

  /** Each backend holds exactly what completed add jobs stored there and no completed delete job took away. */
  ghost predicate BackendExact(jobs: Jobs, backend: Backends) {
    forall url, id :: id in Stored(backend, url) <==> AddedAt(jobs, url, id) && !RemovedAt(jobs, url, id)
  }

  ghost predicate BackendOk(jobs: Jobs, backend: Backends) {
    && BackendExact(jobs, backend)
    && (forall i, j :: i in jobs && j in jobs && jobs[i].added.Some? && jobs[i].added == jobs[j].added ==> i == j)
    && (forall j :: j in jobs && jobs[j].IsDelete() ==> AddedFor(jobs, jobs[j].owner, jobs[j].Target()))
  }

  // ----- repositories -----

  type InitJobs = map<string, Job>

  ghost predicate RepoOk(initJobs: InitJobs, r: Repository) {
    && Phase(r.conditions)
    && (r.IsCreated() ==> r.name in initJobs && initJobs[r.name].IsComplete())
    && (r.IsFailed() ==> r.name in initJobs && initJobs[r.name].IsFailed())
  }

  ghost predicate InitJobOk(repos: Repos, secrets: Secrets, n: string, job: Job) {
    && !(job.IsComplete() && job.IsFailed())
    && job.mounts == ["operator-key-" + n] && job.args == ["init"] && job.repository == n
    && (n in repos ==> job.owner == repos[n].uid && job.url == repos[n].url && SecretOwned(secrets, repos[n].OperatorSecretName(), repos[n].uid))
  }

  ghost predicate ReposOk(repos: Repos, initJobs: InitJobs, secrets: Secrets) {
    && (forall n :: n in repos ==> RepoOk(initJobs, repos[n]))
    && (forall n :: n in initJobs ==> InitJobOk(repos, secrets, n, initJobs[n]))
  }

  // ----- what the controllers hold between calls -----

  /** A copy agrees with the stored key up to what others may change. */
  predicate SameKey(copy: Key, k: Key) {
    && copy.name == k.name && copy.uid == k.uid && copy.spec == k.spec
    && copy.controller == k.controller && copy.repositoryLabel == k.repositoryLabel
    && copy.finalizer == k.finalizer && copy.carried == k.carried
    && copy.conditions == k.conditions && copy.keyID == k.keyID
    && (copy.deleting ==> k.deleting)
  }

  /** The key read is still there or is gone; its name has not been taken by another. */
  ghost predicate Tracks(keys: Keys, gone: map<nat, Key>, nextUid: nat, key: Key) {
    && KeyShape(key)
    && key.uid < nextUid
    && (key.carried ==> key.controller.value.uid < nextUid)
    && (key.name in keys ==> SameKey(key, keys[key.name]))
    && (key.name !in keys ==> key.uid in gone && SameKey(key, gone[key.uid]))
    && (key.finalizer ==> key.name in keys)
  }

  ghost predicate TracksRepo(repos: Repos, nextUid: nat, key: Key, repo: Repository) {
    && repo.uid < nextUid
    && repo.name == key.spec.repository
    && (forall n :: n in repos && repos[n].uid == repo.uid ==>
          && n == repo.name && repos[n].url == repo.url
          && (repo.deleting ==> repos[n].deleting) && (repo.IsCreated() ==> repos[n].IsCreated()))
    && (forall n :: n in repos && Registered(key, repos[n]) ==> repo.uid == repos[n].uid)
  }

  ghost predicate HoldsKey(pc: K.Pc) {
    !pc.Idle? && !pc.GetKey?
  }

  ghost predicate HoldsRepo(pc: K.Pc) {
    pc.DefaultStatus? || pc.SetMetadata? || pc.ListJobs? || pc.GetSecret? || pc.CreateSecret? || pc.CreateAddJob?
    || pc.CreateDeleteJob?
  }

  /** What the step needs to know about the jobs of the key it is about to change. */
  ghost predicate StepJobs(keys: Keys, jobs: Jobs, secrets: Secrets, pc: K.Pc)
    requires HoldsKey(pc)
  {
    var live, uid := pc.key.name in keys, pc.key.uid;
    && (pc.SetMetadata? ==> NoJobs(jobs, uid))
    && (pc.GetSecret? || pc.CreateSecret? || pc.CreateAddJob? ==> live ==> NoJobs(jobs, uid))
    && (pc.CreateAddJob? ==> live ==> SecretOwned(secrets, pc.key.SecretName(), uid))
    && (pc.CreateDeleteJob? ==>
          && DeleteKeyJob(pc.repo, pc.key).Some? && AddedFor(jobs, uid, pc.key.keyID.value)
          && (live ==> NoDeleteJobs(jobs, uid)))
    && (pc.ReadLog? ==> live ==>
          && pc.job.FinalCondition() == Some(JOB_COMPLETE) && pc.job.added.Some?
          && ExtractKeyID(pc.job.log) == pc.job.added && AddedFor(jobs, uid, pc.job.added.value))
    && (pc.StoreStatus? ==> live ==>
          && pc.updated.keyID.Some? && pc.updated == K.WithCreated(pc.key, pc.updated.keyID.value)
          && AddedFor(jobs, uid, pc.updated.keyID.value))
  }

  ghost predicate StepKey(pc: K.Pc)
    requires HoldsKey(pc)
  {
    var key := pc.key;
    && (pc.DefaultStatus? ==> key.conditions == [])
    && (pc.SetMetadata? ==> !key.carried && key.conditions != [] && !key.IsCreated() && !K.OwnedByAnother(key, pc.repo))
    && (pc.ListJobs? ==> key.conditions != [])
    && (pc.GetSecret? || pc.CreateSecret? || pc.CreateAddJob? ==>
          !key.deleting && key.conditions != [] && !key.IsCreated() && pc.repo.IsCreated())
    && (pc.CreateDeleteJob? || pc.DropFinalizer? ==> key.deleting)
    && (pc.ReadLog? || pc.StoreStatus? ==> !key.deleting && key.conditions != [] && !key.IsCreated())
  }

  /** When the finalizer is about to be dropped, whatever it guarded has been dealt with. */
  ghost predicate DropOk(c: Cluster, key: Key) {
    forall n :: key.name in c.keys && n in c.repos && Registered(key, c.repos[n]) && !c.repos[n].deleting ==>
      Purged(c.jobs, c.backend, key.uid)
  }

  ghost predicate KeyPcOk(c: Cluster, pc: K.Pc) {
    HoldsKey(pc) ==>
      && Tracks(c.keys, c.gone, c.nextUid, pc.key)
      && StepKey(pc)
      && (HoldsRepo(pc) ==> TracksRepo(c.repos, c.nextUid, pc.key, pc.repo))
      && StepJobs(c.keys, c.jobs, c.secrets, pc)
      && (pc.DropFinalizer? ==> DropOk(c, pc.key))
  }

  predicate SameRepo(copy: Repository, r: Repository) {
    copy.name == r.name && copy.uid == r.uid && copy.url == r.url && copy.conditions == r.conditions
  }

  predicate RepoStep(pc: R.Pc, initJobs: InitJobs, secrets: Secrets) {
    && (pc.ReadLog? ==> pc.repo.name in initJobs && initJobs[pc.repo.name].IsFailed())
    && (pc.CreateJob? ==> SecretOwned(secrets, pc.repo.OperatorSecretName(), pc.repo.uid))
    && (pc.StoreStatus? ==>
          && pc.repo.name in initJobs
          && ((pc.updated == R.WithCreated(pc.repo) && initJobs[pc.repo.name].IsComplete())
              || (pc.updated == R.WithFailed(pc.repo) && initJobs[pc.repo.name].IsFailed())))
  }

  /** What the repository controller knows matters only while the repository exists. */
  ghost predicate RepoPcOk(c: Cluster, pc: R.Pc) {
    !pc.Idle? && !pc.GetRepo? ==>
      && pc.repo.uid < c.nextUid
      && Phase(pc.repo.conditions)
      && (pc.DefaultStatus? ==> pc.repo.conditions == [])
      && (!pc.DefaultStatus? ==> pc.repo.conditions != [] && !pc.repo.IsCreated() && !pc.repo.IsFailed())
      && (forall n :: n in c.repos && c.repos[n].uid == pc.repo.uid ==> n == pc.repo.name)
      && (pc.repo.name in c.repos ==> SameRepo(pc.repo, c.repos[pc.repo.name]) && RepoStep(pc, c.initJobs, c.secrets))
  }

  ghost predicate ClusterOk(c: Cluster) {
    && Ids(c) && KeysOk(c) && JobsOk(c) && BackendOk(c.jobs, c.backend) && ReposOk(c.repos, c.initJobs, c.secrets)
  }

  ghost predicate Inv(s: State) {
    ClusterOk(s.cluster) && KeyPcOk(s.cluster, s.key) && RepoPcOk(s.cluster, s.repo)
  }

  lemma Initially()
    ensures Inv(INITIAL)
  {
  }
}
