/** Every call of the key controller keeps the invariant. */
module KeySteps {
  import opened Options
  import opened Conditions
  import opened KeyLog
  import opened Resources
  import opened ApiServer
  import opened Operator
  import opened Invariant
  import opened EnvironmentSteps
  import opened RepositorySteps
  import K = KeyController
  import R = RepositoryController

  // ----- reading -----

  /** The stored version of the key that a controller holds, whether it still exists or not. */
  ghost function Current(c: Cluster, key: Key): Key
    requires Tracks(c.keys, c.gone, c.nextUid, key)
  {
    if key.name in c.keys then c.keys[key.name] else c.gone[key.uid]
  }

  lemma CurrentOk(c: Cluster, key: Key)
    requires KeysOk(c) && Tracks(c.keys, c.gone, c.nextUid, key)
    ensures KeyOk(c, Current(c, key)) && SameKey(key, Current(c, key))
  {
  }

  lemma GetKeyKeeps(c: Cluster, name: string)
    requires Ids(c) && KeysOk(c)
    ensures KeyPcOk(c, K.Call(c, K.GetKey(name), K.Success([])).1)
  {
    if name in c.keys { assert KeyOk(c, c.keys[name]); }
  }

  lemma GetRepoKeeps(c: Cluster, key: Key)
    requires Ids(c) && KeysOk(c) && KeyPcOk(c, K.GetRepo(key))
    ensures KeyPcOk(c, K.Call(c, K.GetRepo(key), K.Success([])).1)
  {
    CurrentOk(c, key);
    var k := Current(c, key);
    forall n | n in c.repos && Registered(key, c.repos[n]) ensures n == key.spec.repository {
      assert Registered(k, c.repos[n]);
    }
    var pc := K.Call(c, K.GetRepo(key), K.Success([])).1;
    if key.spec.repository in c.repos {
      assert TracksRepo(c.repos, c.nextUid, key, c.repos[key.spec.repository]);
    } else if key.deleting {
      assert DropOk(c, key);
    }
  }

  /** While the key exists, a listing returns exactly its own jobs. */
  lemma ListingIsOwnJobs(c: Cluster, key: Key, order: seq<nat>)
    requires Tracks(c.keys, c.gone, c.nextUid, key) && JobsOk(c) && IsListing(c.jobs, key.name, order) && key.name in c.keys
    ensures forall j :: j in order <==> j in c.jobs && c.jobs[j].owner == key.uid
  {
    forall j | j in c.jobs ensures j in order <==> c.jobs[j].owner == key.uid {
      assert JobOwned(c.keys, c.jobs[j]);
      assert Listed(c.jobs, key.name, j) <==> c.jobs[j].owner == key.uid;
    }
  }

  lemma FetchedFrom(c: Cluster, order: seq<nat>, job: Job) returns (j: nat)
    requires (forall i :: i in order ==> i in c.jobs) && job in Fetch(c.jobs, order)
    ensures j in order && c.jobs[j] == job
  {
    var i :| 0 <= i < |order| && Fetch(c.jobs, order)[i] == job;
    j := order[i];
  }

  lemma FetchedAll(c: Cluster, order: seq<nat>, j: nat)
    requires (forall i :: i in order ==> i in c.jobs) && j in order
    ensures c.jobs[j] in Fetch(c.jobs, order)
  {
    var i :| 0 <= i < |order| && order[i] == j;
    assert Fetch(c.jobs, order)[i] == c.jobs[j];
  }

  /** A completed delete job has taken away the one ID that the key's one add job stored. */
  lemma DeletedIsPurged(c: Cluster, k: Key, n: string, d: nat)
    requires JobsOk(c) && BackendOk(c.jobs, c.backend) && KeyOk(c, k) && LiveKeyOk(c.jobs, c.secrets, k)
    requires n in c.repos && DeleteJobOf(c.jobs, d, k.uid) && c.jobs[d].IsComplete()
    requires forall j :: j in c.jobs && c.jobs[j].owner == k.uid ==> c.jobs[j].repoUid == c.repos[n].uid
    ensures Purged(c.jobs, c.backend, k.uid)
  {
    var id := c.jobs[d].Target();
    assert AddedFor(c.jobs, k.uid, id);
    var a :| AddJobOf(c.jobs, a, k.uid) && c.jobs[a].added == Some(id);
    assert JobShape(c.jobs[a]);
    assert c.jobs[a].url == c.repos[n].url == c.jobs[d].url by {
      assert JobHome(c.repos, c.jobs[a]) && JobHome(c.repos, c.jobs[d]);
    }
    assert Removes(c.jobs[d], c.jobs[a].url, id);
    assert RemovedAt(c.jobs, c.jobs[a].url, id);
    assert id !in Stored(c.backend, c.jobs[a].url);
    forall j | AddJobOf(c.jobs, j, k.uid) ensures j == a {}
  }

  lemma ListedDeleteDone(c: Cluster, key: Key, order: seq<nat>, job: Job)
    requires JobsOk(c) && KeysOk(c) && BackendOk(c.jobs, c.backend) && Tracks(c.keys, c.gone, c.nextUid, key)
    requires IsListing(c.jobs, key.name, order) && job in Fetch(c.jobs, order) && job.IsDelete()
    requires job.FinalCondition() == Some(JOB_COMPLETE)
    ensures DropOk(c, key)
  {
    if key.name in c.keys {
      ListingIsOwnJobs(c, key, order);
      var d := FetchedFrom(c, order, job);
      assert JobShape(c.jobs[d]);
      FinalConditionMeans(c.jobs[d]);
      forall n | n in c.repos && Registered(key, c.repos[n]) ensures Purged(c.jobs, c.backend, key.uid) {
        assert KeyOk(c, c.keys[key.name]) && LiveKeyOk(c.jobs, c.secrets, c.keys[key.name]);
        DeletedIsPurged(c, c.keys[key.name], n, d);
      }
    }
  }

  lemma NoneListedToDelete(c: Cluster, key: Key, order: seq<nat>)
    requires JobsOk(c) && Tracks(c.keys, c.gone, c.nextUid, key) && key.name in c.keys
    requires IsListing(c.jobs, key.name, order) && K.FirstJob(Fetch(c.jobs, order), DeleteKey).None?
    ensures NoDeleteJobs(c.jobs, key.uid)
  {
    ListingIsOwnJobs(c, key, order);
    forall j ensures !DeleteJobOf(c.jobs, j, key.uid) {
      if j in order { FetchedAll(c, order, j); }
    }
  }

  lemma MayDrop(c: Cluster, key: Key, repo: Repository, reason: K.DropReason)
    requires KeyPcOk(c, K.ListJobs(key, repo)) && key.deleting && DropOk(c, key)
    ensures KeyPcOk(c, K.DropFinalizer(key, reason))
  {
  }

  lemma MayCreateDelete(c: Cluster, key: Key, repo: Repository)
    requires KeysOk(c) && KeyPcOk(c, K.ListJobs(key, repo)) && key.deleting && DeleteKeyJob(repo, key).Some?
    requires key.name in c.keys ==> NoDeleteJobs(c.jobs, key.uid)
    ensures KeyPcOk(c, K.CreateDeleteJob(key, repo))
  {
    CurrentOk(c, key);
  }

  lemma DeletingDrops(c: Cluster, key: Key, repo: Repository)
    requires TracksRepo(c.repos, c.nextUid, key, repo) && repo.deleting
    ensures DropOk(c, key)
  {
    hide Purged, HasTrue;
  }

  lemma MayReadRemoval(c: Cluster, key: Key, repo: Repository)
    requires KeyPcOk(c, K.ListJobs(key, repo))
    ensures KeyPcOk(c, K.ReadRemovalLog(key)) && KeyPcOk(c, K.Idle) && TracksRepo(c.repos, c.nextUid, key, repo)
    ensures Tracks(c.keys, c.gone, c.nextUid, key)
  {
    hide Tracks, TracksRepo;
  }

  lemma OnDeletionKeeps(c: Cluster, key: Key, repo: Repository, order: seq<nat>)
    requires KeysOk(c) && JobsOk(c) && BackendOk(c.jobs, c.backend)
    requires KeyPcOk(c, K.ListJobs(key, repo)) && IsListing(c.jobs, key.name, order) && key.deleting
    ensures KeyPcOk(c, K.OnDeletion(key, repo, Fetch(c.jobs, order)))
  {
    hide KeyPcOk, DropOk, Tracks, TracksRepo, KeysOk, JobsOk, BackendOk, HasTrue, AnyWithStatus, DeleteKeyJob;
    var jobs := Fetch(c.jobs, order);
    var found := K.FirstJob(jobs, DeleteKey);
    MayReadRemoval(c, key, repo);
    if repo.deleting {
      DeletingDrops(c, key, repo);
      MayDrop(c, key, repo, K.RepoDeleting);
    } else if found.Some? {
      if found.value.FinalCondition() == Some(JOB_COMPLETE) {
        ListedDeleteDone(c, key, order, found.value);
        MayDrop(c, key, repo, K.KeyRemoved);
      }
    } else if DeleteKeyJob(repo, key).Some? {
      if key.name in c.keys { NoneListedToDelete(c, key, order); }
      MayCreateDelete(c, key, repo);
    }
  }

  /** Some job of an existing key is complete only if its add job is. */
  lemma AddJobComplete(c: Cluster, k: Key, j: nat, x: nat)
    requires JobsOk(c) && BackendOk(c.jobs, c.backend) && LiveKeyOk(c.jobs, c.secrets, k)
    requires AddJobOf(c.jobs, j, k.uid) && x in c.jobs && c.jobs[x].owner == k.uid && c.jobs[x].IsComplete()
    ensures c.jobs[j].IsComplete()
  {
    assert JobShape(c.jobs[x]) && JobShape(c.jobs[j]);
    if c.jobs[x].IsDelete() {
      var a :| AddJobOf(c.jobs, a, k.uid) && c.jobs[a].added == Some(c.jobs[x].Target());
      assert a == j;
    } else {
      assert c.jobs[x].operation.value.AddKey?;
      assert AddJobOf(c.jobs, x, k.uid);
    }
  }

  lemma ListedAddDone(c: Cluster, key: Key, order: seq<nat>, job: Job)
    requires KeysOk(c) && JobsOk(c) && BackendOk(c.jobs, c.backend) && Tracks(c.keys, c.gone, c.nextUid, key)
    requires key.name in c.keys && IsListing(c.jobs, key.name, order) && job in Fetch(c.jobs, order) && job.IsAdd()
    requires exists done :: done in Fetch(c.jobs, order) && done.IsComplete()
    ensures job.FinalCondition() == Some(JOB_COMPLETE) && job.added.Some? && ExtractKeyID(job.log) == job.added
    ensures AddedFor(c.jobs, key.uid, job.added.value)
  {
    ListingIsOwnJobs(c, key, order);
    var j := FetchedFrom(c, order, job);
    var done :| done in Fetch(c.jobs, order) && done.IsComplete();
    var x := FetchedFrom(c, order, done);
    assert LiveKeyOk(c.jobs, c.secrets, c.keys[key.name]);
    AddJobComplete(c, c.keys[key.name], j, x);
    assert JobShape(c.jobs[j]);
    FinalConditionMeans(c.jobs[j]);
    assert AddJobOf(c.jobs, j, key.uid);
  }

  lemma MayReadLog(c: Cluster, key: Key, repo: Repository, job: Job)
    requires KeyPcOk(c, K.ListJobs(key, repo)) && !key.deleting && !key.IsCreated()
    requires key.name in c.keys ==>
               && job.FinalCondition() == Some(JOB_COMPLETE) && job.added.Some?
               && ExtractKeyID(job.log) == job.added && AddedFor(c.jobs, key.uid, job.added.value)
    ensures KeyPcOk(c, K.ReadLog(key, job))
  {
  }

  lemma OnFinishedJobsKeeps(c: Cluster, key: Key, repo: Repository, order: seq<nat>)
    requires KeysOk(c) && JobsOk(c) && BackendOk(c.jobs, c.backend)
    requires KeyPcOk(c, K.ListJobs(key, repo)) && IsListing(c.jobs, key.name, order)
    requires !key.deleting && !key.IsCreated() && exists job :: job in Fetch(c.jobs, order) && job.IsComplete()
    ensures KeyPcOk(c, K.OnFinishedJobs(key, Fetch(c.jobs, order)))
  {
    hide KeysOk, JobsOk, BackendOk, HasTrue, AnyWithStatus;
    var found := K.FirstJob(Fetch(c.jobs, order), AddKey);
    if found.Some? && found.value.FinalCondition().Some? {
      if key.name in c.keys { ListedAddDone(c, key, order, found.value); }
      MayReadLog(c, key, repo, found.value);
    }
  }

  lemma ListJobsKeeps(c: Cluster, key: Key, repo: Repository, order: seq<nat>)
    requires Ids(c) && KeysOk(c) && JobsOk(c) && BackendOk(c.jobs, c.backend) && KeyPcOk(c, K.ListJobs(key, repo))
    ensures KeyPcOk(c, K.Call(c, K.ListJobs(key, repo), K.Success(order)).1)
  {
    if IsListing(c.jobs, key.name, order) {
      var jobs := Fetch(c.jobs, order);
      if key.deleting {
        OnDeletionKeeps(c, key, repo, order);
      } else if key.IsCreated() || key.IsFailed() {
      } else if jobs == [] {
        if key.name in c.keys { ListingIsOwnJobs(c, key, order); }
        assert key.name in c.keys ==> NoJobs(c.jobs, key.uid);
      } else if exists job :: job in jobs && job.IsComplete() {
        OnFinishedJobsKeeps(c, key, repo, order);
      }
    }
  }

  lemma ReadLogKeeps(c: Cluster, key: Key, job: Job)
    requires KeyPcOk(c, K.ReadLog(key, job))
    ensures KeyPcOk(c, K.AfterReadLog(key, job))
  {
  }

  // ----- writing a key -----

  lemma RewrittenKeys(c: Cluster, k: Key)
    requires KeysOk(c) && KeyOk(c, k) && LiveKeyOk(c.jobs, c.secrets, k)
    ensures KeysOk(c.(keys := c.keys[k.name := k]))
  {
    var d := c.(keys := c.keys[k.name := k]);
    forall n | n in d.keys ensures KeyOk(d, d.keys[n]) && LiveKeyOk(d.jobs, d.secrets, d.keys[n]) {
      assert n != k.name ==> KeyOk(c, c.keys[n]) && LiveKeyOk(c.jobs, c.secrets, c.keys[n]);
    }
    forall u | u in d.gone ensures KeyOk(d, d.gone[u]) { assert KeyOk(c, c.gone[u]); }
  }

  lemma RemovedKeys(c: Cluster, k: Key)
    requires KeysOk(c) && KeyOk(c, k)
    ensures KeysOk(c.(keys := c.keys - {k.name}, gone := c.gone[k.uid := k]))
  {
    var d := c.(keys := c.keys - {k.name}, gone := c.gone[k.uid := k]);
    forall n | n in d.keys ensures KeyOk(d, d.keys[n]) && LiveKeyOk(d.jobs, d.secrets, d.keys[n]) {
      assert KeyOk(c, c.keys[n]) && LiveKeyOk(c.jobs, c.secrets, c.keys[n]);
    }
    forall u | u in d.gone ensures KeyOk(d, d.gone[u]) { assert u != k.uid ==> KeyOk(c, c.gone[u]); }
  }

  /** Writing or removing a key under its own name and UID leaves every job with its owner. */
  lemma SameOwners(c: Cluster, keys: Keys)
    requires JobsOk(c) && forall n :: n in keys ==> n in c.keys && keys[n].uid == c.keys[n].uid
    ensures forall j :: j in c.jobs ==> JobOwned(keys, c.jobs[j])
  {
    forall j | j in c.jobs ensures JobOwned(keys, c.jobs[j]) { assert JobOwned(c.keys, c.jobs[j]); }
  }

  lemma RewrittenIds(c: Cluster, k: Key)
    requires Ids(c) && k.name in c.keys && k.uid == c.keys[k.name].uid && Retained(k)
    ensures Ids(c.(keys := c.keys[k.name := k]))
  {
    hide RepoIds, Retained;
    var d := c.(keys := c.keys[k.name := k]);
    assert JobIds(d);
    SameRepoIds(c, d);
    assert c.keys[k.name].name == k.name;
  }

  lemma KeyRewritten(c: Cluster, k: Key)
    requires ClusterOk(c) && k.name in c.keys && k.uid == c.keys[k.name].uid && Retained(k)
    requires KeyOk(c, k) && LiveKeyOk(c.jobs, c.secrets, k)
    ensures ClusterOk(c.(keys := c.keys[k.name := k]))
  {
    hide KeysOk, KeyOk, LiveKeyOk, BackendOk, ReposOk, Ids, JobShape, JobOwned, JobHome;
    RewrittenIds(c, k);
    RewrittenKeys(c, k);
    SameOwners(c, c.keys[k.name := k]);
  }

  lemma RemovedIds(c: Cluster, k: Key)
    requires Ids(c) && k.name in c.keys && k.uid == c.keys[k.name].uid && !k.finalizer
    ensures Ids(c.(keys := c.keys - {k.name}, gone := c.gone[k.uid := k]))
  {
    hide RepoIds, Retained;
    var d := c.(keys := c.keys - {k.name}, gone := c.gone[k.uid := k]);
    assert JobIds(d);
    assert RepoIds(c) ==> RepoIds(d) by { SameRepoIds(c, d); }
    assert c.keys[k.name].name == k.name;
  }

  lemma SameRepoIds(c: Cluster, d: Cluster)
    requires d.repos == c.repos && d.nextUid == c.nextUid
    ensures RepoIds(d) <==> RepoIds(c)
  {
  }

  lemma KeyRemoved(c: Cluster, k: Key)
    requires ClusterOk(c) && k.name in c.keys && k.uid == c.keys[k.name].uid && KeyOk(c, k)
    requires !k.finalizer
    ensures ClusterOk(c.(keys := c.keys - {k.name}, gone := c.gone[k.uid := k]))
  {
    hide KeysOk, KeyOk, LiveKeyOk, BackendOk, ReposOk, Ids, JobShape, JobOwned, JobHome;
    RemovedIds(c, k);
    RemovedKeys(c, k);
    SameOwners(c, c.keys - {k.name});
  }

  lemma DefaultedIsOk(c: Cluster, key: Key)
    requires KeyOk(c, key) && key.conditions == []
    ensures KeyOk(c, K.WithDefaults(key)) && NoJobs(c.jobs, key.uid) && !key.carried && !K.WithDefaults(key).IsCreated()
  {
    DefaultPhaseIsPhased();
    assert forall r :: Registered(K.WithDefaults(key), r) <==> Registered(key, r);
  }

  lemma DefaultStatusCluster(c: Cluster, key: Key)
    requires ClusterOk(c) && KeyUnchanged(c, key) && key.conditions == []
    ensures ClusterOk(c.(keys := c.keys[key.name := K.WithDefaults(key)]))
  {
    hide JobsOk, BackendOk, ReposOk, RepoIds, JobIds, HasTrue, KeyOk, SecretOwned;
    assert KeyOk(c, key) && LiveKeyOk(c.jobs, c.secrets, key);
    DefaultedIsOk(c, key);
    assert LiveKeyOk(c.jobs, c.secrets, K.WithDefaults(key));
    hide LiveKeyOk;
    KeyRewritten(c, K.WithDefaults(key));
  }

  lemma DefaultStatusPc(c: Cluster, key: Key, repo: Repository)
    requires KeyPcOk(c, K.DefaultStatus(key, repo)) && KeyUnchanged(c, key) && KeyOk(c, key) && !K.OwnedByAnother(key, repo)
    ensures KeyPcOk(c.(keys := c.keys[key.name := K.WithDefaults(key)]), K.SetMetadata(K.WithDefaults(key), repo))
  {
    hide KeyHome, KeyShape;
    DefaultedIsOk(c, key);
  }

  lemma WithMetadataIsOk(c: Cluster, key: Key, repo: Repository)
    requires KeyPcOk(c, K.SetMetadata(key, repo)) && KeyOk(c, key)
    ensures KeyOk(c, K.WithMetadata(key, repo))
  {
    var k := K.WithMetadata(key, repo);
    assert KeyShape(k);
    assert KeyHistory(c.jobs, k);
    assert KeyHome(c.repos, c.jobs, c.backend, k);
  }

  lemma SetMetadataCluster(c: Cluster, key: Key, repo: Repository)
    requires ClusterOk(c) && KeyPcOk(c, K.SetMetadata(key, repo)) && KeyUnchanged(c, key)
    ensures ClusterOk(c.(keys := c.keys[key.name := K.WithMetadata(key, repo)])) && KeyShape(K.WithMetadata(key, repo))
  {
    hide JobsOk, BackendOk, ReposOk, Ids, HasTrue;
    var k := K.WithMetadata(key, repo);
    assert KeyOk(c, key) && LiveKeyOk(c.jobs, c.secrets, key);
    assert LiveKeyOk(c.jobs, c.secrets, k);
    hide ClusterOk, LiveKeyOk, KeyHistory, KeyHome;
    WithMetadataIsOk(c, key, repo);
    KeyRewritten(c, k);
  }

  lemma SetMetadataPc(c: Cluster, key: Key, repo: Repository)
    requires KeyPcOk(c, K.SetMetadata(key, repo)) && KeyUnchanged(c, key) && KeyShape(K.WithMetadata(key, repo))
    ensures KeyPcOk(c.(keys := c.keys[key.name := K.WithMetadata(key, repo)]), K.ListJobs(K.WithMetadata(key, repo), repo))
  {
  }

  lemma StoredIsOk(c: Cluster, key: Key, updated: Key)
    requires KeyOk(c, key) && KeyPcOk(c, K.StoreStatus(key, updated)) && KeyUnchanged(c, key)
    ensures KeyOk(c, updated) && updated == key.(conditions := updated.conditions, keyID := updated.keyID)
  {
    Marked(key.conditions);
    assert forall r :: Registered(updated, r) <==> Registered(key, r);
  }

  lemma StatusWritten(c: Cluster, key: Key, updated: Key)
    requires ClusterOk(c) && KeyUnchanged(c, key) && KeyOk(c, updated)
    requires updated == key.(conditions := updated.conditions, keyID := updated.keyID)
    ensures ClusterOk(UpdateKeyStatus(c, key, updated).value)
  {
    hide HasTrue, KeyOk, JobsOk, BackendOk, ReposOk;
    assert LiveKeyOk(c.jobs, c.secrets, key);
    KeyRewritten(c, updated);
  }

  lemma StoreStatusKeeps(c: Cluster, key: Key, updated: Key)
    requires ClusterOk(c) && KeyPcOk(c, K.StoreStatus(key, updated)) && KeyUnchanged(c, key)
    ensures ClusterOk(UpdateKeyStatus(c, key, updated).value)
  {
    assert KeyOk(c, key);
    StoredIsOk(c, key, updated);
    StatusWritten(c, key, updated);
  }

  lemma WithoutFinalizerIsOk(c: Cluster, key: Key)
    requires KeyOk(c, key) && DropOk(c, key) && KeyUnchanged(c, key) && key.deleting
    ensures KeyOk(c, key.(finalizer := false))
  {
    hide HasTrue, Purged;
    assert forall r :: Registered(key.(finalizer := false), r) <==> Registered(key, r);
  }

  lemma DropFinalizerKeeps(c: Cluster, key: Key, reason: K.DropReason)
    requires ClusterOk(c) && KeyPcOk(c, K.DropFinalizer(key, reason)) && KeyUnchanged(c, key)
    ensures ClusterOk(UpdateKey(c, key, key.(finalizer := false)).value)
  {
    hide KeyOk, JobsOk, BackendOk, ReposOk, Ids, Tracks;
    var k := key.(finalizer := false);
    assert KeyOk(c, key) && LiveKeyOk(c.jobs, c.secrets, key);
    WithoutFinalizerIsOk(c, key);
    if k.held { KeyRewritten(c, k); } else { KeyRemoved(c, k); }
  }

  // ----- creating a job -----

  /** The jobs the controller creates: for the key it holds, from the repository it read. */
  ghost predicate Creates(c: Cluster, pc: K.Pc, job: Job) {
    && KeyPcOk(c, pc)
    && (pc.CreateAddJob? || pc.CreateDeleteJob?)
    && (pc.CreateAddJob? ==> job == AddKeyJob(pc.repo, pc.key))
    && (pc.CreateDeleteJob? ==> Some(job) == DeleteKeyJob(pc.repo, pc.key))
  }

  lemma NewJobOf(c: Cluster, job: Job, u: nat)
    requires JobIds(c)
    ensures var jobs := CreateKeyJob(c, job).jobs;
            && (forall j :: AddJobOf(jobs, j, u) <==> AddJobOf(c.jobs, j, u) || (j == c.nextUid && job.owner == u && job.IsAdd()))
            && (forall j :: DeleteJobOf(jobs, j, u) <==> DeleteJobOf(c.jobs, j, u) || (j == c.nextUid && job.owner == u && job.IsDelete()))
            && (forall id :: AddedFor(c.jobs, u, id) ==> AddedFor(jobs, u, id))
            && (job.owner != u && NoJobs(c.jobs, u) ==> NoJobs(jobs, u))
            && (forall j :: j in c.jobs ==> j in jobs && jobs[j] == c.jobs[j])
  {
    var jobs := CreateKeyJob(c, job).jobs;
    forall id | AddedFor(c.jobs, u, id) ensures AddedFor(jobs, u, id) {
      var j :| AddJobOf(c.jobs, j, u) && c.jobs[j].added == Some(id);
      assert AddJobOf(jobs, j, u) && jobs[j].added == Some(id);
    }
  }

  lemma JobOfOther(c: Cluster, job: Job, k: Key)
    requires JobIds(c) && KeyOk(c, k) && job.owner != k.uid
    ensures KeyOk(CreateKeyJob(c, job), k)
  {
    NewJobOf(c, job, k.uid);
    var d := CreateKeyJob(c, job);
    assert KeyHistory(d.jobs, k);
    assert Purged(c.jobs, c.backend, k.uid) ==> Purged(d.jobs, d.backend, k.uid);
    assert KeyHome(d.repos, d.jobs, d.backend, k);
  }

  lemma LiveJobOfOther(c: Cluster, job: Job, k: Key)
    requires JobIds(c) && LiveKeyOk(c.jobs, c.secrets, k) && job.owner != k.uid
    ensures LiveKeyOk(CreateKeyJob(c, job).jobs, c.secrets, k)
  {
    NewJobOf(c, job, k.uid);
  }

  lemma AddJobOfHeld(c: Cluster, pc: K.Pc, k: Key)
    requires JobIds(c) && KeyOk(c, k) && pc.CreateAddJob? && KeyPcOk(c, pc) && SameKey(pc.key, k)
    requires pc.key.name in c.keys || !k.finalizer
    ensures KeyOk(CreateKeyJob(c, AddKeyJob(pc.repo, pc.key)), k)
  {
    var job := AddKeyJob(pc.repo, pc.key);
    var d := CreateKeyJob(c, job);
    NewJobOf(c, job, k.uid);
    assert k.carried ==> k.finalizer && NoJobs(c.jobs, k.uid);
    assert KeyHistory(d.jobs, k);
    forall n, j | n in d.repos && Registered(k, d.repos[n]) && j in d.jobs && d.jobs[j].owner == k.uid
      ensures d.jobs[j].repoUid == d.repos[n].uid
    {
      assert Registered(pc.key, c.repos[n]);
    }
    assert KeyHome(d.repos, d.jobs, d.backend, k);
  }

  lemma DeleteJobOfHeld(c: Cluster, pc: K.Pc, k: Key)
    requires JobIds(c) && KeyOk(c, k) && pc.CreateDeleteJob? && KeyPcOk(c, pc) && SameKey(pc.key, k)
    ensures KeyOk(CreateKeyJob(c, DeleteKeyJob(pc.repo, pc.key).value), k)
  {
    var job := DeleteKeyJob(pc.repo, pc.key).value;
    var d := CreateKeyJob(c, job);
    NewJobOf(c, job, k.uid);
    assert KeyHistory(d.jobs, k);
    assert Purged(c.jobs, c.backend, k.uid) ==> Purged(d.jobs, d.backend, k.uid);
    forall n, j | n in d.repos && Registered(k, d.repos[n]) && j in d.jobs && d.jobs[j].owner == k.uid
      ensures d.jobs[j].repoUid == d.repos[n].uid
    {
      assert Registered(pc.key, c.repos[n]);
    }
    assert KeyHome(d.repos, d.jobs, d.backend, k);
  }

  lemma JobOfHeld(c: Cluster, pc: K.Pc, job: Job, k: Key)
    requires JobIds(c) && KeyOk(c, k) && Creates(c, pc, job) && SameKey(pc.key, k)
    requires pc.key.name in c.keys || !k.finalizer
    ensures KeyOk(CreateKeyJob(c, job), k)
  {
    if pc.CreateAddJob? { AddJobOfHeld(c, pc, k); } else { DeleteJobOfHeld(c, pc, k); }
  }

  lemma LiveJobOfHeld(c: Cluster, pc: K.Pc, job: Job, k: Key)
    requires JobIds(c) && LiveKeyOk(c.jobs, c.secrets, k) && Creates(c, pc, job) && SameKey(pc.key, k)
    requires pc.key.name in c.keys
    ensures LiveKeyOk(CreateKeyJob(c, job).jobs, c.secrets, k)
  {
    NewJobOf(c, job, k.uid);
    if pc.CreateAddJob? {
      assert NoJobs(c.jobs, k.uid);
      assert forall j :: !AddJobOf(c.jobs, j, k.uid) && !DeleteJobOf(c.jobs, j, k.uid);
    }
  }

  lemma CreateJobKeepsKeys(c: Cluster, pc: K.Pc, job: Job)
    requires Ids(c) && KeysOk(c) && Creates(c, pc, job)
    ensures KeysOk(CreateKeyJob(c, job))
  {
    hide KeyOk, LiveKeyOk;
    var key, d := pc.key, CreateKeyJob(c, job);
    forall n | n in d.keys ensures KeyOk(d, d.keys[n]) && LiveKeyOk(d.jobs, d.secrets, d.keys[n]) {
      var k := c.keys[n];
      assert KeyOk(c, k) && LiveKeyOk(c.jobs, c.secrets, k);
      if k.uid == key.uid {
        assert n == key.name;
        JobOfHeld(c, pc, job, k);
        LiveJobOfHeld(c, pc, job, k);
      } else {
        JobOfOther(c, job, k);
        LiveJobOfOther(c, job, k);
      }
    }
    forall u | u in d.gone ensures KeyOk(d, d.gone[u]) {
      var k := c.gone[u];
      assert KeyOk(c, k);
      if u == key.uid { JobOfHeld(c, pc, job, k); } else { JobOfOther(c, job, k); }
    }
  }

  lemma NewJobIsOk(c: Cluster, pc: K.Pc, job: Job)
    requires Ids(c) && Creates(c, pc, job)
    ensures JobShape(job) && JobOwned(c.keys, job) && JobHome(c.repos, job)
    ensures job.owner < c.nextUid && job.repoUid < c.nextUid
  {
  }

  lemma CreateJobKeepsJobs(c: Cluster, pc: K.Pc, job: Job)
    requires Ids(c) && JobsOk(c) && Creates(c, pc, job)
    ensures JobsOk(CreateKeyJob(c, job)) && JobIds(CreateKeyJob(c, job))
  {
    hide JobShape, JobHome, KeyIds, RepoIds;
    assert Ids(c) && JobIds(CreateKeyJob(c, job));
    NewJobIsOk(c, pc, job);
  }

  lemma NewJobAddsNothing(c: Cluster, job: Job)
    requires JobIds(c) && job.added.None? && !job.IsComplete()
    ensures forall url, id :: AddedAt(CreateKeyJob(c, job).jobs, url, id) <==> AddedAt(c.jobs, url, id)
    ensures forall url, id :: RemovedAt(CreateKeyJob(c, job).jobs, url, id) <==> RemovedAt(c.jobs, url, id)
  {
    hide HasTrue;
    var jobs := CreateKeyJob(c, job).jobs;
    assert forall j :: j in c.jobs ==> j in jobs && jobs[j] == c.jobs[j];
    assert forall j :: j in jobs && j !in c.jobs ==> jobs[j] == job;
    hide JobIds;
  }

  lemma CreateJobKeepsLedger(c: Cluster, pc: K.Pc, job: Job)
    requires JobIds(c) && BackendOk(c.jobs, c.backend) && Creates(c, pc, job)
    ensures BackendOk(CreateKeyJob(c, job).jobs, c.backend)
  {
    var jobs := CreateKeyJob(c, job).jobs;
    assert job.added.None? && !job.IsComplete();
    NewJobAddsNothing(c, job);
    hide AddedAt, RemovedAt, HasTrue;
    forall j | j in jobs && jobs[j].IsDelete() ensures AddedFor(jobs, jobs[j].owner, jobs[j].Target()) {
      NewJobOf(c, job, jobs[j].owner);
    }
  }

  lemma CreateJobKeeps(c: Cluster, pc: K.Pc, job: Job)
    requires ClusterOk(c) && Creates(c, pc, job)
    ensures ClusterOk(CreateKeyJob(c, job))
  {
    CreateJobKeepsKeys(c, pc, job);
    CreateJobKeepsJobs(c, pc, job);
    CreateJobKeepsLedger(c, pc, job);
  }

  // ----- all calls -----

  lemma ReadKeeps(s: State, order: seq<nat>)
    requires Inv(s) && (s.key.GetKey? || s.key.GetRepo? || s.key.ListJobs? || s.key.GetSecret? || s.key.ReadLog? || s.key.ReadRemovalLog?)
    ensures Inv(Next(s, KeyCall(K.Success(order))))
  {
    hide KeysOk, JobsOk, BackendOk, Ids, ReposOk, RepoPcOk;
    var c := s.cluster;
    match s.key {
      case GetKey(name) => GetKeyKeeps(c, name);
      case GetRepo(key) => GetRepoKeeps(c, key);
      case ListJobs(key, repo) => ListJobsKeeps(c, key, repo, order);
      case GetSecret(key, repo) => assert KeyPcOk(c, K.AfterGetSecret(c, key, repo));
      case ReadLog(key, job) => ReadLogKeeps(c, key, job);
      case ReadRemovalLog(_) =>
    }
  }

  lemma DefaultStatusKeeps(s: State)
    requires Inv(s) && s.key.DefaultStatus?
    ensures Inv(Next(s, KeyCall(K.Success([]))))
  {
    var c, key, repo := s.cluster, s.key.key, s.key.repo;
    if KeyUnchanged(c, key) {
      assert KeyOk(c, key);
      hide ClusterOk, KeyOk;
      DefaultStatusCluster(c, key);
      if !K.OwnedByAnother(key, repo) { DefaultStatusPc(c, key, repo); }
    }
  }

  lemma SameRepositoryPc(c: Cluster, d: Cluster, pc: R.Pc)
    requires RepoPcOk(c, pc) && d.repos == c.repos && d.initJobs == c.initJobs && d.secrets == c.secrets && d.nextUid == c.nextUid
    ensures RepoPcOk(d, pc)
  {
  }

  lemma SetMetadataKeeps(s: State)
    requires Inv(s) && s.key.SetMetadata?
    ensures Inv(Next(s, KeyCall(K.Success([]))))
  {
    hide ClusterOk, Phase, HasTrue, SameKey, TracksRepo, StepJobs, DropOk, RepoPcOk;
    var c, key, repo := s.cluster, s.key.key, s.key.repo;
    if KeyUnchanged(c, key) && !key.deleting {
      SetMetadataCluster(c, key, repo);
      SetMetadataPc(c, key, repo);
      SameRepositoryPc(c, c.(keys := c.keys[key.name := K.WithMetadata(key, repo)]), s.repo);
    }
  }

  lemma KeyWriteKeeps(s: State)
    requires Inv(s) && (s.key.StoreStatus? || s.key.DropFinalizer?)
    ensures Inv(Next(s, KeyCall(K.Success([]))))
  {
    hide ClusterOk;
    if KeyUnchanged(s.cluster, s.key.key) {
      match s.key {
        case StoreStatus(key, updated) => StoreStatusKeeps(s.cluster, key, updated);
        case DropFinalizer(key, reason) => DropFinalizerKeeps(s.cluster, key, reason);
      }
    }
  }

  lemma CreateSecretKeeps(s: State)
    requires Inv(s) && s.key.CreateSecret?
    ensures Inv(Next(s, KeyCall(K.Success([]))))
  {
    var c, key := s.cluster, s.key.key;
    var made := ApiServer.CreateSecret(c, key.SecretName(), Secret([key.uid]));
    if made.Some? { SecretEvent(c, made.value, s.key, s.repo); }
  }

  lemma JobWritten(c: Cluster, pc: K.Pc, job: Job, repo: R.Pc)
    requires ClusterOk(c) && Creates(c, pc, job) && RepoPcOk(c, repo)
    ensures Inv(State(CreateKeyJob(c, job), K.Idle, repo))
  {
    CreateJobKeeps(c, pc, job);
  }

  lemma JobWriteKeeps(s: State)
    requires Inv(s) && (s.key.CreateAddJob? || s.key.CreateDeleteJob?)
    ensures Inv(Next(s, KeyCall(K.Success([]))))
  {
    hide KeysOk, JobsOk, BackendOk, ReposOk, Ids, RepoPcOk;
    if s.key.CreateAddJob? {
      JobWritten(s.cluster, s.key, AddKeyJob(s.key.repo, s.key.key), s.repo);
    } else {
      JobWritten(s.cluster, s.key, DeleteKeyJob(s.key.repo, s.key.key).value, s.repo);
    }
  }

  lemma CallKeepsInv(s: State, outcome: K.Outcome)
    requires Inv(s)
    ensures Inv(Next(s, KeyCall(outcome)))
  {
    hide ClusterOk;
    if outcome.Failure? || s.key.Idle? {
    } else if s.key.GetKey? || s.key.GetRepo? || s.key.ListJobs? || s.key.GetSecret? || s.key.ReadLog? || s.key.ReadRemovalLog? {
      ReadKeeps(s, outcome.order);
    } else if s.key.DefaultStatus? {
      DefaultStatusKeeps(s);
    } else if s.key.SetMetadata? {
      SetMetadataKeeps(s);
    } else if s.key.CreateSecret? {
      CreateSecretKeeps(s);
    } else if s.key.CreateAddJob? || s.key.CreateDeleteJob? {
      JobWriteKeeps(s);
    } else {
      KeyWriteKeeps(s);
    }
  }
}
