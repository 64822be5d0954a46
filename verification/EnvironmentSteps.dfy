/** Every event of the environment keeps the invariant. */
module EnvironmentSteps {
  import opened Options
  import opened Conditions
  import opened KeyLog
  import opened Resources
  import opened ApiServer
  import opened Operator
  import opened Invariant
  import E = Environment
  import K = KeyController
  import R = RepositoryController

  // ----- repositories appear, disappear and start being deleted -----

  predicate Successor(c: Cluster, n: string, r: Repository) {
    || (n in c.repos && r.uid == c.repos[n].uid && r.url == c.repos[n].url
        && (c.repos[n].deleting ==> r.deleting) && (c.repos[n].IsCreated() ==> r.IsCreated()))
    || r.uid >= c.nextUid
  }

  ghost predicate ReposEvolve(c: Cluster, d: Cluster) {
    && d.(repos := c.repos, nextUid := c.nextUid) == c
    && c.nextUid <= d.nextUid
    && (forall n :: n in d.repos ==> Successor(c, n, d.repos[n]))
  }

  lemma ReposEvolveKeepsKeys(c: Cluster, d: Cluster)
    requires ReposEvolve(c, d) && KeysOk(c) && JobsOk(c) && JobIds(c)
    ensures KeysOk(d) && JobsOk(d)
  {
    forall k | KeyOk(c, k) ensures KeyOk(d, k) {
      assert forall n :: n in d.repos && Registered(k, d.repos[n]) ==> Successor(c, n, d.repos[n]);
    }
    forall j | j in d.jobs ensures JobHome(d.repos, d.jobs[j]) {
      assert forall n :: n in d.repos && d.repos[n].uid == d.jobs[j].repoUid ==> Successor(c, n, d.repos[n]);
    }
  }

  lemma ReposEvolveKeepsRepo(c: Cluster, d: Cluster, key: Key, repo: Repository)
    requires ReposEvolve(c, d) && TracksRepo(c.repos, c.nextUid, key, repo)
    requires key.carried ==> key.controller.Some? && key.controller.value.uid < c.nextUid
    ensures TracksRepo(d.repos, d.nextUid, key, repo)
  {
    hide HasTrue;
    assert forall n :: n in d.repos ==> Successor(c, n, d.repos[n]);
  }

  lemma ReposEvolveKeepsDrop(c: Cluster, d: Cluster, key: Key)
    requires ReposEvolve(c, d) && DropOk(c, key) && (key.carried ==> key.controller.Some? && key.controller.value.uid < c.nextUid)
    ensures DropOk(d, key)
  {
    hide HasTrue, Purged;
    assert forall n :: n in d.repos ==> Successor(c, n, d.repos[n]);
  }

  lemma ReposEvolveKeepsKeyPc(c: Cluster, d: Cluster, pc: K.Pc)
    requires ReposEvolve(c, d) && KeyPcOk(c, pc)
    ensures KeyPcOk(d, pc)
  {
    hide HasTrue, TracksRepo, DropOk, StepKey, StepJobs, Phase, SameKey;
    if HoldsKey(pc) {
      if HoldsRepo(pc) { ReposEvolveKeepsRepo(c, d, pc.key, pc.repo); }
      if pc.DropFinalizer? { ReposEvolveKeepsDrop(c, d, pc.key); }
    }
  }

  // ----- keys appear, disappear and start being deleted -----

  predicate BlankKey(k: Key) {
    k.conditions == [] && k.keyID.None? && !k.carried && !k.finalizer
  }

  ghost predicate KeysEvolve(c: Cluster, d: Cluster, busy: Option<string>) {
    && d.(keys := c.keys, gone := c.gone, nextUid := c.nextUid) == c
    && c.nextUid <= d.nextUid
    && (forall n :: n in c.keys && n !in d.keys ==>
          c.keys[n].uid in d.gone && SameKey(c.keys[n], d.gone[c.keys[n].uid]) && !c.keys[n].finalizer)
    && (forall n :: n in d.keys ==>
          || (n in c.keys && SameKey(c.keys[n], d.keys[n]))
          || (E.KeyNameFree(c, n) && busy != Some(n) && d.keys[n].uid == c.nextUid && d.keys[n].name == n && BlankKey(d.keys[n])))
    && (forall u :: u in c.gone ==> u in d.gone && d.gone[u] == c.gone[u])
    && (forall u :: u in d.gone && u !in c.gone ==>
          exists n :: n in c.keys && n !in d.keys && c.keys[n].uid == u && SameKey(c.keys[n], d.gone[u]))
  }

  lemma SameKeyOk(c: Cluster, k: Key, l: Key)
    requires KeyOk(c, k) && SameKey(k, l)
    ensures KeyOk(c, l)
  {
    assert forall r :: Registered(l, r) ==> Registered(k, r);
  }

  lemma NewKeyOk(c: Cluster, k: Key)
    requires JobIds(c) && k.uid == c.nextUid && BlankKey(k)
    ensures KeyOk(c, k) && LiveKeyOk(c.jobs, c.secrets, k)
  {
    assert NoJobs(c.jobs, k.uid);
  }

  lemma KeysEvolveKeepsKeys(c: Cluster, d: Cluster, busy: Option<string>)
    requires KeysEvolve(c, d, busy) && KeysOk(c) && JobIds(c)
    ensures KeysOk(d)
  {
    forall n | n in d.keys ensures KeyOk(d, d.keys[n]) && LiveKeyOk(d.jobs, d.secrets, d.keys[n]) {
      if n in c.keys && SameKey(c.keys[n], d.keys[n]) {
        SameKeyOk(c, c.keys[n], d.keys[n]);
      } else {
        NewKeyOk(c, d.keys[n]);
      }
    }
    forall u | u in d.gone ensures KeyOk(d, d.gone[u]) {
      if u !in c.gone {
        var n :| n in c.keys && n !in d.keys && c.keys[n].uid == u && SameKey(c.keys[n], d.gone[u]);
        SameKeyOk(c, c.keys[n], d.gone[u]);
      }
    }
  }

  lemma KeysEvolveKeepsJobs(c: Cluster, d: Cluster, busy: Option<string>)
    requires KeysEvolve(c, d, busy) && JobsOk(c) && JobIds(c)
    ensures JobsOk(d)
  {
    hide JobShape, JobHome;
    forall j | j in d.jobs ensures JobOwned(d.keys, d.jobs[j]) {
      var job := d.jobs[j];
      assert JobOwned(c.keys, job);
      forall n | n in d.keys && !job.collected && job.key == Some(n) ensures d.keys[n].uid == job.owner {
        assert Listed(c.jobs, n, j);
      }
    }
  }

  lemma KeysEvolveKeepsKeyPc(c: Cluster, d: Cluster, pc: K.Pc)
    requires KeysEvolve(c, d, K.Busy(pc)) && KeyPcOk(c, pc)
    ensures KeyPcOk(d, pc)
  {
    if HoldsKey(pc) {
      assert pc.key.name in d.keys ==> pc.key.name in c.keys;
    }
  }

  // ----- secrets -----

  ghost predicate SecretsEvolve(c: Cluster, d: Cluster) {
    && d.(secrets := c.secrets) == c
    && forall name, u :: SecretOwned(c.secrets, name, u) && (E.LiveKey(c, u) || E.LiveRepository(c, u)) ==>
         SecretOwned(d.secrets, name, u)
  }

  lemma SecretsEvolveKeepsKeys(c: Cluster, d: Cluster)
    requires SecretsEvolve(c, d) && KeysOk(c)
    ensures KeysOk(d)
  {
    forall n | n in d.keys ensures KeyOk(d, d.keys[n]) && LiveKeyOk(d.jobs, d.secrets, d.keys[n]) {
      assert E.LiveKey(c, c.keys[n].uid);
      assert KeyOk(c, c.keys[n]) && LiveKeyOk(c.jobs, c.secrets, c.keys[n]);
    }
    forall u | u in d.gone ensures KeyOk(d, d.gone[u]) {
      assert KeyOk(c, c.gone[u]);
    }
  }

  lemma SecretsEvolveKeepsRepos(c: Cluster, d: Cluster)
    requires SecretsEvolve(c, d) && ReposOk(c.repos, c.initJobs, c.secrets)
    ensures ReposOk(d.repos, d.initJobs, d.secrets)
  {
    forall n | n in d.initJobs ensures InitJobOk(d.repos, d.secrets, n, d.initJobs[n]) {
      assert n in c.repos ==> E.LiveRepository(c, c.repos[n].uid);
      assert InitJobOk(c.repos, c.secrets, n, c.initJobs[n]);
    }
  }

  lemma SecretsEvolveKeepsPcs(c: Cluster, d: Cluster, key: K.Pc, repo: R.Pc)
    requires SecretsEvolve(c, d) && KeyPcOk(c, key) && RepoPcOk(c, repo)
    ensures KeyPcOk(d, key) && RepoPcOk(d, repo)
  {
    if HoldsKey(key) && key.key.name in c.keys { assert E.LiveKey(c, key.key.uid); }
    if !repo.Idle? && !repo.GetRepo? && repo.repo.name in c.repos { assert E.LiveRepository(c, repo.repo.uid); }
  }

  // ----- jobs finish and are collected -----

  /** Job j moves on; the final condition and the added ID only ever appear. */
  predicate JobMoves(a: Job, b: Job) {
    && b.(conditions := a.conditions, log := a.log, added := a.added, collected := a.collected) == a
    && (a.added.Some? ==> b.added == a.added)
    && (a.Finished() ==> b.conditions == a.conditions)
    && (a.collected ==> b.collected)
  }

  ghost predicate JobEvolves(c: Cluster, d: Cluster, j: nat) {
    && d.(jobs := c.jobs, backend := c.backend) == c
    && j in c.jobs && j in d.jobs && d.jobs == c.jobs[j := d.jobs[j]] && JobMoves(c.jobs[j], d.jobs[j])
    && JobShape(d.jobs[j])
    && (d.jobs[j].collected && !c.jobs[j].collected ==> !E.LiveKey(c, c.jobs[j].owner))
  }

  /** Backends change by fresh IDs only, or lose some. */
  ghost predicate BackendEvolves(c: Cluster, d: Cluster) {
    forall url, id :: id in Stored(d.backend, url) && id !in Stored(c.backend, url) ==>
      forall i :: i in c.jobs ==> c.jobs[i].added != Some(id)
  }

  lemma JobEvolvesSameOwners(c: Cluster, d: Cluster, j: nat)
    requires JobEvolves(c, d, j)
    ensures forall i, u :: AddJobOf(c.jobs, i, u) <==> AddJobOf(d.jobs, i, u)
    ensures forall i, u :: DeleteJobOf(c.jobs, i, u) <==> DeleteJobOf(d.jobs, i, u)
    ensures forall i :: i in c.jobs ==> d.jobs[i].Target() == c.jobs[i].Target() && d.jobs[i].mounts == c.jobs[i].mounts
    ensures forall u :: NoJobs(c.jobs, u) <==> NoJobs(d.jobs, u)
    ensures forall u :: NoDeleteJobs(c.jobs, u) <==> NoDeleteJobs(d.jobs, u)
    ensures forall u, id :: AddedFor(c.jobs, u, id) ==> AddedFor(d.jobs, u, id)
  {
    forall u, id | AddedFor(c.jobs, u, id) ensures AddedFor(d.jobs, u, id) {
      var i :| AddJobOf(c.jobs, i, u) && c.jobs[i].added == Some(id);
      assert AddJobOf(d.jobs, i, u) && d.jobs[i].added == Some(id);
    }
  }

  lemma JobEvolvesKeepsPurged(c: Cluster, d: Cluster, j: nat, uid: nat)
    requires JobEvolves(c, d, j) && BackendEvolves(c, d) && Purged(c.jobs, c.backend, uid)
    requires forall i :: i in c.jobs ==> JobShape(c.jobs[i])
    ensures Purged(d.jobs, d.backend, uid)
  {
    forall i | AddJobOf(d.jobs, i, uid)
      ensures d.jobs[i].Finished()
      ensures d.jobs[i].added.Some? ==> d.jobs[i].added.value !in Stored(d.backend, d.jobs[i].url)
    {
      assert AddJobOf(c.jobs, i, uid);
      assert d.jobs[i].added == c.jobs[i].added;
    }
  }

  lemma JobEvolvesKeepsKey(c: Cluster, d: Cluster, j: nat, k: Key)
    requires JobEvolves(c, d, j) && BackendEvolves(c, d) && JobsOk(c) && KeyOk(c, k)
    ensures KeyOk(d, k)
  {
    JobEvolvesSameOwners(c, d, j);
    if Purged(c.jobs, c.backend, k.uid) { JobEvolvesKeepsPurged(c, d, j, k.uid); }
    assert KeyHistory(d.jobs, k);
    assert KeyHome(d.repos, d.jobs, d.backend, k);
  }

  lemma JobEvolvesKeepsKeys(c: Cluster, d: Cluster, j: nat)
    requires JobEvolves(c, d, j) && BackendEvolves(c, d) && KeysOk(c) && JobsOk(c)
    ensures KeysOk(d)
  {
    hide BackendEvolves, KeyOk;
    JobEvolvesSameOwners(c, d, j);
    forall n | n in d.keys ensures KeyOk(d, d.keys[n]) && LiveKeyOk(d.jobs, d.secrets, d.keys[n]) {
      JobEvolvesKeepsKey(c, d, j, c.keys[n]);
      assert LiveKeyOk(c.jobs, c.secrets, c.keys[n]);
    }
    forall u | u in d.gone ensures KeyOk(d, d.gone[u]) { JobEvolvesKeepsKey(c, d, j, c.gone[u]); }
  }

  lemma JobEvolvesKeepsJobs(c: Cluster, d: Cluster, j: nat)
    requires JobEvolves(c, d, j) && JobsOk(c)
    ensures JobsOk(d)
  {
    forall i | i in d.jobs ensures JobOwned(d.keys, d.jobs[i]) && JobHome(d.repos, d.jobs[i]) {
      assert JobOwned(c.keys, c.jobs[i]) && JobHome(c.repos, c.jobs[i]);
    }
  }

  lemma JobEvolvesKeepsStep(c: Cluster, d: Cluster, j: nat, pc: K.Pc)
    requires JobEvolves(c, d, j) && HoldsKey(pc) && StepJobs(c.keys, c.jobs, c.secrets, pc)
    ensures StepJobs(d.keys, d.jobs, d.secrets, pc)
  {
    hide HasTrue, AnyWithStatus, ExtractKeyID, JobShape;
    JobEvolvesSameOwners(c, d, j);
    assert d.keys == c.keys && d.secrets == c.secrets;
    hide JobEvolves, NoJobs, NoDeleteJobs, AddedFor;
  }

  lemma JobEvolvesKeepsDrop(c: Cluster, d: Cluster, j: nat, key: Key)
    requires JobEvolves(c, d, j) && BackendEvolves(c, d) && JobsOk(c) && DropOk(c, key)
    ensures DropOk(d, key)
  {
    hide HasTrue, BackendEvolves;
    assert forall i :: i in c.jobs ==> JobShape(c.jobs[i]);
    if Purged(c.jobs, c.backend, key.uid) { JobEvolvesKeepsPurged(c, d, j, key.uid); }
  }

  lemma JobEvolvesKeepsKeyPc(c: Cluster, d: Cluster, j: nat, pc: K.Pc)
    requires JobEvolves(c, d, j) && BackendEvolves(c, d) && JobsOk(c) && KeyPcOk(c, pc)
    ensures KeyPcOk(d, pc)
  {
    hide JobsOk, BackendEvolves, StepJobs, DropOk, StepKey, JobShape, HasTrue;
    if HoldsKey(pc) {
      JobEvolvesKeepsStep(c, d, j, pc);
      if pc.DropFinalizer? { JobEvolvesKeepsDrop(c, d, j, pc.key); }
      assert d.keys == c.keys && d.gone == c.gone && d.nextUid == c.nextUid && d.repos == c.repos;
    }
  }

  // ----- the backend ledger -----

  lemma SameAdded(jobs: Jobs, j: nat, job: Job)
    requires j in jobs && job.IsAdd() == jobs[j].IsAdd() && job.url == jobs[j].url && job.added == jobs[j].added
    ensures forall url, id :: AddedAt(jobs[j := job], url, id) <==> AddedAt(jobs, url, id)
  {
    forall url, id ensures AddedAt(jobs[j := job], url, id) <==> AddedAt(jobs, url, id) {
      assert forall i :: i in jobs ==> (Adds(jobs[i], url, id) <==> Adds(jobs[j := job][i], url, id));
    }
  }

  lemma SameRemoved(jobs: Jobs, j: nat, job: Job)
    requires j in jobs && forall url, id :: Removes(job, url, id) <==> Removes(jobs[j], url, id)
    ensures forall url, id :: RemovedAt(jobs[j := job], url, id) <==> RemovedAt(jobs, url, id)
  {
    forall url, id ensures RemovedAt(jobs[j := job], url, id) <==> RemovedAt(jobs, url, id) {
      assert forall i :: i in jobs ==> (Removes(jobs[i], url, id) <==> Removes(jobs[j := job][i], url, id));
    }
  }

  lemma MoreAdded(jobs: Jobs, j: nat, job: Job, id: string)
    requires j in jobs && jobs[j].added.None? && job.IsAdd() && job.added == Some(id)
    ensures forall u, i :: AddedAt(jobs[j := job], u, i) <==> AddedAt(jobs, u, i) || (u == job.url && i == id)
  {
    var after := jobs[j := job];
    forall u, i ensures AddedAt(after, u, i) <==> AddedAt(jobs, u, i) || (u == job.url && i == id) {
      assert Adds(after[j], u, i) <==> (u == job.url && i == id);
      assert forall a :: a in jobs && a != j ==> (Adds(jobs[a], u, i) <==> Adds(after[a], u, i));
    }
  }

  lemma MoreRemoved(jobs: Jobs, j: nat, job: Job)
    requires j in jobs && !jobs[j].IsComplete() && job.IsDelete() && job.IsComplete()
    ensures forall u, i :: RemovedAt(jobs[j := job], u, i) <==> RemovedAt(jobs, u, i) || (u == job.url && i == job.Target())
  {
    var after := jobs[j := job];
    forall u, i ensures RemovedAt(after, u, i) <==> RemovedAt(jobs, u, i) || (u == job.url && i == job.Target()) {
      assert Removes(after[j], u, i) <==> (u == job.url && i == job.Target());
      assert forall a :: a in jobs && a != j ==> (Removes(jobs[a], u, i) <==> Removes(after[a], u, i));
    }
  }

  /** Delete jobs keep pointing at something their key added. */
  lemma TargetsStay(c: Cluster, d: Cluster, j: nat)
    requires JobEvolves(c, d, j)
    requires forall i :: i in c.jobs && c.jobs[i].IsDelete() ==> AddedFor(c.jobs, c.jobs[i].owner, c.jobs[i].Target())
    ensures forall i :: i in d.jobs && d.jobs[i].IsDelete() ==> AddedFor(d.jobs, d.jobs[i].owner, d.jobs[i].Target())
  {
    JobEvolvesSameOwners(c, d, j);
  }

  lemma JobEvolvesKeepsLedger(c: Cluster, d: Cluster, j: nat)
    requires JobEvolves(c, d, j) && BackendOk(c.jobs, c.backend) && d.backend == c.backend
    requires d.jobs[j].added == c.jobs[j].added && (d.jobs[j].IsDelete() ==> d.jobs[j].IsComplete() == c.jobs[j].IsComplete())
    ensures BackendOk(d.jobs, d.backend)
  {
    SameAdded(c.jobs, j, d.jobs[j]);
    SameRemoved(c.jobs, j, d.jobs[j]);
    TargetsStay(c, d, j);
  }

  lemma FreshNeverRemoved(c: Cluster, url: string, id: string)
    requires BackendOk(c.jobs, c.backend) && E.FreshID(c, id)
    ensures !RemovedAt(c.jobs, url, id)
  {
    assert forall i :: i in c.jobs && c.jobs[i].IsDelete() ==> c.jobs[i].Target() != id;
  }

  lemma FinishAddKeepsLedger(c: Cluster, d: Cluster, j: nat, id: string)
    requires JobEvolves(c, d, j) && BackendOk(c.jobs, c.backend)
    requires c.jobs[j].IsAdd() && c.jobs[j].added.None? && d.jobs[j].added == Some(id) && E.FreshID(c, id)
    requires d.backend == c.backend[c.jobs[j].url := Stored(c.backend, c.jobs[j].url) + {id}]
    ensures BackendOk(d.jobs, d.backend)
  {
    MoreAdded(c.jobs, j, d.jobs[j], id);
    SameRemoved(c.jobs, j, d.jobs[j]);
    FreshNeverRemoved(c, c.jobs[j].url, id);
    TargetsStay(c, d, j);
    assert d.jobs == c.jobs[j := d.jobs[j]];
    forall u, i ensures i in Stored(d.backend, u) <==> AddedAt(d.jobs, u, i) && !RemovedAt(d.jobs, u, i) {
      assert i in Stored(c.backend, u) <==> AddedAt(c.jobs, u, i) && !RemovedAt(c.jobs, u, i);
      assert AddedAt(d.jobs, u, i) == AddedAt(c.jobs[j := d.jobs[j]], u, i);
      assert RemovedAt(d.jobs, u, i) == RemovedAt(c.jobs[j := d.jobs[j]], u, i);
    }
  }

  lemma FinishDeleteKeepsLedger(c: Cluster, d: Cluster, j: nat)
    requires JobEvolves(c, d, j) && BackendOk(c.jobs, c.backend)
    requires c.jobs[j].IsDelete() && !c.jobs[j].IsComplete() && d.jobs[j].IsComplete() && d.jobs[j].added == c.jobs[j].added
    requires d.backend == c.backend[c.jobs[j].url := Stored(c.backend, c.jobs[j].url) - {c.jobs[j].Target()}]
    ensures BackendOk(d.jobs, d.backend)
  {
    SameAdded(c.jobs, j, d.jobs[j]);
    MoreRemoved(c.jobs, j, d.jobs[j]);
    TargetsStay(c, d, j);
    assert d.jobs == c.jobs[j := d.jobs[j]];
    forall u, i ensures i in Stored(d.backend, u) <==> AddedAt(d.jobs, u, i) && !RemovedAt(d.jobs, u, i) {
      assert i in Stored(c.backend, u) <==> AddedAt(c.jobs, u, i) && !RemovedAt(c.jobs, u, i);
      assert AddedAt(d.jobs, u, i) == AddedAt(c.jobs[j := d.jobs[j]], u, i);
      assert RemovedAt(d.jobs, u, i) == RemovedAt(c.jobs[j := d.jobs[j]], u, i);
    }
  }

  // ----- conditions of jobs -----

  lemma Concluded(job: Job, early: seq<Condition>, final: string)
    requires E.NotFinal(early) && final in [JOB_COMPLETE, JOB_FAILED] && !job.Finished()
    ensures var done := E.Conclude(job, early, final);
            && (done.IsComplete() <==> final == JOB_COMPLETE) && (done.IsFailed() <==> final == JOB_FAILED)
            && done.FinalCondition() == Some(final)
  {
    var done := E.Conclude(job, early, final);
    HasTrueMeans(job.conditions, JOB_COMPLETE);
    HasTrueMeans(job.conditions, JOB_FAILED);
    HasTrueMeans(done.conditions, JOB_COMPLETE);
    HasTrueMeans(done.conditions, JOB_FAILED);
    assert Condition(final, ConditionTrue) in done.conditions;
    AnyWithStatusIsFirst(done.conditions, ConditionTrue, [JOB_COMPLETE, JOB_FAILED]);
  }

  // ----- the events -----

  ghost predicate RepositorySide(c: Cluster, pc: R.Pc) {
    RepoIds(c) && ReposOk(c.repos, c.initJobs, c.secrets) && RepoPcOk(c, pc)
  }

  lemma SetRepositoryKeepsPc(c: Cluster, r: Repository, pc: R.Pc)
    requires RepoPcOk(c, pc) && r.name in c.repos && SameRepo(c.repos[r.name], r)
    ensures RepoPcOk(c.(repos := c.repos[r.name := r]), pc)
  {
    hide Phase, RepoStep;
  }

  lemma SetRepositoryKeeps(c: Cluster, r: Repository, pc: R.Pc)
    requires RepositorySide(c, pc) && r.name in c.repos && SameRepo(c.repos[r.name], r)
    ensures RepositorySide(c.(repos := c.repos[r.name := r]), pc)
  {
    hide HasTrue, RepoPcOk, Phase;
    var d := c.(repos := c.repos[r.name := r]);
    SetRepositoryKeepsPc(c, r, pc);
    forall n | n in d.initJobs ensures InitJobOk(d.repos, d.secrets, n, d.initJobs[n]) {
      assert InitJobOk(c.repos, c.secrets, n, c.initJobs[n]);
    }
    hide InitJobOk;
    forall n | n in d.repos ensures RepoOk(d.initJobs, d.repos[n]) {
      assert RepoOk(c.initJobs, c.repos[n]);
    }
  }

  lemma DropRepositoryKeeps(c: Cluster, name: string, pc: R.Pc)
    requires RepositorySide(c, pc)
    ensures RepositorySide(c.(repos := c.repos - {name}), pc)
  {
    var d := c.(repos := c.repos - {name});
    forall n | n in d.initJobs ensures InitJobOk(d.repos, d.secrets, n, d.initJobs[n]) {
      assert InitJobOk(c.repos, c.secrets, n, c.initJobs[n]);
    }
    forall n | n in d.repos ensures RepoOk(d.initJobs, d.repos[n]) {
      assert RepoOk(c.initJobs, c.repos[n]);
    }
  }

  lemma PutRepositoryKeeps(c: Cluster, r: Repository, pc: R.Pc)
    requires RepositorySide(c, pc) && r.name in c.repos && SameRepo(c.repos[r.name], r)
    ensures RepositorySide(PutRepository(c, r), pc)
  {
    if r.deleting && !r.held { DropRepositoryKeeps(c, r.name, pc); } else { SetRepositoryKeeps(c, r, pc); }
  }

  lemma NewRepositoryKeepsPc(c: Cluster, r: Repository, pc: R.Pc)
    requires RepoPcOk(c, pc) && r.name !in c.repos && r.uid == c.nextUid && R.Busy(pc) != Some(r.name)
    ensures RepoPcOk(c.(repos := c.repos[r.name := r], nextUid := c.nextUid + 1), pc)
  {
    hide Phase, RepoStep;
  }

  lemma NewRepositoryKeeps(c: Cluster, name: string, url: string, held: bool, pc: R.Pc)
    requires RepositorySide(c, pc) && name !in c.repos && name !in c.initJobs && R.Busy(pc) != Some(name)
    ensures RepositorySide(E.NewRepository(c, name, url, held), pc)
  {
    var d := E.NewRepository(c, name, url, held);
    NewRepositoryKeepsPc(c, d.repos[name], pc);
    hide RepoPcOk;
    forall n | n in d.initJobs ensures InitJobOk(d.repos, d.secrets, n, d.initJobs[n]) {
      assert InitJobOk(c.repos, c.secrets, n, c.initJobs[n]);
    }
    forall n | n in d.repos ensures RepoOk(d.initJobs, d.repos[n]) {
      assert n != name ==> RepoOk(c.initJobs, c.repos[n]);
    }
  }

  lemma RepositoryEvent(c: Cluster, d: Cluster, key: K.Pc, repo: R.Pc)
    requires ClusterOk(c) && KeyPcOk(c, key) && ReposEvolve(c, d) && RepositorySide(d, repo)
    ensures Inv(State(d, key, repo))
  {
    ReposEvolveKeepsKeys(c, d);
    ReposEvolveKeepsKeyPc(c, d, key);
  }

  lemma SetKeyEvolves(c: Cluster, k: Key, busy: Option<string>)
    requires KeyIds(c) && k.name in c.keys && SameKey(c.keys[k.name], k) && Retained(k)
    ensures var d := c.(keys := c.keys[k.name := k]); KeysEvolve(c, d, busy) && KeyIds(d)
  {
  }

  lemma RemoveKeyEvolves(c: Cluster, k: Key, busy: Option<string>)
    requires KeyIds(c) && k.name in c.keys && SameKey(c.keys[k.name], k) && !k.finalizer
    ensures var d := c.(keys := c.keys - {k.name}, gone := c.gone[k.uid := k]); KeysEvolve(c, d, busy) && KeyIds(d)
  {
    hide Retained;
    var d := c.(keys := c.keys - {k.name}, gone := c.gone[k.uid := k]);
    assert c.keys[k.name].uid !in c.gone;
    assert KeyIds(d);
    hide KeyIds;
    assert k.name in c.keys && k.name !in d.keys && c.keys[k.name].uid == k.uid && SameKey(c.keys[k.name], d.gone[k.uid]);
    SameKeyItself(c);
  }

  lemma SameKeyItself(c: Cluster)
    ensures forall n :: n in c.keys ==> SameKey(c.keys[n], c.keys[n])
  {
  }

  lemma PutKeyEvolves(c: Cluster, k: Key, busy: Option<string>)
    requires KeyIds(c) && k.name in c.keys && SameKey(c.keys[k.name], k)
    ensures KeysEvolve(c, PutKey(c, k), busy) && KeyIds(PutKey(c, k))
  {
    if k.deleting && !k.finalizer && !k.held { RemoveKeyEvolves(c, k, busy); } else { SetKeyEvolves(c, k, busy); }
  }

  lemma NewKeyEvolves(c: Cluster, name: string, spec: KeySpec, controller: Option<Owner>, held: bool, busy: Option<string>)
    requires KeyIds(c) && E.KeyNameFree(c, name) && busy != Some(name)
    ensures var d := E.NewKey(c, name, spec, controller, held); KeysEvolve(c, d, busy) && KeyIds(d)
  {
  }

  lemma KeyEvent(c: Cluster, d: Cluster, key: K.Pc, repo: R.Pc)
    requires Inv(State(c, key, repo)) && KeysEvolve(c, d, K.Busy(key)) && KeyIds(d)
    ensures Inv(State(d, key, repo))
  {
    KeysEvolveKeepsKeys(c, d, K.Busy(key));
    KeysEvolveKeepsJobs(c, d, K.Busy(key));
    KeysEvolveKeepsKeyPc(c, d, key);
  }

  lemma SecretEvent(c: Cluster, d: Cluster, key: K.Pc, repo: R.Pc)
    requires Inv(State(c, key, repo)) && SecretsEvolve(c, d)
    ensures Inv(State(d, key, repo))
  {
    SecretsEvolveKeepsKeys(c, d);
    SecretsEvolveKeepsRepos(c, d);
    SecretsEvolveKeepsPcs(c, d, key, repo);
  }

  lemma KeyJobEvent(c: Cluster, d: Cluster, j: nat, key: K.Pc, repo: R.Pc)
    requires Inv(State(c, key, repo)) && JobEvolves(c, d, j) && BackendEvolves(c, d) && BackendOk(d.jobs, d.backend)
    ensures Inv(State(d, key, repo))
  {
    hide JobShape, KeysOk, JobsOk, BackendOk, BackendEvolves, ReposOk, KeyPcOk;
    JobEvolvesKeepsKeys(c, d, j);
    JobEvolvesKeepsJobs(c, d, j);
    JobEvolvesKeepsKeyPc(c, d, j, key);
    assert JobIds(d);
  }

  lemma CompleteAddEvolves(c: Cluster, j: nat, early: seq<Condition>, log: string, id: string)
    requires E.Running(c, j) && JobShape(c.jobs[j]) && c.jobs[j].IsAdd() && E.NotFinal(early) && E.FreshID(c, id)
    requires ExtractKeyID(log) == Some(id) && BackendOk(c.jobs, c.backend)
    ensures var d := E.CompleteAdd(c, j, early, log, id);
            JobEvolves(c, d, j) && BackendEvolves(c, d) && BackendOk(d.jobs, d.backend)
  {
    var d := E.CompleteAdd(c, j, early, log, id);
    Concluded(c.jobs[j], early, JOB_COMPLETE);
    assert d.jobs[j].conditions == E.Conclude(c.jobs[j], early, JOB_COMPLETE).conditions;
    assert d.jobs == c.jobs[j := d.jobs[j]];
    FinishAddKeepsLedger(c, d, j, id);
  }

  lemma CompleteDeleteEvolves(c: Cluster, j: nat, early: seq<Condition>)
    requires E.Running(c, j) && JobShape(c.jobs[j]) && c.jobs[j].IsDelete() && E.NotFinal(early)
    requires BackendOk(c.jobs, c.backend)
    ensures var d := E.CompleteDelete(c, j, early);
            JobEvolves(c, d, j) && BackendEvolves(c, d) && BackendOk(d.jobs, d.backend)
  {
    var d := E.CompleteDelete(c, j, early);
    Concluded(c.jobs[j], early, JOB_COMPLETE);
    assert d.jobs == c.jobs[j := d.jobs[j]];
    FinishDeleteKeepsLedger(c, d, j);
  }

  lemma FailEvolves(c: Cluster, j: nat, early: seq<Condition>, log: string)
    requires E.Running(c, j) && JobShape(c.jobs[j]) && E.NotFinal(early) && BackendOk(c.jobs, c.backend)
    ensures var d := E.Fail(c, j, early, log);
            JobEvolves(c, d, j) && BackendEvolves(c, d) && BackendOk(d.jobs, d.backend)
  {
    var d := E.Fail(c, j, early, log);
    Concluded(c.jobs[j], early, JOB_FAILED);
    assert d.jobs[j].conditions == E.Conclude(c.jobs[j], early, JOB_FAILED).conditions;
    assert d.jobs == c.jobs[j := d.jobs[j]];
    JobEvolvesKeepsLedger(c, d, j);
  }

  lemma CollectEvolves(c: Cluster, j: nat)
    requires j in c.jobs && JobShape(c.jobs[j]) && !E.LiveKey(c, c.jobs[j].owner) && BackendOk(c.jobs, c.backend)
    ensures var d := E.Collect(c, j);
            JobEvolves(c, d, j) && BackendEvolves(c, d) && BackendOk(d.jobs, d.backend)
  {
    var d := E.Collect(c, j);
    assert d.jobs[j].conditions == c.jobs[j].conditions;
    assert d.jobs == c.jobs[j := d.jobs[j]];
    JobEvolvesKeepsLedger(c, d, j);
  }

  lemma ConcludeInitKeeps(c: Cluster, name: string, early: seq<Condition>, ok: bool, pc: R.Pc)
    requires RepositorySide(c, pc) && name in c.initJobs && !c.initJobs[name].Finished() && E.NotFinal(early)
    ensures RepositorySide(E.ConcludeInit(c, name, early, ok), pc)
  {
    Concluded(c.initJobs[name], early, if ok then JOB_COMPLETE else JOB_FAILED);
    SetInitJobKeeps(c, name, E.ConcludeInit(c, name, early, ok).initJobs[name], pc);
  }

  lemma SetInitJobKeepsPc(c: Cluster, name: string, job: Job, pc: R.Pc)
    requires RepoPcOk(c, pc) && name in c.initJobs && !c.initJobs[name].Finished()
    ensures RepoPcOk(c.(initJobs := c.initJobs[name := job]), pc)
  {
    hide Phase, MarkCreated, MarkFailed;
  }

  lemma SetInitJobKeeps(c: Cluster, name: string, job: Job, pc: R.Pc)
    requires RepositorySide(c, pc) && name in c.initJobs && !c.initJobs[name].Finished()
    requires !(job.IsComplete() && job.IsFailed()) && job == c.initJobs[name].(conditions := job.conditions)
    ensures RepositorySide(c.(initJobs := c.initJobs[name := job]), pc)
  {
    var d := c.(initJobs := c.initJobs[name := job]);
    SetInitJobKeepsPc(c, name, job, pc);
    hide RepoPcOk;
    forall n | n in d.initJobs ensures InitJobOk(d.repos, d.secrets, n, d.initJobs[n]) {
      assert InitJobOk(c.repos, c.secrets, n, c.initJobs[n]);
    }
    forall n | n in d.repos ensures RepoOk(d.initJobs, d.repos[n]) {
      assert RepoOk(c.initJobs, c.repos[n]);
    }
  }

  lemma CollectInitKeepsPc(c: Cluster, name: string, pc: R.Pc)
    requires RepoPcOk(c, pc) && name !in c.repos
    ensures RepoPcOk(c.(initJobs := c.initJobs - {name}), pc)
  {
    hide Phase, MarkCreated, MarkFailed;
  }

  lemma CollectInitKeeps(c: Cluster, name: string, pc: R.Pc)
    requires RepositorySide(c, pc) && name in c.initJobs && !E.LiveRepository(c, c.initJobs[name].owner)
    ensures RepositorySide(c.(initJobs := c.initJobs - {name}), pc)
  {
    var d := c.(initJobs := c.initJobs - {name});
    assert name !in c.repos by {
      assert InitJobOk(c.repos, c.secrets, name, c.initJobs[name]);
    }
    CollectInitKeepsPc(c, name, pc);
    hide RepoPcOk;
    forall n | n in d.initJobs ensures InitJobOk(d.repos, d.secrets, n, d.initJobs[n]) {
      assert InitJobOk(c.repos, c.secrets, n, c.initJobs[n]);
    }
    forall n | n in d.repos ensures RepoOk(d.initJobs, d.repos[n]) {
      assert RepoOk(c.initJobs, c.repos[n]);
    }
  }

  lemma InitJobKeepsKeys(c: Cluster, d: Cluster)
    requires KeysOk(c) && d.(initJobs := c.initJobs) == c
    ensures KeysOk(d)
  {
    hide KeyShape, KeyHistory, KeyHome, LiveKeyOk, HasTrue;
    forall n | n in d.keys ensures KeyOk(d, d.keys[n]) { assert KeyOk(c, c.keys[n]); }
    forall u | u in d.gone ensures KeyOk(d, d.gone[u]) { assert KeyOk(c, c.gone[u]); }
  }

  lemma InitJobKeepsKeyPc(c: Cluster, d: Cluster, pc: K.Pc)
    requires KeyPcOk(c, pc) && d.(initJobs := c.initJobs) == c
    ensures KeyPcOk(d, pc)
  {
    hide HasTrue, StepKey, Tracks, TracksRepo, StepJobs, Purged;
  }

  lemma InitJobEvent(c: Cluster, d: Cluster, key: K.Pc, repo: R.Pc)
    requires ClusterOk(c) && KeyPcOk(c, key) && d.(initJobs := c.initJobs) == c && RepositorySide(d, repo)
    ensures Inv(State(d, key, repo))
  {
    hide HasTrue, KeysOk, KeyPcOk, JobShape, JobOwned, JobHome, BackendOk, ReposOk;
    InitJobKeepsKeys(c, d);
    InitJobKeepsKeyPc(c, d, key);
    assert JobsOk(d) && Ids(d);
  }

  lemma PutRepositoryEvolves(c: Cluster, r: Repository)
    requires r.name in c.repos && SameRepo(c.repos[r.name], r) && (c.repos[r.name].deleting ==> r.deleting)
    ensures ReposEvolve(c, PutRepository(c, r))
  {
  }

  lemma NewRepositoryEvolves(c: Cluster, name: string, url: string, held: bool)
    ensures ReposEvolve(c, E.NewRepository(c, name, url, held))
  {
    hide HasTrue;
  }

  lemma RepositoryEventKeepsInv(s: State, e: E.Event)
    requires Inv(s) && E.OnRepositories(e)
    ensures Inv(Next(s, Environment(e)))
  {
    hide KeysOk, JobsOk, BackendOk, KeyPcOk, RepoPcOk, ReposOk, ReposEvolve, HasTrue, PutRepository;
    var c, d := s.cluster, Next(s, Environment(e)).cluster;
    if d != c {
      if e.CreateRepository? {
        NewRepositoryKeeps(c, e.name, e.url, e.held, s.repo);
        NewRepositoryEvolves(c, e.name, e.url, e.held);
      } else {
        var r := c.repos[e.name];
        var r' := if e.EditRepository? then r.(url := e.url)
                  else if e.DeleteRepository? then r.(deleting := true, held := r.held || e.foreground)
                  else r.(held := false);
        assert d == PutRepository(c, r');
        PutRepositoryKeeps(c, r', s.repo);
        PutRepositoryEvolves(c, r');
      }
      RepositoryEvent(c, d, s.key, s.repo);
    }
  }

  lemma KeyEventKeepsInv(s: State, e: E.Event)
    requires Inv(s) && E.OnKeys(e)
    ensures Inv(Next(s, Environment(e)))
  {
    hide KeysOk, JobsOk, BackendOk, KeyPcOk, RepoPcOk, ReposOk;
    var c, d := s.cluster, Next(s, Environment(e)).cluster;
    if d != c {
      if e.CreateKey? {
        NewKeyEvolves(c, e.name, e.spec, e.controller, e.held, K.Busy(s.key));
      } else {
        var k := c.keys[e.name];
        var k' := if e.EditKey? then k.(spec := e.spec)
                  else if e.DeleteKey? then k.(deleting := true, held := k.held || e.foreground)
                  else k.(held := false);
        assert d == PutKey(c, k');
        PutKeyEvolves(c, k', K.Busy(s.key));
      }
      KeyEvent(c, d, s.key, s.repo);
    }
  }

  lemma KeyJobEventKeepsInv(s: State, e: E.Event)
    requires Inv(s) && E.OnKeyJobs(e)
    ensures Inv(Next(s, Environment(e)))
  {
    hide KeysOk, KeyPcOk, RepoPcOk, ReposOk;
    var c, d := s.cluster, Next(s, Environment(e)).cluster;
    if d != c {
      assert JobShape(c.jobs[e.job]);
      match e {
        case FinishAddJob(j, early, pre, id, post) =>
          ExtractReported(pre + MARKER + id + post, pre, id, post);
          CompleteAddEvolves(c, j, early, pre + MARKER + id + post, id);
        case FinishDeleteJob(j, early) => CompleteDeleteEvolves(c, j, early);
        case FailKeyJob(j, early, log) => FailEvolves(c, j, early, log);
        case CollectJob(j) => CollectEvolves(c, j);
      }
      KeyJobEvent(c, d, e.job, s.key, s.repo);
    }
  }

  lemma InitJobEventKeepsInv(s: State, e: E.Event)
    requires Inv(s) && E.OnInitJobs(e)
    ensures Inv(Next(s, Environment(e)))
  {
    hide KeysOk, JobsOk, BackendOk, KeyPcOk, RepoPcOk, ReposOk;
    var c, d := s.cluster, Next(s, Environment(e)).cluster;
    if d != c {
      if e.FinishInitJob? {
        ConcludeInitKeeps(c, e.name, e.early, e.ok, s.repo);
      } else {
        CollectInitKeeps(c, e.name, s.repo);
      }
      InitJobEvent(c, d, s.key, s.repo);
    }
  }

  lemma SecretEventKeepsInv(s: State, e: E.Event)
    requires Inv(s) && E.OnSecrets(e)
    ensures Inv(Next(s, Environment(e)))
  {
    hide KeysOk, JobsOk, BackendOk, KeyPcOk, RepoPcOk, ReposOk;
    SecretEvent(s.cluster, Next(s, Environment(e)).cluster, s.key, s.repo);
  }

  lemma EventKeepsInv(s: State, e: E.Event)
    requires Inv(s)
    ensures Inv(Next(s, Environment(e)))
  {
    hide Inv, E.Happen;
    if E.OnRepositories(e) {
      RepositoryEventKeepsInv(s, e);
    } else if E.OnKeys(e) {
      KeyEventKeepsInv(s, e);
    } else if E.OnSecrets(e) {
      SecretEventKeepsInv(s, e);
    } else if E.OnInitJobs(e) {
      InitJobEventKeepsInv(s, e);
    } else {
      KeyJobEventKeepsInv(s, e);
    }
  }
}
