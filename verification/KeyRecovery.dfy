/** Key reconciles without faults: their effect as a whole, when they settle, and recovery of a deletion. */
module KeyRecovery {
  import opened Options
  import opened Conditions
  import opened KeyLog
  import opened Resources
  import opened ApiServer
  import opened Operator
  import opened Invariant
  import opened Safety
  import opened RepositorySteps
  import E = Environment
  import K = KeyController
  import R = RepositoryController
  import EnvironmentSteps

  /** The calls from pc on, all succeeding and nobody else acting; the one listing comes in the given order. */
  function Finish(c: Cluster, pc: K.Pc, order: seq<nat>): Cluster
    decreases K.Rank(pc)
  {
    if pc.Idle? then c
    else
      K.CallDescends(c, pc, K.Success(order));
      var (d, pc') := K.Call(c, pc, K.Success(order));
      Finish(d, pc', order)
  }

  function Reconcile(c: Cluster, n: string, order: seq<nat>): Cluster {
    Finish(c, K.GetKey(n), order)
  }

  lemma {:induction false} FinishKeepsInv(c: Cluster, pc: K.Pc, order: seq<nat>, repo: R.Pc)
    requires Inv(State(c, pc, repo))
    ensures Inv(State(Finish(c, pc, order), K.Idle, repo))
    decreases K.Rank(pc)
  {
    hide Inv, K.Call;
    if !pc.Idle? {
      K.CallDescends(c, pc, K.Success(order));
      var (d, pc') := K.Call(c, pc, K.Success(order));
      NextKeepsInv(State(c, pc, repo), KeyCall(K.Success(order)));
      FinishKeepsInv(d, pc', order, repo);
    }
  }

  lemma ReconcileKeepsInv(c: Cluster, n: string, order: seq<nat>, repo: R.Pc)
    requires Inv(State(c, K.GetKey(n), repo))
    ensures Inv(State(Reconcile(c, n, order), K.Idle, repo))
  {
    hide Inv;
    FinishKeepsInv(c, K.GetKey(n), order, repo);
  }

  // ----- the jobs of an existing key, whatever the order of a listing -----

  /** A listing for the key returns its own jobs, of which there is at most one for each operation. */
  ghost predicate OwnJobs(jobs: Jobs, k: Key) {
    && (forall j :: j in jobs ==> (Listed(jobs, k.name, j) <==> jobs[j].owner == k.uid))
    && (forall i, j :: AddJobOf(jobs, i, k.uid) && AddJobOf(jobs, j, k.uid) ==> i == j)
    && (forall i, j :: DeleteJobOf(jobs, i, k.uid) && DeleteJobOf(jobs, j, k.uid) ==> i == j)
  }

  ghost function TheAddJob(jobs: Jobs, uid: nat): Option<Job> {
    if HasAddJob(jobs, uid) then var j :| AddJobOf(jobs, j, uid); Some(jobs[j]) else None
  }

  ghost function TheDeleteJob(jobs: Jobs, uid: nat): Option<Job> {
    if HasDeleteJob(jobs, uid) then var j :| DeleteJobOf(jobs, j, uid); Some(jobs[j]) else None
  }

  ghost predicate AnyComplete(jobs: Jobs, uid: nat) {
    exists j :: j in jobs && jobs[j].owner == uid && jobs[j].IsComplete()
  }

  lemma LiveOwnJobs(c: Cluster, k: Key)
    requires ClusterOk(c) && KeyUnchanged(c, k)
    ensures OwnJobs(c.jobs, k)
  {
    assert LiveKeyOk(c.jobs, c.secrets, k);
    forall j | j in c.jobs ensures Listed(c.jobs, k.name, j) <==> c.jobs[j].owner == k.uid {
      assert JobOwned(c.keys, c.jobs[j]);
    }
  }

  lemma ListedDelete(jobs: Jobs, k: Key, order: seq<nat>)
    requires OwnJobs(jobs, k) && IsListing(jobs, k.name, order)
    ensures K.FirstJob(Fetch(jobs, order), DeleteKey) == TheDeleteJob(jobs, k.uid)
  {
    var found, the := K.FirstJob(Fetch(jobs, order), DeleteKey), TheDeleteJob(jobs, k.uid);
    if found.Some? {
      var i :| 0 <= i < |order| && Fetch(jobs, order)[i] == found.value;
      assert order[i] in order && DeleteJobOf(jobs, order[i], k.uid);
    }
    if the.Some? {
      var j :| DeleteJobOf(jobs, j, k.uid);
      var i :| 0 <= i < |order| && order[i] == j;
      assert Fetch(jobs, order)[i] == jobs[j];
    }
  }

  lemma ListedAdd(jobs: Jobs, k: Key, order: seq<nat>)
    requires OwnJobs(jobs, k) && IsListing(jobs, k.name, order)
    ensures K.FirstJob(Fetch(jobs, order), AddKey) == TheAddJob(jobs, k.uid)
  {
    var found, the := K.FirstJob(Fetch(jobs, order), AddKey), TheAddJob(jobs, k.uid);
    if found.Some? {
      var i :| 0 <= i < |order| && Fetch(jobs, order)[i] == found.value;
      assert order[i] in order && AddJobOf(jobs, order[i], k.uid);
    }
    if the.Some? {
      var j :| AddJobOf(jobs, j, k.uid);
      var i :| 0 <= i < |order| && order[i] == j;
      assert Fetch(jobs, order)[i] == jobs[j];
    }
  }

  lemma ListedAny(jobs: Jobs, k: Key, order: seq<nat>)
    requires OwnJobs(jobs, k) && IsListing(jobs, k.name, order)
    ensures Fetch(jobs, order) == [] <==> NoJobs(jobs, k.uid)
    ensures (exists job :: job in Fetch(jobs, order) && job.IsComplete()) <==> AnyComplete(jobs, k.uid)
  {
    var list := Fetch(jobs, order);
    if list != [] { assert order[0] in order; }
    forall job | job in list && job.IsComplete() ensures AnyComplete(jobs, k.uid) {
      var i :| 0 <= i < |order| && list[i] == job;
      assert order[i] in order;
    }
    forall j | j in jobs && jobs[j].owner == k.uid ensures jobs[j] in list {
      var i :| 0 <= i < |order| && order[i] == j;
      assert list[i] == jobs[j];
    }
  }

  // ----- the effect of one reconcile -----

  function WithKey(c: Cluster, k: Key): Cluster {
    c.(keys := c.keys[k.name := k])
  }

  /** The next call once the key's jobs are known. */
  ghost function Choose(jobs: Jobs, k: Key, repo: Repository): K.Pc {
    if k.deleting then
      if repo.deleting then K.DropFinalizer(k, K.RepoDeleting)
      else match TheDeleteJob(jobs, k.uid)
        case Some(job) => K.AfterRemoval(k, job)
        case None => if DeleteKeyJob(repo, k).Some? then K.CreateDeleteJob(k, repo) else K.Idle
    else if k.IsCreated() || k.IsFailed() then K.Idle
    else if NoJobs(jobs, k.uid) then if repo.IsCreated() then K.GetSecret(k, repo) else K.Idle
    else if AnyComplete(jobs, k.uid) then
      match TheAddJob(jobs, k.uid)
      case Some(job) => if job.FinalCondition().Some? then K.ReadLog(k, job) else K.Idle
      case None => K.Idle
    else K.Idle
  }

  lemma ListedChoice(jobs: Jobs, k: Key, repo: Repository, order: seq<nat>)
    requires OwnJobs(jobs, k) && IsListing(jobs, k.name, order)
    ensures K.AfterListJobs(k, repo, Fetch(jobs, order)) == Choose(jobs, k, repo)
  {
    ListedDelete(jobs, k, order);
    ListedAdd(jobs, k, order);
    ListedAny(jobs, k, order);
    hide OwnJobs, IsListing, TheAddJob, TheDeleteJob, NoJobs, AnyComplete, K.FirstJob;
  }

  function Added(c: Cluster, k: Key, repo: Repository): Cluster {
    if k.SecretName() !in c.secrets then
      CreateKeyJob(c.(secrets := c.secrets[k.SecretName() := Secret([k.uid])]), AddKeyJob(repo, k))
    else if SecretOwned(c.secrets, k.SecretName(), k.uid) then CreateKeyJob(c, AddKeyJob(repo, k))
    else c
  }

  function Carry(c: Cluster, pc: K.Pc): Cluster {
    match pc
    case DropFinalizer(k, _) => PutKey(c, k.(finalizer := false))
    case CreateDeleteJob(k, repo) => if DeleteKeyJob(repo, k).Some? then CreateKeyJob(c, DeleteKeyJob(repo, k).value) else c
    case GetSecret(k, repo) => Added(c, k, repo)
    case ReadLog(k, job) =>
      (match K.AfterReadLog(k, job)
       case StoreStatus(_, updated) => WithKey(c, k.(conditions := updated.conditions, keyID := updated.keyID))
       case _ => c)
    case _ => c
  }

  ghost function Decided(c: Cluster, k: Key, repo: Repository): Cluster {
    Carry(c, Choose(c.jobs, k, repo))
  }

  ghost function Effect(c: Cluster, n: string): Cluster {
    if n !in c.keys then c
    else
      var k := c.keys[n];
      if k.spec.repository !in c.repos then if k.deleting then PutKey(c, k.(finalizer := false)) else c
      else
        var repo := c.repos[k.spec.repository];
        if k.conditions != [] then Decided(c, k, repo)
        else
          var defaulted := K.WithDefaults(k);
          if K.OwnedByAnother(k, repo) || k.deleting then WithKey(c, defaulted)
          else Decided(WithKey(c, K.WithMetadata(defaulted, repo)), K.WithMetadata(defaulted, repo), repo)
  }

  lemma Step(c: Cluster, pc: K.Pc, order: seq<nat>, d: Cluster, pc': K.Pc)
    requires !pc.Idle? && K.Call(c, pc, K.Success(order)) == (d, pc')
    ensures Finish(c, pc, order) == Finish(d, pc', order)
    ensures pc'.Idle? ==> Finish(c, pc, order) == d
  {
    hide K.Call;
  }

  lemma FinishAdded(c: Cluster, k: Key, repo: Repository, order: seq<nat>)
    ensures Finish(c, K.GetSecret(k, repo), order) == Added(c, k, repo)
  {
    var d := c.(secrets := c.secrets[k.SecretName() := Secret([k.uid])]);
    var pc := K.AfterGetSecret(c, k, repo);
    Step(c, K.GetSecret(k, repo), order, c, pc);
    if pc.CreateSecret? {
      Step(c, pc, order, d, K.CreateAddJob(k, repo));
      Step(d, K.CreateAddJob(k, repo), order, CreateKeyJob(d, AddKeyJob(repo, k)), K.Idle);
    } else if pc.CreateAddJob? {
      Step(c, pc, order, CreateKeyJob(c, AddKeyJob(repo, k)), K.Idle);
    }
  }

  lemma FinishRead(c: Cluster, k: Key, job: Job, order: seq<nat>)
    requires KeyUnchanged(c, k)
    ensures Finish(c, K.ReadLog(k, job), order) == Carry(c, K.ReadLog(k, job))
  {
    hide MarkCreated, MarkFailed, ExtractKeyID;
    var pc := K.AfterReadLog(k, job);
    Step(c, K.ReadLog(k, job), order, c, pc);
    if pc.StoreStatus? {
      Step(c, pc, order, WithKey(c, k.(conditions := pc.updated.conditions, keyID := pc.updated.keyID)), K.Idle);
    }
  }

  lemma FinishDrop(c: Cluster, k: Key, reason: K.DropReason, order: seq<nat>)
    requires KeyUnchanged(c, k)
    ensures Finish(c, K.DropFinalizer(k, reason), order) == PutKey(c, k.(finalizer := false))
  {
    Step(c, K.DropFinalizer(k, reason), order, PutKey(c, k.(finalizer := false)), K.Idle);
  }

  lemma ChosenShape(jobs: Jobs, k: Key, repo: Repository)
    ensures var pc := Choose(jobs, k, repo);
            && (pc.Idle? || pc.DropFinalizer? || pc.CreateDeleteJob? || pc.GetSecret? || pc.ReadLog? || pc.ReadRemovalLog?)
            && (!pc.Idle? ==> pc.key == k)
            && (pc.CreateDeleteJob? || pc.GetSecret? ==> pc.repo == repo)
  {
  }

  lemma FinishCarried(c: Cluster, k: Key, repo: Repository, pc: K.Pc, order: seq<nat>)
    requires KeyUnchanged(c, k)
    requires pc.Idle? || pc.DropFinalizer? || pc.CreateDeleteJob? || pc.GetSecret? || pc.ReadLog? || pc.ReadRemovalLog?
    requires (!pc.Idle? ==> pc.key == k) && (pc.CreateDeleteJob? || pc.GetSecret? ==> pc.repo == repo)
    ensures Finish(c, pc, order) == Carry(c, pc)
  {
    match pc
    case Idle =>
    case DropFinalizer(_, reason) => FinishDrop(c, k, reason, order);
    case CreateDeleteJob(_, _) => Step(c, pc, order, Carry(c, pc), K.Idle);
    case GetSecret(_, _) => FinishAdded(c, k, repo, order);
    case ReadLog(_, job) => FinishRead(c, k, job, order);
    case ReadRemovalLog(_) => Step(c, pc, order, c, K.Idle);
  }

  /** What follows a listing. */
  lemma FinishDecided(c: Cluster, k: Key, repo: Repository, order: seq<nat>)
    requires KeyUnchanged(c, k) && OwnJobs(c.jobs, k) && IsListing(c.jobs, k.name, order)
    ensures Finish(c, K.ListJobs(k, repo), order) == Decided(c, k, repo)
  {
    hide Choose, Carry, OwnJobs, K.AfterListJobs;
    ListedChoice(c.jobs, k, repo, order);
    Step(c, K.ListJobs(k, repo), order, c, Choose(c.jobs, k, repo));
    ChosenShape(c.jobs, k, repo);
    FinishCarried(c, k, repo, Choose(c.jobs, k, repo), order);
  }

  lemma FinishFresh(c: Cluster, k: Key, repo: Repository, order: seq<nat>)
    requires KeyUnchanged(c, k) && KeyShape(k) && k.conditions == [] && OwnJobs(c.jobs, k) && IsListing(c.jobs, k.name, order)
    ensures var defaulted := K.WithDefaults(k);
            Finish(c, K.DefaultStatus(k, repo), order) ==
            if K.OwnedByAnother(k, repo) || k.deleting then WithKey(c, defaulted)
            else Decided(WithKey(c, K.WithMetadata(defaulted, repo)), K.WithMetadata(defaulted, repo), repo)
  {
    hide Decided, Finish, IsListing;
    var l := K.WithDefaults(k);
    var c1 := WithKey(c, l);
    if K.OwnedByAnother(k, repo) {
      Step(c, K.DefaultStatus(k, repo), order, c1, K.Idle);
    } else {
      Step(c, K.DefaultStatus(k, repo), order, c1, K.SetMetadata(l, repo));
      if k.deleting {
        Step(c1, K.SetMetadata(l, repo), order, c1, K.Idle);
      } else {
        var m := K.WithMetadata(l, repo);
        assert c1.keys[k.name := m] == c.keys[k.name := m];
        Step(c1, K.SetMetadata(l, repo), order, WithKey(c, m), K.ListJobs(m, repo));
        FinishDecided(WithKey(c, m), m, repo, order);
      }
    }
  }

  /** One reconcile of a key, in any order of its listing, has this effect. */
  lemma ReconcileHasEffect(c: Cluster, n: string, order: seq<nat>)
    requires ClusterOk(c) && IsListing(c.jobs, n, order)
    ensures Reconcile(c, n, order) == Effect(c, n)
  {
    if n !in c.keys {
      Step(c, K.GetKey(n), order, c, K.Idle);
    } else {
      var k := c.keys[n];
      assert k.name == n && KeyOk(c, k);
      LiveOwnJobs(c, k);
      hide ClusterOk, Decided, Finish, IsListing, OwnJobs, KeyOk;
      Step(c, K.GetKey(n), order, c, K.GetRepo(k));
      if k.spec.repository !in c.repos {
        if k.deleting {
          Step(c, K.GetRepo(k), order, c, K.DropFinalizer(k, K.RepoGone));
          FinishDrop(c, k, K.RepoGone, order);
        } else {
          Step(c, K.GetRepo(k), order, c, K.Idle);
        }
      } else {
        var repo := c.repos[k.spec.repository];
        Step(c, K.GetRepo(k), order, c, K.AfterGetRepo(k, repo));
        if k.conditions != [] { FinishDecided(c, k, repo, order); } else { FinishFresh(c, k, repo, order); }
      }
    }
  }

  lemma EffectKeepsOk(c: Cluster, n: string, order: seq<nat>)
    requires ClusterOk(c) && IsListing(c.jobs, n, order)
    ensures Reconcile(c, n, order) == Effect(c, n) && ClusterOk(Effect(c, n))
  {
    hide ClusterOk, IsListing;
    ReconcileHasEffect(c, n, order);
    assert Inv(State(c, K.GetKey(n), R.Idle));
    ReconcileKeepsInv(c, n, order, R.Idle);
  }

  // ----- recovery of a deletion -----

  /** The key is gone or no longer carries the operator's finalizer. */
  predicate Dropped(c: Cluster, k: Key) {
    k.name in c.keys && c.keys[k.name].uid == k.uid ==> !c.keys[k.name].finalizer
  }

  /** A repository of the name that the key gives exists and is not being deleted. */
  predicate HomeIsKept(c: Cluster, k: Key) {
    k.spec.repository in c.repos && !c.repos[k.spec.repository].deleting
  }

  /**
    There is no repository to be kept; or the key's ID has been recorded, and there is a delete job that has not failed
    or one can be created.
   */
  ghost predicate CanDelete(c: Cluster, k: Key) {
    HomeIsKept(c, k) ==>
      k.IsCreated() && if HasDeleteJob(c.jobs, k.uid) then forall j :: DeleteJobOf(c.jobs, j, k.uid) ==> !c.jobs[j].IsFailed()
      else c.repos[k.spec.repository].IsCreated()
  }

  ghost predicate RunningDelete(jobs: Jobs, j: nat, uid: nat) {
    DeleteJobOf(jobs, j, uid) && !jobs[j].Finished()
  }

  /** The key's delete job, if it is still running, completes. */
  ghost function DeleteDone(c: Cluster, uid: nat, early: seq<Condition>): Cluster {
    if exists j :: RunningDelete(c.jobs, j, uid) then
      var j :| RunningDelete(c.jobs, j, uid);
      E.CompleteDelete(c, j, early)
    else c
  }

  lemma EffectOnDeletion(c: Cluster, k: Key)
    requires KeyUnchanged(c, k) && k.deleting && k.conditions != []
    ensures Effect(c, k.name) ==
            if !HomeIsKept(c, k) then PutKey(c, k.(finalizer := false))
            else Decided(c, k, c.repos[k.spec.repository])
  {
    hide PutKey;
  }

  lemma DecidedOnDeletion(c: Cluster, k: Key, repo: Repository)
    requires k.deleting && !repo.deleting
    ensures var the, d := TheDeleteJob(c.jobs, k.uid), Decided(c, k, repo);
            && (the.Some? && the.value.FinalCondition() == Some(JOB_COMPLETE) ==> d == PutKey(c, k.(finalizer := false)))
            && (the.Some? && the.value.FinalCondition() != Some(JOB_COMPLETE) ==> d == c)
            && (the.None? && DeleteKeyJob(repo, k).Some? ==> d == CreateKeyJob(c, DeleteKeyJob(repo, k).value))
            && (the.None? && DeleteKeyJob(repo, k).None? ==> d == c)
  {
    hide TheDeleteJob, PutKey, CreateKeyJob, Added, WithKey;
  }

  lemma CreatedHasID(c: Cluster, k: Key)
    requires ClusterOk(c) && KeyUnchanged(c, k)
    ensures (k.IsCreated() <==> k.keyID.Some?) && (HasDeleteJob(c.jobs, k.uid) ==> k.IsCreated())
    ensures k.finalizer ==> k.conditions != []
  {
    assert KeyOk(c, k);
    if HasDeleteJob(c.jobs, k.uid) { var j :| DeleteJobOf(c.jobs, j, k.uid); }
  }

  lemma DeleteJobIsFound(c: Cluster, k: Key, j: nat)
    requires ClusterOk(c) && KeyUnchanged(c, k) && DeleteJobOf(c.jobs, j, k.uid)
    ensures TheDeleteJob(c.jobs, k.uid) == Some(c.jobs[j])
    ensures c.jobs[j].FinalCondition() == Some(JOB_COMPLETE) <==> c.jobs[j].IsComplete()
    ensures !(c.jobs[j].IsComplete() && c.jobs[j].IsFailed())
    ensures forall i :: DeleteJobOf(c.jobs, i, k.uid) ==> i == j
  {
    assert JobShape(c.jobs[j]);
    LiveOwnJobs(c, k);
    hide ClusterOk;
    FinalConditionMeans(c.jobs[j]);
  }

  /** One reconcile of a key under deletion. */
  lemma DeletionStep(c: Cluster, k: Key)
    requires ClusterOk(c) && KeyUnchanged(c, k) && k.deleting && k.conditions != []
    ensures var d, dropped := Effect(c, k.name), PutKey(c, k.(finalizer := false));
            if !HomeIsKept(c, k) then d == dropped
            else if HasDeleteJob(c.jobs, k.uid) then
              forall j :: DeleteJobOf(c.jobs, j, k.uid) ==> d == if c.jobs[j].IsComplete() then dropped else c
            else if k.IsCreated() && c.repos[k.spec.repository].IsCreated() then
              exists job: Job :: job.owner == k.uid && job.IsDelete() && !job.Finished() && d == CreateKeyJob(c, job)
            else d == c
  {
    hide ClusterOk, TheDeleteJob, Decided, Effect, PutKey, CreateKeyJob;
    CreatedHasID(c, k);
    EffectOnDeletion(c, k);
    if HomeIsKept(c, k) {
      var repo := c.repos[k.spec.repository];
      DecidedOnDeletion(c, k, repo);
      if HasDeleteJob(c.jobs, k.uid) {
        forall j | DeleteJobOf(c.jobs, j, k.uid)
          ensures Effect(c, k.name) == if c.jobs[j].IsComplete() then PutKey(c, k.(finalizer := false)) else c
        {
          DeleteJobIsFound(c, k, j);
        }
      } else {
        NoDeleteJobFound(c.jobs, k.uid);
      }
    }
  }

  lemma NoDeleteJobFound(jobs: Jobs, uid: nat)
    requires !HasDeleteJob(jobs, uid)
    ensures TheDeleteJob(jobs, uid).None?
  {
  }

  /** A key that has lost the finalizer does not get it back. */
  lemma DroppedStays(c: Cluster, k: Key)
    requires ClusterOk(c) && k.deleting && k.conditions != [] && Dropped(c, k)
    requires k.name in c.keys ==> c.keys[k.name] == k.(finalizer := false)
    ensures Dropped(Effect(c, k.name), k)
  {
    hide ClusterOk, HasDeleteJob;
    if k.name in c.keys {
      DeletionStep(c, k.(finalizer := false));
      hide Effect;
    }
  }

  lemma CompletedKeepsOk(c: Cluster, j: nat, early: seq<Condition>)
    requires ClusterOk(c) && E.NotFinal(early) && j in c.jobs && c.jobs[j].IsDelete() && !c.jobs[j].Finished()
    ensures ClusterOk(E.CompleteDelete(c, j, early))
  {
    hide ClusterOk, E.CompleteDelete;
    var e := E.FinishDeleteJob(j, early);
    NextKeepsInv(State(c, K.Idle, R.Idle), Environment(e));
    assert E.Happen(c, None, None, e) == E.CompleteDelete(c, j, early);
  }

  lemma DeleteDoneKeepsOk(c: Cluster, k: Key, early: seq<Condition>)
    requires ClusterOk(c) && E.NotFinal(early)
    ensures var d := DeleteDone(c, k.uid, early); ClusterOk(d) && d.keys == c.keys && d.repos == c.repos
  {
    if j :| RunningDelete(c.jobs, j, k.uid) && DeleteDone(c, k.uid, early) == E.CompleteDelete(c, j, early) {
      hide ClusterOk;
      CompletedKeepsOk(c, j, early);
    }
  }

  lemma NothingDone(c: Cluster, uid: nat, early: seq<Condition>)
    requires !HasDeleteJob(c.jobs, uid)
    ensures DeleteDone(c, uid, early) == c
  {
  }

  /** The running delete job of an existing key is complete afterwards. */
  lemma DeleteDoneCompletes(c: Cluster, k: Key, j: nat, early: seq<Condition>)
    requires ClusterOk(c) && KeyUnchanged(c, k) && RunningDelete(c.jobs, j, k.uid) && E.NotFinal(early)
    ensures var d := DeleteDone(c, k.uid, early); DeleteJobOf(d.jobs, j, k.uid) && d.jobs[j].IsComplete()
  {
    hide ClusterOk, HasTrue, AnyWithStatus;
    DeleteJobIsFound(c, k, j);
    EnvironmentSteps.Concluded(c.jobs[j], early, JOB_COMPLETE);
  }

  /**
    From every reachable state, and so from whatever a crash left behind: after a fault-free reconcile, the
    completion of its delete job and another fault-free reconcile, a key under deletion has lost the operator's
    finalizer, if and only if CanDelete held before.
   */
  lemma DeletionRecovers(s: State, n: string, order: seq<nat>, early: seq<Condition>, order': seq<nat>)
    requires Reachable(s) && n in s.cluster.keys && E.NotFinal(early) && IsListing(s.cluster.jobs, n, order)
    requires var k := s.cluster.keys[n]; k.deleting && k.finalizer
    requires IsListing(DeleteDone(Reconcile(s.cluster, n, order), s.cluster.keys[n].uid, early).jobs, n, order')
    ensures var k := s.cluster.keys[n];
            Dropped(Reconcile(DeleteDone(Reconcile(s.cluster, n, order), k.uid, early), n, order'), k) <==> CanDelete(s.cluster, k)
  {
    var c := s.cluster;
    var k := c.keys[n];
    assert ClusterOk(c) && KeyUnchanged(c, k) && k.name == n by { ReachableInv(s); }
    hide ClusterOk, IsListing, Reconcile, Effect, Dropped, Reachable, CanDelete, DeleteDone;
    EffectKeepsOk(c, n, order);
    var d := Effect(c, n);
    DeleteDoneKeepsOk(d, k, early);
    ReconcileHasEffect(DeleteDone(d, k.uid, early), n, order');
    DeletionEnds(c, k, early);
  }

  lemma DeletionEnds(c: Cluster, k: Key, early: seq<Condition>)
    requires ClusterOk(c) && KeyUnchanged(c, k) && k.deleting && k.finalizer && E.NotFinal(early)
    requires ClusterOk(Effect(c, k.name))
    ensures Dropped(Effect(DeleteDone(Effect(c, k.name), k.uid, early), k.name), k) <==> CanDelete(c, k)
  {
    hide ClusterOk, DeleteDone, Effect, HasTrue;
    var d := Effect(c, k.name);
    var e := DeleteDone(d, k.uid, early);
    DeleteDoneKeepsOk(d, k, early);
    CreatedHasID(c, k);
    DeletionStep(c, k);
    if !HomeIsKept(c, k) {
      DroppedStays(e, k);
    } else if HasDeleteJob(c.jobs, k.uid) {
      var j :| DeleteJobOf(c.jobs, j, k.uid);
      DeleteJobIsFound(c, k, j);
      if c.jobs[j].IsComplete() {
        DroppedStays(e, k);
      } else {
        StillThere(c, k, j, early);
      }
    } else if k.IsCreated() && c.repos[k.spec.repository].IsCreated() {
      assert RunningDelete(d.jobs, c.nextUid, k.uid);
      StillThere(d, k, c.nextUid, early);
    } else {
      NothingDone(c, k.uid, early);
    }
  }

  /** With a delete job that is not complete, the second reconcile drops the finalizer unless the job has failed. */
  lemma StillThere(d: Cluster, k: Key, j: nat, early: seq<Condition>)
    requires ClusterOk(d) && KeyUnchanged(d, k) && k.deleting && k.finalizer && k.conditions != [] && E.NotFinal(early)
    requires HomeIsKept(d, k)
    requires DeleteJobOf(d.jobs, j, k.uid) && !d.jobs[j].IsComplete()
    ensures Dropped(Effect(DeleteDone(d, k.uid, early), k.name), k) <==> !d.jobs[j].IsFailed()
  {
    hide ClusterOk, Effect, E.CompleteDelete;
    var e := DeleteDone(d, k.uid, early);
    DeleteDoneKeepsOk(d, k, early);
    DeletionStep(e, k);
    DeleteJobIsFound(d, k, j);
    if d.jobs[j].IsFailed() {
      assert e == d;
    } else {
      DeleteDoneCompletes(d, k, j, early);
    }
  }

  /** While the repository that the key was registered with exists, only a failed delete job stands in the way. */
  lemma RegisteredCanDelete(s: State, k: Key)
    requires Reachable(s) && KeyUnchanged(s.cluster, k) && k.IsCreated()
    requires k.spec.repository in s.cluster.repos && Registered(k, s.cluster.repos[k.spec.repository])
    requires forall j :: DeleteJobOf(s.cluster.jobs, j, k.uid) ==> !s.cluster.jobs[j].IsFailed()
    ensures CanDelete(s.cluster, k)
  {
    var c := s.cluster;
    assert KeyOk(c, k) && JobsOk(c) by { ReachableInv(s); }
    var j :| AddJobOf(c.jobs, j, k.uid) && c.jobs[j].added == k.keyID;
    assert JobHome(c.repos, c.jobs[j]);
  }
}
