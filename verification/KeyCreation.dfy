/** Key reconciles without faults: when a key that is not under deletion becomes Created. */
module KeyCreation {
  import opened Options
  import opened Conditions
  import opened KeyLog
  import opened Resources
  import opened ApiServer
  import opened Operator
  import opened Invariant
  import opened Safety
  import opened RepositorySteps
  import opened KeyRecovery
  import E = Environment
  import K = KeyController
  import R = RepositoryController
  import EnvironmentSteps

  predicate SecretUsable(c: Cluster, k: Key) {
    k.SecretName() !in c.secrets || SecretOwned(c.secrets, k.SecretName(), k.uid)
  }

  /**
    The key is Created; or its add job has not failed; or it has none, one can be created now that its repository
    is Created, and its registration is not refused because another object controls it.
   */
  ghost predicate CanCreate(c: Cluster, k: Key) {
    || k.IsCreated()
    || (k.spec.repository in c.repos
        && var repo := c.repos[k.spec.repository];
        if HasAddJob(c.jobs, k.uid) then forall j :: AddJobOf(c.jobs, j, k.uid) ==> !c.jobs[j].IsFailed()
        else repo.IsCreated() && SecretUsable(c, k) && !(k.conditions == [] && K.OwnedByAnother(k, repo)))
  }

  ghost predicate RunningAdd(jobs: Jobs, j: nat, uid: nat) {
    AddJobOf(jobs, j, uid) && !jobs[j].Finished()
  }

  /** The key's add job, if it is still running, stores a restic key and reports its ID. */
  ghost function AddDone(c: Cluster, uid: nat, early: seq<Condition>, log: string, id: string): Cluster {
    if exists j :: RunningAdd(c.jobs, j, uid) then
      var j :| RunningAdd(c.jobs, j, uid);
      E.CompleteAdd(c, j, early, log, id)
    else c
  }

  predicate CreatedAs(c: Cluster, k: Key) {
    k.name in c.keys && c.keys[k.name].uid == k.uid && c.keys[k.name].IsCreated()
  }

  // ----- one reconcile -----

  /** The one add job of an existing key: what is complete reports its ID. */
  lemma AddJobIsFound(c: Cluster, k: Key, j: nat)
    requires ClusterOk(c) && KeyUnchanged(c, k) && AddJobOf(c.jobs, j, k.uid)
    ensures TheAddJob(c.jobs, k.uid) == Some(c.jobs[j])
    ensures c.jobs[j].FinalCondition() == Some(JOB_COMPLETE) <==> c.jobs[j].IsComplete()
    ensures !(c.jobs[j].IsComplete() && c.jobs[j].IsFailed())
    ensures c.jobs[j].IsComplete() ==> c.jobs[j].added.Some? && ExtractKeyID(c.jobs[j].log) == c.jobs[j].added
    ensures forall i :: AddJobOf(c.jobs, i, k.uid) ==> i == j
  {
    assert JobShape(c.jobs[j]);
    LiveOwnJobs(c, k);
    hide ClusterOk;
    FinalConditionMeans(c.jobs[j]);
  }

  /** A key that is not under deletion has no jobs but its add job. */
  lemma OnlyAddJobs(c: Cluster, k: Key)
    requires ClusterOk(c) && KeyUnchanged(c, k) && !k.deleting
    ensures NoJobs(c.jobs, k.uid) <==> !HasAddJob(c.jobs, k.uid)
    ensures forall j :: AddJobOf(c.jobs, j, k.uid) ==> (AnyComplete(c.jobs, k.uid) <==> c.jobs[j].IsComplete())
    ensures k.conditions == [] ==> NoJobs(c.jobs, k.uid)
  {
    assert KeyOk(c, k);
    LiveOwnJobs(c, k);
    forall j | j in c.jobs && c.jobs[j].owner == k.uid ensures AddJobOf(c.jobs, j, k.uid) {
      assert JobShape(c.jobs[j]);
      assert !DeleteJobOf(c.jobs, j, k.uid);
      var op := c.jobs[j].operation.value;
      assert op.AddKey? || op.DeleteKey?;
    }
  }

  lemma NotFailed(c: Cluster, k: Key)
    requires ClusterOk(c) && KeyUnchanged(c, k)
    ensures !k.IsFailed() && Phase(k.conditions) && (k.conditions == [] ==> !k.IsCreated())
  {
    assert KeyOk(c, k);
    HasTrueMeans([], CREATED);
  }

  lemma ChosenWithJob(c: Cluster, k: Key, repo: Repository, j: nat)
    requires ClusterOk(c) && KeyUnchanged(c, k) && !k.deleting && !k.IsCreated() && AddJobOf(c.jobs, j, k.uid)
    ensures Choose(c.jobs, k, repo) == if c.jobs[j].IsComplete() then K.ReadLog(k, c.jobs[j]) else K.Idle
  {
    NotFailed(c, k);
    AddJobIsFound(c, k, j);
    OnlyAddJobs(c, k);
    assert HasAddJob(c.jobs, k.uid);
    hide ClusterOk, NoJobs, AnyComplete, TheAddJob, TheDeleteJob, HasAddJob, HasTrue, AnyWithStatus, AddJobOf;
  }

  lemma IdIsTaken(c: Cluster, k: Key, job: Job, id: string)
    requires job.FinalCondition() == Some(JOB_COMPLETE) && ExtractKeyID(job.log) == Some(id)
    ensures Carry(c, K.ReadLog(k, job)) == WithKey(c, K.WithCreated(k, id))
  {
    hide MarkCreated, ExtractKeyID, AnyWithStatus;
  }

  /** With its add job, a key waits, or takes over the ID of the complete job. */
  lemma DecidedWithJob(c: Cluster, k: Key, repo: Repository, j: nat)
    requires ClusterOk(c) && KeyUnchanged(c, k) && !k.deleting && !k.IsCreated() && AddJobOf(c.jobs, j, k.uid)
    ensures Decided(c, k, repo) ==
            if c.jobs[j].IsComplete() then WithKey(c, K.WithCreated(k, c.jobs[j].added.value)) else c
  {
    AddJobIsFound(c, k, j);
    ChosenWithJob(c, k, repo, j);
    hide ClusterOk, Choose, K.WithCreated, ExtractKeyID;
    if c.jobs[j].IsComplete() {
      IdIsTaken(c, k, c.jobs[j], c.jobs[j].added.value);
      hide Carry;
    }
  }

  lemma DecidedWithoutJob(c: Cluster, k: Key, repo: Repository)
    requires !k.deleting && !k.IsCreated() && !k.IsFailed() && NoJobs(c.jobs, k.uid)
    ensures Decided(c, k, repo) ==
            if repo.IsCreated() && SecretUsable(c, k) then Added(c, k, repo) else c
  {
    hide NoJobs, AnyComplete, TheAddJob, TheDeleteJob;
  }

  /** The key as a reconcile registers it, unless it is refused. */
  function Registering(k: Key, repo: Repository): Key {
    if k.conditions == [] then K.WithMetadata(K.WithDefaults(k), repo) else k
  }

  lemma StartsWithoutJob(c: Cluster, k: Key, repo: Repository)
    requires ClusterOk(c) && KeyUnchanged(c, k) && !k.deleting && !k.IsCreated() && !HasAddJob(c.jobs, k.uid)
    requires k.spec.repository in c.repos && c.repos[k.spec.repository] == repo
    ensures var m := Registering(k, repo);
            var c1 := WithKey(c, m);
            Effect(c, k.name) ==
            if k.conditions == [] && K.OwnedByAnother(k, repo) then WithKey(c, K.WithDefaults(k))
            else if repo.IsCreated() && SecretUsable(c, k) then Added(c1, m, repo) else c1
  {
    hide ClusterOk, NoJobs, HasAddJob, Decided, HasTrue, AnyComplete, Added;
    NotFailed(c, k);
    OnlyAddJobs(c, k);
    DefaultPhaseIsPhased();
    var m := Registering(k, repo);
    assert k.conditions != [] ==> WithKey(c, m) == c by { assert c.keys[k.name := k] == c.keys; }
    assert NoJobs(WithKey(c, m).jobs, m.uid) && !m.IsCreated() && !m.IsFailed();
    DecidedWithoutJob(WithKey(c, m), m, repo);
  }

  /** A Created key is left alone. */
  lemma CreatedRests(c: Cluster, k: Key)
    requires KeyUnchanged(c, k) && !k.deleting && k.IsCreated() && k.conditions != []
    ensures Effect(c, k.name) == c
  {
    hide NoJobs, AnyComplete, TheAddJob, TheDeleteJob;
  }

  lemma WithJob(c: Cluster, k: Key, j: nat)
    requires ClusterOk(c) && KeyUnchanged(c, k) && !k.deleting && !k.IsCreated() && AddJobOf(c.jobs, j, k.uid)
    requires k.spec.repository in c.repos
    ensures Effect(c, k.name) == if c.jobs[j].IsComplete() then WithKey(c, K.WithCreated(k, c.jobs[j].added.value)) else c
  {
    OnlyAddJobs(c, k);
    assert c.jobs[j].owner == k.uid;
    assert k.conditions != [];
    DecidedWithJob(c, k, c.repos[k.spec.repository], j);
    hide ClusterOk, NoJobs, Decided;
  }

  // ----- two reconciles with the add job completing in between -----

  lemma CompletedKeepsOk(c: Cluster, j: nat, early: seq<Condition>, pre: string, id: string, post: string)
    requires ClusterOk(c) && E.NotFinal(early) && j in c.jobs && c.jobs[j].IsAdd() && !c.jobs[j].Finished()
    requires E.FreshID(c, id) && Reports(pre + MARKER + id + post, pre, id, post)
    ensures ClusterOk(E.CompleteAdd(c, j, early, pre + MARKER + id + post, id))
  {
    hide ClusterOk, E.CompleteAdd, E.FreshID, Reports;
    var e := E.FinishAddJob(j, early, pre, id, post);
    NextKeepsInv(State(c, K.Idle, R.Idle), Environment(e));
    assert E.Happen(c, None, None, e) == E.CompleteAdd(c, j, early, pre + MARKER + id + post, id);
  }

  lemma AddDoneKeepsOk(c: Cluster, uid: nat, early: seq<Condition>, pre: string, id: string, post: string)
    requires ClusterOk(c) && E.NotFinal(early) && E.FreshID(c, id) && Reports(pre + MARKER + id + post, pre, id, post)
    ensures var d := AddDone(c, uid, early, pre + MARKER + id + post, id); ClusterOk(d) && d.keys == c.keys && d.repos == c.repos
  {
    var log := pre + MARKER + id + post;
    if j :| RunningAdd(c.jobs, j, uid) && AddDone(c, uid, early, log, id) == E.CompleteAdd(c, j, early, log, id) {
      hide ClusterOk, Reports;
      CompletedKeepsOk(c, j, early, pre, id, post);
    }
  }

  lemma AddDoneCompletes(c: Cluster, k: Key, j: nat, early: seq<Condition>, log: string, id: string)
    requires ClusterOk(c) && KeyUnchanged(c, k) && RunningAdd(c.jobs, j, k.uid) && E.NotFinal(early)
    ensures var d := AddDone(c, k.uid, early, log, id); AddJobOf(d.jobs, j, k.uid) && d.jobs[j].IsComplete()
  {
    hide ClusterOk, HasTrue, ExtractKeyID, AnyWithStatus;
    AddJobIsFound(c, k, j);
    EnvironmentSteps.Concluded(c.jobs[j], early, JOB_COMPLETE);
  }

  lemma NothingRunning(c: Cluster, uid: nat, early: seq<Condition>, log: string, id: string)
    requires forall j :: !RunningAdd(c.jobs, j, uid)
    ensures AddDone(c, uid, early, log, id) == c
  {
  }

  lemma CreatedNow(c: Cluster, k: Key, id: string)
    requires Phased(k.conditions)
    ensures var l := K.WithCreated(k, id); l.IsCreated() && l.conditions != [] && CreatedAs(WithKey(c, l), k)
  {
    SettersOrderEntries(k.conditions);
    hide MarkCreated;
  }

  /** With an add job that is not finished with failure, the key is Created in the end; otherwise it is not. */
  lemma JobEnds(c: Cluster, k: Key, j: nat, early: seq<Condition>, pre: string, id: string, post: string)
    requires ClusterOk(c) && KeyUnchanged(c, k) && !k.deleting && !k.IsCreated() && AddJobOf(c.jobs, j, k.uid) && !c.jobs[j].IsComplete()
    requires k.spec.repository in c.repos && k.conditions != []
    requires E.NotFinal(early) && E.FreshID(c, id) && Reports(pre + MARKER + id + post, pre, id, post)
    ensures CreatedAs(Effect(AddDone(c, k.uid, early, pre + MARKER + id + post, id), k.name), k) <==> !c.jobs[j].IsFailed()
  {
    var log := pre + MARKER + id + post;
    var e := AddDone(c, k.uid, early, log, id);
    NotFailed(c, k);
    AddJobIsFound(c, k, j);
    AddDoneKeepsOk(c, k.uid, early, pre, id, post);
    if c.jobs[j].IsFailed() {
      NothingRunning(c, k.uid, early, log, id);
      WithJob(c, k, j);
    } else {
      AddDoneCompletes(c, k, j, early, log, id);
      hide ClusterOk, AddDone, Reports, Effect;
      WithJob(e, k, j);
      CreatedNow(e, k, e.jobs[j].added.value);
    }
  }

  lemma AddedShape(c: Cluster, k: Key, repo: Repository)
    requires SecretUsable(c, k)
    ensures var d := Added(c, k, repo);
            && d.keys == c.keys && d.repos == c.repos
            && AddJobOf(d.jobs, c.nextUid, k.uid) && !d.jobs[c.nextUid].IsComplete() && !d.jobs[c.nextUid].IsFailed()
  {
    assert AddKeyJob(repo, k).conditions == [];
  }

  lemma RegisteringIsNotCreated(k: Key, repo: Repository)
    requires !k.IsCreated()
    ensures var m := Registering(k, repo);
            m.name == k.name && m.uid == k.uid && m.spec == k.spec && m.deleting == k.deleting && m.conditions != [] && !m.IsCreated()
  {
    DefaultPhaseIsPhased();
  }

  /** Without an add job, a reconcile does not make the key Created. */
  lemma NotCreatedYet(c: Cluster, k: Key)
    requires ClusterOk(c) && KeyUnchanged(c, k) && !k.deleting && !k.IsCreated() && !HasAddJob(c.jobs, k.uid)
    requires k.spec.repository in c.repos
    ensures !CreatedAs(Effect(c, k.name), k)
  {
    hide ClusterOk, Effect, HasAddJob, HasTrue, Added, Registering, K.OwnedByAnother, SecretUsable, AddJobOf, CreatedAs;
    var repo := c.repos[k.spec.repository];
    var m := Registering(k, repo);
    StartsWithoutJob(c, k, repo);
    RegisteringIsNotCreated(k, repo);
    DefaultPhaseIsPhased();
    NotCreatedWith(c, k, m);
    NotCreatedWith(c, k, K.WithDefaults(k));
    if SecretUsable(c, k) {
      UsableToo(c, k, m);
      AddedShape(WithKey(c, m), m, repo);
      SameKeys(WithKey(c, m), Added(WithKey(c, m), m, repo), k);
    }
  }

  lemma NotCreatedWith(c: Cluster, k: Key, l: Key)
    requires l.name == k.name && !l.IsCreated()
    ensures !CreatedAs(WithKey(c, l), k)
  {
  }

  lemma UsableToo(c: Cluster, k: Key, l: Key)
    requires l.name == k.name && l.uid == k.uid && l.spec == k.spec && SecretUsable(c, k)
    ensures SecretUsable(WithKey(c, l), l)
  {
  }

  lemma SameKeys(c: Cluster, d: Cluster, k: Key)
    requires d.keys == c.keys
    ensures CreatedAs(d, k) <==> CreatedAs(c, k)
  {
  }

  /** It starts one, if it can. */
  lemma JobStarts(c: Cluster, k: Key, repo: Repository)
    requires ClusterOk(c) && KeyUnchanged(c, k) && !k.deleting && !k.IsCreated() && !HasAddJob(c.jobs, k.uid)
    requires k.spec.repository in c.repos && c.repos[k.spec.repository] == repo && repo.IsCreated() && SecretUsable(c, k)
    requires !(k.conditions == [] && K.OwnedByAnother(k, repo))
    ensures var d, m := Effect(c, k.name), Registering(k, repo);
            && KeyUnchanged(d, m) && d.repos == c.repos && m.conditions != [] && !m.IsCreated()
            && AddJobOf(d.jobs, c.nextUid, m.uid) && !d.jobs[c.nextUid].IsComplete() && !d.jobs[c.nextUid].IsFailed()
  {
    hide ClusterOk, Effect, HasAddJob, HasTrue, Added, Registering, AddJobOf;
    var m := Registering(k, repo);
    StartsWithoutJob(c, k, repo);
    RegisteringIsNotCreated(k, repo);
    AddedShape(WithKey(c, m), m, repo);
  }

  /** Otherwise it leaves the key, perhaps with its default status, and no job. */
  lemma NoJobStarts(c: Cluster, k: Key, repo: Repository)
    requires ClusterOk(c) && KeyUnchanged(c, k) && !k.deleting && !k.IsCreated() && !HasAddJob(c.jobs, k.uid)
    requires k.spec.repository in c.repos && c.repos[k.spec.repository] == repo && !CanCreate(c, k)
    ensures var d := Effect(c, k.name);
            && d.jobs == c.jobs && d.repos == c.repos && k.name in d.keys
            && var l := d.keys[k.name]; l.name == k.name && l.uid == k.uid && l.spec == k.spec && !l.deleting && !l.IsCreated()
  {
    hide ClusterOk, Effect, HasAddJob, HasTrue, Added, AddJobOf;
    StartsWithoutJob(c, k, repo);
    RegisteringIsNotCreated(k, repo);
    DefaultPhaseIsPhased();
  }

  lemma FirstJobEnds(c: Cluster, k: Key, early: seq<Condition>, pre: string, id: string, post: string)
    requires ClusterOk(c) && KeyUnchanged(c, k) && !k.deleting && !k.IsCreated() && !HasAddJob(c.jobs, k.uid)
    requires k.spec.repository in c.repos && ClusterOk(Effect(c, k.name))
    requires E.NotFinal(early) && E.FreshID(Effect(c, k.name), id) && Reports(pre + MARKER + id + post, pre, id, post)
    ensures CreatedAs(Effect(AddDone(Effect(c, k.name), k.uid, early, pre + MARKER + id + post, id), k.name), k) <==> CanCreate(c, k)
  {
    var repo, d := c.repos[k.spec.repository], Effect(c, k.name);
    hide ClusterOk, Effect, AddDone, Reports, E.FreshID, HasTrue, HasAddJob, CreatedAs;
    if CanCreate(c, k) {
      JobStarts(c, k, repo);
      JobEnds(d, Registering(k, repo), c.nextUid, early, pre, id, post);
      SameIdentity(Effect(AddDone(d, k.uid, early, pre + MARKER + id + post, id), k.name), k, Registering(k, repo));
    } else {
      NoJobStarts(c, k, repo);
      var l := d.keys[k.name];
      NoneRunning(d, k.uid, early, pre + MARKER + id + post, id);
      NotCreatedYet(d, l);
      SameIdentity(Effect(d, k.name), k, l);
    }
  }

  lemma SameIdentity(c: Cluster, k: Key, l: Key)
    requires l.name == k.name && l.uid == k.uid
    ensures CreatedAs(c, k) <==> CreatedAs(c, l)
  {
  }

  lemma NoneRunning(c: Cluster, uid: nat, early: seq<Condition>, log: string, id: string)
    requires !HasAddJob(c.jobs, uid)
    ensures AddDone(c, uid, early, log, id) == c
  {
  }

  lemma CreatedStays(c: Cluster, k: Key, early: seq<Condition>, pre: string, id: string, post: string)
    requires ClusterOk(c) && KeyUnchanged(c, k) && !k.deleting && k.IsCreated()
    requires E.NotFinal(early) && E.FreshID(c, id) && Reports(pre + MARKER + id + post, pre, id, post)
    ensures Effect(c, k.name) == c && CreatedAs(Effect(AddDone(c, k.uid, early, pre + MARKER + id + post, id), k.name), k)
  {
    NotFailed(c, k);
    AddDoneKeepsOk(c, k.uid, early, pre, id, post);
    hide ClusterOk, AddDone, Reports, E.FreshID, Effect;
    CreatedRests(c, k);
    CreatedRests(AddDone(c, k.uid, early, pre + MARKER + id + post, id), k);
  }

  /** With a complete add job, the first reconcile takes over its ID. */
  lemma CompleteJobEnds(c: Cluster, k: Key, j: nat, early: seq<Condition>, pre: string, id: string, post: string)
    requires ClusterOk(c) && KeyUnchanged(c, k) && !k.deleting && !k.IsCreated() && AddJobOf(c.jobs, j, k.uid) && c.jobs[j].IsComplete()
    requires k.spec.repository in c.repos && k.conditions != [] && ClusterOk(Effect(c, k.name))
    requires E.NotFinal(early) && E.FreshID(Effect(c, k.name), id) && Reports(pre + MARKER + id + post, pre, id, post)
    ensures CreatedAs(Effect(AddDone(Effect(c, k.name), k.uid, early, pre + MARKER + id + post, id), k.name), k)
  {
    NotFailed(c, k);
    AddJobIsFound(c, k, j);
    WithJob(c, k, j);
    var new_id := c.jobs[j].added.value;
    CreatedNow(c, k, new_id);
    WithCreatedKeeps(k, new_id);
    hide ClusterOk, AddDone, Reports, E.FreshID, Effect, K.WithCreated, HasTrue;
    CreatedStays(Effect(c, k.name), K.WithCreated(k, new_id), early, pre, id, post);
  }

  lemma CreationEnds(c: Cluster, k: Key, early: seq<Condition>, pre: string, id: string, post: string)
    requires ClusterOk(c) && KeyUnchanged(c, k) && !k.deleting && ClusterOk(Effect(c, k.name))
    requires E.NotFinal(early) && E.FreshID(Effect(c, k.name), id) && Reports(pre + MARKER + id + post, pre, id, post)
    ensures CreatedAs(Effect(AddDone(Effect(c, k.name), k.uid, early, pre + MARKER + id + post, id), k.name), k) <==> CanCreate(c, k)
  {
    hide ClusterOk, AddDone, Reports, E.FreshID, Effect, HasTrue, AddJobOf, CreatedAs, NoJobs;
    if k.IsCreated() {
      NotFailed(c, k);
      assert k.conditions != [];
      CreatedRests(c, k);
      CreatedStays(c, k, early, pre, id, post);
    } else if k.spec.repository !in c.repos {
      WithoutRepository(c, k);
      AddDoneKeepsOk(c, k.uid, early, pre, id, post);
      WithoutRepository(AddDone(c, k.uid, early, pre + MARKER + id + post, id), k);
      NotCreatedAs(AddDone(c, k.uid, early, pre + MARKER + id + post, id), k);
    } else if j :| AddJobOf(c.jobs, j, k.uid) {
      JobIsThere(c, k, j);
      AddJobIsFound(c, k, j);
      if c.jobs[j].IsComplete() {
        CompleteJobEnds(c, k, j, early, pre, id, post);
      } else {
        WithJob(c, k, j);
        JobEnds(c, k, j, early, pre, id, post);
      }
    } else {
      FirstJobEnds(c, k, early, pre, id, post);
    }
  }

  lemma JobIsThere(c: Cluster, k: Key, j: nat)
    requires ClusterOk(c) && KeyUnchanged(c, k) && !k.deleting && AddJobOf(c.jobs, j, k.uid)
    ensures j in c.jobs && k.conditions != []
  {
    OnlyAddJobs(c, k);
    assert c.jobs[j].owner == k.uid;
  }

  lemma NotCreatedAs(c: Cluster, k: Key)
    requires KeyUnchanged(c, k) && !k.IsCreated()
    ensures !CreatedAs(c, k)
  {
  }

  lemma WithCreatedKeeps(k: Key, id: string)
    ensures var l := K.WithCreated(k, id); l.name == k.name && l.uid == k.uid && l.deleting == k.deleting
  {
  }

  lemma WithoutRepository(c: Cluster, k: Key)
    requires KeyUnchanged(c, k) && !k.deleting && k.spec.repository !in c.repos
    ensures Effect(c, k.name) == c
  {
  }

  /**
    From every reachable state, and so from whatever a crash left behind: after a fault-free reconcile, the
    completion of its add job and another fault-free reconcile, a key that is not under deletion is Created if and
    only if CanCreate held before.
   */
  lemma CreationRecovers(s: State, n: string, order: seq<nat>, order': seq<nat>, early: seq<Condition>, pre: string, id: string, post: string)
    requires Reachable(s) && n in s.cluster.keys && !s.cluster.keys[n].deleting && IsListing(s.cluster.jobs, n, order)
    requires E.NotFinal(early) && Reports(pre + MARKER + id + post, pre, id, post)
    requires E.FreshID(Reconcile(s.cluster, n, order), id)
    requires IsListing(AddDone(Reconcile(s.cluster, n, order), s.cluster.keys[n].uid, early, pre + MARKER + id + post, id).jobs, n, order')
    ensures var k := s.cluster.keys[n];
            CreatedAs(Reconcile(AddDone(Reconcile(s.cluster, n, order), k.uid, early, pre + MARKER + id + post, id), n, order'), k)
            <==> CanCreate(s.cluster, k)
  {
    var c := s.cluster;
    var k := c.keys[n];
    assert ClusterOk(c) && KeyUnchanged(c, k) && k.name == n by { ReachableInv(s); }
    hide ClusterOk, IsListing, Reconcile, Effect, Reachable, CanCreate, AddDone, CreatedAs, Reports, E.FreshID;
    EffectKeepsOk(c, n, order);
    AddDoneKeepsOk(Effect(c, n), k.uid, early, pre, id, post);
    ReconcileHasEffect(AddDone(Effect(c, n), k.uid, early, pre + MARKER + id + post, id), n, order');
    CreationEnds(c, k, early, pre, id, post);
  }
}
