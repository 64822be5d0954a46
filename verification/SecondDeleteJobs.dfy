/** Exactly which keys can get a second delete job. */
module SecondDeleteJobs {
  import opened Options
  import opened Conditions
  import opened Resources
  import opened ApiServer
  import opened Operator
  import opened Invariant
  import opened Safety
  import opened JobOrigins
  import opened Leads
  import E = Environment
  import K = KeyController
  import R = RepositoryController
  import EnvironmentSteps
  import Homes
  import KR = KeyRecovery
  import KeyWork

  ghost predicate TwoDeleteJobs(jobs: Jobs, u: nat) {
    exists i, j :: i != j && DeleteJobOf(jobs, i, u) && DeleteJobOf(jobs, j, u)
  }

  // ----- when no second delete job can follow -----

  /** Once the key is gone, no reconcile in progress has read it under deletion. */
  ghost predicate NoLateDelete(s: State, u: nat) {
    && !TwoDeleteJobs(s.cluster.jobs, u)
    && (!E.LiveKey(s.cluster, u) && HoldsKey(s.key) && s.key.key.uid == u ==> !s.key.key.deleting)
  }

  lemma LiveHasOne(s: State, u: nat)
    requires Inv(s) && E.LiveKey(s.cluster, u)
    ensures !TwoDeleteJobs(s.cluster.jobs, u)
  {
    hide KeyPcOk, RepoPcOk, JobsOk, BackendOk, ReposOk, Ids, KeyOk;
    var n :| n in s.cluster.keys && s.cluster.keys[n].uid == u;
    assert LiveKeyOk(s.cluster.jobs, s.cluster.secrets, s.cluster.keys[n]);
  }

  lemma HeldIsLive(c: Cluster, pc: K.Pc, u: nat)
    requires KeyIds(c) && KeyPcOk(c, pc) && E.LiveKey(c, u) && HoldsKey(pc) && pc.key.uid == u
    ensures pc.key.name in c.keys && SameKey(pc.key, c.keys[pc.key.name])
  {
    hide HasTrue, TracksRepo, DropOk, StepJobs, Invariant.StepKey, KeyShape;
  }

  /** When a key vanishes that nobody else holds, its deletion had not been requested before. */
  lemma EventNoLateDelete(s: State, e: E.Event, u: nat)
    requires KeyIds(s.cluster) && KeyPcOk(s.cluster, s.key) && KeyWork.Unheld(s.cluster, u) && NoLateDelete(s, u)
    requires !E.LiveKey(Next(s, Environment(e)).cluster, u) && HoldsKey(s.key) && s.key.key.uid == u
    ensures !s.key.key.deleting
  {
    hide KeyIds, KeyPcOk, E.Happen, HasTrue, TwoDeleteJobs, E.LiveKey;
    if E.LiveKey(s.cluster, u) {
      HeldIsLive(s.cluster, s.key, u);
      KeyWork.EventVanishesUnheld(s, e, s.key.key.name);
    }
  }

  lemma CallNoLateDelete(s: State, outcome: K.Outcome, u: nat)
    requires KeyIds(s.cluster) && KeyPcOk(s.cluster, s.key) && NoLateDelete(s, u)
    requires var t := Next(s, KeyCall(outcome)); !E.LiveKey(t.cluster, u) && HoldsKey(t.key) && t.key.key.uid == u
    ensures !Next(s, KeyCall(outcome)).key.key.deleting
  {
    hide KeyIds, KeyPcOk, HasTrue, TwoDeleteJobs, K.Call;
    var c, pc, t := s.cluster, s.key, Next(s, KeyCall(outcome));
    K.CallFrame(c, pc, outcome);
    if HoldsKey(pc) {
      KeyWork.CallGoesOn(c, pc, outcome);
      if K.WritesKey(pc) {
        var _ := KeyWork.CallWritesKey(c, pc, outcome);
        assert E.LiveKey(c, u);
        if t.cluster != c { KeyWork.KeyWriteProgress(c, pc, outcome); }
      }
    } else {
      ReadIsLive(c, pc, outcome);
    }
  }

  lemma ReadIsLive(c: Cluster, pc: K.Pc, outcome: K.Outcome)
    requires !HoldsKey(pc) && HoldsKey(K.Call(c, pc, outcome).1)
    ensures E.LiveKey(c, K.Call(c, pc, outcome).1.key.uid)
  {
    assert pc.GetKey? && pc.name in c.keys;
  }

  lemma StepNoLateDelete(s: State, a: Action, u: nat)
    requires Inv(s) && KeyWork.Unheld(s.cluster, u) && NoLateDelete(s, u)
    ensures NoLateDelete(Next(s, a), u)
  {
    hide Inv, ClusterOk, KeyIds, JobIds, JobsOk, KeyPcOk, BackendOk, K.Call, R.Call, E.Happen, HasTrue, TwoDeleteJobs, KeyWork.Unheld;
    var t := Next(s, a);
    Homes.InvMeans(s);
    NextKeepsInv(s, a);
    StepJobsFrom(s, a, u);
    if E.LiveKey(t.cluster, u) {
      LiveHasOne(t, u);
    } else {
      if CreatesDelete(s, a, u) { DeleteIsNotLate(s, a.outcome, u); }
      SameDeleteJobs(s, a, u);
      if HoldsKey(t.key) && t.key.key.uid == u {
        match a
        case Environment(e) => EventNoLateDelete(s, e, u);
        case KeyCall(outcome) => CallNoLateDelete(s, outcome, u);
        case RepositoryCall(ok) => R.CallFrame(s.cluster, s.repo, ok);
        case _ =>
      }
    }
  }

  lemma DeleteIsNotLate(s: State, outcome: K.Outcome, u: nat)
    requires KeyPcOk(s.cluster, s.key) && NoLateDelete(s, u) && CreatesDelete(s, KeyCall(outcome), u)
    ensures E.LiveKey(Next(s, KeyCall(outcome)).cluster, u)
  {
    hide Tracks, TracksRepo, StepJobs, DropOk, HasTrue, TwoDeleteJobs, K.Call;
    K.CallFrame(s.cluster, s.key, outcome);
    assert E.LiveKey(s.cluster, u);
  }

  lemma SameDeleteJobs(s: State, a: Action, u: nat)
    requires JobsFrom(s, a, u) && !CreatesDelete(s, a, u) && !TwoDeleteJobs(s.cluster.jobs, u)
    ensures !TwoDeleteJobs(Next(s, a).cluster.jobs, u)
  {
    hide Next, DeleteJobOf, AddJobOf;
  }

  lemma {:induction false} RunNoLateDelete(s: State, actions: seq<Action>, u: nat)
    requires Inv(s) && NoLateDelete(s, u) && KeyWork.NeverHeld(s, actions, u)
    ensures NoLateDelete(Run(s, actions), u)
    decreases |actions|
  {
    hide Inv, NoLateDelete, KeyWork.NeverHeld;
    if actions != [] {
      var before := actions[..|actions| - 1];
      KeyWork.NeverHeldBefore(s, actions, u);
      RunNoLateDelete(s, before, u);
      RunKeepsInv(s, before);
      StepNoLateDelete(Run(s, before), actions[|actions| - 1], u);
    }
  }

  /** In every run in which nobody else ever holds a key, it has at most one delete job, whether it is there or gone. */
  lemma OneDeleteJobUnheld(actions: seq<Action>, u: nat)
    requires KeyWork.NeverHeld(INITIAL, actions, u)
    ensures !TwoDeleteJobs(Run(INITIAL, actions).cluster.jobs, u)
  {
    hide KeyWork.NeverHeld, Inv;
    Initially();
    RunNoLateDelete(INITIAL, actions, u);
  }

  // ----- exactly which keys can get a second delete job -----

  /** Nobody else holds the key of this name and UID, if it is still there. */
  ghost predicate Free(c: Cluster, n: string, u: nat) {
    u < c.nextUid && forall m :: m in c.keys && c.keys[m].uid == u ==> m == n && !c.keys[m].held
  }

  lemma PutKeyFree(c: Cluster, l: Key, n: string, u: nat)
    requires KeyIds(c) && Free(c, n, u) && l.name in c.keys && l.uid == c.keys[l.name].uid && (l.uid == u ==> !l.held)
    ensures Free(PutKey(c, l), n, u) && Free(c.(keys := c.keys[l.name := l]), n, u)
  {
  }

  lemma EventStaysFree(s: State, e: E.Event, n: string, u: nat)
    requires KeyIds(s.cluster) && Free(s.cluster, n, u) && LeavesFree(Environment(e), n)
    ensures Free(Next(s, Environment(e)).cluster, n, u)
  {
    hide KeyIds, HasTrue;
    var c, d := s.cluster, Next(s, Environment(e)).cluster;
    E.HappenFrame(c, K.Busy(s.key), R.Busy(s.repo), e);
    if E.OnKeys(e) && d != c {
      if e.CreateKey? {
        assert d == E.NewKey(c, e.name, e.spec, e.controller, e.held);
      } else {
        KeyWork.IdsOf(c, e.name);
        var k := c.keys[e.name];
        var l := if e.EditKey? then k.(spec := e.spec)
                 else if e.DeleteKey? then k.(deleting := true, held := k.held || e.foreground)
                 else k.(held := false);
        assert d == PutKey(c, l);
        PutKeyFree(c, l, n, u);
      }
    }
  }

  lemma CallStaysFree(c: Cluster, pc: K.Pc, outcome: K.Outcome, n: string, u: nat)
    requires KeyIds(c) && Free(c, n, u)
    ensures Free(K.Call(c, pc, outcome).0, n, u)
  {
    hide KeyIds, HasTrue, MarkCreated, MarkFailed;
    var d := K.Call(c, pc, outcome).0;
    K.CallFrame(c, pc, outcome);
    if d != c && K.WritesKey(pc) {
      var l := match pc
        case DefaultStatus(key, repo) => key.(conditions := K.WithDefaults(key).conditions)
        case SetMetadata(key, repo) => K.WithMetadata(key, repo)
        case StoreStatus(key, updated) => key.(conditions := updated.conditions, keyID := updated.keyID)
        case DropFinalizer(key, _) => key.(finalizer := false);
      assert d == PutKey(c, l) || d == c.(keys := c.keys[l.name := l]);
      PutKeyFree(c, l, n, u);
    }
  }

  lemma StepStaysFree(s: State, a: Action, n: string, u: nat)
    requires KeyIds(s.cluster) && Free(s.cluster, n, u) && LeavesFree(a, n)
    ensures Free(Next(s, a).cluster, n, u)
  {
    hide KeyIds, K.Call, R.Call, E.Happen, HasTrue;
    match a
    case Environment(e) => EventStaysFree(s, e, n, u);
    case KeyCall(outcome) => CallStaysFree(s.cluster, s.key, outcome, n, u);
    case RepositoryCall(ok) => R.CallFrame(s.cluster, s.repo, ok);
    case _ =>
  }

  lemma {:induction false} RunStaysFree(s: State, actions: seq<Action>, n: string, u: nat)
    requires Inv(s) && Free(s.cluster, n, u) && NobodyHolds(actions, n) && NoLateDelete(s, u)
    ensures Free(Run(s, actions).cluster, n, u) && NoLateDelete(Run(s, actions), u)
    decreases |actions|
  {
    hide Inv, NoLateDelete, LeavesFree, ClusterOk, KeyIds, KeyPcOk, JobsOk, JobIds, BackendOk;
    if actions != [] {
      var before := actions[..|actions| - 1];
      assert actions[|actions| - 1] in actions && forall a :: a in before ==> a in actions;
      RunStaysFree(s, before, n, u);
      RunKeepsInv(s, before);
      Homes.InvMeans(Run(s, before));
      StepNoLateDelete(Run(s, before), actions[|actions| - 1], u);
      StepStaysFree(Run(s, before), actions[|actions| - 1], n, u);
    }
  }

  /** A key under deletion that somebody else holds, Created, in a repository that is Created and kept. */
  ghost predicate Lingers(c: Cluster, k: Key) {
    && KeyUnchanged(c, k) && k.deleting && k.held && k.IsCreated()
    && KR.HomeIsKept(c, k) && c.repos[k.spec.repository].IsCreated()
  }

  ghost predicate LeadsToRest(s: State, c: Cluster, n: string) {
    LeadsTo(s, State(c, K.Idle, R.Idle), n)
  }

  lemma RestIsOk(s: State, c: Cluster, n: string)
    requires Inv(s) && LeadsToRest(s, c, n)
    ensures ClusterOk(c)
  {
    hide Inv, LeadsTo;
    LeadsKeepsInv(s, State(c, K.Idle, R.Idle), n);
    assert Inv(State(c, K.Idle, R.Idle)) ==> ClusterOk(c) by { InvIsOk(State(c, K.Idle, R.Idle)); }
  }

  lemma InvIsOk(s: State)
    ensures Inv(s) ==> ClusterOk(s.cluster)
  {
  }

  lemma CreatedHasStatus(k: Key)
    requires k.IsCreated()
    ensures k.conditions != []
  {
    HasTrueMeans([], CREATED);
  }

  /** A reconcile of such a key, in whatever order its jobs are listed. */
  lemma ThenDeletes(s: State, c: Cluster, k: Key) returns (d: Cluster)
    requires Inv(s) && LeadsToRest(s, c, k.name) && Lingers(c, k)
    ensures LeadsToRest(s, d, k.name)
    ensures if HasDeleteJob(c.jobs, k.uid) then
              forall j :: DeleteJobOf(c.jobs, j, k.uid) ==> d == if c.jobs[j].IsComplete() then PutKey(c, k.(finalizer := false)) else c
            else exists job: Job :: job.owner == k.uid && job.IsDelete() && !job.Finished() && d == CreateKeyJob(c, job)
  {
    hide Inv, LeadsTo, ClusterOk, HasTrue, KR.Effect, KR.Reconcile, IsListing, HasDeleteJob, DeleteJobOf;
    RestIsOk(s, c, k.name);
    CreatedHasStatus(k);
    var order := IsListingOf(c.jobs, k.name);
    ThenReconcile(s, c, order, k.name);
    KR.ReconcileHasEffect(c, k.name, order);
    d := KR.Effect(c, k.name);
    KR.DeletionStep(c, k);
  }

  /** After at most one reconcile, such a key has a delete job; a job that is created has not failed. */
  lemma ThenHasRemoval(s: State, c: Cluster, k: Key) returns (d: Cluster, j: nat)
    requires Inv(s) && LeadsToRest(s, c, k.name) && Lingers(c, k)
    requires k.finalizer ==> forall i :: DeleteJobOf(c.jobs, i, k.uid) ==> !c.jobs[i].IsFailed()
    ensures LeadsToRest(s, d, k.name) && Lingers(d, k) && DeleteJobOf(d.jobs, j, k.uid) && (k.finalizer ==> !d.jobs[j].IsFailed())
  {
    hide LeadsToRest, HasTrue, Inv;
    if HasDeleteJob(c.jobs, k.uid) {
      d := c;
      j :| DeleteJobOf(c.jobs, j, k.uid);
    } else {
      d := ThenDeletes(s, c, k);
      j := c.nextUid;
    }
  }

  /** A delete job that has not failed completes. */
  lemma ThenCompletes(s: State, c: Cluster, k: Key, j: nat) returns (d: Cluster)
    requires Inv(s) && LeadsToRest(s, c, k.name) && Lingers(c, k) && DeleteJobOf(c.jobs, j, k.uid) && !c.jobs[j].IsFailed()
    ensures LeadsToRest(s, d, k.name) && Lingers(d, k) && DeleteJobOf(d.jobs, j, k.uid) && d.jobs[j].IsComplete()
  {
    hide LeadsTo, HasTrue, Inv, E.Happen;
    d := c;
    if !c.jobs[j].IsComplete() {
      d := E.CompleteDelete(c, j, []);
      CompletionHappens(c, j);
      Then(s, State(c, K.Idle, R.Idle), Environment(E.FinishDeleteJob(j, [])), k.name);
      EnvironmentSteps.Concluded(c.jobs[j], [], JOB_COMPLETE);
    }
  }

  lemma CompletionHappens(c: Cluster, j: nat)
    requires j in c.jobs && c.jobs[j].IsDelete() && !c.jobs[j].Finished()
    ensures E.Happen(c, None, None, E.FinishDeleteJob(j, [])) == E.CompleteDelete(c, j, [])
  {
    hide HasTrue, E.CompleteDelete;
  }

  /** The finalizer is dropped; the key stays, as it is held. */
  lemma ThenDrops(s: State, c: Cluster, k: Key, j: nat) returns (d: Cluster)
    requires Inv(s) && LeadsToRest(s, c, k.name) && Lingers(c, k) && DeleteJobOf(c.jobs, j, k.uid) && c.jobs[j].IsComplete()
    ensures LeadsToRest(s, d, k.name) && Lingers(d, k.(finalizer := false)) && DeleteJobOf(d.jobs, j, k.uid)
  {
    hide LeadsToRest, HasTrue, Inv;
    assert HasDeleteJob(c.jobs, k.uid);
    d := ThenDeletes(s, c, k);
  }

  lemma CallsToDelete(d: Cluster, copy: Key, repo: Repository)
    requires IsListing(d.jobs, copy.name, []) && copy.deleting && copy.keyID.Some? && repo.IsCreated() && !repo.deleting
    ensures K.Call(d, K.ListJobs(copy, repo), K.Success([])) == (d, K.CreateDeleteJob(copy, repo))
    ensures DeleteKeyJob(repo, copy).Some?
    ensures K.Call(d, K.CreateDeleteJob(copy, repo), K.Success([])) == (CreateKeyJob(d, DeleteKeyJob(repo, copy).value), K.Idle)
  {
    hide IsListing, HasTrue;
  }

  lemma OneMoreDelete(c: Cluster, d: Cluster, job: Job, u: nat)
    requires JobIds(c) && HasDeleteJob(c.jobs, u) && SameWork(c.jobs, d.jobs) && d.nextUid == c.nextUid && job.IsDelete() && job.owner == u
    ensures TwoDeleteJobs(CreateKeyJob(d, job).jobs, u)
  {
    var jobs, j := CreateKeyJob(d, job).jobs, d.nextUid;
    var i :| DeleteJobOf(c.jobs, i, u);
    assert DeleteJobOf(jobs, i, u) && DeleteJobOf(jobs, j, u);
  }

  /** Released between the reads of a reconcile and its list call, a key without the finalizer gets another delete job. */
  lemma DeletesAgain(s: State, c: Cluster, k: Key) returns (t: State)
    requires Inv(s) && LeadsToRest(s, c, k.name) && Lingers(c, k) && !k.finalizer && HasDeleteJob(c.jobs, k.uid)
    ensures LeadsTo(s, t, k.name) && TwoDeleteJobs(t.cluster.jobs, k.uid)
  {
    hide Inv, LeadsTo, HasTrue, ClusterOk, IsListing, SameWork, HasDeleteJob, TwoDeleteJobs, KeyOk, K.Call;
    var n, repo := k.name, c.repos[k.spec.repository];
    RestIsOk(s, c, n);
    LiveFacts(c, n);
    KR.CreatedHasID(c, k);
    CreatedHasStatus(k);
    Then(s, State(c, K.Idle, R.Idle), StartKey(n), n);
    ThenReads(s, c, k, repo);
    var d := ThenNothingIsLeft(s, c, K.ListJobs(k, repo), n);
    CallsToDelete(d, k, repo);
    ThenCall(s, d, K.ListJobs(k, repo), R.Idle, [], d, K.CreateDeleteJob(k, repo), n);
    t := State(CreateKeyJob(d, DeleteKeyJob(repo, k).value), K.Idle, R.Idle);
    ThenCall(s, d, K.CreateDeleteJob(k, repo), R.Idle, [], t.cluster, K.Idle, n);
    OneMoreDelete(c, d, DeleteKeyJob(repo, k).value, k.uid);
  }

  /**
    A Created key in a repository that is Created and kept, whose delete job, if it has one that matters, has not failed.
   */
  ghost predicate CanBeRemoved(c: Cluster, n: string) {
    && n in c.keys && c.keys[n].IsCreated() && KR.HomeIsKept(c, c.keys[n]) && c.repos[c.keys[n].spec.repository].IsCreated()
    && (c.keys[n].finalizer ==> forall j :: DeleteJobOf(c.jobs, j, c.keys[n].uid) ==> !c.jobs[j].IsFailed())
  }

  lemma HeldDeletesAgain(s: State, n: string) returns (t: State)
    requires Inv(s) && CanBeRemoved(s.cluster, n) && s.cluster.keys[n].held
    ensures LeadsTo(s, t, n) && TwoDeleteJobs(t.cluster.jobs, s.cluster.keys[n].uid)
  {
    hide Inv, LeadsTo, HasTrue, ClusterOk, TwoDeleteJobs, KeyOk, DeleteJobOf;
    var k := s.cluster.keys[n].(deleting := true);
    Stays(s, n);
    ThenCrash(s, s, n);
    InvIsOk(s);
    LiveFacts(s.cluster, n);
    KeyIsPut(s, s.cluster, K.Idle, E.DeleteKey(n, false), k, n);
    var c := PutKey(s.cluster, k);
    assert Lingers(c, k);
    var j: nat;
    c, j := ThenHasRemoval(s, c, k);
    if k.finalizer {
      c := ThenCompletes(s, c, k, j);
      c := ThenDrops(s, c, k, j);
      k := k.(finalizer := false);
    }
    assert HasDeleteJob(c.jobs, k.uid);
    t := DeletesAgain(s, c, k);
  }

  lemma FreeHasOne(s: State, n: string, actions: seq<Action>)
    requires Inv(s) && n in s.cluster.keys && !s.cluster.keys[n].held && NobodyHolds(actions, n)
    ensures !TwoDeleteJobs(Run(s, actions).cluster.jobs, s.cluster.keys[n].uid)
  {
    hide HasTrue, ClusterOk, TwoDeleteJobs, KeyOk, NobodyHolds, Run, KeyPcOk, RepoPcOk;
    var u := s.cluster.keys[n].uid;
    LiveFacts(s.cluster, n);
    KeyWork.IdsOf(s.cluster, n);
    assert E.LiveKey(s.cluster, u);
    hide Inv;
    LiveHasOne(s, u);
    RunStaysFree(s, actions, n, u);
  }

  /**
    A key that is Created and can be removed gets a second delete job in some run in which nobody asks for it to be
    held, if and only if somebody else holds it now.
   */
  lemma OneDeleteJobExactly(s: State, n: string)
    requires Reachable(s) && CanBeRemoved(s.cluster, n)
    ensures (forall actions :: NobodyHolds(actions, n) ==> !TwoDeleteJobs(Run(s, actions).cluster.jobs, s.cluster.keys[n].uid))
            <==> !s.cluster.keys[n].held
  {
    hide Inv, Reachable, HasTrue, TwoDeleteJobs, NobodyHolds, DeleteJobOf;
    ReachableInv(s);
    var u := s.cluster.keys[n].uid;
    if s.cluster.keys[n].held {
      var t := HeldDeletesAgain(s, n);
      var actions :| NobodyHolds(actions, n) && Run(s, actions) == t;
      assert TwoDeleteJobs(Run(s, actions).cluster.jobs, u);
    } else {
      forall actions | NobodyHolds(actions, n) ensures !TwoDeleteJobs(Run(s, actions).cluster.jobs, u) { FreeHasOne(s, n, actions); }
    }
  }
}
