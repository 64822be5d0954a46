/** Exactly which new keys can cost eight writes. */
module EighthWrite {
  import opened Options
  import opened Conditions
  import opened KeyLog
  import opened Resources
  import opened ApiServer
  import opened Operator
  import opened Invariant
  import opened Safety
  import opened Leads
  import opened SecondDeleteJobs
  import E = Environment
  import K = KeyController
  import R = RepositoryController
  import Orphans
  import KR = KeyRecovery
  import KC = KeyCreation
  import KeyWork

  /** Some run leads from s to t with at least that many writes for the key with UID u, and no action of it holds the key. */
  ghost predicate Earns(s: State, t: State, n: string, u: nat, writes: nat) {
    exists actions :: NobodyHolds(actions, n) && Run(s, actions) == t && KeyWork.Writes(s, actions, u) >= writes
  }

  lemma EarnsNothing(s: State, t: State, n: string, u: nat)
    requires LeadsTo(s, t, n)
    ensures Earns(s, t, n, u, 0)
  {
  }

  lemma ThenEarns(s: State, t: State, a: Action, n: string, u: nat, writes: nat)
    requires Earns(s, t, n, u, writes) && LeavesFree(a, n)
    ensures Earns(s, Next(t, a), n, u, writes + One(KeyWork.Wrote(t, a, u)))
  {
    hide LeavesFree, Next, KeyWork.Wrote;
    var actions :| NobodyHolds(actions, n) && Run(s, actions) == t && KeyWork.Writes(s, actions, u) >= writes;
    var more := actions + [a];
    assert more[..|more| - 1] == actions;
    assert NobodyHolds(more, n) && Run(s, more) == Next(t, a) && KeyWork.Writes(s, more, u) >= writes + One(KeyWork.Wrote(t, a, u));
  }

  /** Whatever follows loses no write. */
  lemma ThenLeads(s: State, t: State, t': State, n: string, u: nat, writes: nat)
    requires Earns(s, t, n, u, writes) && LeadsTo(t, t', n)
    ensures Earns(s, t', n, u, writes)
  {
    hide LeavesFree, KeyWork.Wrote;
    var actions :| NobodyHolds(actions, n) && Run(s, actions) == t && KeyWork.Writes(s, actions, u) >= writes;
    var more :| NobodyHolds(more, n) && Run(t, more) == t';
    RunsOn(s, actions, more);
    KeyWork.WritesAddUp(s, actions, more, u);
    assert NobodyHolds(actions + more, n);
  }

  lemma EarnsKeepsInv(s: State, t: State, n: string, u: nat, writes: nat)
    requires Inv(s) && Earns(s, t, n, u, writes)
    ensures Inv(t)
  {
    hide Inv, NobodyHolds, KeyWork.Writes;
    var actions :| NobodyHolds(actions, n) && Run(s, actions) == t && KeyWork.Writes(s, actions, u) >= writes;
    RunKeepsInv(s, actions);
  }

  lemma CallEarns(s: State, c: Cluster, pc: K.Pc, order: seq<nat>, d: Cluster, pc': K.Pc, n: string, u: nat, writes: nat)
    requires Earns(s, State(c, pc, R.Idle), n, u, writes) && K.Call(c, pc, K.Success(order)) == (d, pc')
    requires d != c ==> HoldsKey(pc) && pc.key.uid == u
    ensures Earns(s, State(d, pc', R.Idle), n, u, writes + One(d != c))
  {
    hide Earns, K.Call;
    ThenEarns(s, State(c, pc, R.Idle), KeyCall(K.Success(order)), n, u, writes);
  }

  lemma {:induction false} FinishEarns(s: State, c: Cluster, pc: K.Pc, order: seq<nat>, n: string, u: nat, writes: nat)
    requires Earns(s, State(c, pc, R.Idle), n, u, writes) && (HoldsKey(pc) ==> pc.key.uid == u)
    requires pc.GetKey? && pc.name in c.keys ==> c.keys[pc.name].uid == u
    ensures var d := KR.Finish(c, pc, order); Earns(s, State(d, K.Idle, R.Idle), n, u, writes + One(d != c))
    decreases K.Rank(pc)
  {
    hide Earns, K.Call;
    if !pc.Idle? {
      var (d, pc') := K.Call(c, pc, K.Success(order));
      K.CallDescends(c, pc, K.Success(order));
      if HoldsKey(pc) { KeyWork.CallGoesOn(c, pc, K.Success(order)); } else { OnlyReads(c, pc, order); }
      CallEarns(s, c, pc, order, d, pc', n, u, writes);
      FinishEarns(s, d, pc', order, n, u, writes + One(d != c));
      Less(s, State(KR.Finish(c, pc, order), K.Idle, R.Idle), n, u,
           writes + One(d != c) + One(KR.Finish(d, pc', order) != d), writes + One(KR.Finish(c, pc, order) != c));
    }
  }

  lemma OnlyReads(c: Cluster, pc: K.Pc, order: seq<nat>)
    requires pc.GetKey?
    ensures var (d, pc') := K.Call(c, pc, K.Success(order));
            d == c && !pc'.GetKey? && (HoldsKey(pc') ==> pc.name in c.keys && pc'.key == c.keys[pc.name])
  {
  }

  lemma Less(s: State, t: State, n: string, u: nat, more: nat, writes: nat)
    requires Earns(s, t, n, u, more) && writes <= more
    ensures Earns(s, t, n, u, writes)
  {
  }

  // ----- eight writes for a held key -----

  /** A key that no reconcile has written to, and whose registration, secret and add job nothing stands in the way of. */
  ghost predicate New(c: Cluster, n: string) {
    && n in c.keys && c.keys[n].conditions == [] && !c.keys[n].deleting && c.keys[n].SecretName() !in c.secrets
    && KR.HomeIsKept(c, c.keys[n])
    && c.repos[c.keys[n].spec.repository].IsCreated() && !K.OwnedByAnother(c.keys[n], c.repos[c.keys[n].spec.repository])
  }

  lemma NothingListed(c: Cluster, n: string)
    requires ClusterOk(c) && n in c.keys && c.keys[n].conditions == []
    ensures IsListing(c.jobs, n, []) && c.keys[n].name == n && c.keys[n].keyID.None?
  {
    hide ReposOk, BackendOk, KeyHome, JobShape, JobHome;
    assert KeyOk(c, c.keys[n]);
    HasTrueMeans([], CREATED);
    hide HasTrue;
    forall j | j in c.jobs ensures !Listed(c.jobs, n, j) {
      assert JobOwned(c.keys, c.jobs[j]);
      assert NoJobs(c.jobs, c.keys[n].uid);
    }
  }

  function AfterRegistration(c: Cluster, k: Key, repo: Repository): Cluster {
    c.(keys := c.keys[k.name := K.WithMetadata(K.WithDefaults(k), repo)])
  }

  /** Default status and metadata. */
  lemma RegistrationEarns(s: State, c: Cluster, k: Key, repo: Repository)
    requires Earns(s, State(c, K.GetKey(k.name), R.Idle), k.name, k.uid, 0) && KeyUnchanged(c, k) && k.conditions == [] && !k.deleting
    requires k.spec.repository in c.repos && c.repos[k.spec.repository] == repo && !K.OwnedByAnother(k, repo) && !k.carried
    ensures var m := K.WithMetadata(K.WithDefaults(k), repo);
            Earns(s, State(AfterRegistration(c, k, repo), K.ListJobs(m, repo), R.Idle), k.name, k.uid, 2)
  {
    hide Earns, HasTrue;
    var l := K.WithDefaults(k);
    var m, d := K.WithMetadata(l, repo), KR.WithKey(c, l);
    CallEarns(s, c, K.GetKey(k.name), [], c, K.GetRepo(k), k.name, k.uid, 0);
    CallEarns(s, c, K.GetRepo(k), [], c, K.DefaultStatus(k, repo), k.name, k.uid, 0);
    assert d.keys[k.name].conditions != c.keys[k.name].conditions;
    CallEarns(s, c, K.DefaultStatus(k, repo), [], d, K.SetMetadata(l, repo), k.name, k.uid, 0);
    assert d.keys[k.name := m] == c.keys[k.name := m] && AfterRegistration(c, k, repo).keys[k.name].carried != d.keys[k.name].carried;
    CallEarns(s, d, K.SetMetadata(l, repo), [], AfterRegistration(c, k, repo), K.ListJobs(m, repo), k.name, k.uid, 1);
  }

  /** Secret and add job. */
  lemma AddingEarns(s: State, c: Cluster, m: Key, repo: Repository)
    requires Earns(s, State(c, K.ListJobs(m, repo), R.Idle), m.name, m.uid, 2) && IsListing(c.jobs, m.name, [])
    requires !m.deleting && !m.IsCreated() && !m.IsFailed() && repo.IsCreated() && m.SecretName() !in c.secrets
    ensures Earns(s, State(KR.Added(c, m, repo), K.Idle, R.Idle), m.name, m.uid, 4)
  {
    hide Earns, HasTrue, IsListing;
    var d := c.(secrets := c.secrets[m.SecretName() := Secret([m.uid])]);
    var e := CreateKeyJob(d, AddKeyJob(repo, m));
    CallEarns(s, c, K.ListJobs(m, repo), [], c, K.GetSecret(m, repo), m.name, m.uid, 2);
    CallEarns(s, c, K.GetSecret(m, repo), [], c, K.CreateSecret(m, repo), m.name, m.uid, 2);
    assert m.SecretName() in d.secrets;
    CallEarns(s, c, K.CreateSecret(m, repo), [], d, K.CreateAddJob(m, repo), m.name, m.uid, 2);
    assert e.nextUid != d.nextUid;
    CallEarns(s, d, K.CreateAddJob(m, repo), [], e, K.Idle, m.name, m.uid, 3);
  }

  /** The first reconcile of a new key. */
  lemma FirstReconcileEarns(s: State, n: string) returns (c: Cluster, m: Key, j: nat)
    requires Inv(s) && New(s.cluster, n)
    ensures Earns(s, State(c, K.Idle, R.Idle), n, s.cluster.keys[n].uid, 4)
    ensures KeyUnchanged(c, m) && m == s.cluster.keys[n].(controller := m.controller, repositoryLabel := m.repositoryLabel,
                                                          finalizer := true, carried := true, conditions := DEFAULT_PHASE)
    ensures c.repos == s.cluster.repos && AddJobOf(c.jobs, j, m.uid) && c.jobs[j].conditions == []
  {
    hide Inv, Earns, HasTrue, ClusterOk, IsListing, LeadsTo, KeyOk;
    var c0, k := s.cluster, s.cluster.keys[n];
    var repo := c0.repos[k.spec.repository];
    InvIsOk(s);
    LiveFacts(c0, n);
    NothingListed(c0, n);
    NotCarried(c0, k);
    Stays(s, n);
    ThenCrash(s, s, n);
    Then(s, State(c0, K.Idle, R.Idle), StartKey(n), n);
    EarnsNothing(s, State(c0, K.GetKey(n), R.Idle), n, k.uid);
    RegistrationEarns(s, c0, k, repo);
    m := K.WithMetadata(K.WithDefaults(k), repo);
    DefaultPhaseIsPhased();
    c := KR.Added(AfterRegistration(c0, k, repo), m, repo);
    AddingEarns(s, AfterRegistration(c0, k, repo), m, repo);
    j := c0.nextUid;
  }

  lemma NotCarried(c: Cluster, k: Key)
    requires KeyOk(c, k) && k.conditions == []
    ensures !k.carried && !k.finalizer
  {
    hide HasTrue;
  }

  /** The add job completes, and the next reconcile stores the status. */
  lemma StatusEarns(s: State, c: Cluster, m: Key, j: nat) returns (d: Cluster, k: Key)
    requires Inv(s) && Earns(s, State(c, K.Idle, R.Idle), m.name, m.uid, 4) && KeyUnchanged(c, m)
    requires m.conditions == DEFAULT_PHASE && !m.deleting && m.spec.repository in c.repos
    requires AddJobOf(c.jobs, j, m.uid) && c.jobs[j].conditions == []
    ensures Earns(s, State(d, K.Idle, R.Idle), m.name, m.uid, 5) && KeyUnchanged(d, k) && d.repos == c.repos
    ensures k == m.(conditions := k.conditions, keyID := k.keyID) && k.IsCreated()
  {
    hide Inv, Earns, HasTrue, ClusterOk, IsListing, LeadsTo, E.FreshID, Reports, KR.Reconcile, KR.Effect;
    RestingIsOk(s, c, m.name, m.uid, 4);
    HasTrueMeans([], JOB_COMPLETE);
    HasTrueMeans([], JOB_FAILED);
    var id := NewID(c);
    Orphans.AddingHappens(c, j, id);
    var e := E.CompleteAdd(c, j, [], "" + MARKER + id + "", id);
    ThenEarns(s, State(c, K.Idle, R.Idle), Environment(E.FinishAddJob(j, [], "", id, "")), m.name, m.uid, 4);
    RestingIsOk(s, e, m.name, m.uid, 4);
    CompletedAdd(c, j, "" + MARKER + id + "", id);
    DefaultPhaseIsPhased();
    KC.WithJob(e, m, j);
    k := K.WithCreated(m, id);
    KC.CreatedNow(e, m, id);
    d := ReconcileEarns(s, e, m, 4);
    assert d == KR.WithKey(e, k) && d.keys[m.name].IsCreated() != e.keys[m.name].IsCreated();
  }

  lemma NewID(c: Cluster) returns (id: string)
    requires ClusterOk(c)
    ensures E.FreshID(c, id) && Reports("" + MARKER + id + "", "", id, "")
  {
    hide E.FreshID, Reports, BackendOk;
    id := Orphans.FreshIDExists(c);
  }

  lemma CompletedAdd(c: Cluster, j: nat, log: string, id: string)
    requires j in c.jobs && c.jobs[j].conditions == []
    ensures var job := E.CompleteAdd(c, j, [], log, id).jobs[j]; job.IsComplete() && job.added == Some(id)
  {
    var done := [Condition(JOB_COMPLETE, ConditionTrue)];
    assert [] + [] + done == done;
    HasTrueMeans(done, JOB_COMPLETE);
    hide HasTrue;
  }

  lemma RestingIsOk(s: State, c: Cluster, n: string, u: nat, writes: nat)
    requires Inv(s) && Earns(s, State(c, K.Idle, R.Idle), n, u, writes)
    ensures ClusterOk(c)
  {
    hide Inv, Earns, ClusterOk;
    EarnsKeepsInv(s, State(c, K.Idle, R.Idle), n, u, writes);
    InvIsOk(State(c, K.Idle, R.Idle));
  }

  lemma ReconcileEarns(s: State, c: Cluster, k: Key, writes: nat) returns (d: Cluster)
    requires Inv(s) && Earns(s, State(c, K.Idle, R.Idle), k.name, k.uid, writes) && KeyUnchanged(c, k)
    ensures d == KR.Effect(c, k.name) && Earns(s, State(d, K.Idle, R.Idle), k.name, k.uid, writes + One(d != c))
  {
    hide Inv, Earns, ClusterOk, IsListing, KR.Effect, HasTrue;
    RestingIsOk(s, c, k.name, k.uid, writes);
    var order := IsListingOf(c.jobs, k.name);
    ThenEarns(s, State(c, K.Idle, R.Idle), StartKey(k.name), k.name, k.uid, writes);
    KR.ReconcileHasEffect(c, k.name, order);
    FinishEarns(s, c, K.GetKey(k.name), order, k.name, k.uid, writes);
    d := KR.Effect(c, k.name);
  }

  /** A delete job is created, completes, and the finalizer is dropped. */
  lemma RemovalEarns(s: State, c: Cluster, k: Key) returns (d: Cluster)
    requires Inv(s) && Earns(s, State(c, K.Idle, R.Idle), k.name, k.uid, 5) && Lingers(c, k) && k.finalizer
    requires !HasDeleteJob(c.jobs, k.uid)
    ensures Earns(s, State(d, K.Idle, R.Idle), k.name, k.uid, 7) && Lingers(d, k.(finalizer := false)) && HasDeleteJob(d.jobs, k.uid)
  {
    hide Inv, Earns, HasTrue, ClusterOk, KR.Effect, LeadsToRest, DeleteJobOf;
    var e, j := RemovalJobEarns(s, c, k);
    var t := State(e, K.Idle, R.Idle);
    EarnsKeepsInv(s, t, k.name, k.uid, 6);
    RestsNow(t, k.name);
    var f := ThenCompletes(t, e, k, j);
    RestIsLed(t, f, k.name);
    ThenLeads(s, t, State(f, K.Idle, R.Idle), k.name, k.uid, 6);
    d := DropEarns(s, f, k, j);
  }

  lemma RestsNow(t: State, n: string)
    requires t.key == K.Idle && t.repo == R.Idle
    ensures LeadsToRest(t, t.cluster, n)
  {
    hide LeadsTo;
    Stays(t, n);
  }

  lemma RestIsLed(t: State, c: Cluster, n: string)
    requires LeadsToRest(t, c, n)
    ensures LeadsTo(t, State(c, K.Idle, R.Idle), n)
  {
    hide LeadsTo;
  }

  lemma RemovalJobEarns(s: State, c: Cluster, k: Key) returns (d: Cluster, j: nat)
    requires Inv(s) && Earns(s, State(c, K.Idle, R.Idle), k.name, k.uid, 5) && Lingers(c, k) && !HasDeleteJob(c.jobs, k.uid)
    ensures Earns(s, State(d, K.Idle, R.Idle), k.name, k.uid, 6) && Lingers(d, k)
    ensures j in d.jobs && DeleteJobOf(d.jobs, j, k.uid) && !d.jobs[j].IsFailed()
  {
    hide Inv, Earns, HasTrue, ClusterOk, KR.Effect;
    RestingIsOk(s, c, k.name, k.uid, 5);
    CreatedHasStatus(k);
    d := ReconcileEarns(s, c, k, 5);
    KR.DeletionStep(c, k);
    assert d.nextUid != c.nextUid;
    j := c.nextUid;
  }

  lemma DropEarns(s: State, c: Cluster, k: Key, j: nat) returns (d: Cluster)
    requires Inv(s) && Earns(s, State(c, K.Idle, R.Idle), k.name, k.uid, 6) && Lingers(c, k) && k.finalizer
    requires DeleteJobOf(c.jobs, j, k.uid) && c.jobs[j].IsComplete()
    ensures Earns(s, State(d, K.Idle, R.Idle), k.name, k.uid, 7) && Lingers(d, k.(finalizer := false)) && HasDeleteJob(d.jobs, k.uid)
  {
    hide Inv, Earns, HasTrue, ClusterOk, KR.Effect;
    RestingIsOk(s, c, k.name, k.uid, 6);
    CreatedHasStatus(k);
    assert HasDeleteJob(c.jobs, k.uid);
    d := ReconcileEarns(s, c, k, 6);
    KR.DeletionStep(c, k);
    assert d.keys[k.name].finalizer != c.keys[k.name].finalizer;
    assert DeleteJobOf(d.jobs, j, k.uid);
  }

  /** The second delete job of a key that vanishes. */
  lemma LastEarns(s: State, c: Cluster, k: Key) returns (t: State)
    requires Inv(s) && Earns(s, State(c, K.Idle, R.Idle), k.name, k.uid, 7) && Lingers(c, k) && !k.finalizer
    ensures Earns(s, t, k.name, k.uid, 8)
  {
    hide Inv, Earns, LeadsTo, HasTrue, ClusterOk, IsListing, SameWork, KeyOk, K.Call;
    var n, repo := k.name, c.repos[k.spec.repository];
    var r := State(c, K.Idle, R.Idle);
    RestingIsOk(s, c, n, k.uid, 7);
    EarnsKeepsInv(s, r, n, k.uid, 7);
    KR.CreatedHasID(c, k);
    CreatedHasStatus(k);
    Stays(r, n);
    Then(r, r, StartKey(n), n);
    ThenReads(r, c, k, repo);
    var d := ThenNothingIsLeft(r, c, K.ListJobs(k, repo), n);
    ThenLeads(s, r, State(d, K.ListJobs(k, repo), R.Idle), n, k.uid, 7);
    CallsToDelete(d, k, repo);
    var e := CreateKeyJob(d, DeleteKeyJob(repo, k).value);
    assert e.nextUid != d.nextUid;
    CallEarns(s, d, K.ListJobs(k, repo), [], d, K.CreateDeleteJob(k, repo), n, k.uid, 7);
    t := State(e, K.Idle, R.Idle);
    CallEarns(s, d, K.CreateDeleteJob(k, repo), [], e, K.Idle, n, k.uid, 7);
  }

  lemma NotYetRemoved(c: Cluster, k: Key)
    requires ClusterOk(c) && KeyUnchanged(c, k) && !k.deleting
    ensures !HasDeleteJob(c.jobs, k.uid)
  {
    hide ReposOk, BackendOk, JobsOk, KeyHome, HasTrue;
    assert KeyOk(c, k);
  }

  lemma DeletionRequested(s: State, c: Cluster, k: Key) returns (d: Cluster)
    requires Inv(s) && Earns(s, State(c, K.Idle, R.Idle), k.name, k.uid, 5) && KeyUnchanged(c, k) && k.held && !k.deleting && k.IsCreated()
    requires KR.HomeIsKept(c, k) && c.repos[k.spec.repository].IsCreated()
    ensures Earns(s, State(d, K.Idle, R.Idle), k.name, k.uid, 5) && Lingers(d, k.(deleting := true)) && !HasDeleteJob(d.jobs, k.uid)
  {
    hide Inv, Earns, LeadsTo, HasTrue, ClusterOk, KeyOk;
    var n, t := k.name, State(c, K.Idle, R.Idle);
    RestingIsOk(s, c, n, k.uid, 5);
    NotYetRemoved(c, k);
    LiveFacts(c, n);
    Stays(t, n);
    d := PutKey(c, k.(deleting := true));
    KeyIsPut(t, c, K.Idle, E.DeleteKey(n, false), k.(deleting := true), n);
    ThenLeads(s, t, State(d, K.Idle, R.Idle), n, k.uid, 5);
  }

  lemma HeldEarnsEight(s: State, n: string) returns (t: State)
    requires Inv(s) && New(s.cluster, n) && s.cluster.keys[n].held
    ensures Earns(s, t, n, s.cluster.keys[n].uid, 8)
  {
    hide Inv, Earns, HasTrue, AddJobOf, DeleteJobOf;
    assert s.cluster.keys[n].name == n by { LiveName(s, n); }
    var c, m, j := FirstReconcileEarns(s, n);
    var k: Key;
    c, k := StatusEarns(s, c, m, j);
    c := DeletionRequested(s, c, k);
    k := k.(deleting := true);
    c := RemovalEarns(s, c, k);
    t := LastEarns(s, c, k.(finalizer := false));
  }

  lemma LiveName(s: State, n: string)
    requires Inv(s) && n in s.cluster.keys
    ensures s.cluster.keys[n].name == n
  {
    hide Inv, ClusterOk, KeyOk;
    InvIsOk(s);
    LiveFacts(s.cluster, n);
  }

  lemma FreeIsNeverHeld(s: State, n: string, actions: seq<Action>)
    requires Inv(s) && n in s.cluster.keys && !s.cluster.keys[n].held && NobodyHolds(actions, n)
    ensures KeyWork.NeverHeld(s, actions, s.cluster.keys[n].uid)
  {
    hide HasTrue, KeyOk, NobodyHolds, Run, ClusterOk, Inv, NoLateDelete;
    var u := s.cluster.keys[n].uid;
    InvIsOk(s);
    LiveFacts(s.cluster, n);
    KeyWork.IdsOf(s.cluster, n);
    FreeAndLive(s, n);
    forall i | 0 <= i < |actions| ensures KeyWork.Unheld(Run(s, actions[..i]).cluster, u) {
      ShorterRun(actions, i, n);
      RunStaysFree(s, actions[..i], n, u);
    }
  }

  lemma FreeAndLive(s: State, n: string)
    requires Inv(s) && KeyIds(s.cluster) && n in s.cluster.keys && !s.cluster.keys[n].held
    ensures Free(s.cluster, n, s.cluster.keys[n].uid) && NoLateDelete(s, s.cluster.keys[n].uid)
  {
    hide Inv, TwoDeleteJobs, HasTrue;
    assert E.LiveKey(s.cluster, s.cluster.keys[n].uid);
    LiveHasOne(s, s.cluster.keys[n].uid);
  }

  lemma ShorterRun(actions: seq<Action>, i: nat, n: string)
    requires i <= |actions| && NobodyHolds(actions, n)
    ensures NobodyHolds(actions[..i], n)
  {
    assert forall a :: a in actions[..i] ==> a in actions;
  }

  /**
    For a new key, as far as nothing stands in its way: there is a run with an eighth write in which nobody asks for
    it to be held, if and only if somebody else holds it now.
   */
  lemma SevenWritesExactly(s: State, n: string)
    requires Reachable(s) && New(s.cluster, n)
    ensures (forall actions :: NobodyHolds(actions, n) ==> KeyWork.Writes(s, actions, s.cluster.keys[n].uid) <= 7)
            <==> !s.cluster.keys[n].held
  {
    hide Inv, Reachable, HasTrue, NobodyHolds, KeyWork.NeverHeld, KeyWork.LeftOver, ClusterOk, KeyOk;
    var u := s.cluster.keys[n].uid;
    ReachableInv(s);
    if s.cluster.keys[n].held {
      var t := HeldEarnsEight(s, n);
      var actions :| NobodyHolds(actions, n) && Run(s, actions) == t && KeyWork.Writes(s, actions, u) >= 8;
    } else {
      InvIsOk(s);
      LiveFacts(s.cluster, n);
      AtMostSevenLeft(s, n);
      forall actions | NobodyHolds(actions, n) ensures KeyWork.Writes(s, actions, u) <= 7 {
        FreeIsNeverHeld(s, n, actions);
        KeyWork.UnheldRunWork(s, actions, u);
        KeyWork.LeftOverIsLeft(Run(s, actions), u);
      }
    }
  }

  lemma AtMostSevenLeft(s: State, n: string)
    requires KeyIds(s.cluster) && n in s.cluster.keys
    ensures KeyWork.LeftOver(s, s.cluster.keys[n].uid) <= 7
  {
    hide KeyWork.LiveWork, KeyWork.Work;
    KeyWork.LiveKeyWork(s, n);
    assert E.LiveKey(s.cluster, s.cluster.keys[n].uid);
  }
}
