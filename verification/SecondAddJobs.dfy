/** Exactly which keys can get a second add job. */
module SecondAddJobs {
  import opened Conditions
  import opened Resources
  import opened ApiServer
  import opened Operator
  import opened Invariant
  import opened Safety
  import opened JobOrigins
  import opened Leads
  import Histories
  import E = Environment
  import K = KeyController
  import R = RepositoryController
  import Homes

  ghost predicate TwoAddJobs(jobs: Jobs, u: nat) {
    exists i, j :: i != j && AddJobOf(jobs, i, u) && AddJobOf(jobs, j, u)
  }

  // ----- when no add job can follow -----

  /** A reconcile in progress has read the key before it was Created or under deletion, and may still create an add job. */
  ghost predicate MayAdd(pc: K.Pc, u: nat) {
    && HoldsKey(pc) && pc.key.uid == u && !pc.key.deleting && !pc.key.IsCreated()
    && (pc.GetRepo? || ((pc.ListJobs? || pc.GetSecret? || pc.CreateSecret? || pc.CreateAddJob?) && pc.repo.IsCreated()))
  }

  /** The key, there or gone, is Created or under deletion. */
  ghost predicate Closed(c: Cluster, u: nat) {
    exists k: Key :: Known(c, k) && k.uid == u && (k.deleting || k.IsCreated())
  }

  ghost predicate NoMoreAdds(s: State, u: nat) {
    HasAddJob(s.cluster.jobs, u) && !TwoAddJobs(s.cluster.jobs, u) && !MayAdd(s.key, u) && Closed(s.cluster, u)
  }

  lemma OnlyOneKnown(c: Cluster, k: Key, l: Key)
    requires KeyIds(c) && Known(c, k) && Known(c, l) && k.uid == l.uid
    ensures k == l
  {
  }

  lemma CallMayNotAdd(c: Cluster, pc: K.Pc, outcome: K.Outcome, u: nat)
    requires KeyIds(c) && KeyPcOk(c, pc) && HasAddJob(c.jobs, u) && Closed(c, u) && !MayAdd(pc, u)
    ensures !MayAdd(K.Call(c, pc, outcome).1, u)
  {
    hide KeyIds, HasTrue, AnyWithStatus, MarkCreated, MarkFailed, K.FirstJob, Tracks, TracksRepo, DropOk, StepKey;
    if pc.GetKey? && pc.name in c.keys && c.keys[pc.name].uid == u {
      var k: Key :| Known(c, k) && k.uid == u && (k.deleting || k.IsCreated());
      ReadIsKnown(c, pc.name);
      OnlyOneKnown(c, k, c.keys[pc.name]);
    }
  }

  lemma ReadIsKnown(c: Cluster, n: string)
    requires KeyIds(c) && n in c.keys
    ensures Known(c, c.keys[n])
  {
  }

  lemma StaysClosed(s: State, a: Action, u: nat)
    requires Inv(s) && Closed(s.cluster, u)
    ensures Closed(Next(s, a).cluster, u)
  {
    hide Inv, Next, HasTrue;
    var k: Key :| Known(s.cluster, k) && k.uid == u && (k.deleting || k.IsCreated());
    Histories.StepKey(s, a, k);
    var l: Key :| Known(Next(s, a).cluster, l) && Histories.KeyLater(k, l);
    assert l.deleting || l.IsCreated();
  }

  lemma StepMayNotAdd(s: State, a: Action, u: nat)
    requires Inv(s) && NoMoreAdds(s, u)
    ensures !MayAdd(Next(s, a).key, u) && !CreatesAdd(s, a, u)
  {
    hide Inv, ClusterOk, KeyIds, JobIds, JobsOk, BackendOk, HasTrue, Closed, TwoAddJobs, HasAddJob, K.Call, R.Call, E.Happen;
    Homes.InvMeans(s);
    if a.KeyCall? {
      CallMayNotAdd(s.cluster, s.key, a.outcome, u);
    }
    hide Tracks, TracksRepo, StepJobs, DropOk;
  }

  lemma StepNoMoreAdds(s: State, a: Action, u: nat)
    requires Inv(s) && NoMoreAdds(s, u)
    ensures NoMoreAdds(Next(s, a), u)
  {
    hide Inv, Next, Closed, MayAdd, AddJobOf, DeleteJobOf;
    StepMayNotAdd(s, a, u);
    StepJobsFrom(s, a, u);
    StaysClosed(s, a, u);
  }

  lemma {:induction false} RunNoMoreAdds(s: State, actions: seq<Action>, u: nat)
    requires Inv(s) && NoMoreAdds(s, u)
    ensures NoMoreAdds(Run(s, actions), u)
    decreases |actions|
  {
    hide Inv, NoMoreAdds;
    if actions != [] {
      var before := actions[..|actions| - 1];
      RunNoMoreAdds(s, before, u);
      RunKeepsInv(s, before);
      StepNoMoreAdds(Run(s, before), actions[|actions| - 1], u);
    }
  }

  // ----- exactly which keys can get a second add job -----

  /** An existing key with an add job, whose repository is there and Created. */
  ghost predicate HasBeenAdded(c: Cluster, n: string) {
    && n in c.keys && HasAddJob(c.jobs, c.keys[n].uid)
    && c.keys[n].spec.repository in c.repos && c.repos[c.keys[n].spec.repository].IsCreated()
  }

  lemma ClosedHasOne(s: State, n: string, actions: seq<Action>)
    requires Inv(s) && n in s.cluster.keys && HasAddJob(s.cluster.jobs, s.cluster.keys[n].uid)
    requires (s.cluster.keys[n].deleting || s.cluster.keys[n].IsCreated()) && !MayAdd(s.key, s.cluster.keys[n].uid)
    ensures !TwoAddJobs(Run(s, actions).cluster.jobs, s.cluster.keys[n].uid)
  {
    hide Run, KeyOk, MayAdd, HasTrue, ClusterOk;
    LiveFacts(s.cluster, n);
    hide Inv;
    RunNoMoreAdds(s, actions, s.cluster.keys[n].uid);
  }

  lemma CarriedHasOne(s: State, n: string, actions: seq<Action>)
    requires Inv(s) && n in s.cluster.keys && s.cluster.keys[n].carried
    ensures !TwoAddJobs(Run(s, actions).cluster.jobs, s.cluster.keys[n].uid)
  {
    hide ClusterOk, KeyOk, HasTrue;
    LiveFacts(s.cluster, n);
    hide Inv;
    var k, t := s.cluster.keys[n], Run(s, actions);
    Histories.KeyHistoryIsMonotone(s, actions, k);
    RunKeepsInv(s, actions);
    var l: Key :| Known(t.cluster, l) && Histories.KeyLater(k, l);
    KnownHistory(t, l);
  }

  lemma KnownHistory(s: State, k: Key)
    requires Inv(s) && Known(s.cluster, k)
    ensures KeyHistory(s.cluster.jobs, k)
  {
    hide KeyHistory, KeyHome;
    assert KeyOk(s.cluster, k);
  }

  lemma CallsToAdd(d: Cluster, copy: Key, repo: Repository)
    requires IsListing(d.jobs, copy.name, []) && SecretOwned(d.secrets, copy.SecretName(), copy.uid)
    requires !copy.deleting && !copy.IsCreated() && !copy.IsFailed() && repo.IsCreated()
    ensures K.Call(d, K.ListJobs(copy, repo), K.Success([])) == (d, K.GetSecret(copy, repo))
    ensures K.Call(d, K.GetSecret(copy, repo), K.Success([])) == (d, K.CreateAddJob(copy, repo))
    ensures K.Call(d, K.CreateAddJob(copy, repo), K.Success([])) == (CreateKeyJob(d, AddKeyJob(repo, copy)), K.Idle)
  {
    hide IsListing, HasTrue;
  }

  lemma OneMoreAdd(c: Cluster, d: Cluster, job: Job, u: nat)
    requires JobIds(c) && HasAddJob(c.jobs, u) && SameWork(c.jobs, d.jobs) && d.nextUid == c.nextUid && job.IsAdd() && job.owner == u
    ensures TwoAddJobs(CreateKeyJob(d, job).jobs, u)
  {
    var jobs, j := CreateKeyJob(d, job).jobs, d.nextUid;
    var i :| AddJobOf(c.jobs, i, u);
    assert AddJobOf(jobs, i, u) && AddJobOf(jobs, j, u);
  }

  /** A reconcile about to list the jobs of a key without the finalizer. */
  lemma AddsAgain(s: State, c: Cluster, copy: Key, repo: Repository) returns (t: State)
    requires Inv(s) && LeadsTo(s, State(c, K.ListJobs(copy, repo), R.Idle), copy.name) && MayAdd(K.ListJobs(copy, repo), copy.uid)
    requires copy.name in c.keys && !c.keys[copy.name].finalizer && HasAddJob(c.jobs, copy.uid)
    ensures LeadsTo(s, t, copy.name) && TwoAddJobs(t.cluster.jobs, copy.uid)
  {
    hide LeadsTo, HasTrue, ClusterOk, IsListing, SameWork, HasAddJob, TwoAddJobs, KeyOk, K.Call, RepoPcOk;
    var n := copy.name;
    LeadsKeepsInv(s, State(c, K.ListJobs(copy, repo), R.Idle), n);
    assert ClusterOk(c) && SameKey(copy, c.keys[n]) && KeyShape(copy);
    hide Inv;
    LiveFacts(c, n);
    SecretIsOwn(c, n);
    var d := ThenNothingIsLeft(s, c, K.ListJobs(copy, repo), n);
    CallsToAdd(d, copy, repo);
    ThenCall(s, d, K.ListJobs(copy, repo), R.Idle, [], d, K.GetSecret(copy, repo), n);
    ThenCall(s, d, K.GetSecret(copy, repo), R.Idle, [], d, K.CreateAddJob(copy, repo), n);
    t := State(CreateKeyJob(d, AddKeyJob(repo, copy)), K.Idle, R.Idle);
    ThenCall(s, d, K.CreateAddJob(copy, repo), R.Idle, [], t.cluster, K.Idle, n);
    OneMoreAdd(c, d, AddKeyJob(repo, copy), copy.uid);
  }

  lemma SecretIsOwn(c: Cluster, n: string)
    requires n in c.keys && LiveKeyOk(c.jobs, c.secrets, c.keys[n]) && HasAddJob(c.jobs, c.keys[n].uid)
    ensures SecretOwned(c.secrets, c.keys[n].SecretName(), c.keys[n].uid)
  {
  }

  lemma HasStatus(c: Cluster, n: string)
    requires n in c.keys && KeyOk(c, c.keys[n]) && HasAddJob(c.jobs, c.keys[n].uid)
    ensures c.keys[n].conditions != []
  {
  }

  /** A new reconcile comes that far with a key that is neither Created nor under deletion. */
  lemma OpenAddsAgain(s: State, n: string) returns (t: State)
    requires Inv(s) && HasBeenAdded(s.cluster, n)
    requires !s.cluster.keys[n].deleting && !s.cluster.keys[n].IsCreated() && !s.cluster.keys[n].finalizer
    ensures LeadsTo(s, t, n) && TwoAddJobs(t.cluster.jobs, s.cluster.keys[n].uid)
  {
    hide LeadsTo, HasTrue, ClusterOk, KeyOk, TwoAddJobs, HasAddJob;
    var c, k := s.cluster, s.cluster.keys[n];
    assert ClusterOk(c);
    LiveFacts(c, n);
    HasStatus(c, n);
    var repo := c.repos[k.spec.repository];
    hide Inv;
    Stays(s, n);
    ThenCrash(s, s, n);
    Then(s, State(c, K.Idle, R.Idle), StartKey(n), n);
    ThenReads(s, c, k, repo);
    t := AddsAgain(s, c, k, repo);
  }

  /** So does one in progress that has read the key before it was either. */
  lemma LateAddsAgain(s: State, n: string) returns (t: State)
    requires Inv(s) && HasBeenAdded(s.cluster, n) && !s.cluster.keys[n].finalizer && MayAdd(s.key, s.cluster.keys[n].uid)
    ensures LeadsTo(s, t, n) && TwoAddJobs(t.cluster.jobs, s.cluster.keys[n].uid)
  {
    hide LeadsTo, HasTrue, ClusterOk, KeyOk, TwoAddJobs, RepoPcOk;
    var c, k, pc := s.cluster, s.cluster.keys[n], s.key;
    assert ClusterOk(c);
    LiveFacts(c, n);
    HeldIsThere(c, pc, n);
    HasStatus(c, n);
    hide Inv, HasAddJob;
    Stays(s, n);
    Then(s, s, RepositoryCrash, n);
    if pc.GetRepo? {
      var repo := c.repos[k.spec.repository];
      ThenCall(s, c, pc, R.Idle, [], c, K.ListJobs(pc.key, repo), n);
      t := AddsAgain(s, c, pc.key, repo);
    } else {
      t := AddsAgain(s, c, pc.key, pc.repo);
    }
  }

  lemma HeldIsThere(c: Cluster, pc: K.Pc, n: string)
    requires KeyIds(c) && KeyPcOk(c, pc) && n in c.keys && c.keys[n].uid !in c.gone && HoldsKey(pc) && pc.key.uid == c.keys[n].uid
    requires HasAddJob(c.jobs, c.keys[n].uid)
    ensures pc.key.name == n && SameKey(pc.key, c.keys[n]) && !pc.GetSecret? && !pc.CreateSecret? && !pc.CreateAddJob?
  {
    hide HasTrue, TracksRepo, DropOk, StepKey, KeyShape;
  }

  /**
    A key with an add job, whose repository is Created, gets a second one in some run, unless it carries or has carried
    the finalizer, or is Created or under deletion and no reconcile in progress has read it before.
   */
  lemma OneAddJobExactly(s: State, n: string)
    requires Reachable(s) && HasBeenAdded(s.cluster, n)
    ensures var k := s.cluster.keys[n];
            (forall actions :: !TwoAddJobs(Run(s, actions).cluster.jobs, k.uid)) <==>
            k.carried || ((k.deleting || k.IsCreated()) && !MayAdd(s.key, k.uid))
  {
    hide Inv, Reachable, HasTrue, TwoAddJobs, MayAdd, ClusterOk, KeyPcOk, BackendOk, JobsOk;
    ReachableInv(s);
    Homes.InvMeans(s);
    var k := s.cluster.keys[n];
    var u := k.uid;
    LiveFacts(s.cluster, n);
    if k.carried {
      forall actions ensures !TwoAddJobs(Run(s, actions).cluster.jobs, u) { CarriedHasOne(s, n, actions); }
    } else if (k.deleting || k.IsCreated()) && !MayAdd(s.key, u) {
      forall actions ensures !TwoAddJobs(Run(s, actions).cluster.jobs, u) { ClosedHasOne(s, n, actions); }
    } else {
      var t: State;
      if MayAdd(s.key, u) { t := LateAddsAgain(s, n); } else { t := OpenAddsAgain(s, n); }
      var actions :| NobodyHolds(actions, n) && Run(s, actions) == t;
      assert TwoAddJobs(Run(s, actions).cluster.jobs, u);
    }
  }

  /** In particular, while it is neither Created nor under deletion: exactly the keys with the finalizer get no second one. */
  lemma OneAddJobWithFinalizer(s: State, n: string)
    requires Reachable(s) && HasBeenAdded(s.cluster, n) && !s.cluster.keys[n].deleting && !s.cluster.keys[n].IsCreated()
    ensures (forall actions :: !TwoAddJobs(Run(s, actions).cluster.jobs, s.cluster.keys[n].uid)) <==> s.cluster.keys[n].finalizer
  {
    hide Reachable, HasTrue, TwoAddJobs, MayAdd, ClusterOk;
    ReachableInv(s);
    LiveFacts(s.cluster, n);
    hide Inv;
    OneAddJobExactly(s, n);
  }
}
