/** What others and the controllers can bring about from a given state without anybody holding a given key. */
module Leads {
  import opened Options
  import opened Resources
  import opened ApiServer
  import opened Operator
  import opened Invariant
  import opened Safety
  import E = Environment
  import K = KeyController
  import R = RepositoryController
  import KR = KeyRecovery

  /** Nobody asks for this key to be held in the course of its deletion. */
  predicate LeavesFree(a: Action, n: string) {
    a.Environment? && a.event.DeleteKey? && a.event.name == n ==> !a.event.foreground
  }

  ghost predicate NobodyHolds(actions: seq<Action>, n: string) {
    forall a :: a in actions ==> LeavesFree(a, n)
  }

  /** Some run leads from s to t, and no action of it holds the key. */
  ghost predicate LeadsTo(s: State, t: State, n: string) {
    exists actions :: NobodyHolds(actions, n) && Run(s, actions) == t
  }

  lemma Stays(s: State, n: string)
    ensures LeadsTo(s, s, n)
  {
    assert NobodyHolds([], n) && Run(s, []) == s;
  }

  lemma Then(s: State, t: State, a: Action, n: string)
    requires LeadsTo(s, t, n) && LeavesFree(a, n)
    ensures LeadsTo(s, Next(t, a), n)
  {
    hide LeavesFree, Next;
    var actions :| NobodyHolds(actions, n) && Run(s, actions) == t;
    var more := actions + [a];
    assert more[..|more| - 1] == actions;
    assert NobodyHolds(more, n) && Run(s, more) == Next(t, a);
  }

  lemma LeadsKeepsInv(s: State, t: State, n: string)
    requires Inv(s) && LeadsTo(s, t, n)
    ensures Inv(t)
  {
    hide Inv, NobodyHolds;
    var actions :| NobodyHolds(actions, n) && Run(s, actions) == t;
    RunKeepsInv(s, actions);
  }

  /** Both reconciles in progress are given up. */
  lemma ThenCrash(s: State, t: State, n: string)
    requires LeadsTo(s, t, n)
    ensures LeadsTo(s, State(t.cluster, K.Idle, R.Idle), n)
  {
    hide LeadsTo;
    Then(s, t, KeyCrash, n);
    Then(s, t.(key := K.Idle), RepositoryCrash, n);
  }

  lemma ThenCall(s: State, c: Cluster, pc: K.Pc, repo: R.Pc, order: seq<nat>, d: Cluster, pc': K.Pc, n: string)
    requires LeadsTo(s, State(c, pc, repo), n) && K.Call(c, pc, K.Success(order)) == (d, pc')
    ensures LeadsTo(s, State(d, pc', repo), n)
  {
    hide LeadsTo, K.Call;
    Then(s, State(c, pc, repo), KeyCall(K.Success(order)), n);
  }

  lemma {:induction false} ThenFinish(s: State, c: Cluster, pc: K.Pc, order: seq<nat>, repo: R.Pc, n: string)
    requires LeadsTo(s, State(c, pc, repo), n)
    ensures LeadsTo(s, State(KR.Finish(c, pc, order), K.Idle, repo), n)
    decreases K.Rank(pc)
  {
    hide LeadsTo, K.Call;
    if !pc.Idle? {
      var (d, pc') := K.Call(c, pc, K.Success(order));
      K.CallDescends(c, pc, K.Success(order));
      ThenCall(s, c, pc, repo, order, d, pc', n);
      ThenFinish(s, d, pc', order, repo, n);
    }
  }

  /** A reconcile of the key without faults. */
  lemma ThenReconcile(s: State, c: Cluster, order: seq<nat>, n: string)
    requires LeadsTo(s, State(c, K.Idle, R.Idle), n)
    ensures LeadsTo(s, State(KR.Reconcile(c, n, order), K.Idle, R.Idle), n)
  {
    hide LeadsTo;
    Then(s, State(c, K.Idle, R.Idle), StartKey(n), n);
    ThenFinish(s, c, K.GetKey(n), order, R.Idle, n);
  }

  /** The reads of a reconcile. */
  lemma ThenReads(s: State, c: Cluster, k: Key, repo: Repository)
    requires LeadsTo(s, State(c, K.GetKey(k.name), R.Idle), k.name) && KeyUnchanged(c, k) && k.conditions != []
    requires k.spec.repository in c.repos && c.repos[k.spec.repository] == repo
    ensures LeadsTo(s, State(c, K.ListJobs(k, repo), R.Idle), k.name)
  {
    hide LeadsTo;
    ThenCall(s, c, K.GetKey(k.name), R.Idle, [], c, K.GetRepo(k), k.name);
    ThenCall(s, c, K.GetRepo(k), R.Idle, [], c, K.ListJobs(k, repo), k.name);
  }

  // ----- a key vanishes together with its jobs -----

  lemma IsListingOf(jobs: Jobs, name: string) returns (order: seq<nat>)
    ensures IsListing(jobs, name, order)
  {
    order := ListedAmong(jobs, name, jobs.Keys);
  }

  lemma {:induction false} ListedAmong(jobs: Jobs, name: string, uids: set<nat>) returns (order: seq<nat>)
    ensures forall i, j :: 0 <= i < j < |order| ==> order[i] != order[j]
    ensures forall j :: j in order <==> j in uids && Listed(jobs, name, j)
    decreases uids
  {
    order := [];
    if uids != {} {
      var j :| j in uids;
      order := ListedAmong(jobs, name, uids - {j});
      if Listed(jobs, name, j) { order := order + [j]; }
    }
  }

  lemma KeyIsPut(s: State, c: Cluster, pc: K.Pc, e: E.Event, l: Key, n: string)
    requires LeadsTo(s, State(c, pc, R.Idle), n) && KeyIds(c) && n in c.keys
    requires (e == E.DeleteKey(n, false) && l == c.keys[n].(deleting := true)) || (e == E.ReleaseKey(n) && l == c.keys[n].(held := false))
    ensures LeadsTo(s, State(PutKey(c, l), pc, R.Idle), n)
  {
    hide LeadsTo, KeyIds;
    assert E.Happen(c, K.Busy(pc), None, e) == PutKey(c, l);
    Then(s, State(c, pc, R.Idle), Environment(e), n);
  }

  /** A key without the finalizer goes when its deletion is requested and all others release it. */
  lemma ThenVanishes(s: State, c: Cluster, pc: K.Pc, n: string) returns (d: Cluster)
    requires LeadsTo(s, State(c, pc, R.Idle), n) && KeyIds(c) && n in c.keys && !c.keys[n].finalizer
    ensures LeadsTo(s, State(d, pc, R.Idle), n)
    ensures d == c.(keys := c.keys - {n}, gone := d.gone) && c.keys[n].uid in d.gone && !E.LiveKey(d, c.keys[n].uid)
  {
    hide LeadsTo;
    var k := c.keys[n];
    assert k.name == n;
    KeyIsPut(s, c, pc, E.DeleteKey(n, false), k.(deleting := true), n);
    d := PutKey(c, k.(deleting := true));
    if k.held {
      var l := k.(deleting := true, held := false);
      SamePlace(c, d, n);
      KeyIsPut(s, d, pc, E.ReleaseKey(n), l, n);
      d := PutKey(d, l);
    }
    assert d.keys == c.keys - {n};
  }

  lemma SamePlace(c: Cluster, d: Cluster, n: string)
    requires KeyIds(c) && n in c.keys && c.keys[n].held && d == PutKey(c, c.keys[n].(deleting := true))
    ensures KeyIds(d) && n in d.keys && d.keys[n] == c.keys[n].(deleting := true)
  {
  }

  /** The jobs of one cluster are those of another, perhaps collected. */
  predicate SameWork(jobs: Jobs, jobs': Jobs) {
    && jobs'.Keys == jobs.Keys
    && forall j :: j in jobs ==> jobs'[j] == jobs[j].(collected := jobs'[j].collected)
  }

  /** The garbage collector removes the jobs of a key that is gone. */
  lemma {:induction false} ThenCollected(s: State, c: Cluster, pc: K.Pc, order: seq<nat>, u: nat, n: string) returns (d: Cluster)
    requires LeadsTo(s, State(c, pc, R.Idle), n) && IsListing(c.jobs, n, order) && !E.LiveKey(c, u)
    requires forall j :: j in order ==> j in c.jobs && c.jobs[j].owner == u
    ensures LeadsTo(s, State(d, pc, R.Idle), n) && d == c.(jobs := d.jobs) && SameWork(c.jobs, d.jobs) && IsListing(d.jobs, n, [])
    decreases |order|
  {
    hide LeadsTo, E.LiveKey;
    d := c;
    assert SameWork(c.jobs, c.jobs);
    if order != [] {
      var j, rest := order[0], order[1..];
      assert j in order && forall i :: i in rest ==> i in order;
      var e := ThenCollect(s, c, pc, j, n);
      OneLessListed(c, j, order, n);
      SameKeysLive(c, e, u);
      hide IsListing, SameWork, E.Collect;
      d := ThenCollected(s, e, pc, rest, u, n);
      SameWorkAfter(c, j, d.jobs);
    }
  }

  lemma SameWorkAfter(c: Cluster, j: nat, jobs: Jobs)
    requires j in c.jobs && SameWork(E.Collect(c, j).jobs, jobs)
    ensures SameWork(c.jobs, jobs) && E.Collect(c, j) == c.(jobs := E.Collect(c, j).jobs)
  {
  }

  lemma ThenCollect(s: State, c: Cluster, pc: K.Pc, j: nat, n: string) returns (d: Cluster)
    requires LeadsTo(s, State(c, pc, R.Idle), n) && j in c.jobs && !E.LiveKey(c, c.jobs[j].owner)
    ensures d == E.Collect(c, j) && LeadsTo(s, State(d, pc, R.Idle), n)
  {
    hide LeadsTo, E.LiveKey;
    d := E.Collect(c, j);
    assert E.Happen(c, K.Busy(pc), None, E.CollectJob(j)) == d;
    Then(s, State(c, pc, R.Idle), Environment(E.CollectJob(j)), n);
  }

  lemma SameKeysLive(c: Cluster, d: Cluster, u: nat)
    requires d.keys == c.keys
    ensures E.LiveKey(d, u) <==> E.LiveKey(c, u)
  {
  }

  lemma OneLessListed(c: Cluster, j: nat, order: seq<nat>, n: string)
    requires IsListing(c.jobs, n, order) && order != [] && j == order[0] && j in c.jobs
    ensures IsListing(E.Collect(c, j).jobs, n, order[1..])
  {
    var rest, jobs := order[1..], E.Collect(c, j).jobs;
    assert forall i :: i in order <==> i == j || i in rest;
    forall i | i in rest ensures i != j && Listed(jobs, n, i) {
      var x :| 0 <= x < |rest| && rest[x] == i;
      assert order[x + 1] == i && Listed(c.jobs, n, i);
    }
    forall i | i in jobs && Listed(jobs, n, i) ensures i in rest { assert Listed(c.jobs, n, i); }
  }

  /** A key without the finalizer and all its jobs disappear while a reconcile is under way. */
  lemma ThenNothingIsLeft(s: State, c: Cluster, pc: K.Pc, n: string) returns (d: Cluster)
    requires LeadsTo(s, State(c, pc, R.Idle), n) && ClusterOk(c) && n in c.keys && !c.keys[n].finalizer
    ensures LeadsTo(s, State(d, pc, R.Idle), n) && d == c.(keys := c.keys - {n}, gone := d.gone, jobs := d.jobs)
    ensures SameWork(c.jobs, d.jobs) && IsListing(d.jobs, n, [])
  {
    hide LeadsTo, KeysOk, ReposOk, BackendOk, JobShape, JobHome, E.LiveKey, KR.OwnJobs;
    var k := c.keys[n];
    var order := IsListingOf(c.jobs, n);
    forall j | j in order ensures j in c.jobs && c.jobs[j].owner == k.uid { assert JobOwned(c.keys, c.jobs[j]); }
    d := ThenVanishes(s, c, pc, n);
    d := ThenCollected(s, d, pc, order, k.uid, n);
  }
}
