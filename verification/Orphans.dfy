/** Exactly which keys can leave a restic key behind in a repository that is to be kept. */
module Orphans {
  import opened Options
  import opened Conditions
  import opened KeyLog
  import opened Resources
  import opened ApiServer
  import opened Operator
  import opened Invariant
  import opened Safety
  import opened Histories
  import opened Homes
  import opened Leads
  import E = Environment
  import K = KeyController
  import R = RepositoryController

  /** Add job j of the key stored its restic key in repository m, which exists and is not being deleted. */
  predicate StoredIn(c: Cluster, u: nat, j: nat, m: string) {
    && AddJobOf(c.jobs, j, u) && c.jobs[j].added.Some?
    && m in c.repos && c.repos[m].uid == c.jobs[j].repoUid && !c.repos[m].deleting
  }

  /** The key is gone, and what one of its add jobs stored in a repository that is to be kept is still there. */
  ghost predicate Orphaned(c: Cluster, u: nat) {
    u in c.gone && exists j, m :: StoredIn(c, u, j, m) && c.jobs[j].added.value in Stored(c.backend, c.repos[m].url)
  }

  // ----- keys that carried the finalizer -----

  lemma CarriedIsNotOrphaned(s: State, u: nat)
    requires Inv(s) && HomesOk(s) && u in s.cluster.gone && s.cluster.gone[u].carried
    ensures !Orphaned(s.cluster, u)
  {
    hide Inv, PcHome, ClusterOk, KeyPcOk, BackendOk, JobIds;
    var c := s.cluster;
    InvMeans(s);
    assert Unguarded(c.gone[u]) && Safe(c, u);
    forall j, m | StoredIn(c, u, j, m) ensures c.jobs[j].added.value !in Stored(c.backend, c.repos[m].url) {
      assert BuiltFrom(c.jobs, u, c.repos[m]);
      assert Purged(c.jobs, c.backend, u);
      assert JobHome(c.repos, c.jobs[j]);
    }
  }

  // ----- keys that did not -----

  /** A delete job that removed what the key's add job stored is the key's own, and so its deletion was requested. */
  lemma RemovedMeansDeleting(c: Cluster, k: Key, j: nat)
    requires BackendOk(c.jobs, c.backend) && KeyHistory(c.jobs, k) && AddJobOf(c.jobs, j, k.uid) && c.jobs[j].added.Some?
    ensures RemovedAt(c.jobs, c.jobs[j].url, c.jobs[j].added.value) ==> k.deleting
  {
    hide BackendExact;
    if d :| d in c.jobs && Removes(c.jobs[d], c.jobs[j].url, c.jobs[j].added.value) {
      var a :| AddJobOf(c.jobs, a, c.jobs[d].owner) && c.jobs[a].added == Some(c.jobs[d].Target());
      assert a == j;
      assert DeleteJobOf(c.jobs, d, k.uid);
    }
  }

  lemma KeyIsOk(s: State, n: string)
    requires Inv(s) && n in s.cluster.keys
    ensures KeyOk(s.cluster, s.cluster.keys[n]) && s.cluster.keys[n].name == n
  {
  }

  /** Until its deletion is requested, the restic key of a Created key is in the backend. */
  lemma StoredUntilDeleted(s: State, n: string) returns (j: nat)
    requires Inv(s) && n in s.cluster.keys && s.cluster.keys[n].IsCreated() && !s.cluster.keys[n].deleting
    ensures AddJobOf(s.cluster.jobs, j, s.cluster.keys[n].uid) && s.cluster.jobs[j].added == s.cluster.keys[n].keyID
    ensures s.cluster.jobs[j].added.Some? && s.cluster.jobs[j].added.value in Stored(s.cluster.backend, s.cluster.jobs[j].url)
  {
    hide Inv, ClusterOk, KeyPcOk, JobIds, KeyIds, JobsOk, KeyHome;
    var c := s.cluster;
    InvMeans(s);
    var k := c.keys[n];
    KeyIsOk(s, n);
    j :| AddJobOf(c.jobs, j, k.uid) && c.jobs[j].added == Some(k.keyID.value);
    RemovedMeansDeleting(c, k, j);
    assert Adds(c.jobs[j], c.jobs[j].url, k.keyID.value);
  }

  lemma DeleteRequested(s: State, n: string, foreground: bool)
    requires KeyIds(s.cluster) && n in s.cluster.keys
    ensures var k, c, d := s.cluster.keys[n], s.cluster, Next(s, Environment(E.DeleteKey(n, foreground))).cluster;
            && d.jobs == c.jobs && d.repos == c.repos && d.backend == c.backend
            && (k.uid in d.gone <==> !k.finalizer && !k.held && !foreground)
            && (k.uid !in d.gone ==> n in d.keys && d.keys[n] == k.(deleting := true, held := k.held || foreground))
  {
    hide KeyIds, PutKey, HasTrue;
    var c := s.cluster;
    PutAway(c, n, c.keys[n].(deleting := true, held := c.keys[n].held || foreground));
  }

  lemma PutAway(c: Cluster, n: string, l: Key)
    requires KeyIds(c) && n in c.keys && l.deleting && l.name == c.keys[n].name && l.uid == c.keys[n].uid
    ensures var d := PutKey(c, l);
            && d.jobs == c.jobs && d.repos == c.repos && d.backend == c.backend
            && (l.uid in d.gone <==> !l.finalizer && !l.held) && (l.uid !in d.gone ==> n in d.keys && d.keys[n] == l)
  {
    assert c.keys[n].name == n && c.keys[n].uid !in c.gone;
    hide KeyIds;
  }

  /**
    Requesting the deletion of a Created key makes it vanish at once, leaving its restic key in the backend, if and only if
    neither the operator nor anybody else has a finalizer on it.
   */
  lemma VanishesExactlyWithoutFinalizer(s: State, n: string, foreground: bool)
    requires Reachable(s) && n in s.cluster.keys && s.cluster.keys[n].IsCreated() && !s.cluster.keys[n].deleting
    ensures var k, d := s.cluster.keys[n], Next(s, Environment(E.DeleteKey(n, foreground))).cluster;
            (k.uid in d.gone
             && exists j :: AddJobOf(d.jobs, j, k.uid) && d.jobs[j].added == k.keyID && k.keyID.Some?
                            && k.keyID.value in Stored(d.backend, d.jobs[j].url))
            <==> !k.finalizer && !k.held && !foreground
  {
    hide Inv, Reachable, HasTrue, Next, KeyIds, ClusterOk, KeyPcOk, JobIds, JobsOk, BackendOk;
    ReachableInv(s);
    InvMeans(s);
    var j := StoredUntilDeleted(s, n);
    DeleteRequested(s, n, foreground);
  }

  // ----- both together -----

  lemma GuardedStaysSafe(s: State, actions: seq<Action>, n: string)
    requires Inv(s) && HomesOk(s) && n in s.cluster.keys && s.cluster.keys[n].finalizer
    ensures !Orphaned(Run(s, actions).cluster, s.cluster.keys[n].uid)
  {
    var k, t := s.cluster.keys[n], Run(s, actions);
    KeyIsOk(s, n);
    assert k.carried;
    hide Inv, HomesOk, Orphaned, KeyOk;
    KeyHistoryIsMonotone(s, actions, k);
    RunKeepsInv(s, actions);
    RunKeepsHomes(s, actions);
    var l: Key :| Known(t.cluster, l) && KeyLater(k, l);
    LiveOrGone(t, l);
    if k.uid in t.cluster.gone {
      CarriedIsNotOrphaned(t, k.uid);
    } else {
      NotGone(t.cluster, k.uid);
    }
  }

  lemma NotGone(c: Cluster, u: nat)
    requires u !in c.gone
    ensures !Orphaned(c, u)
  {
  }

  lemma LiveOrGone(s: State, l: Key)
    requires Inv(s) && Known(s.cluster, l)
    ensures l.uid in s.cluster.gone ==> s.cluster.gone[l.uid] == l
  {
    assert KeyIds(s.cluster);
  }

  /**
    Add job j of the key is running, or what it stored is still there, and its repository m exists and is not being
    deleted.
   */
  predicate AtStake(c: Cluster, u: nat, j: nat, m: string) {
    && AddJobOf(c.jobs, j, u) && m in c.repos && c.repos[m].uid == c.jobs[j].repoUid && !c.repos[m].deleting
    && (!c.jobs[j].Finished() || (c.jobs[j].added.Some? && c.jobs[j].added.value in Stored(c.backend, c.repos[m].url)))
  }

  lemma {:induction false} LongestID(jobs: Jobs, uids: set<nat>) returns (length: nat)
    requires uids <= jobs.Keys
    ensures forall j :: j in uids && jobs[j].added.Some? ==> |jobs[j].added.value| <= length
    decreases uids
  {
    length := 0;
    if uids != {} {
      var j :| j in uids;
      length := LongestID(jobs, uids - {j});
      if jobs[j].added.Some? && |jobs[j].added.value| > length { length := |jobs[j].added.value|; }
    }
  }

  /** There is always another ID, and a log that reports it. */
  lemma FreshIDExists(c: Cluster) returns (id: string)
    requires BackendOk(c.jobs, c.backend)
    ensures E.FreshID(c, id) && Reports("" + MARKER + id + "", "", id, "")
  {
    var length := LongestID(c.jobs, c.jobs.Keys);
    id := seq(length + 1, _ => 'a');
    assert IsWord(id) && !Contains("", MARKER);
    forall url | url in c.backend ensures id !in c.backend[url] {
      assert id in Stored(c.backend, url) ==> AddedAt(c.jobs, url, id);
    }
  }

  lemma AddingHappens(c: Cluster, j: nat, id: string)
    requires j in c.jobs && c.jobs[j].IsAdd() && !c.jobs[j].Finished()
    requires E.FreshID(c, id) && Reports("" + MARKER + id + "", "", id, "")
    ensures E.Happen(c, None, None, E.FinishAddJob(j, [], "", id, "")) == E.CompleteAdd(c, j, [], "" + MARKER + id + "", id)
  {
    hide HasTrue, E.CompleteAdd, E.FreshID, Reports;
  }

  /** If need be, the add job first completes. */
  lemma ThenStored(s: State, j: nat, m: string, u: nat, n: string) returns (c: Cluster)
    requires Inv(s) && AtStake(s.cluster, u, j, m)
    ensures LeadsTo(s, State(c, K.Idle, R.Idle), n) && c.keys == s.cluster.keys && StoredIn(c, u, j, m)
    ensures c.jobs[j].added.value in Stored(c.backend, c.repos[m].url)
  {
    hide Inv, ClusterOk, KeyPcOk, KeyIds, JobIds, LeadsTo, HasTrue, E.Happen, E.FreshID, Reports;
    c := s.cluster;
    InvMeans(s);
    Stays(s, n);
    ThenCrash(s, s, n);
    assert JobHome(c.repos, c.jobs[j]);
    hide JobsOk;
    if !c.jobs[j].Finished() {
      var id := FreshIDExists(c);
      hide BackendOk;
      AddingHappens(c, j, id);
      Then(s, State(c, K.Idle, R.Idle), Environment(E.FinishAddJob(j, [], "", id, "")), n);
      c := E.CompleteAdd(c, j, [], "" + MARKER + id + "", id);
    }
  }

  /** Deleting it and releasing whatever else holds it then orphans a key without the finalizer. */
  lemma UnguardedIsOrphaned(s: State, n: string, j: nat, m: string) returns (t: State)
    requires Inv(s) && n in s.cluster.keys && !s.cluster.keys[n].finalizer && AtStake(s.cluster, s.cluster.keys[n].uid, j, m)
    ensures LeadsTo(s, t, n) && Orphaned(t.cluster, s.cluster.keys[n].uid)
  {
    hide Inv, ClusterOk, KeyIds, LeadsTo, HasTrue, AtStake, StoredIn, E.LiveKey;
    var u := s.cluster.keys[n].uid;
    var c := ThenStored(s, j, m, u, n);
    IdsAt(s, c, n);
    var d := ThenVanishes(s, c, K.Idle, n);
    SameStored(c, d, u, j, m);
    t := State(d, K.Idle, R.Idle);
  }

  lemma IdsAt(s: State, c: Cluster, n: string)
    requires Inv(s) && LeadsTo(s, State(c, K.Idle, R.Idle), n)
    ensures KeyIds(c)
  {
    hide Inv, LeadsTo, ClusterOk, KeyIds, KeyPcOk, JobIds, JobsOk, BackendOk;
    LeadsKeepsInv(s, State(c, K.Idle, R.Idle), n);
    InvMeans(State(c, K.Idle, R.Idle));
  }

  lemma SameStored(c: Cluster, d: Cluster, u: nat, j: nat, m: string)
    requires StoredIn(c, u, j, m) && d.jobs == c.jobs && d.repos == c.repos
    ensures StoredIn(d, u, j, m)
  {
  }

  /**
    A key whose add job is running or whose restic key is in the backend, in a repository that is to be kept, can never
    be orphaned there, whatever happens, if and only if it has the operator's finalizer.
   */
  lemma SafeExactlyWithFinalizer(s: State, n: string)
    requires Reachable(s) && n in s.cluster.keys && exists j, m :: AtStake(s.cluster, s.cluster.keys[n].uid, j, m)
    ensures (forall actions :: !Orphaned(Run(s, actions).cluster, s.cluster.keys[n].uid)) <==> s.cluster.keys[n].finalizer
  {
    hide Orphaned, Reachable, HasTrue, Inv, HomesOk, AtStake;
    var u := s.cluster.keys[n].uid;
    ReachableInv(s);
    if s.cluster.keys[n].finalizer {
      ReachableHomes(s);
      forall actions ensures !Orphaned(Run(s, actions).cluster, u) { GuardedStaysSafe(s, actions, n); }
    } else {
      var j, m :| AtStake(s.cluster, u, j, m);
      var t := UnguardedIsOrphaned(s, n, j, m);
      var actions :| NobodyHolds(actions, n) && Run(s, actions) == t;
      assert Orphaned(Run(s, actions).cluster, u);
    }
  }
}
