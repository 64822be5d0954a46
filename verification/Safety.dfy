/** What holds over every run of the operator. */
module Safety {
  import opened Options
  import opened Conditions
  import opened KeyLog
  import opened Resources
  import opened ApiServer
  import opened Operator
  import opened Invariant
  import E = Environment
  import EnvironmentSteps
  import RepositorySteps
  import KeySteps

  lemma NextKeepsInv(s: State, a: Action)
    requires Inv(s)
    ensures Inv(Next(s, a))
  {
    match a
    case KeyCall(outcome) => KeySteps.CallKeepsInv(s, outcome);
    case RepositoryCall(ok) => RepositorySteps.CallKeepsInv(s, ok);
    case Environment(e) => EnvironmentSteps.EventKeepsInv(s, e);
    case StartKey(_) => hide ClusterOk, RepoPcOk;
    case KeyCrash => hide ClusterOk, RepoPcOk;
    case StartRepository(_) => hide ClusterOk, KeyPcOk;
    case RepositoryCrash => hide ClusterOk, KeyPcOk;
  }

  lemma {:induction false} RunKeepsInv(s: State, actions: seq<Action>)
    requires Inv(s)
    ensures Inv(Run(s, actions))
    decreases |actions|
  {
    hide Inv;
    if actions != [] {
      RunKeepsInv(s, actions[..|actions| - 1]);
      NextKeepsInv(Run(s, actions[..|actions| - 1]), actions[|actions| - 1]);
    }
  }

  lemma ReachableInv(s: State)
    requires Reachable(s)
    ensures Inv(s)
  {
    var actions :| Run(INITIAL, actions) == s;
    Initially();
    RunKeepsInv(INITIAL, actions);
  }

  /** A key the operator knows of: it exists, or it has been removed. */
  predicate Known(c: Cluster, k: Key) {
    || (k.name in c.keys && c.keys[k.name] == k)
    || (k.uid in c.gone && c.gone[k.uid] == k)
  }

  lemma KnownOk(s: State, k: Key)
    requires Reachable(s) && Known(s.cluster, k)
    ensures KeyOk(s.cluster, k)
  {
    ReachableInv(s);
  }

  lemma LiveFacts(c: Cluster, n: string)
    requires ClusterOk(c) && n in c.keys
    ensures KeyOk(c, c.keys[n]) && LiveKeyOk(c.jobs, c.secrets, c.keys[n]) && c.keys[n].name == n && Retained(c.keys[n])
    ensures KeyIds(c) && JobIds(c) && Known(c, c.keys[n])
  {
  }

  // ----- no orphan restic keys -----

  /**
    In every interleaving with crashes: a key that had the finalizer and no longer has it (in particular
    one that is gone), whose repository exists and is not being deleted, has left nothing behind. All its
    add jobs are finished, so none can still complete, and no restic key ID that any of them stored
    is in any backend.
   */
  lemma NoOrphans(s: State, k: Key, n: string)
    requires Reachable(s) && Known(s.cluster, k) && k.carried && !k.finalizer
    requires n in s.cluster.repos && Registered(k, s.cluster.repos[n]) && !s.cluster.repos[n].deleting
    ensures forall j :: j in s.cluster.jobs && s.cluster.jobs[j].owner == k.uid && s.cluster.jobs[j].IsAdd() ==>
              && s.cluster.jobs[j].Finished()
              && s.cluster.jobs[j].url == s.cluster.repos[n].url
              && (s.cluster.jobs[j].added.Some? ==>
                    forall url :: s.cluster.jobs[j].added.value !in Stored(s.cluster.backend, url))
  {
    var c := s.cluster;
    ReachableInv(s);
    KnownOk(s, k);
    assert Purged(c.jobs, c.backend, k.uid);
    forall j | j in c.jobs && c.jobs[j].owner == k.uid && c.jobs[j].IsAdd()
      ensures c.jobs[j].Finished() && c.jobs[j].url == c.repos[n].url
      ensures c.jobs[j].added.Some? ==> forall url :: c.jobs[j].added.value !in Stored(c.backend, url)
    {
      assert AddJobOf(c.jobs, j, k.uid);
      assert JobHome(c.repos, c.jobs[j]);
      if c.jobs[j].added.Some? {
        forall url ensures c.jobs[j].added.value !in Stored(c.backend, url) { NotElsewhere(c, j, url); }
      }
    }
  }

  /** An ID is only ever in the backend it was stored in. */
  lemma NotElsewhere(c: Cluster, j: nat, url: string)
    requires BackendOk(c.jobs, c.backend) && j in c.jobs && c.jobs[j].added.Some?
    requires c.jobs[j].added.value !in Stored(c.backend, c.jobs[j].url)
    ensures c.jobs[j].added.value !in Stored(c.backend, url)
  {
    if AddedAt(c.jobs, url, c.jobs[j].added.value) {
      var i :| i in c.jobs && Adds(c.jobs[i], url, c.jobs[j].added.value);
      assert i == j;
    }
  }

  /**
    Conservation: a backend holds exactly the IDs that completed add jobs stored there, less those that
    completed delete jobs were asked to remove; no ID is stored twice.
   */
  lemma BackendLedger(s: State, url: string, id: string)
    requires Reachable(s)
    ensures id in Stored(s.cluster.backend, url) <==>
              && (exists j :: j in s.cluster.jobs && Adds(s.cluster.jobs[j], url, id))
              && !(exists j :: j in s.cluster.jobs && Removes(s.cluster.jobs[j], url, id))
    ensures forall i, j :: i in s.cluster.jobs && j in s.cluster.jobs && i != j ==>
              s.cluster.jobs[i].added != Some(id) || s.cluster.jobs[j].added != Some(id)
  {
    ReachableInv(s);
    assert BackendExact(s.cluster.jobs, s.cluster.backend);
  }

  // ----- how many jobs a key gets -----

  /**
    Over the whole history, a key that exists has had at most one add job and at most one delete job.
    Two add jobs of one key mean that it is gone and never had the finalizer; two delete jobs that it is gone.
   */
  lemma OneJobEach(s: State, i: nat, j: nat)
    requires Reachable(s) && i in s.cluster.jobs && j in s.cluster.jobs && i != j
    requires s.cluster.jobs[i].owner == s.cluster.jobs[j].owner && s.cluster.jobs[i].operation == s.cluster.jobs[j].operation
    ensures var uid := s.cluster.jobs[i].owner;
            && !E.LiveKey(s.cluster, uid)
            && (s.cluster.jobs[i].IsAdd() && uid in s.cluster.gone ==> !s.cluster.gone[uid].carried)
  {
    var c := s.cluster;
    ReachableInv(s);
    var uid := c.jobs[i].owner;
    assert JobShape(c.jobs[i]);
    assert c.jobs[i].operation.value.AddKey? || c.jobs[i].operation.value.DeleteKey?;
    assert AddJobOf(c.jobs, i, uid) == AddJobOf(c.jobs, j, uid) && DeleteJobOf(c.jobs, i, uid) == DeleteJobOf(c.jobs, j, uid);
    forall n | n in c.keys ensures c.keys[n].uid != uid {
      assert LiveKeyOk(c.jobs, c.secrets, c.keys[n]);
    }
    if uid in c.gone { assert KeyOk(c, c.gone[uid]); }
  }

  /** A delete job is for a key under deletion, removes that key's ID, and the add job that stored it is complete. */
  lemma DeleteJobsAreJustified(s: State, d: nat)
    requires Reachable(s) && d in s.cluster.jobs && s.cluster.jobs[d].IsDelete()
    ensures exists a :: a in s.cluster.jobs && s.cluster.jobs[a].owner == s.cluster.jobs[d].owner && s.cluster.jobs[a].IsAdd()
                        && s.cluster.jobs[a].IsComplete() && s.cluster.jobs[a].added == Some(s.cluster.jobs[d].Target())
    ensures forall k: Key :: Known(s.cluster, k) && k.uid == s.cluster.jobs[d].owner ==>
              k.deleting && k.keyID == Some(s.cluster.jobs[d].Target())
  {
    var c := s.cluster;
    ReachableInv(s);
    var uid := c.jobs[d].owner;
    var a :| AddJobOf(c.jobs, a, uid) && c.jobs[a].added == Some(c.jobs[d].Target());
    assert JobShape(c.jobs[a]);
    forall k: Key | Known(c, k) && k.uid == uid ensures k.deleting && k.keyID == Some(c.jobs[d].Target()) {
      KnownOk(s, k);
      assert DeleteJobOf(c.jobs, d, uid);
    }
  }

  // ----- secrets -----

  /**
    The add job of an existing key mounts a secret that exists and is owned by that key alone. So when two add jobs
    mount the same secret, as colliding secret names make possible, one of their keys is gone.
   */
  lemma SecretsAreExclusive(s: State, i: nat, j: nat)
    requires Reachable(s) && i in s.cluster.jobs && j in s.cluster.jobs
    requires s.cluster.jobs[i].IsAdd() && s.cluster.jobs[j].IsAdd()
    ensures |s.cluster.jobs[i].mounts| == 2 && |s.cluster.jobs[j].mounts| == 2
    ensures E.LiveKey(s.cluster, s.cluster.jobs[i].owner) ==>
              SecretOwned(s.cluster.secrets, s.cluster.jobs[i].mounts[0], s.cluster.jobs[i].owner)
    ensures s.cluster.jobs[i].mounts[0] == s.cluster.jobs[j].mounts[0] && i != j ==>
              !E.LiveKey(s.cluster, s.cluster.jobs[i].owner) || !E.LiveKey(s.cluster, s.cluster.jobs[j].owner)
  {
    hide Reachable, Inv, E.LiveKey;
    var c := s.cluster;
    ReachableInv(s);
    AddJobMounts(s, i);
    AddJobMounts(s, j);
    if i != j && c.jobs[i].mounts[0] == c.jobs[j].mounts[0]
       && E.LiveKey(c, c.jobs[i].owner) && E.LiveKey(c, c.jobs[j].owner) {
      assert c.jobs[i].owner == c.jobs[j].owner;
      OneJobEach(s, i, j);
    }
  }

  lemma AddJobMounts(s: State, j: nat)
    requires Inv(s) && j in s.cluster.jobs && s.cluster.jobs[j].IsAdd()
    ensures |s.cluster.jobs[j].mounts| == 2
    ensures E.LiveKey(s.cluster, s.cluster.jobs[j].owner) ==>
              SecretOwned(s.cluster.secrets, s.cluster.jobs[j].mounts[0], s.cluster.jobs[j].owner)
  {
    hide KeyPcOk, RepoPcOk, BackendOk, ReposOk, Ids, KeyOk;
    var c := s.cluster;
    assert JobShape(c.jobs[j]);
    if n :| n in c.keys && c.keys[n].uid == c.jobs[j].owner {
      assert LiveKeyOk(c.jobs, c.secrets, c.keys[n]);
      assert AddJobOf(c.jobs, j, c.keys[n].uid);
    }
  }

  // ----- phases and key IDs -----

  /** Conditions are unset or hold Created and Failed once each, never both True. */
  lemma PhasesAreSafe(s: State)
    requires Reachable(s)
    ensures forall n :: n in s.cluster.repos ==> Phase(s.cluster.repos[n].conditions)
    ensures forall k: Key :: Known(s.cluster, k) ==> Phase(k.conditions)
  {
    ReachableInv(s);
    forall n | n in s.cluster.repos ensures Phase(s.cluster.repos[n].conditions) {
      assert RepoOk(s.cluster.initJobs, s.cluster.repos[n]);
    }
    forall k: Key | Known(s.cluster, k) ensures Phase(k.conditions) { KnownOk(s, k); }
  }

  /** As the code is written, no key is ever marked Failed, and a key ID is set exactly when Created is True. */
  lemma KeysNeverFail(s: State, k: Key)
    requires Reachable(s) && Known(s.cluster, k)
    ensures !k.IsFailed() && (k.IsCreated() <==> k.keyID.Some?)
  {
    KnownOk(s, k);
  }

  // ----- what jobs ask restic to do -----

  lemma InitJobMeans(s: State, n: string)
    requires Inv(s) && n in s.cluster.initJobs && n in s.cluster.repos
    ensures InitJobOk(s.cluster.repos, s.cluster.secrets, n, s.cluster.initJobs[n]) && RepoOk(s.cluster.initJobs, s.cluster.repos[n])
    ensures s.cluster.repos[n].name == n
  {
  }

  /** The init job of an existing repository initialises it at its own URL, with the operator's secret alone. */
  lemma InitJobsInitialise(s: State, n: string)
    requires Reachable(s) && n in s.cluster.repos && n in s.cluster.initJobs
    ensures var job := s.cluster.initJobs[n];
            && job.args == ["init"] && job.url == s.cluster.repos[n].url && job.repository == n
            && job.mounts == ["operator-key-" + n] && job.owner == s.cluster.repos[n].uid
  {
    hide Inv, Reachable;
    ReachableInv(s);
    InitJobMeans(s, n);
  }

  /** So a repository is Created only when restic has initialised it there. */
  lemma CreatedIsInitialised(s: State, n: string)
    requires Reachable(s) && n in s.cluster.repos && Condition("Created", ConditionTrue) in s.cluster.repos[n].conditions
    ensures n in s.cluster.initJobs
    ensures var job := s.cluster.initJobs[n];
            && job.args == ["init"] && job.url == s.cluster.repos[n].url && Condition("Complete", ConditionTrue) in job.conditions
  {
    hide Inv, Reachable, HasTrue;
    ReachableInv(s);
    HasTrueMeans(s.cluster.repos[n].conditions, CREATED);
    CreatedHasJob(s, n);
    InitJobsInitialise(s, n);
    HasTrueMeans(s.cluster.initJobs[n].conditions, JOB_COMPLETE);
  }

  lemma CreatedHasJob(s: State, n: string)
    requires Inv(s) && n in s.cluster.repos && s.cluster.repos[n].IsCreated()
    ensures n in s.cluster.initJobs && s.cluster.initJobs[n].IsComplete()
  {
    assert RepoOk(s.cluster.initJobs, s.cluster.repos[n]) && s.cluster.repos[n].name == n;
  }

  lemma JobMeans(s: State, j: nat)
    requires Inv(s) && j in s.cluster.jobs
    ensures JobShape(s.cluster.jobs[j]) && JobHome(s.cluster.repos, s.cluster.jobs[j])
  {
  }

  /**
    Every job for a key asks restic to add or to remove one, opens the repository with the operator's secret, and goes to the
    URL of the repository it was built from.
   */
  lemma KeyJobsSay(s: State, j: nat)
    requires Reachable(s) && j in s.cluster.jobs
    ensures var job := s.cluster.jobs[j];
            && (job.IsAdd() ==>
                  && |job.args| == 8 && job.args[..5] == ["key", "add", "--new-password-file", "$(NEW_KEY_FILE)", "--host"]
                  && job.args[6] == "--user" && |job.mounts| == 2 && job.mounts[1] == "operator-key-" + job.repository)
            && (job.IsDelete() ==>
                  && |job.args| == 3 && job.args[..2] == ["key", "remove"] && job.mounts == ["operator-key-" + job.repository])
            && (forall n :: n in s.cluster.repos && s.cluster.repos[n].uid == job.repoUid ==>
                  job.repository == n && job.url == s.cluster.repos[n].url)
  {
    hide Inv, Reachable;
    ReachableInv(s);
    JobMeans(s, j);
    hide HasTrue, ExtractKeyID;
  }

  /** The add job of an existing key gives its host and its user, and mounts its secret. */
  lemma AddJobsSay(s: State, n: string, j: nat)
    requires Reachable(s) && n in s.cluster.keys && j in s.cluster.jobs && s.cluster.jobs[j].IsAdd()
    requires s.cluster.jobs[j].owner == s.cluster.keys[n].uid
    ensures var k, job := s.cluster.keys[n], s.cluster.jobs[j];
            && |job.args| == 8 && job.args[5] == k.spec.host && job.args[7] == k.spec.user && job.key == Some(n)
            && |job.mounts| == 2 && job.mounts[0] == "restic-key-" + k.spec.repository + "-" + n
  {
    hide Inv, Reachable, HasTrue;
    ReachableInv(s);
    AddJobIsOwn(s, n, j);
  }

  lemma AddJobIsOwn(s: State, n: string, j: nat)
    requires Inv(s) && n in s.cluster.keys && AddJobOf(s.cluster.jobs, j, s.cluster.keys[n].uid)
    ensures LiveKeyOk(s.cluster.jobs, s.cluster.secrets, s.cluster.keys[n]) && JobOwned(s.cluster.keys, s.cluster.jobs[j])
    ensures s.cluster.keys[n].name == n
  {
  }
}
