/** Runs that show why the guarantees are stated for keys that carried the finalizer. */
module Witnesses {
  import opened Options
  import opened Conditions
  import opened KeyLog
  import opened Resources
  import opened ApiServer
  import opened Operator
  import opened Invariant
  import opened Safety
  import E = Environment
  import K = KeyController
  import R = RepositoryController
  import RR = RepositoryRecovery
  import KR = KeyRecovery

  // ----- a reconcile without faults is part of a run -----

  lemma NextIsReachable(s: State, a: Action)
    requires Reachable(s)
    ensures Reachable(Next(s, a))
  {
    var actions :| Run(INITIAL, actions) == s;
    var more := actions + [a];
    assert more[..|more| - 1] == actions;
    assert Run(INITIAL, more) == Next(s, a);
  }

  lemma {:induction false} RepositoryFinishIsReachable(c: Cluster, pc: R.Pc, key: K.Pc)
    requires Reachable(State(c, key, pc))
    ensures Reachable(State(RR.Finish(c, pc), key, R.Idle))
    decreases R.Rank(pc)
  {
    hide Reachable, R.Call;
    if !pc.Idle? {
      R.CallDescends(c, pc, true);
      NextIsReachable(State(c, key, pc), RepositoryCall(true));
      RepositoryFinishIsReachable(R.Call(c, pc, true).0, R.Call(c, pc, true).1, key);
    }
  }

  lemma RepositoryReconcileIsReachable(c: Cluster, n: string)
    requires Reachable(State(c, K.Idle, R.Idle))
    ensures Reachable(State(RR.Reconcile(c, n), K.Idle, R.Idle))
  {
    hide Reachable;
    NextIsReachable(State(c, K.Idle, R.Idle), StartRepository(n));
    RepositoryFinishIsReachable(c, R.GetRepo(n), K.Idle);
  }

  lemma {:induction false} KeyFinishIsReachable(c: Cluster, pc: K.Pc, order: seq<nat>, repo: R.Pc)
    requires Reachable(State(c, pc, repo))
    ensures Reachable(State(KR.Finish(c, pc, order), K.Idle, repo))
    decreases K.Rank(pc)
  {
    hide Reachable, K.Call;
    if !pc.Idle? {
      var next := K.Call(c, pc, K.Success(order));
      K.CallDescends(c, pc, K.Success(order));
      NextIsReachable(State(c, pc, repo), KeyCall(K.Success(order)));
      KeyFinishIsReachable(next.0, next.1, order, repo);
    }
  }

  lemma KeyReconcileIsReachable(c: Cluster, n: string, order: seq<nat>)
    requires Reachable(State(c, K.Idle, R.Idle))
    ensures Reachable(State(KR.Reconcile(c, n, order), K.Idle, R.Idle))
  {
    hide Reachable;
    NextIsReachable(State(c, K.Idle, R.Idle), StartKey(n));
    KeyFinishIsReachable(c, K.GetKey(n), order, R.Idle);
  }

  lemma EventIsReachable(c: Cluster, e: E.Event)
    requires Reachable(State(c, K.Idle, R.Idle))
    ensures Reachable(State(E.Happen(c, None, None, e), K.Idle, R.Idle))
  {
    hide Reachable, E.Happen;
    NextIsReachable(State(c, K.Idle, R.Idle), Environment(e));
  }

  // ----- a repository from its creation until it is Created -----

  const CREATED_FIRST := [Condition(CREATED, ConditionTrue), Condition(FAILED, ConditionFalse)]
  const REPO := Repository("repo", 0, "url", false, false, [])
  const NEW := EMPTY.(repos := map["repo" := REPO], nextUid := 1)
  const STARTING := NEW.(repos := map["repo" := REPO.(conditions := DEFAULT_PHASE)],
                         secrets := map["operator-key-repo" := Secret([0])])
  const INIT := RepositoryInitJob(REPO)
  const STARTED := STARTING.(initJobs := map["repo" := INIT])
  const INIT_DONE := STARTED.(initJobs := map["repo" := INIT.(conditions := [Condition(JOB_COMPLETE, ConditionTrue)])])
  const READY := INIT_DONE.(repos := map["repo" := REPO.(conditions := CREATED_FIRST)])

  lemma ConcreteConditions()
    ensures HasTrue(CREATED_FIRST, CREATED) && !HasTrue(CREATED_FIRST, FAILED)
    ensures !HasTrue(DEFAULT_PHASE, CREATED) && !HasTrue(DEFAULT_PHASE, FAILED)
    ensures MarkCreated(DEFAULT_PHASE) == CREATED_FIRST
    ensures !HasTrue([], JOB_COMPLETE) && !HasTrue([], JOB_FAILED)
    ensures AnyWithStatus([Condition(JOB_COMPLETE, ConditionTrue)], ConditionTrue, [JOB_COMPLETE, JOB_FAILED]) == Some(JOB_COMPLETE)
  {
    DefaultPhaseIsPhased();
    SettersOrderEntries(DEFAULT_PHASE);
  }

  lemma RepositoryStarts()
    ensures RR.Reconcile(NEW, "repo") == STARTED
  {
    ConcreteConditions();
    RR.ReconcileHasEffect(NEW, "repo");
    hide MarkCreated, MarkFailed, HasTrue, RR.Reconcile;
    var r := REPO.(conditions := DEFAULT_PHASE);
    assert r.OperatorSecretName() == "operator-key-repo";
    assert RR.WithStatus(NEW, r).repos == map["repo" := r];
    assert RR.Started(RR.WithStatus(NEW, r), r) == STARTED;
  }

  lemma RepositoryEnds()
    ensures RR.Reconcile(INIT_DONE, "repo") == READY
  {
    ConcreteConditions();
    RR.ReconcileHasEffect(INIT_DONE, "repo");
    hide MarkCreated, MarkFailed, HasTrue, AnyWithStatus, RR.Reconcile;
    var r := REPO.(conditions := DEFAULT_PHASE);
    assert RR.WithStatus(INIT_DONE, r) == INIT_DONE;
    assert RR.WithStatus(INIT_DONE, R.WithCreated(r)) == READY;
  }

  lemma InitJobCompletes()
    ensures E.Happen(STARTED, None, None, E.FinishInitJob("repo", [], true)) == INIT_DONE
  {
    ConcreteConditions();
    hide HasTrue;
    assert [] + [] + [Condition(JOB_COMPLETE, ConditionTrue)] == [Condition(JOB_COMPLETE, ConditionTrue)];
    assert E.ConcludeInit(STARTED, "repo", [], true) == INIT_DONE;
  }

  lemma ReadyIsReachable()
    ensures Reachable(State(READY, K.Idle, R.Idle))
  {
    assert Run(INITIAL, []) == INITIAL;
    EventIsReachable(EMPTY, E.CreateRepository("repo", "url", false));
    assert E.Happen(EMPTY, None, None, E.CreateRepository("repo", "url", false)) == NEW;
    hide Reachable, E.Happen, RR.Reconcile;
    RepositoryReconcileIsReachable(NEW, "repo");
    RepositoryStarts();
    EventIsReachable(STARTED, E.FinishInitJob("repo", [], true));
    InitJobCompletes();
    RepositoryReconcileIsReachable(INIT_DONE, "repo");
    RepositoryEnds();
  }

  // ----- a key that never got the finalizer -----

  const KEY := Key("key", 1, KeySpec("repo", "user", "host"), None, None, false, false, false, false, [], None)
  const KEYED := READY.(keys := map["key" := KEY], nextUid := 2)
  const UNGUARDED := KEY.(conditions := DEFAULT_PHASE)
  const CRASHED := KEYED.(keys := map["key" := UNGUARDED])
  const ADD := AddKeyJob(READY.repos["repo"], UNGUARDED)
  const ADDING := CRASHED.(secrets := map["operator-key-repo" := Secret([0]), "restic-key-repo-key" := Secret([1])],
                           jobs := map[2 := ADD], nextUid := 3)

  /** Some other controller. */
  const STRANGER := Owner("argoproj.io/Application", "backups", 7)

  lemma KeyedIsReachable()
    ensures Reachable(State(KEYED, K.Idle, R.Idle))
  {
    ReadyIsReachable();
    hide Reachable;
    EventIsReachable(READY, E.CreateKey("key", KEY.spec, None, false));
    assert E.Happen(READY, None, None, E.CreateKey("key", KEY.spec, None, false)) == KEYED;
  }

  /** The process dies between storing the default status and adding the finalizer. */
  lemma CrashedIsReachable()
    ensures Reachable(State(CRASHED, K.Idle, R.Idle))
  {
    KeyedIsReachable();
    hide Reachable;
    var repo := READY.repos["repo"];
    NextIsReachable(State(KEYED, K.Idle, R.Idle), StartKey("key"));
    assert K.Call(KEYED, K.GetKey("key"), K.Success([])) == (KEYED, K.GetRepo(KEY));
    NextIsReachable(State(KEYED, K.GetKey("key"), R.Idle), KeyCall(K.Success([])));
    assert KEY.spec.repository in KEYED.repos && KEYED.repos["repo"] == repo;
    assert K.Call(KEYED, K.GetRepo(KEY), K.Success([])) == (KEYED, K.DefaultStatus(KEY, repo));
    NextIsReachable(State(KEYED, K.GetRepo(KEY), R.Idle), KeyCall(K.Success([])));
    assert K.WithDefaults(KEY) == UNGUARDED;
    assert UpdateKeyStatus(KEYED, KEY, UNGUARDED) == Some(CRASHED) by { assert KEYED.keys["key" := UNGUARDED] == CRASHED.keys; }
    assert K.Call(KEYED, K.DefaultStatus(KEY, repo), K.Success([])) == (CRASHED, K.SetMetadata(UNGUARDED, repo));
    NextIsReachable(State(KEYED, K.DefaultStatus(KEY, repo), R.Idle), KeyCall(K.Success([])));
    NextIsReachable(State(CRASHED, K.SetMetadata(UNGUARDED, repo), R.Idle), KeyCrash);
  }

  lemma AddJobDecided()
    ensures KR.Decided(CRASHED, UNGUARDED, READY.repos["repo"]) == ADDING
  {
    ConcreteConditions();
    hide HasTrue;
    var repo := READY.repos["repo"];
    assert KR.Choose(CRASHED.jobs, UNGUARDED, repo) == K.GetSecret(UNGUARDED, repo);
    assert UNGUARDED.SecretName() == "restic-key-repo-key";
    assert KR.Added(CRASHED, UNGUARDED, repo) == ADDING;
  }

  lemma AddJobStarts()
    ensures KR.Reconcile(CRASHED, "key", []) == ADDING && ClusterOk(CRASHED)
  {
    CrashedIsReachable();
    ReachableInv(State(CRASHED, K.Idle, R.Idle));
    hide ClusterOk, KR.Reconcile, KR.Decided, Reachable;
    KR.ReconcileHasEffect(CRASHED, "key", []);
    AddJobDecided();
  }

  lemma AddingIsReachable()
    ensures Reachable(State(ADDING, K.Idle, R.Idle))
  {
    CrashedIsReachable();
    AddJobStarts();
    hide Reachable, KR.Reconcile;
    KeyReconcileIsReachable(CRASHED, "key", []);
  }

  const ADDED := ADD.(conditions := [Condition(JOB_COMPLETE, ConditionTrue)], log := MARKER + "id", added := Some("id"))
  const ORPHANED := ADDING.(jobs := map[2 := ADDED], backend := map["url" := {"id"}], keys := map[],
                            gone := map[1 := UNGUARDED.(deleting := true)])

  /**
    A key whose first reconcile died before the finalizer was written is reconciled on without it, and deleting
    it leaves its restic key behind: the repository exists, the key is gone, the ID is in the backend.
   */
  lemma UnguardedKeyIsOrphaned()
    ensures Reachable(State(ORPHANED, K.Idle, R.Idle))
    ensures "repo" in ORPHANED.repos && !ORPHANED.repos["repo"].deleting && ORPHANED.keys == map[]
    ensures 1 in ORPHANED.gone && ORPHANED.gone[1].spec.repository == "repo" && !ORPHANED.gone[1].carried
    ensures AddJobOf(ORPHANED.jobs, 2, 1) && ORPHANED.jobs[2].added == Some("id")
    ensures "id" in Stored(ORPHANED.backend, ORPHANED.repos["repo"].url)
  {
    AddingIsReachable();
    hide Reachable;
    var add, delete := E.FinishAddJob(2, [], "", "id", ""), E.DeleteKey("key", false);
    var c := ADDING.(jobs := map[2 := ADDED], backend := map["url" := {"id"}]);
    EventIsReachable(ADDING, add);
    AddJobCompletes(c);
    EventIsReachable(c, delete);
    assert E.Happen(c, None, None, delete) == PutKey(c, UNGUARDED.(deleting := true));
    assert c.keys - {"key"} == map[];
  }

  lemma AddJobCompletes(c: Cluster)
    requires c == ADDING.(jobs := map[2 := ADDED], backend := map["url" := {"id"}])
    ensures E.Happen(ADDING, None, None, E.FinishAddJob(2, [], "", "id", "")) == c
  {
    hide E.Happen, E.CompleteAdd;
    assert "" + MARKER + "id" + "" == MARKER + "id";
    assert IsWord("id") && !Contains("", MARKER);
    assert Reports(MARKER + "id", "", "id", "");
    AddJobReports(ADDING, 2, ADD);
    AddedConcretely(c);
  }

  lemma AddJobReports(c: Cluster, j: nat, job: Job)
    requires j in c.jobs && c.jobs[j] == job && job.IsAdd() && job.conditions == [] && E.FreshID(c, "id")
    requires Reports(MARKER + "id", "", "id", "") && "" + MARKER + "id" + "" == MARKER + "id"
    ensures E.Happen(c, None, None, E.FinishAddJob(j, [], "", "id", "")) == E.CompleteAdd(c, j, [], MARKER + "id", "id")
  {
    ConcreteConditions();
    hide HasTrue, Reports, E.FreshID, E.CompleteAdd;
  }

  lemma AddedConcretely(c: Cluster)
    requires c == ADDING.(jobs := map[2 := ADDED], backend := map["url" := {"id"}])
    ensures 2 in ADDING.jobs && E.CompleteAdd(ADDING, 2, [], MARKER + "id", "id") == c
  {
    var done := E.Conclude(ADD, [], JOB_COMPLETE);
    assert done.conditions == [Condition(JOB_COMPLETE, ConditionTrue)];
    assert done.(log := MARKER + "id", added := Some("id")) == ADDED;
    assert ADDING.jobs[2 := ADDED] == c.jobs;
    assert ADD.url == "url" && Stored(ADDING.backend, "url") + {"id"} == {"id"};
  }

  // ----- a second add job -----

  const GONE := ADDING.(keys := map[], gone := map[1 := UNGUARDED.(deleting := true)])
  const COLLECTED := GONE.(jobs := map[2 := ADD.(collected := true)])
  const AGAIN := COLLECTED.(jobs := map[2 := ADD.(collected := true), 3 := ADD], nextUid := 4)

  /**
    When such a key and its first add job disappear between the reads of a reconcile and its list call, a
    second add job is created for it.
   */
  lemma VanishedKeyGetsSecondJob()
    ensures Reachable(State(AGAIN, K.Idle, R.Idle))
    ensures AddJobOf(AGAIN.jobs, 2, 1) && AddJobOf(AGAIN.jobs, 3, 1)
  {
    AddingIsReachable();
    var repo := READY.repos["repo"];
    ReadyToList(repo);
    var s := State(ADDING, K.ListJobs(UNGUARDED, repo), R.Idle);
    var delete, collect := E.DeleteKey("key", false), E.CollectJob(2);
    Vanishes();
    ListedAgain(repo);
    hide Reachable, K.Call, E.Happen, AddKeyJob;
    NextIsReachable(s, Environment(delete));
    NextIsReachable(s.(cluster := GONE), Environment(collect));
    NextIsReachable(s.(cluster := COLLECTED), KeyCall(K.Success([])));
    NextIsReachable(State(COLLECTED, K.GetSecret(UNGUARDED, repo), R.Idle), KeyCall(K.Success([])));
    NextIsReachable(State(COLLECTED, K.CreateAddJob(UNGUARDED, repo), R.Idle), KeyCall(K.Success([])));
  }

  lemma Vanishes()
    ensures E.Happen(ADDING, Some("key"), None, E.DeleteKey("key", false)) == GONE
    ensures E.Happen(GONE, Some("key"), None, E.CollectJob(2)) == COLLECTED
  {
    assert ADDING.keys - {"key"} == map[];
    assert GONE.jobs[2 := ADD.(collected := true)] == COLLECTED.jobs;
  }

  lemma ReadyToList(repo: Repository)
    requires repo == READY.repos["repo"] && Reachable(State(ADDING, K.Idle, R.Idle))
    ensures Reachable(State(ADDING, K.ListJobs(UNGUARDED, repo), R.Idle))
  {
    hide Reachable;
    NextIsReachable(State(ADDING, K.Idle, R.Idle), StartKey("key"));
    assert K.Call(ADDING, K.GetKey("key"), K.Success([])) == (ADDING, K.GetRepo(UNGUARDED));
    NextIsReachable(State(ADDING, K.GetKey("key"), R.Idle), KeyCall(K.Success([])));
    assert K.Call(ADDING, K.GetRepo(UNGUARDED), K.Success([])) == (ADDING, K.ListJobs(UNGUARDED, repo));
    NextIsReachable(State(ADDING, K.GetRepo(UNGUARDED), R.Idle), KeyCall(K.Success([])));
  }

  lemma ListedAgain(repo: Repository)
    requires repo == READY.repos["repo"]
    ensures K.Call(COLLECTED, K.ListJobs(UNGUARDED, repo), K.Success([])) == (COLLECTED, K.GetSecret(UNGUARDED, repo))
    ensures K.Call(COLLECTED, K.GetSecret(UNGUARDED, repo), K.Success([])) == (COLLECTED, K.CreateAddJob(UNGUARDED, repo))
    ensures K.Call(COLLECTED, K.CreateAddJob(UNGUARDED, repo), K.Success([])) == (AGAIN, K.Idle)
  {
    ConcreteConditions();
    hide HasTrue, K.Call, AddKeyJob;
    ListNothing(COLLECTED, UNGUARDED, repo);
    assert UNGUARDED.SecretName() == "restic-key-repo-key";
    SecretIsThere(COLLECTED, UNGUARDED, repo);
    assert ADD == AddKeyJob(repo, UNGUARDED) && COLLECTED.jobs[3 := ADD] == AGAIN.jobs;
    AddJobIsCreated(COLLECTED, UNGUARDED, repo, ADD);
  }

  lemma ListNothing(c: Cluster, k: Key, repo: Repository)
    requires (forall j :: j in c.jobs ==> c.jobs[j].collected) && !k.deleting && !k.IsCreated() && !k.IsFailed() && repo.IsCreated()
    ensures K.Call(c, K.ListJobs(k, repo), K.Success([])) == (c, K.GetSecret(k, repo))
  {
    hide HasTrue;
    assert IsListing(c.jobs, k.name, []);
  }

  lemma SecretIsThere(c: Cluster, k: Key, repo: Repository)
    requires SecretOwned(c.secrets, k.SecretName(), k.uid)
    ensures K.Call(c, K.GetSecret(k, repo), K.Success([])) == (c, K.CreateAddJob(k, repo))
  {
  }

  lemma AddJobIsCreated(c: Cluster, k: Key, repo: Repository, job: Job)
    requires AddKeyJob(repo, k) == job
    ensures K.Call(c, K.CreateAddJob(k, repo), K.Success([])) == (CreateKeyJob(c, job), K.Idle)
    ensures CreateKeyJob(c, job) != c
  {
    assert CreateKeyJob(c, job).nextUid != c.nextUid;
  }
}
