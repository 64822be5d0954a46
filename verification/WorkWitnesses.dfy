/** The bounds on the controllers' work are attained: a vanished key can cost eight writes, a vanished repository five. */
module WorkWitnesses {
  import opened Options
  import opened Conditions
  import opened KeyLog
  import opened Resources
  import opened ApiServer
  import opened Operator
  import opened Invariant
  import opened Safety
  import opened Witnesses
  import E = Environment
  import K = KeyController
  import R = RepositoryController
  import KeyWork
  import RepositoryWork

  /** The state is reached by a run in which the key controller wrote this often on behalf of the key with UID 1. */
  ghost predicate Spent(s: State, writes: nat) {
    exists actions :: Run(INITIAL, actions) == s && KeyWork.Writes(INITIAL, actions, 1) == writes
  }

  lemma NextSpends(s: State, a: Action, writes: nat)
    requires Spent(s, writes)
    ensures Spent(Next(s, a), writes + One(KeyWork.Wrote(s, a, 1)))
  {
    hide KeyWork.Wrote, Next;
    var actions :| Run(INITIAL, actions) == s && KeyWork.Writes(INITIAL, actions, 1) == writes;
    var more := actions + [a];
    assert more[..|more| - 1] == actions;
    assert Run(INITIAL, more) == Next(s, a);
    assert KeyWork.Writes(INITIAL, more, 1) == writes + One(KeyWork.Wrote(s, a, 1));
  }

  lemma StartSpends(c: Cluster, writes: nat)
    requires Spent(State(c, K.Idle, R.Idle), writes)
    ensures Spent(State(c, K.GetKey("key"), R.Idle), writes)
  {
    hide Spent;
    NextSpends(State(c, K.Idle, R.Idle), StartKey("key"), writes);
  }

  lemma EventSpends(c: Cluster, pc: K.Pc, e: E.Event, writes: nat)
    requires Spent(State(c, pc, R.Idle), writes)
    ensures Spent(State(E.Happen(c, K.Busy(pc), None, e), pc, R.Idle), writes)
  {
    hide Spent, E.Happen;
    NextSpends(State(c, pc, R.Idle), Environment(e), writes);
  }

  lemma CallSpends(c: Cluster, pc: K.Pc, order: seq<nat>, d: Cluster, pc': K.Pc, writes: nat)
    requires Spent(State(c, pc, R.Idle), writes) && K.Call(c, pc, K.Success(order)) == (d, pc')
    requires !pc.Idle? && (pc.GetKey? || pc.key.uid == 1)
    ensures Spent(State(d, pc', R.Idle), writes + One(d != c))
  {
    hide Spent, K.Call;
    NextSpends(State(c, pc, R.Idle), KeyCall(K.Success(order)), writes);
    if pc.GetKey? { K.CallFrame(c, pc, K.Success(order)); GetKeyReads(c, pc.name, order); }
  }

  lemma GetKeyReads(c: Cluster, name: string, order: seq<nat>)
    ensures K.Call(c, K.GetKey(name), K.Success(order)).0 == c
  {
  }

  /** From the start of a reconcile to its listing, for a key that has its status. */
  lemma ReadsSpend(c: Cluster, k: Key, writes: nat)
    requires Spent(State(c, K.Idle, R.Idle), writes)
    requires "key" in c.keys && c.keys["key"] == k && k.conditions != [] && k.uid == 1 && k.spec == KEY.spec
    requires c.repos == READY.repos
    ensures Spent(State(c, K.ListJobs(k, REPO.(conditions := CREATED_FIRST)), R.Idle), writes)
  {
    hide Spent;
    var repo := REPO.(conditions := CREATED_FIRST);
    StartSpends(c, writes);
    assert K.Call(c, K.GetKey("key"), K.Success([])) == (c, K.GetRepo(k));
    CallSpends(c, K.GetKey("key"), [], c, K.GetRepo(k), writes);
    assert K.Call(c, K.GetRepo(k), K.Success([])) == (c, K.ListJobs(k, repo));
    CallSpends(c, K.GetRepo(k), [], c, K.ListJobs(k, repo), writes);
  }

  // ----- the life of a key -----

  const CREATED_REPO := REPO.(conditions := CREATED_FIRST)
  const KEY_REGISTERED := UNGUARDED.(controller := Some(ReferenceTo(CREATED_REPO)), repositoryLabel := Some("repo"),
          finalizer := true, carried := true)
  const KEY_CREATED := KEY_REGISTERED.(conditions := CREATED_FIRST, keyID := Some("id"))
  const KEY_DELETING := KEY_CREATED.(deleting := true, held := true)
  const KEY_RELEASED := KEY_DELETING.(finalizer := false)
  const KEY_GONE := KEY_RELEASED.(held := false)
  const REMOVE := Job(1, Some("key"), Some(DeleteKey), "repo", "url", ["key", "remove", "id"], ["operator-key-repo"], [],
          "", 0, None, false)
  const REMOVED := REMOVE.(conditions := [Condition(JOB_COMPLETE, ConditionTrue)])

  const WITH_FINALIZER := CRASHED.(keys := map["key" := KEY_REGISTERED])
  const WITH_SECRET := WITH_FINALIZER.(secrets := map["operator-key-repo" := Secret([0]), "restic-key-repo-key" := Secret([1])])
  const WITH_ADD_JOB := WITH_SECRET.(jobs := map[2 := ADD], nextUid := 3)
  const WITH_ADDED := WITH_ADD_JOB.(jobs := map[2 := ADDED], backend := map["url" := {"id"}])
  const WITH_ID := WITH_ADDED.(keys := map["key" := KEY_CREATED])
  const WITH_DELETION := WITH_ID.(keys := map["key" := KEY_DELETING])
  const WITH_DELETE_JOB := WITH_DELETION.(jobs := map[2 := ADDED, 3 := REMOVE], nextUid := 4)
  const WITH_REMOVED := WITH_DELETE_JOB.(jobs := map[2 := ADDED, 3 := REMOVED], backend := map["url" := {}])
  const WITHOUT_FINALIZER := WITH_REMOVED.(keys := map["key" := KEY_RELEASED])
  const WITHOUT_KEY := WITHOUT_FINALIZER.(keys := map[], gone := map[1 := KEY_GONE])
  const WITHOUT_ADD_JOB := WITHOUT_KEY.(jobs := map[2 := ADDED.(collected := true), 3 := REMOVED])
  const WITHOUT_JOBS := WITHOUT_ADD_JOB.(jobs := map[2 := ADDED.(collected := true), 3 := REMOVED.(collected := true)])
  const WITH_SECOND_REMOVAL := WITHOUT_JOBS.(jobs := map[2 := ADDED.(collected := true), 3 := REMOVED.(collected := true),
          4 := REMOVE], nextUid := 5)

  lemma AllWorkIsLeft()
    ensures KeyWork.LiveWork(KEYED.secrets, KEYED.jobs, KEY) == 7
  {
    ConcreteConditions();
    HasTrueMeans([], CREATED);
    hide HasTrue;
    assert !HasAddJob(KEYED.jobs, 1) && !HasDeleteJob(KEYED.jobs, 1);
    assert KEY.SecretName() == "restic-key-repo-key";
  }

  lemma NothingSpent()
    ensures Spent(State(KEYED, K.Idle, R.Idle), 0)
  {
    KeyedIsReachable();
    AllWorkIsLeft();
    var s := State(KEYED, K.Idle, R.Idle);
    var actions :| Run(INITIAL, actions) == s;
    ReachableInv(s);
    assert KeyIds(KEYED);
    Initially();
    hide Inv, KeyWork.LiveWork, KeyIds, KeyWork.Work;
    KeyWork.LiveKeyWork(s, "key");
    KeyWork.RunWork(INITIAL, actions, 1);
    InitialWork();
  }

  lemma InitialWork()
    ensures KeyWork.Work(INITIAL, 1) == 8
  {
  }

  lemma Registers()
    ensures Spent(State(WITH_FINALIZER, K.ListJobs(KEY_REGISTERED, CREATED_REPO), R.Idle), 2)
  {
    NothingSpent();
    hide Spent;
    StartSpends(KEYED, 0);
    assert K.Call(KEYED, K.GetKey("key"), K.Success([])) == (KEYED, K.GetRepo(KEY));
    CallSpends(KEYED, K.GetKey("key"), [], KEYED, K.GetRepo(KEY), 0);
    assert K.Call(KEYED, K.GetRepo(KEY), K.Success([])) == (KEYED, K.DefaultStatus(KEY, CREATED_REPO));
    CallSpends(KEYED, K.GetRepo(KEY), [], KEYED, K.DefaultStatus(KEY, CREATED_REPO), 0);
    assert UpdateKeyStatus(KEYED, KEY, UNGUARDED) == Some(CRASHED) by { assert KEYED.keys["key" := UNGUARDED] == CRASHED.keys; }
    assert K.Call(KEYED, K.DefaultStatus(KEY, CREATED_REPO), K.Success([])) == (CRASHED, K.SetMetadata(UNGUARDED, CREATED_REPO));
    CallSpends(KEYED, K.DefaultStatus(KEY, CREATED_REPO), [], CRASHED, K.SetMetadata(UNGUARDED, CREATED_REPO), 0);
    MetadataIsSet();
    CallSpends(CRASHED, K.SetMetadata(UNGUARDED, CREATED_REPO), [], WITH_FINALIZER, K.ListJobs(KEY_REGISTERED, CREATED_REPO), 1);
  }

  lemma MetadataIsSet()
    ensures K.Call(CRASHED, K.SetMetadata(UNGUARDED, CREATED_REPO), K.Success([])) ==
            (WITH_FINALIZER, K.ListJobs(KEY_REGISTERED, CREATED_REPO)) && CRASHED != WITH_FINALIZER
  {
    assert K.WithMetadata(UNGUARDED, CREATED_REPO) == KEY_REGISTERED;
    assert CRASHED.keys["key" := KEY_REGISTERED] == WITH_FINALIZER.keys;
    assert CRASHED.keys["key"] != WITH_FINALIZER.keys["key"];
  }

  lemma StartsToAdd()
    ensures Spent(State(WITH_ADD_JOB, K.Idle, R.Idle), 4)
  {
    Registers();
    hide Spent;
    NoJobsListed();
    CallSpends(WITH_FINALIZER, K.ListJobs(KEY_REGISTERED, CREATED_REPO), [], WITH_FINALIZER,
               K.GetSecret(KEY_REGISTERED, CREATED_REPO), 2);
    CallSpends(WITH_FINALIZER, K.GetSecret(KEY_REGISTERED, CREATED_REPO), [], WITH_FINALIZER,
               K.CreateSecret(KEY_REGISTERED, CREATED_REPO), 2);
    CallSpends(WITH_FINALIZER, K.CreateSecret(KEY_REGISTERED, CREATED_REPO), [], WITH_SECRET,
               K.CreateAddJob(KEY_REGISTERED, CREATED_REPO), 2);
    CallSpends(WITH_SECRET, K.CreateAddJob(KEY_REGISTERED, CREATED_REPO), [], WITH_ADD_JOB, K.Idle, 3);
  }

  lemma NoJobsListed()
    ensures K.Call(WITH_FINALIZER, K.ListJobs(KEY_REGISTERED, CREATED_REPO), K.Success([])) ==
            (WITH_FINALIZER, K.GetSecret(KEY_REGISTERED, CREATED_REPO))
    ensures K.Call(WITH_FINALIZER, K.GetSecret(KEY_REGISTERED, CREATED_REPO), K.Success([])) ==
            (WITH_FINALIZER, K.CreateSecret(KEY_REGISTERED, CREATED_REPO))
    ensures K.Call(WITH_FINALIZER, K.CreateSecret(KEY_REGISTERED, CREATED_REPO), K.Success([])) ==
            (WITH_SECRET, K.CreateAddJob(KEY_REGISTERED, CREATED_REPO)) && WITH_FINALIZER != WITH_SECRET
    ensures K.Call(WITH_SECRET, K.CreateAddJob(KEY_REGISTERED, CREATED_REPO), K.Success([])) ==
            (WITH_ADD_JOB, K.Idle) && WITH_SECRET != WITH_ADD_JOB
  {
    ConcreteConditions();
    hide HasTrue;
    assert AddKeyJob(CREATED_REPO, KEY_REGISTERED) == ADD;
    hide K.Call, AddKeyJob;
    assert KEY_REGISTERED.SecretName() == "restic-key-repo-key";
    ListNothing(WITH_FINALIZER, KEY_REGISTERED, CREATED_REPO);
    SecretIsMade(WITH_FINALIZER, KEY_REGISTERED, CREATED_REPO);
    assert WITH_FINALIZER.secrets["restic-key-repo-key" := Secret([1])] == WITH_SECRET.secrets;
    AddJobIsCreated(WITH_SECRET, KEY_REGISTERED, CREATED_REPO, ADD);
  }

  lemma SecretIsMade(c: Cluster, k: Key, repo: Repository)
    requires k.SecretName() !in c.secrets
    ensures K.Call(c, K.GetSecret(k, repo), K.Success([])) == (c, K.CreateSecret(k, repo))
    ensures K.Call(c, K.CreateSecret(k, repo), K.Success([])) ==
            (c.(secrets := c.secrets[k.SecretName() := Secret([k.uid])]), K.CreateAddJob(k, repo))
  {
  }

  lemma Adds()
    ensures Spent(State(WITH_ID, K.Idle, R.Idle), 5)
  {
    AddSpends();
    hide Spent, K.Call, AddKeyJob;
    ReadsSpend(WITH_ADDED, KEY_REGISTERED, 4);
    AddIsListed();
    LogIsRead();
    CallSpends(WITH_ADDED, K.ListJobs(KEY_REGISTERED, CREATED_REPO), [2], WITH_ADDED, K.ReadLog(KEY_REGISTERED, ADDED), 4);
    CallSpends(WITH_ADDED, K.ReadLog(KEY_REGISTERED, ADDED), [], WITH_ADDED, K.StoreStatus(KEY_REGISTERED, KEY_CREATED), 4);
    CallSpends(WITH_ADDED, K.StoreStatus(KEY_REGISTERED, KEY_CREATED), [], WITH_ID, K.Idle, 4);
  }

  lemma AddSpends()
    ensures Spent(State(WITH_ADDED, K.Idle, R.Idle), 4)
  {
    StartsToAdd();
    hide Spent, E.Happen, AddKeyJob;
    AddCompletes();
    EventSpends(WITH_ADD_JOB, K.Idle, E.FinishAddJob(2, [], "", "id", ""), 4);
  }

  lemma AddCompletes()
    ensures E.Happen(WITH_ADD_JOB, None, None, E.FinishAddJob(2, [], "", "id", "")) == WITH_ADDED
  {
    assert "" + MARKER + "id" + "" == MARKER + "id";
    assert IsWord("id") && !Contains("", MARKER);
    assert Reports(MARKER + "id", "", "id", "");
    hide Reports;
    AddJobReports(WITH_ADD_JOB, 2, ADD);
    AddedNow();
    hide E.CompleteAdd;
  }

  lemma AddedNow()
    ensures 2 in WITH_ADD_JOB.jobs && E.CompleteAdd(WITH_ADD_JOB, 2, [], MARKER + "id", "id") == WITH_ADDED
  {
    var done := E.Conclude(ADD, [], JOB_COMPLETE);
    assert done.conditions == [Condition(JOB_COMPLETE, ConditionTrue)];
    assert done.(log := MARKER + "id", added := Some("id")) == ADDED;
    assert WITH_ADD_JOB.jobs[2 := ADDED] == WITH_ADDED.jobs;
    assert ADD.url == "url" && Stored(WITH_ADD_JOB.backend, "url") + {"id"} == {"id"};
  }

  lemma AddIsListed()
    ensures K.Call(WITH_ADDED, K.ListJobs(KEY_REGISTERED, CREATED_REPO), K.Success([2])) ==
            (WITH_ADDED, K.ReadLog(KEY_REGISTERED, ADDED))
  {
    ConcreteConditions();
    assert ADDED.FinalCondition() == Some(JOB_COMPLETE) && ADDED.IsComplete();
    hide HasTrue, AnyWithStatus;
    ListAdded(WITH_ADDED, KEY_REGISTERED, CREATED_REPO, ADDED);
  }

  lemma ListAdded(c: Cluster, k: Key, repo: Repository, added: Job)
    requires c.jobs == map[2 := added] && k.name == "key" && !k.deleting && !k.IsCreated() && !k.IsFailed()
    requires added.key == Some("key") && !added.collected && added.IsAdd() && added.IsComplete() && added.FinalCondition().Some?
    ensures K.Call(c, K.ListJobs(k, repo), K.Success([2])) == (c, K.ReadLog(k, added))
  {
    hide HasTrue, AnyWithStatus;
    assert IsListing(c.jobs, "key", [2]);
    assert Fetch(c.jobs, [2]) == [added];
    hide IsListing, Fetch;
    ListOf(added);
  }

  lemma ListOf(job: Job)
    requires job.operation.Some?
    ensures job in [job] && K.FirstJob([job], job.operation.value) == Some(job)
  {
  }

  lemma LogIsRead()
    ensures K.Call(WITH_ADDED, K.ReadLog(KEY_REGISTERED, ADDED), K.Success([])) ==
            (WITH_ADDED, K.StoreStatus(KEY_REGISTERED, KEY_CREATED))
    ensures K.Call(WITH_ADDED, K.StoreStatus(KEY_REGISTERED, KEY_CREATED), K.Success([])) ==
            (WITH_ID, K.Idle) && WITH_ADDED != WITH_ID
  {
    ConcreteConditions();
    hide HasTrue;
    assert ADDED.FinalCondition() == Some(JOB_COMPLETE);
    hide AnyWithStatus, MarkCreated;
    assert K.WithCreated(KEY_REGISTERED, "id") == KEY_CREATED;
    IdIsRead();
    LogReports(WITH_ADDED, KEY_REGISTERED, ADDED, "id");
    hide ExtractKeyID, K.Call, K.WithCreated;
    assert WITH_ADDED.keys["key" := KEY_CREATED] == WITH_ID.keys && WITH_ADDED.keys["key"] != WITH_ID.keys["key"];
    StatusIsStored(WITH_ADDED, KEY_REGISTERED, KEY_CREATED);
  }

  lemma LogReports(c: Cluster, k: Key, job: Job, id: string)
    requires job.FinalCondition() == Some(JOB_COMPLETE) && ExtractKeyID(job.log) == Some(id)
    ensures K.Call(c, K.ReadLog(k, job), K.Success([])) == (c, K.StoreStatus(k, K.WithCreated(k, id)))
  {
    hide ExtractKeyID, K.WithCreated, AnyWithStatus;
  }

  lemma StatusIsStored(c: Cluster, k: Key, l: Key)
    requires KeyUnchanged(c, k) && l == k.(conditions := l.conditions, keyID := l.keyID)
    ensures K.Call(c, K.StoreStatus(k, l), K.Success([])) == (c.(keys := c.keys[k.name := l]), K.Idle)
  {
  }

  lemma IdIsRead()
    ensures ExtractKeyID(MARKER + "id") == Some("id")
  {
    assert "" + MARKER + "id" + "" == MARKER + "id";
    assert IsWord("id") && !Contains("", MARKER);
    ExtractReported(MARKER + "id", "", "id", "");
  }

  lemma RemovalBegins()
    ensures Spent(State(WITH_DELETE_JOB, K.Idle, R.Idle), 6)
  {
    Adds();
    hide Spent, K.Call, E.Happen, AddKeyJob;
    DeletionIsAsked();
    EventSpends(WITH_ID, K.Idle, E.DeleteKey("key", true), 5);
    ReadsSpend(WITH_DELETION, KEY_DELETING, 5);
    RemovalStarts();
    CallSpends(WITH_DELETION, K.ListJobs(KEY_DELETING, CREATED_REPO), [2], WITH_DELETION,
               K.CreateDeleteJob(KEY_DELETING, CREATED_REPO), 5);
    CallSpends(WITH_DELETION, K.CreateDeleteJob(KEY_DELETING, CREATED_REPO), [], WITH_DELETE_JOB, K.Idle, 5);
  }

  lemma DeletionIsAsked()
    ensures E.Happen(WITH_ID, None, None, E.DeleteKey("key", true)) == WITH_DELETION
  {
    assert WITH_ID.keys["key" := KEY_DELETING] == WITH_DELETION.keys;
  }

  lemma RemovalStarts()
    ensures K.Call(WITH_DELETION, K.ListJobs(KEY_DELETING, CREATED_REPO), K.Success([2])) ==
            (WITH_DELETION, K.CreateDeleteJob(KEY_DELETING, CREATED_REPO))
    ensures K.Call(WITH_DELETION, K.CreateDeleteJob(KEY_DELETING, CREATED_REPO), K.Success([])) ==
            (WITH_DELETE_JOB, K.Idle) && WITH_DELETION != WITH_DELETE_JOB
  {
    RemoveAgain();
    hide K.Call, DeleteKeyJob, HasTrue;
    ListToRemove(WITH_DELETION, KEY_DELETING, CREATED_REPO, ADDED);
    JobIsCreated(WITH_DELETION, KEY_DELETING, CREATED_REPO, REMOVE);
    assert WITH_DELETION.jobs[3 := REMOVE] == WITH_DELETE_JOB.jobs;
  }

  lemma ListToRemove(c: Cluster, k: Key, repo: Repository, added: Job)
    requires c.jobs == map[2 := added] && k.name == "key" && k.deleting && !repo.deleting
    requires added.key == Some("key") && !added.collected && added.IsAdd() && DeleteKeyJob(repo, k).Some?
    ensures K.Call(c, K.ListJobs(k, repo), K.Success([2])) == (c, K.CreateDeleteJob(k, repo))
  {
    hide HasTrue, AnyWithStatus, DeleteKeyJob;
    assert IsListing(c.jobs, "key", [2]);
    assert Fetch(c.jobs, [2]) == [added];
    hide IsListing, Fetch;
    assert K.FirstJob([added], DeleteKey).None?;
  }

  lemma DropsFinalizer()
    ensures Spent(State(WITHOUT_FINALIZER, K.Idle, R.Idle), 7)
  {
    RemovalBegins();
    hide Spent, K.Call, E.Happen, AddKeyJob;
    RemovalCompletes();
    EventSpends(WITH_DELETE_JOB, K.Idle, E.FinishDeleteJob(3, []), 6);
    ReadsSpend(WITH_REMOVED, KEY_DELETING, 6);
    RemovalIsListed();
    FinalizerIsDropped();
    CallSpends(WITH_REMOVED, K.ListJobs(KEY_DELETING, CREATED_REPO), [2, 3], WITH_REMOVED,
               K.DropFinalizer(KEY_DELETING, K.KeyRemoved), 6);
    CallSpends(WITH_REMOVED, K.DropFinalizer(KEY_DELETING, K.KeyRemoved), [], WITHOUT_FINALIZER, K.Idle, 6);
  }

  lemma RemovalCompletes()
    ensures E.Happen(WITH_DELETE_JOB, None, None, E.FinishDeleteJob(3, [])) == WITH_REMOVED
  {
    hide E.Happen, AddKeyJob;
    DeleteJobCompletes(WITH_DELETE_JOB, 3, REMOVE);
    assert WITH_DELETE_JOB.jobs[3 := REMOVED] == WITH_REMOVED.jobs;
    assert {"id"} - {"id"} == {} && WITH_DELETE_JOB.backend["url" := {}] == WITH_REMOVED.backend;
  }

  lemma DeleteJobCompletes(c: Cluster, j: nat, job: Job)
    requires j in c.jobs && c.jobs[j] == job && job.IsDelete() && job.conditions == []
    ensures E.Happen(c, None, None, E.FinishDeleteJob(j, [])) ==
            c.(jobs := c.jobs[j := job.(conditions := [Condition(JOB_COMPLETE, ConditionTrue)])],
               backend := c.backend[job.url := Stored(c.backend, job.url) - {job.Target()}])
  {
    ConcreteConditions();
    hide HasTrue;
    assert E.Conclude(job, [], JOB_COMPLETE).conditions == [Condition(JOB_COMPLETE, ConditionTrue)];
  }

  lemma RemovalIsListed()
    ensures K.Call(WITH_REMOVED, K.ListJobs(KEY_DELETING, CREATED_REPO), K.Success([2, 3])) ==
            (WITH_REMOVED, K.DropFinalizer(KEY_DELETING, K.KeyRemoved))
  {
    ConcreteConditions();
    ListTwo(WITH_REMOVED, KEY_DELETING, CREATED_REPO, ADDED, REMOVED);
  }

  lemma ListTwo(c: Cluster, k: Key, repo: Repository, added: Job, removed: Job)
    requires c.jobs == map[2 := added, 3 := removed] && k.name == "key" && k.deleting && !repo.deleting
    requires added.key == removed.key == Some("key") && !added.collected && !removed.collected
    requires added.IsAdd() && removed.IsDelete() && removed.FinalCondition() == Some(JOB_COMPLETE)
    ensures K.Call(c, K.ListJobs(k, repo), K.Success([2, 3])) == (c, K.DropFinalizer(k, K.KeyRemoved))
  {
    hide HasTrue, AnyWithStatus;
    assert IsListing(c.jobs, "key", [2, 3]);
    assert Fetch(c.jobs, [2, 3]) == [added, removed];
    hide IsListing, Fetch;
    assert [added, removed][1..] == [removed];
    ListOf(removed);
    assert K.FirstJob([added, removed], DeleteKey) == Some(removed);
  }

  lemma FinalizerIsDropped()
    ensures K.Call(WITH_REMOVED, K.DropFinalizer(KEY_DELETING, K.KeyRemoved), K.Success([])) ==
            (WITHOUT_FINALIZER, K.Idle) && WITH_REMOVED != WITHOUT_FINALIZER
  {
    assert WITH_REMOVED.keys["key" := KEY_RELEASED] == WITHOUT_FINALIZER.keys
            && WITH_REMOVED.keys["key"] != WITHOUT_FINALIZER.keys["key"];
  }

  /** The key disappears between the reads of the next reconcile and its list call, and its jobs with it. */
  lemma RemovesAgain()
    ensures Spent(State(WITH_SECOND_REMOVAL, K.Idle, R.Idle), 8)
  {
    DropsFinalizer();
    hide Spent, K.Call, E.Happen, AddKeyJob;
    ReadsSpend(WITHOUT_FINALIZER, KEY_RELEASED, 7);
    var pc := K.ListJobs(KEY_RELEASED, CREATED_REPO);
    KeyVanishes();
    EventSpends(WITHOUT_FINALIZER, pc, E.ReleaseKey("key"), 7);
    JobsVanish();
    EventSpends(WITHOUT_KEY, pc, E.CollectJob(2), 7);
    EventSpends(WITHOUT_ADD_JOB, pc, E.CollectJob(3), 7);
    NothingIsListed();
    CallSpends(WITHOUT_JOBS, pc, [], WITHOUT_JOBS, K.CreateDeleteJob(KEY_RELEASED, CREATED_REPO), 7);
    CallSpends(WITHOUT_JOBS, K.CreateDeleteJob(KEY_RELEASED, CREATED_REPO), [], WITH_SECOND_REMOVAL, K.Idle, 7);
  }

  lemma KeyVanishes()
    ensures E.Happen(WITHOUT_FINALIZER, Some("key"), None, E.ReleaseKey("key")) == WITHOUT_KEY
  {
    assert WITHOUT_FINALIZER.keys - {"key"} == map[];
  }

  lemma JobsVanish()
    ensures E.Happen(WITHOUT_KEY, Some("key"), None, E.CollectJob(2)) == WITHOUT_ADD_JOB
    ensures E.Happen(WITHOUT_ADD_JOB, Some("key"), None, E.CollectJob(3)) == WITHOUT_JOBS
  {
    hide E.Happen, AddKeyJob;
    JobVanishes(WITHOUT_KEY, 2, ADDED);
    assert WITHOUT_KEY.jobs[2 := ADDED.(collected := true)] == WITHOUT_ADD_JOB.jobs;
    JobVanishes(WITHOUT_ADD_JOB, 3, REMOVED);
    assert WITHOUT_ADD_JOB.jobs[3 := REMOVED.(collected := true)] == WITHOUT_JOBS.jobs;
  }

  lemma JobVanishes(c: Cluster, j: nat, job: Job)
    requires c.keys == map[] && j in c.jobs && c.jobs[j] == job
    ensures E.Happen(c, Some("key"), None, E.CollectJob(j)) == c.(jobs := c.jobs[j := job.(collected := true)])
  {
  }

  lemma NothingIsListed()
    ensures K.Call(WITHOUT_JOBS, K.ListJobs(KEY_RELEASED, CREATED_REPO), K.Success([])) ==
            (WITHOUT_JOBS, K.CreateDeleteJob(KEY_RELEASED, CREATED_REPO))
    ensures K.Call(WITHOUT_JOBS, K.CreateDeleteJob(KEY_RELEASED, CREATED_REPO), K.Success([])) ==
            (WITH_SECOND_REMOVAL, K.Idle) && WITHOUT_JOBS != WITH_SECOND_REMOVAL
  {
    RemoveAgain();
    ListGone(WITHOUT_JOBS, KEY_RELEASED, CREATED_REPO);
    JobIsCreated(WITHOUT_JOBS, KEY_RELEASED, CREATED_REPO, REMOVE);
    hide K.Call;
    assert WITHOUT_JOBS.jobs[4 := REMOVE] == WITH_SECOND_REMOVAL.jobs;
  }

  lemma JobIsCreated(c: Cluster, k: Key, repo: Repository, job: Job)
    requires DeleteKeyJob(repo, k) == Some(job)
    ensures K.Call(c, K.CreateDeleteJob(k, repo), K.Success([])) == (CreateKeyJob(c, job), K.Idle)
    ensures CreateKeyJob(c, job) != c
  {
    assert CreateKeyJob(c, job).nextUid != c.nextUid;
  }

  lemma RemoveAgain()
    ensures DeleteKeyJob(CREATED_REPO, KEY_RELEASED) == Some(REMOVE) && DeleteKeyJob(CREATED_REPO, KEY_DELETING) == Some(REMOVE)
  {
    ConcreteConditions();
    hide HasTrue;
    assert CREATED_REPO.OperatorSecretName() == "operator-key-repo";
  }

  lemma ListGone(c: Cluster, k: Key, repo: Repository)
    requires (forall j :: j in c.jobs ==> c.jobs[j].collected) && k.name == "key" && k.deleting && !repo.deleting
    requires DeleteKeyJob(repo, k).Some?
    ensures K.Call(c, K.ListJobs(k, repo), K.Success([])) == (c, K.CreateDeleteJob(k, repo))
  {
    hide DeleteKeyJob;
    assert IsListing(c.jobs, "key", []);
  }

  /** Seven is not a bound for a key that has vanished: eight writes are possible, so eight is the best one. */
  lemma EightWritesHappen()
    ensures exists actions :: KeyWork.Writes(INITIAL, actions, 1) == 8
  {
    RemovesAgain();
  }

  // ----- the life of a repository -----

  /** The same for the repository controller and the repository with UID 0. */
  ghost predicate RepositorySpent(s: State, writes: nat) {
    exists actions :: Run(INITIAL, actions) == s && RepositoryWork.Writes(INITIAL, actions, 0) == writes
  }

  lemma NextSpendsRepository(s: State, a: Action, writes: nat)
    requires RepositorySpent(s, writes)
    ensures RepositorySpent(Next(s, a), writes + One(RepositoryWork.Wrote(s, a, 0)))
  {
    hide RepositoryWork.Wrote, Next;
    var actions :| Run(INITIAL, actions) == s && RepositoryWork.Writes(INITIAL, actions, 0) == writes;
    var more := actions + [a];
    assert more[..|more| - 1] == actions;
    assert Run(INITIAL, more) == Next(s, a);
    assert RepositoryWork.Writes(INITIAL, more, 0) == writes + One(RepositoryWork.Wrote(s, a, 0));
  }

  lemma RepositoryEventSpends(c: Cluster, pc: R.Pc, e: E.Event, writes: nat)
    requires RepositorySpent(State(c, K.Idle, pc), writes)
    ensures RepositorySpent(State(E.Happen(c, None, R.Busy(pc), e), K.Idle, pc), writes)
  {
    hide RepositorySpent, E.Happen;
    NextSpendsRepository(State(c, K.Idle, pc), Environment(e), writes);
  }

  lemma RepositoryCallSpends(c: Cluster, pc: R.Pc, d: Cluster, pc': R.Pc, writes: nat)
    requires RepositorySpent(State(c, K.Idle, pc), writes) && R.Call(c, pc, true) == (d, pc')
    requires RepositoryWork.HoldsRepository(pc) && pc.repo.uid == 0
    ensures RepositorySpent(State(d, K.Idle, pc'), writes + One(d != c))
  {
    hide RepositorySpent, R.Call;
    NextSpendsRepository(State(c, K.Idle, pc), RepositoryCall(true), writes);
  }

  /** A reconcile begins by reading the repository. */
  lemma RepositoryReadSpends(c: Cluster, pc: R.Pc, writes: nat)
    requires RepositorySpent(State(c, K.Idle, R.Idle), writes) && R.Call(c, R.GetRepo("repo"), true) == (c, pc)
    ensures RepositorySpent(State(c, K.Idle, pc), writes)
  {
    hide RepositorySpent, R.Call;
    NextSpendsRepository(State(c, K.Idle, R.Idle), StartRepository("repo"), writes);
    NextSpendsRepository(State(c, K.Idle, R.GetRepo("repo")), RepositoryCall(true), writes);
  }

  const WAITING := REPO.(conditions := DEFAULT_PHASE)
  const REPO_WAITING := NEW.(repos := map["repo" := WAITING])
  const REPO_GONE := STARTED.(repos := map[])
  const INIT_JOB_GONE := REPO_GONE.(initJobs := map[])
  const OPERATOR_SECRET_GONE := INIT_JOB_GONE.(secrets := map[])

  lemma RepositoryAppears()
    ensures RepositorySpent(State(NEW, K.Idle, R.Idle), 0)
  {
    assert Run(INITIAL, []) == INITIAL && RepositoryWork.Writes(INITIAL, [], 0) == 0;
    hide RepositorySpent;
    assert E.Happen(EMPTY, None, None, E.CreateRepository("repo", "url", false)) == NEW;
    RepositoryEventSpends(EMPTY, R.Idle, E.CreateRepository("repo", "url", false), 0);
  }

  lemma RepositoryWaits()
    ensures RepositorySpent(State(REPO_WAITING, K.Idle, R.GetJob(WAITING)), 1)
  {
    RepositoryAppears();
    ConcreteConditions();
    hide RepositorySpent, HasTrue;
    assert R.Call(NEW, R.GetRepo("repo"), true) == (NEW, R.DefaultStatus(REPO));
    RepositoryReadSpends(NEW, R.DefaultStatus(REPO), 0);
    assert NEW.repos["repo" := WAITING] == REPO_WAITING.repos && NEW.repos["repo"] != REPO_WAITING.repos["repo"];
    assert R.Call(NEW, R.DefaultStatus(REPO), true) == (REPO_WAITING, R.GetJob(WAITING));
    RepositoryCallSpends(NEW, R.DefaultStatus(REPO), REPO_WAITING, R.GetJob(WAITING), 0);
  }

  /** From finding no init job to creating one, in a cluster without the secret. */
  lemma StartSpendsTwo(c: Cluster, writes: nat)
    requires RepositorySpent(State(c, K.Idle, R.GetJob(WAITING)), writes) && c.initJobs == map[] && c.secrets == map[]
    ensures RepositorySpent(State(c.(secrets := map["operator-key-repo" := Secret([0])], initJobs := map["repo" := INIT]),
            K.Idle, R.Idle), writes + 2)
  {
    hide RepositorySpent;
    var d := c.(secrets := map["operator-key-repo" := Secret([0])]);
    var e := d.(initJobs := map["repo" := INIT]);
    assert WAITING.OperatorSecretName() == "operator-key-repo";
    assert RepositoryInitJob(WAITING) == INIT;
    RepositoryCallSpends(c, R.GetJob(WAITING), c, R.GetSecret(WAITING), writes);
    RepositoryCallSpends(c, R.GetSecret(WAITING), c, R.CreateSecret(WAITING), writes);
    assert "operator-key-repo" in d.secrets && "repo" in e.initJobs;
    assert R.Call(c, R.CreateSecret(WAITING), true) == (d, R.CreateJob(WAITING));
    RepositoryCallSpends(c, R.CreateSecret(WAITING), d, R.CreateJob(WAITING), writes);
    assert R.Call(d, R.CreateJob(WAITING), true) == (e, R.Idle);
    RepositoryCallSpends(d, R.CreateJob(WAITING), e, R.Idle, writes + 1);
  }

  lemma RepositoryVanishes()
    ensures E.Happen(STARTED, None, Some("repo"), E.DeleteRepository("repo", false)) == REPO_GONE
  {
    hide HasTrue;
    assert STARTED.repos - {"repo"} == map[];
  }

  lemma RestVanishes()
    ensures E.Happen(REPO_GONE, None, Some("repo"), E.CollectInitJob("repo")) == INIT_JOB_GONE
    ensures E.Happen(INIT_JOB_GONE, None, Some("repo"), E.DeleteSecret("operator-key-repo")) == OPERATOR_SECRET_GONE
  {
    hide HasTrue;
    assert REPO_GONE.initJobs - {"repo"} == map[] && INIT_JOB_GONE.secrets - {"operator-key-repo"} == map[];
  }

  /** Four is not a bound for a repository that has vanished: five writes are possible. */
  lemma FiveWritesHappen()
    ensures exists actions :: RepositoryWork.Writes(INITIAL, actions, 0) == 5
  {
    RepositoryWaits();
    assert REPO_WAITING.(secrets := map["operator-key-repo" := Secret([0])], initJobs := map["repo" := INIT]) == STARTED;
    StartSpendsTwo(REPO_WAITING, 1);
    ReadAgain();
    RepositoryVanishes();
    RestVanishes();
    var pc := R.GetJob(WAITING);
    hide E.Happen, R.Call;
    assert RepositorySpent(State(STARTED, K.Idle, pc), 3) by { RepositoryReadSpends(STARTED, pc, 3); }
    RepositoryEventSpends(STARTED, pc, E.DeleteRepository("repo", false), 3);
    RepositoryEventSpends(REPO_GONE, pc, E.CollectInitJob("repo"), 3);
    RepositoryEventSpends(INIT_JOB_GONE, pc, E.DeleteSecret("operator-key-repo"), 3);
    StartSpendsTwo(OPERATOR_SECRET_GONE, 3);
  }

  lemma ReadAgain()
    ensures R.Call(STARTED, R.GetRepo("repo"), true) == (STARTED, R.GetJob(WAITING))
  {
    ConcreteConditions();
    hide HasTrue;
  }
}
