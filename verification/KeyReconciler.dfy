/**
  The key controller as it is written: an object that is edited in place, a client whose calls may fail and
  between whose calls others act. Its reconcile is proved to be a run of the machine in KeyController.
 */
module KeyReconciler {
  import opened Options
  import opened Conditions
  import opened KeyLog
  import opened Resources
  import opened Results
  import opened ApiServer
  import opened Operator
  import K = KeyController
  import R = RepositoryController
  import E = Environment

  // ----- the key in memory -----

  /** `stored` is the object as it was last exchanged with the API server, and stands for its resource version. */
  class KeyObject {
    var stored: Key
    var controller: Option<Owner>
    var repositoryLabel: Option<string>
    var finalizer: bool
    var carried: bool
    var conditions: seq<Condition>
    var keyID: Option<string>

    constructor (read: Key)
      ensures stored == read && Value() == read
    {
      stored, controller, repositoryLabel := read, read.controller, read.repositoryLabel;
      finalizer, carried := read.finalizer, read.carried;
      conditions, keyID := read.conditions, read.keyID;
    }

    function Value(): Key
      reads this
    {
      stored.(controller := controller, repositoryLabel := repositoryLabel, finalizer := finalizer, carried := carried,
              conditions := conditions, keyID := keyID)
    }

    method SetDefaultConditions() returns (changed: bool)
      modifies this`conditions
      ensures changed <==> old(conditions) == []
      ensures Value() == K.WithDefaults(old(Value()))
    {
      if conditions != [] { return false; }
      conditions := DEFAULT_PHASE;
      return true;
    }

    method SetFailedCondition()
      modifies this`conditions
      ensures Value() == K.WithFailed(old(Value()))
    {
      var updated := UpdateCondition(conditions, FAILED, Condition(FAILED, ConditionTrue));
      conditions := updated.0;
      updated := UpdateCondition(conditions, CREATED, Condition(CREATED, ConditionFalse));
      conditions := updated.0;
    }

    method SetCreatedCondition(id: string)
      modifies this`conditions, this`keyID
      ensures Value() == K.WithCreated(old(Value()), id)
    {
      var updated := UpdateCondition(conditions, CREATED, Condition(CREATED, ConditionTrue));
      conditions := updated.0;
      updated := UpdateCondition(conditions, FAILED, Condition(FAILED, ConditionFalse));
      conditions := updated.0;
      keyID := Some(id);
    }

    /** Fails if another object is the controller. */
    method SetControllerReference(repo: Repository) returns (ok: bool)
      modifies this`controller
      ensures ok <==> !K.OwnedByAnother(old(Value()), repo)
      ensures controller == if ok then Some(ReferenceTo(repo)) else old(controller)
    {
      if controller.Some? && !RefersTo(controller.value, repo) { return false; }
      controller := Some(ReferenceTo(repo));
      return true;
    }

    method SetLabel()
      modifies this`repositoryLabel
      ensures repositoryLabel == Some(stored.spec.repository)
    {
      repositoryLabel := Some(stored.spec.repository);
    }

    method AddFinalizer()
      modifies this`finalizer, this`carried
      ensures finalizer && carried
    {
      finalizer, carried := true, true;
    }

    method RemoveFinalizer()
      modifies this`finalizer
      ensures !finalizer
    {
      finalizer := false;
    }
  }

  // ----- the cluster as a reconcile finds it -----

  /** What others do before the next call, and how that call ends. */
  datatype Slot = Slot(before: seq<Action>, outcome: K.Outcome)

  datatype World = World(cluster: Cluster, peer: R.Pc, slots: seq<Slot>)

  /** Everything but the key controller. */
  predicate ByOthers(a: Action) {
    !a.StartKey? && !a.KeyCall? && !a.KeyCrash?
  }

  function Disturb(c: Cluster, peer: R.Pc, busy: string, actions: seq<Action>): (Cluster, R.Pc)
    decreases |actions|
  {
    if actions == [] then (c, peer)
    else
      var (d, p) := Disturb(c, peer, busy, actions[..|actions| - 1]);
      var a := actions[|actions| - 1];
      if !ByOthers(a) then (d, p)
      else
        var s := Next(State(d, K.GetKey(busy), p), a);
        (s.cluster, s.repo)
  }

  /** A reconcile dies when its slots are used up. */
  function Upcoming(slots: seq<Slot>): Slot {
    if slots == [] then Slot([], K.Failure) else slots[0]
  }

  function Later(slots: seq<Slot>): seq<Slot> {
    if slots == [] then [] else slots[1..]
  }

  /** The world once the others have acted and the next call is due. */
  function Turn(w: World, busy: string): World {
    var (c, p) := Disturb(w.cluster, w.peer, busy, Upcoming(w.slots).before);
    World(c, p, Later(w.slots))
  }

  /**
    The machine of KeyController, driven from a program counter until it is idle, and how the reconcile ends; `ending` says
    so for a machine that is idle already.
   */
  function Drive(w: World, pc: K.Pc, ending: Result): (World, Result)
    decreases K.Rank(pc)
  {
    if pc.Idle? then (w, ending)
    else
      var t := Turn(w, K.Busy(pc).value);
      var outcome := Upcoming(w.slots).outcome;
      K.CallDescends(t.cluster, pc, outcome);
      var (d, pc') := K.Call(t.cluster, pc, outcome);
      Drive(t.(cluster := d), pc', K.Ending(t.cluster, pc, outcome))
  }

  // ----- the client -----

  class Client {
    var cluster: Cluster
    var peer: R.Pc
    var slots: seq<Slot>
    /** The name of the key being reconciled. */
    var busy: string

    function Now(): World
      reads this
    {
      World(cluster, peer, slots)
    }

    /** The others act; then the call is made and may fail. */
    method Await() returns (outcome: K.Outcome)
      modifies this`cluster, this`peer, this`slots
      ensures Now() == Turn(old(Now()), busy) && outcome == Upcoming(old(slots)).outcome
    {
      var turn := Turn(Now(), busy);
      outcome := Upcoming(slots).outcome;
      cluster, peer, slots := turn.cluster, turn.peer, turn.slots;
    }

    /** An error, or an optional key; the key read is from then on the one being reconciled. */
    method GetKey(name: string) returns (ok: bool, key: KeyObject?)
      modifies this
      ensures Now() == Turn(old(Now()), name) && ok == Upcoming(old(slots)).outcome.Success?
      ensures key != null <==> ok && name in cluster.keys
      ensures key != null ==> fresh(key) && key.stored == key.Value() == cluster.keys[name] && busy == key.stored.name
    {
      busy := name;
      var outcome := Await();
      if outcome.Failure? || name !in cluster.keys { return outcome.Success?, null; }
      ok := true;
      key := new KeyObject(cluster.keys[name]);
      busy := key.stored.name;
    }

    /** An error, or an optional object. */
    method GetRepository(name: string) returns (ok: bool, repo: Option<Repository>)
      modifies this`cluster, this`peer, this`slots
      ensures Now() == Turn(old(Now()), busy) && ok == Upcoming(old(slots)).outcome.Success?
      ensures ok ==> repo == if name in cluster.repos then Some(cluster.repos[name]) else None
    {
      var outcome := Await();
      return outcome.Success?, if name in cluster.repos then Some(cluster.repos[name]) else None;
    }

    method GetSecret(name: string) returns (ok: bool, secret: Option<Secret>)
      modifies this`cluster, this`peer, this`slots
      ensures Now() == Turn(old(Now()), busy) && ok == Upcoming(old(slots)).outcome.Success?
      ensures ok ==> secret == if name in cluster.secrets then Some(cluster.secrets[name]) else None
    {
      var outcome := Await();
      return outcome.Success?, if name in cluster.secrets then Some(cluster.secrets[name]) else None;
    }

    /** Fails if the order in the slot is not one of the jobs that carry this label. */
    method ListJobs(name: string) returns (ok: bool, jobs: seq<Job>)
      modifies this`cluster, this`peer, this`slots
      ensures Now() == Turn(old(Now()), busy)
      ensures var outcome := Upcoming(old(slots)).outcome;
              ok ==> outcome.Success? && IsListing(cluster.jobs, name, outcome.order) && jobs == Fetch(cluster.jobs, outcome.order)
      ensures var outcome := Upcoming(old(slots)).outcome;
              !ok ==> outcome.Failure? || !IsListing(cluster.jobs, name, outcome.order)
    {
      var outcome := Await();
      if outcome.Failure? || !IsListing(cluster.jobs, name, outcome.order) { return false, []; }
      return true, Fetch(cluster.jobs, outcome.order);
    }

    /** Writes everything but the status. */
    method Update(key: KeyObject) returns (ok: bool)
      modifies this`cluster, this`peer, this`slots, key`stored
      ensures var t, sent, outcome := Turn(old(Now()), busy), old(key.Value()), Upcoming(old(slots)).outcome;
              && ok == (outcome.Success? && UpdateKey(t.cluster, old(key.stored), sent).Some?)
              && Now() == (if ok then t.(cluster := UpdateKey(t.cluster, old(key.stored), sent).value) else t)
              && key.stored == if ok then sent else old(key.stored)
    {
      var outcome := Await();
      if outcome.Failure? { return false; }
      var updated := UpdateKey(cluster, key.stored, key.Value());
      if updated.None? { return false; }
      cluster := updated.value;
      key.stored := key.Value();
      return true;
    }

    /** Writes only the status. */
    method UpdateStatus(key: KeyObject) returns (ok: bool)
      modifies this`cluster, this`peer, this`slots, key`stored
      ensures var t, sent, outcome := Turn(old(Now()), busy), old(key.Value()), Upcoming(old(slots)).outcome;
              && ok == (outcome.Success? && UpdateKeyStatus(t.cluster, old(key.stored), sent).Some?)
              && Now() == (if ok then t.(cluster := UpdateKeyStatus(t.cluster, old(key.stored), sent).value) else t)
              && key.stored == if ok then sent else old(key.stored)
    {
      var outcome := Await();
      if outcome.Failure? { return false; }
      var updated := UpdateKeyStatus(cluster, key.stored, key.Value());
      if updated.None? { return false; }
      cluster := updated.value;
      key.stored := key.Value();
      return true;
    }

    method CreateSecret(name: string, secret: Secret) returns (ok: bool)
      modifies this`cluster, this`peer, this`slots
      ensures var t, outcome := Turn(old(Now()), busy), Upcoming(old(slots)).outcome;
              && ok == (outcome.Success? && ApiServer.CreateSecret(t.cluster, name, secret).Some?)
              && Now() == if ok then t.(cluster := ApiServer.CreateSecret(t.cluster, name, secret).value) else t
    {
      var outcome := Await();
      if outcome.Failure? { return false; }
      var created := ApiServer.CreateSecret(cluster, name, secret);
      if created.None? { return false; }
      cluster := created.value;
      return true;
    }

    method CreateJob(job: Job) returns (ok: bool)
      modifies this`cluster, this`peer, this`slots
      ensures var t := Turn(old(Now()), busy);
              && ok == Upcoming(old(slots)).outcome.Success?
              && Now() == if ok then t.(cluster := CreateKeyJob(t.cluster, job)) else t
    {
      var outcome := Await();
      if outcome.Failure? { return false; }
      cluster := CreateKeyJob(cluster, job);
      return true;
    }

    /** The pods of a job can be asked for their log, which a finished job keeps. */
    method GetLog(job: Job) returns (ok: bool, log: string)
      modifies this`cluster, this`peer, this`slots
      ensures Now() == Turn(old(Now()), busy) && ok == Upcoming(old(slots)).outcome.Success? && log == job.log
    {
      var outcome := Await();
      return outcome.Success?, job.log;
    }
  }

  // ----- the controller -----

  /** One call of the machine. */
  lemma Unroll(w: World, pc: K.Pc, ending: Result)
    requires !pc.Idle?
    ensures var t, outcome := Turn(w, K.Busy(pc).value), Upcoming(w.slots).outcome;
            var next := K.Call(t.cluster, pc, outcome);
            && Drive(w, pc, ending) == Drive(t.(cluster := next.0), next.1, K.Ending(t.cluster, pc, outcome))
            && (next.1.Idle? ==> Drive(w, pc, ending) == (t.(cluster := next.0), K.Ending(t.cluster, pc, outcome)))
  {
    hide K.Call, K.Ending, Turn;
  }

  lemma Stops(w: World, ending: Result)
    ensures Drive(w, K.Idle, ending) == (w, ending)
  {
  }

  class Reconciler {
    const client: Client

    constructor (client: Client)
      ensures this.client == client
    {
      this.client := client;
    }

    method CheckCreateJobStatus(key: KeyObject, job: Job) returns (result: Result)
      requires client.busy == key.stored.name && key.Value() == key.stored
      modifies client`cluster, client`peer, client`slots, key
      ensures (client.Now(), result) ==
              Drive(old(client.Now()), if job.FinalCondition().Some? then K.ReadLog(old(key.Value()), job) else K.Idle, Done)
    {
      hide K.Call, Turn, Drive, ExtractKeyID, MarkCreated, MarkFailed;
      var condition := job.FinalCondition();
      FinalIsEither(job);
      ghost var k, before := key.Value(), client.Now();
      Stops(before, Done);
      if condition.None? { return Done; }
      CallReadLog(before, k, job, Done);
      var ok, log := client.GetLog(job);
      Stops(client.Now(), Error);
      if !ok { return Error; }
      ghost var read := client.Now();
      if condition == Some(JOB_FAILED) {
        key.SetFailedCondition();
        ok := client.UpdateStatus(key);
        CallStoreStatus(read, k, K.WithFailed(k), Error);
      } else if condition == Some(JOB_COMPLETE) {
        var id := ExtractKeyID(log);
        if id.None? { return Error; } // indexing the submatches panics
        key.SetCreatedCondition(id.value);
        ok := client.UpdateStatus(key);
        CallStoreStatus(read, k, K.WithCreated(k, id.value), Error);
      }
      return Verdict(ok);
    }

    method CheckActiveJobStatus(key: KeyObject, jobs: seq<Job>) returns (result: Result)
      requires client.busy == key.stored.name && key.Value() == key.stored
      modifies client`cluster, client`peer, client`slots, key
      ensures (client.Now(), result) == Drive(old(client.Now()), K.OnFinishedJobs(old(key.Value()), jobs), Done)
    {
      hide Drive;
      for i := 0 to |jobs|
        invariant client.Now() == old(client.Now()) && key.Value() == key.stored == old(key.Value()) && client.busy == key.stored.name
        invariant forall h :: 0 <= h < i ==> jobs[h].operation != Some(AddKey)
      {
        if jobs[i].operation == Some(AddKey) {
          FirstAt(jobs, AddKey, i);
          result := CheckCreateJobStatus(key, jobs[i]);
          return;
        }
      }
      Stops(client.Now(), Done);
      return Done;
    }

    method CheckDeleteJobStatus(key: KeyObject, job: Job) returns (result: Result)
      requires client.busy == key.stored.name && key.Value() == key.stored
      modifies client`cluster, client`peer, client`slots, key
      ensures (client.Now(), result) == Drive(old(client.Now()), K.AfterRemoval(old(key.Value()), job), Done)
    {
      hide Drive, Turn;
      var condition := job.FinalCondition();
      FinalIsEither(job);
      Stops(client.Now(), Done);
      if condition.None? { return Done; }
      var ok;
      if condition == Some(JOB_FAILED) {
        CallReadRemovalLog(client.Now(), key.Value(), Done);
        var log;
        ok, log := client.GetLog(job);
      } else if condition == Some(JOB_COMPLETE) {
        CallDropFinalizer(client.Now(), key.Value(), K.KeyRemoved, Done);
        key.RemoveFinalizer();
        ok := client.Update(key);
      }
      return Verdict(ok);
    }

    method DeleteKeyOrCheckDeletionStatus(repo: Repository, key: KeyObject, jobs: seq<Job>) returns (result: Result)
      requires client.busy == key.stored.name && key.Value() == key.stored
      modifies client`cluster, client`peer, client`slots, key
      ensures (client.Now(), result) == Drive(old(client.Now()), K.OnDeletion(old(key.Value()), repo, jobs), K.DeletionEnding(jobs))
    {
      hide Drive, Turn, DeleteKeyJob;
      ghost var before, k, ending := client.Now(), key.Value(), K.DeletionEnding(jobs);
      if repo.deleting {
        CallDropFinalizer(before, k, K.RepoDeleting, ending);
        key.RemoveFinalizer();
        var ok := client.Update(key);
        return Verdict(ok);
      }
      for i := 0 to |jobs|
        invariant client.Now() == before && key.Value() == key.stored == k && client.busy == key.stored.name
        invariant forall h :: 0 <= h < i ==> jobs[h].operation != Some(DeleteKey)
      {
        if jobs[i].operation == Some(DeleteKey) {
          FirstAt(jobs, DeleteKey, i);
          result := CheckDeleteJobStatus(key, jobs[i]);
          return;
        }
      }
      Stops(before, ending);
      var job := DeleteKeyJob(repo, key.Value());
      if job.None? { return Error; } // the repository is not Created, or the key ID is nil
      CallCreateDeleteJob(before, k, repo, job.value, ending);
      var ok := client.CreateJob(job.value);
      return Verdict(ok);
    }

    /** What follows on success is the creation of the job, with the repository that the caller holds. */
    method CreateSecretIfNotExists(key: KeyObject, ghost repo: Repository) returns (ok: bool)
      requires client.busy == key.stored.name && key.Value() == key.stored
      modifies client`cluster, client`peer, client`slots
      ensures Drive(old(client.Now()), K.GetSecret(key.Value(), repo), Done) ==
              if ok then Drive(client.Now(), K.CreateAddJob(key.Value(), repo), Done) else (client.Now(), Error)
    {
      hide Drive, Turn;
      ghost var k := key.Value();
      var name := key.Value().SecretName();
      CallGetSecret(client.Now(), k, repo, Done);
      var found, secret := client.GetSecret(name);
      ghost var read := client.Now();
      Stops(read, Error);
      if !found { return false; }
      if secret.None? {
        CallCreateSecret(read, k, repo, Error);
        ok := client.CreateSecret(name, Secret([key.stored.uid]));
        EndingIsIrrelevant(client.Now(), K.CreateAddJob(k, repo), Error, Done);
        return;
      }
      var owners := secret.value.owners;
      if |owners| == 0 { return false; }
      if |owners| > 1 { return false; }
      if owners[0] != key.stored.uid { return false; }
      assert owners == [k.uid];
      EndingIsIrrelevant(read, K.CreateAddJob(k, repo), Error, Done);
      return true;
    }

    method CreateKey(repo: Repository, key: KeyObject) returns (result: Result)
      requires client.busy == key.stored.name && key.Value() == key.stored
      modifies client`cluster, client`peer, client`slots
      ensures (client.Now(), result) == Drive(old(client.Now()), K.GetSecret(key.Value(), repo), Done)
    {
      hide Drive, Turn;
      var ok := CreateSecretIfNotExists(key, repo);
      if !ok { return Error; }
      CallCreateAddJob(client.Now(), key.Value(), repo, Done);
      ok := client.CreateJob(AddKeyJob(repo, key.Value()));
      return Verdict(ok);
    }

    /** Stores the default status, then the owner, the label and the finalizer. */
    method Register(repo: Repository, key: KeyObject) returns (ok: bool)
      requires client.busy == key.stored.name && key.Value() == key.stored
      modifies client`cluster, client`peer, client`slots, key
      ensures client.busy == key.stored.name
      ensures Drive(old(client.Now()), K.AfterGetRepo(old(key.Value()), repo), Done) ==
              if ok then Drive(client.Now(), K.ListJobs(key.Value(), repo), Done) else (client.Now(), Error)
      ensures ok ==> key.Value() == key.stored
    {
      hide Drive, Turn, UpdateKey, UpdateKeyStatus;
      ghost var k := key.Value();
      CallDefaultStatus(client.Now(), k, repo, Done);
      var changed := key.SetDefaultConditions();
      if !changed { return true; }
      ok := client.UpdateStatus(key);
      if !ok { return false; }
      ok := SetMetadata(repo, key);
    }

    /** The owner, the label and the finalizer are written by one update. */
    method SetMetadata(repo: Repository, key: KeyObject) returns (ok: bool)
      requires client.busy == key.stored.name && key.Value() == key.stored
      modifies client`cluster, client`peer, client`slots, key
      ensures client.busy == key.stored.name
      ensures var k, w := old(key.Value()), old(client.Now());
              (if K.OwnedByAnother(k, repo) then (w, Error) else Drive(w, K.SetMetadata(k, repo), Error)) ==
              if ok then Drive(client.Now(), K.ListJobs(key.Value(), repo), Done) else (client.Now(), Error)
      ensures ok ==> key.Value() == key.stored
    {
      hide Drive, Turn, UpdateKey;
      ghost var k := key.Value();
      ok := key.SetControllerReference(repo);
      if !ok { return false; }
      key.SetLabel();
      key.AddFinalizer();
      CallSetMetadata(client.Now(), k, repo, Error);
      ok := client.Update(key);
      EndingIsIrrelevant(client.Now(), K.ListJobs(key.Value(), repo), Error, Done);
    }

    /** From the point where the key has its default status and metadata. */
    method ReconcileJobs(repo: Repository, key: KeyObject) returns (result: Result)
      requires client.busy == key.stored.name && key.Value() == key.stored
      modifies client`cluster, client`peer, client`slots, key
      ensures (client.Now(), result) == Drive(old(client.Now()), K.ListJobs(old(key.Value()), repo), Done)
    {
      hide Drive, Turn, IsListing, HasTrue, K.OnDeletion, K.OnFinishedJobs, K.DeletionEnding;
      ghost var k := key.Value();
      CallListJobs(client.Now(), k, repo, Done);
      ghost var order := Upcoming(client.slots).outcome;
      var ok, jobs := client.ListJobs(key.stored.name);
      Stops(client.Now(), if ok then K.ListingEnding(k, jobs) else Error);
      if !ok { return Error; }
      if key.stored.deleting {
        result := DeleteKeyOrCheckDeletionStatus(repo, key, jobs);
        return;
      }
      if key.Value().IsCreated() || key.Value().IsFailed() { return Done; }
      if |jobs| == 0 {
        if !repo.IsCreated() { return Requeue; }
        EndingIsIrrelevant(client.Now(), K.GetSecret(k, repo), Requeue, Done);
        result := CreateKey(repo, key);
        return;
      }
      var finished := [];
      for i := 0 to |jobs|
        invariant finished == [] <==> forall job :: job in jobs[..i] ==> !job.IsComplete()
      {
        assert jobs[..i + 1] == jobs[..i] + [jobs[i]];
        if jobs[i].IsComplete() { finished := finished + [jobs[i]]; }
      }
      assert jobs[..|jobs|] == jobs;
      if |finished| > 0 {
        result := CheckActiveJobStatus(key, jobs);
        return;
      }
      return Done;
    }

    /**
      One reconcile is one run of the machine: whatever the others do between its calls and wherever a
      call fails, the cluster ends up as the machine leaves it, and the result is the one it ends with.
     */
    method Reconcile(name: string) returns (result: Result)
      modifies client
      ensures (client.Now(), result) == Drive(old(client.Now()), K.GetKey(name), Done)
    {
      hide Drive, Turn, K.AfterGetRepo;
      CallGetKey(client.Now(), name, Done);
      var found, key := client.GetKey(name);
      if key == null { return Verdict(found); }
      ghost var k := key.Value();
      CallGetRepo(client.Now(), k, Done);
      var ok, answer := client.GetRepository(key.stored.spec.repository);
      if !ok { return Error; }
      if answer.None? {
        if key.stored.deleting {
          CallDropFinalizer(client.Now(), k, K.RepoGone, Requeue);
          key.RemoveFinalizer();
          ok := client.Update(key);
          return Verdict(ok);
        }
        return Requeue;
      }
      var repo := answer.value;
      AnyEnding(client.Now(), k, repo);
      ok := Register(repo, key);
      if !ok { return Error; }
      result := ReconcileJobs(repo, key);
    }
  }

  lemma EndingIsIrrelevant(w: World, pc: K.Pc, a: Result, b: Result)
    requires !pc.Idle?
    ensures Drive(w, pc, a) == Drive(w, pc, b)
  {
    hide K.Call, K.Ending, Turn;
  }

  lemma AnyEnding(w: World, k: Key, repo: Repository)
    ensures Drive(w, K.AfterGetRepo(k, repo), Requeue) == Drive(w, K.AfterGetRepo(k, repo), Done)
  {
    EndingIsIrrelevant(w, K.AfterGetRepo(k, repo), Requeue, Done);
  }

  lemma {:induction false} FirstAt(jobs: seq<Job>, op: Operation, i: nat)
    requires i < |jobs| && jobs[i].operation == Some(op) && forall h :: 0 <= h < i ==> jobs[h].operation != Some(op)
    ensures K.FirstJob(jobs, op) == Some(jobs[i])
  {
    if i > 0 { FirstAt(jobs[1..], op, i - 1); }
  }

  // ----- the calls of the machine, one by one -----

  lemma SameWorld(t: World)
    ensures t.(cluster := t.cluster) == t
  {
  }

  lemma CallGetKey(w: World, name: string, r: Result)
    ensures var t := Turn(w, name);
            Drive(w, K.GetKey(name), r) ==
            if Upcoming(w.slots).outcome.Failure? then (t, Error)
            else if name in t.cluster.keys then Drive(t, K.GetRepo(t.cluster.keys[name]), Done) else (t, Done)
  {
    hide Drive, Turn;
    Unroll(w, K.GetKey(name), r);
    SameWorld(Turn(w, name));
  }

  lemma CallGetRepo(w: World, k: Key, r: Result)
    ensures var t := Turn(w, k.name);
            Drive(w, K.GetRepo(k), r) ==
            if Upcoming(w.slots).outcome.Failure? then (t, Error)
            else if k.spec.repository in t.cluster.repos then
              Drive(t, K.AfterGetRepo(k, t.cluster.repos[k.spec.repository]), Requeue)
            else if k.deleting then Drive(t, K.DropFinalizer(k, K.RepoGone), Requeue)
            else (t, Requeue)
  {
    hide Drive, Turn, K.AfterGetRepo;
    Unroll(w, K.GetRepo(k), r);
    SameWorld(Turn(w, k.name));
  }

  lemma CallDefaultStatus(w: World, k: Key, repo: Repository, r: Result)
    ensures var t, outcome, l := Turn(w, k.name), Upcoming(w.slots).outcome, K.WithDefaults(k);
            Drive(w, K.DefaultStatus(k, repo), r) ==
            if outcome.Success? && UpdateKeyStatus(t.cluster, k, l).Some? then
              var u := t.(cluster := UpdateKeyStatus(t.cluster, k, l).value);
              if K.OwnedByAnother(k, repo) then (u, Error) else Drive(u, K.SetMetadata(l, repo), Error)
            else (t, Error)
  {
    hide Drive, Turn;
    Unroll(w, K.DefaultStatus(k, repo), r);
  }

  lemma CallSetMetadata(w: World, k: Key, repo: Repository, r: Result)
    ensures var t, outcome, l := Turn(w, k.name), Upcoming(w.slots).outcome, K.WithMetadata(k, repo);
            Drive(w, K.SetMetadata(k, repo), r) ==
            if outcome.Success? && UpdateKey(t.cluster, k, l).Some?
            then Drive(t.(cluster := UpdateKey(t.cluster, k, l).value), K.ListJobs(l, repo), Error) else (t, Error)
  {
    hide Drive, Turn;
    Unroll(w, K.SetMetadata(k, repo), r);
  }

  lemma CallListJobs(w: World, k: Key, repo: Repository, r: Result)
    ensures var t, outcome := Turn(w, k.name), Upcoming(w.slots).outcome;
            Drive(w, K.ListJobs(k, repo), r) ==
            if outcome.Success? && IsListing(t.cluster.jobs, k.name, outcome.order) then
              var jobs := Fetch(t.cluster.jobs, outcome.order);
              Drive(t, K.AfterListJobs(k, repo, jobs), K.ListingEnding(k, jobs))
            else (t, Error)
  {
    hide Drive, Turn, K.AfterListJobs, K.ListingEnding, IsListing;
    Unroll(w, K.ListJobs(k, repo), r);
    SameWorld(Turn(w, k.name));
  }

  lemma CallReadLog(w: World, key: Key, job: Job, r: Result)
    ensures var t := Turn(w, key.name);
            Drive(w, K.ReadLog(key, job), r) ==
            if Upcoming(w.slots).outcome.Success? then Drive(t, K.AfterReadLog(key, job), Error) else (t, Error)
  {
    hide Drive, Turn, K.AfterReadLog;
    Unroll(w, K.ReadLog(key, job), r);
    SameWorld(Turn(w, key.name));
  }

  lemma CallReadRemovalLog(w: World, key: Key, r: Result)
    ensures Drive(w, K.ReadRemovalLog(key), r) == (Turn(w, key.name), Verdict(Upcoming(w.slots).outcome.Success?))
  {
    hide Drive, Turn;
    Unroll(w, K.ReadRemovalLog(key), r);
    SameWorld(Turn(w, key.name));
  }

  lemma CallStoreStatus(w: World, k: Key, updated: Key, r: Result)
    ensures var t, outcome := Turn(w, k.name), Upcoming(w.slots).outcome;
            Drive(w, K.StoreStatus(k, updated), r) ==
            if outcome.Success? && UpdateKeyStatus(t.cluster, k, updated).Some?
            then (t.(cluster := UpdateKeyStatus(t.cluster, k, updated).value), Done) else (t, Error)
  {
    hide Drive, Turn;
    Unroll(w, K.StoreStatus(k, updated), r);
  }

  lemma CallDropFinalizer(w: World, k: Key, reason: K.DropReason, r: Result)
    ensures var t, outcome, dropped := Turn(w, k.name), Upcoming(w.slots).outcome, k.(finalizer := false);
            Drive(w, K.DropFinalizer(k, reason), r) ==
            if outcome.Success? && UpdateKey(t.cluster, k, dropped).Some?
            then (t.(cluster := UpdateKey(t.cluster, k, dropped).value), Done) else (t, Error)
  {
    hide Drive, Turn;
    Unroll(w, K.DropFinalizer(k, reason), r);
  }

  lemma CallCreateDeleteJob(w: World, k: Key, repo: Repository, job: Job, r: Result)
    requires DeleteKeyJob(repo, k) == Some(job)
    ensures var t := Turn(w, k.name);
            Drive(w, K.CreateDeleteJob(k, repo), r) ==
            if Upcoming(w.slots).outcome.Success? then (t.(cluster := CreateKeyJob(t.cluster, job)), Done) else (t, Error)
  {
    hide Drive, Turn;
    Unroll(w, K.CreateDeleteJob(k, repo), r);
  }

  lemma CallCreateAddJob(w: World, k: Key, repo: Repository, r: Result)
    ensures var t := Turn(w, k.name);
            Drive(w, K.CreateAddJob(k, repo), r) ==
            if Upcoming(w.slots).outcome.Success? then (t.(cluster := CreateKeyJob(t.cluster, AddKeyJob(repo, k))), Done)
            else (t, Error)
  {
    hide Drive, Turn;
    Unroll(w, K.CreateAddJob(k, repo), r);
  }

  lemma CallGetSecret(w: World, k: Key, repo: Repository, r: Result)
    ensures var t := Turn(w, k.name);
            Drive(w, K.GetSecret(k, repo), r) ==
            if Upcoming(w.slots).outcome.Success? then Drive(t, K.AfterGetSecret(t.cluster, k, repo), Error) else (t, Error)
  {
    hide Drive, Turn, K.AfterGetSecret;
    Unroll(w, K.GetSecret(k, repo), r);
    SameWorld(Turn(w, k.name));
  }

  lemma CallCreateSecret(w: World, k: Key, repo: Repository, r: Result)
    ensures var t, outcome, secret := Turn(w, k.name), Upcoming(w.slots).outcome, Secret([k.uid]);
            Drive(w, K.CreateSecret(k, repo), r) ==
            if outcome.Success? && CreateSecret(t.cluster, k.SecretName(), secret).Some?
            then Drive(t.(cluster := CreateSecret(t.cluster, k.SecretName(), secret).value), K.CreateAddJob(k, repo), Error)
            else (t, Error)
  {
    hide Drive, Turn;
    Unroll(w, K.CreateSecret(k, repo), r);
  }

  // ----- a reconcile is part of a run of the operator -----

  /** What the others do is a run in which the key controller does not move. */
  lemma {:induction false} DisturbIsRun(c: Cluster, peer: R.Pc, pc: K.Pc, actions: seq<Action>) returns (run: seq<Action>)
    requires !pc.Idle?
    ensures var (d, p) := Disturb(c, peer, K.Busy(pc).value, actions); Run(State(c, pc, peer), run) == State(d, pc, p)
    decreases |actions|
  {
    if actions == [] {
      run := [];
    } else {
      var before, a := actions[..|actions| - 1], actions[|actions| - 1];
      run := DisturbIsRun(c, peer, pc, before);
      if ByOthers(a) {
        run := run + [a];
        assert run[..|run| - 1] + [a] == run;
        OthersDoNotCare(Disturb(c, peer, K.Busy(pc).value, before), pc, a);
      }
    }
  }

  lemma OthersDoNotCare(w: (Cluster, R.Pc), pc: K.Pc, a: Action)
    requires ByOthers(a) && !pc.Idle?
    ensures Next(State(w.0, pc, w.1), a) == Next(State(w.0, K.GetKey(K.Busy(pc).value), w.1), a).(key := pc)
  {
    hide E.Happen, R.Call;
  }

  lemma {:induction false} DriveIsRun(w: World, pc: K.Pc, ending: Result) returns (run: seq<Action>)
    ensures var end := Drive(w, pc, ending).0; Run(State(w.cluster, pc, w.peer), run) == State(end.cluster, K.Idle, end.peer)
    decreases K.Rank(pc)
  {
    if pc.Idle? {
      run := [];
    } else {
      var slot := Upcoming(w.slots);
      var t := Turn(w, K.Busy(pc).value);
      var next := K.Call(t.cluster, pc, slot.outcome);
      K.CallDescends(t.cluster, pc, slot.outcome);
      hide K.Call, K.Ending, Run, Disturb;
      var start := State(w.cluster, pc, w.peer);
      var before := DisturbIsRun(w.cluster, w.peer, pc, slot.before);
      var rest := DriveIsRun(t.(cluster := next.0), next.1, K.Ending(t.cluster, pc, slot.outcome));
      var call := [KeyCall(slot.outcome)];
      RunOne(State(t.cluster, pc, t.peer), KeyCall(slot.outcome));
      RunsOn(start, before, call);
      RunsOn(start, before + call, rest);
      run := before + call + rest;
    }
  }

  /** So whatever holds in every reachable state holds after, and throughout, every reconcile. */
  lemma ReconcileIsReachable(w: World, name: string)
    requires Reachable(State(w.cluster, K.Idle, w.peer))
    ensures var v := Drive(w, K.GetKey(name), Done).0; Reachable(State(v.cluster, K.Idle, v.peer))
  {
    var actions :| Run(INITIAL, actions) == State(w.cluster, K.Idle, w.peer);
    var start := [StartKey(name)];
    var run := DriveIsRun(w, K.GetKey(name), Done);
    assert start[..0] == [];
    hide Drive;
    RunsOn(INITIAL, actions, start);
    RunsOn(INITIAL, actions + start, run);
  }
}
