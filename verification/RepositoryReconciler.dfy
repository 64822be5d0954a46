/**
  The repository controller as it is written: an object that is edited in place, and a client whose calls may
  fail and between whose calls others act. Its reconcile is proved to be a run of the machine in RepositoryController.
 */
module RepositoryReconciler {
  import opened Options
  import opened Conditions
  import opened Resources
  import opened Results
  import opened ApiServer
  import opened Operator
  import K = KeyController
  import R = RepositoryController
  import E = Environment

  // ----- the repository in memory -----

  /** `stored` is the object as it was last exchanged with the API server, and stands for its resource version. */
  class RepositoryObject {
    var stored: Repository
    var conditions: seq<Condition>

    constructor (read: Repository)
      ensures stored == read && Value() == read
    {
      stored, conditions := read, read.conditions;
    }

    function Value(): Repository
      reads this
    {
      stored.(conditions := conditions)
    }

    method SetDefaultConditions() returns (changed: bool)
      modifies this`conditions
      ensures changed <==> old(conditions) == []
      ensures Value() == R.WithDefaults(old(Value()))
    {
      if conditions != [] { return false; }
      conditions := DEFAULT_PHASE;
      return true;
    }

    method SetFailedCondition()
      modifies this`conditions
      ensures Value() == R.WithFailed(old(Value()))
    {
      var updated := UpdateCondition(conditions, FAILED, Condition(FAILED, ConditionTrue));
      conditions := updated.0;
      updated := UpdateCondition(conditions, CREATED, Condition(CREATED, ConditionFalse));
      conditions := updated.0;
    }

    method SetCreatedCondition()
      modifies this`conditions
      ensures Value() == R.WithCreated(old(Value()))
    {
      var updated := UpdateCondition(conditions, CREATED, Condition(CREATED, ConditionTrue));
      conditions := updated.0;
      updated := UpdateCondition(conditions, FAILED, Condition(FAILED, ConditionFalse));
      conditions := updated.0;
    }
  }

  // ----- the cluster as a reconcile finds it -----

  /** What others do before the next call, and whether that call succeeds. */
  datatype Slot = Slot(before: seq<Action>, ok: bool)

  datatype World = World(cluster: Cluster, peer: K.Pc, slots: seq<Slot>)

  /** Everything but the repository controller. */
  predicate ByOthers(a: Action) {
    !a.StartRepository? && !a.RepositoryCall? && !a.RepositoryCrash?
  }

  function Disturb(c: Cluster, peer: K.Pc, busy: string, actions: seq<Action>): (Cluster, K.Pc)
    decreases |actions|
  {
    if actions == [] then (c, peer)
    else
      var (d, p) := Disturb(c, peer, busy, actions[..|actions| - 1]);
      var a := actions[|actions| - 1];
      if !ByOthers(a) then (d, p)
      else
        var s := Next(State(d, p, R.GetRepo(busy)), a);
        (s.cluster, s.key)
  }

  /** A reconcile dies when its slots are used up. */
  function Upcoming(slots: seq<Slot>): Slot {
    if slots == [] then Slot([], false) else slots[0]
  }

  function Later(slots: seq<Slot>): seq<Slot> {
    if slots == [] then [] else slots[1..]
  }

  /** The world once the others have acted and the next call is due. */
  function Turn(w: World, busy: string): World {
    var (c, p) := Disturb(w.cluster, w.peer, busy, Upcoming(w.slots).before);
    World(c, p, Later(w.slots))
  }

  /**
    The machine of RepositoryController, driven from a program counter until it is idle, and how the reconcile ends;
    `ending` says so for a machine that is idle already.
   */
  function Drive(w: World, pc: R.Pc, ending: Result): (World, Result)
    decreases R.Rank(pc)
  {
    if pc.Idle? then (w, ending)
    else
      var t := Turn(w, R.Busy(pc).value);
      var ok := Upcoming(w.slots).ok;
      R.CallDescends(t.cluster, pc, ok);
      var (d, pc') := R.Call(t.cluster, pc, ok);
      Drive(t.(cluster := d), pc', R.Ending(t.cluster, pc, ok))
  }

  // ----- the client -----

  class Client {
    var cluster: Cluster
    var peer: K.Pc
    var slots: seq<Slot>
    /** The name of the repository being reconciled. */
    var busy: string

    function Now(): World
      reads this
    {
      World(cluster, peer, slots)
    }

    /** The others act; then the call is made and may fail. */
    method Await() returns (ok: bool)
      modifies this`cluster, this`peer, this`slots
      ensures Now() == Turn(old(Now()), busy) && ok == Upcoming(old(slots)).ok
    {
      var turn := Turn(Now(), busy);
      ok := Upcoming(slots).ok;
      cluster, peer, slots := turn.cluster, turn.peer, turn.slots;
    }

    /** An error, or an optional repository; the one read is from then on the one being reconciled. */
    method GetRepository(name: string) returns (ok: bool, repo: RepositoryObject?)
      modifies this
      ensures Now() == Turn(old(Now()), name) && ok == Upcoming(old(slots)).ok
      ensures repo != null <==> ok && name in cluster.repos
      ensures repo != null ==> fresh(repo) && repo.stored == repo.Value() == cluster.repos[name] && busy == repo.stored.name
    {
      busy := name;
      ok := Await();
      if !ok || name !in cluster.repos { return ok, null; }
      repo := new RepositoryObject(cluster.repos[name]);
      busy := repo.stored.name;
    }

    method GetSecret(name: string) returns (ok: bool, secret: Option<Secret>)
      modifies this`cluster, this`peer, this`slots
      ensures Now() == Turn(old(Now()), busy) && ok == Upcoming(old(slots)).ok
      ensures ok ==> secret == if name in cluster.secrets then Some(cluster.secrets[name]) else None
    {
      ok := Await();
      return ok, if name in cluster.secrets then Some(cluster.secrets[name]) else None;
    }

    /** A job is looked up by the name of the repository, whoever owns it. */
    method GetInitJob(name: string) returns (ok: bool, job: Option<Job>)
      modifies this`cluster, this`peer, this`slots
      ensures Now() == Turn(old(Now()), busy) && ok == Upcoming(old(slots)).ok
      ensures ok ==> job == if name in cluster.initJobs then Some(cluster.initJobs[name]) else None
    {
      ok := Await();
      return ok, if name in cluster.initJobs then Some(cluster.initJobs[name]) else None;
    }

    /** Writes only the status. */
    method UpdateStatus(repo: RepositoryObject) returns (ok: bool)
      modifies this`cluster, this`peer, this`slots, repo`stored
      ensures var t, sent := Turn(old(Now()), busy), old(repo.Value());
              && ok == (Upcoming(old(slots)).ok && UpdateRepositoryStatus(t.cluster, old(repo.stored), sent).Some?)
              && Now() == (if ok then t.(cluster := UpdateRepositoryStatus(t.cluster, old(repo.stored), sent).value) else t)
              && repo.stored == if ok then sent else old(repo.stored)
    {
      ok := Await();
      if !ok { return; }
      var updated := UpdateRepositoryStatus(cluster, repo.stored, repo.Value());
      if updated.None? { return false; }
      cluster := updated.value;
      repo.stored := repo.Value();
    }

    method CreateSecret(name: string, secret: Secret) returns (ok: bool)
      modifies this`cluster, this`peer, this`slots
      ensures var t := Turn(old(Now()), busy);
              && ok == (Upcoming(old(slots)).ok && ApiServer.CreateSecret(t.cluster, name, secret).Some?)
              && Now() == if ok then t.(cluster := ApiServer.CreateSecret(t.cluster, name, secret).value) else t
    {
      ok := Await();
      if !ok { return; }
      var created := ApiServer.CreateSecret(cluster, name, secret);
      if created.None? { return false; }
      cluster := created.value;
    }

    /** `taken` tells a job of that name from any other error. */
    method CreateJob(job: Job) returns (ok: bool, taken: bool)
      modifies this`cluster, this`peer, this`slots
      ensures var t := Turn(old(Now()), busy);
              && ok == (Upcoming(old(slots)).ok && CreateInitJob(t.cluster, job).Some?)
              && taken == (Upcoming(old(slots)).ok && CreateInitJob(t.cluster, job).None?)
              && Now() == if ok then t.(cluster := CreateInitJob(t.cluster, job).value) else t
    {
      ok := Await();
      if !ok { return false, false; }
      var created := CreateInitJob(cluster, job);
      if created.None? { return false, true; }
      cluster := created.value;
      taken := false;
    }

    /** The pods of a job can be asked for their log. */
    method GetLog() returns (ok: bool)
      modifies this`cluster, this`peer, this`slots
      ensures Now() == Turn(old(Now()), busy) && ok == Upcoming(old(slots)).ok
    {
      ok := Await();
    }
  }

  // ----- the controller -----

  class Reconciler {
    const client: Client

    constructor (client: Client)
      ensures this.client == client
    {
      this.client := client;
    }

    method CheckCreateJobStatus(repo: RepositoryObject, job: Job) returns (result: Result)
      requires client.busy == repo.stored.name && repo.Value() == repo.stored
      modifies client`cluster, client`peer, client`slots, repo
      ensures (client.Now(), result) == Drive(old(client.Now()), R.AfterGetJob(old(repo.Value()), job), Done)
    {
      hide Drive, Turn, MarkCreated, MarkFailed;
      ghost var r := repo.Value();
      var condition := job.FinalCondition();
      FinalIsEither(job);
      Stops(client.Now(), Done);
      if condition.None? { return Done; }
      if condition == Some(JOB_FAILED) {
        CallReadLog(client.Now(), r, Done);
        var ok := client.GetLog();
        if !ok { return Error; }
        repo.SetFailedCondition();
      } else if condition == Some(JOB_COMPLETE) {
        repo.SetCreatedCondition();
      }
      CallStoreStatus(client.Now(), r, repo.Value(), Done);
      var stored := client.UpdateStatus(repo);
      return Verdict(stored);
    }

    /** What follows on success is the creation of the job. */
    method CreateOperatorSecretIfNotExists(repo: RepositoryObject) returns (ok: bool)
      requires client.busy == repo.stored.name && repo.Value() == repo.stored
      modifies client`cluster, client`peer, client`slots
      ensures Drive(old(client.Now()), R.GetSecret(repo.Value()), Done) ==
              if ok then Drive(client.Now(), R.CreateJob(repo.Value()), Done) else (client.Now(), Error)
    {
      hide Drive, Turn;
      ghost var r := repo.Value();
      var name := repo.Value().OperatorSecretName();
      CallGetSecret(client.Now(), r, Done);
      var found, secret := client.GetSecret(name);
      Stops(client.Now(), Error);
      if !found { return false; }
      if secret.None? {
        CallCreateSecret(client.Now(), r, Error);
        ok := client.CreateSecret(name, Secret([repo.stored.uid]));
        EndingIsIrrelevant(client.Now(), R.CreateJob(r), Error, Done);
        return;
      }
      var owners := secret.value.owners;
      if |owners| == 0 { return false; }
      if |owners| > 1 { return false; }
      if owners[0] != repo.stored.uid { return false; }
      assert owners == [r.uid];
      EndingIsIrrelevant(client.Now(), R.CreateJob(r), Error, Done);
      return true;
    }

    method StartCreateRepoJob(repo: RepositoryObject) returns (result: Result)
      requires client.busy == repo.stored.name && repo.Value() == repo.stored
      modifies client`cluster, client`peer, client`slots
      ensures (client.Now(), result) == Drive(old(client.Now()), R.GetSecret(repo.Value()), Done)
    {
      hide Drive, Turn;
      var ok := CreateOperatorSecretIfNotExists(repo);
      if !ok { return Error; }
      CallCreateJob(client.Now(), repo.Value(), Done);
      var taken;
      ok, taken := client.CreateJob(RepositoryInitJob(repo.Value()));
      return Verdict(ok || taken);
    }

    /**
      One reconcile is one run of the machine, whatever the others do and wherever a call fails, and its
      result is the one the machine ends with.
     */
    method Reconcile(name: string) returns (result: Result)
      modifies client
      ensures (client.Now(), result) == Drive(old(client.Now()), R.GetRepo(name), Done)
    {
      hide Drive, Turn, UpdateRepositoryStatus, HasTrue;
      CallGetRepo(client.Now(), name, Done);
      var ok, repo := client.GetRepository(name);
      if repo == null { return Verdict(ok); }
      ghost var r := repo.Value();
      CallDefaultStatus(client.Now(), r, Done);
      var changed := repo.SetDefaultConditions();
      if changed {
        ok := client.UpdateStatus(repo);
        if !ok { return Error; }
      }
      assert repo.Value() == repo.stored == R.WithDefaults(r);
      Stops(client.Now(), Done);
      if repo.Value().IsCreated() || repo.Value().IsFailed() { return Done; }
      CallGetJob(client.Now(), repo.Value(), Done);
      var job;
      ok, job := client.GetInitJob(repo.stored.name);
      if !ok { return Error; }
      if job.None? {
        result := StartCreateRepoJob(repo);
      } else {
        result := CheckCreateJobStatus(repo, job.value);
      }
    }
  }

  // ----- the calls of the machine, one by one -----

  lemma Unroll(w: World, pc: R.Pc, ending: Result)
    requires !pc.Idle?
    ensures var t, ok := Turn(w, R.Busy(pc).value), Upcoming(w.slots).ok;
            var next := R.Call(t.cluster, pc, ok);
            && Drive(w, pc, ending) == Drive(t.(cluster := next.0), next.1, R.Ending(t.cluster, pc, ok))
            && (next.1.Idle? ==> Drive(w, pc, ending) == (t.(cluster := next.0), R.Ending(t.cluster, pc, ok)))
  {
    hide R.Call, R.Ending, Turn;
  }

  lemma Stops(w: World, ending: Result)
    ensures Drive(w, R.Idle, ending) == (w, ending)
  {
  }

  lemma EndingIsIrrelevant(w: World, pc: R.Pc, a: Result, b: Result)
    requires !pc.Idle?
    ensures Drive(w, pc, a) == Drive(w, pc, b)
  {
    hide R.Call, R.Ending, Turn;
  }

  lemma SameWorld(t: World)
    ensures t.(cluster := t.cluster) == t
  {
  }

  lemma CallGetRepo(w: World, name: string, r: Result)
    ensures var t := Turn(w, name);
            Drive(w, R.GetRepo(name), r) ==
            if !Upcoming(w.slots).ok then (t, Error)
            else if name !in t.cluster.repos then (t, Done)
            else if t.cluster.repos[name].conditions == [] then Drive(t, R.DefaultStatus(t.cluster.repos[name]), Done)
            else Drive(t, R.AfterDefaults(t.cluster.repos[name]), Done)
  {
    hide Drive, Turn, R.AfterDefaults;
    Unroll(w, R.GetRepo(name), r);
    SameWorld(Turn(w, name));
  }

  lemma CallDefaultStatus(w: World, q: Repository, r: Result)
    ensures var t, l := Turn(w, q.name), R.WithDefaults(q);
            Drive(w, R.DefaultStatus(q), r) ==
            if Upcoming(w.slots).ok && UpdateRepositoryStatus(t.cluster, q, l).Some?
            then Drive(t.(cluster := UpdateRepositoryStatus(t.cluster, q, l).value), R.AfterDefaults(l), Done) else (t, Error)
  {
    hide Drive, Turn, R.AfterDefaults;
    Unroll(w, R.DefaultStatus(q), r);
  }

  lemma CallGetJob(w: World, q: Repository, r: Result)
    ensures var t := Turn(w, q.name);
            Drive(w, R.GetJob(q), r) ==
            if !Upcoming(w.slots).ok then (t, Error)
            else if q.name in t.cluster.initJobs then Drive(t, R.AfterGetJob(q, t.cluster.initJobs[q.name]), Done)
            else Drive(t, R.GetSecret(q), Done)
  {
    hide Drive, Turn, R.AfterGetJob;
    Unroll(w, R.GetJob(q), r);
    SameWorld(Turn(w, q.name));
  }

  lemma CallReadLog(w: World, q: Repository, r: Result)
    ensures var t := Turn(w, q.name);
            Drive(w, R.ReadLog(q), r) ==
            if Upcoming(w.slots).ok then Drive(t, R.StoreStatus(q, R.WithFailed(q)), Done) else (t, Error)
  {
    hide Drive, Turn;
    Unroll(w, R.ReadLog(q), r);
    SameWorld(Turn(w, q.name));
  }

  lemma CallStoreStatus(w: World, q: Repository, updated: Repository, r: Result)
    ensures var t := Turn(w, q.name);
            Drive(w, R.StoreStatus(q, updated), r) ==
            if Upcoming(w.slots).ok && UpdateRepositoryStatus(t.cluster, q, updated).Some?
            then (t.(cluster := UpdateRepositoryStatus(t.cluster, q, updated).value), Done) else (t, Error)
  {
    hide Drive, Turn;
    Unroll(w, R.StoreStatus(q, updated), r);
  }

  lemma CallGetSecret(w: World, q: Repository, r: Result)
    ensures var t := Turn(w, q.name);
            Drive(w, R.GetSecret(q), r) ==
            if Upcoming(w.slots).ok then Drive(t, R.AfterGetSecret(t.cluster, q), Error) else (t, Error)
  {
    hide Drive, Turn, R.AfterGetSecret;
    Unroll(w, R.GetSecret(q), r);
    SameWorld(Turn(w, q.name));
  }

  lemma CallCreateSecret(w: World, q: Repository, r: Result)
    ensures var t, secret := Turn(w, q.name), Secret([q.uid]);
            Drive(w, R.CreateSecret(q), r) ==
            if Upcoming(w.slots).ok && CreateSecret(t.cluster, q.OperatorSecretName(), secret).Some?
            then Drive(t.(cluster := CreateSecret(t.cluster, q.OperatorSecretName(), secret).value), R.CreateJob(q), Error)
            else (t, Error)
  {
    hide Drive, Turn;
    Unroll(w, R.CreateSecret(q), r);
  }

  lemma CallCreateJob(w: World, q: Repository, r: Result)
    ensures var t, job := Turn(w, q.name), RepositoryInitJob(q);
            Drive(w, R.CreateJob(q), r) ==
            if !Upcoming(w.slots).ok then (t, Error)
            else if CreateInitJob(t.cluster, job).Some? then (t.(cluster := CreateInitJob(t.cluster, job).value), Done)
            else (t, Done)
  {
    hide Drive, Turn;
    Unroll(w, R.CreateJob(q), r);
    SameWorld(Turn(w, q.name));
  }

  // ----- a reconcile is part of a run of the operator -----

  /** What the others do is a run in which the repository controller does not move. */
  lemma {:induction false} DisturbIsRun(c: Cluster, peer: K.Pc, pc: R.Pc, actions: seq<Action>) returns (run: seq<Action>)
    requires !pc.Idle?
    ensures var (d, p) := Disturb(c, peer, R.Busy(pc).value, actions); Run(State(c, peer, pc), run) == State(d, p, pc)
    decreases |actions|
  {
    if actions == [] {
      run := [];
    } else {
      var before, a := actions[..|actions| - 1], actions[|actions| - 1];
      run := DisturbIsRun(c, peer, pc, before);
      if ByOthers(a) {
        run := run + [a];
        assert run[..|run| - 1] + [a] == run;
        OthersDoNotCare(Disturb(c, peer, R.Busy(pc).value, before), pc, a);
      }
    }
  }

  lemma OthersDoNotCare(w: (Cluster, K.Pc), pc: R.Pc, a: Action)
    requires ByOthers(a) && !pc.Idle?
    ensures Next(State(w.0, w.1, pc), a) == Next(State(w.0, w.1, R.GetRepo(R.Busy(pc).value)), a).(repo := pc)
  {
    hide E.Happen, K.Call;
  }

  lemma {:induction false} DriveIsRun(w: World, pc: R.Pc, ending: Result) returns (run: seq<Action>)
    ensures var end := Drive(w, pc, ending).0; Run(State(w.cluster, w.peer, pc), run) == State(end.cluster, end.peer, R.Idle)
    decreases R.Rank(pc)
  {
    if pc.Idle? {
      run := [];
    } else {
      var slot := Upcoming(w.slots);
      var t := Turn(w, R.Busy(pc).value);
      var next := R.Call(t.cluster, pc, slot.ok);
      R.CallDescends(t.cluster, pc, slot.ok);
      hide R.Call, R.Ending, Run, Disturb;
      var start := State(w.cluster, w.peer, pc);
      var before := DisturbIsRun(w.cluster, w.peer, pc, slot.before);
      var rest := DriveIsRun(t.(cluster := next.0), next.1, R.Ending(t.cluster, pc, slot.ok));
      var call := [RepositoryCall(slot.ok)];
      RunOne(State(t.cluster, t.peer, pc), RepositoryCall(slot.ok));
      RunsOn(start, before, call);
      RunsOn(start, before + call, rest);
      run := before + call + rest;
    }
  }

  /** So whatever holds in every reachable state holds after every reconcile. */
  lemma ReconcileIsReachable(w: World, name: string)
    requires Reachable(State(w.cluster, w.peer, R.Idle))
    ensures var v := Drive(w, R.GetRepo(name), Done).0; Reachable(State(v.cluster, v.peer, R.Idle))
  {
    var actions :| Run(INITIAL, actions) == State(w.cluster, w.peer, R.Idle);
    var start := [StartRepository(name)];
    var run := DriveIsRun(w, R.GetRepo(name), Done);
    assert start[..0] == [];
    hide Drive;
    RunsOn(INITIAL, actions, start);
    RunsOn(INITIAL, actions + start, run);
  }
}
