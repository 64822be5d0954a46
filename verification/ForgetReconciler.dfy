/**
  The forget-schedule controller as it is written: objects that are edited in place, and a client whose calls may
  fail and between whose calls others act. Its reconcile is proved to be a run of the machine in ForgetController.
 */
module ForgetReconciler {
  import opened Options
  import opened Conditions
  import opened Resources
  import opened ForgetController
  import ForgetScript

  // ----- the objects in memory -----

  /** `stored` is the object as it was last exchanged with the API server, and stands for its resource version. */
  class ScheduleObject {
    var stored: Schedule
    var controller: Option<Owner>
    var repositoryLabel: Option<string>
    var conditions: seq<Condition>

    constructor (read: Schedule)
      ensures stored == read && Value() == read
    {
      stored, controller, repositoryLabel, conditions := read, read.controller, read.repositoryLabel, read.conditions;
    }

    function Value(): Schedule
      reads this
    {
      stored.(controller := controller, repositoryLabel := repositoryLabel, conditions := conditions)
    }

    method SetDefaultConditions() returns (changed: bool)
      modifies this`conditions
      ensures changed <==> old(conditions) == []
      ensures Value() == WithDefaults(old(Value()))
    {
      if conditions != [] { return false; }
      conditions := NOT_CREATED;
      return true;
    }

    method SetCreatedCondition()
      modifies this`conditions
      ensures Value() == WithCreated(old(Value()))
    {
      var updated := UpdateCondition(conditions, CREATED, Condition(CREATED, ConditionTrue));
      conditions := updated.0;
    }

    /** Fails if another object is the controller. */
    method SetControllerReference(repo: Repository) returns (ok: bool)
      modifies this`controller
      ensures ok <==> !OwnedByAnother(old(Value()), repo)
      ensures controller == if ok then Some(ReferenceTo(repo)) else old(controller)
    {
      if controller.Some? && !RefersTo(controller.value, repo) { return false; }
      controller := Some(ReferenceTo(repo));
      return true;
    }

    method SetLabel()
      modifies this`repositoryLabel
      ensures repositoryLabel == Some(stored.spec.repository)
    {
      repositoryLabel := Some(stored.spec.repository);
    }
  }

  class CronJobObject {
    var stored: CronJob
    var spec: CronJobSpec

    constructor (read: CronJob)
      ensures stored == read && spec == read.spec
    {
      stored, spec := read, read.spec;
    }
  }

  // ----- the cluster as a reconcile finds it -----

  /** What others do before the next call, and whether that call succeeds. */
  datatype Slot = Slot(before: seq<Event>, ok: bool)

  datatype World = World(cluster: Cluster, slots: seq<Slot>)

  function Disturb(c: Cluster, events: seq<Event>, parses: Parser): Cluster
    decreases |events|
  {
    if events == [] then c else Happen(Disturb(c, events[..|events| - 1], parses), events[|events| - 1], parses)
  }

  /** A reconcile dies when its slots are used up. */
  function Upcoming(slots: seq<Slot>): Slot {
    if slots == [] then Slot([], false) else slots[0]
  }

  function Turn(w: World, parses: Parser): World {
    World(Disturb(w.cluster, Upcoming(w.slots).before, parses), if w.slots == [] then [] else w.slots[1..])
  }

  /** The machine, driven from a program counter until it has ended. */
  function Drive(w: World, pc: Pc, parses: Parser): (World, Pc)
    decreases Rank(pc)
  {
    if Ended(pc) then (w, pc)
    else
      var t := Turn(w, parses);
      CallDescends(t.cluster, pc, Upcoming(w.slots).ok);
      var (d, pc') := Call(t.cluster, pc, Upcoming(w.slots).ok);
      Drive(t.(cluster := d), pc', parses)
  }

  // ----- the client -----

  class Client {
    const parses: Parser
    var cluster: Cluster
    var slots: seq<Slot>

    constructor (parses: Parser, cluster: Cluster, slots: seq<Slot>)
      ensures this.parses == parses && Now() == World(cluster, slots)
    {
      this.parses, this.cluster, this.slots := parses, cluster, slots;
    }

    function Now(): World
      reads this
    {
      World(cluster, slots)
    }

    /** The others act; then the call is made and may fail. */
    method Await() returns (ok: bool)
      modifies this
      ensures Now() == Turn(old(Now()), parses) && ok == Upcoming(old(slots)).ok
    {
      var turn := Turn(Now(), parses);
      ok := Upcoming(slots).ok;
      cluster, slots := turn.cluster, turn.slots;
    }

    method GetSchedule(name: string) returns (ok: bool, schedule: ScheduleObject?)
      modifies this
      ensures Now() == Turn(old(Now()), parses) && ok == Upcoming(old(slots)).ok
      ensures schedule != null <==> ok && name in cluster.schedules
      ensures schedule != null ==> fresh(schedule) && schedule.stored == schedule.Value() == cluster.schedules[name]
    {
      ok := Await();
      if !ok || name !in cluster.schedules { return ok, null; }
      schedule := new ScheduleObject(cluster.schedules[name]);
    }

    method GetRepository(name: string) returns (ok: bool, repo: Option<Repository>)
      modifies this
      ensures Now() == Turn(old(Now()), parses) && ok == Upcoming(old(slots)).ok
      ensures ok ==> repo == if name in cluster.repos then Some(cluster.repos[name]) else None
    {
      ok := Await();
      return ok, if name in cluster.repos then Some(cluster.repos[name]) else None;
    }

    method GetCronJob(name: string) returns (ok: bool, job: CronJobObject?)
      modifies this
      ensures Now() == Turn(old(Now()), parses) && ok == Upcoming(old(slots)).ok
      ensures job != null <==> ok && name in cluster.cronJobs
      ensures job != null ==> fresh(job) && job.stored == cluster.cronJobs[name] && job.spec == job.stored.spec
    {
      ok := Await();
      if !ok || name !in cluster.cronJobs { return ok, null; }
      job := new CronJobObject(cluster.cronJobs[name]);
    }

    /** Writes everything but the status. */
    method UpdateSchedule(schedule: ScheduleObject) returns (ok: bool)
      modifies this, schedule`stored
      ensures var t, sent := Turn(old(Now()), parses), old(schedule.Value());
              && ok == (Upcoming(old(slots)).ok && ForgetController.UpdateSchedule(t.cluster, old(schedule.stored), sent).Some?)
              && Now() == (if ok then t.(cluster := ForgetController.UpdateSchedule(t.cluster, old(schedule.stored), sent).value) else t)
              && schedule.stored == if ok then sent else old(schedule.stored)
    {
      ok := Await();
      if !ok { return; }
      var updated := ForgetController.UpdateSchedule(cluster, schedule.stored, schedule.Value());
      if updated.None? { return false; }
      cluster := updated.value;
      schedule.stored := schedule.Value();
    }

    /** Writes only the status. */
    method UpdateStatus(schedule: ScheduleObject) returns (ok: bool)
      modifies this, schedule`stored
      ensures var t, sent := Turn(old(Now()), parses), old(schedule.Value());
              && ok == (Upcoming(old(slots)).ok && UpdateScheduleStatus(t.cluster, old(schedule.stored), sent).Some?)
              && Now() == (if ok then t.(cluster := UpdateScheduleStatus(t.cluster, old(schedule.stored), sent).value) else t)
              && schedule.stored == if ok then sent else old(schedule.stored)
    {
      ok := Await();
      if !ok { return; }
      var updated := UpdateScheduleStatus(cluster, schedule.stored, schedule.Value());
      if updated.None? { return false; }
      cluster := updated.value;
      schedule.stored := schedule.Value();
    }

    method CreateCronJob(job: CronJob) returns (ok: bool)
      modifies this
      ensures var t := Turn(old(Now()), parses);
              && ok == (Upcoming(old(slots)).ok && ForgetController.CreateCronJob(t.cluster, job).Some?)
              && Now() == if ok then t.(cluster := ForgetController.CreateCronJob(t.cluster, job).value) else t
    {
      ok := Await();
      if !ok { return; }
      var created := ForgetController.CreateCronJob(cluster, job);
      if created.None? { return false; }
      cluster := created.value;
    }

    method UpdateCronJob(job: CronJobObject) returns (ok: bool)
      modifies this
      ensures var t, sent := Turn(old(Now()), parses), job.stored.(spec := job.spec);
              && ok == (Upcoming(old(slots)).ok && ForgetController.UpdateCronJob(t.cluster, job.stored, sent).Some?)
              && Now() == if ok then t.(cluster := ForgetController.UpdateCronJob(t.cluster, job.stored, sent).value) else t
    {
      ok := Await();
      if !ok { return; }
      var updated := ForgetController.UpdateCronJob(cluster, job.stored, job.stored.(spec := job.spec));
      if updated.None? { return false; }
      cluster := updated.value;
    }
  }

  // ----- the controller -----

  /** The CronJob was placed; there is no schedule; the repository is missing and is to be waited for; or something failed. */
  datatype Result = Placed | Gone | Requeue | Error

  /** The first call succeeds and finds no schedule. */
  predicate ScheduleMissing(w: World, name: string, parses: Parser) {
    Upcoming(w.slots).ok && name !in Turn(w, parses).cluster.schedules
  }

  /** The first two calls succeed and find the schedule, but not its repository. */
  predicate RepositoryMissing(w: World, name: string, parses: Parser) {
    var t := Turn(w, parses);
    && Upcoming(w.slots).ok && name in t.cluster.schedules
    && Upcoming(t.slots).ok && t.cluster.schedules[name].spec.repository !in Turn(t, parses).cluster.repos
  }

  /** A call that was made: the cluster that it met, what it was, and whether it succeeded. */
  datatype Made = Made(cluster: Cluster, pc: Pc, ok: bool)

  function Trace(w: World, pc: Pc, parses: Parser): seq<Made>
    decreases Rank(pc)
  {
    if Ended(pc) then []
    else
      var t, ok := Turn(w, parses), Upcoming(w.slots).ok;
      CallDescends(t.cluster, pc, ok);
      var (d, pc') := Call(t.cluster, pc, ok);
      [Made(t.cluster, pc, ok)] + Trace(t.(cluster := d), pc', parses)
  }

  predicate Holds(c: Cluster, s: Schedule) {
    s.name in c.schedules && c.schedules[s.name] == s
  }

  predicate ControlledByAnother(s: Schedule, repo: Repository) {
    s.controller.Some? && (s.controller.value.kind != "restic.zhulik.wtf/Repository" || s.controller.value.name != repo.name)
  }

  /** The call failed or was refused, or the schedule has another controller. */
  predicate Failed(m: Made) {
    !m.ok ||
    match m.pc
    case DefaultStatus(s, repo) => !Holds(m.cluster, s) || ControlledByAnother(s, repo)
    case SetMetadata(s, _) => !Holds(m.cluster, s)
    case StoreStatus(s, _) => !Holds(m.cluster, s)
    case CreateJob(s, _) => "forget-" + s.name in m.cluster.cronJobs
    case UpdateJob(_, _, read) => read.name !in m.cluster.cronJobs || m.cluster.cronJobs[read.name] != read
    case _ => false
  }

  predicate Missing(m: Made) {
    m.ok &&
    match m.pc
    case GetSchedule(name) => name !in m.cluster.schedules
    case GetRepo(s) => s.spec.repository !in m.cluster.repos
    case _ => false
  }

  lemma CallEnds(c: Cluster, pc: Pc, ok: bool)
    requires !Ended(pc)
    ensures var m, pc' := Made(c, pc, ok), Call(c, pc, ok).1;
            && (pc'.Idle? <==> Failed(m) || Missing(m)) && !(Failed(m) && Missing(m))
  {
    hide WithCreated, BuildSpec;
    if pc.CreateJob? { assert pc.schedule.JobName() == "forget-" + pc.schedule.name; }
  }

  /** A reconcile does not get to its end exactly if one of its calls fails or finds something missing, and not both. */
  lemma {:induction false} EndMeans(w: World, pc: Pc, parses: Parser)
    requires !Ended(pc)
    ensures var trace := Trace(w, pc, parses);
            && (!Drive(w, pc, parses).1.Done? <==> (exists m :: m in trace && Failed(m)) || (exists m :: m in trace && Missing(m)))
            && !((exists m :: m in trace && Failed(m)) && (exists m :: m in trace && Missing(m)))
    decreases Rank(pc)
  {
    hide Call, Turn, Failed, Missing;
    var t, ok := Turn(w, parses), Upcoming(w.slots).ok;
    var (d, pc') := Call(t.cluster, pc, ok);
    CallDescends(t.cluster, pc, ok);
    CallEnds(t.cluster, pc, ok);
    var rest := Trace(t.(cluster := d), pc', parses);
    assert Trace(w, pc, parses) == [Made(t.cluster, pc, ok)] + rest;
    if !Ended(pc') { EndMeans(t.(cluster := d), pc', parses); }
  }

  /** Later calls find nothing missing. */
  lemma {:induction false} NothingMissing(w: World, pc: Pc, parses: Parser)
    requires !pc.GetSchedule? && !pc.GetRepo?
    ensures forall m :: m in Trace(w, pc, parses) ==> !Missing(m)
    decreases Rank(pc)
  {
    hide Turn, WithCreated, BuildSpec;
    if !Ended(pc) {
      var t, ok := Turn(w, parses), Upcoming(w.slots).ok;
      var (d, pc') := Call(t.cluster, pc, ok);
      CallDescends(t.cluster, pc, ok);
      assert Trace(w, pc, parses) == [Made(t.cluster, pc, ok)] + Trace(t.(cluster := d), pc', parses);
      NothingMissing(t.(cluster := d), pc', parses);
    }
  }

  /** One reconcile: what each way of not placing the CronJob means. */
  lemma ReconcileMeans(w: World, name: string, parses: Parser)
    ensures var failed := exists m :: m in Trace(w, ForgetController.GetSchedule(name), parses) && Failed(m);
            && (Drive(w, ForgetController.GetSchedule(name), parses).1.Done? <==>
                  !failed && !ScheduleMissing(w, name, parses) && !RepositoryMissing(w, name, parses))
            && (failed ==> !ScheduleMissing(w, name, parses) && !RepositoryMissing(w, name, parses))
  {
    hide Turn, Failed, Drive, AfterGetRepo;
    var pc := ForgetController.GetSchedule(name);
    EndMeans(w, pc, parses);
    var t, ok := Turn(w, parses), Upcoming(w.slots).ok;
    var first := Made(t.cluster, pc, ok);
    if ok && name in t.cluster.schedules {
      var s := t.cluster.schedules[name];
      Same(t);
      assert Trace(w, pc, parses) == [first] + Trace(t, GetRepo(s), parses);
      var u, ok' := Turn(t, parses), Upcoming(t.slots).ok;
      var second := Made(u.cluster, GetRepo(s), ok');
      Same(u);
      if ok' && s.spec.repository in u.cluster.repos {
        var pc' := AfterGetRepo(s, u.cluster.repos[s.spec.repository]);
        assert Trace(t, GetRepo(s), parses) == [second] + Trace(u, pc', parses);
        LaterCall(s, u.cluster.repos[s.spec.repository]);
        NothingMissing(u, pc', parses);
      } else {
        assert Trace(t, GetRepo(s), parses) == [second];
        assert second in Trace(w, pc, parses);
      }
    } else {
      assert Trace(w, pc, parses) == [first];
      assert first in Trace(w, pc, parses);
    }
  }

  lemma LaterCall(s: Schedule, repo: Repository)
    ensures !AfterGetRepo(s, repo).GetSchedule? && !AfterGetRepo(s, repo).GetRepo?
  {
  }

  class Reconciler {
    const client: Client

    constructor (client: Client)
      ensures this.client == client
    {
      this.client := client;
    }

    /** The CronJob with the script that the template renders. */
    method BuildJob(schedule: ScheduleObject, repo: Repository) returns (job: CronJob)
      ensures job == ForgetJob(schedule.Value(), repo)
    {
      var s := schedule.Value();
      var args := ForgetScript.ForgetResticArgs(s.spec);
      job := CronJob(s.JobName(), s.uid, repo.name, CronJobSpec(s.spec.schedule, repo.url, args, repo.OperatorSecretName()));
    }

    method CreateForgetJob(schedule: ScheduleObject, repo: Repository) returns (ok: bool)
      requires schedule.Value() == schedule.stored
      modifies client, schedule
      ensures var end := Drive(old(client.Now()), CreateJob(old(schedule.Value()), repo), client.parses);
              client.Now() == end.0 && (ok <==> end.1.Done?)
    {
      hide Drive, Turn, BuildSpec, WithCreated;
      ghost var s := schedule.Value();
      CallCreateJob(client.Now(), s, repo, client.parses);
      var job := BuildJob(schedule, repo);
      ok := client.CreateCronJob(job);
      if !ok { return; }
      schedule.SetCreatedCondition();
      CallStoreStatus(client.Now(), s, repo, client.parses);
      ok := client.UpdateStatus(schedule);
    }

    method UpdateForgetJob(existing: CronJobObject, schedule: ScheduleObject, repo: Repository) returns (ok: bool)
      requires schedule.Value() == schedule.stored && existing.spec == existing.stored.spec
      modifies client, existing
      ensures var end := Drive(old(client.Now()), UpdateJob(schedule.Value(), repo, old(existing.stored)), client.parses);
              client.Now() == end.0 && (ok <==> end.1.Done?)
    {
      hide Drive, Turn, BuildSpec;
      CallUpdateJob(client.Now(), schedule.Value(), repo, existing.stored, client.parses);
      var job := BuildJob(schedule, repo);
      existing.spec := job.spec;
      ok := client.UpdateCronJob(existing);
    }

    /** Stores the default status, then the owner. */
    method Register(schedule: ScheduleObject, repo: Repository) returns (ok: bool)
      requires schedule.Value() == schedule.stored
      modifies client, schedule
      ensures var end := Drive(old(client.Now()), AfterGetRepo(old(schedule.Value()), repo), client.parses);
              if ok then schedule.Value() == schedule.stored && Drive(client.Now(), ForgetController.GetCronJob(schedule.Value(), repo), client.parses) == end
              else client.Now() == end.0 && !end.1.Done?
    {
      hide Drive, Turn, UpdateSchedule, UpdateScheduleStatus;
      ghost var s := schedule.Value();
      CallDefaultStatus(client.Now(), s, repo, client.parses);
      var changed := schedule.SetDefaultConditions();
      if !changed { return true; }
      ok := client.UpdateStatus(schedule);
      if !ok { return; }
      ok := schedule.SetControllerReference(repo);
      if !ok { return; }
      schedule.SetLabel();
      CallSetMetadata(client.Now(), WithDefaults(s), repo, client.parses);
      ok := client.UpdateSchedule(schedule);
    }

    /**
      One reconcile is one run of the machine, whatever the others do and wherever a call fails. It reports an error exactly
      when a call failed or was refused or the schedule has another controller, asks to be repeated exactly when the repository
      was not there, and is over exactly when the schedule was not there.
     */
    method Reconcile(name: string) returns (result: Result)
      modifies client
      ensures var end := Drive(old(client.Now()), ForgetController.GetSchedule(name), client.parses);
              client.Now() == end.0 && (result == Placed <==> end.1.Done?)
      ensures result == Gone <==> ScheduleMissing(old(client.Now()), name, client.parses)
      ensures result == Requeue <==> RepositoryMissing(old(client.Now()), name, client.parses)
      ensures result == Error <==>
              exists m :: m in Trace(old(client.Now()), ForgetController.GetSchedule(name), client.parses) && Failed(m)
    {
      hide Drive, Turn, AfterGetRepo, Trace, Failed;
      ReconcileMeans(client.Now(), name, client.parses);
      CallGetSchedule(client.Now(), name, client.parses);
      var ok, schedule := client.GetSchedule(name);
      if schedule == null { return if ok then Gone else Error; }
      ghost var s := schedule.Value();
      CallGetRepo(client.Now(), s, client.parses);
      var found;
      ok, found := client.GetRepository(schedule.stored.spec.repository);
      if !ok { return Error; }
      if found.None? { return Requeue; }
      var repo := found.value;
      ok := Register(schedule, repo);
      if !ok { return Error; }
      CallGetCronJob(client.Now(), schedule.Value(), repo, client.parses);
      var existing;
      ok, existing := client.GetCronJob(schedule.Value().JobName());
      if !ok { return Error; }
      if existing == null {
        ok := CreateForgetJob(schedule, repo);
      } else {
        ok := UpdateForgetJob(existing, schedule, repo);
      }
      return if ok then Placed else Error;
    }
  }

  // ----- the calls of the machine, one by one -----

  lemma Unroll(w: World, pc: Pc, parses: Parser)
    requires !Ended(pc)
    ensures var t := Turn(w, parses);
            var next := Call(t.cluster, pc, Upcoming(w.slots).ok);
            && Drive(w, pc, parses) == Drive(t.(cluster := next.0), next.1, parses)
            && (Ended(next.1) ==> Drive(w, pc, parses) == (t.(cluster := next.0), next.1))
  {
    hide Call, Turn;
  }

  lemma Same(w: World)
    ensures w.(cluster := w.cluster) == w
  {
  }

  lemma CallGetSchedule(w: World, name: string, parses: Parser)
    ensures var t := Turn(w, parses);
            Drive(w, ForgetController.GetSchedule(name), parses) ==
            if Upcoming(w.slots).ok && name in t.cluster.schedules then Drive(t, GetRepo(t.cluster.schedules[name]), parses) else (t, Idle)
  {
    hide Drive, Turn;
    Unroll(w, ForgetController.GetSchedule(name), parses);
    Same(Turn(w, parses));
  }

  lemma CallGetRepo(w: World, s: Schedule, parses: Parser)
    ensures var t := Turn(w, parses);
            Drive(w, GetRepo(s), parses) ==
            if Upcoming(w.slots).ok && s.spec.repository in t.cluster.repos
            then Drive(t, AfterGetRepo(s, t.cluster.repos[s.spec.repository]), parses) else (t, Idle)
  {
    hide Drive, Turn, AfterGetRepo;
    Unroll(w, GetRepo(s), parses);
    Same(Turn(w, parses));
  }

  lemma CallDefaultStatus(w: World, s: Schedule, repo: Repository, parses: Parser)
    ensures var t, l := Turn(w, parses), WithDefaults(s);
            Drive(w, DefaultStatus(s, repo), parses) ==
            if Upcoming(w.slots).ok && UpdateScheduleStatus(t.cluster, s, l).Some? then
              var u := t.(cluster := UpdateScheduleStatus(t.cluster, s, l).value);
              if OwnedByAnother(s, repo) then (u, Idle) else Drive(u, SetMetadata(l, repo), parses)
            else (t, Idle)
  {
    hide Drive, Turn;
    Unroll(w, DefaultStatus(s, repo), parses);
  }

  lemma CallSetMetadata(w: World, s: Schedule, repo: Repository, parses: Parser)
    ensures var t, l := Turn(w, parses), WithMetadata(s, repo);
            Drive(w, SetMetadata(s, repo), parses) ==
            if Upcoming(w.slots).ok && UpdateSchedule(t.cluster, s, l).Some?
            then Drive(t.(cluster := UpdateSchedule(t.cluster, s, l).value), ForgetController.GetCronJob(l, repo), parses) else (t, Idle)
  {
    hide Drive, Turn;
    Unroll(w, SetMetadata(s, repo), parses);
  }

  lemma CallGetCronJob(w: World, s: Schedule, repo: Repository, parses: Parser)
    ensures var t := Turn(w, parses);
            Drive(w, ForgetController.GetCronJob(s, repo), parses) ==
            if Upcoming(w.slots).ok then Drive(t, AfterGetCronJob(t.cluster, s, repo), parses) else (t, Idle)
  {
    hide Drive, Turn, AfterGetCronJob;
    Unroll(w, ForgetController.GetCronJob(s, repo), parses);
    Same(Turn(w, parses));
  }

  lemma CallCreateJob(w: World, s: Schedule, repo: Repository, parses: Parser)
    ensures var t, job := Turn(w, parses), ForgetJob(s, repo);
            Drive(w, CreateJob(s, repo), parses) ==
            if Upcoming(w.slots).ok && CreateCronJob(t.cluster, job).Some?
            then Drive(t.(cluster := CreateCronJob(t.cluster, job).value), StoreStatus(s, repo), parses) else (t, Idle)
  {
    hide Drive, Turn, BuildSpec;
    Unroll(w, CreateJob(s, repo), parses);
  }

  lemma CallStoreStatus(w: World, s: Schedule, repo: Repository, parses: Parser)
    ensures var t, l := Turn(w, parses), WithCreated(s);
            Drive(w, StoreStatus(s, repo), parses) ==
            if Upcoming(w.slots).ok && UpdateScheduleStatus(t.cluster, s, l).Some?
            then (t.(cluster := UpdateScheduleStatus(t.cluster, s, l).value), Done(l, repo)) else (t, Idle)
  {
    hide Drive, Turn, WithCreated;
    Unroll(w, StoreStatus(s, repo), parses);
  }

  lemma CallUpdateJob(w: World, s: Schedule, repo: Repository, read: CronJob, parses: Parser)
    ensures var t, sent := Turn(w, parses), read.(spec := BuildSpec(s, repo));
            Drive(w, UpdateJob(s, repo, read), parses) ==
            if Upcoming(w.slots).ok && UpdateCronJob(t.cluster, read, sent).Some?
            then (t.(cluster := UpdateCronJob(t.cluster, read, sent).value), Done(s, repo)) else (t, Idle)
  {
    hide Drive, Turn, BuildSpec;
    Unroll(w, UpdateJob(s, repo, read), parses);
  }

  // ----- a reconcile is part of a run -----

  lemma {:induction false} RunsOn(s: State, actions: seq<Action>, more: seq<Action>, parses: Parser)
    ensures Run(s, actions + more, parses) == Run(Run(s, actions, parses), more, parses)
    decreases |more|
  {
    if more == [] {
      assert actions + more == actions;
    } else {
      assert (actions + more)[..|actions + more| - 1] == actions + more[..|more| - 1];
      RunsOn(s, actions, more[..|more| - 1], parses);
    }
  }

  lemma RunOne(s: State, a: Action, parses: Parser)
    ensures Run(s, [a], parses) == Next(s, a, parses)
  {
    assert [a][..0] == [];
  }

  lemma {:induction false} DisturbIsRun(c: Cluster, pc: Pc, events: seq<Event>, parses: Parser) returns (run: seq<Action>)
    ensures Run(State(c, pc), run, parses) == State(Disturb(c, events, parses), pc)
    decreases |events|
  {
    if events == [] {
      run := [];
    } else {
      run := DisturbIsRun(c, pc, events[..|events| - 1], parses);
      var last := Others(events[|events| - 1]);
      assert (run + [last])[..|run|] == run;
      run := run + [last];
      hide Happen;
    }
  }

  lemma {:induction false} DriveIsRun(w: World, pc: Pc, parses: Parser) returns (run: seq<Action>)
    ensures var end := Drive(w, pc, parses); Run(State(w.cluster, pc), run, parses) == State(end.0.cluster, end.1)
    decreases Rank(pc)
  {
    if Ended(pc) {
      run := [];
    } else {
      var slot := Upcoming(w.slots);
      var t := Turn(w, parses);
      var next := Call(t.cluster, pc, slot.ok);
      CallDescends(t.cluster, pc, slot.ok);
      hide Call, Run, Disturb;
      var start := State(w.cluster, pc);
      var before := DisturbIsRun(w.cluster, pc, slot.before, parses);
      var rest := DriveIsRun(t.(cluster := next.0), next.1, parses);
      var call := [MakeCall(slot.ok)];
      RunOne(State(t.cluster, pc), MakeCall(slot.ok), parses);
      RunsOn(start, before, call, parses);
      RunsOn(start, before + call, rest, parses);
      run := before + call + rest;
    }
  }

  /** So every reconcile takes a reachable state to a reachable state. */
  lemma ReconcileIsReachable(w: World, name: string, parses: Parser)
    requires Reachable(State(w.cluster, Idle), parses)
    ensures var end := Drive(w, ForgetController.GetSchedule(name), parses); Reachable(State(end.0.cluster, end.1), parses)
  {
    var actions :| Run(INITIAL, actions, parses) == State(w.cluster, Idle);
    var start := [Start(name)];
    var run := DriveIsRun(w, ForgetController.GetSchedule(name), parses);
    assert start[..0] == [];
    hide Drive;
    RunsOn(INITIAL, actions, start, parses);
    RunsOn(INITIAL, actions + start, run, parses);
  }
}
