/**
  The forget-schedule controller as a machine that makes one API call per step, with everybody else acting in between,
  and what it guarantees over every run.
 */
module ForgetController {
  import opened Options
  import opened Conditions
  import opened Resources
  import opened ForgetSpecs
  import opened ForgetScript
  import opened Admission

  // ----- objects -----

  datatype Schedule = Schedule(name: string, uid: nat, spec: ForgetSpec, controller: Option<Owner>,
                               repositoryLabel: Option<string>, conditions: seq<Condition>)
  {
    function JobName(): string { "forget-" + name }
    predicate IsCreated() { HasTrue(conditions, CREATED) }
  }

  /** The cron expression; and of the one container: repository URL, arguments and the secret mounted. */
  datatype CronJobSpec = CronJobSpec(schedule: string, url: string, args: seq<string>, secret: string)

  datatype CronJob = CronJob(name: string, owner: nat, repository: string, spec: CronJobSpec)

  /**
    History: `started` are the schedules that the controller has created a CronJob for, `touched` the CronJobs that
    somebody else has changed or removed since the controller last wrote them.
   */
  datatype Cluster = Cluster(schedules: map<string, Schedule>, repos: map<string, Repository>, cronJobs: map<string, CronJob>,
                             nextUid: nat, started: set<nat>, touched: set<string>)

  const EMPTY := Cluster(map[], map[], map[], 0, {}, {})

  function BuildSpec(s: Schedule, repo: Repository): CronJobSpec {
    CronJobSpec(s.spec.schedule, repo.url, [Script(s.spec)], repo.OperatorSecretName())
  }

  function ForgetJob(s: Schedule, repo: Repository): CronJob {
    CronJob(s.JobName(), s.uid, repo.name, BuildSpec(s, repo))
  }

  const NOT_CREATED := [Condition(CREATED, ConditionFalse)]

  function WithDefaults(s: Schedule): Schedule {
    s.(conditions := if s.conditions == [] then NOT_CREATED else s.conditions)
  }

  function WithMetadata(s: Schedule, repo: Repository): Schedule {
    s.(controller := Some(ReferenceTo(repo)), repositoryLabel := Some(s.spec.repository))
  }

  function WithCreated(s: Schedule): Schedule {
    s.(conditions := UpdateCondition(s.conditions, CREATED, Condition(CREATED, ConditionTrue)).0)
  }

  predicate OwnedByAnother(s: Schedule, repo: Repository) {
    s.controller.Some? && !RefersTo(s.controller.value, repo)
  }

  // ----- the API server: updates carry the object they were computed from -----

  predicate Unchanged(c: Cluster, read: Schedule) {
    read.name in c.schedules && c.schedules[read.name] == read
  }

  function UpdateSchedule(c: Cluster, read: Schedule, sent: Schedule): Option<Cluster> {
    if Unchanged(c, read) then
      Some(c.(schedules := c.schedules[read.name := read.(controller := sent.controller, repositoryLabel := sent.repositoryLabel, spec := sent.spec)]))
    else None
  }

  function UpdateScheduleStatus(c: Cluster, read: Schedule, sent: Schedule): Option<Cluster> {
    if Unchanged(c, read) then Some(c.(schedules := c.schedules[read.name := read.(conditions := sent.conditions)])) else None
  }

  function CreateCronJob(c: Cluster, job: CronJob): Option<Cluster> {
    if job.name in c.cronJobs then None
    else Some(c.(cronJobs := c.cronJobs[job.name := job], started := c.started + {job.owner}, touched := c.touched - {job.name}))
  }

  function UpdateCronJob(c: Cluster, read: CronJob, sent: CronJob): Option<Cluster> {
    if read.name in c.cronJobs && c.cronJobs[read.name] == read && sent.name == read.name then
      Some(c.(cronJobs := c.cronJobs[read.name := sent], touched := c.touched - {read.name}))
    else None
  }

  // ----- the controller -----

  /** Done is where a reconcile that found its repository ends without an error. */
  datatype Pc =
    | Idle
    | GetSchedule(name: string)
    | GetRepo(schedule: Schedule)
    | DefaultStatus(schedule: Schedule, repo: Repository)
    | SetMetadata(schedule: Schedule, repo: Repository)
    | GetCronJob(schedule: Schedule, repo: Repository)
    | CreateJob(schedule: Schedule, repo: Repository)
    | StoreStatus(schedule: Schedule, repo: Repository)
    | UpdateJob(schedule: Schedule, repo: Repository, read: CronJob)
    | Done(schedule: Schedule, repo: Repository)

  function AfterGetRepo(s: Schedule, repo: Repository): Pc {
    if s.conditions == [] then DefaultStatus(s, repo) else GetCronJob(s, repo)
  }

  function AfterGetCronJob(c: Cluster, s: Schedule, repo: Repository): Pc {
    if s.JobName() in c.cronJobs then UpdateJob(s, repo, c.cronJobs[s.JobName()]) else CreateJob(s, repo)
  }

  function Call(c: Cluster, pc: Pc, ok: bool): (Cluster, Pc) {
    if !ok then (c, Idle)
    else match pc
      case Idle => (c, Idle)
      case Done(_, _) => (c, pc)
      case GetSchedule(name) => (c, if name in c.schedules then GetRepo(c.schedules[name]) else Idle)
      case GetRepo(s) => (c, if s.spec.repository in c.repos then AfterGetRepo(s, c.repos[s.spec.repository]) else Idle)
      case DefaultStatus(s, repo) =>
        (match UpdateScheduleStatus(c, s, WithDefaults(s))
         case Some(c') => (c', if OwnedByAnother(s, repo) then Idle else SetMetadata(WithDefaults(s), repo))
         case None => (c, Idle))
      case SetMetadata(s, repo) =>
        (match UpdateSchedule(c, s, WithMetadata(s, repo))
         case Some(c') => (c', GetCronJob(WithMetadata(s, repo), repo))
         case None => (c, Idle))
      case GetCronJob(s, repo) => (c, AfterGetCronJob(c, s, repo))
      case CreateJob(s, repo) =>
        (match CreateCronJob(c, ForgetJob(s, repo))
         case Some(c') => (c', StoreStatus(s, repo))
         case None => (c, Idle))
      case StoreStatus(s, repo) =>
        (match UpdateScheduleStatus(c, s, WithCreated(s))
         case Some(c') => (c', Done(WithCreated(s), repo))
         case None => (c, Idle))
      case UpdateJob(s, repo, read) =>
        (match UpdateCronJob(c, read, read.(spec := BuildSpec(s, repo)))
         case Some(c') => (c', Done(s, repo))
         case None => (c, Idle))
  }

  predicate Ended(pc: Pc) {
    pc.Idle? || pc.Done?
  }

  function Rank(pc: Pc): nat {
    match pc
    case Idle => 0
    case Done(_, _) => 0
    case GetSchedule(_) => 7
    case GetRepo(_) => 6
    case DefaultStatus(_, _) => 5
    case SetMetadata(_, _) => 4
    case GetCronJob(_, _) => 3
    case CreateJob(_, _) => 2
    case StoreStatus(_, _) => 1
    case UpdateJob(_, _, _) => 1
  }

  lemma CallDescends(c: Cluster, pc: Pc, ok: bool)
    requires !Ended(pc)
    ensures Rank(Call(c, pc, ok).1) < Rank(pc)
  {
    hide WithCreated, BuildSpec;
  }

  // ----- everybody else -----

  datatype Event =
    | CreateSchedule(name: string, spec: ForgetSpec, controller: Option<Owner>)
    | EditSchedule(name: string, spec: ForgetSpec)
    | DeleteSchedule(name: string)
    | PutRepository(repo: Repository)
    | RemoveRepository(name: string)
    | PutCronJob(job: CronJob)
    | RemoveCronJob(name: string)

  type Parser = string -> bool

  predicate Admits(spec: ForgetSpec, parses: Parser) {
    SchemaValid(spec) && Validate(spec, parses) == Admitted
  }

  function Happen(c: Cluster, e: Event, parses: Parser): Cluster {
    match e
    case CreateSchedule(name, spec, controller) =>
      if name in c.schedules || !Admits(spec, parses) then c
      else c.(schedules := c.schedules[name := Schedule(name, c.nextUid, spec, controller, None, [])], nextUid := c.nextUid + 1)
    case EditSchedule(name, spec) =>
      if name !in c.schedules || !Admits(spec, parses) then c
      else c.(schedules := c.schedules[name := c.schedules[name].(spec := spec)])
    case DeleteSchedule(name) => c.(schedules := c.schedules - {name})
    case PutRepository(repo) => c.(repos := c.repos[repo.name := repo])
    case RemoveRepository(name) => c.(repos := c.repos - {name})
    case PutCronJob(job) => c.(cronJobs := c.cronJobs[job.name := job], touched := c.touched + {job.name})
    case RemoveCronJob(name) => c.(cronJobs := c.cronJobs - {name}, touched := c.touched + {name})
  }

  datatype State = State(cluster: Cluster, pc: Pc)

  datatype Action = Start(name: string) | MakeCall(ok: bool) | Crash | Others(event: Event)

  const INITIAL := State(EMPTY, Idle)

  function Next(s: State, a: Action, parses: Parser): State {
    match a
    case Start(name) => if Ended(s.pc) then s.(pc := GetSchedule(name)) else s
    case MakeCall(ok) => if Ended(s.pc) then s else var (c, pc) := Call(s.cluster, s.pc, ok); State(c, pc)
    case Crash => s.(pc := Idle)
    case Others(e) => s.(cluster := Happen(s.cluster, e, parses))
  }

  function Run(s: State, actions: seq<Action>, parses: Parser): State
    decreases |actions|
  {
    if actions == [] then s else Next(Run(s, actions[..|actions| - 1], parses), actions[|actions| - 1], parses)
  }

  ghost predicate Reachable(s: State, parses: Parser) {
    exists actions :: Run(INITIAL, actions, parses) == s
  }

  // ----- the invariant -----

  predicate Shape(cs: seq<Condition>) {
    cs == [] || cs == NOT_CREATED || cs == [Condition(CREATED, ConditionTrue)]
  }

  lemma ShapeCreated(s: Schedule)
    requires Shape(s.conditions)
    ensures s.IsCreated() <==> s.conditions == [Condition(CREATED, ConditionTrue)]
    ensures s.conditions != [] ==> WithCreated(s).conditions == [Condition(CREATED, ConditionTrue)]
  {
    HasTrueMeans(s.conditions, CREATED);
    if s.conditions != [] {
      assert s.conditions[1..] == [];
      assert Without(s.conditions, CREATED) == [];
    }
  }

  predicate ScheduleOk(started: set<nat>, s: Schedule, parses: Parser) {
    Shape(s.conditions) && Admits(s.spec, parses) && (s.conditions == [Condition(CREATED, ConditionTrue)] ==> s.uid in started)
  }

  /** The CronJob of the schedule is the one built from it, unless somebody else has had a hand in it since. */
  predicate Converged(c: Cluster, s: Schedule, repo: Repository) {
    s.JobName() !in c.touched ==> s.JobName() in c.cronJobs && c.cronJobs[s.JobName()].spec == BuildSpec(s, repo)
  }

  predicate PcOk(c: Cluster, pc: Pc, parses: Parser) {
    && (!pc.Idle? && !pc.GetSchedule? ==> ScheduleOk(c.started, pc.schedule, parses))
    && (pc.DefaultStatus? ==> pc.schedule.conditions == [])
    && (pc.SetMetadata? || pc.GetCronJob? || pc.CreateJob? || pc.StoreStatus? || pc.UpdateJob? ==> pc.schedule.conditions != [])
    && (pc.UpdateJob? ==> pc.read.name == pc.schedule.JobName())
    && (pc.StoreStatus? ==> pc.schedule.uid in c.started)
    && (pc.StoreStatus? || pc.Done? ==> Converged(c, pc.schedule, pc.repo))
  }

  predicate ClusterOk(c: Cluster, parses: Parser) {
    && (forall n :: n in c.schedules ==> c.schedules[n].name == n && ScheduleOk(c.started, c.schedules[n], parses))
    && (forall n :: n in c.cronJobs ==> c.cronJobs[n].name == n)
  }

  predicate Inv(s: State, parses: Parser) {
    ClusterOk(s.cluster, parses) && PcOk(s.cluster, s.pc, parses)
  }

  lemma HappenKeepsInv(s: State, e: Event, parses: Parser)
    requires Inv(s, parses)
    ensures Inv(s.(cluster := Happen(s.cluster, e, parses)), parses)
  {
    hide Admits, BuildSpec;
  }

  lemma CreatedConverged(s: Schedule, repo: Repository)
    ensures forall d: Cluster :: Converged(d, WithCreated(s), repo) == Converged(d, s, repo)
  {
  }

  /** A schedule is stored with another status or another owner. */
  lemma StoredKeepsCluster(c: Cluster, q: Schedule, parses: Parser)
    requires ClusterOk(c, parses) && ScheduleOk(c.started, q, parses)
    ensures ClusterOk(c.(schedules := c.schedules[q.name := q]), parses)
  {
    hide ScheduleOk;
  }

  lemma StoreStatusKeepsInv(c: Cluster, s: Schedule, repo: Repository, parses: Parser)
    requires Inv(State(c, StoreStatus(s, repo)), parses)
    ensures var q := WithCreated(s); Inv(State(c.(schedules := c.schedules[q.name := q]), Done(q, repo)), parses)
  {
    var q := WithCreated(s);
    ShapeCreated(s);
    CreatedConverged(s, repo);
    assert q == s.(conditions := q.conditions);
    assert ScheduleOk(c.started, q, parses);
    hide Admits, WithCreated, ClusterOk, ScheduleOk, BuildSpec;
    StoredKeepsCluster(c, q, parses);
    assert Converged(c.(schedules := c.schedules[q.name := q]), s, repo);
  }

  lemma CreateJobKeepsInv(c: Cluster, s: Schedule, repo: Repository, parses: Parser)
    requires Inv(State(c, CreateJob(s, repo)), parses) && s.JobName() !in c.cronJobs
    ensures Inv(State(CreateCronJob(c, ForgetJob(s, repo)).value, StoreStatus(s, repo)), parses)
  {
    hide Admits, BuildSpec, Shape;
  }

  lemma UpdateJobKeepsInv(c: Cluster, s: Schedule, repo: Repository, read: CronJob, parses: Parser)
    requires Inv(State(c, UpdateJob(s, repo, read)), parses)
    ensures var job := read.(spec := BuildSpec(s, repo));
            Inv(State(c.(cronJobs := c.cronJobs[job.name := job], touched := c.touched - {job.name}), Done(s, repo)), parses)
  {
    hide ScheduleOk, BuildSpec;
  }

  lemma DefaultStatusKeepsInv(c: Cluster, s: Schedule, repo: Repository, parses: Parser)
    requires Inv(State(c, DefaultStatus(s, repo)), parses)
    ensures var q := WithDefaults(s);
            && Inv(State(c.(schedules := c.schedules[q.name := q]), Idle), parses)
            && Inv(State(c.(schedules := c.schedules[q.name := q]), SetMetadata(q, repo)), parses)
  {
    StoredKeepsCluster(c, WithDefaults(s), parses);
    hide Admits, ClusterOk;
  }

  lemma SetMetadataKeepsInv(c: Cluster, s: Schedule, repo: Repository, parses: Parser)
    requires Inv(State(c, SetMetadata(s, repo)), parses)
    ensures var q := WithMetadata(s, repo);
            Inv(State(c.(schedules := c.schedules[q.name := q]), GetCronJob(q, repo)), parses)
  {
    StoredKeepsCluster(c, WithMetadata(s, repo), parses);
    hide Admits, ClusterOk, Shape;
  }

  lemma ReadKeepsInv(c: Cluster, pc: Pc, parses: Parser)
    requires Inv(State(c, pc), parses) && (pc.Idle? || pc.GetSchedule? || pc.GetRepo? || pc.GetCronJob? || pc.Done?)
    ensures Call(c, pc, true).0 == c && Inv(State(c, Call(c, pc, true).1), parses)
  {
    hide ScheduleOk, BuildSpec;
  }

  lemma CallKeepsInv(s: State, ok: bool, parses: Parser)
    requires Inv(s, parses)
    ensures Inv(State(Call(s.cluster, s.pc, ok).0, Call(s.cluster, s.pc, ok).1), parses)
  {
    var c := s.cluster;
    assert ClusterOk(c, parses) && Inv(State(c, Idle), parses);
    hide ClusterOk, PcOk, BuildSpec, WithCreated;
    match s.pc
    case DefaultStatus(q, repo) => DefaultStatusKeepsInv(c, q, repo, parses);
    case SetMetadata(q, repo) => SetMetadataKeepsInv(c, q, repo, parses);
    case CreateJob(q, repo) => if q.JobName() !in c.cronJobs { CreateJobKeepsInv(c, q, repo, parses); }
    case StoreStatus(q, repo) =>
      StoreStatusKeepsInv(c, q, repo, parses);
      CreatedIsSame(q);
    case UpdateJob(q, repo, read) => UpdateJobKeepsInv(c, q, repo, read, parses);
    case _ => ReadKeepsInv(c, s.pc, parses);
  }

  lemma CreatedIsSame(s: Schedule)
    ensures WithCreated(s) == s.(conditions := WithCreated(s).conditions)
  {
  }

  lemma NextKeepsInv(s: State, a: Action, parses: Parser)
    requires Inv(s, parses)
    ensures Inv(Next(s, a, parses), parses)
  {
    match a
    case Others(e) => HappenKeepsInv(s, e, parses);
    case MakeCall(ok) => CallKeepsInv(s, ok, parses);
    case _ =>
  }

  lemma {:induction false} RunKeepsInv(s: State, actions: seq<Action>, parses: Parser)
    requires Inv(s, parses)
    ensures Inv(Run(s, actions, parses), parses)
    decreases |actions|
  {
    hide Inv;
    if actions != [] {
      RunKeepsInv(s, actions[..|actions| - 1], parses);
      NextKeepsInv(Run(s, actions[..|actions| - 1], parses), actions[|actions| - 1], parses);
    }
  }

  lemma ReachableInv(s: State, parses: Parser)
    requires Reachable(s, parses)
    ensures Inv(s, parses)
  {
    var actions :| Run(INITIAL, actions, parses) == s;
    RunKeepsInv(INITIAL, actions, parses);
  }
}
