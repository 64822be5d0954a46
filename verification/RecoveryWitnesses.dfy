/** Reachable states in which a reconcile does not settle, or two reconciles do not recover. */
module RecoveryWitnesses {
  import opened Options
  import opened Conditions
  import opened Resources
  import opened ApiServer
  import opened Operator
  import opened Invariant
  import opened Witnesses
  import opened WorkWitnesses
  import E = Environment
  import K = KeyController
  import R = RepositoryController
  import KeyQuiescence
  import KeyRecovery
  import KeyCreation
  import StuckKeys
  import Forget = ForgetController
  import ForgetGuarantees
  import opened ForgetSpecs
  import Admission

  const FOREIGN_KEY := KEY.(controller := Some(STRANGER))
  const FOREIGN := READY.(keys := map["key" := FOREIGN_KEY], nextUid := 2)

  /** A key that was created under another controller's name. */
  lemma ForeignKeyDoesNotSettle()
    ensures Reachable(State(FOREIGN, K.Idle, R.Idle)) && KeyQuiescence.ResumesUnregistered(FOREIGN, "key")
  {
    ReadyIsReachable();
    ConcreteConditions();
    hide Reachable, HasTrue;
    EventIsReachable(READY, E.CreateKey("key", KEY.spec, Some(STRANGER), false));
    assert E.Happen(READY, None, None, E.CreateKey("key", KEY.spec, Some(STRANGER), false)) == FOREIGN;
    assert FOREIGN_KEY.SecretName() == "restic-key-repo-key";
  }

  const SQUATTED := NEW.(secrets := map["operator-key-repo" := Secret([])])

  /** A secret of the operator's name that nobody owns keeps a repository from ever being initialised. */
  lemma SquattedSecretBlocks()
    ensures Reachable(State(SQUATTED, K.Idle, R.Idle)) && "repo" in SQUATTED.repos
    ensures !SecretOwned(SQUATTED.secrets, SQUATTED.repos["repo"].OperatorSecretName(), 0)
    ensures SQUATTED.repos["repo"].OperatorSecretName() in SQUATTED.secrets
  {
    assert Run(INITIAL, []) == INITIAL;
    hide Reachable;
    EventIsReachable(EMPTY, E.CreateRepository("repo", "url", false));
    assert E.Happen(EMPTY, None, None, E.CreateRepository("repo", "url", false)) == NEW;
    EventIsReachable(NEW, E.CreateSecret("operator-key-repo", []));
    assert E.Happen(NEW, None, None, E.CreateSecret("operator-key-repo", [])) == SQUATTED;
    assert REPO.OperatorSecretName() == "operator-key-repo";
  }

  lemma SpentIsReachable(s: State, writes: nat)
    requires Spent(s, writes)
    ensures Reachable(s)
  {
  }

  lemma JobFails(c: Cluster, j: nat) returns (d: Cluster)
    requires j in c.jobs && c.jobs[j].conditions == [] && Reachable(State(c, K.Idle, R.Idle))
    ensures Reachable(State(d, K.Idle, R.Idle)) && d == c.(jobs := d.jobs)
    ensures d.jobs == c.jobs[j := c.jobs[j].(conditions := [Condition(JOB_FAILED, ConditionTrue)], log := "")] && d.jobs[j].IsFailed()
  {
    ConcreteConditions();
    var e := E.FailKeyJob(j, [], "");
    EventIsReachable(c, e);
    assert [] + [] + [Condition(JOB_FAILED, ConditionTrue)] == [Condition(JOB_FAILED, ConditionTrue)];
    d := E.Fail(c, j, [], "");
    assert E.Happen(c, None, None, e) == d;
    HasTrueMeans([Condition(JOB_FAILED, ConditionTrue)], JOB_FAILED);
  }

  /** A key whose add job has failed is never Created: it is not marked Failed either. */
  lemma FailedAddSticks() returns (c: Cluster)
    ensures Reachable(State(c, K.Idle, R.Idle)) && KeyUnchanged(c, KEY_REGISTERED) && !KEY_REGISTERED.deleting
            && !KeyCreation.CanCreate(c, KEY_REGISTERED)
  {
    StartsToAdd();
    ConcreteConditions();
    SpentIsReachable(State(WITH_ADD_JOB, K.Idle, R.Idle), 4);
    hide Reachable, Spent, HasTrue, AddKeyJob;
    c := JobFails(WITH_ADD_JOB, 2);
    assert AddJobOf(c.jobs, 2, 1);
  }

  /** A key whose delete job has failed keeps the finalizer. */
  lemma FailedRemovalSticks() returns (c: Cluster)
    ensures Reachable(State(c, K.Idle, R.Idle)) && KeyUnchanged(c, KEY_DELETING) && KEY_DELETING.deleting
            && !KeyRecovery.CanDelete(c, KEY_DELETING)
  {
    RemovalBegins();
    SpentIsReachable(State(WITH_DELETE_JOB, K.Idle, R.Idle), 6);
    hide Reachable, Spent, HasTrue, AddKeyJob;
    c := JobFails(WITH_DELETE_JOB, 3);
    assert DeleteJobOf(c.jobs, 3, 1);
  }

  const TOO_EARLY := WITH_ADD_JOB.(keys := map["key" := KEY_REGISTERED.(deleting := true)])

  /** A registered key that is deleted while its add job is running: its ID will never be recorded, nor its finalizer dropped. */
  lemma EarlyDeletionSticks()
    ensures Reachable(State(TOO_EARLY, K.Idle, R.Idle))
    ensures StuckKeys.Stuck(State(TOO_EARLY, K.Idle, R.Idle), KEY_REGISTERED.(deleting := true))
    ensures AddJobOf(TOO_EARLY.jobs, 2, 1) && !TOO_EARLY.jobs[2].Finished()
    ensures !KeyRecovery.CanDelete(TOO_EARLY, KEY_REGISTERED.(deleting := true))
  {
    StartsToAdd();
    ConcreteConditions();
    SpentIsReachable(State(WITH_ADD_JOB, K.Idle, R.Idle), 4);
    hide Reachable, Spent, HasTrue;
    EventIsReachable(WITH_ADD_JOB, E.DeleteKey("key", false));
    assert WITH_ADD_JOB.keys["key" := KEY_REGISTERED.(deleting := true)] == TOO_EARLY.keys;
  }

  // ----- forget schedules -----

  const DAILY := ForgetSpec("0 0 * * *", "repo", false, 0, 1, 0, 0, 0, 0, 0)

  /** A schedule that was created under another controller's name. */
  lemma ForeignScheduleDoesNotSettle(parses: Forget.Parser) returns (c: Forget.Cluster)
    requires parses(DAILY.schedule)
    ensures Forget.Reachable(Forget.State(c, Forget.Idle), parses) && ForgetGuarantees.ResumesUnregistered(c, "daily")
  {
    var create := Forget.CreateSchedule("daily", DAILY, Some(STRANGER));
    var actions := [Forget.Others(Forget.PutRepository(REPO)), Forget.Others(create)];
    Admission.TurnedDownExactly(DAILY, parses);
    assert Forget.Admits(DAILY, parses);
    hide Forget.Admits;
    var c1 := Forget.EMPTY.(repos := map["repo" := REPO]);
    c := c1.(schedules := map["daily" := Forget.Schedule("daily", 0, DAILY, Some(STRANGER), None, [])], nextUid := 1);
    assert actions[..1] == [actions[0]] && actions[..1][..0] == [];
    assert Forget.Run(Forget.INITIAL, actions[..1], parses) == Forget.State(c1, Forget.Idle);
    assert Forget.Happen(c1, create, parses) == c;
    assert Forget.Run(Forget.INITIAL, actions, parses) == Forget.State(c, Forget.Idle);
  }

  lemma ForgetNext(s: Forget.State, a: Forget.Action, parses: Forget.Parser)
    requires Forget.Reachable(s, parses)
    ensures Forget.Reachable(Forget.Next(s, a, parses), parses)
  {
    var actions :| Forget.Run(Forget.INITIAL, actions, parses) == s;
    var more := actions + [a];
    assert more[..|more| - 1] == actions;
    assert Forget.Run(Forget.INITIAL, more, parses) == Forget.Next(s, a, parses);
  }

  lemma ForgetCall(c: Forget.Cluster, pc: Forget.Pc, d: Forget.Cluster, pc': Forget.Pc, parses: Forget.Parser)
    requires Forget.Reachable(Forget.State(c, pc), parses) && !Forget.Ended(pc) && Forget.Call(c, pc, true) == (d, pc')
    ensures Forget.Reachable(Forget.State(d, pc'), parses)
  {
    hide Forget.Reachable, Forget.Call;
    ForgetNext(Forget.State(c, pc), Forget.MakeCall(true), parses);
  }

  const SCHEDULED := Forget.Schedule("daily", 0, DAILY, None, None, [])
  const DEFAULTED := SCHEDULED.(conditions := Forget.NOT_CREATED)
  const REGISTERED := Forget.WithMetadata(DEFAULTED, REPO)

  /** A schedule that is about to be reconciled for the first time. */
  lemma ScheduleAppears(parses: Forget.Parser) returns (c: Forget.Cluster)
    requires parses(DAILY.schedule)
    ensures c == Forget.EMPTY.(repos := map["repo" := REPO], schedules := map["daily" := SCHEDULED], nextUid := 1)
    ensures Forget.Reachable(Forget.State(c, Forget.GetSchedule("daily")), parses)
  {
    var c1 := Forget.EMPTY.(repos := map["repo" := REPO]);
    c := c1.(schedules := map["daily" := SCHEDULED], nextUid := 1);
    assert Forget.Run(Forget.INITIAL, [], parses) == Forget.INITIAL;
    Admission.TurnedDownExactly(DAILY, parses);
    assert Forget.Admits(DAILY, parses);
    hide Forget.Admits, Forget.Reachable;
    ForgetNext(Forget.INITIAL, Forget.Others(Forget.PutRepository(REPO)), parses);
    assert Forget.Happen(Forget.EMPTY, Forget.PutRepository(REPO), parses) == c1;
    var create := Forget.CreateSchedule("daily", DAILY, None);
    ForgetNext(Forget.State(c1, Forget.Idle), Forget.Others(create), parses);
    assert Forget.Happen(c1, create, parses) == c;
    ForgetNext(Forget.State(c, Forget.Idle), Forget.Start("daily"), parses);
  }

  lemma ScheduleRegisters(c: Forget.Cluster, parses: Forget.Parser) returns (d: Forget.Cluster)
    requires Forget.Reachable(Forget.State(c, Forget.GetSchedule("daily")), parses)
    requires c.schedules == map["daily" := SCHEDULED] && c.repos == map["repo" := REPO] && c.cronJobs == map[]
    ensures Forget.Reachable(Forget.State(d, Forget.GetCronJob(REGISTERED, REPO)), parses)
    ensures d.schedules == map["daily" := REGISTERED] && d.cronJobs == map[]
  {
    hide Forget.Reachable;
    ForgetCall(c, Forget.GetSchedule("daily"), c, Forget.GetRepo(SCHEDULED), parses);
    ForgetCall(c, Forget.GetRepo(SCHEDULED), c, Forget.DefaultStatus(SCHEDULED, REPO), parses);
    var e := c.(schedules := map["daily" := DEFAULTED]);
    assert c.schedules["daily" := DEFAULTED] == e.schedules;
    assert Forget.Call(c, Forget.DefaultStatus(SCHEDULED, REPO), true) == (e, Forget.SetMetadata(DEFAULTED, REPO));
    ForgetCall(c, Forget.DefaultStatus(SCHEDULED, REPO), e, Forget.SetMetadata(DEFAULTED, REPO), parses);
    d := e.(schedules := map["daily" := REGISTERED]);
    assert e.schedules["daily" := REGISTERED] == d.schedules;
    assert Forget.Call(e, Forget.SetMetadata(DEFAULTED, REPO), true) == (d, Forget.GetCronJob(REGISTERED, REPO));
    ForgetCall(e, Forget.SetMetadata(DEFAULTED, REPO), d, Forget.GetCronJob(REGISTERED, REPO), parses);
  }

  /** A crash between the creation of the CronJob and the status strands the schedule. */
  lemma CrashStrandsSchedule(parses: Forget.Parser) returns (s: Forget.State)
    requires parses(DAILY.schedule)
    ensures Forget.Reachable(s, parses) && "daily" in s.cluster.schedules && ForgetGuarantees.Stranded(s, "daily")
  {
    var c := ScheduleAppears(parses);
    var d := ScheduleRegisters(c, parses);
    HasTrueMeans(Forget.NOT_CREATED, CREATED);
    var job := Forget.ForgetJob(REGISTERED, REPO);
    hide Forget.Reachable, Forget.BuildSpec, HasTrue;
    assert Forget.AfterGetCronJob(d, REGISTERED, REPO) == Forget.CreateJob(REGISTERED, REPO);
    ForgetCall(d, Forget.GetCronJob(REGISTERED, REPO), d, Forget.CreateJob(REGISTERED, REPO), parses);
    var e := Forget.CreateCronJob(d, job).value;
    ForgetCall(d, Forget.CreateJob(REGISTERED, REPO), e, Forget.StoreStatus(REGISTERED, REPO), parses);
    ForgetNext(Forget.State(e, Forget.StoreStatus(REGISTERED, REPO)), Forget.Crash, parses);
    s := Forget.State(e, Forget.Idle);
    assert REGISTERED.JobName() == "forget-" + "daily";
  }
}
