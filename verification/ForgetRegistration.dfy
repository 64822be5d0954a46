/** What registration writes to a forget schedule, and that it stays; what a reconcile leaves of the CronJobs. */
module ForgetRegistration {
  import opened Options
  import opened Conditions
  import opened Resources
  import opened ForgetScript
  import opened ForgetController
  import opened ForgetGuarantees
  import F = ForgetReconciler

  /** The schedule has the repository as its owner, and its label. */
  predicate RegisteredWith(s: Schedule, repo: Repository) {
    s.controller == Some(Owner("restic.zhulik.wtf/Repository", repo.name, repo.uid)) && s.repositoryLabel == Some(s.spec.repository)
  }

  // ----- an invariant of its own -----

  predicate Labelled(s: Schedule) {
    s.repositoryLabel.Some? ==>
      && s.conditions != [] && s.controller.Some?
      && s.controller.value.kind == "restic.zhulik.wtf/Repository" && s.controller.value.name == s.repositoryLabel.value
  }

  predicate LabelsOk(s: State) {
    && (forall m :: m in s.cluster.repos ==> s.cluster.repos[m].name == m)
    && (forall n :: n in s.cluster.schedules ==> s.cluster.schedules[n].uid < s.cluster.nextUid && Labelled(s.cluster.schedules[n]))
    && (!s.pc.Idle? && !s.pc.GetSchedule? ==> s.pc.schedule.uid < s.cluster.nextUid && Labelled(s.pc.schedule))
    && (s.pc.DefaultStatus? || s.pc.SetMetadata? ==>
          s.pc.schedule.repositoryLabel.None? && s.pc.repo.name == s.pc.schedule.spec.repository)
  }

  lemma HappenKeepsLabels(s: State, e: Event, parses: Parser)
    requires LabelsOk(s)
    ensures LabelsOk(s.(cluster := Happen(s.cluster, e, parses)))
  {
    hide Admits;
  }

  /** A call has a status to store. */
  lemma StoredHasStatus(s: State, parses: Parser)
    requires Inv(s, parses) && s.pc.StoreStatus?
    ensures var q := s.pc.schedule; WithCreated(q) == q.(conditions := WithCreated(q).conditions) && WithCreated(q).conditions != []
  {
    hide HasTrue, Admits, BuildSpec;
    ShapeCreated(s.pc.schedule);
  }

  lemma CallFacts(s: State, parses: Parser)
    requires Inv(s, parses)
    ensures s.pc.DefaultStatus? ==> s.pc.schedule.conditions == []
    ensures s.pc.SetMetadata? || s.pc.StoreStatus? ==> s.pc.schedule.conditions != []
    ensures forall n :: n in s.cluster.schedules ==> s.cluster.schedules[n].name == n
  {
    hide HasTrue, Admits, BuildSpec, Converged;
  }

  lemma CallKeepsLabels(s: State, ok: bool, parses: Parser)
    requires Inv(s, parses) && LabelsOk(s)
    ensures LabelsOk(State(Call(s.cluster, s.pc, ok).0, Call(s.cluster, s.pc, ok).1))
  {
    hide Inv, HasTrue, WithCreated, BuildSpec;
    CallFacts(s, parses);
    if s.pc.StoreStatus? { StoredHasStatus(s, parses); }
  }

  lemma NextKeepsLabels(s: State, a: Action, parses: Parser)
    requires Inv(s, parses) && LabelsOk(s)
    ensures LabelsOk(Next(s, a, parses))
  {
    hide Inv, Call, Happen;
    match a
    case Others(e) => HappenKeepsLabels(s, e, parses);
    case MakeCall(ok) => CallKeepsLabels(s, ok, parses);
    case _ =>
  }

  lemma {:induction false} RunKeepsLabels(s: State, actions: seq<Action>, parses: Parser)
    requires Inv(s, parses) && LabelsOk(s)
    ensures LabelsOk(Run(s, actions, parses))
    decreases |actions|
  {
    hide Inv, LabelsOk;
    if actions != [] {
      var before := actions[..|actions| - 1];
      RunKeepsLabels(s, before, parses);
      RunKeepsInv(s, before, parses);
      NextKeepsLabels(Run(s, before, parses), actions[|actions| - 1], parses);
    }
  }

  lemma ReachableLabels(s: State, parses: Parser)
    requires Reachable(s, parses)
    ensures LabelsOk(s) && Inv(s, parses)
  {
    var actions :| Run(INITIAL, actions, parses) == s;
    RunKeepsLabels(INITIAL, actions, parses);
    RunKeepsInv(INITIAL, actions, parses);
  }

  // ----- registration -----

  lemma PlacedMarks(c: Cluster, s: Schedule, repo: Repository)
    requires Unchanged(c, s) && s.conditions == NOT_CREATED
    ensures Placed(c, s, repo).schedules[s.name].conditions ==
            [Condition("Created", if s.JobName() in c.cronJobs then ConditionFalse else ConditionTrue)]
  {
    NotCreatedIsShape();
    ShapeCreated(s);
    CreatedIsSame(s);
    hide BuildSpec, WithCreated, HasTrue;
  }

  lemma PlacedKeepsMetadata(c: Cluster, s: Schedule, repo: Repository)
    requires Unchanged(c, s)
    ensures var d := Placed(c, s, repo);
            s.name in d.schedules && d.schedules[s.name] == s.(conditions := d.schedules[s.name].conditions)
  {
    CreatedIsSame(s);
    hide BuildSpec, WithCreated;
  }

  /**
    From every reachable state: a fault-free reconcile of a new schedule whose repository exists registers it with that repository, if
    and only if no other object controls it, and marks it Created, if and only if it also creates its CronJob.
   */
  lemma NewSchedulesAreRegistered(s: State, n: string, parses: Parser)
    requires Reachable(s, parses) && n in s.cluster.schedules
    requires s.cluster.schedules[n].conditions == [] && s.cluster.schedules[n].spec.repository in s.cluster.repos
    ensures var q, d := s.cluster.schedules[n], Reconcile(s.cluster, n);
            && n in d.schedules && d.schedules[n].uid == q.uid && d.schedules[n].spec == q.spec
            && (RegisteredWith(d.schedules[n], s.cluster.repos[q.spec.repository])
                <==> !F.ControlledByAnother(q, s.cluster.repos[q.spec.repository]))
            && d.schedules[n].conditions in [[Condition("Created", ConditionFalse)], [Condition("Created", ConditionTrue)]]
            && (Condition("Created", ConditionTrue) in d.schedules[n].conditions <==>
                  !F.ControlledByAnother(q, s.cluster.repos[q.spec.repository]) && "forget-" + n !in s.cluster.cronJobs)
  {
    var c := s.cluster;
    ReachableLabels(s, parses);
    ReconcileHasEffect(c, n, parses);
    var q := c.schedules[n];
    var repo := c.repos[q.spec.repository];
    assert q.name == n && repo.name == q.spec.repository;
    assert q.JobName() == "forget-" + n;
    hide Inv, Reachable, Reconcile, Placed, HasTrue;
    if !OwnedByAnother(q, repo) {
      var t := WithMetadata(WithDefaults(q), repo);
      PlacedKeepsMetadata(WithSchedule(c, t), t, repo);
      PlacedMarks(WithSchedule(c, t), t, repo);
    }
  }

  // ----- for good -----

  ghost predicate ComesFrom(c: Cluster, d: Cluster, n: string) {
    && c.nextUid <= d.nextUid
    && (n in d.schedules && d.schedules[n].uid < c.nextUid ==>
          && n in c.schedules && d.schedules[n].uid == c.schedules[n].uid
          && (c.schedules[n].repositoryLabel.Some? ==>
                && d.schedules[n].controller == c.schedules[n].controller
                && d.schedules[n].repositoryLabel == c.schedules[n].repositoryLabel))
  }

  lemma HappenComesFrom(c: Cluster, e: Event, n: string, parses: Parser)
    ensures ComesFrom(c, Happen(c, e, parses), n)
  {
    hide Admits;
  }

  lemma CallComesFrom(s: State, ok: bool, n: string)
    requires LabelsOk(s)
    ensures ComesFrom(s.cluster, Call(s.cluster, s.pc, ok).0, n)
  {
    hide HasTrue, WithCreated, BuildSpec;
  }

  lemma StepBack(s: State, a: Action, n: string, parses: Parser)
    requires LabelsOk(s)
    ensures ComesFrom(s.cluster, Next(s, a, parses).cluster, n)
  {
    hide Call, Happen, LabelsOk;
    match a
    case Others(e) => HappenComesFrom(s.cluster, e, n, parses);
    case MakeCall(ok) => CallComesFrom(s, ok, n);
    case _ =>
  }

  lemma {:induction false} UidsGrow(s: State, actions: seq<Action>, parses: Parser)
    ensures s.cluster.nextUid <= Run(s, actions, parses).cluster.nextUid
    decreases |actions|
  {
    if actions != [] {
      UidsGrow(s, actions[..|actions| - 1], parses);
      StepUid(Run(s, actions[..|actions| - 1], parses), actions[|actions| - 1], parses);
    }
  }

  lemma StepUid(s: State, a: Action, parses: Parser)
    ensures s.cluster.nextUid <= Next(s, a, parses).cluster.nextUid
  {
    hide Admits, BuildSpec, WithCreated;
  }

  lemma {:induction false} RunKeepsRegistration(s: State, actions: seq<Action>, n: string, parses: Parser)
    requires Inv(s, parses) && LabelsOk(s) && n in s.cluster.schedules && s.cluster.schedules[n].repositoryLabel.Some?
    requires n in Run(s, actions, parses).cluster.schedules
    requires Run(s, actions, parses).cluster.schedules[n].uid == s.cluster.schedules[n].uid
    ensures var q, r := s.cluster.schedules[n], Run(s, actions, parses).cluster.schedules[n];
            r.controller == q.controller && r.repositoryLabel == q.repositoryLabel
    decreases |actions|
  {
    hide Inv, Next;
    if actions != [] {
      var before := actions[..|actions| - 1];
      var t := Run(s, before, parses);
      RunKeepsInv(s, before, parses);
      RunKeepsLabels(s, before, parses);
      UidsGrow(s, before, parses);
      hide LabelsOk;
      assert s.cluster.schedules[n].uid < t.cluster.nextUid by { UidIsOld(s, n); }
      StepBack(t, actions[|actions| - 1], n, parses);
      RunKeepsRegistration(s, before, n, parses);
    }
  }

  /** Along every run a registered schedule keeps its owner and its label as long as it exists. */
  lemma RegisteredForGood(s: State, actions: seq<Action>, n: string, parses: Parser)
    requires Reachable(s, parses) && n in s.cluster.schedules && s.cluster.schedules[n].repositoryLabel.Some?
    requires n in Run(s, actions, parses).cluster.schedules
    requires Run(s, actions, parses).cluster.schedules[n].uid == s.cluster.schedules[n].uid
    ensures var q, r := s.cluster.schedules[n], Run(s, actions, parses).cluster.schedules[n];
            r.controller == q.controller && r.repositoryLabel == q.repositoryLabel
  {
    hide Reachable, Run, Inv, LabelsOk;
    ReachableLabels(s, parses);
    RunKeepsRegistration(s, actions, n, parses);
  }

  lemma UidIsOld(s: State, n: string)
    requires LabelsOk(s) && n in s.cluster.schedules
    ensures s.cluster.schedules[n].uid < s.cluster.nextUid
  {
  }

  // ----- the CronJob -----

  /**
    A fault-free reconcile that finds the repository of a registered schedule either creates a CronJob of the schedule's, labelled
    with the repository, or overwrites the spec of the one that is there; it leaves all other CronJobs and schedules.
   */
  lemma CronJobAfter(s: State, n: string, parses: Parser)
    requires Reachable(s, parses) && n in s.cluster.schedules && s.cluster.schedules[n].conditions != []
    requires s.cluster.schedules[n].spec.repository in s.cluster.repos
    ensures var c, d, q := s.cluster, Reconcile(s.cluster, n), s.cluster.schedules[n];
            var r, name := c.repos[q.spec.repository], "forget-" + n;
            && name in d.cronJobs
            && d.cronJobs[name].spec == CronJobSpec(q.spec.schedule, r.url, [Script(q.spec)], "operator-key-" + q.spec.repository)
            && (name in c.cronJobs ==> d.cronJobs[name] == c.cronJobs[name].(spec := d.cronJobs[name].spec))
            && (name !in c.cronJobs ==> d.cronJobs[name] == CronJob(name, q.uid, q.spec.repository, d.cronJobs[name].spec))
            && d.cronJobs - {name} == c.cronJobs - {name} && d.schedules - {n} == c.schedules - {n} && d.repos == c.repos
  {
    var c := s.cluster;
    ReachableLabels(s, parses);
    ReconcileHasEffect(c, n, parses);
    var q := c.schedules[n];
    assert q.name == n && q.JobName() == "forget-" + n;
    var r := c.repos[q.spec.repository];
    assert r.OperatorSecretName() == "operator-key-" + q.spec.repository;
    hide Inv, Reachable, Reconcile, HasTrue, WithCreated, Script;
    CreatedIsSame(q);
  }
}
