/** What the forget-schedule controller guarantees over every run, and when a second reconcile finds nothing to do. */
module ForgetGuarantees {
  import opened Options
  import opened Conditions
  import opened Resources
  import opened ForgetScript
  import opened Shell
  import opened Admission
  import opened ForgetController

  // ----- convergence -----

  /**
    Whenever a reconcile that found its repository has ended without an error, by whichever path and whatever was
    stored before, and unless somebody else has changed the CronJob since: it has the schedule's cron expression, the
    repository's URL and secret, and one script, which makes the shell ask restic for exactly what the schedule that was
    read asks for, and that is to keep something.
   */
  lemma ForgetConverges(s: State, parses: Parser)
    requires Reachable(s, parses) && s.pc.Done? && s.pc.schedule.JobName() !in s.cluster.touched
    ensures s.pc.schedule.JobName() in s.cluster.cronJobs
    ensures var (read, spec) := (s.pc.schedule.spec, s.cluster.cronJobs[s.pc.schedule.JobName()].spec);
            && spec.schedule == read.schedule && spec.url == s.pc.repo.url && spec.secret == s.pc.repo.OperatorSecretName()
            && |spec.args| == 1 && Commands(spec.args[0]).Some?
            && Parse(Commands(spec.args[0]).value) == Some(RequestOf(read)) && KeepsSomething(RequestOf(read))
  {
    ReachableInv(s, parses);
    hide Commands, Parse, Script, Reachable, MachineSum;
    TurnedDownExactly(s.pc.schedule.spec, parses);
    ScriptRoundTrip(s.pc.schedule.spec);
  }

  // ----- Created -----

  ghost predicate HasCronJob(c: Cluster, u: nat) {
    exists n :: n in c.cronJobs && c.cronJobs[n].owner == u
  }

  ghost predicate HadCronJob(actions: seq<Action>, u: nat, parses: Parser) {
    exists m: nat :: m <= |actions| && HasCronJob(Run(INITIAL, actions[..m], parses).cluster, u)
  }

  lemma StepStarts(s: State, a: Action, parses: Parser, u: nat)
    requires u in Next(s, a, parses).cluster.started && u !in s.cluster.started
    ensures HasCronJob(Next(s, a, parses).cluster, u)
  {
    hide BuildSpec, WithCreated;
    var d := Next(s, a, parses).cluster;
    assert s.pc.CreateJob?;
    var job := ForgetJob(s.pc.schedule, s.pc.repo);
    assert job.name in d.cronJobs && d.cronJobs[job.name].owner == u;
  }

  lemma {:induction false} StartedHadCronJob(actions: seq<Action>, u: nat, parses: Parser)
    requires u in Run(INITIAL, actions, parses).cluster.started
    ensures HadCronJob(actions, u, parses)
    decreases |actions|
  {
    if actions != [] {
      var before := actions[..|actions| - 1];
      var s := Run(INITIAL, before, parses);
      if u in s.cluster.started {
        StartedHadCronJob(before, u, parses);
        var m: nat :| m <= |before| && HasCronJob(Run(INITIAL, before[..m], parses).cluster, u);
        assert actions[..m] == before[..m];
      } else {
        StepStarts(s, actions[|actions| - 1], parses, u);
        assert actions[..|actions|] == actions;
      }
    }
  }

  /** A schedule is Created only if a CronJob of its own existed earlier in the run. */
  lemma CreatedHadCronJob(actions: seq<Action>, n: string, parses: Parser)
    requires n in Run(INITIAL, actions, parses).cluster.schedules && Run(INITIAL, actions, parses).cluster.schedules[n].IsCreated()
    ensures HadCronJob(actions, Run(INITIAL, actions, parses).cluster.schedules[n].uid, parses)
  {
    var s := Run(INITIAL, actions, parses);
    RunKeepsInv(INITIAL, actions, parses);
    ShapeCreated(s.cluster.schedules[n]);
    StartedHadCronJob(actions, s.cluster.schedules[n].uid, parses);
  }

  // ----- the update path -----

  /** The schedule of this name is not Created, its CronJob exists, and no reconcile is past finding it missing. */
  predicate Stranded(s: State, n: string) {
    && (n in s.cluster.schedules ==> !s.cluster.schedules[n].IsCreated())
    && "forget-" + n in s.cluster.cronJobs
    && (s.pc.StoreStatus? ==> s.pc.schedule.name != n)
  }

  predicate KeepsCronJob(a: Action, n: string) {
    a.Others? && a.event.RemoveCronJob? ==> a.event.name != "forget-" + n
  }

  lemma StepStaysStranded(s: State, a: Action, n: string, parses: Parser)
    requires Inv(s, parses) && Stranded(s, n) && KeepsCronJob(a, n)
    ensures Stranded(Next(s, a, parses), n)
  {
    hide Admits, BuildSpec, Converged, WithCreated;
    HasTrueMeans([], CREATED);
    HasTrueMeans(NOT_CREATED, CREATED);
    hide HasTrue;
    if s.pc.CreateJob? && a.MakeCall? {
      assert s.pc.schedule.JobName() == "forget-" + s.pc.schedule.name;
    }
  }

  /**
    A schedule whose CronJob is already there is never marked Created, however often it is reconciled: the update path
    does not set the status.
   */
  lemma {:induction false} NeverCreated(s: State, actions: seq<Action>, n: string, parses: Parser)
    requires Inv(s, parses) && Stranded(s, n) && forall a :: a in actions ==> KeepsCronJob(a, n)
    ensures Stranded(Run(s, actions, parses), n)
    decreases |actions|
  {
    hide Inv, Stranded, KeepsCronJob;
    if actions != [] {
      var before := actions[..|actions| - 1];
      assert forall a :: a in before ==> a in actions;
      NeverCreated(s, before, n, parses);
      RunKeepsInv(s, before, parses);
      assert actions[|actions| - 1] in actions;
      StepStaysStranded(Run(s, before, parses), actions[|actions| - 1], n, parses);
    }
  }

  // ----- reconciles without faults -----

  function Finish(c: Cluster, pc: Pc): Cluster
    decreases Rank(pc)
  {
    if Ended(pc) then c
    else
      CallDescends(c, pc, true);
      var (d, pc') := Call(c, pc, true);
      Finish(d, pc')
  }

  function Reconcile(c: Cluster, n: string): Cluster {
    Finish(c, GetSchedule(n))
  }

  function WithSchedule(c: Cluster, s: Schedule): Cluster {
    c.(schedules := c.schedules[s.name := s])
  }

  /** The CronJob is created, and the schedule marked; or it is updated. */
  function Placed(c: Cluster, s: Schedule, repo: Repository): Cluster {
    var name := s.JobName();
    if name in c.cronJobs then
      c.(cronJobs := c.cronJobs[name := c.cronJobs[name].(spec := BuildSpec(s, repo))], touched := c.touched - {name})
    else WithSchedule(CreateCronJob(c, ForgetJob(s, repo)).value, WithCreated(s))
  }

  function Effect(c: Cluster, n: string): Cluster {
    if n !in c.schedules || c.schedules[n].spec.repository !in c.repos then c
    else
      var s := c.schedules[n];
      var repo := c.repos[s.spec.repository];
      if s.conditions != [] then Placed(c, s, repo)
      else if OwnedByAnother(s, repo) then WithSchedule(c, WithDefaults(s))
      else
        var t := WithMetadata(WithDefaults(s), repo);
        Placed(WithSchedule(c, t), t, repo)
  }

  lemma Step(c: Cluster, pc: Pc, d: Cluster, pc': Pc)
    requires !Ended(pc) && Call(c, pc, true) == (d, pc')
    ensures Finish(c, pc) == Finish(d, pc') && (Ended(pc') ==> Finish(c, pc) == d)
  {
    hide Call;
  }

  lemma FinishPlaced(c: Cluster, s: Schedule, repo: Repository)
    requires Unchanged(c, s) && forall m :: m in c.cronJobs ==> c.cronJobs[m].name == m
    ensures Finish(c, GetCronJob(s, repo)) == Placed(c, s, repo)
  {
    var pc := AfterGetCronJob(c, s, repo);
    CreatedIsSame(s);
    hide BuildSpec, WithCreated;
    Step(c, GetCronJob(s, repo), c, pc);
    if pc.UpdateJob? {
      Step(c, pc, Placed(c, s, repo), Done(s, repo));
    } else {
      var d := CreateCronJob(c, ForgetJob(s, repo)).value;
      Step(c, pc, d, StoreStatus(s, repo));
      Step(d, StoreStatus(s, repo), WithSchedule(d, WithCreated(s)), Done(WithCreated(s), repo));
    }
  }

  lemma ReconcileHasEffect(c: Cluster, n: string, parses: Parser)
    requires ClusterOk(c, parses)
    ensures Reconcile(c, n) == Effect(c, n)
  {
    hide Placed, Finish, ScheduleOk;
    if n !in c.schedules {
      Step(c, GetSchedule(n), c, Idle);
    } else {
      var s := c.schedules[n];
      Step(c, GetSchedule(n), c, GetRepo(s));
      if s.spec.repository !in c.repos {
        Step(c, GetRepo(s), c, Idle);
      } else {
        var repo := c.repos[s.spec.repository];
        Step(c, GetRepo(s), c, AfterGetRepo(s, repo));
        if s.conditions != [] { FinishPlaced(c, s, repo); } else { FinishFresh(c, s, repo); }
      }
    }
  }

  lemma FinishFresh(c: Cluster, s: Schedule, repo: Repository)
    requires Unchanged(c, s) && s.conditions == [] && forall m :: m in c.cronJobs ==> c.cronJobs[m].name == m
    ensures var l := WithDefaults(s);
            var t := WithMetadata(l, repo);
            Finish(c, DefaultStatus(s, repo)) ==
            if OwnedByAnother(s, repo) then WithSchedule(c, l) else Placed(WithSchedule(c, t), t, repo)
  {
    hide Placed, Finish;
    var l := WithDefaults(s);
    var c1 := WithSchedule(c, l);
    if OwnedByAnother(s, repo) {
      Step(c, DefaultStatus(s, repo), c1, Idle);
    } else {
      Step(c, DefaultStatus(s, repo), c1, SetMetadata(l, repo));
      var t := WithMetadata(l, repo);
      assert c1.schedules[s.name := t] == c.schedules[s.name := t];
      Step(c1, SetMetadata(l, repo), WithSchedule(c, t), GetCronJob(t, repo));
      FinishPlaced(WithSchedule(c, t), t, repo);
    }
  }

  // ----- when a schedule becomes Created -----

  /** A reconcile marks a schedule Created exactly if it creates the CronJob. */
  lemma PlacedCreates(c: Cluster, s: Schedule, repo: Repository)
    requires Unchanged(c, s) && Shape(s.conditions) && s.conditions != []
    ensures var d := Placed(c, s, repo);
            s.name in d.schedules && (d.schedules[s.name].IsCreated() <==> s.IsCreated() || s.JobName() !in c.cronJobs)
  {
    ShapeCreated(s);
    ShapeCreated(WithCreated(s));
    CreatedIsSame(s);
    hide BuildSpec, WithCreated;
  }

  lemma EffectCreates(c: Cluster, s: Schedule, repo: Repository)
    requires Unchanged(c, s) && Shape(s.conditions) && s.spec.repository in c.repos && c.repos[s.spec.repository] == repo
    ensures var d := Effect(c, s.name);
            s.name in d.schedules &&
            (d.schedules[s.name].IsCreated() <==>
              s.IsCreated() || (s.JobName() !in c.cronJobs && !(s.conditions == [] && OwnedByAnother(s, repo))))
  {
    ShapeCreated(s);
    var l := WithDefaults(s);
    var t := WithMetadata(l, repo);
    assert Shape(NOT_CREATED) && !l.IsCreated() == !s.IsCreated() by { NotCreatedIsShape(); ShapeCreated(l); }
    if s.conditions != [] {
      PlacedCreates(c, s, repo);
    } else if !OwnedByAnother(s, repo) {
      PlacedCreates(WithSchedule(c, t), t, repo);
    }
    hide Placed, HasTrue;
  }

  /**
    From every reachable state: after a fault-free reconcile a schedule is Created if and only if it was before, or its
    repository exists, its CronJob is not there yet, and its registration is not refused.
   */
  lemma CreatedExactly(s: State, n: string, parses: Parser)
    requires Reachable(s, parses) && n in s.cluster.schedules
    ensures var c, d := s.cluster, Reconcile(s.cluster, n);
            var q := c.schedules[n];
            n in d.schedules &&
            (d.schedules[n].IsCreated() <==>
              q.IsCreated()
              || (q.spec.repository in c.repos && q.JobName() !in c.cronJobs
                  && !(q.conditions == [] && OwnedByAnother(q, c.repos[q.spec.repository]))))
  {
    var c := s.cluster;
    ReachableInv(s, parses);
    ReconcileHasEffect(c, n, parses);
    var q := c.schedules[n];
    assert Shape(q.conditions) && Unchanged(c, q);
    hide Inv, Reachable, Reconcile, Shape, HasTrue;
    if q.spec.repository in c.repos { EffectCreates(c, q, c.repos[q.spec.repository]); }
  }

  // ----- settling -----

  /** The stored objects, without the history. */
  function Objects(c: Cluster): Cluster {
    c.(started := {}, touched := {})
  }

  predicate IsPlaced(c: Cluster, s: Schedule, repo: Repository) {
    s.JobName() in c.cronJobs && c.cronJobs[s.JobName()].spec == BuildSpec(s, repo)
  }

  /**
    A fresh schedule that another object controls, whose CronJob is not already as it should be: the first
    reconcile stores the default status and is refused the controller reference, the next one goes on.
   */
  predicate ResumesUnregistered(c: Cluster, n: string) {
    n in c.schedules && c.schedules[n].spec.repository in c.repos
    && var s := c.schedules[n];
    && var repo := c.repos[s.spec.repository];
    && s.conditions == [] && OwnedByAnother(s, repo) && !IsPlaced(c, s, repo)
  }

  lemma PlacedTwice(c: Cluster, s: Schedule, repo: Repository, q: Schedule)
    requires q == s || q == WithCreated(s)
    ensures var d := Placed(c, s, repo); Objects(Placed(d, q, repo)) == Objects(d)
  {
    CreatedIsSame(s);
    hide WithCreated;
    var d := Placed(c, s, repo);
    var name := s.JobName();
    assert q.JobName() == name && BuildSpec(q, repo) == BuildSpec(s, repo);
    hide BuildSpec;
    assert name in d.cronJobs && d.cronJobs[name].spec == BuildSpec(s, repo);
    assert d.cronJobs[name := d.cronJobs[name]] == d.cronJobs;
  }

  lemma PlacedStores(c: Cluster, s: Schedule, repo: Repository)
    requires Unchanged(c, s)
    ensures var d := Placed(c, s, repo);
            && s.name in d.schedules && (d.schedules[s.name] == s || d.schedules[s.name] == WithCreated(s))
            && d.repos == c.repos
  {
    CreatedIsSame(s);
  }

  lemma RegisteredTwice(c: Cluster, s: Schedule, repo: Repository)
    requires Unchanged(c, s) && Shape(s.conditions) && s.conditions != []
    requires s.spec.repository in c.repos && c.repos[s.spec.repository] == repo
    ensures var d := Placed(c, s, repo); Objects(Effect(d, s.name)) == Objects(d)
  {
    var d := Placed(c, s, repo);
    ShapeCreated(s);
    CreatedIsSame(s);
    PlacedStores(c, s, repo);
    PlacedTwice(c, s, repo, d.schedules[s.name]);
    hide Placed, WithCreated;
  }

  lemma ForeignTwice(c: Cluster, s: Schedule, repo: Repository)
    requires Unchanged(c, s) && s.conditions == [] && OwnedByAnother(s, repo)
    requires s.spec.repository in c.repos && c.repos[s.spec.repository] == repo
    ensures var d := WithSchedule(c, WithDefaults(s)); Objects(Effect(d, s.name)) == Objects(d) <==> IsPlaced(c, s, repo)
  {
    var l := WithDefaults(s);
    var d := WithSchedule(c, l);
    var e := Effect(d, s.name);
    assert e == Placed(d, l, repo);
    assert BuildSpec(l, repo) == BuildSpec(s, repo) && l.JobName() == s.JobName();
    hide BuildSpec, WithCreated;
    var name := s.JobName();
    assert name in e.cronJobs;
    if name in c.cronJobs {
      assert e.cronJobs[name].spec == BuildSpec(s, repo);
      if c.cronJobs[name].spec == BuildSpec(s, repo) { assert e.cronJobs == d.cronJobs; }
    }
  }

  /**
    A second fault-free reconcile right after a first one changes no object, from every reachable state, except
    exactly when the first one ended in the refusal described at ResumesUnregistered.
   */
  lemma SchedulesSettle(s: State, n: string, parses: Parser)
    requires Reachable(s, parses)
    ensures var d := Reconcile(s.cluster, n); Objects(Reconcile(d, n)) == Objects(d) <==> !ResumesUnregistered(s.cluster, n)
  {
    var c := s.cluster;
    ReachableInv(s, parses);
    ReconcileHasEffect(c, n, parses);
    ReconcileKeepsOk(c, n, parses);
    ReconcileHasEffect(Effect(c, n), n, parses);
    if n in c.schedules && c.schedules[n].spec.repository in c.repos {
      var q := c.schedules[n];
      var repo := c.repos[q.spec.repository];
      assert Shape(q.conditions);
      hide Inv, ClusterOk, Reachable, Reconcile, Placed, Shape;
      if q.conditions != [] {
        RegisteredTwice(c, q, repo);
      } else if OwnedByAnother(q, repo) {
        ForeignTwice(c, q, repo);
      } else {
        var t := WithMetadata(WithDefaults(q), repo);
        assert t.conditions == NOT_CREATED && Shape(t.conditions) by { NotCreatedIsShape(); }
        RegisteredTwice(WithSchedule(c, t), t, repo);
      }
    }
  }

  lemma NotCreatedIsShape()
    ensures Shape(NOT_CREATED)
  {
  }

  lemma {:induction false} FinishKeepsOk(c: Cluster, pc: Pc, parses: Parser)
    requires Inv(State(c, pc), parses)
    ensures ClusterOk(Finish(c, pc), parses)
    decreases Rank(pc)
  {
    assert ClusterOk(c, parses);
    hide ClusterOk, PcOk, Call;
    if !Ended(pc) {
      CallDescends(c, pc, true);
      CallKeepsInv(State(c, pc), true, parses);
      FinishKeepsOk(Call(c, pc, true).0, Call(c, pc, true).1, parses);
    }
  }

  lemma ReconcileKeepsOk(c: Cluster, n: string, parses: Parser)
    requires ClusterOk(c, parses)
    ensures ClusterOk(Reconcile(c, n), parses)
  {
    hide ClusterOk;
    FinishKeepsOk(c, GetSchedule(n), parses);
  }
}
