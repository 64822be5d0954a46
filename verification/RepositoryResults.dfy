/** What the result of a repository reconcile means. */
module RepositoryResults {
  import opened Options
  import opened Conditions
  import opened Resources
  import opened Results
  import opened ApiServer
  import opened Invariant
  import opened RepositoryReconciler
  import R = RepositoryController
  import RR = RepositoryRecovery

  // ----- in every world -----

  /** A call that was made: the cluster that it met, what it was, and whether it succeeded. */
  datatype Made = Made(cluster: Cluster, pc: R.Pc, ok: bool)

  function Trace(w: World, pc: R.Pc): seq<Made>
    decreases R.Rank(pc)
  {
    if pc.Idle? then []
    else
      var t, ok := Turn(w, R.Busy(pc).value), Upcoming(w.slots).ok;
      R.CallDescends(t.cluster, pc, ok);
      var (d, pc') := R.Call(t.cluster, pc, ok);
      [Made(t.cluster, pc, ok)] + Trace(t.(cluster := d), pc')
  }

  predicate Holds(c: Cluster, r: Repository) {
    r.name in c.repos && c.repos[r.name] == r
  }

  predicate ForeignSecret(c: Cluster, r: Repository) {
    "operator-key-" + r.name in c.secrets && c.secrets["operator-key-" + r.name].owners != [r.uid]
  }

  /** The call failed or was refused, or found the secret of somebody else; a job that is already there is no failure. */
  predicate Failed(m: Made) {
    !m.ok ||
    match m.pc
    case DefaultStatus(r) => !Holds(m.cluster, r)
    case StoreStatus(r, _) => !Holds(m.cluster, r)
    case GetSecret(r) => ForeignSecret(m.cluster, r)
    case CreateSecret(r) => "operator-key-" + r.name in m.cluster.secrets
    case _ => false
  }

  /** A call that ends the reconcile fails as its result says; one that does not end it does not. */
  lemma EndingMeans(c: Cluster, pc: R.Pc, ok: bool)
    requires !pc.Idle?
    ensures var m, pc', ending := Made(c, pc, ok), R.Call(c, pc, ok).1, R.Ending(c, pc, ok);
            && ending != Requeue && (pc'.Idle? ==> (ending == Error <==> Failed(m))) && (!pc'.Idle? ==> !Failed(m))
  {
    hide HasTrue, AnyWithStatus, MarkCreated, MarkFailed;
    if pc.GetSecret? || pc.CreateSecret? { assert pc.repo.OperatorSecretName() == "operator-key-" + pc.repo.name; }
  }

  /**
    Whatever others do and wherever calls fail: the result is an error exactly if one of the calls made failed or
    found the secret of somebody else. A repository reconcile never asks to be repeated.
   */
  lemma {:induction false} ResultMeans(w: World, pc: R.Pc, ending: Result)
    requires !pc.Idle?
    ensures Drive(w, pc, ending).1 != Requeue
    ensures Drive(w, pc, ending).1 == Error <==> exists m :: m in Trace(w, pc) && Failed(m)
    decreases R.Rank(pc)
  {
    hide R.Call, R.Ending, Turn, Failed;
    var t, ok := Turn(w, R.Busy(pc).value), Upcoming(w.slots).ok;
    var (d, pc') := R.Call(t.cluster, pc, ok);
    R.CallDescends(t.cluster, pc, ok);
    EndingMeans(t.cluster, pc, ok);
    var rest := Trace(t.(cluster := d), pc');
    assert Trace(w, pc) == [Made(t.cluster, pc, ok)] + rest;
    if !pc'.Idle? { ResultMeans(t.(cluster := d), pc', R.Ending(t.cluster, pc, ok)); }
  }

  // ----- without faults -----

  /** All calls succeed and nobody else acts. */
  predicate Calm(w: World) {
    |w.slots| >= 6 && forall i :: 0 <= i < |w.slots| ==> w.slots[i] == Slot([], true)
  }

  function Answer(c: Cluster, pc: R.Pc, ending: Result): Result
    decreases R.Rank(pc)
  {
    if pc.Idle? then ending
    else
      R.CallDescends(c, pc, true);
      var (d, pc') := R.Call(c, pc, true);
      Answer(d, pc', R.Ending(c, pc, true))
  }

  lemma {:induction false} CalmDrive(w: World, pc: R.Pc, ending: Result)
    requires |w.slots| >= R.Rank(pc) && forall i :: 0 <= i < |w.slots| ==> w.slots[i] == Slot([], true)
    ensures Drive(w, pc, ending).0.cluster == RR.Finish(w.cluster, pc) && Drive(w, pc, ending).1 == Answer(w.cluster, pc, ending)
    decreases R.Rank(pc)
  {
    hide R.Call, R.Ending;
    if !pc.Idle? {
      var (d, pc') := R.Call(w.cluster, pc, true);
      R.CallDescends(w.cluster, pc, true);
      assert Turn(w, R.Busy(pc).value) == World(w.cluster, w.peer, w.slots[1..]);
      CalmDrive(World(d, w.peer, w.slots[1..]), pc', R.Ending(w.cluster, pc, true));
    }
  }

  lemma Step(c: Cluster, pc: R.Pc, ending: Result, d: Cluster, pc': R.Pc)
    requires !pc.Idle? && R.Call(c, pc, true) == (d, pc')
    ensures Answer(c, pc, ending) == Answer(d, pc', R.Ending(c, pc, true))
    ensures pc'.Idle? ==> Answer(c, pc, ending) == R.Ending(c, pc, true)
  {
    hide R.Call, R.Ending;
  }

  predicate Finished(r: Repository) {
    Condition("Created", ConditionTrue) in r.conditions || Condition("Failed", ConditionTrue) in r.conditions
  }

  lemma PhasesRead(r: Repository)
    ensures r.IsCreated() || r.IsFailed() <==> Finished(r)
  {
    HasTrueMeans(r.conditions, CREATED);
    HasTrueMeans(r.conditions, FAILED);
  }

  lemma AnswerStarting(c: Cluster, r: Repository, ending: Result)
    ensures Answer(c, R.GetSecret(r), ending) == if ForeignSecret(c, r) then Error else Done
  {
    hide Answer;
    assert r.OperatorSecretName() == "operator-key-" + r.name;
    var pc, d := R.AfterGetSecret(c, r), c.(secrets := c.secrets[r.OperatorSecretName() := Secret([r.uid])]);
    Step(c, R.GetSecret(r), ending, c, pc);
    if pc.CreateSecret? {
      Step(c, pc, Error, d, R.CreateJob(r));
      AnswerJob(d, r, Error);
    } else if pc.CreateJob? {
      AnswerJob(c, r, Error);
    }
  }

  lemma AnswerJob(c: Cluster, r: Repository, ending: Result)
    ensures Answer(c, R.CreateJob(r), ending) == Done
  {
    var (d, pc') := R.Call(c, R.CreateJob(r), true);
    Step(c, R.CreateJob(r), ending, d, pc');
  }

  lemma AnswerStoring(c: Cluster, r: Repository, q: Repository, ending: Result)
    requires Holds(c, r)
    ensures Answer(c, R.StoreStatus(r, q), ending) == Done
  {
    Step(c, R.StoreStatus(r, q), ending, UpdateRepositoryStatus(c, r, q).value, R.Idle);
  }

  lemma AnswerDecided(c: Cluster, r: Repository)
    requires Holds(c, r)
    ensures Answer(c, R.AfterDefaults(r), Done) ==
            if !Finished(r) && r.name !in c.initJobs && ForeignSecret(c, r) then Error else Done
  {
    hide Answer, HasTrue, AnyWithStatus, MarkCreated, MarkFailed;
    PhasesRead(r);
    if !Finished(r) {
      if r.name !in c.initJobs {
        Step(c, R.GetJob(r), Done, c, R.GetSecret(r));
        AnswerStarting(c, r, Done);
      } else {
        var pc := R.AfterGetJob(r, c.initJobs[r.name]);
        Step(c, R.GetJob(r), Done, c, pc);
        if pc.StoreStatus? {
          AnswerStoring(c, r, pc.updated, Done);
        } else if pc.ReadLog? {
          Step(c, pc, Done, c, R.StoreStatus(r, R.WithFailed(r)));
          AnswerStoring(c, r, R.WithFailed(r), Done);
        }
      }
    } else {
      assert Answer(c, R.Idle, Done) == Done by { Stopped(c); }
    }
  }

  lemma Stopped(c: Cluster)
    ensures Answer(c, R.Idle, Done) == Done
  {
  }

  lemma NotFinishedYet(r: Repository)
    requires r.conditions == []
    ensures !Finished(r) && !Finished(R.WithDefaults(r))
  {
  }

  /** The repository has no final status and no init job, and somebody else owns a secret of the operator's name for it. */
  predicate MustFail(c: Cluster, n: string) {
    n in c.repos && !Finished(c.repos[n]) && n !in c.initJobs && ForeignSecret(c, c.repos[n])
  }

  /** When all calls succeed and nobody acts in between, a reconcile fails exactly because of a foreign secret. */
  lemma ResultExactly(w: World, n: string)
    requires RepoIds(w.cluster) && Calm(w)
    ensures Drive(w, R.GetRepo(n), Done).1 == if MustFail(w.cluster, n) then Error else Done
  {
    hide Answer, HasTrue, RepoIds, Drive, Calm;
    var c := w.cluster;
    assert |w.slots| >= 6 && forall i :: 0 <= i < |w.slots| ==> w.slots[i] == Slot([], true) by { CalmSlots(w); }
    CalmDrive(w, R.GetRepo(n), Done);
    if n !in c.repos {
      Step(c, R.GetRepo(n), Done, c, R.Idle);
    } else {
      RR.NameIsOwn(c, n);
      var r := c.repos[n];
      if r.conditions == [] {
        var l := R.WithDefaults(r);
        NotFinishedYet(r);
        Step(c, R.GetRepo(n), Done, c, R.DefaultStatus(r));
        Step(c, R.DefaultStatus(r), Done, RR.WithStatus(c, l), R.AfterDefaults(l));
        AnswerDecided(RR.WithStatus(c, l), l);
      } else {
        Step(c, R.GetRepo(n), Done, c, R.AfterDefaults(r));
        AnswerDecided(c, r);
      }
    }
  }

  lemma CalmSlots(w: World)
    requires Calm(w)
    ensures |w.slots| >= 6 && forall i :: 0 <= i < |w.slots| ==> w.slots[i] == Slot([], true)
  {
  }

  // ----- first steps, and logs -----

  /** The first reconcile of a new repository gives it its default status. */
  lemma NewRepositoriesGetStatus(c: Cluster, n: string)
    requires RepoIds(c) && n in c.repos && c.repos[n].conditions == [] && n !in c.initJobs
    ensures var d := RR.Reconcile(c, n);
            n in d.repos && d.repos[n] == c.repos[n].(conditions := [Condition("Created", ConditionFalse), Condition("Failed", ConditionFalse)])
  {
    hide RR.Reconcile, RR.Effect, HasTrue;
    RR.ReconcileHasEffect(c, n);
    var q := RR.EffectOnRepo(c, n);
  }

  /** The log of a failed init job is read, and only then is the repository marked: if that read fails, nothing is stored. */
  lemma FailuresAreRead(c: Cluster, r: Repository)
    requires r.name in c.initJobs && c.initJobs[r.name].FinalCondition() == Some("Failed")
    ensures R.Call(c, R.GetJob(r), true) == (c, R.ReadLog(r))
    ensures R.Call(c, R.ReadLog(r), true).1.StoreStatus? && R.Call(c, R.ReadLog(r), false) == (c, R.Idle)
  {
    hide HasTrue, AnyWithStatus, MarkCreated, MarkFailed;
  }
}
