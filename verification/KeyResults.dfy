/** What the result of a key reconcile means. */
module KeyResults {
  import opened Options
  import opened Conditions
  import opened KeyLog
  import opened Resources
  import opened Results
  import opened ApiServer
  import opened Operator
  import opened Invariant
  import opened Safety
  import opened KeyReconciler
  import opened Registration
  import K = KeyController
  import KR = KeyRecovery
  import KC = KeyCreation

  // ----- in every world -----

  /** A call that was made: the cluster that it met, what it was, and how it ended. */
  datatype Made = Made(cluster: Cluster, pc: K.Pc, outcome: K.Outcome)

  function Trace(w: World, pc: K.Pc): seq<Made>
    decreases K.Rank(pc)
  {
    if pc.Idle? then []
    else
      var t, outcome := Turn(w, K.Busy(pc).value), Upcoming(w.slots).outcome;
      K.CallDescends(t.cluster, pc, outcome);
      var (d, pc') := K.Call(t.cluster, pc, outcome);
      [Made(t.cluster, pc, outcome)] + Trace(t.(cluster := d), pc')
  }

  predicate Holds(c: Cluster, k: Key) {
    k.name in c.keys && c.keys[k.name] == k
  }

  predicate NoRemovalAmong(jobs: Jobs, order: seq<nat>) {
    forall j :: j in order ==> j in jobs && jobs[j].operation != Some(DeleteKey)
  }

  /** No job that removes the key can be built. */
  predicate NotRemovable(k: Key, r: Repository) {
    k.keyID.None? || Condition("Created", ConditionTrue) !in r.conditions
  }

  /**
    The call failed or was refused, or what it found makes the reconcile fail: another controller, a finalizer that may not be
    added any more, a key that cannot be removed, a foreign secret, or a log without an ID.
   */
  predicate Failed(m: Made) {
    m.outcome.Failure? ||
    match m.pc
    case DefaultStatus(k, r) => !Holds(m.cluster, k) || ControlledByAnother(k, r)
    case SetMetadata(k, _) => !Holds(m.cluster, k) || (k.deleting && !k.finalizer)
    case ListJobs(k, r) =>
      || !IsListing(m.cluster.jobs, k.name, m.outcome.order)
      || (k.deleting && !r.deleting && NoRemovalAmong(m.cluster.jobs, m.outcome.order) && NotRemovable(k, r))
    case GetSecret(k, _) => k.SecretName() in m.cluster.secrets && m.cluster.secrets[k.SecretName()].owners != [k.uid]
    case CreateSecret(k, _) => k.SecretName() in m.cluster.secrets
    case CreateDeleteJob(k, r) => NotRemovable(k, r)
    case ReadLog(_, job) => job.FinalCondition() == Some("Complete") && ExtractKeyID(job.log).None?
    case StoreStatus(k, _) => !Holds(m.cluster, k)
    case DropFinalizer(k, _) => !Holds(m.cluster, k)
    case _ => false
  }

  predicate Finished(k: Key) {
    Condition("Created", ConditionTrue) in k.conditions || Condition("Failed", ConditionTrue) in k.conditions
  }

  /** There is no repository, or it is not Created yet and nothing has been started for the key. */
  predicate Waits(m: Made) {
    m.outcome.Success? &&
    match m.pc
    case GetRepo(k) => !k.deleting && k.spec.repository !in m.cluster.repos
    case ListJobs(k, r) =>
      && !k.deleting && !Finished(k) && m.outcome.order == [] && IsListing(m.cluster.jobs, k.name, [])
      && Condition("Created", ConditionTrue) !in r.conditions
    case _ => false
  }

  lemma PhasesRead(k: Key, r: Repository)
    ensures r.IsCreated() <==> Condition("Created", ConditionTrue) in r.conditions
    ensures k.IsCreated() || k.IsFailed() <==> Finished(k)
  {
    HasTrueMeans(r.conditions, CREATED);
    HasTrueMeans(k.conditions, CREATED);
    HasTrueMeans(k.conditions, FAILED);
  }

  lemma NoRemovalIsNone(jobs: Jobs, order: seq<nat>)
    requires forall j :: j in order ==> j in jobs
    ensures K.FirstJob(Fetch(jobs, order), DeleteKey).None? <==> NoRemovalAmong(jobs, order)
  {
    var list := Fetch(jobs, order);
    forall j | j in order ensures jobs[j] in list {
      var i :| 0 <= i < |order| && order[i] == j;
      assert list[i] == jobs[j];
    }
    if job :| job in list && job.operation == Some(DeleteKey) {
      var i :| 0 <= i < |list| && list[i] == job;
      assert order[i] in order;
    }
  }

  lemma ListingMeans(c: Cluster, k: Key, r: Repository, order: seq<nat>)
    requires IsListing(c.jobs, k.name, order)
    ensures var m, pc, ending := Made(c, K.ListJobs(k, r), K.Success(order)), K.AfterListJobs(k, r, Fetch(c.jobs, order)),
                                 K.ListingEnding(k, Fetch(c.jobs, order));
            && (pc.Idle? ==> (ending == Error <==> Failed(m)) && (ending == Requeue <==> Waits(m)))
            && (!pc.Idle? ==> !Failed(m) && !Waits(m))
  {
    hide HasTrue, IsListing, Fetch, AnyWithStatus;
    PhasesRead(k, r);
    assert forall j :: j in order ==> j in c.jobs by { ListedIsThere(c.jobs, k.name, order); }
    NoRemovalIsNone(c.jobs, order);
    hide NoRemovalAmong;
  }

  lemma ListedIsThere(jobs: Jobs, n: string, order: seq<nat>)
    requires IsListing(jobs, n, order)
    ensures forall j :: j in order ==> j in jobs
  {
  }

  /** A call that ends the reconcile fails or waits as its result says; one that does not end it does neither. */
  lemma EndingMeans(c: Cluster, pc: K.Pc, outcome: K.Outcome)
    requires !pc.Idle?
    ensures var m, pc', ending := Made(c, pc, outcome), K.Call(c, pc, outcome).1, K.Ending(c, pc, outcome);
            && (pc'.Idle? ==> (ending == Error <==> Failed(m)) && (ending == Requeue <==> Waits(m)))
            && (!pc'.Idle? ==> !Failed(m) && !Waits(m))
  {
    hide HasTrue, AnyWithStatus, MarkCreated, MarkFailed, ExtractKeyID, PutKey, K.AfterListJobs, K.ListingEnding, IsListing;
    if outcome.Success? {
      match pc
      case ListJobs(k, r) => if IsListing(c.jobs, k.name, outcome.order) { ListingMeans(c, k, r, outcome.order); }
      case CreateDeleteJob(k, r) => PhasesRead(k, r);
      case _ =>
    }
  }

  /**
    Whatever others do and wherever calls fail: the result is an error exactly if one of the calls made failed or found
    something to fail for, and the reconcile is to be repeated exactly if one of them found something to wait for.
   */
  lemma {:induction false} ResultMeans(w: World, pc: K.Pc, ending: Result)
    requires !pc.Idle?
    ensures Drive(w, pc, ending).1 == Error <==> exists m :: m in Trace(w, pc) && Failed(m)
    ensures Drive(w, pc, ending).1 == Requeue <==> exists m :: m in Trace(w, pc) && Waits(m)
    decreases K.Rank(pc)
  {
    hide K.Call, K.Ending, Turn, Failed, Waits;
    var t, outcome := Turn(w, K.Busy(pc).value), Upcoming(w.slots).outcome;
    var (d, pc') := K.Call(t.cluster, pc, outcome);
    var first := Made(t.cluster, pc, outcome);
    K.CallDescends(t.cluster, pc, outcome);
    EndingMeans(t.cluster, pc, outcome);
    var rest := Trace(t.(cluster := d), pc');
    assert Trace(w, pc) == [first] + rest;
    if !pc'.Idle? { ResultMeans(t.(cluster := d), pc', K.Ending(t.cluster, pc, outcome)); }
  }

  // ----- without faults -----

  /** All calls succeed, nobody else acts, and jobs are listed in this order. */
  predicate Calm(w: World, order: seq<nat>) {
    |w.slots| >= 9 && forall i :: 0 <= i < |w.slots| ==> w.slots[i] == Slot([], K.Success(order))
  }

  /** The result from pc on, all calls succeeding and nobody else acting. */
  function Answer(c: Cluster, pc: K.Pc, order: seq<nat>, ending: Result): Result
    decreases K.Rank(pc)
  {
    if pc.Idle? then ending
    else
      K.CallDescends(c, pc, K.Success(order));
      var (d, pc') := K.Call(c, pc, K.Success(order));
      Answer(d, pc', order, K.Ending(c, pc, K.Success(order)))
  }

  lemma {:induction false} CalmDrive(w: World, pc: K.Pc, order: seq<nat>, ending: Result)
    requires |w.slots| >= K.Rank(pc) && forall i :: 0 <= i < |w.slots| ==> w.slots[i] == Slot([], K.Success(order))
    ensures Drive(w, pc, ending).0.cluster == KR.Finish(w.cluster, pc, order)
    ensures Drive(w, pc, ending).1 == Answer(w.cluster, pc, order, ending)
    decreases K.Rank(pc)
  {
    hide K.Call, K.Ending;
    if !pc.Idle? {
      var (d, pc') := K.Call(w.cluster, pc, K.Success(order));
      K.CallDescends(w.cluster, pc, K.Success(order));
      assert Turn(w, K.Busy(pc).value) == World(w.cluster, w.peer, w.slots[1..]);
      CalmDrive(World(d, w.peer, w.slots[1..]), pc', order, K.Ending(w.cluster, pc, K.Success(order)));
    }
  }

  lemma Step(c: Cluster, pc: K.Pc, order: seq<nat>, ending: Result, d: Cluster, pc': K.Pc)
    requires !pc.Idle? && K.Call(c, pc, K.Success(order)) == (d, pc')
    ensures Answer(c, pc, order, ending) == Answer(d, pc', order, K.Ending(c, pc, K.Success(order)))
    ensures pc'.Idle? ==> Answer(c, pc, order, ending) == K.Ending(c, pc, K.Success(order))
  {
    hide K.Call, K.Ending;
  }

  predicate ForeignSecret(c: Cluster, k: Key) {
    k.SecretName() in c.secrets && c.secrets[k.SecretName()].owners != [k.uid]
  }

  lemma AnswerAdding(c: Cluster, k: Key, r: Repository, order: seq<nat>, ending: Result)
    ensures Answer(c, K.GetSecret(k, r), order, ending) == if ForeignSecret(c, k) then Error else Done
  {
    var pc, d := K.AfterGetSecret(c, k, r), c.(secrets := c.secrets[k.SecretName() := Secret([k.uid])]);
    Step(c, K.GetSecret(k, r), order, ending, c, pc);
    if pc.CreateSecret? {
      Step(c, pc, order, Error, d, K.CreateAddJob(k, r));
      Step(d, K.CreateAddJob(k, r), order, Error, CreateKeyJob(d, AddKeyJob(r, k)), K.Idle);
    } else if pc.CreateAddJob? {
      Step(c, pc, order, Error, CreateKeyJob(c, AddKeyJob(r, k)), K.Idle);
    }
  }

  lemma AnswerReading(c: Cluster, k: Key, job: Job, order: seq<nat>, ending: Result)
    requires KeyUnchanged(c, k) && job.FinalCondition() == Some(JOB_COMPLETE) && ExtractKeyID(job.log).Some?
    ensures Answer(c, K.ReadLog(k, job), order, ending) == Done
  {
    hide MarkCreated, ExtractKeyID, AnyWithStatus;
    var l := K.WithCreated(k, ExtractKeyID(job.log).value);
    Step(c, K.ReadLog(k, job), order, ending, c, K.StoreStatus(k, l));
    Step(c, K.StoreStatus(k, l), order, Error, UpdateKeyStatus(c, k, l).value, K.Idle);
  }

  lemma AnswerDropping(c: Cluster, k: Key, reason: K.DropReason, order: seq<nat>, ending: Result)
    requires KeyUnchanged(c, k)
    ensures Answer(c, K.DropFinalizer(k, reason), order, ending) == Done
  {
    Step(c, K.DropFinalizer(k, reason), order, ending, PutKey(c, k.(finalizer := false)), K.Idle);
  }

  lemma AnswerRemoving(c: Cluster, k: Key, r: Repository, order: seq<nat>, ending: Result)
    requires DeleteKeyJob(r, k).Some?
    ensures Answer(c, K.CreateDeleteJob(k, r), order, ending) == Done
  {
    Step(c, K.CreateDeleteJob(k, r), order, ending, CreateKeyJob(c, DeleteKeyJob(r, k).value), K.Idle);
  }

  /** What follows the listing for a key under deletion. */
  lemma AnswerDeletion(c: Cluster, k: Key, r: Repository, order: seq<nat>, ending: Result)
    requires KeyUnchanged(c, k) && k.deleting && IsListing(c.jobs, k.name, order)
    ensures var answer := Answer(c, K.ListJobs(k, r), order, ending);
            && answer != Requeue && (answer == Error <==> !r.deleting && NoRemovalAmong(c.jobs, order) && NotRemovable(k, r))
  {
    hide HasTrue, AnyWithStatus, IsListing, Fetch, Answer, K.FirstJob, NoRemovalAmong;
    ListedIsThere(c.jobs, k.name, order);
    var jobs := Fetch(c.jobs, order);
    NoRemovalIsNone(c.jobs, order);
    PhasesRead(k, r);
    var pc := K.OnDeletion(k, r, jobs);
    Step(c, K.ListJobs(k, r), order, ending, c, pc);
    match pc {
      case DropFinalizer(_, reason) => AnswerDropping(c, k, reason, order, K.ListingEnding(k, jobs));
      case CreateDeleteJob(_, _) => AnswerRemoving(c, k, r, order, K.ListingEnding(k, jobs));
      case ReadRemovalLog(_) => Step(c, pc, order, K.ListingEnding(k, jobs), c, K.Idle);
      case _ =>
    }
  }

  predicate NothingListed(jobs: Jobs, n: string) {
    forall j :: j in jobs ==> !Listed(jobs, n, j)
  }

  lemma EmptyListing(jobs: Jobs, n: string, order: seq<nat>)
    requires IsListing(jobs, n, order)
    ensures order == [] <==> NothingListed(jobs, n)
    ensures (forall j :: j in order ==> j in jobs) && (Fetch(jobs, order) == [] <==> order == [])
  {
    if order != [] { assert order[0] in order; }
  }

  /** What follows the listing for a key without jobs. */
  lemma AnswerWithoutJob(c: Cluster, k: Key, r: Repository, order: seq<nat>, ending: Result)
    requires !k.deleting && IsListing(c.jobs, k.name, order) && NothingListed(c.jobs, k.name)
    ensures var answer := Answer(c, K.ListJobs(k, r), order, ending);
            && (answer == Requeue <==> !Finished(k) && Condition("Created", ConditionTrue) !in r.conditions)
            && (answer == Error <==> !Finished(k) && Condition("Created", ConditionTrue) in r.conditions && ForeignSecret(c, k))
  {
    hide HasTrue, IsListing, Fetch, Answer;
    ListedIsThere(c.jobs, k.name, order);
    EmptyListing(c.jobs, k.name, order);
    PhasesRead(k, r);
    var jobs := Fetch(c.jobs, order);
    Step(c, K.ListJobs(k, r), order, ending, c, K.AfterListJobs(k, r, jobs));
    if !k.IsCreated() && !k.IsFailed() && r.IsCreated() { AnswerAdding(c, k, r, order, K.ListingEnding(k, jobs)); }
  }

  /** What follows it for a key with its add job. */
  lemma AnswerWithJob(c: Cluster, k: Key, r: Repository, order: seq<nat>, ending: Result)
    requires ClusterOk(c) && KeyUnchanged(c, k) && !k.deleting && IsListing(c.jobs, k.name, order) && !NothingListed(c.jobs, k.name)
    ensures Answer(c, K.ListJobs(k, r), order, ending) == Done
  {
    hide HasTrue, IsListing, Fetch, Answer, ClusterOk, KR.OwnJobs, KR.Choose, AnyWithStatus, AddJobOf;
    ListedIsThere(c.jobs, k.name, order);
    EmptyListing(c.jobs, k.name, order);
    KR.LiveOwnJobs(c, k);
    var jobs := Fetch(c.jobs, order);
    var pc := K.AfterListJobs(k, r, jobs);
    KR.ListedChoice(c.jobs, k, r, order);
    Step(c, K.ListJobs(k, r), order, ending, c, pc);
    if !k.IsCreated() && !k.IsFailed() {
      var j := TheAddJob(c, k);
      KC.ChosenWithJob(c, k, r, j);
      KC.AddJobIsFound(c, k, j);
      if pc.ReadLog? { AnswerReading(c, k, c.jobs[j], order, K.ListingEnding(k, jobs)); }
    }
  }

  lemma TheAddJob(c: Cluster, k: Key) returns (j: nat)
    requires ClusterOk(c) && KeyUnchanged(c, k) && !k.deleting && !NothingListed(c.jobs, k.name)
    ensures AddJobOf(c.jobs, j, k.uid) && j in c.jobs
  {
    hide ClusterOk, HasTrue;
    KC.OnlyAddJobs(c, k);
    KR.LiveOwnJobs(c, k);
    j :| AddJobOf(c.jobs, j, k.uid);
  }

  // ----- in terms of the cluster -----

  /** The registration is refused: another controller, or a finalizer that may not be added any more. */
  predicate RegistrationRefused(k: Key, r: Repository) {
    k.conditions == [] && (k.deleting || ControlledByAnother(k, r))
  }

  /** The repository is missing; or it is not Created, and nothing has been started for a registered key. */
  predicate MustWait(c: Cluster, n: string) {
    && n in c.keys
    && var k := c.keys[n];
    && !k.deleting
    && (k.spec.repository in c.repos ==>
          && !RegistrationRefused(k, c.repos[k.spec.repository]) && !Finished(k) && NothingListed(c.jobs, n)
          && Condition("Created", ConditionTrue) !in c.repos[k.spec.repository].conditions)
  }

  predicate NoRemovalListed(jobs: Jobs, n: string) {
    forall j :: j in jobs && Listed(jobs, n, j) ==> jobs[j].operation != Some(DeleteKey)
  }

  /** Registration is refused; or the secret is foreign; or the key is to be removed and cannot be. */
  predicate MustFail(c: Cluster, n: string) {
    && n in c.keys && c.keys[n].spec.repository in c.repos
    && var k, r := c.keys[n], c.repos[c.keys[n].spec.repository];
    || RegistrationRefused(k, r)
    || (!k.deleting && !Finished(k) && NothingListed(c.jobs, n) && Condition("Created", ConditionTrue) in r.conditions && ForeignSecret(c, k))
    || (k.deleting && !r.deleting && NoRemovalListed(c.jobs, n) && NotRemovable(k, r))
  }

  lemma NoRemovalEitherWay(jobs: Jobs, n: string, order: seq<nat>)
    requires IsListing(jobs, n, order)
    ensures NoRemovalAmong(jobs, order) <==> NoRemovalListed(jobs, n)
  {
  }

  /** The listing and what follows, for a key with its default status. */
  lemma AnswerListed(c: Cluster, k: Key, r: Repository, order: seq<nat>, ending: Result)
    requires ClusterOk(c) && KeyUnchanged(c, k) && IsListing(c.jobs, k.name, order) && k.conditions != []
    requires k.spec.repository in c.repos && c.repos[k.spec.repository] == r
    ensures var answer := Answer(c, K.ListJobs(k, r), order, ending);
            (answer == Requeue <==> MustWait(c, k.name)) && (answer == Error <==> MustFail(c, k.name))
  {
    hide ClusterOk, IsListing, HasTrue, Answer, NoRemovalAmong, NoRemovalListed, NotRemovable, NothingListed;
    if k.deleting {
      AnswerDeletion(c, k, r, order, ending);
      NoRemovalEitherWay(c.jobs, k.name, order);
    } else if NothingListed(c.jobs, k.name) {
      AnswerWithoutJob(c, k, r, order, ending);
    } else {
      AnswerWithJob(c, k, r, order, ending);
    }
  }

  lemma NewFacts(c: Cluster, k: Key)
    requires ClusterOk(c) && KeyUnchanged(c, k) && k.conditions == []
    ensures NothingListed(c.jobs, k.name) && !k.carried && !k.finalizer && !Finished(k) && k.keyID.None?
  {
    hide BackendOk, ReposOk, KeyHome, JobShape, JobHome, HasTrue;
    assert KeyOk(c, k);
    HasTrueMeans([], CREATED);
    forall j | j in c.jobs ensures !Listed(c.jobs, k.name, j) { assert JobOwned(c.keys, c.jobs[j]); }
  }

  /** For a new key. */
  lemma AnswerNew(c: Cluster, k: Key, r: Repository, order: seq<nat>, ending: Result)
    requires ClusterOk(c) && KeyUnchanged(c, k) && IsListing(c.jobs, k.name, order) && k.conditions == []
    requires k.spec.repository in c.repos && c.repos[k.spec.repository] == r && r.name == k.spec.repository
    ensures var answer := Answer(c, K.DefaultStatus(k, r), order, ending);
            (answer == Requeue <==> MustWait(c, k.name)) && (answer == Error <==> MustFail(c, k.name))
  {
    hide ClusterOk, IsListing, HasTrue, Answer, NoRemovalListed, NotRemovable, NothingListed;
    NewFacts(c, k);
    var l := K.WithDefaults(k);
    var m, d := K.WithMetadata(l, r), KR.WithKey(c, l);
    assert K.OwnedByAnother(k, r) <==> ControlledByAnother(k, r);
    if K.OwnedByAnother(k, r) {
      Step(c, K.DefaultStatus(k, r), order, ending, d, K.Idle);
    } else {
      Step(c, K.DefaultStatus(k, r), order, ending, d, K.SetMetadata(l, r));
      if k.deleting {
        Step(d, K.SetMetadata(l, r), order, Error, d, K.Idle);
      } else {
        var e := KR.WithKey(d, m);
        Step(d, K.SetMetadata(l, r), order, Error, e, K.ListJobs(m, r));
        AnswerWithoutJob(e, m, r, order, Error);
        assert !Finished(m);
        assert ForeignSecret(e, m) <==> ForeignSecret(c, k);
      }
    }
  }

  lemma AnswerMeans(c: Cluster, n: string, order: seq<nat>)
    requires ClusterOk(c) && IsListing(c.jobs, n, order)
    ensures var answer := Answer(c, K.GetKey(n), order, Done);
            (answer == Requeue <==> MustWait(c, n)) && (answer == Error <==> MustFail(c, n))
  {
    hide ClusterOk, IsListing, HasTrue, Answer, NoRemovalListed, NotRemovable, NothingListed, RegistrationRefused, KeyOk;
    if n !in c.keys {
      Step(c, K.GetKey(n), order, Done, c, K.Idle);
    } else {
      LiveFacts(c, n);
      var k := c.keys[n];
      Step(c, K.GetKey(n), order, Done, c, K.GetRepo(k));
      if k.spec.repository !in c.repos {
        if k.deleting {
          Step(c, K.GetRepo(k), order, Done, c, K.DropFinalizer(k, K.RepoGone));
          AnswerDropping(c, k, K.RepoGone, order, Requeue);
        } else {
          Step(c, K.GetRepo(k), order, Done, c, K.Idle);
        }
      } else {
        var r := c.repos[k.spec.repository];
        NameOfRepository(c, k.spec.repository);
        Step(c, K.GetRepo(k), order, Done, c, K.AfterGetRepo(k, r));
        if k.conditions == [] { AnswerNew(c, k, r, order, Requeue); } else { AnswerListed(c, k, r, order, Requeue); }
      }
    }
  }

  /**
    From every reachable state, when all calls succeed and nobody acts in between: a reconcile is to be repeated exactly
    if there is something to wait for, and ends in an error exactly if it cannot succeed; otherwise it is done.
   */
  lemma ResultExactly(w: World, n: string, order: seq<nat>)
    requires Reachable(State(w.cluster, K.Idle, w.peer)) && Calm(w, order) && IsListing(w.cluster.jobs, n, order)
    ensures var result := Drive(w, K.GetKey(n), Done).1;
            (result == Requeue <==> MustWait(w.cluster, n)) && (result == Error <==> MustFail(w.cluster, n))
  {
    hide Inv, Reachable, IsListing, Answer, Drive, MustWait, MustFail, ClusterOk;
    ReachableInv(State(w.cluster, K.Idle, w.peer));
    ClusterOfInv(State(w.cluster, K.Idle, w.peer));
    CalmDrive(w, K.GetKey(n), order, Done);
    AnswerMeans(w.cluster, n, order);
  }

  // ----- progress -----

  /** The key is gone or under deletion, is Created or Failed, or has an add job. */
  ghost predicate Progressed(c: Cluster, n: string) {
    n in c.keys ==> c.keys[n].deleting || Finished(c.keys[n]) || HasAddJob(c.jobs, c.keys[n].uid)
  }

  lemma AddedHasJob(c: Cluster, k: Key, r: Repository)
    requires !ForeignSecret(c, k)
    ensures HasAddJob(KR.Added(c, k, r).jobs, k.uid) && KR.Added(c, k, r).keys == c.keys
  {
    var job := AddKeyJob(r, k);
    assert job.owner == k.uid && job.IsAdd();
    hide AddKeyJob, HasTrue;
    AddingKeepsKeys(c, k, r);
    var d := KR.Added(c, k, r);
    assert d.jobs == c.jobs[c.nextUid := job];
    assert AddJobOf(d.jobs, c.nextUid, k.uid);
  }

  lemma DeletionProgresses(c: Cluster, k: Key)
    requires ClusterOk(c) && KeyUnchanged(c, k) && k.deleting && (k.conditions != [] || k.spec.repository !in c.repos)
    ensures Progressed(KR.Effect(c, k.name), k.name)
  {
    hide ClusterOk, HasTrue, HasAddJob, DeleteJobOf, KR.Effect, PutKey, KR.HomeIsKept;
    PutStaysDeleting(c, k);
    if k.conditions != [] {
      KR.DeletionStep(c, k);
      if KR.HomeIsKept(c, k) && HasDeleteJob(c.jobs, k.uid) { var j :| DeleteJobOf(c.jobs, j, k.uid); }
    } else {
      MissingRepository(c, k);
    }
  }

  lemma PutStaysDeleting(c: Cluster, k: Key)
    requires KeyUnchanged(c, k) && k.deleting
    ensures Progressed(PutKey(c, k.(finalizer := false)), k.name)
  {
    hide HasTrue, HasAddJob;
  }

  lemma MissingRepository(c: Cluster, k: Key)
    requires KeyUnchanged(c, k) && k.deleting && k.spec.repository !in c.repos
    ensures KR.Effect(c, k.name) == PutKey(c, k.(finalizer := false))
  {
    hide PutKey, HasTrue;
  }

  lemma JobProgresses(c: Cluster, k: Key)
    requires ClusterOk(c) && KeyUnchanged(c, k) && !k.deleting && HasAddJob(c.jobs, k.uid) && k.spec.repository in c.repos
    ensures Progressed(KR.Effect(c, k.name), k.name)
  {
    hide ClusterOk, HasTrue, KR.Effect, K.WithCreated, AddJobOf;
    if k.IsCreated() {
      KC.NotFailed(c, k);
      KC.CreatedRests(c, k);
    } else {
      var j :| AddJobOf(c.jobs, j, k.uid);
      JobIsIn(c.jobs, j, k.uid);
      KC.WithJob(c, k, j);
      KC.AddJobIsFound(c, k, j);
      if c.jobs[j].IsComplete() { KC.WithCreatedKeeps(k, c.jobs[j].added.value); }
    }
  }

  lemma JobIsIn(jobs: Jobs, j: nat, u: nat)
    requires AddJobOf(jobs, j, u)
    ensures j in jobs
  {
  }

  lemma NoJobProgresses(c: Cluster, k: Key, r: Repository)
    requires ClusterOk(c) && KeyUnchanged(c, k) && !k.deleting && !HasAddJob(c.jobs, k.uid)
    requires k.spec.repository in c.repos && c.repos[k.spec.repository] == r && r.name == k.spec.repository
    requires !MustWait(c, k.name) && !MustFail(c, k.name)
    ensures Progressed(KR.Effect(c, k.name), k.name)
  {
    hide ClusterOk, HasTrue, KR.Effect, KR.Added, AddJobOf, HasAddJob, NoRemovalListed, NotRemovable, NothingListed;
    PhasesRead(k, r);
    NothingIsListed(c, k);
    if k.IsCreated() {
      KC.NotFailed(c, k);
      KC.CreatedRests(c, k);
    } else {
      KC.NotFailed(c, k);
      KC.StartsWithoutJob(c, k, r);
      var m := KC.Registering(k, r);
      AddedHasJob(KR.WithKey(c, m), m, r);
    }
  }

  lemma NothingIsListed(c: Cluster, k: Key)
    requires ClusterOk(c) && KeyUnchanged(c, k) && !k.deleting && !HasAddJob(c.jobs, k.uid)
    ensures NothingListed(c.jobs, k.name)
  {
    hide ClusterOk, HasTrue, HasAddJob, AddJobOf;
    KC.OnlyAddJobs(c, k);
    KR.LiveOwnJobs(c, k);
  }

  lemma DoneIsProgress(c: Cluster, n: string)
    requires ClusterOk(c) && !MustWait(c, n) && !MustFail(c, n)
    ensures Progressed(KR.Effect(c, n), n)
  {
    hide ClusterOk, HasTrue, KR.Effect, KeyOk, Progressed, HasAddJob;
    if n in c.keys {
      LiveFacts(c, n);
      var k := c.keys[n];
      if k.deleting {
        DeletionProgresses(c, k);
      } else {
        NameOfRepository(c, k.spec.repository);
        if HasAddJob(c.jobs, k.uid) { JobProgresses(c, k); } else { NoJobProgresses(c, k, c.repos[k.spec.repository]); }
      }
    } else {
      NoKeyNoEffect(c, n);
    }
  }

  lemma NoKeyNoEffect(c: Cluster, n: string)
    requires n !in c.keys
    ensures Progressed(KR.Effect(c, n), n)
  {
  }

  /** A reconcile that ends with nothing to do has left nothing undone that it could have started. */
  lemma DoneMeansProgress(w: World, n: string, order: seq<nat>)
    requires Reachable(State(w.cluster, K.Idle, w.peer)) && Calm(w, order) && IsListing(w.cluster.jobs, n, order)
    ensures var end := Drive(w, K.GetKey(n), Done); end.1 == Done ==> Progressed(end.0.cluster, n)
  {
    hide Inv, Reachable, IsListing, Answer, Drive, MustWait, MustFail, ClusterOk, Progressed, KR.Effect;
    ReachableInv(State(w.cluster, K.Idle, w.peer));
    ClusterOfInv(State(w.cluster, K.Idle, w.peer));
    ResultExactly(w, n, order);
    CalmDrive(w, K.GetKey(n), order, Done);
    KR.ReconcileHasEffect(w.cluster, n, order);
    if !MustWait(w.cluster, n) && !MustFail(w.cluster, n) { DoneIsProgress(w.cluster, n); }
  }

  // ----- logs -----

  /** The log of a delete job that has failed is read, and a failure to read it is an error. */
  lemma FailedRemovalsAreRead(c: Cluster, k: Key, r: Repository, order: seq<nat>)
    requires IsListing(c.jobs, k.name, order) && k.deleting && !r.deleting
    requires (forall j :: j in order ==> j in c.jobs) && K.FirstJob(Fetch(c.jobs, order), DeleteKey).Some?
    requires K.FirstJob(Fetch(c.jobs, order), DeleteKey).value.FinalCondition() == Some("Failed")
    ensures K.Call(c, K.ListJobs(k, r), K.Success(order)) == (c, K.ReadRemovalLog(k))
  {
    hide HasTrue, AnyWithStatus, IsListing, Fetch, K.FirstJob;
  }
}
