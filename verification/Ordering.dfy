/** The order in which the two controllers act: an add-key job comes after everything its repository went through. */
module Ordering {
  import opened Options
  import opened Conditions
  import opened KeyLog
  import opened Resources
  import opened ApiServer
  import opened Operator
  import opened Invariant
  import opened Safety
  import E = Environment
  import K = KeyController
  import R = RepositoryController
  import RepositorySteps

  /** The state after the first i actions of a run from the beginning. */
  function At(actions: seq<Action>, i: nat): State
    requires i <= |actions|
  {
    Run(INITIAL, actions[..i])
  }

  lemma AtNext(actions: seq<Action>, i: nat)
    requires i < |actions|
    ensures Inv(At(actions, i)) && At(actions, i + 1) == Next(At(actions, i), actions[i])
  {
    hide Inv;
    assert actions[..i + 1][..i] == actions[..i];
    Initially();
    RunKeepsInv(INITIAL, actions[..i]);
  }

  lemma AtStart(actions: seq<Action>)
    ensures At(actions, 0) == INITIAL
  {
  }

  // ----- the stages of a repository -----

  ghost predicate Existing(c: Cluster, n: string, u: nat) {
    n in c.repos && c.repos[n].uid == u
  }

  ghost predicate SecretReady(c: Cluster, u: nat) {
    exists n :: Existing(c, n, u) && SecretOwned(c.secrets, c.repos[n].OperatorSecretName(), u)
  }

  /** The init job is the repository's own and mounts its operator secret. */
  ghost predicate OwnInitJob(c: Cluster, n: string, u: nat) {
    n in c.initJobs && c.initJobs[n].owner == u && c.initJobs[n].mounts == ["operator-key-" + n]
  }

  ghost predicate InitStarted(c: Cluster, u: nat) {
    exists n :: Existing(c, n, u) && OwnInitJob(c, n, u)
  }

  ghost predicate InitDone(c: Cluster, u: nat) {
    exists n :: Existing(c, n, u) && OwnInitJob(c, n, u) && c.initJobs[n].IsComplete()
  }

  ghost predicate Created(c: Cluster, u: nat) {
    exists n :: Existing(c, n, u) && c.repos[n].IsCreated()
  }

  // ----- one step back from each stage -----

  /** The repository is new, or it was there before with the same status or the one its controller now writes. */
  ghost predicate CameFrom(s: State, d: Cluster, n: string, u: nat)
    requires n in d.repos
  {
    var c := s.cluster;
    || (n !in c.initJobs && d.repos[n].conditions == [])
    || (Existing(c, n, u)
        && (|| d.repos[n].conditions == c.repos[n].conditions
            || (s.repo.DefaultStatus? && c.repos[n] == s.repo.repo && d.repos[n].conditions == DEFAULT_PHASE)
            || (s.repo.StoreStatus? && c.repos[n] == s.repo.repo && d.repos[n].conditions == s.repo.updated.conditions)))
  }

  lemma EventCameFrom(s: State, e: E.Event, n: string, u: nat)
    requires RepoIds(s.cluster) && Existing(Next(s, Environment(e)).cluster, n, u)
    ensures CameFrom(s, Next(s, Environment(e)).cluster, n, u)
  {
    var c, d := s.cluster, Next(s, Environment(e)).cluster;
    if !E.OnRepositories(e) || d == c {
      E.HappenFrame(c, K.Busy(s.key), R.Busy(s.repo), e);
    } else if e.CreateRepository? {
      assert d == E.NewRepository(c, e.name, e.url, e.held);
    } else {
      var r := c.repos[e.name];
      assert d == PutRepository(c, if e.EditRepository? then r.(url := e.url)
                                   else if e.DeleteRepository? then r.(deleting := true, held := r.held || e.foreground)
                                   else r.(held := false));
      assert n in c.repos;
    }
  }

  lemma CallCameFrom(s: State, ok: bool, n: string, u: nat)
    requires RepoIds(s.cluster) && RepoPcOk(s.cluster, s.repo) && Existing(Next(s, RepositoryCall(ok)).cluster, n, u)
    ensures CameFrom(s, Next(s, RepositoryCall(ok)).cluster, n, u)
  {
    var c, d := s.cluster, Next(s, RepositoryCall(ok)).cluster;
    R.CallFrame(c, s.repo, ok);
    if d != c {
      if s.repo.DefaultStatus? {
        assert Some(d) == UpdateRepositoryStatus(c, s.repo.repo, R.WithDefaults(s.repo.repo));
      } else if s.repo.StoreStatus? {
        assert Some(d) == UpdateRepositoryStatus(c, s.repo.repo, s.repo.updated);
      }
    }
  }

  lemma StepCameFrom(s: State, a: Action, n: string, u: nat)
    requires RepoIds(s.cluster) && RepoPcOk(s.cluster, s.repo) && Existing(Next(s, a).cluster, n, u)
    ensures CameFrom(s, Next(s, a).cluster, n, u)
  {
    hide K.Call, R.Call, E.Happen, RepoPcOk;
    match a
    case Environment(e) => EventCameFrom(s, e, n, u);
    case RepositoryCall(ok) => CallCameFrom(s, ok, n, u);
    case KeyCall(outcome) => K.CallFrame(s.cluster, s.key, outcome);
    case _ =>
  }

  /** Created appears only while the repository's own init job is complete. */
  lemma StepCreated(s: State, a: Action, u: nat)
    requires Inv(s) && Created(Next(s, a).cluster, u) && !Created(s.cluster, u)
    ensures InitDone(s.cluster, u)
  {
    hide KeysOk, JobsOk, BackendOk, KeyPcOk, KeyIds, JobIds, Next, MarkCreated, MarkFailed;
    var c, d := s.cluster, Next(s, a).cluster;
    var n :| Existing(d, n, u) && d.repos[n].IsCreated();
    StepCameFrom(s, a, n, u);
    DefaultPhaseIsPhased();
    assert Existing(c, n, u) && s.repo.StoreStatus? && c.repos[n] == s.repo.repo;
    RepositorySteps.Marked(s.repo.repo.conditions);
    assert InitJobOk(c.repos, c.secrets, n, c.initJobs[n]);
  }

  predicate SameInit(c: Cluster, d: Cluster, n: string) {
    (n in c.initJobs <==> n in d.initJobs) && (n in c.initJobs ==> c.initJobs[n] == d.initJobs[n])
  }

  /** An init job changes by being created, by finishing or by being collected. */
  ghost predicate InitMoves(s: State, d: Cluster, n: string) {
    || SameInit(s.cluster, d, n)
    || (n in d.initJobs && n !in s.cluster.initJobs && s.repo.CreateJob? && s.repo.repo.name == n
        && d.initJobs[n] == RepositoryInitJob(s.repo.repo) && d.repos == s.cluster.repos)
    || (n in d.initJobs && n in s.cluster.initJobs && d.initJobs[n].owner == s.cluster.initJobs[n].owner
        && !s.cluster.initJobs[n].Finished())
    || n !in d.initJobs
  }

  lemma StepInit(s: State, a: Action, n: string)
    ensures InitMoves(s, Next(s, a).cluster, n)
  {
    hide K.Call, E.Happen, E.RepositoryEvent, E.KeyEvent, E.KeyJobEvent, E.SecretEvent;
    var c, d := s.cluster, Next(s, a).cluster;
    match a
    case Environment(e) =>
      E.HappenFrame(c, K.Busy(s.key), R.Busy(s.repo), e);
      if E.OnInitJobs(e) { EventInit(s, e, n); }
    case RepositoryCall(ok) =>
      R.CallFrame(c, s.repo, ok);
      if d != c && s.repo.CreateJob? { assert Some(d) == CreateInitJob(c, RepositoryInitJob(s.repo.repo)); }
    case KeyCall(outcome) => K.CallFrame(c, s.key, outcome);
    case _ =>
  }

  lemma EventInit(s: State, e: E.Event, n: string)
    requires E.OnInitJobs(e)
    ensures InitMoves(s, Next(s, Environment(e)).cluster, n)
  {
    var c, d := s.cluster, Next(s, Environment(e)).cluster;
    if d != c {
      if e.FinishInitJob? {
        assert d == E.ConcludeInit(c, e.name, e.early, e.ok);
      } else {
        assert d == c.(initJobs := c.initJobs - {e.name});
      }
    }
  }

  /** An init job completes only after having been there unfinished. */
  lemma StepDone(s: State, a: Action, u: nat)
    requires Inv(s) && InitDone(Next(s, a).cluster, u) && !InitDone(s.cluster, u)
    ensures InitStarted(s.cluster, u)
  {
    hide KeysOk, JobsOk, BackendOk, KeyPcOk, KeyIds, JobIds, Next;
    var c, d := s.cluster, Next(s, a).cluster;
    var n :| Existing(d, n, u) && OwnInitJob(d, n, u) && d.initJobs[n].IsComplete();
    StepCameFrom(s, a, n, u);
    StepInit(s, a, n);
  }

  /** An init job is created only when the secret it mounts is there and owned by the repository alone. */
  lemma StepStarted(s: State, a: Action, u: nat)
    requires Inv(s) && InitStarted(Next(s, a).cluster, u) && !InitStarted(s.cluster, u)
    ensures SecretReady(s.cluster, u)
  {
    hide KeysOk, JobsOk, BackendOk, KeyPcOk, KeyIds, JobIds, Next;
    var c, d := s.cluster, Next(s, a).cluster;
    var n :| Existing(d, n, u) && OwnInitJob(d, n, u);
    StepCameFrom(s, a, n, u);
    StepInit(s, a, n);
    assert Existing(c, n, u) && s.repo.CreateJob? && s.repo.repo.name == n;
    assert s.repo.repo.uid == u && s.repo.repo.OperatorSecretName() == c.repos[n].OperatorSecretName();
  }

  // ----- the key controller's copy of the repository -----

  /** Something the key controller did or is about to do rests on this repository being Created. */
  ghost predicate ReliesOn(s: State, u: nat) {
    || (HoldsRepo(s.key) && s.key.repo.uid == u && s.key.repo.IsCreated())
    || (exists j :: j in s.cluster.jobs && s.cluster.jobs[j].IsAdd() && s.cluster.jobs[j].repoUid == u)
  }

  predicate SameJobs(c: Cluster, d: Cluster) {
    forall j :: j in d.jobs ==> j in c.jobs && d.jobs[j].operation == c.jobs[j].operation && d.jobs[j].repoUid == c.jobs[j].repoUid
  }

  lemma EventSameJobs(s: State, e: E.Event)
    ensures SameJobs(s.cluster, Next(s, Environment(e)).cluster)
  {
    var c, d := s.cluster, Next(s, Environment(e)).cluster;
    E.HappenFrame(c, K.Busy(s.key), R.Busy(s.repo), e);
    if E.OnKeyJobs(e) && d != c {
      match e
      case FinishAddJob(j, early, pre, id, post) => assert d == E.CompleteAdd(c, j, early, pre + MARKER + id + post, id);
      case FinishDeleteJob(j, early) => assert d == E.CompleteDelete(c, j, early);
      case FailKeyJob(j, early, log) => assert d == E.Fail(c, j, early, log);
      case CollectJob(j) => assert d == E.Collect(c, j);
    }
  }

  /** A call keeps the copy it works with or has just read it from the cluster. */
  lemma CallCopies(c: Cluster, pc: K.Pc, outcome: K.Outcome)
    ensures var pc' := K.Call(c, pc, outcome).1;
            HoldsRepo(pc') ==> (HoldsRepo(pc) && pc'.repo == pc.repo) || (exists n :: n in c.repos && c.repos[n] == pc'.repo)
  {
    hide MarkCreated, MarkFailed;
  }

  lemma CallAddsJob(c: Cluster, pc: K.Pc, outcome: K.Outcome)
    ensures var d := K.Call(c, pc, outcome).0;
            SameJobs(c, d) || (pc.CreateAddJob? && d == CreateKeyJob(c, AddKeyJob(pc.repo, pc.key)))
            || (pc.CreateDeleteJob? && exists job: Job :: job.IsDelete() && d == CreateKeyJob(c, job))
  {
    K.CallFrame(c, pc, outcome);
  }

  lemma StepRelies(s: State, a: Action, u: nat)
    requires Inv(s) && ReliesOn(Next(s, a), u) && !ReliesOn(s, u)
    ensures Created(s.cluster, u)
  {
    hide ClusterOk, RepoPcOk, K.Call, R.Call, E.Happen, Tracks, TracksRepo, StepJobs, DropOk;
    match a
    case Environment(e) => EventSameJobs(s, e);
    case RepositoryCall(ok) => R.CallFrame(s.cluster, s.repo, ok);
    case KeyCall(outcome) =>
      CallAddsJob(s.cluster, s.key, outcome);
      CallCopies(s.cluster, s.key, outcome);
      var t := Next(s, a);
      var n :| n in s.cluster.repos && s.cluster.repos[n] == t.key.repo;
      assert Existing(s.cluster, n, u);
    case _ =>
  }

  // ----- from one step to the run -----

  lemma NothingInitially(u: nat)
    ensures !Created(EMPTY, u) && !InitDone(EMPTY, u) && !InitStarted(EMPTY, u) && !ReliesOn(INITIAL, u)
  {
  }

  lemma {:induction false} InitStartedAfterSecret(actions: seq<Action>, k: nat, u: nat) returns (i: nat)
    requires k <= |actions| && InitStarted(At(actions, k).cluster, u)
    ensures i < k && SecretReady(At(actions, i).cluster, u)
  {
    NothingInitially(u);
    AtStart(actions);
    hide Inv, At, InitStarted, SecretReady;
    i := k - 1;
    if InitStarted(At(actions, i).cluster, u) {
      i := InitStartedAfterSecret(actions, i, u);
    } else {
      AtNext(actions, i);
      StepStarted(At(actions, i), actions[i], u);
    }
  }

  lemma {:induction false} InitDoneAfterStarted(actions: seq<Action>, k: nat, u: nat) returns (i: nat)
    requires k <= |actions| && InitDone(At(actions, k).cluster, u)
    ensures i < k && InitStarted(At(actions, i).cluster, u)
  {
    NothingInitially(u);
    AtStart(actions);
    hide Inv, At, InitStarted, InitDone;
    i := k - 1;
    if InitDone(At(actions, i).cluster, u) {
      i := InitDoneAfterStarted(actions, i, u);
    } else {
      AtNext(actions, i);
      StepDone(At(actions, i), actions[i], u);
    }
  }

  lemma {:induction false} CreatedAfterDone(actions: seq<Action>, k: nat, u: nat) returns (i: nat)
    requires k <= |actions| && Created(At(actions, k).cluster, u)
    ensures i < k && InitDone(At(actions, i).cluster, u)
  {
    NothingInitially(u);
    AtStart(actions);
    hide Inv, At, Created, InitDone;
    i := k - 1;
    if Created(At(actions, i).cluster, u) {
      i := CreatedAfterDone(actions, i, u);
    } else {
      AtNext(actions, i);
      StepCreated(At(actions, i), actions[i], u);
    }
  }

  lemma {:induction false} RelianceAfterCreated(actions: seq<Action>, k: nat, u: nat) returns (i: nat)
    requires k <= |actions| && ReliesOn(At(actions, k), u)
    ensures i < k && Created(At(actions, i).cluster, u)
  {
    NothingInitially(u);
    AtStart(actions);
    hide Inv, At, Created, ReliesOn;
    i := k - 1;
    if ReliesOn(At(actions, i), u) {
      i := RelianceAfterCreated(actions, i, u);
    } else {
      AtNext(actions, i);
      StepRelies(At(actions, i), actions[i], u);
    }
  }

  /**
    In every run, before an add-key job exists its repository was Created; before that, the repository's
    own init job was complete; before that, the job was there and not yet complete or was complete already;
    and before it was there, an operator secret owned by that repository alone existed.
   */
  lemma AddJobComesLast(actions: seq<Action>, k: nat, j: nat)
    returns (secret: nat, started: nat, done: nat, created: nat)
    requires k <= |actions| && j in At(actions, k).cluster.jobs && At(actions, k).cluster.jobs[j].IsAdd()
    ensures var u := At(actions, k).cluster.jobs[j].repoUid;
            && secret < started < done < created < k
            && SecretReady(At(actions, secret).cluster, u) && InitStarted(At(actions, started).cluster, u)
            && InitDone(At(actions, done).cluster, u) && Created(At(actions, created).cluster, u)
  {
    var u := At(actions, k).cluster.jobs[j].repoUid;
    assert ReliesOn(At(actions, k), u);
    created := RelianceAfterCreated(actions, k, u);
    done := CreatedAfterDone(actions, created, u);
    started := InitDoneAfterStarted(actions, done, u);
    secret := InitStartedAfterSecret(actions, started, u);
  }
}
