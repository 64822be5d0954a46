/** How often the repository controller writes on behalf of one repository, over any run. */
module RepositoryWork {
  import opened Options
  import opened Conditions
  import opened Resources
  import opened ApiServer
  import opened Operator
  import opened Invariant
  import opened Safety
  import opened Histories
  import E = Environment
  import K = KeyController
  import R = RepositoryController
  import RepositorySteps

  predicate HoldsRepository(pc: R.Pc) {
    !pc.Idle? && !pc.GetRepo?
  }

  /** The repository controller changes the cluster on behalf of the repository with this UID. */
  ghost predicate Wrote(s: State, a: Action, u: nat) {
    a.RepositoryCall? && HoldsRepository(s.repo) && s.repo.repo.uid == u && Next(s, a).cluster != s.cluster
  }

  ghost function Writes(s: State, actions: seq<Action>, u: nat): nat
    decreases |actions|
  {
    if actions == [] then 0
    else
      var before := actions[..|actions| - 1];
      Writes(s, before, u) + if Wrote(Run(s, before), actions[|actions| - 1], u) then 1 else 0
  }

  // ----- the writes that are left -----

  /** Default status, secret, init job, final status. */
  function LiveWork(secrets: Secrets, initJobs: InitJobs, r: Repository): (w: nat)
    ensures w <= 4
  {
    One(r.conditions == []) + One(!SecretOwned(secrets, r.OperatorSecretName(), r.uid))
    + One(r.name !in initJobs) + One(!r.IsCreated() && !r.IsFailed())
  }

  /** What a reconcile in progress may still write once its repository is gone. */
  function InFlight(pc: R.Pc): nat {
    match pc
    case GetJob(_) => 2
    case GetSecret(_) => 2
    case CreateSecret(_) => 2
    case CreateJob(_) => 1
    case _ => 0
  }

  ghost function Work(s: State, u: nat): nat {
    if u >= s.cluster.nextUid then 5
    else if E.LiveRepository(s.cluster, u) then
      var n :| n in s.cluster.repos && s.cluster.repos[n].uid == u;
      1 + LiveWork(s.cluster.secrets, s.cluster.initJobs, s.cluster.repos[n])
    else if HoldsRepository(s.repo) && s.repo.repo.uid == u then InFlight(s.repo)
    else 0
  }

  lemma LiveRepositoryWork(s: State, n: string)
    requires RepoIds(s.cluster) && n in s.cluster.repos
    ensures Work(s, s.cluster.repos[n].uid) == 1 + LiveWork(s.cluster.secrets, s.cluster.initJobs, s.cluster.repos[n])
  {
    hide LiveWork;
    assert E.LiveRepository(s.cluster, s.cluster.repos[n].uid);
  }

  // ----- work never grows -----

  predicate SameProgress(r: Repository, q: Repository) {
    q.uid == r.uid && q.name == r.name && q.conditions == r.conditions
  }

  /** Secrets and init jobs of existing owners stay. */
  predicate Keeps(c: Cluster, d: Cluster, r: Repository) {
    && (SecretOwned(c.secrets, r.OperatorSecretName(), r.uid) ==> SecretOwned(d.secrets, r.OperatorSecretName(), r.uid))
    && (r.name in c.initJobs ==> r.name in d.initJobs)
  }

  lemma InFlightFits(c: Cluster, pc: R.Pc)
    requires RepoPcOk(c, pc) && HoldsRepository(pc) && pc.repo.name in c.repos
    ensures InFlight(pc) <= 1 + LiveWork(c.secrets, c.initJobs, c.repos[pc.repo.name])
  {
    assert SameRepo(pc.repo, c.repos[pc.repo.name]);
  }

  /**
    What a step that writes nothing for the repository may do: the repository keeps its progress, is removed or
    is created; the reconcile in progress goes on with the same repository, or ends.
   */
  ghost predicate Quiet(s: State, t: State, u: nat) {
    var c, d := s.cluster, t.cluster;
    && c.nextUid <= d.nextUid
    && (forall n :: n in d.repos && d.repos[n].uid == u && u < c.nextUid ==>
          n in c.repos && SameProgress(c.repos[n], d.repos[n]) && Keeps(c, d, c.repos[n]))
    && (HoldsRepository(t.repo) && t.repo.repo.uid == u ==>
          t.repo == s.repo || E.LiveRepository(d, u)
          || (HoldsRepository(s.repo) && s.repo.repo == t.repo.repo && InFlight(t.repo) <= InFlight(s.repo)))
  }

  lemma QuietWork(s: State, t: State, u: nat)
    requires RepoIds(s.cluster) && RepoIds(t.cluster) && RepoPcOk(s.cluster, s.repo) && RepoPcOk(t.cluster, t.repo)
    requires Quiet(s, t, u)
    ensures Work(t, u) <= Work(s, u)
  {
    var c, d := s.cluster, t.cluster;
    hide InFlight;
    if E.LiveRepository(d, u) {
      var n :| n in d.repos && d.repos[n].uid == u;
      LiveRepositoryWork(t, n);
      if u < c.nextUid { LiveRepositoryWork(s, n); }
    } else if u < c.nextUid && HoldsRepository(t.repo) && t.repo.repo.uid == u {
      if E.LiveRepository(c, u) {
        var n :| n in c.repos && c.repos[n].uid == u;
        LiveRepositoryWork(s, n);
        assert SameRepo(s.repo.repo, c.repos[s.repo.repo.name]);
        InFlightFits(c, s.repo);
      }
    } else {
      InFlightBound(t.repo);
    }
  }

  lemma InFlightBound(pc: R.Pc)
    ensures InFlight(pc) <= 2
  {
  }

  // ----- steps of the environment and of the key controller -----

  lemma SameReposQuiet(s: State, t: State, u: nat)
    requires t.repo == s.repo && t.cluster.repos == s.cluster.repos && s.cluster.nextUid <= t.cluster.nextUid
    requires forall n :: n in s.cluster.repos ==> Keeps(s.cluster, t.cluster, s.cluster.repos[n])
    ensures Quiet(s, t, u)
  {
  }

  lemma PutRepositoryQuiet(s: State, r: Repository, u: nat)
    requires RepoIds(s.cluster) && r.name in s.cluster.repos && SameProgress(s.cluster.repos[r.name], r)
    ensures Quiet(s, s.(cluster := PutRepository(s.cluster, r)), u)
  {
    hide HasTrue;
  }

  lemma RepositoryEventQuiet(s: State, e: E.Event, u: nat)
    requires RepoIds(s.cluster) && E.OnRepositories(e)
    ensures Quiet(s, Next(s, Environment(e)), u)
  {
    var c, d := s.cluster, Next(s, Environment(e)).cluster;
    if d == c {
    } else if e.CreateRepository? {
      assert d == E.NewRepository(c, e.name, e.url, e.held);
    } else {
      hide Quiet;
      var r := c.repos[e.name];
      var q := if e.EditRepository? then r.(url := e.url)
               else if e.DeleteRepository? then r.(deleting := true, held := r.held || e.foreground)
               else r.(held := false);
      assert d == PutRepository(c, q);
      PutRepositoryQuiet(s, q, u);
    }
  }

  lemma SecretEventKeeps(c: Cluster, e: E.Event, n: string)
    requires E.OnSecrets(e) && n in c.repos
    ensures Keeps(c, E.SecretEvent(c, e), c.repos[n])
  {
    if SecretOwned(c.secrets, c.repos[n].OperatorSecretName(), c.repos[n].uid) {
      assert E.LiveRepository(c, c.repos[n].uid);
      assert c.repos[n].uid in c.secrets[c.repos[n].OperatorSecretName()].owners;
    }
  }

  lemma InitJobEventKeeps(c: Cluster, e: E.Event, n: string)
    requires E.OnInitJobs(e) && RepoIds(c) && ReposOk(c.repos, c.initJobs, c.secrets) && n in c.repos
    ensures Keeps(c, E.InitJobEvent(c, e), c.repos[n])
  {
    assert E.LiveRepository(c, c.repos[n].uid);
    if n in c.initJobs { assert InitJobOk(c.repos, c.secrets, n, c.initJobs[n]); }
  }

  lemma EventQuiet(s: State, e: E.Event, u: nat)
    requires RepoIds(s.cluster) && ReposOk(s.cluster.repos, s.cluster.initJobs, s.cluster.secrets)
    ensures Quiet(s, Next(s, Environment(e)), u)
  {
    var c, t := s.cluster, Next(s, Environment(e));
    if E.OnRepositories(e) {
      RepositoryEventQuiet(s, e, u);
    } else {
      hide Quiet, ReposOk, RepoIds;
      E.HappenFrame(c, K.Busy(s.key), R.Busy(s.repo), e);
      forall n | n in c.repos ensures Keeps(c, t.cluster, c.repos[n]) {
        if E.OnSecrets(e) { SecretEventKeeps(c, e, n); }
        else if E.OnInitJobs(e) { InitJobEventKeeps(c, e, n); }
      }
      hide E.Happen;
      SameReposQuiet(s, t, u);
    }
  }

  lemma KeyCallQuiet(s: State, outcome: K.Outcome, u: nat)
    ensures Quiet(s, Next(s, KeyCall(outcome)), u)
  {
    hide Quiet;
    var c, t := s.cluster, Next(s, KeyCall(outcome));
    K.CallFrame(c, s.key, outcome);
    if s.key.CreateSecret? && t.cluster != c {
      assert Some(t.cluster) == ApiServer.CreateSecret(c, s.key.key.SecretName(), Secret([s.key.key.uid]));
    }
    hide K.Call;
    SameReposQuiet(s, t, u);
  }

  // ----- calls of the repository controller -----

  /** A call that writes nothing. */
  lemma IdleCallQuiet(s: State, ok: bool, u: nat)
    requires Next(s, RepositoryCall(ok)).cluster == s.cluster
    ensures Quiet(s, Next(s, RepositoryCall(ok)), u)
  {
    hide MarkCreated, MarkFailed, HasTrue, AnyWithStatus;
    var c, t := s.cluster, Next(s, RepositoryCall(ok));
    if HoldsRepository(t.repo) {
      if s.repo.GetRepo? {
        assert t.repo.repo == c.repos[s.repo.name];
        assert E.LiveRepository(c, t.repo.repo.uid);
      } else if s.repo.DefaultStatus? {
        assert RepositoryUnchanged(c, s.repo.repo);
        assert E.LiveRepository(c, s.repo.repo.uid);
      }
    }
  }

  /** A call writes the repository it holds, or adds a secret or an init job. */
  ghost predicate WritesAt(c: Cluster, d: Cluster, r: Repository) {
    && d.nextUid == c.nextUid
    && (forall n :: n in d.repos ==> n in c.repos && d.repos[n].uid == c.repos[n].uid && (c.repos[n].uid != r.uid ==> d.repos[n] == c.repos[n]))
    && (forall name :: name in c.secrets ==> name in d.secrets && d.secrets[name] == c.secrets[name])
    && (forall name :: name in c.initJobs ==> name in d.initJobs)
  }

  lemma StatusWrites(c: Cluster, r: Repository, q: Repository)
    requires RepositoryUnchanged(c, r)
    ensures WritesAt(c, UpdateRepositoryStatus(c, r, q).value, r)
  {
  }

  lemma CallWrites(c: Cluster, pc: R.Pc, ok: bool)
    requires HoldsRepository(pc) && R.Call(c, pc, ok).0 != c
    ensures WritesAt(c, R.Call(c, pc, ok).0, pc.repo)
    ensures HoldsRepository(R.Call(c, pc, ok).1) ==> R.Call(c, pc, ok).1.repo.uid == pc.repo.uid
  {
    hide MarkCreated, MarkFailed, HasTrue, AnyWithStatus, UpdateRepositoryStatus;
    var d := R.Call(c, pc, ok).0;
    match pc
    case DefaultStatus(r) =>
      assert Some(d) == UpdateRepositoryStatus(c, r, R.WithDefaults(r));
      StatusIsRefused(c, r, R.WithDefaults(r));
      StatusWrites(c, r, R.WithDefaults(r));
    case StoreStatus(r, updated) =>
      assert Some(d) == UpdateRepositoryStatus(c, r, updated);
      StatusIsRefused(c, r, updated);
      StatusWrites(c, r, updated);
    case CreateSecret(_) =>
    case CreateJob(_) =>
  }

  lemma StatusIsRefused(c: Cluster, r: Repository, q: Repository)
    ensures UpdateRepositoryStatus(c, r, q).Some? ==> RepositoryUnchanged(c, r)
  {
  }

  /** A write on behalf of another repository. */
  lemma OtherWriteQuiet(s: State, ok: bool, u: nat)
    requires HoldsRepository(s.repo) && s.repo.repo.uid != u && Next(s, RepositoryCall(ok)).cluster != s.cluster
    ensures Quiet(s, Next(s, RepositoryCall(ok)), u)
  {
    hide R.Call, InFlight;
    CallWrites(s.cluster, s.repo, ok);
  }

  lemma OtherCallQuiet(s: State, ok: bool, u: nat)
    requires RepoIds(s.cluster) && !Wrote(s, RepositoryCall(ok), u)
    ensures Quiet(s, Next(s, RepositoryCall(ok)), u)
  {
    hide Quiet, R.Call, RepoIds;
    if Next(s, RepositoryCall(ok)).cluster == s.cluster {
      IdleCallQuiet(s, ok, u);
    } else {
      if !HoldsRepository(s.repo) { ReadsChangeNothing(s.cluster, s.repo, ok); }
      OtherWriteQuiet(s, ok, u);
    }
  }

  lemma ReadsChangeNothing(c: Cluster, pc: R.Pc, ok: bool)
    requires !HoldsRepository(pc)
    ensures R.Call(c, pc, ok).0 == c
  {
  }

  /** Every write to an existing repository, or on its behalf, uses up some of its work. */
  lemma LiveProgress(c: Cluster, pc: R.Pc, ok: bool)
    requires RepoPcOk(c, pc) && HoldsRepository(pc) && pc.repo.name in c.repos && R.Call(c, pc, ok).0 != c
    ensures var d := R.Call(c, pc, ok).0;
            && pc.repo.name in d.repos && d.repos[pc.repo.name].uid == c.repos[pc.repo.name].uid == pc.repo.uid
            && LiveWork(d.secrets, d.initJobs, d.repos[pc.repo.name]) < LiveWork(c.secrets, c.initJobs, c.repos[pc.repo.name])
  {
    var d, r := R.Call(c, pc, ok).0, pc.repo;
    assert SameRepo(r, c.repos[r.name]);
    match pc
    case DefaultStatus(_) =>
      assert Some(d) == UpdateRepositoryStatus(c, r, R.WithDefaults(r));
    case StoreStatus(_, updated) =>
      RepositorySteps.Marked(r.conditions);
      hide MarkCreated, MarkFailed, Phase;
      assert Some(d) == UpdateRepositoryStatus(c, r, updated);
    case CreateSecret(_) =>
      assert Some(d) == ApiServer.CreateSecret(c, r.OperatorSecretName(), Secret([r.uid]));
    case CreateJob(_) =>
      assert Some(d) == CreateInitJob(c, RepositoryInitJob(r));
  }

  lemma LateProgress(c: Cluster, pc: R.Pc, ok: bool)
    requires HoldsRepository(pc) && pc.repo.name !in c.repos && R.Call(c, pc, ok).0 != c
    ensures var (d, pc') := R.Call(c, pc, ok);
            && d.repos == c.repos && d.nextUid == c.nextUid && InFlight(pc) > 0
            && (HoldsRepository(pc') ==> InFlight(pc') < InFlight(pc))
  {
    hide MarkCreated, MarkFailed;
    R.CallFrame(c, pc, ok);
  }

  lemma LiveWriteUsesWork(s: State, ok: bool)
    requires RepoIds(s.cluster) && RepoIds(Next(s, RepositoryCall(ok)).cluster) && RepoPcOk(s.cluster, s.repo)
    requires HoldsRepository(s.repo) && s.repo.repo.name in s.cluster.repos && Next(s, RepositoryCall(ok)).cluster != s.cluster
    ensures Work(Next(s, RepositoryCall(ok)), s.repo.repo.uid) < Work(s, s.repo.repo.uid)
  {
    hide R.Call, LiveWork, RepoPcOk, RepoIds, Work;
    LiveProgress(s.cluster, s.repo, ok);
    LiveRepositoryWork(s, s.repo.repo.name);
    LiveRepositoryWork(Next(s, RepositoryCall(ok)), s.repo.repo.name);
  }

  lemma LateWriteUsesWork(s: State, ok: bool)
    requires RepoPcOk(s.cluster, s.repo)
    requires HoldsRepository(s.repo) && s.repo.repo.name !in s.cluster.repos && Next(s, RepositoryCall(ok)).cluster != s.cluster
    ensures Work(Next(s, RepositoryCall(ok)), s.repo.repo.uid) < Work(s, s.repo.repo.uid)
  {
    hide R.Call, LiveWork, RepoStep, Phase;
    LateProgress(s.cluster, s.repo, ok);
  }

  lemma WriteUsesWork(s: State, ok: bool, u: nat)
    requires Inv(s) && Inv(Next(s, RepositoryCall(ok))) && Wrote(s, RepositoryCall(ok), u)
    ensures Work(Next(s, RepositoryCall(ok)), u) < Work(s, u)
  {
    assert RepoIds(s.cluster) && RepoIds(Next(s, RepositoryCall(ok)).cluster) && RepoPcOk(s.cluster, s.repo);
    hide Inv, R.Call, Work, RepoIds, RepoPcOk;
    if s.repo.repo.name in s.cluster.repos { LiveWriteUsesWork(s, ok); } else { LateWriteUsesWork(s, ok); }
  }

  // ----- over a run -----

  lemma QuietStep(s: State, a: Action, u: nat)
    requires RepoIds(s.cluster) && ReposOk(s.cluster.repos, s.cluster.initJobs, s.cluster.secrets) && !Wrote(s, a, u)
    ensures Quiet(s, Next(s, a), u)
  {
    match a
    case Environment(e) => EventQuiet(s, e, u);
    case KeyCall(outcome) => KeyCallQuiet(s, outcome, u);
    case RepositoryCall(ok) => OtherCallQuiet(s, ok, u);
    case _ => SameReposQuiet(s, Next(s, a).(repo := s.repo), u);
  }

  lemma StepWork(s: State, a: Action, u: nat)
    requires Inv(s)
    ensures Work(Next(s, a), u) + One(Wrote(s, a, u)) <= Work(s, u)
  {
    NextKeepsInv(s, a);
    var t := Next(s, a);
    assert RepoIds(s.cluster) && RepoIds(t.cluster) && RepoPcOk(s.cluster, s.repo) && RepoPcOk(t.cluster, t.repo);
    assert ReposOk(s.cluster.repos, s.cluster.initJobs, s.cluster.secrets);
    hide Inv, Quiet, Work, Next, ReposOk, RepoPcOk;
    if Wrote(s, a, u) {
      WriteUsesWork(s, a.ok, u);
    } else {
      QuietStep(s, a, u);
      QuietWork(s, t, u);
    }
  }

  lemma {:induction false} RunWork(s: State, actions: seq<Action>, u: nat)
    requires Inv(s)
    ensures Writes(s, actions, u) + Work(Run(s, actions), u) <= Work(s, u)
    decreases |actions|
  {
    hide Inv, Work, Wrote;
    if actions != [] {
      var before := actions[..|actions| - 1];
      RunWork(s, before, u);
      RunKeepsInv(s, before);
      StepWork(Run(s, before), actions[|actions| - 1], u);
    }
  }

  /**
    Over every run, with any crashes, the repository controller changes the cluster at most four times on
    behalf of a repository that still exists, and at most five times on behalf of any repository.
   */
  lemma BoundedRepositoryWork(actions: seq<Action>, u: nat)
    ensures Writes(INITIAL, actions, u) <= 5
    ensures E.LiveRepository(Run(INITIAL, actions).cluster, u) ==> Writes(INITIAL, actions, u) <= 4
  {
    Initially();
    RunWork(INITIAL, actions, u);
    RunKeepsInv(INITIAL, actions);
    var s := Run(INITIAL, actions);
    assert RepoIds(s.cluster);
    if E.LiveRepository(s.cluster, u) {
      var n :| n in s.cluster.repos && s.cluster.repos[n].uid == u;
      LiveRepositoryWork(s, n);
    }
  }

  // ----- repositories with a final status -----

  predicate Final(r: Repository) {
    r.IsCreated() || r.IsFailed()
  }

  /** The repository, if it is still there, has its final status, and no reconcile in progress holds it. */
  ghost predicate Settled(s: State, u: nat) {
    && u < s.cluster.nextUid
    && (forall n :: n in s.cluster.repos && s.cluster.repos[n].uid == u ==> Final(s.cluster.repos[n]))
    && !(HoldsRepository(s.repo) && s.repo.repo.uid == u)
  }

  /** A reconcile that holds a repository has not seen its final status. */
  lemma FinalIsSettled(s: State, n: string)
    requires RepoIds(s.cluster) && RepoPcOk(s.cluster, s.repo) && n in s.cluster.repos && Final(s.cluster.repos[n])
    ensures Settled(s, s.cluster.repos[n].uid)
  {
    hide HasTrue, RepoStep, Phase;
    if !(s.repo.Idle? || s.repo.GetRepo?) && s.repo.repo.uid == s.cluster.repos[n].uid {
      assert SameRepo(s.repo.repo, s.cluster.repos[n]);
      HasTrueMeans([], CREATED);
      HasTrueMeans([], FAILED);
    }
  }

  /** A call goes on with the repository it has; a read begins only with one that has no final status. */
  lemma CallHolds(c: Cluster, pc: R.Pc, ok: bool)
    ensures var pc' := R.Call(c, pc, ok).1;
            HoldsRepository(pc') ==>
              || (HoldsRepository(pc) && pc'.repo.uid == pc.repo.uid)
              || (pc.GetRepo? && pc.name in c.repos && pc'.repo == c.repos[pc.name] && !Final(pc'.repo))
  {
    hide MarkCreated, MarkFailed, HasTrue, AnyWithStatus;
    HasTrueMeans([], CREATED);
    HasTrueMeans([], FAILED);
  }

  lemma StepStaysSettled(s: State, a: Action, u: nat)
    requires Inv(s) && Settled(s, u)
    ensures Settled(Next(s, a), u)
  {
    hide Inv, HasTrue, Next;
    var c, d := s.cluster, Next(s, a).cluster;
    StepUid(s, a);
    forall n | n in d.repos && d.repos[n].uid == u ensures Final(d.repos[n]) { StepRepo(s, a, n); }
    StepHolds(s, a, u);
  }

  lemma StepHolds(s: State, a: Action, u: nat)
    requires Settled(s, u)
    ensures !(HoldsRepository(Next(s, a).repo) && Next(s, a).repo.repo.uid == u)
  {
    hide R.Call, K.Call, E.Happen, HasTrue;
    if a.RepositoryCall? { CallHolds(s.cluster, s.repo, a.ok); }
  }

  lemma {:induction false} SettledRests(s: State, actions: seq<Action>, u: nat)
    requires Inv(s) && Settled(s, u)
    ensures Settled(Run(s, actions), u) && Writes(s, actions, u) == 0
    decreases |actions|
  {
    hide Inv;
    if actions != [] {
      var before := actions[..|actions| - 1];
      SettledRests(s, before, u);
      RunKeepsInv(s, before);
      StepStaysSettled(Run(s, before), actions[|actions| - 1], u);
    }
  }

  lemma {:induction false} WritesAddUp(s: State, actions: seq<Action>, more: seq<Action>, u: nat)
    ensures Writes(s, actions + more, u) == Writes(s, actions, u) + Writes(Run(s, actions), more, u)
    decreases |more|
  {
    hide Wrote;
    if more == [] {
      assert actions + more == actions;
    } else {
      var before := more[..|more| - 1];
      assert (actions + more)[..|actions + more| - 1] == actions + before;
      RunsOn(s, actions, before);
      WritesAddUp(s, actions, before, u);
    }
  }

  /**
    The fifth write is lost on a repository that vanishes without a final status: once a repository is Created or
    Failed nothing more is written for it, and the total stays at most four in every later run.
   */
  lemma FourWritesUntilFinal(actions: seq<Action>, more: seq<Action>, n: string)
    requires n in Run(INITIAL, actions).cluster.repos && Final(Run(INITIAL, actions).cluster.repos[n])
    ensures var u := Run(INITIAL, actions).cluster.repos[n].uid;
            Writes(INITIAL, actions + more, u) == Writes(INITIAL, actions, u) <= 4
  {
    hide Inv, Final;
    var s := Run(INITIAL, actions);
    var u := s.cluster.repos[n].uid;
    Initially();
    RunKeepsInv(INITIAL, actions);
    assert RepoIds(s.cluster) && RepoPcOk(s.cluster, s.repo) by { SideOf(s); }
    hide RepoIds, RepoPcOk, Settled;
    BoundedRepositoryWork(actions, u);
    FinalIsSettled(s, n);
    SettledRests(s, more, u);
    WritesAddUp(INITIAL, actions, more, u);
    assert E.LiveRepository(s.cluster, u);
  }

  lemma SideOf(s: State)
    requires Inv(s)
    ensures RepoIds(s.cluster) && RepoPcOk(s.cluster, s.repo)
  {
  }
}
