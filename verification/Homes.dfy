/**
  The repository that a key's restic key is stored in is the one its add job was built from. A second invariant, on top of
  Inv: the finalizer is dropped only when that repository is gone, is being deleted, or no longer holds the restic key.
 */
module Homes {
  import opened Options
  import opened Conditions
  import opened KeyLog
  import opened Resources
  import opened ApiServer
  import opened Operator
  import opened Invariant
  import opened Safety
  import opened Histories
  import E = Environment
  import K = KeyController
  import R = RepositoryController
  import EnvironmentSteps
  import KeySteps
  import RepositorySteps

  ghost predicate BuiltFrom(jobs: Jobs, u: nat, r: Repository) {
    exists j :: AddJobOf(jobs, j, u) && jobs[j].repoUid == r.uid
  }

  /** What the key's add jobs stored is gone from the repository they were built from, if that is to be kept. */
  ghost predicate Safe(c: Cluster, u: nat) {
    forall m :: m in c.repos && BuiltFrom(c.jobs, u, c.repos[m]) && !c.repos[m].deleting ==> Purged(c.jobs, c.backend, u)
  }

  /** The jobs of an existing key carry its repository's name; if an add job's repository exists, all were built from it. */
  ghost predicate OneHome(c: Cluster, u: nat, name: string) {
    && (forall j :: j in c.jobs && c.jobs[j].owner == u ==> c.jobs[j].repository == name)
    && (forall j, m :: j in c.jobs && c.jobs[j].owner == u && m in c.repos && BuiltFrom(c.jobs, u, c.repos[m]) ==>
          c.jobs[j].repoUid == c.repos[m].uid)
  }

  predicate Unguarded(k: Key) {
    k.carried && !k.finalizer
  }

  ghost predicate KeyHomes(c: Cluster) {
    && (forall n :: n in c.keys ==> OneHome(c, c.keys[n].uid, c.keys[n].spec.repository))
    && (forall n :: n in c.keys && Unguarded(c.keys[n]) ==> Safe(c, c.keys[n].uid))
    && (forall u :: u in c.gone && Unguarded(c.gone[u]) ==> Safe(c, u))
  }

  /** The repository that a reconcile works with is the home of its key, if that exists. */
  ghost predicate PcHome(c: Cluster, pc: K.Pc) {
    HoldsKey(pc) && pc.key.name in c.keys ==>
      && (HoldsRepo(pc) ==> forall m :: m in c.repos && BuiltFrom(c.jobs, pc.key.uid, c.repos[m]) ==> pc.repo.uid == c.repos[m].uid)
      && (pc.DropFinalizer? ==> Safe(c, pc.key.uid))
  }

  ghost predicate HomesOk(s: State) {
    KeyHomes(s.cluster) && PcHome(s.cluster, s.key)
  }

  lemma InvMeans(s: State)
    requires Inv(s)
    ensures ClusterOk(s.cluster) && KeyIds(s.cluster) && JobIds(s.cluster) && JobsOk(s.cluster) && KeyPcOk(s.cluster, s.key)
    ensures BackendOk(s.cluster.jobs, s.cluster.backend)
  {
  }

  // ----- steps that create no job -----

  /** Jobs keep what they were built from; repositories persist, disappear, or are new; what is purged stays purged. */
  ghost predicate Steady(c: Cluster, d: Cluster) {
    && c.nextUid <= d.nextUid
    && (forall j :: j in d.jobs ==>
          && j in c.jobs && d.jobs[j].owner == c.jobs[j].owner && d.jobs[j].operation == c.jobs[j].operation
          && d.jobs[j].repoUid == c.jobs[j].repoUid && d.jobs[j].repository == c.jobs[j].repository)
    && (forall m :: m in d.repos ==>
          || (m in c.repos && d.repos[m].uid == c.repos[m].uid && (c.repos[m].deleting ==> d.repos[m].deleting))
          || d.repos[m].uid >= c.nextUid)
    && (forall u :: Purged(c.jobs, c.backend, u) ==> Purged(d.jobs, d.backend, u))
  }

  lemma SteadyBuilt(c: Cluster, d: Cluster, u: nat, m: string)
    requires Steady(c, d) && JobIds(c) && m in d.repos && BuiltFrom(d.jobs, u, d.repos[m])
    ensures m in c.repos && d.repos[m].uid == c.repos[m].uid && BuiltFrom(c.jobs, u, c.repos[m])
    ensures c.repos[m].deleting ==> d.repos[m].deleting
  {
    var j :| AddJobOf(d.jobs, j, u) && d.jobs[j].repoUid == d.repos[m].uid;
    assert AddJobOf(c.jobs, j, u);
  }

  lemma SteadySafe(c: Cluster, d: Cluster, u: nat)
    requires Steady(c, d) && JobIds(c) && Safe(c, u)
    ensures Safe(d, u)
  {
    hide Purged;
    forall m | m in d.repos && BuiltFrom(d.jobs, u, d.repos[m]) && !d.repos[m].deleting ensures Purged(d.jobs, d.backend, u) {
      SteadyBuilt(c, d, u, m);
    }
  }

  lemma SteadyHome(c: Cluster, d: Cluster, u: nat, name: string)
    requires Steady(c, d) && JobIds(c) && OneHome(c, u, name)
    ensures OneHome(d, u, name)
  {
    hide Purged;
    forall j, m | j in d.jobs && d.jobs[j].owner == u && m in d.repos && BuiltFrom(d.jobs, u, d.repos[m])
      ensures d.jobs[j].repoUid == d.repos[m].uid
    {
      SteadyBuilt(c, d, u, m);
    }
  }

  /** A key's home does not depend on the keys; a new key has no jobs. */
  lemma NewHome(c: Cluster, d: Cluster, u: nat, name: string)
    requires Steady(c, d) && JobIds(c) && u >= c.nextUid
    ensures OneHome(d, u, name)
  {
    hide Purged;
  }

  /** Keys persist, lose no guard, are removed without one, or are new. */
  ghost predicate KeysFrom(c: Cluster, d: Cluster) {
    && (forall n :: n in d.keys ==>
          || (n in c.keys && d.keys[n].uid == c.keys[n].uid && d.keys[n].spec == c.keys[n].spec
              && (Unguarded(d.keys[n]) ==> Unguarded(c.keys[n])))
          || (d.keys[n].uid >= c.nextUid && !d.keys[n].carried))
    && (forall u :: u in d.gone && Unguarded(d.gone[u]) ==>
          || (u in c.gone && Unguarded(c.gone[u]))
          || (exists n :: n in c.keys && c.keys[n].uid == u && Unguarded(c.keys[n])))
  }

  lemma SteadyKeyHomes(c: Cluster, d: Cluster)
    requires Steady(c, d) && KeysFrom(c, d) && JobIds(c) && KeyHomes(c)
    ensures KeyHomes(d)
  {
    hide Steady, Safe, OneHome, JobIds;
    forall n | n in d.keys ensures OneHome(d, d.keys[n].uid, d.keys[n].spec.repository) {
      if d.keys[n].uid >= c.nextUid { NewHome(c, d, d.keys[n].uid, d.keys[n].spec.repository); }
      else { SteadyHome(c, d, d.keys[n].uid, d.keys[n].spec.repository); }
    }
    forall n | n in d.keys && Unguarded(d.keys[n]) ensures Safe(d, d.keys[n].uid) { SteadySafe(c, d, d.keys[n].uid); }
    forall u | u in d.gone && Unguarded(d.gone[u]) ensures Safe(d, u) { SteadySafe(c, d, u); }
  }

  lemma SteadyPcHome(c: Cluster, d: Cluster, pc: K.Pc)
    requires Steady(c, d) && JobIds(c) && PcHome(c, pc)
    requires HoldsKey(pc) && pc.key.name in d.keys ==> pc.key.name in c.keys
    ensures PcHome(d, pc)
  {
    if HoldsKey(pc) && pc.key.name in d.keys {
      if HoldsRepo(pc) {
        forall m | m in d.repos && BuiltFrom(d.jobs, pc.key.uid, d.repos[m]) ensures pc.repo.uid == d.repos[m].uid {
          SteadyBuilt(c, d, pc.key.uid, m);
        }
      }
      hide Steady, Safe, BuiltFrom, JobIds;
      if pc.DropFinalizer? { SteadySafe(c, d, pc.key.uid); }
    }
  }

  // ----- everybody else and the repository controller -----

  lemma SameJobsSteady(s: State, a: Action)
    requires Inv(s) && Next(s, a).cluster.jobs == s.cluster.jobs && Next(s, a).cluster.backend == s.cluster.backend
    ensures Steady(s.cluster, Next(s, a).cluster)
  {
    hide Inv, Next, Purged;
    var c, d := s.cluster, Next(s, a).cluster;
    StepUid(s, a);
    forall m | m in d.repos && d.repos[m].uid < c.nextUid
      ensures m in c.repos && d.repos[m].uid == c.repos[m].uid && (c.repos[m].deleting ==> d.repos[m].deleting)
    {
      StepRepo(s, a, m);
    }
  }

  lemma EvolvedSteady(c: Cluster, d: Cluster, j: nat)
    requires EnvironmentSteps.JobEvolves(c, d, j) && EnvironmentSteps.BackendEvolves(c, d) && JobsOk(c)
    ensures Steady(c, d)
  {
    forall u | Purged(c.jobs, c.backend, u) ensures Purged(d.jobs, d.backend, u) {
      EnvironmentSteps.JobEvolvesKeepsPurged(c, d, j, u);
    }
    hide Purged, EnvironmentSteps.BackendEvolves, JobsOk;
  }

  lemma UnchangedSteady(c: Cluster)
    ensures Steady(c, c)
  {
    hide Purged;
  }

  lemma KeyJobEventSteady(s: State, e: E.Event)
    requires Inv(s) && E.OnKeyJobs(e)
    ensures Steady(s.cluster, Next(s, Environment(e)).cluster)
  {
    hide Inv, BackendOk, JobsOk, ClusterOk, KeyPcOk, KeyIds, JobIds, Steady, E.KeyJobEvent, EnvironmentSteps.JobEvolves;
    hide EnvironmentSteps.BackendEvolves;
    var c := s.cluster;
    InvMeans(s);
    if E.KeyJobEvent(c, e) == c {
      UnchangedSteady(c);
    } else {
      var j := KeyJobEventEvolves(c, e);
      EvolvedSteady(c, E.KeyJobEvent(c, e), j);
    }
  }

  lemma KeyJobEventEvolves(c: Cluster, e: E.Event) returns (j: nat)
    requires E.OnKeyJobs(e) && E.KeyJobEvent(c, e) != c && JobsOk(c) && BackendOk(c.jobs, c.backend)
    ensures EnvironmentSteps.JobEvolves(c, E.KeyJobEvent(c, e), j) && EnvironmentSteps.BackendEvolves(c, E.KeyJobEvent(c, e))
  {
    hide BackendOk, JobOwned, JobHome;
    match e
    case FinishAddJob(i, early, pre, id, post) =>
      j := i;
      assert JobShape(c.jobs[j]);
      ExtractReported(pre + MARKER + id + post, pre, id, post);
      EnvironmentSteps.CompleteAddEvolves(c, j, early, pre + MARKER + id + post, id);
    case FinishDeleteJob(i, early) =>
      j := i;
      assert JobShape(c.jobs[j]);
      EnvironmentSteps.CompleteDeleteEvolves(c, j, early);
    case FailKeyJob(i, early, log) =>
      j := i;
      assert JobShape(c.jobs[j]);
      EnvironmentSteps.FailEvolves(c, j, early, log);
    case CollectJob(i) =>
      j := i;
      assert JobShape(c.jobs[j]);
      EnvironmentSteps.CollectEvolves(c, j);
  }

  lemma SameKeysFrom(c: Cluster, d: Cluster)
    requires d.keys == c.keys && d.gone == c.gone
    ensures KeysFrom(c, d)
  {
  }

  lemma PutKeyFrom(c: Cluster, l: Key)
    requires KeyIds(c) && l.name in c.keys && l.uid == c.keys[l.name].uid && l.spec == c.keys[l.name].spec
    requires Unguarded(l) ==> Unguarded(c.keys[l.name])
    ensures KeysFrom(c, PutKey(c, l)) && KeysFrom(c, c.(keys := c.keys[l.name := l]))
  {
  }

  lemma KeyEventFrom(s: State, e: E.Event)
    requires KeyIds(s.cluster) && E.OnKeys(e)
    ensures KeysFrom(s.cluster, Next(s, Environment(e)).cluster)
  {
    hide KeysFrom;
    var c, d := s.cluster, Next(s, Environment(e)).cluster;
    if d == c {
      SameKeysFrom(c, d);
    } else if e.CreateKey? {
      assert d == E.NewKey(c, e.name, e.spec, e.controller, e.held);
      NewKeyFrom(c, d.keys[e.name]);
    } else {
      var k := c.keys[e.name];
      var l := if e.EditKey? then k.(spec := e.spec)
               else if e.DeleteKey? then k.(deleting := true, held := k.held || e.foreground)
               else k.(held := false);
      assert d == PutKey(c, l);
      PutKeyFrom(c, l);
    }
  }

  lemma NewKeyFrom(c: Cluster, l: Key)
    requires l.uid == c.nextUid && !l.carried
    ensures KeysFrom(c, c.(keys := c.keys[l.name := l], nextUid := c.nextUid + 1))
  {
  }

  lemma EventSteady(s: State, e: E.Event)
    requires Inv(s)
    ensures Steady(s.cluster, Next(s, Environment(e)).cluster)
  {
    if E.OnKeyJobs(e) {
      hide Inv, Steady;
      KeyJobEventSteady(s, e);
    } else {
      E.HappenFrame(s.cluster, K.Busy(s.key), R.Busy(s.repo), e);
      hide Inv, Steady, E.Happen;
      SameJobsSteady(s, Environment(e));
    }
  }

  lemma EventKeysFrom(s: State, e: E.Event)
    requires KeyIds(s.cluster)
    ensures KeysFrom(s.cluster, Next(s, Environment(e)).cluster)
  {
    hide KeysFrom;
    if E.OnKeys(e) {
      KeyEventFrom(s, e);
    } else {
      E.HappenFrame(s.cluster, K.Busy(s.key), R.Busy(s.repo), e);
      hide E.Happen;
      SameKeysFrom(s.cluster, Next(s, Environment(e)).cluster);
    }
  }

  lemma EventKeepsHomes(s: State, e: E.Event)
    requires Inv(s) && HomesOk(s)
    ensures HomesOk(Next(s, Environment(e)))
  {
    hide Inv, E.Happen, Steady, KeysFrom, KeyHomes, PcHome, KeyIds, JobIds, ClusterOk, KeyPcOk, BackendOk, JobsOk;
    var t := Next(s, Environment(e));
    InvMeans(s);
    if HoldsKey(s.key) && s.key.key.name in t.cluster.keys { NameIsNotTaken(s, e); }
    EventSteady(s, e);
    EventKeysFrom(s, e);
    SteadyKeyHomes(s.cluster, t.cluster);
    SteadyPcHome(s.cluster, t.cluster, s.key);
  }

  lemma NameIsNotTaken(s: State, e: E.Event)
    requires KeyIds(s.cluster) && HoldsKey(s.key) && s.key.key.name in Next(s, Environment(e)).cluster.keys
    ensures s.key.key.name in s.cluster.keys
  {
    var c, d := s.cluster, Next(s, Environment(e)).cluster;
    E.HappenFrame(c, K.Busy(s.key), R.Busy(s.repo), e);
    if E.OnKeys(e) && d != c {
      if e.CreateKey? {
        assert d == E.NewKey(c, e.name, e.spec, e.controller, e.held);
      } else {
        var k := c.keys[e.name];
        assert d == PutKey(c, if e.EditKey? then k.(spec := e.spec)
                              else if e.DeleteKey? then k.(deleting := true, held := k.held || e.foreground)
                              else k.(held := false));
      }
    }
  }

  lemma RepositoryCallKeepsHomes(s: State, ok: bool)
    requires Inv(s) && HomesOk(s)
    ensures HomesOk(Next(s, RepositoryCall(ok)))
  {
    var c, d := s.cluster, Next(s, RepositoryCall(ok)).cluster;
    assert JobIds(c);
    R.CallFrame(c, s.repo, ok);
    hide Inv, R.Call, Steady, KeysFrom, KeyHomes, PcHome, JobIds;
    SameJobsSteady(s, RepositoryCall(ok));
    SameKeysFrom(c, d);
    SteadyKeyHomes(c, d);
    SteadyPcHome(c, d, s.key);
  }

  // ----- the key controller: what it stores -----

  /** The finalizer is dropped from a key whose home has been dealt with. */
  lemma DropKeepsHomes(c: Cluster, key: Key)
    requires KeyIds(c) && KeyHomes(c) && KeyUnchanged(c, key) && Safe(c, key.uid)
    ensures KeyHomes(PutKey(c, key.(finalizer := false)))
  {
    hide Safe, OneHome;
    var d := PutKey(c, key.(finalizer := false));
    SameSafe(c, d);
  }

  lemma SameSafe(c: Cluster, d: Cluster)
    requires d.jobs == c.jobs && d.backend == c.backend && d.repos == c.repos
    ensures forall u :: Safe(c, u) <==> Safe(d, u)
    ensures forall u, name :: OneHome(c, u, name) <==> OneHome(d, u, name)
  {
  }

  lemma WrittenKeyFrom(c: Cluster, pc: K.Pc, outcome: K.Outcome)
    requires KeyIds(c) && K.WritesKey(pc) && !pc.DropFinalizer?
    ensures KeysFrom(c, K.Call(c, pc, outcome).0)
  {
    hide KeysFrom, MarkCreated, MarkFailed;
    var d := K.Call(c, pc, outcome).0;
    if d == c {
      SameKeysFrom(c, d);
    } else {
      match pc
      case DefaultStatus(key, _) => PutKeyFrom(c, key.(conditions := K.WithDefaults(key).conditions));
      case SetMetadata(key, repo) => PutKeyFrom(c, K.WithMetadata(key, repo));
      case StoreStatus(key, updated) => PutKeyFrom(c, key.(conditions := updated.conditions, keyID := updated.keyID));
    }
  }

  // ----- the key controller: the jobs it creates -----

  /** A job of one key leaves every other key as it is; a delete job leaves add jobs as they are. */
  lemma NewJobSafe(c: Cluster, job: Job, u: nat)
    requires JobIds(c) && Safe(c, u) && (job.owner != u || job.IsDelete())
    ensures Safe(CreateKeyJob(c, job), u)
  {
    hide HasTrue;
    var d := CreateKeyJob(c, job);
    assert forall j :: AddJobOf(d.jobs, j, u) <==> AddJobOf(c.jobs, j, u);
    forall m | m in d.repos && BuiltFrom(d.jobs, u, d.repos[m]) ensures BuiltFrom(c.jobs, u, c.repos[m]) {
      var j :| AddJobOf(d.jobs, j, u) && d.jobs[j].repoUid == d.repos[m].uid;
      assert AddJobOf(c.jobs, j, u);
    }
  }

  lemma NewJobElsewhere(c: Cluster, job: Job, u: nat, name: string)
    requires JobIds(c) && OneHome(c, u, name) && job.owner != u
    ensures OneHome(CreateKeyJob(c, job), u, name)
  {
    var d := CreateKeyJob(c, job);
    forall m | m in d.repos && BuiltFrom(d.jobs, u, d.repos[m]) ensures BuiltFrom(c.jobs, u, c.repos[m]) {
      var j :| AddJobOf(d.jobs, j, u) && d.jobs[j].repoUid == d.repos[m].uid;
      assert AddJobOf(c.jobs, j, u);
    }
  }

  /** The first job of a key, or a delete job built from the repository that its add jobs were built from. */
  lemma NewJobAtHome(c: Cluster, job: Job, name: string)
    requires JobIds(c) && OneHome(c, job.owner, name) && job.repository == name
    requires NoJobs(c.jobs, job.owner)
             || (job.IsDelete() && forall m :: m in c.repos && BuiltFrom(c.jobs, job.owner, c.repos[m]) ==> job.repoUid == c.repos[m].uid)
    ensures OneHome(CreateKeyJob(c, job), job.owner, name)
  {
    var d, u := CreateKeyJob(c, job), job.owner;
    forall j, m | j in d.jobs && d.jobs[j].owner == u && m in d.repos && BuiltFrom(d.jobs, u, d.repos[m])
      ensures d.jobs[j].repoUid == d.repos[m].uid
    {
      var a :| AddJobOf(d.jobs, a, u) && d.jobs[a].repoUid == d.repos[m].uid;
      if a != c.nextUid { assert AddJobOf(c.jobs, a, u); }
    }
  }

  /** Whoever gets an add job is not unguarded: it has the finalizer or never had it. */
  lemma AddedForGuarded(c: Cluster, pc: K.Pc)
    requires KeyPcOk(c, pc) && pc.CreateAddJob?
    ensures pc.key.name in c.keys ==> c.keys[pc.key.name].uid == pc.key.uid && !Unguarded(c.keys[pc.key.name])
    ensures pc.key.name !in c.keys ==> pc.key.uid in c.gone && !Unguarded(c.gone[pc.key.uid])
  {
    hide TracksRepo, StepJobs, DropOk;
    assert KeyShape(pc.key);
  }

  lemma JobKeepsHomes(c: Cluster, pc: K.Pc, job: Job)
    requires KeyIds(c) && JobIds(c) && KeyPcOk(c, pc) && KeyHomes(c) && PcHome(c, pc)
    requires (pc.CreateAddJob? && job == AddKeyJob(pc.repo, pc.key)) || (pc.CreateDeleteJob? && Some(job) == DeleteKeyJob(pc.repo, pc.key))
    ensures KeyHomes(CreateKeyJob(c, job))
  {
    var d, u := CreateKeyJob(c, job), pc.key.uid;
    assert job.owner == u && job.repository == pc.key.spec.repository;
    if pc.CreateAddJob? { AddedForGuarded(c, pc); }
    assert Tracks(c.keys, c.gone, c.nextUid, pc.key);
    if pc.key.name in c.keys {
      JobAtHome(c, pc, job);
    }
    hide Safe, OneHome, KeyPcOk, JobIds, PcHome;
    forall n | n in d.keys ensures OneHome(d, d.keys[n].uid, d.keys[n].spec.repository) {
      if d.keys[n].uid != u { NewJobElsewhere(c, job, d.keys[n].uid, d.keys[n].spec.repository); }
      else { assert n == pc.key.name; }
    }
    forall n | n in d.keys && Unguarded(d.keys[n]) ensures Safe(d, d.keys[n].uid) { NewJobSafe(c, job, d.keys[n].uid); }
    forall v | v in d.gone && Unguarded(d.gone[v]) ensures Safe(d, v) { NewJobSafe(c, job, v); }
  }

  lemma JobAtHome(c: Cluster, pc: K.Pc, job: Job)
    requires KeyIds(c) && JobIds(c) && KeyPcOk(c, pc) && KeyHomes(c) && PcHome(c, pc) && (pc.CreateAddJob? || pc.CreateDeleteJob?)
    requires job.owner == pc.key.uid && job.repository == pc.repo.name && job.repoUid == pc.repo.uid
    requires pc.key.name in c.keys && (pc.CreateDeleteJob? ==> job.IsDelete())
    ensures c.keys[pc.key.name].uid == pc.key.uid
    ensures OneHome(CreateKeyJob(c, job), pc.key.uid, c.keys[pc.key.name].spec.repository)
  {
    assert SameKey(pc.key, c.keys[pc.key.name]);
    assert pc.repo.name == pc.key.spec.repository;
    assert pc.CreateAddJob? ==> NoJobs(c.jobs, pc.key.uid);
    hide OneHome, KeyPcOk, BuiltFrom, JobIds, KeyIds;
    NewJobAtHome(c, job, pc.key.spec.repository);
  }

  // ----- the key controller: what it goes on with -----

  /** The repository that an existing key's jobs were built from has the name that the key gives. */
  lemma HomeHasName(c: Cluster, key: Key, m: string)
    requires JobsOk(c) && KeyHomes(c) && key.name in c.keys && SameKey(key, c.keys[key.name])
    requires m in c.repos && BuiltFrom(c.jobs, key.uid, c.repos[m])
    ensures m == key.spec.repository
  {
    var j :| AddJobOf(c.jobs, j, key.uid) && c.jobs[j].repoUid == c.repos[m].uid;
    assert JobHome(c.repos, c.jobs[j]);
    assert OneHome(c, key.uid, key.spec.repository);
  }

  lemma ReadRepositoryIsHome(c: Cluster, key: Key)
    requires JobsOk(c) && KeyHomes(c) && KeyPcOk(c, K.GetRepo(key))
    ensures PcHome(c, K.Call(c, K.GetRepo(key), K.Success([])).1)
  {
    var pc := K.Call(c, K.GetRepo(key), K.Success([])).1;
    if key.name in c.keys {
      assert SameKey(key, c.keys[key.name]);
      hide JobsOk, KeyHomes, KeyPcOk;
      forall m | m in c.repos && BuiltFrom(c.jobs, key.uid, c.repos[m]) ensures m == key.spec.repository { HomeHasName(c, key, m); }
      hide BuiltFrom;
    }
  }

  /** A listed complete delete job has purged the key's home. */
  lemma RemovedIsSafe(c: Cluster, key: Key, order: seq<nat>, job: Job)
    requires ClusterOk(c) && KeyHomes(c) && Tracks(c.keys, c.gone, c.nextUid, key) && key.name in c.keys
    requires IsListing(c.jobs, key.name, order) && job in Fetch(c.jobs, order) && job.IsDelete() && job.FinalCondition() == Some(JOB_COMPLETE)
    ensures Safe(c, key.uid)
  {
    KeySteps.ListingIsOwnJobs(c, key, order);
    var d := KeySteps.FetchedFrom(c, order, job);
    assert JobShape(c.jobs[d]);
    RepositorySteps.FinalConditionMeans(c.jobs[d]);
    var k := c.keys[key.name];
    assert KeyOk(c, k) && LiveKeyOk(c.jobs, c.secrets, k) && OneHome(c, k.uid, k.spec.repository);
    assert k.uid == key.uid && DeleteJobOf(c.jobs, d, k.uid);
    hide ClusterOk, KeyHomes, KeyOk, LiveKeyOk, Tracks, IsListing, JobShape;
    forall m | m in c.repos && BuiltFrom(c.jobs, k.uid, c.repos[m]) ensures Purged(c.jobs, c.backend, k.uid) {
      KeySteps.DeletedIsPurged(c, k, m, d);
    }
  }

  /** With its repository being deleted, a key's home need not be kept. */
  lemma DeletedHomeIsSafe(c: Cluster, key: Key, repo: Repository)
    requires KeyPcOk(c, K.ListJobs(key, repo)) && PcHome(c, K.ListJobs(key, repo)) && repo.deleting && key.name in c.keys
    ensures Safe(c, key.uid)
  {
    hide Tracks, StepJobs, Purged;
    assert TracksRepo(c.repos, c.nextUid, key, repo);
  }

  lemma RemovalShape(key: Key, repo: Repository, jobs: seq<Job>)
    ensures var pc, found := K.OnDeletion(key, repo, jobs), K.FirstJob(jobs, DeleteKey);
            && (pc.Idle? || ((pc.DropFinalizer? || pc.CreateDeleteJob? || pc.ReadRemovalLog?) && pc.key == key))
            && (pc.CreateDeleteJob? ==> pc.repo == repo)
            && (pc.DropFinalizer? ==> repo.deleting || (found.Some? && found.value.FinalCondition() == Some(JOB_COMPLETE)))
  {
  }

  lemma HeldIsTracked(c: Cluster, pc: K.Pc)
    requires KeyPcOk(c, pc) && HoldsKey(pc)
    ensures Tracks(c.keys, c.gone, c.nextUid, pc.key)
  {
  }

  lemma OnDeletionIsHome(c: Cluster, key: Key, repo: Repository, order: seq<nat>)
    requires ClusterOk(c) && KeyHomes(c) && KeyPcOk(c, K.ListJobs(key, repo)) && PcHome(c, K.ListJobs(key, repo))
    requires IsListing(c.jobs, key.name, order) && key.deleting
    ensures PcHome(c, K.OnDeletion(key, repo, Fetch(c.jobs, order)))
  {
    hide Safe, BuiltFrom, ClusterOk, KeyHomes, KeyPcOk, Tracks, K.OnDeletion;
    var jobs := Fetch(c.jobs, order);
    RemovalShape(key, repo, jobs);
    if key.name in c.keys {
      HeldIsTracked(c, K.ListJobs(key, repo));
      var found := K.FirstJob(jobs, DeleteKey);
      if repo.deleting {
        DeletedHomeIsSafe(c, key, repo);
      } else if found.Some? && found.value.FinalCondition() == Some(JOB_COMPLETE) {
        RemovedIsSafe(c, key, order, found.value);
      }
    }
  }

  lemma ListIsHome(c: Cluster, key: Key, repo: Repository, order: seq<nat>)
    requires ClusterOk(c) && KeyHomes(c) && KeyPcOk(c, K.ListJobs(key, repo)) && PcHome(c, K.ListJobs(key, repo))
    ensures PcHome(c, K.Call(c, K.ListJobs(key, repo), K.Success(order)).1)
  {
    hide ClusterOk, KeyHomes, KeyPcOk, Safe, BuiltFrom, K.FirstJob;
    if IsListing(c.jobs, key.name, order) {
      hide IsListing;
      if key.deleting { OnDeletionIsHome(c, key, repo, order); }
    }
  }

  /** A call other than these goes on with the key and the repository it has, and creates no job. */
  lemma CallStaysHome(c: Cluster, pc: K.Pc, outcome: K.Outcome)
    requires !pc.GetKey? && !pc.GetRepo? && !pc.ListJobs?
    ensures var (d, pc') := K.Call(c, pc, outcome);
            && (HoldsKey(pc') ==> HoldsKey(pc) && pc'.key.uid == pc.key.uid && pc'.key.name == pc.key.name && d.jobs == c.jobs)
            && (HoldsRepo(pc') ==> HoldsRepo(pc) && pc'.repo == pc.repo)
            && !pc'.DropFinalizer?
  {
    hide MarkCreated, MarkFailed, ExtractKeyID;
  }

  lemma CallPcHome(s: State, outcome: K.Outcome)
    requires Inv(s) && HomesOk(s)
    ensures PcHome(Next(s, KeyCall(outcome)).cluster, Next(s, KeyCall(outcome)).key)
  {
    hide Inv, ClusterOk, KeyPcOk, KeyHomes, JobsOk, BuiltFrom, Safe, KeyIds, JobIds, BackendOk;
    var c, pc := s.cluster, s.key;
    InvMeans(s);
    if outcome.Failure? || pc.Idle? || pc.GetKey? {
    } else if pc.GetRepo? {
      ReadRepositoryIsHome(c, pc.key);
    } else if pc.ListJobs? {
      ListIsHome(c, pc.key, pc.repo, outcome.order);
    } else {
      CallStaysHome(c, pc, outcome);
      K.CallFrame(c, pc, outcome);
      NamesStay(c, pc, outcome);
      hide K.Call;
    }
  }

  /** No call creates a key. */
  lemma NamesStay(c: Cluster, pc: K.Pc, outcome: K.Outcome)
    ensures forall n :: n in K.Call(c, pc, outcome).0.keys ==> n in c.keys
  {
    hide MarkCreated, MarkFailed, ExtractKeyID;
    K.CallFrame(c, pc, outcome);
    var d := K.Call(c, pc, outcome).0;
    if d != c && K.WritesKey(pc) {
      match pc
      case DefaultStatus(key, repo) => assert Some(d) == UpdateKeyStatus(c, key, K.WithDefaults(key));
      case SetMetadata(key, repo) => assert Some(d) == UpdateKey(c, key, K.WithMetadata(key, repo));
      case StoreStatus(key, updated) => assert Some(d) == UpdateKeyStatus(c, key, updated);
      case DropFinalizer(key, _) => assert Some(d) == UpdateKey(c, key, key.(finalizer := false));
    }
  }

  lemma CallKeyHomes(s: State, outcome: K.Outcome)
    requires Inv(s) && HomesOk(s)
    ensures KeyHomes(Next(s, KeyCall(outcome)).cluster)
  {
    var c, pc := s.cluster, s.key;
    var d := Next(s, KeyCall(outcome)).cluster;
    hide Inv, KeyPcOk, KeyHomes, JobIds, KeyIds, Steady, KeysFrom, Safe, ClusterOk, JobsOk, BackendOk;
    InvMeans(s);
    if d != c {
      if pc.CreateAddJob? {
        JobKeepsHomes(c, pc, AddKeyJob(pc.repo, pc.key));
      } else if pc.CreateDeleteJob? {
        JobKeepsHomes(c, pc, DeleteKeyJob(pc.repo, pc.key).value);
      } else if pc.DropFinalizer? {
        DropKeepsHomes(c, pc.key);
      } else {
        K.CallFrame(c, pc, outcome);
        if K.WritesKey(pc) { WrittenKeyFrom(c, pc, outcome); } else { SameKeysFrom(c, d); }
        hide K.Call;
        SameJobsSteady(s, KeyCall(outcome));
        SteadyKeyHomes(c, d);
      }
    }
  }

  // ----- over a run -----

  lemma NextKeepsHomes(s: State, a: Action)
    requires Inv(s) && HomesOk(s)
    ensures HomesOk(Next(s, a))
  {
    hide Inv, KeyHomes, K.Call, R.Call, E.Happen;
    match a
    case Environment(e) => EventKeepsHomes(s, e);
    case RepositoryCall(ok) => RepositoryCallKeepsHomes(s, ok);
    case KeyCall(outcome) =>
      CallKeyHomes(s, outcome);
      CallPcHome(s, outcome);
    case _ =>
  }

  lemma {:induction false} RunKeepsHomes(s: State, actions: seq<Action>)
    requires Inv(s) && HomesOk(s)
    ensures HomesOk(Run(s, actions))
    decreases |actions|
  {
    hide Inv, HomesOk;
    if actions != [] {
      var before := actions[..|actions| - 1];
      RunKeepsHomes(s, before);
      RunKeepsInv(s, before);
      NextKeepsHomes(Run(s, before), actions[|actions| - 1]);
    }
  }

  lemma ReachableHomes(s: State)
    requires Reachable(s)
    ensures HomesOk(s)
  {
    var actions :| Run(INITIAL, actions) == s;
    Initially();
    RunKeepsHomes(INITIAL, actions);
  }
}
