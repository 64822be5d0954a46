/** How often the key controller writes on behalf of one key, over any run. */
module KeyWork {
  import opened Options
  import opened Conditions
  import opened KeyLog
  import opened Resources
  import opened ApiServer
  import opened Operator
  import opened Invariant
  import opened Safety
  import E = Environment
  import K = KeyController
  import R = RepositoryController
  import RepositorySteps

  /** The key controller changes the cluster on behalf of the key with this UID. */
  ghost predicate Wrote(s: State, a: Action, u: nat) {
    a.KeyCall? && HoldsKey(s.key) && s.key.key.uid == u && Next(s, a).cluster != s.cluster
  }

  ghost function Writes(s: State, actions: seq<Action>, u: nat): nat
    decreases |actions|
  {
    if actions == [] then 0
    else
      var before := actions[..|actions| - 1];
      Writes(s, before, u) + if Wrote(Run(s, before), actions[|actions| - 1], u) then 1 else 0
  }

  // ----- the writes that are left -----

  /** Default status, metadata, secret, add job, final status, delete job, finalizer removal. */
  ghost function LiveWork(secrets: Secrets, jobs: Jobs, k: Key): (w: nat)
    ensures w <= 7
  {
    One(k.conditions == []) + One(!k.carried) + One(!SecretOwned(secrets, k.SecretName(), k.uid))
    + One(!HasAddJob(jobs, k.uid)) + One(!k.IsCreated()) + One(!HasDeleteJob(jobs, k.uid)) + One(!(k.carried && !k.finalizer))
  }

  /** What a reconcile in progress may still write once its key is gone. */
  function InFlight(pc: K.Pc): nat {
    match pc
    case GetRepo(key) => if key.conditions == [] then 0 else if key.deleting then 1 else 2
    case ListJobs(key, _) => if key.deleting then 1 else 2
    case GetSecret(_, _) => 2
    case CreateSecret(_, _) => 2
    case CreateAddJob(_, _) => 1
    case CreateDeleteJob(_, _) => 1
    case _ => 0
  }

  ghost function Work(s: State, u: nat): nat {
    if u >= s.cluster.nextUid then 8
    else if E.LiveKey(s.cluster, u) then
      var n :| n in s.cluster.keys && s.cluster.keys[n].uid == u;
      1 + LiveWork(s.cluster.secrets, s.cluster.jobs, s.cluster.keys[n])
    else if HoldsKey(s.key) && s.key.key.uid == u then InFlight(s.key)
    else 0
  }

  lemma LiveKeyWork(s: State, n: string)
    requires KeyIds(s.cluster) && n in s.cluster.keys
    ensures Work(s, s.cluster.keys[n].uid) == 1 + LiveWork(s.cluster.secrets, s.cluster.jobs, s.cluster.keys[n])
  {
    hide LiveWork;
    assert E.LiveKey(s.cluster, s.cluster.keys[n].uid);
  }

  // ----- work never grows -----

  predicate MoreJobs(jobs: Jobs, jobs': Jobs) {
    forall j :: j in jobs ==> j in jobs' && jobs'[j].owner == jobs[j].owner && jobs'[j].operation == jobs[j].operation
  }

  /** Secrets of existing owners stay. */
  predicate MoreSecrets(secrets: Secrets, secrets': Secrets, k: Key) {
    SecretOwned(secrets, k.SecretName(), k.uid) ==> SecretOwned(secrets', k.SecretName(), k.uid)
  }

  predicate SameProgress(k: Key, l: Key) {
    && l.uid == k.uid && l.name == k.name && l.spec == k.spec && l.conditions == k.conditions
    && l.carried == k.carried && l.finalizer == k.finalizer
  }

  lemma LiveWorkShrinks(secrets: Secrets, jobs: Jobs, k: Key, secrets': Secrets, jobs': Jobs, l: Key)
    requires SameProgress(k, l) && MoreSecrets(secrets, secrets', k) && MoreJobs(jobs, jobs')
    ensures LiveWork(secrets', jobs', l) <= LiveWork(secrets, jobs, k)
  {
    if HasAddJob(jobs, k.uid) { var j :| AddJobOf(jobs, j, k.uid); assert AddJobOf(jobs', j, k.uid); }
    if HasDeleteJob(jobs, k.uid) { var j :| DeleteJobOf(jobs, j, k.uid); assert DeleteJobOf(jobs', j, k.uid); }
  }

  /** The key of a reconcile in progress is removed. */
  lemma InFlightFits(c: Cluster, pc: K.Pc)
    requires KeyPcOk(c, pc) && HoldsKey(pc) && pc.key.name in c.keys && !c.keys[pc.key.name].finalizer
    ensures InFlight(pc) <= 1 + LiveWork(c.secrets, c.jobs, c.keys[pc.key.name])
  {
    var k := c.keys[pc.key.name];
    hide TracksRepo, StepJobs, DropOk;
    assert SameKey(pc.key, k) && KeyShape(pc.key);
    if InFlight(pc) == 2 {
      assert !k.carried;
    }
  }

  /**
    What a step that writes nothing for the key may do: the key keeps its progress, is removed without a
    finalizer, or is created; the reconcile in progress goes on with the same key, or ends.
   */
  ghost predicate Quiet(s: State, t: State, u: nat) {
    var c, d := s.cluster, t.cluster;
    && c.nextUid <= d.nextUid
    && MoreJobs(c.jobs, d.jobs)
    && (forall n :: n in d.keys && d.keys[n].uid == u && u < c.nextUid ==>
          n in c.keys && SameProgress(c.keys[n], d.keys[n]) && MoreSecrets(c.secrets, d.secrets, c.keys[n]))
    && (forall n :: n in c.keys && c.keys[n].uid == u && !E.LiveKey(d, u) ==> !c.keys[n].finalizer)
    && (HoldsKey(t.key) && t.key.key.uid == u ==>
          t.key == s.key || E.LiveKey(d, u) || (HoldsKey(s.key) && s.key.key == t.key.key && InFlight(t.key) <= InFlight(s.key)))
  }

  lemma QuietWork(s: State, t: State, u: nat)
    requires Inv(s) && Inv(t) && Quiet(s, t, u)
    ensures Work(t, u) <= Work(s, u)
  {
    var c, d := s.cluster, t.cluster;
    assert KeyIds(c) && KeyIds(d) && KeyPcOk(c, s.key) && KeyPcOk(d, t.key);
    hide Inv, LiveWork, InFlight;
    if E.LiveKey(d, u) {
      var n :| n in d.keys && d.keys[n].uid == u;
      LiveKeyWork(t, n);
      if u < c.nextUid {
        LiveKeyWork(s, n);
        LiveWorkShrinks(c.secrets, c.jobs, c.keys[n], d.secrets, d.jobs, d.keys[n]);
      }
    } else if u < c.nextUid && HoldsKey(t.key) && t.key.key.uid == u {
      assert HoldsKey(s.key) && s.key.key == t.key.key && InFlight(t.key) <= InFlight(s.key);
      if E.LiveKey(c, u) {
        var n :| n in c.keys && c.keys[n].uid == u;
        assert n == s.key.key.name;
        LiveKeyWork(s, n);
        InFlightFits(c, s.key);
      }
    } else {
      InFlightBound(t.key);
    }
  }

  lemma InFlightBound(pc: K.Pc)
    ensures InFlight(pc) <= 2
  {
  }

  // ----- steps of the environment and of the repository controller -----

  lemma SameKeysQuiet(s: State, t: State, u: nat)
    requires t.key == s.key && t.cluster.keys == s.cluster.keys && s.cluster.nextUid <= t.cluster.nextUid
    requires MoreJobs(s.cluster.jobs, t.cluster.jobs)
    requires forall n :: n in s.cluster.keys ==> MoreSecrets(s.cluster.secrets, t.cluster.secrets, s.cluster.keys[n])
    ensures Quiet(s, t, u)
  {
    forall n | n in s.cluster.keys && s.cluster.keys[n].uid == u ensures E.LiveKey(t.cluster, u) {
      assert t.cluster.keys[n].uid == u;
    }
  }

  lemma PutKeyQuiet(s: State, k: Key, u: nat)
    requires KeyIds(s.cluster) && k.name in s.cluster.keys && SameProgress(s.cluster.keys[k.name], k)
    ensures Quiet(s, s.(cluster := PutKey(s.cluster, k)), u)
  {
    var c, d := s.cluster, PutKey(s.cluster, k);
    forall n | n in c.keys && c.keys[n].uid == u && n in d.keys ensures E.LiveKey(d, u) {
      assert d.keys[n].uid == u;
    }
  }

  lemma NewKeyQuiet(s: State, d: Cluster, k: Key, u: nat)
    requires KeyIds(s.cluster) && k.name !in s.cluster.keys && k.uid == s.cluster.nextUid
    requires d == s.cluster.(keys := s.cluster.keys[k.name := k], nextUid := s.cluster.nextUid + 1)
    ensures Quiet(s, s.(cluster := d), u)
  {
    var c := s.cluster;
    forall n | n in c.keys && c.keys[n].uid == u ensures E.LiveKey(d, u) { assert d.keys[n].uid == u; }
  }

  lemma KeyEventQuiet(s: State, e: E.Event, u: nat)
    requires KeyIds(s.cluster) && E.OnKeys(e)
    ensures Quiet(s, Next(s, Environment(e)), u)
  {
    hide Quiet;
    var c, d := s.cluster, Next(s, Environment(e)).cluster;
    if d == c {
      SameKeysQuiet(s, s, u);
    } else if e.CreateKey? {
      assert d == E.NewKey(c, e.name, e.spec, e.controller, e.held);
      NewKeyQuiet(s, d, d.keys[e.name], u);
    } else {
      var k := c.keys[e.name];
      var l := if e.EditKey? then k.(spec := e.spec)
               else if e.DeleteKey? then k.(deleting := true, held := k.held || e.foreground)
               else k.(held := false);
      assert d == PutKey(c, l);
      PutKeyQuiet(s, l, u);
    }
  }

  lemma KeyJobEventGrows(c: Cluster, e: E.Event)
    requires E.OnKeyJobs(e)
    ensures MoreJobs(c.jobs, E.KeyJobEvent(c, e).jobs)
  {
    var d := E.KeyJobEvent(c, e);
    if d != c {
      match e
      case FinishAddJob(j, early, pre, id, post) => assert d == E.CompleteAdd(c, j, early, pre + MARKER + id + post, id);
      case FinishDeleteJob(j, early) => assert d == E.CompleteDelete(c, j, early);
      case FailKeyJob(j, early, log) => assert d == E.Fail(c, j, early, log);
      case CollectJob(j) => assert d == E.Collect(c, j);
    }
  }

  lemma SecretEventKeeps(c: Cluster, e: E.Event, n: string)
    requires E.OnSecrets(e) && n in c.keys
    ensures MoreSecrets(c.secrets, E.SecretEvent(c, e).secrets, c.keys[n])
  {
    if SecretOwned(c.secrets, c.keys[n].SecretName(), c.keys[n].uid) {
      assert E.LiveKey(c, c.keys[n].uid);
      assert c.keys[n].uid in c.secrets[c.keys[n].SecretName()].owners;
    }
  }

  lemma EventQuiet(s: State, e: E.Event, u: nat)
    requires KeyIds(s.cluster)
    ensures Quiet(s, Next(s, Environment(e)), u)
  {
    var c, t := s.cluster, Next(s, Environment(e));
    if E.OnKeys(e) {
      KeyEventQuiet(s, e, u);
    } else {
      hide Quiet;
      E.HappenFrame(c, K.Busy(s.key), R.Busy(s.repo), e);
      if E.OnKeyJobs(e) {
        KeyJobEventGrows(c, e);
      } else if E.OnSecrets(e) {
        forall n | n in c.keys ensures MoreSecrets(c.secrets, t.cluster.secrets, c.keys[n]) { SecretEventKeeps(c, e, n); }
      }
      hide E.Happen;
      SameKeysQuiet(s, t, u);
    }
  }

  lemma RepositoryCallQuiet(s: State, ok: bool, u: nat)
    ensures Quiet(s, Next(s, RepositoryCall(ok)), u)
  {
    hide Quiet;
    var c, t := s.cluster, Next(s, RepositoryCall(ok));
    R.CallFrame(c, s.repo, ok);
    if s.repo.CreateSecret? && t.cluster != c {
      assert Some(t.cluster) == ApiServer.CreateSecret(c, s.repo.repo.OperatorSecretName(), Secret([s.repo.repo.uid]));
    }
    hide R.Call;
    SameKeysQuiet(s, t, u);
  }

  // ----- calls of the key controller -----

  /** A call keeps the key it works with, and what it may still do without that key shrinks. */
  lemma CallGoesOn(c: Cluster, pc: K.Pc, outcome: K.Outcome)
    requires HoldsKey(pc)
    ensures var pc' := K.Call(c, pc, outcome).1;
            HoldsKey(pc') ==> pc'.key.uid == pc.key.uid && (!K.WritesKey(pc) ==> pc'.key == pc.key && InFlight(pc') <= InFlight(pc))
  {
    hide MarkCreated, MarkFailed, ExtractKeyID;
    if outcome.Success? {
      match pc
      case ListJobs(key, repo) =>
        if IsListing(c.jobs, key.name, outcome.order) {
          ListGoesOn(key, repo, Fetch(c.jobs, outcome.order));
        }
      case _ =>
    }
  }

  lemma ListGoesOn(key: Key, repo: Repository, jobs: seq<Job>)
    ensures var pc := K.AfterListJobs(key, repo, jobs);
            HoldsKey(pc) ==> pc.key == key && InFlight(pc) <= InFlight(K.ListJobs(key, repo))
  {
    if key.deleting {
      assert HoldsKey(K.OnDeletion(key, repo, jobs)) ==> K.OnDeletion(key, repo, jobs).key == key;
    }
  }

  /** A key is written only if it is what the reconcile holds, and it keeps its identity. */
  lemma CallWritesKey(c: Cluster, pc: K.Pc, outcome: K.Outcome) returns (l: Key)
    requires K.WritesKey(pc)
    ensures var (d, pc') := K.Call(c, pc, outcome);
            && (d != c || HoldsKey(pc') ==> KeyUnchanged(c, pc.key))
            && (d != c ==> l.uid == pc.key.uid && l.name == pc.key.name && (d == PutKey(c, l) || d == c.(keys := c.keys[l.name := l])))
  {
    hide MarkCreated, MarkFailed;
    match pc
    case DefaultStatus(key, repo) => l := key.(conditions := K.WithDefaults(key).conditions);
    case SetMetadata(key, repo) => l := K.WithMetadata(key, repo);
    case StoreStatus(key, updated) => l := key.(conditions := updated.conditions, keyID := updated.keyID);
    case DropFinalizer(key, _) => l := key.(finalizer := false);
  }

  lemma OtherKeyQuiet(s: State, t: State, l: Key, u: nat)
    requires KeyIds(s.cluster) && l.name in s.cluster.keys && s.cluster.keys[l.name].uid == l.uid != u
    requires t.cluster == PutKey(s.cluster, l) || t.cluster == s.cluster.(keys := s.cluster.keys[l.name := l])
    requires !HoldsKey(t.key) || t.key.key.uid != u
    ensures Quiet(s, t, u)
  {
    var c, d := s.cluster, t.cluster;
    forall n | n in c.keys && c.keys[n].uid == u ensures E.LiveKey(d, u) { assert d.keys[n].uid == u; }
  }

  lemma OtherCallQuiet(s: State, outcome: K.Outcome, u: nat)
    requires KeyIds(s.cluster) && JobIds(s.cluster) && HoldsKey(s.key) && s.key.key.uid != u
    ensures Quiet(s, Next(s, KeyCall(outcome)), u)
  {
    hide Quiet;
    var c, t := s.cluster, Next(s, KeyCall(outcome));
    var d := t.cluster;
    CallGoesOn(c, s.key, outcome);
    K.CallFrame(c, s.key, outcome);
    if K.WritesKey(s.key) && d != c {
      var l := CallWritesKey(c, s.key, outcome);
      hide K.Call;
      OtherKeyQuiet(s, t, l, u);
    } else {
      SideEffects(c, s.key, outcome);
      hide K.Call;
      SameKeysStep(s, t, u);
    }
  }

  /** Jobs and secrets are only added. */
  lemma SideEffects(c: Cluster, pc: K.Pc, outcome: K.Outcome)
    requires JobIds(c)
    ensures var d := K.Call(c, pc, outcome).0;
            && MoreJobs(c.jobs, d.jobs) && c.nextUid <= d.nextUid
            && forall name :: name in c.secrets ==> name in d.secrets && d.secrets[name] == c.secrets[name]
  {
    K.CallFrame(c, pc, outcome);
    var d := K.Call(c, pc, outcome).0;
    if d != c {
      match pc
      case CreateSecret(key, repo) => assert Some(d) == ApiServer.CreateSecret(c, key.SecretName(), Secret([key.uid]));
      case CreateAddJob(key, repo) => assert d == CreateKeyJob(c, AddKeyJob(repo, key));
      case CreateDeleteJob(key, repo) => assert d == CreateKeyJob(c, DeleteKeyJob(repo, key).value);
      case _ =>
    }
  }

  lemma SameKeysStep(s: State, t: State, u: nat)
    requires t.cluster.keys == s.cluster.keys && s.cluster.nextUid <= t.cluster.nextUid
    requires MoreJobs(s.cluster.jobs, t.cluster.jobs)
    requires forall name :: name in s.cluster.secrets ==> name in t.cluster.secrets && t.cluster.secrets[name] == s.cluster.secrets[name]
    requires HoldsKey(t.key) && t.key.key.uid == u ==>
               E.LiveKey(t.cluster, u) || (HoldsKey(s.key) && s.key.key == t.key.key && InFlight(t.key) <= InFlight(s.key))
    ensures Quiet(s, t, u)
  {
    SameKeysQuiet(s, t.(key := s.key), u);
  }

  /** A call that changes nothing, or is made for no particular key. */
  lemma IdleCallQuiet(s: State, outcome: K.Outcome, u: nat)
    requires JobIds(s.cluster) && Next(s, KeyCall(outcome)).cluster == s.cluster
    ensures Quiet(s, Next(s, KeyCall(outcome)), u)
  {
    hide Quiet;
    var c, t := s.cluster, Next(s, KeyCall(outcome));
    if HoldsKey(s.key) {
      CallGoesOn(c, s.key, outcome);
      if K.WritesKey(s.key) {
        var _ := CallWritesKey(c, s.key, outcome);
        assert HoldsKey(t.key) ==> E.LiveKey(c, s.key.key.uid);
      }
    } else if HoldsKey(t.key) {
      assert s.key.GetKey? && t.key.key == c.keys[s.key.name];
      assert E.LiveKey(c, t.key.key.uid);
    }
    hide K.Call;
    SameKeysStep(s, t, u);
  }

  // ----- every write uses up some work -----

  lemma StatusProgress(secrets: Secrets, jobs: Jobs, k: Key, l: Key)
    requires l == k.(conditions := l.conditions, keyID := l.keyID) && l.conditions != []
    requires k.conditions == [] || (!k.IsCreated() && l.IsCreated())
    ensures LiveWork(secrets, jobs, l) < LiveWork(secrets, jobs, k)
  {
  }

  lemma MetadataProgress(secrets: Secrets, jobs: Jobs, k: Key, repo: Repository)
    requires !k.carried
    ensures LiveWork(secrets, jobs, K.WithMetadata(k, repo)) < LiveWork(secrets, jobs, k)
  {
  }

  lemma DropProgress(secrets: Secrets, jobs: Jobs, k: Key)
    requires k.finalizer && k.carried
    ensures LiveWork(secrets, jobs, k.(finalizer := false)) < LiveWork(secrets, jobs, k)
  {
  }

  lemma SecretProgress(secrets: Secrets, jobs: Jobs, k: Key)
    requires k.SecretName() !in secrets
    ensures LiveWork(secrets[k.SecretName() := Secret([k.uid])], jobs, k) < LiveWork(secrets, jobs, k)
  {
  }

  lemma AddJobProgress(secrets: Secrets, jobs: Jobs, k: Key, j: nat, job: Job)
    requires j !in jobs && job.owner == k.uid && job.IsAdd() && NoJobs(jobs, k.uid)
    ensures LiveWork(secrets, jobs[j := job], k) < LiveWork(secrets, jobs, k)
  {
    assert AddJobOf(jobs[j := job], j, k.uid);
  }

  lemma DeleteJobProgress(secrets: Secrets, jobs: Jobs, k: Key, j: nat, job: Job)
    requires j !in jobs && job.owner == k.uid && job.IsDelete() && NoDeleteJobs(jobs, k.uid)
    ensures LiveWork(secrets, jobs[j := job], k) < LiveWork(secrets, jobs, k)
  {
    var jobs' := jobs[j := job];
    assert DeleteJobOf(jobs', j, k.uid);
    if HasAddJob(jobs, k.uid) { var i :| AddJobOf(jobs, i, k.uid); assert AddJobOf(jobs', i, k.uid); }
  }

  /** The key is still there with less work left, or it has been removed. */
  ghost predicate Advanced(c: Cluster, d: Cluster, name: string)
    requires name in c.keys
  {
    name in d.keys ==>
      && d.keys[name].uid == c.keys[name].uid
      && LiveWork(d.secrets, d.jobs, d.keys[name]) < LiveWork(c.secrets, c.jobs, c.keys[name])
  }

  lemma StatusWritten(c: Cluster, pc: K.Pc, l: Key)
    requires KeyIds(c) && KeyPcOk(c, pc) && (pc.DefaultStatus? || pc.StoreStatus?) && KeyUnchanged(c, pc.key)
    requires pc.DefaultStatus? ==> l == K.WithDefaults(pc.key)
    requires pc.StoreStatus? ==> l == pc.updated
    ensures Advanced(c, c.(keys := c.keys[pc.key.name := pc.key.(conditions := l.conditions, keyID := l.keyID)]), pc.key.name)
  {
    hide TracksRepo, DropOk, LiveWork, MarkCreated, MarkFailed;
    if pc.StoreStatus? { RepositorySteps.Marked(pc.key.conditions); }
    StatusProgress(c.secrets, c.jobs, pc.key, pc.key.(conditions := l.conditions, keyID := l.keyID));
  }

  lemma MetadataWritten(c: Cluster, pc: K.Pc)
    requires KeyPcOk(c, pc) && pc.SetMetadata? && KeyUnchanged(c, pc.key)
    ensures Advanced(c, PutKey(c, K.WithMetadata(pc.key, pc.repo)), pc.key.name)
  {
    hide TracksRepo, DropOk, LiveWork;
    MetadataProgress(c.secrets, c.jobs, pc.key, pc.repo);
  }

  lemma FinalizerDropped(c: Cluster, pc: K.Pc)
    requires KeyIds(c) && KeyPcOk(c, pc) && pc.DropFinalizer? && KeyUnchanged(c, pc.key)
    ensures var d := PutKey(c, pc.key.(finalizer := false)); d == c || Advanced(c, d, pc.key.name)
  {
    hide TracksRepo, DropOk, LiveWork;
    var key := pc.key;
    if key.finalizer {
      DropProgress(c.secrets, c.jobs, key);
    } else {
      assert key.(finalizer := false) == key && Retained(key);
      assert c.keys[key.name := key] == c.keys;
    }
  }

  /** A write to an existing key, by kind of call. */
  lemma KeyWriteProgress(c: Cluster, pc: K.Pc, outcome: K.Outcome)
    requires KeyIds(c) && KeyPcOk(c, pc) && K.WritesKey(pc) && K.Call(c, pc, outcome).0 != c
    ensures pc.key.name in c.keys && Advanced(c, K.Call(c, pc, outcome).0, pc.key.name)
    ensures pc.key.name !in K.Call(c, pc, outcome).0.keys ==> K.Call(c, pc, outcome).1.Idle?
  {
    hide KeyPcOk, LiveWork, MarkCreated, MarkFailed, KeyIds, Advanced;
    match pc
    case DefaultStatus(key, repo) => StatusWritten(c, pc, K.WithDefaults(key));
    case SetMetadata(key, repo) => MetadataWritten(c, pc);
    case StoreStatus(key, updated) => StatusWritten(c, pc, updated);
    case DropFinalizer(key, _) => FinalizerDropped(c, pc);
  }

  lemma SecretWritten(c: Cluster, pc: K.Pc)
    requires KeyPcOk(c, pc) && pc.CreateSecret? && pc.key.name in c.keys && pc.key.SecretName() !in c.secrets
    ensures Advanced(c, c.(secrets := c.secrets[pc.key.SecretName() := Secret([pc.key.uid])]), pc.key.name)
  {
    hide TracksRepo, DropOk, StepJobs, LiveWork;
    SecretProgress(c.secrets, c.jobs, c.keys[pc.key.name]);
  }

  lemma JobWritten(c: Cluster, pc: K.Pc, job: Job)
    requires (pc.CreateAddJob? && job.IsAdd()) || (pc.CreateDeleteJob? && job.IsDelete())
    requires KeyPcOk(c, pc) && JobIds(c) && pc.key.name in c.keys && job.owner == pc.key.uid
    ensures Advanced(c, CreateKeyJob(c, job), pc.key.name)
  {
    hide TracksRepo, DropOk, LiveWork;
    var k := c.keys[pc.key.name];
    if pc.CreateAddJob? { AddJobProgress(c.secrets, c.jobs, k, c.nextUid, job); }
    else { DeleteJobProgress(c.secrets, c.jobs, k, c.nextUid, job); }
  }

  lemma SideWriteProgress(c: Cluster, pc: K.Pc, outcome: K.Outcome)
    requires KeyPcOk(c, pc) && JobIds(c) && HoldsKey(pc) && !K.WritesKey(pc) && pc.key.name in c.keys
    requires K.Call(c, pc, outcome).0 != c
    ensures K.Call(c, pc, outcome).0.keys == c.keys && Advanced(c, K.Call(c, pc, outcome).0, pc.key.name)
  {
    hide KeyPcOk, JobIds, LiveWork, Advanced;
    match pc
    case CreateSecret(key, repo) => SecretWritten(c, pc);
    case CreateAddJob(key, repo) => JobWritten(c, pc, AddKeyJob(repo, key));
    case CreateDeleteJob(key, repo) => JobWritten(c, pc, DeleteKeyJob(repo, key).value);
  }

  /** A write on behalf of a key that is gone. */
  lemma LateWriteProgress(c: Cluster, pc: K.Pc, outcome: K.Outcome)
    requires HoldsKey(pc) && pc.key.name !in c.keys && K.Call(c, pc, outcome).0 != c
    ensures var (d, pc') := K.Call(c, pc, outcome);
            d.keys == c.keys && InFlight(pc) > 0 && (HoldsKey(pc') ==> InFlight(pc') < InFlight(pc))
  {
    hide MarkCreated, MarkFailed;
    K.CallFrame(c, pc, outcome);
  }

  lemma AdvancedWork(s: State, t: State, name: string)
    requires KeyIds(s.cluster) && KeyIds(t.cluster) && name in s.cluster.keys && name in t.cluster.keys
    requires Advanced(s.cluster, t.cluster, name)
    ensures Work(t, s.cluster.keys[name].uid) < Work(s, s.cluster.keys[name].uid)
  {
    hide Work, LiveWork, KeyIds;
    LiveKeyWork(s, name);
    LiveKeyWork(t, name);
  }

  lemma RemovedWork(s: State, outcome: K.Outcome)
    requires KeyIds(s.cluster) && JobIds(s.cluster) && K.WritesKey(s.key) && KeyPcOk(s.cluster, s.key)
    requires KeyUnchanged(s.cluster, s.key.key) && Next(s, KeyCall(outcome)).cluster != s.cluster
    requires s.key.key.name !in Next(s, KeyCall(outcome)).cluster.keys && Next(s, KeyCall(outcome)).key.Idle?
    ensures Work(Next(s, KeyCall(outcome)), s.key.key.uid) < Work(s, s.key.key.uid)
  {
    var t := Next(s, KeyCall(outcome));
    hide K.Call, KeyPcOk, LiveWork;
    var l := CallWritesKey(s.cluster, s.key, outcome);
    SideEffects(s.cluster, s.key, outcome);
    GoneKeyWork(s, t);
    hide Work;
    LiveKeyWork(s, s.key.key.name);
  }

  lemma LiveWriteUsesWork(s: State, outcome: K.Outcome)
    requires Inv(s) && Inv(Next(s, KeyCall(outcome))) && HoldsKey(s.key) && Wrote(s, KeyCall(outcome), s.key.key.uid)
    requires s.key.key.name in s.cluster.keys
    ensures Work(Next(s, KeyCall(outcome)), s.key.key.uid) < Work(s, s.key.key.uid)
  {
    var c, t := s.cluster, Next(s, KeyCall(outcome));
    var name := s.key.key.name;
    assert KeyIds(c) && KeyIds(t.cluster) && KeyPcOk(c, s.key) && JobIds(c);
    assert c.keys[name].uid == s.key.key.uid;
    hide Inv, K.Call, KeyPcOk, Work, Advanced, KeyIds, JobIds;
    if K.WritesKey(s.key) { KeyWriteProgress(c, s.key, outcome); } else { SideWriteProgress(c, s.key, outcome); }
    if name in t.cluster.keys {
      AdvancedWork(s, t, name);
    } else {
      var l := CallWritesKey(c, s.key, outcome);
      RemovedWork(s, outcome);
    }
  }

  lemma GoneKeyWork(s: State, t: State)
    requires KeyIds(s.cluster) && KeyPcOk(s.cluster, s.key) && HoldsKey(s.key)
    requires s.key.key.name in s.cluster.keys && s.key.key.name !in t.cluster.keys
    requires t.key.Idle? && s.cluster.nextUid <= t.cluster.nextUid
    requires forall n :: n in t.cluster.keys ==> n in s.cluster.keys && t.cluster.keys[n].uid == s.cluster.keys[n].uid
    ensures Work(t, s.key.key.uid) == 0
  {
    hide TracksRepo, DropOk, StepJobs;
  }

  lemma LateWriteUsesWork(s: State, outcome: K.Outcome)
    requires Inv(s) && Inv(Next(s, KeyCall(outcome))) && HoldsKey(s.key) && Wrote(s, KeyCall(outcome), s.key.key.uid)
    requires s.key.key.name !in s.cluster.keys
    ensures Work(Next(s, KeyCall(outcome)), s.key.key.uid) < Work(s, s.key.key.uid)
  {
    assert KeyIds(s.cluster) && KeyPcOk(s.cluster, s.key) && JobIds(s.cluster);
    hide Inv, K.Call, TracksRepo, DropOk, StepJobs;
    LateWriteProgress(s.cluster, s.key, outcome);
    SideEffects(s.cluster, s.key, outcome);
    CallGoesOn(s.cluster, s.key, outcome);
  }

  // ----- over a run -----

  lemma QuietStep(s: State, a: Action, u: nat)
    requires KeyIds(s.cluster) && JobIds(s.cluster) && !Wrote(s, a, u)
    ensures Quiet(s, Next(s, a), u)
  {
    hide Quiet, E.Happen, R.Call, K.Call;
    match a
    case Environment(e) => EventQuiet(s, e, u);
    case RepositoryCall(ok) => RepositoryCallQuiet(s, ok, u);
    case KeyCall(outcome) =>
      if Next(s, a).cluster == s.cluster {
        IdleCallQuiet(s, outcome, u);
      } else {
        K.CallFrame(s.cluster, s.key, outcome);
        OtherCallQuiet(s, outcome, u);
      }
    case _ => SameKeysStep(s, Next(s, a), u);
  }

  lemma StepWork(s: State, a: Action, u: nat)
    requires Inv(s)
    ensures Work(Next(s, a), u) + One(Wrote(s, a, u)) <= Work(s, u)
  {
    NextKeepsInv(s, a);
    assert KeyIds(s.cluster) && JobIds(s.cluster);
    hide Inv, Quiet, Work, Next;
    if Wrote(s, a, u) {
      if s.key.key.name in s.cluster.keys { LiveWriteUsesWork(s, a.outcome); } else { LateWriteUsesWork(s, a.outcome); }
    } else {
      QuietStep(s, a, u);
      QuietWork(s, Next(s, a), u);
    }
  }

  lemma {:induction false} RunWork(s: State, actions: seq<Action>, u: nat)
    requires Inv(s)
    ensures Writes(s, actions, u) + Work(Run(s, actions), u) <= Work(s, u)
    decreases |actions|
  {
    hide Inv, Work, Wrote;
    if actions != [] {
      var before := actions[..|actions| - 1];
      RunWork(s, before, u);
      RunKeepsInv(s, before);
      StepWork(Run(s, before), actions[|actions| - 1], u);
    }
  }

  /**
    Over every run, with any crashes, the key controller changes the cluster at most seven times on behalf
    of a key that still exists, and at most eight times on behalf of any key.
   */
  lemma BoundedKeyWork(actions: seq<Action>, u: nat)
    ensures Writes(INITIAL, actions, u) <= 8
    ensures E.LiveKey(Run(INITIAL, actions).cluster, u) ==> Writes(INITIAL, actions, u) <= 7
  {
    Initially();
    RunWork(INITIAL, actions, u);
    RunKeepsInv(INITIAL, actions);
    var s := Run(INITIAL, actions);
    assert KeyIds(s.cluster);
    if E.LiveKey(s.cluster, u) {
      var n :| n in s.cluster.keys && s.cluster.keys[n].uid == u;
      LiveKeyWork(s, n);
    }
  }

  // ----- keys that nobody else holds -----

  /** Nobody else has a finalizer on the key with this UID. */
  ghost predicate Unheld(c: Cluster, u: nat) {
    forall n :: n in c.keys && c.keys[n].uid == u ==> !c.keys[n].held
  }

  /** Nobody else holds the key at any point of the run. */
  ghost predicate NeverHeld(s: State, actions: seq<Action>, u: nat) {
    forall i :: 0 <= i < |actions| ==> Unheld(Run(s, actions[..i]).cluster, u)
  }

  lemma NeverHeldBefore(s: State, actions: seq<Action>, u: nat)
    requires NeverHeld(s, actions, u) && actions != []
    ensures var before := actions[..|actions| - 1]; NeverHeld(s, before, u) && Unheld(Run(s, before).cluster, u)
  {
    hide Unheld;
    var before := actions[..|actions| - 1];
    assert forall i :: 0 <= i < |before| ==> before[..i] == actions[..i];
  }

  lemma EventVanishesUnheld(s: State, e: E.Event, n: string)
    requires KeyIds(s.cluster) && n in s.cluster.keys && !s.cluster.keys[n].held
    requires !E.LiveKey(Next(s, Environment(e)).cluster, s.cluster.keys[n].uid)
    ensures !s.cluster.keys[n].deleting && !s.cluster.keys[n].finalizer
  {
    hide KeyIds, Next, E.LiveKey;
    EventQuiet(s, e, s.cluster.keys[n].uid);
    IdsOf(s.cluster, n);
  }

  lemma IdsOf(c: Cluster, n: string)
    requires KeyIds(c) && n in c.keys
    ensures c.keys[n].name == n && Retained(c.keys[n]) && c.keys[n].uid < c.nextUid && c.keys[n].uid !in c.gone
  {
  }

  /** A call removes a key only by dropping its finalizer, and then the reconcile is over. */
  lemma CallVanishesUnheld(s: State, outcome: K.Outcome, n: string)
    requires KeyIds(s.cluster) && KeyPcOk(s.cluster, s.key) && n in s.cluster.keys && !s.cluster.keys[n].held
    requires !E.LiveKey(Next(s, KeyCall(outcome)).cluster, s.cluster.keys[n].uid)
    ensures s.key.DropFinalizer? && s.key.key == s.cluster.keys[n] && s.key.key.finalizer && Next(s, KeyCall(outcome)).key.Idle?
  {
    hide K.Call, KeyIds, KeyPcOk, HasTrue, E.LiveKey;
    var c, d := s.cluster, Next(s, KeyCall(outcome)).cluster;
    K.CallFrame(c, s.key, outcome);
    IdsOf(c, n);
    NotThere(d, n, c.keys[n].uid);
    var l := CallWritesKey(c, s.key, outcome);
    KeyWriteProgress(c, s.key, outcome);
    assert n == l.name && c.keys[n] == s.key.key;
    RemovedByDrop(c, s.key, outcome);
  }

  lemma NotThere(d: Cluster, n: string, u: nat)
    requires !E.LiveKey(d, u)
    ensures n !in d.keys || d.keys[n].uid != u
  {
  }

  lemma RemovedByDrop(c: Cluster, pc: K.Pc, outcome: K.Outcome)
    requires K.WritesKey(pc) && KeyUnchanged(c, pc.key) && Retained(pc.key) && !pc.key.held && KeyPcOk(c, pc)
    requires pc.key.name !in K.Call(c, pc, outcome).0.keys
    ensures pc.DropFinalizer? && pc.key.finalizer
  {
    hide TracksRepo, StepJobs, DropOk, HasTrue, MarkCreated, MarkFailed;
  }

  /** The writes that are left, when the key is still there without the one that only a held key can cost. */
  ghost function LeftOver(s: State, u: nat): int {
    Work(s, u) - if u >= s.cluster.nextUid || E.LiveKey(s.cluster, u) then 1 else 0
  }

  lemma UnheldStep(s: State, a: Action, u: nat)
    requires Inv(s) && Unheld(s.cluster, u)
    ensures LeftOver(Next(s, a), u) + One(Wrote(s, a, u)) <= LeftOver(s, u)
  {
    StepWork(s, a, u);
    NextKeepsInv(s, a);
    var c, t := s.cluster, Next(s, a);
    assert KeyIds(c) && KeyPcOk(c, s.key) && KeysOk(c);
    hide Inv, KeyIds, KeyPcOk, Next;
    if !E.LiveKey(t.cluster, u) && u < t.cluster.nextUid {
      InFlightBound(t.key);
      if u < c.nextUid && E.LiveKey(c, u) {
        var n :| n in c.keys && c.keys[n].uid == u;
        UnheldVanishes(s, a, n);
      }
    }
  }

  lemma LeftToDo(secrets: Secrets, jobs: Jobs, k: Key)
    ensures !k.carried ==> LiveWork(secrets, jobs, k) >= 2
    ensures k.finalizer ==> LiveWork(secrets, jobs, k) >= 1
  {
  }

  lemma UnheldVanishes(s: State, a: Action, n: string)
    requires KeyIds(s.cluster) && KeyPcOk(s.cluster, s.key) && KeysOk(s.cluster) && n in s.cluster.keys && !s.cluster.keys[n].held
    requires !E.LiveKey(Next(s, a).cluster, s.cluster.keys[n].uid) && s.cluster.keys[n].uid < Next(s, a).cluster.nextUid
    ensures var u := s.cluster.keys[n].uid; Work(Next(s, a), u) + One(Wrote(s, a, u)) <= LeftOver(s, u)
  {
    hide KeyIds, KeyPcOk, KeyHistory, KeyHome, K.Call, E.Happen, R.Call, Phase, LiveWork, InFlight, HasTrue;
    var c, t, k := s.cluster, Next(s, a), s.cluster.keys[n];
    assert KeyOk(c, k);
    hide KeysOk;
    IdsOf(c, n);
    LiveKeyWork(s, n);
    LeftToDo(c.secrets, c.jobs, k);
    InFlightBound(t.key);
    assert E.LiveKey(c, k.uid);
    if a.Environment? {
      EventVanishesUnheld(s, a.event, n);
    } else if a.KeyCall? {
      CallVanishesUnheld(s, a.outcome, n);
    } else {
      if a.RepositoryCall? { R.CallFrame(c, s.repo, a.ok); }
    }
  }

  lemma {:induction false} UnheldRunWork(s: State, actions: seq<Action>, u: nat)
    requires Inv(s) && NeverHeld(s, actions, u)
    ensures Writes(s, actions, u) + LeftOver(Run(s, actions), u) <= LeftOver(s, u)
    decreases |actions|
  {
    hide Inv, LeftOver, Wrote, Unheld, NeverHeld;
    if actions != [] {
      var before := actions[..|actions| - 1];
      NeverHeldBefore(s, actions, u);
      UnheldRunWork(s, before, u);
      RunKeepsInv(s, before);
      UnheldStep(Run(s, before), actions[|actions| - 1], u);
    }
  }

  lemma {:induction false} WritesAddUp(s: State, actions: seq<Action>, more: seq<Action>, u: nat)
    ensures Writes(s, actions + more, u) == Writes(s, actions, u) + Writes(Run(s, actions), more, u)
    decreases |more|
  {
    hide Wrote;
    if more == [] {
      assert actions + more == actions;
    } else {
      var before := more[..|more| - 1];
      assert (actions + more)[..|actions + more| - 1] == actions + before;
      RunsOn(s, actions, before);
      WritesAddUp(s, actions, before, u);
    }
  }

  lemma NothingDone(u: nat)
    ensures LeftOver(INITIAL, u) == 7
  {
  }

  lemma LeftOverIsLeft(s: State, u: nat)
    ensures LeftOver(s, u) >= 0
  {
    hide LiveWork, InFlight;
  }

  /**
    The eighth write takes a finalizer of somebody else: on behalf of a key that nobody else ever holds, gone or not,
    there are at most seven.
   */
  lemma SevenWrites(actions: seq<Action>, u: nat)
    requires NeverHeld(INITIAL, actions, u)
    ensures Writes(INITIAL, actions, u) <= 7
  {
    hide Inv, LeftOver, NeverHeld;
    Initially();
    NothingDone(u);
    UnheldRunWork(INITIAL, actions, u);
    LeftOverIsLeft(Run(INITIAL, actions), u);
  }
}
