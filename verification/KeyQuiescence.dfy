/** When a second key reconcile right after a first one finds nothing to do. */
module KeyQuiescence {
  import opened Options
  import opened Conditions
  import opened Resources
  import opened ApiServer
  import opened Operator
  import opened Invariant
  import opened Safety
  import opened KeyRecovery
  import K = KeyController

  /**
    The first reconcile of a fresh key that another object controls: it stores the default status, is
    refused the controller reference and ends in an error; the next one takes the key for registered.
   */
  predicate ResumesUnregistered(c: Cluster, n: string) {
    n in c.keys
    && var k := c.keys[n];
    && k.conditions == [] && !k.deleting && k.spec.repository in c.repos
    && var repo := c.repos[k.spec.repository];
    && K.OwnedByAnother(k, repo) && repo.IsCreated()
    && (k.SecretName() !in c.secrets || SecretOwned(c.secrets, k.SecretName(), k.uid))
  }

  // ----- the parts of an effect, done twice -----

  /** The key is stored, and a reconcile that has come as far as its jobs does nothing. */
  ghost predicate Settled(d: Cluster, k: Key, repo: Repository) {
    KeyUnchanged(d, k) && k.conditions != [] && k.spec.repository in d.repos && d.repos[k.spec.repository] == repo
    && Decided(d, k, repo) == d
  }

  lemma SettledStays(d: Cluster, k: Key, repo: Repository)
    requires Settled(d, k, repo)
    ensures Effect(d, k.name) == d
  {
    hide Decided;
  }

  lemma PutTwice(c: Cluster, k: Key)
    requires k.name in PutKey(c, k).keys
    ensures var d := PutKey(c, k); d.keys[k.name] == k && PutKey(d, k) == d
  {
    var d := PutKey(c, k);
    assert d.keys[k.name := k] == d.keys;
  }

  lemma StoredTwice(c: Cluster, k: Key)
    requires KeyUnchanged(c, k)
    ensures WithKey(c, k) == c
  {
    assert c.keys[k.name := k] == c.keys;
  }

  /** The finalizer of a key is dropped, and there is nothing left to drop. */
  lemma DroppedTwice(c: Cluster, k: Key, repo: Repository)
    requires KeyUnchanged(c, k) && k.conditions != [] && k.deleting
    requires k.spec.repository in c.repos && c.repos[k.spec.repository] == repo && Choose(c.jobs, k, repo).DropFinalizer?
    ensures Effect(Decided(c, k, repo), k.name) == Decided(c, k, repo)
  {
    hide TheDeleteJob, DeleteKeyJob, HasTrue, AnyWithStatus, Effect;
    var d, l := Decided(c, k, repo), k.(finalizer := false);
    DropIsCarried(c, k, repo);
    if k.name in d.keys {
      hide PutKey, Decided;
      PutTwice(c, l);
      StillDropping(c.jobs, k, repo);
      DropIsCarried(d, l, repo);
      SettledStays(d, l, repo);
    } else {
      Vanished(d, k.name);
    }
  }

  lemma DropIsCarried(c: Cluster, k: Key, repo: Repository)
    requires Choose(c.jobs, k, repo).DropFinalizer?
    ensures Decided(c, k, repo) == PutKey(c, k.(finalizer := false))
    ensures var d := Decided(c, k, repo); d.jobs == c.jobs && d.repos == c.repos
  {
    hide TheDeleteJob, DeleteKeyJob, HasTrue, AnyWithStatus;
    ChosenShape(c.jobs, k, repo);
  }

  lemma StillDropping(jobs: Jobs, k: Key, repo: Repository)
    requires k.deleting && Choose(jobs, k, repo).DropFinalizer?
    ensures Choose(jobs, k.(finalizer := false), repo).DropFinalizer?
  {
    hide TheDeleteJob, HasTrue, AnyWithStatus;
  }

  lemma Vanished(c: Cluster, n: string)
    requires n !in c.keys
    ensures Effect(c, n) == c
  {
  }

  /** A delete job that has just been created is waited for. */
  lemma DeletingTwice(c: Cluster, k: Key, repo: Repository)
    requires KeyUnchanged(c, k) && k.conditions != [] && k.deleting
    requires k.spec.repository in c.repos && c.repos[k.spec.repository] == repo && Choose(c.jobs, k, repo).CreateDeleteJob?
    requires OwnJobs(Decided(c, k, repo).jobs, k)
    ensures Effect(Decided(c, k, repo), k.name) == Decided(c, k, repo)
  {
    var d := Decided(c, k, repo);
    var job := DeleteKeyJob(repo, k).value;
    assert !repo.deleting;
    assert d == CreateKeyJob(c, job);
    assert DeleteJobOf(d.jobs, c.nextUid, k.uid) && d.jobs[c.nextUid] == job;
    assert TheDeleteJob(d.jobs, k.uid) == Some(job) && job.FinalCondition().None?;
    hide TheDeleteJob, OwnJobs, DeleteKeyJob, CreateKeyJob;
    assert Decided(d, k, repo) == d;
    SettledStays(d, k, repo);
  }

  /** So is an add job, if one could be created. */
  lemma AddingTwice(c: Cluster, k: Key, repo: Repository)
    requires KeyUnchanged(c, k) && k.conditions != [] && !k.deleting && !k.IsCreated() && !k.IsFailed()
    requires k.spec.repository in c.repos && c.repos[k.spec.repository] == repo && repo.IsCreated()
    requires NoJobs(c.jobs, k.uid) && JobIds(c)
    ensures Effect(Added(c, k, repo), k.name) == Added(c, k, repo)
  {
    var d, job := Added(c, k, repo), AddKeyJob(repo, k);
    if k.SecretName() in c.secrets && !SecretOwned(c.secrets, k.SecretName(), k.uid) {
      assert d == c;
      assert Decided(d, k, repo) == d by { hide NoJobs, AnyComplete, TheAddJob; }
    } else {
      assert d.jobs == c.jobs[c.nextUid := job] && !job.IsComplete();
      assert d.jobs[c.nextUid].owner == k.uid;
      assert !NoJobs(d.jobs, k.uid) && !AnyComplete(d.jobs, k.uid);
      hide NoJobs, AnyComplete, JobIds, TheAddJob;
      assert Decided(d, k, repo) == d;
    }
    SettledStays(d, k, repo);
  }

  lemma ReadIsFinal(k: Key, job: Job)
    requires Phased(k.conditions)
    ensures var pc := K.AfterReadLog(k, job);
            pc.StoreStatus? ==> pc.updated.conditions != [] && (pc.updated.IsCreated() || pc.updated.IsFailed())
  {
    SettersOrderEntries(k.conditions);
    hide MarkCreated, MarkFailed;
  }

  lemma FinalStays(c: Cluster, l: Key, repo: Repository)
    requires !l.deleting && l.conditions != [] && (l.IsCreated() || l.IsFailed())
    requires l.spec.repository in c.repos && c.repos[l.spec.repository] == repo
    ensures Effect(WithKey(c, l), l.name) == WithKey(c, l)
  {
    var d := WithKey(c, l);
    assert Choose(d.jobs, l, repo) == K.Idle;
    hide Choose;
    SettledStays(d, l, repo);
  }

  /** A final status is final. */
  lemma ReadTwice(c: Cluster, k: Key, repo: Repository, job: Job)
    requires KeyUnchanged(c, k) && k.conditions != [] && !k.deleting && Phased(k.conditions)
    requires k.spec.repository in c.repos && c.repos[k.spec.repository] == repo && Choose(c.jobs, k, repo) == K.ReadLog(k, job)
    ensures Effect(Decided(c, k, repo), k.name) == Decided(c, k, repo)
  {
    var pc := K.AfterReadLog(k, job);
    ReadIsFinal(k, job);
    hide Choose, K.AfterReadLog;
    if pc.StoreStatus? {
      FinalStays(c, k.(conditions := pc.updated.conditions, keyID := pc.updated.keyID), repo);
    } else {
      SettledStays(c, k, repo);
    }
  }

  lemma DecidedTwice(c: Cluster, k: Key, repo: Repository)
    requires KeyUnchanged(c, k) && Phased(k.conditions) && JobIds(c)
    requires k.spec.repository in c.repos && c.repos[k.spec.repository] == repo
    requires KeyUnchanged(Decided(c, k, repo), k) ==> OwnJobs(Decided(c, k, repo).jobs, k)
    ensures Effect(Decided(c, k, repo), k.name) == Decided(c, k, repo)
  {
    ChosenShape(c.jobs, k, repo);
    var pc := Choose(c.jobs, k, repo);
    ChosenWhen(c.jobs, k, repo);
    assert k.conditions != [];
    hide Choose, Effect, OwnJobs, JobIds, Phased;
    match pc
    case Idle => SettledStays(c, k, repo);
    case DropFinalizer(_, _) => DroppedTwice(c, k, repo);
    case CreateDeleteJob(_, _) => DeletingTwice(c, k, repo);
    case GetSecret(_, _) => AddingTwice(c, k, repo);
    case ReadLog(_, job) => ReadTwice(c, k, repo, job);
    case ReadRemovalLog(_) => SettledStays(c, k, repo);
  }

  lemma ChosenWhen(jobs: Jobs, k: Key, repo: Repository)
    ensures var pc := Choose(jobs, k, repo);
            && (pc.DropFinalizer? || pc.CreateDeleteJob? ==> k.deleting)
            && (pc.GetSecret? || pc.ReadLog? ==> !k.deleting && !k.IsCreated() && !k.IsFailed())
            && (pc.GetSecret? ==> NoJobs(jobs, k.uid) && repo.IsCreated())
  {
    hide TheAddJob, TheDeleteJob, NoJobs, AnyComplete;
  }

  // ----- a fresh key -----

  /** A fresh key under deletion gets its default status, and never the finalizer. */
  lemma FreshDeletingTwice(c: Cluster, k: Key, repo: Repository)
    requires KeyUnchanged(c, k) && KeyShape(k) && Retained(k) && k.conditions == [] && k.deleting && NoJobs(c.jobs, k.uid)
    requires k.spec.repository in c.repos && c.repos[k.spec.repository] == repo
    ensures Effect(Effect(c, k.name), k.name) == Effect(c, k.name)
  {
    var l := K.WithDefaults(k);
    var d := WithKey(c, l);
    assert Effect(c, k.name) == d;
    assert l.keyID.None? && !k.finalizer && l.(finalizer := false) == l;
    assert TheDeleteJob(c.jobs, k.uid).None?;
    hide TheDeleteJob, NoJobs;
    StoredTwice(d, l);
    assert PutKey(d, l) == d;
    assert Decided(d, l, repo) == d;
    SettledStays(d, l, repo);
  }

  /** A fresh key that another object controls: the second reconcile goes on where the first one failed. */
  lemma ForeignResumes(c: Cluster, k: Key, repo: Repository)
    requires KeyUnchanged(c, k) && KeyShape(k) && k.conditions == [] && !k.deleting && NoJobs(c.jobs, k.uid)
    requires k.spec.repository in c.repos && c.repos[k.spec.repository] == repo && K.OwnedByAnother(k, repo)
    ensures Effect(Effect(c, k.name), k.name) == Effect(c, k.name) <==> !ResumesUnregistered(c, k.name)
  {
    DefaultPhaseIsPhased();
    var l := K.WithDefaults(k);
    var d := WithKey(c, l);
    assert Effect(c, k.name) == d;
    assert Effect(d, k.name) == Decided(d, l, repo);
    assert NoJobs(d.jobs, l.uid) && !l.IsCreated() && !l.IsFailed();
    hide NoJobs, AnyComplete, TheAddJob, TheDeleteJob, Effect;
    assert Decided(d, l, repo) == if repo.IsCreated() then Added(d, l, repo) else d;
    assert Added(d, l, repo) == d <==> l.SecretName() in d.secrets && !SecretOwned(d.secrets, l.SecretName(), l.uid);
  }

  lemma FreshTwice(c: Cluster, k: Key, repo: Repository)
    requires KeyUnchanged(c, k) && JobIds(c) && KeyShape(k) && k.conditions == [] && !k.deleting
    requires k.spec.repository in c.repos && c.repos[k.spec.repository] == repo && !K.OwnedByAnother(k, repo)
    requires ClusterOk(Effect(c, k.name))
    ensures Effect(Effect(c, k.name), k.name) == Effect(c, k.name)
  {
    DefaultPhaseIsPhased();
    var m := K.WithMetadata(K.WithDefaults(k), repo);
    var c1 := WithKey(c, m);
    assert Effect(c, k.name) == Decided(c1, m, repo);
    hide ClusterOk, Decided, Effect;
    if KeyUnchanged(Decided(c1, m, repo), m) { LiveOwnJobs(Decided(c1, m, repo), m); }
    DecidedTwice(c1, m, repo);
  }

  lemma WithoutRepositoryTwice(c: Cluster, k: Key)
    requires KeyUnchanged(c, k) && k.spec.repository !in c.repos
    ensures Effect(Effect(c, k.name), k.name) == Effect(c, k.name)
  {
    var l := k.(finalizer := false);
    if k.deleting && k.name in PutKey(c, l).keys {
      PutTwice(c, l);
      assert l.(finalizer := false) == l;
    }
  }

  lemma EffectTwice(c: Cluster, n: string)
    requires ClusterOk(c) && ClusterOk(Effect(c, n))
    ensures Effect(Effect(c, n), n) == Effect(c, n) <==> !ResumesUnregistered(c, n)
  {
    if n in c.keys {
      var k := c.keys[n];
      assert k.name == n && KeyOk(c, k) && Retained(k);
      assert JobIds(c);
      hide ClusterOk, Decided, Effect;
      if k.spec.repository !in c.repos {
        WithoutRepositoryTwice(c, k);
      } else {
        var repo := c.repos[k.spec.repository];
        if k.conditions == [] {
          if k.deleting { FreshDeletingTwice(c, k, repo); }
          else if K.OwnedByAnother(k, repo) { ForeignResumes(c, k, repo); }
          else { FreshTwice(c, k, repo); }
        } else {
          RegisteredTwice(c, k, repo);
        }
      }
    }
  }

  lemma RegisteredTwice(c: Cluster, k: Key, repo: Repository)
    requires KeyUnchanged(c, k) && JobIds(c) && Phased(k.conditions)
    requires k.spec.repository in c.repos && c.repos[k.spec.repository] == repo
    requires ClusterOk(Effect(c, k.name))
    ensures Effect(Effect(c, k.name), k.name) == Effect(c, k.name)
  {
    assert Effect(c, k.name) == Decided(c, k, repo);
    hide ClusterOk, Decided, Effect;
    if KeyUnchanged(Decided(c, k, repo), k) { LiveOwnJobs(Decided(c, k, repo), k); }
    DecidedTwice(c, k, repo);
  }

  /**
    From every reachable state, whatever the orders of the two listings: a second fault-free reconcile right
    after a first one changes nothing, except exactly when the first one ended in the refusal described at
    ResumesUnregistered.
   */
  lemma KeysSettle(s: State, n: string, order: seq<nat>, order': seq<nat>)
    requires Reachable(s) && IsListing(s.cluster.jobs, n, order)
    requires IsListing(Reconcile(s.cluster, n, order).jobs, n, order')
    ensures var d := Reconcile(s.cluster, n, order); Reconcile(d, n, order') == d <==> !ResumesUnregistered(s.cluster, n)
  {
    assert ClusterOk(s.cluster) by { ReachableInv(s); }
    hide Reachable, ClusterOk, IsListing, Effect, Reconcile;
    EffectKeepsOk(s.cluster, n, order);
    ReconcileHasEffect(Effect(s.cluster, n), n, order');
    EffectTwice(s.cluster, n);
  }
}
