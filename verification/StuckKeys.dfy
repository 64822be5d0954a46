/** A key that is deleted before its ID is recorded keeps the operator's finalizer for as long as its repository is kept. */
module StuckKeys {
  import opened Options
  import opened Conditions
  import opened Resources
  import opened ApiServer
  import opened Operator
  import opened Invariant
  import opened Safety
  import opened KeyRecovery
  import E = Environment
  import K = KeyController
  import R = RepositoryController
  import KeySteps

  /** The reconcile of this key in progress, if any, has not found a reason to drop the finalizer. */
  ghost predicate NotDropping(pc: K.Pc, n: string) {
    HoldsKey(pc) && pc.key.name == n ==> !pc.DropFinalizer? && (HoldsRepo(pc) ==> !pc.repo.deleting)
  }

  /** Under deletion, with the finalizer, without an ID, and with a repository to be kept. */
  ghost predicate Stuck(s: State, k: Key) {
    && k.name in s.cluster.keys && s.cluster.keys[k.name].uid == k.uid && s.cluster.keys[k.name].spec == k.spec
    && s.cluster.keys[k.name].deleting && s.cluster.keys[k.name].finalizer && s.cluster.keys[k.name].keyID.None?
    && HomeIsKept(s.cluster, k)
    && NotDropping(s.key, k.name)
  }

  predicate KeepsRepository(a: Action, name: string) {
    a.Environment? && a.event.DeleteRepository? ==> a.event.name != name
  }

  // ----- everybody else -----

  lemma KeyEventStaysStuck(s: State, e: E.Event, k: Key)
    requires KeyIds(s.cluster) && Stuck(s, k) && E.OnKeys(e)
    ensures Stuck(Next(s, Environment(e)), k)
  {
    hide NotDropping;
    var c, d := s.cluster, Next(s, Environment(e)).cluster;
    E.KeyEventFrame(c, K.Busy(s.key), e);
    if d != c {
      if e.CreateKey? {
        assert d == E.NewKey(c, e.name, e.spec, e.controller, e.held);
      } else {
        var l := c.keys[e.name];
        assert d == PutKey(c, if e.EditKey? then l.(spec := e.spec)
                              else if e.DeleteKey? then l.(deleting := true, held := l.held || e.foreground)
                              else l.(held := false));
      }
    }
  }

  lemma RepositoryEventStaysStuck(s: State, e: E.Event, k: Key)
    requires RepoIds(s.cluster) && Stuck(s, k) && E.OnRepositories(e) && KeepsRepository(Environment(e), k.spec.repository)
    ensures Stuck(Next(s, Environment(e)), k)
  {
    hide NotDropping;
    var c, d := s.cluster, Next(s, Environment(e)).cluster;
    E.RepositoryEventFrame(c, R.Busy(s.repo), e);
    if d != c {
      if e.CreateRepository? {
        assert d == E.NewRepository(c, e.name, e.url, e.held);
      } else {
        var r := c.repos[e.name];
        assert d == PutRepository(c, if e.EditRepository? then r.(url := e.url)
                                     else if e.DeleteRepository? then r.(deleting := true, held := r.held || e.foreground)
                                     else r.(held := false));
      }
    }
  }

  lemma EventStaysStuck(s: State, e: E.Event, k: Key)
    requires RepoIds(s.cluster) && KeyIds(s.cluster) && Stuck(s, k) && KeepsRepository(Environment(e), k.spec.repository)
    ensures Stuck(Next(s, Environment(e)), k)
  {
    if E.OnKeys(e) {
      KeyEventStaysStuck(s, e, k);
    } else if E.OnRepositories(e) {
      RepositoryEventStaysStuck(s, e, k);
    } else {
      hide E.Happen, NotDropping;
      E.HappenFrame(s.cluster, K.Busy(s.key), R.Busy(s.repo), e);
    }
  }

  lemma RepositoryCallStaysStuck(s: State, ok: bool, k: Key)
    requires RepoIds(s.cluster) && Stuck(s, k)
    ensures Stuck(Next(s, RepositoryCall(ok)), k)
  {
    hide NotDropping, MarkCreated, MarkFailed;
    var c, d := s.cluster, Next(s, RepositoryCall(ok)).cluster;
    R.CallFrame(c, s.repo, ok);
    if d != c {
      if s.repo.DefaultStatus? {
        assert Some(d) == UpdateRepositoryStatus(c, s.repo.repo, R.WithDefaults(s.repo.repo));
      } else if s.repo.StoreStatus? {
        assert Some(d) == UpdateRepositoryStatus(c, s.repo.repo, s.repo.updated);
      }
    }
  }

  // ----- the key controller -----

  /** A listing for the key holds no delete job. */
  lemma NoRemovalListed(c: Cluster, key: Key, order: seq<nat>)
    requires KeysOk(c) && JobsOk(c) && Tracks(c.keys, c.gone, c.nextUid, key) && IsListing(c.jobs, key.name, order)
    requires key.name in c.keys && c.keys[key.name].keyID.None?
    ensures K.FirstJob(Fetch(c.jobs, order), DeleteKey).None?
  {
    var found := K.FirstJob(Fetch(c.jobs, order), DeleteKey);
    assert KeyOk(c, c.keys[key.name]);
    if found.Some? {
      KeySteps.ListingIsOwnJobs(c, key, order);
      var j := KeySteps.FetchedFrom(c, order, found.value);
      assert DeleteJobOf(c.jobs, j, key.uid);
    }
  }

  /** No call finds a reason to drop the finalizer. */
  lemma CallNotDropping(c: Cluster, pc: K.Pc, outcome: K.Outcome, k: Key)
    requires KeysOk(c) && JobsOk(c) && KeyIds(c) && KeyPcOk(c, pc)
    requires k.name in c.keys && c.keys[k.name].spec == k.spec && c.keys[k.name].keyID.None? && HomeIsKept(c, k)
    requires NotDropping(pc, k.name)
    ensures NotDropping(K.Call(c, pc, outcome).1, k.name)
  {
    hide MarkCreated, MarkFailed, AnyWithStatus, KeysOk, JobsOk, StepJobs, DropOk, TracksRepo, KeyShape, KeyIds, Purged;
    if outcome.Success? && pc.ListJobs? && IsListing(c.jobs, pc.key.name, outcome.order) && pc.key.name == k.name {
      NoRemovalListed(c, pc.key, outcome.order);
      hide IsListing;
    } else {
      hide IsListing, K.FirstJob;
    }
  }

  /** No call writes the key. */
  lemma CallLeavesKey(c: Cluster, pc: K.Pc, outcome: K.Outcome, n: string)
    requires KeyIds(c) && KeyPcOk(c, pc) && n in c.keys && NotDropping(pc, n)
    requires c.keys[n].deleting && c.keys[n].finalizer && KeyShape(c.keys[n])
    ensures var d := K.Call(c, pc, outcome).0; n in d.keys && d.keys[n] == c.keys[n]
  {
    hide HasTrue, AnyWithStatus, KeyPcOk, KeyShape, K.Call;
    var d := K.Call(c, pc, outcome).0;
    K.CallFrame(c, pc, outcome);
    if d != c && K.WritesKey(pc) {
      OtherKeyIsWritten(c, pc, n);
      OthersStay(c, pc, outcome, n);
    }
  }

  lemma OtherKeyIsWritten(c: Cluster, pc: K.Pc, n: string)
    requires KeyPcOk(c, pc) && K.WritesKey(pc) && KeyUnchanged(c, pc.key) && n in c.keys && NotDropping(pc, n)
    requires c.keys[n].deleting && c.keys[n].finalizer && KeyShape(c.keys[n])
    ensures pc.key.name != n
  {
    hide HasTrue, StepJobs, DropOk, TracksRepo;
  }

  lemma OthersStay(c: Cluster, pc: K.Pc, outcome: K.Outcome, n: string)
    requires K.WritesKey(pc) && pc.key.name != n && n in c.keys
    ensures var d := K.Call(c, pc, outcome).0; n in d.keys && d.keys[n] == c.keys[n]
  {
    hide HasTrue, AnyWithStatus, K.AfterReadLog;
  }

  lemma KeyCallStaysStuck(s: State, outcome: K.Outcome, k: Key)
    requires Inv(s) && Stuck(s, k)
    ensures Stuck(Next(s, KeyCall(outcome)), k)
  {
    var c := s.cluster;
    assert KeysOk(c) && JobsOk(c) && KeyIds(c) && KeyPcOk(c, s.key);
    assert KeyOk(c, c.keys[k.name]);
    hide Inv, KeysOk, JobsOk, KeyIds, KeyPcOk, K.Call, NotDropping;
    K.CallFrame(c, s.key, outcome);
    CallLeavesKey(c, s.key, outcome, k.name);
    CallNotDropping(c, s.key, outcome, k);
  }

  lemma StepStaysStuck(s: State, a: Action, k: Key)
    requires Inv(s) && Stuck(s, k) && KeepsRepository(a, k.spec.repository)
    ensures Stuck(Next(s, a), k)
  {
    assert RepoIds(s.cluster) && KeyIds(s.cluster);
    match a {
      case Environment(e) =>
        hide Inv, Stuck;
        EventStaysStuck(s, e, k);
      case RepositoryCall(ok) =>
        hide Inv, Stuck;
        RepositoryCallStaysStuck(s, ok, k);
      case KeyCall(outcome) =>
        hide Inv, Stuck;
        KeyCallStaysStuck(s, outcome, k);
      case _ => hide Inv;
    }
  }

  /**
    A key that is under deletion without a recorded ID stays as it is, with its finalizer and without an ID, through every
    run in which the deletion of its repository is not requested.
   */
  lemma {:induction false} StaysStuck(s: State, actions: seq<Action>, k: Key)
    requires Inv(s) && Stuck(s, k) && forall a :: a in actions ==> KeepsRepository(a, k.spec.repository)
    ensures Stuck(Run(s, actions), k)
    decreases |actions|
  {
    hide Inv, Stuck, KeepsRepository;
    if actions != [] {
      var before := actions[..|actions| - 1];
      assert forall a :: a in before ==> a in actions;
      StaysStuck(s, before, k);
      RunKeepsInv(s, before);
      assert actions[|actions| - 1] in actions;
      StepStaysStuck(Run(s, before), actions[|actions| - 1], k);
    }
  }
}
