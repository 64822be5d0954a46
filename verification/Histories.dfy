/** How objects change along a run, and in which order things happen across the two controllers. */
module Histories {
  import opened Options
  import opened Conditions
  import opened Resources
  import opened ApiServer
  import opened Operator
  import opened Invariant
  import opened Safety
  import E = Environment
  import K = KeyController
  import R = RepositoryController
  import RepositorySteps

  // ----- keys -----

  /** What no step undoes: identity and spec, marks once set, a dropped finalizer, a final status with its key ID. */
  predicate KeyLater(k: Key, l: Key) {
    && l.uid == k.uid && l.name == k.name && l.spec == k.spec
    && (k.deleting ==> l.deleting)
    && (k.carried ==> l.carried && l.controller == k.controller && l.repositoryLabel == k.repositoryLabel)
    && (k.carried && !k.finalizer ==> !l.finalizer)
    && (k.conditions != [] ==> l.conditions != [])
    && (k.keyID.Some? ==> l.keyID == k.keyID)
    && (k.IsCreated() ==> l.conditions == k.conditions)
  }

  ghost predicate HasLater(c: Cluster, k: Key) {
    exists l: Key :: Known(c, l) && KeyLater(k, l)
  }

  lemma PutKeyLater(c: Cluster, d: Cluster, l: Key, k: Key)
    requires KeyIds(c) && l.name in c.keys && KeyLater(c.keys[l.name], l) && Known(c, k)
    requires d == PutKey(c, l) || d == c.(keys := c.keys[l.name := l])
    ensures HasLater(d, k)
  {
    if k.name == l.name && k == c.keys[l.name] {
      assert Known(d, l);
    } else {
      assert Known(d, k) && KeyLater(k, k);
    }
  }

  lemma NewKeyLater(c: Cluster, l: Key, k: Key)
    requires KeyIds(c) && l.name !in c.keys && Known(c, k)
    ensures HasLater(c.(keys := c.keys[l.name := l], nextUid := c.nextUid + 1), k)
  {
    assert Known(c.(keys := c.keys[l.name := l], nextUid := c.nextUid + 1), k) && KeyLater(k, k);
  }

  lemma UnchangedKeys(c: Cluster, d: Cluster, k: Key)
    requires Known(c, k) && d.keys == c.keys && d.gone == c.gone
    ensures HasLater(d, k)
  {
    assert Known(d, k) && KeyLater(k, k);
  }

  lemma EventKey(s: State, e: E.Event, k: Key)
    requires KeyIds(s.cluster) && Known(s.cluster, k)
    ensures HasLater(Next(s, Environment(e)).cluster, k)
  {
    var c, d := s.cluster, Next(s, Environment(e)).cluster;
    if !E.OnKeys(e) || d == c {
      E.HappenFrame(c, K.Busy(s.key), R.Busy(s.repo), e);
      UnchangedKeys(c, d, k);
    } else if e.CreateKey? {
      assert d == E.NewKey(c, e.name, e.spec, e.controller, e.held);
      NewKeyLater(c, d.keys[e.name], k);
    } else {
      var l := c.keys[e.name];
      var l' := if e.EditKey? then l.(spec := e.spec)
                else if e.DeleteKey? then l.(deleting := true, held := l.held || e.foreground)
                else l.(held := false);
      assert d == PutKey(c, l');
      assert KeyLater(l, l');
      PutKeyLater(c, d, l', k);
    }
  }

  /** What each of the four calls that write a key makes of it. */
  lemma WrittenKey(c: Cluster, pc: K.Pc, outcome: K.Outcome) returns (l: Key)
    requires K.WritesKey(pc) && KeyPcOk(c, pc) && K.Call(c, pc, outcome).0 != c
    ensures KeyUnchanged(c, pc.key) && l.name == pc.key.name && KeyLater(pc.key, l)
    ensures var d := K.Call(c, pc, outcome).0; d == PutKey(c, l) || d == c.(keys := c.keys[l.name := l])
  {
    hide TracksRepo, DropOk, MarkCreated, MarkFailed;
    match pc
    case DefaultStatus(key, repo) => l := key.(conditions := K.WithDefaults(key).conditions);
    case SetMetadata(key, repo) => l := K.WithMetadata(key, repo);
    case StoreStatus(key, updated) =>
      RepositorySteps.Marked(key.conditions);
      l := key.(conditions := updated.conditions, keyID := updated.keyID);
    case DropFinalizer(key, _) => l := key.(finalizer := false);
  }

  lemma CallKey(s: State, outcome: K.Outcome, k: Key)
    requires KeyIds(s.cluster) && KeyPcOk(s.cluster, s.key) && Known(s.cluster, k)
    ensures HasLater(Next(s, KeyCall(outcome)).cluster, k)
  {
    var c, d := s.cluster, Next(s, KeyCall(outcome)).cluster;
    if d == c || !K.WritesKey(s.key) {
      K.CallFrame(c, s.key, outcome);
      UnchangedKeys(c, d, k);
    } else {
      var l := WrittenKey(c, s.key, outcome);
      PutKeyLater(c, d, l, k);
    }
  }

  lemma StepKey(s: State, a: Action, k: Key)
    requires Inv(s) && Known(s.cluster, k)
    ensures HasLater(Next(s, a).cluster, k)
  {
    hide KeysOk, JobsOk, BackendOk, ReposOk, KeyPcOk, RepoPcOk, K.Call, R.Call, E.Happen;
    if a.Environment? {
      EventKey(s, a.event, k);
    } else if a.KeyCall? {
      CallKey(s, a.outcome, k);
    } else {
      if a.RepositoryCall? { R.CallFrame(s.cluster, s.repo, a.ok); }
      UnchangedKeys(s.cluster, Next(s, a).cluster, k);
    }
  }

  /**
    Along every run a known key stays known, and its later version keeps everything KeyLater lists: the
    key ID is written at most once, a Created status never changes again, and a dropped finalizer
    does not come back.
   */
  lemma {:induction false} KeyHistoryIsMonotone(s: State, actions: seq<Action>, k: Key)
    requires Inv(s) && Known(s.cluster, k)
    ensures HasLater(Run(s, actions).cluster, k)
    decreases |actions|
  {
    hide Inv;
    if actions == [] {
      assert Known(s.cluster, k) && KeyLater(k, k);
    } else {
      var t := Run(s, actions[..|actions| - 1]);
      KeyHistoryIsMonotone(s, actions[..|actions| - 1], k);
      var l: Key :| Known(t.cluster, l) && KeyLater(k, l);
      RunKeepsInv(s, actions[..|actions| - 1]);
      StepKey(t, actions[|actions| - 1], l);
      var m: Key :| Known(Run(s, actions).cluster, m) && KeyLater(l, m);
      LaterTransitive(k, l, m);
    }
  }

  lemma LaterTransitive(k: Key, l: Key, m: Key)
    requires KeyLater(k, l) && KeyLater(l, m)
    ensures KeyLater(k, m)
  {
  }

  // ----- repositories -----

  predicate RepoLater(r: Repository, q: Repository) {
    && q.uid == r.uid && q.url == r.url
    && (r.deleting ==> q.deleting)
    && (r.IsCreated() || r.IsFailed() ==> q.conditions == r.conditions)
  }

  lemma SameStatusIsLater(r: Repository, q: Repository)
    requires q.uid == r.uid && q.url == r.url && (r.deleting ==> q.deleting) && q.conditions == r.conditions
    ensures RepoLater(r, q)
  {
  }

  lemma PutRepoLater(c: Cluster, q: Repository, n: string)
    requires q.name in c.repos && RepoLater(c.repos[q.name], q) && n in PutRepository(c, q).repos
    ensures n in c.repos && RepoLater(c.repos[n], PutRepository(c, q).repos[n])
  {
    if n != q.name { SameStatusIsLater(c.repos[n], c.repos[n]); }
  }

  lemma EventRepo(s: State, e: E.Event, n: string)
    requires RepoIds(s.cluster) && n in Next(s, Environment(e)).cluster.repos
    requires Next(s, Environment(e)).cluster.repos[n].uid < s.cluster.nextUid
    ensures n in s.cluster.repos && RepoLater(s.cluster.repos[n], Next(s, Environment(e)).cluster.repos[n])
  {
    hide RepoLater;
    var c, d := s.cluster, Next(s, Environment(e)).cluster;
    if !E.OnRepositories(e) || d == c {
      E.HappenFrame(c, K.Busy(s.key), R.Busy(s.repo), e);
      SameStatusIsLater(c.repos[n], c.repos[n]);
    } else if e.CreateRepository? {
      assert d == E.NewRepository(c, e.name, e.url, e.held);
      assert n != e.name;
      SameStatusIsLater(c.repos[n], c.repos[n]);
    } else {
      var r := c.repos[e.name];
      var q := if e.EditRepository? then r.(url := e.url)
               else if e.DeleteRepository? then r.(deleting := true, held := r.held || e.foreground)
               else r.(held := false);
      assert d == PutRepository(c, q);
      SameStatusIsLater(r, q);
      PutRepoLater(c, q, n);
    }
  }

  lemma CallRepo(s: State, ok: bool, n: string)
    requires RepoIds(s.cluster) && RepoPcOk(s.cluster, s.repo) && n in Next(s, RepositoryCall(ok)).cluster.repos
    ensures n in s.cluster.repos && RepoLater(s.cluster.repos[n], Next(s, RepositoryCall(ok)).cluster.repos[n])
  {
    hide MarkCreated, MarkFailed;
    var c, d := s.cluster, Next(s, RepositoryCall(ok)).cluster;
    R.CallFrame(c, s.repo, ok);
    if d != c {
      if s.repo.DefaultStatus? {
        assert Some(d) == UpdateRepositoryStatus(c, s.repo.repo, R.WithDefaults(s.repo.repo));
      } else if s.repo.StoreStatus? {
        assert Some(d) == UpdateRepositoryStatus(c, s.repo.repo, s.repo.updated);
      }
    }
  }

  lemma StepRepo(s: State, a: Action, n: string)
    requires Inv(s) && n in Next(s, a).cluster.repos && Next(s, a).cluster.repos[n].uid < s.cluster.nextUid
    ensures n in s.cluster.repos && RepoLater(s.cluster.repos[n], Next(s, a).cluster.repos[n])
  {
    hide KeysOk, JobsOk, BackendOk, KeyPcOk, ReposOk, RepoPcOk, KeyIds, JobIds, K.Call, R.Call, E.Happen;
    match a
    case Environment(e) => EventRepo(s, e, n);
    case RepositoryCall(ok) => CallRepo(s, ok, n);
    case KeyCall(outcome) => K.CallFrame(s.cluster, s.key, outcome);
    case _ =>
  }

  lemma StepUid(s: State, a: Action)
    ensures s.cluster.nextUid <= Next(s, a).cluster.nextUid
  {
    hide K.Call, R.Call, E.Happen;
    match a
    case Environment(e) => E.HappenFrame(s.cluster, K.Busy(s.key), R.Busy(s.repo), e);
    case RepositoryCall(ok) => R.CallFrame(s.cluster, s.repo, ok);
    case KeyCall(outcome) => K.CallFrame(s.cluster, s.key, outcome);
    case _ =>
  }

  /** Along every run a repository keeps its URL, and once Created or Failed is True its status never changes again. */
  lemma {:induction false} RepositoryHistoryIsMonotone(s: State, actions: seq<Action>, n: string)
    requires Inv(s) && n in Run(s, actions).cluster.repos && Run(s, actions).cluster.repos[n].uid < s.cluster.nextUid
    ensures n in s.cluster.repos && RepoLater(s.cluster.repos[n], Run(s, actions).cluster.repos[n])
    decreases |actions|
  {
    hide Inv;
    if actions != [] {
      var before := actions[..|actions| - 1];
      var t := Run(s, before);
      RunKeepsInv(s, before);
      UidsGrow(s, before);
      StepRepo(t, actions[|actions| - 1], n);
      RepositoryHistoryIsMonotone(s, before, n);
    }
  }

  lemma {:induction false} UidsGrow(s: State, actions: seq<Action>)
    ensures s.cluster.nextUid <= Run(s, actions).cluster.nextUid
    decreases |actions|
  {
    if actions != [] {
      UidsGrow(s, actions[..|actions| - 1]);
      StepUid(Run(s, actions[..|actions| - 1]), actions[|actions| - 1]);
    }
  }
}
