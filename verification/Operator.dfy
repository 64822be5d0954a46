/** Everyone else who acts on the cluster: users, the job controller and the garbage collector. */
module Environment {
  import opened Options
  import opened Conditions
  import opened KeyLog
  import opened Resources
  import opened ApiServer

  datatype Event =
    | CreateRepository(name: string, url: string, held: bool)
    | EditRepository(name: string, url: string)
    | DeleteRepository(name: string, foreground: bool)
    | ReleaseRepository(name: string)
    | CreateKey(name: string, spec: KeySpec, controller: Option<Owner>, held: bool)
    | EditKey(name: string, spec: KeySpec)
    | DeleteKey(name: string, foreground: bool)
    | ReleaseKey(name: string)
    | CreateSecret(name: string, owners: seq<nat>)
    | DeleteSecret(name: string)
    | FinishAddJob(job: nat, early: seq<Condition>, pre: string, id: string, post: string)
    | FinishDeleteJob(job: nat, early: seq<Condition>)
    | FailKeyJob(job: nat, early: seq<Condition>, log: string)
    | FinishInitJob(name: string, early: seq<Condition>, ok: bool)
    | CollectJob(job: nat)
    | CollectInitJob(name: string)

  predicate LiveKey(c: Cluster, uid: nat) {
    exists n :: n in c.keys && c.keys[n].uid == uid
  }

  predicate LiveRepository(c: Cluster, uid: nat) {
    exists n :: n in c.repos && c.repos[n].uid == uid
  }

  /** No existing job carries the label of this key name. */
  predicate KeyNameFree(c: Cluster, name: string) {
    name !in c.keys && forall j :: j in c.jobs ==> !Listed(c.jobs, name, j)
  }

  predicate FreshID(c: Cluster, id: string) {
    && (forall j :: j in c.jobs ==> c.jobs[j].added != Some(id))
    && (forall url :: url in c.backend ==> id !in c.backend[url])
  }

  /** Conditions other than the two final ones (`SuccessCriteriaMet`, `FailureTarget`, ...). */
  predicate NotFinal(cs: seq<Condition>) {
    forall c :: c in cs ==> c.ctype !in [JOB_COMPLETE, JOB_FAILED]
  }

  function Conclude(job: Job, early: seq<Condition>, final: string): Job {
    job.(conditions := job.conditions + early + [Condition(final, ConditionTrue)])
  }

  predicate Running(c: Cluster, j: nat) {
    j in c.jobs && !c.jobs[j].Finished()
  }

  // ----- what each event does when it is possible -----

  function NewRepository(c: Cluster, name: string, url: string, held: bool): Cluster {
    c.(repos := c.repos[name := Repository(name, c.nextUid, url, false, held, [])], nextUid := c.nextUid + 1)
  }

  function NewKey(c: Cluster, name: string, spec: KeySpec, controller: Option<Owner>, held: bool): Cluster {
    c.(keys := c.keys[name := Key(name, c.nextUid, spec, controller, None, false, held, false, false, [], None)],
       nextUid := c.nextUid + 1)
  }

  /** The pod stored one new restic key and its log reports it. */
  function CompleteAdd(c: Cluster, j: nat, early: seq<Condition>, log: string, id: string): Cluster
    requires j in c.jobs
  {
    var job := Conclude(c.jobs[j], early, JOB_COMPLETE).(log := log, added := Some(id));
    c.(jobs := c.jobs[j := job], backend := c.backend[job.url := Stored(c.backend, job.url) + {id}])
  }

  function CompleteDelete(c: Cluster, j: nat, early: seq<Condition>): Cluster
    requires j in c.jobs
  {
    var job := Conclude(c.jobs[j], early, JOB_COMPLETE);
    c.(jobs := c.jobs[j := job], backend := c.backend[job.url := Stored(c.backend, job.url) - {job.Target()}])
  }

  function Fail(c: Cluster, j: nat, early: seq<Condition>, log: string): Cluster
    requires j in c.jobs
  {
    c.(jobs := c.jobs[j := Conclude(c.jobs[j], early, JOB_FAILED).(log := log)])
  }

  function Collect(c: Cluster, j: nat): Cluster
    requires j in c.jobs
  {
    c.(jobs := c.jobs[j := c.jobs[j].(collected := true)])
  }

  function ConcludeInit(c: Cluster, name: string, early: seq<Condition>, ok: bool): Cluster
    requires name in c.initJobs
  {
    c.(initJobs := c.initJobs[name := Conclude(c.initJobs[name], early, if ok then JOB_COMPLETE else JOB_FAILED)])
  }

  // ----- events by the kind of object they touch; one that is not possible changes nothing -----

  predicate OnRepositories(e: Event) {
    e.CreateRepository? || e.EditRepository? || e.DeleteRepository? || e.ReleaseRepository?
  }

  predicate OnKeys(e: Event) {
    e.CreateKey? || e.EditKey? || e.DeleteKey? || e.ReleaseKey?
  }

  predicate OnSecrets(e: Event) {
    e.CreateSecret? || e.DeleteSecret?
  }

  predicate OnKeyJobs(e: Event) {
    e.FinishAddJob? || e.FinishDeleteJob? || e.FailKeyJob? || e.CollectJob?
  }

  predicate OnInitJobs(e: Event) {
    e.FinishInitJob? || e.CollectInitJob?
  }

  function RepositoryEvent(c: Cluster, busyRepo: Option<string>, e: Event): Cluster
    requires OnRepositories(e)
  {
    match e
    case CreateRepository(name, url, held) =>
      if name in c.repos || name in c.initJobs || busyRepo == Some(name) then c else NewRepository(c, name, url, held)
    case EditRepository(name, url) =>
      if name in c.repos && AdmitsRepositoryUpdate(c.repos[name].url, url)
      then PutRepository(c, c.repos[name].(url := url)) else c
    case DeleteRepository(name, foreground) =>
      if name !in c.repos then c
      else PutRepository(c, c.repos[name].(deleting := true, held := c.repos[name].held || foreground))
    case ReleaseRepository(name) =>
      if name !in c.repos then c else PutRepository(c, c.repos[name].(held := false))
  }

  function KeyEvent(c: Cluster, busyKey: Option<string>, e: Event): Cluster
    requires OnKeys(e)
  {
    match e
    case CreateKey(name, spec, controller, held) =>
      if !KeyNameFree(c, name) || busyKey == Some(name) then c else NewKey(c, name, spec, controller, held)
    case EditKey(name, spec) =>
      if name in c.keys && AdmitsKeyUpdate(c.keys[name].spec, spec)
      then PutKey(c, c.keys[name].(spec := spec)) else c
    case DeleteKey(name, foreground) =>
      if name !in c.keys then c
      else PutKey(c, c.keys[name].(deleting := true, held := c.keys[name].held || foreground))
    case ReleaseKey(name) =>
      if name !in c.keys then c else PutKey(c, c.keys[name].(held := false))
  }

  function SecretEvent(c: Cluster, e: Event): Cluster
    requires OnSecrets(e)
  {
    match e
    case CreateSecret(name, owners) =>
      if name in c.secrets then c else c.(secrets := c.secrets[name := Secret(owners)])
    case DeleteSecret(name) =>
      if name in c.secrets && forall u :: u in c.secrets[name].owners ==> !LiveKey(c, u) && !LiveRepository(c, u)
      then c.(secrets := c.secrets - {name}) else c
  }

  function KeyJobEvent(c: Cluster, e: Event): Cluster
    requires OnKeyJobs(e)
  {
    match e
    case FinishAddJob(j, early, pre, id, post) =>
      if Running(c, j) && c.jobs[j].IsAdd() && NotFinal(early) && FreshID(c, id)
         && Reports(pre + MARKER + id + post, pre, id, post)
      then CompleteAdd(c, j, early, pre + MARKER + id + post, id) else c
    case FinishDeleteJob(j, early) =>
      if Running(c, j) && c.jobs[j].IsDelete() && NotFinal(early) then CompleteDelete(c, j, early) else c
    case FailKeyJob(j, early, log) =>
      if Running(c, j) && NotFinal(early) then Fail(c, j, early, log) else c
    case CollectJob(j) =>
      if j in c.jobs && !LiveKey(c, c.jobs[j].owner) then Collect(c, j) else c
  }

  function InitJobEvent(c: Cluster, e: Event): Cluster
    requires OnInitJobs(e)
  {
    match e
    case FinishInitJob(name, early, ok) =>
      if name in c.initJobs && !c.initJobs[name].Finished() && NotFinal(early) then ConcludeInit(c, name, early, ok) else c
    case CollectInitJob(name) =>
      if name in c.initJobs && !LiveRepository(c, c.initJobs[name].owner) then c.(initJobs := c.initJobs - {name}) else c
  }

  function Happen(c: Cluster, busyKey: Option<string>, busyRepo: Option<string>, e: Event): Cluster {
    if OnRepositories(e) then RepositoryEvent(c, busyRepo, e)
    else if OnKeys(e) then KeyEvent(c, busyKey, e)
    else if OnSecrets(e) then SecretEvent(c, e)
    else if OnKeyJobs(e) then KeyJobEvent(c, e)
    else InitJobEvent(c, e)
  }

  // ----- each event touches one kind of object -----

  predicate OnlyRepos(c: Cluster, d: Cluster) {
    && d.keys == c.keys && d.gone == c.gone && d.secrets == c.secrets && d.initJobs == c.initJobs
    && d.jobs == c.jobs && d.backend == c.backend && c.nextUid <= d.nextUid
  }

  predicate OnlyKeys(c: Cluster, d: Cluster) {
    && d.repos == c.repos && d.secrets == c.secrets && d.initJobs == c.initJobs
    && d.jobs == c.jobs && d.backend == c.backend && c.nextUid <= d.nextUid
  }

  predicate OnlyJobs(c: Cluster, d: Cluster) {
    && d.repos == c.repos && d.keys == c.keys && d.gone == c.gone && d.secrets == c.secrets
    && d.initJobs == c.initJobs && d.nextUid == c.nextUid
  }

  predicate OnlySecrets(c: Cluster, d: Cluster) {
    && d.repos == c.repos && d.keys == c.keys && d.gone == c.gone && d.initJobs == c.initJobs
    && d.jobs == c.jobs && d.backend == c.backend && d.nextUid == c.nextUid
  }

  predicate OnlyInitJobs(c: Cluster, d: Cluster) {
    && d.repos == c.repos && d.keys == c.keys && d.gone == c.gone && d.secrets == c.secrets
    && d.jobs == c.jobs && d.backend == c.backend && d.nextUid == c.nextUid
  }

  lemma RepositoryEventFrame(c: Cluster, busyRepo: Option<string>, e: Event)
    requires OnRepositories(e)
    ensures OnlyRepos(c, RepositoryEvent(c, busyRepo, e))
  {
    var d := RepositoryEvent(c, busyRepo, e);
    if d != c {
      match e
      case CreateRepository(name, url, held) => assert d == NewRepository(c, name, url, held);
      case EditRepository(name, url) => assert d == PutRepository(c, c.repos[name].(url := url));
      case DeleteRepository(name, foreground) =>
        assert d == PutRepository(c, c.repos[name].(deleting := true, held := c.repos[name].held || foreground));
      case ReleaseRepository(name) => assert d == PutRepository(c, c.repos[name].(held := false));
    }
  }

  lemma KeyEventFrame(c: Cluster, busyKey: Option<string>, e: Event)
    requires OnKeys(e)
    ensures OnlyKeys(c, KeyEvent(c, busyKey, e))
  {
    var d := KeyEvent(c, busyKey, e);
    if d != c {
      match e
      case CreateKey(name, spec, controller, held) => assert d == NewKey(c, name, spec, controller, held);
      case EditKey(name, spec) => assert d == PutKey(c, c.keys[name].(spec := spec));
      case DeleteKey(name, foreground) =>
        assert d == PutKey(c, c.keys[name].(deleting := true, held := c.keys[name].held || foreground));
      case ReleaseKey(name) => assert d == PutKey(c, c.keys[name].(held := false));
    }
  }

  lemma KeyJobEventFrame(c: Cluster, e: Event)
    requires OnKeyJobs(e)
    ensures OnlyJobs(c, KeyJobEvent(c, e))
  {
    var d := KeyJobEvent(c, e);
    if d != c {
      match e
      case FinishAddJob(j, early, pre, id, post) => assert d == CompleteAdd(c, j, early, pre + MARKER + id + post, id);
      case FinishDeleteJob(j, early) => assert d == CompleteDelete(c, j, early);
      case FailKeyJob(j, early, log) => assert d == Fail(c, j, early, log);
      case CollectJob(j) => assert d == Collect(c, j);
    }
  }

  lemma SecretEventFrame(c: Cluster, e: Event)
    requires OnSecrets(e)
    ensures OnlySecrets(c, SecretEvent(c, e))
  {
    var d := SecretEvent(c, e);
    if d != c {
      match e
      case CreateSecret(name, owners) => assert d == c.(secrets := c.secrets[name := Secret(owners)]);
      case DeleteSecret(name) => assert d == c.(secrets := c.secrets - {name});
    }
  }

  lemma InitJobEventFrame(c: Cluster, e: Event)
    requires OnInitJobs(e)
    ensures OnlyInitJobs(c, InitJobEvent(c, e))
  {
    var d := InitJobEvent(c, e);
    if d != c {
      match e
      case FinishInitJob(name, early, ok) => assert d == ConcludeInit(c, name, early, ok);
      case CollectInitJob(name) => assert d == c.(initJobs := c.initJobs - {name});
    }
  }

  lemma HappenFrame(c: Cluster, busyKey: Option<string>, busyRepo: Option<string>, e: Event)
    ensures var d := Happen(c, busyKey, busyRepo, e);
            && (OnRepositories(e) ==> OnlyRepos(c, d))
            && (OnKeys(e) ==> OnlyKeys(c, d))
            && (OnSecrets(e) ==> OnlySecrets(c, d))
            && (OnKeyJobs(e) ==> OnlyJobs(c, d))
            && (OnInitJobs(e) ==> OnlyInitJobs(c, d))
            && c.nextUid <= d.nextUid
  {
    hide RepositoryEvent, KeyEvent, KeyJobEvent, SecretEvent, InitJobEvent;
    if OnRepositories(e) { RepositoryEventFrame(c, busyRepo, e); }
    else if OnKeys(e) { KeyEventFrame(c, busyKey, e); }
    else if OnSecrets(e) { SecretEventFrame(c, e); }
    else if OnKeyJobs(e) { KeyJobEventFrame(c, e); }
    else { InitJobEventFrame(c, e); }
  }
}

/** Both controllers and the environment, interleaved one API call at a time, with crashes anywhere. */
module Operator {
  import opened ApiServer
  import K = KeyController
  import R = RepositoryController
  import E = Environment

  datatype State = State(cluster: Cluster, key: K.Pc, repo: R.Pc)

  datatype Action =
    | StartKey(name: string)
    | KeyCall(outcome: K.Outcome)
    | KeyCrash
    | StartRepository(name: string)
    | RepositoryCall(ok: bool)
    | RepositoryCrash
    | Environment(event: E.Event)

  const INITIAL := State(EMPTY, K.Idle, R.Idle)

  /** Each controller has one worker, so it starts on an object only when it is idle. */
  function Next(s: State, a: Action): State {
    match a
    case StartKey(name) => if s.key.Idle? then s.(key := K.GetKey(name)) else s
    case KeyCall(outcome) => var (c, pc) := K.Call(s.cluster, s.key, outcome); s.(cluster := c, key := pc)
    case KeyCrash => s.(key := K.Idle)
    case StartRepository(name) => if s.repo.Idle? then s.(repo := R.GetRepo(name)) else s
    case RepositoryCall(ok) => var (c, pc) := R.Call(s.cluster, s.repo, ok); s.(cluster := c, repo := pc)
    case RepositoryCrash => s.(repo := R.Idle)
    case Environment(e) => s.(cluster := E.Happen(s.cluster, K.Busy(s.key), R.Busy(s.repo), e))
  }

  function Run(s: State, actions: seq<Action>): State
    decreases |actions|
  {
    if actions == [] then s else Next(Run(s, actions[..|actions| - 1]), actions[|actions| - 1])
  }

  lemma {:induction false} RunsOn(s: State, actions: seq<Action>, more: seq<Action>)
    ensures Run(s, actions + more) == Run(Run(s, actions), more)
    decreases |more|
  {
    if more == [] {
      assert actions + more == actions;
    } else {
      assert (actions + more)[..|actions + more| - 1] == actions + more[..|more| - 1];
      RunsOn(s, actions, more[..|more| - 1]);
    }
  }

  lemma RunOne(s: State, a: Action)
    ensures Run(s, [a]) == Next(s, a)
  {
    assert [a][..0] == [];
  }

  ghost predicate Reachable(s: State) {
    exists actions :: Run(INITIAL, actions) == s
  }
}
