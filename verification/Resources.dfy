/** How a reconcile ends: there is nothing to do for now, it is to be repeated after a while, or it has failed. */
module Results {
  datatype Result = Done | Requeue | Error

  function Verdict(ok: bool): Result {
    if ok then Done else Error
  }
}

/** The objects of one namespace, as values: what a client reads and sends. */
module Resources {
  import opened Options
  import opened Conditions

  /** `held` says that some other party has a finalizer on the object. */
  datatype Repository = Repository(name: string, uid: nat, url: string, deleting: bool, held: bool,
                                   conditions: seq<Condition>)
  {
    predicate IsCreated() { HasTrue(conditions, CREATED) }
    predicate IsFailed() { HasTrue(conditions, FAILED) }
    function OperatorSecretName(): string { "operator-key-" + name }
  }

  datatype KeySpec = KeySpec(repository: string, user: string, host: string)

  /** A reference to a controlling owner; `kind` includes the API group. */
  datatype Owner = Owner(kind: string, name: string, uid: nat)

  const REPOSITORY_KIND := "restic.zhulik.wtf/Repository"

  function ReferenceTo(repo: Repository): Owner {
    Owner(REPOSITORY_KIND, repo.name, repo.uid)
  }

  /** Two references to one object, which is told by kind and name: the UID of an earlier object is overwritten. */
  predicate RefersTo(owner: Owner, repo: Repository) {
    owner.kind == REPOSITORY_KIND && owner.name == repo.name
  }

  /**
    `controller` is the controlling owner, `repositoryLabel` the value of the repository label, `finalizer` the operator's own
    finalizer. `carried` is history: the key has had that finalizer.
   */
  datatype Key = Key(name: string, uid: nat, spec: KeySpec, controller: Option<Owner>, repositoryLabel: Option<string>,
                     finalizer: bool, held: bool, deleting: bool, carried: bool, conditions: seq<Condition>,
                     keyID: Option<string>)
  {
    predicate IsCreated() { HasTrue(conditions, CREATED) }
    predicate IsFailed() { HasTrue(conditions, FAILED) }
    function SecretName(): string { "restic-key-" + spec.repository + "-" + name }
  }

  datatype Secret = Secret(owners: seq<nat>)

  datatype Operation = AddKey | DeleteKey

  /**
    A job with its labels (`key`, `operation`, `repository`), the repository URL of its environment, its
    arguments and the secrets it mounts. History: `repoUid` is the repository object it was built from,
    `added` the restic key ID it stored in the backend, and `collected` says that the garbage collector
    has removed the job.
   */
  datatype Job = Job(owner: nat, key: Option<string>, operation: Option<Operation>, repository: string, url: string,
                     args: seq<string>, mounts: seq<string>, conditions: seq<Condition>, log: string,
                     repoUid: nat, added: Option<string>, collected: bool)
  {
    predicate IsComplete() { HasTrue(conditions, JOB_COMPLETE) }
    predicate IsFailed() { HasTrue(conditions, JOB_FAILED) }
    /** The first of the two final conditions that is True. */
    function FinalCondition(): Option<string> { AnyWithStatus(conditions, ConditionTrue, [JOB_COMPLETE, JOB_FAILED]) }
    predicate IsAdd() { operation == Some(AddKey) }
    predicate IsDelete() { operation == Some(DeleteKey) }
    /** The restic key ID in the arguments of a delete job. */
    function Target(): string { if |args| == 3 then args[2] else "" }
    predicate Finished() { IsComplete() || IsFailed() }
  }

  lemma FinalIsEither(job: Job)
    ensures job.FinalCondition().Some? ==> job.FinalCondition().value in [JOB_COMPLETE, JOB_FAILED]
  {
    AnyWithStatusIsFirst(job.conditions, ConditionTrue, [JOB_COMPLETE, JOB_FAILED]);
  }

  predicate IsFinal(c: Condition) {
    c.status == ConditionTrue && (c.ctype == "Complete" || c.ctype == "Failed")
  }

  /** The final condition of a job is its first entry that is True and of one of the two final types. */
  lemma FinalIsFirst(job: Job)
    ensures job.FinalCondition().None? <==> forall c :: c in job.conditions ==> !IsFinal(c)
    ensures job.FinalCondition().Some? ==>
              exists i: nat :: (i < |job.conditions| && job.conditions[i] == Condition(job.FinalCondition().value, ConditionTrue)
                                && IsFinal(job.conditions[i]) && forall h :: 0 <= h < i ==> !IsFinal(job.conditions[h]))
  {
    AnyWithStatusIsFirst(job.conditions, ConditionTrue, [JOB_COMPLETE, JOB_FAILED]);
    assert forall c :: Matches(c, ConditionTrue, [JOB_COMPLETE, JOB_FAILED]) <==> IsFinal(c);
  }

  // ----- the jobs the operator builds -----

  function AddKeyJob(repo: Repository, key: Key): Job {
    Job(key.uid, Some(key.name), Some(AddKey), repo.name, repo.url,
        ["key", "add", "--new-password-file", "$(NEW_KEY_FILE)", "--host", key.spec.host, "--user", key.spec.user],
        [key.SecretName(), repo.OperatorSecretName()], [], "", repo.uid, None, false)
  }

  /** None where the operator returns an error or dereferences a nil key ID. */
  function DeleteKeyJob(repo: Repository, key: Key): Option<Job> {
    if repo.IsCreated() && key.keyID.Some? then
      Some(Job(key.uid, Some(key.name), Some(DeleteKey), repo.name, repo.url,
               ["key", "remove", key.keyID.value], [repo.OperatorSecretName()], [], "", repo.uid, None, false))
    else None
  }

  function RepositoryInitJob(repo: Repository): Job {
    Job(repo.uid, None, None, repo.name, repo.url, ["init"], [repo.OperatorSecretName()], [], "", repo.uid, None, false)
  }

  /** The value given for a flag, in words that come as pairs of a flag and its value. */
  function FlagValue(words: seq<string>, flag: string): Option<string> {
    if |words| < 2 then None
    else if words[0] == flag then Some(words[1])
    else FlagValue(words[2..], flag)
  }

  /**
    An add job asks restic to add a key for the key's host and user, whatever these are, with the password that the key's
    secret holds, and opens the repository with the operator's; the two secrets differ.
   */
  lemma AddKeyJobSays(repo: Repository, key: Key)
    ensures var job := AddKeyJob(repo, key);
            && |job.args| == 8 && job.args[..2] == ["key", "add"]
            && FlagValue(job.args[2..], "--host") == Some(key.spec.host)
            && FlagValue(job.args[2..], "--user") == Some(key.spec.user)
            && FlagValue(job.args[2..], "--new-password-file") == Some("$(NEW_KEY_FILE)")
            && job.mounts == [key.SecretName(), repo.OperatorSecretName()] && job.mounts[0] != job.mounts[1]
  {
    var words := AddKeyJob(repo, key).args[2..];
    assert words == ["--new-password-file", "$(NEW_KEY_FILE)", "--host", key.spec.host, "--user", key.spec.user];
    assert words[2..] == ["--host", key.spec.host, "--user", key.spec.user];
    assert words[2..][2..] == ["--user", key.spec.user];
    assert FlagValue(words[2..], "--user") == FlagValue(words[2..][2..], "--user") == Some(key.spec.user);
    SecretNames(key, repo);
  }

  // ----- admission of updates -----

  predicate AdmitsKeyUpdate(stored: KeySpec, sent: KeySpec) {
    !(stored.host != sent.host || stored.user != sent.user || stored.repository != sent.repository)
  }

  predicate AdmitsRepositoryUpdate(stored: string, sent: string) {
    stored == sent
  }

  /** An update of a key may not change its spec, and one of a repository may not change its URL; nothing else is turned down. */
  lemma UpdatesAdmitted(stored: KeySpec, sent: KeySpec, stored_url: string, sent_url: string)
    ensures AdmitsKeyUpdate(stored, sent) <==> sent == stored
    ensures AdmitsRepositoryUpdate(stored_url, sent_url) <==> sent_url == stored_url
  {
  }

  /** A key's secret is never a repository's, but two keys may ask for the same secret name. */
  lemma SecretNames(k: Key, r: Repository)
    ensures k.SecretName() != r.OperatorSecretName()
    ensures exists k1: Key, k2: Key :: (k1.spec.repository, k1.name) != (k2.spec.repository, k2.name)
                                       && k1.SecretName() == k2.SecretName()
  {
    assert k.SecretName()[0] == 'r' && r.OperatorSecretName()[0] == 'o';
    var k1 := Key("c", 0, KeySpec("a-b", "", ""), None, None, false, false, false, false, [], None);
    var k2 := k1.(name := "b-c", spec := KeySpec("a", "", ""));
    assert k1.SecretName() == "restic-key-a-b-c" == k2.SecretName();
    assert k1.name != k2.name;
  }
}

/**
  The stored state of the cluster and the calls the controllers make to the API server. A call that
  returns None is refused. An update carries the object it was computed from and succeeds only if that
  is still what is stored.
 */
module ApiServer {
  import opened Options
  import opened Resources

  /**
    Live repositories, keys and secrets by name; init jobs by the name of their repository; add and delete
    jobs, ever created, by UID. `backend` holds the restic key IDs at each URL, and `gone` the last
    version of every removed key.
   */
  datatype Cluster = Cluster(repos: map<string, Repository>, keys: map<string, Key>, secrets: map<string, Secret>,
                             initJobs: map<string, Job>, jobs: Jobs, nextUid: nat,
                             backend: map<string, set<string>>, gone: map<nat, Key>)

  const EMPTY := Cluster(map[], map[], map[], map[], map[], 0, map[], map[])

  type Jobs = map<nat, Job>

  function Stored(backend: map<string, set<string>>, url: string): set<string> {
    if url in backend then backend[url] else {}
  }

  /** Store a key; an object under deletion without any finalizer is removed. */
  function PutKey(c: Cluster, k: Key): Cluster {
    if k.deleting && !k.finalizer && !k.held then c.(keys := c.keys - {k.name}, gone := c.gone[k.uid := k])
    else c.(keys := c.keys[k.name := k])
  }

  function PutRepository(c: Cluster, r: Repository): Cluster {
    if r.deleting && !r.held then c.(repos := c.repos - {r.name}) else c.(repos := c.repos[r.name := r])
  }

  predicate KeyUnchanged(c: Cluster, read: Key) {
    read.name in c.keys && c.keys[read.name] == read
  }

  predicate RepositoryUnchanged(c: Cluster, read: Repository) {
    read.name in c.repos && c.repos[read.name] == read
  }

  /** Writes everything but the status. No finalizer may be added to an object under deletion. */
  function UpdateKey(c: Cluster, read: Key, sent: Key): Option<Cluster> {
    if KeyUnchanged(c, read) && sent.name == read.name && sent.uid == read.uid
       && !(read.deleting && sent.finalizer && !read.finalizer)
    then Some(PutKey(c, sent.(conditions := read.conditions, keyID := read.keyID)))
    else None
  }

  /** Writes only the status. */
  function UpdateKeyStatus(c: Cluster, read: Key, sent: Key): Option<Cluster> {
    if KeyUnchanged(c, read) then
      Some(c.(keys := c.keys[read.name := read.(conditions := sent.conditions, keyID := sent.keyID)]))
    else None
  }

  function UpdateRepositoryStatus(c: Cluster, read: Repository, sent: Repository): Option<Cluster> {
    if RepositoryUnchanged(c, read) then Some(c.(repos := c.repos[read.name := read.(conditions := sent.conditions)]))
    else None
  }

  function CreateSecret(c: Cluster, name: string, secret: Secret): Option<Cluster> {
    if name in c.secrets then None else Some(c.(secrets := c.secrets[name := secret]))
  }

  function CreateInitJob(c: Cluster, job: Job): Option<Cluster> {
    if job.repository in c.initJobs then None else Some(c.(initJobs := c.initJobs[job.repository := job]))
  }

  function CreateKeyJob(c: Cluster, job: Job): Cluster {
    c.(jobs := c.jobs[c.nextUid := job], nextUid := c.nextUid + 1)
  }

  predicate Listed(jobs: Jobs, key: string, j: nat) {
    j in jobs && !jobs[j].collected && jobs[j].key == Some(key)
  }

  /** Some order of exactly the existing jobs that carry the key's label. */
  predicate IsListing(jobs: Jobs, key: string, order: seq<nat>) {
    && (forall i, j :: 0 <= i < j < |order| ==> order[i] != order[j])
    && (forall j :: j in order ==> Listed(jobs, key, j))
    && (forall j :: j in jobs ==> Listed(jobs, key, j) ==> j in order)
  }

  function Fetch(jobs: Jobs, order: seq<nat>): (r: seq<Job>)
    requires forall j :: j in order ==> j in jobs
    ensures |r| == |order| && forall i :: 0 <= i < |r| ==> r[i] == jobs[order[i]]
  {
    seq(|order|, i requires 0 <= i < |order| => jobs[order[i]])
  }
}
