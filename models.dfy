/** The configuration records: a script per (repository, event), a repository
    with its secret, and the global configuration with its queue bound. The
    configuration is validated once; validation fills in a missing working
    directory from the script's own path. */
module Models {

  datatype Option<+T> = None | Some(value: T)

  /** A filesystem path: whether it is anchored at the root, and its components. */
  datatype Path = Path(absolute: bool, parts: seq<string>)

  /** The path one level below `p`, named `name` (the `/` operator on paths). */
  function Child(p: Path, name: string): (r: Path)
    ensures r.absolute == p.absolute && |r.parts| == |p.parts| + 1
  {
    Path(p.absolute, p.parts + [name])
  }

  /** The logical parent of a path: its last component removed. The root and
      the empty relative path are their own parents. */
  function Parent(p: Path): (r: Path)
    ensures r.absolute == p.absolute
    ensures |r.parts| == if p.parts == [] then 0 else |p.parts| - 1
    ensures r.parts <= p.parts
  {
    if p.parts == [] then p else Path(p.absolute, p.parts[..|p.parts| - 1])
  }

  /** Taking the parent undoes descending into a child. */
  lemma ParentOfChild(p: Path, name: string)
    ensures Parent(Child(p, name)) == p
  {
  }

  /** What to run for one event of one repository. `refs` is the set of refs
      that are actioned; when it is absent, no ref is. */
  datatype Script = Script(run: Path, workDir: Option<Path>, refs: Option<set<string>>)

  /** The validator's effect on a script: an absent working directory becomes
      the parent directory of the script; a given one is kept. */
  function WithDefaultWorkDir(s: Script): (r: Script)
    ensures r.workDir.Some?
    ensures r.run == s.run && r.refs == s.refs
    ensures s.workDir.Some? ==> r == s
    ensures s.workDir.None? ==> r.workDir == Some(Parent(s.run))
  {
    if s.workDir.None? then s.(workDir := Some(Parent(s.run))) else s
  }

  /** Validating twice changes nothing more than validating once. */
  lemma CheckDirnameIdempotent(s: Script)
    ensures WithDefaultWorkDir(WithDefaultWorkDir(s)) == WithDefaultWorkDir(s)
  {
  }

  /** The script record while it is being validated; the validator updates
      its working directory in place. */
  class ScriptRecord {
    var run: Path
    var workDir: Option<Path>
    var refs: Option<set<string>>

    constructor (run: Path, workDir: Option<Path>, refs: Option<set<string>>)
      ensures Value() == Script(run, workDir, refs)
    {
      this.run := run;
      this.workDir := workDir;
      this.refs := refs;
    }

    function Value(): Script
      reads this
    {
      Script(run, workDir, refs)
    }

    method CheckDirname()
      modifies this
      ensures Value() == WithDefaultWorkDir(old(Value()))
      ensures workDir.Some?
    {
      if workDir.None? {
        workDir := Some(Parent(run));
      }
    }
  }

  datatype ConfigRepo = ConfigRepo(secret: string, events: map<string, Script>)

  datatype Config = Config(repos: map<string, ConfigRepo>, maxQueueLength: int)

  /** Queue bound used when the configuration does not give one (unbounded). */
  const DefaultMaxQueueLength := 0

  /** Every script of the configuration carries a working directory. */
  ghost predicate AllWorkDirsSet(c: Config)
  {
    forall name, event | name in c.repos && event in c.repos[name].events ::
      c.repos[name].events[event].workDir.Some?
  }

  function ValidateRepo(repo: ConfigRepo): (r: ConfigRepo)
    ensures r.secret == repo.secret && r.events.Keys == repo.events.Keys
    ensures forall event | event in repo.events ::
      r.events[event] == WithDefaultWorkDir(repo.events[event])
  {
    ConfigRepo(repo.secret, map event | event in repo.events :: WithDefaultWorkDir(repo.events[event]))
  }

  /** Building the configuration from its parsed fields: each script passes
      through the working-directory validator, and an omitted queue bound
      takes its default. */
  function Validate(repos: map<string, ConfigRepo>, maxQueueLength: Option<int>): (c: Config)
    ensures c.repos.Keys == repos.Keys
    ensures forall name | name in repos ::
      c.repos[name].secret == repos[name].secret &&
      c.repos[name].events.Keys == repos[name].events.Keys
    ensures forall name, event | name in repos && event in repos[name].events ::
      c.repos[name].events[event] == WithDefaultWorkDir(repos[name].events[event])
    ensures AllWorkDirsSet(c)
    ensures maxQueueLength.None? ==> c.maxQueueLength == DefaultMaxQueueLength
    ensures maxQueueLength.Some? ==> c.maxQueueLength == maxQueueLength.value
  {
    Config(map name | name in repos :: ValidateRepo(repos[name]),
           if maxQueueLength.None? then DefaultMaxQueueLength else maxQueueLength.value)
  }
}
