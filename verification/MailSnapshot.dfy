/** The process-local sender snapshot of internal/mailruntime/manager.go against the shared
    database: a load reads the state row, later reads the version row, then installs. */
module MailSnapshot {
  import opened Base
  import opened MailModel
  import opened MailHistory

  /** What one process was deployed with: its environment fallback, whether that passes
      validation, the versions whose password it can decrypt, and the configurations from which
      it can build a sender. */
  datatype Env = Env(fallback: Option<Config>, fallbackValid: bool, decryptable: set<VersionId>, buildable: set<Config>)

  /** The part of the state row that a load reads. */
  datatype Row = Row(mode: Mode, active: Option<VersionId>, revision: nat, circuit: Circuit)

  datatype Effective = Effective(mode: Mode, revision: nat, version: Option<VersionId>, configured: bool,
                                 available: bool, circuit: Circuit, config: Option<Config>)

  datatype Snap = Snap(effective: Effective, hasSender: bool, source: Source)

  function RowOf(db: Db): Row {
    Row(db.mode, db.active, db.revision, db.circuit)
  }

  /** LoadEffectiveConfig; the flag is a deterministic error (invalid or missing configuration). */
  function LoadEffective(row: Row, versions: map<VersionId, Config>, env: Env): (Effective, bool) {
    var base := Effective(row.mode, row.revision, None, false, false, row.circuit, None);
    match row.mode
    case Disabled => (base, false)
    case Fallback =>
      if env.fallback.None? then (base, false)
      else if !env.fallbackValid then (base.(configured := true), true)
      else (base.(configured := true, config := env.fallback, available := row.circuit.Closed?), false)
    case Active =>
      if row.active.None? || row.active.value !in versions then (base.(configured := true), true)
      else if row.active.value !in env.decryptable then (base.(configured := true, version := row.active), true)
      else (base.(configured := true, version := row.active, config := Some(versions[row.active.value]),
                  available := row.circuit.Closed?), false)
  }

  /** The snapshot that Load builds: without a sender, and unavailable, when the configuration is
      in error or no sender can be built from it. */
  function BuildSnapshot(row: Row, versions: map<VersionId, Config>, env: Env): Snap {
    var (eff, failed) := LoadEffective(row, versions, env);
    var source := Source(eff.mode, eff.version);
    if failed then Snap(eff.(available := false), false, source)
    else if eff.config.Some? && eff.config.value !in env.buildable then Snap(eff.(available := false), false, source)
    else Snap(eff, eff.config.Some?, source)
  }

  /** The snapshot that a database state stands for, read in one piece. */
  function Project(db: Db, env: Env): Snap {
    BuildSnapshot(RowOf(db), db.versions, env)
  }

  function Install(current: Option<Snap>, next: Snap): Option<Snap> {
    if current.Some? && next.effective.revision <= current.value.effective.revision then current else Some(next)
  }

  function CurrentSender(snap: Option<Snap>): (r: Option<Source>) {
    if snap.None? || !snap.value.hasSender || !snap.value.effective.available then None else Some(snap.value.source)
  }

  // ---------------------------------------------------------------- one process beside the database

  datatype Node = Node(db: Db, loading: Option<Row>, snap: Option<Snap>)

  /** Loads are serialized by the manager's mutex: at most one is under way. */
  datatype NodeEvent = Commit(e: Event) | BeginLoad | FinishLoad | AbortLoad

  function NodeStep(n: Node, e: NodeEvent, env: Env): Node {
    match e
    case Commit(de) => n.(db := Step(n.db, de))
    case BeginLoad => if n.loading.None? then n.(loading := Some(RowOf(n.db))) else n
    case FinishLoad =>
      if n.loading.None? then n
      else n.(loading := None, snap := Install(n.snap, BuildSnapshot(n.loading.value, n.db.versions, env)))
    case AbortLoad => n.(loading := None)
  }

  function NodeRun(es: seq<NodeEvent>, env: Env): Node
    decreases |es|
  {
    if es == [] then Node(INITIAL, None, None)
    else NodeStep(NodeRun(es[..|es| - 1], env), es[|es| - 1], env)
  }

  /** The transactions of a node's run, in order. */
  function Commits(es: seq<NodeEvent>): seq<Event>
    decreases |es|
  {
    if es == [] then []
    else
      var front := Commits(es[..|es| - 1]);
      if es[|es| - 1].Commit? then front + [es[|es| - 1].e] else front
  }

  /** State number `i` of the database's history. */
  function DbAt(ds: seq<Event>, i: nat): Db
    requires i <= |ds|
  {
    Before(INITIAL, ds, i)
  }

  ghost predicate RowFrom(ds: seq<Event>, row: Row, i: nat) {
    i <= |ds| && row == RowOf(DbAt(ds, i))
  }

  ghost predicate SnapFrom(ds: seq<Event>, snap: Snap, env: Env, i: nat) {
    i <= |ds| && snap == Project(DbAt(ds, i), env)
  }

  /** Version rows are append-only, so reading them later gives the same snapshot. */
  lemma {:induction false} LateRead(ds: seq<Event>, i: nat, env: Env)
    requires i <= |ds|
    ensures BuildSnapshot(RowOf(DbAt(ds, i)), Run(INITIAL, ds).versions, env) == Project(DbAt(ds, i), env)
  {
    assert ds[..|ds|] == ds;
    VersionsGrow(ds, i, |ds|);
    VersionsGrow(ds, i, i);
  }

  lemma {:induction false} HistoryGrows(ds: seq<Event>, e: Event, i: nat)
    requires i <= |ds|
    ensures DbAt(ds + [e], i) == DbAt(ds, i)
  {
    assert (ds + [e])[..i] == ds[..i];
  }

  ghost predicate NodeOk(n: Node, ds: seq<Event>, env: Env) {
    && n.db == Run(INITIAL, ds)
    && (n.loading.Some? ==> exists i :: RowFrom(ds, n.loading.value, i))
    && (n.snap.Some? ==> exists i :: SnapFrom(ds, n.snap.value, env, i))
  }

  lemma {:induction false} NodeOkStep(n: Node, ds: seq<Event>, e: NodeEvent, env: Env)
    requires NodeOk(n, ds, env)
    ensures NodeOk(NodeStep(n, e, env), if e.Commit? then ds + [e.e] else ds, env)
  {
    match e
    case Commit(de) =>
      RunOne(INITIAL, ds, de);
      if n.loading.Some? {
        var i :| RowFrom(ds, n.loading.value, i);
        HistoryGrows(ds, de, i);
        assert RowFrom(ds + [de], n.loading.value, i);
      }
      if n.snap.Some? {
        var i :| SnapFrom(ds, n.snap.value, env, i);
        HistoryGrows(ds, de, i);
        assert SnapFrom(ds + [de], n.snap.value, env, i);
      }
    case BeginLoad =>
      assert ds[..|ds|] == ds;
      assert RowFrom(ds, RowOf(n.db), |ds|);
    case FinishLoad =>
      if n.loading.Some? {
        var i :| RowFrom(ds, n.loading.value, i);
        LateRead(ds, i, env);
        assert SnapFrom(ds, BuildSnapshot(n.loading.value, n.db.versions, env), env, i);
      }
    case AbortLoad =>
  }

  lemma {:induction false} NodeAlwaysOk(es: seq<NodeEvent>, env: Env)
    ensures NodeOk(NodeRun(es, env), Commits(es), env)
  {
    if es == [] {
      assert Run(INITIAL, []) == INITIAL;
    } else {
      NodeAlwaysOk(es[..|es| - 1], env);
      NodeOkStep(NodeRun(es[..|es| - 1], env), Commits(es[..|es| - 1]), es[|es| - 1], env);
    }
  }

  lemma ProjectRevision(db: Db, env: Env)
    ensures Project(db, env).effective.revision == db.revision
  {}

  /** An installed snapshot is the projection of the one database state that has its revision,
      and never runs ahead of the database. */
  lemma SnapshotRefinesDatabase(es: seq<NodeEvent>, env: Env, i: nat)
    requires NodeRun(es, env).snap.Some? && i <= |Commits(es)|
    ensures var snap := NodeRun(es, env).snap.value;
      && snap.effective.revision <= NodeRun(es, env).db.revision
      && (exists k: nat :: k <= |Commits(es)| && DbAt(Commits(es), k).revision == snap.effective.revision)
      && (DbAt(Commits(es), i).revision == snap.effective.revision ==> snap == Project(DbAt(Commits(es), i), env))
  {
    var ds := Commits(es);
    NodeAlwaysOk(es, env);
    var k :| SnapFrom(ds, NodeRun(es, env).snap.value, env, k);
    hide Project, NodeRun;
    ProjectRevision(DbAt(ds, k), env);
    RevisionIdentifiesState(INITIAL, ds, k, |ds|);
    assert ds[..|ds|] == ds;
    if i <= k { RevisionIdentifiesState(INITIAL, ds, i, k); } else { RevisionIdentifiesState(INITIAL, ds, k, i); }
  }

  /** The installed revision never goes back, whichever loads overlap whichever commits. */
  lemma {:induction false} SnapshotNeverRegresses(es: seq<NodeEvent>, n: nat, env: Env)
    requires n <= |es| && NodeRun(es[..n], env).snap.Some?
    ensures NodeRun(es, env).snap.Some?
    ensures NodeRun(es[..n], env).snap.value.effective.revision <= NodeRun(es, env).snap.value.effective.revision
  {
    if n < |es| {
      assert es[..|es| - 1][..n] == es[..n];
      SnapshotNeverRegresses(es[..|es| - 1], n, env);
    } else {
      assert es[..n] == es;
    }
  }

  /** A sender is handed out only if, at the installed revision, the runtime is not disabled, its
      circuit is closed and it has a configuration this process can build; the sender's source
      then is the effective source of that revision. Nothing is withheld otherwise. */
  lemma SenderMatchesRevision(es: seq<NodeEvent>, env: Env, i: nat)
    requires NodeRun(es, env).snap.Some? && i <= |Commits(es)|
    requires DbAt(Commits(es), i).revision == NodeRun(es, env).snap.value.effective.revision
    ensures var db, sender := DbAt(Commits(es), i), CurrentSender(NodeRun(es, env).snap);
      && (sender.Some? <==>
            && db.circuit.Closed?
            && (match db.mode
                case Disabled => false
                case Fallback => env.fallback.Some? && env.fallbackValid && env.fallback.value in env.buildable
                case Active => db.active.Some? && db.active.value in db.versions && db.active.value in env.decryptable
                               && db.versions[db.active.value] in env.buildable))
      && (sender.Some? ==> ValidSource(sender.value) && SourceMatches(sender.value, db))
  {
    SnapshotRefinesDatabase(es, env, i);
    ModeActiveIffVersion(Commits(es)[..i]);
    hide NodeRun, Run;
  }

  /** What the configuration of a database state is to this process, if it can be read. */
  function ConfigOf(db: Db, env: Env): Option<Config> {
    match db.mode
    case Disabled => None
    case Fallback => if env.fallbackValid then env.fallback else None
    case Active =>
      if db.active.Some? && db.active.value in db.versions && db.active.value in env.decryptable then Some(db.versions[db.active.value])
      else None
  }

  /** The installed snapshot shows the state at its revision: its mode and circuit, the version and
      configuration that are in force there, whether one is set at all, and whether mail can be sent. */
  lemma SnapshotShows(es: seq<NodeEvent>, env: Env, i: nat)
    requires NodeRun(es, env).snap.Some? && i <= |Commits(es)|
    requires DbAt(Commits(es), i).revision == NodeRun(es, env).snap.value.effective.revision
    ensures var db, eff := DbAt(Commits(es), i), NodeRun(es, env).snap.value.effective;
      && eff.mode == db.mode && eff.circuit == db.circuit && eff.version == db.active && eff.config == ConfigOf(db, env)
      && (eff.configured <==> db.mode == Active || (db.mode == Fallback && env.fallback.Some?))
      && (eff.available <==> CurrentSender(NodeRun(es, env).snap).Some?)
  {
    SnapshotRefinesDatabase(es, env, i);
    ModeActiveIffVersion(Commits(es)[..i]);
    VersionsGrow(Commits(es), i, i);
    hide NodeRun, Run;
  }

  // ---------------------------------------------------------------- the manager

  /** The effective configuration could be read, and if there is one, a sender be built from it. */
  predicate Sound(row: Row, versions: map<VersionId, Config>, env: Env) {
    var (eff, failed) := LoadEffective(row, versions, env);
    !failed && (eff.config.Some? ==> eff.config.value in env.buildable)
  }

  /** The manager's snapshot field and the calls that read and replace it. */
  class Manager {
    const env: Env
    var snapshot: Option<Snap>
    ghost var installs: seq<nat>

    constructor (e: Env)
      ensures env == e && snapshot == None && installs == []
    {
      env, snapshot, installs := e, None, [];
    }

    /** Publishes only a strictly newer state; `installs` records what was published. */
    method InstallSnapshot(next: Snap) returns (published: bool)
      modifies this
      ensures snapshot == Install(old(snapshot), next)
      ensures published <==> old(snapshot).None? || old(snapshot).value.effective.revision < next.effective.revision
      ensures installs == if published then old(installs) + [next.effective.revision] else old(installs)
    {
      if snapshot.Some? && next.effective.revision <= snapshot.value.effective.revision { return false; }
      snapshot := Some(next);
      installs := installs + [next.effective.revision];
      return true;
    }

    /** Load with the rows that its two queries returned; a failed read keeps the last snapshot. */
    method Load(row: Option<Row>, versions: map<VersionId, Config>) returns (ok: bool)
      modifies this
      ensures snapshot == if row.None? then old(snapshot) else Install(old(snapshot), BuildSnapshot(row.value, versions, env))
      ensures ok <==> row.Some? && Sound(row.value, versions, env)
    {
      if row.None? { return false; }
      var (eff, failed) := LoadEffective(row.value, versions, env);
      var source := Source(eff.mode, eff.version);
      if failed {
        var _ := InstallSnapshot(Snap(eff.(available := false), false, source));
        return false;
      }
      var next := Snap(eff, false, source);
      if eff.config.Some? {
        if eff.config.value !in env.buildable {
          var _ := InstallSnapshot(next.(effective := eff.(available := false)));
          return false;
        }
        next := next.(hasSender := true);
      }
      var _ := InstallSnapshot(next);
      return true;
    }
  }
}
