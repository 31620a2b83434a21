/** The client's object graph, the integrity predicate of client/check_state.cpp, and what the
    collector, reset_project() and detach_project() of client/client_state.cpp make of the graph. */
module ClientGraph {
  import opened Sequences

  /** The flags do not change while the operations modelled here run. */
  class Project {
    const detachWhenDone: bool
    const attachedViaAcctMgr: bool
    const anonymousPlatform: bool
    var userFiles: seq<FileInfo>
    var projectFiles: seq<FileInfo>
    constructor (detachWhenDone: bool, attachedViaAcctMgr: bool, anonymousPlatform: bool) {
      this.detachWhenDone, this.attachedViaAcctMgr := detachWhenDone, attachedViaAcctMgr;
      this.anonymousPlatform := anonymousPlatform;
    }
  }

  class App {
    const project: Project
    constructor (project: Project) { this.project := project; }
  }

  /** `stickyExpireTime` 0 means that the file stays sticky; a negative `status` is a failure. The
      pointer to the persistent transfer is kept by the graph, in `pxOf`. */
  class FileInfo {
    const project: Project
    var refCnt: nat
    var sticky: bool
    var stickyExpireTime: real
    var status: int
    constructor (project: Project) { this.project := project; }
  }

  class AppVersion {
    const app: App
    const project: Project
    const versionNum: int
    const platform: string
    const planClass: string
    const appFiles: seq<FileInfo>
    var refCnt: nat
    constructor (app: App, project: Project, versionNum: int, platform: string, planClass: string,
                 appFiles: seq<FileInfo>) {
      this.app, this.project, this.versionNum := app, project, versionNum;
      this.platform, this.planClass, this.appFiles := platform, planClass, appFiles;
    }
  }

  class Workunit {
    const app: App
    const project: Project
    const inputFiles: seq<FileInfo>
    var refCnt: nat
    constructor (app: App, project: Project, inputFiles: seq<FileInfo>) {
      this.app, this.project, this.inputFiles := app, project, inputFiles;
    }
  }

  class Result {
    const app: App
    const project: Project
    const wup: Workunit
    const avp: AppVersion
    const outputFiles: seq<FileInfo>
    var gotServerAck: bool
    constructor (app: App, project: Project, wup: Workunit, avp: AppVersion, outputFiles: seq<FileInfo>) {
      this.app, this.project, this.wup, this.avp, this.outputFiles := app, project, wup, avp, outputFiles;
    }
  }

  class ActiveTask {
    const result: Result
    const wup: Workunit
    const appVersion: AppVersion
    constructor (result: Result)
      ensures this.result == result && wup == result.wup && appVersion == result.avp
    {
      this.result, wup, appVersion := result, result.wup, result.avp;
    }
  }

  /** The pointer to the transfer in progress is kept by the graph, in `fxOf`. */
  class PersFileXfer {
    const fip: FileInfo
    constructor (fip: FileInfo) { this.fip := fip; }
  }

  class FileXfer {
    const fip: FileInfo
    constructor (fip: FileInfo) { this.fip := fip; }
  }

  /* ---------- the graph as a value ---------- */

  /** The vectors of CLIENT_STATE, and what the collector reads of their elements' fields: the
      acknowledged results, the files that projects name, the files kept by stickiness, and the
      links from files to persistent transfers and from those to running transfers. */
  datatype Graph = Graph(
    projects: seq<Project>, apps: seq<App>, files: seq<FileInfo>,
    appVersions: seq<AppVersion>, workunits: seq<Workunit>, results: seq<Result>,
    tasks: seq<ActiveTask>, pxs: seq<PersFileXfer>, fxs: seq<FileXfer>,
    acked: set<Result>, named: set<(Project, FileInfo)>, sticky: set<FileInfo>,
    pxOf: map<FileInfo, PersFileXfer>, fxOf: map<PersFileXfer, FileXfer>)

  /* ---------- the integrity predicate (client/check_state.cpp:92-176) ---------- */

  ghost predicate CheckFiles(g: Graph, refs: seq<FileInfo>) {
    forall f :: f in refs ==> f in g.files
  }

  ghost predicate CheckWork(g: Graph) {
    (forall a :: a in g.apps ==> a.project in g.projects) &&
    (forall f :: f in g.files ==> f.project in g.projects) &&
    (forall v :: v in g.appVersions ==> v.app in g.apps && v.project in g.projects && CheckFiles(g, v.appFiles)) &&
    (forall u :: u in g.workunits ==> CheckFiles(g, u.inputFiles) && u.project in g.projects && u.app in g.apps) &&
    (forall r :: r in g.results ==>
      CheckFiles(g, r.outputFiles) && r.app in g.apps && r.wup in g.workunits && r.project in g.projects) &&
    (forall t :: t in g.tasks ==> t.result in g.results && t.wup in g.workunits && t.appVersion in g.appVersions)
  }

  ghost predicate CheckTransfers(g: Graph) {
    (forall f :: f in g.files && f in g.pxOf ==> g.pxOf[f] in g.pxs) &&
    (forall p :: p in g.pxs ==> (p in g.fxOf ==> g.fxOf[p] in g.fxs) && p.fip in g.files) &&
    (forall x :: x in g.fxs ==> x.fip in g.files)
  }

  ghost predicate CheckAll(g: Graph) {
    CheckWork(g) && CheckTransfers(g)
  }

  /** What the code that links the objects establishes beyond that: a task carries its result's
      workunit and version, a result's version is in the table, and so are the files that projects
      name. */
  ghost predicate Linked(g: Graph) {
    Distinct(g.projects) &&
    (forall t :: t in g.tasks ==> t.wup == t.result.wup && t.appVersion == t.result.avp) &&
    (forall r :: r in g.results ==> r.avp in g.appVersions) &&
    (forall n :: n in g.named ==> n.1 in g.files)
  }

  /** A file and its persistent transfer point at each other, and a transfer in progress belongs to
      one persistent transfer of the same file. */
  ghost predicate TransfersLinked(g: Graph) {
    Distinct(g.fxs) &&
    (forall f :: f in g.pxOf ==> f in g.files && g.pxOf[f].fip == f) &&
    (forall p :: p in g.pxs ==> p.fip in g.pxOf && g.pxOf[p.fip] == p) &&
    (forall p :: p in g.fxOf ==> p in g.pxs && g.fxOf[p].fip == p.fip) &&
    (forall x :: x in g.fxs ==> exists p :: p in g.fxOf && g.fxOf[p] == x)
  }

  /** References stay within a project: the link functions look names up per project
      (client/client_state.cpp:1257-1392). */
  ghost predicate SameProject(g: Graph) {
    (forall v :: v in g.appVersions ==>
      v.app.project == v.project && forall f :: f in v.appFiles ==> f.project == v.project) &&
    (forall u :: u in g.workunits ==>
      u.app.project == u.project && forall f :: f in u.inputFiles ==> f.project == u.project) &&
    (forall r :: r in g.results ==>
      r.app.project == r.wup.project == r.avp.project == r.project &&
      forall f :: f in r.outputFiles ==> f.project == r.project) &&
    (forall n :: n in g.named ==> n.1.project == n.0)
  }

  ghost predicate Sound(g: Graph) {
    CheckAll(g) && Linked(g) && TransfersLinked(g) && SameProject(g)
  }

  /* ---------- what garbage_collect_always() leaves ---------- */

  ghost predicate HasTask(tasks: seq<ActiveTask>, r: Result) {
    exists t :: t in tasks && t.result == r
  }

  ghost predicate UsesWorkunit(rs: seq<Result>, u: Workunit) {
    exists r :: r in rs && r.wup == u
  }

  ghost predicate UsesVersion(rs: seq<Result>, v: AppVersion) {
    exists r :: r in rs && r.avp == v
  }

  predicate Supersedes(w: AppVersion, v: AppVersion) {
    w.app == v.app && w.versionNum > v.versionNum && w.planClass == v.planClass && w.platform == v.platform
  }

  ghost predicate Superseded(vs: seq<AppVersion>, v: AppVersion) {
    exists w :: w in vs && Supersedes(w, v)
  }

  ghost predicate UsesFile(g: Graph, f: FileInfo) {
    (exists r :: r in g.results && f in r.outputFiles) ||
    (exists u :: u in g.workunits && f in u.inputFiles) ||
    (exists v :: v in g.appVersions && f in v.appFiles) ||
    (exists n :: n in g.named && n.1 == f) ||
    f in g.sticky
  }

  /** Results that are not acknowledged, or whose task still runs. */
  ghost function KeepResult(g: Graph): Result -> bool {
    (r: Result) => r !in g.acked || HasTask(g.tasks, r)
  }

  ghost function KeepWorkunit(g: Graph): Workunit -> bool {
    (u: Workunit) => UsesWorkunit(g.results, u)
  }

  ghost function KeepVersion(g: Graph): AppVersion -> bool {
    (v: AppVersion) => UsesVersion(g.results, v) || !Superseded(g.appVersions, v)
  }

  ghost function KeepFile(g: Graph): FileInfo -> bool {
    (f: FileInfo) => UsesFile(g, f)
  }

  ghost function KeepPx(keep: FileInfo -> bool): PersFileXfer -> bool {
    (p: PersFileXfer) => keep(p.fip)
  }

  ghost function KeepFx(keep: FileInfo -> bool): FileXfer -> bool {
    (x: FileXfer) => keep(x.fip)
  }

  ghost function CollectResults(g: Graph): Graph {
    g.(results := Filter(g.results, KeepResult(g)),
       acked := (set r | r in g.acked && KeepResult(g)(r)))
  }

  ghost function CollectWorkunits(g: Graph): Graph {
    g.(workunits := Filter(g.workunits, KeepWorkunit(g)))
  }

  ghost function CollectVersions(g: Graph): Graph {
    g.(appVersions := Filter(g.appVersions, KeepVersion(g)))
  }

  /** Files and transfers restricted to the files that keep holds of. */
  ghost function RestrictFiles(g: Graph, keep: FileInfo -> bool): Graph {
    g.(files := Filter(g.files, keep)).(
      pxs := Filter(g.pxs, KeepPx(keep)),
      fxs := Filter(g.fxs, KeepFx(keep)),
      pxOf := (map f | f in g.pxOf && keep(f) :: g.pxOf[f]),
      fxOf := (map p | p in g.fxOf && keep(p.fip) :: g.fxOf[p]))
  }

  ghost function CollectFiles(g: Graph): Graph {
    RestrictFiles(g, KeepFile(g))
  }

  ghost function Collect(g: Graph): Graph {
    CollectFiles(CollectVersions(CollectWorkunits(CollectResults(g))))
  }

  /* ---------- the collector is safe ---------- */

  lemma {:induction false} CollectResultsIsSound(g: Graph)
    requires Sound(g)
    ensures Sound(CollectResults(g))
  {
  }

  lemma {:induction false} CollectWorkunitsIsSound(g: Graph)
    requires Sound(g)
    ensures Sound(CollectWorkunits(g))
  {
    forall r | r in g.results ensures UsesWorkunit(g.results, r.wup) {}
  }

  lemma {:induction false} CollectVersionsIsSound(g: Graph)
    requires Sound(g)
    ensures Sound(CollectVersions(g))
  {
    UsedVersionsStay(g, CollectVersions(g));
    assert TransfersLinked(CollectVersions(g)) && SameProject(CollectVersions(g));
  }

  lemma {:induction false} UsedVersionsStay(g: Graph, c: Graph)
    requires CheckAll(g) && Linked(g) && c == CollectVersions(g)
    ensures CheckAll(c) && Linked(c)
  {
    forall r | r in g.results ensures r.avp in c.appVersions { assert UsesVersion(g.results, r.avp); }
  }

  lemma {:induction false} RestrictTransfers(g: Graph, keep: FileInfo -> bool)
    requires TransfersLinked(g)
    ensures TransfersLinked(RestrictFiles(g, keep))
  {
    FilterDistinct(g.fxs, KeepFx(keep));
    var c := RestrictFiles(g, keep);
    forall x | x in c.fxs ensures exists p :: p in c.fxOf && c.fxOf[p] == x {
      var p :| p in g.fxOf && g.fxOf[p] == x;
      assert p in c.fxOf;
    }
  }

  lemma {:induction false} CollectFilesIsSound(g: Graph)
    requires Sound(g)
    ensures Sound(CollectFiles(g))
  {
    RestrictTransfers(g, KeepFile(g));
    UsedFilesStay(g, CollectFiles(g));
    RestrictIsChecked(g, KeepFile(g));
  }

  lemma {:induction false} UsedFilesStay(g: Graph, c: Graph)
    requires CheckWork(g) && Linked(g) && SameProject(g) && c == CollectFiles(g)
    ensures CheckWork(c) && Linked(c) && SameProject(c)
  {
    forall f | f in g.files && UsesFile(g, f) ensures f in c.files {}
    forall v | v in g.appVersions ensures CheckFiles(c, v.appFiles) {}
    forall u | u in g.workunits ensures CheckFiles(c, u.inputFiles) {}
    forall r | r in g.results ensures CheckFiles(c, r.outputFiles) {}
  }

  /** Everything that survives satisfies the integrity predicate again. */
  lemma {:induction false} CollectIsSound(g: Graph)
    requires Sound(g)
    ensures Sound(Collect(g))
  {
    CollectResultsIsSound(g);
    CollectWorkunitsIsSound(CollectResults(g));
    CollectVersionsIsSound(CollectWorkunits(CollectResults(g)));
    CollectFilesIsSound(CollectVersions(CollectWorkunits(CollectResults(g))));
  }

  /** What survives, judged by the survivors: a result exactly when it is not acknowledged or has a
      task, a workunit exactly when a surviving result uses it, a file exactly when a surviving
      result, workunit or version, a project or its stickiness refers to it. */
  lemma {:induction false} CollectIsExact(g: Graph)
    ensures forall r :: r in g.results ==> (r in Collect(g).results <==> r !in g.acked || HasTask(g.tasks, r))
    ensures forall u :: u in g.workunits ==> (u in Collect(g).workunits <==> UsesWorkunit(Collect(g).results, u))
    ensures forall f :: f in g.files ==> (f in Collect(g).files <==> UsesFile(Collect(g), f))
  {
  }

  /* ---------- superseded versions ---------- */

  /** A collection adds nothing. */
  lemma {:induction false} CollectWithin(g: Graph, c: Graph)
    requires c == Collect(g)
    ensures Within(c.results, g.results) && Within(c.workunits, g.workunits)
    ensures Within(c.appVersions, g.appVersions) && Within(c.files, g.files)
  {
    var g1 := CollectResults(g);
    var g2 := CollectWorkunits(g1);
    var g3 := CollectVersions(g2);
    FilterIsWithin(g.results, KeepResult(g));
    FilterIsWithin(g.workunits, KeepWorkunit(g1));
    FilterIsWithin(g.appVersions, KeepVersion(g2));
    FilterIsWithin(g.files, KeepFile(g3));
  }

  lemma {:induction false} Latest(vs: seq<AppVersion>, v: AppVersion) returns (w: AppVersion)
    requires v in vs
    ensures w in vs && (w == v || Supersedes(w, v)) && !Superseded(vs, w)
    decreases |vs|
  {
    var n := |vs| - 1;
    assert vs == vs[..n] + [vs[n]];
    if v in vs[..n] {
      w := Latest(vs[..n], v);
      if Supersedes(vs[n], w) {
        w := vs[n];
      }
    } else if Superseded(vs[..n], v) {
      var u :| u in vs[..n] && Supersedes(u, v);
      w := Latest(vs[..n], u);
    } else {
      w := v;
    }
  }

  /** Whether a version is superseded can be judged on any part of the table that kept the latest
      version of each group, so the order in which the sweep erases does not matter. */
  lemma {:induction false} SweepOrderDoesNotMatter(vs: seq<AppVersion>, some: seq<AppVersion>, v: AppVersion)
    requires forall w :: w in some ==> w in vs
    requires forall w :: w in vs && !Superseded(vs, w) ==> w in some
    ensures Superseded(some, v) <==> Superseded(vs, v)
  {
    if Superseded(vs, v) {
      var u :| u in vs && Supersedes(u, v);
      var w := Latest(vs, u);
      assert w in some && Supersedes(w, v);
    }
  }

  /** A version survives exactly when a surviving result uses it or it is the latest of its group,
      and then it is the latest among the survivors too. */
  lemma {:induction false} VersionsMaximal(g: Graph, v: AppVersion)
    requires v in g.appVersions
    ensures v in Collect(g).appVersions <==>
      UsesVersion(Collect(g).results, v) || !Superseded(g.appVersions, v)
    ensures Superseded(Collect(g).appVersions, v) <==> Superseded(g.appVersions, v)
  {
    SweepOrderDoesNotMatter(g.appVersions, Collect(g).appVersions, v);
  }

  /* ---------- collecting twice ---------- */

  lemma {:induction false} CollectFilesIdempotent(g: Graph)
    ensures CollectFiles(CollectFiles(g)) == CollectFiles(g)
  {
    var c := CollectFiles(g);
    forall f: FileInfo | KeepFile(g)(f) ensures KeepFile(c)(f) {}
    FilterAll(c.files, KeepFile(c));
    FilterAll(c.pxs, KeepPx(KeepFile(c)));
    FilterAll(c.fxs, KeepFx(KeepFile(c)));
    assert CollectFiles(c).pxOf == c.pxOf;
    assert CollectFiles(c).fxOf == c.fxOf;
  }

  /** A second pass finds nothing to delete. */
  lemma {:induction false} CollectIdempotent(g: Graph)
    ensures Collect(Collect(g)) == Collect(g)
  {
    var c := Collect(g);
    assert CollectResults(c) == c by {
      FilterAll(c.results, KeepResult(c));
      assert CollectResults(c).acked == c.acked;
    }
    assert CollectWorkunits(c) == c by { FilterAll(c.workunits, KeepWorkunit(c)); }
    assert CollectVersions(c) == c by {
      forall v | v in c.appVersions ensures KeepVersion(c)(v) { VersionsMaximal(g, v); }
      FilterAll(c.appVersions, KeepVersion(c));
    }
    CollectFilesIdempotent(CollectVersions(CollectWorkunits(CollectResults(g))));
  }

  /* ---------- leaving a project ---------- */

  ghost function OtherProject(p: Project): Project -> bool { (q: Project) => q != p }
  ghost function OtherApp(p: Project): App -> bool { (a: App) => a.project != p }
  ghost function OtherVersion(p: Project): AppVersion -> bool { (v: AppVersion) => v.project != p }
  ghost function OtherWorkunit(p: Project): Workunit -> bool { (u: Workunit) => u.project != p }
  ghost function OtherResult(p: Project): Result -> bool { (r: Result) => r.project != p }
  ghost function OtherTask(p: Project): ActiveTask -> bool { (t: ActiveTask) => t.result.project != p }
  ghost function OtherFile(p: Project): FileInfo -> bool { (f: FileInfo) => f.project != p }

  /** The graph without what belongs to p (the project itself stays in the list). */
  ghost function Strip(g: Graph, p: Project): Graph {
    RestrictFiles(StripRest(g, p), OtherFile(p))
  }

  ghost function StripRest(g: Graph, p: Project): Graph {
    g.(
      apps := Filter(g.apps, OtherApp(p)), appVersions := Filter(g.appVersions, OtherVersion(p)),
      workunits := Filter(g.workunits, OtherWorkunit(p)), results := Filter(g.results, OtherResult(p)),
      tasks := Filter(g.tasks, OtherTask(p)),
      acked := (set r | r in g.acked && r.project != p),
      named := (set n | n in g.named && n.0 != p),
      sticky := (set f | f in g.sticky && f.project != p))
  }

  /** Two filters may change places when the second's outcome, where it matters, does not depend on
      the first. */
  lemma {:induction false} FilterSwap<T>(s: seq<T>, p: T -> bool, q: T -> bool, q2: T -> bool)
    requires forall x :: x in s && p(x) ==> q(x) == q2(x)
    ensures Filter(Filter(s, p), q2) == Filter(Filter(s, q), p)
  {
    var both := (x: T) => p(x) && q(x);
    FilterTwice(s, p, q2, both);
    FilterTwice(s, q, p, both);
  }

  lemma {:induction false} StripCollectResults(g: Graph, p: Project)
    ensures CollectResults(Strip(g, p)) == Strip(CollectResults(g), p)
  {
    var h := Strip(g, p);
    forall r: Result | r.project != p && r in g.results ensures KeepResult(g)(r) == KeepResult(h)(r) {}
    FilterSwap(g.results, OtherResult(p), KeepResult(g), KeepResult(h));
    assert CollectResults(h).acked == Strip(CollectResults(g), p).acked;
  }

  lemma {:induction false} StripCollectWorkunits(g: Graph, p: Project)
    requires SameProject(g)
    ensures CollectWorkunits(Strip(g, p)) == Strip(CollectWorkunits(g), p)
  {
    FilterSwap(g.workunits, OtherWorkunit(p), KeepWorkunit(g), KeepWorkunit(Strip(g, p)));
  }

  lemma {:induction false} StripCollectVersions(g: Graph, p: Project)
    requires SameProject(g)
    ensures CollectVersions(Strip(g, p)) == Strip(CollectVersions(g), p)
  {
    FilterSwap(g.appVersions, OtherVersion(p), KeepVersion(g), KeepVersion(Strip(g, p)));
  }

  lemma {:induction false} RestrictSwap(g: Graph, p: FileInfo -> bool, q: FileInfo -> bool, q2: FileInfo -> bool)
    requires forall f: FileInfo :: p(f) ==> q(f) == q2(f)
    ensures RestrictFiles(RestrictFiles(g, p), q2) == RestrictFiles(RestrictFiles(g, q), p)
  {
    var a, b := RestrictFiles(RestrictFiles(g, p), q2), RestrictFiles(RestrictFiles(g, q), p);
    assert a.files == b.files by { FilterSwap(g.files, p, q, q2); }
    assert a.pxs == b.pxs by { FilterSwap(g.pxs, KeepPx(p), KeepPx(q), KeepPx(q2)); }
    assert a.fxs == b.fxs by { FilterSwap(g.fxs, KeepFx(p), KeepFx(q), KeepFx(q2)); }
    assert a.pxOf == b.pxOf;
    assert a.fxOf == b.fxOf;
  }

  lemma {:induction false} StripCollectFiles(g: Graph, p: Project)
    requires SameProject(g)
    ensures CollectFiles(Strip(g, p)) == Strip(CollectFiles(g), p)
  {
    var h := Strip(g, p);
    forall f: FileInfo | f.project != p ensures KeepFile(g)(f) == KeepFile(h)(f) { StripUsesFile(g, p, f); }
    RestrictSwap(StripRest(g, p), OtherFile(p), KeepFile(g), KeepFile(h));
  }

  lemma {:induction false} StripUsesFile(g: Graph, p: Project, f: FileInfo)
    requires SameProject(g) && f.project != p
    ensures UsesFile(Strip(g, p), f) == UsesFile(g, f)
  {
    var h := Strip(g, p);
    if u :| u in g.workunits && f in u.inputFiles { assert u in h.workunits; }
    if v :| v in g.appVersions && f in v.appFiles { assert v in h.appVersions; }
    if r :| r in g.results && f in r.outputFiles { assert r in h.results; }
    if n :| n in g.named && n.1 == f { assert n in h.named; }
  }

  /** Collecting and leaving a project out commute: no project keeps another one's objects alive. */
  lemma {:induction false} StripCollect(g: Graph, p: Project)
    requires SameProject(g)
    ensures Collect(Strip(g, p)) == Strip(Collect(g), p)
  {
    var g1 := CollectResults(g);
    var g2 := CollectWorkunits(g1);
    var g3 := CollectVersions(g2);
    StripCollectResults(g, p);
    StripCollectWorkunits(g1, p);
    StripCollectVersions(g2, p);
    StripCollectFiles(g3, p);
  }

  /** What reset_project() does before it collects: it aborts the project's tasks, stops its
      transfers, acknowledges its results and drops its claims on files
      (client/client_state.cpp:1999-2045). */
  ghost function Clear(g: Graph, p: Project): Graph {
    g.(tasks := Filter(g.tasks, OtherTask(p)),
       pxs := Filter(g.pxs, KeepPx(OtherFile(p))),
       fxs := Filter(g.fxs, KeepFx(OtherFile(p))),
       pxOf := (map f | f in g.pxOf && f.project != p :: g.pxOf[f]),
       fxOf := (map q | q in g.fxOf && q.fip.project != p :: g.fxOf[q])).(
       acked := g.acked + (set r | r in g.results && r.project == p),
       named := (set n | n in g.named && n.0 != p),
       sticky := (set f | f in g.sticky && f.project != p))
  }

  /** Removing the project's versions and applications (client/client_state.cpp:2052-2071). */
  ghost function DropApps(g: Graph, p: Project): Graph {
    g.(appVersions := Filter(g.appVersions, OtherVersion(p)), apps := Filter(g.apps, OtherApp(p)))
  }

  /** The graph after reset_project(): apps and versions stay on an anonymous platform unless the
      project is being detached. */
  ghost function Reset(g: Graph, p: Project, dropApps: bool): Graph {
    var h := Collect(Clear(g, p));
    if dropApps then Collect(DropApps(h, p)) else h
  }

  /** On an anonymous platform a reset ends the project's work but keeps its latest versions and their
      files, and nothing else of it; the other projects keep what an ordinary collection leaves. */
  lemma {:induction false} ResetKeepsVersions(g: Graph, p: Project, v: AppVersion, f: FileInfo)
    requires Sound(g) && v in g.appVersions && v.project == p && f in g.files && f.project == p
    ensures var h := Reset(g, p, false);
      Sound(h) && NoWork(h, p) && Strip(h, p) == Strip(Collect(g), p) &&
      (v in h.appVersions <==> !Superseded(g.appVersions, v)) &&
      (f in h.files <==> exists w :: w in h.appVersions && w.project == p && f in w.appFiles)
  {
    var c := Clear(g, p);
    ResetEndsWork(g, p, c);
    assert v in Collect(c).appVersions <==> !Superseded(g.appVersions, v) by { VersionsMaximal(c, v); }
    assert f in Collect(c).files <==> exists w :: w in Collect(c).appVersions && w.project == p && f in w.appFiles by {
      FilesOfVersions(c, p, f);
    }
  }

  lemma {:induction false} ResetEndsWork(g: Graph, p: Project, c: Graph)
    requires Sound(g) && c == Clear(g, p)
    ensures SameProject(c) && Sound(Collect(c)) && NoWork(Collect(c), p) && Strip(Collect(c), p) == Strip(Collect(g), p)
  {
    assert Sound(c) by { ClearIsSound(g, p); }
    assert Sound(Collect(c)) by { CollectIsSound(c); }
    assert NoWork(Collect(c), p) by { ClearedWork(g, p); }
    assert Strip(Collect(c), p) == Strip(Collect(g), p) by {
      StripCollect(c, p);
      StripClear(g, p);
      StripCollect(g, p);
    }
  }

  lemma {:induction false} FilesOfVersions(g: Graph, p: Project, f: FileInfo)
    requires SameProject(g) && NoWork(Collect(g), p) && f in g.files && f.project == p
    ensures f in Collect(g).files <==> exists w :: w in Collect(g).appVersions && w.project == p && f in w.appFiles
  {
    CollectIsExact(g);
  }

  /** Removing an entry that nothing refers to from the list of projects. */
  ghost function DropProject(g: Graph, p: Project): Graph {
    g.(projects := Filter(g.projects, OtherProject(p)))
  }

  /** The graph after detach_project(). */
  ghost function Detach(g: Graph, p: Project): Graph {
    var h := Reset(g, p, true);
    DropProject(h.(files := Filter(h.files, OtherFile(p))), p)
  }

  lemma {:induction false} ClearIsSound(g: Graph, p: Project)
    requires Sound(g)
    ensures Sound(Clear(g, p))
  {
    ClearIsChecked(g, p);
    ClearIsLinked(g, p);
    ClearLinksTransfers(g, p);
  }

  lemma {:induction false} ClearIsChecked(g: Graph, p: Project)
    requires CheckAll(g) && TransfersLinked(g)
    ensures CheckAll(Clear(g, p))
  {
  }

  lemma {:induction false} ClearIsLinked(g: Graph, p: Project)
    requires Linked(g) && SameProject(g)
    ensures Linked(Clear(g, p)) && SameProject(Clear(g, p))
  {
  }

  lemma {:induction false} ClearLinksTransfers(g: Graph, p: Project)
    requires TransfersLinked(g)
    ensures TransfersLinked(Clear(g, p))
  {
    FilterDistinct(g.fxs, KeepFx(OtherFile(p)));
    var c := Clear(g, p);
    forall x | x in c.fxs ensures exists q :: q in c.fxOf && c.fxOf[q] == x {
      var q :| q in g.fxOf && g.fxOf[q] == x;
      assert q in c.fxOf;
    }
  }

  lemma {:induction false} StripClear(g: Graph, p: Project)
    ensures Strip(Clear(g, p), p) == Strip(g, p)
  {
    var a, b := Strip(Clear(g, p), p), Strip(g, p);
    FilterAll(b.tasks, OtherTask(p));
    FilterAll(b.pxs, KeepPx(OtherFile(p)));
    FilterAll(b.fxs, KeepFx(OtherFile(p)));
    assert a.acked == b.acked && a.named == b.named && a.sticky == b.sticky;
    assert a.pxOf == b.pxOf && a.fxOf == b.fxOf;
  }

  lemma {:induction false} StripDropApps(g: Graph, p: Project)
    ensures Strip(DropApps(g, p), p) == Strip(g, p)
  {
    FilterAll(Filter(g.appVersions, OtherVersion(p)), OtherVersion(p));
    FilterAll(Filter(g.apps, OtherApp(p)), OtherApp(p));
  }

  /** The project has no task, result, workunit or transfer left, and at most its versions keep its
      files. */
  ghost predicate NoWork(g: Graph, p: Project) {
    NoJobs(g, p) && NoTransfers(g, p) && NoClaims(g, p)
  }

  ghost predicate NoJobs(g: Graph, p: Project) {
    (forall t :: t in g.tasks ==> t.result.project != p) &&
    (forall r :: r in g.results ==> r.project != p) &&
    (forall r :: r in g.acked ==> r.project != p) &&
    (forall u :: u in g.workunits ==> u.project != p)
  }

  ghost predicate NoTransfers(g: Graph, p: Project) {
    (forall q :: q in g.pxs ==> q.fip.project != p) &&
    (forall x :: x in g.fxs ==> x.fip.project != p) &&
    (forall f :: f in g.pxOf ==> f.project != p) &&
    (forall q :: q in g.fxOf ==> q.fip.project != p)
  }

  ghost predicate NoClaims(g: Graph, p: Project) {
    (forall n :: n in g.named ==> n.0 != p) && (forall f :: f in g.sticky ==> f.project != p)
  }

  lemma {:induction false} ClearedWork(g: Graph, p: Project)
    requires Sound(g)
    ensures NoWork(Collect(Clear(g, p)), p)
  {
    var c := Clear(g, p);
    assert NoTransfers(c, p) && NoClaims(c, p);
    ClearedResults(g, p, c);
    ClearedWorkunits(CollectResults(c), p);
    assert NoTransfers(Collect(c), p) && NoClaims(Collect(c), p);
  }

  lemma {:induction false} ClearedResults(g: Graph, p: Project, c: Graph)
    requires SameProject(g) && c == Clear(g, p)
    ensures SameProject(CollectResults(c)) && forall t :: t in CollectResults(c).tasks ==> t.result.project != p
    ensures forall r :: r in CollectResults(c).results ==> r.project != p
    ensures forall r :: r in CollectResults(c).acked ==> r.project != p
  {
    forall r: Result | r.project == p ensures !HasTask(c.tasks, r) {}
  }

  lemma {:induction false} ClearedWorkunits(g: Graph, p: Project)
    requires SameProject(g) && forall r :: r in g.results ==> r.project != p
    ensures forall u :: u in CollectWorkunits(g).workunits ==> u.project != p
  {
  }

  lemma {:induction false} DropAppsIsSound(g: Graph, p: Project)
    requires Sound(g) && NoWork(g, p)
    ensures Sound(DropApps(g, p)) && NoWork(DropApps(g, p), p)
  {
    var d := DropApps(g, p);
    assert NoWork(d, p);
    assert TransfersLinked(d);
    DropAppsIsLinked(g, p);
  }

  lemma {:induction false} DropAppsIsLinked(g: Graph, p: Project)
    requires CheckAll(g) && Linked(g) && SameProject(g) && NoWork(g, p)
    ensures CheckAll(DropApps(g, p)) && Linked(DropApps(g, p)) && SameProject(DropApps(g, p))
  {
  }

  lemma {:induction false} CollectNoWork(g: Graph, p: Project)
    requires NoWork(g, p)
    ensures NoWork(Collect(g), p)
  {
  }

  /** Nothing of the project is left but perhaps its entry in the list of projects. */
  ghost predicate NothingOf(g: Graph, p: Project) {
    NoWork(g, p) &&
    (forall a :: a in g.apps ==> a.project != p) &&
    (forall v :: v in g.appVersions ==> v.project != p) &&
    (forall f :: f in g.files ==> f.project != p)
  }

  lemma {:induction false} RestrictNothing(g: Graph, keep: FileInfo -> bool)
    requires forall f :: f in g.files || f in g.pxOf ==> keep(f)
    requires forall p :: p in g.pxs || p in g.fxOf ==> keep(p.fip)
    requires forall x :: x in g.fxs ==> keep(x.fip)
    ensures RestrictFiles(g, keep) == g
  {
    FilterAll(g.files, keep);
    FilterAll(g.pxs, KeepPx(keep));
    FilterAll(g.fxs, KeepFx(keep));
    var r := RestrictFiles(g, keep);
    assert r.pxOf == g.pxOf && r.fxOf == g.fxOf;
  }

  lemma {:induction false} StripNothing(g: Graph, p: Project)
    requires NothingOf(g, p)
    ensures Strip(g, p) == g
  {
    assert StripRest(g, p) == g by { StripRestNothing(g, p, StripRest(g, p)); }
    RestrictNothing(g, OtherFile(p));
  }

  lemma {:induction false} StripRestNothing(g: Graph, p: Project, s: Graph)
    requires NothingOf(g, p) && s == StripRest(g, p)
    ensures s == g
  {
    assert s.tasks == g.tasks by { FilterAll(g.tasks, OtherTask(p)); }
    assert s.results == g.results by { FilterAll(g.results, OtherResult(p)); }
    assert s.workunits == g.workunits by { FilterAll(g.workunits, OtherWorkunit(p)); }
    assert s.apps == g.apps by { FilterAll(g.apps, OtherApp(p)); }
    assert s.appVersions == g.appVersions by { FilterAll(g.appVersions, OtherVersion(p)); }
    assert s.acked == g.acked && s.named == g.named && s.sticky == g.sticky;
  }

  lemma {:induction false} NoFileLeft(g: Graph, p: Project)
    requires SameProject(g) && NoWork(g, p)
    requires forall v :: v in g.appVersions ==> v.project != p
    ensures forall f :: f in Collect(g).files ==> f.project != p
  {
    forall f | f in Collect(g).files ensures f.project != p { CollectIsExact(g); }
  }

  /** Without work, applications and versions, a collection leaves nothing of the project. */
  lemma {:induction false} NothingLeft(g: Graph, p: Project)
    requires Sound(g) && NoWork(g, p)
    ensures NothingOf(Collect(DropApps(g, p)), p)
  {
    var d := DropApps(g, p);
    DropAppsIsSound(g, p);
    CollectNoWork(d, p);
    NoFileLeft(d, p);
  }

  /** Resetting a project amounts to leaving out everything it has and collecting the rest: what the
      other projects keep is what an ordinary collection would have left them. */
  lemma {:induction false} ResetIsStrip(g: Graph, p: Project)
    requires Sound(g)
    ensures Sound(Reset(g, p, true)) && NothingOf(Reset(g, p, true), p)
    ensures Reset(g, p, true) == Collect(Strip(g, p)) == Strip(Collect(g), p)
  {
    var c := Clear(g, p);
    ClearIsSound(g, p);
    var h := Collect(c);
    CollectIsSound(c);
    ClearedWork(g, p);
    var d := DropApps(h, p);
    DropAppsIsSound(h, p);
    CollectIsSound(d);
    NothingLeft(h, p);
    calc {
      Collect(d);
      { StripNothing(Collect(d), p); }
      Strip(Collect(d), p);
      { StripCollect(d, p); }
      Collect(Strip(d, p));
      { StripDropApps(h, p); }
      Collect(Strip(h, p));
      { StripCollect(c, p); }
      Collect(Collect(Strip(c, p)));
      { CollectIdempotent(Strip(c, p)); }
      Collect(Strip(c, p));
      { StripClear(g, p); }
      Collect(Strip(g, p));
    }
    StripCollect(g, p);
  }

  /** Nothing in the graph refers to p. */
  ghost predicate Forgotten(g: Graph, p: Project) {
    NothingOf(g, p) && p !in g.projects &&
    (forall v :: v in g.appVersions ==> v.app.project != p) &&
    (forall t :: t in g.tasks ==> t.wup.project != p && t.appVersion.project != p)
  }

  lemma {:induction false} DropProjectIsSound(g: Graph, p: Project)
    requires Sound(g) && NothingOf(g, p)
    ensures Sound(DropProject(g, p)) && Forgotten(DropProject(g, p), p)
  {
    DropProjectIsChecked(g, p);
    DropProjectIsLinked(g, p);
    NobodyRefers(g, p);
  }

  lemma {:induction false} DropProjectIsChecked(g: Graph, p: Project)
    requires CheckAll(g) && NothingOf(g, p)
    ensures CheckAll(DropProject(g, p))
  {
  }

  lemma {:induction false} DropProjectIsLinked(g: Graph, p: Project)
    requires Linked(g) && TransfersLinked(g) && SameProject(g)
    ensures Linked(DropProject(g, p)) && TransfersLinked(DropProject(g, p)) && SameProject(DropProject(g, p))
  {
    FilterDistinct(g.projects, OtherProject(p));
  }

  lemma {:induction false} NobodyRefers(g: Graph, p: Project)
    requires Linked(g) && SameProject(g) && CheckWork(g) && NothingOf(g, p)
    ensures Forgotten(DropProject(g, p), p)
  {
    var d := DropProject(g, p);
    assert forall t :: t in g.tasks ==> t.wup in g.workunits && t.appVersion in g.appVersions;
    assert forall v :: v in g.appVersions ==> v.app in g.apps;
    assert NothingOf(d, p) && p !in d.projects;
  }

  /** Detaching forgets the project, and the rest is what an ordinary collection would have left. */
  lemma {:induction false} DetachIsSafe(g: Graph, p: Project)
    requires Sound(g)
    ensures Sound(Detach(g, p)) && Forgotten(Detach(g, p), p)
    ensures Detach(g, p) == DropProject(Strip(Collect(g), p), p)
  {
    var h := Reset(g, p, true);
    ResetIsStrip(g, p);
    assert forall f :: f in h.files ==> f.project != p;
    FilterAll(h.files, OtherFile(p));
    DropProjectIsSound(h, p);
  }

  /* ---------- detaching several projects ---------- */

  lemma {:induction false} RestrictSame(g: Graph, h: Graph, p: FileInfo -> bool, q: FileInfo -> bool)
    requires h == g.(projects := h.projects) && forall f: FileInfo :: p(f) == q(f)
    ensures RestrictFiles(h, q) == RestrictFiles(g, p).(projects := h.projects)
  {
    FilterSame(g.files, p, q);
    FilterSame(g.pxs, KeepPx(p), KeepPx(q));
    FilterSame(g.fxs, KeepFx(p), KeepFx(q));
    assert RestrictFiles(h, q).pxOf == RestrictFiles(g, p).pxOf;
    assert RestrictFiles(h, q).fxOf == RestrictFiles(g, p).fxOf;
  }

  lemma {:induction false} CollectIgnoresProjects(g: Graph, ps: seq<Project>)
    ensures Collect(g.(projects := ps)) == Collect(g).(projects := ps)
  {
    var h := g.(projects := ps);
    var g1, h1 := CollectResults(g), CollectResults(h);
    assert h1 == g1.(projects := ps) by {
      FilterSame(g.results, KeepResult(g), KeepResult(h));
      assert h1.acked == g1.acked;
    }
    var g2, h2 := CollectWorkunits(g1), CollectWorkunits(h1);
    assert h2 == g2.(projects := ps) by { FilterSame(g1.workunits, KeepWorkunit(g1), KeepWorkunit(h1)); }
    var g3, h3 := CollectVersions(g2), CollectVersions(h2);
    assert h3 == g3.(projects := ps) by { FilterSame(g2.appVersions, KeepVersion(g2), KeepVersion(h2)); }
    assert CollectFiles(h3) == CollectFiles(g3).(projects := ps) by {
      RestrictSame(g3, h3, KeepFile(g3), KeepFile(h3));
    }
  }

  /** The graph without a project and all that belongs to it. */
  ghost function Leave(g: Graph, p: Project): Graph {
    DropProject(Strip(g, p), p)
  }

  /** In a graph that has nothing to collect, detaching a project without results takes away nothing but
      what belongs to it, and leaves nothing to collect. */
  lemma {:induction false} DetachIsQuiet(g: Graph, p: Project)
    requires Sound(g) && Collect(g) == g && forall r :: r in g.results ==> r.project != p
    ensures Detach(g, p) == Leave(g, p)
    ensures Leave(g, p).results == g.results && Collect(Leave(g, p)) == Leave(g, p)
  {
    DetachIsSafe(g, p);
    FilterAll(g.results, OtherResult(p));
    StripCollect(g, p);
    CollectIgnoresProjects(Strip(g, p), Detach(g, p).projects);
  }

  lemma {:induction false} LeaveIsSound(g: Graph, p: Project, d: Graph)
    requires Sound(g) && d == Leave(g, p)
    ensures Sound(d) && Forgotten(d, p)
  {
    StripIsSound(g, p);
    DropProjectIsSound(Strip(g, p), p);
  }

  lemma {:induction false} StripIsSound(g: Graph, p: Project)
    requires Sound(g)
    ensures Sound(Strip(g, p)) && NothingOf(Strip(g, p), p)
  {
    RestrictTransfers(g, OtherFile(p));
    RestrictIsChecked(g, OtherFile(p));
    StripIsChecked(g, p);
    StripIsLinked(g, p);
    assert NothingOf(Strip(g, p), p);
  }

  lemma {:induction false} StripIsChecked(g: Graph, p: Project)
    requires CheckWork(g) && Linked(g) && SameProject(g)
    ensures CheckWork(Strip(g, p))
  {
    StripChecksTables(g, p, Strip(g, p));
    StripChecksResults(g, p, Strip(g, p));
  }

  lemma {:induction false} StripChecksTables(g: Graph, p: Project, s: Graph)
    requires CheckWork(g) && SameProject(g) && s == Strip(g, p)
    ensures forall a :: a in s.apps ==> a.project in s.projects
    ensures forall f :: f in s.files ==> f.project in s.projects
    ensures forall v :: v in s.appVersions ==> v.app in s.apps && v.project in s.projects && CheckFiles(s, v.appFiles)
    ensures forall u :: u in s.workunits ==> CheckFiles(s, u.inputFiles) && u.project in s.projects && u.app in s.apps
  {
  }

  lemma {:induction false} StripChecksResults(g: Graph, p: Project, s: Graph)
    requires CheckWork(g) && Linked(g) && SameProject(g) && s == Strip(g, p)
    ensures forall r :: r in s.results ==>
      CheckFiles(s, r.outputFiles) && r.app in s.apps && r.wup in s.workunits && r.project in s.projects
    ensures forall t :: t in s.tasks ==> t.result in s.results && t.wup in s.workunits && t.appVersion in s.appVersions
  {
  }

  lemma {:induction false} RestrictIsChecked(g: Graph, keep: FileInfo -> bool)
    requires CheckTransfers(g) && TransfersLinked(g)
    ensures CheckTransfers(RestrictFiles(g, keep))
  {
  }

  lemma {:induction false} StripIsLinked(g: Graph, p: Project)
    requires Linked(g) && SameProject(g)
    ensures Linked(Strip(g, p)) && SameProject(Strip(g, p))
  {
  }

  lemma {:induction false} LeaveCollects(g: Graph, p: Project)
    requires SameProject(g) && Collect(g) == g
    ensures Collect(Leave(g, p)) == Leave(g, p)
  {
    StripCollect(g, p);
    CollectIgnoresProjects(Strip(g, p), Leave(g, p).projects);
  }

  /** A project that was forgotten stays forgotten. */
  lemma {:induction false} ForgottenForever(g: Graph, q: Project, p: Project)
    requires Forgotten(g, p)
    ensures Forgotten(Leave(g, q), p)
  {
  }

  ghost function LeaveAll(g: Graph, gone: seq<Project>): Graph {
    if gone == [] then g else Leave(LeaveAll(g, gone[..|gone| - 1]), gone[|gone| - 1])
  }

  ghost predicate NoResults(g: Graph, gone: seq<Project>) {
    forall p :: p in gone ==> forall r :: r in g.results ==> r.project != p
  }

  /** CLIENT_STATE::nresults_for_project. */
  function ResultsForProject(rs: seq<Result>, p: Project): nat {
    if rs == [] then 0
    else ResultsForProject(rs[..|rs| - 1], p) + if rs[|rs| - 1].project == p then 1 else 0
  }

  lemma {:induction false} NoResultsForProject(rs: seq<Result>, p: Project)
    ensures ResultsForProject(rs, p) == 0 <==> forall r :: r in rs ==> r.project != p
  {
    if rs != [] {
      NoResultsForProject(rs[..|rs| - 1], p);
      assert rs == rs[..|rs| - 1] + [rs[|rs| - 1]];
    }
  }

  /** Marked to be detached when done, done, and not left to an account manager. */
  predicate Finished(rs: seq<Result>, p: Project) {
    p.detachWhenDone && ResultsForProject(rs, p) == 0 && !p.attachedViaAcctMgr
  }

  /** The detach loop may go this way: it starts with a sound graph that has nothing to collect, and
      takes finished projects. */
  ghost predicate Detachable(g: Graph, gone: seq<Project>) {
    if gone == [] then Sound(g) && Collect(g) == g
    else Detachable(g, gone[..|gone| - 1]) && Finished(g.results, gone[|gone| - 1])
  }

  lemma {:induction false} DetachableFinished(g: Graph, gone: seq<Project>, p: Project)
    requires Detachable(g, gone) && p in gone
    ensures Finished(g.results, p)
    decreases |gone|
  {
    if p != gone[|gone| - 1] {
      DetachableFinished(g, gone[..|gone| - 1], p);
    }
  }

  lemma {:induction false} DetachableStart(g: Graph, gone: seq<Project>)
    requires Detachable(g, gone)
    ensures Detachable(g, [])
    decreases |gone|
  {
    if gone != [] {
      DetachableStart(g, gone[..|gone| - 1]);
    }
  }

  lemma {:induction false} LeaveAllKeepsResults(g: Graph, gone: seq<Project>)
    requires NoResults(g, gone)
    ensures LeaveAll(g, gone).results == g.results
    decreases |gone|
  {
    if gone != [] {
      var n := |gone| - 1;
      forall p | p in gone[..n] ensures p in gone {}
      assert gone[n] in gone;
      LeaveAllKeepsResults(g, gone[..n]);
      FilterAll(g.results, OtherResult(gone[n]));
    }
  }

  /** Leaving any projects keeps the graph sound. */
  lemma {:induction false} LeaveAllIsSound(g: Graph, gone: seq<Project>, d: Graph)
    requires Sound(g) && d == LeaveAll(g, gone)
    ensures Sound(d)
    decreases |gone|
  {
    if gone != [] {
      var h := LeaveAll(g, gone[..|gone| - 1]);
      LeaveAllIsSound(g, gone[..|gone| - 1], h);
      LeaveIsSound(h, gone[|gone| - 1], d);
    }
  }

  lemma {:induction false} LeaveAllCollects(g: Graph, gone: seq<Project>)
    requires Sound(g) && Collect(g) == g
    ensures Collect(LeaveAll(g, gone)) == LeaveAll(g, gone)
    decreases |gone|
  {
    if gone != [] {
      var h := LeaveAll(g, gone[..|gone| - 1]);
      LeaveAllCollects(g, gone[..|gone| - 1]);
      assert SameProject(h) by { LeaveAllIsSound(g, gone[..|gone| - 1], h); }
      LeaveCollects(h, gone[|gone| - 1]);
    }
  }

  /** The projects that were left are forgotten. */
  lemma {:induction false} LeaveAllForgets(g: Graph, gone: seq<Project>, p: Project)
    requires Sound(g) && p in gone
    ensures Forgotten(LeaveAll(g, gone), p)
    decreases |gone|
  {
    var n := |gone| - 1;
    if p == gone[n] {
      LastIsForgotten(g, gone);
    } else {
      LeaveAllForgets(g, gone[..n], p);
      ForgottenForever(LeaveAll(g, gone[..n]), gone[n], p);
    }
  }

  lemma {:induction false} LastIsForgotten(g: Graph, gone: seq<Project>)
    requires Sound(g) && gone != []
    ensures Forgotten(LeaveAll(g, gone), gone[|gone| - 1])
  {
    var n := |gone| - 1;
    var h := LeaveAll(g, gone[..n]);
    LeaveAllIsSound(g, gone[..n], h);
    LeaveIsSound(h, gone[n], Leave(h, gone[n]));
  }

  lemma {:induction false} LeaveAllShrinks(g: Graph, gone: seq<Project>)
    ensures Within(LeaveAll(g, gone).workunits, g.workunits) && Within(LeaveAll(g, gone).appVersions, g.appVersions)
    ensures Within(LeaveAll(g, gone).files, g.files)
    decreases |gone|
  {
    if gone != [] {
      var h, p := LeaveAll(g, gone[..|gone| - 1]), gone[|gone| - 1];
      LeaveAllShrinks(g, gone[..|gone| - 1]);
      FilterWithin(h.workunits, OtherWorkunit(p), g.workunits);
      FilterWithin(h.appVersions, OtherVersion(p), g.appVersions);
      FilterWithin(h.files, OtherFile(p), g.files);
    }
  }

  lemma {:induction false} NotAmongSnoc(ps: seq<Project>, gone: seq<Project>, p: Project)
    ensures Filter(Filter(ps, NotAmong(gone)), OtherProject(p)) == Filter(ps, NotAmong(gone + [p]))
  {
    FilterTwice(ps, NotAmong(gone), OtherProject(p), NotAmong(gone + [p]));
  }

  ghost function NotAmong(gone: seq<Project>): Project -> bool {
    (p: Project) => p !in gone
  }

  lemma {:induction false} NotAmongNext(ps: seq<Project>, gone: seq<Project>, before: seq<Project>, after: seq<Project>)
    requires gone != [] && before == Filter(ps, NotAmong(gone[..|gone| - 1]))
    requires after == Filter(before, OtherProject(gone[|gone| - 1]))
    ensures after == Filter(ps, NotAmong(gone))
  {
    var n := |gone| - 1;
    NotAmongSnoc(ps, gone[..n], gone[n]);
    assert gone[..n] + [gone[n]] == gone;
  }

  lemma {:induction false} LeaveLists(g: Graph, p: Project, d: Graph)
    requires d == Leave(g, p)
    ensures d.projects == Filter(g.projects, OtherProject(p))
  {
  }

  /** The other projects are still listed. */
  lemma {:induction false} LeaveAllLists(g: Graph, gone: seq<Project>, d: Graph)
    requires d == LeaveAll(g, gone)
    ensures d.projects == Filter(g.projects, NotAmong(gone))
    decreases |gone|
  {
    if gone == [] {
      FilterAll(g.projects, NotAmong(gone));
    } else {
      var n := |gone| - 1;
      var h := LeaveAll(g, gone[..n]);
      assert d == Leave(h, gone[n]);
      LeaveAllLists(g, gone[..n], h);
      LeaveLists(h, gone[n], d);
      NotAmongNext(g.projects, gone, h.projects, d.projects);
    }
  }

  /** What the detach loop finds at every step. */
  lemma {:induction false} DetachableState(g0: Graph, gone: seq<Project>, g: Graph)
    requires Detachable(g0, gone) && g == LeaveAll(g0, gone)
    ensures Sound(g) && Collect(g) == g && g.results == g0.results
    ensures Within(g.workunits, g0.workunits) && Within(g.appVersions, g0.appVersions) && Within(g.files, g0.files)
  {
    DetachableStart(g0, gone);
    LeaveAllIsSound(g0, gone, g);
    LeaveAllCollects(g0, gone);
    LeaveAllShrinks(g0, gone);
    forall p | p in gone ensures forall r :: r in g0.results ==> r.project != p {
      DetachableFinished(g0, gone, p);
      NoResultsForProject(g0.results, p);
    }
    LeaveAllKeepsResults(g0, gone);
  }

  /** One more project is detached: the loop goes on as it may. */
  lemma {:induction false} DetachStep(g0: Graph, gone0: seq<Project>, g: Graph, p: Project, gone: seq<Project>,
                                      d: Graph)
    requires Detachable(g0, gone0) && g == LeaveAll(g0, gone0) && gone == gone0 + [p] && d == Detach(g, p)
    requires p in g.projects && Within(g.projects, g0.projects) && Finished(g.results, p)
    ensures Sound(g) && Within(g.workunits, g0.workunits) && Within(g.appVersions, g0.appVersions)
    ensures Within(g.files, g0.files) && Detachable(g0, gone) && d == LeaveAll(g0, gone)
    ensures d.results == g0.results && Within(d.projects, g0.projects) && |d.projects| < |g.projects|
  {
    assert gone[..|gone0|] == gone0;
    DetachableState(g0, gone0, g);
    assert d == Leave(g, p) && d.results == g.results by {
      NoResultsForProject(g.results, p);
      DetachIsQuiet(g, p);
    }
    LeaveShrinks(g, p, d, g0.projects);
  }

  lemma {:induction false} LeaveShrinks(g: Graph, p: Project, d: Graph, ps: seq<Project>)
    requires p in g.projects && Within(g.projects, ps) && d == Leave(g, p)
    ensures Within(d.projects, ps) && |d.projects| < |g.projects|
  {
    LeaveLists(g, p, d);
    FilterWithin(g.projects, OtherProject(p), ps);
    FilterShorter(g.projects, OtherProject(p), p);
  }

  /** When no finished project is listed any more, exactly the finished ones were left. */
  lemma {:induction false} LoopIsExact(g: Graph, gone: seq<Project>, p: Project)
    requires Detachable(g, gone) && p in g.projects
    requires Finished(g.results, p) ==> p !in LeaveAll(g, gone).projects
    ensures p in gone <==> Finished(g.results, p)
    ensures p in LeaveAll(g, gone).projects <==> p !in gone
  {
    LeaveAllLists(g, gone, LeaveAll(g, gone));
    if p in gone { DetachableFinished(g, gone, p); }
  }
}
