/** The collector, reset_project() and detach_project() as they run, on the client's own vectors
    (client/client_state.cpp). Each is proved equal to its effect on the graph. */
module ClientState {
  import opened ClientGraph
  import opened ClientTables
  import opened Sequences

  /* ---------- reference counts ---------- */

  method ZeroRefCounts(us: seq<Workunit>, files: seq<FileInfo>, vs: seq<AppVersion>)
    modifies us`refCnt, files`refCnt, vs`refCnt
    ensures forall u {:trigger u.refCnt} :: u in us ==> u.refCnt == 0
    ensures forall f {:trigger f.refCnt} :: f in files ==> f.refCnt == 0
    ensures forall v {:trigger v.refCnt} :: v in vs ==> v.refCnt == 0
  {
    for i := 0 to |us|
      invariant forall u :: u in us[..i] ==> u.refCnt == 0
    {
      us[i].refCnt := 0;
    }
    for i := 0 to |files|
      modifies files`refCnt
      invariant forall f :: f in files[..i] ==> f.refCnt == 0
    {
      files[i].refCnt := 0;
    }
    for i := 0 to |vs|
      modifies vs`refCnt
      invariant forall v :: v in vs[..i] ==> v.refCnt == 0
    {
      vs[i].refCnt := 0;
    }
  }

  method CountFiles(refs: seq<FileInfo>)
    modifies refs`refCnt
    ensures forall f {:trigger f.refCnt} :: f in refs ==> f.refCnt > 0
  {
    for j := 0 to |refs|
      invariant forall f :: f in refs[..j] ==> f.refCnt > 0
    {
      refs[j].refCnt := refs[j].refCnt + 1;
    }
  }

  ghost predicate NamedBy(ps: seq<Project>, f: FileInfo)
    reads ps`userFiles, ps`projectFiles
  {
    exists p :: p in ps && (f in p.userFiles || f in p.projectFiles)
  }

  ghost predicate NamesWithin(files: seq<FileInfo>, p: Project)
    reads p`userFiles, p`projectFiles
  {
    (forall f :: f in p.userFiles ==> f in files) && forall f :: f in p.projectFiles ==> f in files
  }

  method CountProjectFiles(ps: seq<Project>, ghost files: seq<FileInfo>)
    requires forall f {:trigger f.refCnt} :: f in files ==> f.refCnt == 0
    requires forall p {:trigger NamesWithin(files, p)} :: p in ps ==> NamesWithin(files, p)
    modifies files`refCnt
    ensures forall f {:trigger f.refCnt} :: f in files ==> (f.refCnt > 0 <==> NamedBy(ps, f))
  {
    for i := 0 to |ps|
      invariant forall f {:trigger f.refCnt} :: f in files ==> (f.refCnt > 0 <==> NamedBy(ps[..i], f))
    {
      var project := ps[i];
      assert ps[..i + 1] == ps[..i] + [project];
      assert project in ps && NamesWithin(files, project);
      assert forall j :: 0 <= j < |project.userFiles| ==> project.userFiles[j] in files;
      assert forall j :: 0 <= j < |project.projectFiles| ==> project.projectFiles[j] in files;
      CountFiles(project.userFiles);
      CountFiles(project.projectFiles);
    }
    assert ps[..|ps|] == ps;
  }

  /* ---------- results ---------- */

  method LookupResult(tasks: seq<ActiveTask>, result: Result) returns (atp: ActiveTask?)
    ensures atp != null <==> HasTask(tasks, result)
    ensures atp != null ==> atp in tasks && atp.result == result
  {
    for i := 0 to |tasks|
      invariant forall t :: t in tasks[..i] ==> t.result != result
    {
      if tasks[i].result == result {
        return tasks[i];
      }
    }
    assert tasks[..|tasks|] == tasks;
    return null;
  }

  ghost predicate OutputOf(rs: seq<Result>, f: FileInfo) {
    exists r :: r in rs && f in r.outputFiles
  }

  ghost predicate RefersWithin(us: seq<Workunit>, vs: seq<AppVersion>, files: seq<FileInfo>, r: Result) {
    r.avp in vs && r.wup in us && forall f :: f in r.outputFiles ==> f in files
  }

  /** The counts after the results rs were scanned; base are the files counted before. */
  ghost predicate ResultsCounted(us: seq<Workunit>, vs: seq<AppVersion>, files: seq<FileInfo>, rs: seq<Result>,
                                 base: set<FileInfo>)
    reads us`refCnt, vs`refCnt, files`refCnt
  {
    (forall u {:trigger u.refCnt} :: u in us ==> (u.refCnt > 0 <==> UsesWorkunit(rs, u))) &&
    (forall v {:trigger v.refCnt} :: v in vs ==> (v.refCnt > 0 <==> UsesVersion(rs, v))) &&
    (forall f {:trigger f.refCnt} :: f in files ==> (f.refCnt > 0 <==> f in base || OutputOf(rs, f)))
  }

  /** One more reference to all that a result refers to. */
  method CountResult(rp: Result, ghost us: seq<Workunit>, ghost vs: seq<AppVersion>, ghost files: seq<FileInfo>,
                     ghost rs: seq<Result>, ghost base: set<FileInfo>)
    requires ResultsCounted(us, vs, files, rs, base) && RefersWithin(us, vs, files, rp)
    modifies files`refCnt, us`refCnt, vs`refCnt
    ensures ResultsCounted(us, vs, files, rs + [rp], base)
  {
    assert forall j :: 0 <= j < |rp.outputFiles| ==> rp.outputFiles[j] in files;
    CountFiles(rp.outputFiles);
    rp.avp.refCnt := rp.avp.refCnt + 1;
    rp.wup.refCnt := rp.wup.refCnt + 1;
  }

  /** Acknowledged results without a task go; the others count what they refer to. */
  method SweepResults(all: seq<Result>, tasks: seq<ActiveTask>, ghost us: seq<Workunit>, ghost vs: seq<AppVersion>,
                      ghost files: seq<FileInfo>, ghost keep: set<Result>, ghost base: set<FileInfo>)
    returns (rs: seq<Result>, action: bool)
    requires forall r {:trigger RefersWithin(us, vs, files, r)} :: r in all ==> RefersWithin(us, vs, files, r)
    requires forall r {:trigger r.gotServerAck} :: r in all ==> (r in keep <==> !r.gotServerAck || HasTask(tasks, r))
    requires ResultsCounted(us, vs, files, [], base)
    modifies files`refCnt, us`refCnt, vs`refCnt
    ensures rs == Only(all, keep) && (action <==> |rs| != |all|)
    ensures ResultsCounted(us, vs, files, rs, base)
  {
    var i := 0;
    rs, action := all, false;
    while i < |rs|
      invariant Swept(rs, i, all, keep) && (action <==> |rs| != |all|)
      invariant ResultsCounted(us, vs, files, rs[..i], base)
    {
      var rp := rs[i];
      SweptNext(rs, i, all, keep);
      var finished := false;
      if rp.gotServerAck {
        var atp := LookupResult(tasks, rp);
        finished := atp == null;
      }
      if finished {
        rs := Erase(rs, i);
        action := true;
      } else {
        assert RefersWithin(us, vs, files, rp);
        CountResult(rp, us, vs, files, rs[..i], base);
        i := i + 1;
      }
    }
    SweptDone(rs, i, all, keep);
  }

  /* ---------- workunits ---------- */

  ghost predicate InputOf(us: seq<Workunit>, f: FileInfo) {
    exists u :: u in us && f in u.inputFiles
  }

  ghost predicate InputsWithin(files: seq<FileInfo>, u: Workunit) {
    forall f :: f in u.inputFiles ==> f in files
  }

  ghost predicate WorkunitsCounted(files: seq<FileInfo>, us: seq<Workunit>, base: set<FileInfo>)
    reads files`refCnt
  {
    forall f {:trigger f.refCnt} :: f in files ==> (f.refCnt > 0 <==> f in base || InputOf(us, f))
  }

  method CountInputs(u: Workunit, ghost files: seq<FileInfo>, ghost us: seq<Workunit>, ghost base: set<FileInfo>)
    requires WorkunitsCounted(files, us, base) && InputsWithin(files, u)
    modifies files`refCnt
    ensures WorkunitsCounted(files, us + [u], base)
  {
    assert forall j :: 0 <= j < |u.inputFiles| ==> u.inputFiles[j] in files;
    CountFiles(u.inputFiles);
  }

  /** Workunits without references go; the others count their input files. */
  method SweepWorkunits(all: seq<Workunit>, ghost files: seq<FileInfo>, ghost keep: set<Workunit>,
                        ghost base: set<FileInfo>)
    returns (us: seq<Workunit>, action: bool)
    requires forall u {:trigger InputsWithin(files, u)} :: u in all ==> InputsWithin(files, u)
    requires forall u {:trigger u.refCnt} :: u in all ==> (u in keep <==> u.refCnt > 0)
    requires WorkunitsCounted(files, [], base)
    modifies files`refCnt
    ensures us == Only(all, keep) && (action <==> |us| != |all|)
    ensures WorkunitsCounted(files, us, base)
  {
    var i := 0;
    us, action := all, false;
    while i < |us|
      invariant Swept(us, i, all, keep) && (action <==> |us| != |all|)
      invariant WorkunitsCounted(files, us[..i], base)
    {
      var wup := us[i];
      SweptNext(us, i, all, keep);
      if wup.refCnt == 0 {
        us := Erase(us, i);
        action := true;
      } else {
        assert InputsWithin(files, wup);
        CountInputs(wup, files, us[..i], base);
        i := i + 1;
      }
    }
    SweptDone(us, i, all, keep);
  }

  /* ---------- application versions ---------- */

  method FindSuccessor(vs: seq<AppVersion>, avp: AppVersion) returns (found: bool)
    ensures found <==> Superseded(vs, avp)
    ensures found <==> exists w :: w in vs && w.versionNum > avp.versionNum &&
                                   (w.app, w.platform, w.planClass) == (avp.app, avp.platform, avp.planClass)
  {
    LatestIff(vs, avp);
    for j := 0 to |vs|
      invariant !Superseded(vs[..j], avp)
    {
      if Supersedes(vs[j], avp) {
        return true;
      }
      assert vs[..j + 1] == vs[..j] + [vs[j]];
    }
    assert vs[..|vs|] == vs;
    return false;
  }

  /** The versions left at any point of the sweep still show which ones were superseded. */
  lemma {:induction false} SweepJudges(vs: seq<AppVersion>, i: nat, all: seq<AppVersion>, keep: set<AppVersion>,
                                       v: AppVersion)
    requires Swept(vs, i, all, keep)
    requires forall w :: w in all && !Superseded(all, w) ==> w in keep
    ensures Superseded(vs, v) <==> Superseded(all, v)
  {
    var k := |all| - (|vs| - i);
    assert vs == vs[..i] + vs[i..] && all == all[..k] + all[k..];
    forall w | w in all && !Superseded(all, w) ensures w in vs {
      if w in all[..k] {
        assert w in Only(all[..k], keep);
      }
    }
    forall w | w in vs ensures w in all {}
    SweepOrderDoesNotMatter(all, vs, v);
  }

  /** A later version of the same application, platform and plan class is in the table. */
  ghost predicate LaterIn(vs: seq<AppVersion>, v: AppVersion) {
    exists w :: w in vs && w.versionNum > v.versionNum &&
                (w.app, w.platform, w.planClass) == (v.app, v.platform, v.planClass)
  }

  /** Versions without references go if there is one. */
  method SweepAppVersions(all: seq<AppVersion>, ghost keep: set<AppVersion>) returns (vs: seq<AppVersion>, action: bool)
    requires forall v {:trigger v in keep} :: v in all ==> (v in keep <==> v.refCnt > 0 || !Superseded(all, v))
    ensures vs == Only(all, keep) && (action <==> |vs| != |all|)
    ensures forall v :: v in all ==> (v in vs <==> v.refCnt > 0 || !LaterIn(all, v))
  {
    forall v ensures Superseded(all, v) <==> LaterIn(all, v) { LatestIff(all, v); }
    var i := 0;
    vs, action := all, false;
    while i < |vs|
      invariant Swept(vs, i, all, keep) && (action <==> |vs| != |all|)
    {
      var avp := vs[i];
      SweptNext(vs, i, all, keep);
      var found := false;
      if avp.refCnt == 0 {
        found := FindSuccessor(vs, avp);
        SweepJudges(vs, i, all, keep, avp);
      }
      assert avp in keep <==> !found;
      if found {
        vs := Erase(vs, i);
        action := true;
      } else {
        i := i + 1;
      }
    }
    SweptDone(vs, i, all, keep);
  }

  ghost predicate AppFileOf(vs: seq<AppVersion>, f: FileInfo) {
    exists v :: v in vs && f in v.appFiles
  }

  ghost predicate AppFilesWithin(files: seq<FileInfo>, v: AppVersion) {
    forall f :: f in v.appFiles ==> f in files
  }

  method CountAppFiles(vs: seq<AppVersion>, ghost files: seq<FileInfo>, ghost base: set<FileInfo>)
    requires forall v {:trigger AppFilesWithin(files, v)} :: v in vs ==> AppFilesWithin(files, v)
    requires forall f {:trigger f.refCnt} :: f in files ==> (f.refCnt > 0 <==> f in base)
    modifies files`refCnt
    ensures forall f {:trigger f.refCnt} :: f in files ==> (f.refCnt > 0 <==> f in base || AppFileOf(vs, f))
  {
    for i := 0 to |vs|
      invariant forall f {:trigger f.refCnt} :: f in files ==> (f.refCnt > 0 <==> f in base || AppFileOf(vs[..i], f))
    {
      var avp := vs[i];
      assert vs[..i + 1] == vs[..i] + [avp];
      assert avp in vs && AppFilesWithin(files, avp);
      assert forall j :: 0 <= j < |avp.appFiles| ==> avp.appFiles[j] in files;
      CountFiles(avp.appFiles);
    }
    assert vs[..|vs|] == vs;
  }

  /* ---------- files ---------- */

  /** Stickiness as the collector judges it at the time now. */
  ghost predicate Sticky(now: real, f: FileInfo)
    reads f`sticky, f`stickyExpireTime, f`status
  {
    f.sticky && !(f.stickyExpireTime != 0.0 && now > f.stickyExpireTime) && f.status >= 0
  }

  /** Ends expired stickiness, and counts the sticky files whose status is not an error. */
  method CountStickyFiles(now: real, files: seq<FileInfo>, ghost base: set<FileInfo>, ghost sticky: set<FileInfo>)
    requires forall f {:trigger f.refCnt} :: f in files ==> (f.refCnt > 0 <==> f in base)
    requires forall f :: f in files ==> (f in sticky <==> Sticky(now, f))
    modifies files`refCnt, files`sticky, files`stickyExpireTime
    ensures forall f :: f in files ==> (f in sticky <==> Sticky(now, f))
    ensures forall f {:trigger f.refCnt} :: f in files ==> (f.refCnt > 0 <==> f in base || f in sticky)
  {
    for i := 0 to |files|
      invariant forall f :: f in files ==> (f in sticky <==> Sticky(now, f))
      invariant forall f {:trigger f.refCnt} :: f in files ==>
        (f.refCnt > 0 <==> f in base || (f in files[..i] && f in sticky))
    {
      var fip := files[i];
      assert files[..i + 1] == files[..i] + [fip];
      if fip.stickyExpireTime != 0.0 && now > fip.stickyExpireTime {
        fip.sticky := false;
        fip.stickyExpireTime := 0.0;
      }
      if !fip.sticky { continue; }
      if fip.status < 0 { continue; }
      fip.refCnt := fip.refCnt + 1;
    }
  }

  /* ---------- transfers ---------- */

  /** FILE_XFER_SET::remove: the first occurrence leaves the vector. */
  method RemoveFileXfer(all: seq<FileXfer>, fxp: FileXfer) returns (fxs: seq<FileXfer>)
    requires fxp in all && Distinct(all)
    ensures fxs == Filter(all, Except(fxp))
  {
    fxs := all;
    for i := 0 to |all|
      invariant fxs == all && fxp !in all[..i]
    {
      if fxs[i] == fxp {
        FilterOut(all, i, Except(fxp));
        fxs := Erase(fxs, i);
        return;
      }
    }
  }

  ghost function Except<T>(x: T): T -> bool {
    (y: T) => y != x
  }

  /** The transfers in progress that none of the persistent transfers in gone owned. */
  ghost function Left(g: Graph, gone: set<PersFileXfer>): FileXfer -> bool {
    (x: FileXfer) => forall p :: p in gone && p in g.fxOf ==> g.fxOf[p] != x
  }

  ghost function FilesOf(pxs: set<PersFileXfer>): set<FileInfo> {
    set p | p in pxs :: p.fip
  }

  /** Exactly the persistent transfers in gone were dropped, with all that belongs to them. */
  ghost predicate Dropped(g: Graph, gone: set<PersFileXfer>, fxs: seq<FileXfer>,
                          pxOf: map<FileInfo, PersFileXfer>, fxOf: map<PersFileXfer, FileXfer>) {
    fxs == Filter(g.fxs, Left(g, gone)) && pxOf == g.pxOf - FilesOf(gone) && fxOf == g.fxOf - gone
  }

  ghost predicate PxLinked(g: Graph, p: PersFileXfer) {
    p.fip in g.files && p.fip in g.pxOf && g.pxOf[p.fip] == p &&
    (p in g.fxOf ==> g.fxOf[p] in g.fxs && g.fxOf[p].fip == p.fip)
  }

  ghost predicate FxLinked(g: Graph, x: FileXfer) {
    exists p :: p in g.pxs && p in g.fxOf && g.fxOf[p] == x
  }

  ghost predicate FileLinked(g: Graph, f: FileInfo) {
    f in g.pxOf ==> g.pxOf[f] in g.pxs && g.pxOf[f].fip == f && f in g.files
  }

  /** What the removal of transfers needs of Sound(), object by object. */
  ghost predicate TransfersReady(g: Graph) {
    Distinct(g.fxs) &&
    (forall p {:trigger PxLinked(g, p)} :: p in g.pxs ==> PxLinked(g, p)) &&
    (forall p {:trigger PxLinked(g, p)} :: p in g.fxOf ==> p in g.pxs) &&
    (forall x {:trigger FxLinked(g, x)} :: x in g.fxs ==> FxLinked(g, x)) &&
    (forall f {:trigger FileLinked(g, f)} :: f in g.pxOf ==> FileLinked(g, f))
  }

  lemma {:induction false} SoundIsTransfersReady(g: Graph)
    requires CheckAll(g) && TransfersLinked(g)
    ensures TransfersReady(g)
  {
    forall x | x in g.fxs ensures FxLinked(g, x) {}
  }

  /** The transfer in progress of pfx is still there after others were dropped, and only pfx owns
      it. */
  lemma {:induction false} StillOwned(g: Graph, gone: set<PersFileXfer>, pfx: PersFileXfer)
    requires TransfersReady(g) && gone <= (set p | p in g.pxs)
    requires pfx in g.pxs && pfx !in gone && pfx in g.fxOf
    ensures g.fxOf[pfx] in Filter(g.fxs, Left(g, gone)) && Distinct(Filter(g.fxs, Left(g, gone)))
    ensures Filter(Filter(g.fxs, Left(g, gone)), Except(g.fxOf[pfx])) == Filter(g.fxs, Left(g, gone + {pfx}))
  {
    assert PxLinked(g, pfx);
    forall p | p in gone && p in g.fxOf ensures g.fxOf[p] != g.fxOf[pfx] { assert PxLinked(g, p); }
    assert Left(g, gone)(g.fxOf[pfx]);
    FilterDistinct(g.fxs, Left(g, gone));
    FilterTwice(g.fxs, Left(g, gone), Except(g.fxOf[pfx]), Left(g, gone + {pfx}));
  }

  lemma {:induction false} NothingOwned(g: Graph, gone: set<PersFileXfer>, pfx: PersFileXfer)
    requires pfx in gone || pfx !in g.fxOf
    ensures Filter(g.fxs, Left(g, gone)) == Filter(g.fxs, Left(g, gone + {pfx}))
  {
    FilterSame(g.fxs, Left(g, gone), Left(g, gone + {pfx}));
  }

  /** PERS_FILE_XFER::suspend and the destructors of FILE_XFER and PERS_FILE_XFER: the transfer in
      progress leaves its vector, and the pointers to both objects are cleared. */
  method DropTransfer(ghost g: Graph, ghost gone: set<PersFileXfer>, pfx: PersFileXfer, fxs0: seq<FileXfer>,
                      pxOf0: map<FileInfo, PersFileXfer>, fxOf0: map<PersFileXfer, FileXfer>)
    returns (fxs: seq<FileXfer>, pxOf: map<FileInfo, PersFileXfer>, fxOf: map<PersFileXfer, FileXfer>)
    requires TransfersReady(g) && gone <= (set p | p in g.pxs)
    requires pfx in g.pxs && Dropped(g, gone, fxs0, pxOf0, fxOf0)
    ensures Dropped(g, gone + {pfx}, fxs, pxOf, fxOf)
  {
    assert PxLinked(g, pfx);
    fxs, pxOf, fxOf := fxs0, pxOf0, fxOf0;
    if pfx in fxOf {
      StillOwned(g, gone, pfx);
      fxs := RemoveFileXfer(fxs, fxOf[pfx]);
      var fip := fxOf[pfx].fip;
      if fip in pxOf {
        fxOf := fxOf - {pxOf[fip]};
      }
      fxOf := fxOf - {pfx};
    } else {
      NothingOwned(g, gone, pfx);
    }
    pxOf := pxOf - {pfx.fip};
  }

  /** The persistent transfers of files to keep, and the others. */
  ghost function Wanted(pxs: seq<PersFileXfer>, keep: set<FileInfo>): set<PersFileXfer> {
    set p | p in pxs && p.fip in keep
  }

  ghost function Unwanted(pxs: seq<PersFileXfer>, keep: set<FileInfo>): set<PersFileXfer> {
    set p | p in pxs && p.fip !in keep
  }

  lemma {:induction false} UnwantedNext(pxs: seq<PersFileXfer>, k: nat, keep: set<FileInfo>)
    requires k < |pxs|
    ensures Unwanted(pxs[..k + 1], keep) == Unwanted(pxs[..k], keep) + if pxs[k].fip in keep then {} else {pxs[k]}
    ensures Unwanted(pxs[..k], keep) <= set p | p in pxs
  {
    assert pxs[..k + 1] == pxs[..k] + [pxs[k]];
  }

  /** A sweep of the persistent transfers that reached index i. */
  ghost predicate Sweeping(g: Graph, keep: set<FileInfo>, i: nat, pxs: seq<PersFileXfer>, fxs: seq<FileXfer>,
                           pxOf: map<FileInfo, PersFileXfer>, fxOf: map<PersFileXfer, FileXfer>) {
    Swept(pxs, i, g.pxs, Wanted(g.pxs, keep)) &&
    Dropped(g, Unwanted(g.pxs[..|g.pxs| - (|pxs| - i)], keep), fxs, pxOf, fxOf)
  }

  lemma {:induction false} SweepStarts(g: Graph, keep: set<FileInfo>)
    ensures Sweeping(g, keep, 0, g.pxs, g.fxs, g.pxOf, g.fxOf)
  {
    assert Unwanted(g.pxs[..0], keep) == {} && FilesOf({}) == {};
    FilterAll(g.fxs, Left(g, {}));
    assert g.pxOf - {} == g.pxOf && g.fxOf - {} == g.fxOf;
    assert Only(g.pxs[..0], Wanted(g.pxs, keep)) == [] && g.pxs[..0] == [] && g.pxs[0..] == g.pxs;
  }

  lemma {:induction false} KeepTransfer(g: Graph, keep: set<FileInfo>, i: nat, pxs: seq<PersFileXfer>,
                                        fxs: seq<FileXfer>,
                                        pxOf: map<FileInfo, PersFileXfer>, fxOf: map<PersFileXfer, FileXfer>)
    requires Sweeping(g, keep, i, pxs, fxs, pxOf, fxOf) && i < |pxs| && pxs[i].fip in keep
    ensures Sweeping(g, keep, i + 1, pxs, fxs, pxOf, fxOf)
  {
    var k := |g.pxs| - (|pxs| - i);
    assert Swept(pxs, i + 1, g.pxs, Wanted(g.pxs, keep)) by { SweptNext(pxs, i, g.pxs, Wanted(g.pxs, keep)); }
    assert Unwanted(g.pxs[..k + 1], keep) == Unwanted(g.pxs[..k], keep) by {
      SweptAt(pxs, i, g.pxs, Wanted(g.pxs, keep));
      UnwantedNext(g.pxs, k, keep);
    }
  }

  /** Drops the persistent transfer at index i and erases it. */
  method EraseTransfer(ghost g: Graph, ghost keep: set<FileInfo>, i: nat, pxs0: seq<PersFileXfer>, fxs0: seq<FileXfer>,
                       pxOf0: map<FileInfo, PersFileXfer>, fxOf0: map<PersFileXfer, FileXfer>)
    returns (pxs: seq<PersFileXfer>, fxs: seq<FileXfer>, pxOf: map<FileInfo, PersFileXfer>,
             fxOf: map<PersFileXfer, FileXfer>)
    requires TransfersReady(g) && Sweeping(g, keep, i, pxs0, fxs0, pxOf0, fxOf0) && i < |pxs0| && pxs0[i].fip !in keep
    ensures Sweeping(g, keep, i, pxs, fxs, pxOf, fxOf) && |pxs| == |pxs0| - 1
  {
    ghost var k := |g.pxs| - (|pxs0| - i);
    EraseSweeps(g, keep, i, pxs0, k);
    fxs, pxOf, fxOf := DropTransfer(g, Unwanted(g.pxs[..k], keep), pxs0[i], fxs0, pxOf0, fxOf0);
    pxs := Erase(pxs0, i);
  }

  lemma {:induction false} EraseSweeps(g: Graph, keep: set<FileInfo>, i: nat, pxs: seq<PersFileXfer>, k: nat)
    requires Swept(pxs, i, g.pxs, Wanted(g.pxs, keep)) && i < |pxs| && pxs[i].fip !in keep && k == |g.pxs| - (|pxs| - i)
    ensures pxs[i] in g.pxs && Unwanted(g.pxs[..k], keep) <= set p | p in g.pxs
    ensures Swept(Erase(pxs, i), i, g.pxs, Wanted(g.pxs, keep))
    ensures Unwanted(g.pxs[..k + 1], keep) == Unwanted(g.pxs[..k], keep) + {pxs[i]}
  {
    SweptNext(pxs, i, g.pxs, Wanted(g.pxs, keep));
    SweptAt(pxs, i, g.pxs, Wanted(g.pxs, keep));
    UnwantedNext(g.pxs, k, keep);
  }

  lemma {:induction false} SweepEnds(g: Graph, keep: set<FileInfo>,
                                     p: FileInfo -> bool, pxs: seq<PersFileXfer>, fxs: seq<FileXfer>,
                                     pxOf: map<FileInfo, PersFileXfer>, fxOf: map<PersFileXfer, FileXfer>)
    requires TransfersReady(g) && Sweeping(g, keep, |pxs|, pxs, fxs, pxOf, fxOf)
    requires forall f :: f in g.files ==> (f in keep <==> p(f))
    ensures pxs == RestrictFiles(g, p).pxs && fxs == RestrictFiles(g, p).fxs
    ensures pxOf == RestrictFiles(g, p).pxOf && fxOf == RestrictFiles(g, p).fxOf
  {
    assert pxs == Filter(g.pxs, KeepPx(p)) by {
      SweptDone(pxs, |pxs|, g.pxs, Wanted(g.pxs, keep));
      forall q | q in g.pxs ensures q in Wanted(g.pxs, keep) <==> KeepPx(p)(q) { assert PxLinked(g, q); }
      OnlyIsFilter(g.pxs, Wanted(g.pxs, keep), KeepPx(p));
    }
    assert g.pxs[..|g.pxs|] == g.pxs;
    DroppedIsRestricted(g, keep, p, fxs, pxOf, fxOf);
  }

  lemma {:induction false} DroppedIsRestricted(g: Graph, keep: set<FileInfo>, p: FileInfo -> bool, fxs: seq<FileXfer>,
                                               pxOf: map<FileInfo, PersFileXfer>, fxOf: map<PersFileXfer, FileXfer>)
    requires TransfersReady(g) && Dropped(g, Unwanted(g.pxs, keep), fxs, pxOf, fxOf)
    requires forall f :: f in g.files ==> (f in keep <==> p(f))
    ensures fxs == RestrictFiles(g, p).fxs
    ensures pxOf == RestrictFiles(g, p).pxOf && fxOf == RestrictFiles(g, p).fxOf
  {
    var gone := Unwanted(g.pxs, keep);
    forall q | q in g.pxs ensures q in gone <==> !p(q.fip) { assert PxLinked(g, q); }
    assert fxs == Filter(g.fxs, KeepFx(p)) by {
      forall x | x in g.fxs ensures Left(g, gone)(x) == KeepFx(p)(x) {
        assert FxLinked(g, x);
        var q :| q in g.pxs && q in g.fxOf && g.fxOf[q] == x;
        assert PxLinked(g, q);
        forall q2 | q2 in gone && q2 in g.fxOf && g.fxOf[q2] == x ensures q2 == q { assert PxLinked(g, q2); }
      }
      FilterSame(g.fxs, Left(g, gone), KeepFx(p));
    }
    assert pxOf == RestrictFiles(g, p).pxOf by {
      forall f | f in g.pxOf ensures f in FilesOf(gone) <==> !p(f) {
        assert FileLinked(g, f) && (g.pxOf[f] in gone <==> !p(f));
      }
    }
    assert fxOf == RestrictFiles(g, p).fxOf by {
      forall q | q in g.fxOf ensures q in gone <==> !p(q.fip) { assert PxLinked(g, q); }
    }
  }

  /** Transfers of files without references go, with the pointers to them. */
  method SweepTransfers(ghost g: Graph, ghost keep: set<FileInfo>, pxs0: seq<PersFileXfer>, fxs0: seq<FileXfer>,
                        pxOf0: map<FileInfo, PersFileXfer>, fxOf0: map<PersFileXfer, FileXfer>)
    returns (pxs: seq<PersFileXfer>, fxs: seq<FileXfer>, pxOf: map<FileInfo, PersFileXfer>,
             fxOf: map<PersFileXfer, FileXfer>)
    requires g.pxs == pxs0 && g.fxs == fxs0 && g.pxOf == pxOf0 && g.fxOf == fxOf0 && TransfersReady(g)
    requires forall f {:trigger f.refCnt} :: f in g.files ==> (f in keep <==> f.refCnt > 0)
    ensures Sweeping(g, keep, |pxs|, pxs, fxs, pxOf, fxOf)
  {
    pxs, fxs, pxOf, fxOf := pxs0, fxs0, pxOf0, fxOf0;
    SweepStarts(g, keep);
    var i := 0;
    while i < |pxs|
      invariant i <= |pxs| && Sweeping(g, keep, i, pxs, fxs, pxOf, fxOf)
    {
      var pfx := pxs[i];
      SweptNext(pxs, i, g.pxs, Wanted(g.pxs, keep));
      assert PxLinked(g, pfx);
      if pfx.fip.refCnt == 0 {
        pxs, fxs, pxOf, fxOf := EraseTransfer(g, keep, i, pxs, fxs, pxOf, fxOf);
      } else {
        KeepTransfer(g, keep, i, pxs, fxs, pxOf, fxOf);
        i := i + 1;
      }
    }
  }

  /** Files without references go. */
  method SweepFiles(all: seq<FileInfo>, ghost keep: set<FileInfo>) returns (files: seq<FileInfo>, action: bool)
    requires forall f {:trigger f.refCnt} :: f in all ==> (f in keep <==> f.refCnt > 0)
    ensures files == Only(all, keep) && (action <==> |files| != |all|)
  {
    var i := 0;
    files, action := all, false;
    while i < |files|
      invariant Swept(files, i, all, keep) && (action <==> |files| != |all|)
    {
      var fip := files[i];
      SweptNext(files, i, all, keep);
      if fip.refCnt == 0 {
        files := Erase(files, i);
        action := true;
      } else {
        i := i + 1;
      }
    }
    SweptDone(files, i, all, keep);
  }

  /* ---------- the counting sweeps together ---------- */

  ghost predicate Referenced(named: set<FileInfo>, rs: seq<Result>, us: seq<Workunit>, vs: seq<AppVersion>,
                             f: FileInfo) {
    f in named || OutputOf(rs, f) || InputOf(us, f) || AppFileOf(vs, f)
  }

  ghost function Counted(files: seq<FileInfo>): set<FileInfo>
    reads files`refCnt
  {
    set f | f in files && f.refCnt > 0
  }

  /** Counts start from zero and the files that projects name; then results and workunits are swept. */
  method SweepWork(ps: seq<Project>, tasks: seq<ActiveTask>, files: seq<FileInfo>, rs0: seq<Result>, us0: seq<Workunit>,
                   vs: seq<AppVersion>, ghost named: set<FileInfo>, ghost keepR: set<Result>,
                   ghost keepW: set<Workunit>)
    returns (rs: seq<Result>, us: seq<Workunit>, action: bool)
    requires forall p {:trigger NamesWithin(files, p)} :: p in ps ==> NamesWithin(files, p)
    requires forall r {:trigger RefersWithin(us0, vs, files, r)} :: r in rs0 ==> RefersWithin(us0, vs, files, r)
    requires forall u {:trigger InputsWithin(files, u)} :: u in us0 ==> InputsWithin(files, u)
    requires forall f {:trigger NamedBy(ps, f)} :: f in files ==> (f in named <==> NamedBy(ps, f))
    requires forall r {:trigger r.gotServerAck} :: r in rs0 ==> (r in keepR <==> !r.gotServerAck || HasTask(tasks, r))
    requires forall u {:trigger u in keepW} :: u in us0 ==> (u in keepW <==> UsesWorkunit(Only(rs0, keepR), u))
    modifies us0`refCnt, files`refCnt, vs`refCnt
    ensures rs == Only(rs0, keepR) && us == Only(us0, keepW)
    ensures action <==> |rs| != |rs0| || |us| != |us0|
    ensures forall v {:trigger v.refCnt} :: v in vs ==> (v.refCnt > 0 <==> UsesVersion(rs, v))
    ensures forall f {:trigger f.refCnt} :: f in files ==> (f.refCnt > 0 <==> Referenced(named, rs, us, [], f))
  {
    ZeroRefCounts(us0, files, vs);
    CountProjectFiles(ps, files);
    forall f | f in files ensures f in named <==> f.refCnt > 0 { assert f in named <==> NamedBy(ps, f); }
    assert ResultsCounted(us0, vs, files, [], named);
    var erased;
    rs, erased := SweepResults(rs0, tasks, us0, vs, files, keepR, named);
    ghost var base := Counted(files);
    assert WorkunitsCounted(files, [], base);
    forall u | u in us0 ensures u in keepW <==> u.refCnt > 0 { assert u in keepW <==> UsesWorkunit(rs, u); }
    us, action := SweepWorkunits(us0, files, keepW, base);
    action := action || erased;
  }

  /** Then versions are swept, and what stays counts its files, and so do sticky files. */
  method SweepVersions(now: real, files: seq<FileInfo>, rs: seq<Result>, us: seq<Workunit>, vs0: seq<AppVersion>,
                       ghost named: set<FileInfo>, ghost sticky: set<FileInfo>, ghost keepV: set<AppVersion>)
    returns (vs: seq<AppVersion>, action: bool)
    requires forall v {:trigger AppFilesWithin(files, v)} :: v in vs0 ==> AppFilesWithin(files, v)
    requires forall v {:trigger v in keepV} :: v in vs0 ==> (v in keepV <==> v.refCnt > 0 || !Superseded(vs0, v))
    requires forall f {:trigger f.refCnt} :: f in files ==> (f.refCnt > 0 <==> Referenced(named, rs, us, [], f))
    requires forall f :: f in files ==> (f in sticky <==> Sticky(now, f))
    modifies files`refCnt, files`sticky, files`stickyExpireTime
    ensures vs == Only(vs0, keepV) && (action <==> |vs| != |vs0|)
    ensures forall f :: f in files ==> (f in sticky <==> Sticky(now, f))
    ensures forall f {:trigger f.refCnt} :: f in files ==>
      (f.refCnt > 0 <==> Referenced(named, rs, us, vs, f) || f in sticky)
  {
    vs, action := SweepAppVersions(vs0, keepV);
    CountAppFiles(vs, files, Counted(files));
    CountStickyFiles(now, files, Counted(files), sticky);
  }

  /* ---------- what each sweep keeps, taken from the graph ---------- */

  ghost function KeptResults(g: Graph): set<Result> {
    set r | r in g.results && KeepResult(g)(r)
  }

  ghost function KeptWorkunits(g: Graph): set<Workunit> {
    set u | u in g.workunits && KeepWorkunit(CollectResults(g))(u)
  }

  ghost function KeptVersions(g: Graph): set<AppVersion> {
    set v | v in g.appVersions && KeepVersion(CollectWorkunits(CollectResults(g)))(v)
  }

  ghost function KeptFiles(g: Graph): set<FileInfo> {
    set f | f in g.files && KeepFile(CollectVersions(CollectWorkunits(CollectResults(g))))(f)
  }

  ghost function NamedFiles(g: Graph): set<FileInfo> {
    set n | n in g.named :: n.1
  }

  lemma {:induction false} CollectIsOnly(g: Graph)
    ensures Collect(g).results == Only(g.results, KeptResults(g))
    ensures Collect(g).workunits == Only(g.workunits, KeptWorkunits(g))
    ensures Collect(g).appVersions == Only(g.appVersions, KeptVersions(g))
    ensures Collect(g).files == Only(g.files, KeptFiles(g))
  {
    var g1 := CollectResults(g);
    var g2 := CollectWorkunits(g1);
    var g3 := CollectVersions(g2);
    OnlyIsFilter(g.results, KeptResults(g), KeepResult(g));
    OnlyIsFilter(g.workunits, KeptWorkunits(g), KeepWorkunit(g1));
    OnlyIsFilter(g.appVersions, KeptVersions(g), KeepVersion(g2));
    OnlyIsFilter(g.files, KeptFiles(g), KeepFile(g3));
  }

  /** What the sweeps need of Sound(), object by object. */
  ghost predicate Ready(g: Graph)
    reads g.projects`userFiles, g.projects`projectFiles
  {
    (forall p {:trigger NamesWithin(g.files, p)} :: p in g.projects ==> NamesWithin(g.files, p)) &&
    (forall r {:trigger RefersWithin(g.workunits, g.appVersions, g.files, r)} :: r in g.results ==>
      RefersWithin(g.workunits, g.appVersions, g.files, r)) &&
    (forall u {:trigger InputsWithin(g.files, u)} :: u in g.workunits ==> InputsWithin(g.files, u)) &&
    (forall v {:trigger AppFilesWithin(g.files, v)} :: v in g.appVersions ==> AppFilesWithin(g.files, v)) &&
    (forall f {:trigger NamedBy(g.projects, f)} :: f in g.files ==> (f in NamedFiles(g) <==> NamedBy(g.projects, f)))
  }

  lemma {:induction false} SoundIsReady(g: Graph)
    requires CheckAll(g) && Linked(g) && g.named == NamedOf(g.projects)
    ensures Ready(g)
  {
    forall p | p in g.projects ensures NamesWithin(g.files, p) {
      forall f | f in p.userFiles || f in p.projectFiles ensures f in g.files {
        assert f in p.userFiles + p.projectFiles;
        assert (p, f) in g.named && (p, f).1 == f;
      }
    }
    forall f | f in g.files ensures f in NamedFiles(g) <==> NamedBy(g.projects, f) { NamedFilesAre(g, f); }
  }

  lemma {:induction false} NamedFilesAre(g: Graph, f: FileInfo)
    requires g.named == NamedOf(g.projects)
    ensures f in NamedFiles(g) <==> NamedBy(g.projects, f)
  {
    if p :| p in g.projects && (f in p.userFiles || f in p.projectFiles) {
      assert f in p.userFiles + p.projectFiles;
      assert (p, f) in g.named && (p, f).1 == f;
    }
  }

  /** The sets of objects to keep, told as the sweeps find them. */
  ghost predicate Judged(g: Graph) {
    var rs := Only(g.results, KeptResults(g));
    var us := Only(g.workunits, KeptWorkunits(g));
    var vs := Only(g.appVersions, KeptVersions(g));
    (forall r {:trigger r in KeptResults(g)} :: r in g.results ==>
      (r in KeptResults(g) <==> r !in g.acked || HasTask(g.tasks, r))) &&
    (forall u {:trigger u in KeptWorkunits(g)} :: u in g.workunits ==>
      (u in KeptWorkunits(g) <==> UsesWorkunit(rs, u))) &&
    (forall v {:trigger v in KeptVersions(g)} :: v in g.appVersions ==>
      (v in KeptVersions(g) <==> UsesVersion(rs, v) || !Superseded(g.appVersions, v))) &&
    (forall f {:trigger f in KeptFiles(g)} :: f in g.files ==>
      (f in KeptFiles(g) <==> Referenced(NamedFiles(g), rs, us, vs, f) || f in g.sticky))
  }

  lemma {:induction false} GraphIsJudged(g: Graph)
    ensures Judged(g)
  {
    CollectIsOnly(g);
    var g3 := CollectVersions(CollectWorkunits(CollectResults(g)));
    forall f | f in g.files ensures f in KeptFiles(g) <==>
      Referenced(NamedFiles(g), g3.results, g3.workunits, g3.appVersions, f) || f in g.sticky
    {
      UsesFileIs(g3, f);
    }
  }

  lemma {:induction false} UsesFileIs(g: Graph, f: FileInfo)
    ensures UsesFile(g, f) <==> Referenced(NamedFiles(g), g.results, g.workunits, g.appVersions, f) || f in g.sticky
  {
  }

  /* ---------- leaving a project ---------- */

  /** ACTIVE_TASK_SET::abort_project: the project's tasks leave the vector. */
  method EraseTasks(all: seq<ActiveTask>, project: Project) returns (tasks: seq<ActiveTask>)
    ensures tasks == Filter(all, OtherTask(project))
  {
    ghost var keep := set t | t in all && t.result.project != project;
    OnlyIsFilter(all, keep, OtherTask(project));
    var i := 0;
    tasks := all;
    while i < |tasks|
      invariant Swept(tasks, i, all, keep)
    {
      SweptNext(tasks, i, all, keep);
      if tasks[i].result.project == project {
        tasks := Erase(tasks, i);
      } else {
        i := i + 1;
      }
    }
    SweptDone(tasks, i, all, keep);
  }

  method EraseVersions(all: seq<AppVersion>, project: Project) returns (vs: seq<AppVersion>)
    ensures vs == Filter(all, OtherVersion(project))
  {
    ghost var keep := set v | v in all && v.project != project;
    OnlyIsFilter(all, keep, OtherVersion(project));
    var i := 0;
    vs := all;
    while i < |vs|
      invariant Swept(vs, i, all, keep)
    {
      SweptNext(vs, i, all, keep);
      if vs[i].project == project {
        vs := Erase(vs, i);
      } else {
        i := i + 1;
      }
    }
    SweptDone(vs, i, all, keep);
  }

  method EraseApps(all: seq<App>, project: Project) returns (apps: seq<App>)
    ensures apps == Filter(all, OtherApp(project))
  {
    ghost var keep := set a | a in all && a.project != project;
    OnlyIsFilter(all, keep, OtherApp(project));
    var i := 0;
    apps := all;
    while i < |apps|
      invariant Swept(apps, i, all, keep)
    {
      SweptNext(apps, i, all, keep);
      if apps[i].project == project {
        apps := Erase(apps, i);
      } else {
        i := i + 1;
      }
    }
    SweptDone(apps, i, all, keep);
  }

  method EraseFiles(all: seq<FileInfo>, project: Project) returns (files: seq<FileInfo>)
    ensures files == Filter(all, OtherFile(project))
  {
    ghost var keep := set f | f in all && f.project != project;
    OnlyIsFilter(all, keep, OtherFile(project));
    var i := 0;
    files := all;
    while i < |files|
      invariant Swept(files, i, all, keep)
    {
      SweptNext(files, i, all, keep);
      if files[i].project == project {
        files := Erase(files, i);
      } else {
        i := i + 1;
      }
    }
    SweptDone(files, i, all, keep);
  }

  /** The first occurrence leaves the list; there is only one. */
  method EraseProject(all: seq<Project>, project: Project) returns (ps: seq<Project>)
    requires Distinct(all)
    ensures ps == Filter(all, OtherProject(project))
  {
    ps := all;
    for i := 0 to |all|
      invariant ps == all && project !in all[..i]
    {
      if ps[i] == project {
        FilterOut(all, i, OtherProject(project));
        ps := Erase(ps, i);
        return;
      }
    }
    FilterAll(all, OtherProject(project));
  }

  ghost function OthersFiles(g: Graph, project: Project): set<FileInfo> {
    set f | f in g.files && f.project != project
  }

  lemma {:induction false} StoppedIsClear(g: Graph, project: Project, pxs: seq<PersFileXfer>, fxs: seq<FileXfer>,
                                          pxOf: map<FileInfo, PersFileXfer>, fxOf: map<PersFileXfer, FileXfer>)
    requires TransfersReady(g) && Sweeping(g, OthersFiles(g, project), |pxs|, pxs, fxs, pxOf, fxOf)
    ensures pxs == Clear(g, project).pxs && fxs == Clear(g, project).fxs
    ensures pxOf == Clear(g, project).pxOf && fxOf == Clear(g, project).fxOf
  {
    var r, c := RestrictFiles(g, OtherFile(project)), Clear(g, project);
    SweepEnds(g, OthersFiles(g, project), OtherFile(project), pxs, fxs, pxOf, fxOf);
    assert r.pxOf == c.pxOf;
    assert r.fxOf == c.fxOf;
  }

  /** The project's transfers are stopped and removed, with the pointers to them. */
  method StopTransfers(ghost g: Graph, project: Project, pxs0: seq<PersFileXfer>, fxs0: seq<FileXfer>,
                       pxOf0: map<FileInfo, PersFileXfer>, fxOf0: map<PersFileXfer, FileXfer>)
    returns (pxs: seq<PersFileXfer>, fxs: seq<FileXfer>, pxOf: map<FileInfo, PersFileXfer>,
             fxOf: map<PersFileXfer, FileXfer>)
    requires g.pxs == pxs0 && g.fxs == fxs0 && g.pxOf == pxOf0 && g.fxOf == fxOf0 && TransfersReady(g)
    ensures pxs == Clear(g, project).pxs && fxs == Clear(g, project).fxs
    ensures pxOf == Clear(g, project).pxOf && fxOf == Clear(g, project).fxOf
  {
    ghost var keep := OthersFiles(g, project);
    pxs, fxs, pxOf, fxOf := pxs0, fxs0, pxOf0, fxOf0;
    SweepStarts(g, keep);
    var i := 0;
    while i < |pxs|
      invariant i <= |pxs| && Sweeping(g, keep, i, pxs, fxs, pxOf, fxOf)
    {
      var pxp := pxs[i];
      SweptNext(pxs, i, g.pxs, Wanted(g.pxs, keep));
      assert PxLinked(g, pxp);
      if pxp.fip.project == project {
        pxs, fxs, pxOf, fxOf := EraseTransfer(g, keep, i, pxs, fxs, pxOf, fxOf);
      } else {
        KeepTransfer(g, keep, i, pxs, fxs, pxOf, fxOf);
        i := i + 1;
      }
    }
    StoppedIsClear(g, project, pxs, fxs, pxOf, fxOf);
  }

  /** The project's results count as acknowledged. */
  method AcknowledgeResults(rs: seq<Result>, project: Project)
    modifies rs`gotServerAck
    ensures forall r {:trigger r.gotServerAck} :: r in rs ==>
      r.gotServerAck == (old(r.gotServerAck) || r.project == project)
  {
    for i := 0 to |rs|
      invariant forall r {:trigger r.gotServerAck} :: r in rs[..i] ==>
        r.gotServerAck == (old(r.gotServerAck) || r.project == project)
      invariant forall r {:trigger r.gotServerAck} :: r in rs ==>
        r.gotServerAck == old(r.gotServerAck) || (r.gotServerAck && r.project == project)
    {
      assert rs[..i + 1] == rs[..i] + [rs[i]];
      if rs[i].project == project {
        rs[i].gotServerAck := true;
      }
    }
    assert rs[..|rs|] == rs;
  }

  /** None of the project's files is sticky any more. */
  method EndStickiness(files: seq<FileInfo>, project: Project)
    modifies files`sticky
    ensures forall f {:trigger f.sticky} :: f in files ==> f.sticky == (old(f.sticky) && f.project != project)
  {
    for i := 0 to |files|
      invariant forall f {:trigger f.sticky} :: f in files[..i] ==> f.sticky == (old(f.sticky) && f.project != project)
      invariant forall f {:trigger f.sticky} :: f in files ==>
        f.sticky == old(f.sticky) || (!f.sticky && f.project == project)
    {
      assert files[..i + 1] == files[..i] + [files[i]];
      if files[i].project == project {
        files[i].sticky := false;
      }
    }
    assert files[..|files|] == files;
  }

  /** The project names no file any more. */
  method ClearNames(ghost ps: seq<Project>, project: Project)
    modifies project`userFiles, project`projectFiles
    ensures NamedOf(ps) == set n | n in old(NamedOf(ps)) && n.0 != project
  {
    project.userFiles := [];
    project.projectFiles := [];
    assert forall n :: n in NamedOf(ps) <==> n in old(NamedOf(ps)) && n.0 != project;
  }

  /** The project's claims on results and files end. */
  method DropClaims(now: real, ps: seq<Project>, rs: seq<Result>, files: seq<FileInfo>, project: Project,
                    ghost g: Graph)
    requires g.projects == ps && g.results == rs && g.files == files && g.named == NamedOf(ps)
    requires forall r {:trigger r.gotServerAck} :: r in rs ==> (r in g.acked <==> r.gotServerAck)
    requires forall f :: f in files ==> (f in g.sticky <==> Sticky(now, f))
    modifies project`userFiles, project`projectFiles, rs`gotServerAck, files`sticky
    ensures forall r {:trigger r.gotServerAck} :: r in rs ==> r.gotServerAck == (r in g.acked || r.project == project)
    ensures NamedOf(ps) == Clear(g, project).named
    ensures forall f :: f in files ==> (Sticky(now, f) <==> f in g.sticky && f.project != project)
  {
    AcknowledgeResults(rs, project);
    ClearNames(ps, project);
    EndStickiness(files, project);
  }

  /* ---------- the client ---------- */

  ghost function AckedOf(rs: seq<Result>): set<Result>
    reads rs`gotServerAck
  {
    set r | r in rs && r.gotServerAck
  }

  ghost function NamedOf(ps: seq<Project>): set<(Project, FileInfo)>
    reads ps`userFiles, ps`projectFiles
  {
    set p, f | p in ps && f in p.userFiles + p.projectFiles :: (p, f)
  }

  ghost function StickyOf(now: real, files: seq<FileInfo>): set<FileInfo>
    reads files`sticky, files`stickyExpireTime, files`status
  {
    set f | f in files && Sticky(now, f)
  }

  /** The sweeps that count references, on the tables of a graph. */
  method SweepCounting(now: real, ps: seq<Project>, tasks: seq<ActiveTask>, files: seq<FileInfo>, rs0: seq<Result>,
                       us0: seq<Workunit>, vs0: seq<AppVersion>, ghost g: Graph)
    returns (rs: seq<Result>, us: seq<Workunit>, vs: seq<AppVersion>, action: bool)
    requires g.projects == ps && g.tasks == tasks && g.files == files
    requires g.results == rs0 && g.workunits == us0 && g.appVersions == vs0
    requires Ready(g) && Judged(g)
    requires forall r {:trigger r.gotServerAck} :: r in rs0 ==> (r in g.acked <==> r.gotServerAck)
    requires forall f :: f in files ==> (f in g.sticky <==> Sticky(now, f))
    modifies us0`refCnt, vs0`refCnt, files`refCnt, files`sticky, files`stickyExpireTime
    ensures rs == Only(rs0, KeptResults(g)) && us == Only(us0, KeptWorkunits(g)) && vs == Only(vs0, KeptVersions(g))
    ensures forall f :: f in files ==> (f in g.sticky <==> Sticky(now, f))
    ensures forall f {:trigger f.refCnt} :: f in files ==> (f in KeptFiles(g) <==> f.refCnt > 0)
    ensures action <==> |rs| != |rs0| || |us| != |us0| || |vs| != |vs0|
    ensures AckedOf(rs0) == old(AckedOf(rs0)) && NamedOf(ps) == old(NamedOf(ps))
  {
    forall r {:trigger r.gotServerAck} | r in rs0
      ensures r in KeptResults(g) <==> !r.gotServerAck || HasTask(tasks, r)
    {}
    var lost;
    rs, us, lost := SweepWork(ps, tasks, files, rs0, us0, vs0, NamedFiles(g), KeptResults(g), KeptWorkunits(g));
    vs, action := SweepVersions(now, files, rs, us, vs0, NamedFiles(g), g.sticky, KeptVersions(g));
    action := action || lost;
  }

  /** The sweeps of transfers and files. */
  method SweepTables(ghost g: Graph, files0: seq<FileInfo>, pxs0: seq<PersFileXfer>, fxs0: seq<FileXfer>,
                     toPx0: map<FileInfo, PersFileXfer>, toFx0: map<PersFileXfer, FileXfer>)
    returns (files: seq<FileInfo>, pxs: seq<PersFileXfer>, fxs: seq<FileXfer>,
             toPx: map<FileInfo, PersFileXfer>, toFx: map<PersFileXfer, FileXfer>, action: bool)
    requires g.files == files0 && g.pxs == pxs0 && g.fxs == fxs0
    requires g.pxOf == toPx0 && g.fxOf == toFx0 && TransfersReady(g)
    requires forall f {:trigger f.refCnt} :: f in g.files ==> (f in KeptFiles(g) <==> f.refCnt > 0)
    ensures files == Collect(g).files && pxs == Collect(g).pxs && fxs == Collect(g).fxs
    ensures toPx == Collect(g).pxOf && toFx == Collect(g).fxOf
    ensures action <==> |files| != |files0|
  {
    pxs, fxs, toPx, toFx := SweepTransfers(g, KeptFiles(g), pxs0, fxs0, toPx0, toFx0);
    files, action := SweepFiles(files0, KeptFiles(g));
    TransfersAreCollected(g, pxs, fxs, toPx, toFx);
    CollectIsOnly(g);
  }

  lemma {:induction false} TransfersAreCollected(g: Graph, pxs: seq<PersFileXfer>, fxs: seq<FileXfer>,
                                                 toPx: map<FileInfo, PersFileXfer>, toFx: map<PersFileXfer, FileXfer>)
    requires TransfersReady(g) && Sweeping(g, KeptFiles(g), |pxs|, pxs, fxs, toPx, toFx)
    ensures pxs == Collect(g).pxs && fxs == Collect(g).fxs && toPx == Collect(g).pxOf && toFx == Collect(g).fxOf
  {
    SweepEnds(g, KeptFiles(g), KeepFile(CollectVersions(CollectWorkunits(CollectResults(g)))), pxs, fxs, toPx, toFx);
  }

  /** One of the four tables that the collector reports about becomes shorter. */
  ghost predicate Shortened(g: Graph) {
    var c := Collect(g);
    |c.results| != |g.results| || |c.workunits| != |g.workunits| || |c.appVersions| != |g.appVersions| ||
    |c.files| != |g.files|
  }

  /** The collector changes the graph exactly when one of these tables becomes shorter: no transfer goes
      without its file. */
  lemma {:induction false} CollectShortens(g: Graph)
    requires CheckAll(g) && TransfersLinked(g) && forall r :: r in g.acked ==> r in g.results
    ensures Shortened(g) <==> Collect(g) != g
  {
    if !Shortened(g) {
      var g1 := CollectResults(g);
      assert g1 == g by {
        FilterLength(g.results, KeepResult(g));
        assert g1.acked == g.acked;
      }
      assert CollectWorkunits(g) == g by { FilterLength(g.workunits, KeepWorkunit(g)); }
      assert CollectVersions(g) == g by { FilterLength(g.appVersions, KeepVersion(g)); }
      assert CollectFiles(g) == g by {
        FilterLength(g.files, KeepFile(g));
        RestrictNothing(g, KeepFile(g));
      }
    }
  }

  class ClientState {
    var now: real
    var projects: seq<Project>
    var apps: seq<App>
    var fileInfos: seq<FileInfo>
    var appVersions: seq<AppVersion>
    var workunits: seq<Workunit>
    var results: seq<Result>
    var activeTasks: seq<ActiveTask>
    var persFileXfers: seq<PersFileXfer>
    var fileXfers: seq<FileXfer>
    // the pointers FILE_INFO::pers_file_xfer and PERS_FILE_XFER::fxp; no entry stands for NULL
    var pxOf: map<FileInfo, PersFileXfer>
    var fxOf: map<PersFileXfer, FileXfer>

    ghost function Snapshot(): Graph
      reads this, projects`userFiles, projects`projectFiles, results`gotServerAck
      reads fileInfos`sticky, fileInfos`stickyExpireTime, fileInfos`status
    {
      Graph(projects, apps, fileInfos, appVersions, workunits, results, activeTasks, persFileXfers, fileXfers,
            AckedOf(results), NamedOf(projects), StickyOf(now, fileInfos), pxOf, fxOf)
    }

    method SetWork(rs: seq<Result>, us: seq<Workunit>, vs: seq<AppVersion>)
      modifies this`results, this`workunits, this`appVersions
      ensures results == rs && workunits == us && appVersions == vs
      ensures unchanged(`now, `projects, `apps, `fileInfos, `activeTasks, `persFileXfers, `fileXfers, `pxOf, `fxOf)
    {
      results := rs;
      workunits := us;
      appVersions := vs;
    }

    method SetFiles(files: seq<FileInfo>, pxs: seq<PersFileXfer>, fxs: seq<FileXfer>,
                     toPx: map<FileInfo, PersFileXfer>, toFx: map<PersFileXfer, FileXfer>)
      modifies this`fileInfos, this`persFileXfers, this`fileXfers, this`pxOf, this`fxOf
      ensures fileInfos == files && persFileXfers == pxs && fileXfers == fxs && pxOf == toPx && fxOf == toFx
      ensures unchanged(`now, `projects, `apps, `activeTasks, `results, `workunits, `appVersions)
    {
      fileInfos, persFileXfers, fileXfers, pxOf, fxOf := files, pxs, fxs, toPx, toFx;
    }

    method SweepAll(ghost g: Graph)
      returns (rs: seq<Result>, us: seq<Workunit>, vs: seq<AppVersion>, files: seq<FileInfo>, pxs: seq<PersFileXfer>,
               fxs: seq<FileXfer>, toPx: map<FileInfo, PersFileXfer>, toFx: map<PersFileXfer, FileXfer>, action: bool)
      requires g == Snapshot() && Ready(g) && Judged(g) && TransfersReady(g)
      modifies workunits`refCnt, appVersions`refCnt, fileInfos`refCnt, fileInfos`sticky, fileInfos`stickyExpireTime
      ensures rs == Collect(g).results && us == Collect(g).workunits && vs == Collect(g).appVersions
      ensures files == Collect(g).files && pxs == Collect(g).pxs && fxs == Collect(g).fxs
      ensures toPx == Collect(g).pxOf && toFx == Collect(g).fxOf
      ensures AckedOf(g.results) == g.acked && NamedOf(g.projects) == g.named
      ensures forall f :: f in g.files ==> (f in g.sticky <==> Sticky(now, f))
      ensures action <==> Shortened(g)
    {
      var lost;
      rs, us, vs, lost := SweepCounting(now, projects, activeTasks, fileInfos, results, workunits, appVersions, g);
      files, pxs, fxs, toPx, toFx, action := SweepTables(g, fileInfos, persFileXfers, fileXfers, pxOf, fxOf);
      CollectIsOnly(g);
      action := action || lost;
    }

    lemma {:induction false} SnapshotIsCollect(g: Graph)
      requires results == Collect(g).results && workunits == Collect(g).workunits
      requires appVersions == Collect(g).appVersions
      requires fileInfos == Collect(g).files && persFileXfers == Collect(g).pxs && fileXfers == Collect(g).fxs
      requires pxOf == Collect(g).pxOf && fxOf == Collect(g).fxOf
      requires projects == g.projects && apps == g.apps && activeTasks == g.tasks
      requires AckedOf(g.results) == g.acked && NamedOf(g.projects) == g.named
      requires forall f :: f in g.files ==> (f in g.sticky <==> Sticky(now, f))
      requires forall f :: f in g.sticky ==> f in g.files
      ensures Snapshot() == Collect(g)
    {
      assert Snapshot().acked == Collect(g).acked;
      assert Snapshot().sticky == Collect(g).sticky;
    }

    /** What is in the tables after the sweeps, told by what is in them. */
    lemma {:induction false} SurvivorsAre(g: Graph, c: Graph)
      requires c == Snapshot() == Collect(g)
      ensures forall r {:trigger r in results} :: r in g.results ==>
        (r in results <==> r !in g.acked || exists t :: t in activeTasks && t.result == r)
      ensures forall u {:trigger u in workunits} :: u in g.workunits ==>
        (u in workunits <==> exists r :: r in results && r.wup == u)
      ensures forall f {:trigger f in fileInfos} :: f in g.files ==>
        (f in fileInfos <==>
          (exists p :: p in projects && (f in p.userFiles || f in p.projectFiles)) ||
          (exists r :: r in results && f in r.outputFiles) || (exists u :: u in workunits && f in u.inputFiles) ||
          (exists v :: v in appVersions && f in v.appFiles) || f in g.sticky)
    {
      CollectedWork(g, c);
      CollectedFiles(g, c);
      forall f | f in g.files ensures NamedBy(projects, f) <==> exists n :: n in g.named && n.1 == f {
        NamedFilesAre(c, f);
        assert f in NamedFiles(c) <==> exists n :: n in g.named && n.1 == f;
      }
    }

    /** The tables after a collection, told by the tables before (the arguments) and the fields of the
        objects; sticky are the files that stickiness keeps. A result stays unless it is acknowledged and no
        task runs it. A version goes only when no result uses it, for a later one of its application,
        platform and plan class; then it does go. A file stays while something that stays refers to it. */
    ghost predicate Collected(rs: seq<Result>, us: seq<Workunit>, vs: seq<AppVersion>, files: seq<FileInfo>,
                              sticky: set<FileInfo>)
      reads this, projects`userFiles, projects`projectFiles, rs`gotServerAck
    {
      (forall r {:trigger r in results} :: r in rs ==>
        (r in results <==> !r.gotServerAck || exists t :: t in activeTasks && t.result == r)) &&
      (forall u {:trigger u in workunits} :: u in us ==>
        (u in workunits <==> exists r :: r in results && r.wup == u)) &&
      (forall v :: v in vs && v !in appVersions ==>
        (forall r :: r in results ==> r.avp != v) &&
        exists w :: w in appVersions && w.versionNum > v.versionNum &&
                    (w.app, w.platform, w.planClass) == (v.app, v.platform, v.planClass)) &&
      (forall v :: v in appVersions && (forall r :: r in results ==> r.avp != v) ==>
        forall w :: w in vs && (w.app, w.platform, w.planClass) == (v.app, v.platform, v.planClass) ==>
          w.versionNum <= v.versionNum) &&
      (forall f {:trigger f in fileInfos} :: f in files ==>
        (f in fileInfos <==>
          (exists p :: p in projects && (f in p.userFiles || f in p.projectFiles)) ||
          (exists r :: r in results && f in r.outputFiles) || (exists u :: u in workunits && f in u.inputFiles) ||
          (exists v :: v in appVersions && f in v.appFiles) || f in sticky))
    }

    lemma {:induction false} TablesAre(g: Graph, c: Graph)
      requires c == Snapshot() == Collect(g) && AckedOf(g.results) == g.acked
      ensures Within(workunits, g.workunits) && Within(appVersions, g.appVersions) && Within(fileInfos, g.files)
      ensures Collected(g.results, g.workunits, g.appVersions, g.files, g.sticky)
    {
      CollectWithin(g, c);
      CollectedVersions(g, c);
      SurvivorsAre(g, c);
    }

    method Install(ghost g: Graph, rs: seq<Result>, us: seq<Workunit>, vs: seq<AppVersion>, files: seq<FileInfo>,
                   pxs: seq<PersFileXfer>, fxs: seq<FileXfer>, toPx: map<FileInfo, PersFileXfer>,
                   toFx: map<PersFileXfer, FileXfer>)
      requires rs == Collect(g).results && us == Collect(g).workunits && vs == Collect(g).appVersions
      requires files == Collect(g).files && pxs == Collect(g).pxs && fxs == Collect(g).fxs
      requires toPx == Collect(g).pxOf && toFx == Collect(g).fxOf
      requires projects == g.projects && apps == g.apps && activeTasks == g.tasks
      requires AckedOf(g.results) == g.acked && NamedOf(g.projects) == g.named
      requires forall f :: f in g.files ==> (f in g.sticky <==> Sticky(now, f))
      requires forall f :: f in g.sticky ==> f in g.files
      modifies this`results, this`workunits, this`appVersions, this`fileInfos, this`persFileXfers, this`fileXfers
      modifies this`pxOf, this`fxOf
      ensures Snapshot() == Collect(g)
      ensures Within(workunits, g.workunits) && Within(appVersions, g.appVersions) && Within(fileInfos, g.files)
      ensures Collected(g.results, g.workunits, g.appVersions, g.files, g.sticky)
    {
      SetWork(rs, us, vs);
      SetFiles(files, pxs, fxs, toPx, toFx);
      SnapshotIsCollect(g);
      TablesAre(g, Snapshot());
    }

    /** The sweeps, and the tables that they leave. */
    method Sweep(ghost g: Graph) returns (action: bool)
      requires g == Snapshot() && Ready(g) && Judged(g) && TransfersReady(g)
      modifies this`results, this`workunits, this`appVersions, this`fileInfos, this`persFileXfers, this`fileXfers
      modifies this`pxOf, this`fxOf, workunits`refCnt, appVersions`refCnt
      modifies fileInfos`refCnt, fileInfos`sticky, fileInfos`stickyExpireTime
      ensures Snapshot() == Collect(g)
      ensures action <==> Shortened(g)
      ensures Within(workunits, g.workunits) && Within(appVersions, g.appVersions) && Within(fileInfos, g.files)
      ensures Collected(g.results, g.workunits, g.appVersions, g.files, g.sticky)
    {
      var rs, us, vs, files, pxs, fxs, toPx, toFx;
      rs, us, vs, files, pxs, fxs, toPx, toFx, action := SweepAll(g);
      Install(g, rs, us, vs, files, pxs, fxs, toPx, toFx);
    }

    method GarbageCollectAlways() returns (action: bool)
      requires Sound(Snapshot())
      modifies this`results, this`workunits, this`appVersions, this`fileInfos, this`persFileXfers, this`fileXfers
      modifies this`pxOf, this`fxOf, workunits`refCnt, appVersions`refCnt
      modifies fileInfos`refCnt, fileInfos`sticky, fileInfos`stickyExpireTime
      ensures Snapshot() == Collect(old(Snapshot()))
      ensures action <==> Snapshot() != old(Snapshot())
      ensures Within(workunits, old(workunits)) && Within(appVersions, old(appVersions))
      ensures Within(fileInfos, old(fileInfos))
      ensures Collected(old(results), old(workunits), old(appVersions), old(fileInfos),
                        old(set k | k in fileInfos && k.sticky && k.status >= 0 &&
                                    !(k.stickyExpireTime != 0.0 && now > k.stickyExpireTime)))
    {
      ghost var g := Snapshot();
      ghost var sticky := set k | k in fileInfos && k.sticky && k.status >= 0 &&
                                  !(k.stickyExpireTime != 0.0 && now > k.stickyExpireTime);
      assert g.sticky == sticky;
      assert Ready(g) && Judged(g) && TransfersReady(g) && (Shortened(g) <==> Collect(g) != g) by {
        SoundIsReady(g);
        GraphIsJudged(g);
        SoundIsTransfersReady(g);
        CollectShortens(g);
      }
      action := Sweep(g);
    }

    method SetTransfers(tasks: seq<ActiveTask>, pxs: seq<PersFileXfer>, fxs: seq<FileXfer>,
                        toPx: map<FileInfo, PersFileXfer>, toFx: map<PersFileXfer, FileXfer>)
      modifies this`activeTasks, this`persFileXfers, this`fileXfers, this`pxOf, this`fxOf
      ensures activeTasks == tasks && persFileXfers == pxs && fileXfers == fxs && pxOf == toPx && fxOf == toFx
      ensures unchanged(`now, `projects, `apps, `fileInfos, `results, `workunits, `appVersions)
    {
      activeTasks, persFileXfers, fileXfers, pxOf, fxOf := tasks, pxs, fxs, toPx, toFx;
    }

    lemma {:induction false} SnapshotIsClear(g: Graph, p: Project)
      requires projects == g.projects && apps == g.apps && fileInfos == g.files && appVersions == g.appVersions
      requires workunits == g.workunits && results == g.results && activeTasks == Clear(g, p).tasks
      requires persFileXfers == Clear(g, p).pxs && fileXfers == Clear(g, p).fxs
      requires pxOf == Clear(g, p).pxOf && fxOf == Clear(g, p).fxOf
      requires forall r :: r in g.acked ==> r in g.results
      requires forall r :: r in results ==> r.gotServerAck == (r in g.acked || r.project == p)
      requires NamedOf(projects) == Clear(g, p).named
      requires forall f :: f in g.sticky ==> f in g.files
      requires forall f :: f in fileInfos ==> (Sticky(now, f) <==> f in g.sticky && f.project != p)
      ensures Snapshot() == Clear(g, p)
    {
      assert Snapshot().acked == Clear(g, p).acked;
      assert Snapshot().sticky == Clear(g, p).sticky;
    }

    method InstallCleared(ghost g: Graph, ghost p: Project, tasks: seq<ActiveTask>, pxs: seq<PersFileXfer>,
                          fxs: seq<FileXfer>,
                          toPx: map<FileInfo, PersFileXfer>, toFx: map<PersFileXfer, FileXfer>)
      requires projects == g.projects && apps == g.apps && fileInfos == g.files && appVersions == g.appVersions
      requires workunits == g.workunits && results == g.results && tasks == Clear(g, p).tasks
      requires pxs == Clear(g, p).pxs && fxs == Clear(g, p).fxs && toPx == Clear(g, p).pxOf && toFx == Clear(g, p).fxOf
      requires forall r :: r in g.acked ==> r in g.results
      requires forall r {:trigger r.gotServerAck} :: r in results ==> r.gotServerAck == (r in g.acked || r.project == p)
      requires NamedOf(projects) == Clear(g, p).named
      requires forall f :: f in g.sticky ==> f in g.files
      requires forall f :: f in fileInfos ==> (Sticky(now, f) <==> f in g.sticky && f.project != p)
      modifies this`activeTasks, this`persFileXfers, this`fileXfers, this`pxOf, this`fxOf
      ensures Snapshot() == Clear(g, p)
    {
      SetTransfers(tasks, pxs, fxs, toPx, toFx);
      SnapshotIsClear(g, p);
    }

    /** The first half of reset_project(): the project's work ends and its claims are dropped. */
    method ClearProject(ghost g: Graph, project: Project)
      requires g == Snapshot() && TransfersReady(g)
      modifies this`activeTasks, this`persFileXfers, this`fileXfers, this`pxOf, this`fxOf
      modifies project`userFiles, project`projectFiles, results`gotServerAck, fileInfos`sticky
      ensures Snapshot() == Clear(g, project)
    {
      var tasks := EraseTasks(activeTasks, project);
      var pxs, fxs, toPx, toFx := StopTransfers(g, project, persFileXfers, fileXfers, pxOf, fxOf);
      DropClaims(now, projects, results, fileInfos, project, g);
      InstallCleared(g, project, tasks, pxs, fxs, toPx, toFx);
    }

    method SetApps(vs: seq<AppVersion>, left: seq<App>)
      modifies this`appVersions, this`apps
      ensures appVersions == vs && apps == left
      ensures unchanged(`now, `projects, `fileInfos, `activeTasks, `results)
      ensures unchanged(`workunits, `persFileXfers, `fileXfers, `pxOf, `fxOf)
    {
      appVersions, apps := vs, left;
    }

    lemma {:induction false} SnapshotIsDropped(g: Graph, p: Project)
      requires projects == g.projects && fileInfos == g.files && workunits == g.workunits && results == g.results
      requires activeTasks == g.tasks && persFileXfers == g.pxs
      requires fileXfers == g.fxs && pxOf == g.pxOf && fxOf == g.fxOf
      requires appVersions == DropApps(g, p).appVersions && apps == DropApps(g, p).apps
      requires AckedOf(g.results) == g.acked && NamedOf(g.projects) == g.named && StickyOf(now, g.files) == g.sticky
      ensures Snapshot() == DropApps(g, p)
    {
    }

    method InstallDropped(ghost g: Graph, ghost p: Project, vs: seq<AppVersion>, left: seq<App>)
      requires projects == g.projects && fileInfos == g.files && workunits == g.workunits && results == g.results
      requires activeTasks == g.tasks && persFileXfers == g.pxs
      requires fileXfers == g.fxs && pxOf == g.pxOf && fxOf == g.fxOf
      requires vs == DropApps(g, p).appVersions && left == DropApps(g, p).apps
      requires AckedOf(g.results) == g.acked && NamedOf(g.projects) == g.named && StickyOf(now, g.files) == g.sticky
      modifies this`appVersions, this`apps
      ensures Snapshot() == DropApps(g, p)
      ensures unchanged(`fileInfos, `workunits, `results, `persFileXfers)
    {
      SetApps(vs, left);
      SnapshotIsDropped(g, p);
    }

    /** The project's versions and applications leave their tables. */
    method DropVersionsAndApps(ghost g: Graph, project: Project)
      requires g == Snapshot()
      modifies this`appVersions, this`apps
      ensures Snapshot() == DropApps(g, project)
      ensures unchanged(`fileInfos, `workunits, `results, `persFileXfers)
    {
      var vs := EraseVersions(appVersions, project);
      var left := EraseApps(apps, project);
      InstallDropped(g, project, vs, left);
    }

    method DropAndCollect(ghost g0: Graph, ghost g: Graph, project: Project)
      requires g == Snapshot() && Sound(DropApps(g, project))
      requires Within(workunits, g0.workunits) && Within(appVersions, g0.appVersions) && Within(fileInfos, g0.files)
      modifies this`apps
      modifies this`results, this`workunits, this`appVersions, this`fileInfos, this`persFileXfers, this`fileXfers
      modifies this`pxOf, this`fxOf, g0.workunits`refCnt, g0.appVersions`refCnt
      modifies g0.files`refCnt, g0.files`sticky, g0.files`stickyExpireTime
      ensures Snapshot() == Collect(DropApps(g, project))
    {
      FilterWithin(g.appVersions, OtherVersion(project), g0.appVersions);
      DropVersionsAndApps(g, project);
      var _ := GarbageCollectAlways();
    }

    method ClearAndCollect(ghost g: Graph, project: Project)
      requires g == Snapshot() && TransfersReady(g) && Sound(Clear(g, project))
      modifies this`activeTasks
      modifies this`results, this`workunits, this`appVersions, this`fileInfos, this`persFileXfers, this`fileXfers
      modifies this`pxOf, this`fxOf, workunits`refCnt, appVersions`refCnt, results`gotServerAck
      modifies fileInfos`refCnt, fileInfos`sticky, fileInfos`stickyExpireTime, project`userFiles, project`projectFiles
      ensures Snapshot() == Collect(Clear(g, project))
      ensures Within(workunits, g.workunits) && Within(appVersions, g.appVersions) && Within(fileInfos, g.files)
    {
      ClearProject(g, project);
      var _ := GarbageCollectAlways();
    }

    method ResetProject(project: Project, detaching: bool)
      requires Sound(Snapshot())
      modifies this`apps, this`activeTasks
      modifies this`results, this`workunits, this`appVersions, this`fileInfos, this`persFileXfers, this`fileXfers
      modifies this`pxOf, this`fxOf, workunits`refCnt, appVersions`refCnt, results`gotServerAck
      modifies fileInfos`refCnt, fileInfos`sticky, fileInfos`stickyExpireTime, project`userFiles, project`projectFiles
      ensures Snapshot() == Reset(old(Snapshot()), project, !project.anonymousPlatform || detaching)
    {
      ghost var g := Snapshot();
      ghost var h := Collect(Clear(g, project));
      assert TransfersReady(g) && Sound(Clear(g, project)) && Sound(DropApps(h, project)) by {
        SoundIsTransfersReady(g);
        ClearIsSound(g, project);
        CollectIsSound(Clear(g, project));
        ClearedWork(g, project);
        DropAppsIsSound(h, project);
      }
      ClearAndCollect(g, project);
      if !project.anonymousPlatform || detaching {
        DropAndCollect(g, h, project);
      }
    }

    method SetProjects(files: seq<FileInfo>, ps: seq<Project>)
      modifies this`fileInfos, this`projects
      ensures fileInfos == files && projects == ps
      ensures unchanged(`now, `apps, `activeTasks, `results, `workunits)
      ensures unchanged(`appVersions, `persFileXfers, `fileXfers, `pxOf, `fxOf)
    {
      fileInfos, projects := files, ps;
    }

    lemma {:induction false} SnapshotIsForgotten(g: Graph, p: Project)
      requires apps == g.apps && appVersions == g.appVersions && workunits == g.workunits && results == g.results
      requires activeTasks == g.tasks && persFileXfers == g.pxs
      requires fileXfers == g.fxs && pxOf == g.pxOf && fxOf == g.fxOf
      requires fileInfos == Filter(g.files, OtherFile(p)) && projects == Filter(g.projects, OtherProject(p))
      requires AckedOf(g.results) == g.acked && NamedOf(g.projects) == g.named && StickyOf(now, g.files) == g.sticky
      requires forall n :: n in g.named ==> n.0 != p
      requires forall f :: f in g.sticky ==> f.project != p
      ensures Snapshot() == DropProject(g.(files := Filter(g.files, OtherFile(p))), p)
    {
      assert Snapshot().named == g.named;
      assert Snapshot().sticky == g.sticky;
    }

    /** The project's files leave their table and the project leaves the list. */
    method ForgetProject(ghost g: Graph, project: Project)
      requires g == Snapshot() && Distinct(projects)
      requires forall n :: n in g.named ==> n.0 != project
      requires forall f :: f in g.sticky ==> f.project != project
      modifies this`fileInfos, this`projects
      ensures Snapshot() == DropProject(g.(files := Filter(g.files, OtherFile(project))), project)
    {
      var files := EraseFiles(fileInfos, project);
      var ps := EraseProject(projects, project);
      SetProjects(files, ps);
      SnapshotIsForgotten(g, project);
    }

    method DetachProject(project: Project)
      requires Sound(Snapshot())
      modifies this`apps, this`activeTasks, this`projects
      modifies this`results, this`workunits, this`appVersions, this`fileInfos, this`persFileXfers, this`fileXfers
      modifies this`pxOf, this`fxOf, workunits`refCnt, appVersions`refCnt, results`gotServerAck
      modifies fileInfos`refCnt, fileInfos`sticky, fileInfos`stickyExpireTime, project`userFiles, project`projectFiles
      ensures Snapshot() == Detach(old(Snapshot()), project)
      ensures Sound(Snapshot()) && Forgotten(Snapshot(), project)
    {
      ghost var g := Snapshot();
      ghost var h := Reset(g, project, true);
      assert Sound(h) && NothingOf(h, project) by { ResetIsStrip(g, project); }
      ResetProject(project, true);
      ForgetProject(h, project);
      ghost var d := Detach(g, project);
      assert Snapshot() == d;
      assert Sound(d) && Forgotten(d, project) by { DetachIsSafe(g, project); }
    }

    method DetachWithin(ghost g0: Graph, project: Project)
      requires Sound(Snapshot()) && results == g0.results
      requires Within(workunits, g0.workunits) && Within(appVersions, g0.appVersions) && Within(fileInfos, g0.files)
      modifies this`apps, this`activeTasks, this`projects
      modifies this`results, this`workunits, this`appVersions, this`fileInfos, this`persFileXfers, this`fileXfers
      modifies this`pxOf, this`fxOf, g0.workunits`refCnt, g0.appVersions`refCnt, g0.results`gotServerAck
      modifies g0.files`refCnt, g0.files`sticky, g0.files`stickyExpireTime, project`userFiles, project`projectFiles
      ensures Snapshot() == Detach(old(Snapshot()), project)
    {
      DetachProject(project);
    }

    /** One more project is detached; gone0 are those detached before, since the graph was g0. */
    method DetachNext(ghost g0: Graph, ghost gone0: seq<Project>, project: Project) returns (ghost gone: seq<Project>)
      requires Detachable(g0, gone0) && Snapshot() == LeaveAll(g0, gone0) && results == g0.results
      requires project in projects && Within(projects, g0.projects) && Finished(results, project)
      modifies this`apps, this`activeTasks, this`projects
      modifies this`results, this`workunits, this`appVersions, this`fileInfos, this`persFileXfers, this`fileXfers
      modifies this`pxOf, this`fxOf, g0.workunits`refCnt, g0.appVersions`refCnt, g0.results`gotServerAck
      modifies g0.files`refCnt, g0.files`sticky, g0.files`stickyExpireTime, project`userFiles, project`projectFiles
      ensures gone == gone0 + [project] && Detachable(g0, gone) && Snapshot() == LeaveAll(g0, gone)
      ensures results == g0.results && Within(projects, g0.projects) && |projects| < |old(projects)|
    {
      ghost var g := Snapshot();
      gone := gone0 + [project];
      DetachStep(g0, gone0, g, project, gone, Detach(g, project));
      DetachWithin(g0, project);
    }

    /** A project of the list is detached if it is marked for that and has no result left. */
    method DetachIfDone(ghost g0: Graph, ghost done: set<Project>, ghost gone0: seq<Project>, i: nat, found0: bool)
      returns (found: bool, ghost gone: seq<Project>)
      requires Detachable(g0, gone0) && Snapshot() == LeaveAll(g0, gone0) && results == g0.results
      requires i < |projects| && Within(projects, g0.projects)
      requires !found0 ==> forall k :: 0 <= k < i ==> projects[k] !in done
      requires forall p {:trigger Finished(g0.results, p)} :: p in g0.projects ==>
        (p in done <==> Finished(g0.results, p))
      modifies this`apps, this`activeTasks, this`projects
      modifies this`results, this`workunits, this`appVersions, this`fileInfos, this`persFileXfers, this`fileXfers
      modifies this`pxOf, this`fxOf, g0.workunits`refCnt, g0.appVersions`refCnt, g0.results`gotServerAck
      modifies g0.files`refCnt, g0.files`sticky, g0.files`stickyExpireTime
      modifies g0.projects`userFiles, g0.projects`projectFiles
      ensures Detachable(g0, gone) && Snapshot() == LeaveAll(g0, gone)
      ensures results == g0.results && Within(projects, g0.projects)
      ensures |projects| <= |old(projects)| && (found <==> found0 || |projects| < |old(projects)|)
      ensures !found ==> i < |projects| && forall k :: 0 <= k <= i ==> projects[k] !in done
    {
      found, gone := found0, gone0;
      if Finished(results, projects[i]) {
        gone := DetachNext(g0, gone0, projects[i]);
        found := true;
      }
    }

    /** One pass over the list of projects, which erases while it counts on; done are the finished
        ones. */
    method DetachPass(ghost g0: Graph, ghost done: set<Project>, ghost gone0: seq<Project>)
      returns (found: bool, ghost gone: seq<Project>)
      requires Detachable(g0, gone0) && Snapshot() == LeaveAll(g0, gone0)
      requires results == g0.results && Within(projects, g0.projects)
      requires forall p {:trigger Finished(g0.results, p)} :: p in g0.projects ==>
        (p in done <==> Finished(g0.results, p))
      modifies this`apps, this`activeTasks, this`projects
      modifies this`results, this`workunits, this`appVersions, this`fileInfos, this`persFileXfers, this`fileXfers
      modifies this`pxOf, this`fxOf, g0.workunits`refCnt, g0.appVersions`refCnt, g0.results`gotServerAck
      modifies g0.files`refCnt, g0.files`sticky, g0.files`stickyExpireTime
      modifies g0.projects`userFiles, g0.projects`projectFiles
      ensures Detachable(g0, gone) && Snapshot() == LeaveAll(g0, gone)
      ensures results == g0.results && Within(projects, g0.projects)
      ensures |projects| <= |old(projects)| && (found <==> |projects| < |old(projects)|)
      ensures !found ==> forall k :: 0 <= k < |projects| ==> projects[k] !in done
    {
      found, gone := false, gone0;
      var i := 0;
      while i < |projects|
        invariant Detachable(g0, gone) && Snapshot() == LeaveAll(g0, gone)
        invariant results == g0.results && Within(projects, g0.projects)
        invariant |projects| <= |old(projects)| && (found <==> |projects| < |old(projects)|)
        invariant !found ==> i <= |projects| && forall k :: 0 <= k < i ==> projects[k] !in done
        decreases |projects| - i
      {
        found, gone := DetachIfDone(g0, done, gone, i, found);
        i := i + 1;
      }
    }

    /** The detach loop of garbage_collect(): passes over the list until one finds nothing. It ends
        because every pass that finds something leaves fewer projects. */
    method DetachFinished(ghost g0: Graph, ghost done: set<Project>) returns (action: bool, ghost gone: seq<Project>)
      requires Detachable(g0, []) && Snapshot() == g0
      requires forall p {:trigger Finished(g0.results, p)} :: p in g0.projects ==>
        (p in done <==> Finished(g0.results, p))
      modifies this`apps, this`activeTasks, this`projects
      modifies this`results, this`workunits, this`appVersions, this`fileInfos, this`persFileXfers, this`fileXfers
      modifies this`pxOf, this`fxOf, g0.workunits`refCnt, g0.appVersions`refCnt, g0.results`gotServerAck
      modifies g0.files`refCnt, g0.files`sticky, g0.files`stickyExpireTime
      modifies g0.projects`userFiles, g0.projects`projectFiles
      ensures Detachable(g0, gone) && Snapshot() == LeaveAll(g0, gone)
      ensures forall k :: 0 <= k < |projects| ==> projects[k] !in done
      ensures Within(projects, g0.projects) && (action <==> |projects| < |g0.projects|)
    {
      action, gone := false, [];
      while true
        invariant Detachable(g0, gone) && Snapshot() == LeaveAll(g0, gone)
        invariant results == g0.results && Within(projects, g0.projects)
        invariant |projects| <= |g0.projects| && (action <==> |projects| < |g0.projects|)
        decreases |projects|
      {
        var found;
        found, gone := DetachPass(g0, done, gone);
        if !found {
          break;
        }
        action := true;
      }
    }

    method DetachExactly(ghost g: Graph) returns (action: bool, ghost gone: seq<Project>)
      requires Detachable(g, []) && Snapshot() == g
      modifies this`apps, this`activeTasks, this`projects
      modifies this`results, this`workunits, this`appVersions, this`fileInfos, this`persFileXfers, this`fileXfers
      modifies this`pxOf, this`fxOf, g.workunits`refCnt, g.appVersions`refCnt, g.results`gotServerAck
      modifies g.files`refCnt, g.files`sticky, g.files`stickyExpireTime, g.projects`userFiles, g.projects`projectFiles
      ensures Detachable(g, gone) && Snapshot() == LeaveAll(g, gone)
      ensures action <==> |projects| < |g.projects|
      ensures forall p {:trigger p in gone} :: p in g.projects ==> (p in gone <==> p !in projects)
      ensures forall p {:trigger p in projects} :: p in g.projects ==>
        (p in projects <==> !p.detachWhenDone || p.attachedViaAcctMgr || exists r :: r in g.results && r.project == p)
    {
      ghost var done := set p | p in g.projects && Finished(g.results, p);
      action, gone := DetachFinished(g, done);
      forall p | p in g.projects
        ensures p in gone <==> p !in projects
        ensures p in projects <==>
          !p.detachWhenDone || p.attachedViaAcctMgr || exists r :: r in g.results && r.project == p
      {
        GoneIff(g, gone, p);
      }
    }

    /** garbage_collect(): due tells that the period has passed, aborted what
        abort_unstarted_late_jobs() returned; gone are the projects that were detached. */
    method GarbageCollect(due: bool, aborted: bool) returns (action: bool, ghost gone: seq<Project>)
      requires Sound(Snapshot())
      modifies this`apps, this`activeTasks, this`projects
      modifies this`results, this`workunits, this`appVersions, this`fileInfos, this`persFileXfers, this`fileXfers
      modifies this`pxOf, this`fxOf, workunits`refCnt, appVersions`refCnt, results`gotServerAck
      modifies fileInfos`refCnt, fileInfos`sticky, fileInfos`stickyExpireTime, projects`userFiles, projects`projectFiles
      ensures !due ==> !action && Snapshot() == old(Snapshot())
      ensures due && aborted ==> action && Snapshot() == old(Snapshot())
      ensures due && !aborted && Collect(old(Snapshot())) != old(Snapshot()) ==>
        action && Snapshot() == Collect(old(Snapshot()))
      ensures due && !aborted && Collect(old(Snapshot())) == old(Snapshot()) ==>
        Detachable(old(Snapshot()), gone) && Snapshot() == LeaveAll(old(Snapshot()), gone) &&
        (action <==> |projects| < |old(projects)|) &&
        (forall p {:trigger p in gone} :: p in old(projects) ==> (p in gone <==> p !in projects)) &&
        // exactly those stay listed that are not marked, or are left to an account manager, or have a result
        forall p {:trigger p in projects} :: p in old(projects) ==>
          (p in projects <==>
            !p.detachWhenDone || p.attachedViaAcctMgr || exists r :: r in old(results) && r.project == p)
    {
      action, gone := false, [];
      if due {
        action := aborted;
        if !action {
          ghost var g := Snapshot();
          action := GarbageCollectAlways();
          if !action {
            action, gone := DetachExactly(g);
          }
        }
      }
    }
  }
}
