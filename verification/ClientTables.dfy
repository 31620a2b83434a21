/** What collecting, resetting and detaching leave in the client's tables, told on the fields of the
    objects alone (client/client_state.cpp:1462-1775, 1989-2197). */
module ClientTables {
  import opened ClientGraph
  import opened Sequences

  /* ---------- garbage_collect_always() ---------- */

  /** A result stays unless it is acknowledged and no task runs it; a workunit stays while a remaining
      result is of it. */
  lemma {:induction false} CollectedWork(g: Graph, c: Graph)
    requires c == Collect(g)
    ensures forall r :: r in c.results <==>
      r in g.results && (r !in g.acked || exists t :: t in g.tasks && t.result == r)
    ensures forall u :: u in c.workunits <==> u in g.workunits && exists r :: r in c.results && r.wup == u
    ensures c.projects == g.projects && c.apps == g.apps && c.tasks == g.tasks && c.named == g.named
    ensures c.sticky == g.sticky
  {
    CollectWithin(g, c);
    CollectIsExact(g);
  }

  /** A version that goes leaves a later one of its application, platform and plan class behind, and no
      remaining result uses it. */
  lemma {:induction false} ErasedVersion(g: Graph, c: Graph, v: AppVersion)
    requires c == Collect(g) && v in g.appVersions && v !in c.appVersions
    ensures forall r :: r in c.results ==> r.avp != v
    ensures exists w :: w in c.appVersions && w.versionNum > v.versionNum &&
                        (w.app, w.platform, w.planClass) == (v.app, v.platform, v.planClass)
  {
    VersionsMaximal(g, v);
    var w := Latest(g.appVersions, v);
    VersionsMaximal(g, w);
  }

  /** A version that stays although no remaining result uses it was and is the latest of its application,
      platform and plan class. */
  lemma {:induction false} UnusedVersion(g: Graph, c: Graph, v: AppVersion, w: AppVersion)
    requires c == Collect(g) && v in c.appVersions && forall r :: r in c.results ==> r.avp != v
    requires w in g.appVersions && (w.app, w.platform, w.planClass) == (v.app, v.platform, v.planClass)
    ensures v in g.appVersions && w.versionNum <= v.versionNum
  {
    CollectWithin(g, c);
    VersionsMaximal(g, v);
    assert !Supersedes(w, v);
  }

  lemma {:induction false} CollectedVersions(g: Graph, c: Graph)
    requires c == Collect(g)
    ensures forall v :: v in g.appVersions && v !in c.appVersions ==>
              (forall r :: r in c.results ==> r.avp != v) &&
              exists w :: w in c.appVersions && w.versionNum > v.versionNum &&
                          (w.app, w.platform, w.planClass) == (v.app, v.platform, v.planClass)
    ensures forall v :: v in c.appVersions && (forall r :: r in c.results ==> r.avp != v) ==>
      forall w :: w in g.appVersions && (w.app, w.platform, w.planClass) == (v.app, v.platform, v.planClass) ==>
        w.versionNum <= v.versionNum
  {
    forall v | v in g.appVersions && v !in c.appVersions
      ensures forall r :: r in c.results ==> r.avp != v
      ensures exists w :: w in c.appVersions && w.versionNum > v.versionNum &&
                          (w.app, w.platform, w.planClass) == (v.app, v.platform, v.planClass)
    {
      ErasedVersion(g, c, v);
    }
    forall v, w | v in c.appVersions && (forall r :: r in c.results ==> r.avp != v) && w in g.appVersions &&
                  (w.app, w.platform, w.planClass) == (v.app, v.platform, v.planClass)
      ensures w.versionNum <= v.versionNum
    {
      UnusedVersion(g, c, v, w);
    }
  }

  /** Every version leaves one of its application, platform and plan class that is not earlier. */
  lemma {:induction false} GroupSurvives(g: Graph, c: Graph, v: AppVersion)
    requires c == Collect(g) && v in g.appVersions
    ensures exists w :: w in c.appVersions && w.versionNum >= v.versionNum &&
                        (w.app, w.platform, w.planClass) == (v.app, v.platform, v.planClass)
  {
    if v !in c.appVersions { ErasedVersion(g, c, v); }
  }

  /** A file stays while a project names it, it is sticky, or a remaining result, workunit or version refers
      to it. */
  lemma {:induction false} CollectedFiles(g: Graph, c: Graph)
    requires c == Collect(g)
    ensures forall f :: f in c.files <==>
      f in g.files &&
      ((exists n :: n in g.named && n.1 == f) || f in g.sticky || (exists r :: r in c.results && f in r.outputFiles) ||
       (exists u :: u in c.workunits && f in u.inputFiles) || (exists v :: v in c.appVersions && f in v.appFiles))
  {
    CollectWithin(g, c);
    CollectIsExact(g);
  }

  /** Transfers stay and go with their files. */
  lemma {:induction false} CollectedTransfers(g: Graph, c: Graph)
    requires CheckTransfers(g) && TransfersLinked(g) && c == Collect(g)
    ensures forall q :: q in c.pxs <==> q in g.pxs && q.fip in c.files
    ensures forall x :: x in c.fxs <==> x in g.fxs && x.fip in c.files
    ensures forall f :: f in c.pxOf <==> f in g.pxOf && f in c.files
    ensures forall q :: q in c.fxOf <==> q in g.fxOf && q.fip in c.files
    ensures forall f :: f in c.pxOf ==> c.pxOf[f] == g.pxOf[f]
    ensures forall q :: q in c.fxOf ==> c.fxOf[q] == g.fxOf[q]
  {
  }

  /** After a collection nothing refers to anything that is gone. */
  lemma {:induction false} NothingDangles(g: Graph, c: Graph)
    requires Sound(g) && c == Collect(g)
    ensures forall t :: t in c.tasks ==> t.result in c.results && t.wup in c.workunits && t.appVersion in c.appVersions
    ensures forall r :: r in c.results ==> r.wup in c.workunits && r.avp in c.appVersions && r.app in c.apps
    ensures forall r, f :: r in c.results && f in r.outputFiles ==> f in c.files
    ensures forall u, f :: u in c.workunits && f in u.inputFiles ==> f in c.files
    ensures forall v, f :: v in c.appVersions && f in v.appFiles ==> f in c.files
    ensures forall q :: q in c.pxs ==> q.fip in c.files && (q in c.fxOf ==> c.fxOf[q] in c.fxs)
    ensures forall x :: x in c.fxs ==> x.fip in c.files
    ensures forall f :: f in c.pxOf ==> c.pxOf[f] in c.pxs
  {
    assert Sound(c) by { CollectIsSound(g); }
    SoundTables(c);
  }

  lemma {:induction false} SoundTables(c: Graph)
    requires Sound(c)
    ensures forall t :: t in c.tasks ==> t.result in c.results && t.wup in c.workunits && t.appVersion in c.appVersions
    ensures forall r :: r in c.results ==> r.wup in c.workunits && r.avp in c.appVersions && r.app in c.apps
    ensures forall r, f :: r in c.results && f in r.outputFiles ==> f in c.files
    ensures forall u, f :: u in c.workunits && f in u.inputFiles ==> f in c.files
    ensures forall v, f :: v in c.appVersions && f in v.appFiles ==> f in c.files
    ensures forall q :: q in c.pxs ==> q.fip in c.files && (q in c.fxOf ==> c.fxOf[q] in c.fxs)
    ensures forall x :: x in c.fxs ==> x.fip in c.files
    ensures forall f :: f in c.pxOf ==> c.pxOf[f] in c.pxs
  {
  }

  /* ---------- reset_project() and detach_project() ---------- */

  /** After a reset the project has nothing left but its entry, and the other projects have all that an
      ordinary collection leaves them. */
  lemma {:induction false} ResetTables(g: Graph, p: Project, c: Graph, h: Graph)
    requires Sound(g) && c == Collect(g) && h == Reset(g, p, true)
    ensures forall r :: r in h.results <==> r in c.results && r.project != p
    ensures forall u :: u in h.workunits <==> u in c.workunits && u.project != p
    ensures forall v :: v in h.appVersions <==> v in c.appVersions && v.project != p
    ensures forall a :: a in h.apps <==> a in g.apps && a.project != p
    ensures forall t :: t in h.tasks <==> t in g.tasks && t.result.project != p
    ensures forall f :: f in h.files <==> f in c.files && f.project != p
    ensures forall q :: q in h.pxs <==> q in c.pxs && q.fip.project != p
    ensures forall x :: x in h.fxs <==> x in c.fxs && x.fip.project != p
    ensures h.projects == g.projects
  {
    ResetIsStrip(g, p);
    StripTables(c, p, h);
  }

  lemma {:induction false} StripTables(g: Graph, p: Project, s: Graph)
    requires s == Strip(g, p)
    ensures forall r :: r in s.results <==> r in g.results && r.project != p
    ensures forall u :: u in s.workunits <==> u in g.workunits && u.project != p
    ensures forall v :: v in s.appVersions <==> v in g.appVersions && v.project != p
    ensures forall a :: a in s.apps <==> a in g.apps && a.project != p
    ensures forall t :: t in s.tasks <==> t in g.tasks && t.result.project != p
    ensures forall f :: f in s.files <==> f in g.files && f.project != p
    ensures forall q :: q in s.pxs <==> q in g.pxs && q.fip.project != p
    ensures forall x :: x in s.fxs <==> x in g.fxs && x.fip.project != p
    ensures s.projects == g.projects
  {
  }

  /** On an anonymous platform a reset keeps the project's latest versions, used or not, and the files of
      those; the project has nothing else left. */
  lemma {:induction false} AnonymousReset(g: Graph, p: Project, h: Graph, v: AppVersion, f: FileInfo)
    requires Sound(g) && h == Reset(g, p, false)
    requires v in g.appVersions && v.project == p && f in g.files && f.project == p
    ensures v in h.appVersions <==>
      forall w :: w in g.appVersions && (w.app, w.platform, w.planClass) == (v.app, v.platform, v.planClass) ==>
        w.versionNum <= v.versionNum
    ensures f in h.files <==> exists w :: w in h.appVersions && w.project == p && f in w.appFiles
    ensures (forall t :: t in h.tasks ==> t.result.project != p) && forall r :: r in h.results ==> r.project != p
    ensures (forall u :: u in h.workunits ==> u.project != p) && forall q :: q in h.pxs ==> q.fip.project != p
    ensures forall x :: x in h.fxs ==> x.fip.project != p
  {
    assert NoWork(h, p) && (v in h.appVersions <==> !Superseded(g.appVersions, v)) &&
           (f in h.files <==> exists w :: w in h.appVersions && w.project == p && f in w.appFiles) by {
      ResetKeepsVersions(g, p, v, f);
    }
    LatestIff(g.appVersions, v);
    NoWorkTables(h, p);
  }

  lemma {:induction false} LatestIff(vs: seq<AppVersion>, v: AppVersion)
    ensures Superseded(vs, v) <==>
      exists w :: w in vs && w.versionNum > v.versionNum &&
                  (w.app, w.platform, w.planClass) == (v.app, v.platform, v.planClass)
  {
    if Superseded(vs, v) { var w :| w in vs && Supersedes(w, v); }
  }

  lemma {:induction false} NoWorkTables(h: Graph, p: Project)
    requires NoWork(h, p)
    ensures (forall t :: t in h.tasks ==> t.result.project != p) && forall r :: r in h.results ==> r.project != p
    ensures (forall u :: u in h.workunits ==> u.project != p) && forall q :: q in h.pxs ==> q.fip.project != p
    ensures forall x :: x in h.fxs ==> x.fip.project != p
  {
  }

  /** A detach does the same as a reset that drops the applications too, and takes the project off the list. */
  lemma {:induction false} DetachTables(g: Graph, p: Project, d: Graph)
    requires Sound(g) && d == Detach(g, p)
    ensures d == Reset(g, p, true).(projects := d.projects)
    ensures forall q :: q in d.projects <==> q in g.projects && q != p
  {
    var h := Reset(g, p, true);
    assert forall f :: f in h.files ==> f.project != p by { ResetIsStrip(g, p); }
    FilterAll(h.files, OtherFile(p));
  }

  /* ---------- the detach loop of garbage_collect() ---------- */

  /** Leaving projects takes away exactly what belongs to them: applications, versions and work ... */
  lemma {:induction false} LeaveAllTables(g: Graph, gone: seq<Project>, d: Graph)
    requires d == LeaveAll(g, gone)
    ensures forall r :: r in d.results <==> r in g.results && r.project !in gone
    ensures forall u :: u in d.workunits <==> u in g.workunits && u.project !in gone
    ensures forall v :: v in d.appVersions <==> v in g.appVersions && v.project !in gone
    ensures forall a :: a in d.apps <==> a in g.apps && a.project !in gone
    ensures forall t :: t in d.tasks <==> t in g.tasks && t.result.project !in gone
    decreases |gone|
  {
    if gone != [] {
      var n := |gone| - 1;
      var h := LeaveAll(g, gone[..n]);
      LeaveAllTables(g, gone[..n], h);
      LeaveTables(h, gone[n], d);
      GoneSnoc(gone);
    }
  }

  /** ... and files, transfers and entries in the list. */
  lemma {:induction false} LeaveAllFiles(g: Graph, gone: seq<Project>, d: Graph)
    requires d == LeaveAll(g, gone)
    ensures forall f :: f in d.files <==> f in g.files && f.project !in gone
    ensures forall q :: q in d.pxs <==> q in g.pxs && q.fip.project !in gone
    ensures forall x :: x in d.fxs <==> x in g.fxs && x.fip.project !in gone
    ensures forall q :: q in d.projects <==> q in g.projects && q !in gone
    decreases |gone|
  {
    if gone != [] {
      var n := |gone| - 1;
      var h := LeaveAll(g, gone[..n]);
      LeaveAllFiles(g, gone[..n], h);
      LeaveFiles(h, gone[n], d);
      GoneSnoc(gone);
    }
  }

  lemma {:induction false} GoneSnoc(gone: seq<Project>)
    requires gone != []
    ensures forall p :: p in gone <==> p in gone[..|gone| - 1] || p == gone[|gone| - 1]
  {
    assert gone == gone[..|gone| - 1] + [gone[|gone| - 1]];
  }

  lemma {:induction false} LeaveTables(g: Graph, p: Project, d: Graph)
    requires d == Leave(g, p)
    ensures forall r :: r in d.results <==> r in g.results && r.project != p
    ensures forall u :: u in d.workunits <==> u in g.workunits && u.project != p
    ensures forall v :: v in d.appVersions <==> v in g.appVersions && v.project != p
    ensures forall a :: a in d.apps <==> a in g.apps && a.project != p
    ensures forall t :: t in d.tasks <==> t in g.tasks && t.result.project != p
  {
    StripTables(g, p, Strip(g, p));
  }

  lemma {:induction false} LeaveFiles(g: Graph, p: Project, d: Graph)
    requires d == Leave(g, p)
    ensures forall f :: f in d.files <==> f in g.files && f.project != p
    ensures forall q :: q in d.pxs <==> q in g.pxs && q.fip.project != p
    ensures forall x :: x in d.fxs <==> x in g.fxs && x.fip.project != p
    ensures forall q :: q in d.projects <==> q in g.projects && q != p
  {
    StripTables(g, p, Strip(g, p));
  }

  /** Of the projects that were listed when the loop began, exactly those are gone that are marked to be
      detached when done, are not left to an account manager, and had no result. */
  lemma {:induction false} GoneIff(g: Graph, gone: seq<Project>, p: Project)
    requires Detachable(g, gone) && p in g.projects
    requires Finished(g.results, p) ==> p !in LeaveAll(g, gone).projects
    ensures p in gone <==>
      p.detachWhenDone && !p.attachedViaAcctMgr && forall r :: r in g.results ==> r.project != p
    ensures p in LeaveAll(g, gone).projects <==>
      !p.detachWhenDone || p.attachedViaAcctMgr || exists r :: r in g.results && r.project == p
  {
    LoopIsExact(g, gone, p);
    NoResultsForProject(g.results, p);
  }
}
