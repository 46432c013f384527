/**
 * A bundle nested in two siblings of one parent. The model runs a rebuild's entries one
 * after the other, so once the first sibling has rebuilt the shared bundle, the second
 * sibling's check finds it up to date and the second sibling is not rebuilt.
 */
module SharedNesting {
  import opened Wrappers
  import opened Paths
  import opened BundleRegistry
  import opened FileSystem
  import opened ChangeDetector
  import opened Persister
  import opened Builder

  /** `n1.css` lists the leaf `a.css`, `n2.css` lists `n1.css`, and `p.css` lists both. */
  function Shared(): Registry
  {
    Registry(map[
      "n1.css" := Bundle("n1.css", Join("s", "n1.css"), [Entry("a.css", Join("s", "a.css"), false)]),
      "n2.css" := Bundle("n2.css", Join("s", "n2.css"), [Entry("n1.css", Join("s", "n1.css"), false)]),
      "p.css" := Bundle("p.css", Join("s", "p.css"),
                        [Entry("n1.css", Join("s", "n1.css"), false), Entry("n2.css", Join("s", "n2.css"), false)])
    ], "s")
  }

  /** Ranks that witness the nesting is acyclic. */
  function SharedRank(): (rank: map<string, nat>)
    ensures RankedBy(Shared(), rank)
  {
    map["n1.css" := 0, "n2.css" := 1, "p.css" := 2]
  }

  /** Every bundle built once with `a.css` at time 1, and `a.css` edited since (time 2). */
  function Edited(): World
  {
    World(map[Join("s", "a.css") := File("NEW", 2),
              Join("s", "n1.css") := File("OLD1", 1),
              Join("s", "n2.css") := File("OLD2", 1),
              Join("s", "p.css") := File("OLDP", 1)],
          map[Slot("n1.css", 0) := 1], map[], [])
  }

  lemma PathsDistinct()
    ensures Join("s", "a.css") != Join("s", "n1.css") && Join("s", "a.css") != Join("s", "n2.css")
    ensures Join("s", "a.css") != Join("s", "p.css") && Join("s", "n1.css") != Join("s", "n2.css")
    ensures Join("s", "n1.css") != Join("s", "p.css") && Join("s", "n2.css") != Join("s", "p.css")
  {
    assert Join("s", "a.css")[2] == 'a' && Join("s", "p.css")[2] == 'p';
    assert Join("s", "n1.css")[2] == 'n' && Join("s", "n1.css")[3] == '1';
    assert Join("s", "n2.css")[2] == 'n' && Join("s", "n2.css")[3] == '2';
  }

  lemma CssNames()
    ensures Extname("n1.css") == ".css" && Extname("p.css") == ".css"
  {
    assert "n1.css" == "n1" + ".css";
    ExtnameOf("n1", ".css");
    assert "p.css" == "p" + ".css";
    ExtnameOf("p", ".css");
  }

  /** The check of `n1.css` after the edit finds `a.css` changed and captures its time. */
  lemma EditSeen(ttime: Markers)
    ensures CheckOutcome(Shared(), SharedRank(), "n1.css", Edited().disk, Edited().mtime, ttime)
        == Probe(Ok(true), ttime[Slot("n1.css", 0) := 2])
  {
    PathsDistinct();
    var e := Shared().bundles["n1.css"].files[0];
    assert e.name == "a.css" && e.name !in Shared().bundles;
    assert e.path in Edited().disk && Edited().disk[e.path].mtime == 2;
  }

  /** Once `n1.css` records time 2, its check finds nothing changed. */
  lemma RebuiltLooksFresh(disk: Disk, mtime: Markers, ttime: Markers)
    requires Join("s", "a.css") in disk && disk[Join("s", "a.css")].mtime == 2
    requires Slot("n1.css", 0) in mtime && mtime[Slot("n1.css", 0)] == 2
    ensures CheckOutcome(Shared(), SharedRank(), "n1.css", disk, mtime, ttime).changed == Ok(false)
  {
    assert CheckOutcome(Shared(), SharedRank(), "n1.css", disk, mtime, ttime)
        == CheckEntries(Shared(), SharedRank(), "n1.css", 1, disk, mtime, ttime[Slot("n1.css", 0) := 2]);
  }

  /** Nor does the check of `n2.css`, which only nests `n1.css`. */
  lemma SiblingLooksFresh(disk: Disk, mtime: Markers, ttime: Markers)
    requires Join("s", "a.css") in disk && disk[Join("s", "a.css")].mtime == 2
    requires Slot("n1.css", 0) in mtime && mtime[Slot("n1.css", 0)] == 2
    ensures CheckOutcome(Shared(), SharedRank(), "n2.css", disk, mtime, ttime).changed == Ok(false)
  {
    var sub := CheckOutcome(Shared(), SharedRank(), "n1.css", disk, mtime, ttime);
    RebuiltLooksFresh(disk, mtime, ttime);
    assert CheckOutcome(Shared(), SharedRank(), "n2.css", disk, mtime, ttime)
        == CheckEntries(Shared(), SharedRank(), "n2.css", 1, disk, mtime, sub.ttime);
  }

  /** Nor does the check of `p.css`. */
  lemma ParentLooksFresh(disk: Disk, mtime: Markers, ttime: Markers)
    requires Join("s", "a.css") in disk && disk[Join("s", "a.css")].mtime == 2
    requires Slot("n1.css", 0) in mtime && mtime[Slot("n1.css", 0)] == 2
    ensures CheckOutcome(Shared(), SharedRank(), "p.css", disk, mtime, ttime).changed == Ok(false)
  {
    var sub := CheckOutcome(Shared(), SharedRank(), "n1.css", disk, mtime, ttime);
    RebuiltLooksFresh(disk, mtime, ttime);
    var sub2 := CheckOutcome(Shared(), SharedRank(), "n2.css", disk, mtime, sub.ttime);
    SiblingLooksFresh(disk, mtime, sub.ttime);
    assert CheckOutcome(Shared(), SharedRank(), "p.css", disk, mtime, ttime)
        == CheckEntries(Shared(), SharedRank(), "p.css", 2, disk, mtime, sub2.ttime);
  }

  /** Collecting `n1.css` reads the new `a.css`. */
  lemma LeafCollected(env: Env, w: World)
    requires env.hooks == map[] && w.disk == Edited().disk
    ensures var g := Collect(Shared(), SharedRank(), env, "n1.css", 0, [], w);
      g.0 == Done(["NEW"]) && g.1 == w.(log := w.log + [ReadFile(Join("s", "a.css"))])
  {
    PathsDistinct();
    var reg, rank := Shared(), SharedRank();
    var st := Step(reg, rank, env, "n1.css", 0, w);
    assert st.0 == Done("NEW");
    assert |reg.bundles["n1.css"].files| == 1 && [] + ["NEW"] == ["NEW"];
    assert Collect(reg, rank, env, "n1.css", 0, [], w) == Collect(reg, rank, env, "n1.css", 1, ["NEW"], st.1);
  }

  /** Building `n1.css` after the edit rebuilds it from the new `a.css` and records time 2. */
  lemma SharedRebuilt(env: Env, ttime: Markers)
    requires env.hooks == map[]
    ensures var w := Edited().(ttime := ttime);
      var r := BuildOutcome(Shared(), SharedRank(), env, "n1.css", w);
      && r.0 == Rebuilt(["NEW"])
      && r.1.disk == w.disk[Join("s", "n1.css") := File(env.minify.css("NEW"), env.now)]
      && Slot("n1.css", 0) in r.1.mtime && r.1.mtime[Slot("n1.css", 0)] == 2
  {
    CssNames();
    var w := Edited().(ttime := ttime);
    EditSeen(ttime);
    var w1 := w.(ttime := ttime[Slot("n1.css", 0) := 2]);
    LeafCollected(env, w1);
    assert JoinWith(["NEW"], "\n") == "NEW";
  }

  /** Entry 0 of `p.css`: `n1.css` is rebuilt and its new output read back. */
  lemma FirstSiblingStep(env: Env, ttime: Markers)
    requires env.hooks == map[]
    ensures var st := Step(Shared(), SharedRank(), env, "p.css", 0, Edited().(ttime := ttime));
      && st.0 == Done(env.minify.css("NEW"))
      && st.1.disk == Edited().disk[Join("s", "n1.css") := File(env.minify.css("NEW"), env.now)]
      && Slot("n1.css", 0) in st.1.mtime && st.1.mtime[Slot("n1.css", 0)] == 2
  {
    SharedRebuilt(env, ttime);
  }

  /** Entry 1 of `p.css`: `n2.css` finds `n1.css` up to date, is skipped, and its old
      output is read back. */
  lemma SecondSiblingStep(env: Env, w: World)
    requires Join("s", "a.css") in w.disk && w.disk[Join("s", "a.css")].mtime == 2
    requires Slot("n1.css", 0) in w.mtime && w.mtime[Slot("n1.css", 0)] == 2
    requires Join("s", "n2.css") in w.disk && w.disk[Join("s", "n2.css")].content == "OLD2"
    ensures Step(Shared(), SharedRank(), env, "p.css", 1, w).0 == Done("OLD2")
  {
    SiblingLooksFresh(w.disk, w.mtime, w.ttime);
    assert BuildOutcome(Shared(), SharedRank(), env, "n2.css", w).0 == Skipped;
  }

  /** Collecting `p.css` from entry 1 on, `n1.css` already rebuilt, adds the old `n2.css`. */
  lemma SecondSiblingCollected(env: Env, c0: string, w: World)
    requires Join("s", "a.css") in w.disk && w.disk[Join("s", "a.css")].mtime == 2
    requires Slot("n1.css", 0) in w.mtime && w.mtime[Slot("n1.css", 0)] == 2
    requires Join("s", "n2.css") in w.disk && w.disk[Join("s", "n2.css")].content == "OLD2"
    ensures Collect(Shared(), SharedRank(), env, "p.css", 1, [c0], w).0 == Done([c0, "OLD2"])
  {
    var reg, rank := Shared(), SharedRank();
    SecondSiblingStep(env, w);
    var st1 := Step(reg, rank, env, "p.css", 1, w);
    assert |reg.bundles["p.css"].files| == 2 && [c0] + ["OLD2"] == [c0, "OLD2"];
    assert Collect(reg, rank, env, "p.css", 1, [c0], w) == Collect(reg, rank, env, "p.css", 2, [c0, "OLD2"], st1.1);
  }

  /** Collecting `p.css` after the edit gives the new `n1.css` and the old `n2.css`. */
  lemma SiblingsCollected(env: Env, ttime: Markers)
    requires env.hooks == map[]
    ensures Collect(Shared(), SharedRank(), env, "p.css", 0, [], Edited().(ttime := ttime)).0
         == Done([env.minify.css("NEW"), "OLD2"])
  {
    PathsDistinct();
    var reg, rank, w1 := Shared(), SharedRank(), Edited().(ttime := ttime);
    FirstSiblingStep(env, ttime);
    var st0 := Step(reg, rank, env, "p.css", 0, w1);
    var c0 := env.minify.css("NEW");
    SecondSiblingCollected(env, c0, st0.1);
    assert [] + [c0] == [c0];
    assert Collect(reg, rank, env, "p.css", 0, [], w1) == Collect(reg, rank, env, "p.css", 1, [c0], st0.1);
  }

  /**
   * Rebuilding `p.css` after the edit takes the new `n1.css` but the old `n2.css`: by
   * the time `n2.css` is checked, `n1.css` already records the edit, so `n2.css` is
   * skipped and its stale output is read back.
   */
  lemma SharedNestedGoesStale(env: Env)
    requires env.hooks == map[]
    ensures BuildOutcome(Shared(), SharedRank(), env, "p.css", Edited()).0 == Rebuilt([env.minify.css("NEW"), "OLD2"])
  {
    var reg, rank, w := Shared(), SharedRank(), Edited();
    EditSeen(map[]);
    var probe := CheckOutcome(reg, rank, "p.css", w.disk, w.mtime, w.ttime);
    assert probe.changed == Ok(true);
    SiblingsCollected(env, probe.ttime);
    var g := Collect(reg, rank, env, "p.css", 0, [], w.(ttime := probe.ttime));
    ParentSaved(env, g.0, g.1);
  }

  /** A successful collection of `p.css` is saved, the name ending in `.css`. */
  lemma ParentSaved(env: Env, g: Gather<seq<string>>, w: World)
    requires g.Done?
    ensures Finish(Shared(), env, "p.css", g, w).0 == Rebuilt(g.value)
  {
    CssNames();
  }

  /**
   * A request for `n1.css` after the edit rebuilds it; a later request for `p.css` then
   * finds every marker up to date and skips, leaving `p.css` with the old `n1.css`.
   */
  lemma ParentSkipsAfterNestedRequest(env: Env)
    requires env.hooks == map[]
    ensures var first := BuildOutcome(Shared(), SharedRank(), env, "n1.css", Edited());
      && first.0 == Rebuilt(["NEW"])
      && var second := BuildOutcome(Shared(), SharedRank(), env, "p.css", first.1);
      && second.0 == Skipped && second.1.disk == first.1.disk
      && second.1.disk[Join("s", "p.css")] == File("OLDP", 1)
  {
    var reg, rank := Shared(), SharedRank();
    PathsDistinct();
    SharedRebuilt(env, map[]);
    assert Edited().(ttime := map[]) == Edited();
    var w := BuildOutcome(reg, rank, env, "n1.css", Edited()).1;
    assert w.disk == Edited().disk[Join("s", "n1.css") := File(env.minify.css("NEW"), env.now)];
    assert w.disk[Join("s", "a.css")] == File("NEW", 2) && w.disk[Join("s", "p.css")] == File("OLDP", 1);
    ParentLooksFresh(w.disk, w.mtime, w.ttime);
  }
}
