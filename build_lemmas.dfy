/**
 * What `build` promises, stated about `BuildOutcome`: when it skips, what a failure
 * leaves alone, which markers a successful collection records, what `save` writes, and
 * what each entry contributes to a rebuilt bundle.
 */
module BuilderProperties {
  import opened Wrappers
  import opened Paths
  import opened BundleRegistry
  import opened FileSystem
  import opened ChangeDetector
  import opened Persister
  import opened Builder
  import opened BuildFrames

  /** `save` either stalls or reports the contents it was given. */
  lemma SaveEnds(reg: Registry, env: Env, name: string, contents: seq<string>, w: World)
    ensures Save(reg, env, name, contents, w).0 in {Stalled, Rebuilt(contents)}
  {
  }

  /** Collecting and saving never ends in a skip. */
  lemma FinishNeverSkips(reg: Registry, env: Env, name: string, g: Gather<seq<string>>, w: World)
    requires name in reg.bundles
    ensures !Finish(reg, env, name, g, w).0.Skipped?
    ensures Finish(reg, env, name, g, w).0.Failed? <==> g.Fail?
  {
    if g.Done? {
      SaveEnds(reg, env, name, g.value, w.(mtime := Advance(name, |reg.bundles[name].files|, w.mtime, w.ttime)));
    }
  }

  /** A collection fails with `err` exactly when some entry fails with `err` after all
      entries before it succeeded. */
  lemma {:induction false} CollectFailsAt(reg: Registry, rank: map<string, nat>, env: Env, name: string, i: nat,
                                         acc: seq<string>, w: World, err: Error)
    requires RankedBy(reg, rank) && name in reg.bundles && i <= |reg.bundles[name].files|
    ensures Collect(reg, rank, env, name, i, acc, w).0 == Fail(err) <==>
      exists j :: i <= j < |reg.bundles[name].files| && FailsAt(reg, rank, env, name, i, j, acc, w, err)
    decreases |reg.bundles[name].files| - i
  {
    var n := |reg.bundles[name].files|;
    if i < n {
      var st := Step(reg, rank, env, name, i, w);
      assert Run(reg, rank, env, name, i, i, acc, w) == (Done(acc), w);
      if st.0.Done? {
        var c := st.0.value;
        CollectFailsAt(reg, rank, env, name, i + 1, acc + [c], st.1, err);
        forall j | i < j < n
          ensures FailsAt(reg, rank, env, name, i, j, acc, w, err) == FailsAt(reg, rank, env, name, i + 1, j, acc + [c], st.1, err)
        {
          assert Run(reg, rank, env, name, i, j, acc, w) == Run(reg, rank, env, name, i + 1, j, acc + [c], st.1);
        }
        assert !FailsAt(reg, rank, env, name, i, i, acc, w, err);
        assert Collect(reg, rank, env, name, i, acc, w) == Collect(reg, rank, env, name, i + 1, acc + [c], st.1);
        if Collect(reg, rank, env, name, i, acc, w).0 == Fail(err) {
          var j :| i + 1 <= j < n && FailsAt(reg, rank, env, name, i + 1, j, acc + [c], st.1, err);
          assert FailsAt(reg, rank, env, name, i, j, acc, w, err);
        } else {
          forall j | i <= j < n ensures !FailsAt(reg, rank, env, name, i, j, acc, w, err) {
            if j > i {
              assert !FailsAt(reg, rank, env, name, i + 1, j, acc + [c], st.1, err);
            }
          }
        }
      } else {
        forall j | i < j < n ensures !FailsAt(reg, rank, env, name, i, j, acc, w, err) {
          assert !Run(reg, rank, env, name, i, j, acc, w).0.Done?;
        }
        if st.0 == Fail(err) {
          assert FailsAt(reg, rank, env, name, i, i, acc, w, err);
        } else {
          assert !FailsAt(reg, rank, env, name, i, i, acc, w, err);
        }
      }
    }
  }

  /** Entries `i` up to `j` succeed and entry `j` fails with `err`. */
  ghost predicate FailsAt(reg: Registry, rank: map<string, nat>, env: Env, name: string, i: nat, j: nat,
                          acc: seq<string>, w: World, err: Error)
    requires RankedBy(reg, rank) && name in reg.bundles && i <= j < |reg.bundles[name].files|
  {
    var run := Run(reg, rank, env, name, i, j, acc, w);
    run.0.Done? && Step(reg, rank, env, name, j, run.1).0 == Fail(err)
  }

  /**
   * A build fails with `err` exactly when its check fails with `err`, or the check answers,
   * the build does not skip, and some entry (a leaf read, a hook, or a nested build or the
   * read of its output) fails with `err` after all entries before it succeeded.
   */
  lemma BuildFailsIff(reg: Registry, rank: map<string, nat>, env: Env, name: string, w: World, err: Error)
    requires RankedBy(reg, rank) && name in reg.bundles
    ensures var probe := CheckOutcome(reg, rank, name, w.disk, w.mtime, w.ttime);
      var w1 := w.(ttime := probe.ttime);
      BuildOutcome(reg, rank, env, name, w).0 == Failed(err) <==>
        || probe.changed == Err(err)
        || (&& probe.changed.Ok?
            && (probe.changed.value || reg.bundles[name].path !in w.disk)
            && exists j :: 0 <= j < |reg.bundles[name].files| && FailsAt(reg, rank, env, name, 0, j, [], w1, err))
  {
    var probe := CheckOutcome(reg, rank, name, w.disk, w.mtime, w.ttime);
    var w1 := w.(ttime := probe.ttime);
    if probe.changed.Ok? && (probe.changed.value || reg.bundles[name].path !in w.disk) {
      var g := Collect(reg, rank, env, name, 0, [], w1);
      CollectFailsAt(reg, rank, env, name, 0, [], w1, err);
      FinishNeverSkips(reg, env, name, g.0, g.1);
    }
  }

  /**
   * A build skips exactly when its check answers, nothing it depends on changed, and its
   * output file exists. With every local leaf reachable from the bundle present, the check
   * always answers.
   */
  lemma SkipExactlyWhenUnchanged(reg: Registry, rank: map<string, nat>, env: Env, name: string, w: World)
    requires RankedBy(reg, rank) && name in reg.bundles
    ensures BuildOutcome(reg, rank, env, name, w).0.Skipped?
        <==> && CheckOutcome(reg, rank, name, w.disk, w.mtime, w.ttime).changed.Ok?
             && !Changed(reg, rank, name, w.disk, w.mtime) && reg.bundles[name].path in w.disk
    ensures Statable(reg, rank, name, w.disk) ==> CheckOutcome(reg, rank, name, w.disk, w.mtime, w.ttime).changed.Ok?
  {
    CheckDecidesChanged(reg, rank, name, w.disk, w.mtime, w.ttime);
    var w1 := w.(ttime := CheckOutcome(reg, rank, name, w.disk, w.mtime, w.ttime).ttime);
    var g := Collect(reg, rank, env, name, 0, [], w1);
    FinishNeverSkips(reg, env, name, g.0, g.1);
  }

  /** A skipped build reads no entry, writes no file and records no marker. */
  lemma SkipTouchesNothing(reg: Registry, rank: map<string, nat>, env: Env, name: string, w: World)
    requires RankedBy(reg, rank) && name in reg.bundles
    requires BuildOutcome(reg, rank, env, name, w).0.Skipped?
    ensures BuildOutcome(reg, rank, env, name, w).1.disk == w.disk
    ensures BuildOutcome(reg, rank, env, name, w).1.mtime == w.mtime
    ensures BuildOutcome(reg, rank, env, name, w).1.log == w.log
  {
    var w1 := w.(ttime := CheckOutcome(reg, rank, name, w.disk, w.mtime, w.ttime).ttime);
    var g := Collect(reg, rank, env, name, 0, [], w1);
    FinishNeverSkips(reg, env, name, g.0, g.1);
  }

  /** A bundle that was skipped is skipped again by the next build, whatever markers the
      first check captured. */
  lemma SkipIsStable(reg: Registry, rank: map<string, nat>, env: Env, name: string, w: World)
    requires RankedBy(reg, rank) && name in reg.bundles
    requires BuildOutcome(reg, rank, env, name, w).0.Skipped?
    ensures BuildOutcome(reg, rank, env, name, BuildOutcome(reg, rank, env, name, w).1).0.Skipped?
  {
    var probe := CheckOutcome(reg, rank, name, w.disk, w.mtime, w.ttime);
    var w1 := w.(ttime := probe.ttime);
    var g := Collect(reg, rank, env, name, 0, [], w1);
    FinishNeverSkips(reg, env, name, g.0, g.1);
    assert BuildOutcome(reg, rank, env, name, w).1 == w1;
    CheckIgnoresCaptured(reg, rank, name, 0, w.disk, w.mtime, w.ttime, probe.ttime);
  }

  /**
   * Error atomicity: a failed build leaves the bundle's own recorded markers and its
   * output file as they were, and never writes that file.
   */
  lemma FailureLeavesBundleUntouched(reg: Registry, rank: map<string, nat>, env: Env, name: string, w: World)
    requires RankedBy(reg, rank) && WellFormed(reg) && name in reg.bundles
    requires BuildOutcome(reg, rank, env, name, w).0.Failed?
    ensures var w' := BuildOutcome(reg, rank, env, name, w).1;
      && (forall s: Slot :: s.bundle == name ==> Same(w.mtime, w'.mtime, s))
      && Same(w.disk, w'.disk, reg.bundles[name].path)
      && (forall k :: |w.log| <= k < |w'.log| ==> w'.log[k] != WriteFile(reg.bundles[name].path))
  {
    var probe := CheckOutcome(reg, rank, name, w.disk, w.mtime, w.ttime);
    var w1 := w.(ttime := probe.ttime);
    if probe.changed.Ok? {
      var g := Collect(reg, rank, env, name, 0, [], w1);
      FinishNeverSkips(reg, env, name, g.0, g.1);
      assert g.0.Fail?;
      CollectFramed(reg, rank, env, name, 0, [], w1);
      OwnOutputNotBelow(reg, rank, name);
      var w' := g.1;
      forall k | |w.log| <= k < |w'.log| ensures w'.log[k] != WriteFile(reg.bundles[name].path) {
        if w'.log[k].WriteFile? {
          assert OutputOf(reg, rank, rank[name] as int - 1, w'.log[k].path);
        }
      }
    }
  }

  /**
   * Marker update: after a rebuild, each entry of the bundle has as its recorded marker
   * the one its check captured (an entry with none captured has none recorded). Markers
   * of bundles ranked higher than this one are untouched.
   */
  lemma MarkersAdvanceToCaptured(reg: Registry, rank: map<string, nat>, env: Env, name: string, w: World)
    requires RankedBy(reg, rank) && name in reg.bundles
    requires BuildOutcome(reg, rank, env, name, w).0.Rebuilt?
    ensures var captured := CheckOutcome(reg, rank, name, w.disk, w.mtime, w.ttime).ttime;
      var w' := BuildOutcome(reg, rank, env, name, w).1;
      && (forall i :: 0 <= i < |reg.bundles[name].files| ==> Same(w'.mtime, captured, Slot(name, i)))
      && (forall s: Slot :: !Touchable(reg, rank, rank[name], s.bundle) ==> Same(w.mtime, w'.mtime, s))
  {
    var probe := CheckOutcome(reg, rank, name, w.disk, w.mtime, w.ttime);
    var w1 := w.(ttime := probe.ttime);
    var g := Collect(reg, rank, env, name, 0, [], w1);
    CollectFramed(reg, rank, env, name, 0, [], w1);
    BuildFramed(reg, rank, env, name, w);
    FinishNeverSkips(reg, env, name, g.0, g.1);
    var w2 := g.1.(mtime := Advance(name, |reg.bundles[name].files|, g.1.mtime, g.1.ttime));
    assert BuildOutcome(reg, rank, env, name, w).1 == Save(reg, env, name, g.0.value, w2).1;
    forall i | 0 <= i < |reg.bundles[name].files| ensures Same(w2.mtime, probe.ttime, Slot(name, i)) {
      assert !Touchable(reg, rank, rank[name] as int - 1, Slot(name, i).bundle);
    }
  }

  /**
   * A save failure after a successful collection: the build never reports back, the
   * output file is not written, and yet the bundle's markers have already advanced.
   */
  lemma SaveFailureAdvancesMarkers(reg: Registry, rank: map<string, nat>, env: Env, name: string, w: World)
    requires RankedBy(reg, rank) && WellFormed(reg) && name in reg.bundles
    requires var probe := CheckOutcome(reg, rank, name, w.disk, w.mtime, w.ttime);
      && probe.changed.Ok?
      && (probe.changed.value || reg.bundles[name].path !in w.disk)
    requires var g := Collect(reg, rank, env, name, 0, [], w.(ttime := CheckOutcome(reg, rank, name, w.disk, w.mtime, w.ttime).ttime));
      g.0.Done? && Assemble(name, g.0.value, env.minify).None?
    ensures var captured := CheckOutcome(reg, rank, name, w.disk, w.mtime, w.ttime).ttime;
      var r := BuildOutcome(reg, rank, env, name, w);
      && r.0 == Stalled
      && Same(w.disk, r.1.disk, reg.bundles[name].path)
      && (forall k :: |w.log| <= k < |r.1.log| ==> r.1.log[k] != WriteFile(reg.bundles[name].path))
      && (forall i :: 0 <= i < |reg.bundles[name].files| ==> Same(r.1.mtime, captured, Slot(name, i)))
  {
    var probe := CheckOutcome(reg, rank, name, w.disk, w.mtime, w.ttime);
    var w1 := w.(ttime := probe.ttime);
    var g := Collect(reg, rank, env, name, 0, [], w1);
    CollectFramed(reg, rank, env, name, 0, [], w1);
    OwnOutputNotBelow(reg, rank, name);
    var w2 := g.1.(mtime := Advance(name, |reg.bundles[name].files|, g.1.mtime, g.1.ttime));
    assert BuildOutcome(reg, rank, env, name, w) == (Stalled, w2);
    forall k | |w.log| <= k < |w2.log| ensures w2.log[k] != WriteFile(reg.bundles[name].path) {
      if w2.log[k].WriteFile? {
        assert OutputOf(reg, rank, rank[name] as int - 1, w2.log[k].path);
      }
    }
    forall i | 0 <= i < |reg.bundles[name].files| ensures Same(w2.mtime, probe.ttime, Slot(name, i)) {
      assert !Touchable(reg, rank, rank[name] as int - 1, Slot(name, i).bundle);
    }
  }

  /**
   * Save dispatch on the bundle's extension: ".css" writes the minified newline-joined
   * contents, ".html" the newline-joined contents, ".js" the minified concatenation when
   * the minifier succeeds; anything else writes nothing and never reports back.
   */
  lemma SaveDispatch(reg: Registry, env: Env, name: string, contents: seq<string>, w: World)
    ensures var r := Save(reg, env, name, contents, w);
      var p := Join(reg.src, name);
      var ext := Extname(name);
      && (ext == ".css" ==> r.1.disk == w.disk[p := File(env.minify.css(JoinWith(contents, "\n")), env.now)])
      && (ext == ".html" ==> r.1.disk == w.disk[p := File(JoinWith(contents, "\n"), env.now)])
      && (ext == ".js" && env.minify.js(JoinWith(contents, "")).Some? ==>
            r.1.disk == w.disk[p := File(env.minify.js(JoinWith(contents, "")).value, env.now)])
      && (r.0.Rebuilt? <==> ext == ".css" || ext == ".html" || (ext == ".js" && env.minify.js(JoinWith(contents, "")).Some?))
      && (r.0.Rebuilt? ==> r.0.contents == contents && r.1.log == w.log + [WriteFile(p)])
      && (r.0.Rebuilt? ==> r.1.mtime == w.mtime && r.1.ttime == w.ttime)
      && (!r.0.Rebuilt? ==> r == (Stalled, w))
  {
    var text := Assemble(name, contents, env.minify);
    var ext := Extname(name);
    var p := Join(reg.src, name);
    if text.Some? {
      assert Save(reg, env, name, contents, w)
          == (Rebuilt(contents), w.(disk := w.disk[p := File(text.value, env.now)], log := w.log + [WriteFile(p)]));
      if ext == ".css" {
        assert text.value == env.minify.css(JoinWith(contents, "\n"));
      } else if ext == ".html" {
        assert text.value == JoinWith(contents, "\n");
      } else {
        assert ext == ".js" && text == env.minify.js(JoinWith(contents, ""));
      }
    } else {
      assert Save(reg, env, name, contents, w) == (Stalled, w);
    }
  }

  /** A rebuild writes the assembled contents, stamped with the clock, to the bundle's
      output path; the write is the last I/O of the build. */
  lemma RebuildWritesArtifact(reg: Registry, rank: map<string, nat>, env: Env, name: string, w: World)
    requires RankedBy(reg, rank) && WellFormed(reg) && name in reg.bundles
    requires BuildOutcome(reg, rank, env, name, w).0.Rebuilt?
    ensures var r := BuildOutcome(reg, rank, env, name, w);
      var p := reg.bundles[name].path;
      && Assemble(name, r.0.contents, env.minify).Some?
      && p in r.1.disk
      && r.1.disk[p] == File(Assemble(name, r.0.contents, env.minify).value, env.now)
      && |r.1.log| > |w.log|
      && r.1.log[|r.1.log| - 1] == WriteFile(p)
  {
    var probe := CheckOutcome(reg, rank, name, w.disk, w.mtime, w.ttime);
    var w1 := w.(ttime := probe.ttime);
    var g := Collect(reg, rank, env, name, 0, [], w1);
    FinishNeverSkips(reg, env, name, g.0, g.1);
    CollectFramed(reg, rank, env, name, 0, [], w1);
    FinishWrites(reg, env, name, g.0, g.1);
  }

  /** A save that reports a rebuild appended exactly one write, of the output path. */
  lemma FinishWrites(reg: Registry, env: Env, name: string, g: Gather<seq<string>>, w: World)
    requires name in reg.bundles && Finish(reg, env, name, g, w).0.Rebuilt?
    ensures var r := Finish(reg, env, name, g, w);
      var p := Join(reg.src, name);
      && Assemble(name, r.0.contents, env.minify).Some?
      && r.1.disk == w.disk[p := File(Assemble(name, r.0.contents, env.minify).value, env.now)]
      && r.1.log == w.log + [WriteFile(p)]
  {
  }

  /** A leaf's contribution depends on the disk only at the leaf's own path. */
  lemma LeafContentLocal(env: Env, e: Entry, d1: Disk, d2: Disk)
    requires e.remote || Same(d1, d2, e.path)
    ensures LeafContent(env, e, d1) == LeafContent(env, e, d2)
  {
    assert ReadLeaf(e, d1, env.web) == ReadLeaf(e, d2, env.web);
  }

  /** Entry `j` is a leaf: it names no bundle. */
  ghost predicate IsLeaf(reg: Registry, name: string, j: nat)
    requires name in reg.bundles && j < |reg.bundles[name].files|
  {
    reg.bundles[name].files[j].name !in reg.bundles
  }

  /** The local leaves of bundle `name` from entry `i` on have the same files on `d` and `d'`. */
  ghost predicate LeavesAgree(reg: Registry, name: string, i: nat, d: Disk, d': Disk)
    requires name in reg.bundles
  {
    var files := reg.bundles[name].files;
    forall j :: i <= j < |files| && files[j].name !in reg.bundles && !files[j].remote ==> Same(d, d', files[j].path)
  }

  /**
   * `cs` extends `acc` by one piece per entry of bundle `name` from `i` on, in order, and
   * the piece of each leaf is what that leaf yields (read, then hooked) on disk `d`.
   */
  ghost predicate ContentsFrom(reg: Registry, env: Env, name: string, i: nat, acc: seq<string>, cs: seq<string>, d: Disk)
    requires name in reg.bundles && i <= |reg.bundles[name].files|
  {
    var files := reg.bundles[name].files;
    && |cs| == |acc| + |files| - i
    && cs[..|acc|] == acc
    && (forall j :: i <= j < |files| && IsLeaf(reg, name, j) ==> LeafContent(env, files[j], d) == Ok(cs[|acc| + j - i]))
  }

  /**
   * Rebuild contents, for a run of entries: a successful collection from entry `i` on
   * gives `ContentsFrom` on any disk `d` whose leaf files are the ones the run starts with.
   */
  lemma {:induction false} CollectContents(reg: Registry, rank: map<string, nat>, env: Env, name: string, i: nat,
                                          acc: seq<string>, w: World, d: Disk)
    requires RankedBy(reg, rank) && WellFormed(reg) && name in reg.bundles && i <= |reg.bundles[name].files|
    requires LeavesAgree(reg, name, i, d, w.disk)
    requires Collect(reg, rank, env, name, i, acc, w).0.Done?
    ensures ContentsFrom(reg, env, name, i, acc, Collect(reg, rank, env, name, i, acc, w).0.value, d)
    decreases |reg.bundles[name].files| - i, 1
  {
    if i < |reg.bundles[name].files| {
      CollectContentsStep(reg, rank, env, name, i, acc, w, d);
    } else {
      assert Collect(reg, rank, env, name, i, acc, w).0.value == acc;
    }
  }

  /** `CollectContents` for a run that still has entry `i` to collect. */
  lemma {:induction false} CollectContentsStep(reg: Registry, rank: map<string, nat>, env: Env, name: string, i: nat,
                                              acc: seq<string>, w: World, d: Disk)
    requires RankedBy(reg, rank) && WellFormed(reg) && name in reg.bundles && i < |reg.bundles[name].files|
    requires LeavesAgree(reg, name, i, d, w.disk)
    requires Collect(reg, rank, env, name, i, acc, w).0.Done?
    ensures ContentsFrom(reg, env, name, i, acc, Collect(reg, rank, env, name, i, acc, w).0.value, d)
    decreases |reg.bundles[name].files| - i, 0
  {
    var st := Step(reg, rank, env, name, i, w);
    CollectDoneStep(reg, rank, env, name, i, acc, w);
    var c := st.0.value;
    var cs := Collect(reg, rank, env, name, i + 1, acc + [c], st.1).0.value;
    StepKeepsLeaves(reg, rank, env, name, i, w, d);
    CollectContents(reg, rank, env, name, i + 1, acc + [c], st.1, d);
    StepLeaf(reg, rank, env, name, i, w, d);
    ExtendContents(reg, env, name, i, acc, c, cs, d);
  }

  /** The induction step of `CollectContents`, on plain values. */
  lemma ExtendContents(reg: Registry, env: Env, name: string, i: nat, acc: seq<string>, c: string, cs: seq<string>, d: Disk)
    requires name in reg.bundles && i < |reg.bundles[name].files|
    requires ContentsFrom(reg, env, name, i + 1, acc + [c], cs, d)
    requires IsLeaf(reg, name, i) ==> LeafContent(env, reg.bundles[name].files[i], d) == Ok(c)
    ensures ContentsFrom(reg, env, name, i, acc, cs, d)
  {
    var files := reg.bundles[name].files;
    PrefixOfPrefix(cs, acc, c);
    forall j | i <= j < |files| && IsLeaf(reg, name, j)
      ensures LeafContent(env, files[j], d) == Ok(cs[|acc| + j - i])
    {
      if j > i {
        assert |acc + [c]| + j - (i + 1) == |acc| + j - i;
      }
    }
  }

  /** A collection that succeeds from entry `i` succeeded on entry `i` and went on. */
  lemma CollectDoneStep(reg: Registry, rank: map<string, nat>, env: Env, name: string, i: nat,
                        acc: seq<string>, w: World)
    requires RankedBy(reg, rank) && name in reg.bundles && i < |reg.bundles[name].files|
    requires Collect(reg, rank, env, name, i, acc, w).0.Done?
    ensures var st := Step(reg, rank, env, name, i, w);
      && st.0.Done?
      && Collect(reg, rank, env, name, i, acc, w) == Collect(reg, rank, env, name, i + 1, acc + [st.0.value], st.1)
  {
  }

  /** Taking a prefix of a prefix. */
  lemma PrefixOfPrefix(cs: seq<string>, acc: seq<string>, c: string)
    requires |cs| > |acc| && cs[..|acc| + 1] == acc + [c]
    ensures cs[..|acc|] == acc && cs[|acc|] == c
  {
    assert cs[..|acc|] == (cs[..|acc| + 1])[..|acc|];
    assert cs[|acc|] == (cs[..|acc| + 1])[|acc|];
  }

  /** A leaf step yields what the leaf yields on the current disk, and so on any disk
      that has the same leaf files. */
  lemma StepLeaf(reg: Registry, rank: map<string, nat>, env: Env, name: string, i: nat, w: World, d: Disk)
    requires RankedBy(reg, rank) && name in reg.bundles && i < |reg.bundles[name].files|
    requires LeavesAgree(reg, name, i, d, w.disk)
    requires Step(reg, rank, env, name, i, w).0.Done?
    ensures IsLeaf(reg, name, i) ==>
      LeafContent(env, reg.bundles[name].files[i], d) == Ok(Step(reg, rank, env, name, i, w).0.value)
  {
    var e := reg.bundles[name].files[i];
    if IsLeaf(reg, name, i) {
      assert Step(reg, rank, env, name, i, w).0 == match LeafContent(env, e, w.disk)
        case Err(err) => Fail(err)
        case Ok(c) => Done(c);
      if !e.remote {
        assert Same(d, w.disk, e.path);
      }
      LeafContentLocal(env, e, w.disk, d);
    }
  }

  /** No step changes a local leaf's file. */
  lemma StepKeepsLeaves(reg: Registry, rank: map<string, nat>, env: Env, name: string, i: nat, w: World, d: Disk)
    requires RankedBy(reg, rank) && WellFormed(reg) && name in reg.bundles && i < |reg.bundles[name].files|
    requires LeavesAgree(reg, name, i, d, w.disk)
    ensures LeavesAgree(reg, name, i + 1, d, Step(reg, rank, env, name, i, w).1.disk)
  {
    var files := reg.bundles[name].files;
    var w' := Step(reg, rank, env, name, i, w).1;
    StepFramed(reg, rank, env, name, i, w);
    forall j | i + 1 <= j < |files| && files[j].name !in reg.bundles && !files[j].remote
      ensures Same(d, w'.disk, files[j].path)
    {
      LeafNotOutput(reg, rank, name, j, rank[name] as int - 1);
    }
  }

  /**
   * Rebuild contents: a rebuilt bundle has one piece per entry, in declared order, and
   * each leaf's piece is what that leaf yields, read and hooked, from the disk the build
   * started with (no build writes a leaf).
   */
  lemma RebuildContents(reg: Registry, rank: map<string, nat>, env: Env, name: string, w: World)
    requires RankedBy(reg, rank) && WellFormed(reg) && name in reg.bundles
    requires BuildOutcome(reg, rank, env, name, w).0.Rebuilt?
    ensures var cs := BuildOutcome(reg, rank, env, name, w).0.contents;
      var files := reg.bundles[name].files;
      && |cs| == |files|
      && (forall j :: 0 <= j < |files| && IsLeaf(reg, name, j) ==> LeafContent(env, files[j], w.disk) == Ok(cs[j]))
  {
    var probe := CheckOutcome(reg, rank, name, w.disk, w.mtime, w.ttime);
    var w1 := w.(ttime := probe.ttime);
    var g := Collect(reg, rank, env, name, 0, [], w1);
    FinishNeverSkips(reg, env, name, g.0, g.1);
    var w2 := g.1.(mtime := Advance(name, |reg.bundles[name].files|, g.1.mtime, g.1.ttime));
    SaveEnds(reg, env, name, g.0.value, w2);
    CollectContents(reg, rank, env, name, 0, [], w1, w.disk);
  }

  /**
   * A nested-bundle entry contributes the content of that bundle's output file, read only
   * after the nested build completed; when the nested build rebuilt, that is exactly what
   * its save wrote, and the read comes after the write.
   */
  lemma NestedEntryReadsFreshOutput(reg: Registry, rank: map<string, nat>, env: Env, name: string, i: nat, w: World)
    requires RankedBy(reg, rank) && WellFormed(reg) && name in reg.bundles && i < |reg.bundles[name].files|
    requires reg.bundles[name].files[i].name in reg.bundles
    requires Step(reg, rank, env, name, i, w).0.Done?
    ensures var child := reg.bundles[name].files[i].name;
      var sub := BuildOutcome(reg, rank, env, child, w);
      var st := Step(reg, rank, env, name, i, w);
      var p := reg.bundles[child].path;
      && (sub.0.Skipped? || sub.0.Rebuilt?)
      && p in sub.1.disk && st.0.value == sub.1.disk[p].content
      && st.1.log == sub.1.log + [ReadFile(p)]
      && (sub.0.Skipped? ==> p in w.disk && st.0.value == w.disk[p].content)
      && (sub.0.Rebuilt? ==>
            && Assemble(child, sub.0.contents, env.minify) == Some(st.0.value)
            && |sub.1.log| > |w.log|
            && sub.1.log[|sub.1.log| - 1] == WriteFile(p))
  {
    var child := reg.bundles[name].files[i].name;
    var sub := BuildOutcome(reg, rank, env, child, w);
    if sub.0.Skipped? {
      SkipTouchesNothing(reg, rank, env, child, w);
    } else if sub.0.Rebuilt? {
      RebuildWritesArtifact(reg, rank, env, child, w);
    }
  }

  /**
   * The check stops at the first changed entry, so on a cold start only the first local
   * leaf's marker is captured. A bundle of two present local leaves therefore still looks
   * changed after its first rebuild records the markers: the second entry has none.
   */
  lemma ColdStartLooksChangedTwice(reg: Registry, rank: map<string, nat>, name: string, disk: Disk, t: Markers, t': Markers)
    requires RankedBy(reg, rank) && name in reg.bundles && |reg.bundles[name].files| == 2
    requires forall j :: 0 <= j < 2 ==> IsLeaf(reg, name, j) && !reg.bundles[name].files[j].remote
                                        && reg.bundles[name].files[j].path in disk
    requires Slot(name, 1) !in t
    ensures var first := CheckOutcome(reg, rank, name, disk, map[], t);
      var recorded := Advance(name, 2, map[], first.ttime);
      && first.changed == Ok(true)
      && Slot(name, 1) !in recorded
      && CheckOutcome(reg, rank, name, disk, recorded, t').changed == Ok(true)
  {
    var files := reg.bundles[name].files;
    assert IsLeaf(reg, name, 0) && IsLeaf(reg, name, 1);
    assert files[0].name !in reg.bundles && !files[0].remote && files[0].path in disk;
    var first := CheckOutcome(reg, rank, name, disk, map[], t);
    assert first == CheckEntries(reg, rank, name, 0, disk, map[], t);
    assert first.ttime == t[Slot(name, 0) := disk[files[0].path].mtime];
    var recorded := Advance(name, 2, map[], first.ttime);
    assert Slot(name, 0) in recorded && recorded[Slot(name, 0)] == disk[files[0].path].mtime;
    var t1 := t'[Slot(name, 0) := disk[files[0].path].mtime];
    assert CheckOutcome(reg, rank, name, disk, recorded, t') == CheckEntries(reg, rank, name, 1, disk, recorded, t1);
  }
}
