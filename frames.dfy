/**
 * What a build may change: markers of entries of bundles ranked no higher than the one
 * built, output files of such bundles, and the log, only by appending to it. Nested
 * builds therefore never touch the markers or the output of the bundle that asked for them.
 */
module BuildFrames {
  import opened Wrappers
  import opened Paths
  import opened BundleRegistry
  import opened FileSystem
  import opened ChangeDetector
  import opened Persister
  import opened Builder

  /** `p` is the output path of a bundle ranked at most `level`. */
  ghost predicate OutputOf(reg: Registry, rank: map<string, nat>, level: int, p: string)
  {
    exists b :: Touchable(reg, rank, level, b) && p == Join(reg.src, b)
  }

  ghost predicate Framed(reg: Registry, rank: map<string, nat>, level: int, w: World, w': World)
  {
    && (forall s: Slot :: !Touchable(reg, rank, level, s.bundle) ==> Same(w.mtime, w'.mtime, s) && Same(w.ttime, w'.ttime, s))
    && (forall p :: !OutputOf(reg, rank, level, p) ==> Same(w.disk, w'.disk, p))
    && w.log <= w'.log
    && (forall k :: |w.log| <= k < |w'.log| && w'.log[k].WriteFile? ==> OutputOf(reg, rank, level, w'.log[k].path))
  }

  lemma FramedTrans(reg: Registry, rank: map<string, nat>, l1: int, l2: int, l: int, w0: World, w1: World, w2: World)
    requires Framed(reg, rank, l1, w0, w1) && Framed(reg, rank, l2, w1, w2) && l1 <= l && l2 <= l
    ensures Framed(reg, rank, l, w0, w2)
  {
    forall p | OutputOf(reg, rank, l1, p) || OutputOf(reg, rank, l2, p) ensures OutputOf(reg, rank, l, p) {
      if OutputOf(reg, rank, l1, p) {
        var b :| Touchable(reg, rank, l1, b) && p == Join(reg.src, b);
        assert Touchable(reg, rank, l, b);
      } else {
        var b :| Touchable(reg, rank, l2, b) && p == Join(reg.src, b);
        assert Touchable(reg, rank, l, b);
      }
    }
    forall k | |w0.log| <= k < |w2.log| && w2.log[k].WriteFile? ensures OutputOf(reg, rank, l, w2.log[k].path) {
      if k < |w1.log| {
        assert w2.log[k] == w1.log[k];
      }
    }
  }

  /** A bundle's own output path is not the output of any bundle ranked below it. */
  lemma OwnOutputNotBelow(reg: Registry, rank: map<string, nat>, name: string)
    requires RankedBy(reg, rank) && name in reg.bundles
    ensures !OutputOf(reg, rank, rank[name] as int - 1, Join(reg.src, name))
  {
    if OutputOf(reg, rank, rank[name] as int - 1, Join(reg.src, name)) {
      var b :| Touchable(reg, rank, rank[name] as int - 1, b) && Join(reg.src, name) == Join(reg.src, b);
      JoinInjective(reg.src, name, b);
      assert false;
    }
  }

  /** A local leaf's path is no bundle's output path, since its name names no bundle. */
  lemma LeafNotOutput(reg: Registry, rank: map<string, nat>, name: string, i: nat, level: int)
    requires WellFormed(reg) && name in reg.bundles && i < |reg.bundles[name].files|
    requires reg.bundles[name].files[i].name !in reg.bundles && !reg.bundles[name].files[i].remote
    ensures !OutputOf(reg, rank, level, reg.bundles[name].files[i].path)
  {
    var e := reg.bundles[name].files[i];
    assert e in reg.bundles[name].files;
    if OutputOf(reg, rank, level, e.path) {
      var b :| Touchable(reg, rank, level, b) && e.path == Join(reg.src, b);
      JoinInjective(reg.src, e.name, b);
      assert false;
    }
  }

  lemma {:induction false} BuildFramed(reg: Registry, rank: map<string, nat>, env: Env, name: string, w: World)
    requires RankedBy(reg, rank) && name in reg.bundles
    ensures Framed(reg, rank, rank[name], w, BuildOutcome(reg, rank, env, name, w).1)
    decreases rank[name], 2, 0
  {
    var probe := CheckOutcome(reg, rank, name, w.disk, w.mtime, w.ttime);
    var w1 := w.(ttime := probe.ttime);
    ProbeFramed(reg, rank, name, w);
    if probe.changed.Ok? && (probe.changed.value || reg.bundles[name].path !in w1.disk) {
      var g := Collect(reg, rank, env, name, 0, [], w1);
      CollectFramed(reg, rank, env, name, 0, [], w1);
      FinishFramed(reg, rank, env, name, g.0, g.1);
      FramedTrans(reg, rank, rank[name], rank[name] as int - 1, rank[name], w, w1, g.1);
      FramedTrans(reg, rank, rank[name], rank[name], rank[name], w, g.1, Finish(reg, env, name, g.0, g.1).1);
    }
  }

  lemma ProbeFramed(reg: Registry, rank: map<string, nat>, name: string, w: World)
    requires RankedBy(reg, rank) && name in reg.bundles
    ensures Framed(reg, rank, rank[name], w, w.(ttime := CheckOutcome(reg, rank, name, w.disk, w.mtime, w.ttime).ttime))
  {
    CheckFramed(reg, rank, name, 0, w.disk, w.mtime, w.ttime);
  }

  lemma FinishFramed(reg: Registry, rank: map<string, nat>, env: Env, name: string, g: Gather<seq<string>>, w: World)
    requires RankedBy(reg, rank) && name in reg.bundles
    ensures Framed(reg, rank, rank[name], w, Finish(reg, env, name, g, w).1)
  {
    if g.Done? {
      var w2 := w.(mtime := Advance(name, |reg.bundles[name].files|, w.mtime, w.ttime));
      AdvanceFramed(reg, rank, name, w);
      SaveFramed(reg, rank, env, name, g.value, w2);
      FramedTrans(reg, rank, rank[name], rank[name], rank[name], w, w2, Save(reg, env, name, g.value, w2).1);
    }
  }

  lemma AdvanceFramed(reg: Registry, rank: map<string, nat>, name: string, w: World)
    requires RankedBy(reg, rank) && name in reg.bundles
    ensures Framed(reg, rank, rank[name], w, w.(mtime := Advance(name, |reg.bundles[name].files|, w.mtime, w.ttime)))
  {
    assert Touchable(reg, rank, rank[name], name);
  }

  lemma SaveFramed(reg: Registry, rank: map<string, nat>, env: Env, name: string, contents: seq<string>, w: World)
    requires RankedBy(reg, rank) && name in reg.bundles
    ensures Framed(reg, rank, rank[name], w, Save(reg, env, name, contents, w).1)
  {
    var p := Join(reg.src, name);
    assert Touchable(reg, rank, rank[name], name);
    assert OutputOf(reg, rank, rank[name], p);
    var text := Assemble(name, contents, env.minify);
    if text.Some? {
      var w' := w.(disk := w.disk[p := File(text.value, env.now)], log := w.log + [WriteFile(p)]);
      assert Save(reg, env, name, contents, w).1 == w';
      forall q | !OutputOf(reg, rank, rank[name], q) ensures Same(w.disk, w'.disk, q) {
        assert q != p;
      }
    }
  }

  lemma {:induction false} CollectFramed(reg: Registry, rank: map<string, nat>, env: Env, name: string, i: nat,
                                        acc: seq<string>, w: World)
    requires RankedBy(reg, rank) && name in reg.bundles && i <= |reg.bundles[name].files|
    ensures Framed(reg, rank, rank[name] as int - 1, w, Collect(reg, rank, env, name, i, acc, w).1)
    decreases rank[name], 1, |reg.bundles[name].files| - i
  {
    if i < |reg.bundles[name].files| {
      var st := Step(reg, rank, env, name, i, w);
      StepFramed(reg, rank, env, name, i, w);
      if st.0.Done? {
        CollectFramed(reg, rank, env, name, i + 1, acc + [st.0.value], st.1);
        FramedTrans(reg, rank, rank[name] as int - 1, rank[name] as int - 1, rank[name] as int - 1, w, st.1,
                    Collect(reg, rank, env, name, i + 1, acc + [st.0.value], st.1).1);
      }
    }
  }

  lemma {:induction false} StepFramed(reg: Registry, rank: map<string, nat>, env: Env, name: string, i: nat, w: World)
    requires RankedBy(reg, rank) && name in reg.bundles && i < |reg.bundles[name].files|
    ensures Framed(reg, rank, rank[name] as int - 1, w, Step(reg, rank, env, name, i, w).1)
    decreases rank[name], 0, 0
  {
    var e := reg.bundles[name].files[i];
    StepWorld(reg, rank, env, name, i, w);
    if e.name in reg.bundles {
      var sub := BuildOutcome(reg, rank, env, e.name, w);
      BuildFramed(reg, rank, env, e.name, w);
      if sub.0.Failed? || sub.0.Stalled? {
        FramedWeaken(reg, rank, rank[e.name], rank[name] as int - 1, w, sub.1);
      } else {
        var w2 := sub.1.(log := sub.1.log + [ReadFile(reg.bundles[e.name].path)]);
        ReadFramed(reg, rank, rank[e.name], sub.1, ReadFile(reg.bundles[e.name].path));
        FramedTrans(reg, rank, rank[e.name], rank[e.name], rank[name] as int - 1, w, sub.1, w2);
      }
    } else {
      ReadFramed(reg, rank, rank[name] as int - 1, w, LeafIo(e));
    }
  }

  /** The world after one step: a nested build's, with the read of its output logged
      unless it failed or stalled; or, for a leaf, the read logged. */
  lemma StepWorld(reg: Registry, rank: map<string, nat>, env: Env, name: string, i: nat, w: World)
    requires RankedBy(reg, rank) && name in reg.bundles && i < |reg.bundles[name].files|
    ensures var e := reg.bundles[name].files[i];
      && (e.name in reg.bundles ==>
            var sub := BuildOutcome(reg, rank, env, e.name, w);
            Step(reg, rank, env, name, i, w).1
              == if sub.0.Failed? || sub.0.Stalled? then sub.1
                 else sub.1.(log := sub.1.log + [ReadFile(reg.bundles[e.name].path)]))
      && (e.name !in reg.bundles ==> Step(reg, rank, env, name, i, w).1 == w.(log := w.log + [LeafIo(e)]))
  {
  }

  /** A frame holds at any higher level. */
  lemma FramedWeaken(reg: Registry, rank: map<string, nat>, l1: int, l: int, w: World, w': World)
    requires Framed(reg, rank, l1, w, w') && l1 <= l
    ensures Framed(reg, rank, l, w, w')
  {
    forall p | OutputOf(reg, rank, l1, p) ensures OutputOf(reg, rank, l, p) {
      var b :| Touchable(reg, rank, l1, b) && p == Join(reg.src, b);
      assert Touchable(reg, rank, l, b);
    }
  }

  /** Logging a read stays within any frame. */
  lemma ReadFramed(reg: Registry, rank: map<string, nat>, level: int, w: World, io: Io)
    requires !io.WriteFile?
    ensures Framed(reg, rank, level, w, w.(log := w.log + [io]))
  {
  }
}
