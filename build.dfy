/**
 * The builder `build` and the persister `save` as functions from the world before a
 * build to its outcome and the world after it. Entries are processed one after the
 * other in declared order; the first failure ends the build.
 */
module Builder {
  import opened Wrappers
  import opened Paths
  import opened BundleRegistry
  import opened FileSystem
  import opened ChangeDetector
  import opened Persister

  /** A user hook, keyed by extension: gets an entry's name and raw content and returns
      the transformed content, or `None` when it reports an error. */
  type Hook = (string, string) -> Option<string>

  /** The collaborators of a build: hooks, minifiers, the network, and the clock value
      stamped on the files it writes. */
  datatype Env = Env(hooks: map<string, Hook>, minify: Minifiers, web: Web, now: int)

  /**
   * How a build ends: skipped (output up to date), rebuilt with the contents collected,
   * failed with an error, or stalled — `save` never invokes its callback, so the caller
   * is never told that the build ended.
   */
  datatype Outcome = Skipped | Rebuilt(contents: seq<string>) | Failed(err: Error) | Stalled

  /** The result of processing one entry or a run of entries. */
  datatype Gather<T> = Done(value: T) | Fail(err: Error) | Stall

  /** The I/O a leaf read performs. */
  function LeafIo(e: Entry): Io
  {
    if e.remote then Download(e.path) else ReadFile(e.path)
  }

  /** `file.read`: a remote leaf is fetched, a local one read from disk. */
  function ReadLeaf(e: Entry, disk: Disk, web: Web): Result<string>
  {
    if e.remote then Fetch(web, e.path)
    else if e.path in disk then Ok(disk[e.path].content)
    else Err(ReadFailed(e.path))
  }

  /** The content a leaf contributes: its raw content, passed through the hook registered
      for its extension when there is one. */
  function LeafContent(env: Env, e: Entry, disk: Disk): Result<string>
  {
    match ReadLeaf(e, disk, env.web)
    case Err(err) => Err(err)
    case Ok(data) =>
      var ext := Extname(e.name);
      if ext !in env.hooks then Ok(data)
      else
        match env.hooks[ext](e.name, data)
        case Some(out) => Ok(out)
        case None => Err(HookFailed(e.name))
  }

  /** A local leaf reads successfully exactly when its file exists, yielding its content;
      a remote leaf is fetched, failing unless the answer is a 200. */
  lemma ReadLeafSpec(e: Entry, disk: Disk, web: Web)
    ensures var r := ReadLeaf(e, disk, web);
      && (!e.remote ==> (r.Ok? <==> e.path in disk) && (r.Ok? ==> r.value == disk[e.path].content))
      && (!e.remote && r.Err? ==> r.error == ReadFailed(e.path))
      && (e.remote ==> (r.Ok? <==> e.path in web && web[e.path].status == 200) && (r.Ok? ==> r.value == web[e.path].body))
  {
  }

  /**
   * What a leaf contributes: a read error as it is; otherwise the raw content when no
   * hook is registered for the leaf's extension, and else the hook's output, or a hook
   * failure naming the leaf.
   */
  lemma LeafContentSpec(env: Env, e: Entry, disk: Disk)
    ensures var raw := ReadLeaf(e, disk, env.web);
      var r := LeafContent(env, e, disk);
      && (raw.Err? ==> r == raw)
      && (raw.Ok? && Extname(e.name) !in env.hooks ==> r == raw)
      && (raw.Ok? && Extname(e.name) in env.hooks ==>
            var out := env.hooks[Extname(e.name)](e.name, raw.value);
            (r.Ok? <==> out.Some?) && (r.Ok? ==> r.value == out.value) && (r.Err? ==> r.error == HookFailed(e.name)))
  {
  }

  /**
   * After a successful collection every entry of bundle `name` (its first `n` slots) takes
   * its captured marker as its recorded one; an entry with no captured marker loses
   * its recorded one. No other slot changes.
   */
  ghost function Advance(name: string, n: nat, mtime: Markers, ttime: Markers): (m: Markers)
    ensures forall s: Slot :: s.bundle == name && s.index < n ==> Same(m, ttime, s)
    ensures forall s: Slot :: !(s.bundle == name && s.index < n) ==> Same(m, mtime, s)
  {
    map s | s in mtime.Keys + ttime.Keys && (if s.bundle == name && s.index < n then s in ttime else s in mtime)
      :: if s.bundle == name && s.index < n then ttime[s] else mtime[s]
  }

  /** Advancing one more slot updates (or removes) just that slot. */
  lemma AdvanceOneMore(name: string, n: nat, mtime: Markers, ttime: Markers)
    ensures var s := Slot(name, n);
      Advance(name, n + 1, mtime, ttime)
        == if s in ttime then Advance(name, n, mtime, ttime)[s := ttime[s]] else Advance(name, n, mtime, ttime) - {s}
  {
    var s := Slot(name, n);
    var next := Advance(name, n + 1, mtime, ttime);
    var prev := Advance(name, n, mtime, ttime);
    var want := if s in ttime then prev[s := ttime[s]] else prev - {s};
    forall t: Slot ensures Same(next, want, t) {
      assert Same(next, ttime, t) || Same(next, mtime, t);
    }
    SameEverywhere(next, want);
  }

  /** Processes entry `i` of bundle `name`: a nested bundle is built and its output file
      read back; a leaf is read and transformed. */
  ghost function Step(reg: Registry, rank: map<string, nat>, env: Env, name: string, i: nat, w: World): (Gather<string>, World)
    requires RankedBy(reg, rank) && name in reg.bundles && i < |reg.bundles[name].files|
    decreases rank[name], 0, 0
  {
    var e := reg.bundles[name].files[i];
    if e.name in reg.bundles then
      var sub := BuildOutcome(reg, rank, env, e.name, w);
      var w1 := sub.1;
      match sub.0
      case Failed(err) => (Fail(err), w1)
      case Stalled => (Stall, w1)
      case _ =>
        var p := reg.bundles[e.name].path;
        var w2 := w1.(log := w1.log + [ReadFile(p)]);
        if p in w2.disk then (Done(w2.disk[p].content), w2) else (Fail(ReadFailed(p)), w2)
    else
      var w1 := w.(log := w.log + [LeafIo(e)]);
      match LeafContent(env, e, w.disk)
      case Err(err) => (Fail(err), w1)
      case Ok(c) => (Done(c), w1)
  }

  /** Processes entries `i` onwards, appending their contents to `acc`. */
  ghost function Collect(reg: Registry, rank: map<string, nat>, env: Env, name: string, i: nat,
                         acc: seq<string>, w: World): (Gather<seq<string>>, World)
    requires RankedBy(reg, rank) && name in reg.bundles && i <= |reg.bundles[name].files|
    decreases rank[name], 1, |reg.bundles[name].files| - i
  {
    if i == |reg.bundles[name].files| then (Done(acc), w)
    else
      var st := Step(reg, rank, env, name, i, w);
      match st.0
      case Done(c) => Collect(reg, rank, env, name, i + 1, acc + [c], st.1)
      case Fail(err) => (Fail(err), st.1)
      case Stall => (Stall, st.1)
  }

  /** A collection stopped before entry `j`: entries `i` up to `j` processed in order,
      appending their contents to `acc`. */
  ghost function Run(reg: Registry, rank: map<string, nat>, env: Env, name: string, i: nat, j: nat,
                     acc: seq<string>, w: World): (Gather<seq<string>>, World)
    requires RankedBy(reg, rank) && name in reg.bundles && i <= j <= |reg.bundles[name].files|
    decreases j - i
  {
    if i == j then (Done(acc), w)
    else
      var st := Step(reg, rank, env, name, i, w);
      match st.0
      case Done(c) => Run(reg, rank, env, name, i + 1, j, acc + [c], st.1)
      case Fail(err) => (Fail(err), st.1)
      case Stall => (Stall, st.1)
  }

  /** `build`: check, then skip, or collect, advance the markers and save. */
  ghost function BuildOutcome(reg: Registry, rank: map<string, nat>, env: Env, name: string, w: World): (Outcome, World)
    requires RankedBy(reg, rank) && name in reg.bundles
    decreases rank[name], 2, 0
  {
    var probe := CheckOutcome(reg, rank, name, w.disk, w.mtime, w.ttime);
    var w1 := w.(ttime := probe.ttime);
    match probe.changed
    case Err(err) => (Failed(err), w1)
    case Ok(changed) =>
      if !changed && reg.bundles[name].path in w1.disk then (Skipped, w1)
      else
        var g := Collect(reg, rank, env, name, 0, [], w1);
        Finish(reg, env, name, g.0, g.1)
  }

  /** What follows the collection: report its failure, or advance the markers of the
      bundle's entries and save. */
  ghost function Finish(reg: Registry, env: Env, name: string, g: Gather<seq<string>>, w: World): (Outcome, World)
    requires name in reg.bundles
  {
    match g
    case Fail(err) => (Failed(err), w)
    case Stall => (Stalled, w)
    case Done(contents) =>
      Save(reg, env, name, contents, w.(mtime := Advance(name, |reg.bundles[name].files|, w.mtime, w.ttime)))
  }

  /** `save`: writes the assembled text to `src/name`, or writes nothing and never calls back. */
  ghost function Save(reg: Registry, env: Env, name: string, contents: seq<string>, w: World): (Outcome, World)
  {
    match Assemble(name, contents, env.minify)
    case None => (Stalled, w)
    case Some(text) =>
      var p := Join(reg.src, name);
      (Rebuilt(contents), w.(disk := w.disk[p := File(text, env.now)], log := w.log + [WriteFile(p)]))
  }
}
