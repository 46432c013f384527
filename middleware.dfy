/**
 * The state `exports.middleware` keeps between requests: the registry, the file
 * system it builds into, and the markers on every entry. `Check` and `Build` are the
 * two recursive traversals; each is proved to do what its specification function says.
 */
module Middleware {
  import opened Wrappers
  import opened Paths
  import opened BundleRegistry
  import opened FileSystem
  import opened ChangeDetector
  import opened Persister
  import opened Builder

  class Bundler {
    const reg: Registry
    /** A rank that witnesses that the bundle graph is acyclic. */
    ghost const rank: map<string, nat>
    /** The file system. */
    var disk: Disk
    /** Per entry, the modification time recorded at its bundle's last successful collection. */
    var mtime: Markers
    /** Per entry, the modification time captured by the last check that visited it. */
    var ttime: Markers
    /** The content reads and writes performed so far. */
    ghost var log: seq<Io>

    ghost predicate Valid()
    {
      WellFormed(reg) && RankedBy(reg, rank)
    }

    ghost function State(): World
      reads this
    {
      World(disk, mtime, ttime, log)
    }

    /** Registers every configured bundle; no entry has a marker yet. */
    constructor (config: Config, src: string, disk: Disk, ghost rank: map<string, nat>)
      requires ConfigRankedBy(config, rank)
      ensures Valid() && reg == RegistryOf(config, src) && this.rank == rank
      ensures this.disk == disk && mtime == map[] && ttime == map[] && log == []
    {
      var r := Register(config, src);
      assert r == RegistryOf(config, src);
      RegistryOfIsRanked(config, src, rank);
      this.reg := r;
      this.rank := rank;
      this.disk := disk;
      this.mtime := map[];
      this.ttime := map[];
      this.log := [];
    }

    /** `check`: whether anything under bundle `name` changed, capturing markers on the way. */
    method Check(name: string) returns (changed: Result<bool>)
      requires Valid() && name in reg.bundles
      modifies this`ttime
      ensures Probe(changed, ttime) == CheckOutcome(reg, rank, name, disk, mtime, old(ttime))
      decreases rank[name]
    {
      var files := reg.bundles[name].files;
      var i := 0;
      while i < |files|
        invariant 0 <= i <= |files|
        invariant CheckOutcome(reg, rank, name, disk, mtime, old(ttime)) == CheckEntries(reg, rank, name, i, disk, mtime, ttime)
        decreases |files| - i
      {
        var file := files[i];
        if file.name in reg.bundles {
          var sub := Check(file.name);
          if sub != Ok(false) {
            return sub;
          }
        } else if !file.remote {
          if file.path !in disk {
            return Err(StatFailed(file.path));
          }
          var s := Slot(name, i);
          var now := disk[file.path].mtime;
          ttime := ttime[s := now];
          if s !in mtime || now != mtime[s] {
            return Ok(true);
          }
        }
        i := i + 1;
      }
      return Ok(false);
    }

    /** `build`: rebuilds bundle `name` when it changed or its output is missing. */
    method Build(name: string, env: Env) returns (outcome: Outcome)
      requires Valid() && name in reg.bundles
      modifies this
      ensures (outcome, State()) == BuildOutcome(reg, rank, env, name, old(State()))
      decreases rank[name], 2
    {
      var changed := Check(name);
      if changed.Err? {
        return Failed(changed.error);
      }
      if !changed.value && reg.bundles[name].path in disk {
        return Skipped;
      }
      var gathered := CollectAll(name, env);
      outcome := Conclude(name, gathered, env);
    }

    /** The collecting `async.map`, run in order: the contents of every entry of bundle
        `name`, stopping at the first failure. */
    method CollectAll(name: string, env: Env) returns (gathered: Gather<seq<string>>)
      requires Valid() && name in reg.bundles
      modifies this
      ensures (gathered, State()) == Collect(reg, rank, env, name, 0, [], old(State()))
      decreases rank[name], 1
    {
      var files := reg.bundles[name].files;
      var results: seq<string> := [];
      var i := 0;
      while i < |files|
        invariant 0 <= i <= |files|
        invariant Collect(reg, rank, env, name, 0, [], old(State())) == Collect(reg, rank, env, name, i, results, State())
        decreases |files| - i
      {
        var piece := Process(name, i, env);
        match piece
        case Fail(err) => return Fail(err);
        case Stall => return Stall;
        case Done(c) => results := results + [c];
        i := i + 1;
      }
      return Done(results);
    }

    /** The final callback of the collection: on success advance the markers, then save. */
    method Conclude(name: string, gathered: Gather<seq<string>>, env: Env) returns (outcome: Outcome)
      requires Valid() && name in reg.bundles
      modifies this
      ensures (outcome, State()) == Finish(reg, env, name, gathered, old(State()))
    {
      match gathered
      case Fail(err) => return Failed(err);
      case Stall => return Stalled;
      case Done(results) =>
        AdvanceMarkers(name);
        var text := Assemble(name, results, env.minify);
        if text.None? {
          return Stalled;
        }
        var out := Join(reg.src, name);
        disk := disk[out := File(text.value, env.now)];
        log := log + [WriteFile(out)];
        return Rebuilt(results);
    }

    /** One iteration of the collecting `async.map`: entry `i` of bundle `name`. */
    method Process(name: string, i: nat, env: Env) returns (piece: Gather<string>)
      requires Valid() && name in reg.bundles && i < |reg.bundles[name].files|
      modifies this
      ensures (piece, State()) == Step(reg, rank, env, name, i, old(State()))
      decreases rank[name], 0
    {
      var file := reg.bundles[name].files[i];
      if file.name in reg.bundles {
        var sub := Build(file.name, env);
        if sub.Failed? {
          return Fail(sub.err);
        }
        if sub.Stalled? {
          return Stall;
        }
        var p := reg.bundles[file.name].path;
        log := log + [ReadFile(p)];
        if p !in disk {
          return Fail(ReadFailed(p));
        }
        return Done(disk[p].content);
      }
      log := log + [LeafIo(file)];
      var data := LeafContent(env, file, disk);
      if data.Err? {
        return Fail(data.error);
      }
      return Done(data.value);
    }

    /** `file.mtime = file.ttime` for every entry of bundle `name`. */
    method AdvanceMarkers(name: string)
      requires name in reg.bundles
      modifies this`mtime
      ensures mtime == Advance(name, |reg.bundles[name].files|, old(mtime), ttime)
    {
      var n := |reg.bundles[name].files|;
      var j := 0;
      while j < n
        invariant 0 <= j <= n
        invariant mtime == Advance(name, j, old(mtime), ttime)
        decreases n - j
      {
        var s := Slot(name, j);
        AdvanceOneMore(name, j, old(mtime), ttime);
        mtime := if s in ttime then mtime[s := ttime[s]] else mtime - {s};
        j := j + 1;
      }
    }
  }
}
