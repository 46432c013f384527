/**
 * The bundle registry: for every configured bundle name, the ordered list of its
 * entries, each described as a remote or a local leaf. Whether an entry is itself a
 * bundle is not decided here but by looking its name up when the graph is traversed.
 */
module BundleRegistry {
  import opened Paths

  /** One configured entry of a bundle (a "file" object of the registry). */
  datatype Entry = Entry(name: string, path: string, remote: bool)

  datatype Bundle = Bundle(name: string, path: string, files: seq<Entry>)

  /** The registry built from the configuration, and the source root it was built for. */
  datatype Registry = Registry(bundles: map<string, Bundle>, src: string)

  /** The configuration: bundle name to the ordered names of its entries. */
  type Config = map<string, seq<string>>

  /** An entry is fetched over the network when its name matches `^https?:`. */
  predicate IsRemote(name: string)
  {
    StartsWith(name, "http:") || StartsWith(name, "https:")
  }

  /** The descriptor of one entry: a remote leaf keeps its URL as path and has no
      modification time; a local leaf lives under the source root. */
  function Describe(src: string, name: string): Entry
  {
    if IsRemote(name) then Entry(name, name, true) else Entry(name, Join(src, name), false)
  }

  function BundleOf(src: string, name: string, entries: seq<string>): (b: Bundle)
    ensures b.name == name && b.path == Join(src, name)
    ensures |b.files| == |entries|
    ensures forall i :: 0 <= i < |entries| ==>
      && b.files[i].name == entries[i]
      && (b.files[i].remote <==> IsRemote(entries[i]))
      && b.files[i].path == (if IsRemote(entries[i]) then entries[i] else Join(src, entries[i]))
  {
    Bundle(name, Join(src, name), seq(|entries|, i requires 0 <= i < |entries| => Describe(src, entries[i])))
  }

  ghost function RegistryOf(config: Config, src: string): Registry
  {
    Registry(map n | n in config :: BundleOf(src, n, config[n]), src)
  }

  /** What every registry built by `Register` satisfies, stated without the configuration. */
  ghost predicate WellFormed(reg: Registry)
  {
    forall n :: n in reg.bundles ==>
      && reg.bundles[n].name == n
      && reg.bundles[n].path == Join(reg.src, n)
      && forall e :: e in reg.bundles[n].files ==> e == Describe(reg.src, e.name)
  }

  /**
   * The bundle graph is acyclic, witnessed by a rank that strictly decreases from a
   * bundle to every entry of it that names a bundle.
   */
  ghost predicate RankedBy(reg: Registry, rank: map<string, nat>)
  {
    && reg.bundles.Keys <= rank.Keys
    && forall n, i :: n in reg.bundles && 0 <= i < |reg.bundles[n].files| && reg.bundles[n].files[i].name in reg.bundles
         ==> rank[reg.bundles[n].files[i].name] < rank[n]
  }

  /** The same acyclicity, stated on the configuration. */
  ghost predicate ConfigRankedBy(config: Config, rank: map<string, nat>)
  {
    && config.Keys <= rank.Keys
    && forall n, i :: n in config && 0 <= i < |config[n]| && config[n][i] in config
         ==> rank[config[n][i]] < rank[n]
  }

  /**
   * Builds the registry one configured bundle at a time: every configured name becomes
   * a bundle whose output is `src/name` and whose entries keep the configured order.
   */
  method Register(config: Config, src: string) returns (reg: Registry)
    ensures reg.src == src && reg.bundles.Keys == config.Keys
    ensures forall n :: n in config ==> reg.bundles[n] == BundleOf(src, n, config[n])
  {
    var bundles: map<string, Bundle> := map[];
    var pending := config.Keys;
    while pending != {}
      invariant pending <= config.Keys
      invariant bundles.Keys == config.Keys - pending
      invariant forall n :: n in bundles ==> bundles[n] == BundleOf(src, n, config[n])
      decreases pending
    {
      var n :| n in pending;
      bundles := bundles[n := BundleOf(src, n, config[n])];
      pending := pending - {n};
    }
    reg := Registry(bundles, src);
  }

  /** The registered registry is well formed and ranked by any rank of its configuration. */
  lemma RegistryOfIsRanked(config: Config, src: string, rank: map<string, nat>)
    requires ConfigRankedBy(config, rank)
    ensures WellFormed(RegistryOf(config, src)) && RankedBy(RegistryOf(config, src), rank)
  {
    var reg := RegistryOf(config, src);
    forall n | n in reg.bundles
      ensures forall e :: e in reg.bundles[n].files ==> e == Describe(src, e.name)
    {
      forall e | e in reg.bundles[n].files ensures e == Describe(src, e.name) {
        var i :| 0 <= i < |reg.bundles[n].files| && reg.bundles[n].files[i] == e;
      }
    }
  }
}
