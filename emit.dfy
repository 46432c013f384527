/**
 * The emit resolver handed to templates: which file names a page should reference
 * for a bundle, depending on the environment the middleware was created with.
 */
module Emitter {
  import opened Wrappers
  import opened BundleRegistry

  /** Only the exact environment string "development" selects per-entry emission. */
  predicate IsDevelopment(env: string)
  {
    env == "development"
  }

  /**
   * In production the bundle's own name; in development the names of its immediate
   * entries, or `None` when the name is not a bundle (the lookup of an unknown name
   * fails there).
   */
  function Emit(env: string, reg: Registry, name: string): (r: Option<seq<string>>)
    ensures !IsDevelopment(env) ==> r == Some([name])
    ensures IsDevelopment(env) ==> (r.Some? <==> name in reg.bundles)
  {
    if !IsDevelopment(env) then Some([name])
    else if name in reg.bundles then
      var files := reg.bundles[name].files;
      Some(seq(|files|, i requires 0 <= i < |files| => files[i].name))
    else None
  }

  /**
   * In development a registered bundle emits exactly its configured entries in their
   * declared order, a nested bundle by its own name and not expanded.
   */
  lemma {:induction false} EmitListsConfiguredEntries(config: Config, src: string, name: string)
    requires name in config
    ensures Emit("development", RegistryOf(config, src), name) == Some(config[name])
  {
    var reg := RegistryOf(config, src);
    var files := reg.bundles[name].files;
    var names := seq(|files|, i requires 0 <= i < |files| => files[i].name);
    assert names == config[name];
  }
}
