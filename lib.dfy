/** The crate's entry object (ddex-builder `lib.rs`): a determinism
    configuration, a table of partner presets and the name of the preset that
    was locked, if any. The two built-in presets come from preset builders
    that are not part of this model; they are passed to the constructors. */
module Lib {
  import opened Util
  import IndexMap
  import opened BuildTypes
  import Determinism
  import Pipeline = Builder

  /** `PartnerPreset`, with the fields preset application reads. */
  datatype PartnerPreset = PartnerPreset(name: string, locked: bool, determinism: Determinism.DeterminismConfig)

  /** The state of a `Builder`. */
  datatype BuilderState = BuilderState(
    config: Determinism.DeterminismConfig,
    presets: IndexMap.Entries<string, PartnerPreset>,
    lockedPreset: Option<string>)

  /** `load_default_presets`: two inserts, Spotify first. */
  function DefaultPresets(spotify: PartnerPreset, apple: PartnerPreset): IndexMap.Entries<string, PartnerPreset> {
    IndexMap.Insert(IndexMap.Insert([], "spotify_audio_43", spotify), "apple_music_43", apple)
  }

  /** The default table holds exactly the two built-in presets, in insertion
      order, each found under its own name. */
  lemma DefaultPresetsTable(spotify: PartnerPreset, apple: PartnerPreset)
    ensures DefaultPresets(spotify, apple) == [("spotify_audio_43", spotify), ("apple_music_43", apple)]
    ensures IndexMap.DistinctKeys(DefaultPresets(spotify, apple))
    ensures IndexMap.Get(DefaultPresets(spotify, apple), "spotify_audio_43") == Some(spotify)
    ensures IndexMap.Get(DefaultPresets(spotify, apple), "apple_music_43") == Some(apple)
  {
    IndexMap.InsertNew([], "spotify_audio_43", spotify);
    var one := [("spotify_audio_43", spotify)];
    assert "apple_music_43" !in IndexMap.Keys(one) by {
      assert IndexMap.Keys(one)[0] == "spotify_audio_43";
      assert "spotify_audio_43"[0] != "apple_music_43"[0];
    }
    IndexMap.InsertNew(one, "apple_music_43", apple);
    var two := [("spotify_audio_43", spotify), ("apple_music_43", apple)];
    assert IndexMap.DistinctKeys(two) by {
      assert "spotify_audio_43"[0] != "apple_music_43"[0];
    }
    IndexMap.GetAt(two, "spotify_audio_43", 0);
    IndexMap.GetAt(two, "apple_music_43", 1);
  }

  function UnknownPreset(name: string): BuildError {
    InvalidFormat("preset", "Unknown preset: " + name)
  }

  /** What `apply_preset` returns and the state it leaves. */
  function ApplyPresetSpec(s: BuilderState, name: string, lock: bool): (Result<(), BuildError>, BuilderState) {
    match IndexMap.Get(s.presets, name)
    case None => (Err(UnknownPreset(name)), s)
    case Some(preset) =>
      (Ok(()), s.(config := preset.determinism,
                  lockedPreset := if lock then Some(name) else s.lockedPreset))
  }

  /** `Builder`. */
  class Builder {
    var config: Determinism.DeterminismConfig
    var presets: IndexMap.Entries<string, PartnerPreset>
    var lockedPreset: Option<string>

    function State(): BuilderState
      reads this
    {
      BuilderState(config, presets, lockedPreset)
    }

    /** `Builder::new`: the default configuration, the built-in presets, no
        lock. */
    constructor New(spotify: PartnerPreset, apple: PartnerPreset)
      ensures State() == BuilderState(Determinism.DefaultConfig(), DefaultPresets(spotify, apple), None)
    {
      config := Determinism.DefaultConfig();
      presets := DefaultPresets(spotify, apple);
      lockedPreset := None;
    }

    /** `Builder::with_config`: the given configuration, the built-in
        presets, no lock. */
    constructor WithConfig(config: Determinism.DeterminismConfig, spotify: PartnerPreset, apple: PartnerPreset)
      ensures State() == BuilderState(config, DefaultPresets(spotify, apple), None)
    {
      this.config := config;
      presets := DefaultPresets(spotify, apple);
      lockedPreset := None;
    }

    /** `apply_preset`. */
    method ApplyPreset(name: string, lock: bool) returns (r: Result<(), BuildError>)
      modifies this
      ensures (r, State()) == ApplyPresetSpec(old(State()), name, lock)
    {
      var found := IndexMap.Get(presets, name);
      if found.None? {
        return Err(UnknownPreset(name));
      }
      var preset := found.value;
      config := preset.determinism;
      if lock {
        lockedPreset := Some(name);
      }
      r := Ok(());
    }

    /** `is_preset_locked`. */
    function IsPresetLocked(): (locked: bool)
      reads this
      ensures locked <==> State().lockedPreset.Some?
    {
      lockedPreset.Some?
    }

    /** `build_internal`: a fresh `DDEXBuilder` with the default options; the
        builder's own configuration is not consulted. */
    method BuildInternal(request: BuildRequest, env: Pipeline.BuildEnvironment) returns (r: Result<BuildResult, BuildError>)
      ensures r == Pipeline.BuildSpec(request, DefaultBuildOptions(), env)
    {
      r := Pipeline.Build(request, DefaultBuildOptions(), env);
    }
  }

  // ----------------------------------------------------------------- facts

  /** An unknown name is refused with `InvalidFormat` on field "preset" and
      changes nothing; a known one installs the preset's configuration,
      records the name when locking and otherwise keeps the lock as it was;
      the table is never changed. */
  lemma ApplyPresetOutcome(s: BuilderState, name: string, lock: bool)
    ensures var (r, t) := ApplyPresetSpec(s, name, lock);
      && t.presets == s.presets
      && (r.Err? <==> name !in IndexMap.Keys(s.presets))
      && (r.Err? ==> r.error == InvalidFormat("preset", "Unknown preset: " + name) && t == s)
      && (r.Ok? ==> t.config == IndexMap.Get(s.presets, name).value.determinism
                    && t.lockedPreset == (if lock then Some(name) else s.lockedPreset))
  {
  }

  /** Applying presets in turn. */
  function ApplyAll(s: BuilderState, calls: seq<(string, bool)>): BuilderState
    decreases |calls|
  {
    if calls == [] then s
    else ApplyAll(ApplyPresetSpec(s, calls[0].0, calls[0].1).1, calls[1..])
  }

  /** Locking is for good: once a preset is locked, any later sequence of
      applications leaves one locked, and a locking application anywhere in
      the sequence locks the builder. */
  lemma {:induction false} LockIsMonotone(s: BuilderState, calls: seq<(string, bool)>)
    ensures s.lockedPreset.Some? ==> ApplyAll(s, calls).lockedPreset.Some?
    ensures (exists i :: 0 <= i < |calls| && calls[i].1 && calls[i].0 in IndexMap.Keys(ApplyAll(s, calls[..i]).presets))
            ==> ApplyAll(s, calls).lockedPreset.Some?
    decreases |calls|
  {
    if calls != [] {
      var t := ApplyPresetSpec(s, calls[0].0, calls[0].1).1;
      LockIsMonotone(t, calls[1..]);
      if exists i :: 0 <= i < |calls| && calls[i].1 && calls[i].0 in IndexMap.Keys(ApplyAll(s, calls[..i]).presets) {
        var i :| 0 <= i < |calls| && calls[i].1 && calls[i].0 in IndexMap.Keys(ApplyAll(s, calls[..i]).presets);
        if i == 0 {
          assert calls[..0] == [];
        } else {
          assert calls[..i][1..] == calls[1..][..i - 1];
          assert calls[1..][i - 1] == calls[i];
          assert ApplyAll(s, calls[..i]) == ApplyAll(t, calls[1..][..i - 1]);
        }
      }
    }
  }

  /** Locking does not freeze the configuration: a locked builder still
      takes the configuration of the next known preset applied. */
  lemma LockedBuilderStillReconfigures(s: BuilderState, name: string, lock: bool, preset: PartnerPreset)
    requires s.lockedPreset.Some?
    requires IndexMap.Get(s.presets, name) == Some(preset)
    ensures ApplyPresetSpec(s, name, lock).0.Ok?
    ensures ApplyPresetSpec(s, name, lock).1.config == preset.determinism
    ensures ApplyPresetSpec(s, name, lock).1.lockedPreset.Some?
  {
  }

  /** A new builder is unlocked; applying "spotify_audio_43" without locking
      succeeds and leaves it unlocked, and applying it again with locking
      locks it; an unknown name is refused. */
  lemma PresetScenario(spotify: PartnerPreset, apple: PartnerPreset, other: string)
    requires other != "spotify_audio_43" && other != "apple_music_43"
    ensures var s0 := BuilderState(Determinism.DefaultConfig(), DefaultPresets(spotify, apple), None);
      var (r1, s1) := ApplyPresetSpec(s0, "spotify_audio_43", false);
      var (r2, s2) := ApplyPresetSpec(s1, "spotify_audio_43", true);
      && s0.lockedPreset.None?
      && r1.Ok? && s1.lockedPreset.None? && s1.config == spotify.determinism
      && r2.Ok? && s2.lockedPreset == Some("spotify_audio_43")
      && ApplyPresetSpec(s0, other, false).0.Err?
  {
    DefaultPresetsTable(spotify, apple);
    var m := DefaultPresets(spotify, apple);
    assert IndexMap.Keys(m) == ["spotify_audio_43", "apple_music_43"];
  }

  /** `build_internal` builds with the default options, so with the default
      DB-C14N configuration whatever the builder holds: a successful internal
      build always carries a canonical hash and no banner. */
  lemma BuildInternalUsesDefaults(request: BuildRequest, env: Pipeline.BuildEnvironment)
    ensures Pipeline.BuildSpec(request, DefaultBuildOptions(), env).Ok?
            ==> Pipeline.BuildSpec(request, DefaultBuildOptions(), env).value.canonicalHash.Some?
                && Pipeline.BuildSpec(request, DefaultBuildOptions(), env).value.reproducibilityBanner.None?
  {
    var options := DefaultBuildOptions();
    assert Pipeline.ConfigOf(options) == Determinism.DefaultConfig();
    if Pipeline.BuildSpec(request, options, env).Ok? {
      Pipeline.BuildResultShape(request, options, env);
    }
  }
}
