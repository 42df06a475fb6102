/**
 * The style manager: a style configuration loaded from a preset, adjusted
 * by validated dimension overrides and extra instructions, queried by the
 * prompt builder, updated in place, and saved to and restored from a dict.
 */
module StyleManager {
  import opened Wrappers
  import opened StyleProfiles

  /** A configuration with no keys at all (`{}`). */
  const EmptyConfig: ProfileConfig := ProfileConfig(None, None, None, None, None, None)

  /** The dict `to_dict` produces and `from_dict` reads; either key may be missing. */
  datatype StyleDict = StyleDict(profileName: Option<string>, config: Option<ProfileConfig>)

  /** An override is applied only when the dimension exists and the level exists in that dimension. */
  predicate ValidOverride(s: Setting) {
    IsDimension(s.dimension) && IsLevel(s.dimension, s.level)
  }

  /** The `dimensions` dict after the overrides, taken in order, have been applied to `dims`. */
  function ApplyOverrides(dims: seq<Setting>, custom: seq<Setting>): seq<Setting>
    decreases |custom|
  {
    if custom == [] then dims
    else
      var last := custom[|custom| - 1];
      var prev := ApplyOverrides(dims, custom[..|custom| - 1]);
      if ValidOverride(last) then SetLevel(prev, last.dimension, last.level) else prev
  }

  /** The level of the last valid override for `dimension`, if there is one. */
  function LastValidOverride(custom: seq<Setting>, dimension: string): (r: Option<string>)
    ensures r.Some? ==> IsDimension(dimension) && IsLevel(dimension, r.value)
    decreases |custom|
  {
    if custom == [] then None
    else
      var last := custom[|custom| - 1];
      if last.dimension == dimension && ValidOverride(last) then Some(last.level)
      else LastValidOverride(custom[..|custom| - 1], dimension)
  }

  /** Per key, the overridden dict holds the last valid override, or what it held before. */
  lemma {:induction false} ApplyOverridesLookup(dims: seq<Setting>, custom: seq<Setting>, dimension: string)
    ensures LevelOf(ApplyOverrides(dims, custom), dimension) ==
      if LastValidOverride(custom, dimension).Some? then LastValidOverride(custom, dimension) else LevelOf(dims, dimension)
    decreases |custom|
  {
    if custom != [] {
      var last := custom[|custom| - 1];
      var init := custom[..|custom| - 1];
      ApplyOverridesLookup(dims, init, dimension);
      if ValidOverride(last) {
        SetLevelLookup(ApplyOverrides(dims, init), last.dimension, last.level, dimension);
      }
    }
  }

  /** Unknown dimensions, and overrides that fail validation, never change the dict. */
  lemma OverridesKeepUnknown(dims: seq<Setting>, custom: seq<Setting>, dimension: string)
    requires !IsDimension(dimension)
    ensures LevelOf(ApplyOverrides(dims, custom), dimension) == LevelOf(dims, dimension)
  {
    ApplyOverridesLookup(dims, custom, dimension);
  }

  lemma {:induction false} InvalidOverridesChangeNothing(dims: seq<Setting>, custom: seq<Setting>)
    requires forall i :: 0 <= i < |custom| ==> !ValidOverride(custom[i])
    ensures ApplyOverrides(dims, custom) == dims
    decreases |custom|
  {
    if custom != [] {
      InvalidOverridesChangeNothing(dims, custom[..|custom| - 1]);
    }
  }

  /** A dict that sets every dimension to a defined level still does after any overrides. */
  lemma OverridesKeepWellFormed(dims: seq<Setting>, custom: seq<Setting>)
    requires WellFormedDimensions(dims)
    ensures WellFormedDimensions(ApplyOverrides(dims, custom))
  {
    ApplyOverridesLookup(dims, custom, "prose_complexity");
    ApplyOverridesLookup(dims, custom, "narrative_density");
    ApplyOverridesLookup(dims, custom, "description_level");
    ApplyOverridesLookup(dims, custom, "thematic_depth");
    ApplyOverridesLookup(dims, custom, "dialogue_style");
  }

  class StyleManager {
    var profileName: string
    var config: ProfileConfig

    /**
     * `StyleManager(profile_name, custom_dimensions, custom_instructions)`:
     * a copy of the named preset (the default preset for an unknown name),
     * then the overrides and the extra instructions when they are non-empty.
     */
    constructor (profileName: string, customDimensions: seq<Setting>, customInstructions: seq<string>)
      ensures this.profileName == profileName
      ensures var base := GetProfileInfo(profileName);
        config == base.(
          dimensions := if customDimensions == [] then base.dimensions
                        else Some(ApplyOverrides(base.dimensions.GetOr([]), customDimensions)),
          specialInstructions := if customInstructions == [] then base.specialInstructions
                                 else Some(base.specialInstructions.GetOr([]) + customInstructions))
    {
      this.profileName := profileName;
      config := GetProfileInfo(profileName);
      new;
      if customDimensions != [] {
        ApplyCustomDimensions(customDimensions);
      }
      if customInstructions != [] {
        AddCustomInstructions(customInstructions);
      }
    }

    /** `from_dict`: the stored name (default preset when absent) and the stored configuration (`{}` when absent). */
    constructor FromDict(data: StyleDict)
      ensures profileName == data.profileName.GetOr(DefaultProfile)
      ensures config == data.config.GetOr(EmptyConfig)
    {
      profileName := data.profileName.GetOr(DefaultProfile);
      config := data.config.GetOr(EmptyConfig);
    }

    /** `_apply_custom_dimensions`: each valid override, in order, is written into the `dimensions` dict. */
    method ApplyCustomDimensions(custom: seq<Setting>)
      modifies this
      ensures profileName == old(profileName)
      ensures config == old(config).(dimensions := Some(ApplyOverrides(old(config).dimensions.GetOr([]), custom)))
    {
      var current := config.dimensions.GetOr([]);
      var i := 0;
      while i < |custom|
        invariant 0 <= i <= |custom|
        invariant current == ApplyOverrides(old(config).dimensions.GetOr([]), custom[..i])
        invariant config == old(config) && profileName == old(profileName)
      {
        var s := custom[i];
        assert custom[..i + 1][..i] == custom[..i];
        if IsDimension(s.dimension) {
          if IsLevel(s.dimension, s.level) {
            current := SetLevel(current, s.dimension, s.level);
          }
        }
        i := i + 1;
      }
      assert custom[..|custom|] == custom;
      config := config.(dimensions := Some(current));
    }

    /** `_add_custom_instructions`: the extra instructions go after the existing ones, in order. */
    method AddCustomInstructions(extra: seq<string>)
      modifies this
      ensures profileName == old(profileName)
      ensures config == old(config).(specialInstructions := Some(old(config).specialInstructions.GetOr([]) + extra))
    {
      config := config.(specialInstructions := Some(config.specialInstructions.GetOr([]) + extra));
    }

    /** `get_full_config`: the whole configuration, as a value. */
    function GetFullConfig(): ProfileConfig
      reads this
    {
      config
    }

    /** The configured `dimensions` dict, empty when the key is missing. */
    function Dimensions(): seq<Setting>
      reads this
    {
      config.dimensions.GetOr([])
    }

    /** `get_dimension`: the configured level, or "moderate" for a dimension that is not set. */
    function GetDimension(dimension: string): string
      reads this
    {
      LevelOf(Dimensions(), dimension).GetOr("moderate")
    }

    /** `get_dimension_details`: what the configured level means, None when it is not in the catalogue. */
    function GetDimensionDetails(dimension: string): (r: Option<LevelInfo>)
      reads this
      ensures r.Some? <==> IsLevel(dimension, GetDimension(dimension))
    {
      GetDimensionInfo(dimension, GetDimension(dimension))
    }

    function GetSpecialInstructions(): seq<string>
      reads this
    {
      config.specialInstructions.GetOr([])
    }

    function GetAvoidList(): seq<string>
      reads this
    {
      config.avoid.GetOr([])
    }

    predicate IsComplexNarrative()
      reads this
    {
      GetDimension("prose_complexity") in ["complex", "experimental"] ||
      GetDimension("thematic_depth") in ["philosophical", "deconstructive"]
    }

    predicate IsFastPaced()
      reads this
    {
      GetDimension("narrative_density") == "fast_paced"
    }

    predicate RequiresRichDescriptions()
      reads this
    {
      GetDimension("description_level") in ["rich", "immersive"]
    }

    /**
     * `update_dimension`: `ValueError` for an unknown dimension or level,
     * `KeyError` when the configuration has no `dimensions` dict; otherwise
     * exactly that dimension changes.
     */
    method UpdateDimension(dimension: string, level: string) returns (r: Result<()>)
      modifies this
      ensures profileName == old(profileName)
      ensures !IsDimension(dimension) ==> r == Raise(ValueError) && config == old(config)
      ensures IsDimension(dimension) && !IsLevel(dimension, level) ==> r == Raise(ValueError) && config == old(config)
      ensures IsDimension(dimension) && IsLevel(dimension, level) && old(config).dimensions.None? ==>
        r == Raise(KeyError) && config == old(config)
      ensures r.Ok? <==> IsDimension(dimension) && IsLevel(dimension, level) && old(config).dimensions.Some?
      ensures r.Ok? ==>
        config == old(config).(dimensions := Some(SetLevel(old(config).dimensions.value, dimension, level))) &&
        GetDimension(dimension) == level &&
        forall d :: d != dimension ==> LevelOf(Dimensions(), d) == LevelOf(old(config).dimensions.value, d)
    {
      if !IsDimension(dimension) {
        return Raise(ValueError);
      }
      if !IsLevel(dimension, level) {
        return Raise(ValueError);
      }
      if config.dimensions.None? {
        return Raise(KeyError);
      }
      var before := config.dimensions.value;
      config := config.(dimensions := Some(SetLevel(before, dimension, level)));
      forall d | d != dimension
        ensures LevelOf(Dimensions(), d) == LevelOf(before, d)
      {
        SetLevelLookup(before, dimension, level, d);
      }
      SetLevelLookup(before, dimension, level, dimension);
      r := Ok(());
    }

    /** `add_instruction`: one more special instruction, at the end. */
    method AddInstruction(instruction: string)
      modifies this
      ensures profileName == old(profileName)
      ensures config == old(config).(specialInstructions := Some(old(GetSpecialInstructions()) + [instruction]))
      ensures GetSpecialInstructions()[..|GetSpecialInstructions()| - 1] == old(GetSpecialInstructions())
    {
      config := config.(specialInstructions := Some(GetSpecialInstructions() + [instruction]));
    }

    /** `add_avoid_item`: one more thing to avoid, at the end. */
    method AddAvoidItem(item: string)
      modifies this
      ensures profileName == old(profileName)
      ensures config == old(config).(avoid := Some(old(GetAvoidList()) + [item]))
      ensures GetAvoidList()[..|GetAvoidList()| - 1] == old(GetAvoidList())
    {
      config := config.(avoid := Some(GetAvoidList() + [item]));
    }

    /** `to_dict`: the name and a copy of the configuration. */
    function ToDict(): (d: StyleDict)
      reads this
      ensures d.profileName.GetOr(DefaultProfile) == profileName
      ensures d.config.GetOr(EmptyConfig) == config
    {
      StyleDict(Some(profileName), Some(config))
    }
  }

  /** `from_dict(m.to_dict())` is a manager with the same name and the same configuration. */
  method RoundTrip(m: StyleManager) returns (copy: StyleManager)
    ensures fresh(copy)
    ensures copy.profileName == m.profileName && copy.config == m.config
  {
    copy := new StyleManager.FromDict(m.ToDict());
  }

  /** A configuration with a preset's `dimensions` dict: every dimension reads back the preset's own level. */
  lemma PresetDimensionsRead(m: StyleManager, id: PresetId)
    requires m.config.dimensions == Some(PresetDimensions(id))
    ensures m.GetDimension("prose_complexity") == LevelKey(PresetLevels(id).prose)
    ensures m.GetDimension("narrative_density") == LevelKey(PresetLevels(id).density)
    ensures m.GetDimension("description_level") == LevelKey(PresetLevels(id).description)
    ensures m.GetDimension("thematic_depth") == LevelKey(PresetLevels(id).thematic)
    ensures m.GetDimension("dialogue_style") == LevelKey(PresetLevels(id).dialogue)
  {
    assert m.Dimensions() == Settings(PresetLevels(id));
    LevelOfSettings(PresetLevels(id));
  }

  /** The level keys the three style predicates test name exactly these levels. */
  lemma PredicateKeys(x: LevelId)
    ensures LevelKey(x) in ["complex", "experimental"] <==> x == Complex || x == Experimental
    ensures LevelKey(x) in ["philosophical", "deconstructive"] <==> x == Philosophical || x == Deconstructive
    ensures LevelKey(x) == "fast_paced" <==> x == FastPaced
    ensures LevelKey(x) in ["rich", "immersive"] <==> x == Rich || x == Immersive
  {
  }

  /** On a preset's dimensions the style predicates follow the preset's levels. */
  lemma PresetPredicates(m: StyleManager, id: PresetId)
    requires m.config.dimensions == Some(PresetDimensions(id))
    ensures m.IsComplexNarrative() <==>
      PresetLevels(id).prose in {Complex, Experimental} || PresetLevels(id).thematic in {Philosophical, Deconstructive}
    ensures m.IsFastPaced() <==> PresetLevels(id).density == FastPaced
    ensures m.RequiresRichDescriptions() <==> PresetLevels(id).description in {Rich, Immersive}
  {
    PresetDimensionsRead(m, id);
    PredicateKeys(PresetLevels(id).prose);
    PredicateKeys(PresetLevels(id).thematic);
    PredicateKeys(PresetLevels(id).density);
    PredicateKeys(PresetLevels(id).description);
  }

  /** Whatever name is loaded and whatever overrides follow, every dimension is set to a level of the catalogue. */
  lemma LoadedDimensionsWellFormed(name: string, custom: seq<Setting>)
    ensures GetProfileInfo(name).dimensions.Some?
    ensures WellFormedDimensions(GetProfileInfo(name).dimensions.value)
    ensures WellFormedDimensions(ApplyOverrides(GetProfileInfo(name).dimensions.value, custom))
  {
    var id := if FindPreset(name).Some? then FindPreset(name).value else BalancedNeutral;
    PresetWellFormed(id);
    OverridesKeepWellFormed(PresetDimensions(id), custom);
  }
}
