/** The options page's settings logic: overlaying stored settings onto the
    defaults, resetting, the toggle-id to platform-key mapping, and the
    handlers that change one setting each. */
module Options {
  import opened Common
  import opened Strings

  /** A setting's JSON value: the page writes booleans and strings. */
  datatype Value = Bool(b: bool) | Str(s: string)

  /** One settings object, key to value. */
  type Group = map<string, Value>

  datatype Settings = Settings(platforms: Group, display: Group)

  /** The stored `promptPathSettings` object; a missing or falsy sub-object is
      `None`. */
  datatype StoredSettings = StoredSettings(platforms: Option<Group>, display: Option<Group>)

  const PlatformKeys: seq<string> := ["chatgpt", "claude", "gemini", "deepseek", "perplexity"]

  const DefaultPlatforms: Group := map[
    "chatgpt" := Bool(true), "claude" := Bool(true), "gemini" := Bool(true),
    "deepseek" := Bool(true), "perplexity" := Bool(true)]

  const DefaultDisplay: Group := map[
    "sidebarPosition" := Str("right"), "sidebarWidth" := Str("280"),
    "previewLength" := Str("200"), "showTimestamps" := Bool(true),
    "autoCollapse" := Bool(false), "darkMode" := Bool(false)]

  const Defaults := Settings(DefaultPlatforms, DefaultDisplay)

  /** `{ ...defaults, ...stored }`: every key of either, the stored value
      winning. */
  function Overlay(defaults: Group, stored: Group): (r: Group)
    ensures r.Keys == defaults.Keys + stored.Keys
    ensures forall k :: k in stored ==> r[k] == stored[k]
    ensures forall k :: k in defaults && k !in stored ==> r[k] == defaults[k]
  {
    map k | k in defaults.Keys + stored.Keys :: if k in stored then stored[k] else defaults[k]
  }

  /** `loadSettings`: each group is the default group overlaid with the
      stored one (an absent group overlays nothing); with nothing stored, a
      copy of the defaults. */
  function LoadSettings(stored: Option<StoredSettings>): (r: Settings)
    ensures stored.None? ==> r == Defaults
    ensures stored.Some? ==>
      && r.platforms == Overlay(DefaultPlatforms, stored.value.platforms.GetOr(map[]))
      && r.display == Overlay(DefaultDisplay, stored.value.display.GetOr(map[]))
  {
    match stored
    case None => Defaults
    case Some(s) =>
      Settings(Overlay(DefaultPlatforms, s.platforms.GetOr(map[])),
               Overlay(DefaultDisplay, s.display.GetOr(map[])))
  }

  /** Overlaying nothing gives the defaults back. */
  lemma OverlayEmpty(defaults: Group)
    ensures Overlay(defaults, map[]) == defaults
  {
  }

  /** Loading always yields every default key, in both groups. */
  lemma LoadKeepsDefaultKeys(stored: Option<StoredSettings>)
    ensures DefaultPlatforms.Keys <= LoadSettings(stored).platforms.Keys
    ensures DefaultDisplay.Keys <= LoadSettings(stored).display.Keys
  {
  }

  /** What `saveSettings` writes: the current settings, both groups present. */
  function Persist(s: Settings): StoredSettings {
    StoredSettings(Some(s.platforms), Some(s.display))
  }

  /** Settings that hold every default key survive a save and a reload
      unchanged; in particular whatever a load produced does. */
  lemma SaveLoadRoundTrip(s: Settings)
    requires DefaultPlatforms.Keys <= s.platforms.Keys && DefaultDisplay.Keys <= s.display.Keys
    ensures LoadSettings(Some(Persist(s))) == s
  {
    assert Overlay(DefaultPlatforms, s.platforms) == s.platforms;
    assert Overlay(DefaultDisplay, s.display) == s.display;
  }

  /** Loading what was loaded and saved changes nothing. */
  lemma ReloadIsStable(stored: Option<StoredSettings>)
    ensures LoadSettings(Some(Persist(LoadSettings(stored)))) == LoadSettings(stored)
  {
    LoadKeepsDefaultKeys(stored);
    SaveLoadRoundTrip(LoadSettings(stored));
  }

  /** `resetToDefaults`: the current settings become the defaults, whatever
      they were. */
  function ResetToDefaults(current: Option<Settings>): (r: Settings)
    ensures r == LoadSettings(None)
  {
    Defaults
  }

  // ----- toggle ids -----

  const ToggleIds: seq<string> := ["toggleChatGPT", "toggleClaude", "toggleGemini", "toggleDeepSeek", "togglePerplexity"]

  /** Position of the first occurrence of `pat` in `s` at or after `from`. */
  function FindFrom(s: string, pat: string, from: nat): (r: Option<nat>)
    requires from <= |s|
    ensures r.Some? ==> from <= r.value && OccursAt(s, pat, r.value)
    ensures r.Some? ==> forall q :: from <= q < r.value ==> !OccursAt(s, pat, q)
    ensures r.None? ==> forall q :: from <= q <= |s| ==> !OccursAt(s, pat, q)
    decreases |s| - from
  {
    if OccursAt(s, pat, from) then Some(from)
    else if from == |s| then None
    else FindFrom(s, pat, from + 1)
  }

  /** `s.replace(pat, rep)` with a string pattern: only the first occurrence
      is replaced. */
  function ReplaceFirst(s: string, pat: string, rep: string): (r: string)
    ensures FindFrom(s, pat, 0).None? ==> r == s
    ensures FindFrom(s, pat, 0).Some? ==>
      var p := FindFrom(s, pat, 0).value;
      r == s[..p] + rep + s[p + |pat|..]
  {
    match FindFrom(s, pat, 0)
    case None => s
    case Some(p) => s[..p] + rep + s[p + |pat|..]
  }

  /** `id.replace('toggle', '').toLowerCase()`. */
  function PlatformOf(id: string): string {
    Lower(ReplaceFirst(id, "toggle", ""))
  }

  /** A toggle id is `toggle` followed by the platform name: the mapping
      strips the prefix and lower-cases the rest. */
  lemma PlatformOfToggle(id: string)
    requires StartsWith(id, "toggle")
    ensures PlatformOf(id) == Lower(id[6..])
  {
    assert OccursAt(id, "toggle", 0);
    assert FindFrom(id, "toggle", 0) == Some(0);
  }

  /** Each toggle id maps to its platform key. */
  lemma TogglesMapOneByOne()
    ensures PlatformOf(ToggleIds[0]) == PlatformKeys[0]
    ensures PlatformOf(ToggleIds[1]) == PlatformKeys[1]
    ensures PlatformOf(ToggleIds[2]) == PlatformKeys[2]
    ensures PlatformOf(ToggleIds[3]) == PlatformKeys[3]
    ensures PlatformOf(ToggleIds[4]) == PlatformKeys[4]
  {
    ToggleChatGptMaps();
    ToggleClaudeMaps();
    ToggleGeminiMaps();
    ToggleDeepseekMaps();
    TogglePerplexityMaps();
  }

  lemma ToggleChatGptMaps()
    ensures PlatformOf("toggleChatGPT") == "chatgpt"
  {
    assert Lower("ChatGPT") == "chatgpt";
    ToggleMaps("toggleChatGPT", "ChatGPT", "chatgpt");
  }

  lemma ToggleClaudeMaps()
    ensures PlatformOf("toggleClaude") == "claude"
  {
    assert Lower("Claude") == "claude";
    ToggleMaps("toggleClaude", "Claude", "claude");
  }

  lemma ToggleGeminiMaps()
    ensures PlatformOf("toggleGemini") == "gemini"
  {
    assert Lower("Gemini") == "gemini";
    ToggleMaps("toggleGemini", "Gemini", "gemini");
  }

  lemma ToggleDeepseekMaps()
    ensures PlatformOf("toggleDeepSeek") == "deepseek"
  {
    assert Lower("DeepSeek") == "deepseek";
    ToggleMaps("toggleDeepSeek", "DeepSeek", "deepseek");
  }

  lemma TogglePerplexityMaps()
    ensures PlatformOf("togglePerplexity") == "perplexity"
  {
    assert Lower("Perplexity") == "perplexity";
    ToggleMaps("togglePerplexity", "Perplexity", "perplexity");
  }

  lemma ToggleMaps(id: string, name: string, key: string)
    requires id == "toggle" + name && key == Lower(name)
    ensures PlatformOf(id) == key
  {
    assert id[..6] == "toggle";
    assert id[6..] == name;
    PlatformOfToggle(id);
  }

  /** The five toggle ids map, in order, onto the five platform keys, which
      are exactly the default platform keys; so no two toggles write the
      same platform. */
  lemma ToggleIdsMapToPlatforms()
    ensures |ToggleIds| == |PlatformKeys| == 5
    ensures forall i :: 0 <= i < 5 ==> PlatformOf(ToggleIds[i]) == PlatformKeys[i]
    ensures forall i, j :: 0 <= i < j < 5 ==> PlatformKeys[i] != PlatformKeys[j]
    ensures forall k :: k in DefaultPlatforms <==> k in PlatformKeys
  {
    TogglesMapOneByOne();
  }

  // ----- change handlers -----

  /** A toggle switch's change: `platforms[PlatformOf(id)]` becomes the new
      checked state; nothing happens before the settings are loaded. */
  function ToggleChange(current: Option<Settings>, id: string, checked: bool): (r: Option<Settings>)
    ensures current.None? ==> r.None?
    ensures current.Some? ==> r.Some? && r.value.display == current.value.display
    ensures current.Some? ==> r.value.platforms.Keys == current.value.platforms.Keys + {PlatformOf(id)}
    ensures current.Some? ==> r.value.platforms[PlatformOf(id)] == Bool(checked)
    ensures current.Some? ==> forall k :: k in current.value.platforms && k != PlatformOf(id) ==>
      r.value.platforms[k] == current.value.platforms[k]
  {
    match current
    case None => None
    case Some(s) => Some(s.(platforms := s.platforms[PlatformOf(id) := Bool(checked)]))
  }

  /** A display checkbox's change: `display[id]` becomes the checked state. */
  function DisplayToggle(current: Option<Settings>, id: string, checked: bool): (r: Option<Settings>)
    ensures current.None? ==> r.None?
    ensures current.Some? ==> r.Some? && r.value.platforms == current.value.platforms
    ensures current.Some? ==> r.value.display.Keys == current.value.display.Keys + {id}
    ensures current.Some? ==> r.value.display[id] == Bool(checked)
    ensures current.Some? ==> forall k :: k in current.value.display && k != id ==>
      r.value.display[k] == current.value.display[k]
  {
    match current
    case None => None
    case Some(s) => Some(s.(display := s.display[id := Bool(checked)]))
  }

  /** A select's change: `display[id]` becomes the selected string. */
  function SelectChange(current: Option<Settings>, id: string, value: string): (r: Option<Settings>)
    ensures current.None? ==> r.None?
    ensures current.Some? ==> r.Some? && r.value.platforms == current.value.platforms
    ensures current.Some? ==> r.value.display.Keys == current.value.display.Keys + {id}
    ensures current.Some? ==> r.value.display[id] == Str(value)
    ensures current.Some? ==> forall k :: k in current.value.display && k != id ==>
      r.value.display[k] == current.value.display[k]
  {
    match current
    case None => None
    case Some(s) => Some(s.(display := s.display[id := Str(value)]))
  }

  /** A click on a platform card (not on its checkbox): the checkbox flips
      and, when the card names a platform, `platforms[platform]` becomes the
      negation of the checkbox's prior state. */
  function CardClick(current: Option<Settings>, onCheckbox: bool, hasToggle: bool,
                     platform: string, wasChecked: bool): (r: Option<Settings>)
    ensures onCheckbox || !hasToggle || current.None? || platform == "" ==> r == current
    ensures !onCheckbox && hasToggle && current.Some? && platform != "" ==>
      && r.Some? && r.value.display == current.value.display
      && platform in r.value.platforms && r.value.platforms[platform] == Bool(!wasChecked)
      && (forall k :: k in current.value.platforms && k != platform ==>
            k in r.value.platforms && r.value.platforms[k] == current.value.platforms[k])
  {
    if onCheckbox || !hasToggle then current
    else match current
      case None => None
      case Some(s) =>
        if platform == "" then current
        else Some(s.(platforms := s.platforms[platform := Bool(!wasChecked)]))
  }

  /** A card click and the change of that card's own toggle agree: both
      store the new checkbox state under the same platform key. */
  lemma CardClickMatchesToggle(current: Option<Settings>, i: nat, wasChecked: bool)
    requires i < 5 && current.Some?
    ensures CardClick(current, false, true, PlatformKeys[i], wasChecked)
      == ToggleChange(current, ToggleIds[i], !wasChecked)
  {
    ToggleIdsMapToPlatforms();
  }
}
