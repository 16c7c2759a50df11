/**
 * The default settings of the bot (config/default_settings.py): a section
 * 'DEFAULT' of named values, some of them lists, written to an INI file as
 * strings and read back. A section is a map from key to value; the order in
 * which Python's dictionaries hand out their keys is a separate sequence.
 */
module DefaultSettingsConfig {
  import opened Wrappers
  import opened PyStrings

  /** A setting's value before it is written: a string or a list of strings. */
  datatype SettingValue = Text(text: string) | Items(items: seq<string>)

  /** The list of frame-data columns shown by default (lines 51-63). */
  const DEFAULT_COLUMNS: seq<string> := ["INPUT_COMMAND", "ATTACK_TYPE", "STARTUP_FRAMES", "ON_BLOCK_FRAMES",
    "ON_HIT_FRAMES", "ACTIVE_FRAMES", "TRACKING", "TOTAL_FRAMES", "RECOVERY_FRAMES", "OPPONENT_FRAMES", "NOTES"]

  /** `SETTINGS['DEFAULT']` (lines 42-65); `str(False)` is 'False'. */
  const SETTINGS: map<string, SettingValue> := map[
    "alarm_enable" := Text("False"),
    "alarm_sound_folder" := Text("original"),
    "alarm_voice_folder" := Text("original"),
    "overlay_enable" := Text("True"),
    "overlay_mode" := Text("FRAMEDATA"),
    "overlay_position" := Text("TOP"),
    "overlay_theme" := Text("classic"),
    "framedata_overlay_columns" := Items(DEFAULT_COLUMNS)]

  /** The keys of `SETTINGS` in the order the dictionary literal lists them. */
  const SETTINGS_ORDER: seq<string> := ["alarm_enable", "alarm_sound_folder", "alarm_voice_folder",
    "overlay_enable", "overlay_mode", "overlay_position", "overlay_theme", "framedata_overlay_columns"]

  /** `order` lists exactly the keys of `d`. */
  ghost predicate OrderOf<V>(order: seq<string>, d: map<string, V>)
  {
    forall k :: k in d <==> k in order
  }

  // ---------------------------------------------------------------------------
  // Values to strings (lines 104-113)

  /** A list as '[' + ','.join(items) + ']', anything else as it is. */
  function ValueString(v: SettingValue): string
  {
    match v
    case Text(s) => s
    case Items(l) => "[" + Join(l, ",") + "]"
  }

  /** The section with every value turned into its string. */
  function SectionStrings(d: map<string, SettingValue>): (r: map<string, string>)
    ensures r.Keys == d.Keys
  {
    map k | k in d :: ValueString(d[k])
  }

  /** `__values_to_string`: the loop that rewrites each value of a copy of the
    * section as its string. */
  method ValuesToString(parsed: map<string, SettingValue>, order: seq<string>) returns (settings: map<string, string>)
    requires OrderOf(order, parsed)
    ensures settings == SectionStrings(parsed)
  {
    settings := map[];
    for i := 0 to |order|
      invariant forall k :: k in settings <==> k in order[..i]
      invariant forall k :: k in settings ==> settings[k] == ValueString(parsed[k])
    {
      var key := order[i];
      var value := parsed[key];
      match value
      case Items(l) =>
        settings := settings[key := Join(l, ",")];
        settings := settings[key := "[" + settings[key] + "]"];
      case Text(s) =>
        settings := settings[key := s];
    }
    assert order[..|order|] == order;
  }

  // ---------------------------------------------------------------------------
  // Parsing (lines 92-102)

  /** The class `[,|\[|\]]`: a comma, a bar or a bracket. */
  predicate IsListChar(c: char)
  {
    c == ',' || c == '|' || c == '[' || c == ']'
  }

  /** `re.search(r'[,|\[|\]]', value)` finds something. */
  predicate LooksLikeList(s: string)
  {
    exists i :: 0 <= i < |s| && IsListChar(s[i])
  }

  /** The characters `re.sub(r'[^a-zA-Z_,]+', '', value)` keeps. */
  predicate IsKept(c: char)
  {
    'a' <= c <= 'z' || 'A' <= c <= 'Z' || c == '_' || c == ','
  }

  /** A name of letters and underscores. */
  predicate IsName(s: string)
  {
    forall i :: 0 <= i < |s| ==> IsKept(s[i]) && s[i] != ','
  }

  /** The string without the characters `re.sub` deletes. */
  function KeptChars(s: string): (r: string)
    ensures forall i :: 0 <= i < |r| ==> IsKept(r[i])
    ensures |r| <= |s|
  {
    if |s| == 0 then []
    else (if IsKept(s[0]) then [s[0]] else []) + KeptChars(s[1..])
  }

  /** Deleting characters works piece by piece. */
  lemma {:induction false} KeptCharsAppend(a: string, b: string)
    ensures KeptChars(a + b) == KeptChars(a) + KeptChars(b)
    decreases |a|
  {
    if |a| > 0 {
      KeptCharsAppend(a[1..], b);
      assert (a + b)[1..] == a[1..] + b;
    } else {
      assert a + b == b;
    }
  }

  /** A string of kept characters is left as it is. */
  lemma {:induction false} KeptCharsAllKept(s: string)
    requires forall i :: 0 <= i < |s| ==> IsKept(s[i])
    ensures KeptChars(s) == s
    decreases |s|
  {
    if |s| > 0 {
      KeptCharsAllKept(s[1..]);
    }
  }

  /** How `parse` reads one value: a list when a list character occurs in it,
    * else the string unchanged. */
  function ParseValue(value: string): (r: SettingValue)
    ensures r.Text? <==> !LooksLikeList(value)
    ensures r.Text? ==> r.text == value
    ensures r.Items? ==> forall i :: 0 <= i < |r.items| ==> IsName(r.items[i])
  {
    if LooksLikeList(value) then
      var kept := KeptChars(value);
      var items := Split(kept, ',');
      assert forall i :: 0 <= i < |items| ==> IsName(items[i]) by {
        forall i | 0 <= i < |items|
          ensures IsName(items[i])
        {
          SplitPieces(kept, ',', i);
        }
      }
      Items(items)
    else Text(value)
  }

  /** Each piece of a split string consists of characters of the string. */
  lemma {:induction false} SplitPieces(s: string, sep: char, k: nat)
    requires forall i :: 0 <= i < |s| ==> IsKept(s[i])
    requires k < |Split(s, sep)|
    ensures forall i :: 0 <= i < |Split(s, sep)[k]| ==> IsKept(Split(s, sep)[k][i]) && Split(s, sep)[k][i] != sep
    decreases |s|
  {
    var p := Split(s, sep)[k];
    assert sep !in p;
    if |s| > 0 {
      var rest := Split(s[1..], sep);
      if s[0] == sep {
        if k > 0 {
          SplitPieces(s[1..], sep, k - 1);
        }
      } else if k > 0 {
        SplitPieces(s[1..], sep, k);
      } else {
        SplitPieces(s[1..], sep, 0);
        assert p == [s[0]] + rest[0];
      }
    }
  }

  /** The section with every value read back. */
  function ParsedSection(d: map<string, string>): (r: map<string, SettingValue>)
    ensures r.Keys == d.Keys
  {
    map k | k in d :: ParseValue(d[k])
  }

  /** `parse(str_settings_dict)` on its 'DEFAULT' section, key by key. */
  method Parse(strSettings: map<string, string>, order: seq<string>) returns (settings: map<string, SettingValue>)
    requires OrderOf(order, strSettings)
    ensures settings == ParsedSection(strSettings)
  {
    settings := map[];
    for i := 0 to |order|
      invariant forall k :: k in settings <==> k in order[..i]
      invariant forall k :: k in settings ==> settings[k] == ParseValue(strSettings[k])
    {
      var key := order[i];
      var value := strSettings[key];
      if LooksLikeList(value) {
        settings := settings[key := Items(Split(KeptChars(value), ','))];
      } else {
        settings := settings[key := Text(value)];
      }
    }
    assert order[..|order|] == order;
  }

  /** A non-empty list of names is written and read back unchanged. */
  lemma ListRoundTrip(l: seq<string>)
    requires |l| > 0
    requires forall i :: 0 <= i < |l| ==> IsName(l[i])
    ensures ParseValue(ValueString(Items(l))) == Items(l)
  {
    var j := Join(l, ",");
    var s := "[" + j + "]";
    assert IsListChar(s[0]);
    KeptCharsAppend("[" + j, "]");
    KeptCharsAppend("[", j);
    JoinKept(l);
    KeptCharsAllKept(j);
    assert KeptChars(s) == j;
    forall i | 0 <= i < |l|
      ensures ',' !in l[i]
    {
      assert forall c :: c in l[i] ==> c != ',';
    }
    SplitJoin(l, ',');
  }

  /** Names joined with commas consist of kept characters. */
  lemma {:induction false} JoinKept(l: seq<string>)
    requires forall i :: 0 <= i < |l| ==> IsName(l[i])
    ensures forall i :: 0 <= i < |Join(l, ",")| ==> IsKept(Join(l, ",")[i])
    decreases |l|
  {
    if |l| > 1 {
      JoinKept(l[1..]);
      var j := Join(l[1..], ",");
      assert Join(l, ",") == l[0] + "," + j;
      forall i | 0 <= i < |Join(l, ",")|
        ensures IsKept(Join(l, ",")[i])
      {
        if i < |l[0]| {
          assert Join(l, ",")[i] == l[0][i];
        } else if i > |l[0]| {
          assert Join(l, ",")[i] == j[i - |l[0]| - 1];
        }
      }
    }
  }

  /** The empty list is written '[]' and read back as a list holding one
    * empty name. */
  lemma EmptyListReadsBackAsEmptyName()
    ensures ParseValue(ValueString(Items([]))) == Items([""])
  {
    var s := ValueString(Items([]));
    assert s == "[]";
    assert IsListChar(s[0]);
    assert KeptChars(s) == "";
  }

  /** A string with no list character is written and read back unchanged. */
  lemma TextRoundTrip(s: string)
    requires !LooksLikeList(s)
    ensures ParseValue(ValueString(Text(s))) == Text(s)
  {
  }

  // ---------------------------------------------------------------------------
  // The merge of `__init__` (lines 67-86)

  /** The default section with the file's value for every key the file has. */
  function Merged(defaults: map<string, string>, file: map<string, string>): map<string, string>
  {
    map k | k in defaults :: if k in file then file[k] else defaults[k]
  }

  /** The merge keeps exactly the default keys, takes the file's value where
    * there is one and the default elsewhere; it equals the file's settings
    * exactly when the file has the same keys as the defaults. */
  lemma MergedMeaning(defaults: map<string, string>, file: map<string, string>)
    ensures Merged(defaults, file).Keys == defaults.Keys
    ensures forall k :: k in defaults && k in file ==> Merged(defaults, file)[k] == file[k]
    ensures forall k :: k in defaults && k !in file ==> Merged(defaults, file)[k] == defaults[k]
    ensures Merged(defaults, file) == file <==> defaults.Keys == file.Keys
  {
    var m := Merged(defaults, file);
    if defaults.Keys == file.Keys {
      assert forall k :: k in m ==> m[k] == file[k];
    }
  }

  /** `update_required` after `__init__`: no file settings, or a file whose
    * merge with the defaults is not the file itself. */
  function UpdateRequired(defaults: map<string, string>, file: Option<map<string, string>>): bool
  {
    file.None? || Merged(defaults, file.value) != file.value
  }

  /** The file need not be rewritten exactly when it holds every default key
    * and no other. */
  lemma UpdateRequiredMeaning(defaults: map<string, string>, file: Option<map<string, string>>)
    ensures !UpdateRequired(defaults, file) <==> file.Some? && file.value.Keys == defaults.Keys
  {
    if file.Some? {
      MergedMeaning(defaults, file.value);
    }
  }

  /** The file settings as strings, `None` when there are none. */
  function FileStrings(fileSettings: Option<map<string, SettingValue>>): Option<map<string, string>>
  {
    match fileSettings
    case None => None
    case Some(d) => Some(SectionStrings(d))
  }

  /** The loop of lines 77-81 over the default keys. */
  method Merge(defaults: map<string, string>, order: seq<string>, file: map<string, string>)
    returns (updated: map<string, string>)
    requires OrderOf(order, defaults)
    ensures updated == Merged(defaults, file)
  {
    updated := defaults;
    assert updated == MergedOver(defaults, file, order[..0]);
    for i := 0 to |order|
      invariant updated == MergedOver(defaults, file, order[..i])
    {
      var key := order[i];
      MergedOverSnoc(defaults, file, order, i);
      if key in file {
        updated := updated[key := file[key]];
      }
    }
    assert order[..|order|] == order;
  }

  /** The merge after the keys in `done` have been looked up in the file. */
  function MergedOver(defaults: map<string, string>, file: map<string, string>, done: seq<string>): map<string, string>
  {
    map k | k in defaults :: if k in file && k in done then file[k] else defaults[k]
  }

  /** Looking up one more default key updates that key and no other. */
  lemma MergedOverSnoc(defaults: map<string, string>, file: map<string, string>, order: seq<string>, i: nat)
    requires OrderOf(order, defaults) && i < |order|
    ensures var before := MergedOver(defaults, file, order[..i]);
      MergedOver(defaults, file, order[..i + 1])
        == if order[i] in file then before[order[i] := file[order[i]]] else before
  {
    assert order[..i + 1] == order[..i] + [order[i]];
  }

  class DefaultSettings {
    var updateRequired: bool
    /** The 'DEFAULT' section of `self.settings`. */
    var settings: map<string, string>

    /** `DefaultSettings(file_settings)`: `fileSettings` is the 'DEFAULT'
      * section of the settings read from the file, `fileOrder` its keys;
      * `None` stands for `None` and for an empty dictionary. */
    constructor(fileSettings: Option<map<string, SettingValue>>, fileOrder: seq<string>)
      requires fileSettings.Some? ==> OrderOf(fileOrder, fileSettings.value)
      ensures settings.Keys == SETTINGS.Keys
      ensures fileSettings.None? ==> settings == SectionStrings(SETTINGS) && updateRequired
      ensures fileSettings.Some? ==>
        settings == Merged(SectionStrings(SETTINGS), SectionStrings(fileSettings.value))
      ensures updateRequired == UpdateRequired(SectionStrings(SETTINGS), FileStrings(fileSettings))
    {
      var required := true;
      var strUpdated := ValuesToString(SETTINGS, SETTINGS_ORDER);
      if fileSettings.Some? {
        var strSettings := ValuesToString(fileSettings.value, fileOrder);
        strUpdated := Merge(strUpdated, SETTINGS_ORDER, strSettings);
        MergedMeaning(SectionStrings(SETTINGS), strSettings);
        if strUpdated == strSettings {
          required := false;
        }
      }
      updateRequired := required;
      settings := strUpdated;
    }
  }
}
