/**
 * The per-key configuration entries of the bridge. An entry is whatever
 * `json.loads` produced for it; the bridge only asks of it whether it is
 * truthy (`bool(c)`), what its `icon` member is and whether it has a
 * `color` member. Also: the icon selection of `update_key` and the default
 * configuration built when `data.json` cannot be loaded.
 */
module KeySpec {
  import opened Wrappers
  import opened Text

  /** A decoded JSON value; numbers are restricted to integers. */
  datatype Json =
    | JNull
    | JBool(b: bool)
    | JNum(n: int)
    | JStr(s: string)
    | JArr(items: seq<Json>)
    | JObj(fields: seq<(string, Json)>)

  /** The configuration document `{brightness, keys}` held in memory and in `data.json`. */
  datatype Config = Config(brightness: int, keys: seq<Json>)

  /** The entry `{}` used for an unconfigured key. */
  const EmptyEntry: Json := JObj([])

  const DefaultBrightness: int := 60
  const DefaultColor: string := "blue"
  const MdiPrefix: string := "mdi:"
  const IconUrlPrefix: string := "https://raw.githubusercontent.com/Templarian/MaterialDesign-SVG/refs/heads/master/svg/"
  const IconUrlSuffix: string := ".svg"

  /** Python's `bool(v)`: false exactly for null, false, 0, "", [] and {}. */
  predicate Truthy(v: Json)
    ensures Truthy(v) <==> v !in {JNull, JBool(false), JNum(0), JStr(""), JArr([]), JObj([])}
  {
    match v
    case JNull => false
    case JBool(b) => b
    case JNum(n) => n != 0
    case JStr(s) => s != ""
    case JArr(xs) => xs != []
    case JObj(fs) => fs != []
  }

  /**
   * `obj[name]` on a decoded object: the value of the LAST member with that
   * name (`json.loads` keeps the last of duplicate names), None when absent.
   */
  function Member(fields: seq<(string, Json)>, name: string): Option<Json>
    decreases |fields|
  {
    if fields == [] then None
    else if fields[|fields| - 1].0 == name then Some(fields[|fields| - 1].1)
    else Member(fields[..|fields| - 1], name)
  }

  /** The lookup fails exactly when no member has the name, and otherwise finds the last one. */
  lemma {:induction false} MemberMeaning(fields: seq<(string, Json)>, name: string)
    ensures var r := Member(fields, name);
            && (r.None? <==> forall i :: 0 <= i < |fields| ==> fields[i].0 != name)
            && (r.Some? ==> exists i :: 0 <= i < |fields| && fields[i] == (name, r.value) &&
                                        forall j :: i < j < |fields| ==> fields[j].0 != name)
    decreases |fields|
  {
    if fields != [] && fields[|fields| - 1].0 != name {
      var init := fields[..|fields| - 1];
      MemberMeaning(init, name);
      var r := Member(init, name);
      assert forall i :: 0 <= i < |init| ==> init[i] == fields[i];
      if r.Some? {
        var i :| 0 <= i < |init| && init[i] == (name, r.value) &&
                 forall j :: i < j < |init| ==> init[j].0 != name;
        assert fields[i] == (name, r.value);
      }
    }
  }

  /** `key_config["icon"]`; None where the lookup raises (not an object, or no `icon` member). */
  function IconOf(entry: Json): Option<Json> {
    if entry.JObj? then Member(entry.fields, "icon") else None
  }

  /** `key_config["color"]` when `"color" in key_config`, else None. */
  function ColorOf(entry: Json): Option<Json> {
    if entry.JObj? then Member(entry.fields, "color") else None
  }

  /**
   * `key_config["icon"]` succeeds exactly on an object with an `icon`
   * member, and `"color" in key_config` holds exactly on an object with a
   * `color` member.
   */
  lemma EntryLookups(entry: Json)
    ensures IconOf(entry).Some? <==>
              entry.JObj? && exists i :: 0 <= i < |entry.fields| && entry.fields[i].0 == "icon"
    ensures ColorOf(entry).Some? <==>
              entry.JObj? && exists i :: 0 <= i < |entry.fields| && entry.fields[i].0 == "color"
  {
    if entry.JObj? {
      MemberMeaning(entry.fields, "icon");
      MemberMeaning(entry.fields, "color");
    }
  }

  /** Where the picture of a key comes from. */
  datatype IconSource =
    | Remote(url: string, fill: Json)   // fetched from the icon repository, fill colour set
    | Markup(svg: string)               // the icon string itself, rasterised as is

  /** The icon repository's address for an asset name. */
  function IconUrl(name: string): string {
    IconUrlPrefix + name + IconUrlSuffix
  }

  /** The asset name of an `mdi:` icon: the text after its last colon. */
  function AssetName(icon: string): string {
    LastSegment(icon, ':')
  }

  /**
   * Icon selection in `update_key`: an icon string starting with `mdi:` is
   * fetched by asset name with the entry's colour (default "blue") as fill;
   * any other string is inline markup; a non-string icon makes
   * `startswith` raise inside the `try`, so nothing is drawn (None).
   */
  function SelectIcon(icon: Json, color: Option<Json>): (r: Option<IconSource>)
    ensures r.Some? <==> icon.JStr?
    ensures r.Some? ==> (r.value.Remote? <==> StartsWith(icon.s, MdiPrefix))
    ensures r.Some? && r.value.Markup? ==> r.value.svg == icon.s
    ensures r.Some? && r.value.Remote? ==>
              r.value.fill == (if color.Some? then color.value else JStr(DefaultColor))
  {
    match icon
    case JStr(s) =>
      if StartsWith(s, MdiPrefix) then
        Some(Remote(IconUrl(AssetName(s)), color.GetOr(JStr(DefaultColor))))
      else Some(Markup(s))
    case _ => None
  }

  /**
   * The asset name fetched for an `mdi:` icon holds no colon and is preceded
   * by one: the icon is `<anything>:<name>`.
   */
  lemma RemoteAssetName(s: string, color: Option<Json>)
    requires StartsWith(s, MdiPrefix)
    ensures var name := AssetName(s);
            ':' !in name && |name| < |s| &&
            s == s[..|s| - |name| - 1] + ":" + name &&
            SelectIcon(JStr(s), color) == Some(Remote(IconUrl(name), color.GetOr(JStr(DefaultColor))))
  {
    var name := AssetName(s);
    assert s[3] == ':';
    assert s == s[..|s| - |name| - 1] + [s[|s| - |name| - 1]] + s[|s| - |name|..];
  }

  /** `mdi:<name>` with a colon-free name fetches exactly `<name>`. */
  lemma IconFetchesMdiName(name: string, color: Option<Json>)
    requires ':' !in name
    ensures SelectIcon(JStr(MdiPrefix + name), color) ==
            Some(Remote(IconUrlPrefix + name + IconUrlSuffix, color.GetOr(JStr(DefaultColor))))
  {
    var s := MdiPrefix + name;
    assert s == "mdi" + [':'] + name;
    LastSegmentAfter("mdi", ':', name);
    assert StartsWith(s, MdiPrefix) by { assert s[..|MdiPrefix|] == MdiPrefix; }
  }

  /** The default key list: one `{}` per key of the device. */
  function DefaultKeys(keyCount: nat): seq<Json> {
    seq(keyCount, _ => EmptyEntry)
  }

  /**
   * The configuration used when `data.json` will not load: brightness 60
   * and the key list built by appending `{}` once per key.
   */
  method DefaultConfig(keyCount: nat) returns (c: Config)
    ensures c.brightness == DefaultBrightness
    ensures |c.keys| == keyCount
    ensures forall i :: 0 <= i < keyCount ==> c.keys[i] == EmptyEntry
  {
    var keys: seq<Json> := [];
    var i := 0;
    while i < keyCount
      invariant 0 <= i <= keyCount
      invariant |keys| == i
      invariant forall j :: 0 <= j < i ==> keys[j] == EmptyEntry
    {
      keys := keys + [EmptyEntry];
      i := i + 1;
    }
    c := Config(DefaultBrightness, keys);
  }

  /** Every default entry is empty, so a bulk refresh draws none of them. */
  lemma DefaultKeysAreEmpty(keyCount: nat)
    ensures |DefaultKeys(keyCount)| == keyCount
    ensures forall i :: 0 <= i < keyCount ==> !Truthy(DefaultKeys(keyCount)[i])
  {
  }
}
