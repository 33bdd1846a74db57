/**
 * The entries AppConf declares: each key with its bound and its default.
 * What the defaults are drawn from (Random, Build.DEVICE, Build.MANUFACTURER,
 * Build.MODEL, ByteArray.toString()) comes in as parameters.
 */
module AppConfig {
  import opened Wrappers

  /** The constraint an entry is declared with; integer and length bounds are inclusive. */
  datatype Bound =
    | IntRange(min: int, max: int)
    | Length(minLength: nat, maxLength: nat)
    | Choice(options: seq<string>)
    | AnyBool

  datatype Value = IntValue(i: int) | StrValue(s: string) | BoolValue(b: bool)

  datatype Entry = Entry(key: string, bound: Bound, default: Value)

  /** The value satisfies the bound. */
  predicate Admits(b: Bound, v: Value)
  {
    match b
    case IntRange(min, max) => v.IntValue? && min <= v.i <= max
    case Length(minLength, maxLength) => v.StrValue? && minLength <= |v.s| <= maxLength
    case Choice(options) => v.StrValue? && v.s in options
    case AnyBool => v.BoolValue?
  }

  /** The option keys of both notification policies. */
  const PolicyOptions: seq<string> := ["no", "one", "all"]

  const DefaultDownloadDirectory: string := "content://com.android.providers.downloads.documents/tree/downloads"

  /** What the platform reports: Build.DEVICE, Build.MANUFACTURER, Build.MODEL. */
  datatype Build = Build(device: string, manufacturer: string, model: string)

  /**
   * `s.chunked(n)[0]`: the first `n` characters. An empty string has no chunk,
   * so the index fails (None).
   */
  function FirstChunk(s: string, n: nat): (r: Option<string>)
    requires n > 0
    ensures r.None? <==> s == []
    ensures r.Some? ==> 0 < |r.value| <= n && |r.value| <= |s| && r.value == s[..|r.value|]
    ensures r.Some? && |r.value| < n ==> r.value == s
  {
    if s == [] then None
    else if |s| <= n then Some(s)
    else Some(s[..n])
  }

  /** A SelectEntry's default given by index: the key of the option at that index. */
  function SelectDefault(options: seq<string>, index: nat): (r: Option<string>)
    ensures r.Some? <==> index < |options|
    ensures r.Some? ==> r.value == options[index] && r.value in options
  {
    if index < |options| then Some(options[index]) else None
  }

  /**
   * The entries of AppConf in declaration order, or None when building them
   * fails (an empty Build.DEVICE has no first chunk). `uinDraw` is what
   * Random.nextInt(UIN_MIN, UIN_MAX) returned and `byteArrayText` what
   * ByteArray.toString() returned.
   */
  function AppConfEntries(uinMin: int, uinMax: int, uinDraw: int, build: Build, byteArrayText: string): Option<seq<Entry>>
  {
    var name := FirstChunk(build.device, 40);
    var description := FirstChunk("Manufacturer: " + build.manufacturer + ", model: " + build.model, 200);
    var policy := SelectDefault(PolicyOptions, 1);
    if name.None? || description.None? || policy.None? then None
    else Some([
      Entry("uin", IntRange(uinMin, uinMax), IntValue(uinDraw)),
      Entry("name", Length(0, 40), StrValue(name.value)),
      Entry("description", Length(0, 200), StrValue(description.value)),
      Entry("password", Length(0, 4096), StrValue("P" + byteArrayText)),
      Entry("cellularData", AnyBool, BoolValue(false)),
      Entry("notificationListenerService", AnyBool, BoolValue(false)),
      Entry("autoSearch", AnyBool, BoolValue(true)),
      Entry("downloadNotificationPolicy", Choice(PolicyOptions), StrValue(policy.value)),
      Entry("uploadNotificationPolicy", Choice(PolicyOptions), StrValue(policy.value)),
      Entry("downloadDirectory", Length(0, 200), StrValue(DefaultDownloadDirectory))
    ])
  }

  /** The default of the entry with key `key`. */
  function DefaultOf(entries: seq<Entry>, key: string): Option<Value>
  {
    if entries == [] then None
    else if entries[0].key == key then Some(entries[0].default)
    else DefaultOf(entries[1..], key)
  }

  /** With distinct keys, the default found for a key is that of the one entry declaring it. */
  lemma {:induction false} DefaultOfAt(entries: seq<Entry>, i: nat)
    requires i < |entries|
    requires forall j :: 0 <= j < i ==> entries[j].key != entries[i].key
    ensures DefaultOf(entries, entries[i].key) == Some(entries[i].default)
  {
    if i > 0 {
      DefaultOfAt(entries[1..], i - 1);
    }
  }

  /** No key of AppConf is declared twice. */
  lemma {:induction false} KeysDistinct(es: seq<Entry>, uinMin: int, uinMax: int, uinDraw: int, build: Build, byteArrayText: string)
    requires AppConfEntries(uinMin, uinMax, uinDraw, build, byteArrayText) == Some(es)
    ensures forall i, j :: 0 <= i < j < |es| ==> es[i].key != es[j].key
  {
    forall i, j | 0 <= i < j < |es|
      ensures es[i].key != es[j].key
    {
      assert |es[i].key| != |es[j].key|;
    }
  }

  /** Each default satisfies the bound its entry declares. */
  lemma {:induction false} DefaultsAdmitted(es: seq<Entry>, uinMin: int, uinMax: int, uinDraw: int, build: Build, byteArrayText: string)
    requires uinMin <= uinDraw < uinMax
    requires |byteArrayText| < 4096
    requires AppConfEntries(uinMin, uinMax, uinDraw, build, byteArrayText) == Some(es)
    ensures forall i :: 0 <= i < |es| ==> Admits(es[i].bound, es[i].default)
  {
    assert |DefaultDownloadDirectory| <= 200;
  }

  /**
   * Every AppConf default lies within its declared bound and no key is
   * declared twice, whenever the random draws fall in the range they are
   * drawn from: the uin draw in [UIN_MIN, UIN_MAX) and the password text
   * short enough for its 4096-character bound. The name and description
   * defaults are cut to 40 and 200 characters, and both notification
   * policies default to "one", option 1 of no/one/all.
   */
  lemma {:induction false} DefaultsWithinBounds(uinMin: int, uinMax: int, uinDraw: int, build: Build, byteArrayText: string)
    requires uinMin <= uinDraw < uinMax
    requires |byteArrayText| < 4096
    ensures var r := AppConfEntries(uinMin, uinMax, uinDraw, build, byteArrayText);
      && (r.Some? <==> build.device != [])
      && (r.Some? ==>
            && (forall i :: 0 <= i < |r.value| ==> Admits(r.value[i].bound, r.value[i].default))
            && (forall i, j :: 0 <= i < j < |r.value| ==> r.value[i].key != r.value[j].key)
            && DefaultOf(r.value, "uin") == Some(IntValue(uinDraw))
            && DefaultOf(r.value, "downloadNotificationPolicy") == Some(StrValue("one"))
            && DefaultOf(r.value, "uploadNotificationPolicy") == Some(StrValue("one")))
  {
    var r := AppConfEntries(uinMin, uinMax, uinDraw, build, byteArrayText);
    if r.Some? {
      var es := r.value;
      DefaultsAdmitted(es, uinMin, uinMax, uinDraw, build, byteArrayText);
      KeysDistinct(es, uinMin, uinMax, uinDraw, build, byteArrayText);
      DefaultOfAt(es, 0);
      DefaultOfAt(es, 7);
      DefaultOfAt(es, 8);
    }
  }
}
