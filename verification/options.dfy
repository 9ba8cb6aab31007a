/**
 * The settings record of the options page and the pure transformations the
 * page applies to it: the normalisation done on load, the payload built for
 * saving, the reset of the popup fields, the validation and merge of an
 * imported file, and the two duration inputs.
 */
module Options {
  import opened Optional
  import opened JsValues
  import opened Colors

  /** The editable settings (`draft`), and also the payload written to storage. */
  datatype Settings = Settings(
    enabled: bool,
    showToast: bool,
    toastPosition: JsValue,
    toastScale: real,
    toastDurationMs: real,
    toastBgColor: string,
    toastTextColor: string,
    toastAnimationEnabled: bool,
    toastAnimationDurationMs: real,
    bgColorHistory: seq<string>,
    textColorHistory: seq<string>,
    customCss: string)

  /** The contents of the storage area: key to stored value. */
  type Stored = map<string, JsValue>

  /**
   * The object `STORAGE.get(STORAGE_DEFAULTS)` resolves to: one possibly
   * ill-typed value per settings key. It is also the shape `STORAGE.set` writes.
   */
  datatype StoredRecord = StoredRecord(
    enabled: JsValue,
    showToast: JsValue,
    toastPosition: JsValue,
    toastScale: JsValue,
    toastDurationMs: JsValue,
    toastBgColor: JsValue,
    toastTextColor: JsValue,
    toastAnimationEnabled: JsValue,
    toastAnimationDurationMs: JsValue,
    bgColorHistory: JsValue,
    textColorHistory: JsValue,
    customCss: JsValue)

  const ScaleMin := 0.5
  const ScaleMax := 2.0
  const DurationMinMs := 1000.0
  const DurationMaxMs := 10000.0
  const AnimationMinMs := 100.0
  const AnimationMaxMs := 1000.0

  const DefaultScale := 1.5
  const DefaultDurationMs := 2000.0
  const DefaultAnimationMs := 500.0
  const DefaultBgColor := "#ff0033"
  const DefaultTextColor := "#ffffff"
  const DefaultPosition := "center"

  /** `STORAGE_DEFAULTS`: what a read returns for a key that is not stored. */
  const StorageDefaults: Stored := map[
    "enabled" := Bool(true),
    "showToast" := Bool(true),
    "toastPosition" := Str(DefaultPosition),
    "toastScale" := Num(DefaultScale),
    "toastDurationMs" := Num(DefaultDurationMs),
    "toastBgColor" := Str(DefaultBgColor),
    "toastTextColor" := Str(DefaultTextColor),
    "toastAnimationEnabled" := Bool(true),
    "toastAnimationDurationMs" := Num(DefaultAnimationMs),
    "bgColorHistory" := StrArray(TemplateColors),
    "textColorHistory" := StrArray(TemplateColors),
    "customCss" := Str("")
  ]

  /** `RESET_DEFAULTS`: the values the reset button puts into the seven popup fields. */
  const ResetShowToast := true
  const ResetPosition := Str(DefaultPosition)
  const ResetAnimationEnabled := true
  const ResetTextColor := "#ffffff"
  const ResetBgColor := "#ff0033"
  const ResetAnimationMs := 500.0
  const ResetScale := 1.0

  // ---------------------------------------------------------------------------
  // Arithmetic helpers

  function Max(a: real, b: real): real { if a >= b then a else b }
  function Min(a: real, b: real): real { if a <= b then a else b }

  /** `clamp(v, min, max)`, which is `Math.min(max, Math.max(min, v))`. */
  function Clamp(v: real, lo: real, hi: real): (r: real)
    ensures lo <= hi ==> lo <= r <= hi
    ensures lo <= v <= hi ==> r == v
    ensures lo <= hi && v < lo ==> r == lo
    ensures v > hi ==> r == hi
    ensures lo > hi ==> r == hi
  {
    Min(hi, Max(lo, v))
  }

  /** `Math.round(x)`: the nearest integer, halves rounded up. */
  function RoundHalfUp(x: real): (r: int)
    ensures r as real - 0.5 <= x < r as real + 0.5
  {
    (x + 0.5).Floor
  }

  predicate MultipleOf10(x: real) {
    x == x.Floor as real && x.Floor % 10 == 0
  }

  /** `Math.round(x / 10) * 10`: the nearest multiple of ten. */
  function Snap10(x: real): (r: real)
    ensures MultipleOf10(r)
    ensures x - 5.0 < r <= x + 5.0
  {
    var k := RoundHalfUp(x / 10.0);
    TenTimesIsMultiple(k);
    10.0 * k as real
  }

  lemma TenTimesIsMultiple(k: int)
    ensures MultipleOf10(10.0 * k as real)
  {
    assert 10.0 * k as real == (10 * k) as real;
    assert (10.0 * k as real).Floor == 10 * k;
  }

  lemma RoundOfInteger(k: int)
    ensures RoundHalfUp(k as real) == k
  {
    var r := RoundHalfUp(k as real);
    assert r as real - 0.5 <= k as real < r as real + 0.5;
    assert r - 1 < k < r + 1;
  }

  lemma Snap10Fixed(x: real)
    requires MultipleOf10(x)
    ensures Snap10(x) == x
  {
    var k := x.Floor / 10;
    assert x.Floor == 10 * k;
    assert x == 10.0 * k as real;
    assert x / 10.0 == k as real;
    RoundOfInteger(k);
  }

  lemma Snap10Monotonic(x: real, y: real)
    requires x <= y
    ensures Snap10(x) <= Snap10(y)
  {
    var a := RoundHalfUp(x / 10.0);
    var b := RoundHalfUp(y / 10.0);
    assert x / 10.0 <= y / 10.0;
    assert a as real - 0.5 < b as real + 0.5;
    assert a < b + 1;
  }

  /** The animation duration as load and save normalise it: round to ten, then clamp. */
  function AnimationMs(x: real): (r: real)
    ensures AnimationMinMs <= r <= AnimationMaxMs
    ensures MultipleOf10(r)
    ensures AnimationMinMs <= x <= AnimationMaxMs ==> x - 5.0 < r <= x + 5.0
    ensures x < AnimationMinMs ==> r == AnimationMinMs
    ensures x > AnimationMaxMs ==> r == AnimationMaxMs
  {
    var s := Snap10(x);
    Snap10Fixed(AnimationMinMs);
    Snap10Fixed(AnimationMaxMs);
    if x < AnimationMinMs then
      Snap10Monotonic(x, AnimationMinMs);
      Clamp(s, AnimationMinMs, AnimationMaxMs)
    else if x > AnimationMaxMs then
      Snap10Monotonic(AnimationMaxMs, x);
      Clamp(s, AnimationMinMs, AnimationMaxMs)
    else
      Snap10Monotonic(AnimationMinMs, x);
      Snap10Monotonic(x, AnimationMaxMs);
      Clamp(s, AnimationMinMs, AnimationMaxMs)
  }

  // ---------------------------------------------------------------------------
  // Invariants of the draft

  predicate IsColorHistory(h: seq<string>) {
    h != [] && forall k :: 0 <= k < |h| ==> IsCanonicalColor(h[k])
  }

  /** What every draft the page builds satisfies, whatever was stored or imported. */
  predicate WellFormed(d: Settings) {
    && Truthy(d.toastPosition)
    && IsCanonicalColor(d.toastBgColor)
    && IsCanonicalColor(d.toastTextColor)
    && IsColorHistory(d.bgColorHistory)
    && IsColorHistory(d.textColorHistory)
  }

  /** A well-formed record whose numbers and histories are also within the saved bounds. */
  predicate Bounded(d: Settings) {
    && WellFormed(d)
    && ScaleMin <= d.toastScale <= ScaleMax
    && DurationMinMs <= d.toastDurationMs <= DurationMaxMs
    && AnimationMinMs <= d.toastAnimationDurationMs <= AnimationMaxMs
    && MultipleOf10(d.toastAnimationDurationMs)
    && |d.bgColorHistory| <= MaxHistory
    && |d.textColorHistory| <= MaxHistory
  }

  // ---------------------------------------------------------------------------
  // load

  /** `STORAGE.get(STORAGE_DEFAULTS)[key]`: the stored value, else the default. */
  function Data(stored: Stored, key: string): JsValue {
    if key in stored then stored[key] else Field(StorageDefaults, key)
  }

  /** `STORAGE.get(STORAGE_DEFAULTS)`. */
  function ReadWithDefaults(stored: Stored): StoredRecord {
    StoredRecord(
      enabled := Data(stored, "enabled"),
      showToast := Data(stored, "showToast"),
      toastPosition := Data(stored, "toastPosition"),
      toastScale := Data(stored, "toastScale"),
      toastDurationMs := Data(stored, "toastDurationMs"),
      toastBgColor := Data(stored, "toastBgColor"),
      toastTextColor := Data(stored, "toastTextColor"),
      toastAnimationEnabled := Data(stored, "toastAnimationEnabled"),
      toastAnimationDurationMs := Data(stored, "toastAnimationDurationMs"),
      bgColorHistory := Data(stored, "bgColorHistory"),
      textColorHistory := Data(stored, "textColorHistory"),
      customCss := Data(stored, "customCss"))
  }

  function NumberOr(v: JsValue, default: real): real {
    if v.Num? then v.n else default
  }

  function BoolOr(v: JsValue, default: bool): bool {
    if v.Bool? then v.b else default
  }

  function StringOr(v: JsValue, default: string): string {
    if v.Str? then v.s else default
  }

  /** `v || 'center'`. */
  function PositionOr(v: JsValue): (r: JsValue)
    ensures Truthy(r)
  {
    if Truthy(v) then v else Str(DefaultPosition)
  }

  /** The draft that `load` builds from what the storage read returned. */
  function LoadDraft(data: StoredRecord): (d: Settings)
    ensures Bounded(d)
    ensures d.enabled == Truthy(data.enabled) && d.showToast == Truthy(data.showToast)
    ensures (data.toastDurationMs.Num? && DurationMinMs <= data.toastDurationMs.n <= DurationMaxMs)
              ==> d.toastDurationMs == data.toastDurationMs.n
    ensures data.toastDurationMs.Num? && data.toastDurationMs.n < DurationMinMs ==> d.toastDurationMs == DurationMinMs
    ensures data.toastDurationMs.Num? && data.toastDurationMs.n > DurationMaxMs ==> d.toastDurationMs == DurationMaxMs
    ensures !data.toastDurationMs.Num? ==> d.toastDurationMs == DefaultDurationMs
    ensures Truthy(data.toastPosition) ==> d.toastPosition == data.toastPosition
    ensures !Truthy(data.toastPosition) ==> d.toastPosition == Str(DefaultPosition)
    ensures (data.toastScale.Num? && ScaleMin <= data.toastScale.n <= ScaleMax) ==> d.toastScale == data.toastScale.n
    ensures data.toastScale.Num? && data.toastScale.n < ScaleMin ==> d.toastScale == ScaleMin
    ensures data.toastScale.Num? && data.toastScale.n > ScaleMax ==> d.toastScale == ScaleMax
    ensures !data.toastScale.Num? ==> d.toastScale == DefaultScale
    ensures data.toastAnimationDurationMs.Num? ==> d.toastAnimationDurationMs == AnimationMs(data.toastAnimationDurationMs.n)
    ensures !data.toastAnimationDurationMs.Num? ==> d.toastAnimationDurationMs == DefaultAnimationMs
    ensures NormalizeColor(data.toastBgColor).Some? ==> d.toastBgColor == NormalizeColor(data.toastBgColor).value
    ensures NormalizeColor(data.toastBgColor).None? ==> d.toastBgColor == DefaultBgColor
    ensures NormalizeColor(data.toastTextColor).Some? ==> d.toastTextColor == NormalizeColor(data.toastTextColor).value
    ensures NormalizeColor(data.toastTextColor).None? ==> d.toastTextColor == DefaultTextColor
    ensures data.toastAnimationEnabled.Bool? ==> d.toastAnimationEnabled == data.toastAnimationEnabled.b
    ensures !data.toastAnimationEnabled.Bool? ==> d.toastAnimationEnabled
    ensures data.customCss.Str? ==> d.customCss == data.customCss.s
    ensures !data.customCss.Str? ==> d.customCss == ""
    ensures var full := EnsureHistoryArray(data.bgColorHistory);
            |d.bgColorHistory| == (if |full| <= MaxHistory then |full| else MaxHistory)
            && d.bgColorHistory == full[|full| - |d.bgColorHistory|..]
    ensures var full := EnsureHistoryArray(data.textColorHistory);
            |d.textColorHistory| == (if |full| <= MaxHistory then |full| else MaxHistory)
            && d.textColorHistory == full[|full| - |d.textColorHistory|..]
  {
    assert IsCanonicalColor(DefaultBgColor) && IsCanonicalColor(DefaultTextColor);
    Snap10Fixed(DefaultAnimationMs);
    Settings(
      enabled := Truthy(data.enabled),
      showToast := Truthy(data.showToast),
      toastPosition := PositionOr(data.toastPosition),
      toastScale := Clamp(NumberOr(data.toastScale, DefaultScale), ScaleMin, ScaleMax),
      toastDurationMs := Clamp(NumberOr(data.toastDurationMs, DefaultDurationMs), DurationMinMs, DurationMaxMs),
      toastBgColor := NormalizeColor(data.toastBgColor).GetOr(DefaultBgColor),
      toastTextColor := NormalizeColor(data.toastTextColor).GetOr(DefaultTextColor),
      toastAnimationEnabled := BoolOr(data.toastAnimationEnabled, true),
      toastAnimationDurationMs := AnimationMs(NumberOr(data.toastAnimationDurationMs, DefaultAnimationMs)),
      bgColorHistory := NewestHistory(EnsureHistoryArray(data.bgColorHistory)),
      textColorHistory := NewestHistory(EnsureHistoryArray(data.textColorHistory)),
      customCss := StringOr(data.customCss, ""))
  }

  /** `while (h.length > 10) h.shift()` applied to a cleaned history. */
  function NewestHistory(h: seq<string>): (r: seq<string>)
    requires IsColorHistory(h)
    ensures IsColorHistory(r) && |r| <= MaxHistory
    ensures |r| == (if |h| <= MaxHistory then |h| else MaxHistory) && r == h[|h| - |r|..]
  {
    var r := Newest(h, MaxHistory);
    assert forall k :: 0 <= k < |r| ==> r[k] == h[|h| - |r| + k];
    r
  }

  // ---------------------------------------------------------------------------
  // buildSavePayload and the stored form

  /** The first `MaxHistory` entries (`h.slice(0, 10)`). */
  function Oldest(h: seq<string>): (r: seq<string>)
    ensures |r| == if |h| <= MaxHistory then |h| else MaxHistory
    ensures r == h[..|r|]
  {
    if |h| <= MaxHistory then h else h[..MaxHistory]
  }

  /**
   * `buildSavePayload()`. `customCss` is already a string in every draft, so
   * `String(draft.customCss || '')` is the string itself.
   */
  function BuildSavePayload(d: Settings): (p: Settings)
    ensures ScaleMin <= p.toastScale <= ScaleMax
    ensures DurationMinMs <= p.toastDurationMs <= DurationMaxMs
    ensures AnimationMinMs <= p.toastAnimationDurationMs <= AnimationMaxMs && MultipleOf10(p.toastAnimationDurationMs)
    ensures DurationMinMs <= d.toastDurationMs <= DurationMaxMs ==> p.toastDurationMs == d.toastDurationMs
    ensures |p.bgColorHistory| <= MaxHistory && |p.bgColorHistory| <= |d.bgColorHistory|
            && p.bgColorHistory == d.bgColorHistory[..|p.bgColorHistory|]
    ensures |p.textColorHistory| <= MaxHistory && |p.textColorHistory| <= |d.textColorHistory|
            && p.textColorHistory == d.textColorHistory[..|p.textColorHistory|]
    ensures |p.bgColorHistory| == if |d.bgColorHistory| <= MaxHistory then |d.bgColorHistory| else MaxHistory
    ensures |p.textColorHistory| == if |d.textColorHistory| <= MaxHistory then |d.textColorHistory| else MaxHistory
    ensures ScaleMin <= d.toastScale <= ScaleMax ==> p.toastScale == d.toastScale
    ensures d.toastScale < ScaleMin ==> p.toastScale == ScaleMin
    ensures d.toastScale > ScaleMax ==> p.toastScale == ScaleMax
    ensures d.toastDurationMs < DurationMinMs ==> p.toastDurationMs == DurationMinMs
    ensures d.toastDurationMs > DurationMaxMs ==> p.toastDurationMs == DurationMaxMs
    ensures p.toastAnimationDurationMs == AnimationMs(d.toastAnimationDurationMs)
    ensures p.enabled == d.enabled && p.showToast == d.showToast && p.customCss == d.customCss
    ensures p.toastPosition == d.toastPosition && p.toastAnimationEnabled == d.toastAnimationEnabled
    ensures p.toastBgColor == d.toastBgColor && p.toastTextColor == d.toastTextColor
    ensures WellFormed(d) ==> Bounded(p)
  {
    Settings(
      enabled := d.enabled,
      showToast := d.showToast,
      toastPosition := d.toastPosition,
      toastScale := Clamp(d.toastScale, ScaleMin, ScaleMax),
      toastDurationMs := Clamp(d.toastDurationMs, DurationMinMs, DurationMaxMs),
      toastBgColor := d.toastBgColor,
      toastTextColor := d.toastTextColor,
      toastAnimationEnabled := d.toastAnimationEnabled,
      toastAnimationDurationMs := AnimationMs(d.toastAnimationDurationMs),
      bgColorHistory := Oldest(d.bgColorHistory),
      textColorHistory := Oldest(d.textColorHistory),
      customCss := d.customCss)
  }

  /** The record `STORAGE.set` writes. */
  function Encode(p: Settings): StoredRecord {
    StoredRecord(
      enabled := Bool(p.enabled),
      showToast := Bool(p.showToast),
      toastPosition := p.toastPosition,
      toastScale := Num(p.toastScale),
      toastDurationMs := Num(p.toastDurationMs),
      toastBgColor := Str(p.toastBgColor),
      toastTextColor := Str(p.toastTextColor),
      toastAnimationEnabled := Bool(p.toastAnimationEnabled),
      toastAnimationDurationMs := Num(p.toastAnimationDurationMs),
      bgColorHistory := StrArray(p.bgColorHistory),
      textColorHistory := StrArray(p.textColorHistory),
      customCss := Str(p.customCss))
  }

  /** Saving a record that is already within bounds changes nothing. */
  lemma SaveOfBoundedIsIdentity(d: Settings)
    requires Bounded(d)
    ensures BuildSavePayload(d) == d
  {
    Snap10Fixed(d.toastAnimationDurationMs);
  }

  /** Saving right after loading writes back exactly the loaded draft. */
  lemma LoadThenSave(data: StoredRecord)
    ensures BuildSavePayload(LoadDraft(data)) == LoadDraft(data)
  {
    SaveOfBoundedIsIdentity(LoadDraft(data));
  }

  /** A bounded record, once stored, loads back as itself. */
  lemma LoadOfStoredBounded(p: Settings)
    requires Bounded(p)
    ensures LoadDraft(Encode(p)) == p
  {
    var e := Encode(p);
    var l := LoadDraft(e);
    CanonicalIsFixed(p.toastBgColor);
    CanonicalIsFixed(p.toastTextColor);
    assert l.toastBgColor == p.toastBgColor && l.toastTextColor == p.toastTextColor;
    EnsureHistoryOfStored(p.bgColorHistory);
    EnsureHistoryOfStored(p.textColorHistory);
    assert l.bgColorHistory == p.bgColorHistory && l.textColorHistory == p.textColorHistory;
    Snap10Fixed(p.toastAnimationDurationMs);
    assert l.toastAnimationDurationMs == p.toastAnimationDurationMs;
    assert l.toastScale == p.toastScale && l.toastDurationMs == p.toastDurationMs;
  }

  /** The storage area after `STORAGE.set(payload)`: every settings key holds the payload's value. */
  function Store(p: Settings): (stored: Stored)
    ensures forall key :: key in stored <==> key in StorageDefaults
  {
    var e := Encode(p);
    map[
      "enabled" := e.enabled,
      "showToast" := e.showToast,
      "toastPosition" := e.toastPosition,
      "toastScale" := e.toastScale,
      "toastDurationMs" := e.toastDurationMs,
      "toastBgColor" := e.toastBgColor,
      "toastTextColor" := e.toastTextColor,
      "toastAnimationEnabled" := e.toastAnimationEnabled,
      "toastAnimationDurationMs" := e.toastAnimationDurationMs,
      "bgColorHistory" := e.bgColorHistory,
      "textColorHistory" := e.textColorHistory,
      "customCss" := e.customCss
    ]
  }

  /** Reading a stored payload back with the defaults gives the stored values, none of the defaults. */
  lemma ReadStoredPayload(p: Settings)
    ensures ReadWithDefaults(Store(p)) == Encode(p)
  {
  }

  /** Loading what was saved gives back exactly the saved payload. */
  lemma SaveThenLoad(d: Settings)
    requires WellFormed(d)
    ensures LoadDraft(ReadWithDefaults(Store(BuildSavePayload(d)))) == BuildSavePayload(d)
  {
    ReadStoredPayload(BuildSavePayload(d));
    LoadOfStoredBounded(BuildSavePayload(d));
  }

  /**
   * Whether `syncUiFromDraft` throws for the draft `d`. The one conversion in it
   * that can fail is the position, which it assigns to the position control's
   * `value` (options.js:314); that setter converts its argument to a string.
   * Every other field it shows is a boolean, a number or a string by then.
   */
  predicate SyncThrows(d: Settings) {
    StringThrows(d.toastPosition)
  }

  /** A falsy position becomes `center`, so the position shown throws exactly when the given one does. */
  lemma PositionOrThrows(v: JsValue)
    ensures StringThrows(PositionOr(v)) <==> StringThrows(v)
  {
  }

  /** What `load` leaves behind: the draft, if it was assigned, and whether it ended with an exception. */
  datatype LoadOutcome = LoadOutcome(draft: Option<Settings>, threw: bool)

  /**
   * `load` with its exceptions. The object literal is complete before `draft` is
   * assigned, so a colour or history conversion that throws leaves no draft at
   * all. Once the draft is assigned, `syncUiFromDraft` (options.js:418) can
   * still throw on the position; the draft then stays.
   */
  function Load(data: StoredRecord): (r: LoadOutcome)
    ensures r.draft.None? <==>
      || StringThrows(data.toastBgColor) || StringThrows(data.toastTextColor)
      || (data.bgColorHistory.Arr? && StringThrows(data.bgColorHistory))
      || (data.textColorHistory.Arr? && StringThrows(data.textColorHistory))
    ensures r.draft.Some? ==> r.draft.value == LoadDraft(data)
    ensures r.threw <==> r.draft.None? || StringThrows(data.toastPosition)
  {
    if || NormalizeColorOrThrow(data.toastBgColor).Threw?
       || NormalizeColorOrThrow(data.toastTextColor).Threw?
       || EnsureHistoryArrayOrThrow(data.bgColorHistory).Threw?
       || EnsureHistoryArrayOrThrow(data.textColorHistory).Threw?
    then LoadOutcome(None, true)
    else
      var d := LoadDraft(data);
      PositionOrThrows(data.toastPosition);
      LoadOutcome(Some(d), SyncThrows(d))
  }

  /**
   * What the page saved from a well-formed draft always loads back as the saved
   * payload; the load ends with an exception only when the saved position is a
   * value whose `String()` throws.
   */
  lemma StoredPayloadLoads(d: Settings)
    requires WellFormed(d)
    ensures var r := Load(ReadWithDefaults(Store(BuildSavePayload(d))));
            r.draft == Some(BuildSavePayload(d)) && (r.threw <==> StringThrows(d.toastPosition))
  {
    var p := BuildSavePayload(d);
    ReadStoredPayload(p);
    StoredHistoryNeverThrows(p.bgColorHistory);
    StoredHistoryNeverThrows(p.textColorHistory);
    SaveThenLoad(d);
  }

  /** The draft `load` builds when nothing is stored: the documented defaults. */
  const DefaultSettings := Settings(
    enabled := true,
    showToast := true,
    toastPosition := Str(DefaultPosition),
    toastScale := DefaultScale,
    toastDurationMs := DefaultDurationMs,
    toastBgColor := DefaultBgColor,
    toastTextColor := DefaultTextColor,
    toastAnimationEnabled := true,
    toastAnimationDurationMs := DefaultAnimationMs,
    bgColorHistory := TemplateColors,
    textColorHistory := TemplateColors,
    customCss := "")

  /** `STORAGE_DEFAULTS` is the stored form of the default draft. */
  lemma ReadEmptyStorage()
    ensures ReadWithDefaults(map[]) == Encode(DefaultSettings)
  {
  }

  /** With nothing stored, load yields exactly the defaults. */
  lemma EmptyStorageLoadsDefaults()
    ensures LoadDraft(ReadWithDefaults(map[])) == DefaultSettings
  {
    ReadEmptyStorage();
    assert IsCanonicalColor(DefaultBgColor) && IsCanonicalColor(DefaultTextColor);
    assert MultipleOf10(DefaultAnimationMs) by {
      TenTimesIsMultiple(50);
    }
    LoadOfStoredBounded(DefaultSettings);
  }

  // ---------------------------------------------------------------------------
  // resetSettings

  datatype ResetResult = ResetResult(draft: Option<Settings>, saved: Option<Settings>)

  predicate PopupFieldsAtResetDefaults(d: Settings) {
    && d.showToast == ResetShowToast
    && d.toastPosition == ResetPosition
    && d.toastAnimationEnabled == ResetAnimationEnabled
    && d.toastTextColor == ResetTextColor
    && d.toastBgColor == ResetBgColor
    && d.toastAnimationDurationMs == ResetAnimationMs
    && d.toastScale == ResetScale
  }

  /** `a` and `b` agree on every field outside the seven popup fields. */
  predicate SameOutsidePopup(a: Settings, b: Settings) {
    && a.enabled == b.enabled
    && a.toastDurationMs == b.toastDurationMs
    && a.bgColorHistory == b.bgColorHistory
    && a.textColorHistory == b.textColorHistory
    && a.customCss == b.customCss
  }

  /**
   * `resetSettings()` after the user answered the confirmation dialog with
   * `confirmed`; `saved` is what is written to storage, if anything.
   */
  function ResetSettings(confirmed: bool, draft: Option<Settings>): (r: ResetResult)
    ensures !confirmed || draft.None? ==> r == ResetResult(draft, None)
    ensures confirmed && draft.Some? ==>
      && r.draft.Some?
      && PopupFieldsAtResetDefaults(r.draft.value)
      && SameOutsidePopup(r.draft.value, draft.value)
      && r.saved == Some(BuildSavePayload(r.draft.value))
    ensures confirmed && draft.Some? && WellFormed(draft.value) ==> WellFormed(r.draft.value) && Bounded(r.saved.value)
  {
    if !confirmed then ResetResult(draft, None)
    else if draft.None? then ResetResult(draft, None)
    else
      var d := draft.value.(
        showToast := ResetShowToast,
        toastPosition := ResetPosition,
        toastAnimationEnabled := ResetAnimationEnabled,
        toastTextColor := ResetTextColor,
        toastBgColor := ResetBgColor,
        toastAnimationDurationMs := ResetAnimationMs,
        toastScale := ResetScale);
      ResetResult(Some(d), Some(BuildSavePayload(d)))
  }

  // ---------------------------------------------------------------------------
  // handleImportFile

  /**
   * A chosen file: its MIME type, its name, and the value `JSON.parse` gives
   * for its text (`None` when reading or parsing throws).
   */
  datatype ImportFile = ImportFile(mimeType: string, name: string, parsed: Option<JsValue>)

  /** The notice shown: nothing, "not supported", or "loaded". */
  datatype ImportNotice = NoNotice | Unsupported | Loaded

  datatype ImportResult = ImportResult(draft: Option<Settings>, notice: ImportNotice)

  const RequiredFields: seq<string> := ["enabled", "showToast", "toastPosition", "toastScale", "toastDurationMs"]

  /** `s.endsWith(suffix)`. */
  predicate EndsWith(s: string, suffix: string) {
    |suffix| <= |s| && s[|s| - |suffix|..] == suffix
  }

  /** `s` ends with `suffix` exactly when `s` is something followed by `suffix`. */
  lemma EndsWithIsSuffix(s: string, suffix: string)
    ensures EndsWith(s, suffix) <==> exists front :: s == front + suffix
  {
    if EndsWith(s, suffix) {
      assert s == s[..|s| - |suffix|] + suffix;
    }
    forall front | s == front + suffix
      ensures EndsWith(s, suffix)
    {
      assert s[|s| - |suffix|..] == suffix;
    }
  }

  /** `file.type === 'application/json' || file.name.endsWith('.json')`. */
  predicate IsJsonFile(f: ImportFile)
    ensures IsJsonFile(f) <==> f.mimeType == "application/json" || exists front :: f.name == front + ".json"
  {
    EndsWithIsSuffix(f.name, ".json");
    f.mimeType == "application/json" || EndsWith(f.name, ".json")
  }

  /**
   * `requiredFields.every(field => field in payload)`. The `in` operator throws
   * on a payload that is not an object (the throw ends in the same notice as a
   * missing field); an array has none of these keys.
   */
  predicate HasRequiredFields(payload: JsValue)
    ensures HasRequiredFields(payload) <==>
      && payload.Obj?
      && "enabled" in payload.fields && "showToast" in payload.fields && "toastPosition" in payload.fields
      && "toastScale" in payload.fields && "toastDurationMs" in payload.fields
  {
    assert RequiredFields[0] == "enabled" && RequiredFields[1] == "showToast" && RequiredFields[2] == "toastPosition";
    assert RequiredFields[3] == "toastScale" && RequiredFields[4] == "toastDurationMs";
    payload.Obj? && forall i :: 0 <= i < |RequiredFields| ==> RequiredFields[i] in payload.fields
  }

  /** The merge of an accepted payload's fields into the draft. */
  function MergeImport(d: Settings, fields: map<string, JsValue>): (r: Settings)
    ensures r.enabled == Truthy(Field(fields, "enabled")) && r.showToast == Truthy(Field(fields, "showToast"))
    ensures Truthy(Field(fields, "toastPosition")) ==> r.toastPosition == fields["toastPosition"]
    ensures !Truthy(Field(fields, "toastPosition")) ==> r.toastPosition == Str(DefaultPosition)
    ensures Field(fields, "toastScale").Num? ==> r.toastScale == fields["toastScale"].n
    ensures !Field(fields, "toastScale").Num? ==> r.toastScale == DefaultScale
    ensures Field(fields, "toastDurationMs").Num? ==> r.toastDurationMs == fields["toastDurationMs"].n
    ensures !Field(fields, "toastDurationMs").Num? ==> r.toastDurationMs == DefaultDurationMs
    ensures Field(fields, "toastAnimationDurationMs").Num? ==> r.toastAnimationDurationMs == fields["toastAnimationDurationMs"].n
    ensures !Field(fields, "toastAnimationDurationMs").Num? ==> r.toastAnimationDurationMs == DefaultAnimationMs
    ensures NormalizeColor(Field(fields, "toastBgColor")).Some? ==> r.toastBgColor == NormalizeColor(fields["toastBgColor"]).value
    ensures NormalizeColor(Field(fields, "toastBgColor")).None? ==> r.toastBgColor == d.toastBgColor
    ensures NormalizeColor(Field(fields, "toastTextColor")).Some? ==> r.toastTextColor == NormalizeColor(fields["toastTextColor"]).value
    ensures NormalizeColor(Field(fields, "toastTextColor")).None? ==> r.toastTextColor == d.toastTextColor
    ensures Field(fields, "toastAnimationEnabled").Bool? ==> r.toastAnimationEnabled == fields["toastAnimationEnabled"].b
    ensures !Field(fields, "toastAnimationEnabled").Bool? ==> r.toastAnimationEnabled
    ensures r.bgColorHistory == EnsureHistoryArray(Field(fields, "bgColorHistory"))
    ensures r.textColorHistory == EnsureHistoryArray(Field(fields, "textColorHistory"))
    ensures Field(fields, "customCss").Str? ==> r.customCss == fields["customCss"].s
    ensures !Field(fields, "customCss").Str? ==> r.customCss == ""
    ensures WellFormed(d) ==> WellFormed(r)
  {
    Settings(
      enabled := Truthy(Field(fields, "enabled")),
      showToast := Truthy(Field(fields, "showToast")),
      toastPosition := PositionOr(Field(fields, "toastPosition")),
      toastScale := NumberOr(Field(fields, "toastScale"), DefaultScale),
      toastDurationMs := NumberOr(Field(fields, "toastDurationMs"), DefaultDurationMs),
      toastBgColor := NormalizeColor(Field(fields, "toastBgColor")).GetOr(d.toastBgColor),
      toastTextColor := NormalizeColor(Field(fields, "toastTextColor")).GetOr(d.toastTextColor),
      toastAnimationEnabled := BoolOr(Field(fields, "toastAnimationEnabled"), true),
      toastAnimationDurationMs := NumberOr(Field(fields, "toastAnimationDurationMs"), DefaultAnimationMs),
      bgColorHistory := EnsureHistoryArray(Field(fields, "bgColorHistory")),
      textColorHistory := EnsureHistoryArray(Field(fields, "textColorHistory")),
      customCss := StringOr(Field(fields, "customCss"), ""))
  }

  /**
   * Whether one of the four conversions in the merge throws: `normalizeColor`
   * of either colour, or `ensureHistoryArray` of either history.
   */
  predicate ImportThrows(fields: map<string, JsValue>) {
    || NormalizeColorOrThrow(Field(fields, "toastBgColor")).Threw?
    || NormalizeColorOrThrow(Field(fields, "toastTextColor")).Threw?
    || EnsureHistoryArrayOrThrow(Field(fields, "bgColorHistory")).Threw?
    || EnsureHistoryArrayOrThrow(Field(fields, "textColorHistory")).Threw?
  }

  /**
   * The draft the merge leaves behind, and whether it stopped with an exception.
   * The assignments run one after the other on the draft itself, so those
   * before a throwing one stay done.
   */
  datatype MergeOutcome = MergeOutcome(draft: Settings, threw: bool)

  /**
   * The settings field (numbered 1 to 12 in the order the merge assigns them)
   * whose assignment throws first, or 13 when none does.
   */
  function FirstThrow(fields: map<string, JsValue>): (k: nat)
    ensures k == 6 || k == 7 || k == 10 || k == 11 || k == 13
    ensures k <= 12 <==> ImportThrows(fields)
    ensures k == 6 <==> NormalizeColorOrThrow(Field(fields, "toastBgColor")).Threw?
    ensures k == 7 ==> NormalizeColorOrThrow(Field(fields, "toastTextColor")).Threw?
    ensures k == 10 ==> EnsureHistoryArrayOrThrow(Field(fields, "bgColorHistory")).Threw?
    ensures k == 11 ==> EnsureHistoryArrayOrThrow(Field(fields, "textColorHistory")).Threw?
    ensures k > 7 ==> NormalizeColorOrThrow(Field(fields, "toastTextColor")).Returned?
    ensures k > 10 ==> EnsureHistoryArrayOrThrow(Field(fields, "bgColorHistory")).Returned?
  {
    if NormalizeColorOrThrow(Field(fields, "toastBgColor")).Threw? then 6
    else if NormalizeColorOrThrow(Field(fields, "toastTextColor")).Threw? then 7
    else if EnsureHistoryArrayOrThrow(Field(fields, "bgColorHistory")).Threw? then 10
    else if EnsureHistoryArrayOrThrow(Field(fields, "textColorHistory")).Threw? then 11
    else 13
  }

  /** The record with `m`'s value for every field numbered below `k` and `d`'s for the rest. */
  function AssignedBefore(m: Settings, d: Settings, k: nat): Settings {
    Settings(
      enabled := (if 1 < k then m else d).enabled,
      showToast := (if 2 < k then m else d).showToast,
      toastPosition := (if 3 < k then m else d).toastPosition,
      toastScale := (if 4 < k then m else d).toastScale,
      toastDurationMs := (if 5 < k then m else d).toastDurationMs,
      toastBgColor := (if 6 < k then m else d).toastBgColor,
      toastTextColor := (if 7 < k then m else d).toastTextColor,
      toastAnimationEnabled := (if 8 < k then m else d).toastAnimationEnabled,
      toastAnimationDurationMs := (if 9 < k then m else d).toastAnimationDurationMs,
      bgColorHistory := (if 10 < k then m else d).bgColorHistory,
      textColorHistory := (if 11 < k then m else d).textColorHistory,
      customCss := (if 12 < k then m else d).customCss)
  }

  /**
   * The merge as the page runs it: twelve assignments in order, where the two
   * colour and the two history assignments can throw and end the merge there.
   */
  function ImportMerge(d: Settings, fields: map<string, JsValue>): (r: MergeOutcome)
    ensures r.threw <==> ImportThrows(fields)
  {
    var m := MergeImport(d, fields);
    var d5 := d.(
      enabled := m.enabled, showToast := m.showToast, toastPosition := m.toastPosition,
      toastScale := m.toastScale, toastDurationMs := m.toastDurationMs);
    if NormalizeColorOrThrow(Field(fields, "toastBgColor")).Threw? then MergeOutcome(d5, true)
    else
      var d6 := d5.(toastBgColor := m.toastBgColor);
      if NormalizeColorOrThrow(Field(fields, "toastTextColor")).Threw? then MergeOutcome(d6, true)
      else
        var d9 := d6.(
          toastTextColor := m.toastTextColor, toastAnimationEnabled := m.toastAnimationEnabled,
          toastAnimationDurationMs := m.toastAnimationDurationMs);
        if EnsureHistoryArrayOrThrow(Field(fields, "bgColorHistory")).Threw? then MergeOutcome(d9, true)
        else
          var d10 := d9.(bgColorHistory := m.bgColorHistory);
          if EnsureHistoryArrayOrThrow(Field(fields, "textColorHistory")).Threw? then MergeOutcome(d10, true)
          else MergeOutcome(d10.(textColorHistory := m.textColorHistory, customCss := m.customCss), false)
  }

  /**
   * The merge leaves every field before the first throwing assignment merged
   * and every later one as it was; without a throw it is the whole merge.
   */
  lemma ImportMergeAssigns(d: Settings, fields: map<string, JsValue>)
    ensures ImportMerge(d, fields).draft == AssignedBefore(MergeImport(d, fields), d, FirstThrow(fields))
    ensures !ImportMerge(d, fields).threw ==> ImportMerge(d, fields).draft == MergeImport(d, fields)
    ensures WellFormed(d) ==> WellFormed(ImportMerge(d, fields).draft)
  {
  }

  /**
   * Whether an accepted payload ends in the `catch`: the merge throws, or it
   * completes and `syncUiFromDraft` (options.js:627) throws on the position.
   */
  predicate ImportRejected(fields: map<string, JsValue>) {
    ImportThrows(fields) || StringThrows(Field(fields, "toastPosition"))
  }

  /** The file passes the type check and parses to a payload with the required keys. */
  predicate Accepted(file: ImportFile) {
    IsJsonFile(file) && file.parsed.Some? && HasRequiredFields(file.parsed.value)
  }

  /**
   * `handleImportFile(file)` as the page runs it; `file` is `None` when no file
   * was chosen. A merge that throws lands in the same `catch` as a bad file and
   * shows "not supported", but leaves behind the assignments that ran. So does a
   * merge that completes when the form sync then throws on the position; the
   * draft then holds the whole merge.
   */
  function HandleImportFile(file: Option<ImportFile>, draft: Option<Settings>): (r: ImportResult)
    ensures r.notice == NoNotice ==> r.draft == draft
    ensures file.Some? && !Accepted(file.value) ==> r == ImportResult(draft, Unsupported)
    ensures r.notice == Unsupported <==>
      file.Some? && (!Accepted(file.value) || (draft.Some? && ImportRejected(file.value.parsed.value.fields)))
    ensures r.notice == Loaded <==>
      file.Some? && Accepted(file.value) && draft.Some? && !ImportRejected(file.value.parsed.value.fields)
    ensures r.notice == Loaded ==> r.draft == Some(MergeImport(draft.value, file.value.parsed.value.fields))
    ensures file.Some? && Accepted(file.value) && draft.Some? ==>
      r.draft == Some(AssignedBefore(MergeImport(draft.value, file.value.parsed.value.fields), draft.value,
                                     FirstThrow(file.value.parsed.value.fields)))
    ensures (r.notice == Loaded && NormalizeColor(Field(file.value.parsed.value.fields, "toastBgColor")).None?)
              ==> r.draft.value.toastBgColor == draft.value.toastBgColor
    ensures draft.Some? && WellFormed(draft.value) ==> r.draft.Some? && WellFormed(r.draft.value)
  {
    if file.None? then ImportResult(draft, NoNotice)
    else if !IsJsonFile(file.value) then ImportResult(draft, Unsupported)
    else if file.value.parsed.None? then ImportResult(draft, Unsupported)
    else if !HasRequiredFields(file.value.parsed.value) then ImportResult(draft, Unsupported)
    else if draft.None? then ImportResult(draft, NoNotice)
    else
      ImportMergeAssigns(draft.value, file.value.parsed.value.fields);
      PositionOrThrows(Field(file.value.parsed.value.fields, "toastPosition"));
      var o := ImportMerge(draft.value, file.value.parsed.value.fields);
      ImportResult(Some(o.draft), if o.threw || SyncThrows(o.draft) then Unsupported else Loaded)
  }

  /**
   * A file whose background colour is an object with a `toString` key: the
   * page reports "not supported", yet the draft has already been switched off
   * by the `enabled` assignment that ran before the colour threw.
   */
  lemma RejectedImportStillChangesDraft()
    ensures var fields := map[
              "enabled" := Bool(false), "showToast" := Bool(true), "toastPosition" := Str("top"),
              "toastScale" := Num(1.0), "toastDurationMs" := Num(3000.0),
              "toastBgColor" := Obj(map["toString" := Num(0.0)])];
            var r := HandleImportFile(Some(ImportFile("application/json", "a.json", Some(Obj(fields)))), Some(DefaultSettings));
            r.notice == Unsupported && r.draft.Some? && r.draft.value.enabled != DefaultSettings.enabled
  {
    var fields := map[
      "enabled" := Bool(false), "showToast" := Bool(true), "toastPosition" := Str("top"),
      "toastScale" := Num(1.0), "toastDurationMs" := Num(3000.0),
      "toastBgColor" := Obj(map["toString" := Num(0.0)])];
    assert HasRequiredFields(Obj(fields));
    assert StringThrows(Field(fields, "toastBgColor"));
    assert FirstThrow(fields) == 6;
  }

  /**
   * A file whose position is an object with a `toString` key: the whole merge
   * runs, then the form sync throws, so the page reports "not supported" with
   * the imported settings already in the draft.
   */
  lemma RejectedPositionImportIsMerged()
    ensures var fields := map[
              "enabled" := Bool(false), "showToast" := Bool(true),
              "toastPosition" := Obj(map["toString" := Num(0.0)]),
              "toastScale" := Num(1.0), "toastDurationMs" := Num(3000.0)];
            var r := HandleImportFile(Some(ImportFile("application/json", "a.json", Some(Obj(fields)))), Some(DefaultSettings));
            r.notice == Unsupported && r.draft == Some(MergeImport(DefaultSettings, fields))
            && r.draft.value.enabled != DefaultSettings.enabled
  {
    var fields := map[
      "enabled" := Bool(false), "showToast" := Bool(true),
      "toastPosition" := Obj(map["toString" := Num(0.0)]),
      "toastScale" := Num(1.0), "toastDurationMs" := Num(3000.0)];
    assert HasRequiredFields(Obj(fields));
    assert Field(fields, "toastBgColor") == Undefined && Field(fields, "toastTextColor") == Undefined;
    assert Field(fields, "bgColorHistory") == Undefined && Field(fields, "textColorHistory") == Undefined;
    assert !ImportThrows(fields);
    assert StringThrows(Field(fields, "toastPosition"));
  }

  /**
   * `handleImportFile` with the merge made all-or-nothing, as its messages
   * promise: a file reported as not supported leaves the draft as it was.
   */
  function HandleImportFileAtomic(file: Option<ImportFile>, draft: Option<Settings>): (r: ImportResult)
    ensures r.notice != Loaded ==> r.draft == draft
    ensures r.notice == Unsupported <==>
      file.Some? && (!Accepted(file.value) || (draft.Some? && ImportRejected(file.value.parsed.value.fields)))
    ensures r.notice == Loaded <==>
      file.Some? && Accepted(file.value) && draft.Some? && !ImportRejected(file.value.parsed.value.fields)
    ensures r.notice == Loaded ==> r.draft == Some(MergeImport(draft.value, file.value.parsed.value.fields))
    ensures draft.Some? && WellFormed(draft.value) ==> r.draft.Some? && WellFormed(r.draft.value)
  {
    var r := HandleImportFile(file, draft);
    if r.notice == Loaded then r else ImportResult(draft, r.notice)
  }

  /** The two agree on every notice, and on every file that does not end in the `catch`. */
  lemma AtomicImportAgrees(file: Option<ImportFile>, draft: Option<Settings>)
    ensures HandleImportFileAtomic(file, draft).notice == HandleImportFile(file, draft).notice
    ensures (file.Some? && file.value.parsed.Some? && file.value.parsed.value.Obj? && !ImportRejected(file.value.parsed.value.fields))
              ==> HandleImportFileAtomic(file, draft) == HandleImportFile(file, draft)
  {
  }

  /** An import never yields a draft a save would have to repair beyond clamping and truncation. */
  lemma ImportThenSaveIsBounded(file: Option<ImportFile>, d: Settings)
    requires WellFormed(d)
    ensures var r := HandleImportFileAtomic(file, Some(d));
            r.draft.Some? && Bounded(BuildSavePayload(r.draft.value))
    ensures var r := HandleImportFile(file, Some(d));
            r.draft.Some? && Bounded(BuildSavePayload(r.draft.value))
  {
  }

  // ---------------------------------------------------------------------------
  // Duration inputs

  /**
   * The toast duration slider (`input`) and text box (`change`): both set the
   * draft's duration to the clamped seconds times 1000. `value` is the number
   * the field holds.
   */
  function OnDurationInput(draft: Option<Settings>, value: real): (r: Option<Settings>)
    ensures r.Some? <==> draft.Some?
    ensures r.Some? ==>
      && DurationMinMs <= r.value.toastDurationMs <= DurationMaxMs
      && r.value == draft.value.(toastDurationMs := r.value.toastDurationMs)
      && (1.0 <= value <= 10.0 ==> r.value.toastDurationMs == value * 1000.0)
      && (value < 1.0 ==> r.value.toastDurationMs == DurationMinMs)
      && (value > 10.0 ==> r.value.toastDurationMs == DurationMaxMs)
  {
    if draft.None? then None
    else
      var sec := Clamp(value, 1.0, 10.0);
      Some(draft.value.(toastDurationMs := sec * 1000.0))
  }

  /** The animation duration slider: clamp to [100, 1000], then round to a multiple of ten. */
  function OnAnimationDurationInput(draft: Option<Settings>, value: real): (r: Option<Settings>)
    ensures r.Some? <==> draft.Some?
    ensures r.Some? ==>
      && AnimationMinMs <= r.value.toastAnimationDurationMs <= AnimationMaxMs
      && MultipleOf10(r.value.toastAnimationDurationMs)
      && r.value == draft.value.(toastAnimationDurationMs := r.value.toastAnimationDurationMs)
  {
    if draft.None? then None
    else
      var v := Clamp(value, AnimationMinMs, AnimationMaxMs);
      Snap10Monotonic(AnimationMinMs, v);
      Snap10Monotonic(v, AnimationMaxMs);
      Snap10Fixed(AnimationMinMs);
      Snap10Fixed(AnimationMaxMs);
      Some(draft.value.(toastAnimationDurationMs := Snap10(v)))
  }

  /**
   * The slider clamps before rounding, load and save round before clamping;
   * because both bounds are multiples of ten the two orders agree.
   */
  lemma AnimationOrderAgrees(d: Settings, value: real)
    ensures OnAnimationDurationInput(Some(d), value).value.toastAnimationDurationMs == AnimationMs(value)
  {
    var v := Clamp(value, AnimationMinMs, AnimationMaxMs);
    Snap10Fixed(AnimationMinMs);
    Snap10Fixed(AnimationMaxMs);
    if value < AnimationMinMs {
      Snap10Monotonic(value, AnimationMinMs);
    } else if value > AnimationMaxMs {
      Snap10Monotonic(AnimationMaxMs, value);
    } else {
      Snap10Monotonic(AnimationMinMs, value);
      Snap10Monotonic(value, AnimationMaxMs);
    }
  }
}
