/**
 * The settings record (answer mode, auto-next delay and layout choices),
 * its validation when it is read back from storage, and its reducers.
 */
module SettingsSlice {
  import opened Common

  /** The settings as a value, each choice held by its name. */
  datatype SettingsState = SettingsState(
    mode: string,
    autoNextDelayMs: int,
    sidebarVariant: string,
    sidebarCollapsible: string,
    contentMaxWidth: string)

  /** `defaultState` */
  function DefaultState(): SettingsState {
    SettingsState("auto", 1200, "floating", "icon", "6xl")
  }

  predicate IsMode(s: string) {
    s == "auto" || s == "manual"
  }

  predicate IsSidebarVariant(s: string) {
    s == "sidebar" || s == "floating" || s == "inset"
  }

  predicate IsSidebarCollapsible(s: string) {
    s == "offcanvas" || s == "icon" || s == "none"
  }

  predicate IsContentMaxWidth(s: string) {
    s == "2xl" || s == "3xl" || s == "4xl" || s == "5xl" || s == "6xl" || s == "7xl" || s == "full"
  }

  /** Every choice is one its type admits and the delay is not negative. */
  predicate ValidSettings(s: SettingsState) {
    && IsMode(s.mode)
    && s.autoNextDelayMs >= 0
    && IsSidebarVariant(s.sidebarVariant)
    && IsSidebarCollapsible(s.sidebarCollapsible)
    && IsContentMaxWidth(s.contentMaxWidth)
  }

  /** A stored property passes a guard: it is present, a string, and one the guard admits. */
  predicate Passes(v: Option<Json>, admits: string -> bool) {
    v.Some? && v.value.JStr? && admits(v.value.s)
  }

  /** A stored property is a finite number. */
  predicate IsFiniteNumber(v: Option<Json>) {
    v.Some? && v.value.JNum? && v.value.n.Finite?
  }

  /** A guard applied to a property as read, with the default in its place when it fails. */
  function ChoiceOr(v: Option<Json>, admits: string -> bool, default: string): (s: string)
    ensures Passes(v, admits) ==> s == v.value.s
    ensures !Passes(v, admits) ==> s == default
  {
    if Passes(v, admits) then v.value.s else default
  }

  /** `Math.max(0, Math.floor(v))` for a finite number; `None` for a non-finite one. */
  function ClampDelay(v: JsNumber): (d: Option<int>)
    ensures d.Some? <==> v.Finite?
    ensures d.Some? ==> d.value >= 0
    ensures d.Some? && v.r >= 0.0 ==> d.value as real <= v.r < d.value as real + 1.0
    ensures d.Some? && v.r < 0.0 ==> d.value == 0
  {
    if v.Finite? then Some(Max(0, v.r.Floor)) else None
  }

  /** A clamped delay passes through the clamp unchanged. */
  lemma ClampDelayIdempotent(v: JsNumber)
    requires v.Finite?
    ensures ClampDelay(Finite(ClampDelay(v).value as real)) == ClampDelay(v)
  {
  }

  /** The delay read from a stored property: a finite number, clamped, or the default. */
  function DelayOr(v: Option<Json>, default: int): (d: int)
    ensures IsFiniteNumber(v) ==> d == ClampDelay(v.value.n).value
    ensures !IsFiniteNumber(v) ==> d == default
  {
    if IsFiniteNumber(v) then ClampDelay(v.value.n).value else default
  }

  /**
   * `loadSettings`. `raw` is the stored text (`None` when there is none) and
   * `parsed` what `JSON.parse` makes of it (`None` when it throws).
   */
  function LoadSettings(raw: Option<string>, parsed: Option<Json>): (s: SettingsState)
    ensures ValidSettings(s)
  {
    if raw.None? || raw.value == "" then DefaultState()
    else if parsed.None? || !IsObjectLike(parsed.value) then DefaultState()
    else
      var p := parsed.value;
      var d := DefaultState();
      SettingsState(
        ChoiceOr(Field(p, "mode"), IsMode, d.mode),
        DelayOr(Field(p, "autoNextDelayMs"), d.autoNextDelayMs),
        ChoiceOr(Field(p, "sidebarVariant"), IsSidebarVariant, d.sidebarVariant),
        ChoiceOr(Field(p, "sidebarCollapsible"), IsSidebarCollapsible, d.sidebarCollapsible),
        ChoiceOr(Field(p, "contentMaxWidth"), IsContentMaxWidth, d.contentMaxWidth))
  }

  /** Nothing stored, nothing parseable, or no object: the defaults. */
  lemma LoadFallsBack(raw: Option<string>, parsed: Option<Json>)
    requires raw.None? || raw.value == "" || parsed.None? || !IsObjectLike(parsed.value)
    ensures LoadSettings(raw, parsed) == DefaultState()
  {
  }

  /**
   * Each field is read from its own property alone: two stored objects that
   * agree on one property load to the same value of that field, whatever
   * their other properties hold.
   */
  lemma LoadFieldwise(raw: string, p: Json, q: Json)
    requires raw != "" && IsObjectLike(p) && IsObjectLike(q)
    ensures Field(p, "mode") == Field(q, "mode") ==>
      LoadSettings(Some(raw), Some(p)).mode == LoadSettings(Some(raw), Some(q)).mode
    ensures Field(p, "autoNextDelayMs") == Field(q, "autoNextDelayMs") ==>
      LoadSettings(Some(raw), Some(p)).autoNextDelayMs == LoadSettings(Some(raw), Some(q)).autoNextDelayMs
    ensures Field(p, "sidebarVariant") == Field(q, "sidebarVariant") ==>
      LoadSettings(Some(raw), Some(p)).sidebarVariant == LoadSettings(Some(raw), Some(q)).sidebarVariant
    ensures Field(p, "sidebarCollapsible") == Field(q, "sidebarCollapsible") ==>
      LoadSettings(Some(raw), Some(p)).sidebarCollapsible == LoadSettings(Some(raw), Some(q)).sidebarCollapsible
    ensures Field(p, "contentMaxWidth") == Field(q, "contentMaxWidth") ==>
      LoadSettings(Some(raw), Some(p)).contentMaxWidth == LoadSettings(Some(raw), Some(q)).contentMaxWidth
  {
  }

  /**
   * A property that fails its guard falls back to its own default, whatever
   * else is stored; one that passes is kept (a number clamped).
   */
  lemma LoadFieldOutcomes(raw: string, p: Json)
    requires raw != "" && IsObjectLike(p)
    ensures var s := LoadSettings(Some(raw), Some(p));
      && (!Passes(Field(p, "mode"), IsMode) ==> s.mode == "auto")
      && (!IsFiniteNumber(Field(p, "autoNextDelayMs")) ==> s.autoNextDelayMs == 1200)
      && (!Passes(Field(p, "sidebarVariant"), IsSidebarVariant) ==> s.sidebarVariant == "floating")
      && (!Passes(Field(p, "sidebarCollapsible"), IsSidebarCollapsible) ==> s.sidebarCollapsible == "icon")
      && (!Passes(Field(p, "contentMaxWidth"), IsContentMaxWidth) ==> s.contentMaxWidth == "6xl")
      && (Passes(Field(p, "mode"), IsMode) ==> s.mode == Field(p, "mode").value.s)
      && (IsFiniteNumber(Field(p, "autoNextDelayMs")) ==>
            s.autoNextDelayMs == ClampDelay(Field(p, "autoNextDelayMs").value.n).value)
  {
  }

  /** The settings written out as the object they are stored as. */
  function ToJson(s: SettingsState): Json {
    JObject(map[
      "mode" := JStr(s.mode),
      "autoNextDelayMs" := JNum(Finite(s.autoNextDelayMs as real)),
      "sidebarVariant" := JStr(s.sidebarVariant),
      "sidebarCollapsible" := JStr(s.sidebarCollapsible),
      "contentMaxWidth" := JStr(s.contentMaxWidth)])
  }

  /** Valid settings, stored as an object and loaded back, are unchanged. */
  lemma LoadRoundTrip(s: SettingsState, raw: string)
    requires ValidSettings(s) && raw != ""
    ensures LoadSettings(Some(raw), Some(ToJson(s))) == s
  {
    var p := ToJson(s);
    assert Field(p, "mode") == Some(JStr(s.mode));
    assert Field(p, "autoNextDelayMs") == Some(JNum(Finite(s.autoNextDelayMs as real)));
    assert Field(p, "sidebarVariant") == Some(JStr(s.sidebarVariant));
    assert Field(p, "sidebarCollapsible") == Some(JStr(s.sidebarCollapsible));
    assert Field(p, "contentMaxWidth") == Some(JStr(s.contentMaxWidth));
  }

  /** The settings slice; its initial state is `loadSettings()`. */
  class Settings {
    var mode: string
    var autoNextDelayMs: int
    var sidebarVariant: string
    var sidebarCollapsible: string
    var contentMaxWidth: string

    function State(): SettingsState
      reads this
    {
      SettingsState(mode, autoNextDelayMs, sidebarVariant, sidebarCollapsible, contentMaxWidth)
    }

    ghost predicate Valid()
      reads this
    {
      ValidSettings(State())
    }

    constructor (raw: Option<string>, parsed: Option<Json>)
      ensures State() == LoadSettings(raw, parsed) && Valid()
    {
      var s := LoadSettings(raw, parsed);
      mode, autoNextDelayMs, sidebarVariant := s.mode, s.autoNextDelayMs, s.sidebarVariant;
      sidebarCollapsible, contentMaxWidth := s.sidebarCollapsible, s.contentMaxWidth;
    }

    method SetMode(m: string)
      requires Valid() && IsMode(m)
      modifies this`mode
      ensures Valid() && State() == old(State()).(mode := m)
    {
      mode := m;
    }

    /** Ignores a non-finite number; otherwise stores it floored and clamped at 0. */
    method SetAutoNextDelayMs(v: JsNumber)
      requires Valid()
      modifies this`autoNextDelayMs
      ensures Valid()
      ensures v.Finite? ==> State() == old(State()).(autoNextDelayMs := ClampDelay(v).value)
      ensures !v.Finite? ==> State() == old(State())
    {
      var d := ClampDelay(v);
      if d.Some? {
        autoNextDelayMs := d.value;
      }
    }

    method SetSidebarVariant(v: string)
      requires Valid() && IsSidebarVariant(v)
      modifies this`sidebarVariant
      ensures Valid() && State() == old(State()).(sidebarVariant := v)
    {
      sidebarVariant := v;
    }

    method SetSidebarCollapsible(c: string)
      requires Valid() && IsSidebarCollapsible(c)
      modifies this`sidebarCollapsible
      ensures Valid() && State() == old(State()).(sidebarCollapsible := c)
    {
      sidebarCollapsible := c;
    }

    method SetContentMaxWidth(w: string)
      requires Valid() && IsContentMaxWidth(w)
      modifies this`contentMaxWidth
      ensures Valid() && State() == old(State()).(contentMaxWidth := w)
    {
      contentMaxWidth := w;
    }

    method ResetSettings()
      modifies this
      ensures Valid() && State() == DefaultState()
    {
      mode, autoNextDelayMs, sidebarVariant := "auto", 1200, "floating";
      sidebarCollapsible, contentMaxWidth := "icon", "6xl";
    }
  }

  /** Setting the same delay twice is the same as setting it once. */
  method SetDelayTwice(s: Settings, v: JsNumber)
    requires s.Valid()
    modifies s
    ensures s.Valid()
    ensures v.Finite? ==> s.State() == old(s.State()).(autoNextDelayMs := ClampDelay(v).value)
    ensures !v.Finite? ==> s.State() == old(s.State())
  {
    s.SetAutoNextDelayMs(v);
    s.SetAutoNextDelayMs(v);
  }
}
