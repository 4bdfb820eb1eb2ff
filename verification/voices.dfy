/**
 * The driver's voice bookkeeping: the language-tag tables, the resolution of
 * an NVDA language tag to an Eloquence voice id, the default/current voice and
 * language-override state, and the variant setting.
 */
module Voices {
  import opened Common
  import opened Rpc
  import opened VoiceParams

  /**
   * One Eloquence voice: its code, its numeric id as a string, and its BCP-47
   * tag split at the `-` into primary subtag and region. Every use of a tag
   * lower-cases it first, so the subtags are kept lower-cased.
   */
  datatype Voice = Voice(code: string, id: string, primary: string, region: string) {
    function Tag(): string {
      primary + "-" + region
    }
  }

  /**
   * `VOICE_BCP47` in its declaration order, each code paired with the id
   * `langs` gives it. The derived tables below all follow this order.
   */
  const Table: seq<Voice> := [
    Voice("enu", "65536", "en", "us"),
    Voice("eng", "65537", "en", "gb"),
    Voice("esp", "131072", "es", "es"),
    Voice("esm", "131073", "es", "419"),
    Voice("ptb", "458752", "pt", "br"),
    Voice("fra", "196608", "fr", "fr"),
    Voice("frc", "196609", "fr", "ca"),
    Voice("deu", "262144", "de", "de"),
    Voice("ita", "327680", "it", "it"),
    Voice("fin", "589824", "fi", "fi"),
    Voice("chs", "393216", "zh", "cn"),
    Voice("jpn", "524288", "ja", "jp"),
    Voice("kor", "655360", "ko", "kr")
  ]

  /** `str.lower()` restricted to ASCII letters. */
  function Lower(s: string): (r: string)
    ensures |r| == |s|
    ensures forall i :: 0 <= i < |s| ==> r[i] == (if 'A' <= s[i] <= 'Z' then s[i] - 'A' + 'a' else s[i])
  {
    seq(|s|, i requires 0 <= i < |s| => if 'A' <= s[i] <= 'Z' then s[i] - 'A' + 'a' else s[i])
  }

  /** `s.lower().replace("_", "-")` */
  function Normalize(s: string): (r: string)
    ensures |r| == |s|
    ensures forall i :: 0 <= i < |s| ==> r[i] != '_' && r[i] == (if s[i] == '_' then '-' else Lower(s)[i])
  {
    var l := Lower(s);
    seq(|l|, i requires 0 <= i < |l| => if l[i] == '_' then '-' else l[i])
  }

  /** `s.partition("-")` without the separator: the text before the first `-`, and after it. */
  function Partition(s: string): (r: (string, string))
    ensures '-' !in r.0
    ensures ('-' in s ==> s == r.0 + "-" + r.1) && ('-' !in s ==> r == (s, ""))
    decreases |s|
  {
    if s == [] then ("", "")
    else if s[0] == '-' then ("", s[1..])
    else
      var rest := Partition(s[1..]);
      assert s == [s[0]] + s[1..];
      ([s[0]] + rest.0, rest.1)
  }

  /** A string with a `-` splits at its first one. */
  lemma {:induction false} PartitionUnique(s: string, a: string, b: string)
    requires s == a + "-" + b && '-' !in a
    ensures Partition(s) == (a, b)
    decreases |a|
  {
    if a == [] {
      assert s[1..] == b;
    } else {
      assert s[0] == a[0];
      assert s[1..] == a[1..] + "-" + b;
      PartitionUnique(s[1..], a[1..], b);
      assert [s[0]] + a[1..] == a;
    }
  }

  /** No primary subtag of the table holds a `-`, so every tag splits back into its subtags. */
  lemma TagsSplit(v: Voice)
    requires v in Table
    ensures Partition(v.Tag()) == (v.primary, v.region)
  {
    assert '-' !in v.primary;
    PartitionUnique(v.Tag(), v.primary, v.region);
  }

  /** `VOICE_ID_TO_BCP47.get(id)`, as the voice it belongs to. */
  function VoiceOfId(vs: seq<Voice>, id: string): (r: Option<Voice>)
    ensures r.Some? <==> exists v :: v in vs && v.id == id
    ensures r.Some? ==> r.value in vs && r.value.id == id
    decreases |vs|
  {
    if vs == [] then None
    else if vs[0].id == id then Some(vs[0])
    else
      var r := VoiceOfId(vs[1..], id);
      assert forall v :: v in vs ==> v == vs[0] || v in vs[1..];
      r
  }

  /** `LANGUAGE_TO_VOICE_ID.get(tag)`: the voice whose lower-cased tag is exactly `tag`. */
  function VoiceOfTag(vs: seq<Voice>, tag: string): (r: Option<Voice>)
    ensures r.Some? <==> exists v :: v in vs && v.Tag() == tag
    ensures r.Some? ==> r.value in vs && r.value.Tag() == tag
    decreases |vs|
  {
    if vs == [] then None
    else if vs[0].Tag() == tag then Some(vs[0])
    else
      var r := VoiceOfTag(vs[1..], tag);
      assert forall v :: v in vs ==> v == vs[0] || v in vs[1..];
      r
  }

  /** `PRIMARY_LANGUAGE_TO_VOICE_IDS.get(primary, [])`, as voices in table order. */
  function Candidates(vs: seq<Voice>, primary: string): (r: seq<Voice>)
    ensures forall v :: v in r <==> v in vs && v.primary == primary
    decreases |vs|
  {
    if vs == [] then []
    else (if vs[0].primary == primary then [vs[0]] else []) + Candidates(vs[1..], primary)
  }

  /** The first candidate whose region is `region`. */
  function FirstInRegion(cs: seq<Voice>, region: string): (r: Option<Voice>)
    ensures r.Some? ==> r.value in cs && r.value.region == region
    ensures r.None? ==> forall v :: v in cs ==> v.region != region
    decreases |cs|
  {
    if cs == [] then None
    else if cs[0].region == region then Some(cs[0])
    else FirstInRegion(cs[1..], region)
  }

  /** The first candidate whose tag ends in `-419`. */
  function FirstLatinAmerican(cs: seq<Voice>): (r: Option<Voice>)
    ensures r.Some? ==> r.value in cs && EndsWith(r.value.Tag(), "-419")
    ensures r.None? ==> forall v :: v in cs ==> !EndsWith(v.Tag(), "-419")
    decreases |cs|
  {
    if cs == [] then None
    else if EndsWith(cs[0].Tag(), "-419") then Some(cs[0])
    else FirstLatinAmerican(cs[1..])
  }

  /**
   * `_resolve_voice_for_language`. An absent or empty tag gives the default
   * voice. Otherwise the tag, lower-cased with `_` turned into `-`, is looked
   * up exactly; failing that, the default voice wins when it has the same
   * primary subtag and either no region was asked for or its region matches;
   * then a mapped voice of the same primary subtag and region; for Spanish,
   * the Latin American voice; the default voice when only its primary subtag
   * matches; and finally the first mapped voice of that primary subtag. A
   * primary subtag with no mapped voice resolves to nothing.
   */
  function ResolveVoice(language: Option<string>, defaultVoice: Option<string>): (r: Option<string>)
    ensures language.None? || language == Some("") ==> r == defaultVoice
    ensures language.Some? && language.value != "" && VoiceOfTag(Table, Normalize(language.value)).Some? ==>
      r == Some(VoiceOfTag(Table, Normalize(language.value)).value.id)
  {
    if language.None? || language.value == "" then defaultVoice
    else
      var normalized := Normalize(language.value);
      match VoiceOfTag(Table, normalized)
      case Some(v) => Some(v.id)
      case None => Fallback(Table, Partition(normalized).0, Partition(normalized).1, defaultVoice)
  }

  /** The default voice's table entry, when it has one. */
  function DefaultEntry(vs: seq<Voice>, defaultVoice: Option<string>): (r: Option<Voice>)
    ensures r.Some? ==> r.value in vs && defaultVoice == Some(r.value.id)
  {
    if defaultVoice.Some? && defaultVoice.value != "" then VoiceOfId(vs, defaultVoice.value) else None
  }

  /** The resolution of a tag that is not mapped exactly, from its primary subtag and region. */
  function Fallback(vs: seq<Voice>, primary: string, region: string, defaultVoice: Option<string>): (r: Option<string>)
    ensures r.Some? && r != defaultVoice ==>
      exists v :: v in vs && v.id == r.value && v.primary == primary
  {
    var default := DefaultEntry(vs, defaultVoice);
    if default.Some? && default.value.primary == primary && (region == "" || default.value.region == region) then
      defaultVoice
    else
      var candidates := Candidates(vs, primary);
      var sameLanguage := default.Some? && default.value.primary == primary;
      Choose(candidates, region, primary == "es", if sameLanguage then defaultVoice else None)
  }

  /**
   * The choice among the candidates of one primary subtag: nothing without
   * candidates; else one of the asked region; else, for Spanish, the Latin
   * American one; else `preferred` when given; else the first candidate.
   */
  function Choose(candidates: seq<Voice>, region: string, spanish: bool, preferred: Option<string>): (r: Option<string>)
    ensures candidates == [] ==> r.None?
    ensures r.Some? && r != preferred ==> exists v :: v in candidates && v.id == r.value
  {
    if candidates == [] then None
    else
      var inRegion := if region != "" then FirstInRegion(candidates, region) else None;
      var latin := if region != "" && spanish then FirstLatinAmerican(candidates) else None;
      if inRegion.Some? then Some(inRegion.value.id)
      else if latin.Some? then Some(latin.value.id)
      else if preferred.Some? then preferred
      else
        assert candidates[0] in candidates;
        Some(candidates[0].id)
  }

  /**
   * Resolution never switches to a voice of another language: whatever it
   * returns is the default voice, or a mapped voice whose primary subtag is
   * the one asked for.
   */
  lemma ResolveKeepsLanguage(language: string, defaultVoice: Option<string>)
    requires language != ""
    ensures var r := ResolveVoice(Some(language), defaultVoice);
      r.Some? && r != defaultVoice ==>
        exists v :: v in Table && v.id == r.value && v.primary == Partition(Normalize(language)).0
  {
    var normalized := Normalize(language);
    var found := VoiceOfTag(Table, normalized);
    if found.Some? {
      TagsSplit(found.value);
      assert found.value.primary == Partition(normalized).0;
    }
  }

  /** Every mapped tag, spelled in any letter case and with `_` for `-`, resolves to its own voice. */
  lemma ResolveExactTag(language: string, defaultVoice: Option<string>, v: Voice)
    requires v in Table && Normalize(language) == v.Tag()
    ensures ResolveVoice(Some(language), defaultVoice) == Some(v.id)
  {
    assert |language| > 0;
    var found := VoiceOfTag(Table, Normalize(language)).value;
    TagsSplit(found);
    TagsSplit(v);
    SubtagsIdentify(found, v);
  }

  /** No two voices share both subtags. */
  lemma SubtagsIdentify(a: Voice, b: Voice)
    requires a in Table && b in Table && a.primary == b.primary && a.region == b.region
    ensures a == b
  {
    var i :| 0 <= i < |Table| && Table[i] == a;
    var j :| 0 <= j < |Table| && Table[j] == b;
  }

  /**
   * A Spanish tag whose region is neither Spain's nor Latin America's
   * resolves to the Latin American voice, whatever the default voice is.
   */
  lemma SpanishFallsBackToLatinAmerican(language: string, region: string, defaultVoice: Option<string>)
    requires Normalize(language) == "es-" + region
    requires region != "es" && region != "419"
    requires region != ""
    ensures ResolveVoice(Some(language), defaultVoice) == Some("131073")
  {
    var normalized := Normalize(language);
    assert normalized == "es" + "-" + region;
    PartitionUnique(normalized, "es", region);
    SpanishRegions();
    PrimariesUndashed();
    NoTagForOtherRegion(Table, "es", region);
    ResolveUnmapped(language, defaultVoice);
    SpanishFallback(region, defaultVoice);
  }

  /** A tag with no exact mapping resolves through the fallback on its subtags. */
  lemma ResolveUnmapped(language: string, defaultVoice: Option<string>)
    requires language != ""
    ensures VoiceOfTag(Table, Normalize(language)).None? ==>
      ResolveVoice(Some(language), defaultVoice) ==
        Fallback(Table, Partition(Normalize(language)).0, Partition(Normalize(language)).1, defaultVoice)
  {
  }

  lemma SpanishRegions()
    ensures forall v :: v in Table && v.primary == "es" ==> v.region == "es" || v.region == "419"
  {
    forall v | v in Table && v.primary == "es" ensures v.region == "es" || v.region == "419" {
      SpanishVoices(v);
    }
  }

  lemma PrimariesUndashed()
    ensures forall v :: v in Table ==> '-' !in v.primary
  {
    forall v | v in Table ensures '-' !in v.primary {
      PrimaryKnown(v);
    }
  }

  /** A region no voice of the primary subtag has is not mapped exactly. */
  lemma NoTagForOtherRegion(vs: seq<Voice>, primary: string, region: string)
    requires forall v :: v in vs && v.primary == primary ==> v.region != region
    requires forall v :: v in vs ==> '-' !in v.primary
    requires '-' !in primary
    ensures VoiceOfTag(vs, primary + "-" + region).None?
  {
    if VoiceOfTag(vs, primary + "-" + region).Some? {
      var v := VoiceOfTag(vs, primary + "-" + region).value;
      PartitionUnique(v.Tag(), v.primary, v.region);
      PartitionUnique(v.Tag(), primary, region);
    }
  }

  lemma SpanishFallback(region: string, defaultVoice: Option<string>)
    requires region != "es" && region != "419" && region != ""
    ensures Fallback(Table, "es", region, defaultVoice) == Some("131073")
  {
    var default := DefaultEntry(Table, defaultVoice);
    if default.Some? && default.value.primary == "es" {
      SpanishVoices(default.value);
      assert default.value.region != region;
    }
    var candidates := Candidates(Table, "es");
    assert Table[3] in Table;
    assert Table[3] in candidates;
    var inRegion := FirstInRegion(candidates, region);
    if inRegion.Some? {
      SpanishVoices(inRegion.value);
      assert false;
    }
    LatinAmericanTags();
    forall v | v in candidates && EndsWith(v.Tag(), "-419") ensures v == Table[3] {
      SpanishVoices(v);
    }
    FirstLatinAmericanIs(candidates, Table[3]);
  }

  /** The first Latin American candidate is the only one. */
  lemma FirstLatinAmericanIs(candidates: seq<Voice>, w: Voice)
    requires w in candidates && EndsWith(w.Tag(), "-419")
    requires forall v :: v in candidates && EndsWith(v.Tag(), "-419") ==> v == w
    ensures FirstLatinAmerican(candidates) == Some(w)
  {
  }

  /** Of the two Spanish tags, only the Latin American one ends in `-419`. */
  lemma LatinAmericanTags()
    ensures EndsWith(Table[3].Tag(), "-419")
    ensures !EndsWith(Table[2].Tag(), "-419")
  {
    assert Table[3].Tag() == "es-419";
    assert Table[2].Tag() == "es-es";
    assert Table[2].Tag()[1..] != "-419";
  }

  /** The two Spanish voices: Castilian and Latin American. */
  lemma SpanishVoices(v: Voice)
    requires v in Table && v.primary == "es"
    ensures v == Table[2] || v == Table[3]
  {
  }

  /** The primary subtags the tables map; any other one has no voice. */
  const KnownPrimaries: set<string> := {"en", "es", "pt", "fr", "de", "it", "fi", "zh", "ja", "ko"}

  lemma PrimaryKnown(v: Voice)
    requires v in Table
    ensures v.primary in KnownPrimaries
  {
  }

  /** A language whose primary subtag no voice has resolves to no voice at all. */
  lemma UnknownPrimaryResolvesToNothing(language: string, defaultVoice: Option<string>)
    requires language != ""
    requires Partition(Normalize(language)).0 !in KnownPrimaries
    ensures ResolveVoice(Some(language), defaultVoice).None?
  {
    var normalized := Normalize(language);
    var found := VoiceOfTag(Table, normalized);
    if found.Some? {
      TagsSplit(found.value);
      PrimaryKnown(found.value);
    } else {
      FallbackUnknown(Partition(normalized).0, Partition(normalized).1, defaultVoice);
    }
  }

  lemma FallbackUnknown(primary: string, region: string, defaultVoice: Option<string>)
    requires primary !in KnownPrimaries
    ensures Fallback(Table, primary, region, defaultVoice).None?
  {
    var default := DefaultEntry(Table, defaultVoice);
    if default.Some? {
      PrimaryKnown(default.value);
    }
    var candidates := Candidates(Table, primary);
    if candidates != [] {
      assert candidates[0] in candidates;
      PrimaryKnown(candidates[0]);
    }
  }

  /** The driver's voice and variant settings. */
  datatype Driver = Driver(
    defaultVoice: Option<string>, // `_defaultVoice`
    curVoice: string,             // `curvoice`
    overrideActive: bool,         // `_languageOverrideActive`
    variant: string,              // `_variant`
    rate: int,                    // `_rate`, in engine units
    pauseMode: int                // `_pause_mode`
  )

  datatype VoiceUpdate = VoiceUpdate(driver: Driver, params: map<int, int>)

  /**
   * `_update_voice_state`: record the voice id in `params[9]` when it is a
   * number, adopt it as the default when asked to or when there is no
   * default yet, make it the current voice, and flag a language override
   * exactly when it was not adopted as the default and differs from it.
   */
  function UpdateVoiceState(d: Driver, params: map<int, int>, voice: string, updateDefault: bool): (r: VoiceUpdate)
    ensures r.driver.curVoice == voice
    ensures r.driver.defaultVoice ==
      if updateDefault || d.defaultVoice.None? || d.defaultVoice == Some("") then Some(voice) else d.defaultVoice
    ensures r.driver.overrideActive <==> !updateDefault && r.driver.defaultVoice != Some(voice)
    ensures ParseInt(voice).Some? ==> r.params == params[VoiceParamId := ParseInt(voice).value]
    ensures ParseInt(voice).None? ==> r.params == params
    ensures r.driver.variant == d.variant && r.driver.rate == d.rate && r.driver.pauseMode == d.pauseMode
  {
    var params' := match ParseInt(voice) case Some(n) => params[VoiceParamId := n] case None => params;
    var default := if updateDefault || d.defaultVoice.None? || d.defaultVoice.value == "" then Some(voice) else d.defaultVoice;
    VoiceUpdate(
      d.(defaultVoice := default, curVoice := voice, overrideActive := !updateDefault && default != Some(voice)),
      params')
  }

  /**
   * An override is cleared by switching back to the default voice, and a
   * voice set as the default never counts as an override.
   */
  lemma OverrideFollowsDefault(d: Driver, params: map<int, int>, voice: string, other: string)
    requires d.defaultVoice == Some(voice) && voice != "" && other != voice
    ensures UpdateVoiceState(d, params, other, false).driver.overrideActive
    ensures UpdateVoiceState(d, params, other, false).driver.defaultVoice == Some(voice)
    ensures !UpdateVoiceState(UpdateVoiceState(d, params, other, false).driver, params, voice, false).driver.overrideActive
    ensures !UpdateVoiceState(d, params, other, true).driver.overrideActive
  {
  }

  /** The outcome of a driver setting: applied, or the `ValueError` that `int()` raised. */
  datatype SetResult<T> = Done(value: T) | ValueError

  datatype DriverEngine = DriverEngine(driver: Driver, engine: Engine)

  /** The variant numbers `variants` names (Reed to Grandpa). */
  predicate KnownVariant(n: int) {
    1 <= n <= 8
  }

  /**
   * `_set_variant`: `int(v)` must parse, or the setting raises before any
   * change. The driver keeps `v` when it names a known variant and "1"
   * otherwise, yet the engine is asked to copy variant `int(v)` either way,
   * and the driver's rate is then written again as a permanent setting.
   */
  function SetDriverVariant(d: Driver, e: Engine, host: Host, v: string): (r: SetResult<DriverEngine>)
    ensures ParseInt(v).None? <==> r.ValueError?
    ensures r.Done? ==>
      var n := ParseInt(v).value;
      && r.value.driver == d.(variant := if KnownVariant(n) then v else "1")
      && r.value.engine.calls == e.calls + [CopyVoice(n), SetVoiceParam(Rate, d.rate, false)]
      && r.value.engine.params == e.params
  {
    match ParseInt(v)
    case None => ValueError
    case Some(n) =>
      var copied := VoiceParams.SetVariant(e, host, n);
      var e' := SetVParam(copied, host, Rate, d.rate, false);
      Done(DriverEngine(d.(variant := if KnownVariant(n) then v else "1"), e'))
  }

  /** Whatever the host reports for the copied variant, the rate base afterwards is the driver's rate unless the rate write itself reports another value or fails. */
  lemma VariantKeepsDriverRate(d: Driver, e: Engine, host: Host, n: int)
    requires host(|e.calls| + 1, SetVoiceParam(Rate, d.rate, false)) == Returned(EmptyPayload)
    ensures var r := SetDriverVariant(d, e, host, IntToString(n));
      r.Done? && GetVParam(r.value.engine, Rate) == d.rate && r.value.driver.variant == (if KnownVariant(n) then IntToString(n) else "1")
  {
    ParseIntToString(n);
  }

  /**
   * `_set_voice`: switch the engine's voice when the id is a number (the
   * engine call logs and swallows anything else), then adopt the voice as
   * the default.
   */
  function SetDriverVoice(d: Driver, e: Engine, host: Host, voice: string): (r: DriverEngine)
    ensures r.driver.defaultVoice == Some(voice) && r.driver.curVoice == voice && !r.driver.overrideActive
    ensures ParseInt(voice).None? ==> r.engine == e
    ensures ParseInt(voice).Some? ==>
      && r.engine.voiceParams == e.voiceParams
      && VoiceParamId in r.engine.params && r.engine.params[VoiceParamId] == ParseInt(voice).value
  {
    var e' := match ParseInt(voice) case Some(n) => SetVoice(e, host, n) case None => e;
    var u := UpdateVoiceState(d, e'.params, voice, true);
    DriverEngine(u.driver, e'.(params := u.params))
  }
}
