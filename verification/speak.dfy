/**
 * `SynthDriver.speak`: the command batch built from an NVDA speech sequence,
 * its queuing under the current stop epoch, and the immediate path taken
 * when the sequence holds nothing to speak.
 */
module Speak {
  import opened Common
  import opened Rpc
  import opened VoiceParams
  import opened Session
  import opened Speech
  import opened Voices
  import opened Preprocess
  import SynthWorker

  /** `str.isspace()` for one character: the Unicode white-space characters Python recognises. */
  predicate IsSpace(c: char) {
    || c == ' ' || '\t' <= c <= '\r' || '\U{1c}' <= c <= '\U{1f}'
    || c == '\U{85}' || c == '\U{a0}' || c == '\U{1680}' || '\U{2000}' <= c <= '\U{200a}'
    || c == '\U{2028}' || c == '\U{2029}' || c == '\U{202f}' || c == '\U{205f}' || c == '\U{3000}'
  }

  predicate HasNonSpace(s: string) {
    exists i :: 0 <= i < |s| && !IsSpace(s[i])
  }

  /** `s.rstrip()[-1]`, or `None` where that raises `IndexError` because `s` is all white space. */
  function LastNonSpace(s: string): (r: Option<char>)
    ensures r.Some? <==> HasNonSpace(s)
    ensures r.Some? ==> r.value in s && !IsSpace(r.value)
    decreases |s|
  {
    if s == [] then None
    else if !IsSpace(s[|s| - 1]) then Some(s[|s| - 1])
    else
      var r := LastNonSpace(s[..|s| - 1]);
      assert forall i :: 0 <= i < |s| - 1 ==> s[..|s| - 1][i] == s[i];
      r
  }

  /** `punctuation`: the characters after which no trailing pause is added. */
  const Punctuation: set<char> := {',', '.', '?', ':', ';', ')', '(', '!'}

  /** The driver's three text switches. */
  datatype TextSettings = TextSettings(backquoteVoiceTags: bool, abbreviationDictionary: bool, phrasePrediction: bool)

  /**
   * The rewriting `xspeakText` relies on: the preprocessing fix tables and
   * code page, the `pause_re` substitution (given the pause digit it
   * inserts) and the `time_re` substitution, all uninterpreted.
   */
  datatype Rewriting = Rewriting(
    fixes: Fixes,
    page: CodePage,
    pauseSub: (string, char) -> string,
    timeSub: string -> string)

  /** `text.replace("`", " ")`: the text can no longer carry an inline engine tag. */
  function Unquote(s: string): (r: string)
    ensures |r| == |s| && '`' !in r
    ensures forall i :: 0 <= i < |s| && s[i] != '`' ==> r[i] == s[i]
  {
    seq(|s|, i requires 0 <= i < |s| => if s[i] == '`' then ' ' else s[i])
  }

  function PhrasePredictionTag(settings: TextSettings): string {
    if settings.phrasePrediction then "`pp1 " else "`pp0 "
  }

  function AbbreviationTag(settings: TextSettings): string {
    if settings.abbreviationDictionary then "`da1 " else "`da0 "
  }

  /**
   * `xspeakText`: preprocess for the voice, neutralise backquotes unless
   * inline tags are allowed, prefix the volume tag, apply the pause rewriting
   * of pause modes 0 and 2 and the time rewriting, then prefix the
   * abbreviation and phrase-prediction tags.
   */
  function XSpeakText(text: string, voiceId: int, volume: int, pauseMode: int, settings: TextSettings, rw: Rewriting): (r: string)
    ensures StartsWith(r, PhrasePredictionTag(settings) + AbbreviationTag(settings))
    ensures HasNonSpace(r)
  {
    var pre := Preprocess.Preprocess(rw.fixes, rw.page, text, voiceId);
    var unquoted := if settings.backquoteVoiceTags then pre else Unquote(pre);
    var tagged := "`vv" + IntToString(volume) + " " + unquoted;
    var paused :=
      if pauseMode == 0 then rw.pauseSub(tagged, '0')
      else if pauseMode == 2 then rw.pauseSub(tagged, '1')
      else tagged;
    var r := PhrasePredictionTag(settings) + AbbreviationTag(settings) + rw.timeSub(paused);
    assert !IsSpace(r[0]);
    r
  }

  // ---------------------------------------------------------------- breaks

  /** The measured pause factor at the rates of the table, 1 to 5. */
  function Segment(rate: int, ra: int, rb: int, ca: int, cb: int): real
    requires ra < rb
  {
    ca as real + (cb - ca) as real * (rate - ra) as real / (rb - ra) as real
  }

  /**
   * The pause factor for a speech rate, as written: below 10 and above 85
   * it is the end value, between the table's rates it is interpolated, but
   * at a rate of the table it is always the first coefficient.
   */
  function BreakFactorAsWritten(rate: int): real {
    if rate <= 10 then 1.0
    else if rate >= 85 then 5.0
    else if rate in {10, 43, 60, 75, 85} then 1.0
    else if rate < 43 then Segment(rate, 10, 43, 1, 2)
    else if rate < 60 then Segment(rate, 43, 60, 2, 3)
    else if rate < 75 then Segment(rate, 60, 75, 3, 4)
    else Segment(rate, 75, 85, 4, 5)
  }

  /** At rates 43, 60 and 75 the factor drops back to 1 from just below. */
  lemma BreakFactorAsWrittenDrops()
    ensures BreakFactorAsWritten(42) > BreakFactorAsWritten(43) == 1.0
    ensures BreakFactorAsWritten(59) > BreakFactorAsWritten(60) == 1.0
    ensures BreakFactorAsWritten(74) > BreakFactorAsWritten(75) == 1.0
  {
  }

  /** The pause factor with the table's own coefficient at each of its rates. */
  function BreakFactor(rate: int): real {
    if rate <= 10 then 1.0
    else if rate >= 85 then 5.0
    else if rate == 43 then 2.0
    else if rate == 60 then 3.0
    else if rate == 75 then 4.0
    else if rate < 43 then Segment(rate, 10, 43, 1, 2)
    else if rate < 60 then Segment(rate, 43, 60, 2, 3)
    else if rate < 75 then Segment(rate, 60, 75, 3, 4)
    else Segment(rate, 75, 85, 4, 5)
  }

  /**
   * The corrected factor agrees with the table at each measured rate,
   * stays within the table's range, and never falls as the rate rises: a
   * faster voice never gets a shorter pause.
   */
  lemma BreakFactorMonotone(a: int, b: int)
    requires a <= b
    ensures BreakFactor(a) <= BreakFactor(b)
    ensures 1.0 <= BreakFactor(a) <= 5.0
    ensures BreakFactor(10) == 1.0 && BreakFactor(43) == 2.0 && BreakFactor(60) == 3.0
    ensures BreakFactor(75) == 4.0 && BreakFactor(85) == 5.0
  {
  }

  /**
   * The corrected factor differs from the one written only at the three
   * measured rates inside the table: everywhere else the two agree.
   */
  lemma BreakFactorAgreesOffKnots(rate: int)
    ensures BreakFactor(rate) == BreakFactorAsWritten(rate) <==> rate !in {43, 60, 75}
  {
  }

  /** The engine pause tag for a break of `time` milliseconds: `p` and the scaled time, truncated. */
  function BreakText(rate: int, time: int): string {
    "`p" + IntToString(Truncate(BreakFactor(rate) * time as real)) + "."
  }

  // ---------------------------------------------------------------- batches

  /** The parameter a prosody command changes (`PROSODY_ATTRS`). */
  function ParamOf(kind: ProsodyKind): int {
    match kind
    case PitchKind => Pitch
    case VolumeKind => Volume
    case RateKind => Rate
  }

  /** The resets that open every batch: rate, pitch, volume, each with multiplier 1 and offset 0. */
  const Resets: seq<SynthCommand> := [ProsodyCmd(Rate, 1.0, 0.0), ProsodyCmd(Pitch, 1.0, 0.0), ProsodyCmd(Volume, 1.0, 0.0)]

  /** The index `speak` appends after the last item of a queued batch. */
  const EndIndex := 0xFFFF

  /** The loop state of `speak`. */
  datatype Build = Build(
    outlist: seq<SynthCommand>,
    pending: seq<int>,          // `pending_indexes`
    queued: bool,               // `queued_speech`
    last: Option<string>,       // the last text command's rewritten text
    driver: Driver,
    params: map<int, int>)      // `_eloquence.params`, whose voice id the loop may change

  /** What `speak` reads but never changes. */
  datatype Context = Context(volume: int, rate: int, settings: TextSettings, rw: Rewriting)

  /** The driver settings `speak` reads: everything in its context but the volume. */
  datatype Options = Options(rate: int, settings: TextSettings, rw: Rewriting)

  /**
   * The context of one call of `speak`. The volume tag carries
   * `getVParam(vlm)`, the mirrored base volume, which the walk never changes
   * since its commands only run later.
   */
  function ContextOf(s: State, o: Options): Context {
    Context(GetVParam(s.engine, Volume), o.rate, o.settings, o.rw)
  }

  /** The loop invariant: the voice id is known and the last text has something to end on. */
  predicate BuildOk(b: Build) {
    && VoiceParamId in b.params
    && (b.last.Some? ==> HasNonSpace(b.last.value))
  }

  /**
   * A language change: resolve the voice; nothing happens when none
   * resolves; a voice that is already current only clears the override
   * (and only for a reset to the default language); a voice id that is not
   * a number is skipped; otherwise the switch is queued and the voice state
   * updated, the switch counting as a new default when the language was
   * reset.
   */
  function ChangeLanguage(b: Build, lang: Option<string>): (r: Build)
    requires BuildOk(b)
    ensures BuildOk(r)
    ensures r.pending == b.pending && r.queued == b.queued && r.last == b.last
    ensures r.outlist == b.outlist || (|r.outlist| == |b.outlist| + 1 && r.outlist[..|b.outlist|] == b.outlist && r.outlist[|b.outlist|].VoiceCmd?)
    ensures ResolveVoice(lang, b.driver.defaultVoice).None? ==> r == b
    ensures ResolveVoice(lang, b.driver.defaultVoice) == Some(b.driver.curVoice) ==>
      r == b.(driver := if lang.None? then b.driver.(overrideActive := false) else b.driver)
  {
    match ResolveVoice(lang, b.driver.defaultVoice)
    case None => b
    case Some(voice) =>
      if voice == b.driver.curVoice then
        if lang.None? then b.(driver := b.driver.(overrideActive := false)) else b
      else
        match ParseInt(voice)
        case None => b
        case Some(n) =>
          var u := UpdateVoiceState(b.driver, b.params, IntToString(n), lang.None?);
          b.(outlist := b.outlist + [VoiceCmd(n)], driver := u.driver, params := u.params)
  }

  /** One item of the loop of `speak`. */
  function Step(b: Build, item: SpeechItem, cx: Context): (r: Build)
    requires BuildOk(b)
    ensures BuildOk(r)
    ensures r.queued <==> b.queued || item.Text? || item.BreakItem?
    ensures r.pending == b.pending + (if item.IndexItem? then [item.index] else [])
    ensures |r.outlist| >= |b.outlist| && r.outlist[..|b.outlist|] == b.outlist
    ensures item.IndexItem? ==> r.outlist == b.outlist + [IndexCmd(item.index)]
    ensures !item.IndexItem? ==> forall i :: |b.outlist| <= i < |r.outlist| ==> !r.outlist[i].IndexCmd?
  {
    match item
    case Text(t) =>
      var s := XSpeakText(t, b.params[VoiceParamId], cx.volume, b.driver.pauseMode, cx.settings, cx.rw);
      b.(outlist := b.outlist + [SpeakCmd(s)], last := Some(s), queued := true)
    case IndexItem(i) =>
      b.(pending := b.pending + [i], outlist := b.outlist + [IndexCmd(i)])
    case BreakItem(time) =>
      b.(outlist := b.outlist + [SpeakCmd(BreakText(cx.rate, time))], queued := true)
    case LangChange(lang) =>
      ChangeLanguage(b, lang)
    case ProsodyItem(kind, multiplier, offset) =>
      b.(outlist := b.outlist + [ProsodyCmd(ParamOf(kind), multiplier, offset)])
    case OtherItem => b
  }

  /**
   * What each item appends: a string its rewritten text, a break its pause
   * tag, a prosody change its command; a language change is handled by
   * `ChangeLanguage`, and any other item changes nothing.
   */
  lemma StepAppends(b: Build, item: SpeechItem, cx: Context)
    requires BuildOk(b)
    ensures item.Text? ==>
      var s := XSpeakText(item.text, b.params[VoiceParamId], cx.volume, b.driver.pauseMode, cx.settings, cx.rw);
      Step(b, item, cx).outlist == b.outlist + [SpeakCmd(s)] && Step(b, item, cx).last == Some(s)
    ensures item.BreakItem? ==> Step(b, item, cx).outlist == b.outlist + [SpeakCmd(BreakText(cx.rate, item.time))]
    ensures item.ProsodyItem? ==>
      Step(b, item, cx).outlist == b.outlist + [ProsodyCmd(ParamOf(item.kind), item.multiplier, item.offset)]
    ensures item.LangChange? ==> Step(b, item, cx) == ChangeLanguage(b, item.lang)
    ensures item.OtherItem? ==> Step(b, item, cx) == b
  {
  }

  /** The indexes of a sequence's index items, in order. */
  function IndexesOf(items: seq<SpeechItem>): seq<int>
    decreases |items|
  {
    if items == [] then []
    else (if items[0].IndexItem? then [items[0].index] else []) + IndexesOf(items[1..])
  }

  /** A sequence holds something to speak: a string or a break. */
  predicate Speaks(items: seq<SpeechItem>) {
    exists i :: 0 <= i < |items| && (items[i].Text? || items[i].BreakItem?)
  }

  /** The loop of `speak` over the remaining items. */
  function BuildAll(b: Build, items: seq<SpeechItem>, cx: Context): (r: Build)
    requires BuildOk(b)
    ensures BuildOk(r)
    ensures r.queued <==> b.queued || Speaks(items)
    ensures r.pending == b.pending + IndexesOf(items)
    ensures |r.outlist| >= |b.outlist| && r.outlist[..|b.outlist|] == b.outlist
    decreases |items|
  {
    if items == [] then b
    else
      var next := Step(b, items[0], cx);
      var r := BuildAll(next, items[1..], cx);
      BuildAllStep(b, next, r, items);
      r
  }

  /** The loop's inductive step, from the facts about one item and about the rest. */
  lemma BuildAllStep(b: Build, next: Build, r: Build, items: seq<SpeechItem>)
    requires items != []
    requires next.queued <==> b.queued || items[0].Text? || items[0].BreakItem?
    requires next.pending == b.pending + (if items[0].IndexItem? then [items[0].index] else [])
    requires |next.outlist| >= |b.outlist| && next.outlist[..|b.outlist|] == b.outlist
    requires r.queued <==> next.queued || Speaks(items[1..])
    requires r.pending == next.pending + IndexesOf(items[1..])
    requires |r.outlist| >= |next.outlist| && r.outlist[..|next.outlist|] == next.outlist
    ensures r.queued <==> b.queued || Speaks(items)
    ensures r.pending == b.pending + IndexesOf(items)
    ensures |r.outlist| >= |b.outlist| && r.outlist[..|b.outlist|] == b.outlist
  {
    SpeaksCons(items);
    PrefixOfPrefix(r.outlist, next.outlist, b.outlist);
    var head := if items[0].IndexItem? then [items[0].index] else [];
    assert r.pending == (b.pending + head) + IndexesOf(items[1..]);
    assert r.pending == b.pending + (head + IndexesOf(items[1..]));
  }

  lemma SpeaksCons(items: seq<SpeechItem>)
    requires items != []
    ensures Speaks(items) <==> items[0].Text? || items[0].BreakItem? || Speaks(items[1..])
  {
    if Speaks(items[1..]) {
      var i :| 0 <= i < |items[1..]| && (items[1..][i].Text? || items[1..][i].BreakItem?);
      assert items[i + 1] == items[1..][i];
    }
    if Speaks(items) && !(items[0].Text? || items[0].BreakItem?) {
      var i :| 0 <= i < |items| && (items[i].Text? || items[i].BreakItem?);
      assert items[1..][i - 1] == items[i];
    }
  }

  lemma PrefixOfPrefix<T>(c: seq<T>, b: seq<T>, a: seq<T>)
    requires |c| >= |b| >= |a| && c[..|b|] == b && b[..|a|] == a
    ensures c[..|a|] == a
  {
    assert c[..|a|] == c[..|b|][..|a|];
  }

  /** What NVDA is told when nothing is queued. */
  datatype Notification = IndexReached(index: int) | DoneSpeaking

  function Notify(indexes: seq<int>): (r: seq<Notification>)
    ensures |r| == |indexes| && forall i :: 0 <= i < |indexes| ==> r[i] == IndexReached(indexes[i])
  {
    seq(|indexes|, i requires 0 <= i < |indexes| => IndexReached(indexes[i]))
  }

  /** The commands of a batch without its index commands, in order. */
  function NonIndex(commands: seq<SynthCommand>): (r: seq<SynthCommand>)
    ensures forall c :: c in r <==> c in commands && !c.IndexCmd?
    decreases |commands|
  {
    if commands == [] then []
    else (if commands[0].IndexCmd? then [] else [commands[0]]) + NonIndex(commands[1..])
  }

  /**
   * The immediate path: run every command but the index ones, in order, as
   * the synthesis worker would run the batch with its index commands removed.
   */
  function RunImmediately(e: Engine, host: Host, commands: seq<SynthCommand>): (r: Engine)
    ensures |r.calls| >= |e.calls| && r.calls[..|e.calls|] == e.calls
    ensures forall i :: |e.calls| <= i < |r.calls| ==> !r.calls[i].InsertIndex?
    ensures r == SynthWorker.RunBatch(e, host, NonIndex(commands))
    decreases |commands|
  {
    if commands == [] then e
    else
      var next := if commands[0].IndexCmd? then e else Execute(e, host, commands[0]);
      var rest := NonIndex(commands[1..]);
      assert SynthWorker.RunBatch(e, host, NonIndex(commands)) == SynthWorker.RunBatch(next, host, rest) by {
        if !commands[0].IndexCmd? {
          assert NonIndex(commands) == [commands[0]] + rest;
          assert NonIndex(commands)[0] == commands[0] && NonIndex(commands)[1..] == rest;
        } else {
          assert NonIndex(commands) == [] + rest;
          assert [] + rest == rest;
        }
      }
      assert forall i :: |e.calls| <= i < |next.calls| ==> !next.calls[i].InsertIndex? by {
        if !commands[0].IndexCmd? {
          ExecuteSendsNoIndex(e, host, commands[0]);
        }
      }
      var r := RunImmediately(next, host, commands[1..]);
      assert r.calls[..|e.calls|] == r.calls[..|next.calls|][..|e.calls|];
      assert forall i :: |e.calls| <= i < |next.calls| ==> r.calls[i] == next.calls[i] by {
        forall i | |e.calls| <= i < |next.calls|
          ensures r.calls[i] == next.calls[i]
        {
          assert r.calls[..|next.calls|][i] == r.calls[i];
        }
      }
      r
  }

  /** Only the index command makes an `insertIndex` call. */
  lemma ExecuteSendsNoIndex(e: Engine, host: Host, cmd: SynthCommand)
    requires !cmd.IndexCmd?
    ensures forall i :: |e.calls| <= i < |Execute(e, host, cmd).calls| ==> !Execute(e, host, cmd).calls[i].InsertIndex?
  {
    var r := Execute(e, host, cmd);
    if cmd.VoiceCmd? {
      var c := SetParam(VoiceParamId, cmd.voiceId);
      assert r.calls[|e.calls|] == c;
    }
  }

  datatype Spoken = Spoken(driver: Driver, state: State, notifications: seq<Notification>)

  /**
   * `speak`. The sequence is combined first, then walked after the three
   * prosody resets. Without anything to speak, the commands other than
   * indexes run at once, each pending index is reported in order and then
   * the end of speech, once. Otherwise a pause is added unless the last text
   * ends in punctuation, the end index and `synth` close the batch, and the
   * batch is queued under the current stop epoch.
   */
  function Speak(d: Driver, s: State, host: Host, items: seq<SpeechItem>, o: Options): (r: Spoken)
    requires VoiceParamId in s.engine.params
  {
    var b := BuildAll(Build(Resets, [], false, None, d, s.engine.params), Combine(items), ContextOf(s, o));
    if !b.queued then
      var e := RunImmediately(s.engine.(params := b.params), host, b.outlist);
      Spoken(b.driver, s.(engine := e), Notify(b.pending) + [DoneSpeaking])
    else
      var pause :=
        match b.last
        case None => []
        case Some(text) =>
          var c := LastNonSpace(text).value;
          if c in Punctuation then [] else [SpeakCmd(if b.driver.pauseMode == 0 then "`p0 " else "`p1 ")];
      var batch := b.outlist + pause + [IndexCmd(EndIndex), SynthCmd];
      Spoken(b.driver, Enqueue(s.(engine := s.engine.(params := b.params)), batch), [])
  }

  /**
   * Every utterance with something to speak is queued as one batch under
   * the current stop epoch; the batch opens with the three resets and
   * closes with the end index and `synth`; NVDA is told nothing yet and no
   * command reaches the host.
   */
  lemma QueuedBatchShape(d: Driver, s: State, host: Host, items: seq<SpeechItem>, o: Options)
    requires VoiceParamId in s.engine.params
    requires Speaks(Combine(items))
    ensures var r := Speak(d, s, host, items, o);
      && |r.state.synthQueue| == |s.synthQueue| + 1
      && r.state.synthQueue[..|s.synthQueue|] == s.synthQueue
      && var batch := r.state.synthQueue[|s.synthQueue|];
      && batch.Batch? && batch.epoch == s.sequence
      && |batch.commands| >= 5 && batch.commands[..3] == Resets
      && batch.commands[|batch.commands| - 2..] == [IndexCmd(EndIndex), SynthCmd]
      && r.notifications == []
      && r.state.engine.calls == s.engine.calls
  {
    var b := BuildAll(Build(Resets, [], false, None, d, s.engine.params), Combine(items), ContextOf(s, o));
    assert b.outlist[..3] == Resets;
    var r := Speak(d, s, host, items, o);
    assert r.state.synthQueue == s.synthQueue + [r.state.synthQueue[|s.synthQueue|]];
    var commands := r.state.synthQueue[|s.synthQueue|].commands;
    assert commands[..3] == b.outlist[..3];
  }

  /**
   * Without anything to speak nothing is queued, no index command reaches
   * the host, and NVDA hears every pending index in order and then the end
   * of speech exactly once.
   */
  lemma ImmediatePathNotifies(d: Driver, s: State, host: Host, items: seq<SpeechItem>, o: Options)
    requires VoiceParamId in s.engine.params
    requires !Speaks(Combine(items))
    ensures var r := Speak(d, s, host, items, o);
      && r.state.synthQueue == s.synthQueue
      && r.state.sequence == s.sequence
      && r.notifications == Notify(IndexesOf(Combine(items))) + [DoneSpeaking]
      && |r.state.engine.calls| >= |s.engine.calls| && r.state.engine.calls[..|s.engine.calls|] == s.engine.calls
      && forall i :: |s.engine.calls| <= i < |r.state.engine.calls| ==> !r.state.engine.calls[i].InsertIndex?
  {
  }

  /** An index item by itself makes NVDA advance at once: the index, then the end of speech. */
  lemma LoneIndexAdvancesAtOnce(d: Driver, s: State, host: Host, index: int, o: Options)
    requires VoiceParamId in s.engine.params
    ensures Speak(d, s, host, [IndexItem(index)], o).notifications == [IndexReached(index), DoneSpeaking]
    ensures Speak(d, s, host, [IndexItem(index)], o).state.synthQueue == s.synthQueue
  {
    var items := [IndexItem(index)];
    assert Combine(items) == items by {
      assert CombineFrom(items[1..], "") == [];
    }
    assert !Speaks(items);
    assert IndexesOf(items) == [index] by {
      assert IndexesOf(items[1..]) == [];
    }
  }

  /** Any non-empty string makes the utterance queued. */
  lemma TextIsQueued(items: seq<SpeechItem>, i: nat)
    requires i < |items| && items[i].Text? && items[i].text != ""
    ensures Speaks(Combine(items))
  {
    CombineProperties(items);
    var k := FirstCharAtom(items, i);
    var flat := Flatten(Combine(items));
    assert flat == Flatten(items);
    AtomFromText(Combine(items), k);
  }

  /** Some atom of the flattened sequence is a character when some string is non-empty. */
  lemma {:induction false} FirstCharAtom(items: seq<SpeechItem>, i: nat) returns (k: nat)
    requires i < |items| && items[i].Text? && items[i].text != ""
    ensures k < |Flatten(items)| && Flatten(items)[k].Char?
    decreases |items|
  {
    var head := match items[0] case Text(t) => Chars(t) case _ => [Item(items[0])];
    assert Flatten(items) == head + Flatten(items[1..]);
    if i == 0 {
      k := 0;
    } else {
      var k' := FirstCharAtom(items[1..], i - 1);
      k := |head| + k';
    }
  }

  /** A character atom comes from some string of the sequence. */
  lemma {:induction false} AtomFromText(items: seq<SpeechItem>, k: nat)
    requires k < |Flatten(items)| && Flatten(items)[k].Char?
    ensures Speaks(items)
    decreases |items|
  {
    var head := match items[0] case Text(t) => Chars(t) case _ => [Item(items[0])];
    assert Flatten(items) == head + Flatten(items[1..]);
    if items[0].Text? {
      assert items[0].Text? && 0 < |items|;
    } else {
      AtomFromText(items[1..], k - 1);
      var j :| 0 <= j < |items[1..]| && (items[1..][j].Text? || items[1..][j].BreakItem?);
      assert items[j + 1] == items[1..][j];
    }
  }
}
