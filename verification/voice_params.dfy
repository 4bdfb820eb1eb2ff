/**
 * The module-level engine API of the client: the mirrored `params` and
 * `voice_params` tables, prosody changes, voice and variant switches, and the
 * fire-and-log wrappers around text, index and synthesis commands.
 *
 * Each API call reaches the host through `send_command`; the model takes what
 * that call returned or raised from a `Host` oracle, indexed by the number of
 * calls made so far, so every possible reply sequence is covered.
 */
module VoiceParams {
  import opened Common
  import opened Rpc

  /** Voice parameter ids. */
  const HeadSize := 1
  const Pitch := 2
  const Fluctuation := 3
  const Roughness := 4
  const Breathiness := 5
  const Rate := 6
  const Volume := 7

  /** The engine parameter that selects the voice. */
  const VoiceParamId := 9

  /** `PARAM_MAX.get(pr, 100)`: rate goes up to 250, every other parameter to 100. */
  function ParamMax(pr: int): int {
    if pr == Rate then 250 else 100
  }

  /** `max(0, min(value, PARAM_MAX.get(pr, 100)))` */
  function Clamp(value: int, pr: int): (r: int)
    ensures 0 <= r <= ParamMax(pr)
    ensures 0 <= value <= ParamMax(pr) ==> r == value
    ensures value < 0 ==> r == 0
    ensures value > ParamMax(pr) ==> r == ParamMax(pr)
  {
    if value < 0 then 0 else if value > ParamMax(pr) then ParamMax(pr) else value
  }

  /** Python's `int()` of a number: truncation toward zero. */
  function Truncate(x: real): (r: int)
    ensures 0.0 <= x ==> r as real <= x < r as real + 1.0
    ensures x < 0.0 ==> r as real - 1.0 < x <= r as real
  {
    if x >= 0.0 then x.Floor else -((-x).Floor)
  }

  datatype Engine = Engine(
    params: map<int, int>,      // `params`
    voiceParams: map<int, int>, // `voice_params`, the persisted base values
    currentLang: string,        // `_current_lang`, the language code used to encode text
    calls: seq<Command>         // every command passed to `send_command`, in order
  )

  /** What the `n`-th call of `send_command` (counting from 0) returned or raised. */
  type Host = (nat, Command) -> SendResult

  datatype Called = Called(engine: Engine, result: SendResult)

  function Call(e: Engine, host: Host, cmd: Command): (r: Called)
    ensures r.engine == e.(calls := e.calls + [cmd])
    ensures r.result == host(|e.calls|, cmd)
  {
    Called(e.(calls := e.calls + [cmd]), host(|e.calls|, cmd))
  }

  /** `getVParam`: the mirrored base value, 0 when the parameter was never reported. */
  function GetVParam(e: Engine, pr: int): int {
    if pr in e.voiceParams then e.voiceParams[pr] else 0
  }

  /**
   * `setVParam`: send the value; on success of a permanent set, mirror the
   * value the host reports (or the value sent when it reports none). A
   * temporary set, and any failed set, leave the base table as it was.
   */
  function SetVParam(e: Engine, host: Host, pr: int, vl: int, temporary: bool): (r: Engine)
    ensures r.calls == e.calls + [SetVoiceParam(pr, vl, temporary)]
    ensures temporary ==> r.voiceParams == e.voiceParams
    ensures host(|e.calls|, SetVoiceParam(pr, vl, temporary)).Raised? ==> r.voiceParams == e.voiceParams
    ensures !temporary && host(|e.calls|, SetVoiceParam(pr, vl, temporary)).Returned? ==>
      var reported := host(|e.calls|, SetVoiceParam(pr, vl, temporary)).payload.voiceParams;
      r.voiceParams == e.voiceParams[pr := if pr in reported then reported[pr] else vl]
    ensures r.params == e.params && r.currentLang == e.currentLang
  {
    var c := Call(e, host, SetVoiceParam(pr, vl, temporary));
    match c.result
    case Returned(p) =>
      if temporary then c.engine
      else c.engine.(voiceParams := c.engine.voiceParams[pr := if pr in p.voiceParams then p.voiceParams[pr] else vl])
    case Raised(_) => c.engine
  }

  /** The value `cmdProsody` asks for: `int(base * multiplier + offset)`, clamped. */
  function ProsodyValue(base: int, pr: int, multiplier: real, offset: real): int {
    Clamp(Truncate(base as real * multiplier + offset), pr)
  }

  /**
   * `cmdProsody`: a temporary set of `base * multiplier + offset`, clamped to
   * `[0, PARAM_MAX[pr]]`, where `base` is the persisted value. The persisted
   * base is never changed by it.
   */
  function CmdProsody(e: Engine, host: Host, pr: int, multiplier: real, offset: real): (r: Engine)
    ensures r.voiceParams == e.voiceParams
    ensures |r.calls| == |e.calls| + 1 && r.calls[..|e.calls|] == e.calls
    ensures var sent := r.calls[|e.calls|];
      && sent.SetVoiceParam? && sent.paramId == pr && sent.temporary
      && 0 <= sent.value <= ParamMax(pr)
    ensures r.calls == e.calls + [SetVoiceParam(pr, ProsodyValue(GetVParam(e, pr), pr, multiplier, offset), true)]
    ensures r.params == e.params && r.currentLang == e.currentLang
  {
    var value := ProsodyValue(GetVParam(e, pr), pr, multiplier, offset);
    var r := SetVParam(e, host, pr, value, true);
    assert r.calls[..|e.calls|] == e.calls;
    r
  }

  /**
   * The reset `speak` puts at the head of every batch (multiplier 1, offset 0)
   * sends the base value itself whenever the base lies in the parameter's range,
   * so a temporary change left over from an earlier utterance is undone.
   */
  lemma ProsodyResetSendsBase(e: Engine, host: Host, pr: int)
    requires 0 <= GetVParam(e, pr) <= ParamMax(pr)
    ensures CmdProsody(e, host, pr, 1.0, 0.0).calls == e.calls + [SetVoiceParam(pr, GetVParam(e, pr), true)]
    ensures GetVParam(CmdProsody(e, host, pr, 1.0, 0.0), pr) == GetVParam(e, pr)
  {
    var base := GetVParam(e, pr);
    assert base as real * 1.0 + 0.0 == base as real;
    assert Truncate(base as real) == base;
  }

  /**
   * The value `cmdProsody` sends, for every input: 0 for a negative raw
   * value, the parameter's maximum from the maximum up, and in between the
   * whole part of the raw value.
   */
  lemma ProsodyValueMeaning(base: int, pr: int, multiplier: real, offset: real)
    ensures var x := base as real * multiplier + offset;
      var v := ProsodyValue(base, pr, multiplier, offset);
      && (x < 0.0 ==> v == 0)
      && (0.0 <= x < ParamMax(pr) as real ==> v as real <= x < v as real + 1.0)
      && (x >= ParamMax(pr) as real ==> v == ParamMax(pr))
  {
    var x := base as real * multiplier + offset;
    var t := Truncate(x);
    if x < 0.0 {
      assert t <= 0;
    } else if x >= ParamMax(pr) as real {
      assert t >= ParamMax(pr);
    }
  }

  /** A prosody change whose raw value is in range is sent exactly. */
  lemma ProsodyInRangeIsExact(base: int, pr: int, multiplier: real, offset: real)
    requires 0.0 <= base as real * multiplier + offset
    requires Truncate(base as real * multiplier + offset) <= ParamMax(pr)
    ensures ProsodyValue(base, pr, multiplier, offset) == Truncate(base as real * multiplier + offset)
    ensures (ProsodyValue(base, pr, multiplier, offset) as real) <= base as real * multiplier + offset
  {
  }

  /**
   * The end-to-end example: a permanent pitch set to 80 that the host
   * acknowledges reads back as 80, and a later temporary set (whatever its
   * value and whatever the host says) still leaves 80 in the base table.
   */
  lemma TemporarySetLeavesBase(e: Engine, host: Host, later: int)
    requires host(|e.calls|, SetVoiceParam(Pitch, 80, false)).Returned?
    requires Pitch !in host(|e.calls|, SetVoiceParam(Pitch, 80, false)).payload.voiceParams
    ensures GetVParam(SetVParam(e, host, Pitch, 80, false), Pitch) == 80
    ensures GetVParam(SetVParam(SetVParam(e, host, Pitch, 80, false), host, Pitch, later, true), Pitch) == 80
  {
  }

  /** The least element of a non-empty set of parameter ids. */
  function Least(s: set<int>): (m: int)
    requires s != {}
    ensures m in s && forall x :: x in s ==> m <= x
  {
    LeastExists(s);
    var m :| m in s && forall x :: x in s ==> m <= x;
    m
  }

  lemma LeastExists(s: set<int>)
    requires s != {}
    ensures exists m :: m in s && forall x :: x in s ==> m <= x
  {
    var m := LeastWitness(s);
  }

  lemma LeastWitness(s: set<int>) returns (m: int)
    requires s != {}
    ensures m in s && forall x :: x in s ==> m <= x
    decreases |s|
  {
    NonEmptyHasMember(s);
    var y :| y in s;
    if s == {y} {
      m := y;
    } else {
      var rest := LeastWitness(s - {y});
      m := if y < rest then y else rest;
      forall x | x in s
        ensures m <= x
      {
        if x != y {
          assert x in s - {y};
        }
      }
    }
  }

  /**
   * The commands the restoring loop of `set_voice` sends: one permanent set of
   * the saved value per saved parameter, taken in ascending id order.
   */
  function RestoreCalls(saved: map<int, int>, keys: set<int>): (r: seq<Command>)
    requires keys <= saved.Keys
    ensures |r| == |keys|
    ensures forall i :: 0 <= i < |r| ==>
      r[i].SetVoiceParam? && r[i].paramId in keys && r[i].value == saved[r[i].paramId] && !r[i].temporary
    ensures forall k :: k in keys ==> SetVoiceParam(k, saved[k], false) in r
    decreases keys
  {
    if keys == {} then []
    else
      var k := Least(keys);
      [SetVoiceParam(k, saved[k], false)] + RestoreCalls(saved, keys - {k})
  }

  /** `VOICE_ID_TO_LANG.get(voice_id, "enu")`: the language code of a voice id. */
  function LangOfVoice(voiceId: int): string {
    match voiceId
    case 131073 => "esm"
    case 131072 => "esp"
    case 458752 => "ptb"
    case 196609 => "frc"
    case 196608 => "fra"
    case 589824 => "fin"
    case 262144 => "deu"
    case 327680 => "ita"
    case 65536 => "enu"
    case 65537 => "eng"
    case 393216 => "chs"
    case 524288 => "jpn"
    case 655360 => "kor"
    case _ => "enu"
  }

  /**
   * `set_voice`: remember the base voice parameters, switch the voice, merge the
   * reported `params` but never the reported voice parameters, then write the
   * saved values back (table and host) and record the new language code. When
   * the switch itself raises, the whole call is abandoned. The restoring sends
   * ignore their replies and swallow their failures, so their outcome has no
   * effect on the tables.
   */
  function SetVoice(e: Engine, host: Host, voiceId: int): (r: Engine)
    ensures r.voiceParams == e.voiceParams
    ensures host(|e.calls|, SetParam(VoiceParamId, voiceId)).Raised? ==>
      r == e.(calls := e.calls + [SetParam(VoiceParamId, voiceId)])
    ensures host(|e.calls|, SetParam(VoiceParamId, voiceId)).Returned? ==>
      && r.params == e.params + host(|e.calls|, SetParam(VoiceParamId, voiceId)).payload.params
      && r.currentLang == LangOfVoice(voiceId)
      && r.calls == e.calls + [SetParam(VoiceParamId, voiceId)] + RestoreCalls(e.voiceParams, e.voiceParams.Keys)
  {
    var saved := e.voiceParams;
    var c := Call(e, host, SetParam(VoiceParamId, voiceId));
    match c.result
    case Raised(_) => c.engine
    case Returned(p) =>
      var restore := RestoreCalls(saved, saved.Keys);
      var rewritten := c.engine.voiceParams + map k | k in saved.Keys :: saved[k];
      WriteBackIsIdentity(saved);
      c.engine.(
        params := c.engine.params + p.params,
        voiceParams := rewritten,
        calls := c.engine.calls + restore,
        currentLang := LangOfVoice(voiceId))
  }

  /**
   * What `set_voice` sends: the voice switch first; then, when it succeeds,
   * exactly one permanent set per saved voice parameter carrying the saved
   * value, and nothing else.
   */
  lemma SetVoiceSends(e: Engine, host: Host, voiceId: int)
    ensures var r := SetVoice(e, host, voiceId);
      && |r.calls| > |e.calls| && r.calls[..|e.calls|] == e.calls
      && r.calls[|e.calls|] == SetParam(VoiceParamId, voiceId)
      && (host(|e.calls|, SetParam(VoiceParamId, voiceId)).Returned? ==>
        && |r.calls| == |e.calls| + 1 + |e.voiceParams|
        && (forall pr :: pr in e.voiceParams ==> SetVoiceParam(pr, e.voiceParams[pr], false) in r.calls[|e.calls| + 1..])
        && (forall i :: |e.calls| < i < |r.calls| ==>
              r.calls[i].SetVoiceParam? && r.calls[i].paramId in e.voiceParams
              && r.calls[i].value == e.voiceParams[r.calls[i].paramId] && !r.calls[i].temporary))
  {
    var restore := RestoreCalls(e.voiceParams, e.voiceParams.Keys);
    CallsLayout(e.calls, SetParam(VoiceParamId, voiceId), restore);
    if host(|e.calls|, SetParam(VoiceParamId, voiceId)).Raised? {
      assert SetVoice(e, host, voiceId).calls == e.calls + [SetParam(VoiceParamId, voiceId)];
    }
  }

  /** Writing every saved value back over the saved table changes nothing. */
  lemma WriteBackIsIdentity(saved: map<int, int>)
    ensures saved + (map k | k in saved.Keys :: saved[k]) == saved
  {
  }

  /** Where the parts of `a + [x] + b` sit. */
  lemma CallsLayout(a: seq<Command>, x: Command, b: seq<Command>)
    ensures |a + [x] + b| == |a| + 1 + |b|
    ensures (a + [x] + b)[..|a|] == a && (a + [x] + b)[|a|] == x && (a + [x] + b)[|a| + 1..] == b
    ensures forall i :: |a| < i < |a| + 1 + |b| ==> (a + [x] + b)[i] == b[i - |a| - 1]
  {
  }

  /** `setVariant`: copy a variant's voice and merge every reported voice parameter. */
  function SetVariant(e: Engine, host: Host, variant: int): (r: Engine)
    ensures r.calls == e.calls + [CopyVoice(variant)]
    ensures host(|e.calls|, CopyVoice(variant)).Returned? ==>
      r.voiceParams == e.voiceParams + host(|e.calls|, CopyVoice(variant)).payload.voiceParams
    ensures host(|e.calls|, CopyVoice(variant)).Raised? ==> r.voiceParams == e.voiceParams
    ensures r.params == e.params && r.currentLang == e.currentLang
  {
    var c := Call(e, host, CopyVoice(variant));
    match c.result
    case Returned(p) => c.engine.(voiceParams := c.engine.voiceParams + p.voiceParams)
    case Raised(_) => c.engine
  }

  /**
   * Unlike `setVariant`, `set_voice` never adopts voice parameters the host
   * reports: a host that answers the switch with an elevated temporary pitch
   * still leaves the saved pitch in the table.
   */
  lemma SetVoiceIgnoresReportedVoiceParams(e: Engine, host: Host, voiceId: int, stuck: int)
    requires host(|e.calls|, SetParam(VoiceParamId, voiceId)).Returned?
    requires host(|e.calls|, SetParam(VoiceParamId, voiceId)).payload.voiceParams == map[Pitch := stuck]
    requires host(|e.calls|, CopyVoice(voiceId)) == Returned(Payload(map[], map[Pitch := stuck]))
    requires Pitch in e.voiceParams && e.voiceParams[Pitch] != stuck
    ensures GetVParam(SetVoice(e, host, voiceId), Pitch) == GetVParam(e, Pitch)
    ensures GetVParam(SetVariant(e, host, voiceId), Pitch) == stuck
  {
  }

  /** The commands a synthesis batch holds, each one an API call of this module. */
  datatype SynthCommand =
    | ProsodyCmd(pr: int, multiplier: real, offset: real) // cmdProsody
    | SpeakCmd(text: string)                              // speak: addText
    | IndexCmd(value: int)                                // index: insertIndex
    | SynthCmd                                            // synth: synthesize
    | VoiceCmd(voiceId: int)                              // set_voice

  /**
   * Run one batch command. `speak`, `index` and `synth` log and swallow any
   * failure of their single call; the text encoding step of `speak` is not
   * modelled.
   */
  function Execute(e: Engine, host: Host, cmd: SynthCommand): (r: Engine)
    ensures |r.calls| > |e.calls| && r.calls[..|e.calls|] == e.calls
    ensures !cmd.VoiceCmd? ==> r.voiceParams == e.voiceParams && r.params == e.params
    ensures cmd.SpeakCmd? ==> r.calls == e.calls + [AddText(cmd.text)]
    ensures cmd.IndexCmd? ==> r.calls == e.calls + [InsertIndex(cmd.value)]
    ensures cmd.SynthCmd? ==> r.calls == e.calls + [Synthesize]
  {
    match cmd
    case ProsodyCmd(pr, m, o) => CmdProsody(e, host, pr, m, o)
    case SpeakCmd(text) => Call(e, host, AddText(text)).engine
    case IndexCmd(value) => Call(e, host, InsertIndex(value)).engine
    case SynthCmd => Call(e, host, Synthesize).engine
    case VoiceCmd(voiceId) => SetVoice(e, host, voiceId)
  }
}
