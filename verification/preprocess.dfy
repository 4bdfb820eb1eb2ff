/**
 * Crash-prevention rewriting before text reaches Eloquence: which fix tables
 * apply for a voice id, in what order, and whether the text is narrowed to
 * the active code page. Each regex substitution is an uninterpreted function
 * on strings, and the code page is an oracle.
 */
module Preprocess {
  import opened Common

  /** A fix table: its regex substitutions in insertion order. */
  type FixTable = seq<string -> string>

  /** `_resub`: apply every substitution of the table once, in order. */
  function Resub(table: FixTable, s: string): string
    decreases |table|
  {
    if table == [] then s else Resub(table[1..], table[0](s))
  }

  /** The intermediate texts `_resub` passes through: one more than there are substitutions. */
  function ResubTrace(table: FixTable, s: string): (r: seq<string>)
    ensures |r| == |table| + 1 && r[0] == s
    ensures forall i :: 0 <= i < |table| ==> r[i + 1] == table[i](r[i])
    decreases |table|
  {
    if table == [] then [s]
    else
      var rest := ResubTrace(table[1..], table[0](s));
      assert forall i :: 1 <= i < |table| ==> table[1..][i - 1] == table[i];
      [s] + rest
  }

  /** `_resub` ends where its trace ends: each substitution was applied to the previous one's result. */
  lemma {:induction false} ResubIsTraceEnd(table: FixTable, s: string)
    ensures Resub(table, s) == ResubTrace(table, s)[|table|]
    decreases |table|
  {
    if table != [] {
      ResubIsTraceEnd(table[1..], table[0](s));
    }
  }

  /** Applying two tables one after the other is applying their concatenation. */
  lemma {:induction false} ResubAppend(a: FixTable, b: FixTable, s: string)
    ensures Resub(a + b, s) == Resub(b, Resub(a, s))
    decreases |a|
  {
    if a == [] {
      assert a + b == b;
    } else {
      assert (a + b)[0] == a[0];
      assert (a + b)[1..] == a[1..] + b;
      ResubAppend(a[1..], b, a[0](s));
    }
  }

  datatype Language = English | Spanish | French | German

  /** The four fix tables. */
  datatype Fixes = Fixes(english: FixTable, spanish: FixTable, french: FixTable, german: FixTable) {
    function Of(l: Language): FixTable {
      match l
      case English => english
      case Spanish => spanish
      case French => french
      case German => german
    }
  }

  /**
   * The code page the text is narrowed to. `roundTrip(c)` is
   * `c.encode("mbcs").decode("mbcs")`, `None` when it raises; `stripAccents`
   * is `_strip_accents`; `encodable` says whether encoding succeeds.
   */
  datatype CodePage = CodePage(
    roundTrip: char -> Option<string>,
    stripAccents: char -> string,
    encodable: string -> bool)

  const EnglishIds: set<int> := {65536, 65537}
  const SpanishIds: set<int> := {131072, 131073}
  const FrenchIds: set<int> := {196608, 196609}
  const GermanIds: set<int> := {262144}
  const ChineseId := 393216
  const JapaneseId := 524288
  const KoreanId := 655360
  const AsianIds: set<int> := {393216, 524288, 655360}

  /** What one character becomes: itself through the code page, else accent-stripped, else `?`. */
  function NormalizeChar(page: CodePage, c: char): (r: string)
    ensures page.roundTrip(c).Some? ==> r == page.roundTrip(c).value
    ensures page.roundTrip(c).None? && !page.encodable(page.stripAccents(c)) ==> r == "?"
    ensures page.roundTrip(c).None? && page.encodable(page.stripAccents(c)) ==> r == page.stripAccents(c)
  {
    match page.roundTrip(c)
    case Some(cc) => cc
    case None =>
      var stripped := page.stripAccents(c);
      if page.encodable(stripped) then stripped else "?"
  }

  /** `_normalize_text`: every character is mapped on its own and the pieces are joined. */
  function NormalizeText(page: CodePage, s: string): string
    decreases |s|
  {
    if s == [] then [] else NormalizeChar(page, s[0]) + NormalizeText(page, s[1..])
  }

  /** Normalisation distributes over concatenation: no character's result depends on its neighbours. */
  lemma {:induction false} NormalizeTextAppend(page: CodePage, a: string, b: string)
    ensures NormalizeText(page, a + b) == NormalizeText(page, a) + NormalizeText(page, b)
    decreases |a|
  {
    if a == [] {
      assert a + b == b;
    } else {
      assert (a + b)[0] == a[0];
      assert (a + b)[1..] == a[1..] + b;
      NormalizeTextAppend(page, a[1..], b);
    }
  }

  /** A character the code page cannot hold even without its accents becomes a single `?`. */
  lemma UnencodableBecomesQuestionMark(page: CodePage, c: char, before: string, after: string)
    requires page.roundTrip(c).None? && !page.encodable(page.stripAccents(c))
    ensures NormalizeText(page, before + [c] + after) ==
      NormalizeText(page, before) + "?" + NormalizeText(page, after)
  {
    NormalizeTextAppend(page, before + [c], after);
    NormalizeTextAppend(page, before, [c]);
    assert NormalizeText(page, [c]) == NormalizeChar(page, c) + NormalizeText(page, []);
  }

  /**
   * `preprocess`: English fixes for the English, Chinese and Korean voices,
   * else Spanish or French fixes for those voices; German fixes for the
   * German voice; then normalisation for every voice but the Asian ones.
   */
  function Preprocess(fixes: Fixes, page: CodePage, text: string, voiceId: int): string {
    var t1 :=
      if voiceId in EnglishIds || voiceId == ChineseId || voiceId == KoreanId then Resub(fixes.english, text)
      else if voiceId in SpanishIds then Resub(fixes.spanish, text)
      else if voiceId in FrenchIds then Resub(fixes.french, text)
      else text;
    var t2 := if voiceId in GermanIds then Resub(fixes.german, t1) else t1;
    if voiceId !in AsianIds then NormalizeText(page, t2) else t2
  }

  /** Which tables a voice gets, in order, and whether its text is normalised. */
  datatype Plan = Plan(tables: seq<Language>, normalize: bool)

  /** The plan for each voice, stated voice group by voice group. */
  function PlanFor(voiceId: int): (p: Plan)
    ensures voiceId in {65536, 65537, 393216, 655360} ==> p.tables == [English]
    ensures voiceId in SpanishIds ==> p.tables == [Spanish]
    ensures voiceId in FrenchIds ==> p.tables == [French]
    ensures voiceId == 262144 ==> p.tables == [German]
    ensures voiceId !in {65536, 65537, 393216, 655360, 131072, 131073, 196608, 196609, 262144} ==> p.tables == []
    ensures p.normalize <==> voiceId !in {393216, 524288, 655360}
  {
    Plan(
      if voiceId in {65536, 65537, 393216, 655360} then [English]
      else if voiceId in {131072, 131073} then [Spanish]
      else if voiceId in {196608, 196609} then [French]
      else if voiceId == 262144 then [German]
      else [],
      voiceId !in {393216, 524288, 655360})
  }

  function ApplyTables(fixes: Fixes, tables: seq<Language>, text: string): string
    decreases |tables|
  {
    if tables == [] then text else ApplyTables(fixes, tables[1..], Resub(fixes.Of(tables[0]), text))
  }

  function RunPlan(fixes: Fixes, page: CodePage, p: Plan, text: string): string {
    var t := ApplyTables(fixes, p.tables, text);
    if p.normalize then NormalizeText(page, t) else t
  }

  /**
   * `preprocess` follows the plan: every voice gets exactly the tables its
   * plan names (so no voice gets two language tables, and the German voice
   * gets no English, Spanish or French one) and is normalised exactly when
   * its plan says so.
   */
  lemma PreprocessFollowsPlan(fixes: Fixes, page: CodePage, text: string, voiceId: int)
    ensures Preprocess(fixes, page, text, voiceId) == RunPlan(fixes, page, PlanFor(voiceId), text)
  {
    var p := PlanFor(voiceId);
    if p.tables != [] {
      assert p.tables[1..] == [];
      assert ApplyTables(fixes, p.tables, text) == Resub(fixes.Of(p.tables[0]), text);
    }
  }

  /** Japanese text is returned exactly as given. */
  lemma JapaneseUnchanged(fixes: Fixes, page: CodePage, text: string)
    ensures Preprocess(fixes, page, text, JapaneseId) == text
  {
    PreprocessFollowsPlan(fixes, page, text, JapaneseId);
  }
}
