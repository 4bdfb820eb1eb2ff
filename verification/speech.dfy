/**
 * NVDA speech sequences as the driver sees them, and `combine_adjacent_strings`,
 * which joins every run of adjacent strings into one before `speak` walks the
 * sequence.
 */
module Speech {
  import opened Common

  /** The three prosody commands `speak` maps to engine parameters (`PROSODY_ATTRS`). */
  datatype ProsodyKind = PitchKind | VolumeKind | RateKind

  /**
   * One item of a speech sequence. Prosody commands carry their raw
   * multiplier and offset; commands `speak` ignores are `OtherItem`.
   */
  datatype SpeechItem =
    | Text(text: string)
    | IndexItem(index: int)
    | BreakItem(time: int)
    | LangChange(lang: Option<string>)
    | ProsodyItem(kind: ProsodyKind, multiplier: real, offset: real)
    | OtherItem

  /**
   * The sequence as a stream of characters and non-string items: what is
   * left of it once every string is split into its characters.
   */
  datatype Atom = Char(c: char) | Item(item: SpeechItem)

  function Chars(t: string): (r: seq<Atom>)
    ensures |r| == |t| && forall i :: 0 <= i < |t| ==> r[i] == Char(t[i])
  {
    seq(|t|, i requires 0 <= i < |t| => Char(t[i]))
  }

  lemma CharsAppend(a: string, b: string)
    ensures Chars(a + b) == Chars(a) + Chars(b)
  {
    assert forall i :: 0 <= i < |a + b| ==> Chars(a + b)[i] == (Chars(a) + Chars(b))[i];
  }

  function Flatten(items: seq<SpeechItem>): seq<Atom>
    decreases |items|
  {
    if items == [] then []
    else (match items[0] case Text(t) => Chars(t) case _ => [Item(items[0])]) + Flatten(items[1..])
  }

  /** No string is empty and no two strings are adjacent. */
  predicate Combined(items: seq<SpeechItem>) {
    && (forall i :: 0 <= i < |items| && items[i].Text? ==> items[i].text != "")
    && (forall i :: 0 <= i < |items| - 1 && items[i].Text? ==> !items[i + 1].Text?)
  }

  /** The run of strings collected so far, if any, as a one-item sequence. */
  function Flush(current: string): (r: seq<SpeechItem>)
    ensures Flatten(r) == Chars(current) && Combined(r)
  {
    if current == "" then [] else [Text(current)]
  }

  /** The loop of `combine_adjacent_strings`, `current` being the run of strings collected so far. */
  function CombineFrom(items: seq<SpeechItem>, current: string): (r: seq<SpeechItem>)
    decreases |items|
  {
    if items == [] then Flush(current)
    else match items[0]
      case Text(t) => CombineFrom(items[1..], current + t)
      case _ => Flush(current) + [items[0]] + CombineFrom(items[1..], "")
  }

  /** `combine_adjacent_strings` */
  function Combine(items: seq<SpeechItem>): (r: seq<SpeechItem>)
  {
    CombineFrom(items, "")
  }

  lemma FlattenAppend(a: seq<SpeechItem>, b: seq<SpeechItem>)
    ensures Flatten(a + b) == Flatten(a) + Flatten(b)
    decreases |a|
  {
    if a == [] {
      assert a + b == b;
    } else {
      assert (a + b)[1..] == a[1..] + b;
      FlattenAppend(a[1..], b);
    }
  }

  /** Nothing is lost, added or reordered: the collected run followed by the input, as characters and items. */
  lemma {:induction false} CombineFromKeepsAtoms(items: seq<SpeechItem>, current: string)
    ensures Flatten(CombineFrom(items, current)) == Chars(current) + Flatten(items)
    decreases |items|
  {
    if items != [] {
      match items[0]
      case Text(t) =>
        CombineFromKeepsAtoms(items[1..], current + t);
        CharsAppend(current, t);
      case _ =>
        var rest := CombineFrom(items[1..], "");
        CombineFromKeepsAtoms(items[1..], "");
        FlattenAppend(Flush(current) + [items[0]], rest);
        FlattenAppend(Flush(current), [items[0]]);
        assert Flatten([items[0]]) == [Item(items[0])];
    }
  }

  /**
   * The output of `CombineFrom` is combined, and it starts with a string only
   * when the pending run or the input does.
   */
  lemma {:induction false} CombineFromCombined(items: seq<SpeechItem>, current: string)
    ensures Combined(CombineFrom(items, current))
    ensures var r := CombineFrom(items, current);
      r != [] && r[0].Text? ==> current != "" || (items != [] && items[0].Text?)
    decreases |items|
  {
    if items != [] {
      match items[0]
      case Text(t) =>
        CombineFromCombined(items[1..], current + t);
      case _ =>
        var rest := CombineFrom(items[1..], "");
        CombineFromCombined(items[1..], "");
        JoinCombined(Flush(current), items[0], rest);
        var r := Flush(current) + [items[0]] + rest;
        assert r == CombineFrom(items, current);
        if current == "" {
          assert r[0] == items[0];
        }
    }
  }

  /** Two combined sequences joined by a non-string item form a combined sequence. */
  lemma JoinCombined(a: seq<SpeechItem>, x: SpeechItem, b: seq<SpeechItem>)
    requires Combined(a) && Combined(b) && !x.Text?
    ensures Combined(a + [x] + b)
  {
    var r := a + [x] + b;
    assert forall i :: 0 <= i < |a| ==> r[i] == a[i];
    assert r[|a|] == x;
    assert forall i :: |a| < i < |r| ==> r[i] == b[i - |a| - 1];
  }

  /**
   * `combine_adjacent_strings` never yields an empty string or two adjacent
   * strings, and concatenating its strings in place gives back the input:
   * every non-string item keeps its position relative to all the text.
   */
  lemma CombineProperties(items: seq<SpeechItem>)
    ensures Combined(Combine(items))
    ensures Flatten(Combine(items)) == Flatten(items)
  {
    CombineFromCombined(items, "");
    CombineFromKeepsAtoms(items, "");
    assert Chars("") == [];
  }

  /** A sequence that is already combined comes back unchanged. */
  lemma {:induction false} CombineFromOnCombined(items: seq<SpeechItem>, current: string)
    requires Combined(items)
    requires current != "" ==> items == [] || !items[0].Text?
    ensures CombineFrom(items, current) == Flush(current) + items
    decreases |items|
  {
    if items == [] {
    } else {
      assert Combined(items[1..]) by {
        assert forall i :: 0 <= i < |items[1..]| ==> items[1..][i] == items[i + 1];
      }
      match items[0]
      case Text(t) =>
        assert current == "";
        assert t != "";
        CombineFromOnCombined(items[1..], t);
        assert "" + t == t;
        assert [Text(t)] + items[1..] == items;
      case _ =>
        CombineFromOnCombined(items[1..], "");
        assert [items[0]] + items[1..] == items;
    }
  }

  lemma CombineIdempotent(items: seq<SpeechItem>)
    ensures Combine(Combine(items)) == Combine(items)
  {
    CombineProperties(items);
    CombineFromOnCombined(Combine(items), "");
  }
}
