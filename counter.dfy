/**
 * The click counter: a count that a button raises by one up to 10, the list
 * of values it has taken, and the colour its text is shown in. Both are
 * kept in local storage, the count as `String(count)` and the history as
 * JSON.
 */
module Counter {
  import opened Wrappers
  import opened JsNumbers
  import opened Json
  import opened NumberText
  import opened WebStorage

  const CountKey := "contador_count"
  const HistoryKey := "contador_history"

  /** The largest count, 10. */
  const Limit := Finite(1000)

  /* Colours */

  /** `getColor(valor)`: three closed bands of the count, and black for anything else. */
  function GetColor(valor: JsNumber): string {
    if LessEq(Zero, valor) && LessEq(valor, Finite(300)) then "red"
    else if LessEq(Finite(400), valor) && LessEq(valor, Finite(700)) then "yellow"
    else if LessEq(Finite(800), valor) && LessEq(valor, Finite(1000)) then "green"
    else "black"
  }

  /** The bands, each as the range of numbers it covers; NaN and the infinities are black. */
  lemma ColorBands(valor: JsNumber)
    ensures GetColor(valor) == "red" <==> valor.Finite? && 0 <= valor.hundredths <= 300
    ensures GetColor(valor) == "yellow" <==> valor.Finite? && 400 <= valor.hundredths <= 700
    ensures GetColor(valor) == "green" <==> valor.Finite? && 800 <= valor.hundredths <= 1000
    ensures GetColor(valor) == "black" <==>
      !valor.Finite? || !(0 <= valor.hundredths <= 300 || 400 <= valor.hundredths <= 700 || 800 <= valor.hundredths <= 1000)
  {
  }

  /** A whole count from 0 to 10 is never black. */
  lemma WholeCountsHaveColour(valor: JsNumber)
    requires valor.Finite? && valor.hundredths % 100 == 0 && 0 <= valor.hundredths <= 1000
    ensures GetColor(valor) != "black"
  {
    ColorBands(valor);
  }

  /** The fallback is reachable: a stored count of 3.5 lies between the bands. */
  lemma BetweenBandsIsBlack()
    ensures GetColor(Finite(350)) == "black"
  {
  }

  /* Clicks */

  /**
   * The state after `handleClick`: the candidate `Math.min(count + 1, 10)`
   * becomes the count, and is appended to the history, when it differs
   * (`!==`) from the count.
   */
  function Click(count: JsNumber, history: seq<JsNumber>): (JsNumber, seq<JsNumber>) {
    var novo := Min(Add(count, One), Limit);
    if !StrictEquals(novo, count) then (novo, history + [novo]) else (count, history)
  }

  /** A click at 10 changes nothing. */
  lemma ClickAtLimit(history: seq<JsNumber>)
    ensures Click(Limit, history) == (Limit, history)
  {
  }

  /** Below the limit a click adds one to the count and logs the new count after the earlier entries. */
  lemma ClickBelowLimit(count: JsNumber, history: seq<JsNumber>)
    requires count.Finite? && count.hundredths < 1000
    ensures var (c, h) := Click(count, history);
      c == Finite(if count.hundredths + 100 < 1000 then count.hundredths + 100 else 1000) && h == history + [c]
  {
  }

  /** A count that storage turned into NaN stays NaN, and every click logs another NaN, since NaN !== NaN. */
  lemma ClickOnNaN(history: seq<JsNumber>)
    ensures Click(NaN, history) == (NaN, history + [NaN])
  {
  }

  /** The state after n clicks. */
  function Clicks(n: nat, count: JsNumber, history: seq<JsNumber>): (JsNumber, seq<JsNumber>) {
    if n == 0 then (count, history)
    else
      var (c, h) := Clicks(n - 1, count, history);
      Click(c, h)
  }

  /** The history strictly increases and no entry exceeds the count, which lies in 0..10. */
  ghost predicate Steady(count: JsNumber, history: seq<JsNumber>) {
    && count.Finite? && 0 <= count.hundredths <= 1000
    && (forall i :: 0 <= i < |history| ==> history[i].Finite? && history[i].hundredths <= count.hundredths)
    && (forall i, j :: 0 <= i < j < |history| ==> history[i].hundredths < history[j].hundredths)
  }

  lemma ClickKeepsSteady(count: JsNumber, history: seq<JsNumber>)
    requires Steady(count, history)
    ensures Steady(Click(count, history).0, Click(count, history).1)
  {
    if count.hundredths < 1000 {
      ClickBelowLimit(count, history);
    }
  }

  /** From a steady state, any number of clicks keeps the count in 0..10 and the history strictly increasing. */
  lemma {:induction false} ClicksKeepSteady(n: nat, count: JsNumber, history: seq<JsNumber>)
    requires Steady(count, history)
    ensures Steady(Clicks(n, count, history).0, Clicks(n, count, history).1)
  {
    if n > 0 {
      ClicksKeepSteady(n - 1, count, history);
      var (c, h) := Clicks(n - 1, count, history);
      ClickKeepsSteady(c, h);
    }
  }

  /** The values 1 to k, in order. */
  function Ramp(k: nat): (r: seq<JsNumber>)
    ensures |r| == k && forall i :: 0 <= i < k ==> r[i] == Finite(100 * (i + 1))
  {
    if k == 0 then [] else Ramp(k - 1) + [Finite(100 * k)]
  }

  /** From a fresh counter, n clicks give the count min(n, 10) and the history 1, 2, ..., min(n, 10). */
  lemma {:induction false} ClicksFromZero(n: nat)
    ensures var k := if n < 10 then n else 10;
      Clicks(n, Zero, []) == (Finite(100 * k), Ramp(k))
  {
    if n > 0 {
      ClicksFromZero(n - 1);
      if n - 1 < 10 {
        ClickBelowLimit(Finite(100 * (n - 1)), Ramp(n - 1));
      } else {
        ClickAtLimit(Ramp(10));
      }
    }
  }

  /* Storage */

  /** The count read back on mount: `Number(saved)`, where a missing key reads as `Number(null)`, which is 0. */
  function ReadCount(saved: Option<string>): JsNumber {
    if saved.None? then Zero else StringToNumber(saved.value)
  }

  lemma CountRoundTrip(count: JsNumber)
    ensures ReadCount(Some(NumberToString(count))) == count
  {
    NumberTextRoundTrip(count);
  }

  /**
   * Stored text that starts with a lower-case letter is no number, whatever
   * follows it, so the count becomes NaN.
   */
  lemma GarbageCountIsNaN(text: string)
    requires |text| > 0 && 'a' <= text[0] <= 'z'
    ensures ReadCount(Some(text)) == NaN
  {
    LowerCaseText(text);
    LowerCaseTrim(text);
    LowerCaseText(JsStrings.Trim(text));
  }

  /** Trimming text that starts with no white space keeps its first character at the front. */
  lemma LowerCaseTrim(text: string)
    requires |text| > 0 && !JsStrings.IsWhiteSpace(text[0])
    ensures |JsStrings.Trim(text)| > 0 && JsStrings.Trim(text)[0] == text[0]
  {
    assert JsStrings.TrimStart(text) == text;
  }

  /** Text starting with a lower-case letter is unsigned, not "Infinity" and no decimal literal. */
  lemma LowerCaseText(t: string)
    requires |t| > 0 && 'a' <= t[0] <= 'z'
    ensures !JsStrings.IsWhiteSpace(t[0]) && t[0] != '-' && t[0] != '+' && t != "Infinity"
    ensures UnsignedValue(t) == None
  {
    assert LeadingDigits(t) == 0;
    assert t[0] != "Infinity"[0];
  }

  /** `JSON.stringify` of a number: NaN and the infinities are written as null. */
  function NumberJson(n: JsNumber): Json {
    if n.Finite? then JNum(n.hundredths) else JNull
  }

  function HistoryJson(history: seq<JsNumber>): (r: seq<Json>)
    ensures |r| == |history|
  {
    if |history| == 0 then [] else [NumberJson(history[0])] + HistoryJson(history[1..])
  }

  /** `JSON.stringify(history)`. */
  function HistoryText(history: seq<JsNumber>): string {
    Stringify(JArr(HistoryJson(history)))
  }

  function NumbersFromJson(items: seq<Json>): Option<seq<JsNumber>> {
    if |items| == 0 then Some([])
    else
      var rest := NumbersFromJson(items[1..]);
      if !items[0].JNum? || rest.None? then None else Some([Finite(items[0].hundredths)] + rest.value)
  }

  /**
   * The history read back on mount: `[]` when the key is absent or empty,
   * otherwise `JSON.parse(saved)`. None when that is not an array of
   * numbers, where the component throws or keeps a value that is not a
   * list of numbers.
   */
  function ReadHistory(saved: Option<string>): Option<seq<JsNumber>> {
    if saved.None? || saved.value == "" then Some([])
    else
      var j := Parse(saved.value);
      if j.Some? && j.value.JArr? then NumbersFromJson(j.value.items) else None
  }

  lemma {:induction false} NumbersRoundTrip(history: seq<JsNumber>)
    requires forall i :: 0 <= i < |history| ==> history[i].Finite?
    ensures NumbersFromJson(HistoryJson(history)) == Some(history)
  {
    if |history| > 0 {
      var items := HistoryJson(history);
      assert items[1..] == HistoryJson(history[1..]);
      NumbersRoundTrip(history[1..]);
      assert [history[0]] + history[1..] == history;
    }
  }

  /** A stored history of finite numbers reads back as itself; an absent one reads as empty. */
  lemma HistoryRoundTrip(history: seq<JsNumber>)
    requires forall i :: 0 <= i < |history| ==> history[i].Finite?
    ensures ReadHistory(Some(HistoryText(history))) == Some(history)
    ensures ReadHistory(None) == Some([])
  {
    ParseStringify(JArr(HistoryJson(history)));
    NumbersRoundTrip(history);
  }

  /**
   * A NaN or an infinity anywhere in the history is stored as null, so the
   * stored history cannot be read back as numbers.
   */
  lemma NaNHistoryNotRestored(history: seq<JsNumber>)
    requires exists i :: 0 <= i < |history| && !history[i].Finite?
    ensures ReadHistory(Some(HistoryText(history))) == None
  {
    ParseStringify(JArr(HistoryJson(history)));
    NumbersRejectNull(history);
  }

  lemma {:induction false} NumbersRejectNull(history: seq<JsNumber>)
    requires exists i :: 0 <= i < |history| && !history[i].Finite?
    ensures NumbersFromJson(HistoryJson(history)) == None
  {
    var items := HistoryJson(history);
    if history[0].Finite? {
      var i :| 0 <= i < |history| && !history[i].Finite?;
      assert !history[1..][i - 1].Finite?;
      assert items[1..] == HistoryJson(history[1..]);
      NumbersRejectNull(history[1..]);
    } else {
      assert items[0] == JNull;
    }
  }

  class Contador {
    var count: JsNumber
    var history: seq<JsNumber>
    var storage: map<string, string>

    /** Storage holds the current count and history. */
    ghost predicate Valid()
      reads this
    {
      && GetItem(storage, CountKey) == Some(NumberToString(count))
      && GetItem(storage, HistoryKey) == Some(HistoryText(history))
    }

    /**
     * Mounting: read both keys, then write both back. A stored history that
     * is not an array of numbers is outside the model.
     */
    constructor(saved: map<string, string>)
      requires ReadHistory(GetItem(saved, HistoryKey)).Some?
      ensures count == ReadCount(GetItem(saved, CountKey))
      ensures history == ReadHistory(GetItem(saved, HistoryKey)).value
      ensures storage == saved[CountKey := NumberToString(count)][HistoryKey := HistoryText(history)]
      ensures Valid()
    {
      var c := ReadCount(GetItem(saved, CountKey));
      var h := ReadHistory(GetItem(saved, HistoryKey)).value;
      count := c;
      history := h;
      storage := saved[CountKey := NumberToString(c)][HistoryKey := HistoryText(h)];
    }

    /** `handleClick` together with the two write-through effects it triggers. */
    method HandleClick()
      requires Valid()
      modifies this
      ensures (count, history) == Click(old(count), old(history))
      ensures history == old(history) ==> count == old(count) && storage == old(storage)
      ensures history != old(history) ==>
        storage == old(storage)[CountKey := NumberToString(count)][HistoryKey := HistoryText(history)]
      ensures Valid()
    {
      var novo := Min(Add(count, One), Limit);
      if !StrictEquals(novo, count) {
        count := novo;
        history := history + [novo];
        storage := storage[CountKey := NumberToString(count)];
        storage := storage[HistoryKey := HistoryText(history)];
      }
    }
  }
}
