/**
 * The EditableField widget of the character overview, and the ability-score
 * inputs beside it.
 *
 * An EditableField shows one field of the character record; clicking opens
 * a text box, and saving hands the new value to `onChange`. A field of type
 * "number" parses its text (`parseInt(v) || 0`) and clamps it by the `min`
 * and `max` props when they are given, `min` first; any other field passes
 * its text through unchanged.
 */
module Fields {
  import opened JsValues
  import Resources

  datatype FieldKind = TextField | NumberField

  /** A field's value: the text fields hold strings, the number fields numbers. */
  datatype FieldValue = Text(s: string) | Number(n: int)

  /** What the text box shows for a value (and what `tempValue` holds until the user types). */
  function Render(v: FieldValue): string {
    match v
    case Text(s) => s
    case Number(n) => Show(n)
  }

  /** handleSave's `newValue` for a field of the given kind and bounds. */
  function CommitValue(kind: FieldKind, tempValue: string, min: Option<int>, max: Option<int>): (r: FieldValue)
    ensures r.Number? <==> kind == NumberField
    ensures kind == TextField ==> r == Text(tempValue)
    ensures r.Number? && min.Some? && (max.None? || min.value <= max.value) ==> min.value <= r.n
    ensures r.Number? && max.Some? ==> r.n <= max.value
    ensures r.Number? && min.None? && max.None? ==> r.n == ParseIntOr(tempValue, 0)
    ensures r.Number? && min.Some? && (max.None? || min.value <= max.value) && ParseIntOr(tempValue, 0) < min.value
            ==> r.n == min.value
    ensures r.Number? && max.Some? && max.value < ParseIntOr(tempValue, 0) ==> r.n == max.value
    ensures r.Number? && (min.None? || min.value <= ParseIntOr(tempValue, 0))
                      && (max.None? || ParseIntOr(tempValue, 0) <= max.value)
            ==> r.n == ParseIntOr(tempValue, 0)
  {
    if kind == NumberField then
      var parsed := ParseIntOr(tempValue, 0);
      var raised := if min.Some? then Max(min.value, parsed) else parsed;
      var lowered := if max.Some? then Min(max.value, raised) else raised;
      Number(lowered)
    else
      Text(tempValue)
  }

  /** With both bounds given and crossed, `max` is applied last and wins. */
  lemma CrossedBoundsGiveMax(tempValue: string, lo: int, hi: int)
    requires hi < lo
    ensures CommitValue(NumberField, tempValue, Some(lo), Some(hi)) == Number(hi)
  {
  }

  /** Saving a field whose text was not touched commits the value it showed. */
  lemma CommitRenderedKeepsValue(v: FieldValue, kind: FieldKind, min: Option<int>, max: Option<int>)
    requires v.Text? <==> kind == TextField
    requires v.Number? && min.Some? ==> min.value <= v.n
    requires v.Number? && max.Some? ==> v.n <= max.value
    ensures CommitValue(kind, Render(v), min, max) == v
  {
    if v.Number? {
      ParseIntOrOfShow(v.n, 0);
    }
  }

  /** How each numeric field of the overview is configured: its `min`, and never a `max`. */
  datatype SheetField =
    | HitPoints | ArmorClass | Initiative | SpeedMeters | SpeedSquares
    | Level | Gold | Experience | MaxAp | MaxMp | MaxHex

  /** The `min` prop each numeric field of the overview is given. */
  function MinOf(f: SheetField): (m: Option<int>)
    ensures m.None? <==> f == Initiative
    ensures m.Some? ==> 0 <= m.value <= 1
    ensures m == Some(1) <==> f == Level
  {
    match f
    case Initiative => None
    case Level => Some(1)
    case _ => Some(0)
  }

  /**
   * Every numeric field of the overview commits a number no smaller than its
   * `min`: level at least 1, the others except initiative at least 0.
   */
  lemma SheetFieldRespectsMin(f: SheetField, tempValue: string)
    ensures CommitValue(NumberField, tempValue, MinOf(f), None).Number?
    ensures f != Initiative ==> CommitValue(NumberField, tempValue, MinOf(f), None).n >= MinOf(f).value
    ensures f == Level ==> CommitValue(NumberField, tempValue, MinOf(f), None).n >= 1
  {
  }

  /**
   * The maxima of AP, MP and HEX can be saved as 0, and the sheet then shows
   * the default maximum in its place.
   */
  lemma MaximaCanBeSavedAsZero(f: SheetField, c: Resources.CharacterResources)
    requires f == MaxAp || f == MaxMp || f == MaxHex
    ensures CommitValue(NumberField, "0", MinOf(f), None) == Number(0)
    ensures f == MaxAp ==> Resources.Displayed(c.(maxAp := Num(CommitValue(NumberField, "0", MinOf(f), None).n))).ap.max == 45
    ensures f == MaxMp ==> Resources.Displayed(c.(maxMp := Num(CommitValue(NumberField, "0", MinOf(f), None).n))).mp.max == 121
    ensures f == MaxHex ==> Resources.Displayed(c.(maxHex := Num(CommitValue(NumberField, "0", MinOf(f), None).n))).hex.max == 20
  {
    ShowExamples();
    ParseIntOrOfShow(0, 0);
    assert ParseIntOr("0", 0) == 0;
  }

  /**
   * The EditableField widget. `value` is the prop it was last rendered with;
   * `kind`, `min` and `max` are fixed props; `editing` and `tempValue` are its
   * state; `changes` lists every value it has passed to `onChange`.
   */
  class EditableField {
    var value: FieldValue
    const kind: FieldKind
    const min: Option<int>
    const max: Option<int>
    var editing: bool
    var tempValue: string
    var changes: seq<FieldValue>

    /** Mounting: `useState(false)` and `useState(value)`. */
    constructor (value: FieldValue, kind: FieldKind, min: Option<int>, max: Option<int>)
      ensures this.value == value && this.kind == kind && this.min == min && this.max == max
      ensures !editing && tempValue == Render(value) && changes == []
    {
      this.value := value;
      this.kind := kind;
      this.min := min;
      this.max := max;
      editing := false;
      tempValue := Render(value);
      changes := [];
    }

    /** The parent re-renders the field with a new value; the widget's state is kept. */
    method Rerender(value: FieldValue)
      modifies this
      ensures this.value == value
      ensures editing == old(editing) && tempValue == old(tempValue) && changes == old(changes)
    {
      this.value := value;
    }

    /** A click on the shown value opens the editor on it. */
    method StartEditing()
      modifies this
      ensures editing && tempValue == Render(value)
      ensures value == old(value) && changes == old(changes)
    {
      editing := true;
      tempValue := Render(value);
    }

    /** The input's onChange: the typed text replaces `tempValue`. */
    method Type(text: string)
      modifies this
      ensures tempValue == text
      ensures value == old(value) && editing == old(editing) && changes == old(changes)
    {
      tempValue := text;
    }

    /** handleSave: commit the (for numbers: parsed and clamped) text and close the editor. */
    method HandleSave() returns (v: FieldValue)
      modifies this
      ensures v == CommitValue(kind, old(tempValue), min, max)
      ensures changes == old(changes) + [v]
      ensures !editing && tempValue == old(tempValue) && value == old(value)
    {
      v := CommitValue(kind, tempValue, min, max);
      changes := changes + [v];
      editing := false;
    }

    /** handleKeyPress: Enter saves, Escape cancels, any other key does nothing. */
    method HandleKeyPress(key: Key)
      modifies this
      ensures key == Enter ==> changes == old(changes) + [CommitValue(kind, old(tempValue), min, max)]
      ensures key == Enter ==> !editing && tempValue == old(tempValue)
      ensures key == Escape ==> changes == old(changes) && !editing && tempValue == Render(value)
      ensures key.OtherKey? ==> changes == old(changes) && editing == old(editing) && tempValue == old(tempValue)
      ensures value == old(value)
    {
      if key == Enter {
        var _ := HandleSave();
      } else if key == Escape {
        editing := false;
        tempValue := Render(value);
      }
    }
  }

  // ---------------------------------------------------------------------
  // Ability scores (the overview's edit mode)
  // ---------------------------------------------------------------------

  const DEFAULT_ABILITY_SCORE := 50

  /** A typed score: `parseInt(e.target.value) || 50`. */
  function TypedAbilityScore(text: string): (r: int)
    ensures r != 0
    ensures Truthy(ParseInt(text)) ==> r == ParseInt(text).n
    ensures ParseInt(text).NaN? || ParseInt(text) == Num(0) ==> r == DEFAULT_ABILITY_SCORE
  {
    ParseIntOr(text, DEFAULT_ABILITY_SCORE)
  }

  /** A shown score: `character[stat.key] || 50`. */
  function ShownAbilityScore(stored: JsNumber): (r: int)
    ensures r != 0
    ensures Truthy(stored) ==> r == stored.n
    ensures !Truthy(stored) ==> r == DEFAULT_ABILITY_SCORE
  {
    Or(stored, DEFAULT_ABILITY_SCORE)
  }

  /**
   * A typed numeral is kept as typed unless it is 0, which becomes 50; the
   * 1 to 100 range of the input is not enforced, so 150 is kept.
   */
  lemma TypedAbilityScoreOfNumeral(n: int)
    ensures TypedAbilityScore(Show(n)) == if n == 0 then 50 else n
    ensures TypedAbilityScore("0") == 50
    ensures TypedAbilityScore("150") == 150
  {
    ParseIntOrOfShow(n, DEFAULT_ABILITY_SCORE);
    ParseIntOrOfShow(0, DEFAULT_ABILITY_SCORE);
    ParseIntOrOfShow(150, DEFAULT_ABILITY_SCORE);
    ShowExamples();
  }
}
