/**
 * The AP, MP and HEX counters of the character sheet: the defaults the
 * sheet shows for a stored record, the three ways the ResourceControl
 * widget computes a new value (free-text save, +1, -1), and the widget's
 * own editing state.
 *
 * The widget never writes a counter itself: it hands the new value to its
 * `onChange` callback, which sends it to the server; the counter it shows
 * changes only when the parent re-renders it with the server's reply.
 */
module Resources {
  import opened JsValues

  const DEFAULT_MAX_AP := 45
  const DEFAULT_MAX_MP := 121
  const DEFAULT_MAX_HEX := 20

  /** The resource fields of a character record as the server returns them. */
  datatype CharacterResources = CharacterResources(
    currentAp: JsNumber, maxAp: JsNumber,
    currentMp: JsNumber, maxMp: JsNumber,
    currentHex: JsNumber, maxHex: JsNumber)

  /** One counter as the sheet shows it and hands it to a ResourceControl. */
  datatype Counter = Counter(current: int, max: int)

  datatype ResourceView = ResourceView(ap: Counter, mp: Counter, hex: Counter)

  /**
   * `current_x || 0` and `max_x || 45 / 121 / 20`: a missing, null or zero
   * field shows its default, any other number shows as stored.
   */
  function Displayed(c: CharacterResources): (v: ResourceView)
    ensures v.ap.max != 0 && v.mp.max != 0 && v.hex.max != 0
    ensures Truthy(c.maxAp) ==> v.ap.max == c.maxAp.n
    ensures Truthy(c.maxMp) ==> v.mp.max == c.maxMp.n
    ensures Truthy(c.maxHex) ==> v.hex.max == c.maxHex.n
    ensures !Truthy(c.maxAp) ==> v.ap.max == DEFAULT_MAX_AP
    ensures !Truthy(c.maxMp) ==> v.mp.max == DEFAULT_MAX_MP
    ensures !Truthy(c.maxHex) ==> v.hex.max == DEFAULT_MAX_HEX
    ensures c.currentAp.Num? ==> v.ap.current == c.currentAp.n
    ensures c.currentMp.Num? ==> v.mp.current == c.currentMp.n
    ensures c.currentHex.Num? ==> v.hex.current == c.currentHex.n
    ensures !c.currentAp.Num? ==> v.ap.current == 0
    ensures !c.currentMp.Num? ==> v.mp.current == 0
    ensures !c.currentHex.Num? ==> v.hex.current == 0
  {
    ResourceView(
      Counter(Or(c.currentAp, 0), Or(c.maxAp, DEFAULT_MAX_AP)),
      Counter(Or(c.currentMp, 0), Or(c.maxMp, DEFAULT_MAX_MP)),
      Counter(Or(c.currentHex, 0), Or(c.maxHex, DEFAULT_MAX_HEX)))
  }

  /**
   * Because the fallback is `||`, a stored maximum of 0 is shown as the
   * default, whatever the other fields hold.
   */
  lemma StoredZeroMaxShowsDefault(c: CharacterResources)
    ensures c.maxAp == Num(0) ==> Displayed(c).ap.max == 45
    ensures c.maxMp == Num(0) ==> Displayed(c).mp.max == 121
    ensures c.maxHex == Num(0) ==> Displayed(c).hex.max == 20
  {
  }

  // ---------------------------------------------------------------------
  // The new values ResourceControl hands to onChange
  // ---------------------------------------------------------------------

  /** handleSave: `Math.max(0, Math.min(max, parseInt(tempValue) || 0))`. */
  function SaveValue(tempValue: string, max: int): (r: int)
    ensures 0 <= r
    ensures 0 <= max ==> r <= max
    ensures 0 <= ParseIntOr(tempValue, 0) <= max ==> r == ParseIntOr(tempValue, 0)
    ensures 0 <= max < ParseIntOr(tempValue, 0) ==> r == max
    ensures ParseIntOr(tempValue, 0) < 0 || max < 0 ==> r == 0
    ensures ParseInt(tempValue).NaN? ==> r == 0
  {
    Max(0, Min(max, ParseIntOr(tempValue, 0)))
  }

  /** increment: `Math.min(max, current + 1)`. */
  function IncrementValue(current: int, max: int): (r: int)
    ensures r <= max
    ensures current < max ==> r == current + 1
    ensures max <= current ==> r == max
  {
    Min(max, current + 1)
  }

  /** decrement: `Math.max(0, current - 1)`. */
  function DecrementValue(current: int): (r: int)
    ensures 0 <= r
    ensures 0 < current ==> r == current - 1
    ensures current <= 0 ==> r == 0
  {
    Max(0, current - 1)
  }

  /**
   * Saving a numeral in range commits exactly that number; in particular,
   * saving the text the editor opened with, untouched, keeps the counter.
   */
  lemma SaveInRangeNumeral(n: int, max: int)
    requires 0 <= n <= max
    ensures SaveValue(Show(n), max) == n
  {
    ParseIntOrOfShow(n, 0);
  }

  /** Clamping a typed value to a maximum of 20: below, above, inside, and an empty box. */
  lemma SaveValueExamples()
    ensures SaveValue("-5", 20) == 0
    ensures SaveValue("25", 20) == 20
    ensures SaveValue("10", 20) == 10
    ensures SaveValue("", 20) == 0
  {
    assert Show(-5) == "-5" by { assert ShowNat(5) == "5"; }
    assert Show(25) == "25" by { assert ShowNat(2) == "2"; }
    assert Show(10) == "10" by { assert ShowNat(1) == "1"; }
    ParseIntOfShow(-5);
    ParseIntOfShow(25);
    ParseIntOfShow(10);
    ParseIntOfEmpty();
  }

  /** From a counter in range, both buttons stay in range and move by at most one. */
  lemma StepsStayInRange(current: int, max: int)
    requires 0 <= current <= max
    ensures 0 <= IncrementValue(current, max) <= max
    ensures 0 <= DecrementValue(current) <= max
    ensures 0 <= IncrementValue(current, max) - current <= 1
    ensures 0 <= current - DecrementValue(current) <= 1
  {
  }

  /**
   * From a counter outside `[0, max]` the buttons do not bring it back into
   * range in one step: - from above `max + 1` asks for a value above `max`,
   * and + from below -1 asks for a negative value.
   */
  lemma StepsOutOfRange(current: int, max: int)
    ensures max + 1 < current ==> max < DecrementValue(current)
    ensures current < -1 && current < max ==> IncrementValue(current, max) < 0
  {
  }

  /** Away from the bounds, - undoes + and + undoes -. */
  lemma StepsUndoEachOther(current: int, max: int)
    ensures 0 <= current < max ==> DecrementValue(IncrementValue(current, max)) == current
    ensures 0 < current <= max ==> IncrementValue(DecrementValue(current), max) == current
  {
  }

  /**
   * The ResourceControl widget for one counter. `current` and `max` are the
   * props it was last rendered with; `editing` and `tempValue` are its state;
   * `changes` lists, oldest first, every value it has passed to `onChange`.
   */
  class ResourceControl {
    var current: int
    var max: int
    var editing: bool
    var tempValue: string
    var changes: seq<int>

    /** The props are in range: the counter shows at most its maximum. */
    predicate InRange()
      reads this
    {
      0 <= current <= max
    }

    /**
     * Every value handed to `onChange` so far lies in `[0, max]`, for the
     * present `max`; a re-render that lowers `max` can break it.
     */
    predicate ChangesInRange()
      reads this
    {
      forall i :: 0 <= i < |changes| ==> 0 <= changes[i] <= max
    }

    /** Mounting: `useState(false)` and `useState(current)`. */
    constructor (current: int, max: int)
      ensures this.current == current && this.max == max
      ensures !editing && tempValue == Show(current) && changes == []
      ensures ChangesInRange()
    {
      this.current := current;
      this.max := max;
      editing := false;
      tempValue := Show(current);
      changes := [];
    }

    /** The parent re-renders with new props; the widget's state is kept. */
    method Rerender(current: int, max: int)
      modifies this
      ensures this.current == current && this.max == max
      ensures editing == old(editing) && tempValue == old(tempValue) && changes == old(changes)
      ensures old(ChangesInRange()) && old(this.max) <= max ==> ChangesInRange()
    {
      this.current := current;
      this.max := max;
    }

    /** handleDoubleClick: open the editor on the current value. */
    method HandleDoubleClick()
      modifies this
      ensures editing && tempValue == Show(current)
      ensures current == old(current) && max == old(max) && changes == old(changes)
    {
      editing := true;
      tempValue := Show(current);
    }

    /** The input's onChange: the typed text replaces `tempValue`. */
    method Type(text: string)
      modifies this
      ensures tempValue == text
      ensures current == old(current) && max == old(max)
      ensures editing == old(editing) && changes == old(changes)
    {
      tempValue := text;
    }

    /** handleSave: commit the clamped parse of the text and close the editor. */
    method HandleSave() returns (v: int)
      modifies this
      ensures v == SaveValue(old(tempValue), max)
      ensures 0 <= v && (0 <= max ==> v <= max)
      ensures changes == old(changes) + [v]
      ensures old(ChangesInRange()) && 0 <= max ==> ChangesInRange()
      ensures !editing && tempValue == old(tempValue)
      ensures current == old(current) && max == old(max)
    {
      v := SaveValue(tempValue, max);
      changes := changes + [v];
      editing := false;
    }

    /** handleKeyPress: Enter saves, Escape cancels, any other key does nothing. */
    method HandleKeyPress(key: Key)
      modifies this
      ensures key == Enter ==> changes == old(changes) + [SaveValue(old(tempValue), max)]
      ensures key == Enter ==> !editing && tempValue == old(tempValue)
      ensures key == Escape ==> changes == old(changes) && !editing && tempValue == Show(current)
      ensures key.OtherKey? ==> changes == old(changes) && editing == old(editing) && tempValue == old(tempValue)
      ensures old(ChangesInRange()) && 0 <= max ==> ChangesInRange()
      ensures current == old(current) && max == old(max)
    {
      if key == Enter {
        var _ := HandleSave();
      } else if key == Escape {
        editing := false;
        tempValue := Show(current);
      }
    }

    /** increment: ask for one more, never past `max`. */
    method Increment() returns (v: int)
      modifies this
      ensures v == IncrementValue(current, max)
      ensures InRange() ==> 0 <= v <= max && v - current <= 1
      ensures changes == old(changes) + [v]
      ensures old(ChangesInRange()) && InRange() ==> ChangesInRange()
      ensures current == old(current) && max == old(max)
      ensures editing == old(editing) && tempValue == old(tempValue)
    {
      v := IncrementValue(current, max);
      changes := changes + [v];
    }

    /** decrement: ask for one less, never below 0. */
    method Decrement() returns (v: int)
      modifies this
      ensures v == DecrementValue(current)
      ensures InRange() ==> 0 <= v <= max && current - v <= 1
      ensures changes == old(changes) + [v]
      ensures old(ChangesInRange()) && InRange() ==> ChangesInRange()
      ensures current == old(current) && max == old(max)
      ensures editing == old(editing) && tempValue == old(tempValue)
    {
      v := DecrementValue(current);
      changes := changes + [v];
    }
  }
}
