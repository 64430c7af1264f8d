/**
 * The spells tab's client-side cast gate and the cost fields of its
 * new-spell form.
 *
 * Casting itself (deducting AP and MP, raising HEX, the overflow reset) is
 * done by the server behind the cast request; the client only decides
 * whether to send that request, and that decision is what is modelled here.
 */
module Spells {
  import opened JsValues
  import opened Resources

  /** The costs of a spell as the server lists them. */
  datatype Spell = Spell(apCost: JsNumber, mpCost: JsNumber, hexIncrement: JsNumber)

  /** What clicking Cast does: alert about AP, alert about MP, or send the cast request. */
  datatype CastOutcome = NotEnoughAp | NotEnoughMp | Cast

  /** handleCastSpell: AP is checked first, then MP, with JavaScript's `<`. */
  function CastCheck(character: CharacterResources, spell: Spell): (r: CastOutcome)
    ensures r == NotEnoughAp <==> LessThan(character.currentAp, spell.apCost)
    ensures r == NotEnoughMp ==> LessThan(character.currentMp, spell.mpCost)
  {
    if LessThan(character.currentAp, spell.apCost) then NotEnoughAp
    else if LessThan(character.currentMp, spell.mpCost) then NotEnoughMp
    else Cast
  }

  /** The Cast button's `disabled` expression. */
  predicate CastButtonDisabled(character: CharacterResources, spell: Spell): (disabled: bool)
    ensures character.currentAp.Num? && spell.apCost.Num? && character.currentMp.Num? && spell.mpCost.Num? ==>
      (disabled <==> character.currentAp.n < spell.apCost.n || character.currentMp.n < spell.mpCost.n)
    ensures spell.apCost.Undefined? && spell.mpCost.Undefined? ==> !disabled
  {
    LessThan(character.currentAp, spell.apCost) || LessThan(character.currentMp, spell.mpCost)
  }

  /** The handler sends a cast request exactly when the button is enabled, whatever the field values. */
  lemma CastGateMatchesButton(character: CharacterResources, spell: Spell)
    ensures CastCheck(character, spell) == Cast <==> !CastButtonDisabled(character, spell)
    ensures CastCheck(character, spell) != Cast <==> CastButtonDisabled(character, spell)
  {
  }

  /** With every field a number, the request goes out exactly when both pools cover the costs. */
  lemma CastGateOnNumbers(ap: int, mp: int, apCost: int, mpCost: int, character: CharacterResources, spell: Spell)
    requires character.currentAp == Num(ap) && character.currentMp == Num(mp)
    requires spell.apCost == Num(apCost) && spell.mpCost == Num(mpCost)
    ensures CastCheck(character, spell) == Cast <==> ap >= apCost && mp >= mpCost
    ensures ap < apCost ==> CastCheck(character, spell) == NotEnoughAp
    ensures ap >= apCost && mp < mpCost ==> CastCheck(character, spell) == NotEnoughMp
  {
  }

  /** When both pools are short, the AP error is the one reported. */
  lemma ApErrorReportedFirst(character: CharacterResources, spell: Spell)
    requires LessThan(character.currentAp, spell.apCost)
    requires LessThan(character.currentMp, spell.mpCost)
    ensures CastCheck(character, spell) == NotEnoughAp
  {
  }

  /**
   * The gate reads the raw fields, not the `|| 0` display values: a null pool
   * counts as 0, but a missing pool or cost makes `<` false and never blocks.
   */
  lemma GateOnMissingFields(character: CharacterResources, spell: Spell)
    ensures character.currentAp == Null && LessThan(Num(0), spell.apCost) ==> CastCheck(character, spell) == NotEnoughAp
    ensures character.currentAp == Undefined ==> CastCheck(character, spell) != NotEnoughAp
    ensures spell.apCost == Undefined && spell.mpCost == Undefined ==> CastCheck(character, spell) == Cast
  {
  }

  // ---------------------------------------------------------------------
  // The new-spell form
  // ---------------------------------------------------------------------

  /** The costs a new spell is created with. */
  datatype SpellForm = SpellForm(apCost: int, mpCost: int, hexIncrement: int)

  /** The form's initial state and its state after a spell is added. */
  const INITIAL_SPELL_FORM := SpellForm(0, 0, 0)

  /** Each cost input: `parseInt(e.target.value) || 0`. */
  function CostFromInput(text: string): (r: int)
    ensures ParseInt(text).Num? ==> r == ParseInt(text).n
    ensures ParseInt(text).NaN? ==> r == 0
  {
    ParseIntOr(text, 0)
  }

  /** Typing a numeral into a cost input sets that cost to exactly the number typed. */
  lemma CostFromNumeral(n: int)
    ensures CostFromInput(Show(n)) == n
  {
    ParseIntOrOfShow(n, 0);
  }

  /** A spell created from the form, as the server will list it. */
  function AsSpell(form: SpellForm): (s: Spell)
    ensures s.apCost == Num(form.apCost)
    ensures s.mpCost == Num(form.mpCost)
    ensures s.hexIncrement == Num(form.hexIncrement)
  {
    Spell(Num(form.apCost), Num(form.mpCost), Num(form.hexIncrement))
  }

  /**
   * A spell added without touching the cost inputs costs nothing, so any
   * character whose pools are non-negative numbers, or null, can cast it.
   */
  lemma UntouchedFormSpellIsFree(character: CharacterResources)
    requires character.currentAp == Null || (character.currentAp.Num? && character.currentAp.n >= 0)
    requires character.currentMp == Null || (character.currentMp.Num? && character.currentMp.n >= 0)
    ensures AsSpell(INITIAL_SPELL_FORM) == Spell(Num(0), Num(0), Num(0))
    ensures CastCheck(character, AsSpell(INITIAL_SPELL_FORM)) == Cast
  {
  }

  /** A spell whose costs were typed as numerals gates a numeric character on exactly those numbers. */
  lemma TypedSpellGate(apCost: int, mpCost: int, hex: int, ap: int, mp: int, character: CharacterResources)
    requires character.currentAp == Num(ap) && character.currentMp == Num(mp)
    ensures var form := SpellForm(CostFromInput(Show(apCost)), CostFromInput(Show(mpCost)), hex);
            CastCheck(character, AsSpell(form)) == Cast <==> ap >= apCost && mp >= mpCost
  {
    CostFromNumeral(apCost);
    CostFromNumeral(mpCost);
  }
}
