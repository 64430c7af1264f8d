# Character-sheet resource rules, modelled in Dafny

This project models the rules that the character-sheet client (a React app
in `src/App.js`) applies on its own. The sheet tracks a character's AP
(action points), MP (mana points) and HEX (a risk counter). The rules are:

- **ResourceControl.** This widget adjusts one counter. A free-text save
  clamps the parsed text into `[0, max]`. The + button asks for
  `min(max, current + 1)` and the - button for `max(0, current - 1)`.
  Escape cancels the edit. The widget never changes the counter itself. It
  passes each new value to `onChange`, which sends it to the server.
- **EditableField.** This widget commits one field of the character. Number
  fields are parsed with `parseInt(v) || 0` and then clamped by the optional
  `min` and `max` props, `min` first. Text fields are passed through.
- **The cast gate.** The Spells tab sends a cast request only if
  `current_ap >= ap_cost` and `current_mp >= mp_cost`. AP is checked first.
  The Cast button is disabled by exactly the negation of that test.
- **Display fallbacks.** The sheet shows `current_x || 0` and
  `max_x || 45 / 121 / 20`. Ability scores use `|| 50` and item quantity
  `|| 1`. Because `||` tests truthiness, a stored or typed 0 shows, or is
  replaced by, the default.
- **Item bookkeeping.** The equipped and unequipped lists are
  complementary filters. "Available equipment" is the unequipped items of
  type weapon, armor, accessory or tool. A new item's `total_value` is
  `quantity * unit_price`.

The JavaScript semantics these rules depend on are written out in module
`JsValues`:

- `parseInt` with the radix omitted: leading white space, one sign, the
  `0x` prefix, the longest run of digits, and NaN when there is none.
- `String(n)` for integers.
- Truthiness and `||`.
- The coercing `<`, where `null` counts as 0 and `undefined` makes every
  comparison false.

A record field can be a number, `null` or missing. The model's `JsNumber`
covers all three, plus NaN.

Modules:

- `JsValues`: the JavaScript semantics above.
- `Resources`: display defaults, the three new-value rules, and the
  `ResourceControl` class.
- `Fields`: the `EditableField` rule and class, and the ability-score inputs.
- `Spells`: the cast gate and the cost inputs of the new-spell form.
- `Items`: the filters, available equipment, and the new-item form.

The widgets' own state is modelled as classes, because the React handlers
update it in place (`editing`, `tempValue`). The values handed to
`onChange` are recorded, in order, in a `changes` field. The rules
themselves are pure functions with lemmas.

Three consequences of the code are worth stating on their own:

- The client does not deduct spell costs, apply the HEX overflow reset or
  recover resources on a rest. It sends `/spells/:id/cast` and
  `/characters/:id/rest` and shows what the server returns, so those rules
  are not part of this model.
- A save lands in `[0, max]` exactly when `max >= 0`. With a negative
  `max` it commits 0. The + and - buttons keep a counter in `[0, max]`
  only when it is already there. From a counter above `max + 1`, - asks for
  a value that is still above `max`. The client can reach such a counter:
  the Max AP field of the overview has `min={0}` and is not tied to
  `current_ap`.
- The cast gate compares the raw record fields with JavaScript's `<`, not
  the `|| 0` values the sheet shows. So a missing `current_ap` never
  blocks a cast, and a `null` one counts as 0. The cost fields behave the
  same way.

## Model

| member | source | states |
|---|---|---|
| `JsValues.Or` | src/App.js:420-428 | the fallback of a number field to a default `d` gives the stored number when that is a non-zero number, and `d` for 0, a missing field, null or NaN; it is never 0 unless `d` is |
| `JsValues.LessThan` | src/App.js:1102-1106 | JavaScript's `<` on two numbers compares them; `null` counts as 0; a missing field or NaN on either side makes it false |
| `JsValues.Show` | src/App.js:510 | String(n) is a non-empty numeral: a leading `-` exactly for negative `n`, digits elsewhere; `ParseIntOfShow` reads it back |
| `JsValues.ParseInt` | src/App.js:519 | parseInt's result is always NaN or a number, never undefined or null |
| `JsValues.ParseIntOr` | src/App.js:519 | parsing with fallback `d` keeps a non-zero parse as it is, and gives `d` for a parse of 0 or NaN |
| `JsValues.ParseIntOfShow` | src/App.js:510-519 | parseInt gives back every integer written by String, so a number kept in `tempValue` parses to itself |
| `JsValues.ParseIntOrOfShow` | src/App.js:808 | parsing String(n) with fallback `d` gives `n` for non-zero `n` and `d` for 0 |
| `JsValues.ParseIntStopsAtNonDigit` | src/App.js:519 | leading white space is skipped and reading stops at the first non-digit ("  42px" gives 42) |
| `JsValues.ParseIntIgnoresExponent` | src/App.js:519 | "1e5", a value a number input can hold, parses as 1 |
| `JsValues.ParseIntReadsHex` | src/App.js:519 | with no radix, "0x1A" parses as 26 |
| `JsValues.ParseIntOfEmpty` | src/App.js:519 | an emptied input box parses to NaN |
| `JsValues.ParseIntOfWord` | src/App.js:519 | every text whose first character is neither white space, a sign nor a decimal digit parses to NaN |
| `JsValues.ParseIntOfSign` | src/App.js:519 | a `-` or `+` that is last or followed by a non-digit (a lone sign, "- 5", "+x") parses to NaN |
| `JsValues.ParseIntOfHexPrefix` | src/App.js:519 | a `0x` or `0X` prefix that is last or followed by a non-hexadecimal character ("0x", "0Xg") parses to NaN |
| `Resources.Displayed` | src/App.js:693-714 | a shown maximum is never 0: it is the stored value when that is a non-zero number, else 45 / 121 / 20; a shown current value is the stored number, or 0 when the field is missing or null |
| `Resources.StoredZeroMaxShowsDefault` | src/App.js:420-428 | a stored maximum of 0 is shown as 45, 121 or 20, field by field, whatever the other fields hold |
| `Resources.SaveValue` | src/App.js:518-522 | the committed value is at least 0, at most `max` when `max >= 0`, equal to the parsed value when that lies in `[0, max]`, `max` above the range, 0 below it, and 0 for unparsable text |
| `Resources.IncrementValue` | src/App.js:533-536 | + never asks for more than `max`; below `max` it asks for `current + 1`, at or above it for `max` |
| `Resources.DecrementValue` | src/App.js:538-541 | - never asks for less than 0; above 0 it asks for `current - 1`, otherwise 0 |
| `Resources.SaveInRangeNumeral` | src/App.js:513-521 | saving a numeral in `[0, max]`, including the untouched text the editor opened with, commits exactly that number |
| `Resources.SaveValueExamples` | src/App.js:519 | with `max` 20: "-5" commits 0, "25" commits 20, "10" commits 10, an empty box commits 0 |
| `Resources.StepsStayInRange` | src/App.js:533-541 | from a counter in `[0, max]`, + and - stay in `[0, max]` and move by at most one |
| `Resources.StepsOutOfRange` | src/App.js:533-541 | from a counter outside `[0, max]` the buttons can stay outside it: - from above `max + 1` asks for more than `max`, + from below -1 asks for a negative value |
| `Resources.StepsUndoEachOther` | src/App.js:533-541 | away from the bounds, - undoes + and + undoes - |
| `Resources.ResourceControl.constructor` | src/App.js:509-511 | a mounted widget is not editing, holds the current value as its text, and has sent nothing |
| `Resources.ResourceControl.Rerender` | src/App.js:691-698 | new props from the parent replace `current` and `max` and keep the widget's state; the values sent so far stay within `[0, max]` if `max` does not fall |
| `Resources.ResourceControl.HandleDoubleClick` | src/App.js:513-516 | a double click opens the editor on the current value |
| `Resources.ResourceControl.Type` | src/App.js:558 | typing replaces `tempValue` and nothing else |
| `Resources.ResourceControl.HandleSave` | src/App.js:518-522 | exactly one value, `SaveValue` of the text, is sent; it is in `[0, max]` when `max >= 0`; the editor closes |
| `Resources.ResourceControl.HandleKeyPress` | src/App.js:524-531 | Enter saves; Escape sends nothing, closes the editor and resets `tempValue` to the current value; other keys change nothing |
| `Resources.ResourceControl.Increment` | src/App.js:533-536 | sends `IncrementValue(current, max)` and nothing else changes; from a counter in range the value stays in range |
| `Resources.ResourceControl.Decrement` | src/App.js:538-541 | sends `DecrementValue(current)` and nothing else changes; from a counter in range the value stays in range |
| `Fields.CommitValue` | src/App.js:805-812 | a number field commits a number and a text field its text unchanged; with no bounds the number is the parse with fallback 0; a parse within the given bounds is kept; a parse below `min` commits exactly `min` (when `max` is absent or not below `min`) and one above `max` commits exactly `max`; the result is never below `min` in that case and never above `max` |
| `Fields.CrossedBoundsGiveMax` | src/App.js:809-810 | when both bounds are given and `max < min`, `max` is applied last and wins |
| `Fields.CommitRenderedKeepsValue` | src/App.js:801-812 | saving a field whose text was not touched commits the value it showed, when that value is within its bounds |
| `Fields.MinOf` | src/App.js:915-1013 | the `min` prop of each numeric overview field: none for initiative only, 1 for level only, 0 for the others |
| `Fields.SheetFieldRespectsMin` | src/App.js:915-1013 | every numeric field of the overview commits a number no smaller than its `min` (level at least 1, initiative unbounded) |
| `Fields.MaximaCanBeSavedAsZero` | src/App.js:994-1013 | a maximum of AP, MP or HEX can be saved as 0, which the sheet then shows as 45, 121 or 20 |
| `Fields.EditableField.constructor` | src/App.js:801-803 | a mounted field is not editing, holds its value as its text, and has sent nothing |
| `Fields.EditableField.Rerender` | src/App.js:612-616 | the parent re-renders the field with the server's value; the widget's editing state, text and sent values are kept |
| `Fields.EditableField.StartEditing` | src/App.js:841 | a click opens the editor on the field's value |
| `Fields.EditableField.Type` | src/App.js:832 | typing replaces `tempValue` and nothing else |
| `Fields.EditableField.HandleSave` | src/App.js:805-814 | exactly one value, `CommitValue` of the text, is sent and the editor closes |
| `Fields.EditableField.HandleKeyPress` | src/App.js:816-823 | Enter saves; Escape sends nothing, closes the editor and resets `tempValue` to the value; other keys change nothing |
| `Fields.TypedAbilityScore` | src/App.js:896 | a typed ability score is never 0: a non-zero parse is kept, and 0 or unparsable text gives 50 |
| `Fields.ShownAbilityScore` | src/App.js:903 | a shown ability score is never 0: the stored non-zero number, else 50 |
| `Fields.TypedAbilityScoreOfNumeral` | src/App.js:890-900 | a typed numeral is kept unless it is 0, which becomes 50; the input's 1 to 100 range is not enforced (150 is kept) |
| `Spells.CastCheck` | src/App.js:1101-1112 | the AP alert is chosen exactly when `current_ap < ap_cost`; the MP alert only when `current_mp < mp_cost` |
| `Spells.CastButtonDisabled` | src/App.js:1208 | with every field a number, the button is disabled exactly when AP or MP falls short of the cost; a spell with both costs missing never disables it |
| `Spells.CastGateMatchesButton` | src/App.js:1208 | the handler sends the cast request exactly when the Cast button is enabled, for every combination of field values |
| `Spells.CastGateOnNumbers` | src/App.js:1101-1110 | with numeric fields, the request is sent if and only if `current_ap >= ap_cost` and `current_mp >= mp_cost`; a short AP gives the AP alert, and a short MP with enough AP gives the MP alert |
| `Spells.ApErrorReportedFirst` | src/App.js:1102-1109 | when both pools are short, the AP alert is the one shown |
| `Spells.GateOnMissingFields` | src/App.js:1102-1108 | a null `current_ap` counts as 0; a missing `current_ap` never gives the AP alert; a spell with missing costs is always cast |
| `Spells.CostFromInput` | src/App.js:1303 | a parsed cost input is kept as it is, including 0; unparsable text sets the cost to 0 |
| `Spells.CostFromNumeral` | src/App.js:1303-1323 | typing a numeral into a cost input sets exactly that cost, 0 included |
| `Spells.AsSpell` | src/App.js:1114-1116 | a spell created from the form carries exactly the form's three costs, as numbers (assuming the server lists a created spell with the costs it was sent) |
| `Spells.UntouchedFormSpellIsFree` | src/App.js:1086-1128 | a spell added from the untouched form has costs 0, 0, 0, and every character whose AP and MP are non-negative numbers or null can cast it |
| `Spells.TypedSpellGate` | src/App.js:1303-1323 | a spell whose costs were typed as numerals is cast by a character with numeric pools exactly when both pools cover those numbers |
| `Items.Equipped` | src/App.js:1532 | the equipped list holds exactly the items that are equipped |
| `Items.Unequipped` | src/App.js:1533 | the unequipped list holds exactly the items that are not equipped |
| `Items.AvailableEquipment` | src/App.js:1583-1589 | every item offered for equipping is unequipped and of an equippable type |
| `Items.Filter` | src/App.js:1532-1533 | the result keeps only elements that pass the test, holds every element of the input that passes it, and is no longer than the input |
| `Items.InterleavingCounts` | src/App.js:1532-1533 | dealing a list into two lists loses and invents nothing: the lengths add up and the multisets add up |
| `Items.SplitIsInterleaving` | src/App.js:1532-1533 | the equipped and unequipped lists deal out the items in their order, each item going to exactly one list |
| `Items.SplitIsUnique` | src/App.js:1532-1533 | any in-order dealing of the items into an all-equipped list and an all-unequipped list is the equipment tab's pair |
| `Items.EquipmentSplitPartitions` | src/App.js:1532-1533 | the two lists' lengths sum to the item count, their multisets sum to the items, and an item is in the equipped list exactly when it is equipped and in the other exactly when it is not |
| `Items.EquipmentTabItems` | src/App.js:789 | the equipment tab gets the loaded items, or an empty list when none are loaded |
| `Items.InventoryTabItems` | src/App.js:781 | every item the inventory tab gets is unequipped |
| `Items.InventoryIsUnequippedList` | src/App.js:781-789 | the inventory tab gets exactly the equipment tab's unequipped list |
| `Items.AvailableEquipmentMembers` | src/App.js:1583-1589 | an item is offered for equipping exactly when it is one of the items, is unequipped, and has type weapon, armor, accessory or tool |
| `Items.WithQuantityInput` | src/App.js:1490 | after any edit the quantity is non-zero: a non-zero parse is kept, and 0 or unparsable text gives 1; other fields are kept |
| `Items.WithUnitPriceInput` | src/App.js:1500 | a parsed price is kept as it is; unparsable text gives a price of 0; other fields are kept |
| `Items.PriceOfNumeral` | src/App.js:1500 | a typed numeral sets the unit price to exactly that number, 0 included |
| `Items.QuantityOfNumeral` | src/App.js:1490 | a typed numeral sets the quantity to it, except that 0 becomes 1 |
| `Items.FormKeepsQuantitySet` | src/App.js:1356-1363 | the form starts with a non-zero quantity and every edit keeps it non-zero |
| `Items.AddItemPayload` | src/App.js:1368-1371 | the item sent carries the form's quantity and price, and `total_value` is their product |
| `Items.TotalValueDeterminesPrice` | src/App.js:1370 | with the quantity set, dividing `total_value` by it gives back the unit price, and `total_value` is 0 exactly when the price is |

## Left out

- The HTTP layer (the `api` object, `fetch`, JSON decoding) is not modelled. The server it talks to is not part of this model.
- `Spells.AsSpell` assumes the server lists a created spell with the costs the client sent. The client only sends `newSpell` (src/App.js:1116); what the server stores is not part of this model.
- Spell-cost deduction, the HEX overflow reset and short/long rest recovery are not modelled. The server computes them; the client only displays `ap_spent`, `mp_spent`, `hex_gained` and `hex_overflow`.
- Authentication is not modelled: token decoding, expiry against the clock, and `localStorage`. All of it depends on the environment and on time.
- The progress bar's width `(current / max) * 100` is not modelled, because it is floating-point display arithmetic. `Resources.Displayed` does show that the `max` it divides by is never 0.
- JSX rendering, `alert` messages, tab navigation and the asynchronous reload after each server reply are not modelled. The re-render with the server's reply is represented by `ResourceControl.Rerender` and `EditableField.Rerender`.
- A blur that React may fire when the editor unmounts after Enter or Escape is not modelled. The Escape contracts of `ResourceControl.HandleKeyPress` and `EditableField.HandleKeyPress` assume that no blur follows. A blur after Escape would run the previous render's `handleSave`, which still reads the typed text, so it would send `SaveValue` (or `CommitValue`) of the typed text. The model does not represent that send.
- `Fields.MaximaCanBeSavedAsZero` assumes the server stores the value it is sent, so that the committed 0 becomes the stored `max_ap`, `max_mp` or `max_hex`. What the server stores is not part of this model.
- JavaScript numbers are modelled as unbounded integers. Precision loss beyond 2^53, the implementation-defined result of very long digit runs, and the sign of -0 are not modelled; -0 is falsy like 0.
- The character-creation form, the other fields of the spell and item forms, item deletion and the equip toggle are not modelled. They only forward data to the server.
- Saving the ability scores (`updateCharacter(editedStats)`) is not modelled. Only the value a typed score takes, and the value shown, are.
