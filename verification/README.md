# Weekly menu planner — verified model of its core logic

The planner is a single-page app. It shows a Monday-to-Sunday grid with
breakfast, lunch and dinner slots. It keeps `menuData`, a map from a date key
to a map from meal type to the one dish planned for that slot, and stores it
in the browser after every change. This project models the pure logic inside
`script.js`:

- the menu map store (`menu_store.dfy`, module `MenuStore`):
  - the slot read of the grid;
  - `saveDish`, with the choice between a listed dish and trimmed free text;
  - the confirmed branch of `deleteDish`, with its empty-day cleanup;
  - `importData`, which either replaces the map or keeps it;
  - a session of such actions, with the invariant that no day maps to an
    empty meal map and no slot holds an empty name;
- week-start arithmetic (`week.dfy`, module `Week`). A date is an integer day
  number, day 0 being 1970-01-01, a Thursday. `getDay()` is
  `(n + 4) % 7`. `setDate` carries over month and year ends, so moving by
  days is integer addition;
- the week walk of `renderWeek` (`week_view.dfy`, module `WeekView`): seven
  day cards with weekday name, date key and the dish of each meal;
- `formatDisplayDate` (`display_date.dfy`, module `DisplayDate`): the `DD.MM`
  label;
- the JavaScript string built-ins these rely on (`js_text.dfy`, module
  `JsText`): `trim` with ECMAScript's white-space set, `String(n)` and
  `padStart`.

`Optional` (`optional.dfy`) holds the `Option` type that a parse returns.

Two facts about the code shape the model:

- a slot holds one dish name, a single string;
- `importData` does not check what `JSON.parse` returns, so
  `MenuStore.Import` keeps the invariant only when the parsed map already
  has it.

## Model

| member | source | states |
|---|---|---|
| `JsText.TrimStart` | script.js:186 | the kept text is a suffix of the input that starts with a non-white character or is empty, and everything dropped is white space |
| `JsText.TrimEnd` | script.js:186 | the kept text is a prefix of the input that ends with a non-white character or is empty, and everything dropped is white space |
| `JsText.Trim` | script.js:186 | the trimmed text has no white space at either end, and is empty exactly when the input is all white space |
| `JsText.TrimIsSlice` | script.js:186 | the trimmed text is a slice of the input with only white space before and after it |
| `JsText.TrimSliceUnique` | script.js:186 | any slice with only white space around it and none at its ends equals the trimmed text, so those conditions define `trim` |
| `JsText.TrimIdempotent` | script.js:186 | trimming an already trimmed name changes nothing |
| `JsText.DecimalString` | script.js:74-75 | `String(n)` is a non-empty run of digits with no leading zero, and is a single digit exactly when n < 10 |
| `JsText.DecimalStringValue` | script.js:74-75 | the digits of `String(n)` read back as n |
| `JsText.PadStart` | script.js:74-75 | `padStart` keeps the text as its suffix, fills only in front, and reaches the target length unless the text is longer already |
| `JsText.PadTwo` | script.js:74-75 | a number below 100 becomes two digits that read back as the number |
| `JsText.PadTwoIsPadStart` | script.js:74-75 | those two digits are what `String(n).padStart(2, '0')` yields |
| `DisplayDate.FormatDisplayDate` | script.js:73-77 | the label has five characters with `.` in the middle |
| `DisplayDate.ParseFormatDisplayDate` | script.js:73-77 | the label is two digits, `.`, two digits, and reads back as the day of the month and the 0-based month + 1 |
| `DisplayDate.FormatDisplayDateInjective` | script.js:73-77 | two dates get the same label exactly when day and month agree |
| `Week.Weekday` | script.js:64 | `getDay()` lies in 0..6 and differs from the day number plus 4 by a multiple of 7 |
| `Week.SameWeekday` | script.js:64-65 | two days fewer than seven apart share their weekday only if they are the same day |
| `Week.StartOfWeek` | script.js:62-67 | the start of the week is a Monday, never after the date and at most six days before it; a Sunday goes back six days |
| `Week.StartOfWeekUnique` | script.js:62-67 | any Monday at most six days before the date is the start of its week |
| `Week.StartOfWeekIdempotent` | script.js:62-67 | the start of the week of a week start is itself |
| `Week.StartOfWeekOfWeekDay` | script.js:86-97 | each of the seven rendered days belongs to the same week |
| `Week.ChangeWeekShifts` | script.js:79-82 | moving the current date by 7 or -7 days moves the rendered week by exactly one week |
| `Week.EndOfWeek` | script.js:87-88 | the week end, start + 6, is a Sunday, at most six days after the date and not before it |
| `Week.WeekRunsMondayToSunday` | script.js:95-99 | day i of the rendered week has weekday (i + 1) mod 7, so the week runs Monday through Sunday |
| `WeekView.RenderSlots` | script.js:119-123 | a day card shows one entry per meal type in breakfast, lunch, dinner order, each the slot read for that day and meal |
| `WeekView.DayNameInWeek` | script.js:95-99 | the name shown for day i of the rendered week, `Week.DayName`, which is `daysOfWeek[getDay()]`, is the i-th name of a Monday-first week |
| `WeekView.RenderWeek` | script.js:84-138 | seven consecutive days from the start of the week to its end, `Week.EndOfWeek`, a Monday to a Sunday that contain the current date, named Monday to Sunday, keyed by the date-key conversion, each with its slot reads |
| `MenuStore.Slot` | script.js:123 | the read is `''` when the day or the meal is missing, and a non-empty read is the dish stored in that slot |
| `MenuStore.FilledIffPresent` | script.js:123-130 | in a well-formed map a slot reads non-empty exactly when it is stored, so the delete control shows on exactly the stored slots |
| `MenuStore.SlotsDetermineMap` | script.js:123 | two well-formed maps with the same read in every slot are equal |
| `MenuStore.ChosenDish` | script.js:183-187 | a listed option is taken as is; for `other` the name is a slice of the free text with only white space around it and none at its ends, which by `JsText.TrimSliceUnique` is `custom.trim()`, and is empty exactly when the free text is all white space |
| `MenuStore.SetSlot` | script.js:191-194 | after the write the slot reads the written name, and every other slot reads as before |
| `MenuStore.Save` | script.js:180-199 | an empty name leaves the map unchanged; otherwise the slot reads the new name, overwriting any earlier one, and every other slot reads as before |
| `MenuStore.SaveShape` | script.js:191-194 | a save adds at most its day and its meal, and leaves every other day's meal map unchanged |
| `MenuStore.SavePreservesWellFormed` | script.js:189-194 | a save keeps "no empty day, no empty dish" |
| `MenuStore.SetSlotTwice` | script.js:194 | two writes to one slot equal the second write alone |
| `MenuStore.SaveOverwrites` | script.js:194 | saving twice to one slot equals the last save alone |
| `MenuStore.Delete` | script.js:201-214 | a delete on an absent day changes nothing; otherwise the slot then reads `''`, the day stays exactly when it has another meal, and every other slot reads as before |
| `MenuStore.DeleteShape` | script.js:204-209 | a delete touches no other day and keeps the other meals of its own day |
| `MenuStore.DeletePreservesWellFormed` | script.js:204-209 | a delete keeps "no empty day, no empty dish" |
| `MenuStore.DeleteIdempotent` | script.js:204-209 | deleting a slot twice equals deleting it once |
| `MenuStore.DeleteUndoesSave` | script.js:191-209 | in a well-formed map, deleting a slot that was empty before a save restores the map |
| `MenuStore.SetSlotAfterDelete` | script.js:191-209 | a write right after a delete of the same slot equals the write alone, including when the delete removed the whole day |
| `MenuStore.SaveAfterDelete` | script.js:191-209 | a non-empty save after a delete of the same slot equals the save alone |
| `MenuStore.Import` | script.js:234-245 | a failed parse keeps the map, a successful one replaces it wholesale, and the result is well formed exactly when the map it came from is |
| `MenuStore.RunPreservesWellFormed` | script.js:180-245 | `MenuStore.Step` dispatches one action to the save, delete or import handler, as the listeners at script.js:54-58 do, and `MenuStore.Run` applies a session of them in order; from a well-formed map, any sequence of saves, confirmed deletes and imports of well-formed maps ends in a well-formed map |

## Left out

- `formatDateKey` (script.js:69-71) is not modelled. It uses `toISOString`, so the key depends on the time zone and can name a different day than the local fields near midnight. `RenderWeek` takes the conversion as a parameter `keyOf`, and the store treats date keys as opaque strings.
- The conversion from a `Date` to its local fields is not modelled: `FormatDisplayDate` takes `getDate()` and `getMonth()` as integers in their ranges, and the week arithmetic works on day numbers. Time of day and daylight-saving shifts are not modelled.
- `JSON.parse` and `JSON.stringify` are left abstract: `Import` takes the parser as a function returning an optional map. Parsed values that are not a map of maps of strings (`null`, arrays, numbers, nested objects) cannot be represented.
- `MenuStore.Import`: does not model the case where the `localStorage.setItem` call inside the `try` throws after the map was already replaced (the map stays replaced and the error alert shows).
- `localStorage` reads and writes are I/O. This includes the initial load (script.js:4) and the write after each change.
- `FileReader`, `exportData` (script.js:216-226) and `downloadOfflineView` (script.js:252-592) are I/O, download plumbing and an HTML template.
- The `confirm` dialog: only the confirmed branch of `deleteDish` is modelled, since cancelling changes nothing.
- DOM building, `innerHTML` templating, the week label text, the day select options, `openEditModal` (script.js:151-174), modal show and hide, alerts, and the `isToday` check, which reads the clock.
- `window`-exposed handlers and the `onclick` string interpolation.
- Keys inherited from `Object.prototype` (a date key spelled `constructor`, say) are not modelled. Dafny maps have no inherited entries.
