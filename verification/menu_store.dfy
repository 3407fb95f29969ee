/**
 The planner's menu map: a date key maps to a map from meal type to the one
 dish planned for that slot. Saving, deleting, importing and the slot read
 of the week grid are pure functions from one map to the next; writing the
 map back to `localStorage` afterwards is I/O and is not part of this model.
 */
module MenuStore {

  import opened Optional
  import opened JsText

  /** A date key such as `2024-06-10`. It is derived from a `Date` outside
      this model and is treated as an opaque string. */
  type DateKey = string

  /** `breakfast`, `lunch` or `dinner` as the page offers them; any string the
      meal select yields is accepted. */
  type MealType = string

  type MenuData = map<DateKey, map<MealType, string>>

  /** The value of the dish select that asks for free text instead. */
  const Other := "other"

  /** No day key maps to an empty meal map. */
  ghost predicate NoEmptyDay(m: MenuData) {
    forall d :: d in m ==> m[d] != map[]
  }

  /** No slot holds the empty dish name. */
  ghost predicate NoEmptyDish(m: MenuData) {
    forall d, t :: d in m && t in m[d] ==> m[d][t] != ""
  }

  /** The shape every save and delete keeps. */
  ghost predicate WellFormed(m: MenuData) {
    NoEmptyDay(m) && NoEmptyDish(m)
  }

  /** `menuData[dateKey]?.[type] || ''`: the dish in a slot, or the empty
      string when the day or the meal is missing. */
  function Slot(m: MenuData, d: DateKey, t: MealType): (r: string)
    ensures d !in m || t !in m[d] ==> r == ""
    ensures r != "" ==> d in m && t in m[d] && m[d][t] == r
    ensures d in m && t in m[d] ==> r == m[d][t]
  {
    if d in m && t in m[d] then m[d][t] else ""
  }

  /** The name `saveDish` stores: the selected option, or the trimmed free
      text when the option is `other`. */
  function ChosenDish(selected: string, custom: string): (name: string)
    ensures selected != Other ==> name == selected
    ensures selected == Other ==> IsTrimmed(name)
    ensures selected == Other ==> exists i :: TrimmedSlice(custom, i, name)
    ensures selected == Other ==> (name == "" <==> AllWhiteSpace(custom))
  {
    TrimIsSlice(custom);
    if selected == Other then Trim(custom) else selected
  }

  /** The update at the heart of `saveDish`: the day entry is created when
      missing and the slot is overwritten. */
  function SetSlot(m: MenuData, d: DateKey, t: MealType, name: string): (r: MenuData)
    ensures Slot(r, d, t) == name
    ensures forall d', t' :: d' != d || t' != t ==> Slot(r, d', t') == Slot(m, d', t')
  {
    var day := if d in m then m[d] else map[];
    m[d := day[t := name]]
  }

  /** `saveDish`: an empty name leaves the map alone; any other name is
      written to the slot. */
  function Save(m: MenuData, d: DateKey, t: MealType, selected: string, custom: string): (r: MenuData)
    ensures ChosenDish(selected, custom) == "" ==> r == m
    ensures ChosenDish(selected, custom) != "" ==> Slot(r, d, t) == ChosenDish(selected, custom)
    ensures forall d', t' :: d' != d || t' != t ==> Slot(r, d', t') == Slot(m, d', t')
  {
    var name := ChosenDish(selected, custom);
    if name == "" then m else SetSlot(m, d, t, name)
  }

  /** A save adds at most the saved day and the saved meal, and leaves every
      other day's meal map as it was. */
  lemma SaveShape(m: MenuData, d: DateKey, t: MealType, selected: string, custom: string)
    requires ChosenDish(selected, custom) != ""
    ensures var r := Save(m, d, t, selected, custom);
      && r.Keys == m.Keys + {d}
      && r[d].Keys == (if d in m then m[d].Keys else {}) + {t}
      && forall d' :: d' in m && d' != d ==> r[d'] == m[d']
  {
  }

  lemma SavePreservesWellFormed(m: MenuData, d: DateKey, t: MealType, selected: string, custom: string)
    requires WellFormed(m)
    ensures WellFormed(Save(m, d, t, selected, custom))
  {
  }

  /** `deleteDish` once the user has confirmed: the meal leaves its day, and
      the day leaves the map when no meal is left. An absent day is a no-op. */
  function Delete(m: MenuData, d: DateKey, t: MealType): (r: MenuData)
    ensures d !in m ==> r == m
    ensures d in m ==> (d in r <==> m[d].Keys - {t} != {})
    ensures Slot(r, d, t) == ""
    ensures forall d', t' :: d' != d || t' != t ==> Slot(r, d', t') == Slot(m, d', t')
  {
    if d !in m then m
    else
      var day := m[d] - {t};
      if day == map[] then
        assert forall t' :: t' in m[d] ==> t' == t by {
          forall t' | t' in m[d] ensures t' == t {
            assert t' != t ==> t' in day;
          }
        }
        m - {d}
      else m[d := day]
  }

  /** A delete touches no other day, and keeps every other meal of its own
      day. */
  lemma DeleteShape(m: MenuData, d: DateKey, t: MealType)
    ensures var r := Delete(m, d, t);
      && (forall d' :: d' != d ==> (d' in r <==> d' in m))
      && (forall d' :: d' in m && d' != d ==> r[d'] == m[d'])
      && (d in r ==> r[d].Keys == m[d].Keys - {t})
  {
  }

  lemma DeletePreservesWellFormed(m: MenuData, d: DateKey, t: MealType)
    requires WellFormed(m)
    ensures WellFormed(Delete(m, d, t))
  {
  }

  /** `importData`: a successful parse replaces the whole map, a failed one
      leaves it untouched. The parser is a parameter: the model does not look
      inside `JSON.parse`, and the source does not validate what it returns. */
  function Import(m: MenuData, content: string, parse: string -> Option<MenuData>): (r: MenuData)
    ensures parse(content).None? ==> r == m
    ensures parse(content).Some? ==> r == parse(content).value
    ensures WellFormed(r) <==> if parse(content).Some? then WellFormed(parse(content).value) else WellFormed(m)
  {
    match parse(content)
    case Some(parsed) => parsed
    case None => m
  }

  /** In a well-formed map the grid shows a dish exactly where one is
      stored, so the delete button appears on exactly the occupied slots. */
  lemma FilledIffPresent(m: MenuData, d: DateKey, t: MealType)
    requires WellFormed(m)
    ensures Slot(m, d, t) != "" <==> d in m && t in m[d]
  {
  }

  /** Two well-formed maps that show the same dish in every slot are the same
      map: the slot read loses nothing. */
  lemma {:induction false} SlotsDetermineMap(a: MenuData, b: MenuData)
    requires WellFormed(a) && WellFormed(b)
    requires forall d, t :: Slot(a, d, t) == Slot(b, d, t)
    ensures a == b
  {
    forall d | d in a ensures d in b && a[d] == b[d] {
      var t :| t in a[d];
      assert Slot(a, d, t) != "";
      assert Slot(b, d, t) == Slot(a, d, t);
      forall t' | t' in a[d] ensures t' in b[d] && a[d][t'] == b[d][t'] {
        assert Slot(a, d, t') == Slot(b, d, t');
      }
      forall t' | t' in b[d] ensures t' in a[d] {
        assert Slot(a, d, t') == Slot(b, d, t');
      }
    }
    forall d | d in b ensures d in a {
      var t :| t in b[d];
      assert Slot(a, d, t) == Slot(b, d, t);
    }
  }

  /** Writing a slot twice keeps only the second write. */
  lemma SetSlotTwice(m: MenuData, d: DateKey, t: MealType, a: string, b: string)
    ensures SetSlot(SetSlot(m, d, t, a), d, t, b) == SetSlot(m, d, t, b)
  {
    var day := if d in m then m[d] else map[];
    assert day[t := a][t := b] == day[t := b];
    assert m[d := day[t := a]][d := day[t := b]] == m[d := day[t := b]];
  }

  /** Saving to a slot again replaces the earlier dish: only the last
      non-empty save to a slot is seen. */
  lemma SaveOverwrites(m: MenuData, d: DateKey, t: MealType, s1: string, c1: string, s2: string, c2: string)
    requires ChosenDish(s2, c2) != ""
    ensures Save(Save(m, d, t, s1, c1), d, t, s2, c2) == Save(m, d, t, s2, c2)
  {
    var n1 := ChosenDish(s1, c1);
    if n1 != "" {
      SetSlotTwice(m, d, t, n1, ChosenDish(s2, c2));
    }
  }

  /** Deleting the slot just filled in an empty slot undoes the save. */
  lemma {:induction false} DeleteUndoesSave(m: MenuData, d: DateKey, t: MealType, selected: string, custom: string)
    requires WellFormed(m)
    requires Slot(m, d, t) == ""
    ensures Delete(Save(m, d, t, selected, custom), d, t) == m
  {
    var m1 := Save(m, d, t, selected, custom);
    var r := Delete(m1, d, t);
    SavePreservesWellFormed(m, d, t, selected, custom);
    DeletePreservesWellFormed(m1, d, t);
    forall d', t' ensures Slot(r, d', t') == Slot(m, d', t') {
      if d' == d && t' == t {
        FilledIffPresent(m, d, t);
      }
    }
    SlotsDetermineMap(r, m);
  }

  /** Writing a slot right after deleting it is the write alone. */
  lemma SetSlotAfterDelete(m: MenuData, d: DateKey, t: MealType, name: string)
    ensures SetSlot(Delete(m, d, t), d, t, name) == SetSlot(m, d, t, name)
  {
    if d in m {
      var day := m[d] - {t};
      if day == map[] {
        assert Delete(m, d, t) == m - {d};
        assert m[d][t := name] == map[t := name] by {
          forall t' | t' in m[d] ensures t' == t {
            assert t' != t ==> t' in day;
          }
        }
      } else {
        assert Delete(m, d, t) == m[d := day];
        assert day[t := name] == m[d][t := name];
      }
    }
  }

  /** A save after a delete of the same slot is the save alone: the delete
      leaves nothing the save does not overwrite. */
  lemma SaveAfterDelete(m: MenuData, d: DateKey, t: MealType, selected: string, custom: string)
    requires ChosenDish(selected, custom) != ""
    ensures Save(Delete(m, d, t), d, t, selected, custom) == Save(m, d, t, selected, custom)
  {
    SetSlotAfterDelete(m, d, t, ChosenDish(selected, custom));
  }

  /** Deleting the same slot twice is deleting it once. */
  lemma DeleteIdempotent(m: MenuData, d: DateKey, t: MealType)
    ensures Delete(Delete(m, d, t), d, t) == Delete(m, d, t)
  {
    var r := Delete(m, d, t);
    if d in r {
      DeleteShape(m, d, t);
      assert r[d] - {t} == r[d];
    }
  }

  /** One user action on the menu map. A delete is the confirmed one. */
  datatype Action =
    | SaveDish(date: DateKey, meal: MealType, selected: string, custom: string)
    | DeleteDish(date: DateKey, meal: MealType)
    | ImportData(content: string)

  function Step(m: MenuData, a: Action, parse: string -> Option<MenuData>): MenuData {
    match a
    case SaveDish(d, t, selected, custom) => Save(m, d, t, selected, custom)
    case DeleteDish(d, t) => Delete(m, d, t)
    case ImportData(content) => Import(m, content, parse)
  }

  /** The map after a session of actions, in order. */
  function Run(m: MenuData, actions: seq<Action>, parse: string -> Option<MenuData>): MenuData
    decreases |actions|
  {
    if actions == [] then m else Run(Step(m, actions[0], parse), actions[1..], parse)
  }

  /** Every import in the session that parses yields a well-formed map. */
  ghost predicate ImportsWellFormed(actions: seq<Action>, parse: string -> Option<MenuData>) {
    forall i :: 0 <= i < |actions| && actions[i].ImportData? && parse(actions[i].content).Some? ==>
      WellFormed(parse(actions[i].content).value)
  }

  /** Starting from a well-formed map, any session of saves, confirmed
      deletes and well-formed imports never leaves an empty day or an empty
      dish behind. */
  lemma {:induction false} RunPreservesWellFormed(m: MenuData, actions: seq<Action>, parse: string -> Option<MenuData>)
    requires WellFormed(m)
    requires ImportsWellFormed(actions, parse)
    ensures WellFormed(Run(m, actions, parse))
    decreases |actions|
  {
    if actions != [] {
      var m1 := Step(m, actions[0], parse);
      match actions[0] {
        case SaveDish(d, t, selected, custom) => SavePreservesWellFormed(m, d, t, selected, custom);
        case DeleteDish(d, t) => DeletePreservesWellFormed(m, d, t);
        case ImportData(content) => {}
      }
      assert ImportsWellFormed(actions[1..], parse) by {
        forall i | 0 <= i < |actions[1..]| ensures actions[1..][i] == actions[i + 1] { }
      }
      RunPreservesWellFormed(m1, actions[1..], parse);
    }
  }

}
