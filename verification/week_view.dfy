/**
 The data side of `renderWeek`: the seven day cards of the week holding the
 current date, each with its weekday name, its date key and the dish read
 from every meal slot. Building DOM nodes from the cards is not modelled.
 */
module WeekView {

  import opened Week
  import opened MenuStore

  /** The meal types in the order the grid shows them. */
  const MealTypes: seq<MealType> := ["breakfast", "lunch", "dinner"]

  /** The weekday names in the order a rendered week shows them. */
  const MondayFirst: seq<string> :=
    ["Понедельник", "Вторник", "Среда", "Четверг", "Пятница", "Суббота", "Воскресенье"]

  datatype DayCard = DayCard(dayNumber: int, name: string, dateKey: DateKey, dishes: seq<string>)

  /** The dishes of one day, one per meal type, in grid order. */
  method RenderSlots(m: MenuData, key: DateKey) returns (dishes: seq<string>)
    ensures |dishes| == |MealTypes|
    ensures forall j :: 0 <= j < |MealTypes| ==> dishes[j] == Slot(m, key, MealTypes[j])
  {
    dishes := [];
    var j := 0;
    while j < |MealTypes|
      invariant 0 <= j <= |MealTypes| && |dishes| == j
      invariant forall k :: 0 <= k < j ==> dishes[k] == Slot(m, key, MealTypes[k])
    {
      dishes := dishes + [Slot(m, key, MealTypes[j])];
      j := j + 1;
    }
  }

  /** Day `i` of a rendered week carries the `i`-th name of a Monday-first
      week. */
  lemma DayNameInWeek(n: int, i: int)
    requires 0 <= i < 7
    ensures DayName(StartOfWeek(n) + i) == MondayFirst[i]
  {
    WeekRunsMondayToSunday(n, i);
  }

  /** Card `c` is day `start + i` of the week: its weekday name, its date key
      and the slot read of each meal. */
  ghost predicate IsCard(c: DayCard, start: int, i: int, m: MenuData, keyOf: int -> DateKey)
    requires 0 <= i < 7
  {
    && c.dayNumber == start + i
    && c.name == MondayFirst[i]
    && c.dateKey == keyOf(c.dayNumber)
    && |c.dishes| == |MealTypes|
    && forall j :: 0 <= j < |MealTypes| ==> c.dishes[j] == Slot(m, c.dateKey, MealTypes[j])
  }

  /** The week walk of `renderWeek`: days start+0 to start+6 from the Monday
      on or before `current`. `keyOf` stands for the date-key conversion,
      which this model leaves abstract. */
  method RenderWeek(current: int, m: MenuData, keyOf: int -> DateKey) returns (cards: seq<DayCard>)
    ensures |cards| == 7
    ensures cards[0].dayNumber == StartOfWeek(current) && cards[6].dayNumber == EndOfWeek(current)
    ensures Weekday(cards[0].dayNumber) == Monday && Weekday(cards[6].dayNumber) == Sunday
    ensures cards[0].dayNumber <= current <= cards[6].dayNumber
    ensures forall i :: 0 <= i < 7 ==> IsCard(cards[i], cards[0].dayNumber, i, m, keyOf)
  {
    var start := StartOfWeek(current);
    cards := [];
    var i := 0;
    while i < 7
      invariant 0 <= i <= 7 && |cards| == i
      invariant forall k :: 0 <= k < i ==> IsCard(cards[k], start, k, m, keyOf)
    {
      var day := start + i;
      DayNameInWeek(current, i);
      var key := keyOf(day);
      var dishes := RenderSlots(m, key);
      cards := cards + [DayCard(day, DayName(day), key, dishes)];
      i := i + 1;
    }
  }

}
