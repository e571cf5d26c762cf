/**
 * Post-processing of the meal plan that the `/plan` route asks the
 * completion for: unless the parsed reply is a non-empty list, a fixed
 * four-meal plan is used instead; then every element becomes a meal record
 * numbered from 1, with defaults for its missing fields and at most
 * eight items. A Python exception on the way (an element that is no
 * `dict`, a value `int()` rejects, items that cannot be sliced) ends the
 * route with a 500; here it is an `Err`.
 */
module MealPlan {
  import opened Maybe
  import opened Json
  import PyText

  datatype Macros = Macros(p: int, c: int, f: int)

  /** One element of the response's `meals` list. */
  datatype Meal = Meal(id: nat, title: JValue, kcal: int, macros: Macros, items: JValue)

  const MaxItems: nat := 8
  const DefaultKcal: int := 400
  const DefaultP: int := 25
  const DefaultC: int := 40
  const DefaultF: int := 12

  /** The title a meal without one gets: `f"Meal #{i}"`. */
  function DefaultTitle(i: nat): JValue {
    JStr("Meal #" + PyText.IntToString(i))
  }

  // The four meals of the fixed plan.

  const BreakfastItems: seq<JValue> :=
    [JStr("4 eggs (2 whole, 2 whites)"), JStr("Oats 60g"), JStr("Blueberries"), JStr("Almonds")]
  const LunchItems: seq<JValue> :=
    [JStr("Sirloin 7oz"), JStr("Jasmine rice 200g cooked"), JStr("Broccoli"), JStr("Olive oil")]
  const DinnerItems: seq<JValue> :=
    [JStr("Greek yogurt 250g"), JStr("Honey 1 tsp"), JStr("Granola 30g"), JStr("Strawberries")]
  const SnackItems: seq<JValue> :=
    [JStr("Whole-wheat wrap"), JStr("Turkey 4oz"), JStr("Spring mix"), JStr("Greek yogurt sauce")]

  /** A meal as the fixed plan writes it, a `dict` literal. */
  function MealLiteral(title: string, kcal: int, p: int, c: int, f: int, items: seq<JValue>): JValue {
    JObj(map[
      "title" := JStr(title),
      "kcal" := JInt(kcal),
      "macros" := JObj(map["P" := JInt(p), "C" := JInt(c), "F" := JInt(f)]),
      "items" := JList(items)])
  }

  /** One meal of the fixed plan, as its `dict` literal spells it out. */
  datatype FixedMeal = FixedMeal(title: string, kcal: int, p: int, c: int, f: int, items: seq<JValue>)

  const FixedMeals: seq<FixedMeal> :=
    [ FixedMeal("High-Protein Breakfast Bowl", 520, 45, 55, 15, BreakfastItems),
      FixedMeal("Simple Steak & Rice", 680, 55, 65, 20, LunchItems),
      FixedMeal("Greek Yogurt Parfait", 380, 30, 40, 10, DinnerItems),
      FixedMeal("Evening Snack Wrap", 360, 25, 35, 10, SnackItems) ]

  /** The `dict` literals of a table of meals. */
  function Literals(rows: seq<FixedMeal>): seq<JValue> {
    seq(|rows|, k requires 0 <= k < |rows| =>
      var r := rows[k]; MealLiteral(r.title, r.kcal, r.p, r.c, r.f, r.items))
  }

  /** The records of a table of meals, numbered from 1. */
  function Records(rows: seq<FixedMeal>): seq<Meal> {
    seq(|rows|, k requires 0 <= k < |rows| =>
      var r := rows[k]; Meal(k + 1, JStr(r.title), r.kcal, Macros(r.p, r.c, r.f), JList(r.items)))
  }

  /** The plan used when the completion gives no non-empty list. */
  function FallbackInput(): seq<JValue> {
    Literals(FixedMeals)
  }

  /** What the route answers with the fixed plan: its meals numbered 1 to 4. */
  function FallbackPlan(): seq<Meal> {
    Records(FixedMeals)
  }

  /** The list the loop runs over: the parsed reply when it is a non-empty list, else the fixed plan. */
  function MealsIn(parsed: Option<JValue>): (ms: seq<JValue>)
    ensures |ms| > 0
  {
    match parsed
    case Some(JList(e)) => if e != [] then e else FallbackInput()
    case _ => FallbackInput()
  }

  /** `int(obj.get(key, default))` */
  function IntField(obj: JValue, key: string, default: int): Result<int> {
    var v :- Get(obj, key, JInt(default));
    ToInt(v)
  }

  /** `int(m.get("macros", {}).get(key, default))` */
  function MacroField(m: JValue, key: string, default: int): Result<int> {
    var macros :- Get(m, "macros", JObj(map[]));
    IntField(macros, key, default)
  }

  /** `(m.get("items") or [])[:8]` */
  function Items(m: JValue): Result<JValue> {
    var v :- Get(m, "items", JNull);
    SliceTo(Or(v, JList([])), MaxItems)
  }

  /** The record built for the `i`-th element `m`, its fields evaluated in the order the dict display lists them. */
  function NormaliseMeal(i: nat, m: JValue): Result<Meal> {
    var title :- Get(m, "title", DefaultTitle(i));
    var kcal :- IntField(m, "kcal", DefaultKcal);
    var p :- MacroField(m, "P", DefaultP);
    var c :- MacroField(m, "C", DefaultC);
    var f :- MacroField(m, "F", DefaultF);
    var items :- Items(m);
    Ok(Meal(i, title, kcal, Macros(p, c, f), items))
  }

  /** The loop's outcome over the elements' results, in order: all the records, or the first exception. */
  function Collect<T>(rs: seq<Result<T>>): Result<seq<T>> {
    if rs == [] then Ok([])
    else
      match Collect(rs[..|rs| - 1])
      case Err(e) => Err(e)
      case Ok(out) =>
        match rs[|rs| - 1]
        case Err(e) => Err(e)
        case Ok(x) => Ok(out + [x])
  }

  /** What each element gives on its own, the `k`-th numbered `k + 1`. */
  function Results(ms: seq<JValue>): seq<Result<Meal>> {
    seq(|ms|, k requires 0 <= k < |ms| => NormaliseMeal(k + 1, ms[k]))
  }

  function NormaliseAll(ms: seq<JValue>): Result<seq<Meal>> {
    Collect(Results(ms))
  }

  /** The meals the route answers with, for a parsed completion (`None` when `json.loads` failed). */
  function Plan(parsed: Option<JValue>): Result<seq<Meal>> {
    NormaliseAll(MealsIn(parsed))
  }

  /** The loop of the route: append one record per element, numbering from 1. */
  method BuildPlan(meals: seq<JValue>) returns (r: Result<seq<Meal>>)
    ensures r == NormaliseAll(meals)
  {
    ghost var rs := Results(meals);
    var out: seq<Meal> := [];
    var i := 0;
    while i < |meals|
      invariant i <= |meals|
      invariant Collect(rs[..i]) == Ok(out)
    {
      var m := NormaliseMeal(i + 1, meals[i]);
      assert rs[i] == m;
      assert rs[..i + 1][..i] == rs[..i];
      if m.Err? {
        ErrorPersists(rs, i + 1);
        return Err(m.error);
      }
      out := out + [m.value];
      i := i + 1;
    }
    assert rs[..i] == rs;
    return Ok(out);
  }

  // ----- Properties of the loop -----

  /** Once an element has raised, the rest of the loop never runs. */
  lemma {:induction false} ErrorPersists<T>(rs: seq<Result<T>>, j: nat)
    requires j <= |rs| && Collect(rs[..j]).Err?
    ensures Collect(rs) == Collect(rs[..j])
    decreases |rs|
  {
    if |rs| > j {
      var front := rs[..|rs| - 1];
      assert front[..j] == rs[..j];
      ErrorPersists(front, j);
    } else {
      assert rs[..j] == rs;
    }
  }

  /** A loop that did not raise produced one record per element, each the element's own. */
  lemma {:induction false} CollectRecords<T>(rs: seq<Result<T>>)
    requires Collect(rs).Ok?
    ensures var out := Collect(rs).value;
      |out| == |rs| && forall k :: 0 <= k < |rs| ==> rs[k] == Ok(out[k])
    decreases |rs|
  {
    if rs != [] {
      var front := rs[..|rs| - 1];
      CollectRecords(front);
      var prev := Collect(front).value;
      var out := Collect(rs).value;
      assert out == prev + [rs[|rs| - 1].value];
      forall k | 0 <= k < |rs| ensures rs[k] == Ok(out[k]) {
        if k < |rs| - 1 { assert rs[k] == front[k] && out[k] == prev[k]; }
      }
    }
  }

  /** The loop completes exactly when no element raises. */
  lemma {:induction false} CollectOkIff<T>(rs: seq<Result<T>>)
    ensures Collect(rs).Ok? <==> forall k :: 0 <= k < |rs| ==> rs[k].Ok?
    decreases |rs|
  {
    if rs != [] {
      var front := rs[..|rs| - 1];
      CollectOkIff(front);
      assert forall k :: 0 <= k < |front| ==> front[k] == rs[k];
    }
  }

  /** A failing loop reports the error of its first failing element. */
  lemma {:induction false} CollectError<T>(rs: seq<Result<T>>)
    requires Collect(rs).Err?
    ensures exists k :: 0 <= k < |rs| && (forall j :: 0 <= j < k ==> rs[j].Ok?) && rs[k] == Err(Collect(rs).error)
    decreases |rs|
  {
    var front := rs[..|rs| - 1];
    if Collect(front).Err? {
      CollectError(front);
      var k :| 0 <= k < |front| && (forall j :: 0 <= j < k ==> front[j].Ok?) && front[k] == Err(Collect(front).error);
      assert rs[k] == front[k];
      assert forall j :: 0 <= j < k ==> rs[j] == front[j];
    } else {
      CollectOkIff(front);
      assert forall j :: 0 <= j < |front| ==> rs[j] == front[j];
    }
  }

  /** Records that each element gives on its own make up the loop's result. */
  lemma {:induction false} CollectFromRecords<T>(rs: seq<Result<T>>, out: seq<T>)
    requires |out| == |rs| && forall k :: 0 <= k < |rs| ==> rs[k] == Ok(out[k])
    ensures Collect(rs) == Ok(out)
    decreases |rs|
  {
    if rs != [] {
      var n := |rs| - 1;
      CollectFromRecords(rs[..n], out[..n]);
      assert out == out[..n] + [out[n]];
    }
  }

  /** The first element that raises decides the error. */
  ghost predicate FirstFailure(ms: seq<JValue>, k: nat, e: PyError) {
    && k < |ms|
    && (forall j :: 0 <= j < k ==> NormaliseMeal(j + 1, ms[j]).Ok?)
    && NormaliseMeal(k + 1, ms[k]) == Err(e)
  }

  /** The elements the route accepts: an object whose numeric fields `int()` takes and whose items can be sliced. */
  ghost predicate IntLike(v: JValue) {
    v.JInt? || v.JBool? || v.JFloat? || (v.JStr? && PyText.ParseInt(v.s).Some?)
  }

  ghost predicate OptionalIntLike(obj: map<string, JValue>, key: string) {
    key in obj ==> IntLike(obj[key])
  }

  ghost predicate Accepted(m: JValue) {
    && m.JObj?
    && OptionalIntLike(m.fields, "kcal")
    && ("macros" in m.fields ==>
         var mac := m.fields["macros"];
         mac.JObj? && OptionalIntLike(mac.fields, "P") && OptionalIntLike(mac.fields, "C")
         && OptionalIntLike(mac.fields, "F"))
    && ("items" in m.fields && Truthy(m.fields["items"]) ==>
         m.fields["items"].JList? || m.fields["items"].JStr?)
  }

  lemma ToIntOkIff(v: JValue)
    ensures ToInt(v).Ok? <==> IntLike(v)
  {
  }

  /** An element turns into a record exactly when it is accepted; one that is no object raises `AttributeError`. */
  lemma NormaliseMealOkIff(i: nat, m: JValue)
    ensures NormaliseMeal(i, m).Ok? <==> Accepted(m)
    ensures !m.JObj? ==> NormaliseMeal(i, m) == Err(AttributeError)
  {
    if m.JObj? {
      var f := m.fields;
      ToIntOkIff(if "kcal" in f then f["kcal"] else JInt(DefaultKcal));
      if "macros" in f && f["macros"].JObj? {
        var mf := f["macros"].fields;
        ToIntOkIff(if "P" in mf then mf["P"] else JInt(DefaultP));
        ToIntOkIff(if "C" in mf then mf["C"] else JInt(DefaultC));
        ToIntOkIff(if "F" in mf then mf["F"] else JInt(DefaultF));
      }
    }
  }

  /** `s` is the first `min(8, |src|)` entries of `src`. */
  ghost predicate Truncated<T>(s: seq<T>, src: seq<T>) {
    |s| == Min(MaxItems, |src|) && s == src[..|s|]
  }

  /** The items a record gets from its source element: a prefix of at most eight of them, `[]` when missing or falsy. */
  ghost predicate ItemsFrom(items: JValue, m: JValue)
    requires m.JObj?
  {
    var src := Or(if "items" in m.fields then m.fields["items"] else JNull, JList([]));
    || (src.JList? && items.JList? && Truncated(items.elems, src.elems))
    || (src.JStr? && items.JStr? && Truncated(items.s, src.s))
  }

  /** An int field read with `int(...)`: the given default when missing, the coerced value when present. */
  ghost predicate FieldFrom(obj: map<string, JValue>, key: string, default: int, n: int) {
    if key in obj then ToInt(obj[key]) == Ok(n) else n == default
  }

  /** What a record keeps of its element, and the defaults it takes where the element says nothing. */
  lemma MealDefaults(i: nat, m: JValue)
    requires NormaliseMeal(i, m).Ok?
    ensures var meal := NormaliseMeal(i, m).value;
      && m.JObj?
      && meal.id == i
      && meal.title == (if "title" in m.fields then m.fields["title"] else DefaultTitle(i))
      && FieldFrom(m.fields, "kcal", DefaultKcal, meal.kcal)
      && (var mac := if "macros" in m.fields then m.fields["macros"].fields else map[];
          && FieldFrom(mac, "P", DefaultP, meal.macros.p)
          && FieldFrom(mac, "C", DefaultC, meal.macros.c)
          && FieldFrom(mac, "F", DefaultF, meal.macros.f))
      && ItemsFrom(meal.items, m)
      && (meal.items.JList? ==> |meal.items.elems| <= MaxItems)
      && (meal.items.JStr? ==> 0 < |meal.items.s| <= MaxItems)
  {
  }

  /** The record as `jsonify` writes it into the response. */
  function MealJson(meal: Meal): JValue {
    JObj(map[
      "id" := JInt(meal.id),
      "title" := meal.title,
      "kcal" := JInt(meal.kcal),
      "macros" := JObj(map["P" := JInt(meal.macros.p), "C" := JInt(meal.macros.c), "F" := JInt(meal.macros.f)]),
      "items" := meal.items])
  }

  /** The JSON list the route returns: one record per meal, in order. */
  function MealsJson(meals: seq<Meal>): seq<JValue> {
    seq(|meals|, k requires 0 <= k < |meals| => MealJson(meals[k]))
  }

  /** A record is assembled from its six fields once each of them is read without an exception. */
  lemma MealFromFields(i: nat, m: JValue, meal: Meal)
    requires meal.id == i
    requires Get(m, "title", DefaultTitle(i)) == Ok(meal.title)
    requires IntField(m, "kcal", DefaultKcal) == Ok(meal.kcal)
    requires MacroField(m, "P", DefaultP) == Ok(meal.macros.p)
    requires MacroField(m, "C", DefaultC) == Ok(meal.macros.c)
    requires MacroField(m, "F", DefaultF) == Ok(meal.macros.f)
    requires Items(m) == Ok(meal.items)
    ensures NormaliseMeal(i, m) == Ok(meal)
  {
  }

  /** The rendering of a record gives back its title, kcal and macros. */
  lemma MealJsonScalars(i: nat, meal: Meal)
    ensures Get(MealJson(meal), "title", DefaultTitle(i)) == Ok(meal.title)
    ensures IntField(MealJson(meal), "kcal", DefaultKcal) == Ok(meal.kcal)
  {
  }

  lemma MealJsonMacros(meal: Meal)
    ensures MacroField(MealJson(meal), "P", DefaultP) == Ok(meal.macros.p)
    ensures MacroField(MealJson(meal), "C", DefaultC) == Ok(meal.macros.c)
    ensures MacroField(MealJson(meal), "F", DefaultF) == Ok(meal.macros.f)
  {
    var mac := JObj(map["P" := JInt(meal.macros.p), "C" := JInt(meal.macros.c), "F" := JInt(meal.macros.f)]);
    assert Get(MealJson(meal), "macros", JObj(map[])) == Ok(mac);
  }

  /** Items that are already a truthy prefix of at most eight survive the rendering and the cut. */
  lemma MealJsonItems(meal: Meal)
    requires (meal.items.JList? && |meal.items.elems| <= MaxItems) || (meal.items.JStr? && 0 < |meal.items.s| <= MaxItems)
    ensures Items(MealJson(meal)) == Ok(meal.items)
  {
    var items := meal.items;
    assert Get(MealJson(meal), "items", JNull) == Ok(items);
    if items.JList? {
      assert items.elems[..Min(MaxItems, |items.elems|)] == items.elems;
    } else {
      assert items.s[..Min(MaxItems, |items.s|)] == items.s;
    }
  }

  /** Normalising a record's own rendering gives the record back. */
  lemma RenormaliseMeal(i: nat, m: JValue)
    requires NormaliseMeal(i, m).Ok?
    ensures NormaliseMeal(i, MealJson(NormaliseMeal(i, m).value)) == NormaliseMeal(i, m)
  {
    var meal := NormaliseMeal(i, m).value;
    MealDefaults(i, m);
    MealJsonScalars(i, meal);
    MealJsonMacros(meal);
    MealJsonItems(meal);
    MealFromFields(i, MealJson(meal), meal);
  }

  // ----- Properties of the route's answer -----

  /** A `dict` literal of the fixed plan normalises to its own values, under any id. */
  lemma MealLiteralNormalises(i: nat, title: string, kcal: int, p: int, c: int, f: int, items: seq<JValue>)
    requires |items| <= MaxItems
    ensures NormaliseMeal(i, MealLiteral(title, kcal, p, c, f, items)) == Ok(Meal(i, JStr(title), kcal, Macros(p, c, f), JList(items)))
  {
    var m := MealLiteral(title, kcal, p, c, f, items);
    var mac := JObj(map["P" := JInt(p), "C" := JInt(c), "F" := JInt(f)]);
    assert Get(m, "macros", JObj(map[])) == Ok(mac);
    assert Get(m, "items", JNull) == Ok(JList(items));
    assert items[..Min(MaxItems, |items|)] == items;
    MealFromFields(i, m, Meal(i, JStr(title), kcal, Macros(p, c, f), JList(items)));
  }

  /** Without a non-empty list from the completion, the answer is the fixed plan, numbered 1 to 4. */
  lemma PlanFallback(parsed: Option<JValue>)
    requires !(parsed.Some? && parsed.value.JList? && parsed.value.elems != [])
    ensures Plan(parsed) == Ok(FallbackPlan())
    ensures |FallbackPlan()| == 4 && forall k :: 0 <= k < 4 ==> FallbackPlan()[k].id == k + 1
  {
    assert MealsIn(parsed) == FallbackInput();
    FallbackNormalises();
    FallbackNumbering();
  }

  lemma FallbackNumbering()
    ensures |FallbackPlan()| == 4 && forall k :: 0 <= k < 4 ==> FallbackPlan()[k].id == k + 1
  {
    var out := FallbackPlan();
    assert out[0].id == 1 && out[1].id == 2 && out[2].id == 3 && out[3].id == 4;
  }

  /** The fixed plan, normalised, is its four records. */
  lemma FallbackNormalises()
    ensures NormaliseAll(FallbackInput()) == Ok(FallbackPlan())
  {
    forall k | 0 <= k < |FixedMeals| ensures |FixedMeals[k].items| <= MaxItems {
      assert |FixedMeals[k].items| == 4;
    }
    RowsNormalise(FixedMeals);
  }

  /** A table of meals written as literals, normalised, is its records. */
  lemma RowsNormalise(rows: seq<FixedMeal>)
    requires forall k :: 0 <= k < |rows| ==> |rows[k].items| <= MaxItems
    ensures NormaliseAll(Literals(rows)) == Ok(Records(rows))
  {
    var rs := Results(Literals(rows));
    forall k | 0 <= k < |rows| ensures rs[k] == Ok(Records(rows)[k]) {
      RowNormalises(rows, k);
    }
    CollectFromRecords(rs, Records(rows));
  }

  lemma RowNormalises(rows: seq<FixedMeal>, k: nat)
    requires k < |rows| && |rows[k].items| <= MaxItems
    ensures NormaliseMeal(k + 1, Literals(rows)[k]) == Ok(Records(rows)[k])
  {
    var r := rows[k];
    MealLiteralNormalises(k + 1, r.title, r.kcal, r.p, r.c, r.f, r.items);
  }

  /** A non-empty list from the completion is what the loop runs over. */
  lemma PlanUsesReply(parsed: Option<JValue>)
    requires parsed.Some? && parsed.value.JList? && parsed.value.elems != []
    ensures Plan(parsed) == NormaliseAll(parsed.value.elems)
  {
  }

  /** One record per input meal, numbered 1, 2, ..., n in order, each built from the meal at its position. */
  lemma PlanNumbering(parsed: Option<JValue>)
    requires Plan(parsed).Ok?
    ensures var ms, out := MealsIn(parsed), Plan(parsed).value;
      && |out| == |ms|
      && forall k :: 0 <= k < |out| ==> out[k].id == k + 1 && NormaliseMeal(k + 1, ms[k]) == Ok(out[k])
  {
    var ms := MealsIn(parsed);
    var rs, out := Results(ms), Plan(parsed).value;
    CollectRecords(rs);
    forall k | 0 <= k < |out| ensures out[k].id == k + 1 && NormaliseMeal(k + 1, ms[k]) == Ok(out[k]) {
      assert rs[k] == Ok(out[k]);
      MealId(k + 1, ms[k]);
    }
  }

  lemma MealId(i: nat, m: JValue)
    requires NormaliseMeal(i, m).Ok?
    ensures NormaliseMeal(i, m).value.id == i
  {
  }

  /** Each record's items are a prefix of at most eight of its meal's items (`[]` when missing or falsy). */
  lemma PlanItems(parsed: Option<JValue>)
    requires Plan(parsed).Ok?
    ensures var ms, out := MealsIn(parsed), Plan(parsed).value;
      |out| == |ms| && forall k :: 0 <= k < |out| ==> ms[k].JObj? && ItemsFrom(out[k].items, ms[k])
  {
    var ms, out := MealsIn(parsed), Plan(parsed).value;
    PlanNumbering(parsed);
    forall k | 0 <= k < |out| ensures ms[k].JObj? && ItemsFrom(out[k].items, ms[k]) {
      MealDefaults(k + 1, ms[k]);
    }
  }

  /** The answer is a 500 exactly when some meal is not accepted, and then the first such meal's error. */
  lemma PlanFailsIff(parsed: Option<JValue>)
    ensures var ms := MealsIn(parsed);
      Plan(parsed).Err? <==> exists k :: 0 <= k < |ms| && !Accepted(ms[k])
    ensures var ms := MealsIn(parsed);
      Plan(parsed).Err? ==> exists k: nat :: FirstFailure(ms, k, Plan(parsed).error)
  {
    var ms := MealsIn(parsed);
    var rs := Results(ms);
    CollectOkIff(rs);
    forall k | 0 <= k < |ms| ensures rs[k].Ok? <==> Accepted(ms[k]) {
      NormaliseMealOkIff(k + 1, ms[k]);
    }
    if Plan(parsed).Err? {
      CollectError(rs);
      var k :| 0 <= k < |rs| && (forall j :: 0 <= j < k ==> rs[j].Ok?) && rs[k] == Err(Plan(parsed).error);
      assert FirstFailure(ms, k, Plan(parsed).error);
    }
  }

  /** Feeding the answer back as the completion's reply gives the same answer. */
  lemma PlanIdempotent(parsed: Option<JValue>)
    requires Plan(parsed).Ok?
    ensures Plan(Some(JList(MealsJson(Plan(parsed).value)))) == Plan(parsed)
  {
    var ms, out := MealsIn(parsed), Plan(parsed).value;
    PlanNumbering(parsed);
    RecordsRenormalise(ms, out);
    assert MealsJson(out) != [];
    PlanUsesReply(Some(JList(MealsJson(out))));
  }

  /** The records a list normalises to, rendered and normalised again, are the same records. */
  lemma RecordsRenormalise(ms: seq<JValue>, out: seq<Meal>)
    requires |out| == |ms| && forall k :: 0 <= k < |out| ==> NormaliseMeal(k + 1, ms[k]) == Ok(out[k])
    ensures NormaliseAll(MealsJson(out)) == Ok(out)
  {
    var rs := Results(MealsJson(out));
    forall k | 0 <= k < |out| ensures rs[k] == Ok(out[k]) {
      RenormaliseMeal(k + 1, ms[k]);
    }
    CollectFromRecords(rs, out);
  }
}
