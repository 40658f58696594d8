// Parameter sweeps: expanding a grid into every combination, and the accounting
// of a run over all of them.

module Sweep {
  import opened IntMath
  import opened Wrappers

  const MAX_SWEEP_CELLS := 500

  /** A grid value as it arrives from the request. */
  datatype RawValue = RBool(b: bool) | RInt(n: int) | RFloat(x: real) | RNotFinite | ROther

  datatype ParamValue = IntValue(n: int) | FloatValue(x: real)

  datatype ParamSpec = ParamSpec(isInt: bool, min: real, max: real)

  datatype SweepError = NoSymbols | NoCells | UnknownStrategy | UnknownParam | GridNotList | BadValue | TooLarge

  function CoerceParamValue(spec: ParamSpec, raw: RawValue): Result<ParamValue, SweepError> {
    match raw
    case RBool(_) => Err(BadValue)
    case ROther => Err(BadValue)
    case RNotFinite => Err(BadValue)
    case RInt(n) =>
      if (n as real) < spec.min || (n as real) > spec.max then Err(BadValue)
      else if spec.isInt then Ok(IntValue(n))
      else Ok(FloatValue(n as real))
    case RFloat(x) =>
      if x < spec.min || x > spec.max then Err(BadValue)
      else if spec.isInt then (if x == x.Floor as real then Ok(IntValue(x.Floor)) else Err(BadValue))
      else Ok(FloatValue(x))
  }

  /** Whatever is accepted is within the declared bounds, and whole for an int. */
  lemma CoercedInBounds(spec: ParamSpec, raw: RawValue)
    ensures CoerceParamValue(spec, raw).Ok? ==>
              match CoerceParamValue(spec, raw).value
              case IntValue(n) => spec.isInt && spec.min <= n as real <= spec.max
              case FloatValue(x) => !spec.isInt && spec.min <= x <= spec.max
  {
  }

  /** The number a raw value stands for; neither a boolean nor an infinity is one. */
  predicate IsNumber(raw: RawValue, x: real) {
    (raw.RInt? && x == raw.n as real) || (raw.RFloat? && x == raw.x)
  }

  /** A value is accepted if and only if it is a number within the bounds, and whole
      for an int; and then it is that very number. */
  lemma AcceptedExactlyWhen(spec: ParamSpec, raw: RawValue)
    ensures CoerceParamValue(spec, raw).Ok? <==>
            exists x :: IsNumber(raw, x) && spec.min <= x <= spec.max && (spec.isInt ==> x == x.Floor as real)
    ensures CoerceParamValue(spec, raw).Ok? ==>
              match CoerceParamValue(spec, raw).value
              case IntValue(n) => spec.isInt && IsNumber(raw, n as real)
              case FloatValue(x) => !spec.isInt && IsNumber(raw, x)
  {
    match raw
    case RInt(n) => assert IsNumber(raw, n as real);
    case RFloat(x) => assert IsNumber(raw, x);
    case _ =>
  }

  /** A cell: the strategy and its grid, in the grid's own order; a grid value
      that is not a list at all is `None`. */
  datatype Cell = Cell(strategy: string, grid: seq<(string, Option<seq<RawValue>>)>)

  type Params = map<string, ParamValue>

  /** The strategies' declared parameters. */
  type Schemas = map<string, map<string, ParamSpec>>

  predicate DistinctNames(names: seq<string>) {
    forall i, j :: 0 <= i < j < |names| ==> names[i] != names[j]
  }

  // ----- reading the grid

  function CoerceAll(spec: ParamSpec, raws: seq<RawValue>): (r: Result<seq<ParamValue>, SweepError>)
    ensures r.Ok? ==> |r.value| == |raws|
  {
    if raws == [] then Ok([])
    else
      match CoerceAll(spec, raws[..|raws| - 1])
      case Err(e) => Err(e)
      case Ok(values) =>
        match CoerceParamValue(spec, raws[|raws| - 1])
        case Err(e) => Err(e)
        case Ok(value) => Ok(values + [value])
  }

  /** A list of values is accepted if and only if each of them is, and in its order. */
  lemma {:induction false} AcceptedOneByOne(spec: ParamSpec, raws: seq<RawValue>)
    ensures CoerceAll(spec, raws).Ok? <==> forall i :: 0 <= i < |raws| ==> CoerceParamValue(spec, raws[i]).Ok?
    ensures CoerceAll(spec, raws).Ok? ==>
              forall i :: 0 <= i < |raws| ==> CoerceParamValue(spec, raws[i]) == Ok(CoerceAll(spec, raws).value[i])
  {
    hide CoerceParamValue;
    if raws != [] {
      AcceptedOneByOne(spec, raws[..|raws| - 1]);
      assert forall i :: 0 <= i < |raws| - 1 ==> raws[..|raws| - 1][i] == raws[i];
    }
  }

  /** The checked value lists of the first `n` grid entries. */
  function ValueLists(specs: map<string, ParamSpec>, grid: seq<(string, Option<seq<RawValue>>)>, n: nat)
    : (r: Result<seq<seq<ParamValue>>, SweepError>)
    requires n <= |grid|
    ensures r.Ok? ==> |r.value| == n && forall i :: 0 <= i < n ==> r.value[i] != []
  {
    if n == 0 then Ok([])
    else
      match ValueLists(specs, grid, n - 1)
      case Err(e) => Err(e)
      case Ok(lists) =>
        var (name, raws) := grid[n - 1];
        if name !in specs then Err(UnknownParam)
        else if raws.None? || raws.value == [] then Err(GridNotList)
        else
          match CoerceAll(specs[name], raws.value)
          case Err(e) => Err(e)
          case Ok(values) => Ok(lists + [values])
  }

  function Names(grid: seq<(string, Option<seq<RawValue>>)>): seq<string> {
    seq(|grid|, i requires 0 <= i < |grid| => grid[i].0)
  }

  // ----- every combination, by number

  /** The number of combinations of one value per list. */
  function Size(lists: seq<seq<ParamValue>>): nat {
    if lists == [] then 1 else Size(lists[..|lists| - 1]) * |lists[|lists| - 1]|
  }

  /** One position per list. */
  predicate IsChoice(lists: seq<seq<ParamValue>>, choice: seq<nat>) {
    |choice| == |lists| && forall i :: 0 <= i < |lists| ==> choice[i] < |lists[i]|
  }

  /** The k-th choice: the last list varies fastest. */
  function ChoiceAt(lists: seq<seq<ParamValue>>, k: nat): (choice: seq<nat>)
    requires forall i :: 0 <= i < |lists| ==> lists[i] != []
    ensures |choice| == |lists|
  {
    if lists == [] then []
    else
      var m := |lists[|lists| - 1]|;
      ChoiceAt(lists[..|lists| - 1], k / m) + [k % m]
  }

  function Rank(lists: seq<seq<ParamValue>>, choice: seq<nat>): nat
    requires |choice| == |lists|
  {
    if lists == [] then 0
    else Rank(lists[..|lists| - 1], choice[..|lists| - 1]) * |lists[|lists| - 1]| + choice[|lists| - 1]
  }

  /** The parameters that a choice picks. */
  function Picked(names: seq<string>, lists: seq<seq<ParamValue>>, choice: seq<nat>): Params
    requires |names| == |lists| && IsChoice(lists, choice)
  {
    if names == [] then map[]
    else
      var n := |names| - 1;
      Picked(names[..n], lists[..n], choice[..n])[names[n] := lists[n][choice[n]]]
  }

  lemma DivMod(k: int, m: int, q: int, d: int)
    requires m > 0 && 0 <= d < m && k == q * m + d
    ensures k / m == q && k % m == d
  {
    var p, e := k / m, k % m;
    assert k == p * m + e && 0 <= e < m;
    assert (p - q) * m == d - e;
    MulBounds(p - q, m);
  }

  lemma IsChoiceNext(lists: seq<seq<ParamValue>>, front: seq<nat>, d: nat)
    requires lists != [] && IsChoice(lists[..|lists| - 1], front) && d < |lists[|lists| - 1]|
    ensures IsChoice(lists, front + [d]) && (front + [d])[..|lists| - 1] == front
  {
    assert forall i :: 0 <= i < |front| ==> lists[..|lists| - 1][i] == lists[i];
  }

  lemma {:induction false} ChoiceAtIsChoice(lists: seq<seq<ParamValue>>, k: nat)
    requires (forall i :: 0 <= i < |lists| ==> lists[i] != []) && k < Size(lists)
    ensures IsChoice(lists, ChoiceAt(lists, k)) && Rank(lists, ChoiceAt(lists, k)) == k
  {
    if lists != [] {
      RankNext(lists, ChoiceAt(lists, k));
      hide Rank, Size, ChoiceAt, IsChoice;
      var init, m := lists[..|lists| - 1], |lists[|lists| - 1]|;
      var q, d := k / m, k % m;
      QuotientBelow(k, m, Size(init));
      ChoiceAtIsChoice(init, q);
      IsChoiceNext(lists, ChoiceAt(init, q), d);
    }
  }

  lemma QuotientBelow(k: nat, m: nat, n: nat)
    requires m > 0 && k < n * m
    ensures k / m < n
  {
    var p := k / m;
    assert (p - n) * m == p * m - n * m < 0;
    MulBounds(p - n, m);
  }

  lemma {:induction false} RankOfChoice(lists: seq<seq<ParamValue>>, choice: seq<nat>)
    requires (forall i :: 0 <= i < |lists| ==> lists[i] != []) && IsChoice(lists, choice)
    ensures Rank(lists, choice) < Size(lists) && ChoiceAt(lists, Rank(lists, choice)) == choice
  {
    if lists != [] {
      var init, m := lists[..|lists| - 1], |lists[|lists| - 1]|;
      var front, d := choice[..|lists| - 1], choice[|lists| - 1];
      RankNext(lists, choice);
      IsChoicePrefix(lists, choice);
      hide Rank, Size, ChoiceAt, IsChoice;
      RankOfChoice(init, front);
      var q := Rank(init, front);
      BelowProduct(q, d, m, Size(init));
    }
  }

  lemma BelowProduct(q: int, d: int, m: int, n: int)
    requires 0 <= d < m && q < n
    ensures q * m + d < n * m && (q * m + d) / m == q && (q * m + d) % m == d
  {
    DivMod(q * m + d, m, q, d);
    assert (n - q) * m == n * m - q * m;
    MulBounds(n - q, m);
  }

  lemma IsChoicePrefix(lists: seq<seq<ParamValue>>, choice: seq<nat>)
    requires lists != [] && IsChoice(lists, choice)
    ensures IsChoice(lists[..|lists| - 1], choice[..|lists| - 1])
    ensures choice == choice[..|lists| - 1] + [choice[|lists| - 1]] && choice[|lists| - 1] < |lists[|lists| - 1]|
  {
  }

  lemma RankNext(lists: seq<seq<ParamValue>>, choice: seq<nat>)
    requires (forall i :: 0 <= i < |lists| ==> lists[i] != []) && |choice| == |lists| && lists != []
    ensures var init, m := lists[..|lists| - 1], |lists[|lists| - 1]|;
            && Size(lists) == Size(init) * m
            && Rank(lists, choice) == Rank(init, choice[..|lists| - 1]) * m + choice[|lists| - 1]
            && forall k: nat :: ChoiceAt(lists, k) == ChoiceAt(init, k / m) + [k % m]
  {
  }

  // ----- expanding one cell

  /** One more list: every partial assignment with every value. */
  method ExtendAll(expansions: seq<Params>, name: string, values: seq<ParamValue>) returns (next: seq<Params>)
    requires values != []
    ensures |next| == |expansions| * |values|
    ensures forall k :: 0 <= k < |next| ==>
              k / |values| < |expansions| && next[k] == expansions[k / |values|][name := values[k % |values|]]
  {
    next := [];
    var m := |values|;
    for i := 0 to |expansions|
      invariant |next| == i * m
      invariant forall k :: 0 <= k < |next| ==>
                  0 <= k / m < i && next[k] == expansions[k / m][name := values[k % m]]
    {
      for j := 0 to m
        invariant |next| == i * m + j
        invariant forall k :: 0 <= k < |next| ==>
                    0 <= k / m <= i && next[k] == expansions[k / m][name := values[k % m]]
      {
        DivMod(i * m + j, m, i, j);
        next := next + [expansions[i][name := values[j]]];
      }
      forall k | 0 <= k < |next|
        ensures k / m < i + 1
      {
      }
      assert (i + 1) * m == i * m + m;
    }
  }

  /** The expansion of a cell, or the first complaint about its grid. */
  method ExpandCell(cell: Cell, specs: map<string, ParamSpec>) returns (result: Result<seq<Params>, SweepError>)
    ensures result.Err? <==> ValueLists(specs, cell.grid, |cell.grid|).Err?
    ensures result.Err? ==> result.error == ValueLists(specs, cell.grid, |cell.grid|).error
    ensures result.Ok? ==> Enumerates(result.value, Names(cell.grid), ValueLists(specs, cell.grid, |cell.grid|).value)
  {
    var lists: seq<seq<ParamValue>> := [];
    for n := 0 to |cell.grid|
      invariant ValueLists(specs, cell.grid, n) == Ok(lists)
    {
      var (name, raws) := cell.grid[n];
      if name !in specs {
        ErrorStays(specs, cell.grid, n + 1);
        return Err(UnknownParam);
      }
      if raws.None? || raws.value == [] {
        ErrorStays(specs, cell.grid, n + 1);
        return Err(GridNotList);
      }
      var coerced := CoerceAll(specs[name], raws.value);
      if coerced.Err? {
        ErrorStays(specs, cell.grid, n + 1);
        return Err(coerced.error);
      }
      lists := lists + [coerced.value];
    }
    hide ValueLists, Enumerates;
    var expansions := ExtendByEach(Names(cell.grid), lists);
    return Ok(expansions);
  }

  /** One parameter after the other, starting from no parameters at all. */
  method ExtendByEach(names: seq<string>, lists: seq<seq<ParamValue>>) returns (expansions: seq<Params>)
    requires |names| == |lists| && forall i :: 0 <= i < |lists| ==> lists[i] != []
    ensures Enumerates(expansions, names, lists)
  {
    expansions := [map[]];
    NoParameters();
    hide Enumerates;
    for n := 0 to |lists|
      invariant Enumerates(expansions, names[..n], lists[..n])
    {
      ghost var before := expansions;
      expansions := ExtendAll(expansions, names[n], lists[n]);
      EnumeratesNext(before, expansions, names[..n], lists[..n], names[n], lists[n]);
      assert names[..n] + [names[n]] == names[..n + 1] && lists[..n] + [lists[n]] == lists[..n + 1];
    }
    assert names[..|lists|] == names && lists[..|lists|] == lists;
  }

  lemma NoParameters()
    ensures Enumerates([map[]], [], [])
  {
  }

  lemma {:induction false} ErrorStays(specs: map<string, ParamSpec>, grid: seq<(string, Option<seq<RawValue>>)>, n: nat)
    requires n <= |grid| && ValueLists(specs, grid, n).Err?
    ensures ValueLists(specs, grid, |grid|) == ValueLists(specs, grid, n)
    decreases |grid| - n
  {
    if n < |grid| {
      ErrorStays(specs, grid, n + 1);
    }
  }

  /** The list holds, at place k, the parameters of the k-th choice. */
  ghost predicate Enumerates(expansions: seq<Params>, names: seq<string>, lists: seq<seq<ParamValue>>) {
    && |names| == |lists| && (forall i :: 0 <= i < |lists| ==> lists[i] != [])
    && |expansions| == Size(lists)
    && forall k :: 0 <= k < |expansions| ==>
         IsChoice(lists, ChoiceAt(lists, k)) && expansions[k] == Picked(names, lists, ChoiceAt(lists, k))
  }

  lemma EnumeratesNext(before: seq<Params>, after: seq<Params>, names: seq<string>, lists: seq<seq<ParamValue>>,
                       name: string, values: seq<ParamValue>)
    requires Enumerates(before, names, lists) && values != []
    requires |after| == |before| * |values|
    requires forall k :: 0 <= k < |after| ==>
               k / |values| < |before| && after[k] == before[k / |values|][name := values[k % |values|]]
    ensures Enumerates(after, names + [name], lists + [values])
  {
    var allNames, allLists := names + [name], lists + [values];
    assert allNames[..|names|] == names && allLists[..|lists|] == lists;
    assert Size(allLists) == Size(lists) * |values|;
    forall k | 0 <= k < |after|
      ensures IsChoice(allLists, ChoiceAt(allLists, k))
      ensures after[k] == Picked(allNames, allLists, ChoiceAt(allLists, k))
    {
      var q, d := k / |values|, k % |values|;
      var front := ChoiceAt(lists, q);
      assert ChoiceAt(allLists, k) == front + [d];
      assert (front + [d])[..|lists|] == front;
    }
  }

  /** Every choice of one value per parameter occurs in the expansion at exactly
      one place. */
  lemma EachChoiceOnce(expansions: seq<Params>, names: seq<string>, lists: seq<seq<ParamValue>>, choice: seq<nat>)
    requires Enumerates(expansions, names, lists) && IsChoice(lists, choice)
    ensures 0 <= Rank(lists, choice) < |expansions|
    ensures expansions[Rank(lists, choice)] == Picked(names, lists, choice)
    ensures forall k :: 0 <= k < |expansions| && ChoiceAt(lists, k) == choice ==> k == Rank(lists, choice)
  {
    RankOfChoice(lists, choice);
    forall k | 0 <= k < |expansions| && ChoiceAt(lists, k) == choice
      ensures k == Rank(lists, choice)
    {
      ChoiceAtIsChoice(lists, k);
    }
  }

  lemma {:induction false} PickedNames(names: seq<string>, lists: seq<seq<ParamValue>>, choice: seq<nat>)
    requires |names| == |lists| && IsChoice(lists, choice)
    ensures forall name <- Picked(names, lists, choice) :: name in names
  {
    if names != [] {
      var n := |names| - 1;
      PickedNames(names[..n], lists[..n], choice[..n]);
    }
  }

  /** The checked lists, entry by entry. */
  lemma {:induction false} ListsOfGrid(specs: map<string, ParamSpec>, grid: seq<(string, Option<seq<RawValue>>)>, n: nat, i: nat)
    requires i < n <= |grid| && ValueLists(specs, grid, n).Ok?
    ensures grid[i].0 in specs && grid[i].1.Some? && grid[i].1.value != []
    ensures CoerceAll(specs[grid[i].0], grid[i].1.value) == Ok(ValueLists(specs, grid, n).value[i])
  {
    hide CoerceAll;
    if i < n - 1 {
      ListsOfGrid(specs, grid, n - 1, i);
    }
  }

  /** These parameters are the grid's, each with the value at its place accepted. */
  predicate Takes(params: Params, specs: map<string, ParamSpec>, grid: seq<(string, Option<seq<RawValue>>)>, places: seq<nat>) {
    && |places| == |grid|
    && (forall name <- params :: exists i :: 0 <= i < |grid| && grid[i].0 == name)
    && forall i :: 0 <= i < |grid| ==>
         && grid[i].0 in params && grid[i].0 in specs && grid[i].1.Some? && places[i] < |grid[i].1.value|
         && CoerceParamValue(specs[grid[i].0], grid[i].1.value[places[i]]) == Ok(params[grid[i].0])
  }

  ghost predicate TakesSome(params: Params, specs: map<string, ParamSpec>, grid: seq<(string, Option<seq<RawValue>>)>) {
    exists places :: Takes(params, specs, grid, places)
  }

  /** One place in every value list of the grid. */
  predicate PointsInto(grid: seq<(string, Option<seq<RawValue>>)>, places: seq<nat>) {
    |places| == |grid| && forall i :: 0 <= i < |grid| ==> grid[i].1.Some? && places[i] < |grid[i].1.value|
  }

  predicate DistinctParams(grid: seq<(string, Option<seq<RawValue>>)>) {
    forall i, j :: 0 <= i < j < |grid| ==> grid[i].0 != grid[j].0
  }

  /** The expansion of a cell, on its grid: for every way to point at one value of each
      parameter there is an expansion that has exactly these, accepted; and every
      expansion is one of those. */
  lemma ExpansionOfGrid(specs: map<string, ParamSpec>, grid: seq<(string, Option<seq<RawValue>>)>, expansions: seq<Params>)
    requires ValueLists(specs, grid, |grid|).Ok? && DistinctParams(grid)
    requires Enumerates(expansions, Names(grid), ValueLists(specs, grid, |grid|).value)
    ensures forall places :: PointsInto(grid, places) ==>
              exists k :: 0 <= k < |expansions| && Takes(expansions[k], specs, grid, places)
    ensures forall k :: 0 <= k < |expansions| ==> TakesSome(expansions[k], specs, grid)
  {
    var lists := ValueLists(specs, grid, |grid|).value;
    hide *;
    forall places | PointsInto(grid, places)
      ensures exists k :: 0 <= k < |expansions| && Takes(expansions[k], specs, grid, places)
    {
      PlacesAreChoice(specs, grid, places);
      FoundAt(expansions, Names(grid), lists, places);
      ChoiceTakes(specs, grid, places);
    }
    forall k | 0 <= k < |expansions| ensures TakesSome(expansions[k], specs, grid) {
      var places := PlaceOf(expansions, Names(grid), lists, k);
      ChoiceTakes(specs, grid, places);
    }
  }

  lemma FoundAt(expansions: seq<Params>, names: seq<string>, lists: seq<seq<ParamValue>>, choice: seq<nat>)
    requires Enumerates(expansions, names, lists) && IsChoice(lists, choice)
    ensures |names| == |lists| && exists k :: 0 <= k < |expansions| && expansions[k] == Picked(names, lists, choice)
  {
    EachChoiceOnce(expansions, names, lists, choice);
  }

  lemma PlaceOf(expansions: seq<Params>, names: seq<string>, lists: seq<seq<ParamValue>>, k: nat) returns (choice: seq<nat>)
    requires Enumerates(expansions, names, lists) && k < |expansions|
    ensures |names| == |lists| && IsChoice(lists, choice) && expansions[k] == Picked(names, lists, choice)
  {
    choice := ChoiceAt(lists, k);
  }

  lemma PlacesAreChoice(specs: map<string, ParamSpec>, grid: seq<(string, Option<seq<RawValue>>)>, places: seq<nat>)
    requires ValueLists(specs, grid, |grid|).Ok? && PointsInto(grid, places)
    ensures IsChoice(ValueLists(specs, grid, |grid|).value, places)
  {
    hide ValueLists;
    forall i | 0 <= i < |grid| ensures places[i] < |ValueLists(specs, grid, |grid|).value[i]| {
      ListsOfGrid(specs, grid, |grid|, i);
    }
  }

  lemma TakesAt(specs: map<string, ParamSpec>, grid: seq<(string, Option<seq<RawValue>>)>, choice: seq<nat>, i: nat)
    requires i < |grid| && DistinctParams(grid)
    requires ValueLists(specs, grid, |grid|).Ok? && IsChoice(ValueLists(specs, grid, |grid|).value, choice)
    ensures var params := Picked(Names(grid), ValueLists(specs, grid, |grid|).value, choice);
            && grid[i].0 in params && grid[i].0 in specs && grid[i].1.Some? && choice[i] < |grid[i].1.value|
            && CoerceParamValue(specs[grid[i].0], grid[i].1.value[choice[i]]) == Ok(params[grid[i].0])
  {
    hide ValueLists, CoerceAll, CoerceParamValue, Picked;
    PickedValue(Names(grid), ValueLists(specs, grid, |grid|).value, choice, i);
    ListsOfGrid(specs, grid, |grid|, i);
    AcceptedOneByOne(specs[grid[i].0], grid[i].1.value);
  }

  lemma NamesOfGrid(grid: seq<(string, Option<seq<RawValue>>)>, params: Params)
    requires forall name <- params :: name in Names(grid)
    ensures forall name <- params :: exists i :: 0 <= i < |grid| && grid[i].0 == name
  {
  }

  lemma ChoiceTakes(specs: map<string, ParamSpec>, grid: seq<(string, Option<seq<RawValue>>)>, choice: seq<nat>)
    requires ValueLists(specs, grid, |grid|).Ok? && IsChoice(ValueLists(specs, grid, |grid|).value, choice)
    requires DistinctParams(grid)
    ensures var params := Picked(Names(grid), ValueLists(specs, grid, |grid|).value, choice);
            Takes(params, specs, grid, choice) && TakesSome(params, specs, grid)
  {
    var lists := ValueLists(specs, grid, |grid|).value;
    hide ValueLists, CoerceAll, CoerceParamValue, Picked, Names, IsChoice, DistinctParams;
    PickedNames(Names(grid), lists, choice);
    var params := Picked(Names(grid), lists, choice);
    NamesOfGrid(grid, params);
    assert |choice| == |grid| by { ChoiceLength(lists, choice); }
    forall i | 0 <= i < |grid|
      ensures grid[i].0 in params && grid[i].0 in specs && grid[i].1.Some? && choice[i] < |grid[i].1.value|
      ensures CoerceParamValue(specs[grid[i].0], grid[i].1.value[choice[i]]) == Ok(params[grid[i].0])
    {
      TakesAt(specs, grid, choice, i);
    }
  }

  lemma ChoiceLength(lists: seq<seq<ParamValue>>, choice: seq<nat>)
    requires IsChoice(lists, choice)
    ensures |choice| == |lists|
  {
  }

  /** With distinct parameter names, each one gets the value that was chosen. */
  lemma {:induction false} PickedValue(names: seq<string>, lists: seq<seq<ParamValue>>, choice: seq<nat>, i: nat)
    requires |names| == |lists| && IsChoice(lists, choice) && DistinctNames(names) && i < |names|
    ensures names[i] in Picked(names, lists, choice) && Picked(names, lists, choice)[names[i]] == lists[i][choice[i]]
  {
    var n := |names| - 1;
    if i < n {
      PickedValue(names[..n], lists[..n], choice[..n], i);
    }
  }
}
