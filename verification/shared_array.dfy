/**
 The page as written keeps JavaScript arrays, not values. The fetch stores the same
 array as both the batch and the screen, and "X" stores the batch array as the screen
 again. A header click sorts the screen array in place before copying it, so while the
 two names share one array the click also reorders the batch. Later searches then list
 their hits in the sorted order, and "X" no longer restores the fetched order.
 */
module SharedArrayPage {
  import opened Strings
  import opened Cargos
  import opened CargoSort
  import opened DateFormat
  import opened Gist
  import CargoPage

  /** The page state plus whether the screen and the batch are currently one array. */
  datatype Screen = Screen(initial: seq<Cargo>, view: seq<Cargo>, search: string, shared: bool)

  const Mounted := Screen([], [], "", false)

  /** One event, with the aliasing the handlers create. While the screen is the batch
      array, a sort reorders the batch too; apart from the fetch the batch is only ever
      reordered, and after the step a shared screen is still the batch. */
  function Step(s: Screen, e: CargoPage.Event): (r: Screen)
    ensures (s.shared ==> s.view == s.initial) ==> (r.shared ==> r.view == r.initial)
    ensures e.Sort? && s.shared ==> r.initial == r.view && Sorted(r.initial, e.field)
    ensures !e.Fetched? && !(e.Sort? && s.shared) ==> r.initial == s.initial
    ensures !e.Fetched? && (s.shared ==> s.view == s.initial) ==> multiset(r.initial) == multiset(s.initial)
  {
    match e
    case Fetched(batch) => Screen(batch, batch, s.search, true)
    case Typed(text) => s.(search := text)
    case Search => s.(view := SearchCargos(s.initial, s.search), shared := false)
    case SearchByDateTo => s.(view := SearchCargosByDateTo(s.initial, s.search), shared := false)
    case Clear => s.(view := s.initial, shared := true)
    case Sort(f) =>
      var sorted := SortBy(s.view, f);
      Screen(if s.shared then sorted else s.initial, sorted, s.search, false)
  }

  function Run(s: Screen, es: seq<CargoPage.Event>): Screen
    decreases |es|
  {
    if |es| == 0 then s else Run(Step(s, es[0]), es[1..])
  }

  /** What the value model and the shared-array page agree on: the query, and which
      records (with multiplicity) the batch and the screen hold; while shared, the
      screen is the batch. */
  ghost predicate Agrees(s: Screen, p: CargoPage.Page) {
    && s.search == p.search
    && multiset(s.initial) == multiset(p.initial)
    && multiset(s.view) == multiset(p.view)
    && (s.shared ==> s.view == s.initial)
  }

  lemma StepAgrees(s: Screen, p: CargoPage.Page, e: CargoPage.Event)
    requires Agrees(s, p)
    ensures Agrees(Step(s, e), CargoPage.Step(p, e))
  {
  }

  /** Whatever the user does, the aliasing only ever reorders records: the batch holds
      the fetched records, the screen the records the value model shows. */
  lemma {:induction false} RunAgrees(s: Screen, p: CargoPage.Page, es: seq<CargoPage.Event>)
    requires Agrees(s, p)
    ensures Agrees(Run(s, es), CargoPage.Run(p, es))
    decreases |es|
  {
    if |es| > 0 {
      StepAgrees(s, p, es[0]);
      RunAgrees(Step(s, es[0]), CargoPage.Step(p, es[0]), es[1..]);
    }
  }

  /** So the chart and the record count are never affected by the aliasing. */
  lemma ChartAndCountUnaffected(es: seq<CargoPage.Event>, days: seq<Day>)
    requires |days| == DAYS
    ensures Histogram(Run(Mounted, es).initial, days) == CargoPage.PageHistogram(CargoPage.Run(CargoPage.Mounted, es), days)
    ensures |Run(Mounted, es).view| == CargoPage.ViewCount(CargoPage.Run(CargoPage.Mounted, es))
  {
    var s, p := Run(Mounted, es), CargoPage.Run(CargoPage.Mounted, es);
    RunAgrees(Mounted, CargoPage.Mounted, es);
    HistogramIgnoresOrder(s.initial, p.initial, days);
    assert |s.view| == |multiset(s.view)|;
  }

  /** Two records fetched in the order "b", "a". */
  const Fetch := CargoPage.Fetched([
    Cargo(1, "b", "x", "A", "B", "2024-01-01", "2024-01-05"),
    Cargo(2, "a", "y", "A", "B", "2024-01-02", "2024-01-05")])

  /** The name sort puts the second fetched record first. */
  lemma SortSwaps()
    ensures SortBy(Fetch.batch, Name) == [Fetch.batch[1], Fetch.batch[0]]
  {
  }

  /** The three-event runs, one event at a time. */
  lemma RunThree(s: Screen, e0: CargoPage.Event, e1: CargoPage.Event, e2: CargoPage.Event)
    ensures Run(s, [e0, e1, e2]) == Step(Step(Step(s, e0), e1), e2)
  {
    assert [e0, e1, e2][1..] == [e1, e2] && [e1, e2][1..] == [e2] && [e2][1..] == [];
    var s1 := Step(s, e0);
    var s2 := Step(s1, e1);
    assert Run(s, [e0, e1, e2]) == Run(s1, [e1, e2]);
    assert Run(s1, [e1, e2]) == Run(s2, [e2]);
    assert Run(s2, [e2]) == Run(Step(s2, e2), []);
  }

  lemma PageRunThree(p: CargoPage.Page, e0: CargoPage.Event, e1: CargoPage.Event, e2: CargoPage.Event)
    ensures CargoPage.Run(p, [e0, e1, e2]) == CargoPage.Step(CargoPage.Step(CargoPage.Step(p, e0), e1), e2)
  {
    assert [e0, e1, e2][1..] == [e1, e2] && [e1, e2][1..] == [e2] && [e2][1..] == [];
    var p1 := CargoPage.Step(p, e0);
    var p2 := CargoPage.Step(p1, e1);
    assert CargoPage.Run(p, [e0, e1, e2]) == CargoPage.Run(p1, [e1, e2]);
    assert CargoPage.Run(p1, [e1, e2]) == CargoPage.Run(p2, [e2]);
    assert CargoPage.Run(p2, [e2]) == CargoPage.Run(CargoPage.Step(p2, e2), []);
  }

  /** Fetch, click the name header, press search with the blank box: the page as
      written lists "a" before "b", though the batch came as "b", "a"; the value model
      lists them in fetched order. */
  lemma SearchAfterSortIsReordered()
    ensures Run(Mounted, [Fetch, CargoPage.Sort(Name), CargoPage.Search]).view == [Fetch.batch[1], Fetch.batch[0]]
    ensures CargoPage.Run(CargoPage.Mounted, [Fetch, CargoPage.Sort(Name), CargoPage.Search]).view == Fetch.batch
  {
    var b := Fetch.batch;
    SortSwaps();
    RunThree(Mounted, Fetch, CargoPage.Sort(Name), CargoPage.Search);
    var s2 := Step(Step(Mounted, Fetch), CargoPage.Sort(Name));
    assert s2.initial == [b[1], b[0]] && s2.search == "";
    EmptyQueryKeepsBatch([b[1], b[0]]);
    PageRunThree(CargoPage.Mounted, Fetch, CargoPage.Sort(Name), CargoPage.Search);
    var p2 := CargoPage.Step(CargoPage.Step(CargoPage.Mounted, Fetch), CargoPage.Sort(Name));
    assert p2.initial == b && p2.search == "";
    EmptyQueryKeepsBatch(b);
  }

  /** The same reordering survives "X": it shows the sorted list, not the fetched one. */
  lemma ClearAfterSortIsReordered()
    ensures Run(Mounted, [Fetch, CargoPage.Sort(Name), CargoPage.Clear]).view == [Fetch.batch[1], Fetch.batch[0]]
    ensures CargoPage.Run(CargoPage.Mounted, [Fetch, CargoPage.Sort(Name), CargoPage.Clear]).view == Fetch.batch
  {
    SortSwaps();
    RunThree(Mounted, Fetch, CargoPage.Sort(Name), CargoPage.Clear);
    PageRunThree(CargoPage.Mounted, Fetch, CargoPage.Sort(Name), CargoPage.Clear);
  }
}
