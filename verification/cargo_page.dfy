/**
 The cargo-traffic page as a state machine. The page keeps the fetched batch
 (`initialCargos`), the list on screen (`cargos`) and the search box text; every
 button, header click and keystroke is an event that maps one page state to the next.
 Here the batch is a value, so no handler can change it except the fetch.
 */
module CargoPage {
  import opened Seqs
  import opened Cargos
  import opened CargoSort
  import opened DateFormat
  import opened Gist

  datatype Page = Page(initial: seq<Cargo>, view: seq<Cargo>, search: string)

  /** Both lists start empty and the search box is blank. */
  const Mounted := Page([], [], "")

  datatype Event =
    | Fetched(batch: seq<Cargo>)  // the backend answered: both lists become the batch
    | Typed(text: string)         // the search box changed
    | Search                      // the "search" button
    | SearchByDateTo              // the "search by arrival date" button
    | Clear                       // either of the two "X" buttons
    | Sort(field: Field)          // a click on a column header

  /** Every record on screen comes from the batch, at most as often as it occurs there. */
  ghost predicate ViewFromBatch(p: Page) {
    multiset(p.view) <= multiset(p.initial)
  }

  /** One event. Only the fetch replaces the batch, only typing changes the query, and
      every event keeps the screen drawn from the batch. */
  function Step(p: Page, e: Event): (r: Page)
    ensures !e.Fetched? ==> r.initial == p.initial
    ensures !e.Typed? ==> r.search == p.search
    ensures e.Typed? ==> r.view == p.view
    ensures ViewFromBatch(p) || e.Fetched? || e.Search? || e.SearchByDateTo? || e.Clear? ==> ViewFromBatch(r)
  {
    match e
    case Fetched(batch) => Page(batch, batch, p.search)
    case Typed(text) => p.(search := text)
    case Search => p.(view := SearchCargos(p.initial, p.search))
    case SearchByDateTo => p.(view := SearchCargosByDateTo(p.initial, p.search))
    case Clear => p.(view := p.initial)
    case Sort(f) => p.(view := SortBy(p.view, f))
  }

  /** The events in order, the first one first. */
  function Run(p: Page, es: seq<Event>): Page
    decreases |es|
  {
    if |es| == 0 then p else Run(Step(p, es[0]), es[1..])
  }

  /** The record-count line: the number of records on screen. */
  function ViewCount(p: Page): nat {
    |p.view|
  }

  /** The chart shown on the page for the given last seven days (index 0 is today). */
  function PageHistogram(p: Page, days: seq<Day>): seq<Bucket>
    requires |days| == DAYS
  {
    Histogram(p.initial, days)
  }

  /** Events that only rearrange or filter what is on screen. */
  predicate ViewOnly(es: seq<Event>) {
    forall i :: 0 <= i < |es| ==> !es[i].Fetched? && !es[i].Typed?
  }

  lemma {:induction false} RunAppend(p: Page, es: seq<Event>, fs: seq<Event>)
    ensures Run(p, es + fs) == Run(Run(p, es), fs)
    decreases |es|
  {
    if |es| > 0 {
      assert (es + fs)[0] == es[0] && (es + fs)[1..] == es[1..] + fs;
      RunAppend(Step(p, es[0]), es[1..], fs);
    } else {
      assert es + fs == fs;
    }
  }

  /** Searches, sorts and clears leave the batch and the query as they were. */
  lemma {:induction false} ViewOnlyKeepsBatchAndQuery(p: Page, es: seq<Event>)
    requires ViewOnly(es)
    ensures Run(p, es).initial == p.initial
    ensures Run(p, es).search == p.search
    decreases |es|
  {
    if |es| > 0 {
      assert ViewOnly(es[1..]) by {
        forall i | 0 <= i < |es[1..]| ensures !es[1..][i].Fetched? && !es[1..][i].Typed? {
          assert es[1..][i] == es[i + 1];
        }
      }
      ViewOnlyKeepsBatchAndQuery(Step(p, es[0]), es[1..]);
    }
  }

  /** Both searches read the batch, never the screen: after any searches, sorts and
      clears, a search shows exactly what it would have shown right away. */
  lemma SearchReadsOnlyBatch(p: Page, es: seq<Event>)
    requires ViewOnly(es)
    ensures Run(p, es + [Search]).view == SearchCargos(p.initial, p.search)
    ensures Run(p, es + [SearchByDateTo]).view == SearchCargosByDateTo(p.initial, p.search)
  {
    ViewOnlyKeepsBatchAndQuery(p, es);
    RunAppend(p, es, [Search]);
    RunAppend(p, es, [SearchByDateTo]);
  }

  /** Pressing a search button twice shows what pressing it once shows. */
  lemma SearchTwice(p: Page)
    ensures Step(Step(p, Search), Search) == Step(p, Search)
    ensures Step(Step(p, SearchByDateTo), SearchByDateTo) == Step(p, SearchByDateTo)
  {
  }

  /** After any searches, sorts and clears, "X" shows the batch in the order it was
      fetched, and the count is the batch size. */
  lemma ClearRestoresBatch(p: Page, es: seq<Event>)
    requires ViewOnly(es)
    ensures Run(p, es + [Clear]).view == p.initial
    ensures ViewCount(Run(p, es + [Clear])) == |p.initial|
  {
    ViewOnlyKeepsBatchAndQuery(p, es);
    RunAppend(p, es, [Clear]);
  }

  /** With a blank search box both searches show the whole batch, as "X" does. */
  lemma EmptySearchIsClear(p: Page)
    requires p.search == ""
    ensures Step(p, Search) == Step(p, Clear)
    ensures Step(p, SearchByDateTo) == Step(p, Clear)
  {
    EmptyQueryKeepsBatch(p.initial);
  }

  /** The arrival-date search never shows a record the multi-field search would hide. */
  lemma ByDateToShowsLess(p: Page)
    ensures IsSubsequence(Step(p, SearchByDateTo).view, Step(p, Search).view)
  {
    ByDateToWithinSearch(p.initial, p.search);
  }

  /** Clicking the same header twice in a row leaves the screen as one click does. */
  lemma SortTwice(p: Page, f: Field)
    ensures Step(Step(p, Sort(f)), Sort(f)) == Step(p, Sort(f))
  {
    SortIdempotent(p.view, f);
  }

  /** From mount on, every record on screen is a record of the batch, so the count
      never exceeds the batch size. */
  lemma {:induction false} RunKeepsViewFromBatch(p: Page, es: seq<Event>)
    requires ViewFromBatch(p)
    ensures ViewFromBatch(Run(p, es))
    decreases |es|
  {
    if |es| > 0 {
      RunKeepsViewFromBatch(Step(p, es[0]), es[1..]);
    }
  }

  lemma ReachableViewFromBatch(es: seq<Event>)
    ensures ViewFromBatch(Run(Mounted, es))
    ensures ViewCount(Run(Mounted, es)) <= |Run(Mounted, es).initial|
  {
    RunKeepsViewFromBatch(Mounted, es);
    var p := Run(Mounted, es);
    SubMultisetSize(multiset(p.view), multiset(p.initial));
  }

  /** The chart is recomputed only when the batch changes: searches, sorts, clears and
      typing leave it as it was. */
  lemma {:induction false} ChartFollowsBatchOnly(p: Page, es: seq<Event>, days: seq<Day>)
    requires |days| == DAYS
    requires forall i :: 0 <= i < |es| ==> !es[i].Fetched?
    ensures PageHistogram(Run(p, es), days) == PageHistogram(p, days)
    decreases |es|
  {
    if |es| > 0 {
      assert forall i :: 0 <= i < |es[1..]| ==> es[1..][i] == es[i + 1];
      ChartFollowsBatchOnly(Step(p, es[0]), es[1..], days);
    }
  }
}
