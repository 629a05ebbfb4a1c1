/**
 The cargo record and the page's two search filters. Both filters start from the
 fetched batch, never from the list currently on screen.
 */
module Cargos {
  import opened Strings
  import opened Seqs

  /** One shipment as the backend sends it. Dates are `YYYY-MM-DD` text, never parsed. */
  datatype Cargo = Cargo(
    id: int,
    name: string,
    content: string,
    cityFrom: string,
    cityTo: string,
    dateFrom: string,
    dateTo: string)

  /** The six text columns: each is a table header the user can sort by, and each is
      searched by the multi-field filter. */
  datatype Field = Name | Content | CityFrom | CityTo | DateFrom | DateTo

  /** `cargo[field]`. */
  function Key(c: Cargo, f: Field): string {
    match f
    case Name => c.name
    case Content => c.content
    case CityFrom => c.cityFrom
    case CityTo => c.cityTo
    case DateFrom => c.dateFrom
    case DateTo => c.dateTo
  }

  /** The predicate the multi-field search hands to `filter`. */
  predicate MatchesAny(c: Cargo, q: string) {
    || Includes(c.name, q)
    || Includes(c.content, q)
    || Includes(c.cityFrom, q)
    || Includes(c.cityTo, q)
    || Includes(c.dateFrom, q)
    || Includes(c.dateTo, q)
  }

  /** The arrival-date search's predicate. */
  predicate ArrivalMatches(c: Cargo, q: string) {
    Includes(c.dateTo, q)
  }

  /** The two predicates as the values handed to `filter`. */
  function AnyFieldFilter(q: string): Cargo -> bool {
    c => MatchesAny(c, q)
  }

  function ArrivalFilter(q: string): Cargo -> bool {
    c => ArrivalMatches(c, q)
  }

  /** What the multi-field search promises: the query is a substring of some text field. */
  ghost predicate MentionsQuery(c: Cargo, q: string) {
    exists f :: IsSubstring(q, Key(c, f))
  }

  lemma MatchesAnyIsMentionsQuery(c: Cargo, q: string)
    ensures MatchesAny(c, q) <==> MentionsQuery(c, q)
  {
    IncludesIsSubstring(c.name, q);
    IncludesIsSubstring(c.content, q);
    IncludesIsSubstring(c.cityFrom, q);
    IncludesIsSubstring(c.cityTo, q);
    IncludesIsSubstring(c.dateFrom, q);
    IncludesIsSubstring(c.dateTo, q);
    if MatchesAny(c, q) {
      if Includes(c.name, q) {
        assert IsSubstring(q, Key(c, Name));
      } else if Includes(c.content, q) {
        assert IsSubstring(q, Key(c, Content));
      } else if Includes(c.cityFrom, q) {
        assert IsSubstring(q, Key(c, CityFrom));
      } else if Includes(c.cityTo, q) {
        assert IsSubstring(q, Key(c, CityTo));
      } else if Includes(c.dateFrom, q) {
        assert IsSubstring(q, Key(c, DateFrom));
      } else {
        assert IsSubstring(q, Key(c, DateTo));
      }
    }
    if MentionsQuery(c, q) {
      var f :| IsSubstring(q, Key(c, f));
      match f
      case Name =>
      case Content =>
      case CityFrom =>
      case CityTo =>
      case DateFrom =>
      case DateTo =>
    }
  }

  /** The "search" button: the records of the batch in which at least one of the six
      text fields contains the query, in batch order. */
  function SearchCargos(initial: seq<Cargo>, q: string): (r: seq<Cargo>)
    ensures |r| <= |initial|
    ensures IsSubsequence(r, initial)
    ensures forall c :: c in r <==> c in initial && MentionsQuery(c, q)
    ensures forall c :: multiset(r)[c] == if MentionsQuery(c, q) then multiset(initial)[c] else 0
  {
    forall c: Cargo ensures MatchesAny(c, q) <==> MentionsQuery(c, q) {
      MatchesAnyIsMentionsQuery(c, q);
    }
    FilterProperties(initial, AnyFieldFilter(q));
    Filter(initial, AnyFieldFilter(q))
  }

  /** The "search by arrival date" button: the records whose arrival date contains the
      query, in batch order. */
  function SearchCargosByDateTo(initial: seq<Cargo>, q: string): (r: seq<Cargo>)
    ensures |r| <= |initial|
    ensures IsSubsequence(r, initial)
    ensures forall c :: c in r <==> c in initial && IsSubstring(q, c.dateTo)
    ensures forall c :: multiset(r)[c] == if IsSubstring(q, c.dateTo) then multiset(initial)[c] else 0
  {
    forall c: Cargo ensures Includes(c.dateTo, q) <==> IsSubstring(q, c.dateTo) {
      IncludesIsSubstring(c.dateTo, q);
    }
    FilterProperties(initial, ArrivalFilter(q));
    Filter(initial, ArrivalFilter(q))
  }

  /** An empty query keeps the whole batch, in its order. */
  lemma EmptyQueryKeepsBatch(initial: seq<Cargo>)
    ensures SearchCargos(initial, "") == initial
    ensures SearchCargosByDateTo(initial, "") == initial
  {
    FilterKeepsAll(initial, AnyFieldFilter(""));
    FilterKeepsAll(initial, ArrivalFilter(""));
  }

  /** The arrival-date search keeps an order-preserving subsequence of what the
      multi-field search keeps for the same query. */
  lemma ByDateToWithinSearch(initial: seq<Cargo>, q: string)
    ensures IsSubsequence(SearchCargosByDateTo(initial, q), SearchCargos(initial, q))
  {
    FilterStronger(initial, ArrivalFilter(q), AnyFieldFilter(q));
  }
}
