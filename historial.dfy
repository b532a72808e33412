/**
 * The history page (`src/app/admin/historial/page.tsx`): the search over the
 * finished and archived raffles, and the choice between the "Cancelada" badge
 * and the winner section on each card.
 */
module History {
  import opened Common
  import opened Text
  import opened Store

  /**
   * The search predicate of `filteredRaffles`: the lower-cased prize name contains
   * the lower-cased term, or the raffle has a winner name whose lower-cased form
   * contains it (`ganador_nombre?.` on a missing name is `undefined`, which is falsy).
   */
  predicate HistoryMatches(r: Raffle, term: string)
  {
    || Contains(Lower(r.nombre), Lower(term))
    || (r.ganador_nombre.Some? && Contains(Lower(r.ganador_nombre.value), Lower(term)))
  }

  function HistoryFilter(term: string): Raffle -> bool
  {
    (r: Raffle) => HistoryMatches(r, term)
  }

  /** `filteredRaffles`: the loaded raffles that match the term, in the loaded order. */
  function FilterHistory(rs: seq<Raffle>, term: string): (r: seq<Raffle>)
    ensures |r| <= |rs|
    ensures forall i :: 0 <= i < |r| ==> HistoryMatches(r[i], term)
  {
    Filter(rs, HistoryFilter(term))
  }

  /** A raffle is listed iff it is loaded and matches the term. */
  lemma FilterHistoryMembers(rs: seq<Raffle>, term: string, r: Raffle)
    ensures r in FilterHistory(rs, term) <==> r in rs && HistoryMatches(r, term)
  {
    FilterMembers(rs, HistoryFilter(term), r);
  }

  /** A raffle without a winner name is listed through its prize name only. */
  lemma NoWinnerMatchesOnName(rs: seq<Raffle>, r: Raffle, term: string)
    requires r.ganador_nombre.None?
    ensures r in FilterHistory(rs, term) <==> r in rs && Contains(Lower(r.nombre), Lower(term))
  {
    FilterHistoryMembers(rs, term, r);
  }

  /** An empty search box lists every loaded raffle. */
  lemma EmptyHistorySearchKeepsAll(rs: seq<Raffle>)
    ensures FilterHistory(rs, "") == rs
  {
    forall i | 0 <= i < |rs| ensures HistoryFilter("")(rs[i]) {
      ContainsEmpty(Lower(rs[i].nombre));
    }
    FilterKeepsAll(rs, HistoryFilter(""));
  }

  /** The search splits over a concatenation, so it keeps the loaded order. */
  lemma HistorySearchKeepsOrder(a: seq<Raffle>, b: seq<Raffle>, term: string)
    ensures FilterHistory(a + b, term) == FilterHistory(a, term) + FilterHistory(b, term)
  {
    FilterAppend(a, b, HistoryFilter(term));
  }

  /**
   * What the page lists for a store: the historical raffles, newest first, that match
   * the term; each listed raffle is finished or archived and matches.
   */
  lemma HistoryListing(rs: seq<Raffle>, term: string, r: Raffle)
    ensures r in FilterHistory(HistoricalRaffles(rs), term) <==>
      r in rs && (r.estado == Finalizada || r.estado == Archivada) && HistoryMatches(r, term)
  {
    FilterHistoryMembers(HistoricalRaffles(rs), term, r);
    HistoricalMembers(rs, r);
  }

  /**
   * The case-insensitive comparison loses nothing: a raffle whose prize name, or
   * whose winner's name, contains the term exactly as typed always matches.
   */
  lemma HistorySearchFindsLiteral(r: Raffle, term: string)
    requires Contains(r.nombre, term) || (r.ganador_nombre.Some? && Contains(r.ganador_nombre.value, term))
    ensures HistoryMatches(r, term)
  {
    if Contains(r.nombre, term) {
      ContainsLower(r.nombre, term);
    } else {
      ContainsLower(r.ganador_nombre.value, term);
    }
  }

  /** The card shows the red "Cancelada" badge instead of "Finalizada". */
  predicate IsCancelled(r: Raffle)
  {
    r.ganador_nombre == Some(CancelledName)
  }

  /** The "Gran Ganador" section shows exactly when the card is not cancelled. */
  function ShowsWinnerSection(r: Raffle): (b: bool)
    ensures b <==> r.ganador_nombre != Some(CancelledName)
  {
    !IsCancelled(r)
  }

  /**
   * The raffle `finalizeRaffle` closes is listed in the history; it shows its winner
   * section unless the winner's name is literally "Cancelada".
   */
  lemma ClosedRaffleDisplay(rs: seq<Raffle>, ticket: int, name: string)
    requires ActiveRaffle(rs).Some?
    ensures var i := NewestIndex(rs, Activa).value;
      && Finalized(rs, ticket, name)[i] in HistoricalRaffles(Finalized(rs, ticket, name))
      && (IsCancelled(Finalized(rs, ticket, name)[i]) <==> name == CancelledName)
      && (ShowsWinnerSection(Finalized(rs, ticket, name)[i]) <==> name != CancelledName)
  {
    var i := NewestIndex(rs, Activa).value;
    var fs := Finalized(rs, ticket, name);
    assert fs[i].estado == Finalizada;
    HistoricalMembers(fs, fs[i]);
  }

  /** The raffle `resetStore` closes is listed in the history as cancelled, without a winner section. */
  lemma ResetRaffleDisplay(rs: seq<Raffle>)
    requires ActiveRaffle(rs).Some?
    ensures var i := NewestIndex(rs, Activa).value;
      var cancelled := rs[i].(estado := Finalizada, ganador_nombre := Some(CancelledName));
      && rs[i := cancelled][i] in HistoricalRaffles(rs[i := cancelled])
      && IsCancelled(rs[i := cancelled][i])
      && !ShowsWinnerSection(rs[i := cancelled][i])
  {
    var i := NewestIndex(rs, Activa).value;
    var cancelled := rs[i].(estado := Finalizada, ganador_nombre := Some(CancelledName));
    HistoricalMembers(rs[i := cancelled], cancelled);
  }
}
