/**
 * The elimination draw of the admin "sorteo" page (`src/app/admin/sorteo/page.tsx`).
 *
 * The wheel shows one slice per sold ticket not yet eliminated, sorted by number.
 * Each spin picks a slice; the spin wins when the attempt counter has reached the
 * raffle's `giro_ganador` or only one slice is left, and otherwise eliminates the
 * ticket and moves on to the next attempt. The `setTimeout` chain of a spin is a
 * sequence of discrete steps driven by the `timer` field; the random choice is an
 * input of `DrawClick`.
 */
module Draw {
  import opened Common
  import opened Store

  /** A slice of the wheel: a ticket and the name of its owner. */
  datatype Card = Card(boleto: int, nombre: string)

  /** The callback a spin has scheduled and not yet run. */
  datatype Timer =
    | NoTimer
      /** After 4 s the wheel stops on `card`; `intento` and `n` are the values the click saw. */
    | SpinTimer(card: Card, intento: int, n: nat)
      /** After 2 s showing "al agua", `card` is eliminated. */
    | EliminationTimer(card: Card)
      /** After 50 ms the wheel, back at 0, accepts the next spin. */
    | ResetTimer

  // ------------------------------------------------------------------ slices

  /** The inner `forEach`: one participant's tickets that are not eliminated, in order. */
  function CardsOf(nombre: string, bs: seq<int>, eliminated: seq<int>): seq<Card>
  {
    if bs == [] then []
    else CardsOf(nombre, bs[..|bs| - 1], eliminated)
         + (if bs[|bs| - 1] in eliminated then [] else [Card(bs[|bs| - 1], nombre)])
  }

  /** The `details` array that the nested `forEach` loops of `getSliceDetails` push into. */
  function CollectSlices(ps: seq<Participant>, eliminated: seq<int>): seq<Card>
  {
    if ps == [] then []
    else CollectSlices(ps[..|ps| - 1], eliminated)
         + CardsOf(ps[|ps| - 1].nombre, ps[|ps| - 1].boletos, eliminated)
  }

  predicate SortedByBoleto(cs: seq<Card>)
  {
    forall i, j :: 0 <= i < j < |cs| ==> cs[i].boleto <= cs[j].boleto
  }

  /** Places `c` after every card whose number is not larger: the step of a stable sort. */
  function InsertCard(sorted: seq<Card>, c: Card): seq<Card>
  {
    if sorted == [] then [c]
    else if sorted[|sorted| - 1].boleto <= c.boleto then sorted + [c]
    else InsertCard(sorted[..|sorted| - 1], c) + [sorted[|sorted| - 1]]
  }

  /** Inserting keeps every card and adds `c`. */
  lemma {:induction false} InsertCardCount(sorted: seq<Card>, c: Card)
    ensures multiset(InsertCard(sorted, c)) == multiset(sorted) + multiset{c}
  {
    if sorted != [] && sorted[|sorted| - 1].boleto > c.boleto {
      var init := sorted[..|sorted| - 1];
      assert sorted == init + [sorted[|sorted| - 1]];
      InsertCardCount(init, c);
    }
  }

  /** Inserting a card no larger than `m` among cards no larger than `m` yields cards no larger than `m`. */
  lemma {:induction false} InsertCardBelow(sorted: seq<Card>, c: Card, m: int)
    requires forall i :: 0 <= i < |sorted| ==> sorted[i].boleto <= m
    requires c.boleto <= m
    ensures forall i :: 0 <= i < |InsertCard(sorted, c)| ==> InsertCard(sorted, c)[i].boleto <= m
  {
    if sorted != [] && sorted[|sorted| - 1].boleto > c.boleto {
      InsertCardBelow(sorted[..|sorted| - 1], c, m);
    }
  }

  lemma {:induction false} InsertCardSorted(sorted: seq<Card>, c: Card)
    requires SortedByBoleto(sorted)
    ensures SortedByBoleto(InsertCard(sorted, c))
    ensures multiset(InsertCard(sorted, c)) == multiset(sorted) + multiset{c}
  {
    InsertCardCount(sorted, c);
    if sorted != [] && sorted[|sorted| - 1].boleto > c.boleto {
      var init := sorted[..|sorted| - 1];
      InsertCardSorted(init, c);
      InsertCardBelow(init, c, sorted[|sorted| - 1].boleto);
    }
  }

  /** `details.sort((a, b) => a.boleto - b.boleto)`, a stable sort by ticket number. */
  function SortByBoleto(cs: seq<Card>): seq<Card>
  {
    if cs == [] then [] else InsertCard(SortByBoleto(cs[..|cs| - 1]), cs[|cs| - 1])
  }

  /** The sort keeps every card, as often as it occurs. */
  lemma {:induction false} SortByBoletoCount(cs: seq<Card>)
    ensures multiset(SortByBoleto(cs)) == multiset(cs)
  {
    if cs != [] {
      var init, last := cs[..|cs| - 1], cs[|cs| - 1];
      var sorted := SortByBoleto(init);
      assert cs == init + [last];
      calc {
        multiset(SortByBoleto(cs));
        multiset(InsertCard(sorted, last));
        { InsertCardCount(sorted, last); }
        multiset(sorted) + multiset{last};
        { SortByBoletoCount(init); }
        multiset(init) + multiset{last};
        multiset(init + [last]);
      }
    }
  }

  /** The sort orders the cards by ticket number. */
  lemma {:induction false} SortByBoletoOrdered(cs: seq<Card>)
    ensures SortedByBoleto(SortByBoleto(cs))
  {
    if cs != [] {
      var init := cs[..|cs| - 1];
      SortByBoletoOrdered(init);
      InsertCardSorted(SortByBoleto(init), cs[|cs| - 1]);
    }
  }

  /** The sort orders the cards by ticket number and keeps every card: a sorted permutation. */
  lemma SortByBoletoSorts(cs: seq<Card>)
    ensures SortedByBoleto(SortByBoleto(cs))
    ensures multiset(SortByBoleto(cs)) == multiset(cs)
  {
    SortByBoletoOrdered(cs);
    SortByBoletoCount(cs);
  }

  /** The slices of the wheel for the given participants and eliminated tickets. */
  function Slices(ps: seq<Participant>, eliminated: seq<int>): seq<Card>
  {
    SortByBoleto(CollectSlices(ps, eliminated))
  }

  /** `c` is a slice: a ticket of some participant, named after that participant, not eliminated. */
  ghost predicate IsSlice(ps: seq<Participant>, eliminated: seq<int>, c: Card)
  {
    c.boleto !in eliminated && exists i :: 0 <= i < |ps| && c.boleto in ps[i].boletos && c.nombre == ps[i].nombre
  }

  lemma {:induction false} CardsOfMembership(nombre: string, bs: seq<int>, eliminated: seq<int>, c: Card)
    ensures c in CardsOf(nombre, bs, eliminated) <==> c.boleto in bs && c.boleto !in eliminated && c.nombre == nombre
  {
    if bs != [] {
      CardsOfMembership(nombre, bs[..|bs| - 1], eliminated, c);
      assert bs == bs[..|bs| - 1] + [bs[|bs| - 1]];
    }
  }

  lemma {:induction false} CollectSlicesMembership(ps: seq<Participant>, eliminated: seq<int>, c: Card)
    ensures c in CollectSlices(ps, eliminated) <==> IsSlice(ps, eliminated, c)
  {
    if ps != [] {
      var init := ps[..|ps| - 1];
      var last := ps[|ps| - 1];
      CollectSlicesMembership(init, eliminated, c);
      CardsOfMembership(last.nombre, last.boletos, eliminated, c);
      if IsSlice(init, eliminated, c) {
        var i :| 0 <= i < |init| && c.boleto in init[i].boletos && c.nombre == init[i].nombre;
        assert ps[i] == init[i];
      }
      if IsSlice(ps, eliminated, c) {
        var i :| 0 <= i < |ps| && c.boleto in ps[i].boletos && c.nombre == ps[i].nombre;
        if i < |ps| - 1 {
          assert init[i] == ps[i];
        }
      }
    }
  }

  /**
   * The wheel holds exactly the sold tickets that are not eliminated, each with
   * its owner's name, in ascending order of ticket number.
   */
  lemma SlicesExactly(ps: seq<Participant>, eliminated: seq<int>, c: Card)
    ensures c in Slices(ps, eliminated) <==> IsSlice(ps, eliminated, c)
    ensures SortedByBoleto(Slices(ps, eliminated))
    ensures |Slices(ps, eliminated)| == |CollectSlices(ps, eliminated)|
  {
    var cs := CollectSlices(ps, eliminated);
    CollectSlicesMembership(ps, eliminated, c);
    SortByBoletoSorts(cs);
    assert c in Slices(ps, eliminated) <==> c in multiset(Slices(ps, eliminated));
    assert c in cs <==> c in multiset(cs);
    assert |multiset(Slices(ps, eliminated))| == |multiset(cs)|;
  }

  /** No card on the wheel carries an eliminated ticket. */
  lemma SliceNotEliminated(ps: seq<Participant>, eliminated: seq<int>, c: Card)
    requires c in Slices(ps, eliminated)
    ensures c.boleto !in eliminated
  {
    SlicesExactly(ps, eliminated, c);
  }

  /** The tickets on the wheel are the taken tickets minus the eliminated ones. */
  lemma SliceTickets(ps: seq<Participant>, eliminated: seq<int>, b: int)
    ensures (exists c :: c in Slices(ps, eliminated) && c.boleto == b) <==> b in FlatTickets(ps) && b !in eliminated
  {
    FlatTicketsOwned(ps, b);
    if exists c :: c in Slices(ps, eliminated) && c.boleto == b {
      var c :| c in Slices(ps, eliminated) && c.boleto == b;
      SlicesExactly(ps, eliminated, c);
    }
    if b in FlatTickets(ps) && b !in eliminated {
      var i :| 0 <= i < |ps| && b in ps[i].boletos;
      SlicesExactly(ps, eliminated, Card(b, ps[i].nombre));
    }
  }

  /** A filter that drops some element is strictly shorter. */
  lemma {:induction false} FilterDropsOne<T>(s: seq<T>, f: T -> bool, k: nat)
    requires k < |s| && !f(s[k])
    ensures |Filter(s, f)| < |s|
  {
    if k > 0 {
      FilterDropsOne(s[1..], f, k - 1);
    }
  }

  function NotTicket(t: int): Card -> bool
  {
    (c: Card) => c.boleto != t
  }

  lemma {:induction false} CardsOfEliminate(nombre: string, bs: seq<int>, eliminated: seq<int>, t: int)
    ensures CardsOf(nombre, bs, eliminated + [t]) == Filter(CardsOf(nombre, bs, eliminated), NotTicket(t))
  {
    if bs != [] {
      var init := bs[..|bs| - 1];
      var b := bs[|bs| - 1];
      CardsOfEliminate(nombre, init, eliminated, t);
      var tail := if b in eliminated then [] else [Card(b, nombre)];
      FilterAppend(CardsOf(nombre, init, eliminated), tail, NotTicket(t));
      if tail != [] {
        assert Filter(tail, NotTicket(t)) == (if b == t then [] else tail) by {
          assert tail[1..] == [];
        }
      }
    }
  }

  /** Eliminating ticket `t` removes exactly the slices of `t`, keeping the others in order. */
  lemma {:induction false} CollectEliminate(ps: seq<Participant>, eliminated: seq<int>, t: int)
    ensures CollectSlices(ps, eliminated + [t]) == Filter(CollectSlices(ps, eliminated), NotTicket(t))
  {
    if ps != [] {
      var last := ps[|ps| - 1];
      CollectEliminate(ps[..|ps| - 1], eliminated, t);
      CardsOfEliminate(last.nombre, last.boletos, eliminated, t);
      FilterAppend(CollectSlices(ps[..|ps| - 1], eliminated),
                   CardsOf(last.nombre, last.boletos, eliminated), NotTicket(t));
    }
  }

  /** Eliminating a ticket on the wheel makes the wheel strictly smaller. */
  lemma EliminationShrinks(ps: seq<Participant>, eliminated: seq<int>, c: Card)
    requires c in Slices(ps, eliminated)
    ensures |Slices(ps, eliminated + [c.boleto])| < |Slices(ps, eliminated)|
    ensures forall d :: d in Slices(ps, eliminated + [c.boleto]) <==> d in Slices(ps, eliminated) && d.boleto != c.boleto
  {
    var cs := CollectSlices(ps, eliminated);
    SlicesExactly(ps, eliminated, c);
    SlicesExactly(ps, eliminated + [c.boleto], c);
    CollectSlicesMembership(ps, eliminated, c);
    var k :| 0 <= k < |cs| && cs[k] == c;
    CollectEliminate(ps, eliminated, c.boleto);
    FilterDropsOne(cs, NotTicket(c.boleto), k);
    forall d ensures d in Slices(ps, eliminated + [c.boleto]) <==> d in Slices(ps, eliminated) && d.boleto != c.boleto {
      SlicesExactly(ps, eliminated, d);
      SlicesExactly(ps, eliminated + [c.boleto], d);
    }
  }

  // ------------------------------------------------------------------ progress of the draw

  /** The test of the stopped wheel: attempt `intento` on a wheel of `n` slices wins. */
  predicate SpinWins(intento: int, giro: int, n: nat)
  {
    intento >= giro || n == 1
  }

  /** `!eliminatedTickets.includes(b)`, the test of the inner `forEach`. */
  function NotIn(eliminated: seq<int>): int -> bool
  {
    (b: int) => b !in eliminated
  }

  lemma {:induction false} CardsOfLength(nombre: string, bs: seq<int>, eliminated: seq<int>)
    ensures |CardsOf(nombre, bs, eliminated)| == |Filter(bs, NotIn(eliminated))|
  {
    if bs != [] {
      var init, last := bs[..|bs| - 1], bs[|bs| - 1];
      CardsOfLength(nombre, init, eliminated);
      assert bs == init + [last];
      FilterAppend(init, [last], NotIn(eliminated));
      assert [last][1..] == [];
    }
  }

  lemma {:induction false} CollectSlicesLength(ps: seq<Participant>, eliminated: seq<int>)
    ensures |CollectSlices(ps, eliminated)| == |Filter(FlatTickets(ps), NotIn(eliminated))|
  {
    if ps != [] {
      var init, last := ps[..|ps| - 1], ps[|ps| - 1];
      CollectSlicesLength(init, eliminated);
      CardsOfLength(last.nombre, last.boletos, eliminated);
      FilterAppend(FlatTickets(init), last.boletos, NotIn(eliminated));
    }
  }

  /**
   * When no ticket is sold twice and the eliminated tickets are distinct sold
   * tickets, the wheel has one slice per sold ticket not yet eliminated.
   */
  lemma DistinctWheelSize(ps: seq<Participant>, eliminated: seq<int>)
    requires Distinct(FlatTickets(ps)) && Distinct(eliminated)
    requires forall k :: 0 <= k < |eliminated| ==> eliminated[k] in FlatTickets(ps)
    ensures |Slices(ps, eliminated)| == |FlatTickets(ps)| - |eliminated|
  {
    var flat := FlatTickets(ps);
    var kept := Filter(flat, NotIn(eliminated));
    SlicesExactly(ps, eliminated, Card(0, ""));
    CollectSlicesLength(ps, eliminated);
    FilterDistinct(flat, NotIn(eliminated));
    DistinctElements(kept);
    DistinctElements(flat);
    DistinctElements(eliminated);
    assert Elements(kept) == Elements(flat) - Elements(eliminated) by {
      forall x ensures x in Elements(kept) <==> x in Elements(flat) - Elements(eliminated) {
        FilterMembers(flat, NotIn(eliminated), x);
      }
    }
    assert Elements(flat) == Elements(kept) + Elements(eliminated);
  }

  /**
   * With no ticket sold twice, a spin that does not win leaves at least one slice
   * after its elimination, and the eliminated count stays below both `giro_ganador`
   * and the number of sold tickets: the draw reaches a winning spin after at most
   * min(giro_ganador, sold tickets) - 1 eliminations.
   */
  lemma DistinctDrawProgress(ps: seq<Participant>, eliminated: seq<int>, giro: int, c: Card)
    requires Distinct(FlatTickets(ps)) && Distinct(eliminated)
    requires forall k :: 0 <= k < |eliminated| ==> eliminated[k] in FlatTickets(ps)
    requires c in Slices(ps, eliminated)
    requires !SpinWins(|eliminated| + 1, giro, |Slices(ps, eliminated)|)
    ensures |Slices(ps, eliminated + [c.boleto])| == |Slices(ps, eliminated)| - 1 >= 1
    ensures |eliminated + [c.boleto]| < giro && |eliminated + [c.boleto]| < |FlatTickets(ps)|
    ensures Distinct(eliminated + [c.boleto])
    ensures forall k :: 0 <= k < |eliminated| + 1 ==> (eliminated + [c.boleto])[k] in FlatTickets(ps)
  {
    var next := eliminated + [c.boleto];
    SlicesExactly(ps, eliminated, c);
    SliceTickets(ps, eliminated, c.boleto);
    assert Distinct(next);
    DistinctWheelSize(ps, eliminated);
    DistinctWheelSize(ps, next);
  }

  /**
   * As written, one participant holding number 5 twice (a request "5,5" passes the
   * registration's check) puts two slices on the wheel; with `giro_ganador` 3 the
   * first spin does not win, and eliminating 5 empties the wheel, on which every
   * later click returns at once: no winner is ever drawn.
   */
  lemma RepeatedTicketStallsDraw(nombre: string)
    ensures var ps := [Participant(1, 1, nombre, "", [5, 5], Pagado, "")];
      && Slices(ps, []) == [Card(5, nombre), Card(5, nombre)]
      && !SpinWins(1, 3, |Slices(ps, [])|)
      && Slices(ps, [5]) == []
  {
    var ps := [Participant(1, 1, nombre, "", [5, 5], Pagado, "")];
    var c := Card(5, nombre);
    calc {
      CollectSlices(ps, []);
      { assert ps[..0] == []; }
      CardsOf(nombre, [5, 5], []);
      { assert [5, 5][..1] == [5]; }
      CardsOf(nombre, [5], []) + [c];
      { assert [5][..0] == []; }
      [c, c];
    }
    calc {
      SortByBoleto([c, c]);
      { assert [c, c][..1] == [c]; }
      InsertCard(SortByBoleto([c]), c);
      { assert [c][..0] == []; }
      InsertCard([c], c);
      [c, c];
    }
    calc {
      CollectSlices(ps, [5]);
      { assert ps[..0] == []; }
      CardsOf(nombre, [5, 5], [5]);
      { assert [5, 5][..1] == [5]; }
      CardsOf(nombre, [5], [5]);
      { assert [5][..0] == []; }
      [];
    }
  }

  /** `Math.floor(Math.random() * N)`: an index into a wheel of `n` slices. */
  function TargetIndex(rand: real, n: nat): (k: nat)
    requires 0.0 <= rand < 1.0 && n > 0
    ensures k < n
  {
    var x := rand * n as real;
    assert 0.0 <= x < n as real by {
      assert (1.0 - rand) * n as real > 0.0;
    }
    x.Floor
  }

  /** The winner a freshly loaded raffle already has: a finished raffle with a (truthy) winning ticket. */
  function LoadedWinner(raffle: Option<Raffle>): (w: Option<Card>)
    ensures w.Some? <==> raffle.Some? && raffle.value.estado == Finalizada
                         && raffle.value.ganador_boleto.Some? && raffle.value.ganador_boleto.value != 0
    ensures w.Some? ==> w.value == Card(raffle.value.ganador_boleto.value, OrAnonymous(raffle.value.ganador_nombre))
  {
    if raffle.Some? && raffle.value.estado == Finalizada && raffle.value.ganador_boleto.Some?
       && raffle.value.ganador_boleto.value != 0
    then Some(Card(raffle.value.ganador_boleto.value, OrAnonymous(raffle.value.ganador_nombre)))
    else None
  }

  /**
   * The page loads through `getActiveRaffle`, which only returns an 'activa' raffle,
   * so a finished raffle's winner is never restored on load.
   */
  lemma LoadNeverFinished(rs: seq<Raffle>)
    ensures LoadedWinner(ActiveRaffle(rs)).None?
  {
  }

  // ------------------------------------------------------------------ the page state

  class DrawPage {
    var activeRaffle: Option<Raffle>
    var participants: seq<Participant>
    var isDrawing: bool
    var currentIntento: int
    var eliminatedTickets: seq<int>
    var winner: Option<Card>
    var isFinished: bool
    var spunCard: Option<Card>
    var isResetting: bool
    var timer: Timer

    /** The wheel as the page renders it now. */
    ghost function Remaining(): seq<Card>
      reads this
    {
      Slices(participants, eliminatedTickets)
    }

    ghost predicate Valid()
      reads this
    {
      && currentIntento == |eliminatedTickets| + 1
      && Distinct(eliminatedTickets)
      && (forall k :: 0 <= k < |eliminatedTickets| ==> eliminatedTickets[k] in FlatTickets(participants))
      && (activeRaffle.None? ==> eliminatedTickets == [] && timer == NoTimer && winner.None?)
      && (activeRaffle.Some? && eliminatedTickets != [] ==> |eliminatedTickets| < activeRaffle.value.giro_ganador)
      && (winner.Some? <==> isFinished)
      && (winner.Some? ==> winner.value.boleto !in eliminatedTickets)
      && (isFinished ==> timer == NoTimer)
      && (timer.NoTimer? ==> !isDrawing && !isResetting && spunCard.None?)
      && (timer.SpinTimer? ==>
            && isDrawing && !isResetting && spunCard.None? && activeRaffle.Some?
            && timer.intento == currentIntento && timer.n == |Remaining()| && timer.card in Remaining())
      && (timer.EliminationTimer? ==>
            && isDrawing && !isResetting && spunCard == Some(timer.card) && activeRaffle.Some?
            && timer.card in Remaining() && |Remaining()| > 1
            && currentIntento < activeRaffle.value.giro_ganador)
      && (timer.ResetTimer? ==> isDrawing && isResetting && spunCard.Some?)
    }

    /** Mounting the page: the initial draw state, then `loadData` from the store. */
    constructor Mount(store: RaffleStore)
      ensures Valid()
      ensures activeRaffle == ActiveRaffle(store.raffles)
      ensures participants == Participants(store.raffles, store.participants)
      ensures !isDrawing && currentIntento == 1 && eliminatedTickets == [] && timer == NoTimer
      ensures winner == LoadedWinner(activeRaffle) && isFinished == winner.Some?
      ensures !isFinished
    {
      var raffle := ActiveRaffle(store.raffles);
      activeRaffle := raffle;
      participants := if raffle.Some? then Participants(store.raffles, store.participants) else [];
      isDrawing := false;
      currentIntento := 1;
      eliminatedTickets := [];
      spunCard := None;
      isResetting := false;
      timer := NoTimer;
      winner := LoadedWinner(raffle);
      isFinished := LoadedWinner(raffle).Some?;
      LoadNeverFinished(store.raffles);
    }

    /** `getSliceDetails`: the nested loops that collect the cards, then the sort. */
    method GetSliceDetails() returns (details: seq<Card>)
      ensures details == Slices(participants, eliminatedTickets)
    {
      var acc: seq<Card> := [];
      var i := 0;
      while i < |participants|
        invariant 0 <= i <= |participants|
        invariant acc == CollectSlices(participants[..i], eliminatedTickets)
      {
        var p := participants[i];
        var j := 0;
        while j < |p.boletos|
          invariant 0 <= j <= |p.boletos|
          invariant acc == CollectSlices(participants[..i], eliminatedTickets)
                           + CardsOf(p.nombre, p.boletos[..j], eliminatedTickets)
        {
          assert p.boletos[..j + 1][..j] == p.boletos[..j];
          if p.boletos[j] !in eliminatedTickets {
            acc := acc + [Card(p.boletos[j], p.nombre)];
          }
          j := j + 1;
        }
        assert p.boletos[..j] == p.boletos;
        assert participants[..i + 1][..i] == participants[..i];
        i := i + 1;
      }
      assert participants[..i] == participants;
      details := SortByBoleto(acc);
    }

    /**
     * `handleDrawClick` up to its first timer: nothing happens without a raffle,
     * during a spin, after the draw or on an empty wheel; otherwise the wheel spins
     * towards the slice at `Math.floor(rand * N)`.
     */
    method DrawClick(rand: real) returns (started: bool)
      requires Valid() && 0.0 <= rand < 1.0
      modifies this
      ensures Valid()
      ensures started == old(activeRaffle.Some? && !isDrawing && !isFinished && |Remaining()| > 0)
      ensures !started ==> unchanged(this)
      ensures started ==>
        && isDrawing && spunCard.None?
        && timer == SpinTimer(old(Remaining())[TargetIndex(rand, |old(Remaining())|)], currentIntento, |Remaining()|)
        && activeRaffle == old(activeRaffle) && participants == old(participants)
        && eliminatedTickets == old(eliminatedTickets) && currentIntento == old(currentIntento)
        && winner == old(winner) && isFinished == old(isFinished)
    {
      var sliceDetails := GetSliceDetails();
      var n := |sliceDetails|;
      if activeRaffle.None? || isDrawing || isFinished || n == 0 {
        return false;
      }
      isDrawing := true;
      spunCard := None;
      var targetIndex := TargetIndex(rand, n);
      var selectedCard := sliceDetails[targetIndex];
      timer := SpinTimer(selectedCard, currentIntento, n);
      started := true;
    }

    /**
     * The winning branch of the stopped wheel: the spun card becomes the winner,
     * the store finalizes the raffle with it and the draw is over.
     */
    method DeclareWinner(store: RaffleStore)
      requires Valid() && timer.SpinTimer? && store.Valid()
      requires timer.card.boleto !in eliminatedTickets
      modifies this, store
      ensures Valid() && store.Valid()
      ensures winner == Some(old(timer.card)) && isFinished && !isDrawing && timer == NoTimer
      ensures store.raffles == Finalized(old(store.raffles), old(timer.card.boleto), old(timer.card.nombre))
      ensures store.participants == old(store.participants)
      ensures activeRaffle == old(activeRaffle) && participants == old(participants)
      ensures eliminatedTickets == old(eliminatedTickets) && currentIntento == old(currentIntento)
      ensures spunCard == old(spunCard)
    {
      var selectedCard := timer.card;
      var _ := store.FinalizeRaffle(selectedCard.boleto, selectedCard.nombre);
      winner := Some(selectedCard);
      isFinished := true;
      isDrawing := false;
      timer := NoTimer;
    }

    /**
     * The wheel stops (the 4-second timer). The spin wins when the attempt counter
     * has reached `giro_ganador` or the wheel had one slice: the card becomes the
     * winner and the store finalizes the raffle with it, its result unchecked.
     * Otherwise the card is shown as eliminated.
     */
    method SpinSettled(store: RaffleStore) returns (won: bool)
      requires Valid() && timer.SpinTimer? && store.Valid()
      modifies this, store
      ensures Valid() && store.Valid()
      ensures won == (old(timer.intento) >= old(activeRaffle.value.giro_ganador) || old(timer.n) == 1)
      ensures won ==>
        && winner == Some(old(timer.card)) && isFinished && !isDrawing && timer == NoTimer
        && store.raffles == Finalized(old(store.raffles), old(timer.card.boleto), old(timer.card.nombre))
        && store.participants == old(store.participants)
      ensures !won ==>
        && spunCard == Some(old(timer.card)) && timer == EliminationTimer(old(timer.card))
        && winner.None? && !isFinished
        && store.raffles == old(store.raffles) && store.participants == old(store.participants)
      ensures activeRaffle == old(activeRaffle) && participants == old(participants)
      ensures eliminatedTickets == old(eliminatedTickets) && currentIntento == old(currentIntento)
    {
      var selectedCard := timer.card;
      var n := timer.n;
      SliceNotEliminated(participants, eliminatedTickets, selectedCard);
      var isWinningAttempt := timer.intento >= activeRaffle.value.giro_ganador || n == 1;
      if isWinningAttempt {
        DeclareWinner(store);
        won := true;
      } else {
        spunCard := Some(selectedCard);
        timer := EliminationTimer(selectedCard);
        won := false;
      }
    }

    /**
     * The eliminated card has been shown (the 2-second timer): its ticket joins the
     * eliminated list, the attempt counter rises by one and the wheel resets.
     */
    method EliminationShown()
      requires Valid() && timer.EliminationTimer?
      modifies this
      ensures Valid()
      ensures eliminatedTickets == old(eliminatedTickets) + [old(timer.card.boleto)]
      ensures currentIntento == old(currentIntento) + 1
      ensures isDrawing && isResetting && timer == ResetTimer && spunCard == old(spunCard)
      ensures |Remaining()| < |old(Remaining())|
      ensures forall c :: c in Remaining() <==> c in old(Remaining()) && c.boleto != old(timer.card.boleto)
      ensures |eliminatedTickets| < activeRaffle.value.giro_ganador
      ensures Distinct(FlatTickets(participants)) ==> |Remaining()| == |old(Remaining())| - 1 >= 1
      ensures activeRaffle == old(activeRaffle) && participants == old(participants)
      ensures winner == old(winner) && isFinished == old(isFinished)
    {
      var card := timer.card;
      SlicesExactly(participants, eliminatedTickets, card);
      SliceTickets(participants, eliminatedTickets, card.boleto);
      EliminationShrinks(participants, eliminatedTickets, card);
      if Distinct(FlatTickets(participants)) {
        DistinctDrawProgress(participants, eliminatedTickets, activeRaffle.value.giro_ganador, card);
      }
      eliminatedTickets := eliminatedTickets + [card.boleto];
      currentIntento := currentIntento + 1;
      isResetting := true;
      timer := ResetTimer;
    }

    /** The wheel is back at its start (the 50-millisecond timer): the next spin may begin. */
    method ResetDone()
      requires Valid() && timer.ResetTimer?
      modifies this
      ensures Valid()
      ensures !isDrawing && !isResetting && spunCard.None? && timer == NoTimer
      ensures activeRaffle == old(activeRaffle) && participants == old(participants)
      ensures eliminatedTickets == old(eliminatedTickets) && currentIntento == old(currentIntento)
      ensures winner == old(winner) && isFinished == old(isFinished)
    {
      isResetting := false;
      isDrawing := false;
      spunCard := None;
      timer := NoTimer;
    }
  }
}
