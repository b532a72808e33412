/**
 * The public landing page (`src/app/page.tsx`): the ticket catalog derived from the
 * active raffle, its taken tickets and its participants; the winner banner; and the
 * `confettiFired` flag that lets the confetti fire once per page.
 */
module Landing {
  import opened Common
  import opened Store

  // ------------------------------------------------------------------ the catalog

  /** `participants.find(p => p.boletos.includes(num))`, as the index of the first holder. */
  function FindOwner(ps: seq<Participant>, num: int): (r: Option<nat>)
    ensures r.Some? ==> r.value < |ps| && num in ps[r.value].boletos
    ensures r.Some? ==> forall j :: 0 <= j < r.value ==> num !in ps[j].boletos
    ensures r.None? <==> forall j :: 0 <= j < |ps| ==> num !in ps[j].boletos
  {
    if ps == [] then None
    else if num in ps[0].boletos then Some(0)
    else
      match FindOwner(ps[1..], num)
      case None => None
      case Some(k) => Some(k + 1)
  }

  /** One row of the catalog: the number, whether it is taken and, for a taken one, its owner. */
  datatype Entry = Entry(num: int, taken: bool, owner: Option<Participant>)

  /** The row for number `num`: `isTaken` and, only when taken, the first participant holding it. */
  function CatalogEntry(num: int, taken: seq<int>, ps: seq<Participant>): Entry
  {
    if num in taken then
      Entry(num, true, match FindOwner(ps, num) case None => None case Some(k) => Some(ps[k]))
    else Entry(num, false, None)
  }

  /**
   * `Array.from({ length: total_boletos }).map((_, i) => ...)`: one row per number
   * from 1 to `total_boletos` (no rows for a negative length).
   */
  function Catalog(total: int, taken: seq<int>, ps: seq<Participant>): (r: seq<Entry>)
    ensures |r| == Max(total, 0)
    ensures forall i :: 0 <= i < |r| ==> r[i].num == i + 1
  {
    seq(Max(total, 0), i requires 0 <= i => CatalogEntry(i + 1, taken, ps))
  }

  /** "Por {owner?.nombre || "Anónimo"}": the name a taken row shows. */
  function ShownName(e: Entry): (r: string)
    ensures r != ""
  {
    OrAnonymous(if e.owner.Some? then Some(e.owner.value.nombre) else None)
  }

  /**
   * Every row of the catalog is marked taken iff its number is in `takenTickets`; a
   * taken row's owner is the first participant, in the loaded order, holding that
   * number, and its shown name is that owner's name or "Anónimo" when it is empty.
   */
  lemma CatalogRows(total: int, taken: seq<int>, ps: seq<Participant>, i: nat)
    requires i < Max(total, 0)
    ensures var e := Catalog(total, taken, ps)[i];
      && (e.taken <==> i + 1 in taken)
      && (!e.taken ==> e.owner.None?)
      && (e.taken && e.owner.Some? ==>
            exists k :: 0 <= k < |ps| && e.owner.value == ps[k] && i + 1 in ps[k].boletos
              && forall j :: 0 <= j < k ==> i + 1 !in ps[j].boletos)
      && (e.taken && e.owner.None? ==> forall j :: 0 <= j < |ps| ==> i + 1 !in ps[j].boletos)
      && (e.taken && e.owner.Some? && e.owner.value.nombre != "" ==> ShownName(e) == e.owner.value.nombre)
      && (e.taken && (e.owner.None? || e.owner.value.nombre == "") ==> ShownName(e) == "Anónimo")
  {
    var e := Catalog(total, taken, ps)[i];
    if e.taken {
      var o := FindOwner(ps, i + 1);
      if o.Some? {
        assert e.owner.value == ps[o.value];
      }
    }
  }

  /** A number lies in the catalog iff it is between 1 and `total_boletos`. */
  lemma CatalogNumbers(total: int, taken: seq<int>, ps: seq<Participant>, num: int)
    ensures (exists i :: 0 <= i < |Catalog(total, taken, ps)| && Catalog(total, taken, ps)[i].num == num) <==>
      1 <= num <= total
  {
    if 1 <= num <= total {
      assert Catalog(total, taken, ps)[num - 1].num == num;
    }
  }

  /**
   * With the page's data from one store state, every taken number has an owner among
   * the loaded participants: the "Anónimo" fallback then shows only for an empty name.
   */
  lemma TakenRowsHaveOwners(rs: seq<Raffle>, ps: seq<Participant>, total: int, i: nat)
    requires i < Max(total, 0)
    ensures var e := Catalog(total, TakenTickets(rs, ps), Participants(rs, ps))[i];
      e.taken ==> e.owner.Some? && i + 1 in e.owner.value.boletos && e.owner.value in Participants(rs, ps)
  {
    var act := Participants(rs, ps);
    var e := Catalog(total, TakenTickets(rs, ps), act)[i];
    if e.taken {
      FlatTicketsOwned(act, i + 1);
      var o := FindOwner(act, i + 1);
      assert o.Some?;
      assert e.owner == Some(act[o.value]);
    }
  }

  /** `total_boletos - takenTickets.length` "Libres", with no clamping. */
  function FreeCount(total: int, taken: seq<int>): int
  {
    total - |taken|
  }

  /** The rows of a catalog shown as free. */
  function FreeRows(es: seq<Entry>): (r: nat)
    ensures r <= |es|
  {
    if es == [] then 0 else FreeRows(es[..|es| - 1]) + (if es[|es| - 1].taken then 0 else 1)
  }

  /** How many of the numbers 1..n are not taken. */
  function FreeUpTo(taken: seq<int>, n: nat): nat
  {
    if n == 0 then 0 else FreeUpTo(taken, n - 1) + (if n in taken then 0 else 1)
  }

  /** How many entries of `m`, counted with multiplicity, are among 1..n. */
  function InRange(m: multiset<int>, n: nat): nat
  {
    if n == 0 then 0 else InRange(m, n - 1) + m[n]
  }

  lemma {:induction false} InRangeAdd(m: multiset<int>, x: int, n: nat)
    ensures InRange(m + multiset{x}, n) == InRange(m, n) + (if 1 <= x <= n then 1 else 0)
  {
    if n > 0 {
      InRangeAdd(m, x, n - 1);
    }
  }

  lemma {:induction false} InRangeEmpty(n: nat)
    ensures InRange(multiset{}, n) == 0
  {
    if n > 0 {
      InRangeEmpty(n - 1);
    }
  }

  /** When every ticket lies in 1..n, all of them are counted. */
  lemma {:induction false} InRangeAll(t: seq<int>, n: nat)
    requires forall k :: 0 <= k < |t| ==> 1 <= t[k] <= n
    ensures InRange(multiset(t), n) == |t|
  {
    if t != [] {
      var init := t[..|t| - 1];
      assert t == init + [t[|t| - 1]];
      assert multiset(t) == multiset(init) + multiset{t[|t| - 1]};
      assert forall k :: 0 <= k < |init| ==> init[k] == t[k];
      InRangeAll(init, n);
      InRangeAdd(multiset(init), t[|t| - 1], n);
    } else {
      InRangeEmpty(n);
    }
  }

  /** A list without repetitions holds each value at most once. */
  lemma {:induction false} DistinctOnce(t: seq<int>, x: int)
    requires Distinct(t)
    ensures multiset(t)[x] <= 1
  {
    if t != [] {
      var init := t[..|t| - 1];
      assert t == init + [t[|t| - 1]];
      DistinctOnce(init, x);
      if x == t[|t| - 1] {
        assert forall j :: 0 <= j < |init| ==> init[j] == t[j];
      }
    }
  }

  /** Without repetitions, the free numbers among 1..n are n minus the taken ones in range. */
  lemma {:induction false} FreeUpToCount(taken: seq<int>, n: nat)
    requires Distinct(taken)
    ensures FreeUpTo(taken, n) == n - InRange(multiset(taken), n)
  {
    if n > 0 {
      FreeUpToCount(taken, n - 1);
      DistinctOnce(taken, n);
    }
  }

  /** The free rows of the catalog are the numbers 1..total that are not taken. */
  lemma {:induction false} FreeRowsCount(total: nat, taken: seq<int>, ps: seq<Participant>)
    ensures FreeRows(Catalog(total, taken, ps)) == FreeUpTo(taken, total)
  {
    if total > 0 {
      FreeRowsCount(total - 1, taken, ps);
      var c := Catalog(total, taken, ps);
      assert c[..total - 1] == Catalog(total - 1, taken, ps);
    }
  }

  /**
   * The "Libres" figure equals the number of rows shown free whenever the taken list
   * has no repetitions and only numbers of the catalog.
   */
  lemma FreeCountMatchesCatalog(total: nat, taken: seq<int>, ps: seq<Participant>)
    requires Distinct(taken)
    requires forall k :: 0 <= k < |taken| ==> 1 <= taken[k] <= total
    ensures FreeCount(total, taken) == FreeRows(Catalog(total, taken, ps))
  {
    FreeRowsCount(total, taken, ps);
    FreeUpToCount(taken, total);
    InRangeAll(taken, total);
  }

  /**
   * Without any assumption on the taken list, the free numbers among 1..n and the
   * taken entries in range together cover 1..n, with one to spare for every number
   * `x` in range that is taken twice.
   */
  lemma {:induction false} FreeUpToAtLeast(taken: seq<int>, n: nat, x: int)
    ensures FreeUpTo(taken, n) + InRange(multiset(taken), n) >=
      n + (if 1 <= x <= n && multiset(taken)[x] >= 2 then 1 else 0)
  {
    if n > 0 {
      FreeUpToAtLeast(taken, n - 1, x);
    }
  }

  /**
   * A number that occurs twice in the taken list (a registration of "2,2" passes the
   * conflict check) makes the "Libres" figure lower than the rows shown free.
   */
  lemma RepeatedTicketMiscounts(total: nat, taken: seq<int>, ps: seq<Participant>)
    requires forall k :: 0 <= k < |taken| ==> 1 <= taken[k] <= total
    requires exists i, j :: 0 <= i < j < |taken| && taken[i] == taken[j]
    ensures FreeCount(total, taken) < FreeRows(Catalog(total, taken, ps))
  {
    var i, j :| 0 <= i < j < |taken| && taken[i] == taken[j];
    var x := taken[i];
    assert multiset(taken)[x] >= 2 by {
      assert taken == taken[..j] + [x] + taken[j + 1..];
      assert x in taken[..j];
    }
    FreeRowsCount(total, taken, ps);
    InRangeAll(taken, total);
    FreeUpToAtLeast(taken, total, x);
  }

  // ------------------------------------------------------------------ the banner

  /** `activeRaffle.estado === 'finalizada' && activeRaffle.ganador_boleto`: ticket 0 is falsy. */
  predicate ShowWinnerBanner(r: Raffle)
  {
    r.estado == Finalizada && r.ganador_boleto.Some? && r.ganador_boleto.value != 0
  }

  /** The raffle `finalizeRaffle` closes would show the banner, unless its winning ticket is 0. */
  lemma FinalizedShowsBanner(rs: seq<Raffle>, ticket: int, name: string)
    requires ActiveRaffle(rs).Some?
    ensures ShowWinnerBanner(Finalized(rs, ticket, name)[NewestIndex(rs, Activa).value]) <==> ticket != 0
  {
  }

  /** The page loads through `getActiveRaffle`, which yields only 'activa' raffles: the banner never shows. */
  lemma BannerNeverShown(rs: seq<Raffle>)
    ensures ActiveRaffle(rs).Some? ==> !ShowWinnerBanner(ActiveRaffle(rs).value)
  {
  }

  // ------------------------------------------------------------------ the page

  class LandingPage {
    var activeRaffle: Option<Raffle>
    var participants: seq<Participant>
    var takenTickets: seq<int>
    var loading: bool
    /** The `confettiFired` ref. */
    var confettiFired: bool
    /** How many times `fireConfetti` has run on this page. */
    var confettiShown: nat

    /** The confetti has run once exactly when the flag is set. */
    ghost predicate Valid()
      reads this
    {
      confettiShown == if confettiFired then 1 else 0
    }

    /** The first render, then the `fetchStats` run the effect starts. */
    constructor Mount(store: RaffleStore)
      ensures Valid() && !loading
      ensures activeRaffle == ActiveRaffle(store.raffles)
      ensures activeRaffle.Some? ==>
        takenTickets == TakenTickets(store.raffles, store.participants)
        && participants == Participants(store.raffles, store.participants)
      ensures activeRaffle.None? ==> takenTickets == [] && participants == []
      ensures confettiShown <= 1
    {
      activeRaffle := None;
      participants := [];
      takenTickets := [];
      loading := true;
      confettiFired := false;
      confettiShown := 0;
      new;
      FetchStats(store);
    }

    /**
     * What `fetchStats` does once its queries return: it shows `data` and, when there
     * is a raffle, the taken tickets and participants fetched with it; the confetti
     * fires when that raffle is 'finalizada' and has not fired before.
     */
    method Loaded(data: Option<Raffle>, taken: seq<int>, ps: seq<Participant>)
      requires Valid()
      modifies this
      ensures Valid() && !loading
      ensures activeRaffle == data
      ensures data.Some? ==> takenTickets == taken && participants == ps
      ensures data.None? ==> takenTickets == old(takenTickets) && participants == old(participants)
      ensures confettiFired == (old(confettiFired) || (data.Some? && data.value.estado == Finalizada))
      ensures confettiShown == old(confettiShown) +
        (if !old(confettiFired) && data.Some? && data.value.estado == Finalizada then 1 else 0)
      ensures confettiShown <= 1
    {
      activeRaffle := data;
      if data.Some? {
        takenTickets := taken;
        participants := ps;
        if data.value.estado == Finalizada && !confettiFired {
          confettiShown := confettiShown + 1;
          confettiFired := true;
        }
      }
      loading := false;
    }

    /**
     * `fetchStats` (also run every two seconds): the active raffle, then its taken
     * tickets and participants when there is one. The active raffle is never
     * 'finalizada', so the confetti never fires here.
     */
    method FetchStats(store: RaffleStore)
      requires Valid()
      modifies this
      ensures Valid() && !loading
      ensures activeRaffle == ActiveRaffle(store.raffles)
      ensures activeRaffle.Some? ==>
        takenTickets == TakenTickets(store.raffles, store.participants)
        && participants == Participants(store.raffles, store.participants)
      ensures activeRaffle.None? ==> takenTickets == old(takenTickets) && participants == old(participants)
      ensures confettiFired == old(confettiFired) && confettiShown == old(confettiShown)
    {
      var data := ActiveRaffle(store.raffles);
      var taken := if data.Some? then TakenTickets(store.raffles, store.participants) else [];
      var ps := if data.Some? then Participants(store.raffles, store.participants) else [];
      Loaded(data, taken, ps);
    }
  }
}
