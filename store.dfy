/**
 * The raffle store (`src/lib/store.ts`): the `rifas` and `participantes` tables held
 * as sequences in insertion order, its queries as functions over those sequences and
 * its writes as methods of `RaffleStore` that replace records.
 *
 * Rows are appended in creation order and `created_at` never goes back, so
 * "order by created_at descending" is the reverse of a table and
 * ".order(...).limit(1).single()" is the last matching row, or none.
 */
module Store {
  import opened Common
  import opened Text

  datatype RaffleState = Activa | Finalizada | Archivada

  datatype PaymentState = Apartado | Pagado

  datatype Raffle = Raffle(
    id: nat,
    nombre: string,
    descripcion: string,
    fotos: seq<string>,
    precio_boleto: real,
    total_boletos: int,
    giro_ganador: int,
    estado: RaffleState,
    created_at: string,
    ganador_boleto: Option<int>,
    ganador_nombre: Option<string>)

  datatype Participant = Participant(
    id: nat,
    rifa_id: nat,
    nombre: string,
    telefono: string,
    boletos: seq<int>,
    estado: PaymentState,
    created_at: string)

  /** What `createRaffle` receives: a raffle without id, estado and created_at. */
  datatype RaffleData = RaffleData(
    nombre: string,
    descripcion: string,
    fotos: seq<string>,
    precio_boleto: real,
    total_boletos: int,
    giro_ganador: int,
    ganador_boleto: Option<int>,
    ganador_nombre: Option<string>)

  /** A `Partial<Raffle>` update of the editable columns; `None` leaves a column as it is. */
  datatype RafflePatch = RafflePatch(
    nombre: Option<string>,
    descripcion: Option<string>,
    fotos: Option<seq<string>>,
    precio_boleto: Option<real>,
    total_boletos: Option<int>,
    giro_ganador: Option<int>,
    estado: Option<RaffleState>,
    ganador_boleto: Option<int>,
    ganador_nombre: Option<string>)

  /** The figures `getFinancialStats` reports. */
  datatype Stats = Stats(
    ingresosBrutos: real,
    ingresosProyectados: real,
    boletosVendidos: int,
    totalBoletos: int,
    precioBoleto: real)

  const AlreadyActiveMsg := "Ya existe una rifa activa. Termínala primero."
  const NoActiveToUpdateMsg := "No hay rifa activa para actualizar."
  const NoActiveToRegisterMsg := "No hay rifa activa para registrar participantes."
  const NoActiveMsg := "No hay rifa activa."
  const NoFinishedMsg := "No hay rifa finalizada para archivar."
  const CancelledName := "Cancelada"

  /** The message listing the tickets that are already taken, in request order. */
  function ConflictMsg(conflicts: seq<int>): string
  {
    "Los boletos " + Join(Strings(conflicts), ", ") + " ya están ocupados."
  }

  // ------------------------------------------------------------------ queries

  /** Index of the newest raffle in state `e`, or `None` when no raffle is in that state. */
  function NewestIndex(rs: seq<Raffle>, e: RaffleState): (r: Option<nat>)
    ensures r.Some? ==> r.value < |rs| && rs[r.value].estado == e
    ensures r.Some? ==> forall j :: r.value < j < |rs| ==> rs[j].estado != e
    ensures r.None? <==> forall j :: 0 <= j < |rs| ==> rs[j].estado != e
  {
    if rs == [] then None
    else if rs[|rs| - 1].estado == e then Some(|rs| - 1)
    else NewestIndex(rs[..|rs| - 1], e)
  }

  /** `getActiveRaffle`: the newest raffle whose estado is 'activa'. */
  function ActiveRaffle(rs: seq<Raffle>): (r: Option<Raffle>)
    ensures r.Some? ==> r.value in rs && r.value.estado == Activa
    ensures r.Some? ==> exists i :: 0 <= i < |rs| && rs[i] == r.value && forall j :: i < j < |rs| ==> rs[j].estado != Activa
    ensures r.None? <==> forall j :: 0 <= j < |rs| ==> rs[j].estado != Activa
  {
    match NewestIndex(rs, Activa)
    case None => None
    case Some(i) => Some(rs[i])
  }

  /** `getLastFinishedRaffle`: the newest raffle whose estado is 'finalizada'. */
  function LastFinishedRaffle(rs: seq<Raffle>): (r: Option<Raffle>)
    ensures r.Some? ==> r.value in rs && r.value.estado == Finalizada
    ensures r.Some? ==> exists i :: 0 <= i < |rs| && rs[i] == r.value && forall j :: i < j < |rs| ==> rs[j].estado != Finalizada
    ensures r.None? <==> forall j :: 0 <= j < |rs| ==> rs[j].estado != Finalizada
  {
    match NewestIndex(rs, Finalizada)
    case None => None
    case Some(i) => Some(rs[i])
  }

  predicate IsHistorical(r: Raffle)
  {
    r.estado == Finalizada || r.estado == Archivada
  }

  /** `getHistoricalRaffles`: the finished and archived raffles, newest first. */
  function HistoricalRaffles(rs: seq<Raffle>): (r: seq<Raffle>)
    ensures |r| <= |rs|
    ensures forall i :: 0 <= i < |r| ==> IsHistorical(r[i])
  {
    Reverse(Filter(rs, IsHistorical))
  }

  /** The history lists exactly the finished and archived raffles. */
  lemma HistoricalMembers(rs: seq<Raffle>, x: Raffle)
    ensures x in HistoricalRaffles(rs) <==> x in rs && IsHistorical(x)
  {
    ReverseMembers(Filter(rs, IsHistorical), x);
    FilterMembers(rs, IsHistorical, x);
  }

  /** The history is newest first: a row added to the table leads it when it is finished or archived. */
  lemma HistoricalNewestFirst(rs: seq<Raffle>, x: Raffle)
    ensures HistoricalRaffles(rs + [x]) == (if IsHistorical(x) then [x] else []) + HistoricalRaffles(rs)
  {
    var a := Filter(rs, IsHistorical);
    FilterAppend(rs, [x], IsHistorical);
    assert [x][1..] == [];
    if IsHistorical(x) {
      assert Reverse(a + [x]) == [x] + Reverse(a);
    } else {
      assert a + [] == a;
    }
  }

  /** The participants of one raffle, in insertion order. */
  function RaffleParticipants(ps: seq<Participant>, rid: nat): seq<Participant>
  {
    Filter(ps, (p: Participant) => p.rifa_id == rid)
  }

  /** `getParticipants`: the active raffle's participants, newest first; empty without an active raffle. */
  function Participants(rs: seq<Raffle>, ps: seq<Participant>): (r: seq<Participant>)
    ensures ActiveRaffle(rs).None? ==> r == []
    ensures ActiveRaffle(rs).Some? ==> forall i :: 0 <= i < |r| ==> r[i].rifa_id == ActiveRaffle(rs).value.id
  {
    match ActiveRaffle(rs)
    case None => []
    case Some(a) => Reverse(RaffleParticipants(ps, a.id))
  }

  /**
   * The list is newest first: a participant added to the table leads it when it
   * belongs to the active raffle, and is absent from it otherwise.
   */
  lemma ParticipantsNewestFirst(rs: seq<Raffle>, ps: seq<Participant>, p: Participant)
    ensures Participants(rs, ps + [p]) ==
      (if ActiveRaffle(rs).Some? && p.rifa_id == ActiveRaffle(rs).value.id then [p] else []) + Participants(rs, ps)
  {
    if ActiveRaffle(rs).Some? {
      var rid := ActiveRaffle(rs).value.id;
      var f := (q: Participant) => q.rifa_id == rid;
      var a := Filter(ps, f);
      FilterAppend(ps, [p], f);
      assert [p][1..] == [];
      if p.rifa_id == rid {
        assert Reverse(a + [p]) == [p] + Reverse(a);
      } else {
        assert a + [] == a;
      }
    }
  }

  /** The page lists exactly the stored participants of the active raffle. */
  lemma ParticipantsMembers(rs: seq<Raffle>, ps: seq<Participant>, p: Participant)
    ensures p in Participants(rs, ps) <==>
      ActiveRaffle(rs).Some? && p in ps && p.rifa_id == ActiveRaffle(rs).value.id
  {
    if ActiveRaffle(rs).Some? {
      var rid := ActiveRaffle(rs).value.id;
      ReverseMembers(RaffleParticipants(ps, rid), p);
      FilterMembers(ps, (q: Participant) => q.rifa_id == rid, p);
    }
  }

  /** `participants.flatMap(p => p.boletos)`. */
  function FlatTickets(ps: seq<Participant>): seq<int>
  {
    if ps == [] then [] else FlatTickets(ps[..|ps| - 1]) + ps[|ps| - 1].boletos
  }

  /** Some participant in `ps` holds ticket `b`. */
  predicate Owned(ps: seq<Participant>, b: int)
  {
    exists i :: 0 <= i < |ps| && b in ps[i].boletos
  }

  /** `getTakenTickets`: every ticket of the active raffle's participants, newest participant first. */
  function TakenTickets(rs: seq<Raffle>, ps: seq<Participant>): seq<int>
  {
    FlatTickets(Participants(rs, ps))
  }

  /** Σ |p.boletos|, the `boletosVendidos` accumulated by the stats queries. */
  function SoldCount(ps: seq<Participant>): nat
  {
    if ps == [] then 0 else SoldCount(ps[..|ps| - 1]) + |ps[|ps| - 1].boletos|
  }

  /** The income of `count` tickets at `precio` each. */
  function Income(count: int, precio: real): real
  {
    count as real * precio
  }

  function StatsOf(sold: int, total: int, precio: real): Stats
  {
    Stats(Income(sold, precio), Income(total, precio), sold, total, precio)
  }

  /** A ticket is in the flattened list exactly when some participant holds it. */
  lemma {:induction false} FlatTicketsOwned(ps: seq<Participant>, b: int)
    ensures b in FlatTickets(ps) <==> Owned(ps, b)
  {
    if ps != [] {
      var init := ps[..|ps| - 1];
      FlatTicketsOwned(init, b);
      if Owned(init, b) {
        var i :| 0 <= i < |init| && b in init[i].boletos;
        assert b in ps[i].boletos;
      }
      if Owned(ps, b) {
        var i :| 0 <= i < |ps| && b in ps[i].boletos;
        if i < |ps| - 1 {
          assert b in init[i].boletos;
        }
      }
    }
  }

  /** The flattened list has one entry per sold ticket. */
  lemma {:induction false} FlatTicketsLength(ps: seq<Participant>)
    ensures |FlatTickets(ps)| == SoldCount(ps)
  {
    if ps != [] {
      FlatTicketsLength(ps[..|ps| - 1]);
    }
  }

  /** `boletosVendidos` counts exactly the taken tickets. */
  lemma SoldIsTaken(rs: seq<Raffle>, ps: seq<Participant>)
    ensures SoldCount(Participants(rs, ps)) == |TakenTickets(rs, ps)|
  {
    FlatTicketsLength(Participants(rs, ps));
  }

  /**
   * The taken tickets are exactly the tickets held by a participant of the active
   * raffle, and there are none without an active raffle.
   */
  lemma TakenTicketsOwned(rs: seq<Raffle>, ps: seq<Participant>, b: int)
    ensures b in TakenTickets(rs, ps) <==>
      ActiveRaffle(rs).Some? &&
      exists i :: 0 <= i < |ps| && ps[i].rifa_id == ActiveRaffle(rs).value.id && b in ps[i].boletos
  {
    FlatTicketsOwned(Participants(rs, ps), b);
    if ActiveRaffle(rs).Some? {
      OwnedByRaffle(ps, ActiveRaffle(rs).value.id, b);
    }
  }

  /** A ticket is held by someone among a raffle's participants, newest first, iff some participant of that raffle holds it. */
  lemma OwnedByRaffle(ps: seq<Participant>, rid: nat, b: int)
    ensures Owned(Reverse(RaffleParticipants(ps, rid)), b) <==>
      exists i :: 0 <= i < |ps| && ps[i].rifa_id == rid && b in ps[i].boletos
  {
    var act := Reverse(RaffleParticipants(ps, rid));
    var f := (p: Participant) => p.rifa_id == rid;
    if Owned(act, b) {
      var k :| 0 <= k < |act| && b in act[k].boletos;
      ReverseMembers(RaffleParticipants(ps, rid), act[k]);
      FilterMembers(ps, f, act[k]);
      var i :| 0 <= i < |ps| && ps[i] == act[k];
      assert ps[i].rifa_id == rid && b in ps[i].boletos;
    }
    if exists i :: 0 <= i < |ps| && ps[i].rifa_id == rid && b in ps[i].boletos {
      var i :| 0 <= i < |ps| && ps[i].rifa_id == rid && b in ps[i].boletos;
      ReverseMembers(RaffleParticipants(ps, rid), ps[i]);
      FilterMembers(ps, f, ps[i]);
      var k :| 0 <= k < |act| && act[k] == ps[i];
      assert b in act[k].boletos;
    }
  }

  /** `boletos.filter(b => taken.includes(b))`: the requested tickets that are already taken. */
  function Conflicts(boletos: seq<int>, taken: seq<int>): (r: seq<int>)
    ensures |r| <= |boletos|
    ensures forall i :: 0 <= i < |r| ==> r[i] in boletos && r[i] in taken
  {
    Filter(boletos, (b: int) => b in taken)
  }

  /** The conflicts are exactly the requested tickets that are taken. */
  lemma ConflictsMembers(boletos: seq<int>, taken: seq<int>, b: int)
    ensures b in Conflicts(boletos, taken) <==> b in boletos && b in taken
  {
    FilterMembers(boletos, (x: int) => x in taken, b);
  }

  /**
   * The conflict check only compares the request with the taken tickets: a request
   * repeating a free number has no conflict, whatever the raffle's size.
   */
  lemma RepeatedRequestPasses(b: int, taken: seq<int>)
    requires b !in taken
    ensures Conflicts([b, b], taken) == []
  {
    FilterDropsAll([b, b], (x: int) => x in taken);
  }

  /**
   * The check a registration evidently needs: besides having no conflict, the
   * request names each number once.
   */
  predicate RequestAcceptable(boletos: seq<int>, taken: seq<int>)
  {
    Distinct(boletos) && Conflicts(boletos, taken) == []
  }

  lemma {:induction false} FlatTicketsCons(p: Participant, qs: seq<Participant>)
    ensures FlatTickets([p] + qs) == p.boletos + FlatTickets(qs)
  {
    if qs != [] {
      var init := qs[..|qs| - 1];
      FlatTicketsCons(p, init);
      assert ([p] + qs)[..|qs|] == [p] + init;
    }
  }

  /** A participant registered in the active raffle has its tickets first in the taken list. */
  lemma RegisteredTicketsFirst(rs: seq<Raffle>, ps: seq<Participant>, p: Participant)
    requires ActiveRaffle(rs).Some? && p.rifa_id == ActiveRaffle(rs).value.id
    ensures TakenTickets(rs, ps + [p]) == p.boletos + TakenTickets(rs, ps)
  {
    var rid := ActiveRaffle(rs).value.id;
    var f := (q: Participant) => q.rifa_id == rid;
    var a := Filter(ps, f);
    FilterAppend(ps, [p], f);
    FilterKeepsAll([p], f);
    assert Reverse(a + [p]) == [p] + Reverse(a);
    FlatTicketsCons(p, Reverse(a));
  }

  /**
   * Registrations that pass the check above keep the active raffle's taken list
   * free of repeats: each sold number is sold once.
   */
  lemma AcceptableRequestKeepsDistinct(rs: seq<Raffle>, ps: seq<Participant>, p: Participant)
    requires ActiveRaffle(rs).Some? && p.rifa_id == ActiveRaffle(rs).value.id
    requires Distinct(TakenTickets(rs, ps)) && RequestAcceptable(p.boletos, TakenTickets(rs, ps))
    ensures Distinct(TakenTickets(rs, ps + [p]))
  {
    var taken := TakenTickets(rs, ps);
    var all := p.boletos + taken;
    RegisteredTicketsFirst(rs, ps, p);
    forall i, j | 0 <= i < j < |all| ensures all[i] != all[j] {
      if i < |p.boletos| <= j {
        ConflictsMembers(p.boletos, taken, p.boletos[i]);
        assert all[j] in taken;
      }
    }
  }

  /** The raffle `createRaffle` inserts. */
  function NewRaffle(id: nat, data: RaffleData, now: string): Raffle
  {
    Raffle(id, data.nombre, data.descripcion, data.fotos, data.precio_boleto, data.total_boletos,
           data.giro_ganador, Activa, now, data.ganador_boleto, data.ganador_nombre)
  }

  function Patched<T>(old_value: T, update: Option<T>): T
  {
    if update.Some? then update.value else old_value
  }

  /** The row `updateActiveRaffle` writes: the patch over the current row, id and created_at kept. */
  function ApplyPatch(r: Raffle, p: RafflePatch): Raffle
  {
    r.(nombre := Patched(r.nombre, p.nombre),
       descripcion := Patched(r.descripcion, p.descripcion),
       fotos := Patched(r.fotos, p.fotos),
       precio_boleto := Patched(r.precio_boleto, p.precio_boleto),
       total_boletos := Patched(r.total_boletos, p.total_boletos),
       giro_ganador := Patched(r.giro_ganador, p.giro_ganador),
       estado := Patched(r.estado, p.estado),
       ganador_boleto := if p.ganador_boleto.Some? then p.ganador_boleto else r.ganador_boleto,
       ganador_nombre := if p.ganador_nombre.Some? then p.ganador_nombre else r.ganador_nombre)
  }

  /** The rows after `finalizeRaffle(ticket, name)`: the active raffle closed with that winner. */
  function Finalized(rs: seq<Raffle>, ticket: int, name: string): seq<Raffle>
  {
    match NewestIndex(rs, Activa)
    case None => rs
    case Some(i) => rs[i := rs[i].(estado := Finalizada, ganador_boleto := Some(ticket), ganador_nombre := Some(name))]
  }

  /** `name || "Anónimo"`: a missing or empty name shows as "Anónimo". */
  function OrAnonymous(name: Option<string>): (r: string)
    ensures r != ""
    ensures name.Some? && name.value != "" ==> r == name.value
    ensures !(name.Some? && name.value != "") ==> r == "Anónimo"
  {
    if name.Some? && name.value != "" then name.value else "Anónimo"
  }

  // ------------------------------------------------------------------ invariants

  /** The single-active-raffle policy. */
  ghost predicate AtMostOneActive(rs: seq<Raffle>)
  {
    forall i, j :: 0 <= i < |rs| && 0 <= j < |rs| && rs[i].estado == Activa && rs[j].estado == Activa ==> i == j
  }

  /** No ticket of a raffle is held by two different participants of that raffle. */
  ghost predicate UniqueTickets(ps: seq<Participant>)
  {
    forall i, j :: 0 <= i < |ps| && 0 <= j < |ps| && i != j && ps[i].rifa_id == ps[j].rifa_id ==>
      SharesNothing(ps[i].boletos, ps[j].boletos)
  }

  /** With one active raffle at most, no raffle other than the one at `i` is active. */
  lemma OnlyActive(rs: seq<Raffle>, i: nat)
    requires AtMostOneActive(rs) && i < |rs| && rs[i].estado == Activa
    ensures forall j :: 0 <= j < |rs| && j != i ==> rs[j].estado != Activa
  {
  }

  /** Replacing the active row by one that is not active leaves no active raffle. */
  lemma {:induction false} NoActiveAfterClose(rs: seq<Raffle>, i: nat, r: Raffle)
    requires AtMostOneActive(rs) && i < |rs| && rs[i].estado == Activa && r.estado != Activa
    ensures ActiveRaffle(rs[i := r]).None?
    ensures AtMostOneActive(rs[i := r])
  {
    OnlyActive(rs, i);
    var rs' := rs[i := r];
    assert forall j :: 0 <= j < |rs'| ==> rs'[j].estado != Activa;
  }

  /** A request with no conflict shares no ticket with any participant of the active raffle. */
  lemma NoConflictSharesNothing(rs: seq<Raffle>, ps: seq<Participant>, boletos: seq<int>)
    requires ActiveRaffle(rs).Some? && Conflicts(boletos, TakenTickets(rs, ps)) == []
    ensures forall i :: 0 <= i < |ps| && ps[i].rifa_id == ActiveRaffle(rs).value.id ==>
      SharesNothing(boletos, ps[i].boletos)
  {
    var taken := TakenTickets(rs, ps);
    forall i, k | 0 <= i < |ps| && ps[i].rifa_id == ActiveRaffle(rs).value.id && 0 <= k < |boletos|
      ensures boletos[k] !in ps[i].boletos
    {
      TakenTicketsOwned(rs, ps, boletos[k]);
      ConflictsMembers(boletos, taken, boletos[k]);
    }
  }

  /** Every participant id is below `next` and no two participants share an id. */
  ghost predicate FreshIds(ps: seq<Participant>, next: nat)
  {
    && (forall i :: 0 <= i < |ps| ==> ps[i].id < next)
    && (forall i, j :: 0 <= i < j < |ps| ==> ps[i].id != ps[j].id)
  }

  /** A participant given the next id keeps the ids fresh and distinct. */
  lemma AppendFreshId(ps: seq<Participant>, next: nat, p: Participant)
    requires FreshIds(ps, next) && p.id == next
    ensures FreshIds(ps + [p], next + 1)
  {
  }

  /** Appending a participant who shares no ticket with the others of its raffle keeps tickets unique. */
  lemma AppendKeepsUnique(ps: seq<Participant>, p: Participant)
    requires UniqueTickets(ps)
    requires forall i :: 0 <= i < |ps| && ps[i].rifa_id == p.rifa_id ==> SharesNothing(p.boletos, ps[i].boletos)
    ensures UniqueTickets(ps + [p])
  {
    var qs := ps + [p];
    forall i, j | 0 <= i < |qs| && 0 <= j < |qs| && i != j && qs[i].rifa_id == qs[j].rifa_id
      ensures SharesNothing(qs[i].boletos, qs[j].boletos)
    {
      if i == |ps| {
        assert qs[j] == ps[j];
      } else if j == |ps| {
        assert qs[i] == ps[i];
        SharesNothingSymmetric(p.boletos, ps[i].boletos);
      } else {
        assert qs[i] == ps[i] && qs[j] == ps[j];
      }
    }
  }

  // ------------------------------------------------------------------ loops

  /** The `forEach` loop that adds up `p.boletos.length`. */
  method CountTickets(ps: seq<Participant>) returns (n: nat)
    ensures n == SoldCount(ps)
  {
    n := 0;
    var i := 0;
    while i < |ps|
      invariant 0 <= i <= |ps|
      invariant n == SoldCount(ps[..i])
    {
      assert ps[..i + 1][..i] == ps[..i];
      n := n + |ps[i].boletos|;
      i := i + 1;
    }
    assert ps[..|ps|] == ps;
  }

  // ------------------------------------------------------------------ the store

  class RaffleStore {
    var raffles: seq<Raffle>
    var participants: seq<Participant>
    /** The next id the database hands out. */
    var nextId: nat

    ghost predicate Valid()
      reads this
    {
      && (forall i :: 0 <= i < |raffles| ==> raffles[i].id < nextId)
      && (forall i, j :: 0 <= i < j < |raffles| ==> raffles[i].id != raffles[j].id)
      && FreshIds(participants, nextId)
      && AtMostOneActive(raffles)
      && UniqueTickets(participants)
    }

    constructor ()
      ensures Valid()
      ensures raffles == [] && participants == []
    {
      raffles := [];
      participants := [];
      nextId := 0;
    }

    /** `createRaffle`: refused while a raffle is active, otherwise inserts an 'activa' raffle. */
    method CreateRaffle(data: RaffleData, now: string) returns (r: Result<Raffle>)
      requires Valid()
      modifies this
      ensures Valid()
      ensures participants == old(participants)
      ensures old(ActiveRaffle(raffles)).Some? ==> r == Err(AlreadyActiveMsg) && raffles == old(raffles)
      ensures old(ActiveRaffle(raffles)).None? ==>
        && r.Ok?
        && r.value == NewRaffle(r.value.id, data, now)
        && raffles == old(raffles) + [r.value]
        && (forall i :: 0 <= i < |old(raffles)| ==> old(raffles)[i].id != r.value.id)
      ensures ActiveRaffle(raffles).Some?
    {
      var current := ActiveRaffle(raffles);
      if current.Some? && current.value.estado == Activa {
        r := Err(AlreadyActiveMsg);
        return;
      }
      var created := NewRaffle(nextId, data, now);
      raffles := raffles + [created];
      nextId := nextId + 1;
      r := Ok(created);
      assert raffles[|raffles| - 1] == created;
    }

    /** `updateActiveRaffle`: applies the patch to the active raffle and to no other row. */
    method UpdateActiveRaffle(patch: RafflePatch) returns (r: Result<Raffle>)
      requires Valid()
      modifies this
      ensures Valid()
      ensures participants == old(participants)
      ensures old(NewestIndex(raffles, Activa)).None? ==> r == Err(NoActiveToUpdateMsg) && raffles == old(raffles)
      ensures old(NewestIndex(raffles, Activa)).Some? ==>
        var i := old(NewestIndex(raffles, Activa)).value;
        && r == Ok(ApplyPatch(old(raffles)[i], patch))
        && raffles == old(raffles)[i := r.value]
    {
      var idx := NewestIndex(raffles, Activa);
      if idx.None? {
        r := Err(NoActiveToUpdateMsg);
        return;
      }
      var i := idx.value;
      OnlyActive(raffles, i);
      var updated := ApplyPatch(raffles[i], patch);
      raffles := raffles[i := updated];
      r := Ok(updated);
    }

    /**
     * `registerParticipant`: without an active raffle, or when a requested ticket is
     * already taken, nothing is written; otherwise a paid participant of the active
     * raffle is appended.
     */
    method RegisterParticipant(nombre: string, telefono: string, boletos: seq<int>, now: string)
      returns (r: Result<Participant>)
      requires Valid()
      modifies this
      ensures Valid()
      ensures raffles == old(raffles)
      ensures old(ActiveRaffle(raffles)).None? ==>
        r == Err(NoActiveToRegisterMsg) && participants == old(participants)
      ensures old(ActiveRaffle(raffles)).Some? && old(Conflicts(boletos, TakenTickets(raffles, participants))) != [] ==>
        && r == Err(ConflictMsg(old(Conflicts(boletos, TakenTickets(raffles, participants)))))
        && participants == old(participants)
      ensures old(ActiveRaffle(raffles)).Some? && old(Conflicts(boletos, TakenTickets(raffles, participants))) == [] ==>
        && r.Ok?
        && r.value == Participant(r.value.id, old(ActiveRaffle(raffles)).value.id, nombre, telefono, boletos, Pagado, now)
        && participants == old(participants) + [r.value]
        && (forall i :: 0 <= i < |old(participants)| && old(participants)[i].rifa_id == r.value.rifa_id ==>
              SharesNothing(boletos, old(participants)[i].boletos))
    {
      var active := ActiveRaffle(raffles);
      if active.None? {
        r := Err(NoActiveToRegisterMsg);
        return;
      }
      var taken := TakenTickets(raffles, participants);
      var conflicts := Conflicts(boletos, taken);
      if |conflicts| > 0 {
        r := Err(ConflictMsg(conflicts));
        return;
      }
      var a := active.value;
      var p := Participant(nextId, a.id, nombre, telefono, boletos, Pagado, now);
      NoConflictSharesNothing(raffles, participants, boletos);
      AppendKeepsUnique(participants, p);
      AppendFreshId(participants, nextId, p);
      participants := participants + [p];
      nextId := nextId + 1;
      r := Ok(p);
    }

    /** `finalizeRaffle`: the active raffle becomes 'finalizada' with its winner; no other row changes. */
    method FinalizeRaffle(ganadorBoleto: int, ganadorNombre: string) returns (r: Result<Raffle>)
      requires Valid()
      modifies this
      ensures Valid()
      ensures participants == old(participants)
      ensures raffles == Finalized(old(raffles), ganadorBoleto, ganadorNombre)
      ensures old(NewestIndex(raffles, Activa)).None? ==> r == Err(NoActiveMsg)
      ensures old(NewestIndex(raffles, Activa)).Some? ==>
        var i := old(NewestIndex(raffles, Activa)).value;
        && r == Ok(raffles[i])
        && r.value.estado == Finalizada
        && r.value.ganador_boleto == Some(ganadorBoleto)
        && r.value.ganador_nombre == Some(ganadorNombre)
        && (forall j :: 0 <= j < |raffles| && j != i ==> raffles[j] == old(raffles)[j])
      ensures ActiveRaffle(raffles).None?
    {
      var idx := NewestIndex(raffles, Activa);
      if idx.None? {
        r := Err(NoActiveMsg);
        return;
      }
      var i := idx.value;
      var finished := raffles[i].(estado := Finalizada, ganador_boleto := Some(ganadorBoleto),
                                  ganador_nombre := Some(ganadorNombre));
      NoActiveAfterClose(raffles, i, finished);
      raffles := raffles[i := finished];
      r := Ok(finished);
    }

    /** `resetStore`: cancels the active raffle ('finalizada' named 'Cancelada'); nothing without one. */
    method ResetStore()
      requires Valid()
      modifies this
      ensures Valid()
      ensures participants == old(participants)
      ensures old(NewestIndex(raffles, Activa)).None? ==> raffles == old(raffles)
      ensures old(NewestIndex(raffles, Activa)).Some? ==>
        var i := old(NewestIndex(raffles, Activa)).value;
        raffles == old(raffles)[i := old(raffles)[i].(estado := Finalizada, ganador_nombre := Some(CancelledName))]
      ensures ActiveRaffle(raffles).None?
    {
      var idx := NewestIndex(raffles, Activa);
      if idx.Some? {
        var i := idx.value;
        var cancelled := raffles[i].(estado := Finalizada, ganador_nombre := Some(CancelledName));
        NoActiveAfterClose(raffles, i, cancelled);
        raffles := raffles[i := cancelled];
      }
    }

    /** `archiveWinner`: the newest 'finalizada' raffle becomes 'archivada'; an error if there is none. */
    method ArchiveWinner() returns (r: Outcome)
      requires Valid()
      modifies this
      ensures Valid()
      ensures participants == old(participants)
      ensures old(NewestIndex(raffles, Finalizada)).None? ==> r == Fail(NoFinishedMsg) && raffles == old(raffles)
      ensures old(NewestIndex(raffles, Finalizada)).Some? ==>
        var i := old(NewestIndex(raffles, Finalizada)).value;
        r == Pass && raffles == old(raffles)[i := old(raffles)[i].(estado := Archivada)]
    {
      var idx := NewestIndex(raffles, Finalizada);
      if idx.None? {
        r := Fail(NoFinishedMsg);
        return;
      }
      var i := idx.value;
      raffles := raffles[i := raffles[i].(estado := Archivada)];
      r := Pass;
    }

    /**
     * `getFinancialStats`: `None` without an active raffle; otherwise the tickets sold to
     * its participants, the gross income they bring and the income of a full sale.
     */
    method GetFinancialStats() returns (r: Option<Stats>)
      ensures r.None? <==> ActiveRaffle(raffles).None?
      ensures r.Some? ==>
        var a := ActiveRaffle(raffles).value;
        && r.value.boletosVendidos == |TakenTickets(raffles, participants)|
        && r.value.ingresosBrutos == Income(r.value.boletosVendidos, a.precio_boleto)
        && r.value.ingresosProyectados == Income(a.total_boletos, a.precio_boleto)
        && r.value.totalBoletos == a.total_boletos
        && r.value.precioBoleto == a.precio_boleto
    {
      var active := ActiveRaffle(raffles);
      if active.None? {
        return None;
      }
      var sold := CountTickets(Participants(raffles, participants));
      SoldIsTaken(raffles, participants);
      var precio := active.value.precio_boleto;
      r := Some(StatsOf(sold, active.value.total_boletos, precio));
    }

    /**
     * `getFinancialStatsForRaffle`: the same figures for any raffle id, with the price
     * and size given by the caller; a failed query counts as no participants.
     */
    method GetFinancialStatsForRaffle(raffleId: nat, precioBoleto: real, totalBoletos: int, queryFailed: bool)
      returns (s: Stats)
      ensures s.boletosVendidos == if queryFailed then 0 else SoldCount(RaffleParticipants(participants, raffleId))
      ensures s.ingresosBrutos == Income(s.boletosVendidos, precioBoleto)
      ensures s.ingresosProyectados == Income(totalBoletos, precioBoleto)
      ensures s.totalBoletos == totalBoletos && s.precioBoleto == precioBoleto
    {
      var ps := if queryFailed then [] else RaffleParticipants(participants, raffleId);
      var sold := CountTickets(ps);
      s := StatsOf(sold, totalBoletos, precioBoleto);
    }
  }
}
