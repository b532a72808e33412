/**
 * The admin participants page (`src/app/admin/participantes/page.tsx`): the parser
 * of the comma-separated ticket list, the registration form and the search box.
 */
module Participantes {
  import opened Common
  import opened Text
  import opened Store

  const EmptyTicketsMsg := "Ingresa al menos un número válido."

  // ------------------------------------------------------------------ parsing

  /** `parseInt(piece.trim())`, read as a ticket when it is not `NaN`. */
  function ParsePiece(piece: string): Option<int>
  {
    ParseInt(Trim(piece))
  }

  /** What `filter(n => !isNaN(n))` keeps of one parsed piece. */
  function Kept(o: Option<int>): seq<int>
  {
    if o.Some? then [o.value] else []
  }

  /** `.map(parse).filter(n => !isNaN(n))` over the pieces, in order. */
  function ParseAll(pieces: seq<string>, parse: string -> Option<int>): (r: seq<int>)
    ensures |r| <= |pieces|
  {
    if pieces == [] then [] else Kept(parse(pieces[0])) + ParseAll(pieces[1..], parse)
  }

  /** The tickets typed into the form: `boletosStr.split(',')`, then each piece parsed. */
  function ParseTickets(s: string): seq<int>
  {
    ParseAll(Split(s, ','), ParsePiece)
  }

  lemma {:induction false} ParseAllAppend(a: seq<string>, b: seq<string>, parse: string -> Option<int>)
    ensures ParseAll(a + b, parse) == ParseAll(a, parse) + ParseAll(b, parse)
  {
    if a == [] {
      assert a + b == b;
    } else {
      assert (a + b)[0] == a[0];
      assert (a + b)[1..] == a[1..] + b;
      ParseAllAppend(a[1..], b, parse);
    }
  }

  /** The numbers on either side of a comma are read independently, left side first. */
  lemma ParseAllAround(a: string, b: string, parse: string -> Option<int>)
    ensures ParseAll(Split(a + [','] + b, ','), parse) == ParseAll(Split(a, ','), parse) + ParseAll(Split(b, ','), parse)
  {
    SplitAround(a, b, ',');
    ParseAllAppend(Split(a, ','), Split(b, ','), parse);
  }

  /** Each piece contributes its own number, so parsing keeps the input order piece by piece. */
  lemma ParseTicketsAround(a: string, b: string)
    ensures ParseTickets(a + "," + b) == ParseTickets(a) + ParseTickets(b)
  {
    ParseAllAround(a, b, ParsePiece);
  }

  lemma {:induction false} SplitWithoutSep(s: string, sep: char)
    requires sep !in s
    ensures Split(s, sep) == [s]
  {
    if s != [] {
      SplitWithoutSep(s[1..], sep);
      assert s == [s[0]] + s[1..];
    }
  }

  /** A text without a comma is one piece. */
  lemma SinglePiece(x: string, parse: string -> Option<int>)
    requires ',' !in x
    ensures ParseAll(Split(x, ','), parse) == Kept(parse(x))
  {
    SplitWithoutSep(x, ',');
    assert [x][1..] == [];
  }

  /** A leading piece that does not parse adds nothing. */
  lemma SkipsUnparsed(junk: string, b: string, parse: string -> Option<int>)
    requires ',' !in junk && parse(junk).None?
    ensures ParseAll(Split(junk + [','] + b, ','), parse) == ParseAll(Split(b, ','), parse)
  {
    ParseAllAround(junk, b, parse);
    SinglePiece(junk, parse);
  }

  /** A piece that is not a number (such as "abc" or an empty piece) contributes nothing. */
  lemma DropsNonNumbers(a: string, junk: string, b: string)
    requires ',' !in junk && ParsePiece(junk).None?
    ensures ParseTickets(a + "," + junk + "," + b) == ParseTickets(a) + ParseTickets(b)
  {
    DropsUnparsed(a, junk, b, ParsePiece);
  }

  lemma DropsUnparsed(a: string, junk: string, b: string, parse: string -> Option<int>)
    requires ',' !in junk && parse(junk).None?
    ensures ParseAll(Split(a + "," + junk + "," + b, ','), parse)
         == ParseAll(Split(a, ','), parse) + ParseAll(Split(b, ','), parse)
  {
    var rest := junk + [','] + b;
    assert a + "," + junk + "," + b == a + [','] + rest;
    ParseAllAround(a, rest, parse);
    SkipsUnparsed(junk, b, parse);
  }

  /** `parse` gives the same answer with or without one leading blank. */
  ghost predicate IgnoresBlank(parse: string -> Option<int>)
  {
    forall p :: parse([' '] + p) == parse(p)
  }

  /** `parse` reads back the decimal form of every integer. */
  ghost predicate ReadsIntegers(parse: string -> Option<int>)
  {
    forall x :: parse(IntToString(x)) == Some(x)
  }

  lemma PieceParser()
    ensures IgnoresBlank(ParsePiece) && ReadsIntegers(ParsePiece) && ParsePiece("").None?
  {
    forall p ensures ParsePiece([' '] + p) == ParsePiece(p) {
      TrimLeadingSpace(' ', p);
    }
    forall x ensures ParsePiece(IntToString(x)) == Some(x) {
      TrimIntToString(x);
      ParseIntToString(x);
    }
  }

  lemma LeadingBlank(t: string, parse: string -> Option<int>)
    requires IgnoresBlank(parse)
    ensures ParseAll(Split([' '] + t, ','), parse) == ParseAll(Split(t, ','), parse)
  {
    var rest := Split(t, ',');
    assert ([' '] + t)[1..] == t;
    var first := [' '] + rest[0];
    assert Split([' '] + t, ',') == [first] + rest[1..];
    assert ([first] + rest[1..])[1..] == rest[1..];
  }

  lemma {:induction false} ListRoundTrip(ns: seq<int>, parse: string -> Option<int>)
    requires IgnoresBlank(parse) && ReadsIntegers(parse) && parse("").None?
    ensures ParseAll(Split(Join(Strings(ns), ", "), ','), parse) == ns
  {
    if ns == [] {
    } else if |ns| == 1 {
      SinglePiece(IntToString(ns[0]), parse);
    } else {
      var x := IntToString(ns[0]);
      var j := Join(Strings(ns[1..]), ", ");
      assert Strings(ns)[1..] == Strings(ns[1..]);
      assert Join(Strings(ns), ", ") == x + [','] + ([' '] + j);
      ParseAllAround(x, [' '] + j, parse);
      SinglePiece(x, parse);
      LeadingBlank(j, parse);
      ListRoundTrip(ns[1..], parse);
      assert ns == [ns[0]] + ns[1..];
    }
  }

  /**
   * The form reads back any list of tickets written the way the store's conflict
   * message writes them (`"3, 7, 7"`), duplicates and negative numbers included.
   */
  lemma ParseTicketsOfList(ns: seq<int>)
    ensures ParseTickets(Join(Strings(ns), ", ")) == ns
  {
    PieceParser();
    ListRoundTrip(ns, ParsePiece);
  }

  // ------------------------------------------------------------------ search

  /** `boletos.some(b => b.toString() === term)`. */
  function SomeTicketIs(bs: seq<int>, term: string): (b: bool)
    ensures b <==> exists i :: 0 <= i < |bs| && IntToString(bs[i]) == term
  {
    if bs == [] then false
    else
      var rest := SomeTicketIs(bs[1..], term);
      assert rest <==> exists i :: 1 <= i < |bs| && IntToString(bs[i]) == term by {
        if rest {
          var i :| 0 <= i < |bs[1..]| && IntToString(bs[1..][i]) == term;
          assert IntToString(bs[i + 1]) == term;
        }
        if exists i :: 1 <= i < |bs| && IntToString(bs[i]) == term {
          var i :| 1 <= i < |bs| && IntToString(bs[i]) == term;
          assert bs[1..][i - 1] == bs[i];
        }
      }
      IntToString(bs[0]) == term || rest
  }

  /** The search predicate of `filteredParticipants`. */
  predicate SearchMatches(p: Participant, term: string)
  {
    Contains(Lower(p.nombre), Lower(term)) || Contains(p.telefono, term) || SomeTicketIs(p.boletos, term)
  }

  function SearchFilter(term: string): Participant -> bool
  {
    (p: Participant) => SearchMatches(p, term)
  }

  /** `filteredParticipants`: the loaded participants that match the search term, in order. */
  function FilterParticipants(ps: seq<Participant>, term: string): seq<Participant>
  {
    Filter(ps, SearchFilter(term))
  }

  /** A participant is listed iff it is loaded and matches the term. */
  lemma FilterParticipantsMembers(ps: seq<Participant>, term: string, p: Participant)
    ensures p in FilterParticipants(ps, term) <==> p in ps && SearchMatches(p, term)
  {
    FilterMembers(ps, SearchFilter(term), p);
  }

  /** An empty search box lists every participant, in the loaded order. */
  lemma EmptySearchKeepsAll(ps: seq<Participant>)
    ensures FilterParticipants(ps, "") == ps
  {
    forall i | 0 <= i < |ps| ensures SearchFilter("")(ps[i]) {
      ContainsEmpty(Lower(ps[i].nombre));
    }
    FilterKeepsAll(ps, SearchFilter(""));
  }

  /** Searching splits over a concatenation: the search keeps the loaded order. */
  lemma SearchKeepsOrder(a: seq<Participant>, b: seq<Participant>, term: string)
    ensures FilterParticipants(a + b, term) == FilterParticipants(a, term) + FilterParticipants(b, term)
  {
    FilterAppend(a, b, SearchFilter(term));
  }

  /** Typing a ticket number always finds the participant holding it. */
  lemma SearchFindsOwner(ps: seq<Participant>, k: nat, i: nat)
    requires k < |ps| && i < |ps[k].boletos|
    ensures ps[k] in FilterParticipants(ps, IntToString(ps[k].boletos[i]))
  {
    FilterParticipantsMembers(ps, IntToString(ps[k].boletos[i]), ps[k]);
  }

  /**
   * The name test is case-insensitive without losing anything: a participant whose
   * name contains the term exactly as typed always matches.
   */
  lemma NameSearchFindsLiteral(p: Participant, term: string)
    requires Contains(p.nombre, term)
    ensures SearchMatches(p, term)
  {
    ContainsLower(p.nombre, term);
  }

  // ------------------------------------------------------------------ the page

  /** A registration waiting out the 600 ms delay: the values the handler captured. */
  datatype Pending = Idle | Waiting(nombre: string, telefono: string, numeros: seq<int>)

  class ParticipantsPage {
    var activeRaffle: Option<Raffle>
    var participants: seq<Participant>
    var searchTerm: string
    var isFormOpen: bool
    var nombre: string
    var telefono: string
    var boletosStr: string
    var formLoading: bool
    var formError: string
    var pending: Pending

    /** A request waits out its delay exactly while the form shows it is loading, with no error. */
    ghost predicate Valid()
      reads this
    {
      (pending.Waiting? <==> formLoading) && (pending.Waiting? ==> formError == "")
    }

    /** The list the page renders. */
    function Listed(): seq<Participant>
      reads this
    {
      FilterParticipants(participants, searchTerm)
    }

    /** `loadData`: the active raffle and, when there is one, its participants. */
    method LoadData(store: RaffleStore)
      modifies this`activeRaffle, this`participants
      ensures activeRaffle == ActiveRaffle(store.raffles)
      ensures activeRaffle.Some? ==> participants == Participants(store.raffles, store.participants)
      ensures activeRaffle.None? ==> participants == old(participants)
    {
      activeRaffle := ActiveRaffle(store.raffles);
      if activeRaffle.Some? {
        participants := Participants(store.raffles, store.participants);
      }
    }

    constructor Mount(store: RaffleStore)
      ensures activeRaffle == ActiveRaffle(store.raffles)
      ensures participants == Participants(store.raffles, store.participants)
      ensures searchTerm == "" && !isFormOpen && nombre == "" && telefono == "" && boletosStr == ""
      ensures !formLoading && formError == "" && pending == Idle
      ensures Valid()
      ensures Listed() == participants
    {
      activeRaffle := ActiveRaffle(store.raffles);
      participants := Participants(store.raffles, store.participants);
      searchTerm := "";
      isFormOpen := false;
      nombre := "";
      telefono := "";
      boletosStr := "";
      formLoading := false;
      formError := "";
      pending := Idle;
      EmptySearchKeepsAll(Participants(store.raffles, store.participants));
    }

    /**
     * `handleRegister` up to its delay: the error is cleared and the ticket list
     * parsed; with no number the form shows an error and nothing is sent,
     * otherwise the request waits with the values the form held.
     */
    method HandleRegister()
      requires Valid() && !formLoading
      modifies this`formLoading, this`formError, this`pending
      ensures Valid()
      ensures ParseTickets(boletosStr) == [] ==>
        formError == EmptyTicketsMsg && !formLoading && pending == Idle
      ensures ParseTickets(boletosStr) != [] ==>
        && formError == "" && formLoading
        && pending == Waiting(nombre, telefono, ParseTickets(boletosStr))
    {
      var numeros := ParseTickets(boletosStr);
      formLoading := true;
      formError := "";
      if |numeros| == 0 {
        formError := EmptyTicketsMsg;
        formLoading := false;
        return;
      }
      pending := Waiting(nombre, telefono, numeros);
    }

    /**
     * The delay has elapsed: the captured request goes to the store. A store error
     * is shown and the form keeps its fields; on success the form closes, its
     * fields are cleared and the list is reloaded.
     */
    method RegisterAfterDelay(store: RaffleStore, now: string)
      requires Valid() && store.Valid() && pending.Waiting?
      modifies this`pending, this`formLoading, this`formError, this`isFormOpen, this`nombre, this`telefono
      modifies this`boletosStr, this`activeRaffle, this`participants, store
      ensures Valid() && store.Valid()
      ensures store.raffles == old(store.raffles)
      ensures !formLoading && pending == Idle
      ensures old(ActiveRaffle(store.raffles)).None? ==>
        && formError == NoActiveToRegisterMsg && store.participants == old(store.participants)
        && isFormOpen == old(isFormOpen) && nombre == old(nombre) && telefono == old(telefono)
        && boletosStr == old(boletosStr) && participants == old(participants)
        && activeRaffle == old(activeRaffle)
      ensures old(ActiveRaffle(store.raffles)).Some?
              && old(Conflicts(pending.numeros, TakenTickets(store.raffles, store.participants))) != [] ==>
        && formError == ConflictMsg(old(Conflicts(pending.numeros, TakenTickets(store.raffles, store.participants))))
        && store.participants == old(store.participants)
        && isFormOpen == old(isFormOpen) && nombre == old(nombre) && telefono == old(telefono)
        && boletosStr == old(boletosStr) && participants == old(participants)
        && activeRaffle == old(activeRaffle)
      ensures old(ActiveRaffle(store.raffles)).Some?
              && old(Conflicts(pending.numeros, TakenTickets(store.raffles, store.participants))) == [] ==>
        && |store.participants| == |old(store.participants)| + 1
        && store.participants[..|old(store.participants)|] == old(store.participants)
        && (var p := store.participants[|old(store.participants)|];
            && p.rifa_id == old(ActiveRaffle(store.raffles)).value.id
            && p.nombre == old(pending.nombre) && p.telefono == old(pending.telefono)
            && p.boletos == old(pending.numeros) && p.estado == Pagado)
        && formError == "" && !isFormOpen && nombre == "" && telefono == "" && boletosStr == ""
        && activeRaffle == ActiveRaffle(store.raffles)
        && participants == Participants(store.raffles, store.participants)
    {
      var request := pending;
      var r := store.RegisterParticipant(request.nombre, request.telefono, request.numeros, now);
      ShowResult(r, store);
    }

    /**
     * The end of `handleRegister`: the form stops loading; a store error is shown and
     * the fields stay, while a success closes the form, clears it and reloads the list.
     */
    method ShowResult(r: Result<Participant>, store: RaffleStore)
      requires Valid() && pending.Waiting?
      requires r.Ok? ==> ActiveRaffle(store.raffles).Some?
      modifies this`pending, this`formLoading, this`formError, this`isFormOpen, this`nombre, this`telefono
      modifies this`boletosStr, this`activeRaffle, this`participants
      ensures Valid()
      ensures !formLoading && pending == Idle
      ensures r.Err? ==>
        && formError == r.msg
        && isFormOpen == old(isFormOpen) && nombre == old(nombre) && telefono == old(telefono)
        && boletosStr == old(boletosStr) && participants == old(participants)
        && activeRaffle == old(activeRaffle)
      ensures r.Ok? ==>
        && formError == "" && !isFormOpen && nombre == "" && telefono == "" && boletosStr == ""
        && activeRaffle == ActiveRaffle(store.raffles)
        && participants == Participants(store.raffles, store.participants)
    {
      pending := Idle;
      formLoading := false;
      if r.Err? {
        formError := r.msg;
      } else {
        isFormOpen := false;
        nombre := "";
        telefono := "";
        boletosStr := "";
        LoadData(store);
      }
    }
  }
}
