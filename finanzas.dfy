/**
 * The finance page (`src/app/admin/finanzas/page.tsx`): the income-per-day chart
 * built from the active raffle's participants, and the sold/available pie.
 *
 * The day of a participant is `format(parseISO(created_at), 'MMM dd')`, a date
 * library call: here it is any function `day` of the `created_at` string.
 */
module Finance {
  import opened Common
  import opened Store
  import opened Landing

  /** One point of the area chart: a day label and the income of that day. */
  datatype Point = Point(name: string, ingresos: real)

  /** `p.boletos.length * precioBoleto`: what one registration brought in. */
  function Amount(p: Participant, precio: real): real
  {
    Income(|p.boletos|, precio)
  }

  /** `daysMap.has(day)`, as the position of the day's entry in insertion order. */
  function IndexOfDay(days: seq<Point>, day: string): (r: Option<nat>)
    ensures r.Some? ==> r.value < |days| && days[r.value].name == day
    ensures r.None? <==> forall j :: 0 <= j < |days| ==> days[j].name != day
  {
    if days == [] then None
    else if days[0].name == day then Some(0)
    else
      match IndexOfDay(days[1..], day)
      case None => None
      case Some(k) => Some(k + 1)
  }

  /**
   * One turn of the `forEach`: the amount is added to the day's entry; an absent day
   * is first set, at the end of the map, to zero income.
   */
  function AddAmount(days: seq<Point>, day: string, amount: real): seq<Point>
  {
    match IndexOfDay(days, day)
    case None => days + [Point(day, 0.0 + amount)]
    case Some(k) => days[k := days[k].(ingresos := days[k].ingresos + amount)]
  }

  /**
   * The `has`/`set`/`get` sequence of one turn of the `forEach` is `AddAmount`: after
   * the `set` the day is present, and adding to its entry gives the same map.
   */
  lemma SetThenAdd(days: seq<Point>, day: string, amount: real)
    ensures var withDay := if IndexOfDay(days, day).None? then days + [Point(day, 0.0)] else days;
      && IndexOfDay(withDay, day).Some?
      && var k := IndexOfDay(withDay, day).value;
        withDay[k := withDay[k].(ingresos := withDay[k].ingresos + amount)] == AddAmount(days, day, amount)
  {
    if IndexOfDay(days, day).None? {
      AppendedDay(days, day);
    }
  }

  /** A day absent from the map is found at the end once it is set. */
  lemma {:induction false} AppendedDay(days: seq<Point>, day: string)
    requires IndexOfDay(days, day).None?
    ensures IndexOfDay(days + [Point(day, 0.0)], day) == Some(|days|)
  {
    if days != [] {
      assert (days + [Point(day, 0.0)])[1..] == days[1..] + [Point(day, 0.0)];
      AppendedDay(days[1..], day);
    }
  }

  /** `daysMap` after the `forEach` over `ps`: its entries in insertion order. */
  function DaysOf(ps: seq<Participant>, precio: real, day: string -> string): seq<Point>
  {
    if ps == [] then []
    else
      var last := ps[|ps| - 1];
      AddAmount(DaysOf(ps[..|ps| - 1], precio, day), day(last.created_at), Amount(last, precio))
  }

  /** `if (chartData.length === 1) chartData.unshift({ name: 'Inicio', ingresos: 0 })`. */
  function Padded(chart: seq<Point>): (r: seq<Point>)
    ensures |r| == if |chart| == 1 then 2 else |chart|
    ensures r[|r| - |chart|..] == chart
  {
    if |chart| == 1 then [Point("Inicio", 0.0)] + chart else chart
  }

  // ------------------------------------------------------------------ reference definitions

  /** The day labels of the participants, in the order of the participants. */
  function Keys(ps: seq<Participant>, day: string -> string): seq<string>
  {
    seq(|ps|, i requires 0 <= i < |ps| => day(ps[i].created_at))
  }

  /** Each key once, in the order of its first appearance. */
  function FirstKeys(keys: seq<string>): (r: seq<string>)
    ensures forall k :: k in r <==> k in keys
  {
    if keys == [] then []
    else
      var f := FirstKeys(keys[..|keys| - 1]);
      if keys[|keys| - 1] in f then f else f + [keys[|keys| - 1]]
  }

  /** The income of the participants whose day is `d`. */
  function DayTotal(ps: seq<Participant>, precio: real, day: string -> string, d: string): real
  {
    if ps == [] then 0.0
    else
      var last := ps[|ps| - 1];
      DayTotal(ps[..|ps| - 1], precio, day, d) + (if day(last.created_at) == d then Amount(last, precio) else 0.0)
  }

  /** The sum of the points' incomes. */
  function Total(points: seq<Point>): real
  {
    if points == [] then 0.0 else points[0].ingresos + Total(points[1..])
  }

  function Names(points: seq<Point>): seq<string>
  {
    seq(|points|, i requires 0 <= i < |points| => points[i].name)
  }

  // ------------------------------------------------------------------ properties of the map

  lemma {:induction false} TotalAppend(a: seq<Point>, b: seq<Point>)
    ensures Total(a + b) == Total(a) + Total(b)
  {
    if a == [] {
      assert a + b == b;
    } else {
      assert (a + b)[1..] == a[1..] + b;
      TotalAppend(a[1..], b);
    }
  }

  lemma {:induction false} TotalUpdate(points: seq<Point>, k: nat, p: Point)
    requires k < |points|
    ensures Total(points[k := p]) == Total(points) - points[k].ingresos + p.ingresos
  {
    if k > 0 {
      assert points[k := p][1..] == points[1..][k - 1 := p];
      TotalUpdate(points[1..], k - 1, p);
    }
  }

  /** Adding a registration's amount to the map raises the map's total by exactly that amount. */
  lemma AddAmountTotal(days: seq<Point>, d: string, amount: real)
    ensures Total(AddAmount(days, d, amount)) == Total(days) + amount
  {
    match IndexOfDay(days, d)
    case None =>
      TotalAppend(days, [Point(d, 0.0 + amount)]);
    case Some(k) =>
      TotalUpdate(days, k, days[k].(ingresos := days[k].ingresos + amount));
  }

  /** Adding an amount appends the day's label when it is new and keeps the labels otherwise. */
  lemma AddAmountNames(days: seq<Point>, d: string, amount: real)
    ensures Names(AddAmount(days, d, amount)) ==
      if d in Names(days) then Names(days) else Names(days) + [d]
  {
    if d in Names(days) {
      var j :| 0 <= j < |days| && Names(days)[j] == d;
      assert days[j].name == d;
    } else {
      assert forall j :: 0 <= j < |days| ==> days[j].name == Names(days)[j];
    }
  }

  /** The map's labels are the participants' days, each once, in order of first appearance. */
  lemma {:induction false} DaysOfNames(ps: seq<Participant>, precio: real, day: string -> string)
    ensures Names(DaysOf(ps, precio, day)) == FirstKeys(Keys(ps, day))
  {
    if ps != [] {
      var init := ps[..|ps| - 1];
      var last := ps[|ps| - 1];
      var keys := Keys(ps, day);
      DaysOfNames(init, precio, day);
      AddAmountNames(DaysOf(init, precio, day), day(last.created_at), Amount(last, precio));
      assert keys[..|ps| - 1] == Keys(init, day);
      assert keys[|ps| - 1] == day(last.created_at);
    }
  }

  /**
   * With distinct labels, adding an amount raises exactly the entry of that day, or
   * appends a new entry holding just the amount.
   */
  lemma AddAmountEntry(days: seq<Point>, d: string, amount: real, j: nat)
    requires Distinct(Names(days))
    requires j < |AddAmount(days, d, amount)|
    ensures j < |days| ==>
      && AddAmount(days, d, amount)[j].name == days[j].name
      && AddAmount(days, d, amount)[j].ingresos == days[j].ingresos + (if days[j].name == d then amount else 0.0)
    ensures j >= |days| ==>
      j == |days| && d !in Names(days) && AddAmount(days, d, amount)[j] == Point(d, amount)
  {
    match IndexOfDay(days, d)
    case None =>
      if j >= |days| {
        assert forall i :: 0 <= i < |days| ==> days[i].name == Names(days)[i];
      }
    case Some(k) =>
      if j < |days| && days[j].name == d {
        assert Names(days)[j] == Names(days)[k];
      }
  }

  /** Each day's entry holds the income of exactly that day's participants. */
  lemma {:induction false} DaysOfIncome(ps: seq<Participant>, precio: real, day: string -> string, j: nat)
    requires j < |DaysOf(ps, precio, day)|
    ensures DaysOf(ps, precio, day)[j].ingresos == DayTotal(ps, precio, day, DaysOf(ps, precio, day)[j].name)
  {
    var init := ps[..|ps| - 1];
    var last := ps[|ps| - 1];
    var prev := DaysOf(init, precio, day);
    var d := day(last.created_at);
    var amount := Amount(last, precio);
    DaysOfNames(init, precio, day);
    FirstKeysDistinct(Keys(init, day));
    AddAmountEntry(prev, d, amount, j);
    if j < |prev| {
      DaysOfIncome(init, precio, day, j);
    } else {
      AbsentDayTotal(init, precio, day, d);
    }
  }

  /** A day that no participant has brings in nothing. */
  lemma {:induction false} AbsentDayTotal(ps: seq<Participant>, precio: real, day: string -> string, d: string)
    requires d !in FirstKeys(Keys(ps, day))
    ensures DayTotal(ps, precio, day, d) == 0.0
  {
    if ps != [] {
      var init := ps[..|ps| - 1];
      assert Keys(ps, day)[..|ps| - 1] == Keys(init, day);
      assert Keys(ps, day)[|ps| - 1] == day(ps[|ps| - 1].created_at);
      AbsentDayTotal(init, precio, day, d);
    }
  }

  /** The whole map adds up to the income of every sold ticket. */
  lemma {:induction false} DaysOfTotal(ps: seq<Participant>, precio: real, day: string -> string)
    ensures Total(DaysOf(ps, precio, day)) == Income(SoldCount(ps), precio)
  {
    if ps != [] {
      var init := ps[..|ps| - 1];
      var last := ps[|ps| - 1];
      DaysOfTotal(init, precio, day);
      AddAmountTotal(DaysOf(init, precio, day), day(last.created_at), Amount(last, precio));
      assert Income(SoldCount(init), precio) + Amount(last, precio) == Income(SoldCount(ps), precio) by {
        assert SoldCount(ps) == SoldCount(init) + |last.boletos|;
        assert (SoldCount(init) + |last.boletos|) as real * precio
          == SoldCount(init) as real * precio + |last.boletos| as real * precio;
      }
    }
  }

  /** Reversing the points keeps their total. */
  lemma {:induction false} ReverseTotal(points: seq<Point>)
    ensures Total(Reverse(points)) == Total(points)
  {
    if points != [] {
      var init := points[..|points| - 1];
      ReverseTotal(init);
      assert points == init + [points[|points| - 1]];
      TotalAppend(init, [points[|points| - 1]]);
    }
  }

  /** Padding adds a zero point, so it keeps the total. */
  lemma PaddedTotal(chart: seq<Point>)
    ensures Total(Padded(chart)) == Total(chart)
  {
  }

  // ------------------------------------------------------------------ the chart

  /**
   * The `daysMap` loop, `Array.from(daysMap.values()).reverse()` and the padding: the
   * chart's points are the map's entries in reverse insertion order, behind an 'Inicio'
   * point of zero income when there is exactly one of them.
   */
  method DailyChart(ps: seq<Participant>, precio: real, day: string -> string) returns (chart: seq<Point>)
    ensures chart == Padded(Reverse(DaysOf(ps, precio, day)))
  {
    var daysMap: seq<Point> := [];
    var i := 0;
    while i < |ps|
      invariant 0 <= i <= |ps|
      invariant daysMap == DaysOf(ps[..i], precio, day)
    {
      var p := ps[i];
      var d := day(p.created_at);
      var amount := Amount(p, precio);
      SetThenAdd(daysMap, d, amount);
      assert ps[..i + 1][..i] == ps[..i];
      if IndexOfDay(daysMap, d).None? {
        daysMap := daysMap + [Point(d, 0.0)];
      }
      var k := IndexOfDay(daysMap, d).value;
      daysMap := daysMap[k := daysMap[k].(ingresos := daysMap[k].ingresos + amount)];
      i := i + 1;
    }
    assert ps[..i] == ps;
    chart := Reverse(daysMap);
    if |chart| == 1 {
      chart := [Point("Inicio", 0.0)] + chart;
    }
  }

  /**
   * What the chart shows: one point per distinct day, latest-first-seen day first, each
   * with that day's income; all points together add up to the income of the sold tickets.
   */
  lemma ChartContents(ps: seq<Participant>, precio: real, day: string -> string)
    ensures var days := DaysOf(ps, precio, day);
      && Names(Reverse(days)) == Reverse(FirstKeys(Keys(ps, day)))
      && (forall j :: 0 <= j < |days| ==> days[j].ingresos == DayTotal(ps, precio, day, days[j].name))
      && Total(Padded(Reverse(days))) == Income(SoldCount(ps), precio)
  {
    var days := DaysOf(ps, precio, day);
    DaysOfNames(ps, precio, day);
    assert Names(Reverse(days)) == Reverse(Names(days));
    forall j | 0 <= j < |days|
      ensures days[j].ingresos == DayTotal(ps, precio, day, days[j].name)
    {
      DaysOfIncome(ps, precio, day, j);
    }
    DaysOfTotal(ps, precio, day);
    ReverseTotal(days);
    PaddedTotal(Reverse(days));
  }

  /** The chart of the active raffle adds up to the gross income of its taken tickets. */
  lemma ChartMatchesStats(rs: seq<Raffle>, ps: seq<Participant>, precio: real, day: string -> string)
    ensures Total(Padded(Reverse(DaysOf(Participants(rs, ps), precio, day)))) == Income(|TakenTickets(rs, ps)|, precio)
  {
    ChartContents(Participants(rs, ps), precio, day);
    SoldIsTaken(rs, ps);
  }

  /** The day labels in first-appearance order are distinct: the chart has one point per day. */
  lemma {:induction false} FirstKeysDistinct(keys: seq<string>)
    ensures Distinct(FirstKeys(keys))
  {
    if keys != [] {
      FirstKeysDistinct(keys[..|keys| - 1]);
    }
  }

  // ------------------------------------------------------------------ the pie

  /** One slice of the pie: 'Vendidos' or 'Disponibles' and its ticket count. */
  datatype PieSlice = PieSlice(name: string, value: int)

  /** `boletosDisponibles`: the total minus the sold tickets, with no clamping. */
  function BoletosDisponibles(s: Stats): (r: int)
    ensures r + s.boletosVendidos == s.totalBoletos
  {
    s.totalBoletos - s.boletosVendidos
  }

  /** `pieData`: the sold and the available tickets, which together make up the whole raffle. */
  function PieData(s: Stats): (r: seq<PieSlice>)
    ensures |r| == 2 && r[0].name == "Vendidos" && r[1].name == "Disponibles"
    ensures r[0].value == s.boletosVendidos
    ensures r[0].value + r[1].value == s.totalBoletos
  {
    [PieSlice("Vendidos", s.boletosVendidos), PieSlice("Disponibles", BoletosDisponibles(s))]
  }

  /** The available tickets of the pie are the free tickets the landing page counts. */
  lemma PieMatchesCatalog(rs: seq<Raffle>, ps: seq<Participant>, s: Stats)
    requires ActiveRaffle(rs).Some?
    requires s.boletosVendidos == |TakenTickets(rs, ps)| && s.totalBoletos == ActiveRaffle(rs).value.total_boletos
    ensures PieData(s)[1].value == FreeCount(ActiveRaffle(rs).value.total_boletos, TakenTickets(rs, ps))
  {
  }

  // ------------------------------------------------------------------ the page

  class FinancePage {
    var loading: bool
    var stats: Option<Stats>
    var dailyData: seq<Point>

    /** Mounting the page runs `loadData` once. */
    constructor Mount(store: RaffleStore, day: string -> string)
      ensures !loading
      ensures stats.None? <==> ActiveRaffle(store.raffles).None?
      ensures stats.None? ==> dailyData == []
      ensures stats.Some? ==>
        && stats.value.boletosVendidos == |TakenTickets(store.raffles, store.participants)|
        && dailyData == Padded(Reverse(DaysOf(Participants(store.raffles, store.participants), stats.value.precioBoleto, day)))
        && Total(dailyData) == stats.value.ingresosBrutos
    {
      loading := true;
      stats := None;
      dailyData := [];
      new;
      LoadData(store, day);
    }

    /**
     * `loadData`: with no active raffle nothing is computed; otherwise the stats and the
     * chart of the active raffle's participants, priced at the stats' ticket price.
     */
    method LoadData(store: RaffleStore, day: string -> string)
      modifies this
      ensures !loading
      ensures ActiveRaffle(store.raffles).None? ==> stats == old(stats) && dailyData == old(dailyData)
      ensures ActiveRaffle(store.raffles).Some? ==>
        && stats.Some?
        && stats.value.boletosVendidos == |TakenTickets(store.raffles, store.participants)|
        && dailyData == Padded(Reverse(DaysOf(Participants(store.raffles, store.participants), stats.value.precioBoleto, day)))
        && Total(dailyData) == stats.value.ingresosBrutos
    {
      var rs, ps := store.raffles, store.participants;
      var financialStats := store.GetFinancialStats();
      if financialStats.Some? {
        var s := financialStats.value;
        var chart := DailyChart(Participants(rs, ps), s.precioBoleto, day);
        ChartMatchesStats(rs, ps, s.precioBoleto, day);
        assert Total(chart) == s.ingresosBrutos;
        stats := financialStats;
        dailyData := chart;
      }
      loading := false;
    }
  }
}
