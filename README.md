# Raffle app model

A Dafny model of the rules inside a Next.js raffle web app. The app sells numbered
tickets for one active raffle at a time, records who bought which tickets, and picks
the winner with an elimination draw on a wheel.

The model has one module per source file of the core:

- `Store` (`store.dfy`) is the data layer `src/lib/store.ts`.
  - The `rifas` and `participantes` tables are sequences of records in insertion order, held by the class `RaffleStore`.
  - Queries are functions over those sequences. "Newest first" is the reverse of a table, and "newest matching row" is the last matching index.
  - Writes are methods that append or replace rows.
  - `Valid()` keeps ids fresh and distinct, allows at most one `activa` raffle, and keeps the tickets of a raffle's participants disjoint.
- `Draw` (`draw.dfy`) is the draw page `src/app/admin/sorteo/page.tsx`.
  - Its state is the class `DrawPage`.
  - The `setTimeout` chain of one spin is a sequence of steps: `DrawClick`, `SpinSettled`, `EliminationShown` and `ResetDone`.
  - A `timer` field records which callback is pending.
  - `Math.random()` is a real parameter in [0, 1).
- `Participantes` (`participantes.dfy`) is the participants page: the ticket-list parser, the search box and the registration form (class `ParticipantsPage`). The form handler is split at its 600 ms `await` into `HandleRegister` and `RegisterAfterDelay`.
- `Landing` (`landing.dfy`) is the public page `src/app/page.tsx`: the ticket catalog, the free count, the winner banner and the confetti once-flag (class `LandingPage`).
- `Finance` (`finanzas.dfy`) is the finance page.
  - `DailyChart` is the loop that fills `daysMap`, followed by the reversal and the padding.
  - The pie data is also here.
  - The page is the class `FinancePage`.
- `History` (`historial.dfy`) is the history page's search filter and its cancelled/winner display rule.
- `Middleware` (`middleware.dfy`) is the admin route guard `src/middleware.ts`.
- `Common` (`common.dfy`) and `Text` (`text.dfy`) hold the JavaScript library behaviour the pages use.
  - `filter`, `reverse`, `toLowerCase` (ASCII letters only), `includes`, `split`, `join`, `trim` and `toString`.
  - `parseInt`, with leading white space, a sign, the `0x` prefix and the longest digit prefix.

Prices are exact reals. JavaScript truthiness is written out:

- a `ganador_boleto` of 0 is falsy;
- `x || "Anónimo"` falls back on a missing or empty name;
- `cookies.get(...)` is truthy whenever the cookie exists.

Behaviour of the code that the model keeps as it is:

- **Registration checks.** A request is checked only against the tickets already taken. Neither the range `[1, total_boletos]` nor repeats within the request are checked. `Store.RepeatedRequestPasses` and `Landing.RepeatedTicketMiscounts` show the effect, and "## Findings" shows that a repeated ticket can stall the draw.
- **Winning spin.** The stopped wheel wins when `currentIntento >= giro_ganador` or when it had one slice.
- **Finalize result.** The draw page ignores the result of `finalizeRaffle`.
- **Raffle states.** The states are `activa`, `finalizada` and `archivada`. A cancelled raffle is a `finalizada` one whose winner name is `"Cancelada"`.
- **No push updates.** Viewers see changes by polling every two seconds.
- **Finished-raffle branches.** The draw page and the landing page load their raffle through `getActiveRaffle`, which only returns `activa` raffles. So their "already finished" branches can never run. `Draw.LoadNeverFinished`, `Landing.BannerNeverShown` and `Landing.LandingPage.FetchStats` state this.

## Model

| member | source | states |
|---|---|---|
| Store.NewestIndex | src/lib/store.ts:31-42 | the index of the newest row in a given state, or none exactly when no row is in it; no later row is in that state |
| Store.ActiveRaffle | src/lib/store.ts:31-42 | `getActiveRaffle` yields the newest `activa` raffle of the table (no later row is active), and none exactly when no raffle is active |
| Store.LastFinishedRaffle | src/lib/store.ts:44-55 | `getLastFinishedRaffle` yields the newest `finalizada` raffle of the table (no later row is finished), and none exactly when no raffle is finished |
| Store.HistoricalRaffles | src/lib/store.ts:57-66 | the history holds only finished or archived raffles |
| Store.HistoricalMembers | src/lib/store.ts:57-66 | a raffle is in the history iff it is in the table and finished or archived |
| Store.HistoricalNewestFirst | src/lib/store.ts:57-62 | the history is newest first: a row added to the table leads the history when it is finished or archived, and leaves it unchanged otherwise |
| Store.Participants | src/lib/store.ts:68-80 | `getParticipants` is empty without an active raffle, and otherwise holds only participants of the active raffle |
| Store.ParticipantsMembers | src/lib/store.ts:68-80 | a participant is listed iff there is an active raffle and the participant belongs to it |
| Store.ParticipantsNewestFirst | src/lib/store.ts:68-76 | the list is newest first: a participant added to the table leads it when it belongs to the active raffle, and leaves it unchanged otherwise |
| Store.TakenTicketsOwned | src/lib/store.ts:82-85 | a ticket is taken iff a participant of the active raffle holds it; none is taken without an active raffle |
| Store.FlatTicketsOwned | src/lib/store.ts:84 | the `flatMap` of the tickets contains a number iff some participant holds it |
| Store.SoldIsTaken | src/lib/store.ts:97-103 | the counted `boletosVendidos` equals the number of taken tickets |
| Store.CountTickets | src/lib/store.ts:99-103 | the `forEach` loop adds up every participant's ticket count |
| Store.RaffleStore.GetFinancialStats | src/lib/store.ts:87-114 | none iff no raffle is active; otherwise sold = number of taken tickets, gross = sold × price, projected = total × price |
| Store.RaffleStore.GetFinancialStatsForRaffle | src/lib/store.ts:116-143 | the same figures for a given raffle, with 0 sold when the query fails |
| Store.RaffleStore.CreateRaffle | src/lib/store.ts:145-159 | refuses with "Ya existe una rifa activa…" and writes nothing while a raffle is active; otherwise appends the data as a new `activa` raffle with a fresh id; a raffle is active afterwards and there is never a second one |
| Store.RaffleStore.UpdateActiveRaffle | src/lib/store.ts:161-176 | errors and writes nothing without an active raffle; otherwise patches the active row only |
| Store.Conflicts | src/lib/store.ts:185 | every reported conflict is a requested ticket that is taken |
| Store.ConflictsMembers | src/lib/store.ts:185 | a number is a conflict iff it is requested and taken |
| Store.NoConflictSharesNothing | src/lib/store.ts:184-189 | a request without conflicts shares no ticket with any participant of the active raffle |
| Store.RepeatedRequestPasses | src/lib/store.ts:185-187 | a request repeating a free number raises no conflict; repeats and range are not checked |
| Store.FlatTicketsCons | src/lib/store.ts:84 | the tickets of a participant put first come first in the `flatMap` |
| Store.RegisteredTicketsFirst | src/lib/store.ts:68-85 | after a participant of the active raffle is inserted, its tickets lead the taken list, followed by the earlier taken list |
| Store.AcceptableRequestKeepsDistinct | src/lib/store.ts:184-189 | with the check that also refuses repeats within a request, registrations keep every sold number sold once |
| Store.AppendKeepsUnique | src/lib/store.ts:191-199 | appending a participant who shares no ticket with the others keeps tickets unique per raffle |
| Store.RaffleStore.RegisterParticipant | src/lib/store.ts:178-205 | without an active raffle: the "No hay rifa activa…" error and no write; with conflicts: the error listing them and no write; otherwise it appends a `pagado` participant of the active raffle with the requested tickets, and tickets stay unique |
| Store.RaffleStore.FinalizeRaffle | src/lib/store.ts:207-224 | the active raffle becomes `finalizada` with the winner's ticket and name; no other row changes; no raffle is active afterwards |
| Store.NoActiveAfterClose | src/lib/store.ts:207-224 | closing the only active raffle leaves none active |
| Store.RaffleStore.ResetStore | src/lib/store.ts:226-234 | the active raffle becomes `finalizada` named "Cancelada"; nothing changes when none is active |
| Store.RaffleStore.ArchiveWinner | src/lib/store.ts:236-247 | the newest finished raffle becomes `archivada`; an error and no write when there is none |
| Store.OrAnonymous | src/app/page.tsx:223 | a missing or empty name shows as "Anónimo"; any other name shows as itself; the result is never empty |
| Draw.InsertCardSorted | src/app/admin/sorteo/page.tsx:80 | inserting a card into a sorted wheel keeps it sorted by ticket and adds exactly that card |
| Draw.SortByBoletoSorts | src/app/admin/sorteo/page.tsx:80 | the sort is ordered by ticket number and is a permutation of its input |
| Draw.SortByBoletoCount | src/app/admin/sorteo/page.tsx:80 | the sort keeps every card as many times as it occurs |
| Draw.SortByBoletoOrdered | src/app/admin/sorteo/page.tsx:80 | the sort orders the cards by ascending ticket number |
| Draw.CardsOfMembership | src/app/admin/sorteo/page.tsx:74-78 | the inner loop yields exactly the participant's non-eliminated tickets with its name |
| Draw.CollectSlicesMembership | src/app/admin/sorteo/page.tsx:73-79 | the nested loops yield exactly the non-eliminated tickets of all participants, each with its owner's name |
| Draw.SlicesExactly | src/app/admin/sorteo/page.tsx:71-81 | the wheel holds exactly the sold, non-eliminated tickets with their owners, sorted ascending |
| Draw.SliceTickets | src/app/admin/sorteo/page.tsx:71-81 | a ticket is on the wheel iff it is taken and not eliminated |
| Draw.SliceNotEliminated | src/app/admin/sorteo/page.tsx:75 | no card on the wheel carries an eliminated ticket |
| Draw.EliminationShrinks | src/app/admin/sorteo/page.tsx:129 | eliminating a card's ticket strictly shrinks the wheel and removes exactly the cards of that ticket |
| Draw.DistinctWheelSize | src/app/admin/sorteo/page.tsx:71-81 | when no ticket is sold twice, the wheel has one slice per sold ticket not yet eliminated |
| Draw.DistinctDrawProgress | src/app/admin/sorteo/page.tsx:90-133 | when no ticket is sold twice, a losing spin leaves at least one slice and keeps the eliminated count below both `giro_ganador` and the sold count, so a win comes within min(`giro_ganador`, sold tickets) - 1 eliminations |
| Draw.RepeatedTicketStallsDraw | src/app/admin/sorteo/page.tsx:90-133 | one participant holding 5 twice, with `giro_ganador` 3: two slices, a losing first spin, then an empty wheel on which the click returns at once |
| Draw.TargetIndex | src/app/admin/sorteo/page.tsx:96 | `floor(random × N)` is a valid index into the wheel |
| Draw.LoadedWinner | src/app/admin/sorteo/page.tsx:32-38 | a loaded raffle restores a winner iff it is finished and its winning ticket is truthy (not 0); the restored card carries that ticket and the winner name, or "Anónimo" when it is missing or empty |
| Draw.LoadNeverFinished | src/app/admin/sorteo/page.tsx:28-38 | the load never restores a finished raffle's winner, because `getActiveRaffle` only yields `activa` raffles |
| Draw.DrawPage.Mount | src/app/admin/sorteo/page.tsx:14-43 | the initial draw state (attempt 1, nothing eliminated, no winner) and the loaded raffle and participants |
| Draw.DrawPage.GetSliceDetails | src/app/admin/sorteo/page.tsx:71-81 | the nested loops plus the sort compute the wheel |
| Draw.DrawPage.DrawClick | src/app/admin/sorteo/page.tsx:89-98 | does nothing without a raffle, during a spin, after the end or with an empty wheel; otherwise starts a spin on the wheel's card at `TargetIndex` |
| Draw.DrawPage.SpinSettled | src/app/admin/sorteo/page.tsx:116-127 | the spin wins iff the attempt reached `giro_ganador` or N = 1; a win finalizes the raffle with that card; otherwise the card is shown eliminated |
| Draw.DrawPage.DeclareWinner | src/app/admin/sorteo/page.tsx:119-124 | the card becomes the winner, the draw is finished and stops spinning, and the store's active raffle is finalized with that ticket and name |
| Draw.DrawPage.EliminationShown | src/app/admin/sorteo/page.tsx:128-133 | the ticket is appended to the eliminated list, the attempt rises by one, the wheel strictly shrinks, fewer than `giro_ganador` tickets are eliminated, and when no ticket is sold twice exactly one slice goes and at least one remains |
| Draw.DrawPage.ResetDone | src/app/admin/sorteo/page.tsx:134-138 | the wheel accepts the next spin; the draw state is otherwise unchanged |
| Text.Lower | src/app/admin/participantes/page.tsx:72 | lower-casing keeps the length and maps every character on its own |
| Text.LowerIdempotent | src/app/admin/participantes/page.tsx:72 | lower-casing twice is lower-casing once |
| Text.LowerSlice | src/app/admin/participantes/page.tsx:72 | the lower-cased slice of a string is the slice of the lower-cased string |
| Text.ContainsLower | src/app/admin/participantes/page.tsx:72 | text found as written is still found once both sides are lower-cased |
| Text.Contains | src/app/admin/participantes/page.tsx:72 | `includes` holds iff the needle occurs at some position |
| Text.ContainsEmpty | src/app/admin/participantes/page.tsx:72 | every string includes the empty string |
| Text.Split | src/app/admin/participantes/page.tsx:45 | `split(',')` yields at least one piece and no piece contains a comma |
| Text.JoinSplit | src/app/admin/participantes/page.tsx:45 | joining the pieces with the separator gives back the input |
| Text.SplitAround | src/app/admin/participantes/page.tsx:45 | splitting around a separator splits each side |
| Text.TrimLeadingSpace | src/app/admin/participantes/page.tsx:45 | `trim` drops a leading white-space character |
| Text.TrimIntToString | src/app/admin/participantes/page.tsx:45 | a decimal numeral is unchanged by `trim` |
| Text.DigitRun | src/app/admin/participantes/page.tsx:45 | the longest digit prefix that `parseInt` reads |
| Text.NatToStringValue | src/app/admin/participantes/page.tsx:74 | `toString` of a number is all digits and reads back as that number |
| Text.ParseDigits | src/app/admin/participantes/page.tsx:45 | `parseInt` of an optionally signed digit string is its value |
| Text.ParseIntToString | src/app/admin/participantes/page.tsx:45 | `parseInt(String(x)) == x` for every integer |
| Participantes.ParseAll | src/app/admin/participantes/page.tsx:45 | the `map`/`filter(!isNaN)` chain yields at most one number per piece |
| Participantes.ParseAllAppend | src/app/admin/participantes/page.tsx:45 | parsing a concatenation of pieces concatenates the results, keeping input order |
| Participantes.ParseAllAround | src/app/admin/participantes/page.tsx:45 | the numbers on each side of a comma are read independently, left side first |
| Participantes.SkipsUnparsed | src/app/admin/participantes/page.tsx:45 | a leading piece that does not parse adds nothing |
| Participantes.ParseTicketsAround | src/app/admin/participantes/page.tsx:45 | the numbers of `a,b` are those of `a` followed by those of `b` |
| Participantes.DropsUnparsed | src/app/admin/participantes/page.tsx:45 | a piece that does not parse contributes nothing |
| Participantes.DropsNonNumbers | src/app/admin/participantes/page.tsx:45 | a non-numeric piece between commas is dropped and the rest keep their order |
| Participantes.PieceParser | src/app/admin/participantes/page.tsx:45 | trim-then-`parseInt` ignores leading blanks, reads every integer's numeral, and rejects the empty piece |
| Participantes.LeadingBlank | src/app/admin/participantes/page.tsx:45 | a leading blank does not change the parsed list |
| Participantes.ListRoundTrip | src/app/admin/participantes/page.tsx:45 | for any such piece parser, parsing `ns` joined with ", " gives back `ns`, duplicates included |
| Participantes.ParseTicketsOfList | src/app/admin/participantes/page.tsx:45 | the ticket field parses a ", "-separated list of integers back to that list |
| Participantes.SomeTicketIs | src/app/admin/participantes/page.tsx:74 | `boletos.some(b => b.toString() === term)` holds iff some ticket's numeral is the term |
| Participantes.FilterParticipantsMembers | src/app/admin/participantes/page.tsx:71-75 | a participant is listed iff it is loaded and its lower-cased name contains the lower-cased term, or its phone contains the term, or a ticket's numeral equals it |
| Participantes.EmptySearchKeepsAll | src/app/admin/participantes/page.tsx:71-75 | an empty term lists every participant in order |
| Participantes.SearchKeepsOrder | src/app/admin/participantes/page.tsx:71-75 | the search distributes over concatenation, so it keeps the loaded order |
| Participantes.SearchFindsOwner | src/app/admin/participantes/page.tsx:74 | searching for a held ticket's number lists its holder |
| Participantes.NameSearchFindsLiteral | src/app/admin/participantes/page.tsx:72 | a participant whose name contains the search term exactly as typed always matches the case-insensitive test |
| Participantes.ParticipantsPage.LoadData | src/app/admin/participantes/page.tsx:21-28 | shows the active raffle, and its participants when there is one; otherwise keeps the old list |
| Participantes.ParticipantsPage.Mount | src/app/admin/participantes/page.tsx:8-32 | an empty, closed form and the loaded raffle and participants |
| Participantes.ParticipantsPage.HandleRegister | src/app/admin/participantes/page.tsx:40-54 | an input with no number sets "Ingresa al menos un número válido." and calls nothing; otherwise the parsed numbers wait out the delay with the form loading and no error |
| Participantes.ParticipantsPage.RegisterAfterDelay | src/app/admin/participantes/page.tsx:54-68 | on a store error the fields stay and the message shows; on success the participant is registered, the form closes, its fields are cleared and the list reloads |
| Participantes.ParticipantsPage.ShowResult | src/app/admin/participantes/page.tsx:58-67 | the form stops loading; an error is shown and leaves the fields; a success closes and clears the form and reloads the active raffle's participants |
| Landing.FindOwner | src/app/page.tsx:195 | `find` yields the first participant holding the number, or none iff nobody holds it |
| Landing.Catalog | src/app/page.tsx:192-193 | one row per number 1..`total_boletos`, ascending; no rows for a negative size |
| Landing.CatalogRows | src/app/page.tsx:192-223 | a row is taken iff its number is in `takenTickets`; a taken row's owner is the first holder in store order; its name falls back to "Anónimo" when missing or empty |
| Landing.CatalogNumbers | src/app/page.tsx:192-193 | a number is in the catalog iff it lies in 1..`total_boletos` |
| Landing.TakenRowsHaveOwners | src/app/page.tsx:194-195 | with data from one store state, every taken row has an owner holding that number |
| Landing.ShownName | src/app/page.tsx:223 | the shown owner name is never empty |
| Landing.FreeCountMatchesCatalog | src/app/page.tsx:185-195 | without repeated or out-of-range taken numbers, "Libres" equals the number of rows shown free |
| Landing.FreeUpToAtLeast | src/app/page.tsx:192-195 | the free numbers among 1..n plus the taken entries in that range are at least n, and exceed it when some number in range is taken twice |
| Landing.RepeatedTicketMiscounts | src/app/page.tsx:185-195 | whenever every taken number lies in 1..`total_boletos` and some number is taken twice, "Libres" is strictly smaller than the rows shown free |
| Landing.FinalizedShowsBanner | src/app/page.tsx:120 | the raffle `finalizeRaffle` closes meets the banner condition iff its winning ticket is not 0 |
| Landing.BannerNeverShown | src/app/page.tsx:120 | a raffle from `getActiveRaffle` never meets the banner condition |
| Landing.LandingPage.Loaded | src/app/page.tsx:29-41 | shows the fetched raffle, and its tickets and participants when there is one; the confetti fires iff the raffle is finished and the flag was unset, so it fires at most once |
| Landing.LandingPage.FetchStats | src/app/page.tsx:28-42 | `fetchStats` against a store: the active raffle, its taken tickets and its participants; the confetti never fires |
| Landing.LandingPage.Mount | src/app/page.tsx:27-44 | the first fetch, with the confetti fired at most once |
| Finance.IndexOfDay | src/app/admin/finanzas/page.tsx:36 | `daysMap.has(day)`: the position of the day's entry, or none iff absent |
| Finance.SetThenAdd | src/app/admin/finanzas/page.tsx:36-39 | `has`/`set`/`get().ingresos +=` finds the day and adds the amount to its entry |
| Finance.AppendedDay | src/app/admin/finanzas/page.tsx:37 | a newly set day is found at the end of the map |
| Finance.AddAmountTotal | src/app/admin/finanzas/page.tsx:35-39 | one turn of the loop raises the map's total by the registration's amount |
| Finance.AddAmountNames | src/app/admin/finanzas/page.tsx:36-38 | one turn appends the day's label iff it is new |
| Finance.AddAmountEntry | src/app/admin/finanzas/page.tsx:36-39 | one turn raises exactly the day's entry, or appends a new entry holding the amount |
| Finance.DaysOfNames | src/app/admin/finanzas/page.tsx:33-40 | the map's labels are the participants' days, each once, in order of first appearance |
| Finance.FirstKeysDistinct | src/app/admin/finanzas/page.tsx:36 | the chart has one point per distinct day |
| Finance.DaysOfIncome | src/app/admin/finanzas/page.tsx:33-40 | each day's entry is the sum of `boletos.length × precio` over that day's participants |
| Finance.DaysOfTotal | src/app/admin/finanzas/page.tsx:33-40 | the whole map adds up to the income of every sold ticket |
| Finance.ReverseTotal | src/app/admin/finanzas/page.tsx:43 | the reversal keeps the total |
| Finance.Padded | src/app/admin/finanzas/page.tsx:45-47 | an 'Inicio' point goes in front of a one-point chart only; the original points end the list |
| Finance.DailyChart | src/app/admin/finanzas/page.tsx:31-47 | the loop builds `daysMap`; the chart is its entries reversed, padded when there is one |
| Finance.ChartContents | src/app/admin/finanzas/page.tsx:31-47 | chart points are the distinct days in reverse first-appearance order, each with its day's income; their total is sold × price |
| Finance.ChartMatchesStats | src/app/admin/finanzas/page.tsx:25-48 | the active raffle's chart adds up to the gross income of its taken tickets |
| Finance.BoletosDisponibles | src/app/admin/finanzas/page.tsx:71 | available + sold = total, unclamped |
| Finance.PieData | src/app/admin/finanzas/page.tsx:73-76 | the two pie values are the sold and the available tickets and sum to the total |
| Finance.PieMatchesCatalog | src/app/admin/finanzas/page.tsx:71 | the pie's available tickets equal the landing page's "Libres" figure |
| Finance.FinancePage.LoadData | src/app/admin/finanzas/page.tsx:24-51 | nothing is computed without an active raffle; otherwise the stats and the chart of its participants, whose total is the gross income |
| Finance.FinancePage.Mount | src/app/admin/finanzas/page.tsx:18-53 | after its single load the page holds no stats and no chart exactly when no raffle is active; otherwise the sold count is the number of taken tickets, the chart is the padded, reversed per-day income of the active raffle's participants, and its total is the gross income |
| History.FilterHistory | src/app/admin/historial/page.tsx:21-24 | every listed raffle matches the term |
| History.FilterHistoryMembers | src/app/admin/historial/page.tsx:21-24 | a raffle is listed iff it is loaded and its lower-cased name or winner name contains the lower-cased term |
| History.NoWinnerMatchesOnName | src/app/admin/historial/page.tsx:23 | a raffle without a winner name is listed on its prize name only |
| History.EmptyHistorySearchKeepsAll | src/app/admin/historial/page.tsx:21-24 | an empty term lists every raffle |
| History.HistorySearchKeepsOrder | src/app/admin/historial/page.tsx:21 | the filter keeps the loaded, newest-first order |
| History.HistoryListing | src/app/admin/historial/page.tsx:14-24 | the page lists exactly the finished or archived raffles that match |
| History.HistorySearchFindsLiteral | src/app/admin/historial/page.tsx:22-23 | a raffle whose prize name or winner name contains the search term exactly as typed always matches the case-insensitive test |
| History.ShowsWinnerSection | src/app/admin/historial/page.tsx:109 | the winner section shows iff the winner name is not "Cancelada" |
| History.ClosedRaffleDisplay | src/app/admin/historial/page.tsx:81-109 | a raffle closed by `finalizeRaffle` is in the history and shows its winner unless the name is "Cancelada" |
| History.ResetRaffleDisplay | src/app/admin/historial/page.tsx:81-84 | a raffle closed by `resetStore` is in the history, badged "Cancelada", without a winner section |
| Middleware.Guard | src/middleware.ts:4-25 | every redirect goes to "/admin/login" or "/admin" |
| Middleware.UnsignedAdminGoesToLogin | src/middleware.ts:6-13 | the redirect to login happens iff an admin path other than the login page is requested without the cookie |
| Middleware.SignedLoginGoesToDashboard | src/middleware.ts:17-21 | the redirect to the dashboard happens iff the login page is requested with the cookie |
| Middleware.GuardPasses | src/middleware.ts:6-24 | the request passes iff it is the login page without the cookie, another admin page with it, or a non-admin path |
| Middleware.NoSelfRedirect | src/middleware.ts:6-21 | no decision redirects a path to itself |
| Middleware.RedirectSettles | src/middleware.ts:6-21 | following a redirect with the same cookie state passes, so redirects never chain |
| Middleware.AdministratorIsAdmin | src/middleware.ts:6 | the plain prefix test treats "/administrator" as an admin path |
| Middleware.MatchedPathsAreAdmin | src/middleware.ts:27-29 | every path the matcher admits is an admin path, and "/administrator" is not admitted |

## Findings

| source | as written | input that shows it | evidently intended | confidence | as-written member | corrected member |
|---|---|---|---|---|---|---|
| src/lib/store.ts:184-189 | the request is checked only against the taken tickets, so a number repeated within a request is sold twice; the draw page puts both copies on the wheel and eliminates both at once, and on an empty wheel `handleDrawClick` returns at once (src/app/admin/sorteo/page.tsx:90) | register "5,5" as the only participant, `giro_ganador` 3: two slices, the first spin loses, eliminating 5 empties the wheel, no winner is ever drawn | each number is sold once, so every losing spin leaves a slice and the draw ends with a winner | high (not executed) | Draw.RepeatedTicketStallsDraw | Store.AcceptableRequestKeepsDistinct, Draw.DistinctDrawProgress |

The model's `Store.RaffleStore.RegisterParticipant` keeps the check as written. `Store.RequestAcceptable` is the corrected check. `Store.AcceptableRequestKeepsDistinct` proves that it keeps the sold tickets distinct. `Draw.DistinctDrawProgress` and `Draw.DrawPage.EliminationShown` prove that the draw then always progresses.

## Left out

- Supabase I/O is not modelled. The tables are in-memory sequences, ids come from a counter, and `created_at` is a string the caller supplies. Failed writes and failed reads are left out, except the per-raffle stats query, whose failure is a parameter.
- `registerParticipant`'s read, check and insert are not atomic. The model runs them as one sequential step and claims no uniqueness under parallel requests.
- The wheel's rotation, angles, SVG geometry, percentages and currency formatting are floating-point display. They are left out.
- Timers, polling intervals and animations are left out.
  - The spin's `setTimeout` chain is discrete steps.
  - The landing page's two-second refresh is repeated calls of `FetchStats`.
  - Confetti is a counter of firings.
- `format(parseISO(created_at), 'MMM dd')` comes from a date library. The day label is a function parameter of the finance chart.
- `toLowerCase` covers the ASCII letters only.
- `parseInt` works on unbounded integers, so precision loss above 2^53 is not modelled.
- `src/app/admin/page.tsx` is left out: it calls store operations that `src/lib/store.ts` does not define. The raffle-creation form, login/logout, the admin layout and the UI components are form binding and chrome.
- The participants page's `loadData` after a successful registration is not awaited in the source. The model runs it at once.
- Participantes.ParticipantsPage.HandleRegister: requires the form not to be loading, since the submit button is disabled while it is (src/app/admin/participantes/page.tsx:243). A second submission during the delay is not modelled.
- Text.TrimStart: states only that the result is empty or starts with a non-blank character, not that it is a suffix of the input.
- `Store.RafflePatch`, the record `updateActiveRaffle` receives, has no `id` or `created_at` field, although `Partial<Raffle>` allows both. A patch that rewrites a raffle's id or creation date is not modelled.
- Landing.LandingPage.FetchStats: reads the taken tickets and the participants from one store state, while the page awaits them one after the other (src/app/page.tsx:32-33). A registration landing between the two reads, which could make them disagree, is not modelled; `Landing.TakenRowsHaveOwners` relies on the single state.
- Draw.DrawPage.Mount: reads the active raffle and its participants from one store state, while the page awaits them one after the other (src/app/admin/sorteo/page.tsx:28,31). A write landing between the two reads is not modelled.
- Participantes.ParticipantsPage.LoadData: reads the active raffle and its participants from one store state, while the page awaits them one after the other (src/app/admin/participantes/page.tsx:22,25). A write landing between the two reads is not modelled.
- Finance.FinancePage.LoadData: computes the stats and the participants for the chart from one store state, while the page awaits them one after the other (src/app/admin/finanzas/page.tsx:24,29). Its guarantee that the chart total equals the gross income relies on that single state.
