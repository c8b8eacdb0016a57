# Hotel reservation core

A Dafny model of the booking core of the hotel back end:

- `ReservationService` admits, replaces and removes reservations. It keeps at
  most one stay per accommodation at any instant.
- The `existsByAccommodationIdAndDateRange` overlap query is the availability
  test that admission relies on.
- The per-client reports are the total value of a client's stays, the stays
  with the highest and the lowest accommodation value, and the invoice.
- `ClientService`, `BedroomService` and `AccommodationService` are the keyed
  stores. Each offers look-up, insert, update and delete with not-found and
  integrity errors.

Modules:

- `Common`: `Option`, `Result`, and the error kinds. These are not found (per
  entity), conflict, invalid argument (incomplete client data, no qualifying
  stay), the database error raised for a refused delete, and the raw
  integrity violation that `AccommodationService` lets through.
- `Clients`, `Bedrooms`, `Accommodations`: one class per service.
  - The table is a `map` from id to record. A `nextId` counter stands for the
    identity column.
  - The methods set exactly the fields the service's setters set, and leave
    every other row alone.
  - A delete that the database refuses is modelled by a `referenced` set. It
    holds the ids that another table still points at.
  - The accommodation's client and bedroom are non-null foreign keys. Insert
    and update receive the ids stored in the client and bedroom tables
    (`clientIds`, `bedroomIds`), and the database refuses a row naming any
    other id.
- `ReservationQueries`: the repository's queries as pure functions over the
  reservation map.
  - The overlap query (`COUNT(r) > 0` over the WHERE clause).
  - The derived queries `findByClientId` and
    `findTopByClientIdOrderByAccommodationValueDesc/Asc`. They are called by
    the service but not declared in the repository interface, so they are
    defined here by their Spring Data naming: reservations of the client, in
    repository order, or ordered by accommodation value with the first one
    kept.
  - The no-overlap invariant and the lemmas that keep it.
- `Reservations`: the service.
  - `isNullOrEmpty` and Java's `isBlank` / `Character.isWhitespace`.
  - The total, highest and lowest reports as functions.
  - `GenerateInvoice` as a method with the source's accumulation loop.
  - The `ReservationService` class, whose `Valid()` holds three things:
    - ids below `nextId`;
    - every reservation's client and accommodation exist;
    - no two reservations of one accommodation overlap.

Modelling choices:

- Instants are integers.
- Monetary values (`double` in the source) are integers, as cents.
- Nullable strings are `Option<string>`.
- Repository order is ascending id.
- A reservation request is the tuple (client, accommodation, check-in,
  check-out).
- The stores are not wired to each other.
  - `ReservationService` receives its client and accommodation tables when
    it is constructed, and never changes them. They are not the table of
    `ClientService`, so in the model a client inserted after construction
    cannot book.
  - The `referenced` sets of the three deletes, and the `clientIds` and
    `bedroomIds` of the accommodation store, are parameters. They are not
    derived from the other tables.
- The accommodation that `ReservationService` reads has a description and a
  value, as used by the invoice and the reports.
  - The `Accommodation` entity managed by `AccommodationService` carries a
    client, a bedroom and two dates instead.
  - The two are therefore two datatypes, `ReservationQueries.Accommodation`
    and `Accommodations.Accommodation`.

## Model

| member | source | states |
|---|---|---|
| Clients.ClientService.FindById | src/main/java/edu/ifmg/com/services/ClientService.java:37-42 | succeeds exactly when the id is stored, with that client; otherwise client NotFound |
| Clients.ClientService.Insert | src/main/java/edu/ifmg/com/services/ClientService.java:44-53 | stores a new client under a fresh id. Name, email, password and phone are copied; address, city and role stay unset. No other row changes, and the new id then resolves to the saved client |
| Clients.ClientService.Update | src/main/java/edu/ifmg/com/services/ClientService.java:55-68 | a missing id is NotFound and changes nothing. Otherwise it overwrites name, email, password and phone, keeps address, city and role, changes no other row, and the id then resolves to the new record |
| Clients.ClientService.Delete | src/main/java/edu/ifmg/com/services/ClientService.java:70-80 | a missing id is NotFound. A referenced client is the database error. Both remove nothing; otherwise exactly that client is removed |
| Bedrooms.BedroomService.FindById | src/main/java/edu/ifmg/com/services/BedroomService.java:37-42 | succeeds exactly when the id is stored, with that bedroom; otherwise bedroom NotFound |
| Bedrooms.BedroomService.Insert | src/main/java/edu/ifmg/com/services/BedroomService.java:44-52 | stores a new bedroom under a fresh id with description, value and image link copied; no other row changes |
| Bedrooms.BedroomService.Update | src/main/java/edu/ifmg/com/services/BedroomService.java:54-66 | a missing id is NotFound and changes nothing; otherwise description, value and image link are overwritten and no other row changes |
| Bedrooms.BedroomService.Delete | src/main/java/edu/ifmg/com/services/BedroomService.java:68-78 | a missing id is NotFound. A referenced bedroom is the database error. Both remove nothing; otherwise exactly that bedroom is removed |
| Accommodations.AccommodationService.FindById | src/main/java/edu/ifmg/com/services/AccommodationService.java:27-32 | succeeds exactly when the id is stored; otherwise accommodation NotFound |
| Accommodations.AccommodationService.Insert | src/main/java/edu/ifmg/com/services/AccommodationService.java:34-44 | a client or bedroom id that its table does not hold is refused by the non-null foreign keys with the raw integrity violation, and nothing is stored. Otherwise it stores the client, bedroom, check-in and check-out as given, with no date-order or overlap check, under a fresh id that then resolves to the saved record |
| Accommodations.AccommodationService.Update | src/main/java/edu/ifmg/com/services/AccommodationService.java:46-58 | a missing id is NotFound. Then a client or bedroom id that its table does not hold is the raw integrity violation. Both change nothing; otherwise client, bedroom and both dates are overwritten, no other row changes, and the id resolves to the new record |
| Accommodations.AccommodationService.Delete | src/main/java/edu/ifmg/com/services/AccommodationService.java:60-65 | a missing id is NotFound. A referenced row gives the uncaught integrity violation. Both remove nothing; otherwise exactly that row is removed |
| ReservationQueries.CountInDateRange | src/main/java/edu/ifmg/com/repositories/ReservationRepository.java:13-19 | the count over the given ids is positive exactly when one of them matches the WHERE clause |
| ReservationQueries.ExistsByAccommodationIdAndDateRange | src/main/java/edu/ifmg/com/repositories/ReservationRepository.java:13-24 | true exactly when some stored reservation of the accommodation starts before the requested check-out and ends after the requested check-in. It is a function of the table, so the table is unchanged |
| ReservationQueries.InDateRangeIsOverlap | src/main/java/edu/ifmg/com/repositories/ReservationRepository.java:16-18 | the WHERE clause is the same accommodation plus the half-open interval overlap test |
| ReservationQueries.OverlapsIsSymmetric | src/main/java/edu/ifmg/com/repositories/ReservationRepository.java:17-18 | the existing stay overlaps the requested one iff the requested overlaps the existing one |
| ReservationQueries.BackToBackIsNotInDateRange | src/main/java/edu/ifmg/com/repositories/ReservationRepository.java:17-18 | a stay starting when the stored one ends, or ending when it starts, does not match |
| ReservationQueries.OtherAccommodationIsIgnored | src/main/java/edu/ifmg/com/repositories/ReservationRepository.java:16 | storing or replacing a reservation of another accommodation leaves the answer as it is without that row |
| ReservationQueries.BackToBackScenario | src/main/java/edu/ifmg/com/repositories/ReservationRepository.java:13-19 | with [20, 25) booked, [24, 28) is taken and [25, 28) is free |
| ReservationQueries.AdmittedKeepsNoOverlap | src/main/java/edu/ifmg/com/services/ReservationService.java:64-88 | storing a stay the query found free keeps every accommodation free of overlapping reservations |
| ReservationQueries.RemovedKeepsNoOverlap | src/main/java/edu/ifmg/com/services/ReservationService.java:123-128 | removing a reservation keeps the table free of overlaps |
| ReservationQueries.OwnStayIsInDateRange | src/main/java/edu/ifmg/com/services/ReservationService.java:94-102 | the update's query counts the reservation being updated: its own non-empty stay is always reported as taken |
| ReservationQueries.ExistsOtherInDateRange | src/main/java/edu/ifmg/com/services/ReservationService.java:94-102 | the corrected query is true exactly when a reservation other than the updated one overlaps the stay |
| ReservationQueries.OwnStayIsFreeExcludingSelf | src/main/java/edu/ifmg/com/services/ReservationService.java:94-102 | in a table without overlaps, the corrected query never reports a reservation's own stay as taken |
| ReservationQueries.ReplacedKeepsNoOverlap | src/main/java/edu/ifmg/com/services/ReservationService.java:104-117 | replacing a reservation by a stay that no other reservation overlaps keeps the table free of overlaps |
| ReservationQueries.FindByClientId | src/main/java/edu/ifmg/com/services/ReservationService.java:158-165 | the derived query (also used at line 210) returns exactly the client's reservations, each once, in increasing id order, and is empty exactly when the client has none |
| ReservationQueries.FindByClientIdAfterAppend | src/main/java/edu/ifmg/com/services/ReservationService.java:158 | a reservation stored under a new largest id comes last in its client's list; other clients' lists do not change |
| ReservationQueries.FirstMaxIndex | src/main/java/edu/ifmg/com/services/ReservationService.java:200 | the position of a largest value, with every earlier value strictly smaller (the first in a stable descending sort) |
| ReservationQueries.FirstMinIndex | src/main/java/edu/ifmg/com/services/ReservationService.java:205 | the position of a smallest value, with every earlier value strictly larger (the first in a stable ascending sort) |
| ReservationQueries.FindTopByClientIdOrderByAccommodationValueDesc | src/main/java/edu/ifmg/com/services/ReservationService.java:200 | at most one row, none exactly when the client has no reservation. The row is a reservation of the client with the highest accommodation value, and every reservation of the client with a smaller id has a strictly lower value |
| ReservationQueries.FindTopByClientIdOrderByAccommodationValueAsc | src/main/java/edu/ifmg/com/services/ReservationService.java:205 | the same with the lowest value: any reservation of the client with a smaller id has a strictly higher value |
| Reservations.IsBlank | src/main/java/edu/ifmg/com/services/ReservationService.java:196 | a string is blank exactly when every character is Java whitespace, so the empty string is blank |
| Reservations.IsNullOrEmpty | src/main/java/edu/ifmg/com/services/ReservationService.java:195-197 | true exactly for null or for a string whose every character is whitespace |
| Reservations.TotalReservationValueByClient | src/main/java/edu/ifmg/com/services/ReservationService.java:209-215 | the sum of the accommodation values over the client's reservations: 0 for a client with no reservation, and TotalAfterAppend gives how each further reservation changes it |
| Reservations.TotalAfterAppend | src/main/java/edu/ifmg/com/services/ReservationService.java:209-215 | a new reservation raises its client's total by its accommodation's value and leaves every other client's total unchanged |
| Reservations.ReservationWithHighestAccommodationValue | src/main/java/edu/ifmg/com/services/ReservationService.java:199-202 | empty exactly when the client has no reservation. Otherwise it is one of the client's reservations with no other of the client's reservations worth more, and ties go to the earliest |
| Reservations.ReservationWithLowerAccommodationValue | src/main/java/edu/ifmg/com/services/ReservationService.java:204-207 | empty exactly when the client has no reservation. Otherwise it is one of the client's reservations with none worth less, and ties go to the earliest |
| Reservations.LowestNotAboveHighest | src/main/java/edu/ifmg/com/services/ReservationService.java:199-207 | the two lookups are empty together, and the lowest is never worth more than the highest |
| Reservations.ThreeStaysTotal | src/main/java/edu/ifmg/com/services/ReservationService.java:209-215 | a client's stays worth 100, 300 and 50 total 450 |
| Reservations.ThreeStaysHighest | src/main/java/edu/ifmg/com/services/ReservationService.java:199-202 | of stays worth 100, 300 and 50, the highest-value one is the 300 stay |
| Reservations.ThreeStaysLowest | src/main/java/edu/ifmg/com/services/ReservationService.java:204-207 | of stays worth 100, 300 and 50, the lowest-value one is the 50 stay |
| Reservations.QualifyingRows | src/main/java/edu/ifmg/com/services/ReservationService.java:160-165 | the kept rows are exactly the client's rows whose accommodation exists, has a non-blank description and a non-zero value |
| Reservations.QualifyingRowsKeepOrder | src/main/java/edu/ifmg/com/services/ReservationService.java:160-165 | filtering keeps the rows' order: rows in increasing id order, each once, stay so |
| Reservations.ClientQualifyingRows | src/main/java/edu/ifmg/com/services/ReservationService.java:158-165 | the stays kept for the invoice are reservations of the client, each once, in increasing id order |
| Reservations.GenerateInvoice | src/main/java/edu/ifmg/com/services/ReservationService.java:148-193 | checks in this order: a missing client is NotFound; a null or blank name, address or city is the incomplete-client argument error; no qualifying stay is the no-stay argument error. Otherwise the invoice carries the client's name, address and city, one line per qualifying stay in repository order (description and value, none blank or zero), and the sum of those lines as its total. The lines' stays are reservations of the client in increasing id order |
| Reservations.StayLines | src/main/java/edu/ifmg/com/services/ReservationService.java:181-186 | the stay loop yields one line per qualifying stay, in order, and a running total equal to the sum of the line values |
| Reservations.LinesTotalIsSumValues | src/main/java/edu/ifmg/com/services/ReservationService.java:181-186 | the invoice total is the sum of the qualifying stays' accommodation values |
| Reservations.InvoiceTotalPlusExcluded | src/main/java/edu/ifmg/com/services/ReservationService.java:160-189 | the client's total is the invoice total plus the values of the stays left off the invoice |
| Reservations.ReservationService.FindById | src/main/java/edu/ifmg/com/services/ReservationService.java:55-60 | succeeds exactly when the id is stored, with that reservation; otherwise reservation NotFound |
| Reservations.ReservationService.Insert | src/main/java/edu/ifmg/com/services/ReservationService.java:63-89 | checks in this order: an overlapping stay of the accommodation is a Conflict; then an unknown client, then an unknown accommodation, is NotFound. A failure changes nothing. On success it stores exactly the request under a fresh id, keeps the no-overlap invariant, and raises the client's total by the accommodation's value |
| Reservations.ReservationService.Update | src/main/java/edu/ifmg/com/services/ReservationService.java:92-121 | the same checks as Insert, run against the whole table including the reservation itself. After them, a missing reservation is NotFound (the lazy reference fails only when first written). A failure changes nothing. On success only reservation `id` changes, to the requested client, accommodation and stay, and the invariant holds |
| Reservations.ReservationService.UpdateExcludingSelf | src/main/java/edu/ifmg/com/services/ReservationService.java:92-121 | the update with the overlap check leaving the reservation itself out. It has the same error order and the same effect, and keeps the no-overlap invariant |
| Reservations.ReservationService.Delete | src/main/java/edu/ifmg/com/services/ReservationService.java:123-128 | a missing id is NotFound and removes nothing; otherwise exactly that reservation is removed and the invariant holds |

## Left out

- HTTP controllers, status mapping, Swagger annotations, authentication, JWT, role checks and password encoding: framework plumbing and foreign security code.
- `findAll(Pageable)` in every service: library pagination, no logic of its own.
- Floating point: accommodation and bedroom values are Java `double`. They are integers (cents) here, so rounding in `!= 0` tests and sums is not modelled.
- Invoice text: the `%.2f` formatting and the banner lines are not modelled. The invoice is a record holding the client block, one line record per stay and the total.
- `reservationList`: depends on the system time zone and date formatting.
- Entity creation and update timestamps: they are set from the wall clock.
- The check-then-insert race between concurrent requests: the model is sequential, one request at a time.
- `ReportService.deleteAllData`: three library bulk deletes.
- Entity-to-DTO conversions: the DTO that the services return is modelled as the stored record or row itself.
- Database constraints other than foreign keys, such as a unique e-mail column: the database is not part of this model.
- Null dates and null ids in requests: every request carries all four fields.
- The default role a new `Client` entity gets: the `Client` entity is not part of this model, so a new client's role is unset.
- Repository order of `findByClientId`: the derived query has no ORDER BY, so the model takes ascending id as the database's order.
- ReservationQueries.FindTopByClientIdOrderByAccommodationValueDesc, ReservationQueries.FindTopByClientIdOrderByAccommodationValueAsc, Reservations.ReservationWithHighestAccommodationValue, Reservations.ReservationWithLowerAccommodationValue: among reservations of equal accommodation value the database may return any one. The model always picks the one with the smallest id, which is one of the database's allowed answers.
- Reservations.TotalReservationValueByClient: requires every reservation's accommodation to exist (the foreign key). The source would fail on a null accommodation.
- Reservations.ReservationWithHighestAccommodationValue, Reservations.ReservationWithLowerAccommodationValue: have the same foreign-key requirement as the total.
- Date order of a stay: neither the reservation service nor the accommodation service checks that check-in precedes check-out. The model stores such a stay as given, and the no-overlap invariant is stated with the same strict comparisons as the query.

## Findings

| source | as written | input that shows it | evidently intended | confidence | as-written member | corrected member |
|---|---|---|---|---|---|---|
| src/main/java/edu/ifmg/com/services/ReservationService.java:94-102 | the update's overlap query runs over every reservation of the accommodation, including the one being updated | reservation 1 holds [20, 25) of accommodation 7, and `update(1, …)` resubmits accommodation 7 with [20, 25) but a different client: the query finds reservation 1 itself and the update is a Conflict | leave the reservation being updated out of the overlap check, so keeping or shrinking its own dates is allowed | not executed | Reservations.ReservationService.Update, ReservationQueries.OwnStayIsInDateRange | Reservations.ReservationService.UpdateExcludingSelf, ReservationQueries.OwnStayIsFreeExcludingSelf |
