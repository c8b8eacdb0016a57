/** `ReservationService`: admission of reservations (insert, update, delete)
    against the client, accommodation and reservation tables, and the
    per-client reports (total value, highest and lowest value stay, invoice).
    The reports only read the tables, so they are functions and a method over
    the table contents. */
module Reservations {
  import opened Common
  import opened Clients
  import opened ReservationQueries

  // ---------------------------------------------------------------------
  // isNullOrEmpty
  // ---------------------------------------------------------------------

  /** `Character.isWhitespace`: the Unicode space, line and paragraph
      separators other than the non-breaking spaces U+00A0, U+2007 and
      U+202F, plus the controls U+0009..U+000D and U+001C..U+001F. */
  predicate IsWhitespace(c: char)
  {
    var n := c as int;
    || 0x09 <= n <= 0x0D
    || 0x1C <= n <= 0x20
    || n == 0x1680
    || 0x2000 <= n <= 0x2006
    || 0x2008 <= n <= 0x200A
    || n == 0x2028 || n == 0x2029
    || n == 0x205F
    || n == 0x3000
  }

  /** `String.isBlank`: empty, or whitespace only. */
  function IsBlank(s: string): (b: bool)
    ensures b <==> forall i :: 0 <= i < |s| ==> IsWhitespace(s[i])
    decreases |s|
  {
    if s == [] then true
    else IsWhitespace(s[0]) && IsBlank(s[1..])
  }

  /** A null or blank string. */
  function IsNullOrEmpty(s: Option<string>): (b: bool)
    ensures b <==> s.None? || forall i :: 0 <= i < |s.value| ==> IsWhitespace(s.value[i])
  {
    s.None? || IsBlank(s.value)
  }

  // ---------------------------------------------------------------------
  // Reports
  // ---------------------------------------------------------------------

  /** The sum of the rows' accommodation values. */
  function SumValues(rows: seq<Row>, accs: map<nat, Accommodation>): int
    requires RowsResolve(rows, accs)
    decreases |rows|
  {
    if rows == [] then 0
    else
      var prefix, last := rows[..|rows| - 1], rows[|rows| - 1];
      SumValues(prefix, accs) + accs[last.reservation.accommodationId].value
  }

  /** The sum of the accommodation values of all the client's reservations;
      0 for a client without reservations. How each new reservation changes
      it is TotalAfterAppend. */
  function TotalReservationValueByClient(rs: map<nat, Reservation>, accs: map<nat, Accommodation>,
                                         clientId: nat): (total: int)
    requires AccommodationsResolve(rs, accs)
    ensures (forall k :: k in rs ==> rs[k].clientId != clientId) ==> total == 0
  {
    ClientRowsResolve(rs, accs, clientId);
    SumValues(FindByClientId(rs, clientId), accs)
  }

  lemma {:induction false} SumValuesAppend(rows: seq<Row>, row: Row, accs: map<nat, Accommodation>)
    requires RowsResolve(rows, accs) && row.reservation.accommodationId in accs
    ensures RowsResolve(rows + [row], accs)
    ensures SumValues(rows + [row], accs) == SumValues(rows, accs) + accs[row.reservation.accommodationId].value
  {
    assert (rows + [row])[..|rows|] == rows;
  }

  /** Storing a reservation under an id above every existing one raises its
      client's total by its accommodation's value and leaves every other
      client's total as it was. */
  lemma TotalAfterAppend(rs: map<nat, Reservation>, accs: map<nat, Accommodation>,
                         id: nat, r: Reservation, clientId: nat)
    requires AccommodationsResolve(rs, accs) && r.accommodationId in accs
    requires forall k :: k in rs ==> k < id
    ensures AccommodationsResolve(rs[id := r], accs)
    ensures TotalReservationValueByClient(rs[id := r], accs, clientId)
         == TotalReservationValueByClient(rs, accs, clientId)
            + (if r.clientId == clientId then accs[r.accommodationId].value else 0)
  {
    var before, after := FindByClientId(rs, clientId), FindByClientId(rs[id := r], clientId);
    FindByClientIdAfterAppend(rs, id, r, clientId);
    ClientRowsResolve(rs, accs, clientId);
    ClientRowsResolve(rs[id := r], accs, clientId);
    if r.clientId == clientId {
      SumValuesAppend(before, Row(id, r), accs);
    } else {
      assert after == before;
    }
    assert TotalReservationValueByClient(rs, accs, clientId) == SumValues(before, accs);
    assert TotalReservationValueByClient(rs[id := r], accs, clientId) == SumValues(after, accs);
  }

  /** The client's reservation whose accommodation has the highest value,
      ties going to the earliest in repository order; None when the client
      has no reservation. */
  function ReservationWithHighestAccommodationValue(rs: map<nat, Reservation>, accs: map<nat, Accommodation>,
                                                    clientId: nat): (r: Option<Row>)
    requires AccommodationsResolve(rs, accs)
    ensures r.None? <==> forall k :: k in rs ==> rs[k].clientId != clientId
    ensures r.Some? ==>
      && r.value.id in rs && rs[r.value.id] == r.value.reservation && r.value.reservation.clientId == clientId
      && (forall k :: k in rs && rs[k].clientId == clientId ==>
            ValueOf(rs[k], accs) <= ValueOf(r.value.reservation, accs))
      && (forall k :: k in rs && rs[k].clientId == clientId && k < r.value.id ==>
            ValueOf(rs[k], accs) < ValueOf(r.value.reservation, accs))
  {
    var top := FindTopByClientIdOrderByAccommodationValueDesc(rs, accs, clientId);
    if top == [] then None else Some(top[0])
  }

  /** The client's reservation whose accommodation has the lowest value,
      ties going to the earliest in repository order; None when the client
      has no reservation. */
  function ReservationWithLowerAccommodationValue(rs: map<nat, Reservation>, accs: map<nat, Accommodation>,
                                                  clientId: nat): (r: Option<Row>)
    requires AccommodationsResolve(rs, accs)
    ensures r.None? <==> forall k :: k in rs ==> rs[k].clientId != clientId
    ensures r.Some? ==>
      && r.value.id in rs && rs[r.value.id] == r.value.reservation && r.value.reservation.clientId == clientId
      && (forall k :: k in rs && rs[k].clientId == clientId ==>
            ValueOf(r.value.reservation, accs) <= ValueOf(rs[k], accs))
      && (forall k :: k in rs && rs[k].clientId == clientId && k < r.value.id ==>
            ValueOf(r.value.reservation, accs) < ValueOf(rs[k], accs))
  {
    var top := FindTopByClientIdOrderByAccommodationValueAsc(rs, accs, clientId);
    if top == [] then None else Some(top[0])
  }

  /** The lowest-value stay is never worth more than the highest-value one,
      and the two lookups are empty together. */
  lemma LowestNotAboveHighest(rs: map<nat, Reservation>, accs: map<nat, Accommodation>, clientId: nat)
    requires AccommodationsResolve(rs, accs)
    ensures var hi, lo := ReservationWithHighestAccommodationValue(rs, accs, clientId),
                          ReservationWithLowerAccommodationValue(rs, accs, clientId);
      && (hi.None? <==> lo.None?)
      && (hi.Some? ==> ValueOf(lo.value.reservation, accs) <= ValueOf(hi.value.reservation, accs))
  {
  }

  /** Three accommodations worth 100, 300 and 50. */
  function ThreeAccommodations(): map<nat, Accommodation>
  {
    map[1 := Accommodation(Some("A"), 100), 2 := Accommodation(Some("B"), 300), 3 := Accommodation(Some("C"), 50)]
  }

  /** A client's three stays, one in each of ThreeAccommodations. */
  function ThreeStays(clientId: nat): map<nat, Reservation>
  {
    map[1 := Reservation(clientId, 1, 0, 1), 2 := Reservation(clientId, 2, 0, 1), 3 := Reservation(clientId, 3, 0, 1)]
  }

  /** The three stays worth 100, 300 and 50 total 450. */
  lemma ThreeStaysTotal(clientId: nat)
    ensures AccommodationsResolve(ThreeStays(clientId), ThreeAccommodations())
    ensures TotalReservationValueByClient(ThreeStays(clientId), ThreeAccommodations(), clientId) == 450
  {
    var accs := ThreeAccommodations();
    var r1, r2, r3 := Reservation(clientId, 1, 0, 1), Reservation(clientId, 2, 0, 1), Reservation(clientId, 3, 0, 1);
    var empty: map<nat, Reservation> := map[];
    TotalAfterAppend(empty, accs, 1, r1, clientId);
    TotalAfterAppend(empty[1 := r1], accs, 2, r2, clientId);
    TotalAfterAppend(empty[1 := r1][2 := r2], accs, 3, r3, clientId);
    assert empty[1 := r1][2 := r2][3 := r3] == ThreeStays(clientId);
  }

  /** Of the three stays, the highest-value one is the 300 stay. */
  lemma ThreeStaysHighest(clientId: nat)
    ensures AccommodationsResolve(ThreeStays(clientId), ThreeAccommodations())
    ensures ReservationWithHighestAccommodationValue(ThreeStays(clientId), ThreeAccommodations(), clientId)
         == Some(Row(2, ThreeStays(clientId)[2]))
  {
    var rs, accs := ThreeStays(clientId), ThreeAccommodations();
    assert 2 in rs && rs[2].clientId == clientId;
    var hi := ReservationWithHighestAccommodationValue(rs, accs, clientId);
    var h := hi.value;
    assert ValueOf(rs[2], accs) <= ValueOf(h.reservation, accs);
    assert h.id == 1 || h.id == 2 || h.id == 3;
  }

  /** Of the three stays, the lowest-value one is the 50 stay. */
  lemma ThreeStaysLowest(clientId: nat)
    ensures AccommodationsResolve(ThreeStays(clientId), ThreeAccommodations())
    ensures ReservationWithLowerAccommodationValue(ThreeStays(clientId), ThreeAccommodations(), clientId)
         == Some(Row(3, ThreeStays(clientId)[3]))
  {
    var rs, accs := ThreeStays(clientId), ThreeAccommodations();
    assert 3 in rs && rs[3].clientId == clientId;
    var lo := ReservationWithLowerAccommodationValue(rs, accs, clientId);
    var l := lo.value;
    assert ValueOf(l.reservation, accs) <= ValueOf(rs[3], accs);
    assert l.id == 1 || l.id == 2 || l.id == 3;
  }

  // ---------------------------------------------------------------------
  // generateInvoice
  // ---------------------------------------------------------------------

  /** One stay line of an invoice: the accommodation's description and value. */
  datatype InvoiceLine = InvoiceLine(description: string, value: int)

  /** An invoice: the client block, one line per qualifying stay, and the total. */
  datatype Invoice = Invoice(name: string, address: string, city: string, lines: seq<InvoiceLine>, total: int)

  /** A stay appears on an invoice when its accommodation exists, has a
      non-blank description and a non-zero value. */
  predicate Qualifies(row: Row, accs: map<nat, Accommodation>)
  {
    var id := row.reservation.accommodationId;
    && id in accs
    && accs[id].description.Some?
    && !IsBlank(accs[id].description.value)
    && accs[id].value != 0
  }

  /** The qualifying rows, in their order. */
  function QualifyingRows(rows: seq<Row>, accs: map<nat, Accommodation>): (q: seq<Row>)
    ensures forall row :: row in q ==> row in rows && Qualifies(row, accs)
    ensures forall row :: row in rows && Qualifies(row, accs) ==> row in q
    decreases |rows|
  {
    if rows == [] then []
    else
      var prefix, last := rows[..|rows| - 1], rows[|rows| - 1];
      assert rows == prefix + [last];
      QualifyingRows(prefix, accs) + (if Qualifies(last, accs) then [last] else [])
  }

  /** Filtering keeps the order of the rows: rows in increasing id order
      (hence each at most once) stay in increasing id order. */
  lemma {:induction false} QualifyingRowsKeepOrder(rows: seq<Row>, accs: map<nat, Accommodation>)
    requires IncreasingIds(rows)
    ensures IncreasingIds(QualifyingRows(rows, accs))
    decreases |rows|
  {
    if rows != [] {
      var prefix, last := rows[..|rows| - 1], rows[|rows| - 1];
      assert forall i :: 0 <= i < |prefix| ==> prefix[i] == rows[i];
      QualifyingRowsKeepOrder(prefix, accs);
      var qp := QualifyingRows(prefix, accs);
      if Qualifies(last, accs) {
        var q := qp + [last];
        forall i, j | 0 <= i < j < |q| ensures q[i].id < q[j].id {
          if j == |q| - 1 {
            assert q[i] in qp;
            var k :| 0 <= k < |prefix| && prefix[k] == q[i];
            assert rows[k] == q[i];
          } else {
            assert q[i] == qp[i] && q[j] == qp[j];
          }
        }
      }
    }
  }

  /** The stays on a client's invoice are reservations of that client, in
      increasing id order. */
  lemma ClientQualifyingRows(rs: map<nat, Reservation>, accs: map<nat, Accommodation>, clientId: nat)
    ensures var valid := QualifyingRows(FindByClientId(rs, clientId), accs);
      && IncreasingIds(valid)
      && forall i :: 0 <= i < |valid| ==>
           valid[i].id in rs && rs[valid[i].id] == valid[i].reservation
           && valid[i].reservation.clientId == clientId
  {
    var rows := FindByClientId(rs, clientId);
    var valid := QualifyingRows(rows, accs);
    QualifyingRowsKeepOrder(rows, accs);
    assert forall i :: 0 <= i < |valid| ==> valid[i] in valid;
  }

  /** The rows that do not qualify, in their order. */
  function ExcludedRows(rows: seq<Row>, accs: map<nat, Accommodation>): seq<Row>
    decreases |rows|
  {
    if rows == [] then []
    else
      var prefix, last := rows[..|rows| - 1], rows[|rows| - 1];
      ExcludedRows(prefix, accs) + (if Qualifies(last, accs) then [] else [last])
  }

  /** The invoice line of a qualifying row. */
  function LineOf(row: Row, accs: map<nat, Accommodation>): InvoiceLine
    requires Qualifies(row, accs)
  {
    var a := accs[row.reservation.accommodationId];
    InvoiceLine(a.description.value, a.value)
  }

  /** The invoice lines of qualifying rows, in their order. */
  function Lines(rows: seq<Row>, accs: map<nat, Accommodation>): (ls: seq<InvoiceLine>)
    requires forall i :: 0 <= i < |rows| ==> Qualifies(rows[i], accs)
    ensures |ls| == |rows|
    ensures forall i :: 0 <= i < |rows| ==> ls[i] == LineOf(rows[i], accs)
  {
    seq(|rows|, i requires 0 <= i < |rows| => LineOf(rows[i], accs))
  }

  /** The sum of the line values. */
  function LinesTotal(ls: seq<InvoiceLine>): int
    decreases |ls|
  {
    if ls == [] then 0 else LinesTotal(ls[..|ls| - 1]) + ls[|ls| - 1].value
  }

  /** Builds the invoice of client `clientId` from the tables. A missing
      client is NotFound; a client whose name, address or city is null or
      blank, or who has no qualifying stay, is an invalid argument. The
      invoice has one line per qualifying stay, in repository order, and its
      total is the sum of those lines only. */
  method GenerateInvoice(clients: map<nat, Client>, accs: map<nat, Accommodation>,
                         rs: map<nat, Reservation>, clientId: nat)
    returns (r: Result<Invoice, Error>)
    ensures clientId !in clients ==> r == Failure(NotFound(ClientKind))
    ensures clientId in clients ==>
      var c := clients[clientId];
      var incomplete := IsNullOrEmpty(c.name) || IsNullOrEmpty(c.address) || IsNullOrEmpty(c.city);
      var valid := QualifyingRows(FindByClientId(rs, clientId), accs);
      && (incomplete ==> r == Failure(InvalidArgument(IncompleteClient)))
      && (!incomplete && valid == [] ==> r == Failure(InvalidArgument(NoQualifyingStay)))
      && (!incomplete && valid != [] ==>
            && r.Success?
            && r.value.name == c.name.value && r.value.address == c.address.value
            && r.value.city == c.city.value
            && r.value.lines == Lines(valid, accs)
            && r.value.total == LinesTotal(r.value.lines))
    ensures r.Success? ==> forall l :: l in r.value.lines ==> !IsBlank(l.description) && l.value != 0
    ensures r.Success? ==>
      var valid := QualifyingRows(FindByClientId(rs, clientId), accs);
      && IncreasingIds(valid)
      && forall i :: 0 <= i < |valid| ==>
           valid[i].id in rs && rs[valid[i].id] == valid[i].reservation
           && valid[i].reservation.clientId == clientId
  {
    if clientId !in clients {
      return Failure(NotFound(ClientKind));
    }
    var client := clients[clientId];
    if IsNullOrEmpty(client.name) || IsNullOrEmpty(client.address) || IsNullOrEmpty(client.city) {
      return Failure(InvalidArgument(IncompleteClient));
    }
    var reservations := FindByClientId(rs, clientId);
    var valid := QualifyingRows(reservations, accs);
    if valid == [] {
      return Failure(InvalidArgument(NoQualifyingStay));
    }
    assert forall i :: 0 <= i < |valid| ==> valid[i] in valid;
    ClientQualifyingRows(rs, accs, clientId);
    var lines, total := StayLines(valid, accs);
    r := Success(Invoice(client.name.value, client.address.value, client.city.value, lines, total));
  }

  /** The stay loop of the invoice: one line per row, in order, and the
      running total of their values. */
  method StayLines(valid: seq<Row>, accs: map<nat, Accommodation>) returns (lines: seq<InvoiceLine>, total: int)
    requires forall i :: 0 <= i < |valid| ==> Qualifies(valid[i], accs)
    ensures lines == Lines(valid, accs)
    ensures total == LinesTotal(lines)
  {
    lines, total := [], 0;
    for i := 0 to |valid|
      invariant lines == Lines(valid[..i], accs)
      invariant total == LinesTotal(lines)
    {
      var a := accs[valid[i].reservation.accommodationId];
      lines := lines + [InvoiceLine(a.description.value, a.value)];
      total := total + a.value;
      assert lines[..|lines| - 1] == Lines(valid[..i], accs);
    }
    assert valid[..|valid|] == valid;
  }

  lemma {:induction false} LinesTotalIsSumValues(rows: seq<Row>, accs: map<nat, Accommodation>)
    requires forall i :: 0 <= i < |rows| ==> Qualifies(rows[i], accs)
    ensures RowsResolve(rows, accs)
    ensures LinesTotal(Lines(rows, accs)) == SumValues(rows, accs)
    decreases |rows|
  {
    if rows != [] {
      var prefix := rows[..|rows| - 1];
      LinesTotalIsSumValues(prefix, accs);
      assert Lines(rows, accs)[..|rows| - 1] == Lines(prefix, accs);
    }
  }

  lemma {:induction false} SumValuesSplit(rows: seq<Row>, accs: map<nat, Accommodation>)
    requires RowsResolve(rows, accs)
    ensures RowsResolve(QualifyingRows(rows, accs), accs) && RowsResolve(ExcludedRows(rows, accs), accs)
    ensures SumValues(rows, accs)
         == SumValues(QualifyingRows(rows, accs), accs) + SumValues(ExcludedRows(rows, accs), accs)
    decreases |rows|
  {
    if rows != [] {
      var prefix, last := rows[..|rows| - 1], rows[|rows| - 1];
      SumValuesSplit(prefix, accs);
      assert last in rows;
      if Qualifies(last, accs) {
        SumValuesAppend(QualifyingRows(prefix, accs), last, accs);
        assert ExcludedRows(rows, accs) == ExcludedRows(prefix, accs);
      } else {
        SumValuesAppend(ExcludedRows(prefix, accs), last, accs);
        assert QualifyingRows(rows, accs) == QualifyingRows(prefix, accs);
      }
    }
  }

  /** The client's total splits into the invoice total of the qualifying
      stays and the values of the stays left off the invoice. */
  lemma InvoiceTotalPlusExcluded(rs: map<nat, Reservation>, accs: map<nat, Accommodation>, clientId: nat)
    requires AccommodationsResolve(rs, accs)
    ensures var rows := FindByClientId(rs, clientId);
      var valid := QualifyingRows(rows, accs);
      && (forall i :: 0 <= i < |valid| ==> Qualifies(valid[i], accs))
      && RowsResolve(ExcludedRows(rows, accs), accs)
      && TotalReservationValueByClient(rs, accs, clientId)
         == LinesTotal(Lines(valid, accs)) + SumValues(ExcludedRows(rows, accs), accs)
  {
    var rows := FindByClientId(rs, clientId);
    var valid := QualifyingRows(rows, accs);
    assert forall i :: 0 <= i < |valid| ==> valid[i] in valid;
    ClientRowsResolve(rs, accs, clientId);
    SumValuesSplit(rows, accs);
    LinesTotalIsSumValues(valid, accs);
  }

  // ---------------------------------------------------------------------
  // The service: admission over the tables
  // ---------------------------------------------------------------------

  /** Every reservation's client and accommodation exist. */
  ghost predicate References(rs: map<nat, Reservation>, clients: map<nat, Client>, accs: map<nat, Accommodation>)
  {
    forall k :: k in rs ==> rs[k].clientId in clients && rs[k].accommodationId in accs
  }

  class ReservationService {
    /** The client table the service reads. */
    var clients: map<nat, Client>
    /** The accommodation table the service reads. */
    var accommodations: map<nat, Accommodation>
    /** The reservation table, keyed by id. */
    var reservations: map<nat, Reservation>
    /** The next id the identity column hands out. */
    var nextId: nat

    ghost predicate Valid()
      reads this
    {
      && (forall id :: id in reservations ==> id < nextId)
      && References(reservations, clients, accommodations)
      && NoOverlap(reservations)
    }

    constructor (clients: map<nat, Client>, accommodations: map<nat, Accommodation>)
      ensures Valid()
      ensures this.clients == clients && this.accommodations == accommodations
      ensures reservations == map[] && nextId == 1
    {
      this.clients := clients;
      this.accommodations := accommodations;
      reservations := map[];
      nextId := 1;
    }

    /** The reservation with the given id, or NotFound. */
    function FindById(id: nat): (r: Result<Row, Error>)
      reads this
      ensures r.Success? <==> id in reservations
      ensures r.Success? ==> r.value == Row(id, reservations[id])
      ensures r.Failure? ==> r.error == NotFound(ReservationKind)
    {
      if id in reservations then Success(Row(id, reservations[id])) else Failure(NotFound(ReservationKind))
    }

    /** Admits a new reservation. In this order: an overlapping stay of the
        same accommodation is a Conflict, an unknown client or accommodation
        is NotFound; otherwise the request is stored under a fresh id. A
        failure changes nothing. */
    method Insert(req: Reservation) returns (r: Result<Row, Error>)
      requires Valid()
      modifies this
      ensures Valid()
      ensures clients == old(clients) && accommodations == old(accommodations)
      ensures ExistsByAccommodationIdAndDateRange(old(reservations), req.accommodationId, req.checkIn, req.checkOut)
        ==> r == Failure(Conflict)
      ensures !ExistsByAccommodationIdAndDateRange(old(reservations), req.accommodationId, req.checkIn, req.checkOut)
        ==> && (req.clientId !in clients ==> r == Failure(NotFound(ClientKind)))
            && ((req.clientId in clients && req.accommodationId !in accommodations)
                  ==> r == Failure(NotFound(AccommodationKind)))
            && ((req.clientId in clients && req.accommodationId in accommodations)
                  ==> r == Success(Row(old(nextId), req)))
      ensures r.Failure? ==> reservations == old(reservations) && nextId == old(nextId)
      ensures r.Success? ==>
        && old(nextId) !in old(reservations)
        && reservations == old(reservations)[old(nextId) := req] && nextId == old(nextId) + 1
        && TotalReservationValueByClient(reservations, accommodations, req.clientId)
           == TotalReservationValueByClient(old(reservations), accommodations, req.clientId)
              + accommodations[req.accommodationId].value
    {
      var taken := ExistsByAccommodationIdAndDateRange(reservations, req.accommodationId, req.checkIn, req.checkOut);
      if taken {
        return Failure(Conflict);
      }
      if req.clientId !in clients {
        return Failure(NotFound(ClientKind));
      }
      if req.accommodationId !in accommodations {
        return Failure(NotFound(AccommodationKind));
      }
      AdmittedKeepsNoOverlap(reservations, nextId, req);
      TotalAfterAppend(reservations, accommodations, nextId, req, req.clientId);
      var id := nextId;
      reservations := reservations[id := req];
      nextId := nextId + 1;
      r := Success(Row(id, req));
    }

    /** Replaces reservation `id` by the request. In this order: an
        overlapping stay of the requested accommodation, the reservation's own
        current stay included, is a Conflict; an unknown client, accommodation
        or reservation is NotFound. Otherwise the reservation's client,
        accommodation, check-in and check-out become the requested ones. A
        failure changes nothing. */
    method Update(id: nat, req: Reservation) returns (r: Result<Row, Error>)
      requires Valid()
      modifies this
      ensures Valid()
      ensures clients == old(clients) && accommodations == old(accommodations) && nextId == old(nextId)
      ensures ExistsByAccommodationIdAndDateRange(old(reservations), req.accommodationId, req.checkIn, req.checkOut)
        ==> r == Failure(Conflict)
      ensures !ExistsByAccommodationIdAndDateRange(old(reservations), req.accommodationId, req.checkIn, req.checkOut)
        ==> && (req.clientId !in clients ==> r == Failure(NotFound(ClientKind)))
            && ((req.clientId in clients && req.accommodationId !in accommodations)
                  ==> r == Failure(NotFound(AccommodationKind)))
            && ((req.clientId in clients && req.accommodationId in accommodations && id !in old(reservations))
                  ==> r == Failure(NotFound(ReservationKind)))
            && ((req.clientId in clients && req.accommodationId in accommodations && id in old(reservations))
                  ==> r == Success(Row(id, req)))
      ensures r.Failure? ==> reservations == old(reservations)
      ensures r.Success? ==> reservations == old(reservations)[id := req]
    {
      var taken := ExistsByAccommodationIdAndDateRange(reservations, req.accommodationId, req.checkIn, req.checkOut);
      if taken {
        return Failure(Conflict);
      }
      if req.clientId !in clients {
        return Failure(NotFound(ClientKind));
      }
      if req.accommodationId !in accommodations {
        return Failure(NotFound(AccommodationKind));
      }
      // the reference to the reservation is lazy: a missing row shows up
      // only when its fields are first written
      if id !in reservations {
        return Failure(NotFound(ReservationKind));
      }
      AdmittedKeepsNoOverlap(reservations, id, req);
      reservations := reservations[id := req];
      r := Success(Row(id, req));
    }

    /** The update with the overlap query corrected to leave reservation
        `id` itself out; otherwise the same checks in the same order. */
    method UpdateExcludingSelf(id: nat, req: Reservation) returns (r: Result<Row, Error>)
      requires Valid()
      modifies this
      ensures Valid()
      ensures clients == old(clients) && accommodations == old(accommodations) && nextId == old(nextId)
      ensures ExistsOtherInDateRange(old(reservations), id, req.accommodationId, req.checkIn, req.checkOut)
        ==> r == Failure(Conflict)
      ensures !ExistsOtherInDateRange(old(reservations), id, req.accommodationId, req.checkIn, req.checkOut)
        ==> && (req.clientId !in clients ==> r == Failure(NotFound(ClientKind)))
            && ((req.clientId in clients && req.accommodationId !in accommodations)
                  ==> r == Failure(NotFound(AccommodationKind)))
            && ((req.clientId in clients && req.accommodationId in accommodations && id !in old(reservations))
                  ==> r == Failure(NotFound(ReservationKind)))
            && ((req.clientId in clients && req.accommodationId in accommodations && id in old(reservations))
                  ==> r == Success(Row(id, req)))
      ensures r.Failure? ==> reservations == old(reservations)
      ensures r.Success? ==> reservations == old(reservations)[id := req]
    {
      var taken := ExistsOtherInDateRange(reservations, id, req.accommodationId, req.checkIn, req.checkOut);
      if taken {
        return Failure(Conflict);
      }
      if req.clientId !in clients {
        return Failure(NotFound(ClientKind));
      }
      if req.accommodationId !in accommodations {
        return Failure(NotFound(AccommodationKind));
      }
      if id !in reservations {
        return Failure(NotFound(ReservationKind));
      }
      ReplacedKeepsNoOverlap(reservations, id, req);
      reservations := reservations[id := req];
      r := Success(Row(id, req));
    }

    /** Removes reservation `id`; a missing id is NotFound and removes nothing. */
    method Delete(id: nat) returns (r: Result<(), Error>)
      requires Valid()
      modifies this
      ensures Valid()
      ensures clients == old(clients) && accommodations == old(accommodations) && nextId == old(nextId)
      ensures id !in old(reservations) ==> r == Failure(NotFound(ReservationKind)) && reservations == old(reservations)
      ensures id in old(reservations) ==> r == Success(()) && reservations == old(reservations) - {id}
    {
      if id !in reservations {
        return Failure(NotFound(ReservationKind));
      }
      RemovedKeepsNoOverlap(reservations, id);
      reservations := reservations - {id};
      r := Success(());
    }
  }
}
