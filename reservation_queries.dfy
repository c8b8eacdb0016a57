/** The reservation repository's queries, as pure functions over the
    reservation table: the date-range existence query that guards admission,
    and the derived queries the reports use (a client's reservations, and the
    top one by accommodation value). Rows come back in repository order,
    which is ascending id: the order the identity column hands ids out. */
module ReservationQueries {
  import opened Common

  /** A reservation: the client and the accommodation it links (by id) and the
      half-open stay [checkIn, checkOut) as instants. */
  datatype Reservation = Reservation(clientId: nat, accommodationId: nat, checkIn: int, checkOut: int)

  /** An accommodation as the reservation reports read it: a description and
      a value in cents. */
  datatype Accommodation = Accommodation(description: Option<string>, value: int)

  /** A reservation together with its id, as a query returns it. */
  datatype Row = Row(id: nat, reservation: Reservation)

  // ---------------------------------------------------------------------
  // Repository order
  // ---------------------------------------------------------------------

  ghost predicate Increasing(ks: seq<nat>)
  {
    forall i, j :: 0 <= i < j < |ks| ==> ks[i] < ks[j]
  }

  ghost predicate IncreasingIds(rows: seq<Row>)
  {
    forall i, j :: 0 <= i < j < |rows| ==> rows[i].id < rows[j].id
  }

  predicate IsLeast(m: nat, s: set<nat>)
  {
    m in s && forall k :: k in s ==> m <= k
  }

  lemma {:induction false} LeastExists(s: set<nat>)
    requires s != {}
    ensures exists m :: IsLeast(m, s)
    decreases s
  {
    var x :| x in s;
    if s == {x} {
      assert IsLeast(x, s);
    } else {
      LeastExists(s - {x});
      var m :| IsLeast(m, s - {x});
      assert forall k :: k in s ==> k == x || k in s - {x};
      if x < m {
        assert IsLeast(x, s);
      } else {
        assert IsLeast(m, s);
      }
    }
  }

  /** The ids of `s` in ascending order. */
  function SortedKeys(s: set<nat>): seq<nat>
    decreases s
  {
    if s == {} then []
    else
      LeastExists(s);
      var m :| IsLeast(m, s);
      [m] + SortedKeys(s - {m})
  }

  /** Repository order starts with the least id. */
  lemma SortedKeysUnfold(s: set<nat>, m: nat)
    requires IsLeast(m, s)
    ensures SortedKeys(s) == [m] + SortedKeys(s - {m})
  {
  }

  /** Repository order lists every id of `s` exactly once, ascending. */
  lemma {:induction false} SortedKeysSpec(s: set<nat>)
    ensures forall k :: k in SortedKeys(s) <==> k in s
    ensures Increasing(SortedKeys(s))
    decreases s
  {
    if s != {} {
      LeastExists(s);
      var m :| IsLeast(m, s);
      SortedKeysUnfold(s, m);
      SortedKeysSpec(s - {m});
      var ks, tail := SortedKeys(s), SortedKeys(s - {m});
      forall i, j | 0 <= i < j < |ks| ensures ks[i] < ks[j] {
        assert ks[j] == tail[j - 1] && tail[j - 1] in tail;
        if i > 0 {
          assert ks[i] == tail[i - 1];
        }
      }
    }
  }

  /** One step of SortedKeysAppend: with the least id `m` of `s` in front,
      appending `id` behind the rest appends it behind the whole. */
  lemma SortedKeysAppendStep(s: set<nat>, id: nat, m: nat)
    requires IsLeast(m, s) && forall k :: k in s ==> k < id
    requires SortedKeys((s - {m}) + {id}) == SortedKeys(s - {m}) + [id]
    ensures SortedKeys(s + {id}) == SortedKeys(s) + [id]
  {
    assert IsLeast(m, s + {id});
    assert (s + {id}) - {m} == (s - {m}) + {id};
    SortedKeysUnfold(s + {id}, m);
    SortedKeysUnfold(s, m);
  }

  /** Adding an id above every existing one appends it to repository order. */
  lemma {:induction false} SortedKeysAppend(s: set<nat>, id: nat)
    requires forall k :: k in s ==> k < id
    ensures SortedKeys(s + {id}) == SortedKeys(s) + [id]
    decreases s
  {
    if s == {} {
      assert s + {id} == {id} && {id} - {id} == {};
      SortedKeysUnfold({id}, id);
    } else {
      LeastExists(s);
      var m :| IsLeast(m, s);
      SortedKeysAppend(s - {m}, id);
      SortedKeysAppendStep(s, id, m);
    }
  }

  // ---------------------------------------------------------------------
  // existsByAccommodationIdAndDateRange
  // ---------------------------------------------------------------------

  /** Two half-open stays [s1, e1) and [s2, e2) share an instant. */
  predicate Overlaps(s1: int, e1: int, s2: int, e2: int)
  {
    s1 < e2 && s2 < e1
  }

  /** The WHERE clause of the existence query, for one reservation row. */
  predicate InDateRange(r: Reservation, accommodationId: nat, checkIn: int, checkOut: int)
  {
    && r.accommodationId == accommodationId
    && r.checkIn < checkOut
    && r.checkOut > checkIn
  }

  /** COUNT(r) over the rows whose ids are `keys`. */
  function CountInDateRange(rs: map<nat, Reservation>, keys: seq<nat>,
                            accommodationId: nat, checkIn: int, checkOut: int): (n: nat)
    requires forall k :: k in keys ==> k in rs
    ensures n > 0 <==> exists k :: k in keys && InDateRange(rs[k], accommodationId, checkIn, checkOut)
    decreases |keys|
  {
    if keys == [] then 0
    else
      var prefix, last := keys[..|keys| - 1], keys[|keys| - 1];
      assert keys == prefix + [last];
      CountInDateRange(rs, prefix, accommodationId, checkIn, checkOut)
        + (if InDateRange(rs[last], accommodationId, checkIn, checkOut) then 1 else 0)
  }

  /** True exactly when some reservation of the accommodation overlaps the
      half-open stay [checkIn, checkOut): `COUNT(r) > 0` over the rows that
      match the WHERE clause. */
  function ExistsByAccommodationIdAndDateRange(rs: map<nat, Reservation>, accommodationId: nat,
                                               checkIn: int, checkOut: int): (b: bool)
    ensures b <==> exists id :: id in rs && InDateRange(rs[id], accommodationId, checkIn, checkOut)
  {
    SortedKeysSpec(rs.Keys);
    CountInDateRange(rs, SortedKeys(rs.Keys), accommodationId, checkIn, checkOut) > 0
  }

  /** The WHERE clause is the half-open overlap test, restricted to the
      requested accommodation. */
  lemma InDateRangeIsOverlap(r: Reservation, accommodationId: nat, checkIn: int, checkOut: int)
    ensures InDateRange(r, accommodationId, checkIn, checkOut)
        <==> r.accommodationId == accommodationId && Overlaps(r.checkIn, r.checkOut, checkIn, checkOut)
  {
  }

  /** Overlap does not depend on which stay is the existing one. */
  lemma OverlapsIsSymmetric(s1: int, e1: int, s2: int, e2: int)
    ensures Overlaps(s1, e1, s2, e2) <==> Overlaps(s2, e2, s1, e1)
  {
  }

  /** Back-to-back stays do not conflict: a stay that starts when another
      ends, or ends when another starts, is not in its date range. */
  lemma BackToBackIsNotInDateRange(r: Reservation, checkIn: int, checkOut: int)
    requires checkIn == r.checkOut || checkOut == r.checkIn
    ensures !InDateRange(r, r.accommodationId, checkIn, checkOut)
  {
  }

  /** Reservations of other accommodations never make the query true:
      adding or replacing one leaves the answer as it was without it. */
  lemma {:induction false} OtherAccommodationIsIgnored(rs: map<nat, Reservation>, id: nat, r: Reservation,
                                                       accommodationId: nat, checkIn: int, checkOut: int)
    requires r.accommodationId != accommodationId
    ensures ExistsByAccommodationIdAndDateRange(rs[id := r], accommodationId, checkIn, checkOut)
        == ExistsByAccommodationIdAndDateRange(rs - {id}, accommodationId, checkIn, checkOut)
  {
    var with, without := rs[id := r], rs - {id};
    if ExistsByAccommodationIdAndDateRange(with, accommodationId, checkIn, checkOut) {
      var k :| k in with && InDateRange(with[k], accommodationId, checkIn, checkOut);
      assert k != id && k in without;
    }
    if ExistsByAccommodationIdAndDateRange(without, accommodationId, checkIn, checkOut) {
      var k :| k in without && InDateRange(without[k], accommodationId, checkIn, checkOut);
      assert k in with && with[k] == without[k];
    }
  }

  /** The stay [20, 25) of an accommodation: a request for [24, 28) is in its
      date range, a back-to-back request for [25, 28) is not. */
  lemma BackToBackScenario(clientId: nat, accommodationId: nat)
    ensures var rs := map[1 := Reservation(clientId, accommodationId, 20, 25)];
      && ExistsByAccommodationIdAndDateRange(rs, accommodationId, 24, 28)
      && !ExistsByAccommodationIdAndDateRange(rs, accommodationId, 25, 28)
  {
    var rs := map[1 := Reservation(clientId, accommodationId, 20, 25)];
    assert InDateRange(rs[1], accommodationId, 24, 28);
  }

  // ---------------------------------------------------------------------
  // The no-overlap invariant
  // ---------------------------------------------------------------------

  /** No two distinct reservations of one accommodation overlap. */
  ghost predicate NoOverlap(rs: map<nat, Reservation>)
  {
    forall i, j :: i in rs && j in rs && i != j && rs[i].accommodationId == rs[j].accommodationId
      ==> !Overlaps(rs[i].checkIn, rs[i].checkOut, rs[j].checkIn, rs[j].checkOut)
  }

  /** Storing `r` under `id` (a new id, or the id of the reservation it
      replaces) keeps the table free of overlaps when the existence query
      found nothing for `r`'s accommodation and stay. */
  lemma {:induction false} AdmittedKeepsNoOverlap(rs: map<nat, Reservation>, id: nat, r: Reservation)
    requires NoOverlap(rs)
    requires !ExistsByAccommodationIdAndDateRange(rs, r.accommodationId, r.checkIn, r.checkOut)
    ensures NoOverlap(rs[id := r])
  {
    var rs' := rs[id := r];
    forall i, j | i in rs' && j in rs' && i != j && rs'[i].accommodationId == rs'[j].accommodationId
      ensures !Overlaps(rs'[i].checkIn, rs'[i].checkOut, rs'[j].checkIn, rs'[j].checkOut)
    {
      if i == id {
        assert !InDateRange(rs[j], r.accommodationId, r.checkIn, r.checkOut);
      } else if j == id {
        assert !InDateRange(rs[i], r.accommodationId, r.checkIn, r.checkOut);
      }
    }
  }

  /** Removing a reservation keeps the table free of overlaps. */
  lemma RemovedKeepsNoOverlap(rs: map<nat, Reservation>, id: nat)
    requires NoOverlap(rs)
    ensures NoOverlap(rs - {id})
  {
  }

  // ---------------------------------------------------------------------
  // The overlap check on update
  // ---------------------------------------------------------------------

  /** The query as the update path runs it counts the reservation being
      updated: resubmitting a reservation's own non-empty stay always finds
      itself, so an update that keeps the dates is refused as a Conflict. */
  lemma {:induction false} OwnStayIsInDateRange(rs: map<nat, Reservation>, id: nat)
    requires id in rs && rs[id].checkIn < rs[id].checkOut
    ensures ExistsByAccommodationIdAndDateRange(rs, rs[id].accommodationId, rs[id].checkIn, rs[id].checkOut)
  {
    assert InDateRange(rs[id], rs[id].accommodationId, rs[id].checkIn, rs[id].checkOut);
  }

  /** The overlap query of an update of reservation `id`, leaving that
      reservation out: true exactly when another reservation of the
      accommodation overlaps the stay. */
  function ExistsOtherInDateRange(rs: map<nat, Reservation>, id: nat, accommodationId: nat,
                                  checkIn: int, checkOut: int): (b: bool)
    ensures b <==> exists k :: k in rs && k != id && InDateRange(rs[k], accommodationId, checkIn, checkOut)
  {
    var others := rs - {id};
    assert forall k :: k in others <==> k in rs && k != id;
    ExistsByAccommodationIdAndDateRange(others, accommodationId, checkIn, checkOut)
  }

  /** With the reservation itself left out, resubmitting its own stay never
      conflicts in a table without overlaps. */
  lemma {:induction false} OwnStayIsFreeExcludingSelf(rs: map<nat, Reservation>, id: nat)
    requires NoOverlap(rs) && id in rs
    ensures !ExistsOtherInDateRange(rs, id, rs[id].accommodationId, rs[id].checkIn, rs[id].checkOut)
  {
    var r := rs[id];
    forall k | k in rs && k != id
      ensures !InDateRange(rs[k], r.accommodationId, r.checkIn, r.checkOut)
    {
      if rs[k].accommodationId == r.accommodationId {
        assert !Overlaps(rs[k].checkIn, rs[k].checkOut, r.checkIn, r.checkOut);
      }
    }
  }

  /** Replacing reservation `id` (present in the table) by `r` keeps the table
      free of overlaps when no other reservation overlaps `r`. */
  lemma {:induction false} ReplacedKeepsNoOverlap(rs: map<nat, Reservation>, id: nat, r: Reservation)
    requires NoOverlap(rs) && id in rs
    requires !ExistsOtherInDateRange(rs, id, r.accommodationId, r.checkIn, r.checkOut)
    ensures NoOverlap(rs[id := r])
  {
    RemovedKeepsNoOverlap(rs, id);
    AdmittedKeepsNoOverlap(rs - {id}, id, r);
    assert (rs - {id})[id := r] == rs[id := r];
  }

  // ---------------------------------------------------------------------
  // findByClientId
  // ---------------------------------------------------------------------

  /** The rows among `keys`, in the order of `keys`, whose client is `clientId`. */
  function ClientRows(rs: map<nat, Reservation>, keys: seq<nat>, clientId: nat): seq<Row>
    requires forall k :: k in keys ==> k in rs
    decreases |keys|
  {
    if keys == [] then []
    else
      var prefix, last := keys[..|keys| - 1], keys[|keys| - 1];
      assert last in keys;
      ClientRows(rs, prefix, clientId) + (if rs[last].clientId == clientId then [Row(last, rs[last])] else [])
  }

  lemma {:induction false} ClientRowsSpec(rs: map<nat, Reservation>, keys: seq<nat>, clientId: nat)
    requires forall k :: k in keys ==> k in rs
    ensures var rows := ClientRows(rs, keys, clientId);
      && (forall row :: row in rows ==>
            row.id in keys && rs[row.id] == row.reservation && row.reservation.clientId == clientId)
      && (forall k :: k in keys && rs[k].clientId == clientId ==> Row(k, rs[k]) in rows)
      && (Increasing(keys) ==> IncreasingIds(rows))
    decreases |keys|
  {
    if keys != [] {
      var prefix, last := keys[..|keys| - 1], keys[|keys| - 1];
      assert keys == prefix + [last];
      ClientRowsSpec(rs, prefix, clientId);
    }
  }

  /** The client's reservations, in repository order: exactly the
      reservations of the client, each once, in increasing id order; there
      are none exactly when the client has no reservation. */
  function FindByClientId(rs: map<nat, Reservation>, clientId: nat): (rows: seq<Row>)
    ensures forall row :: row in rows ==>
      row.id in rs && rs[row.id] == row.reservation && row.reservation.clientId == clientId
    ensures forall k :: k in rs && rs[k].clientId == clientId ==> Row(k, rs[k]) in rows
    ensures rows == [] <==> forall k :: k in rs ==> rs[k].clientId != clientId
    ensures IncreasingIds(rows)
  {
    SortedKeysSpec(rs.Keys);
    ClientRowsSpec(rs, SortedKeys(rs.Keys), clientId);
    var rows := ClientRows(rs, SortedKeys(rs.Keys), clientId);
    assert rows != [] ==> rows[0] in rows;
    rows
  }

  lemma ClientRowsFrame(rs: map<nat, Reservation>, rs': map<nat, Reservation>, keys: seq<nat>, clientId: nat)
    requires forall k :: k in keys ==> k in rs && k in rs' && rs[k] == rs'[k]
    ensures ClientRows(rs, keys, clientId) == ClientRows(rs', keys, clientId)
    decreases |keys|
  {
    if keys != [] {
      ClientRowsFrame(rs, rs', keys[..|keys| - 1], clientId);
    }
  }

  /** A reservation stored under an id above every existing one comes last in
      its client's rows, and leaves every other client's rows as they were. */
  lemma FindByClientIdAfterAppend(rs: map<nat, Reservation>, id: nat, r: Reservation, clientId: nat)
    requires forall k :: k in rs ==> k < id
    ensures FindByClientId(rs[id := r], clientId)
         == FindByClientId(rs, clientId) + (if r.clientId == clientId then [Row(id, r)] else [])
  {
    var rs' := rs[id := r];
    assert rs'.Keys == rs.Keys + {id};
    SortedKeysSpec(rs.Keys);
    SortedKeysAppend(rs.Keys, id);
    var keys := SortedKeys(rs.Keys);
    assert (keys + [id])[..|keys|] == keys;
    ClientRowsFrame(rs, rs', keys, clientId);
  }

  // ---------------------------------------------------------------------
  // findTopByClientIdOrderByAccommodationValueDesc / Asc
  // ---------------------------------------------------------------------

  /** Every row's accommodation is in `accs`. */
  ghost predicate RowsResolve(rows: seq<Row>, accs: map<nat, Accommodation>)
  {
    forall i :: 0 <= i < |rows| ==> rows[i].reservation.accommodationId in accs
  }

  /** Every reservation's accommodation is in `accs` (the foreign key holds). */
  ghost predicate AccommodationsResolve(rs: map<nat, Reservation>, accs: map<nat, Accommodation>)
  {
    forall k :: k in rs ==> rs[k].accommodationId in accs
  }

  lemma ClientRowsResolve(rs: map<nat, Reservation>, accs: map<nat, Accommodation>, clientId: nat)
    requires AccommodationsResolve(rs, accs)
    ensures RowsResolve(FindByClientId(rs, clientId), accs)
  {
    var rows := FindByClientId(rs, clientId);
    forall i | 0 <= i < |rows| ensures rows[i].reservation.accommodationId in accs {
      assert rows[i] in rows;
    }
  }

  /** The accommodation value of each row. */
  function Values(rows: seq<Row>, accs: map<nat, Accommodation>): (vs: seq<int>)
    requires RowsResolve(rows, accs)
    ensures |vs| == |rows|
    ensures forall i :: 0 <= i < |rows| ==> vs[i] == accs[rows[i].reservation.accommodationId].value
  {
    seq(|rows|, i requires 0 <= i < |rows| => accs[rows[i].reservation.accommodationId].value)
  }

  /** The position of the first largest value. */
  function FirstMaxIndex(vs: seq<int>): (i: nat)
    requires vs != []
    ensures i < |vs|
    ensures forall j :: 0 <= j < |vs| ==> vs[j] <= vs[i]
    ensures forall j :: 0 <= j < i ==> vs[j] < vs[i]
    decreases |vs|
  {
    if |vs| == 1 then 0
    else
      var k := FirstMaxIndex(vs[..|vs| - 1]);
      if vs[|vs| - 1] > vs[k] then |vs| - 1 else k
  }

  /** The position of the first smallest value. */
  function FirstMinIndex(vs: seq<int>): (i: nat)
    requires vs != []
    ensures i < |vs|
    ensures forall j :: 0 <= j < |vs| ==> vs[i] <= vs[j]
    ensures forall j :: 0 <= j < i ==> vs[i] < vs[j]
    decreases |vs|
  {
    if |vs| == 1 then 0
    else
      var k := FirstMinIndex(vs[..|vs| - 1]);
      if vs[|vs| - 1] < vs[k] then |vs| - 1 else k
  }

  /** The accommodation value of a reservation. */
  function ValueOf(r: Reservation, accs: map<nat, Accommodation>): int
    requires r.accommodationId in accs
  {
    accs[r.accommodationId].value
  }

  /** `a` comes no later than `b` when values are ordered descending (highest
      first) or ascending (lowest first). */
  predicate RanksFirst(a: int, b: int, descending: bool)
  {
    if descending then a >= b else a <= b
  }

  /** `best` is a reservation of the client whose accommodation value comes
      first in the chosen order, and every reservation of the client with a
      smaller id (earlier in repository order) comes strictly later. */
  ghost predicate IsFirstByValue(rs: map<nat, Reservation>, accs: map<nat, Accommodation>,
                                 clientId: nat, best: Row, descending: bool)
    requires AccommodationsResolve(rs, accs)
  {
    && best.id in rs && rs[best.id] == best.reservation && best.reservation.clientId == clientId
    && forall k :: k in rs && rs[k].clientId == clientId ==>
         && RanksFirst(ValueOf(rs[best.id], accs), ValueOf(rs[k], accs), descending)
         && (k < best.id ==> !RanksFirst(ValueOf(rs[k], accs), ValueOf(rs[best.id], accs), descending))
  }

  /** Turns the position found by FirstMaxIndex / FirstMinIndex in the value
      list of the client's rows into the statement about ids. */
  lemma {:induction false} RankedRowIsFirst(rs: map<nat, Reservation>, accs: map<nat, Accommodation>,
                                            clientId: nat, i: nat, descending: bool)
    requires AccommodationsResolve(rs, accs)
    requires RowsResolve(FindByClientId(rs, clientId), accs)
    requires i < |FindByClientId(rs, clientId)|
    requires var vs := Values(FindByClientId(rs, clientId), accs);
      && (forall j :: 0 <= j < |vs| ==> RanksFirst(vs[i], vs[j], descending))
      && (forall j :: 0 <= j < i ==> !RanksFirst(vs[j], vs[i], descending))
    ensures IsFirstByValue(rs, accs, clientId, FindByClientId(rs, clientId)[i], descending)
  {
    var rows := FindByClientId(rs, clientId);
    var vs := Values(rows, accs);
    var best := rows[i];
    assert best in rows;
    forall k | k in rs && rs[k].clientId == clientId
      ensures RanksFirst(ValueOf(rs[best.id], accs), ValueOf(rs[k], accs), descending)
      ensures k < best.id ==> !RanksFirst(ValueOf(rs[k], accs), ValueOf(rs[best.id], accs), descending)
    {
      var row :| row in rows && row.id == k;
      var j :| 0 <= j < |rows| && rows[j] == row;
      assert vs[j] == ValueOf(rs[k], accs);
      if k < best.id {
        assert j < i;
      }
    }
  }

  /** The client's reservations ordered by accommodation value, highest
      first (ties in repository order), limited to the first one. */
  function FindTopByClientIdOrderByAccommodationValueDesc(rs: map<nat, Reservation>,
                                                         accs: map<nat, Accommodation>,
                                                         clientId: nat): (top: seq<Row>)
    requires AccommodationsResolve(rs, accs)
    ensures |top| <= 1
    ensures top == [] <==> forall k :: k in rs ==> rs[k].clientId != clientId
    ensures top != [] ==> IsFirstByValue(rs, accs, clientId, top[0], true)
  {
    var rows := FindByClientId(rs, clientId);
    ClientRowsResolve(rs, accs, clientId);
    if rows == [] then []
    else
      var i := FirstMaxIndex(Values(rows, accs));
      RankedRowIsFirst(rs, accs, clientId, i, true);
      [rows[i]]
  }

  /** The client's reservations ordered by accommodation value, lowest
      first (ties in repository order), limited to the first one. */
  function FindTopByClientIdOrderByAccommodationValueAsc(rs: map<nat, Reservation>,
                                                        accs: map<nat, Accommodation>,
                                                        clientId: nat): (top: seq<Row>)
    requires AccommodationsResolve(rs, accs)
    ensures |top| <= 1
    ensures top == [] <==> forall k :: k in rs ==> rs[k].clientId != clientId
    ensures top != [] ==> IsFirstByValue(rs, accs, clientId, top[0], false)
  {
    var rows := FindByClientId(rs, clientId);
    ClientRowsResolve(rs, accs, clientId);
    if rows == [] then []
    else
      var i := FirstMinIndex(Values(rows, accs));
      RankedRowIsFirst(rs, accs, clientId, i, false);
      [rows[i]]
  }
}
