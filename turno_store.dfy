/**
 * The shift table and its operations: upsert keyed by (user, day), removal by
 * id, and the read queries ordered by day. The table is a sequence of rows in
 * insertion order; every write is followed by the calendar projection, whose
 * failures are logged and never undo the write.
 */
module TurnoStore {
  import opened Wrappers
  import opened Dates
  import opened TurnoSchema
  import opened Gcal
  import opened Sorting

  // ---------------------------------------------------------------- rows

  /** No two rows share an id. */
  ghost predicate UniqueIds(rows: seq<Turno>) {
    forall i, j :: 0 <= i < j < |rows| ==> rows[i].id != rows[j].id
  }

  /** No two rows share a (user, day) key. */
  ghost predicate UniqueKeys(rows: seq<Turno>) {
    forall i, j :: 0 <= i < j < |rows| ==> !(rows[i].userId == rows[j].userId && rows[i].giorno == rows[j].giorno)
  }

  predicate HasKey(rec: Turno, userId: string, giorno: Day) {
    rec.userId == userId && rec.giorno == giorno
  }

  /** `filter_by(user_id=…, giorno=…).first()`: the index of the first row with the key, or `|rows|`. */
  function FindKey(rows: seq<Turno>, userId: string, giorno: Day): (i: nat)
    ensures i <= |rows|
    ensures i < |rows| ==> HasKey(rows[i], userId, giorno)
    ensures forall j :: 0 <= j < i ==> !HasKey(rows[j], userId, giorno)
  {
    if rows == [] then 0
    else if HasKey(rows[0], userId, giorno) then 0
    else 1 + FindKey(rows[1..], userId, giorno)
  }

  /** `filter_by(id=…).first()`: the index of the first row with the id, or `|rows|`. */
  function FindId(rows: seq<Turno>, id: string): (i: nat)
    ensures i <= |rows|
    ensures i < |rows| ==> rows[i].id == id
    ensures forall j :: 0 <= j < i ==> rows[j].id != id
  {
    if rows == [] then 0
    else if rows[0].id == id then 0
    else 1 + FindId(rows[1..], id)
  }

  /** The payload's intervals, type value and note written over a row; its id, user and day stay. */
  function Apply(rec: Turno, p: TurnoIn): (r: Turno)
    ensures r.id == rec.id && r.userId == rec.userId && r.giorno == rec.giorno
    ensures r.inizio1 == p.inizio1 && r.fine1 == p.fine1 && r.inizio2 == p.inizio2
    ensures r.fine2 == p.fine2 && r.inizio3 == p.inizio3 && r.fine3 == p.fine3
    ensures r.tipo == Value(p.tipo) && r.note == p.note
  {
    rec.(inizio1 := p.inizio1, fine1 := p.fine1, inizio2 := p.inizio2, fine2 := p.fine2,
         inizio3 := p.inizio3, fine3 := p.fine3, tipo := Value(p.tipo), note := p.note)
  }

  /** A new row for the payload's key, before its fields are filled. */
  function NewRow(id: string, p: TurnoIn): Turno {
    Turno(id, p.userId, p.giorno, None, None, None, None, None, None, "", None)
  }

  /** The table after an upsert, and the written row. */
  function UpsertRows(rows: seq<Turno>, p: TurnoIn, newId: string): (r: (seq<Turno>, Turno))
    ensures var (rows', rec) := r;
      && HasKey(rec, p.userId, p.giorno)
      && rec == Apply(rec, p)
      && rec in rows'
      && (FindKey(rows, p.userId, p.giorno) < |rows| ==>
            rows' == rows[FindKey(rows, p.userId, p.giorno) := rec] && rec.id == rows[FindKey(rows, p.userId, p.giorno)].id)
      && (FindKey(rows, p.userId, p.giorno) == |rows| ==> rows' == rows + [rec] && rec.id == newId)
  {
    var i := FindKey(rows, p.userId, p.giorno);
    if i < |rows| then
      var rec := Apply(rows[i], p);
      assert rows[i := rec][i] == rec;
      (rows[i := rec], rec)
    else
      var rec := Apply(NewRow(newId, p), p);
      (rows + [rec], rec)
  }

  /** Upsert never creates a second row for a key. */
  lemma UpsertKeepsKeysUnique(rows: seq<Turno>, p: TurnoIn, newId: string)
    requires UniqueKeys(rows)
    ensures UniqueKeys(UpsertRows(rows, p, newId).0)
  {
  }

  /** With a fresh id for a new row, ids stay unique. */
  lemma UpsertKeepsIdsUnique(rows: seq<Turno>, p: TurnoIn, newId: string)
    requires UniqueIds(rows)
    requires forall k :: 0 <= k < |rows| ==> rows[k].id != newId
    ensures UniqueIds(UpsertRows(rows, p, newId).0)
  {
  }

  /** Rows with another key are untouched, in place, and the table grows by at most one row. */
  lemma UpsertOthersUnchanged(rows: seq<Turno>, p: TurnoIn, newId: string)
    ensures var rows' := UpsertRows(rows, p, newId).0;
      && |rows| <= |rows'| <= |rows| + 1
      && forall k :: 0 <= k < |rows| && !HasKey(rows[k], p.userId, p.giorno) ==> rows'[k] == rows[k]
  {
  }

  /** The row holding the payload's key is unique after an upsert and carries the payload. */
  lemma {:induction false} UpsertOneRowPerKey(rows: seq<Turno>, p: TurnoIn, newId: string, k: nat)
    requires UniqueKeys(rows)
    requires var rows' := UpsertRows(rows, p, newId).0; k < |rows'| && HasKey(rows'[k], p.userId, p.giorno)
    ensures var (rows', rec) := UpsertRows(rows, p, newId); rows'[k] == rec
  {
  }

  /** A second upsert for the same key rewrites the same row: its id is kept and no row is added. */
  lemma UpsertSameKeyTwice(rows: seq<Turno>, p: TurnoIn, q: TurnoIn, id1: string, id2: string)
    requires q.userId == p.userId && q.giorno == p.giorno
    ensures var (rows1, rec1) := UpsertRows(rows, p, id1);
      var (rows2, rec2) := UpsertRows(rows1, q, id2);
      && FindKey(rows1, q.userId, q.giorno) < |rows1|
      && rows1[FindKey(rows1, q.userId, q.giorno)] == rec1
      && |rows2| == |rows1| && rec2.id == rec1.id && rec2 == Apply(rec1, q)
  {
    var (rows1, rec1) := UpsertRows(rows, p, id1);
    var i := FindKey(rows, p.userId, p.giorno);
    if i < |rows| {
      assert rows1[i] == rec1;
      assert forall m :: 0 <= m < i ==> rows1[m] == rows[m];
    } else {
      assert rows1[|rows|] == rec1;
      assert forall m :: 0 <= m < |rows| ==> rows1[m] == rows[m];
    }
  }

  /** Upserting the same payload twice leaves the table as one upsert did. */
  lemma UpsertIdempotent(rows: seq<Turno>, p: TurnoIn, id1: string, id2: string)
    ensures var rows1 := UpsertRows(rows, p, id1).0;
      UpsertRows(rows1, p, id2).0 == rows1
  {
    UpsertSameKeyTwice(rows, p, p, id1, id2);
  }

  /** The table without row `i`. */
  function RemoveAt(rows: seq<Turno>, i: nat): (r: seq<Turno>)
    requires i < |rows|
    ensures |r| == |rows| - 1
    ensures multiset(r) + multiset{rows[i]} == multiset(rows)
  {
    assert rows == rows[..i] + [rows[i]] + rows[i + 1..];
    rows[..i] + rows[i + 1..]
  }

  /** Removing a row keeps ids and keys unique. */
  lemma RemoveKeepsUnique(rows: seq<Turno>, i: nat)
    requires i < |rows|
    requires UniqueIds(rows) && UniqueKeys(rows)
    ensures UniqueIds(RemoveAt(rows, i)) && UniqueKeys(RemoveAt(rows, i))
  {
    var r := RemoveAt(rows, i);
    assert forall k :: 0 <= k < |r| ==> r[k] == rows[if k < i then k else k + 1];
  }

  /** The table without any row whose id is `id`, in the same order. */
  function DropId(rows: seq<Turno>, id: string): (r: seq<Turno>)
    ensures forall k :: 0 <= k < |r| ==> r[k].id != id
  {
    if rows == [] then []
    else (if rows[0].id == id then [] else [rows[0]]) + DropId(rows[1..], id)
  }

  /** With unique ids, deleting the row found by id is dropping that id: nothing else goes, order stays. */
  lemma {:induction false} RemoveIsDrop(rows: seq<Turno>, id: string)
    requires UniqueIds(rows)
    requires FindId(rows, id) < |rows|
    ensures RemoveAt(rows, FindId(rows, id)) == DropId(rows, id)
  {
    var i := FindId(rows, id);
    var tail := rows[1..];
    if i == 0 {
      RemoveFirst(rows, id);
    } else {
      assert FindId(tail, id) == i - 1;
      UniqueTail(rows);
      RemoveIsDrop(tail, id);
      RemoveAtCons(rows, i);
    }
  }

  /** When the first row has the id and ids are unique, dropping the id drops just that row. */
  lemma RemoveFirst(rows: seq<Turno>, id: string)
    requires UniqueIds(rows)
    requires rows != [] && rows[0].id == id
    ensures RemoveAt(rows, 0) == DropId(rows, id)
  {
    var tail := rows[1..];
    forall k | 0 <= k < |tail|
      ensures tail[k].id != id
    {
      assert tail[k] == rows[k + 1];
    }
    DropAbsent(tail, id);
  }

  lemma UniqueTail(rows: seq<Turno>)
    requires rows != [] && UniqueIds(rows)
    ensures UniqueIds(rows[1..])
  {
    var tail := rows[1..];
    forall a, b | 0 <= a < b < |tail|
      ensures tail[a].id != tail[b].id
    {
      assert tail[a] == rows[a + 1] && tail[b] == rows[b + 1];
    }
  }

  /** Removing a row past the first keeps the first in front. */
  lemma RemoveAtCons(rows: seq<Turno>, i: nat)
    requires 0 < i < |rows|
    ensures RemoveAt(rows, i) == [rows[0]] + RemoveAt(rows[1..], i - 1)
  {
    var tail := rows[1..];
    assert rows[..i] == [rows[0]] + tail[..i - 1];
    assert rows[i + 1..] == tail[i..];
  }

  lemma {:induction false} DropAbsent(rows: seq<Turno>, id: string)
    requires forall k :: 0 <= k < |rows| ==> rows[k].id != id
    ensures DropId(rows, id) == rows
  {
    if rows != [] {
      assert forall k :: 0 <= k < |rows[1..]| ==> rows[1..][k] == rows[k + 1];
      DropAbsent(rows[1..], id);
      assert rows == [rows[0]] + rows[1..];
    }
  }

  // ---------------------------------------------------------------- queries

  /** `ORDER BY giorno ASC`; ties keep table order. */
  function ByDay(): (Turno, Turno) -> bool {
    ByKey((rec: Turno) => DayNumber(rec.giorno))
  }

  /** The rows satisfying `keep`, ordered by day. */
  function Query(rows: seq<Turno>, keep: Turno -> bool): (r: seq<Turno>)
    ensures Sorted(r, ByDay())
    ensures multiset(r) == multiset(Filter(rows, keep))
    ensures forall rec :: rec in r <==> rec in rows && keep(rec)
  {
    ByKeyPreorder((rec: Turno) => DayNumber(rec.giorno));
    SortSorted(Filter(rows, keep), ByDay());
    var r := Sort(Filter(rows, keep), ByDay());
    assert forall rec :: rec in r <==> rec in multiset(Filter(rows, keep));
    r
  }

  // ---------------------------------------------------------------- the store

  /** The shift table together with the users it refers to and the shift calendar. */
  class Store {
    var rows: seq<Turno>
    var users: map<string, User>
    /** Every error the calendar projection raised, as `logger.error` records it. */
    var logged: seq<SyncError>
    const calendar: Calendar
    const calId: string
    const localOffset: (Day, Time) -> Option<Offset>
    const hash: string -> int

    ghost predicate Valid()
      reads this
    {
      UniqueIds(rows) && UniqueKeys(rows)
    }

    constructor(users: map<string, User>, calendar: Calendar, calId: string,
                localOffset: (Day, Time) -> Option<Offset>, hash: string -> int)
      ensures Valid()
      ensures rows == [] && this.users == users && logged == []
      ensures this.calendar == calendar && this.calId == calId
      ensures this.localOffset == localOffset && this.hash == hash
    {
      rows := [];
      this.users := users;
      logged := [];
      this.calendar := calendar;
      this.calId := calId;
      this.localOffset := localOffset;
      this.hash := hash;
    }

    predicate IdInUse(id: string)
      reads this
    {
      exists k :: 0 <= k < |rows| && rows[k].id == id
    }

    /**
     * `upsert_turno`: an unknown user is refused with 400 and nothing changes;
     * otherwise the row for (user, day) is found or created and overwritten,
     * then projected onto the calendar unless the shift is `RECUPERO`. A
     * projection error is logged and the written row is still returned.
     * `newId` is the id a new row receives.
     */
    method Upsert(p: TurnoIn, newId: string) returns (r: Result<Turno, HttpException>)
      requires Valid()
      requires !IdInUse(newId)
      modifies this, calendar
      ensures Valid()
      ensures users == old(users)
      ensures p.userId !in users ==>
        && r == Err(HttpException(400, "Unknown user"))
        && rows == old(rows) && logged == old(logged)
        && calendar.State() == old(calendar.State())
      ensures p.userId in users ==> r.Ok? && (rows, r.value) == UpsertRows(old(rows), p, newId)
      ensures p.userId in users && p.tipo == RECUPERO ==>
        calendar.State() == old(calendar.State()) && logged == old(logged)
      ensures p.userId in users && p.tipo != RECUPERO ==>
        var (st, err) := SyncEffect(old(calendar.State()), calId, r.value, users[p.userId], localOffset, hash, calendar.oracle);
        calendar.State() == st && logged == old(logged) + (if err.Some? then [err.value] else [])
    {
      if p.userId !in users {
        return Err(HttpException(400, "Unknown user"));
      }
      var i := FindKey(rows, p.userId, p.giorno);
      var rec := if i < |rows| then rows[i] else NewRow(newId, p);
      rec := rec.(inizio1 := p.inizio1, fine1 := p.fine1);
      rec := rec.(inizio2 := p.inizio2, fine2 := p.fine2);
      rec := rec.(inizio3 := p.inizio3, fine3 := p.fine3);
      rec := rec.(tipo := Value(p.tipo), note := p.note);
      UpsertKeepsKeysUnique(rows, p, newId);
      UpsertKeepsIdsUnique(rows, p, newId);
      rows := if i < |rows| then rows[i := rec] else rows + [rec];
      if p.tipo != RECUPERO {
        var err := SyncShiftEvent(calendar, calId, rec, users[p.userId], localOffset, hash);
        if err.Some? {
          logged := logged + [err.value];
        }
      }
      return Ok(rec);
    }

    /**
     * `remove_turno`: an unknown id is refused with 404 and nothing changes;
     * otherwise the calendar delete is attempted first, its error logged, and
     * the row removed.
     */
    method Remove(turnoId: string) returns (r: Result<(), HttpException>)
      requires Valid()
      modifies this, calendar
      ensures Valid()
      ensures users == old(users)
      ensures !old(IdInUse(turnoId)) ==>
        && r == Err(HttpException(404, "Turno non trovato"))
        && rows == old(rows) && logged == old(logged)
        && calendar.State() == old(calendar.State())
      ensures old(IdInUse(turnoId)) ==>
        && r.Ok?
        && rows == DropId(old(rows), turnoId)
        && var (st, err) := DeleteEffect(old(calendar.State()), calId, turnoId, calendar.oracle);
           calendar.State() == st && logged == old(logged) + (if err.Some? then [err.value] else [])
    {
      var i := FindId(rows, turnoId);
      if i == |rows| {
        return Err(HttpException(404, "Turno non trovato"));
      }
      var err := DeleteShiftEvent(calendar, calId, turnoId);
      if err.Some? {
        logged := logged + [err.value];
      }
      RemoveIsDrop(rows, turnoId);
      RemoveKeepsUnique(rows, i);
      rows := RemoveAt(rows, i);
      return Ok(());
    }

    /** `get_turni`: the user's shifts, ordered by day. */
    function GetTurni(userId: string): (r: seq<Turno>)
      reads this
      ensures Sorted(r, ByDay())
      ensures forall rec :: rec in r <==> rec in rows && rec.userId == userId
      ensures forall rec :: multiset(r)[rec] == if rec.userId == userId then multiset(rows)[rec] else 0
    {
      var keep := (rec: Turno) => rec.userId == userId;
      FilterCount(rows, keep);
      Query(rows, keep)
    }

    /** `list_all`: every shift, ordered by day. */
    function ListAll(): (r: seq<Turno>)
      reads this
      ensures Sorted(r, ByDay())
      ensures multiset(r) == multiset(rows)
    {
      FilterKeepsAll(rows, (rec: Turno) => true);
      Query(rows, (rec: Turno) => true)
    }

    /** `list_between`: the shifts from `start` to `end`, both included, ordered by day. */
    function ListBetween(start: Day, end: Day): (r: seq<Turno>)
      reads this
      ensures Sorted(r, ByDay())
      ensures forall rec :: rec in r <==>
        rec in rows && DayNumber(start) <= DayNumber(rec.giorno) <= DayNumber(end)
      ensures forall rec :: multiset(r)[rec] ==
                            if DayNumber(start) <= DayNumber(rec.giorno) <= DayNumber(end) then multiset(rows)[rec] else 0
    {
      var keep := (rec: Turno) => DayNumber(start) <= DayNumber(rec.giorno) <= DayNumber(end);
      FilterCount(rows, keep);
      Query(rows, keep)
    }
  }
}
