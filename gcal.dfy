/**
 * Projection of shifts onto the "Turni di Servizio" calendar.
 *
 * The external calendar is a map from event id to event body plus the log of
 * calls made to it. An oracle decides, for the n-th call, whether the service
 * fails it and with which HTTP status; a call the oracle lets through is
 * answered by the calendar itself: 404 for an update or delete of a missing
 * event, 409 for an insert of an id already present.
 */
module Gcal {
  import opened Wrappers
  import opened Text
  import opened Dates
  import opened TurnoSchema

  // ---------------------------------------------------------------- event id

  /** `s.replace('-', '')`. */
  function RemoveHyphens(s: string): (r: string)
    ensures '-' !in r
    ensures |r| <= |s|
    ensures '-' !in s ==> r == s
  {
    if s == [] then []
    else (if s[0] == '-' then [] else [s[0]]) + RemoveHyphens(s[1..])
  }

  const EventPrefix := "shift-"

  /** The calendar event id of a shift: `shift-` and the shift id without its hyphens. */
  function MakeEventId(turnoId: string): (r: string)
    ensures |r| >= 6 && r[..6] == EventPrefix && r[6..] == RemoveHyphens(turnoId)
    ensures forall i :: 0 <= i < |r| ==> (r[i] == '-' <==> i == 5)
  {
    var r := EventPrefix + RemoveHyphens(turnoId);
    assert r[6..] == RemoveHyphens(turnoId);
    assert forall i :: 6 <= i < |r| ==> r[i] == r[6..][i - 6];
    r
  }

  /** Two shifts share an event exactly when their ids agree once hyphens are dropped. */
  lemma MakeEventIdSame(x: string, y: string)
    ensures MakeEventId(x) == MakeEventId(y) <==> RemoveHyphens(x) == RemoveHyphens(y)
  {
    if MakeEventId(x) == MakeEventId(y) {
      assert MakeEventId(x)[6..] == MakeEventId(y)[6..];
    }
  }

  /** On hyphen-free ids the event id is injective. */
  lemma MakeEventIdInjective(x: string, y: string)
    requires '-' !in x && '-' !in y
    ensures MakeEventId(x) == MakeEventId(y) <==> x == y
  {
    MakeEventIdSame(x, y);
  }

  /** In general it is not: ids that differ only in hyphen placement collide. */
  lemma MakeEventIdCollision()
    ensures "a-b" != "ab" && MakeEventId("a-b") == MakeEventId("ab")
  {
    assert RemoveHyphens("a-b") == "ab" by {
      assert "a-b"[1..] == "-b" && "-b"[1..] == "b" && "b"[1..] == [];
    }
    assert RemoveHyphens("ab") == "ab";
  }

  // ---------------------------------------------------------------- timestamps

  /** A UTC offset in minutes, strictly inside one day as Python's `timedelta` offsets are. */
  type Offset = m: int | -1440 < m < 1440

  /** The zone suffix: `+00:00` without an offset, otherwise sign, hours and minutes of its size. */
  function TzSuffix(offset: Option<Offset>): (r: string)
    ensures |r| == 6 && r[3] == ':' && (r[0] == '+' || r[0] == '-')
    ensures AllDigits(r[1..3]) && AllDigits(r[4..])
    ensures offset.None? ==> r == "+00:00"
    ensures offset.Some? ==> (r[0] == '+' <==> offset.value >= 0)
  {
    match offset
    case None => "+00:00"
    case Some(m) =>
      var a: nat := if m >= 0 then m else -m;
      var r := (if m >= 0 then "+" else "-") + Pad2(a / 60) + ":" + Pad2(a % 60);
      assert r[1..3] == Pad2(a / 60) && r[4..] == Pad2(a % 60);
      r
  }

  /** Reads a zone suffix back as signed minutes. */
  function ParseOffset(s: string): int
    requires |s| == 6 && AllDigits(s[1..3]) && AllDigits(s[4..])
  {
    var size := 60 * ParseNat(s[1..3]) + ParseNat(s[4..]);
    if s[0] == '-' then -size else size
  }

  /** The suffix keeps the offset exactly; no offset reads as UTC. */
  lemma TzSuffixRoundTrip(offset: Option<Offset>)
    ensures ParseOffset(TzSuffix(offset)) == if offset.Some? then offset.value else 0
  {
    match offset
    case None =>
      assert "+00:00"[1..3] == Zeros(2) && "+00:00"[4..] == Zeros(2);
      ParseAllZeros(2);
    case Some(m) =>
      var a: nat := if m >= 0 then m else -m;
      var r := TzSuffix(offset);
      assert r[1..3] == Pad2(a / 60) && r[4..] == Pad2(a % 60);
  }

  lemma TzSuffixExamples()
    ensures TzSuffix(Some(570)) == "+09:30"
    ensures TzSuffix(Some(-300)) == "-05:00"
    ensures TzSuffix(Some(0)) == TzSuffix(None) == "+00:00"
  {
    TzSuffixExample(570, '+', 9, 30, "+09:30");
    TzSuffixExample(-300, '-', 5, 0, "-05:00");
    TzSuffixExample(0, '+', 0, 0, "+00:00");
  }

  /** One example: the suffix of `m` minutes is the given text. */
  lemma TzSuffixExample(m: Offset, sign: char, h: nat, mi: nat, text: string)
    requires h < 24 && mi < 60
    requires m >= 0 ==> m == 60 * h + mi && sign == '+'
    requires m < 0 ==> -m == 60 * h + mi && sign == '-'
    requires text == [sign, DigitChar(h / 10), DigitChar(h % 10), ':', DigitChar(mi / 10), DigitChar(mi % 10)]
    ensures TzSuffix(Some(m)) == text
  {
    TzSuffixDigits(m, sign, h, mi);
  }

  /** The suffix of an offset of `h` hours and `mi` minutes spells their two digits each. */
  lemma TzSuffixDigits(m: Offset, sign: char, h: nat, mi: nat)
    requires h < 24 && mi < 60
    requires m >= 0 ==> m == 60 * h + mi && sign == '+'
    requires m < 0 ==> -m == 60 * h + mi && sign == '-'
    ensures TzSuffix(Some(m)) == [sign, DigitChar(h / 10), DigitChar(h % 10), ':', DigitChar(mi / 10), DigitChar(mi % 10)]
  {
    var a: nat := if m >= 0 then m else -m;
    assert a / 60 == h && a % 60 == mi;
    Pad2Digits(h);
    Pad2Digits(mi);
  }

  /** `iso_dt`: the day in ISO form, `T`, the time as `HH:MM`, `:00`, then the zone suffix. */
  function IsoDt(d: Day, t: Time, offset: Option<Offset>): (r: string)
    ensures |r| == 25
    ensures r[..10] == IsoDate(d) && r[10] == 'T' && r[11..16] == HourMinute(t)
    ensures r[16..19] == ":00" && r[19..] == TzSuffix(offset)
  {
    var r := IsoDate(d) + "T" + HourMinute(t) + ":00" + TzSuffix(offset);
    FivePieces(IsoDate(d), "T", HourMinute(t), ":00", TzSuffix(offset));
    r
  }

  /** The pieces of a five-part concatenation are found back at their offsets. */
  lemma FivePieces(a: string, b: string, c: string, d: string, e: string)
    ensures var r := a + b + c + d + e;
      var i, j, k, l := |a|, |a| + |b|, |a| + |b| + |c|, |a| + |b| + |c| + |d|;
      r[..i] == a && r[i..j] == b && r[j..k] == c && r[k..l] == d && r[l..] == e
  {
  }

  /** The seconds of the time never reach the timestamp. */
  lemma IsoDtDropsSeconds(d: Day, t: Time, offset: Option<Offset>, s: int)
    requires 0 <= s < 60
    ensures IsoDt(d, t, offset) == IsoDt(d, t.(second := s), offset)
  {
  }

  /** The timestamp determines the day, the hour, the minute and the offset. */
  lemma IsoDtInjective(d: Day, t: Time, o: Option<Offset>, d': Day, t': Time, o': Option<Offset>)
    requires IsoDt(d, t, o) == IsoDt(d', t', o')
    ensures d == d' && t.hour == t'.hour && t.minute == t'.minute
    ensures ParseOffset(TzSuffix(o)) == ParseOffset(TzSuffix(o'))
  {
    var r, r' := IsoDt(d, t, o), IsoDt(d', t', o');
    assert IsoDate(d) == r[..10] == r'[..10] == IsoDate(d');
    IsoDateInjective(d, d');
    assert HourMinute(t) == r[11..16] == r'[11..16] == HourMinute(t');
    HourMinuteExact(t, t');
    assert TzSuffix(o) == r[19..] == r'[19..] == TzSuffix(o');
  }

  // ---------------------------------------------------------------- pickers

  /**
   * `next(v for v in vals if v)`: the first value that is set. `None` stands
   * for the `StopIteration` raised when every value is missing (a `time` is
   * always truthy, so only a missing value is skipped).
   */
  function FirstNonNull<T>(vals: seq<Option<T>>): (r: Option<T>)
    ensures r.None? <==> forall i :: 0 <= i < |vals| ==> vals[i].None?
    ensures r.Some? ==> exists i :: 0 <= i < |vals| && vals[i] == r && forall j :: 0 <= j < i ==> vals[j].None?
  {
    if vals == [] then None
    else if vals[0].Some? then vals[0]
    else
      var r := FirstNonNull(vals[1..]);
      assert forall i :: 1 <= i < |vals| ==> vals[i] == vals[1..][i - 1];
      r
  }

  function Reverse<T>(s: seq<T>): (r: seq<T>)
    ensures |r| == |s|
    ensures forall i :: 0 <= i < |s| ==> r[i] == s[|s| - 1 - i]
  {
    if s == [] then [] else Reverse(s[1..]) + [s[0]]
  }

  /** `next(v for v in reversed(vals) if v)`: the last value that is set. */
  function LastNonNull<T>(vals: seq<Option<T>>): (r: Option<T>)
    ensures r.None? <==> forall i :: 0 <= i < |vals| ==> vals[i].None?
    ensures r.Some? ==> exists i :: 0 <= i < |vals| && vals[i] == r && forall j :: i < j < |vals| ==> vals[j].None?
  {
    var rv := Reverse(vals);
    var r := FirstNonNull(rv);
    assert forall i :: 0 <= i < |vals| ==> vals[i] == rv[|vals| - 1 - i];
    r
  }

  /** The start of the event: the first interval start that is set. */
  function StartOf(i1: Option<Time>, i2: Option<Time>, i3: Option<Time>): Option<Time> {
    FirstNonNull([i1, i2, i3])
  }

  /**
   * The end of the event: `last_non_null` is handed the ends already in
   * reverse order, so it picks the first end that is set.
   */
  function EndOf(f1: Option<Time>, f2: Option<Time>, f3: Option<Time>): Option<Time> {
    LastNonNull([f3, f2, f1])
  }

  /** The double reversal: the end is `fine_1` whenever it is set, never a later interval's end. */
  lemma EndIsFirstEnd(f1: Option<Time>, f2: Option<Time>, f3: Option<Time>)
    ensures EndOf(f1, f2, f3) == FirstNonNull([f1, f2, f3])
    ensures f1.Some? ==> EndOf(f1, f2, f3) == f1
  {
    var r := Reverse([f3, f2, f1]);
    assert r == [f1, f2, f3];
  }

  /** A shift 08:00-12:00 with overtime 19:00-21:00 is projected as ending at 12:00. */
  lemma EndIgnoresOvertime()
    ensures EndOf(Some(Clock(12, 0, 0)), None, Some(Clock(21, 0, 0))) == Some(Clock(12, 0, 0))
  {
    EndIsFirstEnd(Some(Clock(12, 0, 0)), None, Some(Clock(21, 0, 0)));
  }

  // ---------------------------------------------------------------- colour

  /** The colour ids `"1"` .. `"11"`. */
  function Colors(): (cs: seq<string>)
    ensures |cs| == 11
    ensures forall k :: 0 <= k < 11 ==> AllDigits(cs[k]) && ParseNat(cs[k]) == k + 1
    ensures forall k :: 0 <= k < 11 ==> |cs[k]| == if k < 9 then 1 else 2
  {
    var cs := seq(11, k requires 0 <= k < 11 => NatToString(k + 1));
    assert forall k :: 0 <= k < 11 ==> ParseNat(cs[k]) == k + 1 by {
      forall k | 0 <= k < 11 ensures ParseNat(cs[k]) == k + 1 {
        ParseNatToString(k + 1);
      }
    }
    cs
  }

  /** The colour of a user: Python's salted `hash` is the parameter `hash`. */
  function ColorForUser(userId: string, hash: string -> int): (r: string)
    ensures r in Colors()
    ensures AllDigits(r) && 1 <= ParseNat(r) <= 11
  {
    var h := hash(userId);
    var a: nat := if h >= 0 then h else -h;
    Colors()[a % 11]
  }

  /** Every colour is reachable: the hash alone picks it. */
  lemma EveryColorReachable(userId: string, k: nat)
    requires 1 <= k <= 11
    ensures ParseNat(ColorForUser(userId, (s: string) => k - 1)) == k
  {
  }

  // ---------------------------------------------------------------- records

  /** A user as far as the calendar needs it. */
  datatype User = User(id: string, email: string, nome: Option<string>)

  /** A stored shift (`tipo` is the stored string, which need not name a `TipoTurno`). */
  datatype Turno = Turno(
    id: string,
    userId: string,
    giorno: Day,
    inizio1: Option<Time>, fine1: Option<Time>,
    inizio2: Option<Time>, fine2: Option<Time>,
    inizio3: Option<Time>, fine3: Option<Time>,
    tipo: string,
    note: Option<string>)

  /** `nome or email.split("@")[0]`: an empty name counts as missing. */
  function TitleName(u: User): (r: string)
    ensures u.nome.Some? && u.nome.value != [] ==> r == u.nome.value
    ensures !(u.nome.Some? && u.nome.value != []) ==> r == Split(u.email, '@')[0]
    ensures !(u.nome.Some? && u.nome.value != []) ==>
      '@' !in r && StartsWith(u.email, r) && (|r| < |u.email| ==> u.email[|r|] == '@')
  {
    if u.nome.Some? && u.nome.value != [] then u.nome.value
    else
      var parts := Split(u.email, '@');
      JoinPrefix(parts, '@');
      parts[0]
  }

  /** The first part of a split is a prefix of the joined text, followed by the separator when it is not all of it. */
  lemma JoinPrefix(parts: seq<string>, sep: char)
    requires |parts| >= 1
    ensures StartsWith(Join(parts, sep), parts[0])
    ensures |parts[0]| < |Join(parts, sep)| ==> Join(parts, sep)[|parts[0]|] == sep
  {
    if |parts| > 1 {
      assert Join(parts, sep) == parts[0] + ([sep] + Join(parts[1..], sep));
    }
  }

  /** The event body sent to the calendar. */
  datatype Body = Body(id: string, summary: string, description: string,
                       start: string, end: string, colorId: string)

  /**
   * The body for a worked shift, or `None` when no start or no end is set
   * (where Python's `next` raises `StopIteration`).
   */
  function EventBody(t: Turno, u: User, localOffset: (Day, Time) -> Option<Offset>, hash: string -> int): (r: Option<Body>)
    ensures r.Some? <==> StartOf(t.inizio1, t.inizio2, t.inizio3).Some? && EndOf(t.fine1, t.fine2, t.fine3).Some?
    ensures r.Some? ==> r.value.id == MakeEventId(t.id) && r.value.colorId == ColorForUser(u.id, hash)
    ensures r.Some? ==> var s := StartOf(t.inizio1, t.inizio2, t.inizio3).value;
      r.value.summary == HourMinute(s) + " " + TitleName(u) && r.value.start == IsoDt(t.giorno, s, localOffset(t.giorno, s))
    ensures r.Some? ==> var e := EndOf(t.fine1, t.fine2, t.fine3).value;
      r.value.end == IsoDt(t.giorno, e, localOffset(t.giorno, e))
    ensures r.Some? ==> r.value.description == if t.note.Some? then t.note.value else ""
  {
    var start := StartOf(t.inizio1, t.inizio2, t.inizio3);
    var end := EndOf(t.fine1, t.fine2, t.fine3);
    if start.None? || end.None? then None
    else
      Some(Body(
        MakeEventId(t.id),
        HourMinute(start.value) + " " + TitleName(u),
        if t.note.Some? then t.note.value else "",
        IsoDt(t.giorno, start.value, localOffset(t.giorno, start.value)),
        IsoDt(t.giorno, end.value, localOffset(t.giorno, end.value)),
        ColorForUser(u.id, hash)))
  }

  // ---------------------------------------------------------------- the calendar

  datatype Call = Update(eventId: string, body: Body) | Insert(body: Body) | Delete(eventId: string)

  /** The calendar's events and every call made to it, oldest first. */
  datatype CalState = CalState(events: map<string, Body>, log: seq<Call>)

  /** Decides whether the service fails the n-th call, and with which status. */
  type Oracle = (nat, Call) -> Option<int>

  /** The oracle of a service that fails nothing it could carry out. */
  function Healthy(): Oracle {
    (n: nat, c: Call) => None
  }

  /** One call: its effect on the events and the HTTP error status it ends with, if any. */
  function Serve(st: CalState, c: Call, oracle: Oracle): (r: (CalState, Option<int>))
    ensures r.0.log == st.log + [c]
    ensures r.1.Some? ==> r.0.events == st.events
    ensures r.1.None? && c.Update? ==> c.eventId in st.events && r.0.events == st.events[c.eventId := c.body]
    ensures r.1.None? && c.Insert? ==> c.body.id !in st.events && r.0.events == st.events[c.body.id := c.body]
    ensures r.1.None? && c.Delete? ==> c.eventId in st.events && r.0.events == st.events - {c.eventId}
  {
    var log := st.log + [c];
    var injected := oracle(|st.log|, c);
    if injected.Some? then (CalState(st.events, log), injected)
    else match c
      case Update(id, b) =>
        if id in st.events then (CalState(st.events[id := b], log), None)
        else (CalState(st.events, log), Some(404))
      case Insert(b) =>
        if b.id in st.events then (CalState(st.events, log), Some(409))
        else (CalState(st.events[b.id := b], log), None)
      case Delete(id) =>
        if id in st.events then (CalState(st.events - {id}, log), None)
        else (CalState(st.events, log), Some(404))
  }

  /** Why a sync or a delete raised. */
  datatype SyncError =
    | NotConfigured       // RuntimeError: the shift calendar id is not set
    | NoTimes             // StopIteration: no start or no end to project
    | Http(status: int)   // HttpError re-raised from the calendar

  /** `delete_shift_event`: one delete call, a 404 counts as done. */
  function DeleteEffect(st: CalState, calId: string, turnoId: string, oracle: Oracle): (r: (CalState, Option<SyncError>))
    ensures calId == "" ==> r == (st, Some(NotConfigured))
    ensures calId != "" ==> r.0 == Serve(st, Delete(MakeEventId(turnoId)), oracle).0
    ensures calId != "" ==> var status := Serve(st, Delete(MakeEventId(turnoId)), oracle).1;
      r.1 == if status.None? || status.value == 404 then None else Some(Http(status.value))
  {
    if calId == "" then (st, Some(NotConfigured))
    else
      var (st1, status) := Serve(st, Delete(MakeEventId(turnoId)), oracle);
      if status.None? || status.value == 404 then (st1, None) else (st1, Some(Http(status.value)))
  }

  /** The worked-shift branch: update, and insert the same body after a 404 or 400. */
  function PutEvent(st: CalState, b: Body, oracle: Oracle): (r: (CalState, Option<SyncError>))
    ensures var (st1, status) := Serve(st, Update(b.id, b), oracle);
      && (status.None? ==> r == (st1, None))
      && (status.Some? && status.value != 404 && status.value != 400 ==> r == (st1, Some(Http(status.value))))
      && (status.Some? && (status.value == 404 || status.value == 400) ==>
            var (st2, status2) := Serve(st1, Insert(b), oracle);
            r == (st2, if status2.None? then None else Some(Http(status2.value))))
  {
    var (st1, status) := Serve(st, Update(b.id, b), oracle);
    if status.None? then (st1, None)
    else if status.value == 404 || status.value == 400 then
      var (st2, status2) := Serve(st1, Insert(b), oracle);
      (st2, if status2.None? then None else Some(Http(status2.value)))
    else (st1, Some(Http(status.value)))
  }

  /** `sync_shift_event`: a day-off deletes; a worked shift is updated, or inserted after a 404 or 400. */
  function SyncEffect(st: CalState, calId: string, t: Turno, u: User,
                      localOffset: (Day, Time) -> Option<Offset>, hash: string -> int,
                      oracle: Oracle): (r: (CalState, Option<SyncError>))
    ensures calId == "" ==> r == (st, Some(NotConfigured))
    ensures calId != "" && DayOffValue(t.tipo) ==> r == DeleteEffect(st, calId, t.id, oracle)
    ensures calId != "" && !DayOffValue(t.tipo) ==>
      r == match EventBody(t, u, localOffset, hash)
           case None => (st, Some(NoTimes))
           case Some(b) => PutEvent(st, b, oracle)
  {
    if calId == "" then (st, Some(NotConfigured))
    else if DayOffValue(t.tipo) then DeleteEffect(st, calId, t.id, oracle)
    else match EventBody(t, u, localOffset, hash)
      case None => (st, Some(NoTimes))
      case Some(b) => PutEvent(st, b, oracle)
  }

  /** A worked shift's update comes first; a 404 or 400 is followed by an insert of the same body, anything else by nothing. */
  lemma SyncCalls(st: CalState, calId: string, t: Turno, u: User,
                  localOffset: (Day, Time) -> Option<Offset>, hash: string -> int, oracle: Oracle)
    requires calId != "" && !DayOffValue(t.tipo)
    requires EventBody(t, u, localOffset, hash).Some?
    ensures var b := EventBody(t, u, localOffset, hash).value;
      var r := SyncEffect(st, calId, t, u, localOffset, hash, oracle);
      var (st1, status) := Serve(st, Update(MakeEventId(t.id), b), oracle);
      && (status.None? ==> r.0.log == st.log + [Update(MakeEventId(t.id), b)] && r.1.None?)
      && (status.Some? && (status.value == 404 || status.value == 400) ==>
            r.0.log == st.log + [Update(MakeEventId(t.id), b), Insert(b)] && b.id == MakeEventId(t.id))
      && (status.Some? && status.value != 404 && status.value != 400 ==>
            r.0.log == st.log + [Update(MakeEventId(t.id), b)] && r.1 == Some(Http(status.value))
            && r.0.events == st.events)
  {
    var b := EventBody(t, u, localOffset, hash).value;
    assert SyncEffect(st, calId, t, u, localOffset, hash, oracle) == PutEvent(st, b, oracle);
    PutEventCalls(st, b, oracle);
  }

  /** The calls `PutEvent` makes for a body: an update, then an insert only after a 404 or 400. */
  lemma PutEventCalls(st: CalState, b: Body, oracle: Oracle)
    ensures var r := PutEvent(st, b, oracle);
      var (st1, status) := Serve(st, Update(b.id, b), oracle);
      && (status.None? ==> r.0.log == st.log + [Update(b.id, b)] && r.1.None?)
      && (status.Some? && (status.value == 404 || status.value == 400) ==>
            r.0.log == st.log + [Update(b.id, b), Insert(b)])
      && (status.Some? && status.value != 404 && status.value != 400 ==>
            r.0.log == st.log + [Update(b.id, b)] && r.1 == Some(Http(status.value))
            && r.0.events == st.events)
  {
    var (st1, status) := Serve(st, Update(b.id, b), oracle);
    if status.Some? && (status.value == 404 || status.value == 400) {
      assert st1.log + [Insert(b)] == st.log + [Update(b.id, b), Insert(b)];
    }
  }

  /** A day-off shift makes exactly one call, a delete of its event. */
  lemma DayOffOnlyDeletes(st: CalState, calId: string, t: Turno, u: User,
                          localOffset: (Day, Time) -> Option<Offset>, hash: string -> int, oracle: Oracle)
    requires calId != "" && DayOffValue(t.tipo)
    ensures SyncEffect(st, calId, t, u, localOffset, hash, oracle).0.log == st.log + [Delete(MakeEventId(t.id))]
  {
  }

  /** An unrecognised type string is projected like a worked shift. */
  lemma UnknownTipoIsWorked(tipo: string)
    requires tipo !in Values
    ensures !DayOffValue(tipo)
  {
  }

  /** Deleting tolerates a 404 and raises on every other status, 400 included. */
  lemma DeleteStatuses(st: CalState, calId: string, turnoId: string, oracle: Oracle)
    requires calId != ""
    ensures oracle(|st.log|, Delete(MakeEventId(turnoId))) == Some(404) ==> DeleteEffect(st, calId, turnoId, oracle).1.None?
    ensures oracle(|st.log|, Delete(MakeEventId(turnoId))) == Some(400) ==> DeleteEffect(st, calId, turnoId, oracle).1 == Some(Http(400))
  {
  }

  /** Calls never touch events other than the one they name. */
  lemma ServeFrame(st: CalState, c: Call, oracle: Oracle, id: string)
    requires id != (if c.Insert? then c.body.id else c.eventId)
    ensures var st1 := Serve(st, c, oracle).0;
      (id in st1.events <==> id in st.events) && (id in st.events ==> st1.events[id] == st.events[id])
  {
  }

  lemma PutEventFrame(st: CalState, b: Body, oracle: Oracle, id: string)
    requires id != b.id
    ensures var st1 := PutEvent(st, b, oracle).0;
      (id in st1.events <==> id in st.events) && (id in st.events ==> st1.events[id] == st.events[id])
  {
    var st1 := Serve(st, Update(b.id, b), oracle).0;
    ServeFrame(st, Update(b.id, b), oracle, id);
    ServeFrame(st1, Insert(b), oracle, id);
  }

  /** Syncing a shift leaves every other event as it was, whatever the service answers. */
  lemma SyncFrame(st: CalState, calId: string, t: Turno, u: User,
                  localOffset: (Day, Time) -> Option<Offset>, hash: string -> int, oracle: Oracle, id: string)
    requires id != MakeEventId(t.id)
    ensures var st1 := SyncEffect(st, calId, t, u, localOffset, hash, oracle).0;
      (id in st1.events <==> id in st.events) && (id in st.events ==> st1.events[id] == st.events[id])
  {
    if calId != "" && DayOffValue(t.tipo) {
      ServeFrame(st, Delete(MakeEventId(t.id)), oracle, id);
    } else if calId != "" {
      var body := EventBody(t, u, localOffset, hash);
      if body.Some? {
        PutEventFrame(st, body.value, oracle, id);
      }
    }
  }

  /** With a healthy service the body is stored under its id, whether it existed or not. */
  lemma PutEventHealthy(st: CalState, b: Body)
    ensures var r := PutEvent(st, b, Healthy());
      r.1.None? && b.id in r.0.events && r.0.events[b.id] == b
  {
  }

  /** With a healthy service a worked shift's event ends up holding its body, whether it existed or not. */
  lemma SyncEstablishesEvent(st: CalState, calId: string, t: Turno, u: User,
                             localOffset: (Day, Time) -> Option<Offset>, hash: string -> int)
    requires calId != "" && !DayOffValue(t.tipo)
    requires EventBody(t, u, localOffset, hash).Some?
    ensures var r := SyncEffect(st, calId, t, u, localOffset, hash, Healthy());
      r.1.None? && MakeEventId(t.id) in r.0.events && r.0.events[MakeEventId(t.id)] == EventBody(t, u, localOffset, hash).value
  {
    PutEventHealthy(st, EventBody(t, u, localOffset, hash).value);
  }

  /** With a healthy service a delete always succeeds and leaves no event for the shift. */
  lemma DeleteRemovesEvent(st: CalState, calId: string, turnoId: string)
    requires calId != ""
    ensures var r := DeleteEffect(st, calId, turnoId, Healthy());
      r.1.None? && MakeEventId(turnoId) !in r.0.events
  {
  }

  /** With a healthy service a second sync of the same shift changes no event. */
  lemma SyncIdempotent(st: CalState, calId: string, t: Turno, u: User,
                       localOffset: (Day, Time) -> Option<Offset>, hash: string -> int)
    requires calId != ""
    ensures var st1 := SyncEffect(st, calId, t, u, localOffset, hash, Healthy()).0;
      SyncEffect(st1, calId, t, u, localOffset, hash, Healthy()).0.events == st1.events
  {
    if DayOffValue(t.tipo) {
      DeleteTwice(st, calId, t.id);
    } else {
      var body := EventBody(t, u, localOffset, hash);
      if body.Some? {
        PutEventTwice(st, body.value);
      }
    }
  }

  /** With a healthy service a second delete of the same event changes no event. */
  lemma DeleteTwice(st: CalState, calId: string, turnoId: string)
    requires calId != ""
    ensures var st1 := DeleteEffect(st, calId, turnoId, Healthy()).0;
      DeleteEffect(st1, calId, turnoId, Healthy()).0.events == st1.events
  {
    DeleteRemovesEvent(st, calId, turnoId);
  }

  /** With a healthy service putting the same body twice changes no event the second time. */
  lemma PutEventTwice(st: CalState, b: Body)
    ensures var st1 := PutEvent(st, b, Healthy()).0;
      PutEvent(st1, b, Healthy()).0.events == st1.events
  {
    var st1 := PutEvent(st, b, Healthy()).0;
    PutEventHealthy(st, b);
    assert Serve(st1, Update(b.id, b), Healthy()).1.None?;
    assert st1.events[b.id := b] == st1.events;
  }

  // ---------------------------------------------------------------- imperative calendar

  /** The shift calendar as the service holds it. */
  class Calendar {
    var events: map<string, Body>
    var log: seq<Call>
    const oracle: Oracle

    constructor(events0: map<string, Body>, oracle: Oracle)
      ensures events == events0 && log == [] && this.oracle == oracle
    {
      events := events0;
      log := [];
      this.oracle := oracle;
    }

    function State(): CalState
      reads this
    {
      CalState(events, log)
    }

    /** Carries out one call; `status` is the HTTP error it raised, if any. */
    method Execute(c: Call) returns (status: Option<int>)
      modifies this
      ensures (State(), status) == Serve(old(State()), c, oracle)
    {
      var r := Serve(State(), c, oracle);
      events := r.0.events;
      log := r.0.log;
      status := r.1;
    }
  }

  /** `delete_shift_event` on a calendar. */
  method DeleteShiftEvent(cal: Calendar, calId: string, turnoId: string) returns (err: Option<SyncError>)
    modifies cal
    ensures (cal.State(), err) == DeleteEffect(old(cal.State()), calId, turnoId, cal.oracle)
  {
    if calId == "" {
      return Some(NotConfigured);
    }
    var status := cal.Execute(Delete(MakeEventId(turnoId)));
    if status.Some? && status.value != 404 {
      return Some(Http(status.value));
    }
    return None;
  }

  /** `sync_shift_event` on a calendar. */
  method SyncShiftEvent(cal: Calendar, calId: string, t: Turno, u: User,
                        localOffset: (Day, Time) -> Option<Offset>, hash: string -> int)
    returns (err: Option<SyncError>)
    modifies cal
    ensures (cal.State(), err) == SyncEffect(old(cal.State()), calId, t, u, localOffset, hash, cal.oracle)
  {
    if calId == "" {
      return Some(NotConfigured);
    }
    if DayOffValue(t.tipo) {
      err := DeleteShiftEvent(cal, calId, t.id);
      return;
    }
    var body := EventBody(t, u, localOffset, hash);
    if body.None? {
      return Some(NoTimes);
    }
    var b := body.value;
    var status := cal.Execute(Update(b.id, b));
    if status.None? {
      return None;
    }
    if status.value == 404 || status.value == 400 {
      var status2 := cal.Execute(Insert(b));
      err := if status2.None? then None else Some(Http(status2.value));
    } else {
      err := Some(Http(status.value));
    }
  }
}
