/**
 * The shift schema: the six shift types, the day-off subset, and the payload
 * validator that demands the first interval of every worked shift.
 */
module TurnoSchema {
  import opened Wrappers
  import opened Dates

  /** The shift types (`TipoTurno`, a string enum). */
  datatype TipoTurno = NORMALE | STRAORD | FERIE | RIPOSO | FESTIVO | RECUPERO

  /** The string value of each member, as stored in the `tipo` column. */
  function Value(t: TipoTurno): string {
    match t
    case NORMALE => "NORMALE"
    case STRAORD => "STRAORD"
    case FERIE => "FERIE"
    case RIPOSO => "RIPOSO"
    case FESTIVO => "FESTIVO"
    case RECUPERO => "RECUPERO"
  }

  /** The six accepted strings. */
  const Values: set<string> := {"NORMALE", "STRAORD", "FERIE", "RIPOSO", "FESTIVO", "RECUPERO"}

  /** `TipoTurno(s)`: the member whose value is exactly `s`, or `None` where Python raises `ValueError`. */
  function FromValue(s: string): (r: Option<TipoTurno>)
    ensures r.Some? <==> s in Values
    ensures r.Some? ==> Value(r.value) == s
  {
    if s == "NORMALE" then Some(NORMALE)
    else if s == "STRAORD" then Some(STRAORD)
    else if s == "FERIE" then Some(FERIE)
    else if s == "RIPOSO" then Some(RIPOSO)
    else if s == "FESTIVO" then Some(FESTIVO)
    else if s == "RECUPERO" then Some(RECUPERO)
    else None
  }

  /** Every member is found again from its value, and the six values are distinct. */
  lemma ValueRoundTrip(t: TipoTurno)
    ensures Value(t) in Values
    ensures FromValue(Value(t)) == Some(t)
  {
  }

  /** The day-off types: leave, rest day, public holiday and compensatory rest. */
  const DayOffTypes: set<TipoTurno> := {FERIE, RIPOSO, FESTIVO, RECUPERO}

  predicate IsDayOff(t: TipoTurno) {
    t in DayOffTypes
  }

  /** Only `NORMALE` and `STRAORD` are worked shifts. */
  lemma WorkedTypes(t: TipoTurno)
    ensures !IsDayOff(t) <==> t == NORMALE || t == STRAORD
  {
  }

  /** Whether a stored type string is the value of a day-off type. */
  predicate DayOffValue(tipo: string) {
    var t := FromValue(tipo);
    t.Some? && IsDayOff(t.value)
  }

  /** The day-off values are exactly the four strings of the day-off types. */
  lemma DayOffValues(tipo: string)
    ensures DayOffValue(tipo) <==> tipo in {"FERIE", "RIPOSO", "FESTIVO", "RECUPERO"}
  {
  }

  /** `TurnoIn`: one shift for one user on one day, with up to three intervals. */
  datatype TurnoIn = TurnoIn(
    userId: string,
    giorno: Day,
    inizio1: Option<Time>, fine1: Option<Time>,
    inizio2: Option<Time>, fine2: Option<Time>,
    inizio3: Option<Time>, fine3: Option<Time>,
    tipo: TipoTurno,
    note: Option<string>)

  const RequiredTimesError := "inizio_1 and fine_1 are required"

  /** The payload validator: a worked shift must give both ends of its first interval. */
  function CheckRequiredTimes(p: TurnoIn): (r: Result<TurnoIn, string>)
    ensures r.Ok? <==> IsDayOff(p.tipo) || (p.inizio1.Some? && p.fine1.Some?)
    ensures r.Ok? ==> r.value == p
    ensures r.Err? ==> r.error == RequiredTimesError
  {
    if !IsDayOff(p.tipo) && (p.inizio1.None? || p.fine1.None?) then Err(RequiredTimesError)
    else Ok(p)
  }

  /** A day-off payload is accepted with every interval empty. */
  lemma DayOffNeedsNoTimes(p: TurnoIn)
    requires IsDayOff(p.tipo)
    requires p.inizio1.None? && p.fine1.None? && p.inizio2.None? && p.fine2.None?
    requires p.inizio3.None? && p.fine3.None?
    ensures CheckRequiredTimes(p).Ok?
  {
  }

  /** Intervals 2 and 3 never affect the verdict. */
  lemma LaterIntervalsIgnored(p: TurnoIn, i2: Option<Time>, f2: Option<Time>, i3: Option<Time>, f3: Option<Time>)
    ensures CheckRequiredTimes(p.(inizio2 := i2, fine2 := f2, inizio3 := i3, fine3 := f3)).Ok?
        <==> CheckRequiredTimes(p).Ok?
  {
  }

  /** The validator does not compare start and end: a shift ending before it starts passes. */
  lemma EndBeforeStartAccepted()
    ensures CheckRequiredTimes(TurnoIn("u", Date(2024, 1, 1),
              Some(Clock(18, 0, 0)), Some(Clock(8, 0, 0)), None, None, None, None,
              NORMALE, None)).Ok?
  {
  }
}
