/**
 * The dashboard's upcoming list: the user's events, to-dos and Google
 * Calendar entries due between now and `days` days ahead, merged and sorted
 * by time, with Google entries that are another agent's shift left out.
 *
 * Times are whole seconds on one clock; the rendering of a time as ISO text
 * is a function parameter. The functions over `Entry` compare instants, as
 * the route evidently means to; the route as written compares a naive `now`
 * with the calendar's offset-aware datetimes and raises, which
 * `GoogleItemsAsWritten` and `UpcomingAsWritten` model.
 */
module Dashboard {
  import opened Wrappers
  import opened Text
  import opened Sorting

  // ------------------------------------------------------------ records

  /** A stored event, a to-do, or a calendar entry: its other fields, and its time (`data_ora`, or `scadenza` for a to-do). */
  datatype Entry = Entry(fields: map<string, string>, at: int)

  datatype Kind = EventKind | TodoKind | GoogleKind

  function KindName(k: Kind): string {
    match k
    case EventKind => "event"
    case TodoKind => "todo"
    case GoogleKind => "google"
  }

  /** `data_ora`: a datetime until the final loop turns it into ISO text. */
  datatype When = At(t: int) | IsoText(s: string)

  /** One element of the answer: the entry's fields, its `data_ora` and its `kind`. */
  datatype Item = Item(fields: map<string, string>, dataOra: When, kind: Kind)

  datatype User = User(id: string, nome: Option<string>, email: string)

  const SecondsPerDay := 86400

  /** The end of a window of `days` days from `now`. */
  function Limit(now: int, days: int): int {
    now + days * SecondsPerDay
  }

  predicate InWindow(at: int, now: int, limit: int) {
    now <= at <= limit
  }

  /** The entries tagged with a kind, in order. */
  function Tag(es: seq<Entry>, kind: Kind): (r: seq<Item>)
    ensures |r| == |es|
    ensures forall i :: 0 <= i < |es| ==> r[i] == Item(es[i].fields, At(es[i].at), kind)
  {
    seq(|es|, i requires 0 <= i < |es| => Item(es[i].fields, At(es[i].at), kind))
  }

  /** `ev_items`: the events inside the window, tagged "event". */
  function EventItems(events: seq<Entry>, now: int, limit: int): seq<Item> {
    Tag(Filter(events, (e: Entry) => InWindow(e.at, now, limit)), EventKind)
  }

  // ------------------------------------------------------------ to-dos

  /** A to-do as the dashboard lists it: `user_id` dropped, `scadenza` become `data_ora`, tagged "todo". */
  function TodoItem(td: Entry): Item {
    Item(td.fields - {"user_id"}, At(td.at), TodoKind)
  }

  function TodoItemsOf(todos: seq<Entry>): (r: seq<Item>)
    ensures |r| == |todos| && forall i :: 0 <= i < |todos| ==> r[i] == TodoItem(todos[i])
  {
    seq(|todos|, i requires 0 <= i < |todos| => TodoItem(todos[i]))
  }

  /** `todo_items`: the to-dos due inside the window, in order. */
  function TodoItems(todos: seq<Entry>, now: int, limit: int): seq<Item> {
    TodoItemsOf(Filter(todos, (td: Entry) => InWindow(td.at, now, limit)))
  }

  /** The to-do loop of `upcoming_events`. */
  method CollectTodos(todos: seq<Entry>, now: int, limit: int) returns (items: seq<Item>)
    ensures items == TodoItems(todos, now, limit)
  {
    var inWindow := (td: Entry) => InWindow(td.at, now, limit);
    items := [];
    var i := 0;
    while i < |todos|
      invariant 0 <= i <= |todos|
      invariant items == TodoItemsOf(Filter(todos[..i], inWindow))
    {
      var td := todos[i];
      assert todos[..i + 1] == todos[..i] + [td];
      FilterSnoc(todos[..i], td, inWindow);
      if now <= td.at <= limit {
        TodoItemsOfSnoc(Filter(todos[..i], inWindow), td);
        items := items + [TodoItem(td)];
      } else {
        assert Filter(todos[..i + 1], inWindow) == Filter(todos[..i], inWindow);
      }
      i := i + 1;
    }
    assert todos[..|todos|] == todos;
  }

  lemma TodoItemsOfSnoc(s: seq<Entry>, x: Entry)
    ensures TodoItemsOf(s + [x]) == TodoItemsOf(s) + [TodoItem(x)]
  {
  }

  /** Every listed to-do lies in the window, carries no `user_id` and is tagged "todo". */
  lemma TodoItemsShape(todos: seq<Entry>, now: int, limit: int)
    ensures forall it :: it in TodoItems(todos, now, limit) ==>
      "user_id" !in it.fields && it.kind == TodoKind && it.dataOra.At? && InWindow(it.dataOra.t, now, limit)
  {
    var kept := Filter(todos, (td: Entry) => InWindow(td.at, now, limit));
    forall it | it in TodoItems(todos, now, limit)
      ensures "user_id" !in it.fields && it.kind == TodoKind && it.dataOra.At? && InWindow(it.dataOra.t, now, limit)
    {
      var i :| 0 <= i < |kept| && TodoItemsOf(kept)[i] == it;
      assert it == TodoItem(kept[i]);
    }
  }

  // ------------------------------------------------------------ title filter

  /** The `\d{1,2}:\d{2}` clock of a shift title. */
  predicate IsClock(c: string) {
    (|c| == 4 && IsDigit(c[0]) && c[1] == ':' && IsDigit(c[2]) && IsDigit(c[3])) ||
    (|c| == 5 && IsDigit(c[0]) && IsDigit(c[1]) && c[2] == ':' && IsDigit(c[3]) && IsDigit(c[4]))
  }

  /** Length of the clock that starts the title, 0 when it does not start with one. */
  function ClockLen(t: string): (n: nat)
    ensures n == 0 || (n <= |t| && IsClock(t[..n]))
  {
    if |t| >= 4 && IsDigit(t[0]) && t[1] == ':' && IsDigit(t[2]) && IsDigit(t[3]) then 4
    else if |t| >= 5 && IsDigit(t[0]) && IsDigit(t[1]) && t[2] == ':' && IsDigit(t[3]) && IsDigit(t[4]) then 5
    else 0
  }

  lemma ClockLenOf(c: string, rest: string)
    requires IsClock(c)
    ensures ClockLen(c + rest) == |c|
  {
    assert (c + rest)[..|c|] == c;
  }

  /**
   * The `\s+(.+)$` part of the pattern on the text after the clock: a
   * whitespace run, then the group, which runs to the end and holds no newline.
   */
  function Group(rest: string): (r: Option<string>)
    ensures r.Some? ==> r.value != [] && !IsSpace(r.value[0]) && '\n' !in r.value
  {
    var k := LeadingSpaces(rest);
    if k == 0 || k == |rest| || '\n' in rest[k..] then None
    else Some(rest[k..])
  }

  /**
   * `re.match(r"^(\d{1,2}:\d{2})\s+(.+)$", title)` and its `group(2)`: the
   * text after the clock and the whitespace run that follows it.
   */
  function MatchWho(title: string): (r: Option<string>)
    ensures r.Some? ==> r.value != [] && !IsSpace(r.value[0]) && '\n' !in r.value
  {
    var n := ClockLen(title);
    if n == 0 then None else Group(title[n..])
  }

  /** The text the pattern accepts: a clock, at least one whitespace character, then at least one character other than a newline. */
  predicate RegexShape(title: string, c: string, ws: string, w: string) {
    title == c + ws + w && IsClock(c) && ws != [] && AllSpace(ws) && w != [] && '\n' !in w
  }

  /** A whitespace run followed by text that ends in a non-space: the group is that text after the whole run. */
  lemma GroupOf(ws: string, w: string)
    requires ws != [] && AllSpace(ws) && w != [] && '\n' !in w && !IsSpace(w[|w| - 1])
    ensures LeadingSpaces(ws + w) >= |ws|
    ensures Group(ws + w) == Some(w[LeadingSpaces(ws + w) - |ws|..])
  {
    var rest := ws + w;
    var k := LeadingSpaces(rest);
    assert forall j :: 0 <= j < |ws| ==> rest[j] == ws[j];
    assert k >= |ws|;
    assert rest[|rest| - 1] == w[|w| - 1];
    assert k < |rest|;
    assert rest[k..] == w[k - |ws|..];
  }

  /** On a stripped title of the pattern's shape, `MatchWho` finds the text after the whole whitespace run. */
  lemma ShapeMatches(title: string, c: string, ws: string, w: string)
    requires Trimmed(title) && RegexShape(title, c, ws, w)
    ensures MatchWho(title).Some?
  {
    ClockLenOf(c, ws + w);
    assert ClockLen(title) == |c|;
    assert title[|c|..] == ws + w;
    assert w[|w| - 1] == title[|title| - 1];
    GroupOf(ws, w);
    assert MatchWho(title) == Group(ws + w);
  }

  /** The group `MatchWho` finds is preceded by a clock and a whitespace run. */
  lemma MatchedShape(title: string)
    requires MatchWho(title).Some?
    ensures var n := ClockLen(title);
      var w := MatchWho(title).value;
      |w| < |title| - n && RegexShape(title, title[..n], title[n..|title| - |w|], w)
  {
    var n := ClockLen(title);
    var rest := title[n..];
    var k := LeadingSpaces(rest);
    var w := rest[k..];
    assert title == title[..n] + rest[..k] + w;
    assert title[n..|title| - |w|] == rest[..k];
  }

  /**
   * On a stripped title, `MatchWho` finds a match exactly when the pattern
   * matches, and its group is the part after the whole whitespace run.
   */
  lemma MatchWhoRegex(title: string)
    requires Trimmed(title)
    ensures MatchWho(title).Some? <==> exists c, ws, w :: RegexShape(title, c, ws, w)
    ensures MatchWho(title).Some? ==>
      var n := ClockLen(title);
      var w := MatchWho(title).value;
      |w| < |title| - n && RegexShape(title, title[..n], title[n..|title| - |w|], w)
  {
    if MatchWho(title).Some? {
      MatchedShape(title);
    }
    if c, ws, w :| RegexShape(title, c, ws, w) {
      ShapeMatches(title, c, ws, w);
    }
  }

  /** When the name after the whitespace run starts with a non-space, it is exactly the group found. */
  lemma ShapeGroup(title: string, c: string, ws: string, w: string)
    requires Trimmed(title) && RegexShape(title, c, ws, w) && !IsSpace(w[0])
    ensures MatchWho(title) == Some(w)
  {
    ClockLenOf(c, ws + w);
    assert title[|c|..] == ws + w;
    assert w[|w| - 1] == title[|title| - 1];
    GroupExact(ws, w);
    assert MatchWho(title) == Group(ws + w);
  }

  /** A whitespace run followed by text that starts and ends with a non-space: the group is that text. */
  lemma GroupExact(ws: string, w: string)
    requires ws != [] && AllSpace(ws) && w != [] && '\n' !in w && !IsSpace(w[0]) && !IsSpace(w[|w| - 1])
    ensures Group(ws + w) == Some(w)
  {
    var rest := ws + w;
    assert rest[..|ws|] == ws && rest[|ws|] == w[0];
    LeadingSpacesExact(rest, |ws|);
    assert rest[|ws|..] == w;
  }

  /** A whitespace run ended by a non-whitespace character is the whole leading run. */
  lemma {:induction false} LeadingSpacesExact(s: string, n: nat)
    requires n < |s| && AllSpace(s[..n]) && !IsSpace(s[n])
    ensures LeadingSpaces(s) == n
  {
    if n > 0 {
      assert s[1..][..n - 1] == s[1..n];
      LeadingSpacesExact(s[1..], n - 1);
    }
  }

  /** `me_name`: the user's `nome`, or the local part of the e-mail when `nome` is empty; stripped and lowered. */
  function MeName(u: User): (r: string)
    ensures Trimmed(r) && forall i :: 0 <= i < |r| ==> !('A' <= r[i] <= 'Z')
    ensures (u.nome.None? || u.nome.value == "") ==> '@' !in r
  {
    var name := if u.nome.Some? && u.nome.value != "" then u.nome.value else Split(u.email, '@')[0];
    NormalisedName(name);
    Lower(Strip(name))
  }

  /** Stripping and lowering leaves a trimmed text without capitals, and adds no `@`. */
  lemma NormalisedName(name: string)
    ensures var r := Lower(Strip(name));
      Trimmed(r) && forall i :: 0 <= i < |r| ==> !('A' <= r[i] <= 'Z')
    ensures '@' !in name ==> '@' !in Lower(Strip(name))
  {
    var t := Strip(name);
    var r := Lower(t);
    LowerTrimmed(t);
    if '@' !in name {
      forall i | 0 <= i < |r|
        ensures r[i] != '@'
      {
        assert t[i] == name[LeadingSpaces(name) + i];
      }
    }
  }

  /** `other_names`: the stripped, lowered non-empty `nome` of every other user. */
  function OtherNames(users: seq<User>, me: User): (r: set<string>)
    ensures forall n :: n in r <==> exists u :: u in users && u.id != me.id && u.nome.Some? && u.nome.value != "" && n == Lower(Strip(u.nome.value))
  {
    set u | u in users && u.id != me.id && u.nome.Some? && u.nome.value != "" :: Lower(Strip(u.nome.value))
  }

  /** `item.get("titolo") or ""`. */
  function TitleOf(fields: map<string, string>): string {
    if "titolo" in fields then fields["titolo"] else ""
  }

  /**
   * `include_event`: a shift title ("H:MM name") is kept only when the name
   * is the current user's; any other title is dropped when it is exactly
   * another user's name, and kept otherwise.
   */
  predicate IncludeEvent(fields: map<string, string>, me: string, others: set<string>) {
    var title := Lower(Strip(TitleOf(fields)));
    match MatchWho(title)
    case Some(who) => Lower(Strip(who)) == me
    case None => title !in others
  }

  lemma LowerTrimmed(s: string)
    requires Trimmed(s)
    ensures Trimmed(Lower(s))
  {
  }

  /** A calendar title shaped as a shift is kept exactly when the name after the clock is the user's. */
  lemma ShiftTitleIncluded(fields: map<string, string>, me: string, others: set<string>, c: string, ws: string, w: string)
    requires RegexShape(Lower(Strip(TitleOf(fields))), c, ws, w) && !IsSpace(w[0])
    ensures IncludeEvent(fields, me, others) <==> Lower(Strip(w)) == me
  {
    LowerTrimmed(Strip(TitleOf(fields)));
    ShapeGroup(Lower(Strip(TitleOf(fields))), c, ws, w);
  }

  /** Any other calendar title is dropped exactly when it is another user's name. */
  lemma PlainTitleIncluded(fields: map<string, string>, me: string, others: set<string>)
    requires !exists c, ws, w :: RegexShape(Lower(Strip(TitleOf(fields))), c, ws, w)
    ensures IncludeEvent(fields, me, others) <==> Lower(Strip(TitleOf(fields))) !in others
  {
    LowerTrimmed(Strip(TitleOf(fields)));
    MatchWhoRegex(Lower(Strip(TitleOf(fields))));
  }

  /** `gcal_items`: calendar entries inside the window that `include_event` keeps, tagged "google". */
  function GoogleItems(gcal: seq<Entry>, now: int, limit: int, me: string, others: set<string>): seq<Item> {
    Tag(Filter(gcal, (g: Entry) => InWindow(g.at, now, limit) && IncludeEvent(g.fields, me, others)), GoogleKind)
  }

  /** Every calendar item listed lies in the window, passes the title filter and is tagged "google". */
  lemma GoogleItemsShape(gcal: seq<Entry>, now: int, limit: int, me: string, others: set<string>)
    ensures forall it :: it in GoogleItems(gcal, now, limit, me, others) ==>
      it.kind == GoogleKind && it.dataOra.At? && InWindow(it.dataOra.t, now, limit) && IncludeEvent(it.fields, me, others)
  {
    var kept := Filter(gcal, (g: Entry) => InWindow(g.at, now, limit) && IncludeEvent(g.fields, me, others));
    forall it | it in GoogleItems(gcal, now, limit, me, others)
      ensures it.kind == GoogleKind && it.dataOra.At? && InWindow(it.dataOra.t, now, limit) && IncludeEvent(it.fields, me, others)
    {
      var i :| 0 <= i < |kept| && Tag(kept, GoogleKind)[i] == it;
    }
  }

  /** Every event listed lies in the window and is tagged "event". */
  lemma EventItemsShape(events: seq<Entry>, now: int, limit: int)
    ensures forall it :: it in EventItems(events, now, limit) ==>
      it.kind == EventKind && it.dataOra.At? && InWindow(it.dataOra.t, now, limit)
  {
    var kept := Filter(events, (e: Entry) => InWindow(e.at, now, limit));
    forall it | it in EventItems(events, now, limit)
      ensures it.kind == EventKind && it.dataOra.At? && InWindow(it.dataOra.t, now, limit)
    {
      var i :| 0 <= i < |kept| && Tag(kept, EventKind)[i] == it;
    }
  }

  // ------------------------------------------------------------ merge and sort

  /** The sort key: the `data_ora` datetime. */
  function Stamp(it: Item): int {
    if it.dataOra.At? then it.dataOra.t else 0
  }

  /** `ev_items + todo_items + gcal_items` for the window of `days` days from `now`. */
  function Combined(events: seq<Entry>, todos: seq<Entry>, gcal: seq<Entry>, now: int, days: int, me: User, users: seq<User>): seq<Item> {
    var limit := Limit(now, days);
    EventItems(events, now, limit) + TodoItems(todos, now, limit)
    + GoogleItems(gcal, now, limit, MeName(me), OtherNames(users, me))
  }

  lemma CombinedIs(events: seq<Entry>, todos: seq<Entry>, gcal: seq<Entry>, now: int, days: int, me: User, users: seq<User>)
    ensures var limit := Limit(now, days);
      Combined(events, todos, gcal, now, days, me, users)
      == EventItems(events, now, limit) + TodoItems(todos, now, limit) + GoogleItems(gcal, now, limit, MeName(me), OtherNames(users, me))
  {
  }

  /** Every combined item lies in the window. */
  lemma CombinedShape(events: seq<Entry>, todos: seq<Entry>, gcal: seq<Entry>, now: int, days: int, me: User, users: seq<User>)
    ensures forall it :: it in Combined(events, todos, gcal, now, days, me, users) ==>
      it.dataOra.At? && InWindow(it.dataOra.t, now, Limit(now, days))
  {
    var limit := Limit(now, days);
    var ev := EventItems(events, now, limit);
    var td := TodoItems(todos, now, limit);
    var gc := GoogleItems(gcal, now, limit, MeName(me), OtherNames(users, me));
    CombinedIs(events, todos, gcal, now, days, me, users);
    EventItemsShape(events, now, limit);
    TodoItemsShape(todos, now, limit);
    GoogleItemsShape(gcal, now, limit, MeName(me), OtherNames(users, me));
    forall it: Item | it in ev + td + gc
      ensures it.dataOra.At? && InWindow(it.dataOra.t, now, limit)
    {
      assert it in ev || it in td || it in gc;
    }
  }

  /** `combined.sort(key=lambda x: x["data_ora"])`. */
  function Merged(combined: seq<Item>): seq<Item> {
    Sort(combined, ByKey(Stamp))
  }

  /** The merged list is in time order and holds exactly the combined items. */
  lemma MergedSorted(combined: seq<Item>)
    ensures forall i, j :: 0 <= i < j < |Merged(combined)| ==> Stamp(Merged(combined)[i]) <= Stamp(Merged(combined)[j])
    ensures multiset(Merged(combined)) == multiset(combined)
  {
    ByKeyPreorder(Stamp);
    SortSorted(combined, ByKey(Stamp));
    assert Sorted(Merged(combined), ByKey(Stamp));
  }

  /** Items due at the same time keep the order events, then to-dos, then calendar entries, each in its own order. */
  lemma MergedTies(ev: seq<Item>, td: seq<Item>, gc: seq<Item>, z: Item)
    ensures Tied(Merged(ev + td + gc), z, ByKey(Stamp))
         == Tied(ev, z, ByKey(Stamp)) + Tied(td, z, ByKey(Stamp)) + Tied(gc, z, ByKey(Stamp))
  {
    ByKeyPreorder(Stamp);
    SortStable(ev + td + gc, z, ByKey(Stamp));
    TiedAppend(ev + td, gc, z, ByKey(Stamp));
    TiedAppend(ev, td, z, ByKey(Stamp));
  }

  /** Sorting keeps the items, so every merged item lies in the window. */
  lemma MergedShape(events: seq<Entry>, todos: seq<Entry>, gcal: seq<Entry>, now: int, days: int, me: User, users: seq<User>)
    ensures var m := Merged(Combined(events, todos, gcal, now, days, me, users));
      forall it :: it in m ==> it.dataOra.At? && InWindow(it.dataOra.t, now, Limit(now, days))
  {
    var c := Combined(events, todos, gcal, now, days, me, users);
    CombinedShape(events, todos, gcal, now, days, me, users);
    MergedSorted(c);
    forall it | it in Merged(c)
      ensures it in c
    {
      assert it in multiset(Merged(c));
    }
  }

  // ------------------------------------------------------------ ISO conversion

  /** One step of the final loop: a datetime `data_ora` becomes its ISO text. */
  function ToIso(it: Item, iso: int -> string): (r: Item)
    ensures r.fields == it.fields && r.kind == it.kind
    ensures r.dataOra.IsoText?
    ensures it.dataOra.At? ==> r.dataOra == IsoText(iso(it.dataOra.t))
    ensures it.dataOra.IsoText? ==> r == it
  {
    if it.dataOra.At? then it.(dataOra := IsoText(iso(it.dataOra.t))) else it
  }

  /** The final loop, which rewrites each item of the sorted list in place. */
  method ConvertTimes(a: array<Item>, iso: int -> string)
    modifies a
    ensures forall i :: 0 <= i < a.Length ==> a[i] == ToIso(old(a[i]), iso)
  {
    var i := 0;
    while i < a.Length
      invariant 0 <= i <= a.Length
      invariant forall j :: 0 <= j < i ==> a[j] == ToIso(old(a[j]), iso)
      invariant forall j :: i <= j < a.Length ==> a[j] == old(a[j])
    {
      if a[i].dataOra.At? {
        a[i] := a[i].(dataOra := IsoText(iso(a[i].dataOra.t)));
      }
      i := i + 1;
    }
  }

  /** Every item with its time as ISO text. */
  function Converted(items: seq<Item>, iso: int -> string): (r: seq<Item>)
    ensures |r| == |items| && forall i :: 0 <= i < |items| ==> r[i] == ToIso(items[i], iso)
  {
    seq(|items|, i requires 0 <= i < |items| => ToIso(items[i], iso))
  }

  /** The answer of `upcoming_events`: the merged list with every time as ISO text. */
  function Upcoming(events: seq<Entry>, todos: seq<Entry>, gcal: seq<Entry>, now: int, days: int, me: User, users: seq<User>, iso: int -> string): seq<Item> {
    Converted(Merged(Combined(events, todos, gcal, now, days, me, users)), iso)
  }

  /**
   * Every answered item carries the ISO text of a time inside the window,
   * and those times are in ascending order.
   */
  lemma UpcomingTimes(events: seq<Entry>, todos: seq<Entry>, gcal: seq<Entry>, now: int, days: int, me: User, users: seq<User>, iso: int -> string)
    ensures var m := Merged(Combined(events, todos, gcal, now, days, me, users));
      var r := Upcoming(events, todos, gcal, now, days, me, users, iso);
      |r| == |m| && forall i :: 0 <= i < |m| ==>
        r[i].dataOra == IsoText(iso(Stamp(m[i]))) && InWindow(Stamp(m[i]), now, Limit(now, days))
    ensures var m := Merged(Combined(events, todos, gcal, now, days, me, users));
      forall i, j :: 0 <= i < j < |m| ==> Stamp(m[i]) <= Stamp(m[j])
  {
    var m := Merged(Combined(events, todos, gcal, now, days, me, users));
    MergedSorted(Combined(events, todos, gcal, now, days, me, users));
    MergedShape(events, todos, gcal, now, days, me, users);
    forall i | 0 <= i < |m|
      ensures m[i].dataOra.At? && InWindow(Stamp(m[i]), now, Limit(now, days))
    {
      assert m[i] in m;
    }
  }

  /** `ev_items + todo_items + gcal_items`. */
  method CombineSources(events: seq<Entry>, todos: seq<Entry>, gcal: seq<Entry>, now: int, days: int, me: User, users: seq<User>)
    returns (combined: seq<Item>)
    ensures combined == Combined(events, todos, gcal, now, days, me, users)
  {
    var limit := Limit(now, days);
    var evItems := EventItems(events, now, limit);
    var todoItems := CollectTodos(todos, now, limit);
    var gcalItems := GoogleItems(gcal, now, limit, MeName(me), OtherNames(users, me));
    combined := evItems + todoItems + gcalItems;
  }

  /** `upcoming_events` once the three sources are read. */
  method UpcomingEvents(events: seq<Entry>, todos: seq<Entry>, gcal: seq<Entry>, now: int, days: int, me: User, users: seq<User>, iso: int -> string)
    returns (r: seq<Item>)
    ensures r == Upcoming(events, todos, gcal, now, days, me, users, iso)
  {
    var combined := CombineSources(events, todos, gcal, now, days, me, users);
    var sorted := Merged(combined);
    var a := new Item[|sorted|](i requires 0 <= i < |sorted| => sorted[i]);
    ConvertTimes(a, iso);
    assert a[..] == Converted(sorted, iso);
    r := a[..];
  }

  // ------------------------------------------------------------ naive and aware datetimes

  /**
   * A calendar entry as the calendar service returns it. Its `data_ora` is
   * parsed from `start.dateTime` or `start.date`: a timed entry's RFC 3339
   * text carries an offset, so its datetime is offset-aware; an all-day
   * entry's date gives a naive midnight. `entry.at` is the instant either way.
   */
  datatype CalEntry = CalEntry(entry: Entry, aware: bool)

  /** An exception that escapes the route; the framework answers it with status 500. */
  datatype Raised = TypeError(message: string)

  const NaiveAwareMessage := "can't compare offset-naive and offset-aware datetimes"

  /** The entries read as instants, whatever their awareness. */
  function Instants(gcal: seq<CalEntry>): (r: seq<Entry>)
    ensures |r| == |gcal| && forall i :: 0 <= i < |gcal| ==> r[i] == gcal[i].entry
  {
    seq(|gcal|, i requires 0 <= i < |gcal| => gcal[i].entry)
  }

  /** The calendar filter on instants, one entry at a time. */
  lemma GoogleItemsCons(gcal: seq<CalEntry>, now: int, limit: int, me: string, others: set<string>)
    requires gcal != []
    ensures var g := gcal[0].entry;
      GoogleItems(Instants(gcal), now, limit, me, others)
      == (if InWindow(g.at, now, limit) && IncludeEvent(g.fields, me, others) then [Item(g.fields, At(g.at), GoogleKind)] else [])
         + GoogleItems(Instants(gcal[1..]), now, limit, me, others)
  {
    var s := Instants(gcal);
    assert s[1..] == Instants(gcal[1..]);
    var kept := Filter(s, (g: Entry) => InWindow(g.at, now, limit) && IncludeEvent(g.fields, me, others));
    var rest := Filter(s[1..], (g: Entry) => InWindow(g.at, now, limit) && IncludeEvent(g.fields, me, others));
    var head := if InWindow(s[0].at, now, limit) && IncludeEvent(s[0].fields, me, others) then [s[0]] else [];
    assert kept == head + rest;
    TagAppend(head, rest, GoogleKind);
  }

  lemma TagAppend(a: seq<Entry>, b: seq<Entry>, kind: Kind)
    ensures Tag(a + b, kind) == Tag(a, kind) + Tag(b, kind)
  {
    assert forall i :: 0 <= i < |b| ==> (a + b)[|a| + i] == b[i];
  }

  /**
   * `gcal_items` as the route computes it: `now` comes from `utcnow()` and
   * is naive, so the chained comparison `now <= data_ora` raises at the
   * first offset-aware entry, in list order, before the window or the title
   * is looked at. Without timed entries it is the filter on instants.
   */
  function GoogleItemsAsWritten(gcal: seq<CalEntry>, now: int, limit: int, me: string, others: set<string>): (r: Result<seq<Item>, Raised>)
    ensures r.Err? <==> exists i :: 0 <= i < |gcal| && gcal[i].aware
    ensures r.Err? ==> r.error == TypeError(NaiveAwareMessage)
    ensures r.Ok? ==> r.value == GoogleItems(Instants(gcal), now, limit, me, others)
    decreases |gcal|
  {
    if gcal == [] then Ok([])
    else if gcal[0].aware then Err(TypeError(NaiveAwareMessage))
    else
      var g := gcal[0].entry;
      match GoogleItemsAsWritten(gcal[1..], now, limit, me, others)
      case Err(e) =>
        var i :| 0 <= i < |gcal[1..]| && gcal[1..][i].aware;
        assert gcal[i + 1].aware;
        Err(e)
      case Ok(rest) =>
        GoogleItemsCons(gcal, now, limit, me, others);
        assert forall i :: 1 <= i < |gcal| ==> gcal[i] == gcal[1..][i - 1];
        Ok((if InWindow(g.at, now, limit) && IncludeEvent(g.fields, me, others) then [Item(g.fields, At(g.at), GoogleKind)] else []) + rest)
  }

  /**
   * `upcoming_events` as written: the `TypeError` escapes, and the request
   * fails, exactly when the calendar lists a timed entry; otherwise the
   * answer on instants.
   */
  function UpcomingAsWritten(events: seq<Entry>, todos: seq<Entry>, gcal: seq<CalEntry>, now: int, days: int, me: User, users: seq<User>, iso: int -> string): (r: Result<seq<Item>, Raised>)
    ensures r.Err? <==> exists i :: 0 <= i < |gcal| && gcal[i].aware
    ensures r.Ok? ==> r.value == Upcoming(events, todos, Instants(gcal), now, days, me, users, iso)
  {
    match GoogleItemsAsWritten(gcal, now, Limit(now, days), MeName(me), OtherNames(users, me))
    case Err(e) => Err(e)
    case Ok(_) => Ok(Upcoming(events, todos, Instants(gcal), now, days, me, users, iso))
  }

  /**
   * One timed meeting an hour ahead: the route as written raises, where the
   * comparison of instants lists the meeting.
   */
  lemma TimedEntryCrashes(now: int, me: string)
    ensures var g := CalEntry(Entry(map["titolo" := "Riunione"], now + 3600), true);
      GoogleItemsAsWritten([g], now, Limit(now, 1), me, {}).Err?
      && GoogleItems(Instants([g]), now, Limit(now, 1), me, {}) == [Item(g.entry.fields, At(now + 3600), GoogleKind)]
  {
    var g := CalEntry(Entry(map["titolo" := "Riunione"], now + 3600), true);
    PlainTitleKept("Riunione", me);
    GoogleItemsCons([g], now, Limit(now, 1), me, {});
    assert [g][1..] == [];
  }

  /** A title that does not open with a digit is not a shift, so with no other names it is kept. */
  lemma PlainTitleKept(t: string, me: string)
    requires t != [] && Trimmed(t) && !IsDigit(t[0])
    ensures IncludeEvent(map["titolo" := t], me, {})
  {
    var title := Lower(Strip(t));
    assert title[0] == LowerChar(t[0]);
    assert MatchWho(title) == None;
  }
}
