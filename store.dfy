/**
 * The browser-side store of app/lib/store.ts: the mock auth record, the
 * check-in slots (last check-in, newest-first history, date-keyed table) and
 * the weekly focus rotation. `localStorage` is a map from key to the JSON value
 * stored there; `hasWindow` is false when the code runs on the server, where
 * every writer does nothing and every reader returns its default.
 */
module Store {
  import opened Wrappers

  /** A daily check-in; `dateISO` is the calendar key it was saved under, if any. */
  datatype CheckIn = CheckIn(
    distress: real,
    mood: real,
    energy: real,
    tags: seq<string>,
    note: string,
    steadinessScore: real,
    createdAt: string,
    dateISO: Option<string>)

  /** The legacy check-in shape, which has no `dateISO`. */
  datatype LegacyCheckIn = LegacyCheckIn(
    distress: real,
    mood: real,
    energy: real,
    tags: seq<string>,
    note: string,
    steadinessScore: real,
    createdAt: string)

  /** The check-in a legacy record reads back as once serialised. */
  function Widen(p: LegacyCheckIn): CheckIn {
    CheckIn(p.distress, p.mood, p.energy, p.tags, p.note, p.steadinessScore, p.createdAt, None)
  }

  /** The mock authentication record; `user` holds the user's name when present. */
  datatype AuthState = AuthState(isAuthed: bool, user: Option<string>)

  const SIGNED_OUT: AuthState := AuthState(false, None)

  /** The text stored under a key, by the shape `JSON.parse` gives it;
      `EmptyText` is the empty string, which every reader treats as absent
      (it is falsy), and `Unparsable` is text on which `JSON.parse` throws. */
  datatype Stored =
    | AuthJson(auth: AuthState)
    | CheckInJson(checkIn: CheckIn)
    | TableJson(table: map<string, CheckIn>)
    | ListJson(list: seq<CheckIn>)
    | EmptyText
    | Unparsable

  const AUTH_KEY: string := "aides_auth"
  const CHECKIN_LAST_KEY: string := "aides_last_checkin"
  const CHECKIN_HISTORY_KEY: string := "aides_checkin_history"
  const CHECKIN_BY_DATE_KEY: string := "aides_checkins_by_date"

  /** The most history entries kept. */
  const HISTORY_CAP: nat := 120

  /** `[payload, ...history].slice(0, 120)`: the newest entry first, the oldest
      ones beyond the cap dropped. */
  function NextHistory(p: CheckIn, h: seq<CheckIn>): (r: seq<CheckIn>)
    ensures |r| == if |h| < HISTORY_CAP then |h| + 1 else HISTORY_CAP
    ensures r[0] == p
    ensures forall i :: 1 <= i < |r| ==> r[i] == h[i - 1]
  {
    var next := [p] + h;
    if |next| <= HISTORY_CAP then next else next[..HISTORY_CAP]
  }

  /** Behind the new entry the old history survives as a prefix: only its oldest entries can fall off. */
  lemma NextHistoryKeepsPrefix(p: CheckIn, h: seq<CheckIn>)
    ensures NextHistory(p, h)[1..] <= h
    ensures |h| < HISTORY_CAP ==> NextHistory(p, h) == [p] + h
  {
    var r := NextHistory(p, h);
    assert forall i :: 0 <= i < |r| - 1 ==> r[1..][i] == h[i];
  }

  /** Two adds in a row leave the two payloads, newest first, at the front. */
  lemma {:induction false} NextHistoryTwice(p: CheckIn, q: CheckIn, h: seq<CheckIn>)
    ensures NextHistory(q, NextHistory(p, h))[..2] == [q, p]
  {
    var r := NextHistory(q, NextHistory(p, h));
    assert r[0] == q && r[1] == NextHistory(p, h)[0];
  }

  /** The six focus domains, in rotation order. */
  const WEEKLY_DOMAINS: seq<string> := ["Diet", "Sleep", "Exercise", "Medication", "Stress", "Community"]

  /** The focus domain of a week, given its ISO week number. */
  function GetWeeklyFocus(week: nat): (d: string)
    ensures d in WEEKLY_DOMAINS
  {
    WEEKLY_DOMAINS[week % |WEEKLY_DOMAINS|]
  }

  /** The rotation repeats every six week numbers. Week numbers restart at 1
      each year, so across a year end the rotation jumps instead. */
  lemma WeeklyFocusPeriodic(week: nat)
    ensures GetWeeklyFocus(week + 6) == GetWeeklyFocus(week)
  {
  }

  /** Consecutive weeks never share a focus. */
  lemma WeeklyFocusChanges(week: nat)
    ensures GetWeeklyFocus(week + 1) != GetWeeklyFocus(week)
  {
    var i, j := week % 6, (week + 1) % 6;
    assert j == if i == 5 then 0 else i + 1;
    assert WEEKLY_DOMAINS[i] != WEEKLY_DOMAINS[j] by {
      assert WEEKLY_DOMAINS[i][0] != WEEKLY_DOMAINS[j][0] || |WEEKLY_DOMAINS[i]| != |WEEKLY_DOMAINS[j]|;
    }
  }

  /** Any six consecutive week numbers visit every focus domain. */
  lemma WeeklyFocusCoversAll(week: nat, d: string)
    requires d in WEEKLY_DOMAINS
    ensures exists w: nat :: week <= w < week + 6 && GetWeeklyFocus(w) == d
  {
    var n :| 0 <= n < 6 && WEEKLY_DOMAINS[n] == d;
    var w := week + (n - week % 6 + 6) % 6;
    assert w % 6 == n;
    assert GetWeeklyFocus(w) == d;
  }

  /** `localStorage` as seen by the store's functions. */
  class LocalStore {
    /** False when running on the server (`typeof window === "undefined"`). */
    const hasWindow: bool
    var entries: map<string, Stored>

    constructor (hasWindow: bool, entries: map<string, Stored>)
      ensures this.hasWindow == hasWindow && this.entries == entries
    {
      this.hasWindow := hasWindow;
      this.entries := entries;
    }

    /* ---------------- auth ---------------- */

    /** The stored auth record; signed out when absent, unreadable or on the server. */
    function GetAuth(): (a: AuthState)
      reads this
      ensures !hasWindow || AUTH_KEY !in entries || entries[AUTH_KEY] in {EmptyText, Unparsable} ==> a == SIGNED_OUT
      ensures hasWindow && AUTH_KEY in entries && entries[AUTH_KEY].AuthJson? ==> a == entries[AUTH_KEY].auth
    {
      if !hasWindow || AUTH_KEY !in entries then SIGNED_OUT
      else match entries[AUTH_KEY]
        case AuthJson(s) => s
        case _ => SIGNED_OUT
    }

    method SetAuth(state: AuthState)
      modifies this
      ensures hasWindow ==> entries == old(entries)[AUTH_KEY := AuthJson(state)] && GetAuth() == state
      ensures !hasWindow ==> entries == old(entries)
    {
      if hasWindow {
        entries := entries[AUTH_KEY := AuthJson(state)];
      }
    }

    method ClearAuth()
      modifies this
      ensures hasWindow ==> entries == old(entries) - {AUTH_KEY}
      ensures !hasWindow ==> entries == old(entries)
      ensures GetAuth() == SIGNED_OUT
    {
      if hasWindow {
        entries := entries - {AUTH_KEY};
      }
    }

    /* ---------------- date-keyed check-ins ---------------- */

    /** The date table as the writer parses it: empty when the key is absent
        or holds the empty string, `None` when the stored text does not parse
        to a table. */
    function DateTable(): (t: Option<map<string, CheckIn>>)
      reads this
      ensures CHECKIN_BY_DATE_KEY !in entries || entries[CHECKIN_BY_DATE_KEY] == EmptyText ==> t == Some(map[])
      ensures CHECKIN_BY_DATE_KEY in entries ==>
        (t.Some? <==> entries[CHECKIN_BY_DATE_KEY].TableJson? || entries[CHECKIN_BY_DATE_KEY].EmptyText?)
      ensures t.Some? && CHECKIN_BY_DATE_KEY in entries && entries[CHECKIN_BY_DATE_KEY] != EmptyText ==>
        entries[CHECKIN_BY_DATE_KEY] == TableJson(t.value)
    {
      if CHECKIN_BY_DATE_KEY !in entries then Some(map[])
      else match entries[CHECKIN_BY_DATE_KEY]
        case TableJson(m) => Some(m)
        case EmptyText => Some(map[])
        case _ => None
    }

    /** The check-in saved under `dateISO`, or `None`. */
    function GetCheckInForDate(dateISO: string): (r: Option<CheckIn>)
      reads this
      ensures !hasWindow || CHECKIN_BY_DATE_KEY !in entries ==> r.None?
      ensures r.Some? ==> DateTable().Some? && dateISO in DateTable().value && r.value == DateTable().value[dateISO]
      ensures hasWindow && DateTable().Some? && dateISO in DateTable().value ==> r.Some?
    {
      if !hasWindow then None
      else match DateTable()
        case Some(m) => if dateISO in m then Some(m[dateISO]) else None
        case None => None
    }

    /** Stores `payload`, stamped with its date, under `dateISO`; a table that
        does not parse makes the call do nothing. */
    method SaveCheckInForDate(dateISO: string, payload: CheckIn)
      modifies this
      ensures !hasWindow || old(DateTable()).None? ==> entries == old(entries)
      ensures hasWindow && old(DateTable()).Some? ==>
        entries == old(entries)[CHECKIN_BY_DATE_KEY :=
          TableJson(old(DateTable()).value[dateISO := payload.(dateISO := Some(dateISO))])]
      ensures hasWindow && old(DateTable()).Some? ==>
        GetCheckInForDate(dateISO) == Some(payload.(dateISO := Some(dateISO)))
      ensures forall k :: k != dateISO ==> GetCheckInForDate(k) == old(GetCheckInForDate(k))
    {
      if hasWindow {
        var table := DateTable();
        if table.Some? {
          var stamped := payload.(dateISO := Some(dateISO));
          entries := entries[CHECKIN_BY_DATE_KEY := TableJson(table.value[dateISO := stamped])];
        }
      }
    }

    method ClearCheckInsByDate()
      modifies this
      ensures hasWindow ==> entries == old(entries) - {CHECKIN_BY_DATE_KEY}
      ensures !hasWindow ==> entries == old(entries)
      ensures forall k :: GetCheckInForDate(k).None?
    {
      if hasWindow {
        entries := entries - {CHECKIN_BY_DATE_KEY};
      }
    }

    /* ---------------- last check-in ---------------- */

    /** The last check-in slot; `None` when absent, unreadable or on the server. */
    function GetLastCheckIn(): (r: Option<CheckIn>)
      reads this
      ensures !hasWindow || CHECKIN_LAST_KEY !in entries ==> r.None?
      ensures r.Some? ==> entries[CHECKIN_LAST_KEY] == CheckInJson(r.value)
      ensures hasWindow && CHECKIN_LAST_KEY in entries && entries[CHECKIN_LAST_KEY].CheckInJson? ==>
        r == Some(entries[CHECKIN_LAST_KEY].checkIn)
    {
      if !hasWindow || CHECKIN_LAST_KEY !in entries then None
      else match entries[CHECKIN_LAST_KEY]
        case CheckInJson(c) => Some(c)
        case _ => None
    }

    method SaveLastCheckIn(payload: CheckIn)
      modifies this
      ensures hasWindow ==> entries == old(entries)[CHECKIN_LAST_KEY := CheckInJson(payload)]
      ensures hasWindow ==> GetLastCheckIn() == Some(payload)
      ensures !hasWindow ==> entries == old(entries)
    {
      if hasWindow {
        entries := entries[CHECKIN_LAST_KEY := CheckInJson(payload)];
      }
    }

    method ClearLastCheckIn()
      modifies this
      ensures hasWindow ==> entries == old(entries) - {CHECKIN_LAST_KEY}
      ensures !hasWindow ==> entries == old(entries)
      ensures GetLastCheckIn().None?
    {
      if hasWindow {
        entries := entries - {CHECKIN_LAST_KEY};
      }
    }

    /** The legacy reader parses the same slot as `GetLastCheckIn`. */
    function GetLastCheckInHistory(): (r: Option<CheckIn>)
      reads this
      ensures !hasWindow || CHECKIN_LAST_KEY !in entries ==> r.None?
      ensures r.Some? ==> entries[CHECKIN_LAST_KEY] == CheckInJson(r.value)
      ensures hasWindow && CHECKIN_LAST_KEY in entries && entries[CHECKIN_LAST_KEY].CheckInJson? ==>
        r == Some(entries[CHECKIN_LAST_KEY].checkIn)
    {
      GetLastCheckIn()
    }

    /** The legacy writer: it overwrites the last check-in slot. */
    method SaveLastCheckInHistory(payload: LegacyCheckIn)
      modifies this
      ensures hasWindow ==> entries == old(entries)[CHECKIN_LAST_KEY := CheckInJson(Widen(payload))]
      ensures hasWindow ==> GetLastCheckIn() == Some(Widen(payload))
      ensures hasWindow ==> GetLastCheckInHistory() == Some(Widen(payload))
      ensures !hasWindow ==> entries == old(entries)
    {
      if hasWindow {
        entries := entries[CHECKIN_LAST_KEY := CheckInJson(Widen(payload))];
      }
    }

    /** The legacy clearer: it empties the last check-in slot. */
    method ClearLastCheckInHistory()
      modifies this
      ensures hasWindow ==> entries == old(entries) - {CHECKIN_LAST_KEY}
      ensures !hasWindow ==> entries == old(entries)
      ensures GetLastCheckIn().None?
    {
      if hasWindow {
        entries := entries - {CHECKIN_LAST_KEY};
      }
    }

    /* ---------------- history ---------------- */

    /** The check-in history, newest first; empty when absent, unreadable or on the server. */
    function GetCheckInHistory(): (h: seq<CheckIn>)
      reads this
      ensures !hasWindow || CHECKIN_HISTORY_KEY !in entries ==> h == []
      ensures h != [] ==> entries[CHECKIN_HISTORY_KEY] == ListJson(h)
      ensures hasWindow && CHECKIN_HISTORY_KEY in entries && entries[CHECKIN_HISTORY_KEY].ListJson? ==>
        h == entries[CHECKIN_HISTORY_KEY].list
    {
      if !hasWindow || CHECKIN_HISTORY_KEY !in entries then []
      else match entries[CHECKIN_HISTORY_KEY]
        case ListJson(l) => l
        case _ => []
    }

    /** The stored history can be spread into a new array: it is absent, a list,
        the empty string or text that fails to parse (both read as `[]`). Any
        other parsed value is not iterable, so the spread throws. */
    predicate HistorySpreadable()
      reads this
    {
      CHECKIN_HISTORY_KEY !in entries
      || entries[CHECKIN_HISTORY_KEY].ListJson?
      || entries[CHECKIN_HISTORY_KEY].EmptyText?
      || entries[CHECKIN_HISTORY_KEY].Unparsable?
    }

    /** Puts `payload` at the front of the history and keeps at most 120
        entries; `threw` is the uncaught TypeError of spreading a stored value
        that is not a list, in which case nothing is written. */
    method AddCheckInToHistory(payload: CheckIn) returns (threw: bool)
      modifies this
      ensures threw <==> hasWindow && !old(HistorySpreadable())
      ensures hasWindow && !threw ==>
        entries == old(entries)[CHECKIN_HISTORY_KEY := ListJson(NextHistory(payload, old(GetCheckInHistory())))]
      ensures hasWindow && !threw ==> GetCheckInHistory() == NextHistory(payload, old(GetCheckInHistory()))
      ensures hasWindow && !threw ==> 1 <= |GetCheckInHistory()| <= HISTORY_CAP && GetCheckInHistory()[0] == payload
      ensures !hasWindow || threw ==> entries == old(entries)
    {
      threw := false;
      if hasWindow {
        if !HistorySpreadable() {
          threw := true;
          return;
        }
        var history := GetCheckInHistory();
        var next := NextHistory(payload, history);
        entries := entries[CHECKIN_HISTORY_KEY := ListJson(next)];
      }
    }

    method ClearCheckInHistory()
      modifies this
      ensures hasWindow ==> entries == old(entries) - {CHECKIN_HISTORY_KEY}
      ensures !hasWindow ==> entries == old(entries)
      ensures GetCheckInHistory() == []
    {
      if hasWindow {
        entries := entries - {CHECKIN_HISTORY_KEY};
      }
    }
  }
}
