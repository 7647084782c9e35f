# Stampley content selection and check-in store, in Dafny

This project models the decision logic of the study-participant portal. The
Stampley chat agent picks its next pre-authored script row from the
participant's state. That state is the focus domain, the study day, a 0–10
distress score, and the missed-day and end-of-week flags. The repository has
two separate selectors, and each is modelled on its own:

- `SelectPrompt` (app/lib/stampley/selectPrompt.ts). It classifies the state into one
  of six conversation types. It then keeps the first library row that
  matches on four things: the domain; the day, where `replacement`/`summary` rows
  match any day; the chosen type; and the distress condition, which is
  an inclusive band or a `missed`/`end_of_week` marker. It has no fallback.
- `SelectScript` (app/lib/stampley/selectScript.ts). It clamps the score to
  [0, 10]. Its strict pass filters by domain, exact day, distress band
  and a variant rule in priority order: missed day → `replacement`,
  end of week → `summary`, otherwise `standard` or no variant. If the
  strict pass is empty, the same filter is applied without the variant
  rule. It never looks at a row's conversation type.

`Utils` models lib/utils.ts (`clamp`, `domainLabel`). `Seqs` models
`filter` and the `filtered[0] ?? null` idiom that both selectors use.
`Store` models app/lib/store.ts. There, `localStorage` is a class holding a
map from key to the JSON value stored under it, and a flag saying whether
a browser window exists. The weekly focus rotation takes the ISO week
number as an input.

The two selectors differ in their fallback, and the model keeps each as written:

- selectPrompt.ts has no fallback at all.
- selectScript.ts's fallback drops only the variant rule, and it still
  requires the exact day.
- Neither file validates the library at load time, so there are no
  duplicate-id or bound checks.

## Model

| member | source | states |
|---|---|---|
| `Seqs.Filter` | app/lib/stampley/selectPrompt.ts:47-61 | the filtered list is no longer than the input and holds only input elements that pass the predicate |
| `Seqs.FilterComplete` | app/lib/stampley/selectPrompt.ts:47-61 | every input element that passes is kept, so together with `Filter` an element is kept iff it is in the input and passes |
| `Seqs.FilterAppend` | app/lib/stampley/selectPrompt.ts:47-61 | filtering keeps input order: the filter of a concatenation is the concatenation of the filters |
| `Seqs.FirstWhereAligned` | app/lib/stampley/selectScript.ts:48-66 | two lists whose elements pass at the same positions have their first passing element at the same position, or both have none |
| `Seqs.FilterFront` | app/lib/stampley/selectPrompt.ts:47-63 | a filter is empty exactly when no element passes; otherwise its first element is the earliest passing element of the input |
| `Seqs.FirstWhere` | app/lib/stampley/selectPrompt.ts:63 | `filtered[0] ?? null` is `None` exactly when nothing passes, and otherwise is the element at the earliest passing position |
| `Utils.Clamp` | lib/utils.ts:1-3 | with `lo <= hi` the result lies in `[lo, hi]`; it is `n` when `n` is in range, `lo` below it, `hi` above it; with inverted bounds `Math.max` makes it `lo` |
| `Utils.ClampIdempotent` | lib/utils.ts:1-3 | clamping twice to the same bounds equals clamping once |
| `Utils.ClampMonotone` | lib/utils.ts:1-3 | clamping preserves the order of its inputs |
| `Utils.UpperAscii` | lib/utils.ts:6 | upper-casing a character yields no lower-case ASCII letter; it maps `a`–`z` to `A`–`Z` and leaves every other character unchanged |
| `Utils.DomainLabel` | lib/utils.ts:5-7 | the label of `""` is `""`; otherwise the label has the same length, its first character is the upper-cased first character, and the rest (`slice(1)`) is unchanged |
| `Utils.DomainLabelIdempotent` | lib/utils.ts:5-7 | labelling a label changes nothing |
| `Utils.DomainLabelFixesCapitalised` | lib/utils.ts:5-7 | a domain that does not start with a lower-case letter is its own label |
| `SelectPrompt.ChooseConversationType` | app/lib/stampley/selectPrompt.ts:25-35 | Re-engagement iff missed day; Progress Reflection iff end of week and no missed day; otherwise score ≥ 8 gives Follow-Up, 5 ≤ score < 8 gives Reflective, and score < 5 gives Simple (each an iff, so 8 and 5 fall on the higher category); never Supportive Open-Ended |
| `SelectPrompt.EscalationMonotone` | app/lib/stampley/selectPrompt.ts:32-34 | with no flags set, a higher distress score never yields a milder category, and the category is always one of the three distress-driven ones |
| `SelectPrompt.SelectPromptRow` | app/lib/stampley/selectPrompt.ts:37-64 | `None` exactly when no row passes domain, day, type and distress; otherwise the row at the earliest passing position |
| `SelectPrompt.SelectPromptRowSound` | app/lib/stampley/selectPrompt.ts:47-60 | a returned row is in the library and has the requested domain; its day is `day`, `replacement` or `summary`; its type is the chosen one; a band contains the score inclusively; `missed` implies missedDay; `end_of_week` implies endOfWeek; no other marker is ever returned |
| `SelectPrompt.SelectPromptRowPrefersEarlier` | app/lib/stampley/selectPrompt.ts:63 | when row `i` passes, some row is returned, at a position no later than `i` |
| `SelectPrompt.SupportiveOpenEndedNeverSelected` | app/lib/stampley/selectPrompt.ts:45-51 | no Supportive Open-Ended row is ever returned |
| `SelectPrompt.NoFallback` | app/lib/stampley/selectPrompt.ts:51-63 | if no row of the domain has the chosen type, the result is `None` |
| `SelectPrompt.MissedRowsAreReengagement` | app/lib/stampley/selectPrompt.ts:30-55 | a returned row marked `missed` is a Re-engagement row |
| `SelectScript.EffectiveScore` | app/lib/stampley/selectScript.ts:37-42 | the compared score lies in [0, 10]; it is 5 when the score is missing, the score itself when in range, 0 below and 10 above |
| `SelectScript.SelectStampleyScript` | app/lib/stampley/selectScript.ts:41-69 | if some row passes the strict pass, the result is the earliest such row; otherwise it is the earliest row passing domain, day and band; `None` exactly when no row passes domain, day and band |
| `SelectScript.SelectStampleyScriptSound` | app/lib/stampley/selectScript.ts:48-51 | a returned row is in the list and has the requested domain and exactly the requested day; its band contains the clamped score inclusively |
| `SelectScript.MissedDayPrefersReplacement` | app/lib/stampley/selectScript.ts:53 | on a missed day the earliest matching `replacement` row is returned, whatever the end-of-week flag |
| `SelectScript.EndOfWeekPrefersSummary` | app/lib/stampley/selectScript.ts:54 | at end of week with no missed day, the earliest matching `summary` row is returned |
| `SelectScript.PlainDayAdmitsStandardOnly` | app/lib/stampley/selectScript.ts:55 | with neither flag set, a row passes the strict pass iff it matches and its variant is absent or `standard` |
| `SelectScript.FallbackIgnoresVariant` | app/lib/stampley/selectScript.ts:58-66 | when no row has the wanted variant, the earliest row matching domain, day and band is returned |
| `SelectScript.ConversationTypeIgnored` | app/lib/stampley/selectScript.ts:41-69 | rewriting rows' conversation types changes neither whether a row is found nor its position |
| `Store.NextHistory` | app/lib/store.ts:138 | the new history has length `min(old + 1, 120)`; the payload is at index 0, and entry `i` is old entry `i - 1` |
| `Store.NextHistoryKeepsPrefix` | app/lib/store.ts:138 | behind the new entry the old history is a prefix; below the cap nothing is dropped |
| `Store.NextHistoryTwice` | app/lib/store.ts:135-140 | after adding `p` then `q`, the history starts `[q, p]` |
| `Store.GetWeeklyFocus` | app/lib/store.ts:181-197 | the focus is always one of the six listed domains |
| `Store.WeeklyFocusPeriodic` | app/lib/store.ts:193-197 | the focus repeats with period 6 in the week number |
| `Store.WeeklyFocusChanges` | app/lib/store.ts:181-197 | consecutive week numbers never share a focus |
| `Store.WeeklyFocusCoversAll` | app/lib/store.ts:181-197 | any six consecutive week numbers visit every domain |
| `Store.LocalStore.GetAuth` | app/lib/store.ts:11-20 | signed out on the server, when the key is absent, when its text is empty, or when it does not parse; a stored auth record is returned as it is |
| `Store.LocalStore.SetAuth` | app/lib/store.ts:22-25 | only the auth key changes, and reading it back gives the state written; nothing changes on the server |
| `Store.LocalStore.ClearAuth` | app/lib/store.ts:27-30 | only the auth key is removed; afterwards the reader says signed out |
| `Store.LocalStore.DateTable` | app/lib/store.ts:70-71 | an absent table, or one stored as the empty string, is read as empty; any other stored table is usable iff its text parses to a table, and is then exactly the stored table |
| `Store.LocalStore.GetCheckInForDate` | app/lib/store.ts:80-90 | `None` on the server or when the table is absent; a result is the table's entry for that date, and a date present in a readable table is always found |
| `Store.LocalStore.SaveCheckInForDate` | app/lib/store.ts:67-77 | the table gains `payload` stamped with `dateISO`, and reading that date gives it back; every other date reads as before; other keys are unchanged; an absent or empty-string table is replaced by a one-entry table; an unparsable table or the server makes it a no-op |
| `Store.LocalStore.ClearCheckInsByDate` | app/lib/store.ts:117-120 | only the table key is removed; afterwards every date reads `None` |
| `Store.LocalStore.GetLastCheckIn` | app/lib/store.ts:99-108 | `None` on the server or when absent; a result is exactly what the slot holds, and a stored check-in is always returned |
| `Store.LocalStore.SaveLastCheckIn` | app/lib/store.ts:93-96 | only the last-check-in key changes, and reading it back gives the payload |
| `Store.LocalStore.ClearLastCheckIn` | app/lib/store.ts:111-114 | only the last-check-in key is removed; afterwards the reader gives `None` |
| `Store.LocalStore.SaveLastCheckInHistory` | app/lib/store.ts:158-161 | it writes the same last-check-in slot, so both `GetLastCheckIn` and `GetLastCheckInHistory` then return the legacy record |
| `Store.LocalStore.GetLastCheckInHistory` | app/lib/store.ts:163-172 | `None` on the server or when the last-check-in slot is absent; a result is exactly what the slot holds, and a stored check-in is always returned |
| `Store.LocalStore.ClearLastCheckInHistory` | app/lib/store.ts:174-177 | it empties the same last-check-in slot |
| `Store.LocalStore.GetCheckInHistory` | app/lib/store.ts:124-133 | empty on the server or when absent; a stored list is returned as it is |
| `Store.LocalStore.AddCheckInToHistory` | app/lib/store.ts:135-140 | only the history key changes; the new history is `NextHistory(payload, old history)`, holds 1 to 120 entries, and has the payload first; a stored non-list value makes the spread throw and nothing is written |
| `Store.LocalStore.ClearCheckInHistory` | app/lib/store.ts:142-145 | only the history key is removed; afterwards the history reads `[]` |

## Left out

- JSON serialisation is not modelled. A value is stored as its parsed shape, so `JSON.parse(JSON.stringify(x))` is taken to be `x`. Text that fails to parse is the single value `Unparsable`, and readers give their default for it, as the `catch` branches do. The empty string is the value `EmptyText`; it is falsy, so every reader treats it as an absent key, and the date-table writer starts a new table over it.
- Store.LocalStore.GetAuth, GetCheckInHistory, GetLastCheckIn, GetLastCheckInHistory, DateTable: a value of another JSON shape under a known key reads as the default. The source would instead return it through an unchecked cast. Only foreign writers could put such a value there.
- Store.LocalStore.SaveCheckInForDate: when the table key holds a parsed value that is not a table, the model leaves the store unchanged. The source instead adds the dated entry as a property of whatever object is stored there and writes that object back. The model's stored shapes cannot represent such a mixed object.
- Store.LocalStore.AddCheckInToHistory: when the history key holds a parsed object that is not a list, the source's spread throws an uncaught TypeError and nothing is written. The model writes nothing too and reports this as `threw`, but it does not propagate an exception to the caller.
- `localStorage.setItem` failures (quota exceeded) are not modelled. Neither is the `catch` around the date-table write that swallows them.
- Clock- and calendar-dependent code is not modelled: `todayISO`, `isoToLocalDate` and `isoWeekNumber`. `GetWeeklyFocus` takes the week number, a natural number as `isoWeekNumber` yields, instead of a `Date`. The weekly-focus lemmas are about week numbers, not calendar weeks: ISO week numbers restart at 1 after week 52 or 53, so the rotation jumps at a year end: the six calendar weeks numbered 50, 51, 52, 1, 2, 3 give Exercise, Medication, Stress, Sleep, Exercise, Medication, and never Diet or Community.
- The JSON module import of the script library in selectScript.ts is not modelled. The rows are passed as a parameter.
- selectScript.ts declares a private `clamp` identical to the one in lib/utils.ts. The model uses `Utils.Clamp` for both.
- Numbers are modelled as mathematical reals (scores) and integers (days). NaN, infinities and non-integral days are not modelled. In particular `SelectScript.BaseMatch` is the fallback pass's band test (app/lib/stampley/selectScript.ts:63, accept when `score >= min && score <= max`) and also stands for the strict pass's test (line 51, reject when `score < min || score > max`); the two agree on every real, but a NaN bound or score passes the strict test and fails the fallback's.
- `toUpperCase` is modelled only for ASCII letters. Other characters are left unchanged, whereas JavaScript also maps non-ASCII letters and can change the length (`ß` becomes `SS`).
- Optional flags (`missedDay?`, `endOfWeek?`) are plain booleans, with absent meaning `false` as `!!` makes it. A selectPrompt.ts distress score is always present.
- The React components, the chat and voice transport, and the static mock data are not part of this model.
