/**
 * The category-based Stampley row selector of app/lib/stampley/selectPrompt.ts:
 * a classifier from participant state to a conversation type, and a filter
 * over the content library that keeps the first surviving row.
 */
module SelectPrompt {
  import opened Wrappers
  import Seqs

  datatype ConversationType =
    | Simple
    | Reflective
    | FollowUpReflection
    | SupportiveOpenEnded
    | Reengagement
    | ProgressReflection

  /** A row's distress condition: an inclusive numeric band, or an object
      carrying a `kind` marker (`"missed"` or `"end_of_week"`). */
  datatype Distress = Range(min: real, max: real) | Kind(kind: string)

  const MISSED: string := "missed"
  const END_OF_WEEK: string := "end_of_week"

  /** The day a row is meant for: a study day, or a marker matching any day. */
  datatype SuggestedDay = Day(n: int) | Replacement | Summary

  datatype LibraryItem = LibraryItem(
    id: string,
    domain: string,
    subscaleItem: string,
    conversationType: ConversationType,
    distress: Distress,
    stampleyPrompt: string,
    possibleResponses: Option<seq<string>>,
    validationLine: string,
    microSkill: string,
    skillObjective: string,
    educationChip: string,
    affirmation: string,
    suggestedDay: SuggestedDay)

  /** The options of one selection call; an omitted flag is `false`. */
  datatype PromptRequest = PromptRequest(
    domain: string,
    day: int,
    distressScore: real,
    missedDay: bool,
    endOfWeek: bool)

  /**
   * The conversation type for a participant state. The flags override the
   * distress thresholds, and each threshold belongs to the higher category.
   */
  function ChooseConversationType(distressScore: real, missedDay: bool, endOfWeek: bool): (t: ConversationType)
    ensures t == Reengagement <==> missedDay
    ensures t == ProgressReflection <==> !missedDay && endOfWeek
    ensures t == FollowUpReflection <==> !missedDay && !endOfWeek && 8.0 <= distressScore
    ensures t == Reflective <==> !missedDay && !endOfWeek && 5.0 <= distressScore < 8.0
    ensures t == Simple <==> !missedDay && !endOfWeek && distressScore < 5.0
    ensures t != SupportiveOpenEnded
  {
    if missedDay then Reengagement
    else if endOfWeek then ProgressReflection
    else if distressScore >= 8.0 then FollowUpReflection
    else if distressScore >= 5.0 then Reflective
    else Simple
  }

  /** How far a distress-driven category escalates (0 for the flag-driven ones). */
  function Escalation(t: ConversationType): nat {
    match t
    case Simple => 1
    case Reflective => 2
    case FollowUpReflection => 3
    case _ => 0
  }

  /** With neither flag set, a higher distress score never yields a milder category. */
  lemma EscalationMonotone(s: real, s': real)
    requires s <= s'
    ensures Escalation(ChooseConversationType(s, false, false)) <= Escalation(ChooseConversationType(s', false, false))
    ensures Escalation(ChooseConversationType(s, false, false)) >= 1
  {
  }

  predicate DayMatches(d: SuggestedDay, day: int) {
    d == Day(day) || d == Replacement || d == Summary
  }

  /** The distress test of the filter: a band is inclusive at both ends, a
      marker stands for its flag, and any other marker never matches. */
  predicate DistressMatches(d: Distress, req: PromptRequest) {
    match d
    case Kind(k) =>
      if k == MISSED then req.missedDay
      else if k == END_OF_WEEK then req.endOfWeek
      else false
    case Range(lo, hi) => lo <= req.distressScore <= hi
  }

  /** The predicate `selectPromptRow` hands to `filter`. */
  predicate Keep(x: LibraryItem, req: PromptRequest) {
    && x.domain == req.domain
    && DayMatches(x.suggestedDay, req.day)
    && x.conversationType == ChooseConversationType(req.distressScore, req.missedDay, req.endOfWeek)
    && DistressMatches(x.distress, req)
  }

  /** `i` is the earliest position of `items` that survives the filter. */
  ghost predicate IsFirstKept(items: seq<LibraryItem>, req: PromptRequest, i: int) {
    0 <= i < |items| && Keep(items[i], req) && forall j :: 0 <= j < i ==> !Keep(items[j], req)
  }

  /**
   * The first library row that survives the filter, or `None`: there is no
   * fallback pass.
   */
  function SelectPromptRow(items: seq<LibraryItem>, req: PromptRequest): (r: Option<LibraryItem>)
    ensures r.None? <==> forall k :: 0 <= k < |items| ==> !Keep(items[k], req)
    ensures r.Some? ==> exists i :: IsFirstKept(items, req, i) && r.value == items[i]
  {
    Seqs.FirstWhere(items, x => Keep(x, req))
  }

  /** What a returned row is guaranteed to satisfy, field by field. */
  lemma SelectPromptRowSound(items: seq<LibraryItem>, req: PromptRequest)
    requires SelectPromptRow(items, req).Some?
    ensures var x := SelectPromptRow(items, req).value;
      && x in items
      && x.domain == req.domain
      && (x.suggestedDay == Day(req.day) || x.suggestedDay == Replacement || x.suggestedDay == Summary)
      && x.conversationType == ChooseConversationType(req.distressScore, req.missedDay, req.endOfWeek)
      && (x.distress.Range? ==> x.distress.min <= req.distressScore <= x.distress.max)
      && (x.distress == Kind(MISSED) ==> req.missedDay)
      && (x.distress == Kind(END_OF_WEEK) ==> req.endOfWeek)
      && (x.distress.Kind? ==> x.distress.kind == MISSED || x.distress.kind == END_OF_WEEK)
  {
    var i :| IsFirstKept(items, req, i) && SelectPromptRow(items, req).value == items[i];
  }

  /** When row `i` survives, a row at or before `i` is returned. */
  lemma SelectPromptRowPrefersEarlier(items: seq<LibraryItem>, req: PromptRequest, i: int)
    requires 0 <= i < |items|
    requires Keep(items[i], req)
    ensures SelectPromptRow(items, req).Some?
    ensures exists k :: 0 <= k <= i && SelectPromptRow(items, req) == Some(items[k])
  {
    var r := SelectPromptRow(items, req);
    var k :| IsFirstKept(items, req, k) && r.value == items[k];
    assert k <= i;
  }

  /** No row of the never-chosen `Supportive Open-Ended` type is ever selected. */
  lemma SupportiveOpenEndedNeverSelected(items: seq<LibraryItem>, req: PromptRequest)
    ensures SelectPromptRow(items, req).Some? ==> SelectPromptRow(items, req).value.conversationType != SupportiveOpenEnded
  {
    if SelectPromptRow(items, req).Some? {
      SelectPromptRowSound(items, req);
    }
  }

  /** Without a row of the chosen type for the domain the result is `None`: the
      category constraint is never relaxed. */
  lemma NoFallback(items: seq<LibraryItem>, req: PromptRequest)
    requires forall k :: 0 <= k < |items| && items[k].domain == req.domain ==>
      items[k].conversationType != ChooseConversationType(req.distressScore, req.missedDay, req.endOfWeek)
    ensures SelectPromptRow(items, req).None?
  {
  }

  /** A row marked `missed` is only ever selected as a Re-engagement row. */
  lemma MissedRowsAreReengagement(items: seq<LibraryItem>, req: PromptRequest)
    requires SelectPromptRow(items, req).Some?
    requires SelectPromptRow(items, req).value.distress == Kind(MISSED)
    ensures SelectPromptRow(items, req).value.conversationType == Reengagement
  {
    SelectPromptRowSound(items, req);
  }
}
