/**
 * The variant-based Stampley script selector of app/lib/stampley/selectScript.ts:
 * a strict pass that honours the missed-day / end-of-week variant, and a
 * fallback pass that ignores the variant. The row's conversation type is
 * never consulted.
 */
module SelectScript {
  import opened Wrappers
  import Seqs
  import Utils

  datatype ScriptConversationType =
    | Simple
    | Reflective
    | FollowUpReflection
    | SupportiveOpenEnded
    | ReengagementVariant
    | ProgressReflectionVariant

  datatype Variant = Standard | Replacement | Summary

  datatype ScriptItem = ScriptItem(
    id: string,
    domain: string,
    subscaleItem: string,
    conversationType: ScriptConversationType,
    distressMin: real,
    distressMax: real,
    stampleyPrompt: string,
    possibleResponses: Option<seq<string>>,
    validationLine: string,
    microSkill: string,
    skillObjective: string,
    educationChip: string,
    affirmation: string,
    suggestedDay: int,
    variant: Option<Variant>)

  /** The chat state; a missing score is `None`, an omitted flag `false`. */
  datatype ChatMeta = ChatMeta(
    domain: string,
    day: int,
    distressScore: Option<real>,
    missedDay: bool,
    endOfWeek: bool)

  /** `clamp(meta.distressScore ?? 5, 0, 10)`: the score every row is compared with. */
  function EffectiveScore(meta: ChatMeta): (score: real)
    ensures 0.0 <= score <= 10.0
    ensures meta.distressScore.None? ==> score == 5.0
    ensures meta.distressScore.Some? && 0.0 <= meta.distressScore.value <= 10.0 ==> score == meta.distressScore.value
    ensures meta.distressScore.Some? && meta.distressScore.value < 0.0 ==> score == 0.0
    ensures meta.distressScore.Some? && meta.distressScore.value > 10.0 ==> score == 10.0
  {
    Utils.Clamp(meta.distressScore.GetOr(5.0), 0.0, 10.0)
  }

  /** Domain, exact day and inclusive distress band. This is the fallback's
      test; the strict pass states the band as rejecting `score < min` or
      `score > max`, which agrees with it on every real score. */
  predicate BaseMatch(it: ScriptItem, meta: ChatMeta, score: real) {
    && it.domain == meta.domain
    && it.suggestedDay == meta.day
    && it.distressMin <= score <= it.distressMax
  }

  /** The variant rule in priority order: missed day, then end of week, then standard (or absent). */
  predicate VariantWanted(it: ScriptItem, meta: ChatMeta) {
    if meta.missedDay then it.variant == Some(Replacement)
    else if meta.endOfWeek then it.variant == Some(Summary)
    else it.variant.GetOr(Standard) == Standard
  }

  predicate StrictMatch(it: ScriptItem, meta: ChatMeta, score: real) {
    BaseMatch(it, meta, score) && VariantWanted(it, meta)
  }

  /** `i` is the earliest position of `items` passing the strict pass. */
  ghost predicate IsFirstStrict(items: seq<ScriptItem>, meta: ChatMeta, i: int) {
    0 <= i < |items| && StrictMatch(items[i], meta, EffectiveScore(meta))
    && forall j :: 0 <= j < i ==> !StrictMatch(items[j], meta, EffectiveScore(meta))
  }

  /** `i` is the earliest position of `items` passing the fallback pass. */
  ghost predicate IsFirstBase(items: seq<ScriptItem>, meta: ChatMeta, i: int) {
    0 <= i < |items| && BaseMatch(items[i], meta, EffectiveScore(meta))
    && forall j :: 0 <= j < i ==> !BaseMatch(items[j], meta, EffectiveScore(meta))
  }

  /**
   * The first row of the strict pass; when that pass is empty, the first row
   * of the fallback pass; `None` only when not even the fallback finds a row.
   */
  function SelectStampleyScript(items: seq<ScriptItem>, meta: ChatMeta): (r: Option<ScriptItem>)
    ensures r.None? <==> forall k :: 0 <= k < |items| ==> !BaseMatch(items[k], meta, EffectiveScore(meta))
    ensures (exists k :: 0 <= k < |items| && StrictMatch(items[k], meta, EffectiveScore(meta))) ==>
      exists i :: IsFirstStrict(items, meta, i) && r == Some(items[i])
    ensures (forall k :: 0 <= k < |items| ==> !StrictMatch(items[k], meta, EffectiveScore(meta))) && r.Some? ==>
      exists i :: IsFirstBase(items, meta, i) && r == Some(items[i])
  {
    var score := EffectiveScore(meta);
    var candidates := Seqs.FirstWhere(items, it => StrictMatch(it, meta, score));
    if candidates.None? then
      Seqs.FirstWhere(items, it => BaseMatch(it, meta, score))
    else
      candidates
  }

  /** What a returned row is guaranteed to satisfy, field by field. */
  lemma SelectStampleyScriptSound(items: seq<ScriptItem>, meta: ChatMeta)
    requires SelectStampleyScript(items, meta).Some?
    ensures var it := SelectStampleyScript(items, meta).value;
      && it in items
      && it.domain == meta.domain
      && it.suggestedDay == meta.day
      && it.distressMin <= EffectiveScore(meta) <= it.distressMax
  {
    var r := SelectStampleyScript(items, meta);
    if exists k :: 0 <= k < |items| && StrictMatch(items[k], meta, EffectiveScore(meta)) {
      var i :| IsFirstStrict(items, meta, i) && r == Some(items[i]);
    } else {
      var i :| IsFirstBase(items, meta, i) && r == Some(items[i]);
    }
  }

  /** `i` is the earliest row passing domain, day and distress with the given variant. */
  ghost predicate IsFirstWithVariant(items: seq<ScriptItem>, meta: ChatMeta, v: Variant, i: int) {
    0 <= i < |items| && BaseMatch(items[i], meta, EffectiveScore(meta)) && items[i].variant == Some(v)
    && forall j :: 0 <= j < i ==> !(BaseMatch(items[j], meta, EffectiveScore(meta)) && items[j].variant == Some(v))
  }

  /** On a missed day the first matching `replacement` row wins, whatever the end-of-week flag says. */
  lemma MissedDayPrefersReplacement(items: seq<ScriptItem>, meta: ChatMeta, i: int)
    requires meta.missedDay
    requires IsFirstWithVariant(items, meta, Replacement, i)
    ensures SelectStampleyScript(items, meta) == Some(items[i])
  {
    assert StrictMatch(items[i], meta, EffectiveScore(meta));
    assert exists j :: IsFirstStrict(items, meta, j) && SelectStampleyScript(items, meta) == Some(items[j]);
    var j :| IsFirstStrict(items, meta, j) && SelectStampleyScript(items, meta) == Some(items[j]);
    assert StrictMatch(items[j], meta, EffectiveScore(meta));
  }

  /** At the end of the week (and no missed day) the first matching `summary` row wins. */
  lemma EndOfWeekPrefersSummary(items: seq<ScriptItem>, meta: ChatMeta, i: int)
    requires !meta.missedDay && meta.endOfWeek
    requires IsFirstWithVariant(items, meta, Summary, i)
    ensures SelectStampleyScript(items, meta) == Some(items[i])
  {
    assert StrictMatch(items[i], meta, EffectiveScore(meta));
    assert exists j :: IsFirstStrict(items, meta, j) && SelectStampleyScript(items, meta) == Some(items[j]);
    var j :| IsFirstStrict(items, meta, j) && SelectStampleyScript(items, meta) == Some(items[j]);
    assert StrictMatch(items[j], meta, EffectiveScore(meta));
  }

  /** With neither flag set, the strict pass admits exactly the standard and unmarked rows. */
  lemma PlainDayAdmitsStandardOnly(it: ScriptItem, meta: ChatMeta)
    requires !meta.missedDay && !meta.endOfWeek
    ensures StrictMatch(it, meta, EffectiveScore(meta)) <==>
      BaseMatch(it, meta, EffectiveScore(meta)) && (it.variant.None? || it.variant == Some(Standard))
  {
  }

  /** When no row carries the wanted variant, the first row matching domain, day
      and distress is returned, and `None` only if there is none. */
  lemma FallbackIgnoresVariant(items: seq<ScriptItem>, meta: ChatMeta, i: int)
    requires forall k :: 0 <= k < |items| ==> !VariantWanted(items[k], meta)
    requires IsFirstBase(items, meta, i)
    ensures SelectStampleyScript(items, meta) == Some(items[i])
  {
    assert forall k :: 0 <= k < |items| ==> !StrictMatch(items[k], meta, EffectiveScore(meta));
    assert exists j :: IsFirstBase(items, meta, j) && SelectStampleyScript(items, meta) == Some(items[j]);
    var j :| IsFirstBase(items, meta, j) && SelectStampleyScript(items, meta) == Some(items[j]);
    assert BaseMatch(items[j], meta, EffectiveScore(meta));
  }

  /** Two rows that differ at most in their conversation type. */
  predicate SameButType(a: ScriptItem, b: ScriptItem) {
    a.(conversationType := b.conversationType) == b
  }

  /** Rewriting any row's conversation type does not change which position is selected. */
  lemma ConversationTypeIgnored(items: seq<ScriptItem>, items': seq<ScriptItem>, meta: ChatMeta)
    requires |items| == |items'|
    requires forall k :: 0 <= k < |items| ==> SameButType(items[k], items'[k])
    ensures SelectStampleyScript(items, meta).None? <==> SelectStampleyScript(items', meta).None?
    ensures SelectStampleyScript(items, meta).Some? ==>
      exists i :: 0 <= i < |items| && SelectStampleyScript(items, meta) == Some(items[i])
        && SelectStampleyScript(items', meta) == Some(items'[i])
  {
    var score := EffectiveScore(meta);
    var strict := (it: ScriptItem) => StrictMatch(it, meta, score);
    var base := (it: ScriptItem) => BaseMatch(it, meta, score);
    Seqs.FirstWhereAligned(items, strict, items', strict);
    Seqs.FirstWhereAligned(items, base, items', base);
  }
}
