/** The prompt builder: turns a compliment request into the instruction text
    handed to the text-generation backend. The prompt is a formatted string:
    fixed text with the name, the relationship, the joined qualities, the
    context section, the tone phrase and the name again spliced in. It is a
    total function; every combination of inputs, an empty list of qualities
    included, yields a prompt. */
module Prompts {
  import opened Strings
  import opened Models

  // The fixed text of the prompt, in the order it appears.
  const Opening := "Write a warm, genuine compliment for "
  const AfterName := ", who is a "
  const AfterRelationship := ". \n\nFocus on these qualities: "
  const BeforeTone := "\n\nMake it "
  const AfterTone := " and conversational." + " Keep it to 2-3 sentences."
    + " Highlight their positive character traits" + " and impact."
    + " Start the compliment by addressing "
  const FinalLine := "Write the compliment directly:"
  const Closing := " directly.\n\n" + FinalLine

  const QualitySeparator := ", "
  const ContextLabel := "\n\nRecent context: "
  const ContextMarker := "Recent context"

  /** The tone table: four known tones and their phrases. */
  const ToneTable: map<string, string> := map[
    "warm" := "warm and caring",
    "encouraging" := "encouraging and uplifting",
    "celebratory" := "celebratory and joyful",
    "gentle" := "gentle and supportive"]

  const DefaultToneGuidance := "warm and caring"

  /** A tone the table does not know, or no tone at all, reads as "warm". */
  predicate ResolvesToWarm(tone: Option<string>)
  {
    tone.None? || tone.value !in ToneTable || tone.value == "warm"
  }

  /** The phrase for `tone`: the table's entry, "warm and caring" when the
      table has none. */
  function ToneGuidance(tone: Option<string>): (r: string)
    ensures r in ToneTable.Values
    ensures r == DefaultToneGuidance <==> ResolvesToWarm(tone)
    ensures tone == Some("encouraging") ==> r == "encouraging and uplifting"
    ensures tone == Some("celebratory") ==> r == "celebratory and joyful"
    ensures tone == Some("gentle") ==> r == "gentle and supportive"
  {
    if tone.Some? && tone.value in ToneTable then ToneTable[tone.value]
    else
      assert ToneTable["warm"] in ToneTable.Values;
      DefaultToneGuidance
  }

  /** The labelled context section, present only for a non-empty context. */
  function ContextSection(context: Option<string>): string
  {
    if context.Some? && context.value != "" then ContextLabel + context.value else ""
  }

  // Where each input sits among the parts of the prompt.
  const NamePart := 1
  const RelationshipPart := 3
  const QualitiesPart := 5
  const ContextPart := 6
  const TonePart := 8
  const NameAgainPart := 10
  const ClosingPart := 11

  /** The parts of the prompt in order: fixed text alternating with the
      inputs. */
  function PromptParts(
    recipientName: string, relationship: string, qualities: seq<string>,
    context: Option<string>, tone: Option<string>): (parts: seq<string>)
    ensures |parts| == ClosingPart + 1
  {
    [Opening, recipientName, AfterName, relationship, AfterRelationship,
     Join(qualities, QualitySeparator), ContextSection(context),
     BeforeTone, ToneGuidance(tone), AfterTone, recipientName, Closing]
  }

  /** The prompt for a compliment to `recipientName`: its parts, back to back. */
  function CreatePrompt(
    recipientName: string, relationship: string, qualities: seq<string>,
    context: Option<string>, tone: Option<string>): string
  {
    Join(PromptParts(recipientName, relationship, qualities, context, tone), "")
  }

  /** The prompt for a request, as the generation service builds it. */
  function PromptForRequest(request: ComplimentRequest): string
  {
    CreatePrompt(request.recipientName, request.relationship, request.qualities,
                 request.context, request.tone)
  }

  /** Where part `i` starts in the prompt. */
  function PartAt(
    recipientName: string, relationship: string, qualities: seq<string>,
    context: Option<string>, tone: Option<string>, i: nat): nat
    requires i <= ClosingPart
  {
    Offset(PromptParts(recipientName, relationship, qualities, context, tone), "", i)
  }

  // The lemmas below speak of a prompt `r` and of a part's offset `at` given
  // as parameters, tied to `CreatePrompt` and `PartAt` by their requires:
  // stating them over those calls directly makes the verifier expand the
  // template's literal text into every goal, which it cannot afford.

  /** The prompt `r` is exactly its parts in order: part `i` sits at its
      offset, the next part starts right where it ends, and the closing text
      ends the prompt. */
  lemma PromptLayout(
    recipientName: string, relationship: string, qualities: seq<string>,
    context: Option<string>, tone: Option<string>, r: string, i: nat)
    requires r == CreatePrompt(recipientName, relationship, qualities, context, tone)
    requires i <= ClosingPart
    ensures OccursAt(r, PromptParts(recipientName, relationship, qualities, context, tone)[i],
                     PartAt(recipientName, relationship, qualities, context, tone, i))
    ensures i < ClosingPart ==>
      PartAt(recipientName, relationship, qualities, context, tone, i + 1)
      == PartAt(recipientName, relationship, qualities, context, tone, i)
         + |PromptParts(recipientName, relationship, qualities, context, tone)[i]|
    ensures i == ClosingPart ==>
      |r| == PartAt(recipientName, relationship, qualities, context, tone, i) + |Closing|
  {
    JoinPlacesItem(PromptParts(recipientName, relationship, qualities, context, tone), "", i);
  }

  /** The inputs land in the prompt in this order: name, relationship,
      qualities text, context section, tone phrase, name again. Fixed text
      separates them, except that the context section follows the qualities
      text directly. */
  lemma PromptInputsInOrder(
    recipientName: string, relationship: string, qualities: seq<string>,
    context: Option<string>, tone: Option<string>)
    ensures
      PartAt(recipientName, relationship, qualities, context, tone, NamePart) + |recipientName|
      < PartAt(recipientName, relationship, qualities, context, tone, RelationshipPart)
    ensures
      PartAt(recipientName, relationship, qualities, context, tone, RelationshipPart) + |relationship|
      < PartAt(recipientName, relationship, qualities, context, tone, QualitiesPart)
  {
    OffsetStep(PromptParts(recipientName, relationship, qualities, context, tone), "", 1);
    OffsetStep(PromptParts(recipientName, relationship, qualities, context, tone), "", 2);
    OffsetStep(PromptParts(recipientName, relationship, qualities, context, tone), "", 3);
    OffsetStep(PromptParts(recipientName, relationship, qualities, context, tone), "", 4);
  }

  lemma PromptLaterInputsInOrder(
    recipientName: string, relationship: string, qualities: seq<string>,
    context: Option<string>, tone: Option<string>)
    ensures
      PartAt(recipientName, relationship, qualities, context, tone, QualitiesPart)
      + |Join(qualities, QualitySeparator)|
      == PartAt(recipientName, relationship, qualities, context, tone, ContextPart)
    ensures
      PartAt(recipientName, relationship, qualities, context, tone, ContextPart)
      + |ContextSection(context)|
      < PartAt(recipientName, relationship, qualities, context, tone, TonePart)
    ensures
      PartAt(recipientName, relationship, qualities, context, tone, TonePart) + |ToneGuidance(tone)|
      < PartAt(recipientName, relationship, qualities, context, tone, NameAgainPart)
  {
    OffsetStep(PromptParts(recipientName, relationship, qualities, context, tone), "", 5);
    OffsetStep(PromptParts(recipientName, relationship, qualities, context, tone), "", 6);
    OffsetStep(PromptParts(recipientName, relationship, qualities, context, tone), "", 7);
    OffsetStep(PromptParts(recipientName, relationship, qualities, context, tone), "", 8);
    OffsetStep(PromptParts(recipientName, relationship, qualities, context, tone), "", 9);
  }

  /** The recipient's name appears twice: in the opening sentence ... */
  lemma PromptOpensWithName(
    recipientName: string, relationship: string, qualities: seq<string>,
    context: Option<string>, tone: Option<string>, r: string)
    requires r == CreatePrompt(recipientName, relationship, qualities, context, tone)
    ensures OccursAt(r, Opening + recipientName, 0)
  {
    PromptLayout(recipientName, relationship, qualities, context, tone, r, 0);
    PromptLayout(recipientName, relationship, qualities, context, tone, r, NamePart);
    OccursAtAdjacent(r, Opening, recipientName, 0);
  }

  /** ... and again, at `at`, in the closing "addressing ... directly"
      sentence. */
  lemma PromptAddressesName(
    recipientName: string, relationship: string, qualities: seq<string>,
    context: Option<string>, tone: Option<string>, r: string, at: nat)
    requires r == CreatePrompt(recipientName, relationship, qualities, context, tone)
    requires at == PartAt(recipientName, relationship, qualities, context, tone, NameAgainPart)
    ensures OccursAt(r, recipientName + Closing, at)
  {
    PromptLayout(recipientName, relationship, qualities, context, tone, r, NameAgainPart);
    PromptLayout(recipientName, relationship, qualities, context, tone, r, ClosingPart);
    OccursAtAdjacent(r, recipientName, Closing, at);
  }

  /** The prompt always ends with "Write the compliment directly:". */
  lemma PromptEndsWithFinalLine(
    recipientName: string, relationship: string, qualities: seq<string>,
    context: Option<string>, tone: Option<string>, r: string)
    requires r == CreatePrompt(recipientName, relationship, qualities, context, tone)
    ensures EndsWith(r, FinalLine)
  {
    var at := PartAt(recipientName, relationship, qualities, context, tone, ClosingPart);
    var lead := " directly.\n\n";
    PromptLayout(recipientName, relationship, qualities, context, tone, r, ClosingPart);
    assert OccursAt(FinalLine, FinalLine, 0);
    OccursAtShift(lead, FinalLine, FinalLine, 0);
    OccursWithin(r, Closing, at, FinalLine, |lead|);
    OccursAtEnd(r, FinalLine);
  }

  /** Wherever the qualities text occurs, each quality occurs inside it at
      its offset... */
  lemma QualityWithin(r: string, at: int, qualities: seq<string>, i: nat)
    requires i < |qualities| && OccursAt(r, Join(qualities, QualitySeparator), at)
    ensures OccursAt(r, qualities[i], at + Offset(qualities, QualitySeparator, i))
  {
    JoinPlacesItem(qualities, QualitySeparator, i);
    OccursWithin(r, Join(qualities, QualitySeparator), at, qualities[i],
                 Offset(qualities, QualitySeparator, i));
  }

  /** ... and a ", " follows each quality but the last. */
  lemma SeparatorWithin(r: string, at: int, qualities: seq<string>, i: nat)
    requires i + 1 < |qualities| && OccursAt(r, Join(qualities, QualitySeparator), at)
    ensures OccursAt(r, QualitySeparator, at + Offset(qualities, QualitySeparator, i) + |qualities[i]|)
  {
    JoinPlacesItem(qualities, QualitySeparator, i);
    OccursWithin(r, Join(qualities, QualitySeparator), at, QualitySeparator,
                 Offset(qualities, QualitySeparator, i) + |qualities[i]|);
  }

  /** The qualities text sits at its part of the prompt, which starts at
      `at`. */
  lemma PromptHoldsQualitiesText(
    recipientName: string, relationship: string, qualities: seq<string>,
    context: Option<string>, tone: Option<string>, r: string, at: nat)
    requires r == CreatePrompt(recipientName, relationship, qualities, context, tone)
    requires at == PartAt(recipientName, relationship, qualities, context, tone, QualitiesPart)
    ensures OccursAt(r, Join(qualities, QualitySeparator), at)
  {
    PromptLayout(recipientName, relationship, qualities, context, tone, r, QualitiesPart);
  }

  /** Each quality appears in the prompt at its place in the qualities text,
      which starts at `at`. */
  lemma PromptHoldsQuality(
    recipientName: string, relationship: string, qualities: seq<string>,
    context: Option<string>, tone: Option<string>, r: string, at: nat, i: nat)
    requires r == CreatePrompt(recipientName, relationship, qualities, context, tone)
    requires at == PartAt(recipientName, relationship, qualities, context, tone, QualitiesPart)
    requires i < |qualities|
    ensures OccursAt(r, qualities[i], at + Offset(qualities, QualitySeparator, i))
  {
    PromptHoldsQualitiesText(recipientName, relationship, qualities, context, tone, r, at);
    QualityWithin(r, at, qualities, i);
  }

  /** A ", " follows every quality but the last. */
  lemma PromptSeparatesQualities(
    recipientName: string, relationship: string, qualities: seq<string>,
    context: Option<string>, tone: Option<string>, r: string, at: nat, i: nat)
    requires r == CreatePrompt(recipientName, relationship, qualities, context, tone)
    requires at == PartAt(recipientName, relationship, qualities, context, tone, QualitiesPart)
    requires i + 1 < |qualities|
    ensures OccursAt(r, QualitySeparator, at + Offset(qualities, QualitySeparator, i) + |qualities[i]|)
  {
    PromptHoldsQualitiesText(recipientName, relationship, qualities, context, tone, r, at);
    SeparatorWithin(r, at, qualities, i);
  }

  /** The qualities appear in the order given: a later quality starts after
      an earlier one and the ", " that follows it. */
  lemma PromptListsQualitiesInOrder(
    recipientName: string, relationship: string, qualities: seq<string>,
    context: Option<string>, tone: Option<string>, r: string, at: nat, i: nat, j: nat)
    requires r == CreatePrompt(recipientName, relationship, qualities, context, tone)
    requires at == PartAt(recipientName, relationship, qualities, context, tone, QualitiesPart)
    requires i < j < |qualities|
    ensures OccursAt(r, qualities[i], at + Offset(qualities, QualitySeparator, i))
    ensures OccursAt(r, qualities[j], at + Offset(qualities, QualitySeparator, j))
    ensures Offset(qualities, QualitySeparator, i) + |qualities[i]| + |QualitySeparator|
            <= Offset(qualities, QualitySeparator, j)
  {
    PromptHoldsQuality(recipientName, relationship, qualities, context, tone, r, at, i);
    PromptHoldsQuality(recipientName, relationship, qualities, context, tone, r, at, j);
    JoinKeepsOrder(qualities, QualitySeparator, i, j);
  }

  /** The tone phrase sits at its part of the prompt, which starts at `at`:
      "encouraging and uplifting" for the tone "encouraging", and so on. */
  lemma PromptCarriesTone(
    recipientName: string, relationship: string, qualities: seq<string>,
    context: Option<string>, tone: Option<string>, r: string, at: nat)
    requires r == CreatePrompt(recipientName, relationship, qualities, context, tone)
    requires at == PartAt(recipientName, relationship, qualities, context, tone, TonePart)
    ensures OccursAt(r, ToneGuidance(tone), at)
    ensures tone == Some("encouraging") ==> OccursAt(r, "encouraging and uplifting", at)
    ensures ResolvesToWarm(tone) ==> OccursAt(r, "warm and caring", at)
  {
    PromptLayout(recipientName, relationship, qualities, context, tone, r, TonePart);
  }

  /** A non-empty context appears verbatim after its label, so the prompt
      holds the words "Recent context". */
  lemma PromptShowsContext(
    recipientName: string, relationship: string, qualities: seq<string>,
    context: string, tone: Option<string>, r: string, at: nat)
    requires r == CreatePrompt(recipientName, relationship, qualities, Some(context), tone)
    requires at == PartAt(recipientName, relationship, qualities, Some(context), tone, ContextPart)
    requires context != ""
    ensures OccursAt(r, ContextLabel + context, at)
    ensures OccursAt(r, context, at + |ContextLabel|)
    ensures Contains(r, ContextMarker)
  {
    var section := ContextLabel + context;
    PromptLayout(recipientName, relationship, qualities, Some(context), tone, r, ContextPart);
    SectionHolds(context);
    OccursWithin(r, section, at, ContextMarker, 2);
    OccursWithin(r, section, at, context, |ContextLabel|);
  }

  /** The context section holds the words "Recent context" and then the
      context itself. */
  lemma SectionHolds(context: string)
    ensures OccursAt(ContextLabel + context, ContextMarker, 2)
    ensures OccursAt(ContextLabel + context, context, |ContextLabel|)
  {
    var section := ContextLabel + context;
    assert ContextLabel == "\n\n" + ContextMarker + ": ";
    assert section[2..2 + |ContextMarker|] == ContextMarker;
    assert section[|ContextLabel|..|ContextLabel| + |context|] == context;
  }

  /** A missing context and an empty one give the same prompt. */
  lemma EmptyContextIsNoContext(
    recipientName: string, relationship: string, qualities: seq<string>,
    tone: Option<string>)
    ensures CreatePrompt(recipientName, relationship, qualities, Some(""), tone)
         == CreatePrompt(recipientName, relationship, qualities, None, tone)
  {
  }

  /** The characters of "Recent context" the absence argument relies on. */
  lemma MarkerChars()
    ensures |ContextMarker| == 14 && ContextMarker[0] == 'R' && ContextMarker[13] == 't'
    ensures ',' !in ContextMarker && '.' !in ContextMarker && '\n' !in ContextMarker
    ensures 'd' !in ContextMarker
  {
  }

  /** No fixed text of the prompt, no separator and no tone phrase holds a
      capital R. */
  lemma OpeningTextWithoutR()
    ensures 'R' !in Opening && 'R' !in AfterName && 'R' !in AfterRelationship
  {
  }

  lemma ClosingTextWithoutR()
    ensures 'R' !in BeforeTone && 'R' !in Closing && 'R' !in QualitySeparator
  {
  }

  lemma AfterToneWithoutR()
    ensures 'R' !in AfterTone
  {
    SentencesWithoutR();
    AddressingWithoutR();
  }

  lemma SentencesWithoutR()
    ensures 'R' !in " and conversational." + " Keep it to 2-3 sentences."
  {
  }

  lemma AddressingWithoutR()
    ensures 'R' !in " Highlight their positive character traits" + " and impact."
    ensures 'R' !in " Start the compliment by addressing "
  {
  }

  lemma TonesWithoutR()
    ensures forall k :: k in ToneTable ==> 'R' !in ToneTable[k]
  {
  }

  /** Text joined from parts, peeled one part at a time. */
  lemma JoinPartsStep(parts: seq<string>, k: nat)
    requires k + 1 < |parts|
    ensures Join(parts[k..], "") == parts[k] + Join(parts[k + 1..], "")
  {
    assert parts[k..][1..] == parts[k + 1..];
  }

  /** Part `i` of a prompt is fixed text or a generated phrase, not caller
      input. */
  predicate IsFixedPart(i: nat)
  {
    i != NamePart && i != RelationshipPart && i != QualitiesPart && i != NameAgainPart
  }

  /** `s` opens with a character that `m` does not hold, so no occurrence of
      `m` can end inside text placed before `s`. */
  predicate OpensSafely(s: string, m: string)
  {
    |s| > 0 && s[0] !in m
  }

  /** One more part in front of a suffix of the parts free of `m`: a part
      without the first character of `m` ... */
  lemma FixedPartStep(p: seq<string>, k: nat, m: string)
    requires 0 < k < |p| && |m| > 0
    requires !Contains(Join(p[k..], ""), m) && m[0] !in p[k - 1]
    ensures !Contains(Join(p[k - 1..], ""), m)
    ensures OpensSafely(p[k - 1], m) ==> OpensSafely(Join(p[k - 1..], ""), m)
    ensures p[k - 1] == "" ==> Join(p[k - 1..], "") == Join(p[k..], "")
  {
    var rest := Join(p[k..], "");
    JoinPartsStep(p, k - 1);
    AbsentWithoutFirst(p[k - 1], m);
    NoStraddleAfterFree(p[k - 1], rest, m);
    AbsentFromConcat(p[k - 1], rest, m);
  }

  /** ... or a part free of `m` in front of a suffix that opens safely. */
  lemma InputPartStep(p: seq<string>, k: nat, m: string)
    requires 0 < k < |p| && |m| > 0
    requires !Contains(Join(p[k..], ""), m) && OpensSafely(Join(p[k..], ""), m)
    requires !Contains(p[k - 1], m)
    ensures !Contains(Join(p[k - 1..], ""), m)
  {
    var rest := Join(p[k..], "");
    JoinPartsStep(p, k - 1);
    NoStraddleAtOpening(p[k - 1], rest, m);
    AbsentFromConcat(p[k - 1], rest, m);
  }

  /** Parts laid out like a prompt without context, such that `m` occurs
      nowhere in them: no input holds it, no fixed text holds its first
      character, and the fixed text after each input keeps an occurrence from
      running on into it. */
  ghost predicate FreeLayout(parts: seq<string>, m: string)
  {
    && |parts| == ClosingPart + 1 && |m| > 0
    && parts[ContextPart] == ""
    && (forall i :: 0 <= i < |parts| && IsFixedPart(i) ==> m[0] !in parts[i])
    && OpensSafely(parts[2], m) && OpensSafely(parts[4], m) && OpensSafely(parts[7], m)
    && |parts[11]| >= 2 && parts[11][0] != m[|m| - 1] && parts[11][1] !in m
    && !Contains(parts[NamePart], m) && !Contains(parts[RelationshipPart], m)
    && !Contains(parts[QualitiesPart], m) && !Contains(parts[NameAgainPart], m)
  }

  /** Every suffix of such parts, from part `k` on, is free of `m`, and the
      suffixes that follow an input open safely. */
  lemma {:induction false} SuffixAbsent(p: seq<string>, m: string, k: nat)
    requires FreeLayout(p, m) && k <= NameAgainPart
    ensures !Contains(Join(p[k..], ""), m)
    ensures k == 2 || k == 4 || k == 6 || k == 7 ==> OpensSafely(Join(p[k..], ""), m)
    decreases NameAgainPart - k
  {
    if k == NameAgainPart {
      assert p[11..] == [p[11]];
      JoinPartsStep(p, 10);
      NoStraddleAtOpeningPair(p[10], p[11], m);
      AbsentWithoutFirst(p[11], m);
      AbsentFromConcat(p[10], p[11], m);
    } else {
      SuffixAbsent(p, m, k + 1);
      if IsFixedPart(k) {
        FixedPartStep(p, k + 1, m);
      } else {
        InputPartStep(p, k + 1, m);
      }
    }
  }

  /** Without a context the prompt never holds "Recent context", provided the
      caller did not put those words into the name, the relationship or a
      quality. */
  lemma NoContextNoMarker(
    recipientName: string, relationship: string, qualities: seq<string>,
    context: Option<string>, tone: Option<string>)
    requires context.None? || context.value == ""
    requires !Contains(recipientName, ContextMarker) && !Contains(relationship, ContextMarker)
    requires forall i :: 0 <= i < |qualities| ==> !Contains(qualities[i], ContextMarker)
    ensures !Contains(CreatePrompt(recipientName, relationship, qualities, context, tone),
                      ContextMarker)
  {
    MarkerChars();
    OpeningTextWithoutR();
    ClosingTextWithoutR();
    AfterToneWithoutR();
    TonesWithoutR();
    JoinAbsent(qualities, QualitySeparator, ContextMarker);
    var parts := PromptParts(recipientName, relationship, qualities, context, tone);
    assert FreeLayout(parts, ContextMarker);
    SuffixAbsent(parts, ContextMarker, 0);
    assert parts[0..] == parts;
  }

  /** With caller text free of the words "Recent context", they appear in the
      prompt exactly when a non-empty context was given. */
  lemma MarkerIffContext(
    recipientName: string, relationship: string, qualities: seq<string>,
    context: Option<string>, tone: Option<string>)
    requires !Contains(recipientName, ContextMarker) && !Contains(relationship, ContextMarker)
    requires forall i :: 0 <= i < |qualities| ==> !Contains(qualities[i], ContextMarker)
    ensures Contains(CreatePrompt(recipientName, relationship, qualities, context, tone),
                     ContextMarker)
        <==> context.Some? && context.value != ""
  {
    var r := CreatePrompt(recipientName, relationship, qualities, context, tone);
    if context.Some? && context.value != "" {
      var at := PartAt(recipientName, relationship, qualities, context, tone, ContextPart);
      PromptShowsContext(recipientName, relationship, qualities, context.value, tone, r, at);
    } else {
      NoContextNoMarker(recipientName, relationship, qualities, context, tone);
    }
  }

  /** The prompt for an unknown tone, or for none, is the prompt for "warm";
      and only those tones give it. */
  lemma PromptToneFallback(
    recipientName: string, relationship: string, qualities: seq<string>,
    context: Option<string>, tone: Option<string>)
    ensures CreatePrompt(recipientName, relationship, qualities, context, tone)
         == CreatePrompt(recipientName, relationship, qualities, context, Some("warm"))
        <==> ResolvesToWarm(tone)
  {
    var g := ToneGuidance(tone);
    var w := ToneGuidance(Some("warm"));
    assert w == DefaultToneGuidance;
    if !ResolvesToWarm(tone) {
      var parts := PromptParts(recipientName, relationship, qualities, context, tone);
      var warm := PromptParts(recipientName, relationship, qualities, context, Some("warm"));
      assert warm == parts[TonePart := w];
      assert |g| != |w|;
      JoinLengthUpdate(parts, "", TonePart, w);
    }
  }

  /** A request that leaves the tone out is prompted like one whose tone is
      `None`: both resolve to "warm and caring". */
  lemma DefaultToneMatchesNoTone(request: ComplimentRequest)
    requires request.tone == DefaultTone
    ensures PromptForRequest(request) == PromptForRequest(request.(tone := None))
  {
    PromptToneFallback(request.recipientName, request.relationship, request.qualities,
                       request.context, None);
  }
}
