/**
 * Stripping sender-key distributions through nested sent transcripts: it
 * commutes with the wrapping at every depth, changes nothing else, and leaves
 * a distribution only where one was beside a transcript that carried another.
 */
module DistributionStripping {
  import opened Options
  import opened JsonText
  import opened ContentAdapter
  import opened ContentLaws
  import opened GroupContextRoundTrip

  // --- What a text carries --------------------------------------------------------------

  /** The text inside the transcript that a text is. */
  function InnerOf(c: Codec, plaintext: string): (inner: Option<string>)
    requires Lawful(c)
    ensures inner.Some? ==> ParseJsonObject(c, plaintext).Some? && |inner.value| < |plaintext|
  {
    match ParseJsonObject(c, plaintext)
    case None => None
    case Some(payload) =>
      if InnerText(c, payload).Some? then
        InnerTextIsShorter(c, plaintext);
        InnerText(c, payload)
      else None
  }

  predicate HasDistribution(c: Codec, plaintext: string) {
    ParseJsonObject(c, plaintext).Some? && Has(ParseJsonObject(c, plaintext).value, SENDER_KEY_DISTRIBUTION)
  }

  /** A distribution at the top, or at any level of the nested transcripts. */
  predicate CarriesDistribution(c: Codec, plaintext: string)
    requires Lawful(c)
    decreases |plaintext|
  {
    || HasDistribution(c, plaintext)
    || (InnerOf(c, plaintext).Some? && CarriesDistribution(c, InnerOf(c, plaintext).value))
  }

  /** The outermost distribution is beside a transcript that carries another one. */
  predicate HidesDistribution(c: Codec, plaintext: string)
    requires Lawful(c)
    decreases |plaintext|
  {
    && InnerOf(c, plaintext).Some?
    && (if HasDistribution(c, plaintext) then CarriesDistribution(c, InnerOf(c, plaintext).value)
        else HidesDistribution(c, InnerOf(c, plaintext).value))
  }

  // --- One step of the stripping -----------------------------------------------------------

  /** The text is the printed form of an object. */
  ghost predicate Printed(c: Codec, text: string) {
    exists members: seq<Member> :: WellFormed(Obj(members)) && text == c.stringify(Obj(members))
  }

  lemma PrintedMembers(c: Codec, members: seq<Member>)
    requires Lawful(c) && WellFormed(Obj(members))
    ensures var text := c.stringify(Obj(members));
            && Printed(c, text)
            && ParseJsonObject(c, text) == Some(members)
            && InnerOf(c, text) == InnerText(c, members)
            && (HasDistribution(c, text) <==> Has(members, SENDER_KEY_DISTRIBUTION))
  {
    PrintedTextReadsBack(c, members);
  }

  lemma PrintedRoundTrips(c: Codec, text: string)
    requires Lawful(c) && Printed(c, text)
    ensures RoundTrips(c, text)
  {
  }

  /** A text with no distribution at its top is stripped through its inner text. */
  lemma StripsInside(c: Codec, plaintext: string)
    requires Lawful(c) && !HasDistribution(c, plaintext)
    ensures WithoutSenderKeyDistribution(c, plaintext) ==
            match InnerOf(c, plaintext)
            case None => Some(plaintext)
            case Some(inner) =>
              (match WithoutSenderKeyDistribution(c, inner)
               case None => None
               case Some(kept) =>
                 if kept == inner then Some(plaintext)
                 else Some(c.stringify(Obj(Rewrapped(c, ParseJsonObject(c, plaintext).value, c.encode(kept))))))
  {
  }

  /** Removing a key from a payload with a transcript keeps the transcript. */
  lemma WithoutDistributionKeepsInnerText(c: Codec, payload: seq<Member>)
    ensures InnerText(c, Without(payload, SENDER_KEY_DISTRIBUTION)) == InnerText(c, payload)
  {
    ContextKeys();
    GetWithout(payload, SENDER_KEY_DISTRIBUTION, "syncMessage");
  }

  lemma RewrappedSync(sync: seq<Member>, text: string)
    requires WellFormed(Obj(sync)) && Get(sync, "sent").Some? && Get(sync, "sent").value.Obj?
    requires Get(Get(sync, "sent").value.members, "serializedContent").Some?
    ensures var sent := With(Get(sync, "sent").value.members, "serializedContent", Str(text));
            var more := With(sync, "sent", Obj(sent));
            && WellFormed(Obj(more))
            && Get(more, "type") == Get(sync, "type")
            && Get(more, "sent") == Some(Obj(sent))
            && Get(sent, "serializedContent") == Some(Str(text))
  {
    SyncKinds();
    MembersAreWellFormed(sync, "sent");
    var sent := Get(sync, "sent").value.members;
    SetMember(sent, "serializedContent", Str(text), "serializedContent");
    SetMember(sync, "sent", Obj(With(sent, "serializedContent", Str(text))), "type");
  }

  /** Rewrapping replaces the inner content and nothing else that stripping looks at. */
  lemma RewrappedParts(c: Codec, payload: seq<Member>, content: Bytes)
    requires WellFormed(Obj(payload)) && SentTranscriptOf(payload).Some?
    ensures var more := Rewrapped(c, payload, content);
            && WellFormed(Obj(more))
            && InnerText(c, more) == DecodedContent(c, c.toBase64(content))
            && Get(more, SENDER_KEY_DISTRIBUTION) == Get(payload, SENDER_KEY_DISTRIBUTION)
  {
    var text := c.toBase64(content);
    var sync := Get(payload, "syncMessage").value.members;
    var sent := With(Get(sync, "sent").value.members, "serializedContent", Str(text));
    MembersAreWellFormed(payload, "syncMessage");
    RewrappedSync(sync, text);
    SyncKinds();
    SetMember(payload, "syncMessage", Obj(With(sync, "sent", Obj(sent))), SENDER_KEY_DISTRIBUTION);
  }

  lemma SyncKinds()
    ensures "type" != "sent" && "syncMessage" != SENDER_KEY_DISTRIBUTION
  {
    assert "type"[0] == 't' && "sent"[0] == 's';
    ContextKeys();
  }

  lemma MembersAreWellFormed(members: seq<Member>, key: string)
    requires WellFormed(Obj(members)) && Get(members, key).Some?
    ensures WellFormed(Get(members, key).value)
  {
    var member := Member(key, Get(members, key).value);
    var i :| 0 <= i < |members| && members[i] == member;
  }

  lemma SetMember(members: seq<Member>, key: string, json: Json, other: string)
    requires WellFormed(Obj(members)) && WellFormed(json) && Has(members, key)
    ensures WellFormed(Obj(With(members, key, json)))
    ensures Get(With(members, key, json), key) == Some(json)
    ensures other != key ==> Get(With(members, key, json), other) == Get(members, other)
  {
    WithOrdered(members, key, json);
    GetWith(members, key, json, key);
    GetWith(members, key, json, other);
  }

  // --- Stripping is the identity exactly on texts that carry no distribution ------------------

  lemma ParsedIsWellFormed(c: Codec, plaintext: string)
    requires ParserLaws(c) && ParseJsonObject(c, plaintext).Some?
    ensures WellFormed(Obj(ParseJsonObject(c, plaintext).value))
  {
  }

  /** The rewrapped text holds the kept text, and a distribution exactly when the text did. */
  lemma RewrappedText(c: Codec, plaintext: string, kept: string)
    requires Lawful(c) && RoundTrips(c, kept) && InnerOf(c, plaintext).Some?
    ensures var text := c.stringify(Obj(Rewrapped(c, ParseJsonObject(c, plaintext).value, c.encode(kept))));
            && Printed(c, text)
            && InnerOf(c, text) == Some(kept)
            && (HasDistribution(c, text) <==> HasDistribution(c, plaintext))
  {
    var payload := ParseJsonObject(c, plaintext).value;
    ParsedIsWellFormed(c, plaintext);
    RewrappedParts(c, payload, c.encode(kept));
    PrintedMembers(c, Rewrapped(c, payload, c.encode(kept)));
    TextContentDecodes(c, kept);
  }

  /** The text with its top distribution removed holds the same inner text. */
  lemma RemovedText(c: Codec, plaintext: string)
    requires Lawful(c) && HasDistribution(c, plaintext)
    ensures var text := c.stringify(Obj(Without(ParseJsonObject(c, plaintext).value, SENDER_KEY_DISTRIBUTION)));
            && Printed(c, text)
            && InnerOf(c, text) == InnerOf(c, plaintext)
            && !HasDistribution(c, text)
  {
    var payload := ParseJsonObject(c, plaintext).value;
    ParsedIsWellFormed(c, plaintext);
    RemovedMembers(c, payload);
    PrintedMembers(c, Without(payload, SENDER_KEY_DISTRIBUTION));
  }

  lemma RemovedMembers(c: Codec, payload: seq<Member>)
    requires WellFormed(Obj(payload))
    ensures var content := Without(payload, SENDER_KEY_DISTRIBUTION);
            && WellFormed(Obj(content))
            && !Has(content, SENDER_KEY_DISTRIBUTION)
            && InnerText(c, content) == InnerText(c, payload)
  {
    WithoutOrdered(payload, SENDER_KEY_DISTRIBUTION);
    WithoutMembers(payload, SENDER_KEY_DISTRIBUTION);
    WithoutDistributionKeepsInnerText(c, payload);
  }

  /** Stripping changes a text exactly when it carries a distribution, and changed text is printed. */
  lemma {:induction false} StrippingChangesOnlyCarriers(c: Codec, plaintext: string)
    requires Lawful(c)
    ensures WithoutSenderKeyDistribution(c, plaintext) == Some(plaintext) <==> !CarriesDistribution(c, plaintext)
    ensures var kept := WithoutSenderKeyDistribution(c, plaintext);
            kept.Some? && kept.value != plaintext ==> Printed(c, kept.value)
    decreases |plaintext|
  {
    if HasDistribution(c, plaintext) {
      RemovedIsChanged(c, plaintext);
    } else {
      StripsInside(c, plaintext);
      if InnerOf(c, plaintext).Some? {
        StrippingChangesOnlyCarriers(c, InnerOf(c, plaintext).value);
        ChangedInsideIsChanged(c, plaintext);
      }
    }
  }

  lemma RemovedIsChanged(c: Codec, plaintext: string)
    requires Lawful(c) && HasDistribution(c, plaintext)
    ensures var kept := WithoutSenderKeyDistribution(c, plaintext);
            kept.Some? ==> kept.value != plaintext && Printed(c, kept.value)
  {
    RemovedText(c, plaintext);
  }

  lemma ChangedInsideIsChanged(c: Codec, plaintext: string)
    requires Lawful(c) && !HasDistribution(c, plaintext) && InnerOf(c, plaintext).Some?
    requires var inner := InnerOf(c, plaintext).value;
             var kept := WithoutSenderKeyDistribution(c, inner);
             kept.Some? && kept.value != inner ==> Printed(c, kept.value)
    ensures var inner := InnerOf(c, plaintext).value;
            WithoutSenderKeyDistribution(c, plaintext) == Some(plaintext) <==>
            WithoutSenderKeyDistribution(c, inner) == Some(inner)
    ensures var kept := WithoutSenderKeyDistribution(c, plaintext);
            kept.Some? && kept.value != plaintext ==> Printed(c, kept.value)
  {
    var inner := InnerOf(c, plaintext).value;
    var kept := WithoutSenderKeyDistribution(c, inner);
    StripsInside(c, plaintext);
    if kept.Some? && kept.value != inner {
      PrintedRoundTrips(c, kept.value);
      RewrappedText(c, plaintext, kept.value);
    }
  }

  /**
   * What is kept carries a distribution exactly when the outermost distribution
   * of the text was beside a transcript that carried another one: the code does
   * not look inside a transcript after it removed a distribution beside it.
   */
  lemma {:induction false} KeptTextCarriesOnlyHidden(c: Codec, plaintext: string)
    requires Lawful(c) && WithoutSenderKeyDistribution(c, plaintext).Some?
    ensures CarriesDistribution(c, WithoutSenderKeyDistribution(c, plaintext).value)
            <==> HidesDistribution(c, plaintext)
    decreases |plaintext|
  {
    if HasDistribution(c, plaintext) {
      RemovedText(c, plaintext);
    } else {
      StripsInside(c, plaintext);
      if InnerOf(c, plaintext).Some? {
        KeptTextCarriesOnlyHidden(c, InnerOf(c, plaintext).value);
        KeptCarriesAsInside(c, plaintext);
      }
    }
  }

  lemma KeptCarriesAsInside(c: Codec, plaintext: string)
    requires Lawful(c) && !HasDistribution(c, plaintext) && InnerOf(c, plaintext).Some?
    requires WithoutSenderKeyDistribution(c, InnerOf(c, plaintext).value).Some?
    ensures WithoutSenderKeyDistribution(c, plaintext).Some?
    ensures CarriesDistribution(c, WithoutSenderKeyDistribution(c, plaintext).value)
            <==> CarriesDistribution(c, WithoutSenderKeyDistribution(c, InnerOf(c, plaintext).value).value)
  {
    var inner := InnerOf(c, plaintext).value;
    var kept := WithoutSenderKeyDistribution(c, inner).value;
    StripsInside(c, plaintext);
    if kept != inner {
      StrippingChangesOnlyCarriers(c, inner);
      PrintedRoundTrips(c, kept);
      RewrappedText(c, plaintext, kept);
    }
  }

  // --- What stripping keeps ------------------------------------------------------------------

  /** Every member is the distribution. */
  predicate HoldsNothingElse(members: seq<Member>) {
    forall i :: 0 <= i < |members| ==> members[i].key == SENDER_KEY_DISTRIBUTION
  }

  /** The outermost level with a distribution holds nothing else. */
  predicate IsOnlyDistribution(c: Codec, plaintext: string)
    requires Lawful(c)
    decreases |plaintext|
  {
    if HasDistribution(c, plaintext) then HoldsNothingElse(ParseJsonObject(c, plaintext).value)
    else InnerOf(c, plaintext).Some? && IsOnlyDistribution(c, InnerOf(c, plaintext).value)
  }

  /**
   * What stripping keeps of a text: a text with no distribution stays as it is, the
   * outermost level with a distribution keeps exactly its other members, and a
   * transcript around that level changes just its content.
   */
  ghost predicate IsStripped(c: Codec, before: string, after: string)
    requires Lawful(c)
    decreases |before|
  {
    if !CarriesDistribution(c, before) then after == before
    else
      && ParseJsonObject(c, after).Some?
      && var payload, kept := ParseJsonObject(c, before).value, ParseJsonObject(c, after).value;
         if HasDistribution(c, before) then IsRest(payload, SENDER_KEY_DISTRIBUTION, kept)
         else exists text :: SameButContent(c, payload, kept, c.encode(text))
                             && IsStripped(c, InnerOf(c, before).value, text)
  }

  lemma NothingElseIff(members: seq<Member>)
    ensures Without(members, SENDER_KEY_DISTRIBUTION) == [] <==> HoldsNothingElse(members)
  {
    WithoutMembers(members, SENDER_KEY_DISTRIBUTION);
    var rest := Without(members, SENDER_KEY_DISTRIBUTION);
    if rest == [] {
      forall i | 0 <= i < |members| ensures members[i].key == SENDER_KEY_DISTRIBUTION {
        assert members[i] in members;
      }
    } else {
      assert rest[0] in rest;
    }
  }

  /** Nothing is kept if and only if the outermost level with a distribution holds nothing else. */
  lemma {:induction false} NothingIsKeptIff(c: Codec, plaintext: string)
    requires Lawful(c)
    ensures WithoutSenderKeyDistribution(c, plaintext) == None <==> IsOnlyDistribution(c, plaintext)
    decreases |plaintext|
  {
    if HasDistribution(c, plaintext) {
      NothingElseIff(ParseJsonObject(c, plaintext).value);
    } else {
      StripsInside(c, plaintext);
      if InnerOf(c, plaintext).Some? {
        NothingIsKeptIff(c, InnerOf(c, plaintext).value);
      }
    }
  }

  lemma TopIsStripped(c: Codec, plaintext: string)
    requires Lawful(c) && HasDistribution(c, plaintext) && WithoutSenderKeyDistribution(c, plaintext).Some?
    ensures IsStripped(c, plaintext, WithoutSenderKeyDistribution(c, plaintext).value)
  {
    var payload := ParseJsonObject(c, plaintext).value;
    ParsedIsWellFormed(c, plaintext);
    RemovedMembers(c, payload);
    PrintedMembers(c, Without(payload, SENDER_KEY_DISTRIBUTION));
    WithoutIsTheRest(payload, SENDER_KEY_DISTRIBUTION, Without(payload, SENDER_KEY_DISTRIBUTION));
  }

  lemma InsideIsStripped(c: Codec, plaintext: string, kept: string)
    requires Lawful(c) && !HasDistribution(c, plaintext) && CarriesDistribution(c, plaintext)
    requires WithoutSenderKeyDistribution(c, InnerOf(c, plaintext).value) == Some(kept)
    requires IsStripped(c, InnerOf(c, plaintext).value, kept) && kept != InnerOf(c, plaintext).value
    ensures WithoutSenderKeyDistribution(c, plaintext).Some?
    ensures IsStripped(c, plaintext, WithoutSenderKeyDistribution(c, plaintext).value)
  {
    var payload := ParseJsonObject(c, plaintext).value;
    StripsInside(c, plaintext);
    ParsedIsWellFormed(c, plaintext);
    RewrappingReplacesTheContent(c, payload, c.encode(kept));
    RewrappedParts(c, payload, c.encode(kept));
    PrintedMembers(c, Rewrapped(c, payload, c.encode(kept)));
  }

  /** What is kept of any text, at every depth of nested transcripts. */
  lemma {:induction false} KeptTextIsStripped(c: Codec, plaintext: string)
    requires Lawful(c) && WithoutSenderKeyDistribution(c, plaintext).Some?
    ensures IsStripped(c, plaintext, WithoutSenderKeyDistribution(c, plaintext).value)
    decreases |plaintext|
  {
    StrippingChangesOnlyCarriers(c, plaintext);
    if HasDistribution(c, plaintext) {
      TopIsStripped(c, plaintext);
    } else if CarriesDistribution(c, plaintext) {
      var inner := InnerOf(c, plaintext).value;
      StripsInside(c, plaintext);
      StrippingChangesOnlyCarriers(c, inner);
      KeptTextIsStripped(c, inner);
      InsideIsStripped(c, plaintext, WithoutSenderKeyDistribution(c, inner).value);
    }
  }

  // --- Stripping commutes with wrapping ---------------------------------------------------------

  /** A sent transcript of a text. */
  function Wrap(c: Codec, transcript: Transcript, text: string): string {
    TranscriptText(c, transcript, c.encode(text))
  }

  lemma WrapParts(c: Codec, transcript: Transcript, text: string, other: string)
    requires Lawful(c) && RoundTrips(c, text)
    ensures var wrapped := Wrap(c, transcript, text);
            && RoundTrips(c, wrapped)
            && InnerOf(c, wrapped) == Some(text)
            && !HasDistribution(c, wrapped)
            && c.stringify(Obj(Rewrapped(c, ParseJsonObject(c, wrapped).value, c.encode(other))))
               == Wrap(c, transcript, other)
  {
    TranscriptReadsBack(c, transcript, c.encode(text));
    TranscriptOfText(c, transcript, text);
    TranscriptParts(c, transcript, c.encode(text), c.encode(other));
  }

  /** A text wrapped in transcripts, the first one outermost. */
  function WrapAll(c: Codec, transcripts: seq<Transcript>, text: string): string {
    if transcripts == [] then text else Wrap(c, transcripts[0], WrapAll(c, transcripts[1..], text))
  }

  /** What stripping kept, wrapped. Nothing is wrapped when it kept nothing. */
  function WrapKept(c: Codec, transcripts: seq<Transcript>, kept: Option<string>): Option<string> {
    if kept.Some? then Some(WrapAll(c, transcripts, kept.value)) else None
  }

  /** Stripping a transcript is stripping its text and wrapping what is kept. */
  lemma StrippingCommutesWithWrapping(c: Codec, transcript: Transcript, text: string)
    requires Lawful(c) && RoundTrips(c, text)
    ensures WithoutSenderKeyDistribution(c, Wrap(c, transcript, text))
            == WrapKept(c, [transcript], WithoutSenderKeyDistribution(c, text))
  {
    var kept := WithoutSenderKeyDistribution(c, text);
    WrapParts(c, transcript, text, if kept.Some? then kept.value else text);
    if kept.Some? {
      StripsInsideTo(c, Wrap(c, transcript, text), kept.value, Wrap(c, transcript, kept.value));
      WrapOne(c, transcript, kept.value);
    } else {
      StripsInside(c, Wrap(c, transcript, text));
    }
  }

  lemma StripsInsideTo(c: Codec, plaintext: string, kept: string, after: string)
    requires Lawful(c) && !HasDistribution(c, plaintext) && InnerOf(c, plaintext).Some?
    requires WithoutSenderKeyDistribution(c, InnerOf(c, plaintext).value) == Some(kept)
    requires if kept == InnerOf(c, plaintext).value then after == plaintext
             else after == c.stringify(Obj(Rewrapped(c, ParseJsonObject(c, plaintext).value, c.encode(kept))))
    ensures WithoutSenderKeyDistribution(c, plaintext) == Some(after)
  {
    StripsInside(c, plaintext);
  }

  lemma WrapOne(c: Codec, transcript: Transcript, text: string)
    ensures WrapAll(c, [transcript], text) == Wrap(c, transcript, text)
  {
    assert [transcript][1..] == [];
  }

  lemma {:induction false} WrapAllRoundTrips(c: Codec, transcripts: seq<Transcript>, text: string)
    requires Lawful(c) && RoundTrips(c, text)
    ensures RoundTrips(c, WrapAll(c, transcripts, text))
  {
    if transcripts != [] {
      WrapAllRoundTrips(c, transcripts[1..], text);
      WrapParts(c, transcripts[0], WrapAll(c, transcripts[1..], text), text);
    }
  }

  /** Stripping commutes with wrapping at every nesting depth. */
  lemma {:induction false} StrippingCommutesAtEveryDepth(c: Codec, transcripts: seq<Transcript>, text: string)
    requires Lawful(c) && RoundTrips(c, text)
    ensures WithoutSenderKeyDistribution(c, WrapAll(c, transcripts, text))
            == WrapKept(c, transcripts, WithoutSenderKeyDistribution(c, text))
  {
    if transcripts != [] {
      var kept := WithoutSenderKeyDistribution(c, text);
      WrapAllRoundTrips(c, transcripts[1..], text);
      StrippingCommutesAtEveryDepth(c, transcripts[1..], text);
      StrippingCommutesWithWrapping(c, transcripts[0], WrapAll(c, transcripts[1..], text));
      WrapOutside(c, transcripts, kept);
    }
  }

  lemma WrapOutside(c: Codec, transcripts: seq<Transcript>, kept: Option<string>)
    requires transcripts != []
    ensures WrapKept(c, [transcripts[0]], WrapKept(c, transcripts[1..], kept)) == WrapKept(c, transcripts, kept)
  {
    if kept.Some? {
      WrapOne(c, transcripts[0], WrapAll(c, transcripts[1..], kept.value));
    }
  }

  lemma BytesInATranscript(c: Codec, transcript: Transcript, content: Bytes, other: Bytes)
    requires Lawful(c)
    ensures var text := TranscriptText(c, transcript, content);
            && ParseJsonObject(c, text) == Some(TranscriptMembers(c, transcript, content))
            && InnerOf(c, text) == c.decodeFatal(content)
            && !HasDistribution(c, text)
            && SentTranscriptOf(TranscriptMembers(c, transcript, content)).Some?
            && Rewrapped(c, TranscriptMembers(c, transcript, content), other)
               == TranscriptMembers(c, transcript, other)
  {
    TranscriptReadsBack(c, transcript, content);
    TranscriptParts(c, transcript, content, other);
  }

  /**
   * The transcript of any bytes: bytes that are no text stay as they are, and a
   * text that does not encode to the same bytes is only rewritten when it changes.
   */
  lemma StrippingATranscriptOfBytes(c: Codec, transcript: Transcript, content: Bytes)
    requires Lawful(c)
    ensures var wrapped := TranscriptText(c, transcript, content);
            WithoutSenderKeyDistribution(c, wrapped) ==
            match c.decodeFatal(content)
            case None => Some(wrapped)
            case Some(text) =>
              if !CarriesDistribution(c, text) then Some(wrapped)
              else match WithoutSenderKeyDistribution(c, text)
                   case None => None
                   case Some(kept) => Some(Wrap(c, transcript, kept))
  {
    var text := c.decodeFatal(content);
    BytesInATranscript(c, transcript, content, content);
    StripsInside(c, TranscriptText(c, transcript, content));
    if text.Some? {
      StrippingChangesOnlyCarriers(c, text.value);
      var kept := WithoutSenderKeyDistribution(c, text.value);
      BytesInATranscript(c, transcript, content, if kept.Some? then c.encode(kept.value) else content);
    }
  }

  // --- A distribution that stays ------------------------------------------------------------------

  /** The members of a transcript with a distribution beside it. */
  function TranscriptWithDistribution(c: Codec, transcript: Transcript, text: string): seq<Member> {
    TranscriptMembers(c, transcript, c.encode(text)) + [Member(SENDER_KEY_DISTRIBUTION, Str(""))]
  }

  lemma TranscriptWithDistributionParts(c: Codec, transcript: Transcript, text: string)
    requires Lawful(c) && RoundTrips(c, text)
    ensures var members := TranscriptWithDistribution(c, transcript, text);
            && WellFormed(Obj(members)) && Has(members, SENDER_KEY_DISTRIBUTION)
            && Without(members, SENDER_KEY_DISTRIBUTION) == TranscriptMembers(c, transcript, c.encode(text))
            && InnerText(c, members) == Some(text)
  {
    var payload := TranscriptMembers(c, transcript, c.encode(text));
    TranscriptParts(c, transcript, c.encode(text), c.encode(text));
    NotAnIndex(SENDER_KEY_DISTRIBUTION);
    AppendedOrdered(payload, SENDER_KEY_DISTRIBUTION, Str(""));
    GetAppended(payload, SENDER_KEY_DISTRIBUTION, Str(""), SENDER_KEY_DISTRIBUTION);
    WithoutAppended(payload, SENDER_KEY_DISTRIBUTION, Str(""));
    WithoutDistributionKeepsInnerText(c, TranscriptWithDistribution(c, transcript, text));
    TranscriptOfText(c, transcript, text);
  }

  /** A distribution beside the transcript of a carrier is removed, and the one inside stays. */
  lemma DistributionInsideStays(c: Codec, transcript: Transcript, text: string)
    requires Lawful(c) && RoundTrips(c, text) && CarriesDistribution(c, text)
    ensures var plaintext := c.stringify(Obj(TranscriptWithDistribution(c, transcript, text)));
            && WithoutSenderKeyDistribution(c, plaintext) == Some(Wrap(c, transcript, text))
            && CarriesDistribution(c, Wrap(c, transcript, text))
  {
    TranscriptWithDistributionParts(c, transcript, text);
    PrintedTextReadsBack(c, TranscriptWithDistribution(c, transcript, text));
    WrapParts(c, transcript, text, text);
  }
}
