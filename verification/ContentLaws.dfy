/**
 * What each function of the content adapter does to any text, told by the
 * members of the objects: where a transcript holds its content, what a context
 * is, where a context goes in, and what is left when it comes out.
 */
module ContentLaws {
  import opened Options
  import opened JsonText
  import opened ContentAdapter
  import opened GroupContextRoundTrip

  // --- The content inside a transcript ----------------------------------------------------

  /** The payload is a sent transcript whose content is the base64 of the UTF-8 of a text. */
  ghost predicate HoldsInside(c: Codec, payload: seq<Member>, inner: string) {
    exists sync, sent, content :: HoldsContent(c, payload, sync, sent, content, inner)
  }

  ghost predicate HoldsContent(
      c: Codec, payload: seq<Member>, sync: seq<Member>, sent: seq<Member>, content: string, inner: string)
  {
    && Member("syncMessage", Obj(sync)) in payload
    && Member("type", Str("sent")) in sync && Member("sent", Obj(sent)) in sync
    && Member("serializedContent", Str(content)) in sent
    && c.fromBase64(content).Some? && c.decodeFatal(c.fromBase64(content).value) == Some(inner)
  }

  lemma MemberIsOrdered(members: seq<Member>, key: string, inside: seq<Member>)
    requires WellFormed(Obj(members)) && Member(key, Obj(inside)) in members
    ensures WellFormed(Obj(inside)) && Get(members, key) == Some(Obj(inside))
  {
    GetIff(members, key, Obj(inside));
  }

  lemma MemberIsWellFormed(members: seq<Member>, key: string)
    requires WellFormed(Obj(members)) && Has(members, key)
    ensures WellFormed(Get(members, key).value)
  {
    var json := Get(members, key).value;
    GetIff(members, key, json);
    var i :| 0 <= i < |members| && members[i] == Member(key, json);
  }

  lemma HeldContentIsInner(
      c: Codec, payload: seq<Member>, sync: seq<Member>, sent: seq<Member>, content: string, inner: string)
    requires WellFormed(Obj(payload)) && HoldsContent(c, payload, sync, sent, content, inner)
    ensures InnerText(c, payload) == Some(inner)
  {
    MemberIsOrdered(payload, "syncMessage", sync);
    MemberIsOrdered(sync, "sent", sent);
    GetIff(sync, "type", Str("sent"));
    GetIff(sent, "serializedContent", Str(content));
    assert SentTranscriptOf(payload) == Some(sent);
  }

  /** A payload has an inner text if and only if it is a sent transcript that holds the text. */
  lemma InnerTextIff(c: Codec, payload: seq<Member>, inner: string)
    requires WellFormed(Obj(payload))
    ensures InnerText(c, payload) == Some(inner) <==> HoldsInside(c, payload, inner)
  {
    if HoldsInside(c, payload, inner) {
      var sync, sent, content :| HoldsContent(c, payload, sync, sent, content, inner);
      HeldContentIsInner(c, payload, sync, sent, content, inner);
    }
    if InnerText(c, payload) == Some(inner) {
      var sync := Get(payload, "syncMessage").value.members;
      var sent := Get(sync, "sent").value.members;
      assert HoldsContent(c, payload, sync, sent, Get(sent, "serializedContent").value.text, inner);
    }
  }

  /** The same transcript with another content: nothing but the serialized content changes. */
  ghost predicate SameButContent(c: Codec, before: seq<Member>, after: seq<Member>, content: Bytes) {
    && SameBut(before, after, "syncMessage")
    && exists sync, sent, sync', sent' :: ReplacesContent(c, before, after, sync, sent, sync', sent', content)
  }

  ghost predicate ReplacesContent(
      c: Codec, before: seq<Member>, after: seq<Member>, sync: seq<Member>, sent: seq<Member>,
      sync': seq<Member>, sent': seq<Member>, content: Bytes)
  {
    && Member("syncMessage", Obj(sync)) in before && Member("syncMessage", Obj(sync')) in after
    && SameBut(sync, sync', "sent")
    && Member("sent", Obj(sent)) in sync && Member("sent", Obj(sent')) in sync'
    && SameBut(sent, sent', "serializedContent")
    && Member("serializedContent", Str(c.toBase64(content))) in sent'
  }

  lemma RewrappingReplacesTheContent(c: Codec, payload: seq<Member>, content: Bytes)
    requires SentTranscriptOf(payload).Some?
    ensures SameButContent(c, payload, Rewrapped(c, payload, content), content)
  {
    var sync := Get(payload, "syncMessage").value.members;
    var sent := Get(sync, "sent").value.members;
    var sent' := With(sent, "serializedContent", Str(c.toBase64(content)));
    var sync' := With(sync, "sent", Obj(sent'));
    WithIsSameBut(sent, "serializedContent", Str(c.toBase64(content)));
    WithIsSameBut(sync, "sent", Obj(sent'));
    WithIsSameBut(payload, "syncMessage", Obj(sync'));
    assert ReplacesContent(c, payload, Rewrapped(c, payload, content), sync, sent, sync', sent', content);
  }

  lemma RewrappedIsWellFormed(c: Codec, payload: seq<Member>, content: Bytes)
    requires WellFormed(Obj(payload)) && SentTranscriptOf(payload).Some?
    ensures WellFormed(Obj(Rewrapped(c, payload, content)))
  {
    var sync := Get(payload, "syncMessage").value.members;
    var sent := Get(sync, "sent").value.members;
    MemberIsOrdered(payload, "syncMessage", sync);
    MemberIsOrdered(sync, "sent", sent);
    var sent' := With(sent, "serializedContent", Str(c.toBase64(content)));
    WithOrdered(sent, "serializedContent", Str(c.toBase64(content)));
    WithOrdered(sync, "sent", Obj(sent'));
    WithOrdered(payload, "syncMessage", Obj(With(sync, "sent", Obj(sent'))));
  }

  // --- The text of bytes ---------------------------------------------------------------------

  /** The lossless text of bytes tells the bytes: it is their UTF-8 text, or else their base64. */
  lemma LosslessTextTellsTheBytes(c: Codec, bytes: Bytes)
    requires Base64Laws(c)
    ensures var text := LosslessText(c, bytes);
            && (c.encode(c.decode(bytes)) == bytes ==> text == c.decode(bytes) && c.encode(text) == bytes)
            && (c.encode(c.decode(bytes)) != bytes ==> c.fromBase64(text) == Some(bytes))
  {
  }

  // --- What a context is ------------------------------------------------------------------------

  /** The member of the key is the base64 text of bytes. */
  ghost predicate HasBase64(c: Codec, members: seq<Member>, key: string, bytes: Bytes) {
    exists text :: Member(key, Str(text)) in members && c.fromBase64(text) == Some(bytes)
  }

  lemma HasBase64Iff(c: Codec, members: seq<Member>, key: string, bytes: Bytes)
    requires Ordered(members)
    ensures HasBase64(c, members, key, bytes) <==> DecodeBase64(c, Get(members, key)) == Some(bytes)
  {
    if HasBase64(c, members, key, bytes) {
      var text :| Member(key, Str(text)) in members && c.fromBase64(text) == Some(bytes);
      GetIff(members, key, Str(text));
    }
    if DecodeBase64(c, Get(members, key)) == Some(bytes) {
      assert Member(key, Str(Get(members, key).value.text)) in members;
    }
  }

  /** The value is the object of a context. */
  ghost predicate IsContext(c: Codec, json: Json, context: Context) {
    && json.Obj?
    && HasBase64(c, json.members, "masterKey", context.masterKey)
    && Member("revision", Num(context.revision)) in json.members
    && (if context.groupChange.None? then !Has(json.members, "groupChange")
        else HasBase64(c, json.members, "groupChange", context.groupChange.value))
  }

  /** A value decodes to a context if and only if it is one. Every other value is malformed. */
  lemma DecodesToAContextIff(c: Codec, json: Json, context: Context)
    requires WellFormed(json)
    ensures DecodeGroupContext(c, json) == Found(context) <==> IsContext(c, json, context)
    ensures DecodeGroupContext(c, json) != NoContext
  {
    if json.Obj? {
      HasBase64Iff(c, json.members, "masterKey", context.masterKey);
      GetIff(json.members, "revision", Num(context.revision));
      if context.groupChange.Some? {
        HasBase64Iff(c, json.members, "groupChange", context.groupChange.value);
      }
    }
  }

  // --- The content beside a context -----------------------------------------------------------------

  /**
   * The content beside the context of a carrier: the bytes of its content member,
   * or the printed object of the other members. None when the content member is
   * no base64.
   */
  ghost predicate IsBeside(c: Codec, carrier: seq<Member>, content: Option<Bytes>) {
    if Has(carrier, GROUP_CONTENT) then
      if content.Some? then HasBase64(c, carrier, GROUP_CONTENT, content.value)
      else forall bytes :: !HasBase64(c, carrier, GROUP_CONTENT, bytes)
    else
      exists rest :: IsRest(carrier, GROUP_CONTEXT, rest) && content == Some(c.encode(c.stringify(Obj(rest))))
  }

  lemma BesideIff(c: Codec, carrier: seq<Member>, content: Option<Bytes>)
    requires WellFormed(Obj(carrier)) && Has(carrier, GROUP_CONTEXT)
    ensures ContentBesideGroupContext(c, carrier) == content <==> IsBeside(c, carrier, content)
  {
    if Has(carrier, GROUP_CONTENT) {
      forall bytes
        ensures HasBase64(c, carrier, GROUP_CONTENT, bytes) <==> ContentBesideGroupContext(c, carrier) == Some(bytes)
      {
        HasBase64Iff(c, carrier, GROUP_CONTENT, bytes);
      }
    } else {
      forall rest ensures IsRest(carrier, GROUP_CONTEXT, rest) <==> rest == Without(carrier, GROUP_CONTEXT) {
        WithoutIsTheRest(carrier, GROUP_CONTEXT, rest);
      }
    }
  }

  // --- What an inspection reports ------------------------------------------------------------------

  lemma ParsedObject(c: Codec, plaintext: string)
    requires ParserLaws(c) && ParseJsonObject(c, plaintext).Some?
    ensures WellFormed(Obj(ParseJsonObject(c, plaintext).value))
  {
  }

  /** An inspection reads this object: that of the text inside a transcript, or else that of the text itself. */
  ghost predicate IsRead(c: Codec, plaintext: string, carrier: seq<Member>) {
    && ParseJsonObject(c, plaintext).Some?
    && var payload := ParseJsonObject(c, plaintext).value;
       || (carrier == payload && forall inner :: !HoldsInside(c, payload, inner))
       || exists inner :: HoldsInside(c, payload, inner) && ParseJsonObject(c, inner) == Some(carrier)
  }

  lemma ReportOfTheRead(c: Codec, plaintext: string, carrier: seq<Member>)
    requires Lawful(c) && IsRead(c, plaintext, carrier)
    ensures WellFormed(Obj(carrier)) && InspectedContext(c, plaintext) == CarriedContext(c, carrier)
  {
    var payload := ParseJsonObject(c, plaintext).value;
    ParsedObject(c, plaintext);
    forall inner ensures InnerText(c, payload) == Some(inner) <==> HoldsInside(c, payload, inner) {
      InnerTextIff(c, payload, inner);
    }
    if exists inner :: HoldsInside(c, payload, inner) {
      var inner :| HoldsInside(c, payload, inner) && ParseJsonObject(c, inner) == Some(carrier);
      ParsedObject(c, inner);
    }
  }

  /**
   * An inspection reports a context if and only if the object that it reads has
   * that context beside content that decodes. Any other context is malformed.
   */
  lemma InspectionIff(c: Codec, plaintext: string, carrier: seq<Member>, content: Option<Bytes>, context: Context)
    requires Lawful(c) && IsRead(c, plaintext, carrier) && Has(carrier, GROUP_CONTEXT) && IsBeside(c, carrier, content)
    ensures InspectedContext(c, plaintext) == Found(context) <==>
            content.Some? && IsContext(c, Get(carrier, GROUP_CONTEXT).value, context)
    ensures InspectedContext(c, plaintext) != NoContext
  {
    ReportOfTheRead(c, plaintext, carrier);
    BesideIff(c, carrier, content);
    MemberIsWellFormed(carrier, GROUP_CONTEXT);
    DecodesToAContextIff(c, Get(carrier, GROUP_CONTEXT).value, context);
  }

  /** No context is reported if and only if no object that the inspection reads has one. */
  lemma NothingIsReportedIff(c: Codec, plaintext: string)
    requires Lawful(c)
    ensures InspectedContext(c, plaintext) == NoContext <==>
            forall carrier :: IsRead(c, plaintext, carrier) ==> !Has(carrier, GROUP_CONTEXT)
  {
    forall carrier | IsRead(c, plaintext, carrier)
      ensures InspectedContext(c, plaintext) == NoContext <==> !Has(carrier, GROUP_CONTEXT)
    {
      ReportOfTheRead(c, plaintext, carrier);
      if Has(carrier, GROUP_CONTEXT) {
        MemberIsWellFormed(carrier, GROUP_CONTEXT);
      }
    }
    if InspectedContext(c, plaintext) != NoContext {
      var payload := ParseJsonObject(c, plaintext).value;
      ParsedObject(c, plaintext);
      forall inner ensures InnerText(c, payload) == Some(inner) <==> HoldsInside(c, payload, inner) {
        InnerTextIff(c, payload, inner);
      }
      var carrier := if InnerText(c, payload).Some? then ParseJsonObject(c, InnerText(c, payload).value).value
                     else payload;
      assert IsRead(c, plaintext, carrier);
    }
  }

  // --- Removing a context from any text ---------------------------------------------------------------

  /** The text parses to an object with a context. */
  predicate HasContext(c: Codec, plaintext: string) {
    ParseJsonObject(c, plaintext).Some? && Has(ParseJsonObject(c, plaintext).value, GROUP_CONTEXT)
  }

  /** A context at the top of a text, or in the object inside its transcript. */
  ghost predicate CarriesContext(c: Codec, plaintext: string) {
    && ParseJsonObject(c, plaintext).Some?
    && (|| HasContext(c, plaintext)
        || exists inner :: HoldsInside(c, ParseJsonObject(c, plaintext).value, inner) && HasContext(c, inner))
  }

  /** A text that carries no context comes back unchanged, character for character. */
  lemma TextWithoutAContextStays(c: Codec, plaintext: string)
    requires Lawful(c) && !CarriesContext(c, plaintext)
    ensures WithoutGroupContext(c, plaintext) == plaintext
  {
    var payload := ParseJsonObject(c, plaintext);
    if payload.Some? && InnerText(c, payload.value).Some? {
      ParsedObject(c, plaintext);
      InnerTextIff(c, payload.value, InnerText(c, payload.value).value);
    }
  }

  /**
   * A text that carries a context at its top, whoever printed it, gives the
   * lossless text of the content beside it. It stays when that does not decode.
   */
  lemma ContextAtTheTopGoesOut(c: Codec, plaintext: string, carrier: seq<Member>, content: Option<Bytes>)
    requires Lawful(c) && ParseJsonObject(c, plaintext) == Some(carrier) && Has(carrier, GROUP_CONTEXT)
    requires IsBeside(c, carrier, content)
    ensures WithoutGroupContext(c, plaintext)
            == if content.Some? then LosslessText(c, content.value) else plaintext
  {
    ParsedObject(c, plaintext);
    BesideIff(c, carrier, content);
  }

  /** With no content member, what is left is the object of the other members, in their order. */
  lemma OtherMembersStay(c: Codec, plaintext: string, carrier: seq<Member>)
    requires Lawful(c) && ParseJsonObject(c, plaintext) == Some(carrier)
    requires Has(carrier, GROUP_CONTEXT) && !Has(carrier, GROUP_CONTENT)
    ensures var left := ParseJsonObject(c, WithoutGroupContext(c, plaintext));
            left.Some? && IsRest(carrier, GROUP_CONTEXT, left.value)
  {
    ParsedObject(c, plaintext);
    var rest := Without(carrier, GROUP_CONTEXT);
    WithoutIsTheRest(carrier, GROUP_CONTEXT, rest);
    WithoutOrdered(carrier, GROUP_CONTEXT);
    PrintedTextReadsBack(c, rest);
  }

  /**
   * A text with a context inside its transcript gives the same transcript with
   * just the content in place of the carrier. It stays when that does not decode.
   */
  lemma ContextInsideGoesOut(
      c: Codec, plaintext: string, payload: seq<Member>, inner: string, carrier: seq<Member>, content: Option<Bytes>)
    requires Lawful(c) && ParseJsonObject(c, plaintext) == Some(payload) && !Has(payload, GROUP_CONTEXT)
    requires HoldsInside(c, payload, inner) && ParseJsonObject(c, inner) == Some(carrier)
    requires Has(carrier, GROUP_CONTEXT) && IsBeside(c, carrier, content)
    ensures content.None? ==> WithoutGroupContext(c, plaintext) == plaintext
    ensures content.Some? ==>
              var left := ParseJsonObject(c, WithoutGroupContext(c, plaintext));
              left.Some? && SameButContent(c, payload, left.value, content.value)
  {
    ParsedObject(c, plaintext);
    ParsedObject(c, inner);
    InnerTextIff(c, payload, inner);
    BesideIff(c, carrier, content);
    if content.Some? {
      RemovingFromATranscript(c, plaintext, carrier, content.value);
      RewrappingReplacesTheContent(c, payload, content.value);
      RewrappedIsWellFormed(c, payload, content.value);
      PrintedTextReadsBack(c, Rewrapped(c, payload, content.value));
    }
  }

  // --- Adding a context to any content ------------------------------------------------------------------

  /** The content is exactly the printed text of an object that has room for a context. */
  ghost predicate IsPrintedObject(c: Codec, content: Bytes, members: seq<Member>) {
    && WellFormed(Obj(members)) && content == c.encode(c.stringify(Obj(members)))
    && !Has(members, GROUP_CONTEXT) && !Has(members, GROUP_CONTENT)
  }

  lemma InPlaceIff(c: Codec, content: Bytes)
    requires Lawful(c)
    ensures InPlace(c, content) <==> exists members :: IsPrintedObject(c, content, members)
    ensures forall members :: IsPrintedObject(c, content, members) ==> ContentPayload(c, content) == Some(members)
  {
    if InPlace(c, content) {
      InPlaceContentIsPrinted(c, content);
      ContentPayloadIsWellFormed(c, content);
      assert IsPrintedObject(c, content, ContentPayload(c, content).value);
    }
    forall members | IsPrintedObject(c, content, members)
      ensures ContentPayload(c, content) == Some(members) && InPlace(c, content)
    {
      PrintedTextReadsBack(c, members);
      PrintedContentIsInPlace(c, members);
    }
  }

  /**
   * A context goes behind the members of a content that is a printed object, and
   * every other content goes as base64 beside the context.
   */
  lemma ContextGoesIn(c: Codec, content: Bytes, context: Context)
    requires Lawful(c)
    ensures var added := ContentPayload(c, WithGroupContext(c, content, context));
            && added.Some?
            && (forall members :: IsPrintedObject(c, content, members) ==>
                  |added.value| == |members| + 1 && added.value[..|members|] == members
                  && added.value[|members|] == Member(GROUP_CONTEXT, EncodeGroupContext(c, context)))
            && ((forall members :: !IsPrintedObject(c, content, members)) ==>
                  added.value == [Member(GROUP_CONTEXT, EncodeGroupContext(c, context)),
                                  Member(GROUP_CONTENT, Str(c.toBase64(content)))])
  {
    InPlaceIff(c, content);
    TextWithContext(c, content, context);
    MembersCarryBoth(c, content, context);
    var members := MembersWithGroupContext(c, content, context);
    PrintedTextReadsBack(c, members);
    assert ContentPayload(c, WithGroupContext(c, content, context)) == Some(members);
    if InPlace(c, content) {
      WithoutAppended(ContentPayload(c, content).value, GROUP_CONTEXT, EncodeGroupContext(c, context));
    }
  }

  lemma HeadNames(transcript: Transcript)
    ensures var head := TranscriptHead(transcript);
            && Get(head, "conversationId") == Some(Str(transcript.conversationId))
            && Get(head, "timestamp") == Some(Num(transcript.timestamp))
            && Get(head, "recipientUserId")
               == (if transcript.recipientUserId.Some? then Some(Str(transcript.recipientUserId.value)) else None)
  {
    var head := TranscriptHead(transcript);
    HeadKeys(transcript);
    SentKeys();
    GetIff(head, "conversationId", head[0].json);
    GetIff(head, "timestamp", head[|head| - 1].json);
    if transcript.recipientUserId.Some? {
      GetIff(head, "recipientUserId", head[1].json);
    }
  }

  /** A transcript names its conversation, its recipient, if it has one, and its time. */
  lemma TranscriptNamesItsMessage(c: Codec, transcript: Transcript, content: Bytes)
    ensures var sent := SentMembers(c, transcript, content);
            && Get(sent, "conversationId") == Some(Str(transcript.conversationId))
            && Get(sent, "timestamp") == Some(Num(transcript.timestamp))
            && Get(sent, "recipientUserId")
               == (if transcript.recipientUserId.Some? then Some(Str(transcript.recipientUserId.value)) else None)
  {
    var head, text := TranscriptHead(transcript), Str(c.toBase64(content));
    HeadKeys(transcript);
    SentKeys();
    HeadNames(transcript);
    GetAppended(head, "serializedContent", text, "conversationId");
    GetAppended(head, "serializedContent", text, "timestamp");
    GetAppended(head, "serializedContent", text, "recipientUserId");
  }
}
