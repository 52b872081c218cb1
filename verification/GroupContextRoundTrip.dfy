/**
 * A group context goes into a content and comes out of it again, directly and
 * through a sent transcript, and the inspection reports it.
 */
module GroupContextRoundTrip {
  import opened Options
  import opened JsonText
  import opened ContentAdapter

  lemma EncodedContextIsWellFormed(c: Codec, context: Context)
    ensures WellFormed(EncodeGroupContext(c, context))
  {
    EncodedContextKeys();
    var members := EncodeGroupContext(c, context).members;
    assert members[0].key == "masterKey" && members[1].key == "revision";
    assert |members| == 3 ==> members[2].key == "groupChange";
    assert Ordered(members);
  }

  lemma FixedMembers(key: Json, revision: Json)
    ensures var fixed := [Member("masterKey", key), Member("revision", revision)];
            && Get(fixed, "masterKey") == Some(key)
            && Get(fixed, "revision") == Some(revision)
            && Get(fixed, "groupChange") == None
  {
    EncodedContextKeys();
    var fixed := [Member("masterKey", key), Member("revision", revision)];
    assert fixed[1..][0] == Member("revision", revision) && fixed[1..][1..] == [];
  }

  /** A context comes back from its own encoding. */
  lemma ContextReadsBack(c: Codec, context: Context)
    requires Base64Laws(c)
    ensures DecodeGroupContext(c, EncodeGroupContext(c, context)) == Found(context)
  {
    var key, revision := Str(c.toBase64(context.masterKey)), Num(context.revision);
    FixedMembers(key, revision);
    if context.groupChange.Some? {
      var fixed := [Member("masterKey", key), Member("revision", revision)];
      var change := Str(c.toBase64(context.groupChange.value));
      GetAppended(fixed, "groupChange", change, "masterKey");
      GetAppended(fixed, "groupChange", change, "revision");
      GetAppended(fixed, "groupChange", change, "groupChange");
      EncodedContextKeys();
    }
  }

  lemma ContentPayloadIsWellFormed(c: Codec, content: Bytes)
    requires ParserLaws(c) && ContentPayload(c, content).Some?
    ensures WellFormed(Obj(ContentPayload(c, content).value))
  {
  }

  /** A content that takes the context in place is exactly the printed text of its object. */
  lemma InPlaceContentIsPrinted(c: Codec, content: Bytes)
    requires Lawful(c) && InPlace(c, content)
    ensures content == c.encode(c.stringify(Obj(ContentPayload(c, content).value)))
  {
    var json := Obj(ContentPayload(c, content).value);
    assert c.toBase64(content) != c.stringify(json);
  }

  lemma BesideMembers(encoded: Json, content: Json)
    requires WellFormed(encoded) && WellFormed(content)
    ensures var members := [Member(GROUP_CONTEXT, encoded), Member(GROUP_CONTENT, content)];
            && WellFormed(Obj(members))
            && Get(members, GROUP_CONTEXT) == Some(encoded)
            && Get(members, GROUP_CONTENT) == Some(content)
            && Get(members, "syncMessage") == None
  {
    ContextKeys();
    var members := [Member(GROUP_CONTEXT, encoded), Member(GROUP_CONTENT, content)];
    assert members[1..] == [Member(GROUP_CONTENT, content)];
    assert members[1..][1..] == [];
  }

  lemma BesideMembersCarryBoth(c: Codec, content: Bytes, context: Context)
    requires Base64Laws(c) && !InPlace(c, content)
    ensures var members := MembersWithGroupContext(c, content, context);
            && WellFormed(Obj(members))
            && Get(members, GROUP_CONTEXT) == Some(EncodeGroupContext(c, context))
            && ContentBesideGroupContext(c, members) == Some(content)
  {
    EncodedContextIsWellFormed(c, context);
    BesideMembers(EncodeGroupContext(c, context), Str(c.toBase64(content)));
  }

  /** A content with a context is an object that carries the context, and its content is beside it. */
  lemma MembersCarryBoth(c: Codec, content: Bytes, context: Context)
    requires Lawful(c)
    ensures var members := MembersWithGroupContext(c, content, context);
            && WellFormed(Obj(members))
            && Get(members, GROUP_CONTEXT) == Some(EncodeGroupContext(c, context))
            && ContentBesideGroupContext(c, members) == Some(content)
  {
    if InPlace(c, content) {
      InPlaceMembersCarryBoth(c, content, context);
    } else {
      BesideMembersCarryBoth(c, content, context);
    }
  }

  lemma AppendedContext(c: Codec, payload: seq<Member>, encoded: Json)
    requires WellFormed(Obj(payload)) && WellFormed(encoded)
    requires !Has(payload, GROUP_CONTEXT) && !Has(payload, GROUP_CONTENT)
    ensures var members := With(payload, GROUP_CONTEXT, encoded);
            && WellFormed(Obj(members))
            && Get(members, GROUP_CONTEXT) == Some(encoded)
            && ContentBesideGroupContext(c, members) == Some(c.encode(c.stringify(Obj(payload))))
  {
    ContextKeys();
    WithoutAppended(payload, GROUP_CONTEXT, encoded);
    AppendedOrdered(payload, GROUP_CONTEXT, encoded);
    GetAppended(payload, GROUP_CONTEXT, encoded, GROUP_CONTEXT);
    GetAppended(payload, GROUP_CONTEXT, encoded, GROUP_CONTENT);
  }

  lemma InPlaceMembersCarryBoth(c: Codec, content: Bytes, context: Context)
    requires Lawful(c) && InPlace(c, content)
    ensures var members := MembersWithGroupContext(c, content, context);
            && WellFormed(Obj(members))
            && Get(members, GROUP_CONTEXT) == Some(EncodeGroupContext(c, context))
            && ContentBesideGroupContext(c, members) == Some(content)
  {
    EncodedContextIsWellFormed(c, context);
    ContentPayloadIsWellFormed(c, content);
    InPlaceContentIsPrinted(c, content);
    AppendedContext(c, ContentPayload(c, content).value, EncodeGroupContext(c, context));
  }

  // --- The round trip ----------------------------------------------------------------

  /** The text of a content with a context reads back as its members. */
  lemma TextWithContext(c: Codec, content: Bytes, context: Context)
    requires Lawful(c)
    ensures var members := MembersWithGroupContext(c, content, context);
            var text := c.stringify(Obj(members));
            && LosslessText(c, WithGroupContext(c, content, context)) == text
            && ParseJsonObject(c, text) == Some(members)
            && DecodedContent(c, c.toBase64(WithGroupContext(c, content, context))) == Some(text)
  {
    MembersCarryBoth(c, content, context);
    PrintedTextReadsBack(c, MembersWithGroupContext(c, content, context));
  }

  /** Adding a context and removing it gives back the content, as the cipher gives its text. */
  lemma RemovingGivesBack(c: Codec, content: Bytes, context: Context)
    requires Lawful(c)
    ensures WithoutGroupContext(c, LosslessText(c, WithGroupContext(c, content, context))) == LosslessText(c, content)
  {
    TextWithContext(c, content, context);
    MembersCarryBoth(c, content, context);
  }

  // --- Sent transcripts ---------------------------------------------------------------

  lemma HeadKeys(transcript: Transcript)
    ensures var head := TranscriptHead(transcript);
            && WellFormed(Obj(head)) && !Has(head, "serializedContent")
            && !IsIndexKey("serializedContent")
  {
    SentKeys();
    var head := TranscriptHead(transcript);
    if transcript.recipientUserId.Some? {
      assert head[0].key == "conversationId" && head[1].key == "recipientUserId" && head[2].key == "timestamp";
    } else {
      assert head[0].key == "conversationId" && head[1].key == "timestamp";
    }
    assert Ordered(head);
  }

  lemma SyncParts(sent: seq<Member>, other: seq<Member>)
    requires WellFormed(Obj(sent))
    ensures WellFormed(Obj(SyncMembers(sent)))
    ensures Get(SyncMembers(sent), "type") == Some(Str("sent"))
    ensures Get(SyncMembers(sent), "sent") == Some(Obj(sent))
    ensures With(SyncMembers(sent), "sent", Obj(other)) == SyncMembers(other)
  {
    SyncKeys();
    var head := [Member("type", Str("sent"))];
    assert SyncMembers(sent) == head + [Member("sent", Obj(sent))];
    assert SyncMembers(sent)[1..] == [Member("sent", Obj(sent))];
    WithLast(head, "sent", Obj(sent), Obj(other));
  }

  lemma EnvelopeParts(sent: seq<Member>, other: seq<Member>)
    requires WellFormed(Obj(SyncMembers(sent)))
    ensures var payload := [Member("syncMessage", Obj(SyncMembers(sent)))];
            && WellFormed(Obj(payload))
            && Get(payload, "syncMessage") == Some(Obj(SyncMembers(sent)))
            && With(payload, "syncMessage", Obj(other)) == [Member("syncMessage", Obj(other))]
            && !Has(payload, GROUP_CONTEXT) && !Has(payload, SENDER_KEY_DISTRIBUTION) && !Has(payload, GROUP_CONTENT)
  {
    ContextKeys();
    var payload := [Member("syncMessage", Obj(SyncMembers(sent)))];
    assert payload[1..] == [];
  }

  lemma SentParts(c: Codec, transcript: Transcript, content: Bytes, other: Bytes)
    ensures var sent := SentMembers(c, transcript, content);
            && WellFormed(Obj(sent))
            && Get(sent, "serializedContent") == Some(Str(c.toBase64(content)))
            && With(sent, "serializedContent", Str(c.toBase64(other))) == SentMembers(c, transcript, other)
  {
    HeadKeys(transcript);
    var head, text := TranscriptHead(transcript), Str(c.toBase64(content));
    AppendedOrdered(head, "serializedContent", text);
    GetAppended(head, "serializedContent", text, "serializedContent");
    WithLast(head, "serializedContent", text, Str(c.toBase64(other)));
  }

  /** A transcript holds its content, and rewrapping replaces just that. */
  lemma TranscriptParts(c: Codec, transcript: Transcript, content: Bytes, other: Bytes)
    ensures var payload := TranscriptMembers(c, transcript, content);
            && WellFormed(Obj(payload))
            && SentTranscriptOf(payload) == Some(SentMembers(c, transcript, content))
            && InnerText(c, payload) == DecodedContent(c, c.toBase64(content))
            && Rewrapped(c, payload, other) == TranscriptMembers(c, transcript, other)
            && !Has(payload, GROUP_CONTEXT) && !Has(payload, GROUP_CONTENT)
            && !Has(payload, SENDER_KEY_DISTRIBUTION)
  {
    SentParts(c, transcript, content, other);
    SyncParts(SentMembers(c, transcript, content), SentMembers(c, transcript, other));
    EnvelopeParts(SentMembers(c, transcript, content), SyncMembers(SentMembers(c, transcript, other)));
  }

  /** The printed text of a transcript reads back, so it is the text that the cipher gives. */
  lemma TranscriptReadsBack(c: Codec, transcript: Transcript, content: Bytes)
    requires Lawful(c)
    ensures var text := TranscriptText(c, transcript, content);
            && ParseJsonObject(c, text) == Some(TranscriptMembers(c, transcript, content))
            && LosslessText(c, SerializeSentTranscript(c, transcript, content)) == text
            && RoundTrips(c, text)
  {
    TranscriptParts(c, transcript, content, content);
    PrintedTextReadsBack(c, TranscriptMembers(c, transcript, content));
  }

  lemma TextContentDecodes(c: Codec, text: string)
    requires Base64Laws(c) && RoundTrips(c, text)
    ensures DecodedContent(c, c.toBase64(c.encode(text))) == Some(text)
  {
  }

  /** The transcript of a text content parses, and the text is inside. */
  lemma TranscriptOfText(c: Codec, transcript: Transcript, text: string)
    requires Lawful(c) && RoundTrips(c, text)
    ensures var members := TranscriptMembers(c, transcript, c.encode(text));
            && ParseJsonObject(c, TranscriptText(c, transcript, c.encode(text))) == Some(members)
            && InnerText(c, members) == Some(text)
  {
    TranscriptReadsBack(c, transcript, c.encode(text));
    TranscriptParts(c, transcript, c.encode(text), c.encode(text));
    TextContentDecodes(c, text);
  }

  lemma RemovingFromATranscript(c: Codec, plaintext: string, carrier: seq<Member>, content: Bytes)
    requires ParseJsonObject(c, plaintext).Some? && !Has(ParseJsonObject(c, plaintext).value, GROUP_CONTEXT)
    requires InnerText(c, ParseJsonObject(c, plaintext).value).Some?
    requires ParseJsonObject(c, InnerText(c, ParseJsonObject(c, plaintext).value).value) == Some(carrier)
    requires Has(carrier, GROUP_CONTEXT) && ContentBesideGroupContext(c, carrier) == Some(content)
    ensures WithoutGroupContext(c, plaintext)
            == c.stringify(Obj(Rewrapped(c, ParseJsonObject(c, plaintext).value, content)))
  {
  }

  /** Removing the context through a transcript gives exactly the transcript of the content. */
  lemma RemovingThroughATranscript(c: Codec, transcript: Transcript, content: Bytes, context: Context)
    requires Lawful(c)
    ensures WithoutGroupContext(c, TranscriptText(c, transcript, WithGroupContext(c, content, context)))
            == TranscriptText(c, transcript, content)
  {
    var carried := WithGroupContext(c, content, context);
    TranscriptReadsBack(c, transcript, carried);
    TranscriptParts(c, transcript, carried, content);
    TextWithContext(c, content, context);
    MembersCarryBoth(c, content, context);
    RemovingFromATranscript(c, TranscriptText(c, transcript, carried),
                            MembersWithGroupContext(c, content, context), content);
  }

  // --- What the inspection reports ---------------------------------------------------

  lemma MembersReportContext(c: Codec, content: Bytes, context: Context)
    requires Lawful(c)
    ensures CarriedContext(c, MembersWithGroupContext(c, content, context)) == Found(context)
  {
    MembersCarryBoth(c, content, context);
    ContextReadsBack(c, context);
  }

  lemma AppendedInnerText(c: Codec, payload: seq<Member>, encoded: Json)
    requires !Has(payload, GROUP_CONTEXT)
    ensures InnerText(c, With(payload, GROUP_CONTEXT, encoded)) == InnerText(c, payload)
  {
    ContextKeys();
    GetWith(payload, GROUP_CONTEXT, encoded, "syncMessage");
  }

  lemma NoInnerText(c: Codec, payload: seq<Member>)
    requires Get(payload, "syncMessage").None?
    ensures InnerText(c, payload) == None
  {
  }

  /** The content inside a content with a context, which only a content in place can show. */
  lemma InnerTextWithContext(c: Codec, content: Bytes, context: Context)
    ensures InnerText(c, MembersWithGroupContext(c, content, context))
            == if InPlace(c, content) then InnerText(c, ContentPayload(c, content).value) else None
  {
    var encoded := EncodeGroupContext(c, context);
    if InPlace(c, content) {
      AppendedInnerText(c, ContentPayload(c, content).value, encoded);
    } else {
      EncodedContextIsWellFormed(c, context);
      BesideMembers(encoded, Str(c.toBase64(content)));
      NoInnerText(c, [Member(GROUP_CONTEXT, encoded), Member(GROUP_CONTENT, Str(c.toBase64(content)))]);
    }
  }

  /** The content is itself a sent transcript whose own content decodes. */
  predicate IsSentTranscript(c: Codec, content: Bytes) {
    InPlace(c, content) && InnerText(c, ContentPayload(c, content).value).Some?
  }

  lemma InspectedMembers(c: Codec, plaintext: string, members: seq<Member>)
    requires ParseJsonObject(c, plaintext) == Some(members)
    ensures InspectedContext(c, plaintext)
            == if InnerText(c, members).Some? then InnerContext(c, InnerText(c, members).value)
               else CarriedContext(c, members)
  {
  }

  /**
   * The inspection of a content with a context reports that context, unless the
   * content is itself a sent transcript. Then it reports what the transcript
   * reports without the context, so it reports the context only by coincidence.
   */
  lemma InspectionReportsTheContext(c: Codec, content: Bytes, context: Context)
    requires Lawful(c)
    ensures InspectedContext(c, LosslessText(c, WithGroupContext(c, content, context)))
            == if IsSentTranscript(c, content) then InspectedContext(c, LosslessText(c, content)) else Found(context)
  {
    var members := MembersWithGroupContext(c, content, context);
    TextWithContext(c, content, context);
    InspectedMembers(c, c.stringify(Obj(members)), members);
    InnerTextWithContext(c, content, context);
    MembersReportContext(c, content, context);
    if IsSentTranscript(c, content) {
      InPlaceTextParses(c, content);
      InspectedMembers(c, LosslessText(c, content), ContentPayload(c, content).value);
    }
  }

  lemma InPlaceTextParses(c: Codec, content: Bytes)
    requires Lawful(c) && InPlace(c, content)
    ensures ParseJsonObject(c, LosslessText(c, content)) == ContentPayload(c, content)
  {
    ContentPayloadIsWellFormed(c, content);
    PrintedTextReadsBack(c, ContentPayload(c, content).value);
  }

  /** Inside a transcript, the inspection reports what the content reports alone. */
  lemma InspectedThroughATranscript(c: Codec, transcript: Transcript, text: string)
    requires Lawful(c) && RoundTrips(c, text)
    ensures InspectedContext(c, TranscriptText(c, transcript, c.encode(text))) == InnerContext(c, text)
  {
    var content := c.encode(text);
    TranscriptOfText(c, transcript, text);
    InspectedMembers(c, TranscriptText(c, transcript, content), TranscriptMembers(c, transcript, content));
  }

  /** So it reports the context of every content with a context. */
  lemma TranscriptReportsTheContext(c: Codec, transcript: Transcript, content: Bytes, context: Context)
    requires Lawful(c)
    ensures InspectedContext(c, TranscriptText(c, transcript, WithGroupContext(c, content, context))) == Found(context)
  {
    var members := MembersWithGroupContext(c, content, context);
    MembersCarryBoth(c, content, context);
    PrintedTextReadsBack(c, members);
    InspectedThroughATranscript(c, transcript, c.stringify(Obj(members)));
    MembersReportContext(c, content, context);
  }

  // --- A context on a transcript is not reported ----------------------------------------

  lemma PrintedContentIsInPlace(c: Codec, members: seq<Member>)
    requires ParseJsonObject(c, c.stringify(Obj(members))) == Some(members)
    requires RoundTrips(c, c.stringify(Obj(members)))
    requires !Has(members, GROUP_CONTEXT) && !Has(members, GROUP_CONTENT)
    ensures var content := c.encode(c.stringify(Obj(members)));
            InPlace(c, content) && ContentPayload(c, content) == Some(members)
  {
  }

  lemma TranscriptsAreInPlace(c: Codec, transcript: Transcript, content: Bytes)
    requires Lawful(c)
    ensures InPlace(c, SerializeSentTranscript(c, transcript, content))
    ensures ContentPayload(c, SerializeSentTranscript(c, transcript, content))
            == Some(TranscriptMembers(c, transcript, content))
  {
    TranscriptReadsBack(c, transcript, content);
    TranscriptParts(c, transcript, content, content);
    PrintedContentIsInPlace(c, TranscriptMembers(c, transcript, content));
  }

  /** Every transcript of a text content is itself a sent transcript. */
  lemma TranscriptsAreSentTranscripts(c: Codec, transcript: Transcript, text: string)
    requires Lawful(c) && RoundTrips(c, text)
    ensures IsSentTranscript(c, SerializeSentTranscript(c, transcript, c.encode(text)))
  {
    TranscriptOfText(c, transcript, text);
    TranscriptsAreInPlace(c, transcript, c.encode(text));
  }

  /**
   * A context on the transcript of a text content is never what the inspection
   * reports: it reports the text alone.
   */
  lemma ContextOnATranscriptIsNotReported(c: Codec, transcript: Transcript, text: string, context: Context)
    requires Lawful(c) && RoundTrips(c, text)
    ensures var wrapped := SerializeSentTranscript(c, transcript, c.encode(text));
            InspectedContext(c, LosslessText(c, WithGroupContext(c, wrapped, context))) == InnerContext(c, text)
  {
    TranscriptsAreSentTranscripts(c, transcript, text);
    TranscriptReadsBack(c, transcript, c.encode(text));
    InspectedThroughATranscript(c, transcript, text);
    InspectionReportsTheContext(c, SerializeSentTranscript(c, transcript, c.encode(text)), context);
  }
}
