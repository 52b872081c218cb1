/**
 * The default content adapter (client/content-adapter.ts): the group context
 * in a content, the sent-sync transcript around a content, and the stripping of
 * sender-key distributions.
 */
module ContentAdapter {
  import opened Options
  import opened JsonText
  import Decimal

  const GROUP_CONTEXT := "groupContext"
  const GROUP_CONTENT := "groupContent"
  const SENDER_KEY_DISTRIBUTION := "senderKeyDistributionMessage"

  datatype Context = Context(masterKey: Bytes, revision: int, groupChange: Option<Bytes>)

  /** What an inspection reports about the group context of a content. */
  datatype Reported = NoContext | Malformed | Found(context: Context)

  datatype Transcript = Transcript(conversationId: string, recipientUserId: Option<string>, timestamp: int)

  // --- The functions of the adapter --------------------------------------------------

  function ParseJsonObject(c: Codec, plaintext: string): Option<seq<Member>> {
    match c.parse(plaintext)
    case Some(Obj(members)) => Some(members)
    case _ => None
  }

  /** The `sent` member of a sent-sync transcript. */
  function SentTranscriptOf(payload: seq<Member>): Option<seq<Member>> {
    match Get(payload, "syncMessage")
    case Some(Obj(sync)) =>
      (match (Get(sync, "type"), Get(sync, "sent"))
       case (Some(Str(kind)), Some(Obj(sent))) =>
         if kind == "sent" && Get(sent, "serializedContent").Some? && Get(sent, "serializedContent").value.Str?
         then Some(sent) else None
       case _ => None)
    case _ => None
  }

  function DecodedContent(c: Codec, serializedContent: string): Option<string> {
    var bytes := c.fromBase64(serializedContent);
    if bytes.Some? then c.decodeFatal(bytes.value) else None
  }

  /** The text of the content inside a sent transcript, when the payload is one and it decodes. */
  function InnerText(c: Codec, payload: seq<Member>): Option<string> {
    var sent := SentTranscriptOf(payload);
    if sent.Some? then DecodedContent(c, Get(sent.value, "serializedContent").value.text) else None
  }

  function LosslessText(c: Codec, bytes: Bytes): string {
    var text := c.decode(bytes);
    if c.encode(text) == bytes then text else c.toBase64(bytes)
  }

  function DecodeBase64(c: Codec, value: Option<Json>): Option<Bytes> {
    match value
    case Some(Str(text)) => c.fromBase64(text)
    case _ => None
  }

  function EncodeGroupContext(c: Codec, context: Context): Json {
    var fixed := [Member("masterKey", Str(c.toBase64(context.masterKey))), Member("revision", Num(context.revision))];
    Obj(if context.groupChange.Some?
        then fixed + [Member("groupChange", Str(c.toBase64(context.groupChange.value)))] else fixed)
  }

  function DecodeGroupContext(c: Codec, value: Json): Reported {
    match value
    case Obj(members) =>
      var key := DecodeBase64(c, Get(members, "masterKey"));
      var revision := Get(members, "revision");
      var change := Get(members, "groupChange");
      if key.None? || revision.None? || !revision.value.Num? then Malformed
      else if change.None? then Found(Context(key.value, revision.value.number, None))
      else if DecodeBase64(c, change).None? then Malformed
      else Found(Context(key.value, revision.value.number, DecodeBase64(c, change)))
    case _ => Malformed
  }

  /** The application content of a payload with a context. None when its content member does not decode. */
  function ContentBesideGroupContext(c: Codec, payload: seq<Member>): Option<Bytes> {
    if Has(payload, GROUP_CONTENT) then DecodeBase64(c, Get(payload, GROUP_CONTENT))
    else Some(c.encode(c.stringify(Obj(Without(payload, GROUP_CONTEXT)))))
  }

  function CarriedContext(c: Codec, carrier: seq<Member>): Reported {
    if !Has(carrier, GROUP_CONTEXT) then NoContext
    else if ContentBesideGroupContext(c, carrier).None? then Malformed
    else DecodeGroupContext(c, Get(carrier, GROUP_CONTEXT).value)
  }

  /** The context that the content inside a sent transcript reports. */
  function InnerContext(c: Codec, inner: string): Reported {
    match ParseJsonObject(c, inner)
    case Some(carrier) => CarriedContext(c, carrier)
    case None => NoContext
  }

  /** The context that a payload reports: its own, or that of the content inside its sent transcript. */
  function GroupContextOf(c: Codec, payload: seq<Member>): Reported {
    match InnerText(c, payload)
    case None => CarriedContext(c, payload)
    case Some(inner) => InnerContext(c, inner)
  }

  function InspectedContext(c: Codec, plaintext: string): Reported {
    match ParseJsonObject(c, plaintext)
    case Some(payload) => GroupContextOf(c, payload)
    case None => NoContext
  }

  function ContentPayload(c: Codec, content: Bytes): Option<seq<Member>> {
    var text := c.decodeFatal(content);
    if text.Some? then ParseJsonObject(c, text.value) else None
  }

  /** The content is an object in the printer's form, with room for a context of its own. */
  predicate InPlace(c: Codec, content: Bytes) {
    var payload := ContentPayload(c, content);
    && payload.Some?
    && !Has(payload.value, GROUP_CONTEXT) && !Has(payload.value, GROUP_CONTENT)
    && LosslessText(c, content) == c.stringify(Obj(payload.value))
  }

  /** The members of a content with a group context. */
  function MembersWithGroupContext(c: Codec, content: Bytes, context: Context): seq<Member> {
    var encoded := EncodeGroupContext(c, context);
    if InPlace(c, content) then With(ContentPayload(c, content).value, GROUP_CONTEXT, encoded)
    else [Member(GROUP_CONTEXT, encoded), Member(GROUP_CONTENT, Str(c.toBase64(content)))]
  }

  function WithGroupContext(c: Codec, content: Bytes, context: Context): Bytes {
    c.encode(c.stringify(Obj(MembersWithGroupContext(c, content, context))))
  }

  /** The payload of a sent transcript with its serialized content replaced. */
  function Rewrapped(c: Codec, payload: seq<Member>, content: Bytes): seq<Member>
    requires SentTranscriptOf(payload).Some?
  {
    var sync := Get(payload, "syncMessage").value.members;
    var sent := Get(sync, "sent").value.members;
    With(payload, "syncMessage",
         Obj(With(sync, "sent", Obj(With(sent, "serializedContent", Str(c.toBase64(content)))))))
  }

  /** The content that the application gets, with no group context in it. */
  function WithoutGroupContext(c: Codec, plaintext: string): string {
    match ParseJsonObject(c, plaintext)
    case None => plaintext
    case Some(payload) =>
      if Has(payload, GROUP_CONTEXT) then
        var content := ContentBesideGroupContext(c, payload);
        if content.Some? then LosslessText(c, content.value) else plaintext
      else
        var inner := InnerText(c, payload);
        var innerPayload := if inner.Some? then ParseJsonObject(c, inner.value) else None;
        if innerPayload.None? || !Has(innerPayload.value, GROUP_CONTEXT) then plaintext
        else
          var content := ContentBesideGroupContext(c, innerPayload.value);
          if content.None? then plaintext else c.stringify(Obj(Rewrapped(c, payload, content.value)))
  }

  /**
   * The plaintext that a pairwise record keeps, with no distribution in it.
   * None when a distribution is all it carries.
   */
  function WithoutSenderKeyDistribution(c: Codec, plaintext: string): Option<string>
    requires Lawful(c)
    decreases |plaintext|
  {
    match ParseJsonObject(c, plaintext)
    case None => Some(plaintext)
    case Some(payload) =>
      if Has(payload, SENDER_KEY_DISTRIBUTION) then
        var content := Without(payload, SENDER_KEY_DISTRIBUTION);
        if content == [] then None else Some(c.stringify(Obj(content)))
      else
        match InnerText(c, payload)
        case None => Some(plaintext)
        case Some(inner) =>
          InnerTextIsShorter(c, plaintext);
          match WithoutSenderKeyDistribution(c, inner)
          case None => None
          case Some(kept) =>
            if kept == inner then Some(plaintext)
            else Some(c.stringify(Obj(Rewrapped(c, payload, c.encode(kept)))))
  }

  /** The members of a sent transcript before its content. */
  function TranscriptHead(transcript: Transcript): seq<Member> {
    [Member("conversationId", Str(transcript.conversationId))]
    + (if transcript.recipientUserId.Some?
       then [Member("recipientUserId", Str(transcript.recipientUserId.value))] else [])
    + [Member("timestamp", Num(transcript.timestamp))]
  }

  function SentMembers(c: Codec, transcript: Transcript, content: Bytes): seq<Member> {
    TranscriptHead(transcript) + [Member("serializedContent", Str(c.toBase64(content)))]
  }

  function SyncMembers(sent: seq<Member>): seq<Member> {
    [Member("type", Str("sent")), Member("sent", Obj(sent))]
  }

  function TranscriptMembers(c: Codec, transcript: Transcript, content: Bytes): seq<Member> {
    [Member("syncMessage", Obj(SyncMembers(SentMembers(c, transcript, content))))]
  }

  /** The text of a sent transcript of a content. */
  function TranscriptText(c: Codec, transcript: Transcript, content: Bytes): string {
    c.stringify(Obj(TranscriptMembers(c, transcript, content)))
  }

  function SerializeSentTranscript(c: Codec, transcript: Transcript, content: Bytes): Bytes {
    c.encode(TranscriptText(c, transcript, content))
  }

  // --- The decoded inner content is shorter -----------------------------------------------

  /** The recursion through nested transcripts ends: the decoded inner content is shorter than its wrapper. */
  lemma InnerTextIsShorter(c: Codec, plaintext: string)
    requires Lawful(c) && ParseJsonObject(c, plaintext).Some?
    requires InnerText(c, ParseJsonObject(c, plaintext).value).Some?
    ensures |InnerText(c, ParseJsonObject(c, plaintext).value).value| < |plaintext|
  {
    var payload := ParseJsonObject(c, plaintext).value;
    var text := Get(SentTranscriptOf(payload).value, "serializedContent").value.text;
    SerializedContentIsInside(payload, text);
    assert TextIn(c.parse(plaintext).value, text);
    DecodedIsNoLonger(c, text);
  }

  lemma SerializedContentIsInside(payload: seq<Member>, text: string)
    requires SentTranscriptOf(payload).Some?
    requires Get(SentTranscriptOf(payload).value, "serializedContent") == Some(Str(text))
    ensures TextIn(Obj(payload), text)
  {
    var sent := SentTranscriptOf(payload).value;
    TextOfMember(sent, "serializedContent", text);
    TextOfMember(Get(payload, "syncMessage").value.members, "sent", text);
    TextOfMember(payload, "syncMessage", text);
  }

  lemma DecodedIsNoLonger(c: Codec, text: string)
    requires Utf8Laws(c) && Base64Laws(c) && DecodedContent(c, text).Some?
    ensures |DecodedContent(c, text).value| <= |text|
  {
  }

  lemma TextOfMember(members: seq<Member>, key: string, text: string)
    requires Get(members, key).Some? && TextIn(Get(members, key).value, text)
    ensures TextIn(Obj(members), text)
  {
    var member := Member(key, Get(members, key).value);
    var i :| 0 <= i < |members| && members[i] == member;
    assert TextIn(members[i].json, text);
  }

  // --- Printed text and transcripts -----------------------------------------------------------

  /** The printed text of an object decodes and parses back to the object. */
  lemma PrintedTextReadsBack(c: Codec, members: seq<Member>)
    requires Lawful(c) && WellFormed(Obj(members))
    ensures var text := c.stringify(Obj(members));
            && ParseJsonObject(c, text) == Some(members)
            && RoundTrips(c, text)
            && LosslessText(c, c.encode(text)) == text
            && DecodedContent(c, c.toBase64(c.encode(text))) == Some(text)
  {
    assert c.parse(c.stringify(Obj(members))) == Some(Obj(members));
  }

  lemma NotAnIndex(key: string)
    requires key != "" && !Decimal.IsDigit(key[0])
    ensures !IsIndexKey(key)
  {
  }

  lemma ContextKeys()
    ensures !IsIndexKey(GROUP_CONTEXT) && !IsIndexKey(GROUP_CONTENT)
    ensures GROUP_CONTEXT != GROUP_CONTENT
    ensures "syncMessage" != SENDER_KEY_DISTRIBUTION && "syncMessage" != GROUP_CONTEXT
    ensures "syncMessage" != GROUP_CONTENT
  {
    NotAnIndex(GROUP_CONTEXT);
    NotAnIndex(GROUP_CONTENT);
    assert GROUP_CONTEXT[10] == 'x' && GROUP_CONTENT[10] == 'n';
  }

  lemma EncodedContextKeys()
    ensures KeyBefore("masterKey", "revision") && KeyBefore("masterKey", "groupChange")
    ensures KeyBefore("revision", "groupChange")
  {
    NotAnIndex("masterKey");
    NotAnIndex("revision");
    NotAnIndex("groupChange");
  }

  lemma SyncKeys()
    ensures KeyBefore("type", "sent") && !IsIndexKey("syncMessage")
  {
    NotAnIndex("type");
    NotAnIndex("sent");
    NotAnIndex("syncMessage");
    assert "type"[0] == 't' && "sent"[0] == 's';
  }

  lemma SentKeys()
    ensures KeyBefore("conversationId", "recipientUserId") && KeyBefore("conversationId", "timestamp")
    ensures KeyBefore("recipientUserId", "timestamp")
    ensures "conversationId" != "serializedContent" && "recipientUserId" != "serializedContent"
    ensures "timestamp" != "serializedContent" && !IsIndexKey("serializedContent")
  {
    NotAnIndex("conversationId");
    NotAnIndex("recipientUserId");
    NotAnIndex("timestamp");
    NotAnIndex("serializedContent");
  }
}
