/**
 * `useConversationCapture`: the front end's capture of the conversation from
 * the LiveKit room. Transcription events and data packets each yield at most
 * one message, with its role; `processUniqueMessage` trims it, drops it when
 * it is empty or repeats the last processed message, remembers it and hands
 * it to the user or assistant callback.
 *
 * The hook's state is the last processed message. The callbacks are optional:
 * `Callbacks` says which are present, and the `delivered` log and the `errors`
 * count record what they were given. Packets arrive already decoded and
 * parsed (`Payload`); the room's event registration is not part of the model.
 */
module ConversationCapture {
  import opened Wrappers
  import opened Text

  datatype Role = User | Assistant

  /** A message handed to `onUserMessage` (role `User`) or `onAssistantMessage` (role `Assistant`). */
  datatype Delivery = Delivery(role: Role, text: string)

  /** Which of the optional callbacks the hook was given. */
  datatype Callbacks = Callbacks(onUser: bool, onAssistant: bool, onError: bool)

  /** `lastProcessedMessage`, and what the callbacks have received so far. */
  datatype CaptureState = CaptureState(last: string, delivered: seq<Delivery>, errors: nat)

  /** The hook's state when it mounts: `useState<string>('')`, nothing delivered. */
  const Initial: CaptureState := CaptureState("", [], 0)

  // ---------------------------------------------------------------------------
  // processUniqueMessage

  function RoleOf(isUser: bool): (r: Role)
    ensures r == User <==> isUser
  {
    if isUser then User else Assistant
  }

  /** Whether the callback for this role was given. */
  function Listening(cb: Callbacks, isUser: bool): bool {
    if isUser then cb.onUser else cb.onAssistant
  }

  /** The state after `processUniqueMessage(message, isUser)`. */
  function Step(s: CaptureState, cb: Callbacks, message: string, isUser: bool): CaptureState {
    var t := Strip(message);
    if t == s.last || t == "" then s
    else CaptureState(t, s.delivered + (if Listening(cb, isUser) then [Delivery(RoleOf(isUser), t)] else []), s.errors)
  }

  // ---------------------------------------------------------------------------
  // Transcriptions

  /** `segments.map(segment => segment.text || '').join(' ').trim()`; `None` is a missing or empty text. */
  function TranscriptText(segments: seq<Option<string>>): (t: string)
    ensures IsStripped(t)
  {
    StripSpec(Join(SegmentTexts(segments), " "));
    Strip(Join(SegmentTexts(segments), " "))
  }

  function SegmentTexts(segments: seq<Option<string>>): (ts: seq<string>)
    ensures |ts| == |segments|
    ensures forall i :: 0 <= i < |segments| ==> ts[i] == segments[i].GetOr("")
  {
    seq(|segments|, i requires 0 <= i < |segments| => segments[i].GetOr(""))
  }

  /** What a handler asks of the hook: nothing, a message with its role, or an error for `onError`. */
  datatype Action = Skip | Forward(text: string, isUser: bool) | Fail

  /**
   * `handleTranscription`: no segments or an empty text is ignored; otherwise
   * the text is the user's when the speaker is the local participant.
   * Identities are `None` where the participant or its identity is undefined.
   */
  function TranscriptAction(segments: seq<Option<string>>, speaker: Option<string>, local: Option<string>): Action {
    if segments == [] then Skip
    else
      var t := TranscriptText(segments);
      if t == "" then Skip else Forward(t, speaker == local)
  }

  // ---------------------------------------------------------------------------
  // Data packets

  datatype PacketKind = Reliable | Lossy

  /** A field of the parsed packet as the handler sees it: absent, `null`, a string, or another JSON value and its truthiness. */
  datatype Field = Missing | Null | Str(s: string) | NonString(truthy: bool)

  /** The packet's JSON object: its `type`, `text` and `participant_identity`. */
  datatype Data = Data(messageType: Field, text: Field, participantIdentity: Field)

  /** The payload after decoding: not JSON (or the JSON `null`, whose fields cannot be read), or an object. */
  datatype Payload = Unparsable | Parsed(data: Data)

  predicate Truthy(f: Field) {
    match f
    case Missing => false
    case Null => false
    case Str(s) => s != ""
    case NonString(t) => t
  }

  /** `f === identity`, where `identity` is `None` when undefined. */
  predicate StrictEquals(f: Field, identity: Option<string>) {
    match f
    case Missing => identity.None?
    case Str(s) => identity == Some(s)
    case _ => false
  }

  /** The `text` and `isFromUser` the packet's if/else chain leaves. */
  function Extract(d: Data, sender: Option<string>, local: Option<string>): (Field, bool) {
    if d.messageType == Str("transcript") && Truthy(d.text) then (d.text, StrictEquals(d.participantIdentity, local))
    else if d.messageType == Str("user_transcript") && Truthy(d.text) then (d.text, true)
    else if d.messageType == Str("assistant_response") && Truthy(d.text) then (d.text, false)
    else if d.messageType == Str("agent_speech") && Truthy(d.text) then (d.text, false)
    else if Truthy(d.text) && d.text.Str? then (d.text, sender == local)
    else (Str(""), false)
  }

  /**
   * `handleDataPacket`: lossy packets are ignored; an unreadable payload, or a
   * truthy `text` that is not a string (it has no `trim`), raises inside the
   * `try` and goes to `onError`.
   */
  function PacketAction(kind: PacketKind, payload: Payload, sender: Option<string>, local: Option<string>): Action {
    if kind != Reliable then Skip
    else match payload
      case Unparsable => Fail
      case Parsed(d) =>
        var (text, isUser) := Extract(d, sender, local);
        if !Truthy(text) then Skip
        else if text.Str? then Forward(text.s, isUser)
        else Fail
  }

  /** The state after the hook carries out a handler's action. */
  function Handle(s: CaptureState, cb: Callbacks, a: Action): CaptureState {
    match a
    case Skip => s
    case Forward(text, isUser) => Step(s, cb, text, isUser)
    case Fail => if cb.onError then s.(errors := s.errors + 1) else s
  }

  // ---------------------------------------------------------------------------
  // The hook

  class Capture {
    const callbacks: Callbacks
    /** `room.localParticipant?.identity`. */
    const localIdentity: Option<string>
    var last: string
    var delivered: seq<Delivery>
    var errors: nat

    function State(): CaptureState
      reads this
    {
      CaptureState(last, delivered, errors)
    }

    constructor (callbacks: Callbacks, localIdentity: Option<string>)
      ensures this.callbacks == callbacks && this.localIdentity == localIdentity
      ensures State() == Initial
    {
      this.callbacks := callbacks;
      this.localIdentity := localIdentity;
      last := "";
      delivered := [];
      errors := 0;
    }

    method ProcessUniqueMessage(message: string, isUser: bool)
      modifies this
      ensures State() == Step(old(State()), callbacks, message, isUser)
    {
      var trimmed := Strip(message);
      if trimmed == last || trimmed == "" {
        return;
      }
      last := trimmed;
      if isUser && callbacks.onUser {
        delivered := delivered + [Delivery(User, trimmed)];
      } else if !isUser && callbacks.onAssistant {
        delivered := delivered + [Delivery(Assistant, trimmed)];
      }
    }

    method Carry(a: Action)
      modifies this
      ensures State() == Handle(old(State()), callbacks, a)
    {
      match a
      case Skip =>
      case Forward(text, isUser) =>
        ProcessUniqueMessage(text, isUser);
      case Fail =>
        if callbacks.onError {
          errors := errors + 1;
        }
    }

    method HandleTranscription(segments: seq<Option<string>>, speaker: Option<string>)
      modifies this
      ensures State() == Handle(old(State()), callbacks, TranscriptAction(segments, speaker, localIdentity))
    {
      Carry(TranscriptAction(segments, speaker, localIdentity));
    }

    method HandleDataPacket(payload: Payload, sender: Option<string>, kind: PacketKind)
      modifies this
      ensures State() == Handle(old(State()), callbacks, PacketAction(kind, payload, sender, localIdentity))
    {
      Carry(PacketAction(kind, payload, sender, localIdentity));
    }
  }

  // ---------------------------------------------------------------------------
  // Lemmas about processUniqueMessage

  /** A message that is empty after trimming is dropped and changes nothing. */
  lemma BlankIgnored(s: CaptureState, cb: Callbacks, message: string, isUser: bool)
    requires IsBlank(message)
    ensures Step(s, cb, message, isUser) == s
  {
    StripSpec(message);
  }

  /** A message equal to the last processed one once trimmed is dropped, whatever its role. */
  lemma DuplicateDropped(s: CaptureState, cb: Callbacks, message: string, isUser: bool)
    requires Strip(message) == s.last
    ensures Step(s, cb, message, isUser) == s
  {
  }

  /**
   * Any other message becomes the last processed one, trimmed, and reaches
   * `onUserMessage` exactly when it is the user's and that callback exists,
   * `onAssistantMessage` exactly when it is not and that callback exists.
   */
  lemma Forwarded(s: CaptureState, cb: Callbacks, message: string, isUser: bool)
    requires !IsBlank(message) && Strip(message) != s.last
    ensures var s' := Step(s, cb, message, isUser);
            && s'.last == Strip(message) && s'.last != "" && IsStripped(s'.last)
            && s'.errors == s.errors
            && s'.delivered[..|s.delivered|] == s.delivered
            && (s'.delivered == s.delivered + [Delivery(User, Strip(message))] <==> isUser && cb.onUser)
            && (s'.delivered == s.delivered + [Delivery(Assistant, Strip(message))] <==> !isUser && cb.onAssistant)
            && (s'.delivered == s.delivered <==> !Listening(cb, isUser))
  {
    StripSpec(message);
  }

  /** Processing the same message twice in a row delivers it once, whatever the roles. */
  lemma StepIdempotent(s: CaptureState, cb: Callbacks, message: string, isUser: bool, isUser': bool)
    ensures Step(Step(s, cb, message, isUser), cb, message, isUser') == Step(s, cb, message, isUser)
  {
  }

  /**
   * What the hook keeps true: every delivered message is trimmed and not
   * empty, and, when both message callbacks are given, the last delivery is
   * the last processed message and no two consecutive deliveries are equal.
   */
  ghost predicate Consistent(s: CaptureState, cb: Callbacks) {
    && IsStripped(s.last)
    && (forall i :: 0 <= i < |s.delivered| ==> s.delivered[i].text != "" && IsStripped(s.delivered[i].text))
    && (cb.onUser && cb.onAssistant ==>
          && (s.delivered != [] ==> s.delivered[|s.delivered| - 1].text == s.last)
          && (forall i :: 0 <= i < |s.delivered| - 1 ==> s.delivered[i].text != s.delivered[i + 1].text))
  }

  lemma InitialConsistent(cb: Callbacks)
    ensures Consistent(Initial, cb)
  {
  }

  lemma StepConsistent(s: CaptureState, cb: Callbacks, message: string, isUser: bool)
    requires Consistent(s, cb)
    ensures Consistent(Step(s, cb, message, isUser), cb)
  {
    StripSpec(message);
  }

  /** Every handler action keeps the hook consistent. */
  lemma HandleConsistent(s: CaptureState, cb: Callbacks, a: Action)
    requires Consistent(s, cb)
    ensures Consistent(Handle(s, cb, a), cb)
  {
    if a.Forward? {
      StepConsistent(s, cb, a.text, a.isUser);
    }
  }

  /**
   * With one of the message callbacks missing, a message can reach the other
   * one twice in a row: the assistant's "b" is remembered but not delivered,
   * so the user's "a" is accepted again.
   */
  lemma RepeatWithoutAssistantCallback()
    ensures var cb := Callbacks(true, false, false);
            var s := Step(Step(Step(Initial, cb, "a", true), cb, "b", false), cb, "a", true);
            s.delivered == [Delivery(User, "a"), Delivery(User, "a")]
  {
    var cb := Callbacks(true, false, false);
    StripOfStripped("a");
    StripOfStripped("b");
    var s1 := Step(Initial, cb, "a", true);
    assert s1 == CaptureState("a", [Delivery(User, "a")], 0);
    var s2 := Step(s1, cb, "b", false);
    assert s2 == CaptureState("b", [Delivery(User, "a")], 0);
  }

  // ---------------------------------------------------------------------------
  // Lemmas about the handlers

  /**
   * A transcription is forwarded exactly when some segment has non-blank
   * text; the forwarded text is already trimmed, so `processUniqueMessage`
   * keeps it as it is.
   */
  lemma TranscriptForwardedIff(segments: seq<Option<string>>, speaker: Option<string>, local: Option<string>)
    ensures TranscriptAction(segments, speaker, local).Forward? <==>
              exists i :: 0 <= i < |segments| && !IsBlank(segments[i].GetOr(""))
    ensures TranscriptAction(segments, speaker, local).Forward? ==>
              var a := TranscriptAction(segments, speaker, local);
              Strip(a.text) == a.text && (a.isUser <==> speaker == local)
  {
    var texts := SegmentTexts(segments);
    JoinBlank(texts, " ");
    StripSpec(Join(texts, " "));
    if TranscriptAction(segments, speaker, local).Forward? {
      StripOfStripped(TranscriptText(segments));
    }
  }

  /** Blank segment texts are no message at all. */
  lemma BlankTranscriptSkipped(segments: seq<Option<string>>, speaker: Option<string>, local: Option<string>)
    requires forall i :: 0 <= i < |segments| ==> IsBlank(segments[i].GetOr(""))
    ensures TranscriptAction(segments, speaker, local) == Skip
  {
    TranscriptForwardedIff(segments, speaker, local);
  }

  /** Only reliable packets are looked at. */
  lemma LossyIgnored(payload: Payload, sender: Option<string>, local: Option<string>)
    ensures PacketAction(Lossy, payload, sender, local) == Skip
  {
  }

  /**
   * The role of a reliable packet with a non-empty string `text`: the user's
   * for `user_transcript`, the assistant's for `assistant_response` and
   * `agent_speech`, the user's for `transcript` when `participant_identity`
   * is the local identity, and for any other type the user's when the sender
   * is the local participant.
   */
  lemma RoleByType(d: Data, sender: Option<string>, local: Option<string>, t: string)
    requires d.text == Str(t) && t != ""
    ensures d.messageType == Str("user_transcript") ==> PacketAction(Reliable, Parsed(d), sender, local) == Forward(t, true)
    ensures d.messageType == Str("assistant_response") || d.messageType == Str("agent_speech") ==>
              PacketAction(Reliable, Parsed(d), sender, local) == Forward(t, false)
    ensures d.messageType == Str("transcript") ==>
              PacketAction(Reliable, Parsed(d), sender, local) == Forward(t, StrictEquals(d.participantIdentity, local))
    ensures d.messageType !in {Str("transcript"), Str("user_transcript"), Str("assistant_response"), Str("agent_speech")} ==>
              PacketAction(Reliable, Parsed(d), sender, local) == Forward(t, sender == local)
  {
  }

  /** A falsy `text` (absent, null, empty, or a falsy value) yields nothing, whatever the type. */
  lemma FalsyTextSkipped(d: Data, sender: Option<string>, local: Option<string>)
    requires !Truthy(d.text)
    ensures PacketAction(Reliable, Parsed(d), sender, local) == Skip
  {
  }

  /**
   * A truthy `text` that is not a string is an error for the four known
   * types, where it reaches `trim`, and is ignored for any other type.
   */
  lemma NonStringText(d: Data, sender: Option<string>, local: Option<string>)
    requires d.text == NonString(true)
    ensures d.messageType in {Str("transcript"), Str("user_transcript"), Str("assistant_response"), Str("agent_speech")} ==>
              PacketAction(Reliable, Parsed(d), sender, local) == Fail
    ensures d.messageType !in {Str("transcript"), Str("user_transcript"), Str("assistant_response"), Str("agent_speech")} ==>
              PacketAction(Reliable, Parsed(d), sender, local) == Skip
  {
  }

  /** What a packet forwards is always the packet's own non-empty string `text`. */
  lemma ForwardedPacketText(kind: PacketKind, payload: Payload, sender: Option<string>, local: Option<string>)
    requires PacketAction(kind, payload, sender, local).Forward?
    ensures kind == Reliable && payload.Parsed?
    ensures payload.data.text == Str(PacketAction(kind, payload, sender, local).text)
    ensures PacketAction(kind, payload, sender, local).text != ""
  {
  }

  /** Errors are counted only for failing actions, and only when `onError` was given. */
  lemma ErrorsCounted(s: CaptureState, cb: Callbacks, a: Action)
    ensures Handle(s, cb, a).errors == s.errors + (if a == Fail && cb.onError then 1 else 0)
  {
  }
}
