/**
 * convertRequest and its helpers: the chat request becomes a protobuf
 * message, and the serialized bytes are sent behind a five-byte envelope (a
 * flag byte, then the payload length as a big-endian uint32), the layout of
 * the Connect streaming envelope and of gRPC's Length-Prefixed-Message.
 */
module Framing {
  import opened Outcomes
  import opened Bytes

  /** One message of `completion.Messages`, as its "role" and "content" entries read as strings. */
  datatype Message = Message(role: string, content: string)

  /** `model.Completion`: the chat messages and the model name. */
  datatype Completion = Completion(messages: seq<Message>, model: string)

  /** `ChatMessage_UserMessage`. */
  datatype UserMessage = UserMessage(messageId: string, role: int, content: string)

  /** `ChatMessage_Model`. */
  datatype ModelField = ModelField(name: string, empty: string)

  /** `ChatMessage`, with the constant fields convertRequest sets. */
  datatype ChatMessage = ChatMessage(
    messages: seq<UserMessage>,
    unknownField4: string,
    model: ModelField,
    unknownField13: int,
    conversationId: string,
    unknownField16: int,
    unknownField29: int,
    unknownField30: int)

  /** The number of characters cut off the front of the model name. */
  const MODEL_PREFIX_LENGTH: nat := 7

  /** `elseOf`: the first value when the condition holds, the second otherwise. */
  function ElseOf<T>(condition: bool, a1: T, a2: T): (r: T)
    ensures condition ==> r == a1
    ensures !condition ==> r == a2
  {
    if condition then a1 else a2
  }

  /** The role code of a message: 1 for "user", 2 for anything else. */
  function RoleCode(role: string): int {
    ElseOf(role == "user", 1, 2)
  }

  /** The mapping function given to `stream.Map`; `id` is the fresh `uuid.NewString()` of this message. */
  function ToUserMessage(m: Message, id: string): UserMessage {
    UserMessage(id, RoleCode(m.role), m.content)
  }

  /** `stream.Map(...).ToSlice()`: one user message per input message, in order; `ids(i)` is the id drawn for message i. */
  function UserMessages(ms: seq<Message>, ids: nat -> string): (r: seq<UserMessage>)
    ensures |r| == |ms|
  {
    seq(|ms|, i requires 0 <= i < |ms| => ToUserMessage(ms[i], ids(i)))
  }

  /**
   * Each input message has its converted counterpart at the same position: the
   * content is copied, the role code is 1 exactly for "user" and 2 otherwise.
   */
  lemma UserMessagesMapping(ms: seq<Message>, ids: nat -> string)
    ensures |UserMessages(ms, ids)| == |ms|
    ensures forall i :: 0 <= i < |ms| ==>
      var u := UserMessages(ms, ids)[i];
      u.content == ms[i].content && u.messageId == ids(i) &&
      (u.role == 1 <==> ms[i].role == "user") && (u.role == 2 <==> ms[i].role != "user")
  {
    forall i | 0 <= i < |ms|
      ensures UserMessages(ms, ids)[i] == ToUserMessage(ms[i], ids(i))
    {
    }
  }

  /**
   * The message of fetch.go:82-94. `completion.Model[7:]` panics on a model name
   * shorter than seven characters.
   */
  function BuildChatMessage(c: Completion, ids: nat -> string, conversationId: string): (r: Result<ChatMessage>)
    ensures r.Err? <==> |c.model| < MODEL_PREFIX_LENGTH
    ensures r.Ok? ==> c.model == c.model[..MODEL_PREFIX_LENGTH] + r.value.model.name
  {
    if |c.model| < MODEL_PREFIX_LENGTH then Err(IndexOutOfRange)
    else
      Ok(ChatMessage(
        messages := UserMessages(c.messages, ids),
        unknownField4 := "",
        model := ModelField(c.model[MODEL_PREFIX_LENGTH..], ""),
        unknownField13 := 1,
        conversationId := conversationId,
        unknownField16 := 1,
        unknownField29 := 1,
        unknownField30 := 0))
  }

  // ------------------------------------------------------------ the envelope

  /**
   * `bytesToInt32`: the big-endian uint32 in the first four bytes. On a
   * slice shorter than four bytes `binary.BigEndian.Uint32` panics.
   */
  function BytesToInt32(hex: seq<byte>): (n: Result<int>)
    ensures n.Err? <==> |hex| < 4
    ensures n.Err? ==> n.failure == IndexOutOfRange
    ensures n.Ok? ==> 0 <= n.value < TWO_32 && Be32(n.value) == hex[..4]
  {
    if |hex| < 4 then Err(IndexOutOfRange)
    else
      Be32Inverse(hex[..4]);
      Ok(Be32Value(hex))
  }

  /** `binary.BigEndian.PutUint32`: writes the four bytes of v into b[0..4], most significant first. */
  method PutUint32(b: array<byte>, v: int)
    requires b.Length >= 4 && 0 <= v < TWO_32
    modifies b
    ensures b[..4] == Be32(v)
    ensures b[4..] == old(b[4..])
  {
    b[0] := ByteOf(v / 0x100_0000);
    b[1] := ByteOf(v / 0x1_0000);
    b[2] := ByteOf(v / 0x100);
    b[3] := ByteOf(v);
  }

  /**
   * `int32ToBytes(magic, num)`: the magic byte, then `uint32(num)` (num modulo
   * 2^32) in big-endian order, five bytes in all.
   */
  method Int32ToBytes(magic: byte, num: int) returns (r: seq<byte>)
    ensures r == [magic] + Be32(num % TWO_32)
    ensures |r| == 5 && r[0] == magic && BytesToInt32(r[1..]) == Ok(num % TWO_32)
  {
    var hex := new byte[4];
    PutUint32(hex, num % TWO_32);
    r := [magic] + hex[..];
    Be32RoundTrip(num % TWO_32);
    assert r[1..] == hex[..];
  }

  /** The frame convertRequest sends: `int32ToBytes(magic, len(payload))` followed by the payload. */
  function Frame(magic: byte, payload: seq<byte>): seq<byte> {
    [magic] + Be32(|payload| % TWO_32) + payload
  }

  /** Reads a frame: the flag byte, the length field, and that many payload bytes. */
  function Unframe(buf: seq<byte>): (r: Option<(byte, seq<byte>)>)
  {
    if |buf| < 5 then None
    else
      var n := Be32Value(buf[1..5]);
      if |buf| < 5 + n then None else Some((buf[0], buf[5..5 + n]))
  }

  /**
   * The frame is five header bytes longer than the payload; byte 0 is the flag,
   * bytes 1-4 give the payload length modulo 2^32, and the payload follows unchanged.
   */
  lemma FrameLayout(magic: byte, payload: seq<byte>)
    ensures |Frame(magic, payload)| == 5 + |payload|
    ensures Frame(magic, payload)[0] == magic
    ensures BytesToInt32(Frame(magic, payload)[1..5]) == Ok(|payload| % TWO_32)
    ensures Frame(magic, payload)[5..] == payload
  {
    var f := Frame(magic, payload);
    Be32RoundTrip(|payload| % TWO_32);
    assert f[1..5] == Be32(|payload| % TWO_32);
  }

  /** A payload shorter than 4 GiB is read back whole from its frame. */
  lemma UnframeFrame(magic: byte, payload: seq<byte>)
    requires |payload| < TWO_32
    ensures Unframe(Frame(magic, payload)) == Some((magic, payload))
  {
    FrameLayout(magic, payload);
    var f := Frame(magic, payload);
    assert f[5..5 + |payload|] == payload;
  }

  /** What convertRequest returns: the framed serialization, or the panic or marshal error. */
  function Converted(c: Completion, ids: nat -> string, conversationId: string,
                     marshal: ChatMessage -> Option<seq<byte>>): Result<seq<byte>>
  {
    match BuildChatMessage(c, ids, conversationId)
    case Err(f) => Err(f)
    case Ok(msg) =>
      match marshal(msg)
      case None => Err(MarshalFailed)
      case Some(payload) => Ok(Frame(0, payload))
  }

  /**
   * convertRequest. `ids` and `conversationId` stand for the fresh
   * `uuid.NewString()` values, `marshal` for `proto.Marshal` (None on error).
   */
  method ConvertRequest(c: Completion, ids: nat -> string, conversationId: string,
                        marshal: ChatMessage -> Option<seq<byte>>) returns (buffer: Result<seq<byte>>)
    ensures buffer == Converted(c, ids, conversationId, marshal)
  {
    var messages := UserMessages(c.messages, ids);
    if |c.model| < MODEL_PREFIX_LENGTH {
      return Err(IndexOutOfRange);
    }
    var message := ChatMessage(
      messages := messages,
      unknownField4 := "",
      model := ModelField(c.model[MODEL_PREFIX_LENGTH..], ""),
      unknownField13 := 1,
      conversationId := conversationId,
      unknownField16 := 1,
      unknownField29 := 1,
      unknownField30 := 0);
    var protoBytes := marshal(message);
    if protoBytes.None? {
      return Err(MarshalFailed);
    }
    var header := Int32ToBytes(0, |protoBytes.value|);
    buffer := Ok(header + protoBytes.value);
  }

  /**
   * A successful conversion is the serialized message behind the envelope:
   * flag 0, the payload length, then the payload. It fails with the index
   * panic exactly on a model name shorter than seven characters; otherwise it
   * fails exactly when marshalling does, and succeeds with the framed payload
   * when marshalling succeeds.
   */
  lemma ConvertedShape(c: Completion, ids: nat -> string, conversationId: string,
                       marshal: ChatMessage -> Option<seq<byte>>)
    ensures var r := Converted(c, ids, conversationId, marshal);
      r == Err(IndexOutOfRange) <==> |c.model| < MODEL_PREFIX_LENGTH
    ensures var r := Converted(c, ids, conversationId, marshal);
      r.Ok? ==>
        var payload := marshal(BuildChatMessage(c, ids, conversationId).value).value;
        && r.value[0] == 0
        && BytesToInt32(r.value[1..5]) == Ok(|payload| % TWO_32)
        && r.value[5..] == payload
        && BuildChatMessage(c, ids, conversationId).value.messages == UserMessages(c.messages, ids)
        && BuildChatMessage(c, ids, conversationId).value.model.name == c.model[MODEL_PREFIX_LENGTH..]
    ensures |c.model| >= MODEL_PREFIX_LENGTH ==>
      var msg := BuildChatMessage(c, ids, conversationId);
      && msg.Ok?
      && (Converted(c, ids, conversationId, marshal) == Err(MarshalFailed) <==> marshal(msg.value).None?)
      && (marshal(msg.value).Some? ==>
            Converted(c, ids, conversationId, marshal) == Ok(Frame(0, marshal(msg.value).value)))
  {
    var r := Converted(c, ids, conversationId, marshal);
    if r.Ok? {
      FrameLayout(0, marshal(BuildChatMessage(c, ids, conversationId).value).value);
    }
  }
}
