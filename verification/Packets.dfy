/**
 Frames of the UPS: commands, configuration messages and telemetry notifications, and
 their way through the session cipher.
 */
module Packets {
  import opened Prelude
  import opened Integers
  import opened Encryption
  import Codec

  const TOKEN_LIMIT: nat := 0x1_0000_0000

  // ----- commands

  const NONCE_SIZE: nat := 4

  /** `encode_command`; `None` is a `ValueError` or `OverflowError`. */
  function EncodeCommand(token: nat, payload: Bytes, flags: byte, nonce: Bytes): Option<Bytes> {
    if |nonce| != NONCE_SIZE || token >= TOKEN_LIMIT then None
    else Some([FRAME_MAGIC, flags] + LittleEndian(token, 4) + nonce + payload)
  }

  /** What the device takes from a command: it ignores one with another magic, flags or token. */
  function AcceptCommand(token: nat, plaintext: Bytes): Option<Bytes> {
    if |plaintext| < 10 || plaintext[0] != FRAME_MAGIC || plaintext[1] != 0 then None
    else if FromLittleEndian(plaintext[2..6]) != token then None
    else Some(plaintext[10..])
  }

  lemma TokenFits(token: nat)
    ensures token < TOKEN_LIMIT <==> token < Power256(4)
  {
    assert Power256(0) == 1 && Power256(1) == 256 && Power256(2) == 65536 && Power256(3) == 16777216;
  }

  /** An encrypted command arrives with its payload, followed by zeros, exactly at a device with its token. */
  lemma CommandArrives(cipher: BlockCipher, token: nat, deviceToken: nat, payload: Bytes, nonce: Bytes)
    requires IsBijective(cipher)
    requires |nonce| == NONCE_SIZE && token < TOKEN_LIMIT
    ensures EncodeCommand(token, payload, 0, nonce).Some?
    ensures var plaintext := Decrypt(cipher, Encrypt(cipher, EncodeCommand(token, payload, 0, nonce).value));
            && plaintext.Some?
            && var accepted := AcceptCommand(deviceToken, plaintext.value);
               && (accepted.Some? <==> deviceToken == token)
               && (accepted.Some? ==>
                     payload <= accepted.value && forall i :: |payload| <= i < |accepted.value| ==>
                         accepted.value[i] == 0)
  {
    var frame := EncodeCommand(token, payload, 0, nonce).value;
    DecryptEncrypt(cipher, frame);
    TokenFits(token);
    LittleEndianRoundTrip(token, 4);
    var plaintext := Padded(frame);
    assert plaintext[2..6] == frame[2..6] == LittleEndian(token, 4);
    assert frame[10..] == payload;
    assert plaintext[10..][..|payload|] == payload;
  }

  /** The four bytes of a token: the least significant first. */
  ghost predicate TokenBytes(token: nat, a: byte, b: byte, c: byte, d: byte) {
    token == a as nat + 256 * b as nat + 65536 * c as nat + 16777216 * d as nat
  }

  lemma TokenSplits(token: nat)
    requires token < TOKEN_LIMIT
    ensures var t := LittleEndian(token, 4); TokenBytes(token, t[0], t[1], t[2], t[3])
  {
    TokenFits(token);
    LittleEndianRoundTrip(token, 4);
    FourBytes(LittleEndian(token, 4));
  }

  /** A command, byte by byte; building fails exactly for a nonce of another length or a token that is too large. */
  lemma CommandLayout(token: nat, payload: Bytes, flags: byte, nonce: Bytes)
    ensures var frame := EncodeCommand(token, payload, flags, nonce);
            if |nonce| == 4 && token < 0x1_0000_0000 then
              && frame.Some? && |frame.value| == 10 + |payload|
              && frame.value[0] == 0x51 && frame.value[1] == flags
              && TokenBytes(token, frame.value[2], frame.value[3], frame.value[4], frame.value[5])
              && frame.value[6..10] == nonce && frame.value[10..] == payload
            else frame.None?
  {
    if token < TOKEN_LIMIT {
      TokenSplits(token);
    }
  }

  // ----- configuration messages

  const CONFIG_NONCE_SIZE: nat := 2
  const CONFIG_HEADER_SIZE: nat := 8

  datatype ConfigMessage = ConfigMessage(messageType: nat, token: nat, payload: Bytes)

  /** `0x40 | messageType` */
  function Tagged(messageType: byte): byte {
    if (messageType / 64) % 2 == 1 then messageType else messageType + 64
  }

  /** `encode_config_message` */
  function EncodeConfig(token: nat, messageType: nat, payload: Bytes, nonce: Bytes): Option<Bytes> {
    if |nonce| != CONFIG_NONCE_SIZE || messageType >= 256 || |payload| >= 256 || token >= TOKEN_LIMIT then None
    else Some([Tagged(messageType as byte), |payload| as byte] + nonce + LittleEndian(token, 4) + payload)
  }

  /** The bit 0x40 is set in `b`, and all other bits are those of `a`. */
  ghost predicate IsWithBitSix(a: byte, b: byte) {
    b / 64 % 2 == 1 && b % 64 == a % 64 && b / 128 == a / 128
  }

  /** `ConfigMessage.from_bytes`; `None` is a `PacketParseError`. */
  function DecodeConfig(plaintext: Bytes): Option<ConfigMessage> {
    if |plaintext| < CONFIG_HEADER_SIZE || plaintext[0] / 64 != 1 then None
    else if |plaintext| < CONFIG_HEADER_SIZE + plaintext[1] as nat then None
    else
      Some(ConfigMessage(
        (plaintext[0] % 64) as nat,
        FromLittleEndian(plaintext[4..8]),
        plaintext[CONFIG_HEADER_SIZE..CONFIG_HEADER_SIZE + plaintext[1] as nat]))
  }

  /** The parser looks only at the part of the frame that its length byte announces. */
  lemma DecodeIgnoresRest(plaintext: Bytes, rest: Bytes)
    requires DecodeConfig(plaintext).Some?
    ensures DecodeConfig(plaintext + rest) == DecodeConfig(plaintext)
  {
    var longer := plaintext + rest;
    assert longer[4..8] == plaintext[4..8];
    var end := CONFIG_HEADER_SIZE + plaintext[1] as nat;
    assert longer[CONFIG_HEADER_SIZE..end] == plaintext[CONFIG_HEADER_SIZE..end];
  }

  /** A configuration message, byte by byte; building fails exactly for values that do not fit. */
  lemma ConfigLayout(token: nat, messageType: nat, payload: Bytes, nonce: Bytes)
    ensures var frame := EncodeConfig(token, messageType, payload, nonce);
            if |nonce| == 2 && messageType < 256 && |payload| < 256 && token < 0x1_0000_0000 then
              && frame.Some? && |frame.value| == 8 + |payload|
              && IsWithBitSix(messageType as byte, frame.value[0])
              && frame.value[1] as nat == |payload|
              && frame.value[2..4] == nonce
              && TokenBytes(token, frame.value[4], frame.value[5], frame.value[6], frame.value[7])
              && frame.value[8..] == payload
            else frame.None?
  {
    if token < TOKEN_LIMIT && messageType < 256 {
      TokenSplits(token);
    }
  }

  /** Building and parsing a message keeps token and payload, and its type exactly if the type has 6 bits. */
  lemma DecodeEncodeConfig(token: nat, messageType: nat, payload: Bytes, nonce: Bytes, rest: Bytes)
    requires EncodeConfig(token, messageType, payload, nonce).Some?
    ensures var parsed := DecodeConfig(EncodeConfig(token, messageType, payload, nonce).value + rest);
            && (parsed == Some(ConfigMessage(messageType, token, payload)) <==> messageType < 64)
            && (messageType >= 128 ==> parsed.None?)
  {
    var frame := EncodeConfig(token, messageType, payload, nonce).value;
    TokenFits(token);
    LittleEndianRoundTrip(token, 4);
    assert frame[4..8] == LittleEndian(token, 4);
    assert frame[8..8 + |payload|] == payload;
    if messageType < 128 {
      DecodeIgnoresRest(frame, rest);
    }
  }

  /**
   Parsing succeeds only on a consistent header, and then the message, built again with
   the nonce of the frame, is the beginning of the frame.
   */
  lemma EncodeDecodeConfig(plaintext: Bytes)
    ensures DecodeConfig(plaintext).Some? <==>
            |plaintext| >= 8 && 64 <= plaintext[0] < 128 && |plaintext| >= 8 + plaintext[1] as nat
    ensures DecodeConfig(plaintext).Some? ==>
              var m := DecodeConfig(plaintext).value;
              && m.messageType < 64 && |m.payload| == plaintext[1] as nat
              && EncodeConfig(m.token, m.messageType, m.payload, plaintext[2..4]) == Some(plaintext[..8 + |m.payload|])
  {
    if DecodeConfig(plaintext).Some? {
      var m := DecodeConfig(plaintext).value;
      FromLittleEndianRoundTrip(plaintext[4..8]);
      TokenFits(m.token);
      var end := 8 + |m.payload|;
      assert plaintext[..end] == plaintext[..2] + plaintext[2..4] + plaintext[4..8] + plaintext[8..end];
      assert plaintext[..2] == [plaintext[0], plaintext[1]];
    }
  }

  // ----- receiving configuration messages

  /** The session: its cipher and its token. */
  datatype SessionCipher = SessionCipher(cipher: BlockCipher, token: nat)

  datatype Received = Ignored | Truncated | Undecodable | ForeignToken | Passed(message: ConfigMessage)

  /** `_on_config` up to the call of `config_parse`, which gets what `Passed` carries. */
  function ReceiveConfig(session: Option<SessionCipher>, hasParser: bool, frame: Bytes): Received {
    if session.None? || !hasParser then Ignored
    else if |frame| % BLOCK_SIZE != 0 then Truncated
    else
      var plaintext := Decrypt(session.value.cipher, frame);
      if plaintext.None? then Undecodable
      else
        var message := DecodeConfig(plaintext.value);
        if message.None? then Undecodable
        else if message.value.token != session.value.token then ForeignToken
        else Passed(message.value)
  }

  /**
   A message of a 6-bit type that one side builds, pads and encrypts reaches `config_parse`
   of the other side as it was, for every token, payload and nonce; under another token it
   never does.
   */
  lemma ConfigArrives(session: SessionCipher, token: nat, messageType: nat, payload: Bytes, nonce: Bytes)
    requires IsBijective(session.cipher)
    requires token < TOKEN_LIMIT && messageType < 64 && |payload| < 256 && |nonce| == CONFIG_NONCE_SIZE
    ensures EncodeConfig(token, messageType, payload, nonce).Some?
    ensures ReceiveConfig(Some(session), true,
        Encrypt(session.cipher, EncodeConfig(token, messageType, payload, nonce).value))
            == if token == session.token then Passed(ConfigMessage(messageType, token, payload)) else ForeignToken
  {
    var frame := EncodeConfig(token, messageType, payload, nonce).value;
    DecryptEncrypt(session.cipher, frame);
    var padded := Padded(frame);
    assert padded == frame + padded[|frame|..];
    DecodeEncodeConfig(token, messageType, payload, nonce, padded[|frame|..]);
  }

  /**
   The frames that reach `config_parse` with `message` are exactly the encrypted ones that begin
   with this message, built with some nonce: it is of a 6-bit type, has the token of the session
   and its whole payload, and the frame fills its last block.
   */
  lemma PassedIffBuilt(session: SessionCipher, hasParser: bool, frame: Bytes, message: ConfigMessage)
    requires IsBijective(session.cipher)
    ensures !ReceiveConfig(None, hasParser, frame).Passed?
    ensures ReceiveConfig(Some(session), hasParser, frame) == Passed(message) <==>
            hasParser && message.token == session.token && message.messageType < 64
            && exists nonce, rest :: IsFrameOf(session, frame, message, nonce, rest)
  {
    if ReceiveConfig(Some(session), true, frame) == Passed(message) {
      var plaintext := session.cipher.decrypt(frame);
      EncodeDecodeConfig(plaintext);
      var end := 8 + |message.payload|;
      assert plaintext == plaintext[..end] + plaintext[end..];
      assert IsFrameOf(session, frame, message, plaintext[2..4], plaintext[end..]);
    }
    forall nonce, rest |
      message.token == session.token && message.messageType < 64 && IsFrameOf(session, frame, message, nonce, rest)
      ensures ReceiveConfig(Some(session), true, frame) == Passed(message)
    {
      DecodeEncodeConfig(message.token, message.messageType, message.payload, nonce, rest);
    }
  }

  /** The frame is the encrypted message, followed by `rest`, in whole blocks. */
  ghost predicate IsFrameOf(session: SessionCipher, frame: Bytes, message: ConfigMessage, nonce: Bytes, rest: Bytes) {
    var built := EncodeConfig(message.token, message.messageType, message.payload, nonce);
    built.Some? && IsAligned(built.value + rest) && frame == session.cipher.encrypt(built.value + rest)
  }

  /**
   A configuration frame that a small MTU cut off: within a cipher block it is reported as
   truncated, nothing of it is undecodable, and whole it arrives as it was sent.
   */
  lemma CutConfig(session: SessionCipher, messageType: nat, payload: Bytes, nonce: Bytes, length: nat)
    requires IsBijective(session.cipher) && session.token < TOKEN_LIMIT
    requires messageType < 64 && |payload| < 256 && |nonce| == CONFIG_NONCE_SIZE
    ensures EncodeConfig(session.token, messageType, payload, nonce).Some?
    ensures var sent := Encrypt(session.cipher, EncodeConfig(session.token, messageType, payload, nonce).value);
            && 16 <= |sent| && |sent| % 16 == 0
            && (length <= |sent| ==>
                  var received := ReceiveConfig(Some(session), true, sent[..length]);
                  && (received == Truncated <==> length % 16 != 0)
                  && (length == 0 ==> received == Undecodable)
                  && (length == |sent| ==>
                        received == Passed(ConfigMessage(messageType, session.token, payload))))
  {
    ConfigArrives(session, session.token, messageType, payload, nonce);
    var frame := EncodeConfig(session.token, messageType, payload, nonce).value;
    var sent := Encrypt(session.cipher, frame);
    assert |sent| == |Padded(frame)|;
    assert sent[..|sent|] == sent;
  }

  // ----- telemetry

  const TELEMETRY: Codec.Schema := [
    Codec.U16, Codec.U16, Codec.U16, Codec.U16, Codec.U16, Codec.U16,  // input, output, level, battery
    Codec.U16, Codec.U16, Codec.U16, Codec.U16,                        // cells
    Codec.S16, Codec.S16,                                              // battery current, temperature
    Codec.U16, Codec.U16, Codec.U32, Codec.U32, Codec.U16]             // cycles, time, energy, faults, status

  const TELEMETRY_FRAME_SIZE: nat := 40
  const TELEMETRY_HEADER_SIZE: nat := 2

  datatype TelemetryFrame = TelemetryFrame(header: nat, payload: Bytes) {
    function Event(): nat { header / 256 }

    predicate Truncated() { |payload| < TELEMETRY_FRAME_SIZE - TELEMETRY_HEADER_SIZE }
  }

  /** `TelemetryFrame.from_bytes`; `None` is a `PacketParseError`. */
  function ParseTelemetry(data: Bytes): Option<TelemetryFrame> {
    if |data| <= TELEMETRY_HEADER_SIZE then None
    else
      var end := if |data| < TELEMETRY_FRAME_SIZE then |data| else TELEMETRY_FRAME_SIZE;
      Some(TelemetryFrame(FromLittleEndian(data[..TELEMETRY_HEADER_SIZE]), data[TELEMETRY_HEADER_SIZE..end]))
  }

  lemma TelemetrySizes()
    ensures Codec.Size(TELEMETRY) == 38
    ensures Codec.Fitting(TELEMETRY, 18) == 9
  {
    SizeOfPrefix(17);
    SizeOfPrefix(9);
    SizeOfPrefix(Codec.Fitting(TELEMETRY, 18));
    assert TELEMETRY[..17] == TELEMETRY;
  }

  lemma {:induction false} SizeOfPrefix(k: nat)
    requires k <= 17
    ensures Codec.Size(TELEMETRY[..k]) == if k <= 14 then 2 * k else if k <= 16 then 4 * k - 28 else 38
  {
    if k == 0 {
    } else {
      SizeOfPrefix(k - 1);
      assert TELEMETRY[..k][..k - 1] == TELEMETRY[..k - 1];
    }
  }

  function TelemetryNotification(event: byte, payload: Bytes): Bytes {
    [FRAME_MAGIC, event] + payload
  }

  lemma CutFrame(event: byte, payload: Bytes, length: nat)
    requires |payload| == 38 && length <= TELEMETRY_FRAME_SIZE
    ensures var parsed := ParseTelemetry(TelemetryNotification(event, payload)[..length]);
            && (parsed.Some? <==> length > 2)
            && (parsed.Some? ==>
                  && parsed.value.Event() == event as nat
                  && parsed.value.payload == payload[..length - 2])
  {
    if length > 2 {
      var cut := TelemetryNotification(event, payload)[..length];
      assert cut == [FRAME_MAGIC, event] + payload[..length - 2];
      assert cut[..2] == [FRAME_MAGIC, event] && cut[2..] == payload[..length - 2];
      assert [FRAME_MAGIC, event][1..] == [event] && [event][1..] == [];
      assert FromLittleEndian([]) == 0;
      assert FromLittleEndian([event]) == event as nat;
    }
  }

  lemma FormatOf(i: nat)
    requires i < 17
    ensures TELEMETRY[i]
            == if i == 10 || i == 11 then Codec.S16 else if i == 14 || i == 15 then Codec.U32 else Codec.U16
  {
  }

  function OffsetOf(i: nat): nat {
    if i <= 14 then 2 * i else if i == 15 then 32 else 36
  }

  lemma RawField(payload: Bytes, i: nat)
    requires |payload| >= 38 && i < 17
    ensures OffsetOf(i) + Codec.Width(TELEMETRY[i]) <= 38
    ensures Codec.Decode(TELEMETRY, payload)[i]
            == Some(Codec.UnpackField(TELEMETRY[i], payload[OffsetOf(i)..OffsetOf(i) + Codec.Width(TELEMETRY[i])]))
  {
    TelemetrySizes();
    SizeOfPrefix(i);
    assert TELEMETRY[..17] == TELEMETRY;
    assert Codec.Fitting(TELEMETRY, |payload|) == 17;
    hide Codec.Decode, Codec.Size, Codec.Fitting, Codec.UnpackField;
    FormatOf(i);
    Codec.FieldAt(TELEMETRY, payload, i);
    assert Codec.Size(TELEMETRY[..i]) == OffsetOf(i);
  }

  /** Where the fields are: two bytes each, two of them signed, and two counters of four bytes. */
  lemma TelemetryFields(payload: Bytes, i: nat)
    requires |payload| >= 38 && i < 17
    ensures var m := Codec.Decode(TELEMETRY, payload);
            var at := if i <= 14 then 2 * i else if i == 15 then 32 else 36;
            m[i] == Some(Codec.Number(
              if i == 14 || i == 15 then
                payload[at] as int + 256 * payload[at + 1] as int + 65536 * payload[at + 2] as int
                + 16777216 * payload[at + 3] as int
              else
                payload[at] as int + 256 * payload[at + 1] as int
                - if (i == 10 || i == 11) && payload[at + 1] >= 128 then 65536 else 0))
  {
    RawField(payload, i);
    FormatOf(i);
    var format, at := TELEMETRY[i], OffsetOf(i);
    hide Codec.Decode, Codec.UnpackField;
    var field := payload[at..at + Codec.Width(format)];
    if i == 14 || i == 15 {
      Codec.LongFields(field);
    } else {
      Codec.TwoByteFields(field);
    }
  }

  /** What follows the 40 bytes of a notification is not looked at. */
  lemma LongTelemetry(data: Bytes, rest: Bytes)
    requires |data| == 40
    ensures ParseTelemetry(data + rest) == ParseTelemetry(data)
    ensures ParseTelemetry(data).Some? && !ParseTelemetry(data).value.Truncated()
    ensures ParseTelemetry(data).value.payload == data[2..]
    ensures ParseTelemetry(data).value.Event() == data[1] as nat
  {
    assert (data + rest)[..2] == data[..2] && (data + rest)[2..40] == data[2..40] == data[2..];
    TwoBytes(data[..2]);
  }

  /**
   A notification cut off by a small MTU: the frame is accepted from three bytes on, keeps
   its event, and every field that arrived whole has the value that was sent.
   */
  lemma CutTelemetry(event: byte, sent: Codec.Message, length: nat)
    requires |sent| == |TELEMETRY| && Codec.Encode(TELEMETRY, sent).Some? && Codec.AllExact(TELEMETRY, sent)
    requires length <= TELEMETRY_FRAME_SIZE
    ensures |Codec.Encode(TELEMETRY, sent).value| == 38
    ensures var parsed := ParseTelemetry(TelemetryNotification(event, Codec.Encode(TELEMETRY, sent).value)[..length]);
            && (parsed.Some? <==> length > 2)
            && (parsed.Some? ==>
                  && parsed.value.Event() == event as nat
                  && (parsed.value.Truncated() <==> length < 40)
                  && var count := Codec.Fitting(TELEMETRY, length - 2);
                     var received := Codec.Decode(TELEMETRY, parsed.value.payload);
                     && received[..count] == sent[..count]
                     && forall i :: count <= i < |TELEMETRY| ==> received[i].None?)
  {
    hide Codec.Decode, Codec.Encode, Codec.Fitting, Codec.AllExact, ParseTelemetry;
    TelemetrySizes();
    var payload := Codec.Encode(TELEMETRY, sent).value;
    CutFrame(event, payload, length);
    if length > 2 {
      Codec.RoundTrip(TELEMETRY, sent);
      Codec.CutDecodesPrefix(TELEMETRY, payload, length - 2);
    }
  }
}
