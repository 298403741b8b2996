/**
 Transport sessions over an ideal Noise_IKpsk2 and an ideal AEAD (src/noise.rs).

 An exchange is named by the ephemeral keys of both sides, which are never
 reused. A response authenticates only under the pending state whose first
 message it answers; a ciphertext authenticates only under the key, direction
 and nonce that made it. Everything else fails authentication.
 */
module Noise {
  import opened Wrappers
  import opened Wire
  import opened Replay

  type Node = nat
  type Id = u64
  type Time = nat

  const SECOND: nat := 1_000_000_000
  const REKEY_AFTER_TIME: nat := 120 * SECOND
  const REJECT_AFTER_TIME: nat := 180 * SECOND
  const REKEY_AFTER_MESSAGES: nat := 0x1_0000_0000

  datatype Ephemeral = Ephemeral(node: Node, number: nat)

  datatype Key = Key(initiator: Ephemeral, responder: Ephemeral)

  datatype Cipher = Sealed(key: Key, fromInitiator: bool, nonce: u64, plaintext: seq<byte>) | Junk(length: nat) {
    function Length(): nat {
      match this
      case Sealed(_, _, _, plaintext) => |plaintext| + AEAD_TAG_SIZE
      case Junk(n) => n
    }
  }

  /** First handshake message; the identifier is bound into the transcript. */
  datatype Message1 = Init(handshakeId: Id, from: Node, to: Node, ephemeral: Ephemeral) | BadInit

  /** Second handshake message: the answer to one first message. */
  datatype Message2 = Answer(request: Message1, sessionId: Id, ephemeral: Ephemeral) | BadAnswer

  datatype Packet =
    | InitPacket(handshakeId: Id, message: Message1)
    | ResponsePacket(handshakeId: Id, answer: Message2)
    | TransportPacket(sessionId: Id, counter: u64, cipher: Cipher)

  datatype NoiseError = CryptoFailure | WrongSession | MalformedTransport | ReplayedCounter | CounterExhausted

  function Elapsed(now: Time, since: Time): nat {
    if now >= since then now - since else 0
  }

  datatype Session = Session(
    id: Id, key: Key, isInitiator: bool, createdAt: Time,
    sendCounter: u64, receivedMessages: u64, window: Window)
  {
    predicate ShouldRekey(now: Time) {
      || Elapsed(now, createdAt) >= REKEY_AFTER_TIME
      || sendCounter >= REKEY_AFTER_MESSAGES
      || receivedMessages >= REKEY_AFTER_MESSAGES
    }

    predicate IsExpired(now: Time) {
      Elapsed(now, createdAt) >= REJECT_AFTER_TIME || sendCounter == U64_MAX
    }

    /** Seal one message. `sealingWorks` is the outcome of the cipher call; the counter is spent either way. */
    function Encrypt(msgType: MsgType, payload: seq<byte>, sealingWorks: bool): (Session, Result<Packet, NoiseError>) {
      if sendCounter == U64_MAX then (this, Err(CounterExhausted))
      else
        var spent := this.(sendCounter := sendCounter + 1);
        if !sealingWorks then (spent, Err(CryptoFailure))
        else
          var cipher := Sealed(key, isInitiator, sendCounter, TransportPlaintext(msgType, payload));
          (spent, Ok(TransportPacket(id, sendCounter, cipher)))
    }

    /** The AEAD accepts this ciphertext as coming from the other side with this nonce. */
    predicate Authentic(counter: u64, cipher: Cipher) {
      cipher.Sealed? && cipher.key == key && cipher.fromInitiator == !isInitiator && cipher.nonce == counter
    }

    /** Authenticate, replay-check and open; an error after authentication leaves the window advanced. */
    function Decrypt(sessionId: Id, counter: u64, cipher: Cipher): (Session, Result<(MsgType, seq<byte>), NoiseError>) {
      if sessionId != id then (this, Err(WrongSession))
      else if !window.Fresh(counter) then (this, Err(ReplayedCounter))
      else if cipher.Length() < AEAD_TAG_SIZE + 1 then (this, Err(MalformedTransport))
      else if !Authentic(counter, cipher) then (this, Err(CryptoFailure))
      else
        var advanced := this.(window := window.Accept(counter),
                              receivedMessages :=
                                if receivedMessages == U64_MAX then U64_MAX else receivedMessages + 1);
        match DecodeTransportPlaintext(cipher.plaintext)
        case None => (advanced, Err(MalformedTransport))
        case Some(message) => (advanced, Ok(message))
    }
  }

  function NewSession(id: Id, key: Key, isInitiator: bool, now: Time): Session {
    Session(id, key, isInitiator, now, 0, 0, EMPTY_WINDOW)
  }

  /** The initiator's last step: only the answer to its own first message makes a session. */
  function InitiatorFinalize(state: Message1, answer: Message2, now: Time): Result<Session, NoiseError> {
    if state.Init? && answer.Answer? && answer.request == state
    then Ok(NewSession(answer.sessionId, Key(state.ephemeral, answer.ephemeral), true, now))
    else Err(CryptoFailure)
  }

  /** The responder's step: the message must be for this node, from the expected peer, under its own identifier. */
  function ResponderRespond(self: Node, expected: Node, handshakeId: Id, message: Message1,
                            sessionId: Id, ephemeral: Ephemeral, now: Time): Result<(Message2, Session), NoiseError>
  {
    if message.Init? && message.handshakeId == handshakeId && message.to == self && message.from == expected
    then
      var session := NewSession(sessionId, Key(message.ephemeral, ephemeral), false, now);
      Ok((Answer(message, sessionId, ephemeral), session))
    else Err(CryptoFailure)
  }

  /** What one side seals the other side opens, exactly once, and gets the same message back. */
  lemma SealThenOpen(sender: Session, receiver: Session, msgType: MsgType, payload: seq<byte>)
    requires sender.key == receiver.key && sender.id == receiver.id && sender.isInitiator != receiver.isInitiator
    requires sender.sendCounter < U64_MAX && receiver.window.Valid()
    requires receiver.window.Fresh(sender.sendCounter)
    ensures var packet := sender.Encrypt(msgType, payload, true).1.value;
            var (after, result) := receiver.Decrypt(packet.sessionId, packet.counter, packet.cipher);
            && result == Ok((msgType, payload))
            && after.Decrypt(packet.sessionId, packet.counter, packet.cipher) == (after, Err(ReplayedCounter))
  {
    PlaintextRoundTrip(TransportPlaintext(msgType, payload), msgType, payload);
  }

  /** A session object as the source keeps it: counters, and the bitmap window in place. */
  class LiveSession {
    const id: Id
    const key: Key
    const isInitiator: bool
    const createdAt: Time
    var sendCounter: u64
    var receivedMessages: u64
    const replay: ReplayWindow

    ghost predicate Valid()
      reads this, replay, replay.bits
    {
      replay.Valid()
    }

    ghost function View(): Session
      reads this, replay
    {
      Session(id, key, isInitiator, createdAt, sendCounter, receivedMessages, replay.window)
    }

    constructor (id: Id, key: Key, isInitiator: bool, now: Time)
      ensures Valid() && fresh(replay) && fresh(replay.bits)
      ensures View() == NewSession(id, key, isInitiator, now)
    {
      this.id, this.key, this.isInitiator, this.createdAt := id, key, isInitiator, now;
      sendCounter, receivedMessages := 0, 0;
      replay := new ReplayWindow();
    }

    method Encrypt(msgType: MsgType, payload: seq<byte>, sealingWorks: bool)
      returns (result: Result<Packet, NoiseError>)
      requires Valid()
      modifies this
      ensures Valid()
      ensures (View(), result) == old(View()).Encrypt(msgType, payload, sealingWorks)
    {
      var counter := sendCounter;
      if sendCounter == U64_MAX {
        return Err(CounterExhausted);
      }
      sendCounter := sendCounter + 1;
      var plaintext := EncodeTransportPlaintext(msgType, payload);
      if !sealingWorks {
        return Err(CryptoFailure);
      }
      result := Ok(TransportPacket(id, counter, Sealed(key, isInitiator, counter, plaintext)));
    }

    method Decrypt(sessionId: Id, counter: u64, cipher: Cipher)
      returns (result: Result<(MsgType, seq<byte>), NoiseError>)
      requires Valid()
      modifies this, replay, replay.bits
      ensures Valid()
      ensures (View(), result) == old(View()).Decrypt(sessionId, counter, cipher)
    {
      if sessionId != id {
        return Err(WrongSession);
      }
      var acceptable := replay.WouldAccept(counter);
      if !acceptable {
        return Err(ReplayedCounter);
      }
      if cipher.Length() < AEAD_TAG_SIZE + 1 {
        return Err(MalformedTransport);
      }
      if !(cipher.Sealed? && cipher.key == key && cipher.fromInitiator == !isInitiator && cipher.nonce == counter) {
        return Err(CryptoFailure);
      }
      var recorded := replay.MarkAuthenticated(counter);
      receivedMessages := if receivedMessages == U64_MAX then U64_MAX else receivedMessages + 1;
      match DecodeTransportPlaintext(cipher.plaintext) {
        case None => result := Err(MalformedTransport);
        case Some(message) => result := Ok(message);
      }
    }
  }
}
