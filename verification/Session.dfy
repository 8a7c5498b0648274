/** The interface of the Noise IK handshake and the session it opens, with symbolic keys:
    a message can be read only by the key it was written for, a response only against the
    init it answers, and a ciphertext only by the other end under the same header and counter. */
module Session {
  import opened Netip
  import opened Wrappers

  /** The public half of the static key pair that a device registered. */
  datatype Key = Key(owner: DeviceId)

  /** First handshake message: written by `author`, readable by `reader`, under a fresh ephemeral key. */
  datatype Init = Init(author: Key, reader: Key, ephemeral: nat)

  /** Second handshake message: the reader's answer to one particular init. */
  datatype Response = Response(init: Init, ephemeral: nat)

  /** What an initiator keeps until the reply arrives. */
  datatype Handshake = Handshake(init: Init)

  /** One end of an open session. The two ends differ only in direction. */
  datatype Session = Session(init: Init, ephemeral: nat, initiator: bool) {
    function OtherEnd(): Session { this.(initiator := !initiator) }
  }

  function WriteInit(own: Key, peer: Key, ephemeral: nat): Handshake {
    Handshake(Init(own, peer, ephemeral))
  }

  /** Reading an init reveals its author to the one key it was written for. */
  function ReadInit(own: Key, message: Init): Option<Key> {
    if message.reader == own then Some(message.author) else None
  }

  function WriteResponse(message: Init, ephemeral: nat): (Response, Session) {
    (Response(message, ephemeral), Session(message, ephemeral, false))
  }

  function ReadResponse(h: Handshake, message: Response): Option<Session> {
    if message.init == h.init then Some(Session(h.init, message.ephemeral, true)) else None
  }

  /** The two ends of an exchange hold the two directions of one session. */
  lemma ExchangeAgrees(a: Key, b: Key, e: nat, f: nat)
    ensures
      var h := WriteInit(a, b, e);
      var (reply, atB) := WriteResponse(h.init, f);
      ReadInit(b, h.init) == Some(a) && ReadResponse(h, reply) == Some(atB.OtherEnd())
  {}

  /** `plain` sealed by one end of a session, with the header as additional data. */
  datatype Sealed<H, P> = Sealed(session: Session, header: H, counter: uint64, plain: P)

  function Seal<H, P>(s: Session, header: H, plain: P, counter: uint64): Sealed<H, P> {
    Sealed(s, header, counter, plain)
  }

  function Open<H(==), P>(s: Session, header: H, text: Sealed<H, P>, counter: uint64): Option<P> {
    if text.session == s.OtherEnd() && text.header == header && text.counter == counter
    then Some(text.plain) else None
  }

  datatype HandshakeError = ErrRole | ErrUnreadable | ErrOutOfTurn

  /** One side of the two message exchange, as the object that is used once and thrown away. Each side
      may only take its own steps, and the Noise state under it only in turn; a message that does not
      verify changes nothing, so the right one can still be read after it. */
  class HandshakeState {
    const initiator: bool
    const own: Key
    var peerStatic: Option<Key>
    var init: Option<Init>
    var finished: bool

    /** The exchange has begun at most once, and ends only after it began; each side knows its peer as it should. */
    ghost predicate Valid()
      reads this
    {
      && (finished ==> init.Some?)
      && (initiator ==> peerStatic.Some?)
      && (initiator && init.Some? ==> init.value.author == own && peerStatic == Some(init.value.reader))
      && (!initiator ==> peerStatic == if init.Some? then Some(init.value.author) else None)
      && (!initiator && init.Some? ==> ReadInit(own, init.value).Some?)
    }

    constructor Initiator(own: Key, peer: Key)
      ensures Valid() && initiator && this.own == own && peerStatic == Some(peer) && init.None? && !finished
    {
      initiator, this.own := true, own;
      peerStatic, init, finished := Some(peer), None, false;
    }

    constructor Responder(own: Key)
      ensures Valid() && !initiator && this.own == own && init.None? && !finished
    {
      initiator, this.own := false, own;
      peerStatic, init, finished := None, None, false;
    }

    method WriteInitMessage(ephemeral: nat) returns (r: Result<Init, HandshakeError>)
      requires Valid()
      modifies this
      ensures Valid() && finished == old(finished) && peerStatic == old(peerStatic)
      ensures if !initiator then r == Failure(ErrRole) && init == old(init)
              else if old(init).Some? then r == Failure(ErrOutOfTurn) && init == old(init)
              else init == Some(WriteInit(own, peerStatic.value, ephemeral).init) && r == Success(init.value)
    {
      if !initiator {
        return Failure(ErrRole);
      }
      if init.Some? {
        return Failure(ErrOutOfTurn);
      }
      init := Some(WriteInit(own, peerStatic.value, ephemeral).init);
      return Success(init.value);
    }

    method ReadInitMessage(message: Init) returns (r: Result<Key, HandshakeError>)
      requires Valid()
      modifies this
      ensures Valid() && finished == old(finished)
      ensures r.Failure? ==> init == old(init) && peerStatic == old(peerStatic)
      ensures
        var author := ReadInit(own, message);
        if initiator then r == Failure(ErrRole)
        else if old(init).Some? then r == Failure(ErrOutOfTurn)
        else if author.None? then r == Failure(ErrUnreadable)
        else r == Success(author.value) && init == Some(message) && peerStatic == author
    {
      if initiator {
        return Failure(ErrRole);
      }
      if init.Some? {
        return Failure(ErrOutOfTurn);
      }
      var author := ReadInit(own, message);
      if author.None? {
        return Failure(ErrUnreadable);
      }
      init, peerStatic := Some(message), author;
      return Success(author.value);
    }

    method WriteResponseMessage(ephemeral: nat) returns (r: Result<(Response, Session), HandshakeError>)
      requires Valid()
      modifies this
      ensures Valid() && init == old(init) && peerStatic == old(peerStatic)
      ensures r.Failure? ==> finished == old(finished)
      ensures if initiator then r == Failure(ErrRole)
              else if init.None? || old(finished) then r == Failure(ErrOutOfTurn)
              else r == Success(WriteResponse(init.value, ephemeral)) && finished
    {
      if initiator {
        return Failure(ErrRole);
      }
      if init.None? || finished {
        return Failure(ErrOutOfTurn);
      }
      finished := true;
      return Success(WriteResponse(init.value, ephemeral));
    }

    method ReadResponseMessage(message: Response) returns (r: Result<Session, HandshakeError>)
      requires Valid()
      modifies this
      ensures Valid() && init == old(init) && peerStatic == old(peerStatic)
      ensures r.Failure? ==> finished == old(finished)
      ensures
        if !initiator then r == Failure(ErrRole)
        else if init.None? || old(finished) then r == Failure(ErrOutOfTurn)
        else match ReadResponse(Handshake(init.value), message)
             case None => r == Failure(ErrUnreadable)
             case Some(session) => r == Success(session) && finished
    {
      if !initiator {
        return Failure(ErrRole);
      }
      if init.None? || finished {
        return Failure(ErrOutOfTurn);
      }
      var session := ReadResponse(Handshake(init.value), message);
      if session.None? {
        return Failure(ErrUnreadable);
      }
      finished := true;
      return Success(session.value);
    }
  }
}
