/**
 * The event classification step of the AWS auto-discovery service: a raw
 * Amazon EventBridge message is decoded into its two envelope fields, and
 * then either rejected, routed to the ECS task handler, or refused as an
 * unexpected detail-type.
 *
 * The JSON decoder and the ECS handler are collaborators whose code is not
 * part of this model; they are parameters of `HandleEvent`.
 */
module Events {
  import opened Wrappers
  import opened Strings

  /**
   * A Go `error`: its text, and which kind of value it is. `DecodeError` is
   * one of the JSON decoder's typed errors; `NewError` is a plain value made
   * by `errors.New`. Callers can tell the two apart by type.
   */
  datatype Error = DecodeError(message: string) | NewError(message: string)

  /** The two top-level envelope fields, `source` and `detail-type`. */
  datatype EventMessage = EventMessage(source: string, detailType: string)

  /**
   * What decoding a raw message into an `EventMessage` produces: the text of
   * the decoder's error, or the two fields (an absent field decodes as "").
   */
  datatype Decoded = Malformed(reason: string) | Decoded(message: EventMessage)

  /** Go's result pair `([]Request, error)`; a nil slice is `[]`. */
  datatype Reply<R> = Reply(requests: seq<R>, err: Option<Error>)

  /** The one detail-type the handler recognises (compared case-sensitively). */
  const EcsTaskStateChange: string := "ECS Task State Change"

  /** The fixed pieces of the unexpected-detail-type error text. */
  const DetailTypeLead: string := "Unexpected detail-type "
  const SourceLead: string := " from source "

  /**
   * The error for a well-formed message whose detail-type is not recognised:
   * the detail-type sits right after the fixed lead, and the source closes
   * the text.
   */
  function UnexpectedDetailType(message: EventMessage): (e: Error)
    ensures |e.message| == |DetailTypeLead| + |message.detailType| + |SourceLead| + |message.source|
    ensures e.message[..|DetailTypeLead|] == DetailTypeLead
    ensures e.message[|DetailTypeLead|..|DetailTypeLead| + |message.detailType|] == message.detailType
    ensures e.message[|DetailTypeLead| + |message.detailType|..|e.message| - |message.source|] == SourceLead
    ensures e.message[|e.message| - |message.source|..] == message.source
    ensures e.NewError?
  {
    NewError(DetailTypeLead + message.detailType + SourceLead + message.source)
  }

  /**
   * handleEvent: decode, then switch on the detail-type alone. A decoding
   * failure is returned as it is with no requests; the ECS detail-type hands
   * the untouched raw message to the ECS handler and returns its reply; any
   * other detail-type yields no requests and an error naming both fields.
   */
  function HandleEvent<R>(decode: string -> Decoded, handleEcs: string -> Reply<R>, rawMessage: string): (r: Reply<R>)
    ensures decode(rawMessage).Malformed? ==>
      r == Reply([], Some(DecodeError(decode(rawMessage).reason)))
    ensures decode(rawMessage).Decoded? && decode(rawMessage).message.detailType == EcsTaskStateChange ==>
      r == handleEcs(rawMessage)
    ensures decode(rawMessage).Decoded? && decode(rawMessage).message.detailType != EcsTaskStateChange ==>
      r == Reply([], Some(UnexpectedDetailType(decode(rawMessage).message)))
  {
    match decode(rawMessage)
    case Malformed(reason) => Reply([], Some(DecodeError(reason)))
    case Decoded(message) =>
      if message.detailType == EcsTaskStateChange then handleEcs(rawMessage)
      else Reply([], Some(UnexpectedDetailType(message)))
  }

  /** A message is routed when it decodes and carries exactly the ECS detail-type. */
  predicate IsEcsTagged(decoded: Decoded)
  {
    decoded.Decoded? && decoded.message.detailType == EcsTaskStateChange
  }

  /**
   * Exactly one detail-type is recognised: the reply depends on which ECS
   * handler is plugged in (the raw message reaches it) precisely for
   * well-formed messages carrying the ECS detail-type.
   */
  lemma HandlerReachedIff<R>(decode: string -> Decoded, rawMessage: string)
    ensures (exists h1: string -> Reply<R>, h2: string -> Reply<R> ::
               HandleEvent(decode, h1, rawMessage) != HandleEvent(decode, h2, rawMessage))
        <==> IsEcsTagged(decode(rawMessage))
  {
    if IsEcsTagged(decode(rawMessage)) {
      var h1: string -> Reply<R> := _ => Reply([], None);
      var h2: string -> Reply<R> := _ => Reply([], Some(NewError("")));
      assert HandleEvent(decode, h1, rawMessage) != HandleEvent(decode, h2, rawMessage);
    } else {
      forall h1: string -> Reply<R>, h2: string -> Reply<R>
        ensures HandleEvent(decode, h1, rawMessage) == HandleEvent(decode, h2, rawMessage)
      {
      }
    }
  }

  /**
   * Routing looks at the detail-type alone: two well-formed messages with the
   * same detail-type take the same branch whatever their sources, so either
   * both reach the ECS handler or both are refused with no requests.
   */
  lemma RoutingIgnoresSource<R>(decode: string -> Decoded, raw1: string, raw2: string)
    requires decode(raw1).Decoded? && decode(raw2).Decoded?
    requires decode(raw1).message.detailType == decode(raw2).message.detailType
    ensures (exists h1: string -> Reply<R>, h2: string -> Reply<R> ::
               HandleEvent(decode, h1, raw1) != HandleEvent(decode, h2, raw1))
        <==> (exists h1: string -> Reply<R>, h2: string -> Reply<R> ::
               HandleEvent(decode, h1, raw2) != HandleEvent(decode, h2, raw2))
    ensures !IsEcsTagged(decode(raw1)) ==> forall handleEcs: string -> Reply<R> ::
      HandleEvent(decode, handleEcs, raw1).requests == [] && HandleEvent(decode, handleEcs, raw2).requests == []
  {
    HandlerReachedIff<R>(decode, raw1);
    HandlerReachedIff<R>(decode, raw2);
  }

  /**
   * Every error the handler produces itself (a decoding failure or an
   * unexpected detail-type) comes with no requests, and the kind of the
   * error tells the two paths apart.
   */
  lemma OwnErrorsCarryNoRequests<R>(decode: string -> Decoded, handleEcs: string -> Reply<R>, rawMessage: string)
    requires !IsEcsTagged(decode(rawMessage))
    ensures HandleEvent(decode, handleEcs, rawMessage).requests == []
    ensures HandleEvent(decode, handleEcs, rawMessage).err.Some?
    ensures HandleEvent(decode, handleEcs, rawMessage).err.value.DecodeError? <==> decode(rawMessage).Malformed?
  {
  }

  /**
   * An illustration of the third case of `HandleEvent`: the comparison is
   * exact, so an absent detail-type (decoded as ""), a lower-cased one, or
   * one with a trailing space is refused with an error.
   */
  lemma NearMissesRefused<R>(decode: string -> Decoded, handleEcs: string -> Reply<R>, rawMessage: string)
    requires decode(rawMessage).Decoded?
    requires decode(rawMessage).message.detailType in {"", "ecs task state change", "ECS Task State Change "}
    ensures HandleEvent(decode, handleEcs, rawMessage) ==
      Reply([], Some(UnexpectedDetailType(decode(rawMessage).message)))
  {
  }

  /** The unexpected-detail-type error names both the detail-type and the source. */
  lemma UnexpectedDetailTypeNamesBoth(message: EventMessage)
    ensures IsInfix(message.detailType, UnexpectedDetailType(message).message)
    ensures IsInfix(message.source, UnexpectedDetailType(message).message)
  {
    var text := UnexpectedDetailType(message).message;
    assert text == DetailTypeLead + message.detailType + (SourceLead + message.source);
    InfixOfConcat(DetailTypeLead, message.detailType, SourceLead + message.source);
    assert text == (DetailTypeLead + message.detailType + SourceLead) + message.source + [];
    InfixOfConcat(DetailTypeLead + message.detailType + SourceLead, message.source, []);
  }

  /**
   * Knowing one field, the error text gives back the other: messages that
   * share a source, or share a detail-type, have equal error texts only
   * when they are equal.
   */
  lemma UnexpectedDetailTypeRecoversField(m1: EventMessage, m2: EventMessage)
    requires m1.source == m2.source || m1.detailType == m2.detailType
    requires UnexpectedDetailType(m1) == UnexpectedDetailType(m2)
    ensures m1 == m2
  {
  }

  /**
   * Without knowing either field, the error text does not determine them:
   * a detail-type that itself contains " from source " makes two different
   * envelopes read alike.
   */
  lemma UnexpectedDetailTypeAmbiguous()
    ensures UnexpectedDetailType(EventMessage("b", "a from source c"))
         == UnexpectedDetailType(EventMessage("c from source b", "a"))
  {
  }
}
