# secureCodeBox AWS auto-discovery: event classification

This project models the step of the secureCodeBox AWS auto-discovery service
that classifies incoming Amazon EventBridge messages (`MonitorService.handleEvent`
and its `EventMessage` envelope). A raw message is decoded into its two
top-level envelope fields, `source` and `detail-type`. Then exactly one of
three things happens:

- the message does not decode: the decoder's error is returned, with no requests;
- the detail-type is exactly `ECS Task State Change`: the untouched raw message
  is handed to the ECS task handler and its reply is returned;
- any other detail-type (including the empty one of a message without the
  field): no requests, and the error
  `Unexpected detail-type <detail-type> from source <source>`.

Files:

- `Wrappers.dfy`: `Option`, standing for Go's nil-or-value.
- `Strings.dfy`: `IsInfix` (a piece of text occurs inside another) and the
  lemma that a piece occurs in any concatenation around it.
- `Events.dfy`: the envelope, the decode outcome, the reply pair, the handler
  and the lemmas about it.

The JSON decoder and the ECS handler are collaborators whose code is not part
of this model. `HandleEvent` takes them as parameters: `decode` maps the raw
text to `Malformed(reason)` or `Decoded(EventMessage(source, detailType))`, and
`handleEcs` maps the raw text to a reply. Every property below holds for every
choice of the two.

The code keys on the detail-type alone, uses the source only in the error
text, and returns the decoder's own error unchanged.

## Model

| member | source | states |
|---|---|---|
| `Events.HandleEvent` | auto-discovery/cloud-aws/aws/events.go:19-34 | a decoding failure is returned as the decoder's own error (its kind and text) with no requests; a well-formed message with the ECS detail-type gets exactly the ECS handler's reply to the unchanged raw message; any other detail-type gets no requests and the unexpected-detail-type error built from both fields |
| `Events.UnexpectedDetailType` | auto-discovery/cloud-aws/aws/events.go:32 | the error is a plain `errors.New` value whose text is exactly `Unexpected detail-type `, then the detail-type, then ` from source `, then the source |
| `Events.HandlerReachedIff` | auto-discovery/cloud-aws/aws/events.go:28-33 | exactly one detail-type is recognised: the reply depends on the ECS handler if and only if the message decodes and its detail-type equals `ECS Task State Change` |
| `Events.RoutingIgnoresSource` | auto-discovery/cloud-aws/aws/events.go:28-33 | two well-formed messages with the same detail-type and any sources either both reach the ECS handler or both are refused with no requests |
| `Events.OwnErrorsCarryNoRequests` | auto-discovery/cloud-aws/aws/events.go:21-32 | whenever the message is not routed to the ECS handler (decode failure or unrecognised detail-type) the reply carries an error and no requests, and the error is a decoder error exactly when decoding failed |
| `Events.NearMissesRefused` | auto-discovery/cloud-aws/aws/events.go:28-32 | the comparison is exact and case-sensitive: an empty, lower-cased or space-padded detail-type is refused with the unexpected-detail-type error |
| `Events.UnexpectedDetailTypeNamesBoth` | auto-discovery/cloud-aws/aws/events.go:32 | the unexpected-detail-type error text contains both the detail-type and the source |
| `Events.UnexpectedDetailTypeRecoversField` | auto-discovery/cloud-aws/aws/events.go:32 | for envelopes sharing a source, or sharing a detail-type, equal error texts mean equal envelopes |
| `Events.UnexpectedDetailTypeAmbiguous` | auto-discovery/cloud-aws/aws/events.go:32 | the error text alone does not determine the pair: detail-type `a from source c` with source `b` reads the same as detail-type `a` with source `c from source b` |

## Left out

- JSON decoding (events.go:21): the decoder is the `decode` parameter; its rules (field-name matching, zero values for absent fields, error texts) are library behaviour not part of this model.
- `HandleEcsEvent` (events.go:30) is not part of this model; it is the `handleEcs` parameter. So the model cannot show that an ECS task state change yields a non-empty request list.
- The debug log call (events.go:26): a side effect with no bearing on the reply.
- `Events.HandleEvent`: Go distinguishes a nil slice from an empty one; the model writes both as `[]`.
- The `MonitorService` receiver: `handleEvent` uses it only for the logger.
- `kubernetes.Request` is not part of this model; requests are a type parameter.
- Go errors are reduced to their text and their kind (a decoder error or an `errors.New` value); the decoder's concrete error types (syntax error, type mismatch) are not distinguished from each other.
