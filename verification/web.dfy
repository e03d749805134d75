/**
 The inbound door report: the sensor posts a body whose first byte says where
 the door is. The byte selects one of the three transitions of the policy
 engine and the response sent back to the sensor.
 */
module Ingress {
  import opened DoorState

  newtype Byte = b: int | 0 <= b < 256

  /** Which policy-engine transition a report invokes. */
  datatype Transition = ToOpen | ToClosed | ToMissing

  /** An HTTP response: status code and body text. */
  datatype Response = Response(code: int, body: string)

  const ClosedAck: Response := Response(200, "Status updated to closed\n")
  const OpenAck: Response := Response(200, "Status updated to open\n")

  /** The reply to an unrecognised report: "I'm a teapot", with no body. */
  const Rejected: Response := Response(418, "")

  /** The byte read as a character, code point for code point. */
  function AsChar(b: Byte): char {
    b as int as char
  }

  /**
   Classifies a report by its first byte alone: '1' closes, '0' opens, and
   every other byte marks the door missing and is answered with 418.
   */
  function Classify(body: seq<Byte>): (r: (Transition, Response))
    requires |body| > 0
    ensures r.0 == ToClosed <==> AsChar(body[0]) == '1'
    ensures r.0 == ToOpen <==> AsChar(body[0]) == '0'
    ensures r.0 == ToMissing <==> AsChar(body[0]) !in {'0', '1'}
    ensures AsChar(body[0]) == '1' ==> r.1 == Response(200, "Status updated to closed\n")
    ensures AsChar(body[0]) == '0' ==> r.1 == Response(200, "Status updated to open\n")
    ensures r.0 == ToMissing ==> r.1 == Response(418, "")
    ensures r.1.code == 200 <==> r.0 != ToMissing
  {
    match AsChar(body[0])
    case '1' => (ToClosed, ClosedAck)
    case '0' => (ToOpen, OpenAck)
    case _ => (ToMissing, Rejected)
  }

  /** The position a transition leaves the door in. */
  function Target(t: Transition): DoorPosition {
    match t
    case ToOpen => Open
    case ToClosed => Closed
    case ToMissing => Missing
  }

  /** Invokes the transition on the state. */
  function Apply(s: State, t: Transition, now: Time): (r: State)
    ensures r.status == Target(t)
    ensures Valid(s) ==> Valid(r)
  {
    match t
    case ToClosed => CloseDoor(s, now)
    case ToOpen => OpenDoor(s, now)
    case ToMissing => MarkMissing(s)
  }

  /** Handles one report received at `now`: the new state and the reply. */
  function Update(s: State, now: Time, body: seq<Byte>): (r: (State, Response))
    requires |body| > 0
    ensures AsChar(body[0]) == '1' ==> r == (CloseDoor(s, now), Response(200, "Status updated to closed\n"))
    ensures AsChar(body[0]) == '0' ==> r == (OpenDoor(s, now), Response(200, "Status updated to open\n"))
    ensures AsChar(body[0]) !in {'0', '1'} ==> r == (MarkMissing(s), Response(418, ""))
    ensures r.1.code == 200 <==> r.0.status != Missing
    ensures Valid(s) ==> Valid(r.0)
  {
    var (t, response) := Classify(body);
    (Apply(s, t, now), response)
  }

  /** Only the first byte matters: whatever follows it is ignored. */
  lemma OnlyFirstByteMatters(s: State, now: Time, body: seq<Byte>, rest: seq<Byte>)
    requires |body| > 0
    ensures Classify(body) == Classify([body[0]] + rest)
    ensures Update(s, now, body) == Update(s, now, [body[0]] + rest)
  {
  }

  /** Exactly the two bytes '0' and '1' are recognised; all the others mark the door missing. */
  lemma RecognisedBytes()
    ensures (set b: Byte | Classify([b]).0 != ToMissing) == {0x30, 0x31}
  {
  }
}
