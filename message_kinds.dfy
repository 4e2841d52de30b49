/**
 * The concrete message classes of the bus that carry a fixed type and, for
 * some, a payload: MarineSensorDataMsg, PowerTrackMsg, WingSailCommandMsg,
 * RudderCommandMsg, ServerWaypointsReceivedMsg and PowerOffCommand.
 *
 * Each class fixes its message type in its value constructors; the classes
 * do not agree on argument order: MarineSensorDataMsg, PowerTrackMsg and
 * ServerWaypointsReceivedMsg take (destination, source), WingSailCommandMsg,
 * RudderCommandMsg and PowerOffCommand take (source, destination).
 *
 * The deserialising constructors take the type from the stream, not from the
 * class, and then read the class's payload.  MarineSensorDataMsg takes the
 * deserialiser by reference and so advances the caller's cursor; the other
 * classes take it by value, read from a copy, and leave the caller's
 * deserialiser where it was.
 */
module MessageKinds {
  import opened Common
  import opened Messages

  // ----------------------------------------------------------------------------
  // Value constructors
  // ----------------------------------------------------------------------------

  /** MarineSensorDataMsg(destination, source, temperature, conductivity, ph, salinity). */
  function NewMarineSensorData(destination: NodeID, source: NodeID,
                               temperature: real, conductivity: real, ph: real, salinity: real): (m: Message)
    ensures m.msgType == MarineSensorData && m.valid
    ensures m.destination == destination && m.source == source
    ensures m.payload == MarineSensor(temperature, conductivity, ph, salinity)
  {
    Directed(MarineSensorData, source, destination).(payload := MarineSensor(temperature, conductivity, ph, salinity))
  }

  /** MarineSensorDataMsg(temperature, conductivity, ph, salinity): no source, no destination. */
  function BroadcastMarineSensorData(temperature: real, conductivity: real, ph: real, salinity: real): (m: Message)
    ensures m.IsBroadcast() && m.source == NoNode
    ensures m == NewMarineSensorData(NoNode, NoNode, temperature, conductivity, ph, salinity)
  {
    Directed(MarineSensorData, NoNode, NoNode).(payload := MarineSensor(temperature, conductivity, ph, salinity))
  }

  /** PowerTrackMsg(destination, source, balance). */
  function NewPowerTrack(destination: NodeID, source: NodeID, balance: real): (m: Message)
    ensures m.msgType == PowerTrackMsg && m.valid
    ensures m.destination == destination && m.source == source
    ensures m.payload == PowerBalance(balance)
  {
    Directed(PowerTrackMsg, source, destination).(payload := PowerBalance(balance))
  }

  /** PowerTrackMsg(balance): no source, no destination. */
  function BroadcastPowerTrack(balance: real): (m: Message)
    ensures m.IsBroadcast() && m.source == NoNode
    ensures m == NewPowerTrack(NoNode, NoNode, balance)
  {
    Directed(PowerTrackMsg, NoNode, NoNode).(payload := PowerBalance(balance))
  }

  /** WingSailCommandMsg(source, destination, tailAngle); the angle is stored as given, unclamped. */
  function NewWingSailCommand(source: NodeID, destination: NodeID, tailAngle: real): (m: Message)
    ensures m.msgType == WingSailCommand && m.valid
    ensures m.source == source && m.destination == destination
    ensures m.payload == TailAngle(tailAngle)
  {
    Directed(WingSailCommand, source, destination).(payload := TailAngle(tailAngle))
  }

  /** WingSailCommandMsg(tailAngle): no source, no destination. */
  function BroadcastWingSailCommand(tailAngle: real): (m: Message)
    ensures m.IsBroadcast() && m.source == NoNode
    ensures m == NewWingSailCommand(NoNode, NoNode, tailAngle)
  {
    Directed(WingSailCommand, NoNode, NoNode).(payload := TailAngle(tailAngle))
  }

  /** RudderCommandMsg(source, destination, rudderAngle); the angle is stored as given, unclamped. */
  function NewRudderCommand(source: NodeID, destination: NodeID, rudderAngle: real): (m: Message)
    ensures m.msgType == RudderCommand && m.valid
    ensures m.source == source && m.destination == destination
    ensures m.payload == RudderAngle(rudderAngle)
  {
    Directed(RudderCommand, source, destination).(payload := RudderAngle(rudderAngle))
  }

  /** RudderCommandMsg(rudderAngle): no source, no destination. */
  function BroadcastRudderCommand(rudderAngle: real): (m: Message)
    ensures m.IsBroadcast() && m.source == NoNode
    ensures m == NewRudderCommand(NoNode, NoNode, rudderAngle)
  {
    Directed(RudderCommand, NoNode, NoNode).(payload := RudderAngle(rudderAngle))
  }

  /** ServerWaypointsReceivedMsg(destination, source). */
  function NewServerWaypointsReceived(destination: NodeID, source: NodeID): (m: Message)
    ensures m == Directed(ServerWaypointsReceived, source, destination)
  {
    Message(ServerWaypointsReceived, source, destination, true, NoPayload)
  }

  /** ServerWaypointsReceivedMsg(): no source, no destination. */
  function DefaultServerWaypointsReceived(): (m: Message)
    ensures m == NewServerWaypointsReceived(NoNode, NoNode)
  {
    Message(ServerWaypointsReceived, NoNode, NoNode, true, NoPayload)
  }

  /** PowerOffCommand(source, destination). */
  function NewPowerOffCommand(source: NodeID, destination: NodeID): (m: Message)
    ensures m == Directed(PowerOffCommand, source, destination)
  {
    Message(PowerOffCommand, source, destination, true, NoPayload)
  }

  /** PowerOffCommand(source), built with Message's two-argument constructor. */
  function PowerOffCommandFrom(source: NodeID): (m: Message)
    ensures m == NewPowerOffCommand(source, NoNode)
  {
    FromSource(PowerOffCommand, source)
  }

  /**
   * PowerOffCommand(), built with Message's type-only constructor: its
   * validity flag is whatever `indeterminate` says.
   */
  function DefaultPowerOffCommand(indeterminate: bool): (m: Message)
    ensures m.valid == indeterminate
    ensures m.(valid := true) == NewPowerOffCommand(NoNode, NoNode)
  {
    OfType(PowerOffCommand, indeterminate)
  }

  /**
   * The same two node arguments mean opposite things to different classes:
   * the first is the destination of a PowerTrackMsg, a MarineSensorDataMsg
   * and a ServerWaypointsReceivedMsg but the source of a WingSailCommandMsg,
   * a RudderCommandMsg and a PowerOffCommand.
   */
  lemma ArgumentOrderDiffers(first: NodeID, second: NodeID, x: real)
    ensures NewPowerTrack(first, second, x).destination == first
    ensures NewMarineSensorData(first, second, x, x, x, x).destination == first
    ensures NewServerWaypointsReceived(first, second).destination == first
    ensures NewWingSailCommand(first, second, x).source == first
    ensures NewRudderCommand(first, second, x).source == first
    ensures NewPowerOffCommand(first, second).source == first
  {
  }

  // ----------------------------------------------------------------------------
  // Wire layout of each class
  // ----------------------------------------------------------------------------

  datatype MessageClass =
    | BaseClass
    | MarineSensorDataClass
    | PowerTrackClass
    | WingSailCommandClass
    | RudderCommandClass
    | ServerWaypointsReceivedClass
    | PowerOffCommandClass

  /** The payload shape each class carries. */
  predicate Carries(c: MessageClass, p: Payload)
  {
    match c
    case MarineSensorDataClass => p.MarineSensor?
    case PowerTrackClass => p.PowerBalance?
    case WingSailCommandClass => p.TailAngle?
    case RudderCommandClass => p.RudderAngle?
    case _ => p.NoPayload?
  }

  function PayloadLayout(c: MessageClass): seq<Kind>
  {
    match c
    case MarineSensorDataClass => [FloatKind, FloatKind, FloatKind, FloatKind]
    case PowerTrackClass => [FloatKind]
    case WingSailCommandClass => [FloatKind]
    case RudderCommandClass => [FloatKind]
    case _ => []
  }

  function Layout(c: MessageClass): seq<Kind>
  {
    HeaderLayout + PayloadLayout(c)
  }

  /** The payload fields that each class's Serialise writes after the header, in order. */
  function PayloadTokens(p: Payload): seq<Token>
  {
    match p
    case NoPayload => []
    case MarineSensor(t, c, ph, s) => [FloatToken(t), FloatToken(c), FloatToken(ph), FloatToken(s)]
    case PowerBalance(b) => [FloatToken(b)]
    case TailAngle(a) => [FloatToken(a)]
    case RudderAngle(a) => [FloatToken(a)]
  }

  /** All that Serialise writes for a message: its header, then its payload. */
  function Encoding(m: Message): seq<Token>
  {
    HeaderTokens(m) + PayloadTokens(m.payload)
  }

  /** The payload a class's deserialising constructor reads from position `p`. */
  ghost function PayloadAt(c: MessageClass, ts: seq<Token>, p: nat): (r: Payload)
    requires Fits(ts, p, PayloadLayout(c))
    ensures Carries(c, r)
  {
    match c
    case MarineSensorDataClass =>
      assert KindOf(ts[p + 0]) == FloatKind && KindOf(ts[p + 1]) == FloatKind;
      assert KindOf(ts[p + 2]) == FloatKind && KindOf(ts[p + 3]) == FloatKind;
      MarineSensor(ts[p].f, ts[p + 1].f, ts[p + 2].f, ts[p + 3].f)
    case PowerTrackClass =>
      assert KindOf(ts[p + 0]) == FloatKind;
      PowerBalance(ts[p].f)
    case WingSailCommandClass =>
      assert KindOf(ts[p + 0]) == FloatKind;
      TailAngle(ts[p].f)
    case RudderCommandClass =>
      assert KindOf(ts[p + 0]) == FloatKind;
      RudderAngle(ts[p].f)
    case _ => NoPayload
  }

  /** The message a class's deserialising constructor builds when every read succeeds. */
  ghost function DecodeAt(c: MessageClass, ts: seq<Token>, p: nat): (m: Message)
    requires Fits(ts, p, Layout(c))
    ensures m.valid && Carries(c, m.payload)
  {
    FitsAppend(ts, p, HeaderLayout, PayloadLayout(c));
    HeaderAt(ts, p).(payload := PayloadAt(c, ts, p + 3))
  }

  /**
   * Round trip: whatever follows it in the stream, the encoding of a message
   * fits the layout of its class and decodes to the same message, marked valid.
   */
  lemma {:induction false} EncodingRoundTrip(c: MessageClass, m: Message, rest: seq<Token>)
    requires Carries(c, m.payload)
    ensures Fits(Encoding(m) + rest, 0, Layout(c))
    ensures DecodeAt(c, Encoding(m) + rest, 0) == m.(valid := true)
  {
    var ts := Encoding(m) + rest;
    assert ts == HeaderTokens(m) + (PayloadTokens(m.payload) + rest);
    HeaderRoundTrip(m, PayloadTokens(m.payload) + rest);
    assert Fits(ts, 3, PayloadLayout(c)) by {
      forall i | 0 <= i < |PayloadLayout(c)| ensures KindOf(ts[3 + i]) == PayloadLayout(c)[i] {
        assert ts[3 + i] == PayloadTokens(m.payload)[i];
      }
    }
    FitsAppend(ts, 0, HeaderLayout, PayloadLayout(c));
    assert PayloadAt(c, ts, 3) == m.payload by {
      assert ts[3..3 + |PayloadTokens(m.payload)|] == PayloadTokens(m.payload);
    }
  }

  // ----------------------------------------------------------------------------
  // Serialise (virtual: the class of the message picks the fields written)
  // ----------------------------------------------------------------------------

  method Serialise(m: Message, s: Serialiser)
    modifies s
    ensures s.tokens == old(s.tokens) + Encoding(m)
  {
    SerialiseHeader(m, s);
    match m.payload
    case NoPayload =>
    case MarineSensor(t, c, ph, sal) =>
      s.SerialiseFloat(t);
      s.SerialiseFloat(c);
      s.SerialiseFloat(ph);
      s.SerialiseFloat(sal);
    case PowerBalance(b) => s.SerialiseFloat(b);
    case TailAngle(a) => s.SerialiseFloat(a);
    case RudderAngle(a) => s.SerialiseFloat(a);
  }

  // ----------------------------------------------------------------------------
  // Deserialising constructors
  // ----------------------------------------------------------------------------

  /** Where the chain of payload reads of MarineSensorDataMsg stops, from the float tokens it met. */
  lemma FloatsRead(ts: seq<Token>, q: nat, k: nat)
    requires q + k <= |ts| && k <= 4
    requires forall i | q <= i < q + k :: ts[i].FloatToken?
    requires k < 4 ==> !(q + k < |ts| && ts[q + k].FloatToken?)
    ensures LeadingReads(ts, q, PayloadLayout(MarineSensorDataClass)) == k
  {
    var floats := PayloadLayout(MarineSensorDataClass);
    assert Fits(ts, q, floats[..k]) by {
      forall i | q <= i < q + k ensures KindOf(ts[i]) == floats[..k][i - q] {
        assert ts[i].FloatToken?;
      }
    }
    LeadingReadsIs(ts, q, floats, k);
  }

  /**
   * The chain of four readFloat calls of MarineSensorDataMsg(MessageDeserialiser&),
   * which stops at the first failing read.
   */
  method ReadReadings(d: Deserialiser) returns (ok: bool, temperature: real, conductivity: real, ph: real, salinity: real)
    requires d.Valid()
    modifies d
    ensures d.Valid() && old(d.pos) <= d.pos <= old(d.pos) + 4
    ensures forall i | old(d.pos) <= i < d.pos :: d.tokens[i].FloatToken?
    ensures ok <==> d.pos == old(d.pos) + 4
    ensures !ok ==> !(d.pos < |d.tokens| && d.tokens[d.pos].FloatToken?)
    ensures ok ==> temperature == d.tokens[old(d.pos)].f && conductivity == d.tokens[old(d.pos) + 1].f
    ensures ok ==> ph == d.tokens[old(d.pos) + 2].f && salinity == d.tokens[old(d.pos) + 3].f
  {
    temperature, conductivity, ph, salinity := 0.0, 0.0, 0.0, 0.0;
    ok, temperature := d.ReadFloat();
    if ok {
      ok, conductivity := d.ReadFloat();
      if ok {
        ok, ph := d.ReadFloat();
        if ok {
          ok, salinity := d.ReadFloat();
        }
      }
    }
  }

  /**
   * MarineSensorDataMsg(MessageDeserialiser&): reads the header, then
   * temperature, conductivity, ph and salinity from wherever the header reads
   * stopped.  Any failed read leaves the message invalid: validity is only
   * ever cleared, never restored.
   */
  method DeserialiseMarineSensorData(d: Deserialiser) returns (m: Message)
    requires d.Valid()
    modifies d
    ensures d.Valid()
    ensures m.valid <==> Fits(d.tokens, old(d.pos), Layout(MarineSensorDataClass))
    ensures !Fits(d.tokens, old(d.pos), HeaderLayout) ==> !m.valid
    ensures m.valid ==> m == DecodeAt(MarineSensorDataClass, d.tokens, old(d.pos)) && d.pos == old(d.pos) + 7
    ensures m.payload.MarineSensor?
    // valid or not, the cursor moves past the header reads that succeeded,
    // then past the float reads that succeeded from there
    ensures var q := old(d.pos) + LeadingReads(d.tokens, old(d.pos), HeaderLayout);
      q <= |d.tokens| && d.pos == q + LeadingReads(d.tokens, q, PayloadLayout(MarineSensorDataClass))
  {
    ghost var p := d.pos;
    var header := DeserialiseHeader(d);
    ghost var q := d.pos;
    var ok, temperature, conductivity, ph, salinity := ReadReadings(d);
    FloatsRead(d.tokens, q, d.pos - q);
    m := header.(valid := header.valid && ok, payload := MarineSensor(temperature, conductivity, ph, salinity));
    FitsAppend(d.tokens, p, HeaderLayout, PayloadLayout(MarineSensorDataClass));
    if header.valid {
      assert q == p + 3;
    }
  }

  /**
   * The shared body of the by-value deserialising constructors that read one
   * float after the header: they work on a copy, so the caller's deserialiser
   * does not move.
   */
  method DeserialiseHeaderAndFloat(d: Deserialiser) returns (header: Message, ok: bool, f: real)
    requires d.Valid()
    ensures header.payload == NoPayload
    ensures header.valid && ok <==> Fits(d.tokens, d.pos, HeaderLayout + [FloatKind])
    ensures header.valid && ok ==> header == HeaderAt(d.tokens, d.pos) && f == d.tokens[d.pos + 3].f
  {
    var copy := d.Copy();
    header := DeserialiseHeader(copy);
    ok, f := copy.ReadFloat();
    FitsAppend(d.tokens, d.pos, HeaderLayout, [FloatKind]);
    if header.valid && ok {
      assert Fits(d.tokens, d.pos + 3, [FloatKind]) by {
        assert KindOf(d.tokens[d.pos + 3 + 0]) == FloatKind;
      }
    }
  }

  /** PowerTrackMsg(MessageDeserialiser): header, then the balance; invalid if either read fails. */
  method DeserialisePowerTrack(d: Deserialiser) returns (m: Message)
    requires d.Valid()
    ensures m.valid <==> Fits(d.tokens, d.pos, Layout(PowerTrackClass))
    ensures m.valid ==> m == DecodeAt(PowerTrackClass, d.tokens, d.pos)
    ensures m.payload.PowerBalance?
  {
    var header, ok, f := DeserialiseHeaderAndFloat(d);
    m := header.(valid := header.valid && ok, payload := PowerBalance(f));
  }

  /** WingSailCommandMsg(MessageDeserialiser): header, then the tail angle; invalid if either read fails. */
  method DeserialiseWingSailCommand(d: Deserialiser) returns (m: Message)
    requires d.Valid()
    ensures m.valid <==> Fits(d.tokens, d.pos, Layout(WingSailCommandClass))
    ensures m.valid ==> m == DecodeAt(WingSailCommandClass, d.tokens, d.pos)
    ensures m.payload.TailAngle?
  {
    var header, ok, f := DeserialiseHeaderAndFloat(d);
    m := header.(valid := header.valid && ok, payload := TailAngle(f));
  }

  /** RudderCommandMsg(MessageDeserialiser): header, then the rudder angle; invalid if either read fails. */
  method DeserialiseRudderCommand(d: Deserialiser) returns (m: Message)
    requires d.Valid()
    ensures m.valid <==> Fits(d.tokens, d.pos, Layout(RudderCommandClass))
    ensures m.valid ==> m == DecodeAt(RudderCommandClass, d.tokens, d.pos)
    ensures m.payload.RudderAngle?
  {
    var header, ok, f := DeserialiseHeaderAndFloat(d);
    m := header.(valid := header.valid && ok, payload := RudderAngle(f));
  }

  /**
   * The by-value deserialising constructor of ServerWaypointsReceivedMsg and
   * PowerOffCommand: only the header is read, from a copy, so validity is the
   * header's validity.
   */
  method DeserialiseHeaderOnly(d: Deserialiser) returns (m: Message)
    requires d.Valid()
    ensures m.valid <==> Fits(d.tokens, d.pos, HeaderLayout)
    ensures m.valid ==> m == HeaderAt(d.tokens, d.pos)
    ensures m.payload == NoPayload
  {
    var copy := d.Copy();
    m := DeserialiseHeader(copy);
  }

  /**
   * Serialising a message into a fresh stream and deserialising it with the
   * constructor of its class gives back the message, now marked valid.
   */
  method RoundTrip(c: MessageClass, m: Message) returns (r: Message)
    requires Carries(c, m.payload)
    ensures r == m.(valid := true)
  {
    var s := new Serialiser();
    Serialise(m, s);
    var d := new Deserialiser(s.tokens);
    EncodingRoundTrip(c, m, []);
    assert Encoding(m) + [] == s.tokens;
    match c
    case MarineSensorDataClass => r := DeserialiseMarineSensorData(d);
    case PowerTrackClass => r := DeserialisePowerTrack(d);
    case WingSailCommandClass => r := DeserialiseWingSailCommand(d);
    case RudderCommandClass => r := DeserialiseRudderCommand(d);
    case _ => r := DeserialiseHeaderOnly(d);
  }
}
