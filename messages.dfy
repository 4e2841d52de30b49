/**
 * The base message of the bus (Message.hpp) and the reader/writer that
 * (de)serialise it.
 *
 * A message is an immutable header -- type, source, destination, validity --
 * plus the payload of its concrete class.  Once built nothing changes it, so
 * it is a datatype value; its accessors are the datatype's fields.
 *
 * The serialiser and deserialiser (MessageSerialiser.hpp and
 * MessageDeserialiser.hpp are not part of this model) are abstracted as a
 * stream of typed tokens: the writer appends one token per field, the reader
 * walks a cursor over the tokens.  A read succeeds when a token of the
 * requested kind is under the cursor and then advances past it; a failed read
 * leaves the cursor where it was.
 */
module Messages {
  import opened Common

  /** The payload a concrete message class adds to the header. */
  datatype Payload =
    | NoPayload
    | MarineSensor(temperature: real, conductivity: real, ph: real, salinity: real)
    | PowerBalance(balance: real)
    | TailAngle(tailAngle: real)
    | RudderAngle(rudderAngle: real)

  datatype Message = Message(
    msgType: MessageType,
    source: NodeID,
    destination: NodeID,
    valid: bool,
    payload: Payload)
  {
    /** A message for no specific node is distributed to every interested node. */
    predicate IsBroadcast() { destination == NoNode }
  }

  // ----------------------------------------------------------------------------
  // The three value constructors of Message
  // ----------------------------------------------------------------------------

  /** Message(type, source, destination): stores all three and is valid. */
  function Directed(t: MessageType, src: NodeID, dst: NodeID): (m: Message)
    ensures m.msgType == t && m.source == src && m.destination == dst
    ensures m.valid && m.payload == NoPayload
  {
    Message(t, src, dst, true, NoPayload)
  }

  /** Message(type, source): the destination defaults to no specific node. */
  function FromSource(t: MessageType, src: NodeID): (m: Message)
    ensures m.IsBroadcast() && m.valid
    ensures m == Directed(t, src, NoNode)
  {
    Message(t, src, NoNode, true, NoPayload)
  }

  /**
   * Message(type): source and destination default to no specific node.  This
   * constructor does not initialise the validity flag; `indeterminate` stands
   * for whatever value that flag happens to hold.
   */
  function OfType(t: MessageType, indeterminate: bool): (m: Message)
    ensures m.msgType == t && m.source == NoNode && m.IsBroadcast()
    ensures m.valid == indeterminate
    ensures m.(valid := true) == FromSource(t, NoNode)
  {
    Message(t, NoNode, NoNode, indeterminate, NoPayload)
  }

  // ----------------------------------------------------------------------------
  // Token streams
  // ----------------------------------------------------------------------------

  datatype Token =
    | TypeToken(t: MessageType)
    | IdToken(id: NodeID)
    | FloatToken(f: real)

  datatype Kind = TypeKind | IdKind | FloatKind

  function KindOf(tok: Token): Kind
  {
    match tok
    case TypeToken(_) => TypeKind
    case IdToken(_) => IdKind
    case FloatToken(_) => FloatKind
  }

  /** The tokens from position `p` on have exactly the kinds `kinds`, in order. */
  ghost predicate Fits(ts: seq<Token>, p: nat, kinds: seq<Kind>)
  {
    p + |kinds| <= |ts| && forall i :: p <= i < p + |kinds| ==> KindOf(ts[i]) == kinds[i - p]
  }

  /**
   * How many reads of `kinds`, attempted in order from position `p` and
   * abandoned at the first failure, succeed: the short-circuit `||` chains
   * of the deserialising constructors.
   */
  ghost function LeadingReads(ts: seq<Token>, p: nat, kinds: seq<Kind>): (n: nat)
    requires p <= |ts|
    ensures n <= |kinds|
    ensures Fits(ts, p, kinds[..n])
    ensures n < |kinds| ==> !(p + n < |ts| && KindOf(ts[p + n]) == kinds[n])
    ensures n == |kinds| <==> Fits(ts, p, kinds)
    decreases |kinds|
  {
    if kinds == [] then 0
    else if p < |ts| && KindOf(ts[p]) == kinds[0] then
      var n := 1 + LeadingReads(ts, p + 1, kinds[1..]);
      assert kinds[..n] == [kinds[0]] + kinds[1..][..n - 1];
      n
    else 0
  }

  /**
   * The read chain stops at k exactly when the first k reads succeed and the
   * next one, if the layout has one, fails.
   */
  lemma LeadingReadsIs(ts: seq<Token>, p: nat, kinds: seq<Kind>, k: nat)
    requires p <= |ts| && k <= |kinds| && Fits(ts, p, kinds[..k])
    requires k < |kinds| ==> !(p + k < |ts| && KindOf(ts[p + k]) == kinds[k])
    ensures LeadingReads(ts, p, kinds) == k
  {
  }

  /** A layout that is two layouts in a row fits exactly when both parts do. */
  lemma {:induction false} FitsAppend(ts: seq<Token>, p: nat, a: seq<Kind>, b: seq<Kind>)
    ensures Fits(ts, p, a + b) <==> Fits(ts, p, a) && Fits(ts, p + |a|, b)
  {
    if Fits(ts, p, a) && Fits(ts, p + |a|, b) {
      forall i | 0 <= i < |a + b| ensures KindOf(ts[p + i]) == (a + b)[i] {
        if i >= |a| {
          assert KindOf(ts[(p + |a|) + (i - |a|)]) == b[i - |a|];
        }
      }
    }
    if Fits(ts, p, a + b) {
      forall i | 0 <= i < |b| ensures KindOf(ts[p + |a| + i]) == b[i] {
        assert (a + b)[|a| + i] == b[i];
      }
      forall i | 0 <= i < |a| ensures KindOf(ts[p + i]) == a[i] {
        assert (a + b)[i] == a[i];
      }
    }
  }

  const HeaderLayout: seq<Kind> := [TypeKind, IdKind, IdKind]

  /** The header written by Message::Serialise: type, then source, then destination. */
  function HeaderTokens(m: Message): (ts: seq<Token>)
    ensures Fits(ts, 0, HeaderLayout)
  {
    [TypeToken(m.msgType), IdToken(m.source), IdToken(m.destination)]
  }

  /** The header that reading type, source and destination from `p` yields. */
  ghost function HeaderAt(ts: seq<Token>, p: nat): (m: Message)
    requires Fits(ts, p, HeaderLayout)
    ensures m.valid && m.payload == NoPayload
  {
    assert KindOf(ts[p + 0]) == HeaderLayout[0] && KindOf(ts[p + 1]) == HeaderLayout[1];
    assert KindOf(ts[p + 2]) == HeaderLayout[2];
    Message(ts[p].t, ts[p + 1].id, ts[p + 2].id, true, NoPayload)
  }

  /** Reading back what Serialise wrote recovers the header, whatever follows it. */
  lemma HeaderRoundTrip(m: Message, rest: seq<Token>)
    ensures Fits(HeaderTokens(m) + rest, 0, HeaderLayout)
    ensures HeaderAt(HeaderTokens(m) + rest, 0) == m.(valid := true, payload := NoPayload)
  {
  }

  // ----------------------------------------------------------------------------
  // The writer and the reader
  // ----------------------------------------------------------------------------

  class Serialiser {
    var tokens: seq<Token>

    constructor ()
      ensures tokens == []
    {
      tokens := [];
    }

    method SerialiseType(t: MessageType)
      modifies this
      ensures tokens == old(tokens) + [TypeToken(t)]
    {
      tokens := tokens + [TypeToken(t)];
    }

    method SerialiseId(id: NodeID)
      modifies this
      ensures tokens == old(tokens) + [IdToken(id)]
    {
      tokens := tokens + [IdToken(id)];
    }

    method SerialiseFloat(f: real)
      modifies this
      ensures tokens == old(tokens) + [FloatToken(f)]
    {
      tokens := tokens + [FloatToken(f)];
    }
  }

  class Deserialiser {
    const tokens: seq<Token>
    var pos: nat

    ghost predicate Valid()
      reads this
    {
      pos <= |tokens|
    }

    constructor (ts: seq<Token>)
      ensures tokens == ts && pos == 0 && Valid()
    {
      tokens := ts;
      pos := 0;
    }

    /** The copy made when a deserialiser is passed by value. */
    method Copy() returns (d: Deserialiser)
      ensures fresh(d) && d.tokens == tokens && d.pos == pos
    {
      d := new Deserialiser(tokens);
      d.pos := pos;
    }

    method ReadMessageType() returns (ok: bool, t: MessageType)
      requires Valid()
      modifies this
      ensures Valid()
      ensures ok <==> old(pos) < |tokens| && tokens[old(pos)].TypeToken?
      ensures ok ==> t == tokens[old(pos)].t && pos == old(pos) + 1
      ensures !ok ==> pos == old(pos)
    {
      ok := pos < |tokens| && tokens[pos].TypeToken?;
      t := OtherType(0);
      if ok {
        t := tokens[pos].t;
        pos := pos + 1;
      }
    }

    method ReadNodeID() returns (ok: bool, id: NodeID)
      requires Valid()
      modifies this
      ensures Valid()
      ensures ok <==> old(pos) < |tokens| && tokens[old(pos)].IdToken?
      ensures ok ==> id == tokens[old(pos)].id && pos == old(pos) + 1
      ensures !ok ==> pos == old(pos)
    {
      ok := pos < |tokens| && tokens[pos].IdToken?;
      id := NoNode;
      if ok {
        id := tokens[pos].id;
        pos := pos + 1;
      }
    }

    method ReadFloat() returns (ok: bool, f: real)
      requires Valid()
      modifies this
      ensures Valid()
      ensures ok <==> old(pos) < |tokens| && tokens[old(pos)].FloatToken?
      ensures ok ==> f == tokens[old(pos)].f && pos == old(pos) + 1
      ensures !ok ==> pos == old(pos)
    {
      ok := pos < |tokens| && tokens[pos].FloatToken?;
      f := 0.0;
      if ok {
        f := tokens[pos].f;
        pos := pos + 1;
      }
    }
  }

  // ----------------------------------------------------------------------------
  // Message::Serialise and Message(MessageDeserialiser&)
  // ----------------------------------------------------------------------------

  /** Writes type, source and destination, in that order. */
  method SerialiseHeader(m: Message, s: Serialiser)
    modifies s
    ensures s.tokens == old(s.tokens) + HeaderTokens(m)
  {
    s.SerialiseType(m.msgType);
    s.SerialiseId(m.source);
    s.SerialiseId(m.destination);
  }

  /**
   * The deserialising constructor: reads type, then source, then destination,
   * stopping at the first failed read; the message is valid exactly when all
   * three reads succeed.  Fields after a failed read are left uninitialised by
   * the source, so nothing is promised about them; the fields read before the
   * failure keep what was read.
   */
  method DeserialiseHeader(d: Deserialiser) returns (m: Message)
    requires d.Valid()
    modifies d
    ensures d.Valid()
    ensures d.pos == old(d.pos) + LeadingReads(d.tokens, old(d.pos), HeaderLayout)
    ensures m.valid <==> Fits(d.tokens, old(d.pos), HeaderLayout)
    ensures m.valid ==> m == HeaderAt(d.tokens, old(d.pos))
    ensures LeadingReads(d.tokens, old(d.pos), HeaderLayout) >= 1 ==> m.msgType == d.tokens[old(d.pos)].t
    ensures LeadingReads(d.tokens, old(d.pos), HeaderLayout) >= 2 ==> m.source == d.tokens[old(d.pos) + 1].id
    ensures m.payload == NoPayload
  {
    ghost var p := d.pos;
    var src, dst := NoNode, NoNode;
    var ok, t := d.ReadMessageType();
    if ok {
      ok, src := d.ReadNodeID();
      if ok {
        ok, dst := d.ReadNodeID();
      }
    }
    assert HeaderLayout[1..] == [IdKind, IdKind] && [IdKind, IdKind][1..] == [IdKind];
    m := Message(t, src, dst, ok, NoPayload);
  }
}
