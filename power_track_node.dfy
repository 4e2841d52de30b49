/**
 * The power tracker of the world state (PowerTrackNode.cpp): it listens for
 * current-sensor readings and keeps a running power balance, adding the
 * power of the solar panel and subtracting the power of the engine.  A run
 * of consecutive readings from the same element counts only once.
 *
 * CurrentSensorDataMsg is not part of this model: the three values its
 * accessors return are passed as a `CurrentReading` beside the message.
 * Floating-point values are reals.  SensedElement's declaration is not
 * part of this model either; only its two named elements are spelled out,
 * and "no element read yet" (the -1 of lastElementRead) is `None`.
 */
module PowerTracking {
  import opened Common
  import opened Messages
  import opened Nodes
  import opened Bus

  /**
   * PowerTrackNode derives from ActiveNode (its constructor initialises the
   * ActiveNode base).  Its class declaration is not part of this model; it is
   * taken not to override isActiveNode().
   */
  const PowerTrackNodeClass: NodeClass := UndeclaredClass(true, None)

  datatype SensedElement = SolarPanel | Engine | OtherElement(code: nat)

  /** What a CurrentSensorDataMsg carries: getCurrent, getVoltage and getSensedElement. */
  datatype CurrentReading = CurrentReading(current: real, voltage: real, element: SensedElement)

  /** The tracker's fields, as a value. */
  datatype TrackState = TrackState(
    current: real,
    voltage: real,
    element: SensedElement,
    power: real,
    balance: real,
    lastElementRead: Option<SensedElement>)

  /** What a reading adds to the balance when it counts: solar power in, engine power out, nothing else. */
  function Contribution(r: CurrentReading): real
  {
    match r.element
    case SolarPanel => r.voltage * r.current
    case Engine => -(r.voltage * r.current)
    case OtherElement(_) => 0.0
  }

  /** processCurrentSensorDataMessage as a function of the fields. */
  function Track(s: TrackState, r: CurrentReading): TrackState
  {
    var s' := s.(current := r.current, voltage := r.voltage, element := r.element,
                 power := r.voltage * r.current);
    if s.lastElementRead != Some(r.element) then
      s'.(balance := s.balance + Contribution(r), lastElementRead := Some(r.element))
    else
      s'
  }

  /** The readings processed one after the other. */
  function TrackAll(s: TrackState, rs: seq<CurrentReading>): TrackState
    decreases |rs|
  {
    if rs == [] then s else TrackAll(Track(s, rs[0]), rs[1..])
  }

  /** The readings that start a run: their element differs from the element read just before. */
  function RunStarts(last: Option<SensedElement>, rs: seq<CurrentReading>): seq<CurrentReading>
    decreases |rs|
  {
    if rs == [] then []
    else (if last != Some(rs[0].element) then [rs[0]] else []) + RunStarts(Some(rs[0].element), rs[1..])
  }

  function Total(rs: seq<CurrentReading>): real
  {
    if rs == [] then 0.0 else Contribution(rs[0]) + Total(rs[1..])
  }

  /** Every reading stores its values, with power = voltage x current; the last element becomes the reading's. */
  lemma TrackStoresReading(s: TrackState, r: CurrentReading)
    ensures var t := Track(s, r);
      t.current == r.current && t.voltage == r.voltage && t.element == r.element
      && t.power == r.voltage * r.current && t.lastElementRead == Some(r.element)
  {
  }

  /** A reading from the element read last leaves the balance as it is. */
  lemma RepeatedElementKeepsBalance(s: TrackState, r: CurrentReading)
    requires s.lastElementRead == Some(r.element)
    ensures Track(s, r).balance == s.balance
  {
  }

  /** Two consecutive readings from the same element move the balance once, by the first one's contribution. */
  lemma SameElementCountsOnce(s: TrackState, r1: CurrentReading, r2: CurrentReading)
    requires r1.element == r2.element
    ensures Track(Track(s, r1), r2).balance == Track(s, r1).balance
    ensures Track(Track(s, r1), r2).balance
      == s.balance + (if s.lastElementRead == Some(r1.element) then 0.0 else Contribution(r1))
  {
  }

  /**
   * Over any sequence of readings, the balance moves by exactly the
   * contributions of the readings that start a run, and the last element
   * read is that of the final reading.
   */
  lemma {:induction false} BalanceCountsRunStarts(s: TrackState, rs: seq<CurrentReading>)
    ensures TrackAll(s, rs).balance == s.balance + Total(RunStarts(s.lastElementRead, rs))
    ensures TrackAll(s, rs).lastElementRead == if rs == [] then s.lastElementRead else Some(rs[|rs| - 1].element)
    decreases |rs|
  {
    if rs != [] {
      var t := Track(s, rs[0]);
      BalanceCountsRunStarts(t, rs[1..]);
      var head := if s.lastElementRead != Some(rs[0].element) then [rs[0]] else [];
      TotalAppend(head, RunStarts(t.lastElementRead, rs[1..]));
      if rs[1..] != [] {
        assert rs[1..][|rs[1..]| - 1] == rs[|rs| - 1];
      }
    }
  }

  lemma {:induction false} TotalAppend(a: seq<CurrentReading>, b: seq<CurrentReading>)
    ensures Total(a + b) == Total(a) + Total(b)
    decreases |a|
  {
    if a != [] {
      assert (a + b)[0] == a[0] && (a + b)[1..] == a[1..] + b;
      TotalAppend(a[1..], b);
    } else {
      assert a + b == b;
    }
  }

  class PowerTrackNode {
    /** The ActiveNode part: identity PowerTrack. */
    const node: Node
    const loopTime: real
    var current: real
    var voltage: real
    var element: SensedElement
    var power: real
    var balance: real
    var lastElementRead: Option<SensedElement>

    function State(): TrackState
      reads this
    {
      TrackState(current, voltage, element, power, balance, lastElementRead)
    }

    /**
     * PowerTrackNode(msgBus, dbhandler, loopTime): zero readings, zero
     * balance, no element read yet, and registered on the bus for
     * CurrentSensorData.  m_Power is left uninitialised by the constructor,
     * so nothing is said about it.  The element starts as the enumerator
     * with value 0; SensedElement is declared in a header that is not part
     * of this model, so that element is taken as an unnamed one.
     */
    constructor (bus: MessageBus, loopTime: real)
      requires bus.Valid()
      modifies bus`registry, bus.registry
      ensures fresh(node) && node.Valid() && node.id == PowerTrack && node.cls == PowerTrackNodeClass && node.IsActiveClass()
      ensures this.loopTime == loopTime
      ensures current == 0.0 && voltage == 0.0 && element == OtherElement(0)
      ensures balance == 0.0 && lastElementRead == None
      ensures bus.Valid()
      ensures bus.View() == if old(bus.running) then old(bus.View()) else Register(old(bus.View()), node, Some(CurrentSensorData))
    {
      // The initialiser list only sets fields, so registering first is equivalent.
      ghost var v0, r0 := bus.View(), bus.running;
      var n := new Node(PowerTrack, PowerTrackNodeClass, true);
      assert Ancestry(PowerTrackNodeClass) == [PowerTrackNodeClass, ActiveNodeBase, NodeBase];
      assert n.Valid() && n.IsActiveClass();
      assert bus.View() == v0;
      var _ := bus.RegisterNodeFor(n, CurrentSensorData);
      node := n;
      this.loopTime := loopTime;
      current := 0.0;
      voltage := 0.0;
      element := OtherElement(0);
      balance := 0.0;
      lastElementRead := None;
    }

    /** processMessage: only CurrentSensorData messages are handled; every other kind leaves the node as it is. */
    method ProcessMessage(msg: Message, reading: CurrentReading)
      modifies this
      ensures State() == if msg.msgType == CurrentSensorData then Track(old(State()), reading) else old(State())
    {
      match msg.msgType {
        case CurrentSensorData =>
          ProcessCurrentSensorDataMessage(reading);
        case _ =>
          return;
      }
    }

    /** processCurrentSensorDataMessage: stores the reading and updates the balance once per run of an element. */
    method ProcessCurrentSensorDataMessage(reading: CurrentReading)
      modifies this
      ensures State() == Track(old(State()), reading)
    {
      current := reading.current;
      voltage := reading.voltage;
      element := reading.element;
      power := voltage * current;
      if lastElementRead != Some(element) {
        match element {
          case SolarPanel =>
            balance := balance + power;
          case Engine =>
            balance := balance - power;
          case _ =>
        }
        lastElementRead := Some(element);
      }
    }
  }
}
