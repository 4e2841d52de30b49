/**
 * The participants of the bus: the passive Node (Node.hpp) and the
 * ActiveNode that owns a worker thread (ActiveNode.hpp, ActiveNode.cpp).
 *
 * Both are one class here, told apart by the concrete class the object was
 * built as (`NodeClass`): the class hierarchy decides whether the object is
 * an ActiveNode and what isActiveNode() returns for it.  What init() returns
 * is fixed at construction.  The worker thread is abstracted to the handle
 * that the node owns: present or absent, each handle numbered by the order
 * in which the node created it.
 */
module Nodes {
  import opened Common

  /**
   * The node classes of the system.  The named ones are those whose
   * declarations this model draws on; `UndeclaredClass` stands for a class
   * whose declaration is not part of this model, given by its base class and
   * by what its own isActiveNode() override returns, if it declares one.
   */
  datatype NodeClass =
    | NodeBase
    | ActiveNodeBase
    // Declared as subclasses of ActiveNode
    | DBLoggerNode | CameraProcessingUtility | AISProcessing | ArduPilotReadNode
    | AutopilotReadNode | SailControlNode | WingSailControlNode | CourseRegulatorNode
    | SailSpeedRegulatorNode | LocalWebServerNode | VesselStateNode
    // Declared as subclasses of Node
    | WindStateNode | AutopilotWriteNode | WaypointMgrNode
    | UndeclaredClass(activeBase: bool, ownIsActive: Option<bool>)

  /** Depth in the hierarchy: Node is the root, every other class sits below its base. */
  function Rank(c: NodeClass): nat
  {
    match c
    case NodeBase => 0
    case ActiveNodeBase => 1
    case WindStateNode => 1
    case AutopilotWriteNode => 1
    case WaypointMgrNode => 1
    case UndeclaredClass(activeBase, _) => if activeBase then 2 else 1
    case _ => 2
  }

  /** The direct base class, as each class declaration names it. */
  function Parent(c: NodeClass): (p: NodeClass)
    requires c != NodeBase
    ensures Rank(p) + 1 == Rank(c)
    ensures p == NodeBase || p == ActiveNodeBase
  {
    match c
    case ActiveNodeBase => NodeBase
    case WindStateNode => NodeBase
    case AutopilotWriteNode => NodeBase
    case WaypointMgrNode => NodeBase
    case UndeclaredClass(activeBase, _) => if activeBase then ActiveNodeBase else NodeBase
    case _ => ActiveNodeBase
  }

  /**
   * The isActiveNode() override a class declares itself, if any.  Node's own
   * definition is not an override; ActiveNode and the named classes declare
   * none.
   */
  function OwnIsActiveNode(c: NodeClass): Option<bool>
  {
    match c
    case UndeclaredClass(_, own) => own
    case _ => None
  }

  /** The class and its bases, from the class itself up to Node. */
  function Ancestry(c: NodeClass): (r: seq<NodeClass>)
    ensures |r| == Rank(c) + 1
    ensures r[0] == c && r[|r| - 1] == NodeBase
    decreases Rank(c)
  {
    if c == NodeBase then [c] else [c] + Ancestry(Parent(c))
  }

  /** Whether an object of class `c` is an ActiveNode, i.e. whether dynamic_cast<ActiveNode&> succeeds. */
  predicate DerivesFromActiveNode(c: NodeClass)
  {
    ActiveNodeBase in Ancestry(c)
  }

  /**
   * isActiveNode() on an object of class `c`, as virtual dispatch resolves
   * it: the override of the nearest class up the hierarchy that declares one,
   * or else Node's own definition, which returns false.
   */
  function IsActiveNodeOf(c: NodeClass): (r: bool)
    ensures OwnIsActiveNode(c).Some? ==> r == OwnIsActiveNode(c).value
    ensures r ==> exists a :: a in Ancestry(c) && OwnIsActiveNode(a) == Some(true)
    decreases Rank(c)
  {
    if c == NodeBase then false
    else match OwnIsActiveNode(c)
      case Some(b) => b
      case None => IsActiveNodeOf(Parent(c))
  }

  /**
   * None of the named classes declares an override, so every one of them,
   * ActiveNode subclasses included, reports itself as passive.
   */
  lemma DeclaredClassesReportPassive(c: NodeClass)
    requires !c.UndeclaredClass?
    ensures !IsActiveNodeOf(c)
    ensures DerivesFromActiveNode(c) <==> c == ActiveNodeBase || (c != NodeBase && Parent(c) == ActiveNodeBase)
  {
  }

  /** A std::thread that runs `entry(this)`; `serial` tells apart the threads one node created. */
  datatype ThreadHandle = ThreadHandle(serial: nat, entry: string)

  class Node {
    /** Given at construction; there is no setter, so nodeID() always returns it. */
    const id: NodeID
    /** The concrete class the object was built as. */
    const cls: NodeClass
    /** What the concrete init() reports; the resources it acquires are not modelled. */
    const initSucceeds: bool

    /** ActiveNode::m_Thread, the owned thread handle (null when absent). */
    var thread: Option<ThreadHandle>
    /** The concrete active node's own running flag, which its worker loop polls. */
    var running: bool

    /** Number of threads this node has created so far. */
    var spawned: nat
    /** The threads joined by stopThread, in order. */
    ghost var joined: seq<ThreadHandle>
    /** Number of times init() has been called. */
    ghost var initCalls: nat

    ghost predicate Valid()
      reads this
    {
      && (!IsActiveClass() ==> thread.None?)
      && (thread.Some? ==> thread.value.serial < spawned)
      && (forall h :: h in joined ==> h.serial < spawned)
      && (thread.Some? ==> thread.value !in joined)
    }

    /** The Node(id, bus) or ActiveNode(id, bus) part of constructing an object of class `cls`. */
    constructor (id: NodeID, cls: NodeClass, initSucceeds: bool)
      ensures Valid()
      ensures this.id == id && this.cls == cls && this.initSucceeds == initSucceeds
      ensures thread.None? && !running && spawned == 0 && joined == [] && initCalls == 0
    {
      this.id := id;
      this.cls := cls;
      this.initSucceeds := initSucceeds;
      thread := None;
      running := false;
      spawned := 0;
      joined := [];
      initCalls := 0;
    }

    /** The object is an ActiveNode rather than a passive Node. */
    predicate IsActiveClass()
    {
      DerivesFromActiveNode(cls)
    }

    /** isActiveNode(), dispatched on the object's class. */
    predicate IsActiveNode()
    {
      IsActiveNodeOf(cls)
    }

    /** The concrete init(): reports its outcome and counts the call. */
    method Init() returns (ok: bool)
      modifies this`initCalls
      ensures ok == initSucceeds
      ensures initCalls == old(initCalls) + 1
    {
      ok := initSucceeds;
      initCalls := initCalls + 1;
    }

    /**
     * ActiveNode::runThread: installs a new handle running `entry(this)`.
     * Replacing a handle that is still joinable would terminate the process,
     * so the node must hold none.
     */
    method RunThread(entry: string)
      requires Valid() && IsActiveClass() && thread.None?
      modifies this`thread, this`spawned
      ensures Valid()
      ensures thread == Some(ThreadHandle(old(spawned), entry))
      ensures spawned == old(spawned) + 1
    {
      thread := Some(ThreadHandle(spawned, entry));
      spawned := spawned + 1;
    }

    /**
     * ActiveNode::stopThread(node): joins the handle of `node` (not of this
     * node) when there is one -- a handle that was never joined or detached
     * is joinable -- and always leaves it null.
     */
    method StopThread(node: Node)
      requires node.Valid()
      modifies node`thread, node`joined
      ensures node.Valid()
      ensures node.thread.None?
      ensures node.joined == old(node.joined) + (if old(node.thread).Some? then [old(node.thread).value] else [])
    {
      if node.thread.Some? {
        node.joined := node.joined + [node.thread.value];
      }
      node.thread := None;
    }

    /** The start() of the concrete active nodes: raise the running flag, then runThread. */
    method Start(entry: string)
      requires Valid() && IsActiveClass() && thread.None?
      modifies this`thread, this`spawned, this`running
      ensures Valid() && running
      ensures thread == Some(ThreadHandle(old(spawned), entry))
      ensures spawned == old(spawned) + 1
    {
      running := true;
      RunThread(entry);
    }

    /** The stop() of the concrete active nodes: lower the running flag, then stopThread(this). */
    method Stop()
      requires Valid()
      modifies this`thread, this`joined, this`running
      ensures Valid() && !running && thread.None?
      ensures joined == old(joined) + (if old(thread).Some? then [old(thread).value] else [])
    {
      running := false;
      StopThread(this);
    }
  }

  /**
   * start, stop, start: the second start installs a new thread, distinct from
   * the first one, which by then has been joined.
   */
  method StartStopStart(n: Node, entry: string) returns (first: ThreadHandle, second: ThreadHandle)
    requires n.Valid() && n.IsActiveClass() && n.thread.None?
    modifies n
    ensures n.Valid() && n.thread == Some(second)
    ensures first != second && first in n.joined && second !in n.joined
  {
    n.Start(entry);
    first := n.thread.value;
    n.Stop();
    n.Start(entry);
    second := n.thread.value;
  }
}
