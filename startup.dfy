/**
 * Start-up and shut-down of the navigation system (main.cpp): each node is
 * initialised once; the active ones are collected in `nodeList`, and at exit
 * every collected node is stopped, in list order, before the bus is stopped.
 *
 * `exit(EXIT_FAILURE)` is an outcome of the call rather than the end of the
 * process, and the failed `dynamic_cast` of a passive node that claims to be
 * active (a thrown std::bad_cast) is an outcome too.  Log lines are dropped;
 * the shut-down sequence is recorded as a ghost trace of events.
 */
module Startup {
  import opened Nodes

  datatype Importance = Critical | NotCritical

  /** How a call of initialiseNode ends. */
  datatype Outcome =
    | Continued
    | Exited(status: int)
    | BadCast

  /** The status that exit() is given when a critical node fails. */
  const EXIT_FAILURE: int := 1

  /** One step of the shut-down sequence. */
  datatype ShutdownEvent = NodeStopped(node: Node) | BusStopped

  /**
   * Whether initialiseNode appends the node: its init() succeeded and it
   * reports itself active; the cast to ActiveNode must then succeed too.
   */
  predicate Collects(initSucceeds: bool, reportsActive: bool, isActiveClass: bool)
  {
    initSucceeds && reportsActive && isActiveClass
  }

  /** The list initialiseNode builds from `nodes`, initialised in this order. */
  ghost function Collected(nodes: seq<Node>): (r: seq<Node>)
  {
    if nodes == [] then []
    else
      var n := nodes[|nodes| - 1];
      Collected(nodes[..|nodes| - 1]) + (if Collects(n.initSucceeds, n.IsActiveNode(), n.IsActiveClass()) then [n] else [])
  }

  /** Every collected node was initialised successfully, reports itself active and is an ActiveNode. */
  lemma {:induction false} CollectedAreActive(nodes: seq<Node>)
    ensures forall n :: n in Collected(nodes) ==> n in nodes && n.initSucceeds && n.IsActiveNode() && n.IsActiveClass()
  {
    if nodes != [] {
      CollectedAreActive(nodes[..|nodes| - 1]);
    }
  }

  /**
   * None of the node classes whose declarations the model draws on overrides
   * isActiveNode(), and ActiveNode itself does not: nodes of those classes
   * are never collected, so none of them is stopped at exit.
   */
  lemma {:induction false} NothingCollectedWithoutOverride(nodes: seq<Node>)
    requires forall n :: n in nodes ==> !n.cls.UndeclaredClass?
    ensures Collected(nodes) == []
  {
    if nodes != [] {
      NothingCollectedWithoutOverride(nodes[..|nodes| - 1]);
      assert nodes[|nodes| - 1] in nodes;
      DeclaredClassesReportPassive(nodes[|nodes| - 1].cls);
    }
  }

  class Application {
    /** The global nodeList of main.cpp. */
    var nodeList: seq<Node>
    /** What the shut-down sequence has done so far. */
    ghost var shutdown: seq<ShutdownEvent>

    /** Every listed node is an active node that reports itself as one. */
    ghost predicate Valid()
      reads this
    {
      forall n :: n in nodeList ==> n.IsActiveClass() && n.IsActiveNode()
    }

    constructor ()
      ensures Valid() && nodeList == [] && shutdown == []
    {
      nodeList := [];
      shutdown := [];
    }

    /**
     * initialiseNode: calls init() once.  On success the node is appended
     * when it reports itself active (a passive node that claims to be active
     * fails the cast instead).  On failure a critical node ends the program
     * with EXIT_FAILURE and a non-critical one is skipped.
     */
    method InitialiseNode(node: Node, importance: Importance) returns (outcome: Outcome)
      requires Valid()
      modifies this`nodeList, node`initCalls
      ensures Valid()
      ensures node.initCalls == old(node.initCalls) + 1
      ensures nodeList == old(nodeList)
        + (if Collects(node.initSucceeds, node.IsActiveNode(), node.IsActiveClass()) then [node] else [])
      ensures outcome == Continued <==>
        (node.initSucceeds && (node.IsActiveNode() ==> node.IsActiveClass()))
        || (!node.initSucceeds && importance == NotCritical)
      ensures outcome == Exited(EXIT_FAILURE) <==> !node.initSucceeds && importance == Critical
      ensures outcome == BadCast <==> node.initSucceeds && node.IsActiveNode() && !node.IsActiveClass()
    {
      var ok := node.Init();
      if ok {
        outcome := Continued;
        if node.IsActiveNode() {
          if node.IsActiveClass() {
            nodeList := nodeList + [node];
          } else {
            outcome := BadCast;
          }
        }
      } else {
        outcome := Continued;
        if importance == Critical {
          outcome := Exited(EXIT_FAILURE);
        }
      }
    }

    /**
     * atexit_handler: stops every listed node, in list order, and only then
     * the bus.  A node listed twice is stopped twice, which is harmless.
     */
    method AtExitHandler()
      requires forall n :: n in nodeList ==> n.Valid()
      modifies this`shutdown, nodeList
      ensures shutdown == old(shutdown) + StopEvents(nodeList) + [BusStopped]
      ensures forall n :: n in nodeList ==> n.Valid() && !n.running && n.thread.None?
    {
      var i := 0;
      while i < |nodeList|
        invariant 0 <= i <= |nodeList|
        invariant shutdown == old(shutdown) + StopEvents(nodeList[..i])
        invariant forall n :: n in nodeList ==> n.Valid()
        invariant forall j :: 0 <= j < i ==> !nodeList[j].running && nodeList[j].thread.None?
      {
        var node := nodeList[i];
        node.Stop();
        shutdown := shutdown + [NodeStopped(node)];
        assert nodeList[..i + 1] == nodeList[..i] + [node];
        i := i + 1;
      }
      assert nodeList[..i] == nodeList;
      shutdown := shutdown + [BusStopped];
    }
  }

  /** One NodeStopped event per listed node, in list order. */
  function StopEvents(nodes: seq<Node>): (r: seq<ShutdownEvent>)
    ensures |r| == |nodes|
    ensures forall i :: 0 <= i < |nodes| ==> r[i] == NodeStopped(nodes[i])
  {
    if nodes == [] then [] else StopEvents(nodes[..|nodes| - 1]) + [NodeStopped(nodes[|nodes| - 1])]
  }
}
