/**
 * The shared shapes of the circuit editor: signals, node kinds, pins, wires,
 * parameters, nodes, the graph snapshot and the history entry.
 * Every cross-reference is an integer id into one of the graph's maps.
 */
module Types {

  datatype Option<+T> = None | Some(value: T)

  /** A tri-state signal: 0, 1 or undefined (unknown / unconnected). */
  datatype Signal = Zero | One | Undef

  /** The closed set of node kinds. */
  datatype NodeKind =
    | Note | Const | And | Or | Xor | Not | Nand | Nor | Xnor | Clock | Split | SignalDisplay
  {
    /** The position of this kind in the declaration order. */
    function Index(): nat {
      match this
      case Note => 0 case Const => 1 case And => 2 case Or => 3
      case Xor => 4 case Not => 5 case Nand => 6 case Nor => 7
      case Xnor => 8 case Clock => 9 case Split => 10 case SignalDisplay => 11
    }
  }

  /** Every node kind, each exactly once. */
  function AllKinds(): (ks: seq<NodeKind>)
    ensures |ks| == 12
    ensures forall k: NodeKind :: k in ks
    ensures forall i, j :: 0 <= i < j < |ks| ==> ks[i] != ks[j]
  {
    var ks := [Note, Const, And, Or, Xor, Not, Nand, Nor, Xnor, Clock, Split, SignalDisplay];
    assert forall k: NodeKind :: k == ks[k.Index()] && k in ks;
    ks
  }

  datatype PinDir = Input | Output

  /** A point on the canvas; coordinates are kept integral. */
  datatype Vec2 = Vec2(x: int, y: int)

  /**
   * A pin owned by exactly one node. `Partial` is the entry the simulation
   * writes for an id it finds no pin under: an object that carries a value
   * and none of the other fields.
   */
  datatype Pin =
    | Pin(id: int, nodeId: int, name: string, value: Signal, dir: PinDir)
    | Partial(value: Signal)

  /** A wire from an output pin to an input pin, by id, with optional routing anchors. */
  datatype Wire = Wire(id: int, from: int, to: int, anchors: Option<seq<Vec2>>)

  /** A wire being drawn: its starting pin, the anchors placed so far and the cursor. */
  datatype WireDraft = WireDraft(fromPinId: int, anchors: seq<Vec2>, currentPos: Vec2)

  datatype ParamKind = Numerical | Digital | Boolean | Text

  datatype ParamValue = Num(n: int) | Flag(b: bool) | Str(s: string)

  datatype Param = Param(name: string, kind: ParamKind, value: ParamValue)

  datatype Node = Node(
    id: int,
    kind: NodeKind,
    inputPins: seq<int>,
    outputPins: seq<int>,
    title: Option<string>,
    data: Option<map<string, Param>>)

  type PinTable = map<int, Pin>

  /** The simulation store's graph: three id-keyed maps and three id counters. */
  datatype Graph = Graph(
    nodes: map<int, Node>,
    pins: PinTable,
    wires: map<int, Wire>,
    nextId: int,
    nextPinId: int,
    nextWireId: int)

  /** One undo/redo snapshot: the graph plus the node positions. */
  datatype HistoryEntry = HistoryEntry(sim: Graph, nodePositions: map<int, Vec2>)

  /** The saved-project shape. */
  datatype ProjectState = ProjectState(
    projectName: string,
    version: string,
    nodes: map<int, Node>,
    pins: PinTable,
    wires: map<int, Wire>,
    nodePositions: map<int, Vec2>,
    nextId: int,
    nextPinId: int,
    nextWireId: int)
}
