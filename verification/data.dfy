/** Display titles for node kinds. */
module NodeData {
  import opened Types

  /** The title shown on a node of the given kind. */
  function NodeTitleFromKind(kind: NodeKind): (title: string)
    ensures title != []
  {
    match kind
    case Note => "Note"
    case Const => "Signal"
    case And => "AND"
    case Or => "OR"
    case Xor => "XOR"
    case Not => "NOT"
    case Nand => "NAND"
    case Nor => "NOR"
    case Xnor => "XNOR"
    case Clock => "Clock"
    case Split => "Split Signal"
    case SignalDisplay => "LED"
  }

  /** Different kinds never share a title, so a title names its kind. */
  lemma TitlesDistinct(a: NodeKind, b: NodeKind)
    requires a != b
    ensures NodeTitleFromKind(a) != NodeTitleFromKind(b)
  {
  }

  /** Every gate kind is titled with its own name in upper case. */
  lemma GateTitles()
    ensures NodeTitleFromKind(And) == "AND" && NodeTitleFromKind(Or) == "OR"
    ensures NodeTitleFromKind(Xor) == "XOR" && NodeTitleFromKind(Not) == "NOT"
    ensures NodeTitleFromKind(Nand) == "NAND" && NodeTitleFromKind(Nor) == "NOR"
    ensures NodeTitleFromKind(Xnor) == "XNOR"
    ensures NodeTitleFromKind(Const) == "Signal"
    ensures NodeTitleFromKind(Split) == "Split Signal"
    ensures NodeTitleFromKind(SignalDisplay) == "LED"
  {
  }
}
