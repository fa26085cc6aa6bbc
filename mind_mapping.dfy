/** The mind-mapping session: the cards as nodes of a graph; viewing a node
    and drawing a connection earn XP. */
module MindMapping {
  import opened Wrappers
  import opened Text
  import opened StudyTypes
  import opened Api

  const Technique: string := "mind-mapping"
  const ConnectXP: nat := 25
  const ViewXP: nat := 15
  const CompletionBonus: nat := 100

  type Style = map<string, string>

  /** A node of the graph; its position on the circle is left out. */
  datatype MmNode = MmNode(id: string, card: QA, index: nat, style: Style)

  /** A connection drawn between two nodes. */
  datatype Edge = Edge(source: string, target: string)

  const InitialStyle: Style := map[
    "background" := "linear-gradient(135deg, #9b59b6 0%, #8e44ad 100%)",
    "color" := "white",
    "border" := "2px solid rgba(255, 255, 255, 0.3)",
    "borderRadius" := "15px",
    "padding" := "15px",
    "width" := "200",
    "fontSize" := "12px",
    "cursor" := "pointer"]

  /** The style of a viewed node: green background and border, the rest kept. */
  function ViewedStyle(s: Style): (v: Style)
    ensures v.Keys == s.Keys + {"background", "border"}
    ensures v["background"] == "linear-gradient(135deg, #2ecc71 0%, #27ae60 100%)"
    ensures v["border"] == "2px solid #2ecc71"
    ensures forall k :: k in s && k != "background" && k != "border" ==> v[k] == s[k]
  {
    s["background" := "linear-gradient(135deg, #2ecc71 0%, #27ae60 100%)"]["border" := "2px solid #2ecc71"]
  }

  /** Node `i` has the id "i", carries card `i` and starts purple. */
  function InitialNodes(flashcards: seq<QA>): (nodes: seq<MmNode>)
    ensures |nodes| == |flashcards|
    ensures forall i :: 0 <= i < |nodes| ==>
      nodes[i].id == NatToString(i) && nodes[i].card == flashcards[i] && nodes[i].index == i
      && nodes[i].style == InitialStyle
  {
    seq(|flashcards|, i requires 0 <= i < |flashcards| => MmNode(NatToString(i), flashcards[i], i, InitialStyle))
  }

  /** Node ids are distinct and read back as the node's position. */
  lemma InitialIdsDistinct(flashcards: seq<QA>)
    ensures var nodes := InitialNodes(flashcards);
            forall i, j :: 0 <= i < |nodes| && 0 <= j < |nodes| && nodes[i].id == nodes[j].id ==> i == j
    ensures forall i :: 0 <= i < |flashcards| ==> ParseIntJs(InitialNodes(flashcards)[i].id) == Some(i)
  {
    var nodes := InitialNodes(flashcards);
    forall i, j | 0 <= i < |nodes| && 0 <= j < |nodes| && nodes[i].id == nodes[j].id ensures i == j {
      NatToStringInjective(i, j);
    }
    forall i | 0 <= i < |flashcards| ensures ParseIntJs(nodes[i].id) == Some(i) {
      ParseIntJsOfNat(i);
    }
  }

  /** `parseInt(node.id)` on a node id: it reads back the node's position. */
  method ParseNodeId(id: string, ghost k: nat) returns (nodeIndex: int)
    requires id == NatToString(k)
    ensures nodeIndex == k
  {
    ParseIntJsOfNat(k);
    nodeIndex := ParseIntJs(id).value;
  }

  /** `nds.map(...)` restyling only the node whose id is `id`. */
  function Restyle(nodes: seq<MmNode>, id: string): (r: seq<MmNode>)
    ensures |r| == |nodes|
    ensures forall j :: 0 <= j < |nodes| ==> r[j].id == nodes[j].id && r[j].card == nodes[j].card
    ensures forall j :: 0 <= j < |nodes| && nodes[j].id != id ==> r[j] == nodes[j]
    ensures forall j :: 0 <= j < |nodes| && nodes[j].id == id ==> r[j] == nodes[j].(style := ViewedStyle(nodes[j].style))
  {
    seq(|nodes|, j requires 0 <= j < |nodes| =>
      if nodes[j].id == id then nodes[j].(style := ViewedStyle(nodes[j].style)) else nodes[j])
  }

  /** `Math.ceil(n * 0.5)` */
  function HalfUp(n: nat): (h: nat)
    ensures 2 * h == n || 2 * h == n + 1
  {
    (n + 1) / 2
  }

  /** A set of card positions has at most as many elements as there are cards. */
  lemma {:induction false} ViewedBound(viewed: set<int>, n: nat)
    requires forall v :: v in viewed ==> 0 <= v < n
    ensures |viewed| <= n
  {
    if n == 0 {
      assert viewed == {} by {
        forall v | v in viewed ensures false { }
      }
    } else {
      var rest := viewed - {n - 1};
      ViewedBound(rest, n - 1);
      if n - 1 in viewed {
        assert viewed == rest + {n - 1};
      } else {
        assert viewed == rest;
      }
    }
  }

  /** With ids "0", "1", ..., restyling by the id of node `k` changes node `k`
      alone. */
  lemma RestyleOne(nodes: seq<MmNode>, k: nat)
    requires forall i :: 0 <= i < |nodes| ==> nodes[i].id == NatToString(i)
    requires k < |nodes|
    ensures var r := Restyle(nodes, nodes[k].id);
            && |r| == |nodes|
            && r[k] == nodes[k].(style := ViewedStyle(nodes[k].style))
            && forall j :: 0 <= j < |nodes| && j != k ==> r[j] == nodes[j]
  {
    forall j | 0 <= j < |nodes| && j != k ensures nodes[j].id != nodes[k].id {
      NatToStringInjective(j, k);
    }
  }

  /** Node `i` has the id "i" and carries card `i`. */
  predicate NodesOfCards(nodes: seq<MmNode>, flashcards: seq<QA>) {
    && |nodes| == |flashcards|
    && forall i :: 0 <= i < |nodes| ==> nodes[i].id == NatToString(i) && nodes[i].card == flashcards[i]
  }

  /** Restyling keeps every node's id and card. */
  lemma RestyleKeepsCards(nodes: seq<MmNode>, flashcards: seq<QA>, id: string)
    requires NodesOfCards(nodes, flashcards)
    ensures NodesOfCards(Restyle(nodes, id), flashcards)
  {
  }

  class MindMappingSession {
    const flashcards: seq<QA>
    const xpCalc: XpCalculator

    var nodes: seq<MmNode>
    var edges: seq<Edge>
    var sessionXP: nat
    var viewedCards: set<int>
    var selectedNode: Option<MmNode>
    var awardCalls: seq<AwardCall>
    var reported: seq<Stats>

    /** The nodes are the cards with ids "0", "1", ..., and only positions of
        real cards are ever viewed. */
    predicate Valid()
      reads this
    {
      && NodesOfCards(nodes, flashcards)
      && (forall v :: v in viewedCards ==> 0 <= v < |flashcards|)
    }

    constructor (flashcards: seq<QA>, xpCalc: XpCalculator)
      ensures Valid() && this.flashcards == flashcards && this.xpCalc == xpCalc
      ensures nodes == InitialNodes(flashcards) && edges == [] && sessionXP == 0
      ensures viewedCards == {} && selectedNode.None? && awardCalls == [] && reported == []
    {
      this.flashcards := flashcards;
      this.xpCalc := xpCalc;
      nodes := InitialNodes(flashcards);
      edges := [];
      sessionXP := 0;
      viewedCards := {};
      selectedNode := None;
      awardCalls := [];
      reported := [];
    }

    /** The explored count never exceeds the number of cards. */
    lemma ExploredAtMostCards()
      requires Valid()
      ensures |viewedCards| <= |flashcards|
    {
      ViewedBound(viewedCards, |flashcards|);
    }

    /** The completion button is shown once at least half the cards (rounded
        up) have been viewed. */
    predicate CompleteOffered()
      reads this
    {
      |viewedCards| >= HalfUp(|flashcards|)
    }

    /** Drawing a connection: XP every time and one more edge. */
    method OnConnect(source: string, target: string)
      requires Valid() && flashcards != []
      modifies this`sessionXP, this`edges, this`awardCalls
      ensures Valid()
      ensures sessionXP == old(sessionXP) + xpCalc(ConnectXP, Technique)
      ensures edges == old(edges) + [Edge(source, target)]
      ensures awardCalls == old(awardCalls) + [AwardCall(ArgText("mind_mapping_connection"), ArgNum(25))]
    {
      sessionXP := sessionXP + xpCalc(ConnectXP, Technique);
      awardCalls := awardCalls + [AwardCall(ArgText("mind_mapping_connection"), ArgNum(25))];
      edges := edges + [Edge(source, target)];
    }

    /** A click on node `k`: the first view of a card earns XP, records it
        and restyles that node alone; a repeat view only selects it. */
    method OnNodeClick(k: nat)
      requires Valid() && k < |nodes|
      modifies this`sessionXP, this`viewedCards, this`nodes, this`selectedNode, this`awardCalls
      ensures Valid()
      ensures selectedNode == Some(old(nodes)[k])
      ensures viewedCards == old(viewedCards) + {k}
      ensures k in old(viewedCards) ==>
        sessionXP == old(sessionXP) && nodes == old(nodes) && awardCalls == old(awardCalls)
      ensures k !in old(viewedCards) ==>
        && sessionXP == old(sessionXP) + xpCalc(ViewXP, Technique)
        && awardCalls == old(awardCalls) + [AwardCall(ArgText("mind_mapping_view"), ArgNum(15))]
        && nodes == Restyle(old(nodes), old(nodes)[k].id)
    {
      var node := nodes[k];
      var nodeIndex := ParseNodeId(node.id, k);
      if nodeIndex !in viewedCards {
        FirstView(nodeIndex);
      }
      selectedNode := Some(node);
    }

    /** The first view of card `k`: XP, the card recorded as viewed and its
        node restyled. */
    method FirstView(k: nat)
      requires Valid() && k < |nodes|
      modifies this`sessionXP, this`viewedCards, this`nodes, this`awardCalls
      ensures Valid()
      ensures viewedCards == old(viewedCards) + {k}
      ensures sessionXP == old(sessionXP) + xpCalc(ViewXP, Technique)
      ensures awardCalls == old(awardCalls) + [AwardCall(ArgText("mind_mapping_view"), ArgNum(15))]
      ensures nodes == Restyle(old(nodes), old(nodes)[k].id)
    {
      sessionXP := sessionXP + xpCalc(ViewXP, Technique);
      viewedCards := viewedCards + {k};
      awardCalls := awardCalls + [AwardCall(ArgText("mind_mapping_view"), ArgNum(15))];
      RestyleKeepsCards(nodes, flashcards, nodes[k].id);
      nodes := Restyle(nodes, nodes[k].id);
    }

    /** The details panel's close button, shown while a node is selected:
        the selection is cleared and nothing else changes. */
    method CloseDetails()
      requires Valid() && selectedNode.Some?
      modifies this`selectedNode
      ensures Valid() && selectedNode.None?
    {
      selectedNode := None;
    }

    /** "Complete Session": the summary counts the cards explored. */
    method HandleComplete()
      requires Valid() && flashcards != [] && CompleteOffered()
      modifies this`reported
      ensures Valid()
      ensures reported == old(reported) + [XpSummary(sessionXP + CompletionBonus, |viewedCards|, |flashcards|)]
      ensures 2 * |viewedCards| >= |flashcards| && |viewedCards| <= |flashcards|
    {
      ExploredAtMostCards();
      reported := reported + [XpSummary(sessionXP + CompletionBonus, |viewedCards|, |flashcards|)];
    }
  }
}
