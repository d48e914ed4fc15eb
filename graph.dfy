/** The vertex and edge records of the labelled graph (src/lexer/graph.rs). */
module Graph {

  /** A state: the indices of its incoming and outgoing edges, and a payload. */
  datatype Vertex<D> = Vertex(inEdges: seq<nat>, outEdges: seq<nat>, data: D)

  /** A transition from `inVertex` to `outVertex` labelled `cost`. */
  datatype Edge<T> = Edge(inVertex: nat, outVertex: nat, cost: T)

  /** `Vertex::new`: no edges yet, the payload as given. */
  function NewVertex<D>(data: D): (v: Vertex<D>)
    ensures v.inEdges == [] && v.outEdges == [] && v.data == data
  {
    Vertex([], [], data)
  }

  /** `Edge::new`: endpoints and label stored as given. */
  function NewEdge<T>(in_: nat, out_: nat, cost: T): (e: Edge<T>)
    ensures e.inVertex == in_ && e.outVertex == out_ && e.cost == cost
  {
    Edge(in_, out_, cost)
  }
}
