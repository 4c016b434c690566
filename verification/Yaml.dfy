/** A YAML document as a tree; emitting and loading one is taken to be the identity. */
module Yaml {
  datatype Node = Null | Scalar(text: string) | Sequence(items: seq<Node>) | Map(entries: seq<(string, Node)>)
}
