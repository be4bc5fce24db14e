// Parsed configuration documents: the values that the JSON, YAML and TOML codecs
// hand to the structured merge and to the portable projection.
module Documents {

  // A document value. Objects are key maps, lists keep their order, text is a
  // string (the only value a home path can hide in) and every other scalar is
  // kept as its literal.
  datatype Node =
    | Scalar(literal: string)
    | Text(text: string)
    | List(items: seq<Node>)
    | Object(fields: map<string, Node>)

  type Document = map<string, Node>

  // A value that may be missing from its object.
  datatype Slot = Absent | Present(node: Node)

  function Get(document: Document, key: string): Slot {
    if key in document then Present(document[key]) else Absent
  }

  // The slot reached from a slot by following object keys.
  function At(slot: Slot, path: seq<string>): Slot
    decreases |path|
  {
    if path == [] then slot
    else if slot.Present? && slot.node.Object? then At(Get(slot.node.fields, path[0]), path[1..])
    else Absent
  }

  lemma AtAbsent(path: seq<string>)
    ensures At(Absent, path) == Absent
  {
  }

  lemma AtChild(slot: Slot, key: string, path: seq<string>)
    ensures At(slot, [key] + path) ==
            (if slot.Present? && slot.node.Object? then At(Get(slot.node.fields, key), path) else Absent)
  {
    assert ([key] + path)[1..] == path;
  }
}
