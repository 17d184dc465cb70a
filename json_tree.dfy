/**
 * An abstract Jackson tree (JsonNode) and the ObjectMapper calls the services
 * make. Parsing and serialising text are library code outside this model; they
 * are supplied as functions in an ObjectMapper value.
 */
module JsonTree {
  import opened Wrappers
  import opened Dto

  /**
   * A JsonNode. Missing is Jackson's MissingNode, which `path` returns for an
   * absent field; numbers are kept as the text Jackson prints for them.
   */
  datatype Json =
    | Missing
    | Null
    | Bool(b: bool)
    | Number(text: string)
    | Text(s: string)
    | Array(items: seq<Json>)
    | Object(fields: map<string, Json>)

  /** `node.path(name)`: the field of an object, and MissingNode otherwise. */
  function Path(node: Json, name: string): Json {
    if node.Object? && name in node.fields then node.fields[name] else Missing
  }

  /** `node.isArray() && !node.isEmpty()`. */
  predicate IsNonEmptyArray(node: Json) {
    node.Array? && |node.items| > 0
  }

  /** `node.isTextual()`. */
  predicate IsTextual(node: Json) {
    node.Text?
  }

  /** `node.asText()`: "" for a missing node or a container, "null" for null. */
  function AsText(node: Json): string {
    match node
    case Missing => ""
    case Null => "null"
    case Bool(b) => if b then "true" else "false"
    case Number(t) => t
    case Text(s) => s
    case Array(_) => ""
    case Object(_) => ""
  }

  /** One step down a tree: `path(name)` on an object or `path(index)` on an array. */
  datatype Step = Field(name: string) | Index(index: nat)

  /** `node.path(index)`: the element of an array, and MissingNode otherwise. */
  function Item(node: Json, index: nat): Json {
    if node.Array? && index < |node.items| then node.items[index] else Missing
  }

  function Take(node: Json, step: Step): Json {
    match step
    case Field(name) => Path(node, name)
    case Index(index) => Item(node, index)
  }

  /**
   * The node a walk reaches, as `node.at(pointer)` finds it: once a step
   * finds nothing, the walk stays on MissingNode.
   */
  function At(node: Json, steps: seq<Step>): Json
    decreases |steps|
  {
    if steps == [] then node else At(Take(node, steps[0]), steps[1..])
  }

  /** Nothing is found below a missing node. */
  lemma {:induction false} AtMissing(steps: seq<Step>)
    ensures At(Missing, steps) == Missing
    decreases |steps|
  {
    if steps != [] {
      AtMissing(steps[1..]);
    }
  }

  /**
   * A walk that finds a node took its first step to a node that is there,
   * and went on from it.
   */
  lemma AtFirstStep(node: Json, steps: seq<Step>)
    requires steps != [] && At(node, steps) != Missing
    ensures Take(node, steps[0]) != Missing
    ensures At(node, steps) == At(Take(node, steps[0]), steps[1..])
  {
    if Take(node, steps[0]) == Missing {
      AtMissing(steps[1..]);
    }
  }

  /**
   * The ObjectMapper calls. Err carries the message of the
   * JsonProcessingException; readRecipe yields None when the text is the JSON
   * literal null, for which Jackson returns a null object.
   */
  datatype ObjectMapper = ObjectMapper(
    readTree: string -> Result<Json, string>,
    readRecipe: string -> Result<Option<RecipeResponse>, string>,
    writeValueAsString: Json -> string)
}
