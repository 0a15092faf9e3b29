/**
 * The slice of the ESTree syntax tree that the pure-module rule reads.
 *
 * `Expr` is the shape of a call's callee or a tagged template's tag: the only
 * subtrees the allow-list matcher walks. `Node` is a node the rule is called on
 * or one of its ancestors; only the attributes the rule reads are kept.
 */
module Estree {

  datatype Expr =
    | Identifier(name: string)
    | PrivateIdentifier(name: string)
      /** `obj.property`, or `obj[property]` when `computed` */
    | MemberExpression(obj: Expr, property: Expr, computed: bool)
      /** `import.meta`: `meta` and `property` are identifiers */
    | MetaProperty(meta: Expr, property: Expr)
    | Super
      /** any other expression, known only by its `type` */
    | OtherExpression(kind: string)

  /** The ESTree `type` attribute of an expression. */
  function ExprType(e: Expr): string {
    match e
    case Identifier(_) => "Identifier"
    case PrivateIdentifier(_) => "PrivateIdentifier"
    case MemberExpression(_, _, _) => "MemberExpression"
    case MetaProperty(_, _) => "MetaProperty"
    case Super => "Super"
    case OtherExpression(kind) => kind
  }

  predicate IsLineTerminator(c: char) {
    c == '\n' || c == '\r' || c == '\U{2028}' || c == '\U{2029}'
  }

  /** A name a parser can produce: non-empty and on one line. */
  predicate IsName(s: string) {
    |s| > 0 && forall i :: 0 <= i < |s| ==> !IsLineTerminator(s[i])
  }

  /** Every name and every `type` in the tree is one a parser produces. */
  predicate WellFormedExpr(e: Expr) {
    match e
    case Identifier(name) => IsName(name)
    case PrivateIdentifier(name) => IsName(name)
    case MemberExpression(obj, property, _) => WellFormedExpr(obj) && WellFormedExpr(property)
    case MetaProperty(meta, property) => WellFormedExpr(meta) && WellFormedExpr(property)
    case Super => true
    case OtherExpression(kind) => IsName(kind)
  }

  /** A node's `type` is a name too: either one of the fixed ESTree type names or a parsed kind. */
  lemma ExprTypeIsName(e: Expr)
    requires WellFormedExpr(e)
    ensures IsName(ExprType(e))
  {
    var t := ExprType(e);
    if !e.OtherExpression? {
      forall i | 0 <= i < |t| ensures !IsLineTerminator(t[i]) {
        assert 'A' <= t[i] <= 'z';
      }
    }
  }

  /** Number of `object`/`meta` links from an expression down to the bottom of its member chain. */
  function ChainLength(e: Expr): nat {
    match e
    case MemberExpression(obj, _, _) => 1 + ChainLength(obj)
    case MetaProperty(meta, _) => 1 + ChainLength(meta)
    case _ => 0
  }

  datatype Node =
    | AwaitExpression
    | UpdateExpression
    | AssignmentExpression
    | UnaryExpression(operator: string)
    | ThrowStatement
    | NewExpression
    | TaggedTemplateExpression(tag: Expr)
    | CallExpression(callee: Expr)
    | MethodDefinition
    | FunctionDeclaration
    | FunctionExpression
    | ArrowFunctionExpression
    | PropertyDefinition(isStatic: bool)
    | StaticBlock
      /** any other node, known only by its `type` */
    | OtherNode(kind: string)

  /** The ESTree `type` attribute of a node. */
  function NodeType(n: Node): string {
    match n
    case AwaitExpression => "AwaitExpression"
    case UpdateExpression => "UpdateExpression"
    case AssignmentExpression => "AssignmentExpression"
    case UnaryExpression(_) => "UnaryExpression"
    case ThrowStatement => "ThrowStatement"
    case NewExpression => "NewExpression"
    case TaggedTemplateExpression(_) => "TaggedTemplateExpression"
    case CallExpression(_) => "CallExpression"
    case MethodDefinition => "MethodDefinition"
    case FunctionDeclaration => "FunctionDeclaration"
    case FunctionExpression => "FunctionExpression"
    case ArrowFunctionExpression => "ArrowFunctionExpression"
    case PropertyDefinition(_) => "PropertyDefinition"
    case StaticBlock => "StaticBlock"
    case OtherNode(kind) => kind
  }

  /** The `static` attribute, as the rule reads it: only on a property definition. */
  predicate IsStatic(n: Node) {
    n.PropertyDefinition? && n.isStatic
  }

  /** The node types the rule registers a listener for, in the source's order. */
  const CheckNodeTypes: seq<string> := [
    "AwaitExpression", "UpdateExpression", "AssignmentExpression", "UnaryExpression",
    "ThrowStatement", "NewExpression", "TaggedTemplateExpression", "CallExpression"
  ]

  /** All node types that have a constructor of their own above. */
  const NamedNodeTypes: set<string> := {
    "AwaitExpression", "UpdateExpression", "AssignmentExpression", "UnaryExpression",
    "ThrowStatement", "NewExpression", "TaggedTemplateExpression", "CallExpression",
    "MethodDefinition", "FunctionDeclaration", "FunctionExpression", "ArrowFunctionExpression",
    "PropertyDefinition", "StaticBlock"
  }

  /** An `OtherNode` never poses as one of the named node types. */
  predicate WellFormedNode(n: Node) {
    n.OtherNode? ==> n.kind !in NamedNodeTypes
  }

  predicate IsCheckNode(n: Node) {
    match n
    case AwaitExpression => true
    case UpdateExpression => true
    case AssignmentExpression => true
    case UnaryExpression(_) => true
    case ThrowStatement => true
    case NewExpression => true
    case TaggedTemplateExpression(_) => true
    case CallExpression(_) => true
    case _ => false
  }

  /** The node types the rule's listener receives. */
  type CheckNode = n: Node | IsCheckNode(n) witness AwaitExpression

  /** The listener's keys are exactly the candidate kinds. */
  lemma CheckNodeTypesAreCandidates(n: Node)
    requires WellFormedNode(n)
    ensures NodeType(n) in CheckNodeTypes <==> IsCheckNode(n)
  {
  }
}
