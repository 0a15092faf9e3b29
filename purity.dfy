/** Whether a candidate node is exempt from the rule: its kind's flag, a purity comment, a `super` callee or the allow-list. */
module Purity {
  import opened Wrappers
  import opened Estree
  import opened Patterns
  import opened Config

  /** A source comment; `value` is its text without the delimiters. */
  datatype Comment = Comment(value: string)

  /** `[#@]__PURE__` occurs in `v` at index `j`. */
  predicate PureMarkerAt(v: string, j: int) {
    0 <= j && j + 9 <= |v| && (v[j] == '#' || v[j] == '@') && v[j + 1..j + 9] == "__PURE__"
  }

  function HasPureMarkerFrom(v: string, i: nat): (r: bool)
    ensures r <==> exists j :: i <= j && PureMarkerAt(v, j)
    decreases |v| - i
  {
    if i + 9 > |v| then false
    else PureMarkerAt(v, i) || HasPureMarkerFrom(v, i + 1)
  }

  /** `isPureComment`: the comment contains `#__PURE__` or `@__PURE__` anywhere. */
  function IsPureComment(c: Comment): (r: bool)
    ensures r <==> exists j :: PureMarkerAt(c.value, j)
  {
    HasPureMarkerFrom(c.value, 0)
  }

  /** `comments.some(isPureComment)`. */
  function AnyPureComment(comments: seq<Comment>): (r: bool)
    ensures r <==> exists i :: 0 <= i < |comments| && IsPureComment(comments[i])
    decreases |comments|
  {
    if comments == [] then false
    else IsPureComment(comments[0]) || AnyPureComment(comments[1..])
  }

  /** The kinds a preceding purity comment can exempt, and so the kinds the fix is offered for. */
  const PureCommentSupportNodeTypes: set<string> := {"NewExpression", "TaggedTemplateExpression", "CallExpression"}

  /**
   * `isPureNode`: whether a node of one of the eight candidate kinds is exempt,
   * given the comments that precede it and the effective options. Any other
   * node reaches the default branch, which throws.
   */
  function IsPureNode(node: Node, comments: seq<Comment>, options: Options): (r: Result<bool, string>)
    ensures r.Ok? <==> IsCheckNode(node)
    ensures r.Err? ==> r.error == "Unknown node type " + NodeType(node) + "."
  {
    match node
    case AwaitExpression => Ok(Truthy(options.allowAwait))
    case UpdateExpression => Ok(Truthy(options.allowAssign))
    case AssignmentExpression => Ok(Truthy(options.allowAssign))
    case UnaryExpression(operator) => Ok(Truthy(options.allowDelete) || operator != "delete")
    case ThrowStatement => Ok(Truthy(options.allowThrow))
    case NewExpression => Ok(Truthy(options.allowNew) || AnyPureComment(comments))
    case TaggedTemplateExpression(tag) =>
      Ok(Truthy(Coalesce(options.allowTaggedTemplate, options.allowCall))
         || AnyPureComment(comments)
         || IsPureFunction(tag, options.pureFunctions))
    case CallExpression(callee) =>
      Ok(Truthy(options.allowCall)
         || AnyPureComment(comments)
         || ExprType(callee) == "Super"
         || IsPureFunction(callee, options.pureFunctions))
    case _ => Err("Unknown node type " + NodeType(node) + ".")
  }

  /** Every node the listener hands over is classified: the default branch's throw is unreachable from it. */
  lemma ListenerNodesAreClassified(node: Node, comments: seq<Comment>, options: Options)
    requires WellFormedNode(node) && NodeType(node) in CheckNodeTypes
    ensures IsPureNode(node, comments, options).Ok?
  {
    CheckNodeTypesAreCandidates(node);
  }

  /** The five kinds a comment cannot exempt are exempt exactly when their flag says so (`delete` aside). */
  lemma SimpleExemptions(comments: seq<Comment>, options: Options, operator: string)
    ensures IsPureNode(AwaitExpression, comments, options) == Ok(Truthy(options.allowAwait))
    ensures IsPureNode(UpdateExpression, comments, options) == Ok(Truthy(options.allowAssign))
    ensures IsPureNode(AssignmentExpression, comments, options) == Ok(Truthy(options.allowAssign))
    ensures IsPureNode(UnaryExpression(operator), comments, options) == Ok(Truthy(options.allowDelete) || operator != "delete")
    ensures IsPureNode(ThrowStatement, comments, options) == Ok(Truthy(options.allowThrow))
  {
  }

  /** Comments only matter for `new`, tagged templates and calls. */
  lemma CommentsMatterOnlyForAnnotatableKinds(node: Node, c1: seq<Comment>, c2: seq<Comment>, options: Options)
    requires NodeType(node) !in PureCommentSupportNodeTypes
    ensures IsPureNode(node, c1, options) == IsPureNode(node, c2, options)
  {
  }

  /** A preceding purity comment exempts `new`, tagged templates and calls under every option set. */
  lemma PureCommentExempts(node: Node, comments: seq<Comment>, options: Options, i: nat)
    requires NodeType(node) in PureCommentSupportNodeTypes && IsCheckNode(node)
    requires i < |comments| && IsPureComment(comments[i])
    ensures IsPureNode(node, comments, options) == Ok(true)
  {
  }

  /** A call whose callee is `super` is never reported, under every option set. */
  lemma SuperCallExempt(callee: Expr, comments: seq<Comment>, options: Options)
    requires ExprType(callee) == "Super"
    ensures IsPureNode(CallExpression(callee), comments, options) == Ok(true)
  {
  }

  /** An unset `allowTaggedTemplate` follows `allowCall`. */
  lemma TaggedTemplateFollowsAllowCall(tag: Expr, comments: seq<Comment>, options: Options)
    requires options.allowTaggedTemplate.None?
    ensures IsPureNode(TaggedTemplateExpression(tag), comments, options)
         == IsPureNode(TaggedTemplateExpression(tag), comments, options.(allowTaggedTemplate := options.allowCall))
    ensures Truthy(options.allowCall) ==> IsPureNode(TaggedTemplateExpression(tag), comments, options) == Ok(true)
  {
  }

  /** `o2` allows at least what `o1` allows: every flag set in `o1` is set in `o2`, and `o2`'s allow-list includes `o1`'s. */
  predicate AtLeastAsPermissive(o1: Options, o2: Options) {
    && (Truthy(o1.allowCall) ==> Truthy(o2.allowCall))
    && (Truthy(Coalesce(o1.allowTaggedTemplate, o1.allowCall)) ==> Truthy(Coalesce(o2.allowTaggedTemplate, o2.allowCall)))
    && (Truthy(o1.allowNew) ==> Truthy(o2.allowNew))
    && (Truthy(o1.allowAssign) ==> Truthy(o2.allowAssign))
    && (Truthy(o1.allowDelete) ==> Truthy(o2.allowDelete))
    && (Truthy(o1.allowThrow) ==> Truthy(o2.allowThrow))
    && (Truthy(o1.allowAwait) ==> Truthy(o2.allowAwait))
    && (Truthy(o1.allowInStaticBlock) ==> Truthy(o2.allowInStaticBlock))
    && (forall p :: p in o1.pureFunctions.GetOr([]) ==> p in o2.pureFunctions.GetOr([]))
  }

  /** A longer allow-list exempts at least as much. */
  lemma AllowListMonotone(e: Expr, l1: Option<seq<string>>, l2: Option<seq<string>>)
    requires forall p :: p in l1.GetOr([]) ==> p in l2.GetOr([])
    requires IsPureFunction(e, l1)
    ensures IsPureFunction(e, l2)
  {
    var a := l1.GetOr([]);
    var b := l2.GetOr([]);
    var i :| 0 <= i < |a| && ChainMatches(Split(a[i]), e);
    assert a[i] in b;
    var j :| 0 <= j < |b| && b[j] == a[i];
    assert ChainMatches(Split(b[j]), e);
  }

  /** Exemption survives more permissive options and more preceding comments. */
  lemma PurityMonotone(node: Node, c1: seq<Comment>, c2: seq<Comment>, o1: Options, o2: Options)
    requires IsPureNode(node, c1, o1) == Ok(true)
    requires AtLeastAsPermissive(o1, o2)
    requires forall c :: c in c1 ==> c in c2
    ensures IsPureNode(node, c2, o2) == Ok(true)
  {
    if AnyPureComment(c1) {
      var i :| 0 <= i < |c1| && IsPureComment(c1[i]);
      assert c1[i] in c2;
      var j :| 0 <= j < |c2| && c2[j] == c1[i];
      assert IsPureComment(c2[j]);
    }
    match node
    case TaggedTemplateExpression(tag) =>
      if IsPureFunction(tag, o1.pureFunctions) { AllowListMonotone(tag, o1.pureFunctions, o2.pureFunctions); }
    case CallExpression(callee) =>
      if IsPureFunction(callee, o1.pureFunctions) { AllowListMonotone(callee, o1.pureFunctions, o2.pureFunctions); }
    case _ =>
  }
}
