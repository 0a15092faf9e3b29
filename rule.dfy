/**
 * The pure-module rule: the listener it registers and the report it makes for
 * each candidate node that is neither exempt nor shielded.
 */
module PureModuleRule {
  import opened Wrappers
  import opened Estree
  import opened Config
  import opened Purity
  import opened Scope
  import Patterns

  datatype MessageId = InsertCommentMessage | ModuleSideEffectMessage

  /** The message table; each id has its own text. */
  function MessageText(id: MessageId): (r: string)
    ensures r == "Toplevel side effect." <==> id == ModuleSideEffectMessage
    ensures r == "Insert __PURE__ comment" <==> id == InsertCommentMessage
  {
    match id
    case InsertCommentMessage => "Insert __PURE__ comment"
    case ModuleSideEffectMessage => "Toplevel side effect."
  }

  /** The text the fix inserts: a block comment whose value is `PureCommentValue`, and a space. */
  const PureCommentText: string := "/* #__PURE__ */ "
  const PureCommentValue: string := " #__PURE__ "

  /** A source edit; applying it is left to the host. */
  datatype Fix = InsertTextBefore(target: Node, text: string)

  datatype Suggestion = Suggestion(messageId: MessageId, fix: Fix)

  datatype Report = Report(node: Node, messageId: MessageId, suggest: seq<Suggestion>)

  function PureCommentSuggestion(node: Node): Suggestion {
    Suggestion(InsertCommentMessage, InsertTextBefore(node, PureCommentText))
  }

  /**
   * What `checkSideEffect` reports for one candidate node, given its ancestors,
   * the comments before it and the effective options.
   */
  function Diagnose(node: CheckNode, ancestors: seq<Node>, comments: seq<Comment>, options: Options): (r: Option<Report>)
    ensures r.Some? <==> IsPureNode(node, comments, options) == Ok(false) && !IsInFunction(ancestors, options)
    ensures r.Some? ==> r.value.node == node && r.value.messageId == ModuleSideEffectMessage
    ensures r.Some? ==> |r.value.suggest| <= 1 && (forall s :: s in r.value.suggest ==> s == PureCommentSuggestion(node))
    ensures r.Some? ==> (r.value.suggest != [] <==> NodeType(node) in PureCommentSupportNodeTypes)
    ensures r.Some? ==> MessageText(r.value.messageId) == "Toplevel side effect."
    ensures r.Some? ==> forall s :: s in r.value.suggest ==> MessageText(s.messageId) == "Insert __PURE__ comment"
  {
    if IsPureNode(node, comments, options).value then None
    else if IsInFunction(ancestors, options) then None
    else
      Some(Report(node, ModuleSideEffectMessage,
                  if NodeType(node) in PureCommentSupportNodeTypes then [PureCommentSuggestion(node)] else []))
  }

  /** The inserted text is a block comment that `isPureComment` recognises. */
  lemma PureCommentTextIsPure()
    ensures PureCommentText == "/*" + PureCommentValue + "*/ "
    ensures IsPureComment(Comment(PureCommentValue))
  {
    assert PureMarkerAt(PureCommentValue, 1);
  }

  /**
   * Applying the suggested fix silences the report: once the purity comment
   * precedes the node, the node is exempt. Where no fix is offered, that
   * comment would change nothing.
   */
  lemma FixSilencesReport(node: CheckNode, ancestors: seq<Node>, comments: seq<Comment>, options: Options)
    requires Diagnose(node, ancestors, comments, options).Some?
    ensures Diagnose(node, ancestors, comments + [Comment(PureCommentValue)], options).None?
        <==> Diagnose(node, ancestors, comments, options).value.suggest != []
  {
    var after := comments + [Comment(PureCommentValue)];
    PureCommentTextIsPure();
    assert after[|comments|] == Comment(PureCommentValue);
    if NodeType(node) in PureCommentSupportNodeTypes {
      PureCommentExempts(node, after, options, |comments|);
    } else {
      CommentsMatterOnlyForAnnotatableKinds(node, comments, after, options);
    }
  }

  /** Reports only disappear under more permissive options, more preceding comments or more enclosing scopes. */
  lemma ReportsOnlyShrink(node: CheckNode, a1: seq<Node>, a2: seq<Node>, c1: seq<Comment>, c2: seq<Comment>, o1: Options, o2: Options)
    requires Diagnose(node, a1, c1, o1).None?
    requires AtLeastAsPermissive(o1, o2)
    requires forall n :: n in a1 ==> n in a2
    requires forall c :: c in c1 ==> c in c2
    ensures Diagnose(node, a2, c2, o2).None?
  {
    if IsPureNode(node, c1, o1) == Ok(true) {
      PurityMonotone(node, c1, c2, o1, o2);
    } else {
      IsInFunctionMonotone(a1, a2, o1, o2);
    }
  }

  /** The listener's value for a node type: `checkSideEffect`, closed over the effective options. */
  datatype Handler = Handler(options: Options)

  /**
   * `create`: merges the options with their defaults and registers the same
   * handler for each of the eight candidate node types.
   */
  method Create(userOptions: Options) returns (listener: map<string, Handler>)
    ensures listener.Keys == set t | t in CheckNodeTypes
    ensures forall t :: t in listener ==> listener[t] == Handler(WithDefaults(userOptions))
  {
    var options := WithDefaults(userOptions);
    listener := map[];
    for i := 0 to |CheckNodeTypes|
      invariant listener.Keys == set j | 0 <= j < i :: CheckNodeTypes[j]
      invariant forall t :: t in listener ==> listener[t] == Handler(options)
    {
      listener := listener[CheckNodeTypes[i] := Handler(options)];
    }
  }

  /** The host's reporting channel. */
  class Context {
    var reports: seq<Report>

    constructor ()
      ensures reports == []
    {
      reports := [];
    }
  }

  function ReportsOf(d: Option<Report>): seq<Report> {
    match d
    case Some(r) => [r]
    case None => []
  }

  /** `checkSideEffect`: builds the suggestion list and reports, unless the node is exempt or shielded. */
  method CheckSideEffect(context: Context, options: Options, node: CheckNode, ancestors: seq<Node>, comments: seq<Comment>)
    modifies context
    ensures context.reports == old(context.reports) + ReportsOf(Diagnose(node, ancestors, comments, options))
  {
    if IsPureNode(node, comments, options).value {
      assert Diagnose(node, ancestors, comments, options) == None;
      return;
    }
    if IsInFunction(ancestors, options) {
      return;
    }
    var suggestions: seq<Suggestion> := [];
    if NodeType(node) in PureCommentSupportNodeTypes {
      suggestions := suggestions + [PureCommentSuggestion(node)];
    }
    assert suggestions == if NodeType(node) in PureCommentSupportNodeTypes then [PureCommentSuggestion(node)] else [];
    assert Diagnose(node, ancestors, comments, options) == Some(Report(node, ModuleSideEffectMessage, suggestions));
    context.reports := context.reports + [Report(node, ModuleSideEffectMessage, suggestions)];
  }

  /** The host calling `listener[node.type](node)` for one visited node. */
  method Dispatch(context: Context, listener: map<string, Handler>, node: Node, ancestors: seq<Node>, comments: seq<Comment>)
    requires listener.Keys == set t | t in CheckNodeTypes
    requires WellFormedNode(node)
    modifies context
    ensures IsCheckNode(node) ==>
              context.reports == old(context.reports) + ReportsOf(Diagnose(node, ancestors, comments, listener[NodeType(node)].options))
    ensures !IsCheckNode(node) ==> context.reports == old(context.reports)
  {
    CheckNodeTypesAreCandidates(node);
    if NodeType(node) in listener {
      CheckSideEffect(context, listener[NodeType(node)].options, node, ancestors, comments);
    }
  }

  /** One node as the host visits it: with its ancestor chain and the comments just before it. */
  datatype Site = Site(node: Node, ancestors: seq<Node>, comments: seq<Comment>)

  /** The reports for a traversal, site by site; non-candidate sites contribute nothing. */
  function LintReports(sites: seq<Site>, options: Options): (r: seq<Report>)
    ensures |r| <= |sites|
    ensures forall k :: 0 <= k < |r| ==> r[k].messageId == ModuleSideEffectMessage && IsCheckNode(r[k].node)
    decreases |sites|
  {
    if sites == [] then []
    else
      var s := sites[0];
      (if IsCheckNode(s.node) then ReportsOf(Diagnose(s.node, s.ancestors, s.comments, options)) else [])
      + LintReports(sites[1..], options)
  }

  /** Candidates are judged independently: the reports of a traversal are those of its parts, in order. */
  lemma {:induction false} LintReportsAppend(a: seq<Site>, b: seq<Site>, options: Options)
    ensures LintReports(a + b, options) == LintReports(a, options) + LintReports(b, options)
    decreases |a|
  {
    if a == [] {
      assert a + b == b;
    } else {
      assert (a + b)[0] == a[0];
      assert (a + b)[1..] == a[1..] + b;
      LintReportsAppend(a[1..], b, options);
    }
  }

  /** Every report of a traversal is about a candidate site that is neither exempt nor shielded. */
  lemma {:induction false} LintReportsAreJustified(sites: seq<Site>, options: Options, k: nat)
    requires k < |LintReports(sites, options)|
    ensures exists i :: 0 <= i < |sites| && IsCheckNode(sites[i].node) && LintReports(sites, options)[k].node == sites[i].node
              && IsPureNode(sites[i].node, sites[i].comments, options) == Ok(false)
              && !IsInFunction(sites[i].ancestors, options)
    decreases |sites|
  {
    var s := sites[0];
    var head := if IsCheckNode(s.node) then ReportsOf(Diagnose(s.node, s.ancestors, s.comments, options)) else [];
    assert LintReports(sites, options) == head + LintReports(sites[1..], options);
    if k < |head| {
      assert LintReports(sites, options)[k] == head[k];
    } else {
      LintReportsAreJustified(sites[1..], options, k - |head|);
      var i :| 0 <= i < |sites[1..]| && IsCheckNode(sites[1..][i].node)
               && LintReports(sites[1..], options)[k - |head|].node == sites[1..][i].node
               && IsPureNode(sites[1..][i].node, sites[1..][i].comments, options) == Ok(false)
               && !IsInFunction(sites[1..][i].ancestors, options);
      assert sites[i + 1] == sites[1..][i];
    }
  }

  /** Every visited candidate that is neither exempt nor shielded gets a report naming it. */
  lemma LintReportsAreComplete(sites: seq<Site>, options: Options, i: nat)
    requires i < |sites| && IsCheckNode(sites[i].node)
    requires IsPureNode(sites[i].node, sites[i].comments, options) == Ok(false)
    requires !IsInFunction(sites[i].ancestors, options)
    ensures exists k :: 0 <= k < |LintReports(sites, options)| && LintReports(sites, options)[k].node == sites[i].node
  {
    var s := sites[i];
    assert sites == sites[..i] + [s] + sites[i + 1..];
    LintReportsAppend(sites[..i] + [s], sites[i + 1..], options);
    LintReportsAppend(sites[..i], [s], options);
    assert LintReports([s], options) == [Diagnose(s.node, s.ancestors, s.comments, options).value];
    assert LintReports(sites, options)[|LintReports(sites[..i], options)|].node == s.node;
  }

  /** One more visited site adds exactly that site's report, if any. */
  lemma LintReportsSnoc(sites: seq<Site>, i: nat, options: Options)
    requires i < |sites|
    ensures LintReports(sites[..i + 1], options) == LintReports(sites[..i], options)
              + (if IsCheckNode(sites[i].node) then ReportsOf(Diagnose(sites[i].node, sites[i].ancestors, sites[i].comments, options)) else [])
  {
    LintReportsAppend(sites[..i], [sites[i]], options);
    assert sites[..i + 1] == sites[..i] + [sites[i]];
    assert [sites[i]][1..] == [];
  }

  /** A whole lint run: create the listener, then hand it every visited node in traversal order. */
  method Lint(userOptions: Options, sites: seq<Site>) returns (reports: seq<Report>)
    requires forall i :: 0 <= i < |sites| ==> WellFormedNode(sites[i].node)
    ensures reports == LintReports(sites, WithDefaults(userOptions))
  {
    var listener := Create(userOptions);
    var context := new Context();
    for i := 0 to |sites|
      invariant context.reports == LintReports(sites[..i], WithDefaults(userOptions))
    {
      Dispatch(context, listener, sites[i].node, sites[i].ancestors, sites[i].comments);
      LintReportsSnoc(sites, i, WithDefaults(userOptions));
    }
    assert sites[..|sites|] == sites;
    reports := context.reports;
  }

  // The rule's test table, at the level of one visited node. The node and the
  // options of each case are parameters fixed by a `requires`, which keeps the
  // verifier from unfolding the whole literal case at once.

  /** Top-level calls, tagged templates, and `new` once `allowNew` is off, are reported with the comment fix. */
  lemma AnnotatableReportsExample(options: Options, strict: Options)
    requires options == WithDefaults(NoOptions)
    requires strict == WithDefaults(NoOptions.(allowNew := Some(false)))
    ensures Diagnose(CallExpression(Identifier("f")), [], [], options)
         == Some(Report(CallExpression(Identifier("f")), ModuleSideEffectMessage, [PureCommentSuggestion(CallExpression(Identifier("f")))]))
    ensures Diagnose(TaggedTemplateExpression(Identifier("f")), [], [], options)
         == Some(Report(TaggedTemplateExpression(Identifier("f")), ModuleSideEffectMessage, [PureCommentSuggestion(TaggedTemplateExpression(Identifier("f")))]))
    ensures Diagnose(NewExpression, [], [], strict) == Some(Report(NewExpression, ModuleSideEffectMessage, [PureCommentSuggestion(NewExpression)]))
    ensures Diagnose(NewExpression, [], [], options).None?
  {
  }

  /** `delete`, `i++`, `i = 1`, `throw` and `await` are reported without a fix. */
  lemma PlainReportsExample(options: Options)
    requires options == WithDefaults(NoOptions)
    ensures Diagnose(UnaryExpression("delete"), [], [], options) == Some(Report(UnaryExpression("delete"), ModuleSideEffectMessage, []))
    ensures Diagnose(UpdateExpression, [], [], options) == Some(Report(UpdateExpression, ModuleSideEffectMessage, []))
    ensures Diagnose(AssignmentExpression, [], [], options) == Some(Report(AssignmentExpression, ModuleSideEffectMessage, []))
    ensures Diagnose(ThrowStatement, [], [], options) == Some(Report(ThrowStatement, ModuleSideEffectMessage, []))
    ensures Diagnose(AwaitExpression, [], [], options) == Some(Report(AwaitExpression, ModuleSideEffectMessage, []))
  {
  }

  /** Calls inside an arrow function, a function or an object method are not reported. */
  lemma ShieldedCallExamples(call: CheckNode, options: Options)
    requires call == CallExpression(Identifier("sideEffect"))
    requires options == WithDefaults(NoOptions)
    ensures Diagnose(call, [OtherNode("Program"), OtherNode("VariableDeclaration"), ArrowFunctionExpression], [], options).None?
    ensures Diagnose(call, [OtherNode("Program"), FunctionDeclaration, OtherNode("BlockStatement")], [], options).None?
    ensures Diagnose(call, [OtherNode("Program"), OtherNode("Property"), FunctionExpression], [], options).None?
  {
    ShieldedAt(call, [OtherNode("Program"), OtherNode("VariableDeclaration"), ArrowFunctionExpression], 2, options);
    ShieldedAt(call, [OtherNode("Program"), FunctionDeclaration, OtherNode("BlockStatement")], 1, options);
    ShieldedAt(call, [OtherNode("Program"), OtherNode("Property"), FunctionExpression], 2, options);
  }

  /** Calls inside a class method, an instance field, or (by default) a static block are not reported. */
  lemma ShieldedClassCallExamples(call: CheckNode, options: Options)
    requires call == CallExpression(Identifier("sideEffect"))
    requires options == WithDefaults(NoOptions)
    ensures Diagnose(call, [OtherNode("Program"), OtherNode("ClassBody"), MethodDefinition, FunctionExpression], [], options).None?
    ensures Diagnose(call, [OtherNode("Program"), OtherNode("ClassBody"), PropertyDefinition(false)], [], options).None?
    ensures Diagnose(call, [OtherNode("Program"), OtherNode("ClassBody"), StaticBlock], [], options).None?
  {
    ShieldedAt(call, [OtherNode("Program"), OtherNode("ClassBody"), MethodDefinition, FunctionExpression], 2, options);
    ShieldedAt(call, [OtherNode("Program"), OtherNode("ClassBody"), PropertyDefinition(false)], 2, options);
    ShieldedAt(call, [OtherNode("Program"), OtherNode("ClassBody"), StaticBlock], 2, options);
  }

  lemma ShieldedAt(call: CheckNode, ancestors: seq<Node>, i: nat, options: Options)
    requires i < |ancestors| && Shields(ancestors[i], options)
    ensures Diagnose(call, ancestors, [], options).None?
  {
  }

  /** A call in a static field is reported with the comment fix. */
  lemma StaticFieldCallExample(call: CheckNode, options: Options)
    requires call == CallExpression(Identifier("f"))
    requires options == WithDefaults(NoOptions)
    ensures Diagnose(call, [OtherNode("Program"), OtherNode("ClassBody"), PropertyDefinition(true)], [], options)
         == Some(Report(call, ModuleSideEffectMessage, [PureCommentSuggestion(call)]))
  {
  }

  /** A call in a static block is reported with the comment fix once `allowInStaticBlock` is off. */
  lemma StaticBlockCallExample(call: CheckNode, strict: Options)
    requires call == CallExpression(Identifier("f"))
    requires strict == WithDefaults(NoOptions.(allowInStaticBlock := Some(false)))
    ensures Diagnose(call, [OtherNode("Program"), OtherNode("ClassBody"), StaticBlock], [], strict)
         == Some(Report(call, ModuleSideEffectMessage, [PureCommentSuggestion(call)]))
  {
  }

  /** A call right after `/* #__PURE__ */` is not reported. */
  lemma PureCommentCallExample(call: CheckNode, options: Options)
    requires call == CallExpression(Identifier("f"))
    requires options == WithDefaults(NoOptions)
    ensures Diagnose(call, [], [Comment(PureCommentValue)], options).None?
  {
    PureCommentTextIsPure();
    PureCommentExempts(call, [Comment(PureCommentValue)], options, 0);
  }

  /** A call named in `pureFunctions` is not reported. */
  lemma AllowListedCallExample(call: CheckNode, listed: Options)
    requires call == CallExpression(Identifier("pure"))
    requires listed == WithDefaults(NoOptions.(pureFunctions := Some(["pure"])))
    ensures Diagnose(call, [], [], listed).None?
  {
    Patterns.PureExample();
  }
}
