/** Whether some ancestor keeps a candidate node from running when the module is evaluated. */
module Scope {
  import opened Estree
  import opened Config

  const FunctionNodeTypes: set<string> :=
    {"MethodDefinition", "FunctionDeclaration", "FunctionExpression", "ArrowFunctionExpression"}

  /**
   * One ancestor shields: a function or method; a class field that is not
   * static; a static block, but only when `allowInStaticBlock` is set.
   */
  predicate Shields(ancestor: Node, options: Options)
    ensures Shields(ancestor, options) ==>
              NodeType(ancestor) in FunctionNodeTypes || NodeType(ancestor) == "PropertyDefinition" || NodeType(ancestor) == "StaticBlock"
    ensures ancestor.PropertyDefinition? ==> (Shields(ancestor, options) <==> !ancestor.isStatic)
    ensures ancestor.StaticBlock? ==> (Shields(ancestor, options) <==> Truthy(options.allowInStaticBlock))
  {
    || NodeType(ancestor) in FunctionNodeTypes
    || (NodeType(ancestor) == "PropertyDefinition" && !IsStatic(ancestor))
    || (Truthy(options.allowInStaticBlock) && NodeType(ancestor) == "StaticBlock")
  }

  /** `isInFunction`: `ancestors.some(...)`. */
  function IsInFunction(ancestors: seq<Node>, options: Options): (r: bool)
    ensures r <==> exists i :: 0 <= i < |ancestors| && Shields(ancestors[i], options)
    decreases |ancestors|
  {
    if ancestors == [] then false
    else Shields(ancestors[0], options) || IsInFunction(ancestors[1..], options)
  }

  /** On well-formed nodes, the shielding ancestors by constructor. */
  lemma ShieldingKinds(ancestor: Node, options: Options)
    requires WellFormedNode(ancestor)
    ensures Shields(ancestor, options) <==>
              || ancestor.MethodDefinition? || ancestor.FunctionDeclaration?
              || ancestor.FunctionExpression? || ancestor.ArrowFunctionExpression?
              || ancestor == PropertyDefinition(false)
              || (ancestor.StaticBlock? && Truthy(options.allowInStaticBlock))
  {
  }

  /** The chain of a given node is split at any ancestor: shielded iff shielded above or below it. */
  lemma {:induction false} IsInFunctionAppend(outer: seq<Node>, inner: seq<Node>, options: Options)
    ensures IsInFunction(outer + inner, options) <==> IsInFunction(outer, options) || IsInFunction(inner, options)
  {
    var all := outer + inner;
    if IsInFunction(outer, options) {
      var i :| 0 <= i < |outer| && Shields(outer[i], options);
      assert all[i] == outer[i];
    }
    if IsInFunction(inner, options) {
      var i :| 0 <= i < |inner| && Shields(inner[i], options);
      assert all[|outer| + i] == inner[i];
    }
    if IsInFunction(all, options) {
      var i :| 0 <= i < |all| && Shields(all[i], options);
      if i < |outer| { assert outer[i] == all[i]; } else { assert inner[i - |outer|] == all[i]; }
    }
  }

  /** Wrapping code in a function, a method, an instance field or (by default) a static block shields everything inside. */
  lemma WrappingShields(outer: seq<Node>, wrapper: Node, inner: seq<Node>, options: Options)
    requires Shields(wrapper, options)
    ensures IsInFunction(outer + [wrapper] + inner, options)
  {
    IsInFunctionAppend(outer + [wrapper], inner, options);
    IsInFunctionAppend(outer, [wrapper], options);
  }

  /** A static field initializer never shields: it runs when the class is defined. */
  lemma StaticFieldDoesNotShield(outer: seq<Node>, inner: seq<Node>, options: Options)
    ensures IsInFunction(outer + [PropertyDefinition(true)] + inner, options) == IsInFunction(outer + inner, options)
  {
    IsInFunctionAppend(outer + [PropertyDefinition(true)], inner, options);
    IsInFunctionAppend(outer, [PropertyDefinition(true)], options);
    IsInFunctionAppend(outer, inner, options);
  }

  /** A static block shields exactly when `allowInStaticBlock` is set; nothing shields a node without ancestors. */
  lemma StaticBlockPolicy(options: Options)
    ensures IsInFunction([StaticBlock], options) == Truthy(options.allowInStaticBlock)
    ensures !IsInFunction([], options)
  {
  }

  /** More ancestors, or a static-block policy that allows more, never unshield a node. */
  lemma IsInFunctionMonotone(a1: seq<Node>, a2: seq<Node>, o1: Options, o2: Options)
    requires IsInFunction(a1, o1)
    requires forall n :: n in a1 ==> n in a2
    requires Truthy(o1.allowInStaticBlock) ==> Truthy(o2.allowInStaticBlock)
    ensures IsInFunction(a2, o2)
  {
    var i :| 0 <= i < |a1| && Shields(a1[i], o1);
    assert a1[i] in a2;
    var j :| 0 <= j < |a2| && a2[j] == a1[i];
    assert Shields(a2[j], o2);
  }
}
