# pure-module: a verified model of the lint rule's core

`pure-module` is an ESLint rule. It reports code that runs for its side effects
at the top level of a module:
- calls and tagged templates;
- `new`, unless `allowNew` is on (it is by default);
- assignments and updates;
- `delete`, `throw` and `await`.

A node is exempt from a report in five cases:
- an option allows its kind;
- it is a unary expression whose operator is not `delete` (under every option set);
- it is the kind of call that can carry a purity annotation (`new`, call,
  tagged template) and a comment containing `#__PURE__` or `@__PURE__`
  precedes it;
- it calls `super`;
- its callee or tag matches an entry of the `pureFunctions` allow-list.

A node is not reported either when it sits, at any depth, anywhere under a
function, a method definition, a non-static class field, or a static block
(static blocks shield by default). "Anywhere under" includes the computed key of
a field or method (`class A { [f()] = 1 }`), although that code runs when the
class is defined.

Each allow-list entry is a dotted pattern such as `x.*`, `*.pure` or
`import.meta.pure`. The rule compiles it, segment by segment from the right,
into a list of attribute constraints on the member chain of the callee. The
constraints never look at whether a member access is computed, so the entry
`x.y` also exempts `x[y]()`, whatever the variable `y` holds.

The model has these modules:

- `Wrappers`: `Option` and `Result`.
- `Estree`: the syntax the rule looks at.
  - `Expr` covers callees and tags: identifiers, member expressions,
    `import.meta`, `super` and everything else.
  - `Node` covers the eight candidate kinds and the ancestor kinds that
    matter.
  - `CheckNode` is the subset type of candidates.
- `Patterns`: the pattern compiler `ParsePattern`.
  - It is a loop over the reversed segments, proved equal to the function
    `Compile`.
  - `Matches` is a model of attribute matching: attribute paths, a regular
    expression tested only on string values.
  - `ChainMatches` is an independent structural meaning of a pattern.
  - `CompileMatchesChain` proves the two agree on every pattern and every
    expression.
  - `IsPureFunction` is the allow-list test.
- `Config`: the options, and the defaults merged under the user's options.
- `Purity`: `isPureComment` and the per-kind classifier `IsPureNode`.
  - An unknown kind is the `Err` the source throws.
- `Scope`: the ancestor test `IsInFunction`.
- `PureModuleRule`: the rule itself.
  - `Diagnose` is the report one candidate gets.
  - `Create` is the listener loop.
  - The `Context` class holds the reports.
  - `CheckSideEffect` and `Dispatch` are the listener and the host's call
    into it.
  - `Lint` is a whole traversal, proved against `LintReports`.

The host services (the comments before a node, the ancestors of a node, the
reporting channel) become inputs and a `Context` object.

## Model

| member | source | states |
|---|---|---|
| `Patterns.Split` | src/rules/pure-module.ts:16 | `split(".")` yields at least one segment, and no segment contains a dot |
| `Patterns.JoinSplit` | src/rules/pure-module.ts:16 | joining the segments with dots gives back the pattern |
| `Patterns.SplitJoin` | src/rules/pure-module.ts:16 | splitting the dot-join of a non-empty list of dot-free segments gives the list back |
| `Patterns.Reversed` | src/rules/pure-module.ts:16 | `reverse()` keeps the length and puts the element at index `i` at index `n-1-i` |
| `Patterns.ImportPrefixIsFirstSegment` | src/rules/pure-module.ts:24 | `startsWith("import.")` holds exactly when there are at least two segments and the first is `import` |
| `Patterns.ParsePattern` | src/rules/pure-module.ts:13-29 | the loop's constraints are exactly `Compile(filter)`: one per reversed segment; the path is the `object`/`meta` links so far, then `property.name`, or `name`/`type` for the outermost segment |
| `Patterns.SegmentOf` | src/rules/pure-module.ts:22 | the corrected reading of the segment rewrite: `*` becomes the wildcard, which accepts exactly the non-empty one-line names; every other segment, `$` included, accepts exactly itself |
| `Patterns.GetPath` | src/rules/pure-module.ts:18-23 | following an attribute path: a string has no attributes, and a path that yields a string ends in `name` or `type` |
| `Patterns.GetPathAppend` | src/rules/pure-module.ts:18-21 | a dotted attribute path is followed key by key: the look-up of `p + q` is that of `q` from wherever `p` leads, and fails where `p` fails |
| `Patterns.Satisfies` | src/rules/pure-module.ts:23 | an attribute constraint `[path=/^re$/]` holds exactly when the path yields a string that the segment accepts; such a path ends in `name` or `type` |
| `Patterns.Matches` | src/rules/pure-module.ts:23 | the compound selector, checked constraint by constraint like `every`, holds exactly when each of its constraints holds |
| `Patterns.MatchesAppend` | src/rules/pure-module.ts:23 | appending constraints is a conjunction, so their order does not matter |
| `Patterns.CompileSegmentsMatchChain` | src/rules/pure-module.ts:17-26 | by induction on the segments, the compiled constraints hold of an expression exactly when its member chain matches the segments |
| `Patterns.CompileMatchesChain` | src/rules/pure-module.ts:13-29 | a compiled pattern matches an expression if and only if the property names down its chain match the segments from the right, the step into `import` goes through `meta`, and the first segment names the innermost node (`*` accepts any node) |
| `Patterns.IsPureFunction` | src/rules/pure-module.ts:32-45 | the callee is allow-listed if and only if some entry of the list (missing means empty) matches it in the structural sense |
| `Patterns.AnyMatches` | src/rules/pure-module.ts:36-38 | `some` over the list: true exactly when some entry's compiled selector matches the node |
| `Patterns.AllCompileMatchChain` | src/rules/pure-module.ts:36-38 | every entry of the list compiles to a matcher with the structural meaning |
| `Patterns.SingleEntry` | src/rules/pure-module.ts:36-38 | a one-entry list exempts exactly what that entry's chain matches |
| `Patterns.EmptyAllowListMatchesNothing` | src/rules/pure-module.ts:34-44 | with no list, or an empty one, nothing is allow-listed |
| `Patterns.SingleSegmentNamesIdentifier` | src/rules/pure-module.ts:20-23 | a one-segment literal pattern matches exactly the identifiers of that name, and never a member expression |
| `Patterns.StarMatchesEveryExpression` | src/rules/pure-module.ts:20-22 | the pattern `*` matches every expression, through its `type` |
| `Patterns.WildcardIsOneLevel` | src/rules/pure-module.ts:22 | a match of a pattern not starting with `*` fixes the chain depth at one less than the number of segments, so each `*` stands for exactly one level |
| `Patterns.ComputedAccessMatchesLikeDotted` | src/rules/pure-module.ts:36-38 | `computed` is never read, so every allow-list treats `obj[prop]` exactly like `obj.prop` |
| `Patterns.EmptySegmentNeverMatches` | src/rules/pure-module.ts:20-23 | a segment list with an empty segment matches no well-formed expression |
| `Patterns.MalformedPatternMatchesNothing` | src/rules/pure-module.ts:16-28 | an entry such as `a..b`, `x.` or the empty string compiles to a matcher that matches no well-formed expression |
| `Patterns.PureExample` | src/rules/pure-module.test.ts:17 | `pure` exempts `pure()` and not `other()` |
| `Patterns.StarDotPureExample` | src/rules/pure-module.test.ts:18 | `*.pure` exempts `x.y.pure()` |
| `Patterns.XDotStarExample` | src/rules/pure-module.test.ts:19 | `x.*` exempts `x.f()` but not `f.x()` or `x.y.f()` |
| `Patterns.ImportMetaExample` | src/rules/pure-module.test.ts:20-23 | `import.meta.pure` exempts `import.meta.pure()` but not a plain member chain `import.meta.pure` |
| `Patterns.ObjImportMetaExample` | src/rules/pure-module.test.ts:24-27 | `obj.import.meta.pure` exempts `obj.import.meta.pure()`, whose links are all ordinary members |
| `Patterns.AsWrittenSegmentMatches` | src/rules/pure-module.ts:22-23 | the regular expression as the source builds it; on segments without `$` it agrees with the literal-or-wildcard match |
| `Patterns.DollarSegmentAsWritten` | src/rules/pure-module.ts:22-23 | as written, a segment starting with `$` (other than `*`) matches no identifier at all, so `$` does not match `$`; and `a$` matches `a` but not `a$` |
| `Patterns.TrailingDollarAsWritten` | src/rules/pure-module.ts:22-23 | as written, a segment `p$` with no other `$` matches exactly the name `p`, never `p$` |
| `Patterns.DollarPatternsMatch` | src/rules/pure-module.ts:139 | with segments matched literally, `$` exempts `$()` and `$.fn` exempts `$.fn()`, as the option schema allows |
| `Estree.CheckNodeTypesAreCandidates` | src/rules/pure-module.ts:47-67 | on well-formed nodes, a node's type is listed in `checkNodeType` exactly when it is a candidate node |
| `Config.WithDefaults` | src/rules/pure-module.ts:170-174 | `allowNew` and `allowInStaticBlock` are on unless the user sets them to false; every other option is exactly the user's |
| `Config.WithDefaultsIdempotent` | src/rules/pure-module.ts:170-174 | merging the defaults twice changes nothing |
| `Config.WithDefaultsKeepsUserFields` | src/rules/pure-module.ts:170-174 | options that set both defaulted fields pass through unchanged |
| `Purity.IsPureComment` | src/rules/pure-module.ts:10-11 | a comment is a purity marker if and only if its value contains `#__PURE__` or `@__PURE__` at some position |
| `Purity.AnyPureComment` | src/rules/pure-module.ts:90 | some comment before the node is a purity marker |
| `Purity.IsPureNode` | src/rules/pure-module.ts:69-112 | the classifier answers for exactly the eight candidate kinds, and fails with `Unknown node type <type>.` otherwise |
| `Purity.ListenerNodesAreClassified` | src/rules/pure-module.ts:74-110 | every node whose type the listener registers gets an answer, never the error |
| `Purity.SimpleExemptions` | src/rules/pure-module.ts:75-87 | `await`, updates, assignments, `throw` and unary expressions are exempt exactly by their option; a non-`delete` unary is always exempt |
| `Purity.CommentsMatterOnlyForAnnotatableKinds` | src/rules/pure-module.ts:74-107 | for kinds other than new, call and tagged template, the preceding comments never change the answer |
| `Purity.PureCommentExempts` | src/rules/pure-module.ts:88-107 | a purity comment before a new, call or tagged-template node makes it exempt |
| `Purity.SuperCallExempt` | src/rules/pure-module.ts:104 | a `super(...)` call is always exempt |
| `Purity.TaggedTemplateFollowsAllowCall` | src/rules/pure-module.ts:95 | when `allowTaggedTemplate` is unset, tagged templates follow `allowCall` |
| `Purity.AllowListMonotone` | src/rules/pure-module.ts:36-38 | adding entries to the allow-list never loses an exemption |
| `Purity.PurityMonotone` | src/rules/pure-module.ts:69-112 | more permissive options and more preceding comments never turn an exempt node into a non-exempt one |
| `Scope.IsInFunction` | src/rules/pure-module.ts:121-132 | a node is shielded if and only if some ancestor is a function or method, a non-static class field, or a static block while `allowInStaticBlock` is on |
| `Scope.Shields` | src/rules/pure-module.ts:126-130 | an ancestor that shields is a function kind, a property definition or a static block; a property definition shields exactly when it is not static, a static block exactly when `allowInStaticBlock` is on |
| `Scope.ShieldingKinds` | src/rules/pure-module.ts:114-130 | on well-formed nodes, the shielding ancestors are exactly the four function kinds, non-static fields, and (by the option) static blocks |
| `Scope.IsInFunctionAppend` | src/rules/pure-module.ts:125 | the ancestors of a concatenated chain shield exactly when either part does |
| `Scope.WrappingShields` | src/rules/pure-module.ts:125-131 | wrapping code in a shielding node shields everything under it, however deep |
| `Scope.StaticFieldDoesNotShield` | src/rules/pure-module.ts:128 | a static class field as an ancestor changes nothing |
| `Scope.StaticBlockPolicy` | src/rules/pure-module.ts:129 | a static block shields exactly when `allowInStaticBlock` is on, and top-level code is never shielded |
| `Scope.IsInFunctionMonotone` | src/rules/pure-module.ts:121-132 | more ancestors, or turning `allowInStaticBlock` on, never removes shielding |
| `PureModuleRule.MessageText` | src/rules/pure-module.ts:162-165 | the message table: "Toplevel side effect." is exactly the text of `moduleSideEffectMessage`, "Insert __PURE__ comment" exactly that of `insertCommentMessage` |
| `PureModuleRule.Diagnose` | src/rules/pure-module.ts:162-199 | a report is made exactly when the node is not exempt and not shielded; it names the node and carries the message "Toplevel side effect."; it offers the one comment-insertion fix, "Insert __PURE__ comment", exactly for new, call and tagged-template nodes, and nothing otherwise |
| `PureModuleRule.PureCommentTextIsPure` | src/rules/pure-module.ts:186-191 | the inserted text is a block comment whose value `isPureComment` accepts |
| `PureModuleRule.FixSilencesReport` | src/rules/pure-module.ts:184-192 | after a report, adding the suggested comment before the node removes the report exactly when a fix was offered |
| `PureModuleRule.ReportsOnlyShrink` | src/rules/pure-module.ts:176-182 | more permissive options, more comments or more ancestors never create a report |
| `PureModuleRule.Create` | src/rules/pure-module.ts:169-208 | the listener has exactly the eight candidate types as keys, each bound to the handler with the defaulted options |
| `PureModuleRule.CheckSideEffect` | src/rules/pure-module.ts:176-199 | the context's reports grow by exactly the one report `Diagnose` gives, or by nothing |
| `PureModuleRule.Dispatch` | src/rules/pure-module.ts:201-205 | a candidate node is handed to its handler; any other node leaves the reports unchanged |
| `PureModuleRule.LintReports` | src/rules/pure-module.ts:201-207 | the reports of a traversal: at most one per visited node, each about a candidate node and carrying `moduleSideEffectMessage` |
| `PureModuleRule.LintReportsAppend` | src/rules/pure-module.ts:201-207 | the reports of a traversal are those of its parts, in order |
| `PureModuleRule.LintReportsAreJustified` | src/rules/pure-module.ts:176-199 | every report of a traversal is about a visited candidate that is neither exempt nor shielded |
| `PureModuleRule.LintReportsAreComplete` | src/rules/pure-module.ts:176-199 | every visited candidate that is neither exempt nor shielded gets a report naming it |
| `PureModuleRule.Lint` | src/rules/pure-module.ts:169-207 | creating the listener and dispatching every visited node yields exactly `LintReports` of the traversal |
| `PureModuleRule.AnnotatableReportsExample` | src/rules/pure-module.test.ts:30-42 | `f();`, a tagged template `f` and `new Hoge;` with `allowNew: false` are reported with the comment fix; `new Hoge;` by default is not reported |
| `PureModuleRule.PlainReportsExample` | src/rules/pure-module.test.ts:43-47 | `delete`, `i++`, `i = 1`, `throw` and `await` are reported with no suggestion |
| `PureModuleRule.ShieldedCallExamples` | src/rules/pure-module.test.ts:9-11 | calls in an arrow function, a function and an object method are not reported |
| `PureModuleRule.ShieldedClassCallExamples` | src/rules/pure-module.test.ts:12-14 | calls in a class method, an instance field and a static block (by default) are not reported |
| `PureModuleRule.StaticFieldCallExample` | src/rules/pure-module.test.ts:48-60 | a call in a static field is reported with the comment fix |
| `PureModuleRule.StaticBlockCallExample` | src/rules/pure-module.test.ts:61-74 | a call in a static block with `allowInStaticBlock: false` is reported with the comment fix |
| `PureModuleRule.PureCommentCallExample` | src/rules/pure-module.test.ts:15 | a call after `/* #__PURE__ */` is not reported |
| `PureModuleRule.AllowListedCallExample` | src/rules/pure-module.test.ts:17 | a call named in `pureFunctions` is not reported |

## Left out

- The selector text and its parser (src/rules/pure-module.ts:23, 28). A compiled pattern is modelled as the list of (attribute path, segment) constraints that the selector denotes. Attribute matching is modelled on that list: a path through a missing attribute fails, and a regular expression tests only string values.
- Malformed entries. Here the code and the intended behaviour part ways. The rule is meant to treat an entry outside the option grammar as never matching. The code instead passes each segment into the selector text unescaped. So regular-expression characters in a segment act as syntax, and an unbalanced one makes the selector parser throw. The model compiles every segment to a literal or a wildcard and never fails, so every segment, `$` included, behaves as a literal name or as `*`. For empty segments, `Patterns.MalformedPatternMatchesNothing` proves the intended never-matches behaviour.
- Any segment other than `*` that contains `*`, such as `a*b` or `**`, falls outside the option grammar. The model compiles it as a literal, although the source turns each `*` into `.+` (`^a.+b$`, `^.+.+$`).
- `Patterns.IsPureFunction` matches `$` in a segment literally: it is the corrected half of the Findings row, and `Purity.IsPureNode`, `PureModuleRule.Diagnose` and `PureModuleRule.Lint` inherit that reading. The source treats each `$` as an end anchor, so the two differ in both directions. A segment starting with `$` matches nothing in the source: the model exempts `$();` for the entry `$`, and the source reports it. A segment `x$` matches the name `x` and not `x$` in the source: for the entry `a$` the source exempts `a();` and reports `a$();`, while the model does the opposite. The as-written regular expression is modelled only per segment, by `Patterns.AsWrittenSegmentMatches`, which `Matches` does not use.
- The `__NO_SIDE_EFFECTS__` comment test (src/rules/pure-module.ts:7-8). The source defines it and never calls it.
- Enforcement of the option schema (src/rules/pure-module.ts:136-150) is done by the host before the rule runs. An option is either absent (`None`) or given. An option given explicitly as `undefined` cannot be expressed.
- The operands of assignments, updates and unary expressions, and of everything else the rule does not inspect. Nodes and ancestors carry only what the rule reads: their type, `operator`, `static`, and the callee or tag.
- Applying a fix to the source text. A fix is modelled as the edit it requests: insert `/* #__PURE__ */ ` before the node.
- The host: parsing, the traversal order, `getCommentsBefore` and `getAncestors`. These become the inputs of `Diagnose`, `CheckSideEffect` and `Lint`.
- src/util.ts (rule creation and schema helpers) and src/index.ts (plugin export) are not part of this model.

## Findings

| source | as written | input that shows it | evidently intended | confidence | as-written member | corrected member |
|---|---|---|---|---|---|---|
| src/rules/pure-module.ts:22-23 | only `*` is rewritten, so a `$` in a segment stays in the regular expression `^…$` as an end-of-input anchor | `pureFunctions: ["$"]` with `$();` compiles to `/^$$/`, which matches only the empty name, so the call is reported, and `$.fn` likewise never exempts `$.fn()`; in the other direction, the RxJS-style entry `source$.pipe` compiles its first segment to `/^source$$/`, so it exempts `source.pipe()` but not `source$.pipe()` | the option grammar (line 139) admits `$` in segments as a literal name character, so `$` should exempt `$()` and `source$.pipe` should exempt `source$.pipe()` | not executed | `Patterns.DollarSegmentAsWritten` | `Patterns.DollarPatternsMatch` |
