/** The rule's options object and its defaulting. */
module Config {
  import opened Wrappers

  /** Every field is optional, as in the option schema; `None` is an absent field. */
  datatype Options = Options(
    pureFunctions: Option<seq<string>>,
    allowCall: Option<bool>,
    allowTaggedTemplate: Option<bool>,
    allowNew: Option<bool>,
    allowAssign: Option<bool>,
    allowDelete: Option<bool>,
    allowThrow: Option<bool>,
    allowAwait: Option<bool>,
    allowInStaticBlock: Option<bool>
  )

  /** `!!b`: an absent flag is false. */
  predicate Truthy(b: Option<bool>) {
    b.Some? && b.value
  }

  /** `a ?? b`. */
  function Coalesce<T>(a: Option<T>, b: Option<T>): Option<T> {
    if a.Some? then a else b
  }

  /** The empty options object `{}`. */
  const NoOptions: Options := Options(None, None, None, None, None, None, None, None, None)

  /** `{ ...base, ...top }`: every field present in `top` wins. */
  function Overlay(base: Options, top: Options): Options {
    Options(
      Coalesce(top.pureFunctions, base.pureFunctions),
      Coalesce(top.allowCall, base.allowCall),
      Coalesce(top.allowTaggedTemplate, base.allowTaggedTemplate),
      Coalesce(top.allowNew, base.allowNew),
      Coalesce(top.allowAssign, base.allowAssign),
      Coalesce(top.allowDelete, base.allowDelete),
      Coalesce(top.allowThrow, base.allowThrow),
      Coalesce(top.allowAwait, base.allowAwait),
      Coalesce(top.allowInStaticBlock, base.allowInStaticBlock))
  }

  const DefaultOptions: Options := NoOptions.(allowNew := Some(true), allowInStaticBlock := Some(true))

  /**
   * The options the rule works with: `{ allowNew: true, allowInStaticBlock: true, ...user }`.
   * `new` and static blocks are allowed unless the user says `false`; every other
   * field is exactly what the user gave.
   */
  function WithDefaults(user: Options): (r: Options)
    ensures Truthy(r.allowNew) <==> user.allowNew.None? || user.allowNew.value
    ensures Truthy(r.allowInStaticBlock) <==> user.allowInStaticBlock.None? || user.allowInStaticBlock.value
    ensures r.allowNew.Some? && r.allowInStaticBlock.Some?
    ensures r.(allowNew := user.allowNew, allowInStaticBlock := user.allowInStaticBlock) == user
  {
    Overlay(DefaultOptions, user)
  }

  /** Defaulting twice changes nothing. */
  lemma WithDefaultsIdempotent(user: Options)
    ensures WithDefaults(WithDefaults(user)) == WithDefaults(user)
  {
  }

  /** Options given explicitly are never changed by the defaults. */
  lemma WithDefaultsKeepsUserFields(user: Options)
    requires user.allowNew.Some? && user.allowInStaticBlock.Some?
    ensures WithDefaults(user) == user
  {
  }
}
