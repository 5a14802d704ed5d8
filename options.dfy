/** The options hash that switches the four rule categories on and off. */
module Options {

  /** The keys of the options hash: `:presence`, `:uniqueness`, `:numericality`, `:length`. */
  datatype Category = PresenceKey | UniquenessKey | NumericalityKey | LengthKey

  /** An options hash; the caller's may name any subset of the keys. */
  type Opts = map<Category, bool>

  const AllCategories: set<Category> := {PresenceKey, UniquenessKey, NumericalityKey, LengthKey}

  /** VALHAMMER_DEFAULT_OPTS: every category enabled. */
  const DefaultOpts: Opts :=
    map[PresenceKey := true, UniquenessKey := true, NumericalityKey := true, LengthKey := true]

  /** `opts[key]` used as a condition: a missing key reads as nil, which is falsy. */
  predicate Enabled(opts: Opts, key: Category) {
    key in opts && opts[key]
  }

  /**
   * `VALHAMMER_DEFAULT_OPTS.merge(opts)`: every key is present afterwards, the
   * caller's value wins where the caller gave one, and a key the caller left
   * out stays enabled.
   */
  function Merge(caller: Opts): (r: Opts)
    ensures r.Keys == AllCategories
    ensures forall key :: key in caller ==> key in r && r[key] == caller[key]
    ensures forall key :: key !in caller ==> Enabled(r, key)
    ensures forall key :: Enabled(r, key) <==> (key !in caller || caller[key])
  {
    DefaultsCoverEveryKey();
    DefaultOpts + caller
  }

  /** The default hash names every category. */
  lemma DefaultsCoverEveryKey()
    ensures DefaultOpts.Keys == AllCategories
    ensures forall key: Category :: key in DefaultOpts
  {
    forall key: Category ensures key in DefaultOpts {
      match key
      case PresenceKey =>
      case UniquenessKey =>
      case NumericalityKey =>
      case LengthKey =>
    }
  }

  /** The options with one category switched off and the others as they were. */
  function Disable(opts: Opts, key: Category): (r: Opts)
    ensures !Enabled(r, key)
    ensures forall other :: other != key ==> (Enabled(r, other) <==> Enabled(opts, other))
  {
    opts[key := false]
  }
}
