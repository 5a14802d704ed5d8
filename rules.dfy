/**
 * The per-column rule inference of Valhammer::Validations: which fields are
 * skipped, which association a foreign key backs, and the four rules that a
 * column's bundle may hold.
 */
module Rules {
  import opened Wrappers
  import opened Schema
  import opened Options

  /** The value of `uniqueness:`: plain `true`, or `{scope: [...]}`. */
  datatype Uniqueness = UniqueTrue | UniqueScope(scope: seq<string>)

  /** The value of `numericality:`: `{only_integer: ..., allow_nil: ...}`. */
  datatype Numericality = Numericality(onlyInteger: bool, allowNil: bool)

  /** The value of `length:`: `{maximum: ...}`. */
  datatype Length = Length(maximum: int)

  /**
   * The options passed to one `validates` call, a hash whose keys are filled
   * in the fixed order presence, uniqueness, numericality, length. A field is
   * `None` when its key is absent; `presence` is only ever `Some(true)`.
   */
  datatype Bundle = Bundle(
    presence: Option<bool>,
    uniqueness: Option<Uniqueness>,
    numericality: Option<Numericality>,
    length: Option<Length>)
  {
    /** `validations.empty?` */
    predicate IsEmpty() {
      presence.None? && uniqueness.None? && numericality.None? && length.None?
    }

    /** Whether the hash holds `key`. */
    predicate Has(key: Category) {
      match key
      case PresenceKey => presence.Some?
      case UniquenessKey => uniqueness.Some?
      case NumericalityKey => numericality.Some?
      case LengthKey => length.Some?
    }

    /** The hash with `key` removed and every other key kept. */
    function Drop(key: Category): (r: Bundle)
      ensures !r.Has(key)
      ensures forall other :: other != key ==> (r.Has(other) <==> Has(other))
    {
      match key
      case PresenceKey => this.(presence := None)
      case UniquenessKey => this.(uniqueness := None)
      case NumericalityKey => this.(numericality := None)
      case LengthKey => this.(length := None)
    }
  }

  const EmptyBundle: Bundle := Bundle(None, None, None, None)

  /** The options of `validates(assoc, presence: true)`. */
  const PresenceOnly: Bundle := Bundle(Some(true), None, None, None)

  /** VALHAMMER_EXCLUDED_FIELDS: the timestamp bookkeeping columns. */
  const ExcludedFields: seq<string> := ["created_at", "updated_at"]

  /**
   * `valhammer_exclude?(field)`: the primary key and the two timestamp
   * columns get no rules. A table without a primary key has `None` here.
   */
  predicate Excluded(field: string, primaryKey: Option<string>) {
    primaryKey == Some(field) || field in ExcludedFields
  }

  /** Exactly three names are skipped: the primary key, `created_at` and `updated_at`. */
  lemma ExcludedFieldsSpec(field: string, primaryKey: Option<string>)
    ensures Excluded(field, primaryKey) <==>
      primaryKey == Some(field) || field == "created_at" || field == "updated_at"
  {
  }

  /** Position `k` holds the first association whose foreign key is `field`. */
  predicate FirstMatch(assocs: seq<Assoc>, field: string, k: int) {
    0 <= k < |assocs| && assocs[k].foreignKey == field &&
    forall j :: 0 <= j < k ==> assocs[j].foreignKey != field
  }

  /**
   * `valhammer_assoc(field)`: the name of the first belongs-to association
   * whose foreign key is `field`, in the order the reflection lists them;
   * `None` (Ruby's `false` from `any?`) when no association uses it.
   */
  function FirstAssoc(assocs: seq<Assoc>, field: string): (r: Option<string>)
    ensures r.None? <==> forall k :: 0 <= k < |assocs| ==> assocs[k].foreignKey != field
    ensures forall k :: FirstMatch(assocs, field, k) ==> r == Some(assocs[k].name)
  {
    if |assocs| == 0 then None
    else if assocs[0].foreignKey == field then Some(assocs[0].name)
    else
      var r := FirstAssoc(assocs[1..], field);
      assert forall k :: FirstMatch(assocs, field, k) ==> FirstMatch(assocs[1..], field, k - 1);
      r
  }

  // ---------------------------------------------------------------------
  // Presence
  // ---------------------------------------------------------------------

  /** `valhammer_presence`: `presence: true` for a non-null column when presence is on. */
  function PresenceRule(column: Column, opts: Opts): (r: Option<bool>)
    ensures r.Some? <==> Enabled(opts, PresenceKey) && !column.nullable
    ensures r != Some(false)
  {
    if !Enabled(opts, PresenceKey) then None
    else if column.nullable then None
    else Some(true)
  }

  // ---------------------------------------------------------------------
  // Uniqueness
  // ---------------------------------------------------------------------

  /** Index `i` is unique and its last column is `name`. */
  predicate Terminates(i: Index, name: string) {
    i.unique && |i.columns| > 0 && i.columns[|i.columns| - 1] == name
  }

  /** The `select` in `valhammer_unique`: the unique indexes ending in `name`, in order. */
  function UniqueKeys(indexes: seq<Index>, name: string): (r: seq<Index>)
    ensures |r| <= |indexes|
    ensures forall i :: i in r ==> i in indexes && Terminates(i, name)
    ensures forall k :: 0 <= k < |indexes| && Terminates(indexes[k], name) ==> indexes[k] in r
  {
    if |indexes| == 0 then []
    else
      var rest := UniqueKeys(indexes[1..], name);
      assert forall k :: 1 <= k < |indexes| ==> indexes[k] == indexes[1..][k - 1];
      if Terminates(indexes[0], name) then [indexes[0]] + rest else rest
  }

  /**
   * `select` keeps duplicates: every unique index ending in `name` is selected
   * as often as it is listed, and nothing else is selected.
   */
  lemma {:induction false} UniqueKeysCounts(indexes: seq<Index>, name: string)
    ensures forall i ::
      multiset(UniqueKeys(indexes, name))[i] == (if Terminates(i, name) then multiset(indexes)[i] else 0)
  {
    if |indexes| > 0 {
      var tail := indexes[1..];
      UniqueKeysCounts(tail, name);
      assert indexes == [indexes[0]] + tail;
      assert multiset(indexes) == multiset{indexes[0]} + multiset(tail);
      if Terminates(indexes[0], name) {
        assert multiset(UniqueKeys(indexes, name)) == multiset{indexes[0]} + multiset(UniqueKeys(tail, name));
      }
    }
  }

  /** Position `k` holds the one and only unique index that ends in `name`. */
  predicate SoleTerminating(indexes: seq<Index>, name: string, k: int) {
    0 <= k < |indexes| && Terminates(indexes[k], name) &&
    forall j :: 0 <= j < |indexes| && j != k ==> !Terminates(indexes[j], name)
  }

  /** `scope = columns[0..-2]`: every column except the last, in order. */
  function AllButLast(columns: seq<string>): (r: seq<string>)
    ensures |columns| > 0 ==> r + [columns[|columns| - 1]] == columns
    ensures |columns| == 0 ==> r == []
  {
    if |columns| == 0 then [] else columns[..|columns| - 1]
  }

  /** `scope.empty? ? true : { scope: scope }` */
  function ScopedBy(columns: seq<string>): (r: Uniqueness)
    ensures r == UniqueTrue <==> |columns| <= 1
    ensures r.UniqueScope? ==> r.scope + [columns[|columns| - 1]] == columns
  {
    var scope := AllButLast(columns);
    if scope == [] then UniqueTrue else UniqueScope(scope)
  }

  /** `valhammer_unique`: a rule only when exactly one unique index ends in the column. */
  function UniquenessRule(column: Column, indexes: seq<Index>, opts: Opts): Option<Uniqueness>
  {
    if !Enabled(opts, UniquenessKey) then None
    else
      var keys := UniqueKeys(indexes, column.name);
      if |keys| == 1 then Some(ScopedBy(keys[0].columns)) else None
  }

  /**
   * `unique_keys.one?` holds exactly when one position of the index list holds
   * a unique index ending in `name`, and then that index is the one selected.
   */
  lemma {:induction false} OneUniqueKey(indexes: seq<Index>, name: string)
    ensures |UniqueKeys(indexes, name)| == 1 <==> exists k :: SoleTerminating(indexes, name, k)
    ensures forall k :: SoleTerminating(indexes, name, k) ==> UniqueKeys(indexes, name) == [indexes[k]]
  {
    if |indexes| > 0 {
      var tail := indexes[1..];
      OneUniqueKey(tail, name);
      assert forall k :: 1 <= k < |indexes| ==> indexes[k] == tail[k - 1];
      if Terminates(indexes[0], name) {
        if UniqueKeys(tail, name) == [] {
          assert forall j :: 1 <= j < |indexes| ==> !Terminates(indexes[j], name) by {
            forall j | 1 <= j < |indexes| ensures !Terminates(indexes[j], name) {
              assert indexes[j] == tail[j - 1] && tail[j - 1] in tail;
            }
          }
          assert SoleTerminating(indexes, name, 0);
          forall k | SoleTerminating(indexes, name, k) ensures k == 0 { }
        } else {
          var i := UniqueKeys(tail, name)[0];
          assert i in UniqueKeys(tail, name);
          var j :| 0 <= j < |tail| && tail[j] == i;
          assert Terminates(indexes[j + 1], name);
          forall k ensures !SoleTerminating(indexes, name, k) { }
        }
      } else {
        forall k | SoleTerminating(indexes, name, k) ensures SoleTerminating(tail, name, k - 1) {
          assert k != 0;
          forall j | 0 <= j < |tail| && j != k - 1 ensures !Terminates(tail[j], name) {
            assert tail[j] == indexes[j + 1];
          }
        }
        forall k | SoleTerminating(tail, name, k) ensures SoleTerminating(indexes, name, k + 1) {
          forall j | 0 <= j < |indexes| && j != k + 1 ensures !Terminates(indexes[j], name) {
            if j > 0 {
              assert indexes[j] == tail[j - 1];
            }
          }
        }
      }
    }
  }

  /**
   * The uniqueness rule is present exactly when uniqueness is on and one
   * unique index (and no other) ends in the column; it is `true` for a
   * single-column index and otherwise scopes by the index's other columns, in
   * index order.
   */
  lemma UniquenessRuleSpec(column: Column, indexes: seq<Index>, opts: Opts)
    ensures UniquenessRule(column, indexes, opts).Some? <==>
      Enabled(opts, UniquenessKey) && exists k :: SoleTerminating(indexes, column.name, k)
    ensures forall k :: Enabled(opts, UniquenessKey) && SoleTerminating(indexes, column.name, k) ==>
      UniquenessRule(column, indexes, opts) ==
        Some(if |indexes[k].columns| == 1 then UniqueTrue
             else UniqueScope(indexes[k].columns[..|indexes[k].columns| - 1]))
  {
    OneUniqueKey(indexes, column.name);
  }

  // ---------------------------------------------------------------------
  // Numericality and length
  // ---------------------------------------------------------------------

  /**
   * `valhammer_numeric`: integer and decimal columns get a numericality rule
   * that allows nil exactly when the column is nullable; other types get none.
   */
  function NumericalityRule(column: Column, opts: Opts): (r: Option<Numericality>)
    ensures r.Some? <==> Enabled(opts, NumericalityKey) && (column.ctype == Integer || column.ctype == Decimal)
    ensures r.Some? ==> r.value.onlyInteger == (column.ctype == Integer)
    ensures r.Some? ==> r.value.allowNil == column.nullable
  {
    if !Enabled(opts, NumericalityKey) then None
    else
      match column.ctype
      case Integer => Some(Numericality(true, column.nullable))
      case Decimal => Some(Numericality(false, column.nullable))
      case _ => None
  }

  /**
   * `valhammer_length`: a string column with a limit gets `maximum: limit`.
   * Any limit counts, zero included, since every Ruby integer is truthy.
   */
  function LengthRule(column: Column, opts: Opts): (r: Option<Length>)
    ensures r.Some? <==> Enabled(opts, LengthKey) && column.ctype == String && column.limit.Some?
    ensures r.Some? ==> r.value.maximum == column.limit.value
  {
    if Enabled(opts, LengthKey) && column.ctype == String && column.limit.Some?
    then Some(Length(column.limit.value))
    else None
  }

  // ---------------------------------------------------------------------
  // The bundle
  // ---------------------------------------------------------------------

  /** `valhammer_validations`: the four rules, each gated by its own option. */
  function BundleFor(column: Column, indexes: seq<Index>, opts: Opts): Bundle {
    Bundle(
      PresenceRule(column, opts),
      UniquenessRule(column, indexes, opts),
      NumericalityRule(column, opts),
      LengthRule(column, opts))
  }

  /**
   * Each option gates only its own key: switching one category off removes
   * that key from the bundle and leaves the other three as they were.
   */
  lemma DisableDropsOnlyItsKey(column: Column, indexes: seq<Index>, opts: Opts, key: Category)
    ensures BundleFor(column, indexes, Disable(opts, key)) == BundleFor(column, indexes, opts).Drop(key)
  {
    match key
    case PresenceKey =>
    case UniquenessKey =>
    case NumericalityKey =>
    case LengthKey =>
  }
}
