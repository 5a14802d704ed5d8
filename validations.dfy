/**
 * Valhammer::Validations as it runs on a model class: `valhammer` caches the
 * table's indexes on the class the first time it is called, merges the
 * options, and walks `columns_hash`, each `validates` call appending one
 * registration to the class.
 */
module Validations {
  import opened Wrappers
  import opened Schema
  import opened Options
  import opened Rules
  import opened Table

  /** `validations[key] = value` when the rule applies; the hash is left alone otherwise. */
  function Put<T>(current: Option<T>, rule: Option<T>): (r: Option<T>)
    ensures rule.Some? ==> r == rule
    ensures rule.None? ==> r == current
  {
    if rule.Some? then rule else current
  }

  /** One more column of the walk over `columns_hash`. */
  lemma TableRulesStep(env: Env, columns: seq<Column>, i: nat)
    requires i < |columns|
    ensures TableRules(env, columns[..i + 1]) == TableRules(env, columns[..i]) + ColumnRules(env, columns[i])
  {
    assert columns[..i + 1][..i] == columns[..i];
  }

  /** The `validations` hash that `valhammer_validations` fills for one column. */
  class RuleHash {
    var presence: Option<bool>
    var uniqueness: Option<Uniqueness>
    var numericality: Option<Numericality>
    var length: Option<Length>

    /** The hash's contents as a value. */
    function Value(): Bundle
      reads this
    {
      Bundle(presence, uniqueness, numericality, length)
    }

    /** `validations = {}` */
    constructor ()
      ensures Value() == EmptyBundle
    {
      presence, uniqueness, numericality, length := None, None, None, None;
    }
  }

  /** A model class that `valhammer` has been mixed into. */
  class Model {
    /** `columns_hash`, in its order. */
    const columns: seq<Column>
    /** `primary_key`, `None` for a table without one. */
    const primaryKey: Option<string>
    /** `reflect_on_all_associations(:belongs_to)`, in its order. */
    const associations: seq<Assoc>
    /** `@valhammer_indexes`: `None` until the first `valhammer` call. */
    var indexes: Option<seq<Index>>
    /** The `validates` calls made on the class so far, oldest first. */
    var registered: seq<Registration>

    constructor (columns: seq<Column>, primaryKey: Option<string>, associations: seq<Assoc>)
      ensures this.columns == columns && this.primaryKey == primaryKey && this.associations == associations
      ensures indexes == None && registered == []
    {
      this.columns := columns;
      this.primaryKey := primaryKey;
      this.associations := associations;
      indexes := None;
      registered := [];
    }

    /**
     * `valhammer(opts)`. `connectionIndexes` is what `connection.indexes(table_name)`
     * would return; it is used only when the cache is still empty, so a later
     * call keeps the indexes of the first. Every column's registrations are
     * appended in `columns_hash` order under the merged options.
     */
    method Valhammer(callerOpts: Opts, connectionIndexes: seq<Index>)
      modifies this
      ensures old(indexes).None? ==> indexes == Some(connectionIndexes)
      ensures old(indexes).Some? ==> indexes == old(indexes)
      ensures indexes.Some? && registered == old(registered) + TableRules(Env(indexes.value, Merge(callerOpts), primaryKey, associations), columns)
    {
      if indexes.None? {
        indexes := Some(connectionIndexes);
      }
      var opts := Merge(callerOpts);
      EachColumn(opts);
    }

    /** The `columns_hash.each` loop of `valhammer`, once the index cache is set. */
    method EachColumn(opts: Opts)
      requires indexes.Some?
      modifies this`registered
      ensures registered == old(registered) + TableRules(Env(indexes.value, opts, primaryKey, associations), columns)
    {
      ghost var env := Env(indexes.value, opts, primaryKey, associations);
      var i := 0;
      while i < |columns|
        invariant 0 <= i <= |columns|
        invariant registered == old(registered) + TableRules(env, columns[..i])
      {
        TableRulesStep(env, columns, i);
        Validate(columns[i], opts);
        i := i + 1;
      }
      assert columns[..i] == columns;
    }

    /** `validates(target, rules)`: record one registration on the class. */
    method Validates(target: Target, rules: Bundle)
      modifies this`registered
      ensures registered == old(registered) + [Registration(target, rules)]
    {
      registered := registered + [Registration(target, rules)];
    }

    /** `valhammer_validate(name, column, opts)`. */
    method Validate(column: Column, opts: Opts)
      requires indexes.Some?
      modifies this`registered
      ensures registered == old(registered) + ColumnRules(Env(indexes.value, opts, primaryKey, associations), column)
    {
      if Excluded(column.name, primaryKey) {
        return;
      }
      var assoc := FirstAssoc(associations, column.name);
      if assoc.Some? && !column.nullable && Enabled(opts, PresenceKey) {
        Validates(AssocField(assoc.value), PresenceOnly);
        return;
      }
      var validations := Validations(column, opts);
      if !validations.IsEmpty() {
        Validates(ColumnField(column.name), validations);
      }
    }

    /** `valhammer_validations(column, opts)`: the four helpers fill one fresh hash in turn. */
    method Validations(column: Column, opts: Opts) returns (validations: Bundle)
      requires indexes.Some?
      ensures validations == BundleFor(column, indexes.value, opts)
    {
      var hash := new RuleHash();
      Presence(hash, column, opts);
      Unique(hash, column, opts);
      Numeric(hash, column, opts);
      LengthOf(hash, column, opts);
      validations := hash.Value();
    }

    /** `valhammer_presence`: sets `presence: true` for a non-null column when presence is on. */
    method Presence(validations: RuleHash, column: Column, opts: Opts)
      modifies validations
      ensures validations.Value() ==
        old(validations.Value()).(presence := Put(old(validations.presence), PresenceRule(column, opts)))
    {
      if !Enabled(opts, PresenceKey) {
        return;
      }
      if !column.nullable {
        validations.presence := Some(true);
      }
    }

    /** `valhammer_unique`: sets `uniqueness` when exactly one cached unique index ends in the column. */
    method Unique(validations: RuleHash, column: Column, opts: Opts)
      requires indexes.Some?
      modifies validations
      ensures validations.Value() ==
        old(validations.Value()).(uniqueness :=
          Put(old(validations.uniqueness), UniquenessRule(column, indexes.value, opts)))
    {
      if !Enabled(opts, UniquenessKey) {
        return;
      }
      var uniqueKeys := UniqueKeys(indexes.value, column.name);
      if |uniqueKeys| != 1 {
        return;
      }
      var scope := AllButLast(uniqueKeys[0].columns);
      validations.uniqueness := Some(if scope == [] then UniqueTrue else UniqueScope(scope));
    }

    /** `valhammer_numeric`: sets `numericality` for integer and decimal columns. */
    method Numeric(validations: RuleHash, column: Column, opts: Opts)
      modifies validations
      ensures validations.Value() ==
        old(validations.Value()).(numericality := Put(old(validations.numericality), NumericalityRule(column, opts)))
    {
      if !Enabled(opts, NumericalityKey) {
        return;
      }
      match column.ctype
      case Integer =>
        validations.numericality := Some(Numericality(true, column.nullable));
      case Decimal =>
        validations.numericality := Some(Numericality(false, column.nullable));
      case _ =>
    }

    /** `valhammer_length`: sets `length` for a string column with a limit. */
    method LengthOf(validations: RuleHash, column: Column, opts: Opts)
      modifies validations
      ensures validations.Value() ==
        old(validations.Value()).(length := Put(old(validations.length), LengthRule(column, opts)))
    {
      if !(Enabled(opts, LengthKey) && column.ctype == String && column.limit.Some?) {
        return;
      }
      validations.length := Some(Length(column.limit.value));
    }
  }

  /**
   * Two `valhammer` calls on a fresh class: both use the indexes fetched by
   * the first, whatever the connection would report the second time, and
   * each appends the rules of its own options.
   */
  method ValhammerTwice(model: Model, first: Opts, firstIndexes: seq<Index>, second: Opts, secondIndexes: seq<Index>)
    requires model.indexes.None?
    modifies model
    ensures model.indexes == Some(firstIndexes)
    ensures model.registered == old(model.registered)
      + TableRules(Env(firstIndexes, Merge(first), model.primaryKey, model.associations), model.columns)
      + TableRules(Env(firstIndexes, Merge(second), model.primaryKey, model.associations), model.columns)
  {
    model.Valhammer(first, firstIndexes);
    model.Valhammer(second, secondIndexes);
  }
}
