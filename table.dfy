/**
 * What `valhammer` registers for a whole table: one decision per column
 * (skip, association takeover, or the column's own bundle), in the order of
 * `columns_hash`, and the properties of the resulting list of registrations.
 */
module Table {
  import opened Wrappers
  import opened Schema
  import opened Options
  import opened Rules

  /** The field a `validates` call is keyed by: a column name or an association name. */
  datatype Target = ColumnField(column: string) | AssocField(assoc: string)

  /** One `validates(target, rules)` call. */
  datatype Registration = Registration(target: Target, rules: Bundle)

  /**
   * Everything a column's decision reads besides the column itself: the
   * cached index list, the effective options, the primary key and the
   * belongs-to associations.
   */
  datatype Env = Env(indexes: seq<Index>, opts: Opts, primaryKey: Option<string>, associations: seq<Assoc>)

  /** The association takeover condition of `valhammer_validate`. */
  predicate TakenOver(env: Env, column: Column) {
    FirstAssoc(env.associations, column.name).Some? && !column.nullable && Enabled(env.opts, PresenceKey)
  }

  /**
   * `valhammer_validate(name, column, opts)`: nothing for an excluded field;
   * `presence: true` keyed by the association for a non-null foreign key when
   * presence is on; otherwise the column's bundle keyed by its name, unless
   * the bundle is empty.
   */
  function ColumnRules(env: Env, column: Column): (r: seq<Registration>)
    ensures |r| <= 1
  {
    if Excluded(column.name, env.primaryKey) then []
    else
      var assoc := FirstAssoc(env.associations, column.name);
      if assoc.Some? && !column.nullable && Enabled(env.opts, PresenceKey) then
        [Registration(AssocField(assoc.value), PresenceOnly)]
      else
        var validations := BundleFor(column, env.indexes, env.opts);
        if validations.IsEmpty() then [] else [Registration(ColumnField(column.name), validations)]
  }

  /**
   * What one column may register: nothing when excluded, never an empty
   * bundle, its own bundle under its own name only without takeover, and
   * `presence: true` under an association only with takeover.
   */
  lemma ColumnRulesSpec(env: Env, column: Column)
    ensures Excluded(column.name, env.primaryKey) ==> ColumnRules(env, column) == []
    ensures forall g :: g in ColumnRules(env, column) ==> !g.rules.IsEmpty()
    ensures forall g :: g in ColumnRules(env, column) && g.target.ColumnField? ==>
      g.target.column == column.name && !TakenOver(env, column) &&
      g.rules == BundleFor(column, env.indexes, env.opts)
    ensures forall g :: g in ColumnRules(env, column) && g.target.AssocField? ==>
      g.rules == PresenceOnly && !column.nullable && Enabled(env.opts, PresenceKey) &&
      FirstAssoc(env.associations, column.name) == Some(g.target.assoc)
  {
  }

  /**
   * The loop over `columns_hash` in `valhammer`: every column's registrations,
   * in column order.
   */
  function TableRules(env: Env, columns: seq<Column>): (r: seq<Registration>)
    ensures |r| <= |columns|
    decreases |columns|
  {
    if |columns| == 0 then []
    else TableRules(env, columns[..|columns| - 1]) + ColumnRules(env, columns[|columns| - 1])
  }

  /** No registration of the table carries an empty bundle. */
  lemma {:induction false} NoEmptyRegistration(env: Env, columns: seq<Column>)
    ensures forall g :: g in TableRules(env, columns) ==> !g.rules.IsEmpty()
    decreases |columns|
  {
    if |columns| > 0 {
      NoEmptyRegistration(env, columns[..|columns| - 1]);
      ColumnRulesSpec(env, columns[|columns| - 1]);
    }
  }

  /** The bundles registered under `target`, in registration order. */
  function KeyedBy(regs: seq<Registration>, target: Target): seq<Bundle>
    decreases |regs|
  {
    if |regs| == 0 then []
    else
      var last := regs[|regs| - 1];
      KeyedBy(regs[..|regs| - 1], target) + (if last.target == target then [last.rules] else [])
  }

  /**
   * The registrations with `key` taken out of every bundle and the bundles
   * left empty dropped.
   */
  function Strip(regs: seq<Registration>, key: Category): (r: seq<Registration>)
    ensures forall g :: g in r ==> !g.rules.IsEmpty() && !g.rules.Has(key)
    decreases |regs|
  {
    if |regs| == 0 then []
    else
      var last := regs[|regs| - 1];
      var rest := last.rules.Drop(key);
      Strip(regs[..|regs| - 1], key) + (if rest.IsEmpty() then [] else [Registration(last.target, rest)])
  }

  // ---------------------------------------------------------------------
  // Where registrations come from
  // ---------------------------------------------------------------------

  /** Every registration of one column appears among the table's. */
  lemma {:induction false} ColumnRulesIncluded(env: Env, columns: seq<Column>, column: Column)
    requires column in columns
    ensures forall g :: g in ColumnRules(env, column) ==> g in TableRules(env, columns)
    decreases |columns|
  {
    var init := columns[..|columns| - 1];
    if column != columns[|columns| - 1] {
      assert column in init by {
        var k :| 0 <= k < |columns| && columns[k] == column;
        assert init[k] == column;
      }
      ColumnRulesIncluded(env, init, column);
    }
  }

  /** Every registration of the table comes from one column that is not excluded. */
  lemma {:induction false} Provenance(env: Env, columns: seq<Column>)
    ensures forall g :: g in TableRules(env, columns) ==>
      exists c :: c in columns && !Excluded(c.name, env.primaryKey) && g in ColumnRules(env, c)
    decreases |columns|
  {
    if |columns| > 0 {
      var init := columns[..|columns| - 1];
      var last := columns[|columns| - 1];
      Provenance(env, init);
      forall g | g in TableRules(env, columns)
        ensures exists c :: c in columns && !Excluded(c.name, env.primaryKey) && g in ColumnRules(env, c)
      {
        if g in TableRules(env, init) {
          var c :| c in init && !Excluded(c.name, env.primaryKey) && g in ColumnRules(env, c);
          assert c in columns by {
            var k :| 0 <= k < |init| && init[k] == c;
            assert columns[k] == c;
          }
        } else {
          assert g in ColumnRules(env, last);
          assert last in columns;
        }
      }
    }
  }

  /** The primary key and the timestamp columns are never a registration's key. */
  lemma ExcludedNeverRegistered(env: Env, columns: seq<Column>, field: string)
    requires Excluded(field, env.primaryKey)
    ensures forall g :: g in TableRules(env, columns) ==> g.target != ColumnField(field)
  {
    Provenance(env, columns);
  }

  /**
   * An association is only ever registered as `presence: true`, with presence
   * on, on behalf of a non-excluded, non-null column whose first association
   * it is.
   */
  lemma AssocRegistrationOrigin(env: Env, columns: seq<Column>)
    ensures forall g :: g in TableRules(env, columns) && g.target.AssocField? ==>
      g.rules == PresenceOnly && Enabled(env.opts, PresenceKey) &&
      exists c :: c in columns && !Excluded(c.name, env.primaryKey) && !c.nullable &&
        FirstAssoc(env.associations, c.name) == Some(g.target.assoc)
  {
    Provenance(env, columns);
  }

  // ---------------------------------------------------------------------
  // What each column's name is keyed to
  // ---------------------------------------------------------------------

  /** Registrations may be counted per key separately on either side of a join. */
  lemma {:induction false} KeyedByAppend(a: seq<Registration>, b: seq<Registration>, target: Target)
    ensures KeyedBy(a + b, target) == KeyedBy(a, target) + KeyedBy(b, target)
    decreases |b|
  {
    if |b| == 0 {
      assert a + b == a;
    } else {
      var b' := b[..|b| - 1];
      assert (a + b)[..|a + b| - 1] == a + b';
      assert (a + b)[|a + b| - 1] == b[|b| - 1];
      KeyedByAppend(a, b', target);
    }
  }

  /** A column registers nothing under the name of a different column. */
  lemma OtherColumnNotKeyed(env: Env, column: Column, name: string)
    requires column.name != name
    ensures KeyedBy(ColumnRules(env, column), ColumnField(name)) == []
  {
    var rs := ColumnRules(env, column);
    if |rs| == 1 {
      assert rs[0] in rs;
      assert rs[..0] == [];
    }
  }

  /** A name no column has is never the key of a column registration. */
  lemma {:induction false} UnusedNameNotKeyed(env: Env, columns: seq<Column>, name: string)
    requires forall c :: c in columns ==> c.name != name
    ensures KeyedBy(TableRules(env, columns), ColumnField(name)) == []
    decreases |columns|
  {
    if |columns| > 0 {
      var init := columns[..|columns| - 1];
      var last := columns[|columns| - 1];
      assert forall c :: c in init ==> c in columns;
      UnusedNameNotKeyed(env, init, name);
      KeyedByAppend(TableRules(env, init), ColumnRules(env, last), ColumnField(name));
      OtherColumnNotKeyed(env, last, name);
    }
  }

  /** With distinct names, the columns before the last one do not use its name. */
  lemma DistinctInit(columns: seq<Column>)
    requires DistinctNames(columns) && |columns| > 0
    ensures DistinctNames(columns[..|columns| - 1])
    ensures forall c :: c in columns[..|columns| - 1] ==> c.name != columns[|columns| - 1].name
  {
    var init := columns[..|columns| - 1];
    forall i, j | 0 <= i < j < |init| ensures init[i].name != init[j].name {
      assert init[i] == columns[i] && init[j] == columns[j];
    }
    forall c | c in init ensures c.name != columns[|columns| - 1].name {
      var k :| 0 <= k < |init| && init[k] == c;
      assert columns[k] == c;
    }
  }

  /**
   * With distinct column names, what the table registers under a column's
   * name is exactly what that column's own decision registers under it.
   */
  lemma {:induction false} KeyedByOwnColumn(env: Env, columns: seq<Column>, column: Column)
    requires DistinctNames(columns)
    requires column in columns
    ensures KeyedBy(TableRules(env, columns), ColumnField(column.name)) ==
            KeyedBy(ColumnRules(env, column), ColumnField(column.name))
    decreases |columns|
  {
    var init := columns[..|columns| - 1];
    var last := columns[|columns| - 1];
    DistinctInit(columns);
    KeyedByAppend(TableRules(env, init), ColumnRules(env, last), ColumnField(column.name));
    if column == last {
      UnusedNameNotKeyed(env, init, column.name);
    } else {
      assert column in init by {
        var k :| 0 <= k < |columns| && columns[k] == column;
        assert init[k] == column;
      }
      KeyedByOwnColumn(env, init, column);
      OtherColumnNotKeyed(env, last, column.name);
    }
  }

  /**
   * Association takeover: a non-excluded, non-null foreign-key column with
   * presence on registers exactly `presence: true` under the first association
   * using it, and nothing at all under its own name.
   */
  lemma TakeoverRegistersAssociation(env: Env, columns: seq<Column>, column: Column, assoc: string)
    requires DistinctNames(columns)
    requires column in columns
    requires !Excluded(column.name, env.primaryKey)
    requires FirstAssoc(env.associations, column.name) == Some(assoc)
    requires !column.nullable && Enabled(env.opts, PresenceKey)
    ensures ColumnRules(env, column) == [Registration(AssocField(assoc), PresenceOnly)]
    ensures Registration(AssocField(assoc), PresenceOnly) in TableRules(env, columns)
    ensures KeyedBy(TableRules(env, columns), ColumnField(column.name)) == []
  {
    ColumnRulesIncluded(env, columns, column);
    KeyedByOwnColumn(env, columns, column);
    assert ColumnRules(env, column)[..0] == [];
  }

  /**
   * Every other non-excluded column, a nullable foreign key or one processed
   * with presence off included, registers its bundle under its own name,
   * exactly once, unless the bundle is empty.
   */
  lemma ColumnRegistersBundle(env: Env, columns: seq<Column>, column: Column)
    requires DistinctNames(columns)
    requires column in columns
    requires !Excluded(column.name, env.primaryKey)
    requires !TakenOver(env, column)
    ensures KeyedBy(TableRules(env, columns), ColumnField(column.name)) ==
      var b := BundleFor(column, env.indexes, env.opts);
      if b.IsEmpty() then [] else [b]
  {
    KeyedByOwnColumn(env, columns, column);
    var rs := ColumnRules(env, column);
    assert rs[..0] == [];
  }

  // ---------------------------------------------------------------------
  // Switching a category off
  // ---------------------------------------------------------------------

  /** Stripping distributes over a join of registration lists. */
  lemma {:induction false} StripAppend(a: seq<Registration>, b: seq<Registration>, key: Category)
    ensures Strip(a + b, key) == Strip(a, key) + Strip(b, key)
    decreases |b|
  {
    if |b| == 0 {
      assert a + b == a;
    } else {
      var b' := b[..|b| - 1];
      assert (a + b)[..|a + b| - 1] == a + b';
      assert (a + b)[|a + b| - 1] == b[|b| - 1];
      StripAppend(a, b', key);
    }
  }

  /** One column's decision with a non-presence category switched off. */
  lemma ColumnStrips(env: Env, column: Column, key: Category)
    requires key != PresenceKey
    ensures ColumnRules(env.(opts := Disable(env.opts, key)), column) == Strip(ColumnRules(env, column), key)
  {
    var env' := env.(opts := Disable(env.opts, key));
    DisableDropsOnlyItsKey(column, env.indexes, env.opts, key);
    assert Enabled(env'.opts, PresenceKey) == Enabled(env.opts, PresenceKey);
    var rs := ColumnRules(env, column);
    if |rs| == 1 {
      assert rs[..0] == [];
    }
  }

  /**
   * Switching off uniqueness, numericality or length removes that key from
   * every registration and drops the registrations left empty; nothing else
   * changes. (Presence is different: it also gates the association takeover.)
   */
  lemma {:induction false} DisablingStrips(env: Env, columns: seq<Column>, key: Category)
    requires key != PresenceKey
    ensures TableRules(env.(opts := Disable(env.opts, key)), columns) == Strip(TableRules(env, columns), key)
    decreases |columns|
  {
    if |columns| > 0 {
      var init := columns[..|columns| - 1];
      var last := columns[|columns| - 1];
      DisablingStrips(env, init, key);
      ColumnStrips(env, last, key);
      StripAppend(TableRules(env, init), ColumnRules(env, last), key);
    }
  }
}
