# Valhammer validation inference, modelled in Dafny

Valhammer derives ActiveRecord validations from a table's schema. When a model
class calls `valhammer(opts)`, it fetches the table's indexes once and caches
them on the class. It then merges the caller's options over the defaults,
where all four categories are on. Finally it walks `columns_hash`, deciding
for each column:

- **skip** it, if it is the primary key, `created_at` or `updated_at`;
- **association takeover**, if it is a non-null foreign key of a belongs-to
  association and presence is on: it registers `presence: true` keyed by the
  association's name;
- otherwise, **the column's own bundle**, registered keyed by the column's
  name unless the bundle is empty. The bundle is built from up to four
  rules, each gated by its own option:
  - presence for non-null columns;
  - uniqueness when exactly one unique index ends in the column, scoped by
    that index's other columns;
  - numericality for integer and decimal columns;
  - length for string columns with a limit.

The project is laid out as follows:

- `wrappers.dfy` holds `Option`.
- `schema.dfy` holds the reflected schema data: columns, indexes and
  belongs-to associations.
- `options.dfy` holds the options hash and the merge with the defaults.
- `rules.dfy` holds the per-column decisions as functions, with their
  contracts and lemmas.
- `table.dfy` specifies a whole `valhammer` pass as a list of registrations,
  with the table-level lemmas.
- `validations.dfy` holds the imperative model. The class `Model` carries
  the index cache (`@valhammer_indexes`) and the log of `validates` calls.
  Its methods mirror `valhammer`, `valhammer_validate`, `valhammer_validations`
  and the four helpers that fill a `RuleHash` (the `validations` hash) in
  place. The `columns_hash.each` loop of `valhammer` is its own method,
  `EachColumn`, which `Valhammer` calls after setting the cache and merging
  the options. Each method is proved against the functions of `rules.dfy` and
  `table.dfy`.

The inputs from ActiveRecord work as follows:

- `columns_hash`, `primary_key` and `reflect_on_all_associations(:belongs_to)`
  are fields of `Model`.
- What `connection.indexes(table_name)` would return is a parameter of
  `Valhammer`. It is used only while the cache is empty.
- `validates` appends a `Registration` to `Model.registered`.

## Model

| member | source | states |
|---|---|---|
| `Options.DefaultsCoverEveryKey` | lib/valhammer/validations.rb:3-4 | the default options hash names all four categories |
| `Options.Merge` | lib/valhammer/validations.rb:3-12 | the effective options hold every key; a key the caller gave takes the caller's value; a key the caller left out stays enabled |
| `Rules.Excluded` | lib/valhammer/validations.rb:93-95 | `valhammer_exclude?`; its contract is carried by `Rules.ExcludedFieldsSpec` and, for the table, by `Table.ExcludedNeverRegistered` |
| `Rules.ExcludedFieldsSpec` | lib/valhammer/validations.rb:93-95 | a field is skipped exactly when it is the primary key, `created_at` or `updated_at` |
| `Rules.FirstAssoc` | lib/valhammer/validations.rb:97-101 | the result is `None` exactly when no belongs-to association has the field as foreign key; otherwise it is the name of the first such association in reflection order |
| `Rules.PresenceRule` | lib/valhammer/validations.rb:46-50 | presence is set exactly when the presence option is on and the column is non-null, and its value is then `true` |
| `Rules.UniqueKeys` | lib/valhammer/validations.rb:55-57 | every selected index is a listed unique index ending in the column's name, and every such listed index is selected; its multiplicity is carried by `Rules.UniqueKeysCounts` |
| `Rules.UniqueKeysCounts` | lib/valhammer/validations.rb:55-57 | `select` keeps duplicates: each unique index ending in the column's name is selected exactly as often as it is listed, and no other index is selected |
| `Rules.AllButLast` | lib/valhammer/validations.rb:61 | the scope followed by the last index column gives back the index's columns |
| `Rules.ScopedBy` | lib/valhammer/validations.rb:61-62 | the rule is plain `true` exactly for a one-column index; otherwise the scope is every column except the last, in index order |
| `Rules.UniquenessRule` | lib/valhammer/validations.rb:52-63 | `valhammer_unique`; its contract is carried by `Rules.UniquenessRuleSpec` |
| `Rules.OneUniqueKey` | lib/valhammer/validations.rb:55-59 | `one?` holds exactly when a single position of the index list is a unique index ending in the column, and that index is then the one selected |
| `Rules.UniquenessRuleSpec` | lib/valhammer/validations.rb:52-63 | uniqueness is present exactly when the option is on and exactly one matching unique index exists (zero or several give none); it is `true` for a one-column index, else `{scope: columns but the last}` |
| `Rules.NumericalityRule` | lib/valhammer/validations.rb:65-76 | numericality is present for integer and decimal columns when the option is on; `only_integer` is true exactly for integers, and `allow_nil` equals the column's nullability |
| `Rules.LengthRule` | lib/valhammer/validations.rb:78-82 | length is present exactly when the option is on, the type is string and a limit exists (zero included); `maximum` is that limit |
| `Rules.BundleFor` | lib/valhammer/validations.rb:32-44 | `valhammer_validations`: the four rules in order, each gated by its own option; its contract is carried by `Rules.DisableDropsOnlyItsKey` and by `Validations.Model.Validations` |
| `Rules.DisableDropsOnlyItsKey` | lib/valhammer/validations.rb:32-44 | switching one option off removes only that key from the bundle; the other three keys are unchanged |
| `Table.TakenOver` | lib/valhammer/validations.rb:24 | the association takeover condition: a first matching association exists, the column is non-null and presence is on; used by `Table.ColumnRulesSpec`, `Table.TakeoverRegistersAssociation` and `Table.ColumnRegistersBundle` |
| `Table.ColumnRules` | lib/valhammer/validations.rb:20-30 | `valhammer_validate`: at most one registration per column; the rest of its contract is carried by `Table.ColumnRulesSpec`, `Table.TakeoverRegistersAssociation` and `Table.ColumnRegistersBundle` |
| `Table.ColumnRulesSpec` | lib/valhammer/validations.rb:20-30 | a column yields at most one registration and none if excluded; empty bundles are never registered; a column-keyed registration carries the column's full bundle and only happens without takeover; an association-keyed one is `presence: true` for a non-null column with presence on, keyed by its first association |
| `Table.TableRules` | lib/valhammer/validations.rb:13-15 | a pass over the table registers at most one entry per column |
| `Table.NoEmptyRegistration` | lib/valhammer/validations.rb:28-29 | no registration of the table ever carries an empty bundle |
| `Table.ColumnRulesIncluded` | lib/valhammer/validations.rb:13-15 | everything one column registers is among the table's registrations |
| `Table.Provenance` | lib/valhammer/validations.rb:13-30 | every registration of the table comes from some column that is not excluded |
| `Table.ExcludedNeverRegistered` | lib/valhammer/validations.rb:20-21 | no registration is ever keyed by the primary key, `created_at` or `updated_at` |
| `Table.AssocRegistrationOrigin` | lib/valhammer/validations.rb:23-26 | every association-keyed registration is `presence: true`, made with presence on, for a non-excluded, non-null column whose first association it is |
| `Table.KeyedByOwnColumn` | lib/valhammer/validations.rb:13-15 | with distinct column names, what the table registers under a column's name is exactly what that column's own decision registers |
| `Table.TakeoverRegistersAssociation` | lib/valhammer/validations.rb:23-26 | takeover makes exactly one registration, `presence: true` keyed by the first matching association, and nothing is registered under the column's own name |
| `Table.ColumnRegistersBundle` | lib/valhammer/validations.rb:23-29 | without takeover (a nullable foreign key, presence off, or no association), the column's name gets exactly its bundle once, or nothing when the bundle is empty |
| `Table.ColumnStrips` | lib/valhammer/validations.rb:24-29 | for one column, turning off uniqueness, numericality or length removes that key and drops a registration left empty |
| `Table.DisablingStrips` | lib/valhammer/validations.rb:24-39 | for the whole table, turning off uniqueness, numericality or length gives the same registrations with that key removed and emptied bundles dropped |
| `Validations.RuleHash.constructor` | lib/valhammer/validations.rb:35 | a new `validations` hash is empty |
| `Validations.Model.Valhammer` | lib/valhammer/validations.rb:10-16 | the index cache is set from the connection on the first call and kept afterwards; the log grows by the table's registrations under the merged options and the cached indexes |
| `Validations.Model.EachColumn` | lib/valhammer/validations.rb:13-15 | walking `columns_hash` in order appends exactly the table's registrations to the log |
| `Validations.Model.Validates` | lib/valhammer/validations.rb:29 | one `validates` call appends exactly its registration to the log |
| `Validations.Model.Validate` | lib/valhammer/validations.rb:20-30 | the log grows by exactly the column's registrations |
| `Validations.Model.Validations` | lib/valhammer/validations.rb:32-44 | filling a fresh hash with the four helpers in order gives the column's bundle |
| `Validations.Model.Presence` | lib/valhammer/validations.rb:46-50 | sets `presence` only when the presence rule applies; every other key and an already present value are otherwise untouched |
| `Validations.Model.Unique` | lib/valhammer/validations.rb:52-63 | sets `uniqueness` only when the uniqueness rule applies, from the cached indexes; nothing else changes |
| `Validations.Model.Numeric` | lib/valhammer/validations.rb:65-76 | sets `numericality` only for integer or decimal columns with the option on; nothing else changes |
| `Validations.Model.LengthOf` | lib/valhammer/validations.rb:78-82 | sets `length` only for a string column with a limit and the option on; nothing else changes |
| `Validations.ValhammerTwice` | lib/valhammer/validations.rb:10-16 | two calls on a fresh class both use the indexes fetched by the first; each appends the registrations for its own options |

## Left out

- Logging: the `logger.debug` calls, `valhammer_log_key` and `valhammer_info`
  (lib/valhammer/validations.rb:33, 41-42, 84-91) only write diagnostics and
  have no effect on the rules.
- ActiveRecord itself is not part of this model. That covers the reflection
  (`connection.indexes`, `columns_hash`, `primary_key`,
  `reflect_on_all_associations`) and `validates`, and also running the
  registered validations at save time. Reflection results are fields of
  `Model` or parameters of `Valhammer`. A `validates` call is an append
  to `Model.registered`.
- spec/db/setup.rb only opens a database, sets up a logger and loads a
  schema for the test suite; it holds no logic.
- Option values are plain booleans. Ruby accepts any truthy or falsy value,
  which is not modelled. Option keys other than the four categories are not
  modelled either; the source ignores them.
- The model uses `column.name` both as the hash key of `columns_hash` and
  as the column's own name. ActiveRecord keeps the two equal. The
  table-level lemmas that speak about "the column's name" require distinct
  column names, as a hash has.
- Index column lists are sequences of names. Expression indexes, whose
  `columns` ActiveRecord gives as a single string, are not modelled.
- The index cache lives on the class across `valhammer` calls, as the code
  does (`||=` on a class instance variable), and is never reset between
  calls.
- `Table.DisablingStrips`: it covers uniqueness, numericality and length
  only. Turning presence off also cancels the association takeover, so it
  is not a mere removal of the `presence` key. That case is covered by
  `Table.ColumnRegistersBundle` and, per bundle, by
  `Rules.DisableDropsOnlyItsKey`.
- Threads and concurrency: the source runs single-threaded at class-definition time.
