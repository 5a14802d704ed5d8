/**
 * The schema metadata that ActiveRecord reflection hands to the rule engine:
 * the entries of `columns_hash`, of `connection.indexes(table_name)` and of
 * `reflect_on_all_associations(:belongs_to)`. The engine only reads them.
 */
module Schema {
  import opened Wrappers

  /** The column types the engine tells apart; every other type is `Other`. */
  datatype ColumnType = Integer | Decimal | String | Other

  /**
   * One column: `nullable` is ActiveRecord's `column.null`, and `limit` is
   * `None` where the adapter reports no limit (`nil`).
   */
  datatype Column = Column(name: string, ctype: ColumnType, nullable: bool, limit: Option<int>)

  /** One index: its column names in definition order, and whether it is unique. */
  datatype Index = Index(columns: seq<string>, unique: bool)

  /** A belongs-to association: its name and the local column holding the referenced id. */
  datatype Assoc = Assoc(name: string, foreignKey: string)

  /** `columns_hash` is a hash keyed by column name, so no two columns share a name. */
  predicate DistinctNames(columns: seq<Column>) {
    forall i, j :: 0 <= i < j < |columns| ==> columns[i].name != columns[j].name
  }
}
