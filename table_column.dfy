/**
 * The `@JObjectTableColumn` annotation that marks the getters of a row
 * class as table columns, with the default of every element.
 */
module TableColumnAnnotation {
  import opened JavaLang

  /** One use of the annotation on a getter method. */
  datatype JObjectTableColumn = JObjectTableColumn(
    /** Column heading; blank means "use the field name". */
    name: string,
    /** A hidden getter is never shown as a column. */
    hidden: bool,
    /** Sort key of the column; lower values are placed first. */
    order: int32,
    /** Tool tip; blank means no tip. */
    tip: string,
    /** Whether the table may sort on the column. */
    sortable: bool,
    /** Whether editing is allowed, provided a setter exists. */
    editable: bool)

  /** `@JObjectTableColumn` with every element left at its default. */
  const DEFAULT_COLUMN: JObjectTableColumn :=
    JObjectTableColumn(name := "", hidden := false, order := 0, tip := "", sortable := true, editable := true)
}
