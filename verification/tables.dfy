/** The description of one table to extract. */
module Tables {
  import opened Base
  import opened Json

  /** One entry of the table's field catalog: its name and the raw
      description object, which is what the catalog stream emits. */
  datatype FieldDescription = FieldDescription(name: string, raw: Record)

  datatype Table = Table(
    name: string,
    primaryKey: Option<string>,
    replicationKey: Option<string>,
    fields: seq<FieldDescription>,
    shouldSyncFields: bool,
    applyWeeklyRule: bool)

  /** `if table.primary_key:` -- an empty key name counts as absent. */
  predicate HasPrimaryKey(t: Table)
  {
    t.primaryKey.Some? && t.primaryKey.value != ""
  }

  function FieldNames(fields: seq<FieldDescription>): (names: seq<string>)
    ensures |names| == |fields|
    ensures forall i :: 0 <= i < |fields| ==> names[i] == fields[i].name
  {
    seq(|fields|, i requires 0 <= i < |fields| => fields[i].name)
  }
}
