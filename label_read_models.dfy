/** The label read models the label pre-processor and the permission rule consult. */
module LabelReadModels {
  import opened Wrappers

  /** A relation between an item and a label; `imported` marks labels that came in through an import. */
  datatype LabelRelation = LabelRelation(labelName: string, imported: bool)

  /** A label as the label repository stores it. */
  datatype LabelRecord = LabelRecord(name: string, visible: bool)

  /** getLabelRelationsForItem */
  type RelationsRepository = string -> seq<LabelRelation>

  /** getByName: the label, or null when the repository does not know it. */
  type LabelRepository = string -> Option<LabelRecord>
}
