/**
  The example record of internal/models/models.go. The creation and update
  timestamps are wall-clock values and are not part of this model.
 */
module Models {

  datatype Item = Item(id: int, name: string, description: string)
}
