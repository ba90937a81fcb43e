/** The five tables of the farmer CRM store the data-access layer reads and
    writes, as rows with nullable columns. Only the columns the queries touch
    are modelled. */
module Tables {

  import opened Nullable
  import opened IsoDate
  import opened Relational

  /** A row of `farmers`; `id` is the primary key. */
  datatype FarmerRow = FarmerRow(
    id: int,
    farmName: Option<string>,
    managerName: Option<string>,
    managerLastName: Option<string>,
    email: Option<string>,
    phone: Option<string>,
    city: Option<string>,
    waPhoneNumber: Option<string>)

  /** A row of `fields`; `fieldId` is the primary key, `farmerId` the owner. */
  datatype FieldRow = FieldRow(
    fieldId: int,
    farmerId: int,
    fieldName: Option<string>,
    fieldSize: Option<real>,
    fieldLocation: Option<string>,
    soilType: Option<string>)

  /** A row of `field_crops`: one planting on one field. */
  datatype FieldCropRow = FieldCropRow(
    fieldId: int,
    cropName: Option<string>,
    variety: Option<string>,
    plantingDate: Option<Date>,
    status: Option<string>)

  /** A row of `incoming_messages`; `id` comes from the table's id sequence and
      `timestamp` is set by the store when the row is inserted. */
  datatype MessageRow = MessageRow(
    id: int,
    farmerId: int,
    phoneNumber: Option<string>,
    messageText: Option<string>,
    role: Option<string>,
    timestamp: int)

  /** A row of `crop_technology`. */
  datatype CropTechnologyRow = CropTechnologyRow(cropType: Option<string>)

  function FieldKey(f: FieldRow): int {
    f.fieldId
  }

  function MessageKey(m: MessageRow): int {
    m.id
  }

  predicate UniqueFieldIds(fields: seq<FieldRow>) {
    UniqueKeys(fields, FieldKey)
  }

  predicate UniqueMessageIds(messages: seq<MessageRow>) {
    UniqueKeys(messages, MessageKey)
  }

  /** Every id handed out so far is below the next value of the id sequence. */
  predicate MessageIdsBelow(messages: seq<MessageRow>, next: int) {
    forall m :: m in messages ==> m.id < next
  }
}
