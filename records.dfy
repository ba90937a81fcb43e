/** The records `DatabaseOperations` returns, and how each raw result row is
    turned into one: the display-name, phone, location and farm-name
    fallbacks, the role split of a message, the last-message preview and the
    ISO planting date. Constant placeholder fields the live schema does not
    hold (size, type, confidence) are kept as the code writes them. */
module Records {

  import opened Nullable
  import opened Text
  import opened IsoDate
  import opened Tables
  import opened Queries
  import opened Relational

  /* ---------------------------------------------------------------------- */
  /* Display name                                                            */
  /* ---------------------------------------------------------------------- */

  /** `f"{first} {last}".strip() if first and last else "Unknown"`. */
  function DisplayName(first: Option<string>, last: Option<string>): string {
    if Truthy(first) && Truthy(last) then Strip(first.value + " " + last.value) else "Unknown"
  }

  /** The name is `"Unknown"` unless both parts are non-empty; otherwise it is
      the two parts joined by a space with surrounding whitespace removed, and
      exactly `"first last"` when neither part has surrounding whitespace. */
  lemma {:induction false} DisplayNameRule(first: Option<string>, last: Option<string>)
    ensures !(Truthy(first) && Truthy(last)) ==> DisplayName(first, last) == "Unknown"
    ensures Truthy(first) && Truthy(last) ==>
              && Trimmed(DisplayName(first, last))
              && |DisplayName(first, last)| <= |first.value| + 1 + |last.value|
    ensures Truthy(first) && Truthy(last) && Trimmed(first.value) && Trimmed(last.value) ==>
              DisplayName(first, last) == first.value + " " + last.value
  {
    if Truthy(first) && Truthy(last) && Trimmed(first.value) && Trimmed(last.value) {
      var s := first.value + " " + last.value;
      assert s[0] == first.value[0];
      assert s[|s| - 1] == last.value[|last.value| - 1];
      StripKeepsTrimmed(s);
    }
  }

  /* ---------------------------------------------------------------------- */
  /* get_farmer_info / get_all_farmers                                       */
  /* ---------------------------------------------------------------------- */

  datatype FarmerInfo = FarmerInfo(
    id: int,
    farmName: Option<string>,
    managerName: Option<string>,
    managerLastName: Option<string>,
    totalHectares: int,
    farmerType: string,
    city: Option<string>,
    waPhoneNumber: Option<string>)

  function FarmerInfoOf(f: FarmerRow): FarmerInfo {
    FarmerInfo(f.id, f.farmName, f.managerName, f.managerLastName, 0, "Farm", f.city, f.waPhoneNumber)
  }

  datatype FarmerSummary = FarmerSummary(
    id: int,
    name: string,
    farmName: string,
    phone: string,
    location: string,
    farmType: string,
    totalSizeHa: real)

  function FarmerSummaryOf(f: FarmerRow): FarmerSummary {
    FarmerSummary(
      f.id,
      DisplayName(f.managerName, f.managerLastName),
      OrElse(f.farmName, "Unknown Farm"),
      OrElse(f.phone, OrElse(f.waPhoneNumber, "")),
      OrElse(f.city, ""),
      "Farm",
      0.0)
  }

  /** The fallbacks of a farmer summary: the phone is the first non-empty of
      `phone` and `wa_phone_number`, and empty only when both are; the location
      is the city or empty; the farm name is never empty. */
  lemma {:induction false} FarmerSummaryFallbacks(f: FarmerRow)
    ensures FarmerSummaryOf(f).id == f.id
    ensures FarmerSummaryOf(f).phone == "" <==> !Truthy(f.phone) && !Truthy(f.waPhoneNumber)
    ensures Truthy(f.phone) ==> FarmerSummaryOf(f).phone == f.phone.value
    ensures !Truthy(f.phone) && Truthy(f.waPhoneNumber) ==> FarmerSummaryOf(f).phone == f.waPhoneNumber.value
    ensures FarmerSummaryOf(f).location == "" <==> !Truthy(f.city)
    ensures Truthy(f.city) ==> FarmerSummaryOf(f).location == f.city.value
    ensures Truthy(f.farmName) ==> FarmerSummaryOf(f).farmName == f.farmName.value
    ensures !Truthy(f.farmName) ==> FarmerSummaryOf(f).farmName == "Unknown Farm"
    ensures FarmerSummaryOf(f).farmName != ""
  {
  }

  /* ---------------------------------------------------------------------- */
  /* get_farmer_fields                                                       */
  /* ---------------------------------------------------------------------- */

  datatype FieldView = FieldView(
    fieldId: int,
    fieldName: Option<string>,
    fieldSize: real,
    fieldLocation: Option<string>,
    soilType: Option<string>,
    currentCrop: Option<string>,
    variety: Option<string>,
    plantingDate: Option<string>,
    cropStatus: Option<string>)

  function PlantingDateText(d: Option<Date>): Option<string> {
    if d.Some? then Some(IsoFormat(d.value)) else None
  }

  function FieldViewOf(row: FieldCropJoinRow): FieldView {
    var f := row.field;
    var c := row.crop;
    FieldView(
      f.fieldId,
      f.fieldName,
      if TruthyReal(f.fieldSize) then f.fieldSize.value else 0.0,
      f.fieldLocation,
      f.soilType,
      if c.Some? then c.value.cropName else None,
      if c.Some? then c.value.variety else None,
      PlantingDateText(if c.Some? then c.value.plantingDate else None),
      if c.Some? then c.value.status else None)
  }

  /** A field view's defaults: the size is 0 exactly when the stored size is
      null or 0; a row without a planting has no crop data at all; and a
      planting date is present exactly when one is stored, as ten-character
      ISO text that reads back as the stored date. */
  lemma {:induction false} FieldViewDefaults(row: FieldCropJoinRow)
    ensures FieldViewOf(row).fieldSize == 0.0 <==> !TruthyReal(row.field.fieldSize)
    ensures TruthyReal(row.field.fieldSize) ==> FieldViewOf(row).fieldSize == row.field.fieldSize.value
    ensures row.crop.None? ==>
              && FieldViewOf(row).currentCrop.None? && FieldViewOf(row).variety.None?
              && FieldViewOf(row).plantingDate.None? && FieldViewOf(row).cropStatus.None?
    ensures FieldViewOf(row).plantingDate.Some? <==> row.crop.Some? && row.crop.value.plantingDate.Some?
    ensures FieldViewOf(row).plantingDate.Some? ==>
              && |FieldViewOf(row).plantingDate.value| == 10
              && ParseIso(FieldViewOf(row).plantingDate.value) == row.crop.value.plantingDate
  {
    if row.crop.Some? && row.crop.value.plantingDate.Some? {
      ParseIsoFormat(row.crop.value.plantingDate.value);
    }
  }

  /* ---------------------------------------------------------------------- */
  /* get_recent_conversations / get_conversation_details                     */
  /* ---------------------------------------------------------------------- */

  datatype Turn = Turn(
    id: int,
    userInput: Option<string>,
    avaResponse: Option<string>,
    timestamp: int,
    messageType: string,
    confidenceScore: real,
    approvedStatus: bool)

  function TurnOf(m: MessageRow): Turn {
    Turn(
      m.id,
      if m.role == Some("user") then m.messageText else Some(""),
      if m.role == Some("assistant") then m.messageText else Some(""),
      m.timestamp,
      "chat",
      0.8,
      false)
  }

  /** A message's text goes to `user_input` for role `user` and to
      `ava_response` for role `assistant`, the other slot being empty; any other
      role leaves both empty. The turn is never marked approved. */
  lemma {:induction false} TurnSplitsByRole(m: MessageRow)
    ensures m.role == Some("user") ==>
              TurnOf(m).userInput == m.messageText && TurnOf(m).avaResponse == Some("")
    ensures m.role == Some("assistant") ==>
              TurnOf(m).avaResponse == m.messageText && TurnOf(m).userInput == Some("")
    ensures m.role != Some("user") && m.role != Some("assistant") ==>
              TurnOf(m).userInput == Some("") && TurnOf(m).avaResponse == Some("")
    ensures TurnOf(m).id == m.id && TurnOf(m).timestamp == m.timestamp && !TurnOf(m).approvedStatus
  {
  }

  datatype ConversationDetail = ConversationDetail(
    id: int,
    farmerId: int,
    farmerName: string,
    userInput: Option<string>,
    avaResponse: Option<string>,
    timestamp: int,
    approvedStatus: bool)

  /** The detail view splits the text by role exactly as a turn does. */
  function DetailOf(row: MessageFarmerRow): ConversationDetail {
    var t := TurnOf(row.message);
    ConversationDetail(
      row.message.id,
      row.message.farmerId,
      DisplayName(row.farmer.managerName, row.farmer.managerLastName),
      t.userInput,
      t.avaResponse,
      row.message.timestamp,
      false)
  }

  /* ---------------------------------------------------------------------- */
  /* get_conversations_for_approval                                          */
  /* ---------------------------------------------------------------------- */

  /** How many characters of a message the approval queue shows. */
  const PreviewLength: nat := 100

  /** `text[:100] + "..." if text and len(text) > 100 else text or ""`. */
  function LastMessage(text: Option<string>): (r: string)
    ensures |r| <= PreviewLength + 3
    ensures text.Some? && |text.value| > PreviewLength ==>
              |r| == PreviewLength + 3 && r == text.value[..PreviewLength] + "..."
    ensures text.Some? && |text.value| <= PreviewLength ==> r == text.value
    ensures text.None? ==> r == ""
  {
    if Truthy(text) && |text.value| > PreviewLength then text.value[..PreviewLength] + "..."
    else OrElse(text, "")
  }

  datatype ApprovalEntry = ApprovalEntry(
    id: int,
    farmerId: int,
    farmerName: string,
    farmerPhone: string,
    farmerLocation: string,
    farmerType: string,
    farmerSize: string,
    lastMessage: string,
    timestamp: int)

  /** The returned `{"unapproved": [...], "approved": [...]}` mapping. */
  datatype ApprovalQueue = ApprovalQueue(unapproved: seq<ApprovalEntry>, approved: seq<ApprovalEntry>)

  /** The farmer phone here is the `phone` column only, without the
      `wa_phone_number` fallback `get_all_farmers` uses. */
  function ApprovalEntryOf(row: MessageFarmerRow): ApprovalEntry {
    ApprovalEntry(
      row.message.id,
      row.message.farmerId,
      DisplayName(row.farmer.managerName, row.farmer.managerLastName),
      OrElse(row.farmer.phone, ""),
      OrElse(row.farmer.city, ""),
      "Farm",
      "0.0",
      LastMessage(row.message.messageText),
      row.message.timestamp)
  }

  /* ---------------------------------------------------------------------- */
  /* get_crop_info                                                           */
  /* ---------------------------------------------------------------------- */

  datatype CropInfo = CropInfo(
    id: int,
    cropName: string,
    croatianName: string,
    category: string,
    plantingSeason: string,
    harvestSeason: string,
    description: string)

  function CropInfoOf(cropType: string): CropInfo {
    CropInfo(1, cropType, cropType, "Crop", "Spring", "Fall", "Information about " + cropType)
  }

  /* ---------------------------------------------------------------------- */
  /* Building the result lists                                               */
  /* ---------------------------------------------------------------------- */

  /** The `for row in result: ....append({...})` loops: one record per result
      row, in row order. */

  method SummariesOf(rows: seq<FarmerRow>) returns (result: seq<FarmerSummary>)
    ensures |result| == |rows|
    ensures forall i :: 0 <= i < |rows| ==> result[i] == FarmerSummaryOf(rows[i])
  {
    result := [];
    var i := 0;
    while i < |rows|
      invariant 0 <= i <= |rows|
      invariant |result| == i
      invariant forall k :: 0 <= k < i ==> result[k] == FarmerSummaryOf(rows[k])
    {
      result := result + [FarmerSummaryOf(rows[i])];
      i := i + 1;
    }
  }

  method FieldViewsOf(rows: seq<FieldCropJoinRow>) returns (result: seq<FieldView>)
    ensures |result| == |rows|
    ensures forall i :: 0 <= i < |rows| ==> result[i] == FieldViewOf(rows[i])
  {
    result := [];
    var i := 0;
    while i < |rows|
      invariant 0 <= i <= |rows|
      invariant |result| == i
      invariant forall k :: 0 <= k < i ==> result[k] == FieldViewOf(rows[k])
    {
      result := result + [FieldViewOf(rows[i])];
      i := i + 1;
    }
  }

  method TurnsOf(rows: seq<MessageRow>) returns (result: seq<Turn>)
    ensures |result| == |rows|
    ensures forall i :: 0 <= i < |rows| ==> result[i] == TurnOf(rows[i])
  {
    result := [];
    var i := 0;
    while i < |rows|
      invariant 0 <= i <= |rows|
      invariant |result| == i
      invariant forall k :: 0 <= k < i ==> result[k] == TurnOf(rows[k])
    {
      result := result + [TurnOf(rows[i])];
      i := i + 1;
    }
  }

  method ApprovalEntriesOf(rows: seq<MessageFarmerRow>) returns (result: seq<ApprovalEntry>)
    ensures |result| == |rows|
    ensures forall i :: 0 <= i < |rows| ==> result[i] == ApprovalEntryOf(rows[i])
  {
    result := [];
    var i := 0;
    while i < |rows|
      invariant 0 <= i <= |rows|
      invariant |result| == i
      invariant forall k :: 0 <= k < i ==> result[k] == ApprovalEntryOf(rows[k])
    {
      result := result + [ApprovalEntryOf(rows[i])];
      i := i + 1;
    }
  }

  /** The approval entries inherit the queue properties of their rows: one
      per farmer, newest first, each a user message whose farmer exists, and
      each its farmer's newest user message. */
  lemma {:induction false} ApprovalEntriesFollowRows(messages: seq<MessageRow>, farmers: seq<FarmerRow>,
                                  rows: seq<MessageFarmerRow>, entries: seq<ApprovalEntry>)
    requires |entries| == |rows| && forall i :: 0 <= i < |rows| ==> entries[i] == ApprovalEntryOf(rows[i])
    requires SortedBy(rows, NewestRowFirst) && UniqueKeys(rows, FarmerOfRow)
    requires forall e :: e in rows ==>
               && e.message in messages && e.message.role == Some("user")
               && e.farmer in farmers && e.farmer.id == e.message.farmerId
    requires NewestPerFarmer(rows, messages)
    ensures forall i, j :: 0 <= i < j < |entries| ==> entries[i].farmerId != entries[j].farmerId
    ensures forall i, j :: 0 <= i < j < |entries| ==> entries[i].timestamp >= entries[j].timestamp
    ensures forall e :: e in entries ==>
              exists m, f :: m in messages && f in farmers && m.role == Some("user") &&
                f.id == m.farmerId && e.id == m.id && e.farmerId == m.farmerId &&
                e.timestamp == m.timestamp && e.lastMessage == LastMessage(m.messageText)
    ensures forall e, m :: e in entries && m in messages && m.role == Some("user") && m.farmerId == e.farmerId ==>
              m.timestamp <= e.timestamp
  {
    forall i, j | 0 <= i < j < |entries|
      ensures entries[i].farmerId != entries[j].farmerId
      ensures entries[i].timestamp >= entries[j].timestamp
    {
      assert FarmerOfRow(rows[i]) != FarmerOfRow(rows[j]);
      assert NewestRowFirst(rows[i], rows[j]);
    }
    forall e | e in entries
      ensures exists m, f :: m in messages && f in farmers && m.role == Some("user") &&
                f.id == m.farmerId && e.id == m.id && e.farmerId == m.farmerId &&
                e.timestamp == m.timestamp && e.lastMessage == LastMessage(m.messageText)
      ensures forall m :: m in messages && m.role == Some("user") && m.farmerId == e.farmerId ==>
                m.timestamp <= e.timestamp
    {
      var k :| 0 <= k < |entries| && entries[k] == e;
      assert rows[k] in rows;
    }
  }
}
