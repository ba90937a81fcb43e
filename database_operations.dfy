/** `DatabaseOperations`: the data-access object over the farmer CRM store.
    The store is held as the five tables it reads; every read runs the
    statement of `Queries` over them and builds its result list row by row,
    and `SaveConversation` appends a message pair as one transaction. */
module Dal {

  import opened Nullable
  import opened Relational
  import opened Tables
  import opened Queries
  import opened Records

  /** The store family the constructor accepts. */
  const PostgresPrefix: string := "postgresql://"

  /** The `limit` a caller of `get_all_farmers` gets by leaving it out. */
  const DefaultFarmersLimit: int := 100

  /** The `limit` a caller of `get_recent_conversations` gets by leaving it out. */
  const DefaultConversationsLimit: int := 10

  /** `connection_string or DATABASE_URL`. */
  function EffectiveConnectionString(given: Option<string>, databaseUrl: string): string {
    if Truthy(given) then given.value else databaseUrl
  }

  class DatabaseOperations {

    const connectionString: string

    var farmers: seq<FarmerRow>
    var fields: seq<FieldRow>
    var fieldCrops: seq<FieldCropRow>
    var messages: seq<MessageRow>
    var cropTechnology: seq<CropTechnologyRow>

    /** The next value of the `incoming_messages` id sequence. */
    var nextMessageId: int

    /** The store's keys: field ids and message ids are unique, and every
        message id was drawn from the id sequence. */
    ghost predicate Valid()
      reads this
    {
      && UniqueFieldIds(fields)
      && UniqueMessageIds(messages)
      && MessageIdsBelow(messages, nextMessageId)
    }

    /** Connects to the store only when the connection string names
        PostgreSQL; the tables stand for the store's current contents. */
    constructor (given: Option<string>, databaseUrl: string,
                 farmers: seq<FarmerRow>, fields: seq<FieldRow>, fieldCrops: seq<FieldCropRow>,
                 messages: seq<MessageRow>, cropTechnology: seq<CropTechnologyRow>, nextMessageId: int)
      requires PostgresPrefix <= EffectiveConnectionString(given, databaseUrl)
      requires UniqueFieldIds(fields) && UniqueMessageIds(messages) && MessageIdsBelow(messages, nextMessageId)
      ensures Valid()
      ensures connectionString == EffectiveConnectionString(given, databaseUrl)
      ensures PostgresPrefix <= connectionString
      ensures this.farmers == farmers && this.fields == fields && this.fieldCrops == fieldCrops
      ensures this.messages == messages && this.cropTechnology == cropTechnology
      ensures this.nextMessageId == nextMessageId
    {
      connectionString := EffectiveConnectionString(given, databaseUrl);
      this.farmers := farmers;
      this.fields := fields;
      this.fieldCrops := fieldCrops;
      this.messages := messages;
      this.cropTechnology := cropTechnology;
      this.nextMessageId := nextMessageId;
    }

    /** `get_farmer_info`: the farmer with this id with placeholder size and
        type, or `None` when there is none. */
    function GetFarmerInfo(farmerId: int): (r: Option<FarmerInfo>)
      reads this
      ensures r.Some? <==> exists f :: f in farmers && f.id == farmerId
      ensures r.Some? ==> r.value.id == farmerId && r.value.totalHectares == 0 && r.value.farmerType == "Farm"
      ensures r.Some? ==> exists f :: (f in farmers && f.id == farmerId &&
                r.value.farmName == f.farmName && r.value.managerName == f.managerName &&
                r.value.managerLastName == f.managerLastName && r.value.city == f.city &&
                r.value.waPhoneNumber == f.waPhoneNumber)
    {
      match FarmerById(farmers, farmerId)
      case None => None
      case Some(f) => Some(FarmerInfoOf(f))
    }

    /** `get_all_farmers`: one summary per row of the farm-name ordered,
        limited query, in that order. */
    method GetAllFarmers(limit: int) returns (result: seq<FarmerSummary>)
      ensures limit < 0 ==> result == []
      ensures limit >= 0 ==> |result| == if limit < |farmers| then limit else |farmers|
      ensures |result| == |AllFarmerRows(farmers, limit)|
      ensures forall i :: 0 <= i < |result| ==> result[i] == FarmerSummaryOf(AllFarmerRows(farmers, limit)[i])
      ensures forall s :: s in result ==> exists f :: f in farmers && s == FarmerSummaryOf(f)
    {
      var rows := AllFarmerRows(farmers, limit);
      result := SummariesOf(rows);
      SubMultisetMembers(rows, farmers);
      assert forall s :: s in result ==> exists f :: f in farmers && s == FarmerSummaryOf(f) by {
        forall s | s in result ensures exists f :: f in farmers && s == FarmerSummaryOf(f) {
          var k :| 0 <= k < |result| && result[k] == s;
          assert rows[k] in farmers;
        }
      }
    }

    /** `get_farmer_fields`: one view per row of the field-name ordered left
        join of this farmer's fields with their active plantings. */
    method GetFarmerFields(farmerId: int) returns (result: seq<FieldView>)
      ensures |result| == |FarmerFieldRows(fields, fieldCrops, farmerId)|
      ensures forall i :: 0 <= i < |result| ==>
                result[i] == FieldViewOf(FarmerFieldRows(fields, fieldCrops, farmerId)[i])
      ensures forall v :: v in result ==>
                exists f :: f in fields && f.farmerId == farmerId && v.fieldId == f.fieldId && v.fieldName == f.fieldName
    {
      var rows := FarmerFieldRows(fields, fieldCrops, farmerId);
      result := FieldViewsOf(rows);
      assert forall v :: v in result ==>
               exists f :: f in fields && f.farmerId == farmerId && v.fieldId == f.fieldId && v.fieldName == f.fieldName by {
        forall v | v in result
          ensures exists f :: f in fields && f.farmerId == farmerId && v.fieldId == f.fieldId && v.fieldName == f.fieldName
        {
          var k :| 0 <= k < |result| && result[k] == v;
          assert rows[k] in rows;
          assert rows[k].field in fields;
        }
      }
    }

    /** `get_recent_conversations`: the farmer's newest messages, at most
        `limit`, newest first, each split by role and never approved. */
    method GetRecentConversations(farmerId: int, limit: int) returns (result: seq<Turn>)
      ensures limit < 0 ==> result == []
      ensures limit >= 0 ==> |result| <= limit
      ensures |result| == |RecentMessageRows(messages, farmerId, limit)|
      ensures forall i :: 0 <= i < |result| ==> result[i] == TurnOf(RecentMessageRows(messages, farmerId, limit)[i])
      ensures forall i, j :: 0 <= i < j < |result| ==> result[i].timestamp >= result[j].timestamp
      ensures forall t :: t in result ==> !t.approvedStatus
      ensures forall t :: t in result ==> exists m :: m in messages && m.farmerId == farmerId && t == TurnOf(m)
    {
      var rows := RecentMessageRows(messages, farmerId, limit);
      result := TurnsOf(rows);
      assert forall t :: t in result ==> exists m :: m in messages && m.farmerId == farmerId && t == TurnOf(m) by {
        forall t | t in result ensures exists m :: m in messages && m.farmerId == farmerId && t == TurnOf(m) {
          var k :| 0 <= k < |result| && result[k] == t;
          assert rows[k] in rows;
        }
      }
    }

    /** `save_conversation`: inserts a user row holding the question and an
        assistant row holding the answer, both stamped with the transaction
        time `now`, and returns the assistant row's id. When the store fails,
        the transaction is not committed: nothing changes and `None` is
        returned. */
    method SaveConversation(farmerId: int, conversationData: map<string, Option<string>>, now: int, storeFails: bool)
      returns (id: Option<int>)
      requires Valid()
      modifies this
      ensures Valid()
      ensures farmers == old(farmers) && fields == old(fields) && fieldCrops == old(fieldCrops)
      ensures cropTechnology == old(cropTechnology)
      ensures storeFails ==> id.None? && messages == old(messages) && nextMessageId == old(nextMessageId)
      ensures !storeFails ==>
                && messages == old(messages) + SavedPair(farmerId, conversationData, now, old(nextMessageId))
                && nextMessageId == old(nextMessageId) + 2
                && id == Some(old(nextMessageId) + 1)
      ensures !storeFails ==> id.value == messages[|messages| - 1].id && id.value != messages[|messages| - 2].id
      ensures !storeFails ==> |messages| == |old(messages)| + 2 && messages[..|old(messages)|] == old(messages)
      ensures !storeFails ==>
                && messages[|messages| - 2].role == Some("user")
                && messages[|messages| - 2].messageText == Get(conversationData, "question")
                && messages[|messages| - 1].role == Some("assistant")
                && messages[|messages| - 1].messageText == Get(conversationData, "answer")
                && messages[|messages| - 2].farmerId == farmerId && messages[|messages| - 1].farmerId == farmerId
                && messages[|messages| - 2].phoneNumber == SavedPhone(conversationData)
                && messages[|messages| - 1].phoneNumber == SavedPhone(conversationData)
                && messages[|messages| - 2].timestamp == now && messages[|messages| - 1].timestamp == now
    {
      if storeFails {
        return None;
      }
      var pair := SavedPair(farmerId, conversationData, now, nextMessageId);
      ghost var before := messages;
      messages := messages + pair;
      nextMessageId := nextMessageId + 2;
      id := Some(pair[1].id);
      assert UniqueMessageIds(messages) by {
        forall i, j | 0 <= i < j < |messages| ensures MessageKey(messages[i]) != MessageKey(messages[j]) {
          if j >= |before| && i < |before| {
            assert messages[i] in before;
          } else if i < |before| {
            assert messages[i] == before[i] && messages[j] == before[j];
          }
        }
      }
    }

    /** `get_crop_info`: the stored crop type equal to `cropName` up to case,
        echoed as both names, or `None` when no crop type matches. */
    function GetCropInfo(cropName: string): (r: Option<CropInfo>)
      reads this
      ensures r.Some? <==> exists t :: t in cropTechnology && CropTypeMatches(t, cropName)
      ensures r.Some? ==>
                && CropTechnologyRow(Some(r.value.cropName)) in cropTechnology
                && Text.EqualsIgnoringCase(r.value.cropName, cropName)
                && r.value.croatianName == r.value.cropName
                && r.value.description == "Information about " + r.value.cropName
    {
      match MatchingCropType(cropTechnology, cropName)
      case None => None
      case Some(t) => Some(CropInfoOf(t))
    }

    /** `get_conversations_for_approval`: for each farmer with a farmer row,
        the newest user message, newest first and at most 100; nothing is
        ever in the approved bucket. */
    method GetConversationsForApproval() returns (queue: ApprovalQueue)
      ensures queue.approved == []
      ensures |queue.unapproved| <= ApprovalLimit
      ensures |queue.unapproved| == |ApprovalRows(messages, farmers)|
      ensures forall i :: 0 <= i < |queue.unapproved| ==>
                queue.unapproved[i] == ApprovalEntryOf(ApprovalRows(messages, farmers)[i])
      ensures forall i, j :: 0 <= i < j < |queue.unapproved| ==>
                queue.unapproved[i].farmerId != queue.unapproved[j].farmerId
      ensures forall i, j :: 0 <= i < j < |queue.unapproved| ==>
                queue.unapproved[i].timestamp >= queue.unapproved[j].timestamp
      ensures forall e :: e in queue.unapproved ==>
                exists m, f :: m in messages && f in farmers && m.role == Some("user") &&
                  f.id == m.farmerId && e.id == m.id && e.farmerId == m.farmerId &&
                  e.timestamp == m.timestamp && e.lastMessage == LastMessage(m.messageText)
      ensures forall e, m :: e in queue.unapproved && m in messages && m.role == Some("user") && m.farmerId == e.farmerId ==>
                m.timestamp <= e.timestamp
    {
      var rows := ApprovalRows(messages, farmers);
      var unapproved := ApprovalEntriesOf(rows);
      ApprovalEntriesFollowRows(messages, farmers, rows, unapproved);
      queue := ApprovalQueue(unapproved, []);
    }

    /** `get_conversation_details`: the message with this id joined to its
        farmer, split by role like a turn, or `None` when there is no such
        message or its farmer has no row. */
    function GetConversationDetails(conversationId: int): (r: Option<ConversationDetail>)
      reads this
      ensures r.Some? <==> exists m, f :: m in messages && f in farmers && m.id == conversationId && f.id == m.farmerId
      ensures r.Some? ==> r.value.id == conversationId && !r.value.approvedStatus
      ensures r.Some? ==> exists m, f :: (m in messages && f in farmers && m.id == conversationId &&
                f.id == m.farmerId && m.farmerId == r.value.farmerId &&
                r.value.farmerName == DisplayName(f.managerName, f.managerLastName) &&
                r.value.userInput == TurnOf(m).userInput && r.value.avaResponse == TurnOf(m).avaResponse &&
                r.value.timestamp == m.timestamp)
    {
      match MessageWithFarmer(messages, farmers, conversationId)
      case None => None
      case Some(row) => Some(DetailOf(row))
    }
  }
}
