/** The SQL statements of `DatabaseOperations`, evaluated over the in-memory
    tables: each function returns the raw result rows the store would hand
    back, and its contract states what the statement selects, in what order
    and how many. */
module Queries {

  import opened Nullable
  import opened Text
  import opened Relational
  import opened Tables

  /* ---------------------------------------------------------------------- */
  /* Orderings                                                               */
  /* ---------------------------------------------------------------------- */

  /** Ascending order on a nullable text column with NULL after every value,
      the default (`NULLS LAST`) for `ORDER BY ... ASC` in PostgreSQL. */
  predicate NullsLastLe(a: Option<string>, b: Option<string>) {
    if a.None? then b.None? else b.None? || LexLe(a.value, b.value)
  }

  lemma {:induction false} NullsLastLeTotal(a: Option<string>, b: Option<string>)
    ensures NullsLastLe(a, b) || NullsLastLe(b, a)
  {
    if a.Some? && b.Some? {
      LexLeTotal(a.value, b.value);
    }
  }

  lemma {:induction false} NullsLastLeTransitive(a: Option<string>, b: Option<string>, c: Option<string>)
    requires NullsLastLe(a, b) && NullsLastLe(b, c)
    ensures NullsLastLe(a, c)
  {
    if a.Some? && b.Some? && c.Some? {
      LexLeTransitive(a.value, b.value, c.value);
    }
  }

  /** `ORDER BY farm_name`. */
  predicate FarmNameOrder(a: FarmerRow, b: FarmerRow) {
    NullsLastLe(a.farmName, b.farmName)
  }

  lemma {:induction false} FarmNameOrderIsTotalPreorder()
    ensures TotalPreorder(FarmNameOrder)
  {
    forall a: FarmerRow, b: FarmerRow ensures FarmNameOrder(a, b) || FarmNameOrder(b, a) {
      NullsLastLeTotal(a.farmName, b.farmName);
    }
    forall a: FarmerRow, b: FarmerRow, c: FarmerRow | FarmNameOrder(a, b) && FarmNameOrder(b, c)
      ensures FarmNameOrder(a, c)
    {
      NullsLastLeTransitive(a.farmName, b.farmName, c.farmName);
    }
  }

  /** `ORDER BY timestamp DESC` on messages. */
  predicate NewestFirst(a: MessageRow, b: MessageRow) {
    a.timestamp >= b.timestamp
  }

  lemma {:induction false} NewestFirstIsTotalPreorder()
    ensures TotalPreorder(NewestFirst)
  {
  }

  /* ---------------------------------------------------------------------- */
  /* get_farmer_info                                                         */
  /* ---------------------------------------------------------------------- */

  /** `SELECT ... FROM farmers WHERE id = :farmer_id`, first row. */
  function FarmerById(farmers: seq<FarmerRow>, id: int): (r: Option<FarmerRow>)
    ensures r.Some? <==> exists f :: f in farmers && f.id == id
    ensures r.Some? ==> r.value in farmers && r.value.id == id
  {
    if farmers == [] then None
    else if farmers[0].id == id then Some(farmers[0])
    else FarmerById(farmers[1..], id)
  }

  /* ---------------------------------------------------------------------- */
  /* get_all_farmers                                                         */
  /* ---------------------------------------------------------------------- */

  /** `SELECT ... FROM farmers ORDER BY farm_name LIMIT :limit`. A negative
      limit is rejected by the store, which the code turns into `[]`. */
  function AllFarmerRows(farmers: seq<FarmerRow>, limit: int): (r: seq<FarmerRow>)
    ensures limit < 0 ==> r == []
    ensures limit >= 0 ==> |r| == if limit < |farmers| then limit else |farmers|
    ensures multiset(r) <= multiset(farmers)
    ensures forall i, j :: 0 <= i < j < |r| ==> NullsLastLe(r[i].farmName, r[j].farmName)
  {
    if limit < 0 then []
    else
      FarmNameOrderIsTotalPreorder();
      var sorted := SortBy(farmers, FarmNameOrder);
      TakeIsSubMultiset(sorted, limit);
      Take(sorted, limit)
  }

  /** The rows `LIMIT` cuts off come after every row it keeps in farm-name
      order, so `get_all_farmers(k)` lists the first `k` farms by name. */
  lemma {:induction false} AllFarmerRowsAreFirstByName(farmers: seq<FarmerRow>, limit: int, f: FarmerRow)
    requires limit >= 0 && f in farmers && f !in AllFarmerRows(farmers, limit)
    ensures |AllFarmerRows(farmers, limit)| == limit
    ensures forall i :: 0 <= i < limit ==> NullsLastLe(AllFarmerRows(farmers, limit)[i].farmName, f.farmName)
  {
    FarmNameOrderIsTotalPreorder();
    var sorted := SortBy(farmers, FarmNameOrder);
    assert f in multiset(sorted);
    TakeKeepsFirst(sorted, limit, FarmNameOrder, f);
  }

  /* ---------------------------------------------------------------------- */
  /* get_farmer_fields                                                       */
  /* ---------------------------------------------------------------------- */

  /** A row of `fields f LEFT JOIN field_crops fc ON f.field_id = fc.field_id
      AND fc.status = 'active'`: `crop` is `None` when no planting matched. */
  datatype FieldCropJoinRow = FieldCropJoinRow(field: FieldRow, crop: Option<FieldCropRow>)

  predicate IsActivePlanting(c: FieldCropRow, fieldId: int) {
    c.fieldId == fieldId && c.status == Some("active")
  }

  /** No row of `crops` is an active planting of the field. */
  predicate NoActivePlanting(crops: seq<FieldCropRow>, fieldId: int) {
    forall c :: c in crops ==> !IsActivePlanting(c, fieldId)
  }

  /** The join condition of one row: it pairs field `f` with one of its
      active plantings, or with no planting when `f` has no active one. */
  predicate JoinRowOf(row: FieldCropJoinRow, f: FieldRow, crops: seq<FieldCropRow>) {
    && row.field == f
    && if row.crop.Some? then row.crop.value in crops && IsActivePlanting(row.crop.value, f.fieldId)
       else NoActivePlanting(crops, f.fieldId)
  }

  /** `f.farmer_id = :farmer_id`. */
  function OwnedBy(farmerId: int): FieldRow -> bool {
    (f: FieldRow) => f.farmerId == farmerId
  }

  /** The farmer's fields, in table order. */
  function FieldsOf(fields: seq<FieldRow>, farmerId: int): (r: seq<FieldRow>)
    ensures forall f :: f in r <==> f in fields && f.farmerId == farmerId
    ensures multiset(r) <= multiset(fields)
  {
    FilterIsSubMultiset(fields, OwnedBy(farmerId));
    Filter(fields, OwnedBy(farmerId))
  }

  /** `fc.field_id = f.field_id AND fc.status = 'active'`. */
  function ActiveOn(fieldId: int): FieldCropRow -> bool {
    (c: FieldCropRow) => IsActivePlanting(c, fieldId)
  }

  function ActivePlantings(crops: seq<FieldCropRow>, fieldId: int): (r: seq<FieldCropRow>)
    ensures forall c :: c in r <==> c in crops && IsActivePlanting(c, fieldId)
  {
    Filter(crops, ActiveOn(fieldId))
  }

  /** How often the left join yields `row` for the field it carries: a
      planting row as often as `crops` holds that active planting, and the row
      without crop data once when the field has no active planting. */
  ghost function JoinMultiplicity(row: FieldCropJoinRow, crops: seq<FieldCropRow>): nat {
    if row.crop.Some? then
      (if IsActivePlanting(row.crop.value, row.field.fieldId) then multiset(crops)[row.crop.value] else 0)
    else if NoActivePlanting(crops, row.field.fieldId) then 1
    else 0
  }

  /** Field `f` paired with each planting of `a`, in order. */
  function PairWith(f: FieldRow, a: seq<FieldCropRow>): (r: seq<FieldCropJoinRow>)
    ensures forall row :: multiset(r)[row] ==
              if row.field == f && row.crop.Some? then multiset(a)[row.crop.value] else 0
  {
    if a == [] then []
    else
      assert a == [a[0]] + a[1..];
      [FieldCropJoinRow(f, Some(a[0]))] + PairWith(f, a[1..])
  }

  /** The join rows produced for one field: exactly the rows meeting the join
      condition, each as often as the join produces it, and the single row
      without a planting when it has none. */
  function JoinField(f: FieldRow, crops: seq<FieldCropRow>): (r: seq<FieldCropJoinRow>)
    ensures forall row :: multiset(r)[row] == if row.field == f then JoinMultiplicity(row, crops) else 0
    ensures forall row :: row in r <==> JoinRowOf(row, f, crops)
    ensures NoActivePlanting(crops, f.fieldId) ==> r == [FieldCropJoinRow(f, None)]
  {
    var a := ActivePlantings(crops, f.fieldId);
    var r := if a == [] then [FieldCropJoinRow(f, None)] else PairWith(f, a);
    assert a != [] ==> a[0] in a && !NoActivePlanting(crops, f.fieldId);
    assert forall row :: multiset(r)[row] == if row.field == f then JoinMultiplicity(row, crops) else 0 by {
      forall row ensures multiset(r)[row] == if row.field == f then JoinMultiplicity(row, crops) else 0 {
        if row.field == f && row.crop.Some? {
          FilterCounts(crops, ActiveOn(f.fieldId), row.crop.value);
          assert row.crop.value !in crops ==> multiset(crops)[row.crop.value] == 0;
        }
      }
    }
    assert forall row :: row in r <==> JoinRowOf(row, f, crops) by {
      forall row ensures row in r <==> JoinRowOf(row, f, crops) {
        assert row in r <==> row in multiset(r);
        if row.crop.Some? {
          assert row.crop.value in crops <==> row.crop.value in multiset(crops);
        }
      }
    }
    r
  }

  /** The left join, field by field in table order: exactly the rows meeting
      the join condition for one of the fields. */
  function LeftJoinActive(fs: seq<FieldRow>, crops: seq<FieldCropRow>): (r: seq<FieldCropJoinRow>)
    ensures forall row :: row in r <==> row.field in fs && JoinRowOf(row, row.field, crops)
  {
    if fs == [] then []
    else
      assert forall f :: f in fs <==> f == fs[0] || f in fs[1..];
      JoinField(fs[0], crops) + LeftJoinActive(fs[1..], crops)
  }

  /** The arithmetic of one step of the count: a first field that matches
      adds its `k` rows to the `m * k` of the rest. */
  lemma {:induction false} CountStep(total: nat, h: nat, n: nat, m: nat, k: nat, same: bool)
    requires total == h + m * k
    requires n == (if same then 1 else 0) + m
    requires h == if same then k else 0
    ensures total == n * k
  {
    if same {
      assert n * k == k + m * k;
    }
  }

  /** The left join yields a row as often as its field occurs among the
      fields, times the times the join produces it for that field. */
  lemma {:induction false} LeftJoinActiveCount(fs: seq<FieldRow>, crops: seq<FieldCropRow>, row: FieldCropJoinRow)
    ensures multiset(LeftJoinActive(fs, crops))[row] == multiset(fs)[row.field] * JoinMultiplicity(row, crops)
  {
    if fs != [] {
      LeftJoinActiveCount(fs[1..], crops, row);
      LeftJoinActiveFirst(fs, crops, row);
      FirstCount(fs, row.field);
      CountStep(multiset(LeftJoinActive(fs, crops))[row], multiset(JoinField(fs[0], crops))[row],
        multiset(fs)[row.field], multiset(fs[1..])[row.field], JoinMultiplicity(row, crops), fs[0] == row.field);
    }
  }

  /** The left join's count of a row splits into the first field's and the
      rest's. */
  lemma {:induction false} LeftJoinActiveFirst(fs: seq<FieldRow>, crops: seq<FieldCropRow>, row: FieldCropJoinRow)
    requires fs != []
    ensures multiset(LeftJoinActive(fs, crops))[row] ==
              multiset(JoinField(fs[0], crops))[row] + multiset(LeftJoinActive(fs[1..], crops))[row]
    ensures multiset(JoinField(fs[0], crops))[row] == if fs[0] == row.field then JoinMultiplicity(row, crops) else 0
  {
    assert LeftJoinActive(fs, crops) == JoinField(fs[0], crops) + LeftJoinActive(fs[1..], crops);
  }

  lemma {:induction false} FirstCount<T>(s: seq<T>, x: T)
    requires s != []
    ensures multiset(s)[x] == (if s[0] == x then 1 else 0) + multiset(s[1..])[x]
  {
    assert s == [s[0]] + s[1..];
  }

  /** `ORDER BY f.field_name`. */
  predicate FieldNameOrder(a: FieldCropJoinRow, b: FieldCropJoinRow) {
    NullsLastLe(a.field.fieldName, b.field.fieldName)
  }

  lemma {:induction false} FieldNameOrderIsTotalPreorder()
    ensures TotalPreorder(FieldNameOrder)
  {
    forall a: FieldCropJoinRow, b: FieldCropJoinRow ensures FieldNameOrder(a, b) || FieldNameOrder(b, a) {
      NullsLastLeTotal(a.field.fieldName, b.field.fieldName);
    }
    forall a: FieldCropJoinRow, b: FieldCropJoinRow, c: FieldCropJoinRow
      | FieldNameOrder(a, b) && FieldNameOrder(b, c)
      ensures FieldNameOrder(a, c)
    {
      NullsLastLeTransitive(a.field.fieldName, b.field.fieldName, c.field.fieldName);
    }
  }

  /** The rows of `get_farmer_fields`: exactly this farmer's fields, each with
      its active plantings or with no planting when it has none, ordered by
      field name, and each join row as often as the join produces it. */
  function FarmerFieldRows(fields: seq<FieldRow>, crops: seq<FieldCropRow>, farmerId: int)
    : (r: seq<FieldCropJoinRow>)
    ensures forall row :: row in r <==>
              row.field in fields && row.field.farmerId == farmerId && JoinRowOf(row, row.field, crops)
    ensures forall i, j :: 0 <= i < j < |r| ==> NullsLastLe(r[i].field.fieldName, r[j].field.fieldName)
    ensures multiset(r) == multiset(LeftJoinActive(FieldsOf(fields, farmerId), crops))
  {
    var joined := LeftJoinActive(FieldsOf(fields, farmerId), crops);
    FieldNameOrderIsTotalPreorder();
    var r := SortBy(joined, FieldNameOrder);
    SubMultisetMembers(r, joined);
    SubMultisetMembers(joined, r);
    r
  }

  /** Every field of the farmer is listed: with each of its active plantings,
      or once without a planting when it has none. */
  lemma {:induction false} FarmerFieldRowsComplete(fields: seq<FieldRow>, crops: seq<FieldCropRow>, farmerId: int, f: FieldRow)
    requires f in fields && f.farmerId == farmerId
    ensures exists row :: row in FarmerFieldRows(fields, crops, farmerId) && row.field == f
    ensures forall c :: c in crops && IsActivePlanting(c, f.fieldId) ==>
              FieldCropJoinRow(f, Some(c)) in FarmerFieldRows(fields, crops, farmerId)
    ensures NoActivePlanting(crops, f.fieldId) ==> FieldCropJoinRow(f, None) in FarmerFieldRows(fields, crops, farmerId)
  {
    var r := FarmerFieldRows(fields, crops, farmerId);
    if NoActivePlanting(crops, f.fieldId) {
      assert JoinRowOf(FieldCropJoinRow(f, None), f, crops);
      assert FieldCropJoinRow(f, None) in r;
    } else {
      var c :| c in crops && IsActivePlanting(c, f.fieldId);
      assert JoinRowOf(FieldCropJoinRow(f, Some(c)), f, crops);
      assert FieldCropJoinRow(f, Some(c)) in r;
    }
  }

  /** `get_farmer_fields` yields a join row as often as the farmer's table
      holds its field, times the times the join produces it for that field:
      a field with `k` active plantings gives `k` rows, one with none gives
      one row. */
  lemma {:induction false} FarmerFieldRowsCount(fields: seq<FieldRow>, crops: seq<FieldCropRow>, farmerId: int, row: FieldCropJoinRow)
    ensures multiset(FarmerFieldRows(fields, crops, farmerId))[row] ==
              if row.field.farmerId == farmerId then multiset(fields)[row.field] * JoinMultiplicity(row, crops) else 0
  {
    FilterCounts(fields, OwnedBy(farmerId), row.field);
    LeftJoinActiveCount(FieldsOf(fields, farmerId), crops, row);
  }

  /** In the left join over uniquely keyed fields, a field without an active
      planting gives exactly one row, the one without crop data. */
  lemma {:induction false} LeftJoinFieldWithoutPlanting(fs: seq<FieldRow>, crops: seq<FieldCropRow>, f: FieldRow)
    requires UniqueFieldIds(fs) && f in fs && NoActivePlanting(crops, f.fieldId)
    ensures multiset(LeftJoinActive(fs, crops))[FieldCropJoinRow(f, None)] == 1
  {
    var bare := FieldCropJoinRow(f, None);
    assert multiset(fs)[f] == 1 by {
      UniqueKeysNoDuplicates(fs, FieldKey);
      NoDuplicatesAtMostOnce(fs, f);
      assert f in multiset(fs);
    }
    assert JoinMultiplicity(bare, crops) == 1;
    LeftJoinActiveCount(fs, crops, bare);
  }

  /** `get_farmer_fields` lists a field that has no active planting exactly
      once, and every row for that field carries no crop data. */
  lemma {:induction false} FieldWithoutPlantingListedOnce(fields: seq<FieldRow>, crops: seq<FieldCropRow>, farmerId: int, f: FieldRow)
    requires UniqueFieldIds(fields) && f in fields && f.farmerId == farmerId
    requires NoActivePlanting(crops, f.fieldId)
    ensures multiset(FarmerFieldRows(fields, crops, farmerId))[FieldCropJoinRow(f, None)] == 1
    ensures forall row :: row in FarmerFieldRows(fields, crops, farmerId) && row.field.fieldId == f.fieldId ==>
              row == FieldCropJoinRow(f, None)
  {
    var bare := FieldCropJoinRow(f, None);
    var r := FarmerFieldRows(fields, crops, farmerId);
    assert multiset(r)[bare] == 1 by {
      assert multiset(fields)[f] == 1 by {
        UniqueKeysNoDuplicates(fields, FieldKey);
        NoDuplicatesAtMostOnce(fields, f);
        assert f in multiset(fields);
      }
      assert JoinMultiplicity(bare, crops) == 1;
      FarmerFieldRowsCount(fields, crops, farmerId, bare);
    }
    forall row | row in r && row.field.fieldId == f.fieldId ensures row == bare {
      UniqueKeysSameRow(fields, FieldKey, row.field, f);
    }
  }

  /* ---------------------------------------------------------------------- */
  /* get_recent_conversations / save_conversation                            */
  /* ---------------------------------------------------------------------- */

  /** `farmer_id = :farmer_id` on messages. */
  function SentBy(farmerId: int): MessageRow -> bool {
    (m: MessageRow) => m.farmerId == farmerId
  }

  /** The farmer's messages, in table order. */
  function MessagesOf(messages: seq<MessageRow>, farmerId: int): (r: seq<MessageRow>)
    ensures forall m :: m in r <==> m in messages && m.farmerId == farmerId
  {
    Filter(messages, SentBy(farmerId))
  }

  /** The farmer's messages hold each of that farmer's rows as often as the
      table does. */
  lemma {:induction false} MessagesOfCount(messages: seq<MessageRow>, farmerId: int, m: MessageRow)
    requires m.farmerId == farmerId
    ensures multiset(MessagesOf(messages, farmerId))[m] == multiset(messages)[m]
  {
    FilterCounts(messages, SentBy(farmerId), m);
  }

  /** `SELECT ... FROM incoming_messages WHERE farmer_id = :farmer_id
      ORDER BY timestamp DESC LIMIT :limit`. */
  function RecentMessageRows(messages: seq<MessageRow>, farmerId: int, limit: int): (r: seq<MessageRow>)
    ensures limit < 0 ==> r == []
    ensures limit >= 0 ==> |r| == var n := |MessagesOf(messages, farmerId)|; if limit < n then limit else n
    ensures multiset(r) <= multiset(MessagesOf(messages, farmerId))
    ensures forall m :: m in r ==> m in messages && m.farmerId == farmerId
    ensures forall i, j :: 0 <= i < j < |r| ==> r[i].timestamp >= r[j].timestamp
  {
    if limit < 0 then []
    else
      var mine := MessagesOf(messages, farmerId);
      NewestFirstIsTotalPreorder();
      var sorted := SortBy(mine, NewestFirst);
      var r := Take(sorted, limit);
      TakeIsSubMultiset(sorted, limit);
      SubMultisetMembers(r, mine);
      r
  }

  /** A message of the farmer that was left out is no newer than any message
      that was kept, and it was left out only because the limit was reached. */
  lemma {:induction false} RecentMessagesAreNewest(messages: seq<MessageRow>, farmerId: int, limit: int, m: MessageRow)
    requires limit >= 0 && m in messages && m.farmerId == farmerId
    requires m !in RecentMessageRows(messages, farmerId, limit)
    ensures |RecentMessageRows(messages, farmerId, limit)| == limit
    ensures forall i :: 0 <= i < limit ==> RecentMessageRows(messages, farmerId, limit)[i].timestamp >= m.timestamp
  {
    NewestFirstIsTotalPreorder();
    var sorted := SortBy(MessagesOf(messages, farmerId), NewestFirst);
    assert m in multiset(sorted);
    TakeKeepsFirst(sorted, limit, NewestFirst, m);
  }

  /** `dict.get(key)`: `None` for a missing key. */
  function Get(data: map<string, Option<string>>, key: string): Option<string> {
    if key in data then data[key] else None
  }

  /** The phone number `save_conversation` stores: the `wa_phone_number` entry
      when the key is present (even if it holds `None`), else `"unknown"`. */
  function SavedPhone(data: map<string, Option<string>>): Option<string> {
    if "wa_phone_number" in data then data["wa_phone_number"] else Some("unknown")
  }

  /** The two rows `save_conversation` inserts, with ids `firstId` and
      `firstId + 1` from the id sequence and one transaction time `now`. */
  function SavedPair(farmerId: int, data: map<string, Option<string>>, now: int, firstId: int): seq<MessageRow> {
    [ MessageRow(firstId, farmerId, SavedPhone(data), Get(data, "question"), Some("user"), now),
      MessageRow(firstId + 1, farmerId, SavedPhone(data), Get(data, "answer"), Some("assistant"), now) ]
  }

  /** When exactly two rows, each occurring once, share a timestamp newer than
      every other row, a newest-first `LIMIT` of at least two keeps both. */
  lemma {:induction false} NewestPairKept(sorted: seq<MessageRow>, limit: nat, x: MessageRow, y: MessageRow)
    requires SortedBy(sorted, NewestFirst) && limit >= 2
    requires x != y && multiset(sorted)[x] == 1 && multiset(sorted)[y] == 1
    requires x.timestamp == y.timestamp
    requires forall z :: z in sorted && z != x && z != y ==> z.timestamp < x.timestamp
    ensures x in Take(sorted, limit)
  {
    var r := Take(sorted, limit);
    if x !in r {
      TakeKeepsFirst(sorted, limit, NewestFirst, x);
      TakeIsSubMultiset(sorted, limit);
      SubMultisetMembers(r, sorted);
      assert r[0] == y && r[1] == y;
      TwoPositions(r, 0, 1);
    }
  }

  /** The saved pair occurs exactly once each among the farmer's messages when
      every earlier message is older than the transaction time. */
  lemma {:induction false} SavedPairOccursOnce(messages: seq<MessageRow>, pair: seq<MessageRow>, farmerId: int, k: nat)
    requires |pair| == 2 && k < 2 && pair[k].farmerId == farmerId
    requires pair[0] != pair[1]
    requires forall m :: m in messages ==> m.timestamp < pair[k].timestamp
    ensures multiset(MessagesOf(messages + pair, farmerId))[pair[k]] == 1
  {
    assert pair[k] !in messages;
    MessagesOfCount(messages + pair, farmerId, pair[k]);
    assert multiset(messages + pair) == multiset(messages) + multiset(pair);
    assert pair == [pair[0]] + [pair[1]];
    assert multiset(pair)[pair[k]] == 1;
  }

  /** After saving a pair at a time later than every stored message, reading
      the farmer's recent history with a limit of at least two returns both
      saved rows. */
  lemma {:induction false} SavedPairIsMostRecent(messages: seq<MessageRow>, farmerId: int, data: map<string, Option<string>>,
                              now: int, firstId: int, limit: int)
    requires forall m :: m in messages ==> m.timestamp < now
    requires limit >= 2
    ensures SavedPair(farmerId, data, now, firstId)[0] in RecentMessageRows(messages + SavedPair(farmerId, data, now, firstId), farmerId, limit)
    ensures SavedPair(farmerId, data, now, firstId)[1] in RecentMessageRows(messages + SavedPair(farmerId, data, now, firstId), farmerId, limit)
  {
    var pair := SavedPair(farmerId, data, now, firstId);
    var mine := MessagesOf(messages + pair, farmerId);
    NewestFirstIsTotalPreorder();
    var sorted := SortBy(mine, NewestFirst);
    assert RecentMessageRows(messages + pair, farmerId, limit) == Take(sorted, limit);
    assert multiset(sorted)[pair[0]] == 1 && multiset(sorted)[pair[1]] == 1 by {
      SavedPairOccursOnce(messages, pair, farmerId, 0);
      SavedPairOccursOnce(messages, pair, farmerId, 1);
    }
    assert forall z :: z in sorted && z != pair[0] && z != pair[1] ==> z.timestamp < now by {
      SubMultisetMembers(sorted, mine);
      assert forall z :: z in messages + pair ==> z in messages || z == pair[0] || z == pair[1];
    }
    NewestPairKept(sorted, limit, pair[0], pair[1]);
    NewestPairKept(sorted, limit, pair[1], pair[0]);
  }

  /* ---------------------------------------------------------------------- */
  /* get_conversations_for_approval / get_conversation_details              */
  /* ---------------------------------------------------------------------- */

  /** A row of `incoming_messages m JOIN farmers f ON m.farmer_id = f.id`. */
  datatype MessageFarmerRow = MessageFarmerRow(message: MessageRow, farmer: FarmerRow)

  function FarmerOfRow(row: MessageFarmerRow): int {
    row.message.farmerId
  }

  /** The inner-join rows for one message. */
  function JoinFarmers(m: MessageRow, farmers: seq<FarmerRow>): (r: seq<MessageFarmerRow>)
    ensures forall row :: row in r <==> row.message == m && row.farmer in farmers && row.farmer.id == m.farmerId
  {
    if farmers == [] then []
    else
      var rest := JoinFarmers(m, farmers[1..]);
      assert forall f :: f in farmers <==> f == farmers[0] || f in farmers[1..];
      if farmers[0].id == m.farmerId then [MessageFarmerRow(m, farmers[0])] + rest else rest
  }

  /** `FROM incoming_messages m JOIN farmers f ON m.farmer_id = f.id
      WHERE m.role = 'user'`: exactly the user messages paired with a farmer. */
  function UserMessagesWithFarmer(messages: seq<MessageRow>, farmers: seq<FarmerRow>): (r: seq<MessageFarmerRow>)
    ensures forall row :: row in r <==>
              && row.message in messages && row.message.role == Some("user")
              && row.farmer in farmers && row.farmer.id == row.message.farmerId
  {
    if messages == [] then []
    else
      var rest := UserMessagesWithFarmer(messages[1..], farmers);
      assert forall m :: m in messages <==> m == messages[0] || m in messages[1..];
      if messages[0].role == Some("user") then JoinFarmers(messages[0], farmers) + rest else rest
  }

  /** `r` holds a row of `x`'s farmer that is no older than `x`. */
  predicate Covers(r: seq<MessageFarmerRow>, x: MessageFarmerRow) {
    exists e :: e in r && FarmerOfRow(e) == FarmerOfRow(x) && e.message.timestamp >= x.message.timestamp
  }

  lemma {:induction false} CoversOlder(r: seq<MessageFarmerRow>, a: MessageFarmerRow, x: MessageFarmerRow)
    requires Covers(r, a) && FarmerOfRow(a) == FarmerOfRow(x) && a.message.timestamp >= x.message.timestamp
    ensures Covers(r, x)
  {
    var e :| e in r && FarmerOfRow(e) == FarmerOfRow(a) && e.message.timestamp >= a.message.timestamp;
  }

  /** The accumulated `DISTINCT ON (farmer_id)` result after seeing one more row:
      the row replaces its farmer's entry when it is strictly newer, and is
      added when its farmer has none. */
  function KeepLatest(acc: seq<MessageFarmerRow>, x: MessageFarmerRow): (r: seq<MessageFarmerRow>)
    requires UniqueKeys(acc, FarmerOfRow)
    ensures UniqueKeys(r, FarmerOfRow)
    ensures forall e :: e in r ==> e in acc || e == x
    ensures Covers(r, x)
    ensures forall y :: y in acc ==> Covers(r, y)
  {
    if acc == [] then
      assert [x][0] == x;
      [x]
    else if FarmerOfRow(acc[0]) == FarmerOfRow(x) then
      UniqueKeysTail(acc, FarmerOfRow);
      if x.message.timestamp > acc[0].message.timestamp then
        UniqueKeysCons(x, acc[1..], FarmerOfRow);
        var r := [x] + acc[1..];
        assert r[0] == x;
        assert forall y :: y in acc ==> y == acc[0] || y in r;
        r
      else
        assert acc[0] in acc;
        acc
    else
      UniqueKeysTail(acc, FarmerOfRow);
      var rest := KeepLatest(acc[1..], x);
      UniqueKeysCons(acc[0], rest, FarmerOfRow);
      var r := [acc[0]] + rest;
      assert r[0] == acc[0];
      assert forall y :: y in acc ==> y == acc[0] || y in acc[1..];
      r
  }

  /** `SELECT DISTINCT ON (farmer_id) ... ORDER BY farmer_id, timestamp DESC`:
      one row per farmer, taken from the input, and for each farmer a row no
      older than any of that farmer's input rows. Which of several rows tied
      on the newest timestamp survives is left open. */
  function LatestPerFarmer(rows: seq<MessageFarmerRow>): (r: seq<MessageFarmerRow>)
    ensures UniqueKeys(r, FarmerOfRow)
    ensures forall e :: e in r ==> e in rows
    ensures forall x :: x in rows ==> Covers(r, x)
  {
    if rows == [] then []
    else
      var acc := LatestPerFarmer(rows[1..]);
      var r := KeepLatest(acc, rows[0]);
      KeepLatestStep(rows, acc, r);
      r
  }

  /** One step of `LatestPerFarmer`: folding the first row into the result for
      the remaining rows keeps its three properties. */
  lemma {:induction false} KeepLatestStep(rows: seq<MessageFarmerRow>, acc: seq<MessageFarmerRow>, r: seq<MessageFarmerRow>)
    requires rows != [] && UniqueKeys(acc, FarmerOfRow)
    requires forall e :: e in acc ==> e in rows[1..]
    requires forall x :: x in rows[1..] ==> Covers(acc, x)
    requires r == KeepLatest(acc, rows[0])
    ensures forall e :: e in r ==> e in rows
    ensures forall x :: x in rows ==> Covers(r, x)
  {
    forall x | x in rows ensures Covers(r, x) {
      if x != rows[0] {
        assert x in rows[1..];
        var a :| a in acc && FarmerOfRow(a) == FarmerOfRow(x) && a.message.timestamp >= x.message.timestamp;
        CoversOlder(r, a, x);
      }
    }
    forall e | e in r ensures e in rows {
      if e != rows[0] {
        assert e in rows[1..];
      }
    }
  }

  /** `ORDER BY timestamp DESC` on joined rows. */
  predicate NewestRowFirst(a: MessageFarmerRow, b: MessageFarmerRow) {
    a.message.timestamp >= b.message.timestamp
  }

  lemma {:induction false} NewestRowFirstIsTotalPreorder()
    ensures TotalPreorder(NewestRowFirst)
  {
  }

  /** The cap of the approval queue (`LIMIT 100`). */
  const ApprovalLimit: nat := 100

  /** The `latest_messages` common table expression. */
  function LatestUserRows(messages: seq<MessageRow>, farmers: seq<FarmerRow>): (r: seq<MessageFarmerRow>)
    ensures UniqueKeys(r, FarmerOfRow)
    ensures forall e :: e in r ==>
              && e.message in messages && e.message.role == Some("user")
              && e.farmer in farmers && e.farmer.id == e.message.farmerId
  {
    LatestPerFarmer(UserMessagesWithFarmer(messages, farmers))
  }

  /** Each row of `latest_messages` is the newest user message of its farmer. */
  lemma {:induction false} LatestUserRowsAreNewest(messages: seq<MessageRow>, farmers: seq<FarmerRow>, e: MessageFarmerRow, m: MessageRow)
    requires e in LatestUserRows(messages, farmers)
    requires m in messages && m.role == Some("user") && m.farmerId == e.message.farmerId
    ensures m.timestamp <= e.message.timestamp
  {
    var latest := LatestUserRows(messages, farmers);
    var w := LatestUserRowCovering(messages, farmers, m, e.farmer);
    assert FarmerOfRow(w) == FarmerOfRow(e);
    UniqueKeysSameRow(latest, FarmerOfRow, w, e);
  }

  /** A user message with a farmer row has, in `latest_messages`, a row of
      its farmer that is no older. */
  lemma {:induction false} LatestUserRowCovering(messages: seq<MessageRow>, farmers: seq<FarmerRow>, m: MessageRow, f: FarmerRow)
    returns (w: MessageFarmerRow)
    requires m in messages && m.role == Some("user") && f in farmers && f.id == m.farmerId
    ensures w in LatestUserRows(messages, farmers)
    ensures w.message.farmerId == m.farmerId && w.message.timestamp >= m.timestamp
  {
    var x := MessageFarmerRow(m, f);
    assert x in UserMessagesWithFarmer(messages, farmers);
    assert Covers(LatestUserRows(messages, farmers), x);
    w :| w in LatestUserRows(messages, farmers) && FarmerOfRow(w) == FarmerOfRow(x) && w.message.timestamp >= m.timestamp;
  }

  /** No user message of a listed farmer is newer than that farmer's row. */
  predicate NewestPerFarmer(r: seq<MessageFarmerRow>, messages: seq<MessageRow>) {
    forall e, m :: e in r && m in messages && m.role == Some("user") && m.farmerId == e.message.farmerId ==>
      m.timestamp <= e.message.timestamp
  }

  lemma {:induction false} LatestUserRowsNewest(messages: seq<MessageRow>, farmers: seq<FarmerRow>)
    ensures NewestPerFarmer(LatestUserRows(messages, farmers), messages)
  {
    forall e, m | e in LatestUserRows(messages, farmers) && m in messages && m.role == Some("user") &&
                  m.farmerId == e.message.farmerId
      ensures m.timestamp <= e.message.timestamp
    {
      LatestUserRowsAreNewest(messages, farmers, e, m);
    }
  }

  /** Keeping only some of the rows keeps each one its farmer's newest. */
  lemma {:induction false} NewestPerFarmerOfSubset(r: seq<MessageFarmerRow>, s: seq<MessageFarmerRow>, messages: seq<MessageRow>)
    requires NewestPerFarmer(s, messages) && forall e :: e in r ==> e in s
    ensures NewestPerFarmer(r, messages)
  {
  }

  /** The rows of `get_conversations_for_approval`: at most 100, newest first,
      one per farmer, each a user message whose farmer exists, and each the
      newest user message of its farmer. */
  function ApprovalRows(messages: seq<MessageRow>, farmers: seq<FarmerRow>): (r: seq<MessageFarmerRow>)
    ensures |r| <= ApprovalLimit
    ensures SortedBy(r, NewestRowFirst)
    ensures UniqueKeys(r, FarmerOfRow)
    ensures forall e :: e in r ==>
              && e.message in messages && e.message.role == Some("user")
              && e.farmer in farmers && e.farmer.id == e.message.farmerId
    ensures NewestPerFarmer(r, messages)
  {
    var latest := LatestUserRows(messages, farmers);
    NewestRowFirstIsTotalPreorder();
    var sorted := SortBy(latest, NewestRowFirst);
    var r := Take(sorted, ApprovalLimit);
    assert SortedBy(r, NewestRowFirst) by {
      TakeKeepsSorted(sorted, ApprovalLimit, NewestRowFirst);
    }
    assert multiset(r) <= multiset(latest) by {
      TakeIsSubMultiset(sorted, ApprovalLimit);
    }
    assert UniqueKeys(r, FarmerOfRow) by {
      SubMultisetKeepsUniqueKeys(latest, r, FarmerOfRow);
    }
    assert forall e :: e in r ==> e in latest by {
      SubMultisetMembers(r, latest);
    }
    assert NewestPerFarmer(r, messages) by {
      LatestUserRowsNewest(messages, farmers);
      NewestPerFarmerOfSubset(r, latest, messages);
    }
    r
  }

  /** A farmer with a user message and a farmer row is missing from the queue
      only when the queue is full of entries at least as new as that message. */
  lemma {:induction false} ApprovalRowsCover(messages: seq<MessageRow>, farmers: seq<FarmerRow>, m: MessageRow, f: FarmerRow)
    requires m in messages && m.role == Some("user") && f in farmers && f.id == m.farmerId
    requires forall e :: e in ApprovalRows(messages, farmers) ==> e.message.farmerId != m.farmerId
    ensures |ApprovalRows(messages, farmers)| == ApprovalLimit
    ensures forall e :: e in ApprovalRows(messages, farmers) ==> e.message.timestamp >= m.timestamp
  {
    var latest := LatestUserRows(messages, farmers);
    NewestRowFirstIsTotalPreorder();
    var sorted := SortBy(latest, NewestRowFirst);
    var r := ApprovalRows(messages, farmers);
    assert r == Take(sorted, ApprovalLimit);
    var w := LatestUserRowCovering(messages, farmers, m, f);
    assert w in multiset(sorted);
    assert w !in r;
    TakeKeepsFirst(sorted, ApprovalLimit, NewestRowFirst, w);
  }

  /** `... JOIN farmers f ON m.farmer_id = f.id WHERE m.id = :conversation_id`,
      first row. */
  function MessageWithFarmer(messages: seq<MessageRow>, farmers: seq<FarmerRow>, id: int): (r: Option<MessageFarmerRow>)
    ensures r.Some? <==> exists m, f :: m in messages && f in farmers && m.id == id && f.id == m.farmerId
    ensures r.Some? ==> && r.value.message in messages && r.value.message.id == id
                        && r.value.farmer in farmers && r.value.farmer.id == r.value.message.farmerId
  {
    if messages == [] then None
    else
      var m := messages[0];
      assert forall x :: x in messages <==> x == m || x in messages[1..];
      if m.id == id && FarmerById(farmers, m.farmerId).Some? then
        Some(MessageFarmerRow(m, FarmerById(farmers, m.farmerId).value))
      else
        MessageWithFarmer(messages[1..], farmers, id)
  }

  /* ---------------------------------------------------------------------- */
  /* get_crop_info                                                           */
  /* ---------------------------------------------------------------------- */

  predicate CropTypeMatches(t: CropTechnologyRow, name: string) {
    t.cropType.Some? && EqualsIgnoringCase(t.cropType.value, name)
  }

  /** `SELECT DISTINCT crop_type FROM crop_technology
      WHERE LOWER(crop_type) = LOWER(:crop_name) LIMIT 1`. */
  function MatchingCropType(tech: seq<CropTechnologyRow>, name: string): (r: Option<string>)
    ensures r.Some? <==> exists t :: t in tech && CropTypeMatches(t, name)
    ensures r.Some? ==> CropTechnologyRow(r) in tech && EqualsIgnoringCase(r.value, name)
  {
    if tech == [] then None
    else if CropTypeMatches(tech[0], name) then tech[0].cropType
    else MatchingCropType(tech[1..], name)
  }

  /** The lookup is case-insensitive: names equal up to ASCII case find the
      same crop type. */
  lemma {:induction false} MatchingCropTypeIgnoresCase(tech: seq<CropTechnologyRow>, a: string, b: string)
    requires EqualsIgnoringCase(a, b)
    ensures MatchingCropType(tech, a) == MatchingCropType(tech, b)
  {
    if tech != [] {
      MatchingCropTypeIgnoresCase(tech[1..], a, b);
    }
  }
}
