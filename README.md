# Farmer CRM data-access layer, modelled in Dafny

This project models `DatabaseOperations`, the data-access object of the
agricultural assistant. It reads farmers, their fields and plantings, message
history and crop types from the farmer CRM store, and it saves a question and
answer exchange.

The PostgreSQL store is replaced by five in-memory tables: `farmers`,
`fields`, `field_crops`, `incoming_messages` and `crop_technology`. Each table
is a sequence of rows, and nullable columns are `Option` values. Each SQL
statement is evaluated over those tables by a function in `Queries`. The
functions cover filtering, inner and left joins, `ORDER BY`, `LIMIT` and
`DISTINCT ON`. Each result row is then turned into the dictionary the
method returns by a function in `Records`, which applies the code's fallback
rules.

Modules, one per file:

- `Nullable` (`nullable.dfy`): `Option`, and Python truthiness of a nullable
  text or number column.
- `Text` (`text.dfy`): Python `str.strip` with its whitespace set, ASCII
  lower-casing and case-insensitive comparison, and code-point
  lexicographic order.
- `IsoDate` (`isodate.dfy`): Gregorian calendar dates (the day within its
  month), `date.isoformat()` text (`YYYY-MM-DD`), and its parser.
- `Relational` (`relational.dfy`): `WHERE` (`Filter`), `ORDER BY` (`SortBy`,
  for any total preorder), `LIMIT` (`Take`), and key uniqueness.
- `Tables` (`tables.dfy`): the row types, and the key invariants of the store.
- `Queries` (`queries.dfy`): the statement of each method, as raw result rows.
- `Records` (`records.dfy`): the output records, the per-row mapping, and the
  loops that build the result lists.
- `Dal` (`database_operations.dfy`): `class DatabaseOperations`. It holds the
  tables as fields, and its methods follow the Python methods one by one.

Decisions:

- Rows are sorted by one fixed (insertion) sort. Where the store may order
  tied rows freely, contracts state only sortedness and the row multiset.
- `ORDER BY ... ASC` puts NULL last, as PostgreSQL does by default.
- A negative `LIMIT` is an error in PostgreSQL. The code catches it and
  returns `[]`, and the model does the same.
- `save_conversation` is one atomic step. Both rows get one `now`, because
  `CURRENT_TIMESTAMP` is the transaction start time. The store failing is a
  parameter: when it fails, nothing is committed and `None` is returned.
- `conversation_data` is a `map<string, Option<string>>` read with
  `dict.get` semantics. A `wa_phone_number` key holding `None` stores `None`;
  only a missing key stores `"unknown"`.
- `get_farmer_info` returns the `wa_phone_number` column, not `phone`. A
  farmer stored with only `phone` set gets `wa_phone_number: None`.
- The approval queue's `farmer_phone` is the `phone` column only. It has no
  `wa_phone_number` fallback, unlike `get_all_farmers`.
- An empty `farm_name` sorts first yet is shown as `"Unknown Farm"`. So the
  ordering of `get_all_farmers` is stated on the stored `farm_name`, not on
  the displayed one.
- The default limits, 100 for `get_all_farmers` and 10 for
  `get_recent_conversations`, are the constants `Dal.DefaultFarmersLimit` and
  `Dal.DefaultConversationsLimit`. The methods take the limit as an argument.

## Model

| member | source | states |
|---|---|---|
| Dal.EffectiveConnectionString | database_operations.py:30 | `connection_string or DATABASE_URL`: the given string when non-empty, else the configured URL. Stated by `Dal.DatabaseOperations.constructor`. |
| Dal.DatabaseOperations.constructor | database_operations.py:29-32 | The connection string is the given one when non-empty, else the configured URL. Construction needs it to start with `postgresql://`. The store keys start valid. |
| Dal.DatabaseOperations.GetFarmerInfo | database_operations.py:49-74 | A record exists exactly when a farmer row has the id. Its id is the requested id, `total_hectares` is 0 and `farmer_type` is `"Farm"`. The other fields are copied from that farmer's row. |
| Dal.DatabaseOperations.GetAllFarmers | database_operations.py:80-107 | A negative limit gives `[]`. Otherwise there are min(limit, #farmers) entries. Entry i summarises row i of the farm-name ordered query, and every entry summarises some stored farmer. |
| Dal.DatabaseOperations.GetFarmerFields | database_operations.py:113-145 | Entry i is the view of row i of the ordered left join. Every entry is a field of this farmer, carrying that field's id and name. |
| Dal.DatabaseOperations.GetRecentConversations | database_operations.py:151-178 | A negative limit gives `[]`. Otherwise there are at most `limit` turns, with timestamps non-increasing. Each turn is the role split of one of this farmer's messages, and none is approved. |
| Dal.DatabaseOperations.SaveConversation | database_operations.py:184-223 | On success it appends exactly a user row (the question) and an assistant row (the answer). Both rows carry the farmer id, the `wa_phone_number`-or-`"unknown"` phone and one `now`. It returns the assistant row's id, which differs from the user row's id. Earlier rows and the other tables are unchanged, and the key invariants are kept. On failure nothing changes and the result is `None`. |
| Dal.DatabaseOperations.GetCropInfo | database_operations.py:225-254 | A record exists exactly when a stored crop type equals the name ignoring case. Both names are that stored crop type, and the description is `"Information about "` plus it. |
| Dal.DatabaseOperations.GetConversationsForApproval | database_operations.py:256-296 | `approved` is empty, and there are at most 100 unapproved entries. No two entries share a farmer, and entries are ordered newest first. Each entry is a user message whose farmer exists, with its truncated text. No user message of that farmer is newer. |
| Dal.DatabaseOperations.GetConversationDetails | database_operations.py:302-328 | A detail exists exactly when a message with that id has a farmer row. It carries that message's role-split text and timestamp and the farmer's display name, and it is not approved. |
| Queries.FarmerById | database_operations.py:53-61 | Finds a row exactly when one with that id exists, and what it finds is a stored row with that id. |
| Queries.AllFarmerRows | database_operations.py:84-93 | A negative limit gives no rows. Otherwise there are min(limit, #farmers) rows, drawn from the table without repetition beyond it, ordered by `farm_name` with NULL last. |
| Queries.AllFarmerRowsAreFirstByName | database_operations.py:89-90 | A farmer the limit cuts off sorts no earlier than every listed one, and it is cut off only when the limit is reached. |
| Queries.FarmNameOrderIsTotalPreorder | database_operations.py:89 | `ORDER BY farm_name` (NULLS LAST) is total and transitive. |
| Queries.PairWith | database_operations.py:122-124 | Pairs a field with each planting of a list, yielding a planting row as often as the list holds that planting. |
| Queries.JoinField | database_operations.py:122-124 | The join rows of one field are exactly its pairings with its active plantings. A pairing occurs as often as `field_crops` holds that active planting. A field with no active planting gives the single row without crop data. |
| Queries.LeftJoinActive | database_operations.py:122-124 | A row is in the left join exactly when its field is an input field and it meets the join condition. The condition is: paired with an active planting of that field, or with none when the field has no active planting. |
| Queries.LeftJoinActiveCount | database_operations.py:122-124 | The left join yields a row as often as its field occurs, times the count `JoinField` gives for that field. |
| Queries.FieldNameOrderIsTotalPreorder | database_operations.py:126 | `ORDER BY f.field_name` (NULLS LAST) is total and transitive. |
| Queries.FarmerFieldRows | database_operations.py:117-129 | A row is in the result exactly when its field belongs to this farmer and it meets the join condition. Rows are ordered by field name (NULL last) and are a permutation of the left join. |
| Queries.FarmerFieldRowsComplete | database_operations.py:122-125 | Each field of the farmer is listed: with each of its active plantings, or without crop data when it has none. |
| Queries.FarmerFieldRowsCount | database_operations.py:117-129 | The result holds a row as often as the farmer's field occurs, times its plantings' count: a field with `k` stored active plantings gives `k` rows, and one with none gives one row. Other farmers' rows do not occur. |
| Queries.LeftJoinFieldWithoutPlanting | database_operations.py:123-124 | Over uniquely keyed fields, a field without an active planting yields its row without crop data exactly once. |
| Queries.FieldWithoutPlantingListedOnce | database_operations.py:117-143 | A farmer's field with no active planting appears exactly once in the result. Every row for it has no crop, variety, date or status. |
| Queries.RecentMessageRows | database_operations.py:155-164 | A negative limit gives no rows. Otherwise there are min(limit, #messages of the farmer) rows, all that farmer's stored messages, newest first. |
| Queries.MessagesOfCount | database_operations.py:159 | The farmer's messages hold each of that farmer's rows as often as the table does. |
| Queries.RecentMessagesAreNewest | database_operations.py:160-161 | A message of the farmer that was left out is no newer than every kept message, and it is left out only when the limit is reached. |
| Queries.SavedPairIsMostRecent | database_operations.py:189-214 | After a save at a time later than every stored message, the farmer's recent history with a limit of at least 2 contains both saved rows. |
| Queries.Get | database_operations.py:197-198 | `dict.get` with default `None`: the entry when the key is present, else `None`. Its use is stated by `Dal.DatabaseOperations.SaveConversation`. |
| Queries.SavedPhone | database_operations.py:197 | The phone `save_conversation` stores: the `wa_phone_number` entry when the key is present (even `None`), else `"unknown"`. Its use is stated by `Dal.DatabaseOperations.SaveConversation`. |
| Queries.SavedPair | database_operations.py:189-214 | The user row (question) and assistant row (answer) one save inserts, with consecutive ids, one phone and one `now`. Its partner is `Queries.SavedPairIsMostRecent`. |
| Queries.NewestPairKept | database_operations.py:160-161 | Two distinct rows tied on the newest timestamp both survive a newest-first limit of 2 or more. |
| Queries.JoinFarmers | database_operations.py:269 | The inner-join rows of one message are exactly its pairings with farmers whose id is its `farmer_id`. |
| Queries.UserMessagesWithFarmer | database_operations.py:268-270 | The joined rows are exactly the user-role messages paired with an existing farmer of that id. |
| Queries.KeepLatest | database_operations.py:264-271 | One `DISTINCT ON` step keeps farmers unique and keeps only seen rows. For the new row and every earlier row, a row of the same farmer no older than it is kept. |
| Queries.LatestPerFarmer | database_operations.py:264-271 | One row per farmer, each from the input. For every input row, the result has a row of its farmer that is no older. |
| Queries.NewestFirstIsTotalPreorder | database_operations.py:160 | `ORDER BY timestamp DESC` on messages is total and transitive. |
| Queries.NewestRowFirstIsTotalPreorder | database_operations.py:271-274 | `ORDER BY timestamp DESC` is total and transitive. |
| Queries.LatestUserRows | database_operations.py:263-272 | The `latest_messages` rows have unique farmers, and each is a user message joined to its existing farmer. |
| Queries.LatestUserRowCovering | database_operations.py:264-271 | Every user message with a farmer row has, in `latest_messages`, a row of its farmer that is no older. |
| Queries.LatestUserRowsAreNewest | database_operations.py:264-271 | No user message of a listed farmer is newer than that farmer's row. |
| Queries.LatestUserRowsNewest | database_operations.py:264-271 | The same for the whole of `latest_messages`. |
| Queries.NewestPerFarmerOfSubset | database_operations.py:273-275 | Keeping only some rows (`ORDER BY`, `LIMIT`) keeps each one its farmer's newest. |
| Queries.ApprovalRows | database_operations.py:262-276 | At most 100 rows, newest first, with unique farmers. Each row is a user message with an existing farmer, and no user message of that farmer is newer. |
| Queries.ApprovalRowsCover | database_operations.py:273-275 | A farmer with a user message and a farmer row is missing only when 100 entries at least as new fill the queue. |
| Queries.MessageWithFarmer | database_operations.py:307-316 | Finds a row exactly when a message with the id has a farmer row. What it finds is that message and that farmer. |
| Queries.MatchingCropType | database_operations.py:230-238 | Finds a crop type exactly when a stored one equals the name ignoring case. What it finds is such a stored, non-null crop type. |
| Queries.MatchingCropTypeIgnoresCase | database_operations.py:234 | Names equal up to ASCII case find the same crop type. |
| Records.DisplayName | database_operations.py:99 | The display name built from first and last name. Its properties are stated by `Records.DisplayNameRule`. |
| Records.DisplayNameRule | database_operations.py:99 | The name is `"Unknown"` unless both parts are non-empty. Otherwise it is the joined name with the outer whitespace stripped, and exactly `"first last"` when neither part has any. |
| Records.FarmerInfoOf | database_operations.py:64-73 | The `get_farmer_info` dictionary of a farmer row: the id, names, city and `wa_phone_number` copied, `total_hectares` 0 and `farmer_type` `"Farm"`. Stated by `Dal.DatabaseOperations.GetFarmerInfo`. |
| Records.FarmerSummaryOf | database_operations.py:97-105 | The `get_all_farmers` entry of a farmer row. Its fallbacks are stated by `Records.FarmerSummaryFallbacks`. |
| Records.FarmerSummaryFallbacks | database_operations.py:98-104 | Phone is `phone`, else `wa_phone_number`, else `""`, and it is empty only when both are. Location is `city` or `""`. The farm name is `farm_name` or `"Unknown Farm"`, and never empty. |
| Records.PlantingDateText | database_operations.py:141 | `planting_date.isoformat()` when a date is stored, else `None`. Stated by `Records.FieldViewDefaults`. |
| Records.FieldViewOf | database_operations.py:133-143 | The `get_farmer_fields` entry of a join row. Its defaults are stated by `Records.FieldViewDefaults`. |
| Records.FieldViewDefaults | database_operations.py:134-142 | Size is 0 exactly when the stored size is null or 0. A row without a planting has no crop data. The planting date is text exactly when a date is stored, and that text is 10 characters and parses back to the stored date. |
| Records.TurnOf | database_operations.py:168-176 | The `get_recent_conversations` entry of a message. Its role split is stated by `Records.TurnSplitsByRole`. |
| Records.TurnSplitsByRole | database_operations.py:169-175 | A user message's text goes to `user_input` with `ava_response` `""`, an assistant's the other way round, and any other role leaves both `""`. The turn is never approved. |
| Records.DetailOf | database_operations.py:319-327 | The `get_conversation_details` dictionary of a message and its farmer, split by role as `Records.TurnOf`. Stated by `Dal.DatabaseOperations.GetConversationDetails`. |
| Records.ApprovalEntryOf | database_operations.py:283-293 | The approval-queue entry of a message and its farmer. Stated by `Records.ApprovalEntriesFollowRows` and `Dal.DatabaseOperations.GetConversationsForApproval`. |
| Records.CropInfoOf | database_operations.py:241-249 | The `get_crop_info` dictionary of a stored crop type. Stated by `Dal.DatabaseOperations.GetCropInfo`. |
| Records.LastMessage | database_operations.py:291 | Text over 100 characters becomes its first 100 plus `"..."` (103 characters). Shorter text is unchanged, and null becomes `""`. |
| Records.SummariesOf | database_operations.py:95-105 | The loop appends, for each row in order, its summary, so entry i summarises row i. |
| Records.FieldViewsOf | database_operations.py:131-143 | The loop appends, for each row in order, its field view. |
| Records.TurnsOf | database_operations.py:166-176 | The loop appends, for each row in order, its turn. |
| Records.ApprovalEntriesOf | database_operations.py:280-294 | The loop appends, for each row in order, its approval entry. |
| Records.ApprovalEntriesFollowRows | database_operations.py:280-294 | Entries built from queue rows keep the queue properties: one per farmer, newest first, each a user message with an existing farmer, each its farmer's newest. |
| Text.SkipSpace | database_operations.py:99 | The first index from `i` on that holds no whitespace; everything skipped is whitespace. |
| Text.SkipSpaceBack | database_operations.py:99 | The end of a range once trailing whitespace is dropped; everything dropped is whitespace. |
| Text.Strip | database_operations.py:99 | The result has no whitespace at either end and is no longer than the input. |
| Text.StripRemovesOnlySpace | database_operations.py:99 | The result is a run of the input with only whitespace before and after it. |
| Text.StripKeepsTrimmed | database_operations.py:99 | A string without outer whitespace is unchanged by `strip`. |
| Text.LowerAscii | database_operations.py:234 | Same length, no upper-case ASCII letter left, and only `A`-`Z` are changed, each to its lower case. |
| Text.LexLeTotal | database_operations.py:89 | Any two strings are comparable in the text order. |
| Text.LexLeTransitive | database_operations.py:89 | The text order is transitive. |
| IsoDate.IsoFormat | database_operations.py:141 | Ten characters: `-` at positions 4 and 7, digits elsewhere. |
| IsoDate.ParseIsoFormat | database_operations.py:141 | Parsing the ISO text of a date gives back the date. |
| IsoDate.FormatParsedIso | database_operations.py:141 | Text that parses as a date is exactly that date's ISO text. |
| IsoDate.DecimalOfPadded | database_operations.py:141 | A zero-padded number field reads back as the number. |
| IsoDate.PaddedOfDecimal | database_operations.py:141 | A digit string is the zero-padding of its own value. |
| Relational.Filter | database_operations.py:125 | Keeps exactly the rows satisfying the condition. |
| Relational.FilterCounts | database_operations.py:125 | A satisfying row is kept as often as the table holds it, and any other row is dropped. |
| Relational.FilterIsSubMultiset | database_operations.py:125 | `WHERE` selects a sub-multiset of the table. |
| Relational.SortBy | database_operations.py:89 | A sorted permutation of the rows. |
| Relational.Take | database_operations.py:90 | The first min(n, #rows) rows. |
| Relational.TakeKeepsFirst | database_operations.py:89-90 | A row `LIMIT` leaves out of a sorted result comes after every kept row, and the limit was reached. |

## Left out

- The SQLAlchemy engine, sessions, pooling and `DB_POOL_SETTINGS`: foreign library code and transport. The store is the in-memory tables.
- `get_session`: it only opens a store session, so it has no counterpart outside the tables.
- `async`/`await`, concurrency and transaction isolation: they belong to the store. `SaveConversation` is one atomic step.
- `health_check` and `test_windows_postgresql`: they only probe connectivity and log or print.
- Logging, and the `host.docker.internal` branch of the constructor, which does nothing.
- The exception-to-sentinel paths of the read methods: only the negative `LIMIT` error and the failure of `save_conversation` are modelled.
- Dal.DatabaseOperations.SaveConversation: on failure the id sequence does not advance, whereas PostgreSQL sequences keep values drawn by a rolled-back transaction. Ids stay unique either way.
- Floating point: `float(field_size)`, `0.8` and `0.0` are Dafny `real` values, and no rounding is modelled.
- Database collation and `LOWER`: text order is code-point lexicographic order, and lower-casing is ASCII only.
- Query ties: which of several rows tied on the sort key comes first, and which tied row `DISTINCT ON` keeps, are up to the store. Contracts state only sortedness and "a newest row", never a winner.
- Column types: message timestamps are abstract integers; `id`, `farmer_id` and `timestamp` are non-null; only the columns the statements read are modelled.
- `email`: `get_all_farmers` selects it but never uses it, so it is carried in the row and not used.
