# Bloom backend core in Dafny

Bloom is a marketplace backend built on FastAPI and SQLModel. This project models its core:

- **Request helpers.** Friendly ids, nested query parameters, the client IP behind proxies, and the `X-Bloom-Client` header.
- **Value types.** The GUID format, password rules and `BloomClientInfo`.
- **Friendly mixin.** The friendly id and slug a record is given.
- **Cache.** Cache keys and the in-memory cache provider.
- **Query engine.** Sort fields, offset and keyset pagination, cursors, field selection and filter keys, and the service that combines them.
- **Repositories.** The base repository plus the token, address and inventory repositories built on it. The token and inventory services.
- **Domain models.** Accounts and their account-type infos, permissions, banking information, order lines and inventory rows.
- **Infrastructure.** The nested transaction context manager, the storage helpers, the logging filters, and the settings validators.

Each source file becomes one module with the same name.

- Pure helpers become functions.
- Objects whose methods change their fields become classes. Their methods are stated against a step function on the old state, and lemmas state what those step functions keep.
- A database table is a `Repository` class. It holds its rows as a sequence of column maps, its columns, its unique columns and its column defaults. The `Valid()` invariant requires exactly the model's columns, and distinct keys and unique columns.

Some inputs stay opaque and are passed in as parameters:

- the clock, as `now`;
- UUIDs the code generates, and new keys;
- encryption and decryption;
- base64, JSON, MD5 and UTF-8 codecs;
- the MIME-type guess and image rendering;
- whether the database raises.

`Text` and `OrderedDict` model the Python built-ins the code relies on: `str.split`, `strip`, `join`, `lower` and `rpartition`, and an insertion-ordered `dict`. `Wrappers` holds `Option` and `Result`.

## Model

| member | source | states |
|---|---|---|
| Friendly.EncodeInt | app/src/core/database/mixins/friendly.py:50-71 | the digits of `_encode_int` loop: between 5 and 11 characters, equal to the encoding specification |
| Friendly.DigitChars | app/src/core/database/mixins/friendly.py:55-62 | the digit loop appends the least-significant-first base-54 digits of the value, padded with zero digits to at least five |
| Friendly.EncodeIntValue | app/src/core/database/mixins/friendly.py:50-71 | when the base-54 digits fit before truncation, reading the encoding back in base 54 gives the absolute value of the integer |
| Friendly.EncodeIntSign | app/src/core/database/mixins/friendly.py:50-71 | an integer and its negation encode alike (the sign is dropped) |
| Friendly.EncodeIntZero | app/src/core/database/mixins/friendly.py:50-71 | zero is padded to the minimum length with the first alphabet character: "22222" |
| Friendly.EncodeIntSpecLength | app/src/core/database/mixins/friendly.py:50-71 | every integer encodes to 5..11 characters, whatever the MD5 digest |
| Friendly.AlphabetDigit | app/src/core/database/mixins/friendly.py:21 | the alphabet has 54 distinct characters; each character's digit value is its index |
| Friendly.EncodeUuid | app/src/core/database/mixins/friendly.py:79-97 | the UUID encoding is 5..11 characters, all from the alphabet |
| Friendly.UntruncatedInAlphabet | app/src/core/database/mixins/friendly.py:50-71 | the digits of any integer are alphabet characters |
| Friendly.EncodeUuidSpecInAlphabet | app/src/core/database/mixins/friendly.py:79-97 | a UUID encodes to alphabet characters only, whatever the base64 text |
| Friendly.EncodeStr | app/src/core/database/mixins/friendly.py:73-77 | a string or GUID id is encoded as the integer its UTF-8 bytes spell, big-endian |
| Friendly.ToFriendlyId | app/src/core/database/mixins/friendly.py:32-48 | int ids get prefix "i", UUIDs "u", strings and GUIDs "s"; any other type is a TypeError; a result is 6..12 characters |
| Friendly.ToSlug | app/src/core/database/mixins/friendly.py:99-132 | the slug is at most 100 characters |
| Friendly.SlugShape | app/src/core/database/mixins/friendly.py:99-132 | the slug is "id-name" when that fits; otherwise the id and hyphen followed by a prefix of the cleaned name; an id too long leaves only the truncated id |
| Friendly.CleanNameShape | app/src/core/database/mixins/friendly.py:115-125 | the cleaned name holds only lower-case letters, digits and '-', and neither starts nor ends with '-' |
| Friendly.FriendlyRecord.GetFriendlyId | app/src/core/database/mixins/friendly.py:134-140 | a record without id fails; otherwise the friendly id of its id |
| Friendly.FriendlyRecord.SetFriendlyId | app/src/core/database/mixins/friendly.py:142-148 | when disabled it returns "" and changes nothing; otherwise it stores and returns the friendly id, and a failure stores nothing |
| Friendly.FriendlyRecord.NameValue | app/src/core/database/mixins/friendly.py:158-161 | a non-empty name is used, else the title |
| Friendly.FriendlyRecord.GetSlug | app/src/core/database/mixins/friendly.py:150-167 | fails when slugs are disabled, the id is missing or there is no name; otherwise the slug of id and name |
| Friendly.FriendlyRecord.SetSlug | app/src/core/database/mixins/friendly.py:169-175 | when disabled it returns "" and changes nothing; otherwise it stores and returns the slug |
| Friendly.FriendlyRecord.SaveFriendlyFields | app/src/core/database/mixins/friendly.py:177-185 | sets the friendly id and then the slug, each only when enabled; a failing friendly id stops before the slug; the slug is stored when it can be made and a slug failure is the result; it succeeds iff every enabled step succeeds |
| Guid.Decode | app/src/core/types/guid.py:109-135 | a GUID without the "gid://" scheme or without exactly three '/'-separated parts is rejected; a decoded GUID has three non-empty parts |
| Guid.DecodeParts | app/src/core/types/guid.py:109-135 | a decoded GUID is exactly "gid://app/type/id" rebuilt from its parts, none of which holds '/' |
| Guid.DecodeFormat | app/src/core/types/guid.py:86-135 | formatting three non-empty parts without '/' and decoding gives them back |
| Guid.SlashInIdRejected | app/src/core/types/guid.py:98-135 | an encoded id holding '/' (base64 allows it) makes the GUID undecodable |
| Guid.SplitCombine | app/src/core/types/guid.py:160-165 | splitting a 128-bit id into 64-bit halves and recombining gives it back |
| Guid.PackUnpackId | app/src/core/types/guid.py:101-102 | packing an id below 2^128 into 16 big-endian bytes and unpacking gives it back |
| Guid.PackUnpack | app/src/core/types/guid.py:160-163 | any value below 256^k packed into k big-endian bytes unpacks to itself |
| Guid.ResourceName | app/src/core/types/guid.py:94-96 | a trailing "Model" is stripped from the resource type, and nothing else changes |
| Guid.EncodeGuid | app/src/core/types/guid.py:86-107 | the GUID is "gid://bloom/" followed by the resource name and the base64 id |
| Guid.PadBase64 | app/src/core/types/guid.py:152-154 | padding with '=' up to a multiple of four keeps the text as a prefix and adds fewer than four characters |
| Guid.ExtractInternalId | app/src/core/types/guid.py:137-167 | a GUID that does not decode keeps its error; a success is the 16 decoded bytes read as an integer below 2^128 |
| Guid.EncodeExtract | app/src/core/types/guid.py:86-167 | extracting the id from an encoded GUID gives the original 128-bit id back |
| Guid.Validate | app/src/core/types/guid.py:44-84 | a non-string is an error, a blank string is rejected as empty, any other string is accepted unchanged iff it decodes |
| Guid.BlankRejected | app/src/core/types/guid.py:55-60 | a string of whitespace is rejected as empty |
| ClientInfo.ParsePlatform | app/src/core/enums.py:4-16 | the platform whose value is the text; none when no platform has it |
| ClientInfo.ParseApp | app/src/core/enums.py:19-33 | the app whose value is the text; none when no app has it |
| ClientInfo.PlatformRoundTrip | app/src/core/enums.py:4-16 | every platform's value parses back to that platform |
| ClientInfo.AppRoundTrip | app/src/core/enums.py:19-33 | every app's value parses back to that app |
| ClientInfo.Segments | app/src/core/types/client_info.py:18-25 | platform, version and app segments, then a build segment only for a non-empty build |
| ClientInfo.ToString | app/src/core/types/client_info.py:18-26 | the text starts with the platform, version and app segments joined by "; ", whatever follows them |
| ClientInfo.BuildSegment | app/src/core/types/client_info.py:18-26 | the exact text, with and without a build, joined by "; " |
| ClientInfo.JoinSegments | app/src/core/types/client_info.py:18-26 | three or four segments joined with "; " give the segments with the separator between them |
| Request.IntFriendlyIdRecognised | app/src/core/helpers/request.py:12-21 | a friendly id made from an int id is recognised |
| Request.UuidFriendlyIdRecognised | app/src/core/helpers/request.py:12-21 | a friendly id made from a UUID is recognised |
| Request.StrFriendlyIdRejected | app/src/core/helpers/request.py:12-21 | a friendly id made from a string or GUID id ("s" prefix) is not recognised |
| Request.IsFriendlyId | app/src/core/helpers/request.py:12-21 | true iff at least two characters, prefix "i" or "u", and every later character in the friendly alphabet |
| Request.MatchNested | app/src/core/helpers/request.py:30-33 | a match splits "parent[child]" into a non-empty parent without '[' and a non-empty child without ']' |
| Request.MatchNestedOf | app/src/core/helpers/request.py:30-33 | every "parent[child]" key of that shape matches with its own parent and child |
| Request.InsertByKey | app/src/core/helpers/request.py:40-44 | inserting into a sorted group keeps every value, adding the new one |
| Request.SortByKey | app/src/core/helpers/request.py:40-44 | sorting a group keeps exactly its values |
| Request.SortByKeySorted | app/src/core/helpers/request.py:40-44 | the digit-keyed values are sorted by integer key |
| Request.Listify | app/src/core/helpers/request.py:38-44 | each parent keeps its place and its value is turned into a list where its children are all digits |
| Request.ParseNestedQueryParams | app/src/core/helpers/request.py:24-46 | the loop computes the nested-parameter specification: grouping by parent, then a list for all-digit children |
| Request.GroupLoop | app/src/core/helpers/request.py:31-39 | the first loop computes the grouping of each "parent[child]" value under its parent, other keys kept as they are |
| Request.ListifyLoop | app/src/core/helpers/request.py:41-44 | the second loop turns each all-digit group into its list, in place, and keeps every other entry |
| Request.NestedValueGrouped | app/src/core/helpers/request.py:24-46 | a nested key's value is found under its parent and child |
| Request.DigitGroupBecomesList | app/src/core/helpers/request.py:38-44 | a group whose children are all digits becomes the list of its values ordered by key, a permutation of them |
| Request.OtherValuesKept | app/src/core/helpers/request.py:38-44 | any other value is kept as it is |
| Request.GetClientIp | app/src/core/helpers/request.py:49-81 | the loop computes the client-IP decision over the proxy headers in order, with the default headers, trusted list and count |
| Request.HeaderLoop | app/src/core/helpers/request.py:62-81 | the loop over the header names computes the client-IP decision, then falls back to the client host |
| Request.PyIndex | app/src/core/helpers/request.py:66-72 | Python indexing: a value iff the index lies in -len..len-1 |
| Request.ForwardedIps | app/src/core/helpers/request.py:66-72 | a forwarded header always gives at least one address |
| Request.FirstHeaderWins | app/src/core/helpers/request.py:60-75 | the first present header without a comma list is the answer |
| Request.UntrustedForwardedFor | app/src/core/helpers/request.py:66-72 | with no trusted proxies, X-Forwarded-For gives its first address, stripped |
| Request.FallbackToClientHost | app/src/core/helpers/request.py:77-81 | with no proxy header present, the client host is the answer |
| Request.NoIndexError | app/src/core/helpers/request.py:66-72 | a non-negative proxy count never indexes outside the forwarded list |
| Request.DecisionInRange | app/src/core/helpers/request.py:66-72 | with a non-negative proxy count no header decision is an IndexError |
| Request.ParseBloomClientHeader | app/src/core/helpers/request.py:84-156 | the loop over ';'-separated pairs computes the header specification |
| Request.ParsePairs | app/src/core/helpers/request.py:98-110 | a failure is an invalid client type caused by a pair without "=" or with an empty key or value |
| Request.MissingOf | app/src/core/helpers/request.py:122-128 | nothing is missing iff platform, version and app are all present |
| Request.FromFields | app/src/core/helpers/request.py:112-156 | a success holds the platform, app, well-formed version and all-digit build of the fields; missing fields are reported by name |
| Request.MalformedPairRejected | app/src/core/helpers/request.py:98-110 | any pair without '=' or with an empty key or value rejects the header |
| Request.PairRejectedAt | app/src/core/helpers/request.py:98-110 | the first malformed pair decides the error |
| Request.LastPairWins | app/src/core/helpers/request.py:98-110 | a repeated key keeps its last value |
| Request.HeaderRoundTrip | app/src/core/types/client_info.py:18-26 | parsing the text of any well-formed client info gives it back |
| Password.Validate | app/src/core/types/password.py:45-127 | fails with every broken rule in order, and only when some rule is broken; a valid password is returned unchanged |
| Password.ErrorsOfRules | app/src/core/types/password.py:60-127 | each rule's error is reported exactly when the rule is broken: 8..128 characters, a digit, an upper, a lower and a symbol |
| Password.ErrorsEmpty | app/src/core/types/password.py:45-127 | no error iff the password is acceptable |
| Password.ErrorsUpToHas | app/src/core/types/password.py:60-127 | the errors of the first n rules are exactly those of these rules that are broken |
| CacheKey.BuildKey | app/src/libs/cache/interface.py:123-133 | the key is the prefix, ':' and the caller's key |
| CacheKey.BuildKeyInjective | app/src/libs/cache/interface.py:123-133 | different keys under one prefix never collide |
| CacheKey.ValidateKey | app/src/libs/cache/interface.py:135-155 | a key is accepted iff non-empty, at most 250 characters and free of the forbidden characters; empty and too-long keys get their own errors |
| CacheKey.InvalidCharRejected | app/src/libs/cache/interface.py:149-155 | a key holding a forbidden character is rejected |
| MemoryCache.MemoryCacheProvider.Get | app/src/libs/cache/providers/memory.py:76-105 | the result and the new store of a get step, keeping keys distinct and each item under its own key |
| MemoryCache.MemoryCacheProvider.Set | app/src/libs/cache/providers/memory.py:107-138 | the result and the new store of a set step, keeping keys distinct and each item under its own key |
| MemoryCache.MemoryCacheProvider.EvictItems | app/src/libs/cache/providers/memory.py:140-150 | the given number of oldest entries are evicted, bounded by the store size; the store stays well formed |
| MemoryCache.MemoryCacheProvider.Delete | app/src/libs/cache/providers/memory.py:152-165 | the result and the new store of a delete step, keeping keys distinct and each item under its own key |
| MemoryCache.MemoryCacheProvider.Exists | app/src/libs/cache/providers/memory.py:167-185 | the answer and the new store of an exists step, keeping keys distinct and each item under its own key |
| MemoryCache.MemoryCacheProvider.Ttl | app/src/libs/cache/providers/memory.py:209-226 | the remaining time to live, -1 for no expiry, none for a missing or expired key |
| MemoryCache.MemoryCacheProvider.Clear | app/src/libs/cache/providers/memory.py:187-207 | exactly the entries under the prefix matching the pattern are removed; the store stays well formed |
| MemoryCache.MemoryCacheProvider.RemoveExpiredKeys | app/src/libs/cache/providers/memory.py:43-54 | exactly the expired entries are removed; the store stays well formed |
| MemoryCache.MemoryCacheProvider.Close | app/src/libs/cache/providers/memory.py:240-250 | the store is emptied |
| MemoryCache.Kept | app/src/libs/cache/providers/memory.py:187-207 | an entry is kept iff it was stored and clearing does not select its key |
| MemoryCache.Unexpired | app/src/libs/cache/providers/memory.py:43-60 | an entry is kept iff it was stored and has no truthy expiry at or before now |
| MemoryCache.Remaining | app/src/libs/cache/providers/memory.py:218-224 | the remaining seconds are the truncated difference and never negative |
| MemoryCache.OldestIndex | app/src/libs/cache/providers/memory.py:140-150 | the first entry with the earliest creation time |
| MemoryCache.SetWellFormed | app/src/libs/cache/providers/memory.py:107-138 | a set keeps keys distinct and each item under its own key |
| MemoryCache.GetWellFormed | app/src/libs/cache/providers/memory.py:76-105 | a get keeps keys distinct and each item under its own key |
| MemoryCache.DeleteWellFormed | app/src/libs/cache/providers/memory.py:152-165 | a delete keeps keys distinct and each item under its own key |
| MemoryCache.ExistsWellFormed | app/src/libs/cache/providers/memory.py:167-185 | an exists check keeps keys distinct and each item under its own key |
| MemoryCache.KeptWellFormed | app/src/libs/cache/providers/memory.py:187-207 | clearing keeps keys distinct and each item under its own key |
| MemoryCache.UnexpiredWellFormed | app/src/libs/cache/providers/memory.py:43-54 | removing expired keys keeps keys distinct and each item under its own key |
| MemoryCache.SetBounded | app/src/libs/cache/providers/memory.py:107-138 | after a set the store never holds more than max_size entries |
| MemoryCache.SetStores | app/src/libs/cache/providers/memory.py:107-138 | a set of a valid key stores the value under the prefixed key with its ttl and expiry |
| MemoryCache.GetAfterSet | app/src/libs/cache/providers/memory.py:76-138 | a get before expiry returns the value just set, from the cache, and changes nothing |
| MemoryCache.NoExpiryTtl | app/src/libs/cache/providers/memory.py:209-226 | a value set with a non-positive ttl reports -1 |
| MemoryCache.ExpiredIsMissing | app/src/libs/cache/providers/memory.py:56-105 | an expired entry is a miss for get, exists and ttl, and get and exists remove it |
| MemoryCache.DeleteIdempotent | app/src/libs/cache/providers/memory.py:152-165 | after a delete the key is absent and deleting again changes nothing |
| MemoryCache.InvalidKeyChangesNothing | app/src/libs/cache/providers/memory.py:76-226 | an invalid key fails every operation and leaves the store unchanged |
| MemoryCache.EvictOne | app/src/libs/cache/providers/memory.py:140-150 | evicting one entry removes the oldest entry and keeps every other key |
| MemoryCache.EvictWellFormed | app/src/libs/cache/providers/memory.py:140-150 | eviction keeps keys distinct and each item under its own key |
| MemoryCache.GlobLiteralStar | app/src/libs/cache/providers/memory.py:195-200 | a literal pattern followed by '*' matches exactly the names it starts |
| MemoryCache.ClearStarIsClearAll | app/src/libs/cache/providers/memory.py:187-207 | clearing with "*" removes what clearing without a pattern removes |
| Inventory.AvailableBounds | app/src/domain/models/inventory.py:37-64 | under the check constraints, available stock lies within 0..quantity and adds to reserved to give quantity |
| Inventory.AvailableStock | app/src/domain/models/inventory.py:61-64 | available and reserved stock add up to the quantity; under the constraints available lies within 0..quantity |
| Inventory.CanReserve | app/src/domain/models/inventory.py:159-169 | on a valid row, a non-negative amount can be reserved iff reserving it keeps the check constraints |
| Inventory.IsInStock | app/src/domain/models/inventory.py:171-178 | in stock iff one unit can be reserved; then quantity exceeds reserved |
| Inventory.InStockIsOneReservable | app/src/domain/models/inventory.py:159-178 | in stock iff one unit can be reserved |
| Inventory.ReserveKeepsConstraints | app/src/domain/models/inventory.py:159-169 | a reservation that can be made keeps the constraints and lowers availability by its size |
| InventoryService.ItemLookup | app/src/domain/repositories/inventory_repository.py:27-44 | a row found has the item's type and id |
| InventoryService.ItemLookupAsWritten | app/src/domain/repositories/inventory_repository.py:27-44 | as written (matching type OR id): no row iff no row has the type or the id; a row found has the type or the id |
| InventoryService.ItemLookupExact | app/src/domain/repositories/inventory_repository.py:27-44 | on a valid table the lookup never fails and finds a row iff the item has one |
| InventoryService.OrLookupFindsOtherItem | app/src/domain/repositories/inventory_repository.py:27-44 | the written OR lookup returns another item's row |
| InventoryService.InventoryStore.CreateInventory | app/src/domain/services/inventory_service.py:32-48 | the result and new state of a create step; a valid table stays valid |
| InventoryService.InventoryStore.AdjustStock | app/src/domain/services/inventory_service.py:55-104 | the result and new state of an adjust step; a valid table stays valid |
| InventoryService.InventoryStore.AdjustRowAt | app/src/domain/services/inventory_service.py:71-104 | the result and new state of adjusting one existing row; a valid table stays valid |
| InventoryService.InventoryStore.ReserveStock | app/src/domain/services/inventory_service.py:107-133 | the result and new state of a reserve step; a valid table stays valid |
| InventoryService.InventoryStore.ReleaseStock | app/src/domain/services/inventory_service.py:136-160 | the result and new state of a release step; a valid table stays valid |
| InventoryService.CreateKeepsValid | app/src/domain/services/inventory_service.py:32-48 | a create keeps one row per item and the check constraints |
| InventoryService.AdjustKeepsValid | app/src/domain/services/inventory_service.py:55-104 | an adjustment keeps the table valid, on success and on rollback |
| InventoryService.ReserveKeepsValid | app/src/domain/services/inventory_service.py:107-133 | a reservation keeps the table valid |
| InventoryService.ReleaseKeepsValid | app/src/domain/services/inventory_service.py:136-160 | a release keeps the table valid |
| InventoryService.AdjustExisting | app/src/domain/services/inventory_service.py:55-104 | an adjustment succeeds iff the change is non-zero and keeps quantity at least reserved; a success changes the quantity and logs one action of the change's size; a failure rolls back |
| InventoryService.AdjustCreates | app/src/domain/services/inventory_service.py:63-70 | a positive change to an item without inventory creates its row with that quantity and logs it |
| InventoryService.ReserveExisting | app/src/domain/services/inventory_service.py:107-133 | a reservation succeeds iff the row can reserve that amount; a success raises reserved by it, a failure changes nothing |
| InventoryService.ReleaseExisting | app/src/domain/services/inventory_service.py:136-160 | a release succeeds iff reserved stays within 0..quantity; a success lowers reserved, a failure changes nothing |
| InventoryService.ReserveThenRelease | app/src/domain/services/inventory_service.py:107-160 | releasing what was just reserved restores the table |
| InventoryService.CreateTwiceRejected | app/src/domain/services/inventory_service.py:32-48 | creating inventory a second time for the same item is rejected and changes nothing |
| InventoryService.EmptyRowIsCreated | app/src/domain/services/inventory_service.py:63-70 | an item without inventory first gets an empty row |
| QuerySchemas.GetSortFields | app/src/libs/query_engine/schemas.py:143-151 | each entry becomes a field, descending when prefixed by '-' |
| QuerySchemas.SortFields | app/src/libs/query_engine/schemas.py:143-151 | one field per entry, in order, each parsed on its own |
| QuerySchemas.SortFieldsRender | app/src/libs/query_engine/schemas.py:143-151 | rendering each parsed field gives back its entry |
| QuerySchemas.RenderParse | app/src/libs/query_engine/schemas.py:143-151 | rendering a parsed entry gives it back |
| QuerySchemas.ParseRender | app/src/libs/query_engine/schemas.py:143-151 | rendering and parsing a field gives it back iff it is descending or its name does not start with '-' |
| QuerySchemas.MakeOffsetRequest | app/src/libs/query_engine/schemas.py:112-136 | a request is built iff limit, offset and page are within their bounds |
| QuerySchemas.GetOffset | app/src/libs/query_engine/schemas.py:160-164 | the page's first row when a page is given, else the offset |
| QuerySchemas.GetPage | app/src/libs/query_engine/schemas.py:166-170 | the page number is at least 1 |
| QuerySchemas.PageOfPageStart | app/src/libs/query_engine/schemas.py:160-170 | the first row of page p lies on page p |
| QuerySchemas.OffsetWithinPage | app/src/libs/query_engine/schemas.py:160-170 | an offset lies within the page computed for it |
| QuerySchemas.PageRoundTrip | app/src/libs/query_engine/schemas.py:160-170 | page to offset to page gives the page back |
| QuerySchemas.ParseDirection | app/src/libs/query_engine/schemas.py:71-109 | a direction is recognised exactly from its own text |
| QuerySchemas.Member | app/src/libs/query_engine/schemas.py:71-109 | a JSON member is found iff some member has that key, and it is one of the members |
| QuerySchemas.Elements | app/src/libs/query_engine/schemas.py:71-109 | a list gives its elements; null, booleans and numbers give none |
| QuerySchemas.DecodeField | app/src/libs/query_engine/schemas.py:71-109 | only a JSON object decodes to a field |
| QuerySchemas.DecodeCursor | app/src/libs/query_engine/schemas.py:71-109 | only a JSON object decodes to a cursor |
| QuerySchemas.FromBase64 | app/src/libs/query_engine/schemas.py:71-109 | text that does not decode is an invalid cursor |
| QuerySchemas.DecodeFields | app/src/libs/query_engine/schemas.py:71-109 | the fields decode one by one, and one bad field rejects the whole list |
| QuerySchemas.CursorRoundTrip | app/src/libs/query_engine/schemas.py:50-109 | decoding an encoded cursor keeps each field's name and direction, and its value as the decoder classifies it |
| QuerySchemas.FieldsRoundTrip | app/src/libs/query_engine/schemas.py:50-109 | the JSON list of cursor fields decodes back to as many fields, each with its name and direction and its value as the decoder classifies it |
| QuerySchemas.CursorRoundTripExact | app/src/libs/query_engine/schemas.py:50-109 | when the values classify back to themselves, the cursor round-trips exactly |
| QuerySchemas.ScalarFieldsRejected | app/src/libs/query_engine/schemas.py:80-109 | a scalar "fields" member is an invalid cursor |
| QuerySchemas.NonObjectFieldRejected | app/src/libs/query_engine/schemas.py:80-109 | a field that is not an object is an invalid cursor |
| QuerySchemas.FromOffsetResponse | app/src/libs/query_engine/schemas.py:290-311 | the general response carries the page fields and no cursor fields |
| QuerySchemas.FromKeysetResponse | app/src/libs/query_engine/schemas.py:313-334 | the general response carries the cursor fields and no page fields |
| QuerySchemas.DropNone | app/src/libs/query_engine/schemas.py:364-394 | every present value is kept under its key and nothing else is added |
| QuerySchemas.KeysDropNone | app/src/libs/query_engine/schemas.py:364-394 | a key survives iff it had a present value |
| QuerySchemas.ToDictKeys | app/src/libs/query_engine/schemas.py:364-394 | the dictionary holds a key iff its value is present |
| QuerySchemas.OffsetDictKeys | app/src/libs/query_engine/schemas.py:290-394 | an offset response flattens with its page keys and without cursor keys |
| Keyset.BuildWhereClause | app/src/libs/query_engine/providers/keyset.py:12-60 | the loop computes the lexicographic clause: none for an empty cursor, an error for an unknown column |
| Keyset.WhereMeansAfter | app/src/libs/query_engine/providers/keyset.py:12-60 | the clause holds on a row iff the row comes strictly after the cursor in the sort order |
| Keyset.WhereClauseCases | app/src/libs/query_engine/providers/keyset.py:12-60 | no clause iff the cursor has no fields; an error iff some cursor field names no column |
| Keyset.AfterIsSomeLevel | app/src/libs/query_engine/providers/keyset.py:12-60 | coming after the cursor means: equal on the first i fields and strictly beyond on field i, for some i |
| Keyset.ReverseIsFlip | app/src/libs/query_engine/providers/keyset.py:30-45 | reversing is the same as flipping every field's direction |
| Keyset.StrictOp | app/src/libs/query_engine/providers/keyset.py:30-45 | the comparison is '>' exactly for ascending forward or descending reversed, never equality |
| Keyset.BuildOrderClause | app/src/libs/query_engine/providers/keyset.py:62-80 | the loop gives one clause per sort field, flipped when reversed, or an error for an unknown column |
| Keyset.OrderClause | app/src/libs/query_engine/providers/keyset.py:62-80 | an ordering iff every sort field is a column; each field keeps its name and is flipped exactly when reversed |
| Keyset.CursorFromRow | app/src/libs/query_engine/providers/keyset.py:82-90 | a cursor iff the row has every sort field; each cursor field holds the row value and direction |
| Keyset.CreateCursorFromRow | app/src/libs/query_engine/providers/keyset.py:82-90 | the cursor holds the row's value under each sort field, with its direction |
| Keyset.NextPageSkipsCursorRow | app/src/libs/query_engine/providers/keyset.py:12-90 | the row a cursor was made from is not after that cursor |
| Keyset.CursorRowNotAfter | app/src/libs/query_engine/providers/keyset.py:12-60 | a row equal to the cursor on every field is not after it, for an irreflexive order |
| Keyset.UniqueSort | app/src/libs/query_engine/providers/keyset.py:92-109 | "id" is appended, in the first field's direction, when absent and a column |
| Keyset.UniqueSortHasId | app/src/libs/query_engine/providers/keyset.py:92-109 | the original fields stay first, and "id" is among the fields when it is a column |
| Keyset.UniqueSortIdempotent | app/src/libs/query_engine/providers/keyset.py:92-109 | ensuring a unique sort twice changes nothing |
| OffsetPagination.TotalPages | app/src/libs/query_engine/providers/offset.py:40-50 | the page count covers the total exactly, and is 1 without a total |
| OffsetPagination.Window | app/src/libs/query_engine/providers/offset.py:52-56 | OFFSET and LIMIT: at most limit rows starting at the offset |
| OffsetPagination.AppliedOrdering | app/src/libs/query_engine/providers/offset.py:64-73 | only sort fields naming a column are applied, in order |
| OffsetPagination.Paginate | app/src/libs/query_engine/providers/offset.py:15-62 | the items are the window at the request's offset; page and per-page come from the request |
| OffsetPagination.PaginateFlags | app/src/libs/query_engine/providers/offset.py:48-60 | a previous page iff past page 1; a next page iff the count is non-zero and more pages follow |
| OffsetPagination.UnknownTotal | app/src/libs/query_engine/providers/offset.py:40-60 | without a count there is one page and no next page |
| OffsetPagination.HasNextIffMoreRows | app/src/libs/query_engine/providers/offset.py:15-62 | with a count, a next page is reported iff rows remain past this page, and that page is non-empty |
| OffsetPagination.BeforeLastPage | app/src/libs/query_engine/providers/offset.py:40-60 | a page is before the last one iff rows remain after it |
| Selection.ValidateAndGetColumns | app/src/libs/query_engine/providers/selection.py:112-140 | the loop splits the names into invalid names and columns |
| Selection.SelectableFields | app/src/libs/query_engine/providers/selection.py:98-110 | the model's declared selectable list when it has one, else its declared fields |
| Selection.NonBlank | app/src/libs/query_engine/providers/selection.py:50-75 | exactly the non-empty names are kept |
| Selection.Keep | app/src/libs/query_engine/providers/selection.py:50-75 | exactly the requested names that are selectable attributes are kept, and a list of only such names is kept whole |
| Selection.Partition | app/src/libs/query_engine/providers/selection.py:112-140 | every name is either invalid or a column, and nothing is lost |
| Selection.ValidateFields | app/src/libs/query_engine/providers/selection.py:77-96 | no field list is always valid; otherwise valid iff every name is selectable; an error lists the selectable fields and some invalid name |
| Selection.PartitionNoneInvalid | app/src/libs/query_engine/providers/selection.py:112-140 | no invalid name iff every name is valid |
| Selection.SelectedFields | app/src/libs/query_engine/providers/selection.py:50-75 | no field list selects every selectable field |
| Selection.SelectedFieldsFallback | app/src/libs/query_engine/providers/selection.py:50-75 | when no requested name is usable, every selectable field is selected |
| Selection.ValidatedFieldsSelected | app/src/libs/query_engine/providers/selection.py:50-96 | a validated field list is selected as it is |
| Selection.BuildSelectQuery | app/src/libs/query_engine/providers/selection.py:14-48 | fails iff validation fails; otherwise selects the requested columns |
| Selection.DottedFieldInvalid | app/src/libs/query_engine/providers/selection.py:77-96 | a dotted field name is rejected |
| Filters.OperatorNameRoundTrip | app/src/libs/query_engine/providers/filters.py:175-220 | every operator is dispatched on its own name |
| Filters.OperatorNamed | app/src/libs/query_engine/providers/filters.py:175-220 | a name gives an operator only when it is that operator's name |
| Filters.Apply | app/src/libs/query_engine/providers/filters.py:175-220 | every operator gives a test except `between` without a pair of values |
| Filters.ApplyOperator | app/src/libs/query_engine/providers/filters.py:175-220 | a condition for a known operator name, on the given column; none for an unknown name or a `between` without a pair |
| Filters.SimpleCondition | app/src/libs/query_engine/providers/filters.py:139-173 | a plain name must be an attribute; "relation.field" must name a relationship and one of its fields |
| Filters.LogicalCondition | app/src/libs/query_engine/providers/filters.py:108-137 | none iff no field gives a condition; negated when "not" occurs, else OR iff "or" occurs |
| Filters.FieldConditions | app/src/libs/query_engine/providers/filters.py:108-137 | each condition comes from one of the fields, and every field gives one when all are usable |
| Filters.BuildLogicalCondition | app/src/libs/query_engine/providers/filters.py:108-137 | the loop collects the fields' conditions and combines them |
| Filters.ScanParts | app/src/libs/query_engine/providers/filters.py:60-90 | the scanning loop stops at the first operator token |
| Filters.SplitKey | app/src/libs/query_engine/providers/filters.py:44-106 | a key splits on "__" into at least one part, and into two or more iff it holds the separator |
| Filters.Scan | app/src/libs/query_engine/providers/filters.py:44-106 | an operator found is a token of the vocabulary, and scanning n parts gives at most n fields |
| Filters.ScanStops | app/src/libs/query_engine/providers/filters.py:44-106 | once an operator is found, scanning further parts changes nothing |
| Filters.ParseFilterCondition | app/src/libs/query_engine/providers/filters.py:44-106 | the parse of a key with the corrected token vocabulary |
| Filters.ParseAsWritten | app/src/libs/query_engine/providers/filters.py:44-48 | as written, a key without "__" is an equality test on that column |
| Filters.PartsAsWritten | app/src/libs/query_engine/providers/filters.py:92-104 | as written, parts with no logical token are the operator (the last part) applied to the rest joined with "__" |
| Filters.Parse | app/src/libs/query_engine/providers/filters.py:44-48 | the corrected parser treats a key without "__" as the written one does |
| Filters.ParseFieldOperator | app/src/libs/query_engine/providers/filters.py:44-106 | "field__op" applies the operator to the field |
| Filters.ParseLogical | app/src/libs/query_engine/providers/filters.py:44-137 | "f1__or__f2__op" combines both fields under the operator |
| Filters.ParseNegated | app/src/libs/query_engine/providers/filters.py:44-137 | "field__not__op" is the negated comparison |
| Filters.TokensAreOperators | app/src/libs/query_engine/providers/filters.py:44-106 | every token the corrected parser accepts names an operator |
| Filters.OperatorsAreTokens | app/src/libs/query_engine/providers/filters.py:175-220 | every operator can be written in a key |
| Filters.ParserTokenUnknown | app/src/libs/query_engine/providers/filters.py:44-220 | the written parser accepts "ge", which names no operator |
| Filters.AsWrittenAliasDropped | app/src/libs/query_engine/providers/filters.py:44-106 | as written, "field__le", "__ge" and "__notin" give no condition, where the corrected parser gives one |
| Filters.AsWrittenNegationDropped | app/src/libs/query_engine/providers/filters.py:44-106 | as written, a negated key gives no condition |
| Filters.AsWrittenLogicalDropped | app/src/libs/query_engine/providers/filters.py:44-106 | as written, a logical key whose operator only the operator table knows gives no condition |
| Filters.FilterCondition | app/src/libs/query_engine/providers/filters.py:12-42 | no condition iff no filter parses; a single condition as it is; several combined with AND |
| Filters.BuildFilterConditions | app/src/libs/query_engine/providers/filters.py:12-42 | the loop over the filters in order computes that condition |
| Filters.RequiredJoinsMeaning | app/src/libs/query_engine/providers/filters.py:222-244 | exactly the relationships some dotted key refers to are joined, all of them attributes |
| Filters.GetRequiredJoins | app/src/libs/query_engine/providers/filters.py:222-244 | the nested loops compute that set |
| Filters.DottedFilterColumn | app/src/libs/query_engine/providers/filters.py:139-173 | a filter on "relation.name" applies to the related column |
| Filters.DottedFilterJoined | app/src/libs/query_engine/providers/filters.py:222-244 | a filter on "relation.name" joins the relation |
| QueryService.KeysetPage | app/src/libs/query_engine/service.py:137-216 | at most limit items; a next cursor iff there is a next page and items; a previous cursor likewise; a count iff requested |
| QueryService.ForwardPage | app/src/libs/query_engine/service.py:183-188 | forward: a next page iff more than limit rows follow; a previous page iff a cursor was sent |
| QueryService.BackwardPage | app/src/libs/query_engine/service.py:175-182 | backward: always a next page; a previous page iff more than limit rows precede |
| QueryService.UndecodableCursorIgnored | app/src/libs/query_engine/service.py:152-160 | a cursor that does not decode is ignored and the first page is served |
| QueryService.ForwardPageAfterCursor | app/src/libs/query_engine/service.py:152-188 | a forward page after a cursor holds only rows after that cursor |
| QueryService.DirectedRoundTrip | app/src/libs/query_engine/schemas.py:40-109 | a cursor with its direction flag decodes to the same flag and field names and directions |
| QueryService.AttachCursors | app/src/libs/query_engine/service.py:190-207 | cursors come from the last row (next) and the first row (previous) |
| QueryService.SelectRows | app/src/libs/query_engine/service.py:150-160 | the rows the cursor's WHERE clause keeps |
| QueryService.PaginateKeyset | app/src/libs/query_engine/service.py:137-216 | the keyset page, with the request's limit capped at 20 afterwards |
| QueryService.ServedLimitOf | app/src/libs/query_engine/service.py:214 | the limit is capped at 20 |
| QueryService.OffsetPage | app/src/libs/query_engine/service.py:218-238 | per-page is the capped limit and never more than 20 items |
| QueryService.PaginateOffset | app/src/libs/query_engine/service.py:218-238 | the offset page with the request's limit capped first |
| QueryService.OffsetPageStart | app/src/libs/query_engine/service.py:218-238 | a page starts at (page - 1) times the capped limit |
| QueryService.Paginate | app/src/libs/query_engine/service.py:112-135 | an invalid field list is an error; otherwise the response has the requested pagination type |
| QueryService.OffsetResponseKeys | app/src/libs/query_engine/service.py:112-135 | an offset response flattens with page keys and no cursor keys |
| QueryService.AssembleAsWritten | app/src/libs/query_engine/service.py:190-207 | as written, a page that has a previous page and items always fails; otherwise it keeps its items and flags, with a next cursor iff there is a next page and items |
| QueryService.KeysetAsWritten | app/src/libs/query_engine/service.py:137-216 | as written, a cursor that decodes raises AttributeError; a page never holds more than limit items, and none when a cursor was sent |
| QueryService.AsWrittenCursorFails | app/src/libs/query_engine/service.py:152-176 | as written, any request that sends a cursor fails once rows exist |
| QueryService.AsWrittenDecodedCursorFails | app/src/libs/query_engine/service.py:152-160 | as written, a cursor that decodes raises AttributeError |
| QueryService.AsWrittenNextPageFails | app/src/libs/query_engine/service.py:137-216 | as written, sending back the next cursor of a first page raises AttributeError |
| QueryService.DecodeDirected | app/src/libs/query_engine/service.py:152-160 | a cursor with its direction decodes to what the plain decoder gives, and fails when that fails |
| QueryService.Assemble | app/src/libs/query_engine/service.py:190-216 | the page keeps its items and flags; a next cursor iff a next page and items; a previous cursor likewise; an error iff a needed cursor cannot be built |
| QueryService.KeysetPageSteps | app/src/libs/query_engine/service.py:137-216 | the page is built from limit + 1 selected rows, trimmed; the flags swap roles for a backward cursor |
| BaseRepository.Known | app/src/domain/repositories/base_repository.py:86-90 | only keywords that name a column are kept |
| BaseRepository.OneOrNone | app/src/domain/repositories/base_repository.py:94-97 | no row, the one row, or an error for two or more |
| BaseRepository.Merge | app/src/domain/repositories/base_repository.py:208-212 | the supplied fields override and every other column keeps its value |
| BaseRepository.MatchIndices | app/src/domain/repositories/base_repository.py:82-119 | exactly the indices of the rows that match, in increasing order |
| BaseRepository.Lookup | app/src/domain/repositories/base_repository.py:121-143 | a row with that key, and none iff no row has it |
| BaseRepository.Replace | app/src/domain/repositories/base_repository.py:194-220 | updating keeps the number of rows |
| BaseRepository.Without | app/src/domain/repositories/base_repository.py:222-240 | exactly the rows without that key remain |
| BaseRepository.Repository.FindOneByAnd | app/src/domain/repositories/base_repository.py:82-97 | the one row matching every known keyword; none iff no row matches |
| BaseRepository.Repository.FindOneByOr | app/src/domain/repositories/base_repository.py:99-119 | none without known keywords; otherwise the one row matching some keyword |
| BaseRepository.OrFindsOnly | app/src/domain/repositories/base_repository.py:99-119 | when some keyword names a column and exactly one row matches some keyword, the OR lookup returns that row |
| BaseRepository.Repository.FindOneBy | app/src/domain/repositories/base_repository.py:121-143 | a falsy id finds nothing; otherwise the row with that key |
| BaseRepository.Repository.Exists | app/src/domain/repositories/base_repository.py:242-254 | true iff some row has that key |
| BaseRepository.Repository.Update | app/src/domain/repositories/base_repository.py:194-220 | a missing row gives none; no fields change nothing; otherwise the row is merged, or a unique clash is an error, and the table stays valid |
| BaseRepository.Repository.Delete | app/src/domain/repositories/base_repository.py:222-240 | true iff the key existed; afterwards it does not, and only that row is gone |
| BaseRepository.Repository.Create | app/src/domain/repositories/base_repository.py:169-192 | the new row is appended, or a key or unique clash is an error and nothing changes |
| BaseRepository.Repository.NewRow | app/src/domain/repositories/base_repository.py:169-180 | the new row has every column: supplied values, then defaults, then the new key |
| BaseRepository.Repository.Position | app/src/domain/repositories/base_repository.py:194-240 | the position of the row with that key, and none iff no row has it |
| BaseRepository.Repository.UpdateKeepsValid | app/src/domain/repositories/base_repository.py:194-220 | an update without a unique clash keeps the columns, distinct keys and unique columns |
| BaseRepository.Repository.RemoveKeepsValid | app/src/domain/repositories/base_repository.py:222-240 | removing a row keeps the table valid |
| BaseRepository.Repository.CreateKeepsValid | app/src/domain/repositories/base_repository.py:169-192 | appending a full row with a new key and no unique collision keeps the table valid |
| BaseRepository.UnknownKeywordsIgnored | app/src/domain/repositories/base_repository.py:82-119 | keywords naming no column do not change either lookup |
| BaseRepository.AndLookupFails | app/src/domain/repositories/base_repository.py:82-97 | the AND lookup fails iff two rows match every known keyword |
| BaseRepository.OrLookupFails | app/src/domain/repositories/base_repository.py:99-119 | the OR lookup fails iff some keyword names a column and two rows each match some keyword |
| BaseRepository.KeyLookup | app/src/domain/repositories/base_repository.py:82-143 | on a valid table the keyword lookup of a key never fails and agrees with find_one_by |
| BaseRepository.LookupAt | app/src/domain/repositories/base_repository.py:121-143 | with distinct keys the lookup finds the row at its position |
| BaseRepository.RemoveAt | app/src/domain/repositories/base_repository.py:222-240 | with distinct keys, deleting removes exactly the row at that position |
| TokenRepository.TokenRepository.FindByToken | app/src/domain/repositories/token_repository.py:22-32 | never fails; finds the one row with that token iff there is one |
| TokenRepository.CreateValues | app/src/domain/repositories/token_repository.py:64-79 | a new token row is given only its token |
| TokenRepository.CountToken | app/src/domain/repositories/token_repository.py:22-32 | no row holds the token iff the count is zero |
| TokenRepository.TokenRepository.RevokeToken | app/src/domain/repositories/token_repository.py:47-62 | false and no change for an unknown token; otherwise the token's row is revoked |
| TokenRepository.RevokeNoClash | app/src/domain/repositories/token_repository.py:47-62 | revoking a row never clashes with a unique column |
| TokenRepository.RevokedRowKept | app/src/domain/repositories/token_repository.py:47-62 | the revoked row keeps its token and is marked revoked |
| TokenRepository.TokenRepository.CreateIfNotExists | app/src/domain/repositories/token_repository.py:64-79 | an existing token's row is returned unchanged; otherwise it is created; afterwards the token appears once |
| TokenRepository.TokenRepository.CreateNew | app/src/domain/repositories/token_repository.py:79 | a token held by no row is created: a taken key fails and changes nothing, otherwise its row is appended and the token then appears exactly once |
| TokenRepository.TokenRepository.CreateOne | app/src/domain/repositories/token_repository.py:64-79 | the table keeps its rows and only grows; a success holds the token and is in the table |
| TokenRepository.NewTokenNoCollision | app/src/domain/repositories/token_repository.py:64-79 | a row with a token no row holds collides with no unique column |
| TokenRepository.TokenRepository.BulkCreateIfNotExists | app/src/domain/repositories/token_repository.py:81-95 | one row per token, in order, each present once; the table only grows |
| TokenRepository.AllOnce | app/src/domain/repositories/token_repository.py:81-95 | with distinct tokens, every token found in the table appears once |
| TokenRepository.CountOne | app/src/domain/repositories/token_repository.py:22-32 | with distinct tokens, a present token is present once |
| TokenService.NewRowUsable | app/src/domain/services/token_service.py:19-41 | a new token row is neither revoked nor deleted |
| TokenService.TokenService.GetToken | app/src/domain/services/token_service.py:43-57 | the token's row, or none when missing or when the database raises |
| TokenService.TokenService.IsTokenValid | app/src/domain/services/token_service.py:82-103 | true iff the database answers and the token exists, unrevoked and undeleted |
| TokenService.TokenService.RevokeToken | app/src/domain/services/token_service.py:59-80 | a database error is a 500 that changes nothing; otherwise the repository's answer: false and no change for a missing token, else true iff the row's key is truthy, with only that row marked revoked; a revoke leaves the token invalid |
| TokenService.TokenService.RevokedNotValid | app/src/domain/services/token_service.py:82-103 | a token whose row is marked revoked is not valid |
| TokenService.TokenService.CreateToken | app/src/domain/services/token_service.py:19-41 | succeeds iff the database answers and the token exists or the new key is free; an existing token's row is returned with no change; a new token's row is appended, holds the token once and is valid; a 500 changes nothing |
| AddressRepository.EntityAddresses | app/src/domain/repositories/address_repository.py:38-62 | exactly the entity's addresses |
| AddressRepository.ClearedDefaults | app/src/domain/repositories/address_repository.py:93-109 | every default of the entity is cleared and every other row kept |
| AddressRepository.WithOwner | app/src/domain/repositories/address_repository.py:111-141 | the data is owned by the entity and keeps every other column |
| AddressRepository.AddressRepository.ClearDefaultAddressesForEntity | app/src/domain/repositories/address_repository.py:93-109 | the loop clears exactly the entity's defaults |
| AddressRepository.AddressRepository.ClearOne | app/src/domain/repositories/address_repository.py:105-106 | clearing one default address of the entity extends the set of cleared rows by that address and nothing else |
| AddressRepository.AddressRepository.CreateAddressForEntityAsWritten | app/src/domain/repositories/address_repository.py:111-141 | always a TypeError, after the defaults were already cleared |
| AddressRepository.AddressRepository.CreateAddressForEntity | app/src/domain/repositories/address_repository.py:111-141 | the address is created for the entity and one default per entity is kept |
| AddressRepository.AddressRepository.CreateOwned | app/src/domain/repositories/address_repository.py:132-138 | a taken key fails and leaves the table; otherwise the new row is appended, owned by the entity, with the key given, and default iff the data asks for it |
| AddressRepository.AddressRepository.UpdateAddressForEntityAsWritten | app/src/domain/repositories/address_repository.py:143-178 | a failed lookup is a database error and finding nothing returns none, changing nothing; when the OR lookup finds any row, the entity's defaults are cleared for a default and the row keyed by the given id is updated, and the result is what update returns on the cleared rows: none for a falsy or unknown id, else that row merged with the data |
| AddressRepository.AddressRepository.UpdateAddressForEntity | app/src/domain/repositories/address_repository.py:143-178 | only the entity's own address is updated; one default per entity is kept |
| AddressRepository.AddressRepository.ApplyUpdate | app/src/domain/repositories/address_repository.py:172-176 | the table becomes the update of the row with that key; the result is none for a falsy or unknown key, the row itself for empty data, otherwise the row merged with the data |
| AddressRepository.AddressRepository.DeleteAddressForEntityAsWritten | app/src/domain/repositories/address_repository.py:180-212 | deletes whatever row the OR lookup finds |
| AddressRepository.AddressRepository.DeleteAddressForEntity | app/src/domain/repositories/address_repository.py:180-212 | true iff the entity owns that key; only that row is deleted and other entities' addresses stay |
| AddressRepository.OwnLookup | app/src/domain/repositories/address_repository.py:163-170 | the AND lookup of key and owner never fails and finds exactly the entity's own row |
| AddressRepository.AppendSingle | app/src/domain/repositories/address_repository.py:125-139 | appending an address after clearing the entity's defaults keeps one default per entity |
| AddressRepository.UpdateSingle | app/src/domain/repositories/address_repository.py:172-176 | updating an owned address after clearing keeps one default per entity |
| AddressRepository.DeleteOwn | app/src/domain/repositories/address_repository.py:207-210 | deleting an owned address keeps every other entity's addresses |
| AddressRepository.AsWrittenUpdateFindsForeign | app/src/domain/repositories/address_repository.py:163-170 | the OR lookup finds another entity's address |
| AddressRepository.AsWrittenUpdateBreaksSingleDefault | app/src/domain/repositories/address_repository.py:143-178 | that update gives an entity two defaults |
| AddressRepository.AsWrittenDeleteRemovesForeign | app/src/domain/repositories/address_repository.py:180-212 | that delete removes another entity's address |
| AccountTypeInfoPermission.ActiveEarlier | app/src/domain/models/account_type_info_permission.py:79-88 | active now means active at every earlier instant |
| AccountTypeInfoPermission.IsActive | app/src/domain/models/account_type_info_permission.py:79-88 | without expiry always active; with one, active iff now is before it |
| AccountTypeInfoPermission.IsGrantedAndActive | app/src/domain/models/account_type_info_permission.py:90-97 | never for a denied grant; a granted one iff it is active |
| AccountTypeInfo.ActiveGrants | app/src/domain/models/account_type_info.py:230-242 | exactly the granted and active grants |
| AccountTypeInfo.Scopes | app/src/domain/models/account_type_info.py:244-262 | a scope is listed iff some grant carries it |
| AccountTypeInfo.FirstEligible | app/src/domain/models/account_type_info.py:264-289 | the first banking info that is eligible, or the end |
| AccountTypeInfo.AccountTypeInfo.Attributes | app/src/domain/models/account_type_info.py:147-207 | the stored attribute map, or an empty one |
| AccountTypeInfo.AccountTypeInfo.GetAttribute | app/src/domain/models/account_type_info.py:147-158 | the stored value, else the default; an error when the map is missing |
| AccountTypeInfo.AccountTypeInfo.SetAttribute | app/src/domain/models/account_type_info.py:160-170 | the key then reads back as the value, and every other key is kept |
| AccountTypeInfo.AccountTypeInfo.RemoveAttribute | app/src/domain/models/account_type_info.py:172-184 | returns the stored value or none; the key is absent afterwards |
| AccountTypeInfo.AccountTypeInfo.HasAttribute | app/src/domain/models/account_type_info.py:186-196 | false without an attribute map; otherwise true iff the key is in it |
| AccountTypeInfo.AccountTypeInfo.UpdateAttributes | app/src/domain/models/account_type_info.py:198-207 | the given keys take the given values and every other key keeps its own |
| AccountTypeInfo.AccountTypeInfo.HasPermission | app/src/domain/models/account_type_info.py:209-228 | true iff some grant gives the scope on that resource and is granted and active |
| AccountTypeInfo.AccountTypeInfo.GetPermissions | app/src/domain/models/account_type_info.py:230-242 | all grants, or exactly the granted and active ones |
| AccountTypeInfo.AccountTypeInfo.GetPermissionScopes | app/src/domain/models/account_type_info.py:244-262 | the scopes of those grants, in order |
| AccountTypeInfo.AccountTypeInfo.GetBankingInfo | app/src/domain/models/account_type_info.py:264-277 | the first banking info, or the first active one |
| AccountTypeInfo.AccountTypeInfo.HasBankingInfo | app/src/domain/models/account_type_info.py:279-289 | true iff some banking info is eligible |
| AccountTypeInfo.ActiveScopes | app/src/domain/models/account_type_info.py:230-262 | the active-only scopes are exactly the scopes of granted, active grants |
| AccountTypeInfo.PermittedScopeListed | app/src/domain/models/account_type_info.py:209-262 | whatever has_permission accepts is listed by the active-only scopes |
| Account.Account.GetAccountTypeInfos | app/src/domain/models/account.py:294-307 | the first type info of that account type, or none |
| Account.FirstOfType | app/src/domain/models/account.py:294-307 | the first type info of that account type, or the end |
| Account.Account.HasAccountType | app/src/domain/models/account.py:309-319 | true iff some type info has that account type |
| Account.Account.GetPermissionsForAccountType | app/src/domain/models/account.py:267-280 | the active scopes of the first type info of that type, or none |
| Account.Account.SetDisplayName | app/src/domain/models/account.py:189-196 | without a space an error and no change; otherwise first and last name rejoin to the value, split at the first space |
| Account.DisplayNameSplitUnique | app/src/domain/models/account.py:189-196 | that split is the only one |
| Account.ReenumerationMeansPrevented | app/src/domain/models/account.py:223-242 | too many failed attempts are reported exactly for a locked account at or over the limit, which cannot log in |
| Account.SuspensionNeedsBoth | app/src/domain/models/account.py:217-221 | neither the flag nor the instant alone suspends; both together do |
| Account.LoginAllowed | app/src/domain/models/account.py:217-233 | only an active, verified, unlocked, unsuspended account is not prevented from logging in |
| Account.Account.CheckSuspended | app/src/domain/models/account.py:217-221 | suspended iff both the flag and the suspension instant are set |
| Account.Account.IsLocked | app/src/domain/models/account.py:223-227 | locked iff a lock instant is set |
| Account.Account.IsEligibleForLogin | app/src/domain/models/account.py:229-233 | not prevented iff active, verified, unlocked and not suspended |
| Account.Account.CheckReenumerationAttempts | app/src/domain/models/account.py:235-242 | reported iff the account is locked and at or over the attempt limit; a reported account is prevented from logging in |
| BankingInfo.Mask | app/src/domain/models/banking_info.py:156-178 | the mask has the plaintext's length, all stars but the last four characters of a longer value |
| BankingInfo.Stars | app/src/domain/models/banking_info.py:157-166 | n characters, all stars |
| BankingInfo.MaskHidesTheRest | app/src/domain/models/banking_info.py:156-178 | the mask depends only on the length and the last four characters |
| BankingInfo.MaskKeepsSuffix | app/src/domain/models/banking_info.py:156-165 | the last four characters of a longer value are shown |
| BankingInfo.BankingInfo.CreateWithEncryption | app/src/domain/models/banking_info.py:180-218 | the account number is stored encrypted, and the routing number only when non-empty |
| BankingInfo.BankingInfo.DecryptRoutingNumber | app/src/domain/models/banking_info.py:149-154 | none when nothing is stored; otherwise exactly the decrypted value, or the cipher error when decryption fails |
| BankingInfo.BankingInfo.MaskedAccountNumber | app/src/domain/models/banking_info.py:156-165 | the mask of the decrypted number, or four stars when decryption fails |
| BankingInfo.BankingInfo.MaskedRoutingNumber | app/src/domain/models/banking_info.py:167-178 | "N/A" without a routing number, four stars on failure, else the mask |
| BankingInfo.BankingInfo.UpdateAccountNumber | app/src/domain/models/banking_info.py:220-222 | the new number is stored encrypted and masks back when decryption inverts the cipher |
| BankingInfo.BankingInfo.UpdateRoutingNumber | app/src/domain/models/banking_info.py:224-231 | none clears it, to "N/A"; a value is stored encrypted |
| BankingInfo.MaskedShowsAtMostFour | app/src/domain/models/banking_info.py:156-165 | a shown number never reveals more than its last four characters, whatever the cipher |
| OrderItem.OrderItem.CalculateTotal | app/src/domain/models/order_item.py:58-67 | subtotal, discount, tax and total as the percentages define them, equal to the closed form; the inputs are kept |
| OrderItem.TotalClosedForm | app/src/domain/models/order_item.py:58-67 | the four steps compose to price times quantity times (1 - discount) times (1 + tax) |
| OrderItem.ZeroRatesTotalIsSubtotal | app/src/domain/models/order_item.py:58-67 | with no discount and no tax the total is the subtotal |
| OrderItem.TotalBounds | app/src/domain/models/order_item.py:58-67 | for sensible inputs the total is non-negative and at most the taxed subtotal |
| OrderItem.DiscountLowersTotal | app/src/domain/models/order_item.py:58-67 | a larger discount never gives a larger total |
| Transaction.Transaction.constructor | app/src/core/database/transaction.py:24-27 | a new transaction is bound to its context, not yet entered and not outermost |
| Transaction.Transaction.Enter | app/src/core/database/transaction.py:29-39 | outermost exactly at level 0; the level rises by one and the old level is kept |
| Transaction.Transaction.Exit | app/src/core/database/transaction.py:41-60 | only the outermost commits or rolls back; an exception is never suppressed; the level returns to its entry value even when the session raises |
| Transaction.InTransaction | app/src/core/database/transaction.py:63-65 | false iff the context level is 0 |
| StorageUtils.RPartition | app/src/libs/storage/utils.py:45 | the text before the last separator, the separator and the rest; ("", "", s) without one |
| StorageUtils.LastIndexOf | app/src/libs/storage/utils.py:45 | the last occurrence of the character, none after it, or the end when absent |
| StorageUtils.GenerateFileKeyAsWritten | app/src/libs/storage/utils.py:28-49 | as written, the key starts with the attachable type and a slash |
| StorageUtils.GenerateFileKey | app/src/libs/storage/utils.py:28-49 | a dotless name keeps its whole name as stem and has no extension; otherwise as written |
| StorageUtils.FileKeyKeepsExtension | app/src/libs/storage/utils.py:28-49 | a name with an extension gives a key ending in that extension |
| StorageUtils.AsWrittenDotlessName | app/src/libs/storage/utils.py:45-49 | as written, any non-empty name without a dot (such as "README") becomes the extension after an empty stem, while the intended key keeps it as the stem before the digest |
| StorageUtils.GetFileInfo | app/src/libs/storage/utils.py:52-73 | the guessed type or octet-stream; the lower-cased text after the last '.', only when there is one; the size |
| StorageUtils.LastPart | app/src/libs/storage/utils.py:52-73 | the text after the last '.', holding no '.' |
| StorageUtils.SplitLast | app/src/libs/storage/utils.py:52-73 | the last part of a split is the text after the last separator, or the whole text |
| StorageUtils.ExtensionAfterDot | app/src/libs/storage/utils.py:52-73 | the extension is the lower-cased text after some '.' of the name |
| StorageUtils.IsImage | app/src/libs/storage/utils.py:76-86 | true iff the type is "image/" followed by anything |
| StorageUtils.GenerateThumbnail | app/src/libs/storage/utils.py:89-113 | none for a non-image; otherwise what rendering gives |
| StorageUtils.GeneratePreview | app/src/libs/storage/utils.py:116-140 | the same steps at the preview size; only images give a preview |
| StorageUtils.ThumbnailOnlyForImages | app/src/libs/storage/utils.py:76-113 | a thumbnail only ever comes from an image type |
| LoggingFilters.BaseContextFilter | app/src/core/logging/filters.py:23-34 | every record passes |
| LoggingFilters.NewNoiseReduction | app/src/core/logging/filters.py:136-161 | a missing or empty pattern list brings in the defaults; a missing logger list means none |
| LoggingFilters.NoiseFilter | app/src/core/logging/filters.py:163-187 | a record is dropped iff a non-zero minimum level exceeds its level, its logger is suppressed, or its message contains a pattern |
| LoggingFilters.FirstMatch | app/src/core/logging/filters.py:163-187 | the first pattern the message contains, none before it |
| LoggingFilters.DefaultDropsHealthChecks | app/src/core/logging/filters.py:136-187 | with default patterns, a health-check message is dropped |
| LoggingFilters.EmptyPatternsMeanDefaults | app/src/core/logging/filters.py:136-161 | an empty pattern list still drops "heartbeat" |
| LoggingFilters.RequestIdAddContext | app/src/core/logging/filters.py:199-216 | the record gets the context's request id, which is created from the new id when absent |
| LoggingFilters.RequestIdFilter | app/src/core/logging/filters.py:199-216 | every record passes, carrying the context's request id |
| Settings.ParseCors | app/src/core/settings/base.py:15-22 | a list is kept; a text starting with "[" becomes a one-element list; other text is split on ',' and stripped; anything else is an error |
| Settings.CorsRoundTrip | app/src/core/settings/base.py:15-22 | clean origins joined with ',' parse back to themselves |
| Settings.JoinSplit | app/src/core/settings/base.py:15-22 | parts holding no separator, joined and split, come back unchanged |
| Settings.ParseStringSeparatedList | app/src/core/settings/base.py:25-34 | brackets are removed and the text is split on ','; the parts hold no bracket or comma and rejoin to the cleaned text |
| Settings.RemoveAppend | app/src/core/settings/base.py:25-34 | removing a character from joined texts removes it from each part separately |
| Settings.BracketsIgnored | app/src/core/settings/base.py:25-34 | a list written in brackets and the same list written bare parse alike, for any text holding no bracket |
| Settings.CheckDefaultSecret | app/src/core/settings/base.py:222-230 | silent unless the value is "changethis", which warns outside production and raises in production |
| Settings.EnforceNonDefaultSecrets | app/src/core/settings/base.py:232-238 | in production an error iff some secret is the placeholder; elsewhere one warning per placeholder |
| Settings.Enforce | app/src/core/settings/base.py:232-239 | in production an error iff some value is the placeholder; elsewhere one warning per placeholder |
| Settings.ServerPort | app/src/core/settings/base.py:101-106 | 443 in production, 80 in staging, the integer value of PORT locally, an error when it is not an integer |
| Settings.ParseInt | app/src/core/settings/base.py:101-106 | accepts exactly an optionally signed ASCII integer with surrounding whitespace |
| Settings.ServerUrl | app/src/core/settings/base.py:89-94 | plain HTTP with the port locally, HTTPS on the bare domain elsewhere |

## Left out

- **Request helpers:**
  - `get_user_agent` and `get_request_info` (`app/src/core/helpers/request.py:159-188`) only read FastAPI request attributes.
  - Request.SortByKey: sorting is proved to give a sorted permutation, but not to be stable.
  - `app/src/core/helpers/request.py:7` imports `ClientPlatform` and `ClientType`, which `app/src/core/enums.py` does not define; it defines only `Platform` (line 4) and `AppName` (line 19). As written, the module fails at import. Request.FromFields, ClientInfo.ParsePlatform and ClientInfo.ParseApp parse the header against `Platform` and `AppName`, the enums `BloomClientInfo` uses, in place of the missing ones.
- **Friendly ids:**
  - A `bool` id is not modelled. `to_friendly_id` encodes it as the integer 0 or 1, but `to_slug` would render it as "True" or "False".
- **Password and text handling:**
  - Password.Validate: the branch for a non-string value cannot be reached from a typed string and is not modelled.
  - Character classes and `strip`, `lower` and `isdigit` are ASCII-only. Unicode case mapping and Unicode digits are not modelled.
- **Memory cache:**
  - `health_check`, `get_stats`, the re-entrant lock and the background cleanup task. Concurrency is not modelled.
  - `fnmatch` character classes are not modelled; only `*` and `?` are.
- **Opaque inputs.** JSON, base64, MD5, UTF-8, Fernet, uuid4 and the clock are parameters. Fernet encryption is randomized, so it is modelled as deterministic encrypt and decrypt functions.
- **Query engine:**
  - SQL composition and execution are not modelled. The database's ordering is an input comparison and a row list already in sort order.
  - Joins and `include` loading are not modelled.
  - The total-count query is not modelled.
  - Floating-point filter values are not modelled; filter values are text or lists of text.
  - Floating-point cursor values are not modelled: the cursor JSON document holds integers, text, booleans, null, lists and objects only, so a float that `json.loads` returns from a cursor has no counterpart.
  - Filters.GetRequiredJoins returns a set; the order of `list(set(...))` is unspecified.
  - Relationship paths written with "__" are not modelled.
  - QueryService.PaginateKeyset: the limit of 20 is applied after the query, as in the source. The page itself uses the request's original limit.
- **Repositories:**
  - `sqlmodel_update` is a map merge, and `find_one_by` with query-engine parameters is not modelled.
  - Commit, flush, refresh and rollback are not modelled, nor the `save_friendly_fields` hooks that `create` triggers.
  - BaseRepository.Repository.Update: requires the fields to be model columns other than `id`.
  - BaseRepository.Repository.Create: requires the same of its values.
  - TokenService.TokenService.CreateToken: a database error is modelled as raised before any write.
  - TokenService.TokenService.RevokeToken: the same.
  - AddressRepository.EntityAddresses: the ORDER BY of `get_addresses_for_entity` is not modelled; table order is kept.
  - Address keys are GUIDs and so never falsy.
  - The address counterexample rows carry only the four columns the lookups read.
- **Account and permission models:**
  - `Account.has_permission`, `get_all_permissions`, `get_account_types` and `get_active_account_types` are not modelled. They compare enum members with rows through an equality defined outside these files.
  - The `display_name` getter and `check_password`, which calls bcrypt, are not modelled.
- **Banking and orders:**
  - `to_safe_dict` is not modelled.
  - OrderItem.OrderItem.CalculateTotal: uses exact reals. The 28-digit Decimal context and NUMERIC(12,2) rounding are not modelled.
- **Logging:**
  - Per-task copies of ContextVar values, reusing a reset token, and `logger.debug` are not modelled.
  - GlobalContextFilter, DynamicContextFilter, CombinedContextFilter and the `add_to_log_context`, `get_log_context` and `clear_log_context` helpers are not modelled.
- **Storage:**
  - `calculate_checksum` and the unused `ALLOWED_MIME_TYPES` are not modelled.
  - The MD5 digest, base64 id and timestamp of a file key are inputs.
- **Settings:**
  - Settings.ParseInt: `int()` with underscores or non-ASCII digits is not modelled.
  - The e-mail, file-storage and mailer validators are not modelled.
- **Inconsistencies modelled as written:**
  - `is_friendly_id` rejects the "s" prefix that `to_friendly_id` produces (Request.StrFriendlyIdRejected).
  - A base64 id holding '/' makes a GUID undecodable (Guid.SlashInIdRejected).

## Findings

| source | as written | input that shows it | evidently intended | confidence | as-written member | corrected member |
|---|---|---|---|---|---|---|
| app/src/domain/repositories/address_repository.py:163-170,198-205 | update and delete look the address up with `find_one_by_or_none`, an OR over key, type and owner | rows d (Account e2, default) and b (Account e2); update b for Order e1 with is_default | only the entity's own address with that key is found | high, not executed | AddressRepository.AddressRepository.UpdateAddressForEntityAsWritten, AddressRepository.AsWrittenUpdateFindsForeign, AddressRepository.AsWrittenUpdateBreaksSingleDefault, AddressRepository.AsWrittenDeleteRemovesForeign | AddressRepository.AddressRepository.UpdateAddressForEntity, AddressRepository.AddressRepository.DeleteAddressForEntity |
| app/src/libs/query_engine/providers/filters.py:44-106,175-220 | the parser's tokens are le, ge and notin, and it lacks lte, gte, not_in and between; `_apply_operator` knows only the latter | "price__ge", "name__not__eq", "a__or__b__gte" | every operator name, or an alias mapped to one, yields its condition | high, not executed | Filters.ParseAsWritten, Filters.AsWrittenAliasDropped, Filters.AsWrittenNegationDropped, Filters.AsWrittenLogicalDropped | Filters.Parse, Filters.ParseFilterCondition |
| app/src/libs/query_engine/service.py:156,176,206 with app/src/libs/query_engine/schemas.py:40-48 | the service reads and sets `cursor.is_previous`, but the cursor model has no such field | any request with a cursor, once a page has a row | the cursor carries its direction | high, not executed | QueryService.AssembleAsWritten, QueryService.AsWrittenCursorFails, QueryService.AsWrittenDecodedCursorFails, QueryService.AsWrittenNextPageFails | QueryService.KeysetPage, QueryService.PaginateKeyset |
| app/src/domain/repositories/address_repository.py:131-135 | `addressable_type` and `addressable_id` are passed both by keyword and inside `model_dump()` | any create | the entity's type and id override the data | high, not executed | AddressRepository.AddressRepository.CreateAddressForEntityAsWritten | AddressRepository.AddressRepository.CreateAddressForEntity |
| app/src/domain/repositories/inventory_repository.py:27-44 | `get_by_item` uses the OR lookup | row (Product, A); look up (Product, B) | the row of exactly that item | high, not executed | InventoryService.ItemLookupAsWritten, InventoryService.OrLookupFindsOtherItem | InventoryService.ItemLookup |
| app/src/libs/storage/utils.py:45-49 | `rpartition` on a dotless name returns the name as the extension | "README" gives "Product/aWQ=/_0123abcd.README" | "Product/aWQ=/README_0123abcd" | high, not executed | StorageUtils.GenerateFileKeyAsWritten, StorageUtils.AsWrittenDotlessName | StorageUtils.GenerateFileKey |
