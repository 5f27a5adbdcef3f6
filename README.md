# request-classificator, modelled in Dafny

This project models the core of the request-classificator service. The
service receives part requests from a messaging workflow, builds their
vehicle, requestor and details records, and classifies each request under
labels of a label taxonomy stored in Redis. The model covers the following
pieces.

- **Redis replies** (`redis_values.dfy`, module `RedisValues`). The reply
  shapes, and the key/value walk every decoder runs over a flat register
  `[k0, v0, k1, v1, ...]`. `PairMap` is the map that walk leaves; in it a
  later key wins and a trailing key is dropped. `KeysAt` is the set of keys
  the walk saw. `Flatten` is the register a list of field pairs is written
  as.
- **Tracker steps** (`tracker_steps.dfy`, module `TrackerSteps`).
  `TrackerStep::parse_from_redis` is a class method. It reads the register
  into a map, then assigns six fields in place one after the other, panicking
  at the first one missing. A key left over also panics.
- **Labels** (`labels.dfy`, module `Classification`). `from_redis_value`
  decodes the first register of a `Bulk` reply into a `Label`.
  `from_redis_values` decodes every `Bulk` item of a list and fails as a
  whole on the first bad item. It also fails on an empty result.
- **The model-year table** (`year_encodings.dfy`, module `Constants`).
  `get_year_encodings` fills the table by thirty inserts.
- **Sources** (`sources.dfy`, module `Sources`). `decode_year` reads the
  tenth VIN character. The VIN scan of `get_vin` runs over an already
  fetched search reply.
- **Part requests** (`part_requests.dfy`, module `PartRequests`). The
  serialisers `get_redis_fields` and `get_redis_list`. The builders
  `VehicleDataBuilder`, `RequestorBuilder` and `RequestDetailsBuilder` are
  classes whose setters assign their fields.
- **Handlers** (`handlers.rs` is modelled in `handlers.dfy`, module
  `Handlers`). The guard code of `get_labels`, `update_request_labels`,
  `remove_request_labels` and `new_request_received`. The label store stays
  behind a `Store` of oracles:
  - label existence and request existence;
  - the children lookup;
  - appending and removing a label;
  - processing a notification.

  Each handler also returns the list of store calls it made, so that the
  contracts can say which checks run, in which order, and what is never
  called.

Panics are an explicit `Panic(message)` case of `Outcomes.Outcome`. The
panic messages are the strings of the source (`expect`, `panic!`) or of the
standard library (`unwrap` on `None`, `unwrap` on a failed integer parse).
Errors returned to the caller are the `Failure`/`Err` cases.

Two facts about the code that shape the model:
- `PartRequest` has no `status` field (src/structs.rs:565-573).
- A non-numeric origin system panics in `unwrap` (src/handlers.rs:118).

## Model

| member | source | states |
|---|---|---|
| RedisValues.PairMapSnoc | src/structs.rs:44-57 | one more element of the walk: an element at an even index only becomes the pending key; an odd one inserts under that key |
| RedisValues.PairMapKeys | src/structs.rs:44-57 | a key is in the map exactly when it occurs at an even index that is followed by a value |
| RedisValues.PairMapLastWins | src/structs.rs:44-57 | when a key repeats, the value after its last occurrence is the one stored |
| RedisValues.PairMapLast | src/structs.rs:44-57 | every stored value is the one after the last occurrence of its key |
| RedisValues.TrailingKeyDropped | src/structs.rs:44-57 | a trailing key that never occurs with a value does not enter the map |
| RedisValues.KeysAtSnoc | src/structs.rs:389-407 | the set of seen keys grows by the element at each even index and by nothing at an odd one |
| RedisValues.KeysAtIsPairMapKeys | src/structs.rs:389-407 | the keys seen are the map's keys, plus the trailing key when the register has odd length |
| RedisValues.PairMapFlatten | src/structs.rs:468-491 | writing a list of field pairs as a register and reading it back with the walk gives the map those pairs make in order |
| TrackerSteps.CollectFields | src/structs.rs:39-57 | the first loop of the parse yields the walk's map of the register's texts, or panics with "Unexpected value" on a non-`Data` element |
| TrackerSteps.TrackerStep.Default | src/structs.rs:106-118 | every field of a new step is empty |
| TrackerSteps.TrackerStep.ParseFromRedis | src/structs.rs:38-103 | the step's new fields are the old ones with the required fields copied from the map, up to the first missing one; the result is the parse outcome, which on success is a copy of the new step |
| TrackerSteps.TrackerStep.AssignFields | src/structs.rs:59-102 | the six fields are assigned in reading order; a missing one panics naming it, and a key left over panics with "Found more values than expected" |
| TrackerSteps.TrackerStep.AssignHead | src/structs.rs:60-77 | `value`, `status` and `tracker_id` are copied in that order and removed from the map; the first one missing panics and leaves the later fields unchanged |
| TrackerSteps.TrackerStep.AssignTail | src/structs.rs:78-95 | `timestamp`, `attached_files` and `message_reference` are copied in that order and removed; the first one missing panics with its own message |
| TrackerSteps.ParseStep | src/structs.rs:38-103 | the parse never returns an error (every problem panics), and a successful parse keeps the step's old `id` |
| TrackerSteps.ParseStepOk | src/structs.rs:38-103 | the parse succeeds exactly when the register is all `Data` and the keys that carry values are exactly the six required ones; the returned step holds those values and the old `id` |
| TrackerSteps.ParseStepPanics | src/structs.rs:45-100 | a non-`Data` element panics; a missing key panics naming the first missing one in reading order; a register with all six keys and more panics as too many values |
| Classification.DecodeRegister | src/structs.rs:384-434 | decoding one register fails only as an unexpected type or as extra values, and panics only with one of the three missing-field messages |
| Classification.DecodeLabel | src/structs.rs:380-448 | decoding a reply fails only as a conversion error, not found, an unexpected type or extra values, and panics only with a missing-field message |
| Classification.DecodeEach | src/structs.rs:353-368 | the loop's failure is always "Value couldn't be parsed", its panics are the missing-field ones, and it yields at most one label per item |
| Classification.DecodeLabels | src/structs.rs:350-377 | `from_redis_values` fails only with "Value couldn't be parsed" or "No values to parse", and a success holds at least one and at most one label per item |
| Classification.ReadRegister | src/structs.rs:384-407 | the register loop yields the walk's map and the set of keys seen, or fails with "Unexpected Value type received" on a non-`Data` element |
| Classification.FromRedisValue | src/structs.rs:380-448 | the method returns what decoding the reply's first register gives |
| Classification.FromRedisValues | src/structs.rs:350-378 | the loop returns what decoding every `Bulk` item in order gives |
| Classification.DecodeEachStops | src/structs.rs:353-364 | once an item has failed or panicked, the later items change nothing |
| Classification.DecodeLabelShape | src/structs.rs:381-447 | a reply that is not `Bulk` fails as a conversion error; a `Bulk` reply without a register fails as not found; only the first register is decoded |
| Classification.DecodeEncodedLabel | src/structs.rs:380-434 | a label written as the register `id, name, parent` decodes back to itself |
| Classification.DecodeRegisterOk | src/structs.rs:384-434 | a register decodes exactly when it is all `Data`, its keys with values are exactly `id`, `name` and `parent`, and any trailing key is one of them; each field is the value after the key's last occurrence |
| Classification.DecodeRegisterErrors | src/structs.rs:389-432 | a non-`Data` element fails; a missing `id`, `name` or `parent` panics; an extra key, trailing or paired, fails with "Aditional unexpected values found" |
| Classification.DecodeRegisterPanics | src/structs.rs:409-425 | the keys are checked in the order `id`, `name`, `parent`, and the first one missing panics with "Id field not found", "name field not found" or "last_name field not found" |
| Classification.DecodeEachIsDecodeAll | src/structs.rs:353-365 | the loop over the items decodes exactly the registers of the `Bulk` items, in order, with the others skipped |
| Classification.DecodeAllOk | src/structs.rs:353-365 | the registers decode together exactly when each one decodes, giving one label per register in order |
| Classification.DecodeAllFirstError | src/structs.rs:355-362 | otherwise the first register that does not decode decides: an error becomes "Value couldn't be parsed", a panic propagates |
| Classification.DecodeLabelsOk | src/structs.rs:350-377 | `from_redis_values` succeeds exactly when there is at least one `Bulk` item and all of them decode; no `Bulk` item at all fails with "No values to parse" |
| Constants.YearTable | src/structs.rs:747-872 | the table's cycle starts at `A` with 1980 and 2010 and ends at `9` with 2009 and 2039 |
| Constants.GetYearEncodings | src/structs.rs:747-872 | the thirty inserts build exactly the year table |
| Constants.CodeAtIndex | src/structs.rs:747-872 | the position of a code in the 30-year cycle and the code at a position are inverse |
| Constants.YearTableKeys | src/structs.rs:747-872 | the table's keys are exactly the one-character codes `A`-`H`, `J`-`N`, `P`, `R`-`T`, `V`-`Y` and `1`-`9` |
| Constants.YearTableYears | src/structs.rs:747-872 | the code at position `k` of the cycle stands for the years `1980 + k` and `2010 + k` |
| Constants.YearTableSize | src/structs.rs:747-872 | the table has exactly thirty entries |
| Sources.FourDigitsValue | src/structs.rs:747-872 | the four-digit text of a year reads back as that year |
| Sources.DecodeYear | src/structs.rs:125-142 | `decode_year` never returns an error; it panics only in `unwrap` or with "Year digit is not a valid digit", and succeeds exactly when the VIN has a tenth character that, upper-cased, is a year code |
| Sources.DecodeYearCases | src/structs.rs:125-142 | a VIN shorter than ten characters panics in `unwrap`; the tenth character is upper-cased; a code gives the two years of its cycle position; any other character panics with "Year digit is not a valid digit" |
| Sources.DecodeYearCycle | src/structs.rs:125-142 | on success both years are four-digit texts, the first in 1980-2009 and the second thirty years later |
| Sources.FindValue | src/structs.rs:194-213 | the inner scan panics only with "Unexpected value", and a value it finds is the text of a `Data` element at an odd index of the register |
| Sources.VinScan | src/structs.rs:191-215 | the outer scan panics only with "Unexpected value" |
| Sources.GetVin | src/structs.rs:190-218 | a `Nil` reply gives nothing, any other reply that is not `Bulk` panics in `unwrap`, and the scan panics only in `unwrap` or with "Unexpected value" |
| Sources.ScanVin | src/structs.rs:190-218 | the two loops return what the scan of the reply's items gives, stopping each inner loop at the first value found |
| Sources.VinScanStops | src/structs.rs:191-215 | once a register has panicked, later items change nothing |
| Sources.FindValueFirst | src/structs.rs:194-213 | the inner scan returns the value after the first key `value` that has one |
| Sources.FindValueFrom | src/structs.rs:194-213 | the same holds from any even position before that key |
| Sources.FindValueNone | src/structs.rs:194-213 | a register of `Data` without a key `value` followed by a value yields nothing |
| Sources.FindValuePanics | src/structs.rs:195-201 | a non-`Data` element reached before a key `value` with a value panics with "Unexpected value" |
| Sources.FindValueAgreesWithMap | src/structs.rs:194-213 | when the key `value` occurs once with a value, the scan finds what the key/value walk stores under it |
| Sources.FindValueNeverFails | src/structs.rs:194-213 | the inner scan either returns or panics; it has no error return |
| Sources.VinScanPanics | src/structs.rs:191-215 | the outer scan returns exactly when no `Bulk` register panics, and never returns an error |
| Sources.VinScanLastWins | src/structs.rs:191-215 | a value found in a later register replaces an earlier one: the result is the value of the last register that yields one |
| Sources.VinScanNone | src/structs.rs:191-215 | nothing is found exactly when no register yields a value |
| PartRequests.VehicleData.GetRedisFields | src/structs.rs:468-491 | the fields are exactly `make`, `model`, `year`, `vin` in that order; the call succeeds exactly when all four are set and otherwise panics in `unwrap` |
| PartRequests.VehicleFieldsReadBack | src/structs.rs:468-491 | the four vehicle fields written as a hash read back as those four fields |
| PartRequests.RequestDetails.GetRedisFields | src/structs.rs:629-641 | the fields are exactly `description` then `attached_files`; the call succeeds exactly when both are set and otherwise panics |
| PartRequests.DetailsFieldsReadBack | src/structs.rs:629-641 | the two details fields written as a hash read back as those fields |
| PartRequests.NewRequestDetails | src/structs.rs:622-627 | new details have neither field set |
| PartRequests.Requestor.GetRedisFields | src/structs.rs:650-656 | the only field is `user_id` |
| PartRequests.RequestorFieldsReadBack | src/structs.rs:650-656 | the requestor written as a hash reads back as its `user_id` |
| PartRequests.NewPartRequest | src/structs.rs:576-586 | a new request holds the four given fields and nothing attached |
| PartRequests.PartRequest.GetRedisList | src/structs.rs:588-598 | the list names exactly `id`, `origin`, `origin_reference`, `timestamp`, in that order |
| PartRequests.GetRedisListReadBack | src/structs.rs:588-598 | the list names exactly `id`, `origin`, `origin_reference`, `timestamp` in that order, and reads back as those four fields |
| PartRequests.YearFieldSplits | src/structs.rs:558 | the stored year text `"y1,y2"` splits at its comma back into the two years |
| PartRequests.VehicleDataBuilder.Default | src/structs.rs:504-514 | a new builder has no field set |
| PartRequests.VehicleDataBuilder.Build | src/structs.rs:517-524 | the built vehicle carries the builder's four fields |
| PartRequests.VehicleDataBuilder.Vin | src/structs.rs:526-533 | the vin becomes the looked-up value, found or not, and nothing else changes |
| PartRequests.VehicleDataBuilder.Make | src/structs.rs:535-542 | the make becomes the looked-up value and nothing else changes |
| PartRequests.VehicleDataBuilder.Model | src/structs.rs:544-551 | the model becomes the looked-up value and nothing else changes |
| PartRequests.VehicleDataBuilder.Year | src/structs.rs:553-561 | without a vin it panics with "Vin has to be defined before decoding it"; a vin that does not decode panics as `decode_year` does; otherwise the year becomes the two decoded years joined by a comma |
| PartRequests.RequestorBuilder.Default | src/structs.rs:664-671 | a new builder has no requestor |
| PartRequests.RequestorBuilder.SetRequestor | src/structs.rs:674-682 | a failed lookup panics with "Requestor couldnt be retrieved"; a successful one stores the user |
| PartRequests.RequestorBuilder.Build | src/structs.rs:684-692 | `Err("Requestor cannot be none")` exactly when no requestor is set; otherwise the requestor carries the user's id |
| PartRequests.RequestDetailsBuilder.Default | src/structs.rs:702-710 | a new builder has neither field set |
| PartRequests.RequestDetailsBuilder.Description | src/structs.rs:713-722 | the description becomes the looked-up value and the attached files are unchanged |
| PartRequests.RequestDetailsBuilder.AttachedFiles | src/structs.rs:724-733 | the attached files become the looked-up value and the description is unchanged |
| PartRequests.RequestDetailsBuilder.Build | src/structs.rs:735-740 | the built details carry the builder's two fields |
| Handlers.GetLabels | src/handlers.rs:15-36 | for the root id `"0"` only the children are asked for; for any other id the existence check comes first, and an unknown label gives "Label with id '<id>' doesnt exist" without a children lookup; success is exactly an allowed id with a successful lookup and returns its labels; a failed lookup gives "Error obtaining labels: " followed by the error |
| Handlers.GetLabelsRootIgnoresExistence | src/handlers.rs:17-28 | the answer for the root id does not depend on which labels exist |
| Handlers.GetLabelsCalls | src/handlers.rs:18-35 | every call is about the given label, there are at most two, and the children are asked for exactly when the id is the root or an existing label |
| Handlers.UpdateRequestLabels | src/handlers.rs:66-99 | the label check runs first, then the request check; the first failure returns its one error with no references; the append is made exactly when both checks pass; success is an empty response |
| Handlers.RemoveRequestLabels | src/handlers.rs:38-64 | only the request is checked, never the label; a missing request or a failed removal returns that one error; success is an empty response |
| Handlers.Accumulate | src/handlers.rs:118 | the digit loop of the `u16` parse never yields a value above 65535 and never reports an empty text |
| Handlers.ParseU16 | src/handlers.rs:118 | the `u16` parse reports an empty text exactly for the empty string and yields only values up to 65535 |
| Handlers.AccumulateOk | src/handlers.rs:118 | the digit loop succeeds exactly on decimal texts whose value stays in range, and gives that value |
| Handlers.ParseU16Ok | src/handlers.rs:118 | the parse succeeds exactly on an optional `+` followed by at least one digit with a value of at most 65535, and gives that value |
| Handlers.NewRequestReceived | src/handlers.rs:110-139 | an origin that does not parse panics in `unwrap`; origin 3 processes the notification, failing with "Error creating part request" or returning exactly one reference `REDIS`/request id; any other origin fails with an empty response and makes no call |
| Handlers.UserRequestOrigins | src/handlers.rs:118-119 | an optional `+`, any leading zeros and a final `3` all select the user-request branch |

## Left out

- The label-tree engine is not part of this model. That is `append_label`, `remove_label`, `get_label_childs`, `Label::exists`, `PartRequest::exists` and `get_pending_classification_requests`. Their implementation is not in the repository (the `classification` module of `src/redis.rs` is empty), so the handlers see them as oracles in `Handlers.Store`.
- `process_new_request` does not exist in `src/helpers.rs`; it is an oracle as well.
- `get_pending_requests` (src/handlers.rs:101-108) only passes the result of an unseen query through, so it is not modelled.
- `WhatsappSource::get_make`, `get_model`, `get_description` and `get_attached_files` run Redis `FT.SEARCH` queries through a global client. The builder setters `Vin`, `Make`, `Model`, `Description` and `AttachedFiles` take the looked-up value as a parameter instead.
- Of `get_vin`, only the scan over an already fetched reply is modelled (`Sources.ScanVin`). The query, the connection and the panic on a failed query (src/structs.rs:161-187) are left out.
- `Value::as_sequence` is taken to give the empty sequence for `Nil` and nothing for every other non-`Bulk` reply, as the Redis client library does. That library is not part of this model.
- `get_requestor` and `User::from_phone_number` come from a foreign crate. `RequestorBuilder.SetRequestor` takes the lookup result as a parameter.
- `PartRequest::set_request_details`, `set_vehicle_data` and `set_requestor` (src/structs.rs:600-613) call unseen Redis writers.
- `create_part_request`, `src/main.rs` (the HTTP server), `src/request_structs.rs` (a data-transfer type) and the helpers stub are not modelled.
- `MessageLog` is a foreign type. Only its origin system is modelled.
- `String::from_utf8(...).unwrap()`: every `Data` reply holds already-decoded text, so the invalid-UTF-8 panic is not modelled. Logging (`debug!`, `error!`, `println!`) is left out too.
- Constants.YearTable: the table holds the years as numbers. `Sources.DecodeYear` renders them as the four-digit texts the source stores (`Sources.FourDigitsValue` relates the two).
- Handlers.ParseU16 models the standard library's `u16::from_str`, which is not part of the repository. It follows its documented behaviour: an optional `+`, then decimal digits, with overflow reported as it happens while reading left to right.
- `VehicleData::get_redis_fields` and `RequestDetails::get_redis_fields` panic at the first field that is not set. All those panics carry the same `unwrap` message, so the model does not say which field caused it.
- Concurrency is left out: each handler runs to completion on its own.
