# erfiume station pipeline, modelled in Dafny

erfiume is a Telegram bot that reports river levels of Emilia-Romagna. A
fetcher reads the regional sensor service's roster of hydrometric stations
(`Stazione`) as of the latest update time. It then fetches every station's
time series of readings (`Valore`) and copies the freshest reading into the
station. Finally it stores each station in DynamoDB, and only when the station
is newer than the stored copy. The bot looks a station up by its exact name.
It classifies the station's value against three alert thresholds (yellow,
orange, red) and throttles users who send too many requests.

This project models that pipeline without its network and database clients:

- `values.dfy` (module `Values`): the Python exceptions the code can raise,
  parsed JSON (`JsonVal`, `Record`) and DynamoDB attribute values (`Attr`,
  `Item`). It also holds Python's `int()` on them (truncation toward zero)
  and the all-or-nothing list comprehension `MapAll`.
- `apis.dfy` (module `Apis`): the entities (`StationData` is a station's ten
  fields at one moment; class `Station` is the mutable object; `Reading` is
  one sample). It also has `to_dict` and its inverse, the alarm chain,
  `fetch_latest_time`, `fetch_stations_data` and `fetch_time_series` on
  already-parsed responses, and `enrich_data`'s update loop. The loop is an
  imperative method over an array of `Station` objects.
- `storage.dfy` (module `Storage`): a table is a map from hash-key value to
  item, held in the `items` field of class `AsyncDynamoDB`. The methods
  `CheckAndUpdateStazioni` and `CheckThrottledUser` rewrite that field. Each
  is proved equal to a pure function of the old table (`CheckAndUpdate`,
  `Throttle`), and the lemmas are about those functions.
- `tgbot.dfy` (module `TgBot`): the bot's own copy of the alarm chain, and how
  it differs from the station's.

Behaviour worth knowing:

- A successful but empty time series makes `max` raise `ValueError`, and
  nothing catches it. So `enrich_data` raises, after the stations before that
  one have already been updated.
- On equal maximal `t`, `max` keeps the first reading.
- `value or UNKNOWN_VALUE` also turns a reading of `0.0` into the sentinel,
  not only a missing value.
- `check_and_update_stazioni` has a `put_item(station.to_dict())` branch under
  `elif not response["Item"]` that can never run. When no record is stored,
  `response["Item"]` raises `KeyError`. When one is stored, its timestamp has
  just been read, so the projected item is not empty. So, in a table keyed by
  `nomestaz` alone, a station seen for the first time is stored by
  `update_item` as a partial item, and `get_matching_station` cannot rebuild a
  `Stazione` from it (`Storage.NewStationStoredPartially`).

## Model

| member | source | states |
|---|---|---|
| `Values.Trunc` | app/erfiume/apis.py:105 | `int()` of a float lands within one of it, toward zero: below it for non-negative input, above it for negative input |
| `Values.IntOfJson` | app/erfiume/apis.py:123 | `int()` of a JSON scalar: integers kept, floats truncated toward zero as `Trunc` states, `None` is a `TypeError`, a string a `ValueError` |
| `Values.IntOfAttr` | app/erfiume/storage.py:74 | `int(item.get(name))`: a missing attribute is a `TypeError`, a Decimal is truncated toward zero (an integral one gives its integer), a string a `ValueError` |
| `Values.MapAll` | app/erfiume/apis.py:143-153 | a comprehension whose element expression may raise succeeds iff every element converts; the list then has one converted element per input, in order, and otherwise the error is the first failing element's |
| `Apis.OrUnknown` | app/erfiume/apis.py:38-39 | after `__post_init__` the value is never `None` or 0; it is the sentinel exactly for `None`, `0.0` and the sentinel itself; any other value is kept |
| `Apis.NewStation` | app/erfiume/apis.py:21-39 | a constructed station keeps the nine given fields, and its value is `OrUnknown` of the given one: present, non-zero, the sentinel for `None` and `0.0` |
| `Apis.Station.constructor` | app/erfiume/apis.py:21-39 | the new object's fields are those of `NewStation`, so its value is present and non-zero |
| `Apis.ToDict` | app/erfiume/apis.py:41-54 | the projection has exactly the ten field names as keys, with the station's name and timestamp; it fails with `InvalidOperation` exactly when the value is `None` |
| `Apis.FromItem` | app/erfiume/storage.py:118-119 | `Stazione(**item)` refuses any key set other than the ten fields; a rebuilt station has a present, non-zero value and the item's name |
| `Apis.ToDictRoundTrip` | app/erfiume/apis.py:41-54 | rebuilding a station from `to_dict()` gives back all ten fields, except that a value of 0 comes back as the sentinel |
| `Apis.Classify` | app/erfiume/apis.py:67-81 | the sentinel shows "non disponibile" and no alarm whatever the thresholds; any other value gets exactly one colour: green iff v <= yellow, yellow iff yellow < v <= orange, orange iff neither and orange <= v <= red, red otherwise |
| `Apis.ClassifyAscending` | app/erfiume/apis.py:71-77 | with yellow <= orange <= red, orange is exactly orange < v <= red and red exactly v > red, and a higher reading never gets a milder alarm |
| `Apis.ClassifyInverted` | app/erfiume/apis.py:71-77 | thresholds out of order empty a band: orange above red never gives orange, yellow above orange never gives yellow |
| `Apis.FetchLatestTime` | app/erfiume/apis.py:122-129 | an empty list is an `IndexError`, a first element without `time` is a `KeyError("time")`; the call succeeds iff that `time` is a number; an integer `time` is returned as it is and a float one truncated toward zero |
| `Apis.Kept` | app/erfiume/apis.py:151-152 | no kept record carries a `time` key, and there are no more records than in the input |
| `Apis.KeptConcat` | app/erfiume/apis.py:151-152 | the filter distributes over concatenation, so it keeps the input order |
| `Apis.KeptNoTime` | app/erfiume/apis.py:151-152 | records without `time` are all kept, unchanged |
| `Apis.KeptDropsTimeRecord` | app/erfiume/apis.py:151-152 | N records of which exactly one carries `time` give the other N-1, in input order |
| `Apis.WithSentinel` | app/erfiume/apis.py:146-149 | the record keeps its keys, every `null` becomes the float -9999.0, and every non-null field is unchanged |
| `Apis.StationFromRecord` | app/erfiume/apis.py:144-150 | a station is built iff the record has exactly the nine station fields, text in the four text fields and numbers in the others (`Buildable`); otherwise the error is a `TypeError`. A built station is stamped with the given time, carries the record's fields, and has its value normalised by `__post_init__` |
| `Apis.FetchStationsData` | app/erfiume/apis.py:143-153 | the result is one station per record without `time`, in input order, each built from the record with nulls replaced and each stamped with the given time; one record that cannot build a station fails the whole call, with that record's error |
| `Apis.KeptHolds` | app/erfiume/apis.py:151-152 | every kept record is an input record without `time`, so it has any property all such records have |
| `Apis.FetchStationsDataDropsEcho` | app/erfiume/apis.py:143-153 | N records, one of them the echo carrying `time` and the others well formed, give exactly N-1 stations: one per other record, in input order, each named as its record |
| `Apis.FetchStationsDataNulls` | app/erfiume/apis.py:143-153 | a `null` threshold in a kept record becomes -9999.0, a `null` `ordinamento` becomes -9999, and a `null` or `0.0` value becomes `Some(-9999.0)` |
| `Apis.ReadingFromRecord` | app/erfiume/apis.py:92-105 | `Valore(**rec)` builds a reading iff the keys are exactly `t` and `v`, `int()` accepts `t`, and `v` is not a string; `t` is coerced with `int()`, and a float, integer or null `v` is kept as given |
| `Apis.FetchTimeSeries` | app/erfiume/apis.py:173 | the series succeeds iff every record builds a reading, and then has one reading per record, in order |
| `Apis.LatestIndex` | app/erfiume/apis.py:200 | `max(..., key=t)` picks a reading whose `t` is maximal, and no earlier reading has that `t` |
| `Apis.Enriched` | app/erfiume/apis.py:196-202 | a failed fetch leaves the station as it is; an empty series raises `ValueError`; otherwise the station gets the `t`/`v` of a reading with maximal `t`, and every other field is unchanged |
| `Apis.EnrichedTakesFirstLatest` | app/erfiume/apis.py:200-202 | among readings of equal maximal `t`, the first one is copied |
| `Apis.FirstRaise` | app/erfiume/apis.py:196-200 | the index of the first successful but empty series, or the number of stations if there is none |
| `Apis.EnrichData` | app/erfiume/apis.py:191-202 | the loop keeps the number and order of stations. Every station before the first empty series is updated as `Enriched` says, and every station from it on is unchanged. The call raises `ValueError` iff an empty series exists |
| `Storage.GetItem` | app/erfiume/storage.py:67-70 | `get_item` with a projection returns an item iff the key is stored, holding exactly the stored attributes among the projected names |
| `Storage.UpdateItem` | app/erfiume/storage.py:81-96 | `update_item` overwrites exactly the set attributes of one item, keeps its other attributes and every other item, and creates an item holding only the key and the set attributes if none is stored |
| `Storage.StoredValue` | app/erfiume/storage.py:86-90 | a `None` station value is written as -9999.0, any other value as itself |
| `Storage.LatestTimestamp` | app/erfiume/storage.py:73-77 | a missing record counts as stored timestamp 0; otherwise it is `int()` of the stored timestamp attribute |
| `Storage.CheckAndUpdate` | app/erfiume/storage.py:61-106 | an unreadable stored timestamp raises and writes nothing. A strictly newer station overwrites exactly the stored timestamp and value, with the sentinel for `None`, and touches no other record. A not-newer station changes nothing, and raises `KeyError` when no record exists |
| `Storage.CheckAndUpdateMonotone` | app/erfiume/storage.py:73-96 | the stored timestamp never decreases: after a successful call it is the larger of the old one and the station's |
| `Storage.CheckAndUpdateIdempotent` | app/erfiume/storage.py:80-97 | repeating a call with the same station changes nothing and gives the same answer |
| `Storage.CheckAndUpdateLocal` | app/erfiume/storage.py:81-83 | records under other names are never added, removed or changed |
| `Storage.NewStationStoredPartially` | app/erfiume/storage.py:79-96 | a station not yet stored, with a positive timestamp, is written as an item holding only name, timestamp and value, and `Stazione(**item)` rejects that item |
| `Storage.StoredCount` | app/erfiume/storage.py:144 | a missing count reads as 0, a stored one through `int()` |
| `Storage.Throttle` | app/erfiume/storage.py:129-188 | an unknown user is put with count 1 and ttl now + 15 minutes and gets 0. A known user with count <= 5 gets count + 1 and ttl reset, and gets 0. A known user with count > 5 keeps the count, gets ttl reset, and is answered old ttl - now (the ttl is reset even when reading the old one raises). An unreadable count raises and writes nothing. No other record changes |
| `Storage.ReplayWithinAllowance` | app/erfiume/storage.py:144-179 | from a user with no record, each of the first n <= 6 requests is answered 0, and the record then holds count n and the ttl set by the last request |
| `Storage.ThrottledKeepsCount` | app/erfiume/storage.py:144-163 | a user over the threshold keeps the stored count and is answered the time left until the stored ttl |
| `Storage.SeventhRequestThrottled` | app/erfiume/storage.py:144-179 | the seventh request from a fresh user is throttled: the count stays 6, and the answer is the sixth request's ttl minus now |
| `Storage.AsyncDynamoDB.constructor` | app/erfiume/storage.py:35-40 | the client is bound to a table holding the given items |
| `Storage.AsyncDynamoDB.CheckAndUpdateStazioni` | app/erfiume/storage.py:61-106 | the new table and the outcome are exactly those of `CheckAndUpdate` on the old table and the station's current fields |
| `Storage.AsyncDynamoDB.GetMatchingStation` | app/erfiume/storage.py:108-127 | exact-key lookup: `None` iff no record is stored under the name; a returned station comes from the record stored under that exact name |
| `Storage.MatchFindsStoredStation` | app/erfiume/storage.py:114-119 | a station stored through `to_dict` is found again under its name with all fields intact, a value of 0 coming back as the sentinel |
| `Storage.AsyncDynamoDB.CheckThrottledUser` | app/erfiume/storage.py:129-188 | the new table and the answer are exactly those of `Throttle` on the old table |
| `TgBot.AlarmFor` | app/erfiume/tgbot.py:64-74 | exactly one colour is chosen: green iff v <= yellow, yellow iff yellow < v <= orange, orange iff neither and orange <= v <= red, red otherwise |
| `TgBot.AlarmForMatchesStation` | app/erfiume/tgbot.py:64-74 | the bot's chain agrees with the station's on every value but -9999.0. There the station shows no alarm and the bot still shows a colour: green whenever yellow >= -9999 |

## Left out

- The HTTP calls (httpx, `raise_for_status`, the URLs). Responses are taken as already-parsed lists of JSON objects. A fetch that fails at the HTTP level appears only as a `Failed` outcome given to `EnrichData`.
- The concurrency of `asyncio.gather`: `EnrichData` receives the positional result list it produces.
- Logging (app/erfiume/logging.py); every logged-and-re-raised error is modelled by its re-raise alone.
- The aioboto3 session, `__aenter__`/`__aexit__` and the environment-based endpoint choice. `ClientError` from DynamoDB is not modelled.
- DynamoDB's TTL expiry, the range key (`ordinamento`) of the deployed table, and `ADD` on a non-number attribute. A table is a map keyed by the hash-key value only.
- `Decimal(str(float))` is taken as the identity on reals. Float rounding, NaN and infinities are not modelled.
- Message text and timestamp rendering (`cleandoc`, `strftime`, `ZoneInfo`), and the `datetime.now` call. `now` is a parameter in whole epoch seconds, so fractions of a second in `now` are not modelled.
- `Valore.to_dict` (app/erfiume/apis.py:107-109): nothing in the pipeline calls it.
- The Telegram handlers, `fetch_bot_token` and `bot` in app/erfiume/tgbot.py; the entry points app/erfiume_fetcher.py, app/standalone.py and app/erfiume_bot.py; app/erfiume/__init__.py; everything under pulumi/.
- JSON booleans, nested arrays or objects, and list elements that are not objects are not part of `JsonVal`.
- Apis.StationFromRecord: each field must have the JSON kind its annotation names (a string, an integer or integral float, a number), or the record is a `TypeError`. Python's dataclass does not check annotations and would store the value unchecked. This includes a `null` text field, which turns into the float sentinel.
- Apis.FromItem: in the same way, a stored attribute of the wrong kind is a `TypeError` here, where Python would store it unchecked.
- Apis.ReadingFromRecord: a string `v` is a `TypeError` here, where `Valore` would keep it.
- Values.IntOfJson: `int()` of any string is a `ValueError` here; Python would parse a numeric string.
- Values.IntOfAttr: likewise, a string attribute is a `ValueError` even when it holds digits.
- Apis.EnrichData: requires the stations to be distinct objects, as `fetch_stations_data` builds them. A list holding one object twice is not modelled.
