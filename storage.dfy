/**
 * The decision logic of the DynamoDB wrapper (app/erfiume/storage.py). A table
 * is a map from the value of its hash key to the item stored under it; what
 * get_item, update_item and put_item do to that map is written out below.
 */
module Storage {
  import opened Values
  import Apis

  const UNKNOWN_VALUE: real := -9999.0
  /** More than this many requests in a window throttle a user. */
  const THROTTLING_THRESHOLD: int := 5
  /** The length of a window, in minutes. */
  const THROTTLING_TIME: int := 15

  type Table = map<Attr, Item>

  /** The table after a call, and what the call returned or raised. */
  datatype Step<T> = Step(items: Table, result: Result<T>)

  /** get_item with a ProjectionExpression: the stored item restricted to names, or no "Item" at all. */
  function GetItem(items: Table, key: Attr, names: set<string>): (response: Option<Item>)
    ensures response.Some? <==> key in items
    ensures response.Some? ==> response.value.Keys == items[key].Keys * names
    ensures response.Some? ==> forall a :: a in response.value ==> response.value[a] == items[key][a]
  {
    if key in items then Some(map a | a in items[key] && a in names :: items[key][a]) else None
  }

  /**
   * update_item with SET (or ADD) on the given attributes: they overwrite the
   * stored ones; a missing item is created holding only its key and them.
   */
  function UpdateItem(items: Table, keyName: string, key: Attr, sets: Item): (r: Table)
    ensures r.Keys == items.Keys + {key}
    ensures r - {key} == items - {key}
    ensures sets.Keys <= r[key].Keys && forall a :: a in sets ==> r[key][a] == sets[a]
    ensures key in items ==> forall a :: a in items[key] && a !in sets ==> a in r[key] && r[key][a] == items[key][a]
    ensures key in items ==> r[key].Keys == items[key].Keys + sets.Keys
    ensures key !in items ==> r[key].Keys == sets.Keys + {keyName}
  {
    var current := if key in items then items[key] else map[keyName := key];
    items[key := current + sets]
  }

  /** The Decimal written for a station value: a None value is written as the sentinel. */
  function StoredValue(value: Option<real>): (n: real)
    ensures value.None? ==> n == UNKNOWN_VALUE
    ensures value.Some? ==> n == value.value
  {
    if value.Some? then value.value else UNKNOWN_VALUE
  }

  // ---------------------------------------------------------------------------
  // check_and_update_stazioni
  // ---------------------------------------------------------------------------

  /** The timestamp compared against: 0 without a stored record, int(Item.get("timestamp")) with one. */
  function LatestTimestamp(items: Table, name: string): (r: Result<int>)
    ensures S(name) !in items ==> r == Ok(0)
    ensures S(name) in items ==> r == IntOfAttr(Get(items[S(name)], "timestamp"))
  {
    var response := GetItem(items, S(name), {"timestamp"});
    if response.Some? then IntOfAttr(Get(response.value, "timestamp")) else Ok(0)
  }

  /**
   * check_and_update_stazioni as a function of the table. A strictly newer
   * station overwrites exactly the stored timestamp and value; a record that
   * exists and is not older is left alone; with no record and a timestamp
   * that is not positive, response["Item"] raises KeyError. The put_item
   * branch (`elif not response["Item"]`) is kept but is never taken: a stored
   * item has a timestamp attribute by then, so the projected item is not empty.
   */
  function CheckAndUpdate(items: Table, station: Apis.StationData): (st: Step<()>)
    ensures LatestTimestamp(items, station.nomestaz).Err? ==>
              st == Step(items, Err(LatestTimestamp(items, station.nomestaz).error))
    ensures LatestTimestamp(items, station.nomestaz).Ok? && station.timestamp > LatestTimestamp(items, station.nomestaz).value ==>
              && st.result == Ok(())
              && st.items - {S(station.nomestaz)} == items - {S(station.nomestaz)}
              && S(station.nomestaz) in st.items
              && "timestamp" in st.items[S(station.nomestaz)] && "value" in st.items[S(station.nomestaz)]
              && st.items[S(station.nomestaz)]["timestamp"] == N(station.timestamp as real)
              && st.items[S(station.nomestaz)]["value"] == N(StoredValue(station.value))
              && (S(station.nomestaz) in items ==>
                    st.items[S(station.nomestaz)] - {"timestamp", "value"} == items[S(station.nomestaz)] - {"timestamp", "value"})
    ensures LatestTimestamp(items, station.nomestaz).Ok? && station.timestamp <= LatestTimestamp(items, station.nomestaz).value ==>
              st == if S(station.nomestaz) in items then Step(items, Ok(())) else Step(items, Err(KeyError("Item")))
  {
    var key := S(station.nomestaz);
    var response := GetItem(items, key, {"timestamp"});
    var latest := LatestTimestamp(items, station.nomestaz);
    if latest.Err? then Step(items, Err(latest.error))
    else if station.timestamp > latest.value then
      Step(UpdateItem(items, "nomestaz", key,
                      map["timestamp" := N(station.timestamp as real), "value" := N(StoredValue(station.value))]),
           Ok(()))
    else if response.None? then Step(items, Err(KeyError("Item")))
    else if response.value == map[] then
      match Apis.ToDict(station)
      case Ok(item) => Step(items[key := item], Ok(()))
      case Err(e) => Step(items, Err(e))
    else Step(items, Ok(()))
  }

  lemma TruncOfInt(n: int)
    ensures Trunc(n as real) == n
  {
  }

  /** The stored timestamp never decreases: after a successful call it is the larger of the old one and the station's. */
  lemma CheckAndUpdateMonotone(items: Table, station: Apis.StationData)
    requires LatestTimestamp(items, station.nomestaz).Ok?
    ensures var before := LatestTimestamp(items, station.nomestaz).value;
            var st := CheckAndUpdate(items, station);
            st.result.Ok? ==>
              LatestTimestamp(st.items, station.nomestaz) ==
                Ok(if station.timestamp > before then station.timestamp else before)
  {
    var before := LatestTimestamp(items, station.nomestaz).value;
    var st := CheckAndUpdate(items, station);
    if st.result.Ok? && station.timestamp > before {
      var key := S(station.nomestaz);
      assert Get(GetItem(st.items, key, {"timestamp"}).value, "timestamp") == Some(N(station.timestamp as real));
      TruncOfInt(station.timestamp);
    }
  }

  /** Repeating a call with the same station changes nothing and gives the same answer. */
  lemma CheckAndUpdateIdempotent(items: Table, station: Apis.StationData)
    ensures var st := CheckAndUpdate(items, station);
            CheckAndUpdate(st.items, station) == st
  {
    var st := CheckAndUpdate(items, station);
    var latest := LatestTimestamp(items, station.nomestaz);
    if latest.Ok? && station.timestamp > latest.value {
      CheckAndUpdateMonotone(items, station);
    }
  }

  /** Other stations' records are never touched. */
  lemma CheckAndUpdateLocal(items: Table, station: Apis.StationData, other: Attr)
    requires other != S(station.nomestaz)
    ensures var st := CheckAndUpdate(items, station);
            (other in st.items <==> other in items) && (other in items ==> st.items[other] == items[other])
  {
    var st := CheckAndUpdate(items, station);
    assert other in st.items - {S(station.nomestaz)} <==> other in items - {S(station.nomestaz)};
  }

  // ---------------------------------------------------------------------------
  // check_throttled_user
  // ---------------------------------------------------------------------------

  /** int(...) of a stored count, reading a missing count as 0. */
  function StoredCount(response: Item): (r: Result<int>)
    ensures "count" !in response ==> r == Ok(0)
    ensures "count" in response ==> r == IntOfAttr(Get(response, "count"))
  {
    IntOfAttr(Some(if "count" in response then response["count"] else N(0.0)))
  }

  /**
   * check_throttled_user as a function of the table and of now (epoch
   * seconds). An unknown user is put with count 1; a known one within the
   * threshold gets count + 1; a known one over it keeps its count and is told
   * how long until its old ttl. Every branch sets ttl to now + 15 minutes.
   */
  function Throttle(items: Table, user: Item, now: int): (st: Step<int>)
    requires "id" in user
    ensures user["id"] !in items ==>
              st == Step(items[user["id"] := user + map["count" := N(1.0), "ttl" := N((now + THROTTLING_TIME * 60) as real)]], Ok(0))
    ensures st.items - {user["id"]} == items - {user["id"]}
    ensures user["id"] in items && StoredCount(items[user["id"]]).Err? ==>
              st == Step(items, Err(StoredCount(items[user["id"]]).error))
    ensures user["id"] !in items || StoredCount(items[user["id"]]).Ok? ==>
              && user["id"] in st.items && "ttl" in st.items[user["id"]]
              && st.items[user["id"]]["ttl"] == N((now + THROTTLING_TIME * 60) as real)
    ensures var key := user["id"];
            key in items && StoredCount(items[key]).Ok? && StoredCount(items[key]).value <= THROTTLING_THRESHOLD ==>
              && st.result == Ok(0)
              && "count" in st.items[key]
              && st.items[key]["count"] == N((if "count" in items[key] then items[key]["count"].n else 0.0) + 1.0)
              && st.items[key] - {"count", "ttl"} == items[key] - {"count", "ttl"}
    ensures var key := user["id"];
            key in items && StoredCount(items[key]).Ok? && StoredCount(items[key]).value > THROTTLING_THRESHOLD ==>
              && st.result == (match IntOfAttr(Get(items[key], "ttl"))
                               case Ok(ttl) => Ok(ttl - now)
                               case Err(e) => Err(e))
              && st.items[key] - {"ttl"} == items[key] - {"ttl"}
  {
    var key := user["id"];
    var response := GetItem(items, key, {"count", "ttl"});
    var nowWithWaitTime := now + THROTTLING_TIME * 60;
    if response.Some? then
      var count := StoredCount(response.value);
      if count.Err? then Step(items, Err(count.error))
      else if count.value > THROTTLING_THRESHOLD then
        var updated := UpdateItem(items, "id", key, map["ttl" := N(nowWithWaitTime as real)]);
        var ttl := IntOfAttr(Get(response.value, "ttl"));
        if ttl.Err? then Step(updated, Err(ttl.error))
        else Step(updated, Ok(ttl.value - now))
      else
        var stored := if "count" in response.value then response.value["count"].n else 0.0;
        Step(UpdateItem(items, "id", key, map["count" := N(stored + 1.0), "ttl" := N(nowWithWaitTime as real)]), Ok(0))
    else
      Step(items[key := user + map["count" := N(1.0), "ttl" := N(nowWithWaitTime as real)]], Ok(0))
  }

  /** The table and the answers after a user's successive requests at the given instants. */
  function Replay(items: Table, user: Item, nows: seq<int>): (r: (Table, seq<Result<int>>))
    requires "id" in user
    ensures |r.1| == |nows|
  {
    if nows == [] then (items, [])
    else
      var before := Replay(items, user, nows[..|nows| - 1]);
      var st := Throttle(before.0, user, nows[|nows| - 1]);
      (st.items, before.1 + [st.result])
  }

  /**
   * From a user with no record, the first n <= 6 requests are all answered 0,
   * and the record then holds count n and the ttl set by the last of them.
   */
  lemma {:induction false} ReplayWithinAllowance(items: Table, user: Item, nows: seq<int>)
    requires "id" in user && user["id"] !in items
    requires 1 <= |nows| <= THROTTLING_THRESHOLD + 1
    ensures var r := Replay(items, user, nows);
            && (forall i :: 0 <= i < |nows| ==> r.1[i] == Ok(0))
            && user["id"] in r.0
            && r.0[user["id"]]["count"] == N(|nows| as real)
            && r.0[user["id"]]["ttl"] == N((nows[|nows| - 1] + THROTTLING_TIME * 60) as real)
  {
    var prefix := nows[..|nows| - 1];
    var before := Replay(items, user, prefix);
    if |nows| > 1 {
      ReplayWithinAllowance(items, user, prefix);
      var key := user["id"];
      var item := before.0[key];
      assert StoredCount(item) == Ok(|prefix|) by {
        TruncOfInt(|prefix|);
      }
    }
  }

  /** A user over the threshold keeps its count and is told the time left until its stored ttl. */
  lemma ThrottledKeepsCount(items: Table, user: Item, now: int, ttl: int)
    requires "id" in user && user["id"] in items
    requires StoredCount(items[user["id"]]).Ok? && StoredCount(items[user["id"]]).value > THROTTLING_THRESHOLD
    requires Get(items[user["id"]], "ttl") == Some(N(ttl as real))
    ensures var st := Throttle(items, user, now);
            && st.result == Ok(ttl - now)
            && ("count" in items[user["id"]] ==>
                  "count" in st.items[user["id"]] && st.items[user["id"]]["count"] == items[user["id"]]["count"])
  {
    var key := user["id"];
    var st := Throttle(items, user, now);
    TruncOfInt(ttl);
    if "count" in items[key] {
      assert "count" in st.items[key] - {"ttl"};
    }
  }

  /**
   * The request after six unthrottled ones is throttled: the count is not
   * increased and the answer is the time left until the ttl set by the sixth.
   */
  lemma SeventhRequestThrottled(items: Table, user: Item, nows: seq<int>)
    requires "id" in user && user["id"] !in items
    requires |nows| == THROTTLING_THRESHOLD + 2
    ensures var r := Replay(items, user, nows);
            && r.1[|nows| - 1] == Ok(nows[|nows| - 2] + THROTTLING_TIME * 60 - nows[|nows| - 1])
            && user["id"] in r.0 && "count" in r.0[user["id"]]
            && r.0[user["id"]]["count"] == N((THROTTLING_THRESHOLD + 1) as real)
  {
    var prefix := nows[..|nows| - 1];
    ReplayWithinAllowance(items, user, prefix);
    var before := Replay(items, user, prefix);
    var key := user["id"];
    TruncOfInt(|prefix|);
    assert StoredCount(before.0[key]) == Ok(|prefix|);
    ThrottledKeepsCount(before.0, user, nows[|nows| - 1], nows[|nows| - 2] + THROTTLING_TIME * 60);
  }

  // ---------------------------------------------------------------------------
  // The client
  // ---------------------------------------------------------------------------

  /** An AsyncDynamoDB bound to one table. */
  class AsyncDynamoDB {
    var items: Table

    constructor (items: Table)
      ensures this.items == items
    {
      this.items := items;
    }

    /**
     * check_and_update_stazioni on the client's own table: the in-place
     * counterpart of CheckAndUpdate, step for step as the source runs it.
     */
    method CheckAndUpdateStazioni(station: Apis.Station) returns (r: Result<()>)
      modifies this
      ensures Step(items, r) == CheckAndUpdate(old(items), station.Data())
    {
      var key := S(station.nomestaz);
      var response := GetItem(items, key, {"timestamp"});
      var latest := 0;
      if response.Some? {
        latest :- IntOfAttr(Get(response.value, "timestamp"));
      }
      if station.timestamp > latest {
        var newValue := if station.value.Some? then station.value.value else UNKNOWN_VALUE;
        items := UpdateItem(items, "nomestaz", key,
                            map["timestamp" := N(station.timestamp as real), "value" := N(newValue)]);
      } else if response.None? {
        return Err(KeyError("Item"));
      } else if response.value == map[] {
        // put_item(Item=station.to_dict()) is never reached: the stored
        // item's timestamp was just read, so the projected item is not empty.
        assert false;
      }
      return Ok(());
    }

    /** An exact-key lookup on the station name. */
    function GetMatchingStation(name: string): (r: Result<Option<Apis.StationData>>)
      reads this
      ensures r == Ok(None) <==> S(name) !in items
      ensures r.Ok? && r.value.Some? ==> S(name) in items && "nomestaz" in items[S(name)] && items[S(name)]["nomestaz"] == S(r.value.value.nomestaz)
    {
      if S(name) in items then
        match Apis.FromItem(items[S(name)])
        case Ok(s) => Ok(Some(s))
        case Err(e) => Err(e)
      else Ok(None)
    }

    /**
     * check_throttled_user on the client's own table: the in-place
     * counterpart of Throttle, step for step as the source runs it.
     */
    method CheckThrottledUser(user: Item, now: int) returns (r: Result<int>)
      requires "id" in user
      modifies this
      ensures Step(items, r) == Throttle(old(items), user, now)
    {
      var key := user["id"];
      var response := GetItem(items, key, {"count", "ttl"});
      var nowWithWaitTime := now + THROTTLING_TIME * 60;
      if response.Some? {
        var count :- StoredCount(response.value);
        if count > THROTTLING_THRESHOLD {
          items := UpdateItem(items, "id", key, map["ttl" := N(nowWithWaitTime as real)]);
          var ttl :- IntOfAttr(Get(response.value, "ttl"));
          return Ok(ttl - now);
        }
        var stored := if "count" in response.value then response.value["count"].n else 0.0;
        items := UpdateItem(items, "id", key, map["count" := N(stored + 1.0), "ttl" := N(nowWithWaitTime as real)]);
      } else {
        items := items[key := user + map["count" := N(1.0), "ttl" := N(nowWithWaitTime as real)]];
      }
      return Ok(0);
    }
  }

  /** A station stored through its projection is found again under its exact name. */
  lemma MatchFindsStoredStation(db: AsyncDynamoDB, s: Apis.StationData)
    requires s.value.Some?
    requires S(s.nomestaz) in db.items && Apis.ToDict(s).Ok? && db.items[S(s.nomestaz)] == Apis.ToDict(s).value
    ensures db.GetMatchingStation(s.nomestaz) ==
            Ok(Some(if s.value == Some(0.0) then s.(value := Some(Apis.UNKNOWN_VALUE)) else s))
  {
    Apis.ToDictRoundTrip(s);
  }

  /**
   * A station seen for the first time is stored by update_item as an item
   * holding only nomestaz, timestamp and value, which Stazione(**item) rejects.
   */
  lemma NewStationStoredPartially(items: Table, station: Apis.StationData)
    requires S(station.nomestaz) !in items && station.timestamp > 0
    ensures var st := CheckAndUpdate(items, station);
            && st.result == Ok(())
            && st.items[S(station.nomestaz)].Keys == {"nomestaz", "timestamp", "value"}
            && Apis.FromItem(st.items[S(station.nomestaz)]) == Err(TypeError)
  {
    var st := CheckAndUpdate(items, station);
    assert "idstazione" in Apis.StationAttrs && "idstazione" !in st.items[S(station.nomestaz)];
  }
}
