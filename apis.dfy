/**
 * The upstream side of the bot (app/erfiume/apis.py): the Stazione and
 * Valore entities, the interpretation of the two sensor-values responses and
 * of a station's time series, the enrichment of every station with its
 * freshest reading, and the alarm chosen when a station is shown to a user.
 * Responses are taken already parsed; the HTTP calls are not modelled.
 */
module Apis {
  import opened Values

  /** Stands for "no measurement available". */
  const UNKNOWN_VALUE: real := -9999.0

  /** The keyword arguments of Stazione besides timestamp, i.e. the keys of a roster record. */
  const RecordKeys: set<string> :=
    {"idstazione", "ordinamento", "nomestaz", "lon", "lat", "soglia1", "soglia2", "soglia3", "value"}

  /** All ten fields of a Stazione, i.e. the attributes of its stored item. */
  const StationAttrs: set<string> := RecordKeys + {"timestamp"}

  // ---------------------------------------------------------------------------
  // Entities
  // ---------------------------------------------------------------------------

  /**
   * The ten fields of a Stazione at one moment. value is None only when
   * enrichment copied a reading whose v was null; construction never leaves it None.
   */
  datatype StationData = StationData(
    timestamp: int,
    idstazione: string,
    ordinamento: int,
    nomestaz: string,
    lon: string,
    lat: string,
    soglia1: real,
    soglia2: real,
    soglia3: real,
    value: Option<real>)

  /** `value or UNKNOWN_VALUE`: None and 0.0 are both falsy in Python. */
  function OrUnknown(value: Option<real>): (r: real)
    ensures r != 0.0
    ensures r == UNKNOWN_VALUE <==> value in {None, Some(0.0), Some(UNKNOWN_VALUE)}
    ensures value.Some? && value.value != 0.0 ==> r == value.value
  {
    match value
    case None => UNKNOWN_VALUE
    case Some(v) => if v == 0.0 then UNKNOWN_VALUE else v
  }

  /** Stazione(...) followed by __post_init__. */
  function NewStation(timestamp: int, idstazione: string, ordinamento: int, nomestaz: string,
                      lon: string, lat: string, soglia1: real, soglia2: real, soglia3: real,
                      value: Option<real>): (s: StationData)
    ensures s.value == Some(OrUnknown(value))
    ensures s.value.Some? && s.value.value != 0.0
    ensures s.(value := value) ==
            StationData(timestamp, idstazione, ordinamento, nomestaz, lon, lat, soglia1, soglia2, soglia3, value)
  {
    StationData(timestamp, idstazione, ordinamento, nomestaz, lon, lat, soglia1, soglia2, soglia3,
                Some(OrUnknown(value)))
  }

  /** A Stazione object: the enrichment step updates timestamp and value in place. */
  class Station {
    var timestamp: int
    var idstazione: string
    var ordinamento: int
    var nomestaz: string
    var lon: string
    var lat: string
    var soglia1: real
    var soglia2: real
    var soglia3: real
    var value: Option<real>

    function Data(): StationData
      reads this
    {
      StationData(timestamp, idstazione, ordinamento, nomestaz, lon, lat, soglia1, soglia2, soglia3, value)
    }

    constructor (timestamp: int, idstazione: string, ordinamento: int, nomestaz: string,
                 lon: string, lat: string, soglia1: real, soglia2: real, soglia3: real,
                 value: Option<real>)
      ensures Data() == NewStation(timestamp, idstazione, ordinamento, nomestaz, lon, lat,
                                   soglia1, soglia2, soglia3, value)
      ensures this.value.Some? && this.value.value != 0.0
    {
      this.timestamp := timestamp;
      this.idstazione := idstazione;
      this.ordinamento := ordinamento;
      this.nomestaz := nomestaz;
      this.lon := lon;
      this.lat := lat;
      this.soglia1 := soglia1;
      this.soglia2 := soglia2;
      this.soglia3 := soglia3;
      this.value := value;
      new;
      // __post_init__
      this.value := Some(OrUnknown(this.value));
    }
  }

  /** One sample of a station's time series: t in epoch milliseconds, v as sent (possibly null). */
  datatype Reading = Reading(t: int, v: Option<real>)

  // ---------------------------------------------------------------------------
  // Projection to a storage item and back
  // ---------------------------------------------------------------------------

  /** to_dict: every number becomes a Decimal; Decimal(str(None)) raises. */
  function ToDict(s: StationData): (r: Result<Item>)
    ensures r.Ok? <==> s.value.Some?
    ensures r.Err? ==> r.error == InvalidOperation
    ensures r.Ok? ==> r.value.Keys == StationAttrs
    ensures r.Ok? ==> r.value["nomestaz"] == S(s.nomestaz) && r.value["timestamp"] == N(s.timestamp as real)
  {
    match s.value
    case None => Err(InvalidOperation)
    case Some(v) =>
      Ok(map["timestamp" := N(s.timestamp as real),
             "idstazione" := S(s.idstazione),
             "ordinamento" := N(s.ordinamento as real),
             "nomestaz" := S(s.nomestaz),
             "lon" := S(s.lon),
             "lat" := S(s.lat),
             "soglia1" := N(s.soglia1),
             "soglia2" := N(s.soglia2),
             "soglia3" := N(s.soglia3),
             "value" := N(v)])
  }

  function AttrInt(a: Attr): Result<int> {
    if a.N? && IsIntegral(a.n) then Ok(a.n.Floor) else Err(TypeError)
  }

  function AttrStr(a: Attr): Result<string> {
    if a.S? then Ok(a.s) else Err(TypeError)
  }

  function AttrReal(a: Attr): Result<real> {
    if a.N? then Ok(a.n) else Err(TypeError)
  }

  /** Stazione(**item): exactly the ten fields are accepted, and __post_init__ runs. */
  function FromItem(item: Item): (r: Result<StationData>)
    ensures item.Keys != StationAttrs ==> r == Err(TypeError)
    ensures r.Ok? ==> r.value.value.Some? && r.value.value.value != 0.0
    ensures r.Ok? ==> item["nomestaz"] == S(r.value.nomestaz)
  {
    if item.Keys != StationAttrs then Err(TypeError)
    else
      var timestamp :- AttrInt(item["timestamp"]);
      var idstazione :- AttrStr(item["idstazione"]);
      var ordinamento :- AttrInt(item["ordinamento"]);
      var nomestaz :- AttrStr(item["nomestaz"]);
      var lon :- AttrStr(item["lon"]);
      var lat :- AttrStr(item["lat"]);
      var soglia1 :- AttrReal(item["soglia1"]);
      var soglia2 :- AttrReal(item["soglia2"]);
      var soglia3 :- AttrReal(item["soglia3"]);
      var value :- AttrReal(item["value"]);
      Ok(NewStation(timestamp, idstazione, ordinamento, nomestaz, lon, lat, soglia1, soglia2, soglia3,
                    Some(value)))
  }

  /**
   * Rebuilding a station from its projection gives back all ten fields, except
   * that a value of 0 comes back as the sentinel.
   */
  lemma ToDictRoundTrip(s: StationData)
    requires s.value.Some?
    ensures ToDict(s).Ok?
    ensures FromItem(ToDict(s).value) ==
            Ok(if s.value == Some(0.0) then s.(value := Some(UNKNOWN_VALUE)) else s)
  {
    var item := ToDict(s).value;
    assert item["timestamp"] == N(s.timestamp as real);
    assert item["ordinamento"] == N(s.ordinamento as real);
  }

  // ---------------------------------------------------------------------------
  // Alarm selection in Stazione.create_station_message
  // ---------------------------------------------------------------------------

  /** The alarm emoji: NoAlarm is the empty string. */
  datatype Alarm = NoAlarm | Green | Yellow | Orange | Red

  /** What the message shows as the value. */
  datatype Shown = Value(v: real) | NotAvailable

  datatype Classification = Classification(shown: Shown, alarm: Alarm)

  /**
   * The if/elif chain over (value, soglia1, soglia2, soglia3), then the
   * sentinel override. The thresholds are not assumed to be ascending.
   */
  function Classify(value: real, yellow: real, orange: real, red: real): (c: Classification)
    ensures value == UNKNOWN_VALUE ==> c == Classification(NotAvailable, NoAlarm)
    ensures value != UNKNOWN_VALUE ==> c.shown == Value(value) && c.alarm != NoAlarm
    ensures value != UNKNOWN_VALUE ==>
      && (c.alarm == Green <==> value <= yellow)
      && (c.alarm == Yellow <==> yellow < value <= orange)
      && (c.alarm == Orange <==> !(value <= yellow) && !(yellow < value <= orange) && orange <= value <= red)
      && (c.alarm == Red <==> !(value <= yellow) && !(yellow < value <= orange) && !(orange <= value <= red))
  {
    var alarm :=
      if value <= yellow then Green
      else if value > yellow && value <= orange then Yellow
      else if value >= orange && value <= red then Orange
      else Red;
    if value == UNKNOWN_VALUE then Classification(NotAvailable, NoAlarm)
    else Classification(Value(value), alarm)
  }

  /** The rank of a coloured alarm, from green (0) to red (3). */
  function Severity(a: Alarm): nat {
    match a
    case NoAlarm => 0
    case Green => 0
    case Yellow => 1
    case Orange => 2
    case Red => 3
  }

  /**
   * With ascending thresholds the four colours are the consecutive intervals
   * (-inf, yellow], (yellow, orange], (orange, red], (red, +inf), so a higher
   * reading never gets a milder alarm.
   */
  lemma ClassifyAscending(v: real, w: real, yellow: real, orange: real, red: real)
    requires yellow <= orange <= red
    requires v != UNKNOWN_VALUE && w != UNKNOWN_VALUE
    ensures Classify(v, yellow, orange, red).alarm == Orange <==> orange < v <= red
    ensures Classify(v, yellow, orange, red).alarm == Red <==> red < v
    ensures v <= w ==> Severity(Classify(v, yellow, orange, red).alarm) <= Severity(Classify(w, yellow, orange, red).alarm)
  {
  }

  /** Thresholds out of order empty a band: orange above red never gives Orange, yellow above orange never gives Yellow. */
  lemma ClassifyInverted(v: real, yellow: real, orange: real, red: real)
    ensures red < orange ==> Classify(v, yellow, orange, red).alarm != Orange
    ensures orange < yellow ==> Classify(v, yellow, orange, red).alarm != Yellow
  {
  }

  // ---------------------------------------------------------------------------
  // fetch_latest_time
  // ---------------------------------------------------------------------------

  /** int(data[0]["time"]); IndexError and KeyError are re-raised. */
  function FetchLatestTime(data: seq<Record>): (r: Result<int>)
    ensures |data| == 0 ==> r == Err(IndexError)
    ensures |data| > 0 && "time" !in data[0] ==> r == Err(KeyError("time"))
    ensures r.Ok? <==> |data| > 0 && "time" in data[0] && (data[0]["time"].Int? || data[0]["time"].Num?)
    ensures r.Ok? && data[0]["time"].Int? ==> r.value == data[0]["time"].i
    ensures r.Ok? && data[0]["time"].Num? ==> r.value == Trunc(data[0]["time"].r)
  {
    if |data| == 0 then Err(IndexError)
    else if "time" !in data[0] then Err(KeyError("time"))
    else IntOfJson(data[0]["time"])
  }

  // ---------------------------------------------------------------------------
  // fetch_stations_data
  // ---------------------------------------------------------------------------

  /** The records without a "time" key, in input order. */
  function Kept(data: seq<Record>): (kept: seq<Record>)
    ensures |kept| <= |data|
    ensures forall i :: 0 <= i < |kept| ==> "time" !in kept[i]
  {
    if data == [] then []
    else (if "time" in data[0] then [] else [data[0]]) + Kept(data[1..])
  }

  /** Filtering distributes over concatenation, hence keeps the input order. */
  lemma {:induction false} KeptConcat(a: seq<Record>, b: seq<Record>)
    ensures Kept(a + b) == Kept(a) + Kept(b)
  {
    if a == [] {
      assert a + b == b;
    } else {
      assert (a + b)[1..] == a[1..] + b;
      KeptConcat(a[1..], b);
    }
  }

  lemma {:induction false} KeptNoTime(data: seq<Record>)
    requires forall i :: 0 <= i < |data| ==> "time" !in data[i]
    ensures Kept(data) == data
  {
    if data != [] {
      KeptNoTime(data[1..]);
    }
  }

  /** A roster of N records of which exactly one carries "time" gives the other N-1, in order. */
  lemma KeptDropsTimeRecord(data: seq<Record>, k: nat)
    requires k < |data| && "time" in data[k]
    requires forall i :: 0 <= i < |data| && i != k ==> "time" !in data[i]
    ensures Kept(data) == data[..k] + data[k + 1..]
    ensures |Kept(data)| == |data| - 1
  {
    assert data == data[..k] + ([data[k]] + data[k + 1..]);
    KeptConcat(data[..k], [data[k]] + data[k + 1..]);
    KeptConcat([data[k]], data[k + 1..]);
    KeptNoTime(data[..k]);
    KeptNoTime(data[k + 1..]);
    assert Kept([data[k]]) == [] + Kept([]);
  }

  /** `v if v is not None else UNKNOWN_VALUE` on every field of a record. */
  function WithSentinel(rec: Record): (out: Record)
    ensures out.Keys == rec.Keys
    ensures forall k :: k in out ==> out[k] != Null
    ensures forall k :: k in rec && rec[k] != Null ==> out[k] == rec[k]
    ensures forall k :: k in rec && rec[k] == Null ==> out[k] == Num(UNKNOWN_VALUE)
  {
    map k | k in rec :: if rec[k] == Null then Num(UNKNOWN_VALUE) else rec[k]
  }

  function JsonStr(j: JsonVal): Result<string> {
    if j.Str? then Ok(j.s) else Err(TypeError)
  }

  function JsonInt(j: JsonVal): Result<int> {
    if j.Int? then Ok(j.i)
    else if j.Num? && IsIntegral(j.r) then Ok(j.r.Floor)
    else Err(TypeError)
  }

  function JsonReal(j: JsonVal): Result<real> {
    if j.Num? then Ok(j.r)
    else if j.Int? then Ok(j.i as real)
    else Err(TypeError)
  }

  /** The nine record keys, text where a Stazione field is a str, numbers elsewhere. */
  predicate Buildable(rec: Record) {
    && rec.Keys == RecordKeys
    && rec["idstazione"].Str? && rec["nomestaz"].Str? && rec["lon"].Str? && rec["lat"].Str?
    && JsonInt(rec["ordinamento"]).Ok?
    && JsonReal(rec["soglia1"]).Ok? && JsonReal(rec["soglia2"]).Ok? && JsonReal(rec["soglia3"]).Ok?
    && JsonReal(rec["value"]).Ok?
  }

  /** Stazione(timestamp=time, **rec): exactly the nine record keys are accepted. */
  function StationFromRecord(time: int, rec: Record): (r: Result<StationData>)
    ensures rec.Keys != RecordKeys ==> r == Err(TypeError)
    ensures r.Ok? <==> Buildable(rec)
    ensures r.Err? ==> r.error == TypeError
    ensures r.Ok? ==> r.value.timestamp == time
    ensures r.Ok? ==> r.value.value.Some? && r.value.value.value != 0.0
    ensures r.Ok? ==> rec["nomestaz"] == Str(r.value.nomestaz) && rec["idstazione"] == Str(r.value.idstazione)
    ensures r.Ok? ==> rec["lon"] == Str(r.value.lon) && rec["lat"] == Str(r.value.lat)
    ensures r.Ok? ==> JsonInt(rec["ordinamento"]) == Ok(r.value.ordinamento)
    ensures r.Ok? ==> && JsonReal(rec["soglia1"]) == Ok(r.value.soglia1)
                      && JsonReal(rec["soglia2"]) == Ok(r.value.soglia2)
                      && JsonReal(rec["soglia3"]) == Ok(r.value.soglia3)
    ensures r.Ok? ==> JsonReal(rec["value"]).Ok? && r.value.value == Some(OrUnknown(Some(JsonReal(rec["value"]).value)))
  {
    if rec.Keys != RecordKeys then Err(TypeError)
    else
      var idstazione :- JsonStr(rec["idstazione"]);
      var ordinamento :- JsonInt(rec["ordinamento"]);
      var nomestaz :- JsonStr(rec["nomestaz"]);
      var lon :- JsonStr(rec["lon"]);
      var lat :- JsonStr(rec["lat"]);
      var soglia1 :- JsonReal(rec["soglia1"]);
      var soglia2 :- JsonReal(rec["soglia2"]);
      var soglia3 :- JsonReal(rec["soglia3"]);
      var value :- JsonReal(rec["value"]);
      Ok(NewStation(time, idstazione, ordinamento, nomestaz, lon, lat, soglia1, soglia2, soglia3,
                    Some(value)))
  }

  /**
   * The list comprehension of fetch_stations_data: records carrying "time" are
   * dropped, nulls become the sentinel, and each station is stamped with time.
   * One record that cannot build a station makes the whole call fail.
   */
  function FetchStationsData(data: seq<Record>, time: int): (r: Result<seq<StationData>>)
    ensures r.Ok? ==> |r.value| == |Kept(data)|
    ensures r.Ok? ==> forall i :: 0 <= i < |r.value| ==>
                        StationFromRecord(time, WithSentinel(Kept(data)[i])) == Ok(r.value[i])
    ensures r.Ok? ==> forall i :: 0 <= i < |r.value| ==> r.value[i].timestamp == time && r.value[i].value.Some?
    ensures r.Err? ==> exists i :: 0 <= i < |Kept(data)| && StationFromRecord(time, WithSentinel(Kept(data)[i])) == Err(r.error)
    ensures r.Ok? <==> forall i :: 0 <= i < |Kept(data)| ==> StationFromRecord(time, WithSentinel(Kept(data)[i])).Ok?
  {
    var r := MapAll(Kept(data), rec => StationFromRecord(time, WithSentinel(rec)));
    assert r.Err? ==> exists i :: 0 <= i < |Kept(data)| && StationFromRecord(time, WithSentinel(Kept(data)[i])).Err?;
    r
  }

  /** A null threshold or value in a kept record arrives as the sentinel, never as None. */
  lemma FetchStationsDataNulls(data: seq<Record>, time: int, i: nat)
    requires FetchStationsData(data, time).Ok?
    requires i < |Kept(data)|
    ensures var s := FetchStationsData(data, time).value[i];
            var rec := Kept(data)[i];
            && (rec["soglia1"] == Null ==> s.soglia1 == UNKNOWN_VALUE)
            && (rec["soglia2"] == Null ==> s.soglia2 == UNKNOWN_VALUE)
            && (rec["soglia3"] == Null ==> s.soglia3 == UNKNOWN_VALUE)
            && (rec["value"] == Null ==> s.value == Some(UNKNOWN_VALUE))
            && (rec["value"] == Num(0.0) ==> s.value == Some(UNKNOWN_VALUE))
            && (rec["ordinamento"] == Null ==> s.ordinamento == -9999)
  {
    var rec := Kept(data)[i];
    assert StationFromRecord(time, WithSentinel(rec)) == Ok(FetchStationsData(data, time).value[i]);
    RecordNulls(time, rec);
  }

  /** One record: what its nulls and a zero value become in the station built from it. */
  lemma RecordNulls(time: int, rec: Record)
    requires StationFromRecord(time, WithSentinel(rec)).Ok?
    ensures var s := StationFromRecord(time, WithSentinel(rec)).value;
            && (rec["soglia1"] == Null ==> s.soglia1 == UNKNOWN_VALUE)
            && (rec["soglia2"] == Null ==> s.soglia2 == UNKNOWN_VALUE)
            && (rec["soglia3"] == Null ==> s.soglia3 == UNKNOWN_VALUE)
            && (rec["value"] == Null ==> s.value == Some(UNKNOWN_VALUE))
            && (rec["value"] == Num(0.0) ==> s.value == Some(UNKNOWN_VALUE))
            && (rec["ordinamento"] == Null ==> s.ordinamento == -9999)
  {
    assert WithSentinel(rec).Keys == RecordKeys;
  }

  /** The station built from one record carries that record's name. */
  lemma RecordName(time: int, rec: Record, s: StationData)
    requires StationFromRecord(time, WithSentinel(rec)) == Ok(s)
    ensures rec["nomestaz"] == Str(s.nomestaz)
  {
    assert WithSentinel(rec).Keys == RecordKeys;
  }

  /** Every kept record comes from the input, so it has any property all records without "time" have. */
  lemma {:induction false} KeptHolds(data: seq<Record>, p: Record -> bool)
    requires forall i :: 0 <= i < |data| && "time" !in data[i] ==> p(data[i])
    ensures forall i :: 0 <= i < |Kept(data)| ==> p(Kept(data)[i])
  {
    if data != [] {
      KeptHolds(data[1..], p);
      assert forall i :: 1 <= i < |data| ==> data[1..][i - 1] == data[i];
    }
  }

  /** When every kept record is well formed, fetch_stations_data succeeds. */
  lemma FetchStationsDataBuildable(data: seq<Record>, time: int)
    requires forall i :: 0 <= i < |Kept(data)| ==> Buildable(WithSentinel(Kept(data)[i]))
    ensures FetchStationsData(data, time).Ok?
  {
  }

  /** Station i of a successful fetch carries the name of kept record i. */
  lemma FetchStationsDataNames(data: seq<Record>, time: int)
    requires FetchStationsData(data, time).Ok?
    ensures forall i :: 0 <= i < |Kept(data)| ==>
              Kept(data)[i]["nomestaz"] == Str(FetchStationsData(data, time).value[i].nomestaz)
  {
    var r := FetchStationsData(data, time);
    forall i | 0 <= i < |Kept(data)|
      ensures Kept(data)[i]["nomestaz"] == Str(r.value[i].nomestaz)
    {
      RecordName(time, Kept(data)[i], r.value[i]);
    }
  }

  /**
   * A response of N records, one of them the echo carrying "time" and every
   * other one well formed, gives N - 1 stations, one per other record in
   * input order and named as it.
   */
  lemma FetchStationsDataDropsEcho(data: seq<Record>, time: int, k: nat)
    requires k < |data| && "time" in data[k]
    requires forall i :: 0 <= i < |data| && i != k ==> "time" !in data[i] && Buildable(WithSentinel(data[i]))
    ensures FetchStationsData(data, time).Ok?
    ensures |FetchStationsData(data, time).value| == |data| - 1
    ensures Kept(data) == data[..k] + data[k + 1..]
    ensures forall i :: 0 <= i < |data| - 1 ==>
              Kept(data)[i]["nomestaz"] == Str(FetchStationsData(data, time).value[i].nomestaz)
  {
    KeptDropsTimeRecord(data, k);
    KeptHolds(data, rec => Buildable(WithSentinel(rec)));
    FetchStationsDataBuildable(data, time);
    FetchStationsDataNames(data, time);
  }

  // ---------------------------------------------------------------------------
  // fetch_time_series
  // ---------------------------------------------------------------------------

  function JsonOptReal(j: JsonVal): Result<Option<real>> {
    match j
    case Null => Ok(None)
    case Num(x) => Ok(Some(x))
    case Int(i) => Ok(Some(i as real))
    case Str(_) => Err(TypeError)
  }

  /** Valore(**rec) followed by __post_init__, which coerces t with int(). */
  function ReadingFromRecord(rec: Record): (r: Result<Reading>)
    ensures rec.Keys != {"t", "v"} ==> r == Err(TypeError)
    ensures r.Ok? <==> rec.Keys == {"t", "v"} && IntOfJson(rec["t"]).Ok? && !rec["v"].Str?
    ensures r.Ok? ==> IntOfJson(rec["t"]) == Ok(r.value.t)
    ensures r.Ok? && rec["v"].Num? ==> r.value.v == Some(rec["v"].r)
    ensures r.Ok? && rec["v"].Int? ==> r.value.v == Some(rec["v"].i as real)
    ensures r.Ok? && rec["v"].Null? ==> r.value.v == None
  {
    if rec.Keys != {"t", "v"} then Err(TypeError)
    else
      var t :- IntOfJson(rec["t"]);
      var v :- JsonOptReal(rec["v"]);
      Ok(Reading(t, v))
  }

  /** [Valore(**valore) for valore in response.json()]: all readings, or the first exception. */
  function FetchTimeSeries(data: seq<Record>): (r: Result<seq<Reading>>)
    ensures r.Ok? <==> forall i :: 0 <= i < |data| ==> ReadingFromRecord(data[i]).Ok?
    ensures r.Ok? ==> |r.value| == |data| && forall i :: 0 <= i < |data| ==> ReadingFromRecord(data[i]) == Ok(r.value[i])
  {
    MapAll(data, ReadingFromRecord)
  }

  // ---------------------------------------------------------------------------
  // enrich_data
  // ---------------------------------------------------------------------------

  /**
   * max(readings, key=lambda x: x.t): a left-to-right scan that replaces the
   * current maximum only by a strictly later reading, so ties keep the first.
   */
  function LatestIndex(readings: seq<Reading>): (k: nat)
    requires |readings| > 0
    ensures k < |readings|
    ensures forall j :: 0 <= j < |readings| ==> readings[j].t <= readings[k].t
    ensures forall j :: 0 <= j < k ==> readings[j].t < readings[k].t
  {
    if |readings| == 1 then 0
    else
      var k := LatestIndex(readings[..|readings| - 1]);
      if readings[|readings| - 1].t > readings[k].t then |readings| - 1 else k
  }

  /** What asyncio.gather(..., return_exceptions=True) yields for one station. */
  datatype Outcome = Failed | Fetched(readings: seq<Reading>)

  predicate RaisesOnMax(o: Outcome) {
    o.Fetched? && o.readings == []
  }

  /** The effect of one loop iteration on one station. */
  function Enriched(s: StationData, o: Outcome): (r: Result<StationData>)
    ensures o.Failed? ==> r == Ok(s)
    ensures RaisesOnMax(o) <==> r.Err?
    ensures r.Err? ==> r.error == ValueError
    ensures o.Fetched? && r.Ok? ==>
      && Reading(r.value.timestamp, r.value.value) in o.readings
      && (forall rd :: rd in o.readings ==> rd.t <= r.value.timestamp)
      && r.value == s.(timestamp := r.value.timestamp, value := r.value.value)
  {
    match o
    case Failed => Ok(s)
    case Fetched(readings) =>
      if readings == [] then Err(ValueError)
      else
        var latest := readings[LatestIndex(readings)];
        Ok(s.(timestamp := latest.t, value := latest.v))
  }

  /** Among readings of equal maximal t, the first one is copied. */
  lemma EnrichedTakesFirstLatest(s: StationData, readings: seq<Reading>, j: nat)
    requires j < |readings|
    requires forall i :: 0 <= i < |readings| ==> readings[i].t <= readings[j].t
    requires forall i :: 0 <= i < j ==> readings[i].t < readings[j].t
    ensures Enriched(s, Fetched(readings)) == Ok(s.(timestamp := readings[j].t, value := readings[j].v))
  {
    var k := LatestIndex(readings);
    assert readings[k].t == readings[j].t;
  }

  /** The index of the first station whose successful series is empty, or |results|. */
  function FirstRaise(results: seq<Outcome>): (k: nat)
    ensures k <= |results|
    ensures forall j :: 0 <= j < k ==> !RaisesOnMax(results[j])
    ensures k < |results| ==> RaisesOnMax(results[k])
  {
    if results == [] then 0
    else if RaisesOnMax(results[0]) then 0
    else 1 + FirstRaise(results[1..])
  }

  /**
   * enrich_data's loop over zip(stations, results). A failed fetch leaves its
   * station untouched; a successful one copies the latest reading's v and t.
   * An empty successful series makes max raise ValueError, which escapes after
   * the stations before it have been updated.
   */
  method EnrichData(stations: array<Station>, results: seq<Outcome>) returns (r: Result<()>)
    requires stations.Length == |results|
    requires forall i, j :: 0 <= i < j < stations.Length ==> stations[i] != stations[j]
    modifies set i | 0 <= i < stations.Length :: stations[i]
    ensures stations[..] == old(stations[..])
    ensures r.Ok? <==> FirstRaise(results) == |results|
    ensures r.Err? ==> r.error == ValueError
    ensures forall i :: 0 <= i < FirstRaise(results) ==>
              stations[i].Data() == Enriched(old(stations[i].Data()), results[i]).value
    ensures forall i :: FirstRaise(results) <= i < stations.Length ==>
              stations[i].Data() == old(stations[i].Data())
  {
    var i := 0;
    while i < stations.Length
      invariant 0 <= i <= stations.Length
      invariant i <= FirstRaise(results)
      invariant forall j :: 0 <= j < i ==>
                  stations[j].Data() == Enriched(old(stations[j].Data()), results[j]).value
      invariant forall j :: i <= j < stations.Length ==> stations[j].Data() == old(stations[j].Data())
    {
      match results[i] {
        case Failed =>
          // logged and left as it is
        case Fetched(readings) =>
          if readings == [] {
            return Err(ValueError);
          }
          var latest := readings[LatestIndex(readings)];
          stations[i].value := latest.v;
          stations[i].timestamp := latest.t;
      }
      i := i + 1;
    }
    return Ok(());
  }
}
